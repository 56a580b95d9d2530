/** Filling a battery profile of 100 rows from a device-tree property (fg_custom_parse_table in
    mtk_battery_core.c). */
module ProfileTable {

  const ROWS := 100

  datatype Row = Row(mah: int, voltage: int, resistance: int, resistance2: int)

  /** rows * column, for the two columns there are. */
  function CellsOf(column: nat, rows: int): (cells: int)
    ensures rows >= 0 ==> cells >= 0
  {
    if column == 4 then 4 * rows else 3 * rows
  }

  // ------------------------------------------------------------------ what is read

  /** A cell of the property; reading past its end fails and leaves the local variable as it was. */
  function Cell(cells: seq<int>, k: nat, stale: int): int {
    if k < |cells| then cells[k] else stale
  }

  /** One row read from cell k on: three or four cells, the third standing in for a fourth that is not
      there by design. */
  function ReadFrom(cells: seq<int>, column: nat, k: nat, stale: Row): Row {
    var r := Cell(cells, k + 2, stale.resistance);
    Row(Cell(cells, k, stale.mah), Cell(cells, k + 1, stale.voltage), r,
        if column == 4 then Cell(cells, k + 3, stale.resistance2) else r)
  }

  /** The local variables after the i-th row; `junk` is what they held before the first. */
  function RowAt(cells: seq<int>, column: nat, i: nat, junk: Row): Row
    decreases i
  {
    ReadFrom(cells, column, CellsOf(column, i), if i == 0 then junk else RowAt(cells, column, i - 1, junk))
  }

  /** How many rows n cells make, the last one possibly cut short. */
  function Total(n: nat, column: nat): nat {
    if column == 4 then (n + 3) / 4 else (n + 2) / 3
  }

  /** How many rows of the property are used: at least one, and no more than the profile's size asks. */
  function Used(n: nat, column: nat, size: int): nat {
    var rows := Total(n, column);
    if rows == 0 then 0 else if size <= 1 then 1 else if rows < size then rows else size
  }

  /** The index after p rows falls one short where a fourth cell is missing. */
  function Index(n: nat, column: nat, p: nat): nat {
    if column == 4 && n < 4 * p then 4 * p - 1 else CellsOf(column, p)
  }

  /** How many rows are written: padding goes on until the index has reached the end of 100 rows. */
  function Written(n: nat, column: nat, size: int): nat {
    var used := Used(n, column, size);
    if used == 0 then 0
    else if used > ROWS then used
    else if column == 4 && n < 4 * used then ROWS + 1
    else ROWS
  }

  /** The used rows followed by copies of the last of them. */
  function Filled(cells: seq<int>, column: nat, used: nat, rows: nat, junk: Row): (t: seq<Row>)
    requires 0 < used
    ensures |t| == rows
  {
    seq(rows, j requires 0 <= j => RowAt(cells, column, if j < used then j else used - 1, junk))
  }

  /** Exactly 100 rows are written if and only if there is something to read, no more than 100 rows of it
      are used, and, with four columns, the last row used is complete. */
  lemma HundredRows(n: nat, column: nat, size: int)
    requires column in {3, 4}
    ensures Written(n, column, size) == ROWS <==>
      n > 0 && Used(n, column, size) <= ROWS && (column == 4 ==> 4 * Used(n, column, size) <= n)
  {
  }

  /** Of n complete rows, the first min(n, size) are used. */
  lemma RowsUsed(n: nat, column: nat, size: int)
    requires column in {3, 4} && size >= 1
    ensures Used(CellsOf(column, n), column, size) == if n < size then n else size
  {
  }

  /** That it can fail: five cells of four columns are two rows, and 101 are written. */
  lemma CutShort(n: nat, column: nat, size: int)
    requires n == 5 && column == 4 && size == 2
    ensures Used(n, column, size) == 2 && Written(n, column, size) == ROWS + 1
  {
  }

  /** A complete row is what the property holds there. */
  lemma CompleteRow(cells: seq<int>, column: nat, i: nat, junk: Row)
    requires column in {3, 4} && CellsOf(column, i) + column <= |cells|
    ensures var k := CellsOf(column, i);
      RowAt(cells, column, i, junk) ==
      Row(cells[k], cells[k + 1], cells[k + 2], if column == 4 then cells[k + 3] else cells[k + 2])
  {
  }

  /** Where the property ends inside a row, the missing cells repeat the row before. */
  lemma MissingCells(cells: seq<int>, column: nat, i: nat, junk: Row)
    requires column in {3, 4}
    ensures var k := CellsOf(column, i); var before := if i == 0 then junk else RowAt(cells, column, i - 1, junk);
      && (k >= |cells| ==> RowAt(cells, column, i, junk).mah == before.mah)
      && (k + 1 >= |cells| ==> RowAt(cells, column, i, junk).voltage == before.voltage)
      && (k + 2 >= |cells| ==> RowAt(cells, column, i, junk).resistance == before.resistance)
      && (column == 4 && k + 3 >= |cells| ==> RowAt(cells, column, i, junk).resistance2 == before.resistance2)
  {
  }

  // ------------------------------------------------------------------ the loops

  /** The reads of one iteration. */
  method ReadRow(cells: seq<int>, column: nat, start: nat, stale: Row) returns (row: Row, idx: nat)
    requires column in {3, 4} && start < |cells|
    ensures row == ReadFrom(cells, column, start, stale)
    ensures idx == if column == 4 && start + 3 >= |cells| then start + 3 else start + column
  {
    var mah := cells[start];
    var voltage := Cell(cells, start + 1, stale.voltage);
    var resistance := Cell(cells, start + 2, stale.resistance);
    var resistance2 := stale.resistance2;
    idx := start + 3;
    if column == 4 {
      if idx < |cells| {
        resistance2 := cells[idx];
        idx := idx + 1;
      }
    } else {
      resistance2 := resistance;
    }
    row := Row(mah, voltage, resistance, resistance2);
  }

  /** The first p rows of the table are the first p rows of the property. */
  predicate Holds(t: seq<Row>, cells: seq<int>, column: nat, p: nat, junk: Row) {
    p <= |t| && forall j :: 0 <= j < p ==> t[j] == RowAt(cells, column, j, junk)
  }

  lemma HoldsMore(t: seq<Row>, cells: seq<int>, column: nat, p: nat, junk: Row)
    requires p < |t| && Holds(t, cells, column, p, junk)
    ensures Holds(t[p := RowAt(cells, column, p, junk)], cells, column, p + 1, junk)
  {
  }

  /** The index while p rows have been read. */
  predicate AtRow(n: nat, column: nat, size: int, p: nat, idx: nat) {
    && p <= Used(n, column, size) && idx == Index(n, column, p)
    && (if idx < n then idx == CellsOf(column, p) && p < Used(n, column, size) else p == Used(n, column, size))
  }

  /** One more row: the index moves by a row, less the missing fourth cell, and the loop's exits are right. */
  lemma OneMoreRow(n: nat, column: nat, size: int, p: nat, idx: nat, next: nat)
    requires column in {3, 4} && AtRow(n, column, size, p, idx) && idx < n
    requires next == if column == 4 && idx + 3 >= n then idx + 3 else idx + column
    ensures if next >= CellsOf(column, size) then p + 1 == Used(n, column, size) && next == Index(n, column, p + 1)
            else AtRow(n, column, size, p + 1, next)
  {
  }

  /** The first loop: read rows until the property or the profile's size runs out. */
  method ReadRows(table: array<Row>, cells: seq<int>, column: nat, size: int, junk: Row)
      returns (p: nat, idx: nat, last: Row)
    requires column in {3, 4} && Used(|cells|, column, size) <= table.Length
    modifies table
    ensures p == Used(|cells|, column, size) && idx == Index(|cells|, column, p)
    ensures p > 0 ==> last == RowAt(cells, column, p - 1, junk)
    ensures Holds(table[..], cells, column, p, junk)
    ensures table[p..] == old(table[p..])
  {
    idx, p, last := 0, 0, junk;
    while idx < |cells|
      invariant AtRow(|cells|, column, size, p, idx)
      invariant last == if p == 0 then junk else RowAt(cells, column, p - 1, junk)
      invariant Holds(table[..], cells, column, p, junk)
      invariant table[p..] == old(table[p..])
      decreases Used(|cells|, column, size) - p
    {
      ghost var was, start := table[..], idx;
      last, idx := ReadRow(cells, column, idx, last);
      OneMoreRow(|cells|, column, size, p, start, idx);
      HoldsMore(was, cells, column, p, junk);
      table[p] := last;
      assert table[..] == was[p := last];
      assert table[p + 1..] == was[p..][1..] == old(table[p + 1..]);
      p := p + 1;
      if idx >= CellsOf(column, size) { break; }
    }
  }

  /** From row `used` to row p the table repeats one row. */
  predicate Repeats(t: seq<Row>, used: nat, p: nat, row: Row) {
    used <= p <= |t| && forall j :: used <= j < p ==> t[j] == row
  }

  lemma HoldsAndRepeats(t: seq<Row>, cells: seq<int>, column: nat, used: nat, rows: nat, junk: Row)
    requires 0 < used <= rows <= |t| && Holds(t, cells, column, used, junk)
    requires Repeats(t, used, rows, RowAt(cells, column, used - 1, junk))
    ensures t[..rows] == Filled(cells, column, used, rows, junk)
  {
  }

  /** fg_custom_parse_table. The first rows are the property's, up to the profile's size; the rest repeat
      the last of them. A missing property leaves the profile alone. */
  method ParseTable(table: array<Row>, cells: seq<int>, column: nat, size: int, junk: Row)
    requires column in {3, 4} && Written(|cells|, column, size) <= table.Length
    modifies table
    ensures var used, rows := Used(|cells|, column, size), Written(|cells|, column, size);
      && (cells == [] <==> used == 0)
      && (used > 0 ==> table[..rows] == Filled(cells, column, used, rows, junk))
      && table[rows..] == old(table[rows..])
  {
    var p, idx, last := ReadRows(table, cells, column, size, junk);
    if idx == 0 { return; }
    ghost var n, used, rows := |cells|, p, Written(|cells|, column, size);
    while idx < CellsOf(column, ROWS)
      invariant used <= p <= rows
      invariant idx == Index(n, column, used) + CellsOf(column, p - used)
      invariant Holds(table[..], cells, column, used, junk)
      invariant Repeats(table[..], used, p, last)
      invariant table[p..] == old(table[p..])
      decreases rows - p
    {
      ghost var was := table[..];
      table[p] := last;
      assert table[..] == was[p := last];
      assert table[p + 1..] == was[p..][1..] == old(table[p + 1..]);
      p := p + 1;
      idx := idx + column;
    }
    HoldsAndRepeats(table[..], cells, column, used, rows, junk);
  }

  // ------------------------------------------------------------------ monotone tables

  /** Charge drawn never falls and voltage never rises from one row to a later one. */
  predicate InOrder(a: Row, b: Row) {
    a.mah <= b.mah && a.voltage >= b.voltage
  }

  /** A property whose rows are in order gives a profile whose rows are in order. */
  lemma FilledInOrder(cells: seq<int>, column: nat, used: nat, rows: nat, junk: Row, i: nat, j: nat)
    requires 0 < used && i <= j < rows
    requires forall x, y :: 0 <= x <= y < used ==> InOrder(RowAt(cells, column, x, junk), RowAt(cells, column, y, junk))
    ensures InOrder(Filled(cells, column, used, rows, junk)[i], Filled(cells, column, used, rows, junk)[j])
  {
    var x, y := if i < used then i else used - 1, if j < used then j else used - 1;
    assert InOrder(RowAt(cells, column, x, junk), RowAt(cells, column, y, junk));
  }
}
