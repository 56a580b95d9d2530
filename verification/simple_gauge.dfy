/** Voltage-curve state of charge: a lookup in two temperature tables and an interpolation between
    them (aether-simple-gauge.c). */
module SimpleGauge {
  import opened CArith

  const ROWS := 100
  const TABLES := 5

  /** One table's voltage column, row 0 first. */
  type Column = c: seq<int> | |c| == ROWS witness seq(ROWS, _ => 0)

  /** Voltage columns and their temperatures in degrees Celsius, hottest first by convention only. */
  datatype Profile = Profile(cols: seq<Column>, temps: seq<int>)

  predicate Wf(p: Profile) {
    |p.cols| == TABLES && |p.temps| == TABLES
  }

  // ------------------------------------------------------------------ lookup in one table

  /** The row scan from row j on. */
  function LookupFrom(c: Column, v: int, j: nat): int
    decreases |c| - j
  {
    if j >= |c| - 1 then 0
    else if v >= c[j] then 100 - j
    else if v > c[j + 1] && v < c[j] then
      (if c[j] - c[j + 1] == 0 then 100 - j else 100 - j - TruncDiv((c[j] - v) * 1, c[j] - c[j + 1]))
    else LookupFrom(c, v, j + 1)
  }

  function Lookup(c: Column, v: int): int {
    LookupFrom(c, v, 0)
  }

  /** A row answers when the voltage reaches it, or lies strictly between it and the next. */
  predicate Answers(c: Column, v: int, j: nat) {
    j < ROWS - 1 && (v >= c[j] || v > c[j + 1])
  }

  /** The interpolation inside a row pair never contributes: the answer is a whole percentage given by
      the first row that answers, or 0. */
  lemma {:induction false} LookupIsFirstRow(c: Column, v: int, j: nat, k: nat)
    requires j <= k <= ROWS - 1 && forall i :: j <= i < k ==> !Answers(c, v, i)
    requires k < ROWS - 1 ==> Answers(c, v, k)
    ensures LookupFrom(c, v, j) == if k < ROWS - 1 then 100 - k else 0
    decreases k - j
  {
    if j < k {
      assert !Answers(c, v, j);
      LookupIsFirstRow(c, v, j + 1, k);
    } else if k < ROWS - 1 && v < c[j] {
      TruncDivSmall((c[j] - v) * 1, c[j] - c[j + 1]);
    }
  }

  lemma {:induction false} FirstRow(c: Column, v: int, j: nat) returns (k: nat)
    requires j <= ROWS - 1
    ensures j <= k <= ROWS - 1 && (forall i :: j <= i < k ==> !Answers(c, v, i))
    ensures k < ROWS - 1 ==> Answers(c, v, k)
    decreases ROWS - j
  {
    if j == ROWS - 1 || Answers(c, v, j) {
      k := j;
    } else {
      k := FirstRow(c, v, j + 1);
    }
  }

  /** Every answer is 0 or between 2 and 100: 1 percent is never reported by a single table. */
  lemma LookupRange(c: Column, v: int)
    ensures Lookup(c, v) == 0 || 2 <= Lookup(c, v) <= 100
  {
    var k := FirstRow(c, v, 0);
    LookupIsFirstRow(c, v, 0, k);
  }

  /** More voltage never lowers a table's answer, whatever the table holds. */
  lemma LookupMonotone(c: Column, v: int, v': int)
    requires v <= v'
    ensures Lookup(c, v) <= Lookup(c, v')
  {
    var k := FirstRow(c, v, 0);
    var k' := FirstRow(c, v', 0);
    LookupIsFirstRow(c, v, 0, k);
    LookupIsFirstRow(c, v', 0, k');
    assert Answers(c, v, k) ==> Answers(c, v', k);
  }

  // ------------------------------------------------------------------ the two tables

  /** The first pair of neighbouring tables, from i on, whose temperatures enclose the reading. */
  function PairFrom(temps: seq<int>, t: int, i: nat): (pair: (nat, nat))
    requires |temps| == TABLES
    ensures pair.0 < TABLES && pair.1 < TABLES
    decreases |temps| - i
  {
    if i >= |temps| - 1 then (1, 1)
    else if t >= temps[i + 1] * 10 && t <= temps[i] * 10 then (i, i + 1)
    else PairFrom(temps, t, i + 1)
  }

  /** The hotter and the colder table to use; readings in tenths of a degree. */
  function Pair(temps: seq<int>, t: int): (pair: (nat, nat))
    requires |temps| == TABLES
    ensures pair.0 < TABLES && pair.1 < TABLES
  {
    if t < temps[4] * 10 then (4, 4)
    else if t > temps[0] * 10 then (0, 0)
    else PairFrom(temps, t, 0)
  }

  function Clamp(x: int): int {
    if x < 0 then 0 else if x > 100 then 100 else x
  }

  /** The answer before clamping. */
  function Blend(p: Profile, v: int, t: int): int
    requires Wf(p)
  {
    var (h, l) := Pair(p.temps, t);
    var hi, lo := Lookup(p.cols[h], v), Lookup(p.cols[l], v);
    var span := (p.temps[h] - p.temps[l]) * 10;
    if h == l || span == 0 then hi else hi - TruncDiv((hi - lo) * (p.temps[h] * 10 - t), span)
  }

  function Soc(p: Profile, v: int, t: int): int
    requires Wf(p)
  {
    Clamp(Blend(p, v, t))
  }

  /** Different tables are only ever used with the reading enclosed between their temperatures. */
  lemma {:induction false} PairEncloses(temps: seq<int>, t: int, i: nat)
    requires |temps| == TABLES
    ensures var (h, l) := PairFrom(temps, t, i); h != l ==> temps[l] * 10 <= t <= temps[h] * 10
    decreases TABLES - i
  {
    if i < TABLES - 1 {
      PairEncloses(temps, t, i + 1);
    }
  }

  /** Moving a fraction delta/span of the way from hi to lo stays between them. */
  lemma Between(hi: int, lo: int, delta: int, span: int)
    requires 0 <= delta <= span && span > 0
    ensures hi >= lo ==> lo <= hi - TruncDiv((hi - lo) * delta, span) <= hi
    ensures hi <= lo ==> hi <= hi - TruncDiv((hi - lo) * delta, span) <= lo
  {
    var d := hi - lo;
    TruncDivUnique(0, span, 0);
    Whole(d, span);
    if d >= 0 {
      Scale(d, delta, span);
      TruncDivMonotone(0, d * delta, span);
      TruncDivMonotone(d * delta, d * span, span);
    } else {
      Scale(-d, delta, span);
      assert d * delta == -(-d * delta) && d * span == -(-d * span);
      TruncDivMonotone(d * span, d * delta, span);
      TruncDivMonotone(d * delta, 0, span);
    }
  }

  lemma Scale(d: nat, x: nat, y: nat)
    requires x <= y
    ensures 0 <= d * x <= d * y
  {
    Grows(d, 0, x);
    Grows(d, x, y);
  }

  lemma Whole(d: int, span: int)
    requires span > 0
    ensures TruncDiv(d * span, span) == d
  {
    TruncDivUnique(d * span, span, d);
  }

  /** The reported value lies between the two tables' answers, and the clamp never changes it. */
  lemma SocBetweenTables(p: Profile, v: int, t: int)
    requires Wf(p)
    ensures var (h, l) := Pair(p.temps, t);
      var hi, lo := Lookup(p.cols[h], v), Lookup(p.cols[l], v);
      (lo <= Soc(p, v, t) <= hi || hi <= Soc(p, v, t) <= lo)
    ensures Soc(p, v, t) == Blend(p, v, t) && 0 <= Soc(p, v, t) <= 100
  {
    var (h, l) := Pair(p.temps, t);
    LookupRange(p.cols[h], v);
    LookupRange(p.cols[l], v);
    PairEncloses(p.temps, t, 0);
    var span := (p.temps[h] - p.temps[l]) * 10;
    if h != l && span != 0 {
      Between(Lookup(p.cols[h], v), Lookup(p.cols[l], v), p.temps[h] * 10 - t, span);
    }
  }

  /** Raising both ends never lowers the value in between, in spite of the truncation. */
  lemma BlendRises(hi: int, lo: int, hi': int, lo': int, delta: int, span: int)
    requires 0 <= delta <= span && span > 0 && hi <= hi' && lo <= lo'
    ensures hi - TruncDiv((hi - lo) * delta, span) <= hi' - TruncDiv((hi' - lo') * delta, span)
  {
    var up := hi' - hi;
    var d := (hi' - lo') * delta - (hi - lo) * delta;
    assert d == up * delta - (lo' - lo) * delta;
    Scale(up, delta, span);
    Scale(lo' - lo, 0, delta);
    TruncDivSteps((hi - lo) * delta, d, span, up);
  }

  /** At a fixed temperature the reported charge never falls when the voltage rises: for any five
      tables and any temperatures at all, in any order. */
  lemma SocMonotoneInVoltage(p: Profile, v: int, v': int, t: int)
    requires Wf(p) && v <= v'
    ensures Soc(p, v, t) <= Soc(p, v', t)
  {
    var (h, l) := Pair(p.temps, t);
    LookupMonotone(p.cols[h], v, v');
    LookupMonotone(p.cols[l], v, v');
    PairEncloses(p.temps, t, 0);
    var span := (p.temps[h] - p.temps[l]) * 10;
    if h != l && span != 0 {
      BlendRises(Lookup(p.cols[h], v), Lookup(p.cols[l], v), Lookup(p.cols[h], v'), Lookup(p.cols[l], v'),
                 p.temps[h] * 10 - t, span);
    }
  }

  predicate Falling(temps: seq<int>) {
    |temps| == TABLES && temps[0] > temps[1] > temps[2] > temps[3] > temps[4]
  }

  /** With strictly falling profile temperatures, a reading at table k's own temperature gives exactly
      table k's own answer, whichever side the bracket comes from. */
  lemma SocAtProfileTemp(p: Profile, v: int, k: nat)
    requires Wf(p) && Falling(p.temps) && k < TABLES
    ensures Soc(p, v, p.temps[k] * 10) == Lookup(p.cols[k], v)
  {
    var t := p.temps[k] * 10;
    AtProfileTemp(p.temps, k);
    LookupRange(p.cols[k], v);
    if k == 0 {
      BlendAtEnds(Lookup(p.cols[0], v), Lookup(p.cols[1], v), (p.temps[0] - p.temps[1]) * 10);
    } else {
      BlendAtEnds(Lookup(p.cols[k - 1], v), Lookup(p.cols[k], v), (p.temps[k - 1] - p.temps[k]) * 10);
    }
  }

  lemma BlendAtEnds(hi: int, lo: int, span: int)
    requires span > 0
    ensures hi - TruncDiv((hi - lo) * 0, span) == hi
    ensures hi - TruncDiv((hi - lo) * span, span) == lo
  {
    TruncDivUnique(0, span, 0);
    Whole(hi - lo, span);
  }

  /** At its own temperature a table is the hot end of the first bracket or the cold end of its own. */
  lemma AtProfileTemp(temps: seq<int>, k: nat)
    requires Falling(temps) && k < TABLES
    ensures Pair(temps, temps[k] * 10) == if k == 0 then (0, 1) else (k - 1, k)
  {
    var t := temps[k] * 10;
    if k >= 2 { assert PairFrom(temps, t, 0) == PairFrom(temps, t, 1); }
    if k >= 3 { assert PairFrom(temps, t, 1) == PairFrom(temps, t, 2); }
    if k >= 4 { assert PairFrom(temps, t, 2) == PairFrom(temps, t, 3); }
  }

  /** Between two tables the charge is the straight line between their answers, to within one percent. */
  lemma SocIsLinear(p: Profile, v: int, t: int)
    requires Wf(p)
    ensures var (h, l) := Pair(p.temps, t);
            var hi, lo, span := Lookup(p.cols[h], v), Lookup(p.cols[l], v), (p.temps[h] - p.temps[l]) * 10;
      if h == l || span == 0 then Soc(p, v, t) == hi
      else -span < span * (hi - Soc(p, v, t)) - (hi - lo) * (p.temps[h] * 10 - t) < span
  {
    var (h, l) := Pair(p.temps, t);
    var hi, lo, span := Lookup(p.cols[h], v), Lookup(p.cols[l], v), (p.temps[h] - p.temps[l]) * 10;
    SocBetweenTables(p, v, t);
    PairEncloses(p.temps, t, 0);
    if h != l && span != 0 {
      TruncDivBounds((hi - lo) * (p.temps[h] * 10 - t), span);
    }
  }

  lemma {:induction false} PairIs(temps: seq<int>, t: int, i: nat, k: nat)
    requires Falling(temps) && i <= k < TABLES - 1 && temps[k + 1] * 10 < t < temps[k] * 10
    ensures PairFrom(temps, t, i) == (k, k + 1)
    decreases k - i
  {
    if i == k {
    } else {
      assert temps[i + 1] >= temps[k];
      PairIs(temps, t, i + 1, k);
    }
  }

  /** Which tables count: with strictly falling profile temperatures, strictly between two neighbouring ones
      the reported charge lies between those two tables' answers; above the hottest it is the hottest table's
      answer and below the coldest the coldest's. */
  lemma SocUsesNeighbours(p: Profile, v: int, t: int, k: nat)
    requires Wf(p) && Falling(p.temps)
    ensures t > p.temps[0] * 10 ==> Soc(p, v, t) == Lookup(p.cols[0], v)
    ensures t < p.temps[TABLES - 1] * 10 ==> Soc(p, v, t) == Lookup(p.cols[TABLES - 1], v)
    ensures k < TABLES - 1 && p.temps[k + 1] * 10 < t < p.temps[k] * 10 ==>
      var warm, cold := Lookup(p.cols[k], v), Lookup(p.cols[k + 1], v);
      warm <= Soc(p, v, t) <= cold || cold <= Soc(p, v, t) <= warm
  {
    LookupRange(p.cols[0], v);
    LookupRange(p.cols[TABLES - 1], v);
    if k < TABLES - 1 && p.temps[k + 1] * 10 < t < p.temps[k] * 10 {
      PairIs(p.temps, t, 0, k);
      assert p.temps[TABLES - 1] <= p.temps[k + 1] && p.temps[k] <= p.temps[0];
      SocBetweenTables(p, v, t);
    }
  }

  lemma {:induction false} NoPair(temps: seq<int>, t: int, i: nat)
    requires |temps| == TABLES && i <= TABLES - 1
    requires forall k :: i <= k < TABLES - 1 ==> !(temps[k + 1] * 10 <= t <= temps[k] * 10)
    ensures PairFrom(temps, t, i) == (1, 1)
    decreases TABLES - i
  {
    if i == TABLES - 1 {
    } else {
      NoPair(temps, t, i + 1);
    }
  }

  /** With temperatures in disorder a reading may lie between no two neighbours, above the first and below the
      last of none: then the second table answers alone. */
  lemma SocDefaultTable(p: Profile, v: int, t: int)
    requires Wf(p) && p.temps[TABLES - 1] * 10 <= t <= p.temps[0] * 10
    requires forall k :: 0 <= k < TABLES - 1 ==> !(p.temps[k + 1] * 10 <= t <= p.temps[k] * 10)
    ensures Soc(p, v, t) == Lookup(p.cols[1], v)
  {
    NoPair(p.temps, t, 0);
    LookupRange(p.cols[1], v);
  }

  /** Inside one bracket the reported charge moves monotonically with temperature from the colder
      table's answer towards the hotter one's. */
  lemma SocMonotoneInTemp(p: Profile, v: int, t: int, t': int)
    requires Wf(p) && t <= t' && Pair(p.temps, t) == Pair(p.temps, t')
    ensures var (h, l) := Pair(p.temps, t);
      (Lookup(p.cols[l], v) <= Lookup(p.cols[h], v) ==> Soc(p, v, t) <= Soc(p, v, t')) &&
      (Lookup(p.cols[l], v) >= Lookup(p.cols[h], v) ==> Soc(p, v, t) >= Soc(p, v, t'))
  {
    var (h, l) := Pair(p.temps, t);
    PairEncloses(p.temps, t, 0);
    PairEncloses(p.temps, t', 0);
    var hi, lo := Lookup(p.cols[h], v), Lookup(p.cols[l], v);
    var span := (p.temps[h] - p.temps[l]) * 10;
    if h != l && span != 0 {
      BlendMoves(hi, lo, p.temps[h] * 10 - t, p.temps[h] * 10 - t', span);
    }
  }

  lemma BlendMoves(hi: int, lo: int, x: int, x': int, span: int)
    requires x' <= x && span > 0
    ensures hi >= lo ==> hi - TruncDiv((hi - lo) * x, span) <= hi - TruncDiv((hi - lo) * x', span)
    ensures hi <= lo ==> hi - TruncDiv((hi - lo) * x, span) >= hi - TruncDiv((hi - lo) * x', span)
  {
    if hi >= lo {
      Grows(hi - lo, x', x);
      TruncDivMonotone((hi - lo) * x', (hi - lo) * x, span);
    }
    if hi <= lo {
      Grows(lo - hi, x', x);
      assert (hi - lo) * x == -((lo - hi) * x) && (hi - lo) * x' == -((lo - hi) * x');
      TruncDivMonotone((hi - lo) * x, (hi - lo) * x', span);
    }
  }

  lemma Grows(d: nat, x: int, y: int)
    requires x <= y
    ensures d * x <= d * y
  {
    assert d * y == d * x + d * (y - x);
  }

  // ------------------------------------------------------------------ the default table

  /** The voltage column used when a profile is missing from the device tree. */
  function DefaultColumn(): Column {
    seq(ROWS, j requires 0 <= j < ROWS => 4200 - TruncDiv((4200 - 3300) * j, ROWS))
  }

  lemma DefaultRow(j: nat)
    requires j < ROWS
    ensures DefaultColumn()[j] == 4200 - 9 * j
  {
    TruncDivUnique(900 * j, ROWS, 9 * j);
  }

  /** On the default table one percent is 9 mV, from 4200 mV down; below 3310 mV it reads empty. */
  lemma DefaultSoc(v: int)
    ensures Lookup(DefaultColumn(), v) ==
      if v >= 4200 then 100 else if v >= 3310 then 100 - (4200 - v) / 9 else 0
  {
    var c := DefaultColumn();
    var k: nat := if v >= 4200 then 0 else if v >= 3310 then (4200 - v) / 9 else ROWS - 1;
    forall i | 0 <= i < k ensures !Answers(c, v, i) {
      DefaultRow(i);
      DefaultRow(i + 1);
    }
    if k < ROWS - 1 {
      DefaultRow(k);
      DefaultRow(k + 1);
    }
    LookupIsFirstRow(c, v, 0, k);
  }

  // ------------------------------------------------------------------ the gauge object

  class Gauge {
    const profileT: array3<nat>
    const profileTemps: array<int>
    var lastSoc: int
    var lastVoltageUv: int
    var lastTempC10: int

    constructor (profileT: array3<nat>, profileTemps: array<int>)
      requires profileT.Length0 == TABLES && profileT.Length1 == ROWS && profileT.Length2 == 3
      requires profileTemps.Length == TABLES
      ensures Valid() && this.profileT == profileT && this.profileTemps == profileTemps
    {
      this.profileT, this.profileTemps := profileT, profileTemps;
    }

    predicate Valid() {
      profileT.Length0 == TABLES && profileT.Length1 == ROWS && profileT.Length2 == 3 && profileTemps.Length == TABLES
    }

    ghost function Col(k: nat): Column
      requires Valid() && k < TABLES
      reads profileT
    {
      seq(ROWS, j requires 0 <= j < ROWS reads profileT => profileT[k, j, 1])
    }

    ghost function Prof(): (p: Profile)
      requires Valid()
      reads profileT, profileTemps
      ensures Wf(p)
    {
      Profile([Col(0), Col(1), Col(2), Col(3), Col(4)], profileTemps[..])
    }

    /** The row loop over one table. */
    method LookupVoltage(k: nat, vbatMv: int) returns (soc: int)
      requires Valid() && k < TABLES
      ensures soc == Lookup(Col(k), vbatMv)
    {
      soc := 0;
      var j := 0;
      while j < ROWS - 1
        invariant j <= ROWS - 1 && soc == 0
        invariant LookupFrom(Col(k), vbatMv, j) == Lookup(Col(k), vbatMv)
      {
        var a, b := profileT[k, j, 1], profileT[k, j + 1, 1];
        if vbatMv >= a {
          soc := 100 - j;
          return;
        }
        if vbatMv > b && vbatMv < a {
          soc := 100 - j - TruncDiv((a - vbatMv) * 1, a - b);
          return;
        }
        j := j + 1;
      }
    }

    method ComputeSoc(vbatMv: int, tempC10: int) returns (soc: int)
      requires Valid()
      ensures soc == Soc(Prof(), vbatMv, tempC10)
    {
      var lo, hi := 1, 1;
      var i := 0;
      while i < TABLES - 1
        invariant i <= TABLES - 1 && hi == 1 && lo == 1
        invariant PairFrom(profileTemps[..], tempC10, i) == PairFrom(profileTemps[..], tempC10, 0)
      {
        if tempC10 >= profileTemps[i + 1] * 10 && tempC10 <= profileTemps[i] * 10 {
          hi, lo := i, i + 1;
          break;
        }
        i := i + 1;
      }
      if tempC10 > profileTemps[0] * 10 { hi, lo := 0, 0; }
      if tempC10 < profileTemps[4] * 10 { hi, lo := 4, 4; }
      assert (hi, lo) == Pair(profileTemps[..], tempC10);
      var socHi := LookupVoltage(hi, vbatMv);
      var socLo := LookupVoltage(lo, vbatMv);
      assert Prof().cols[hi] == Col(hi) && Prof().cols[lo] == Col(lo);
      if hi == lo { return Clamp(socHi); }
      var span := (profileTemps[hi] - profileTemps[lo]) * 10;
      var delta := profileTemps[hi] * 10 - tempC10;
      if span == 0 { return Clamp(socHi); }
      return Clamp(socHi - TruncDiv((socHi - socLo) * delta, span));
    }

    /** One poll: a voltage that could not be read, or is not positive, changes nothing. */
    method Poll(vbatUv: int, tempMc: int)
      requires Valid()
      modifies this
      ensures vbatUv <= 0 ==>
        lastSoc == old(lastSoc) && lastVoltageUv == old(lastVoltageUv) && lastTempC10 == old(lastTempC10)
      ensures vbatUv > 0 ==>
        lastVoltageUv == vbatUv && lastTempC10 == TruncDiv(tempMc, 100) &&
        lastSoc == Soc(Prof(), vbatUv / 1000, lastTempC10)
    {
      if vbatUv > 0 {
        lastVoltageUv := vbatUv;
        lastTempC10 := TruncDiv(tempMc, 100);
        lastSoc := ComputeSoc(vbatUv / 1000, lastTempC10);
      }
    }
  }
}
