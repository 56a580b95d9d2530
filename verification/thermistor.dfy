/** Battery thermistor arithmetic: temperature to resistance and back, and the comparator voltages
    derived from it (mtk_battery.c, fg_bat_temp_int_internal in mtk_battery_core.c). */
module Thermistor {
  import opened CArith

  const LAST := 20

  /** Temperature in degrees Celsius and resistance in ohms. */
  datatype Row = Row(temp: int, res: int)

  type Table = seq<Row>

  /** A table of 21 rows from -40 to 60 degrees, temperatures rising and resistances falling. */
  predicate Wf(tab: Table) {
    && |tab| == LAST + 1
    && tab[0].temp == -40 && tab[LAST].temp == 60
    && (forall i :: 1 <= i <= LAST ==> tab[i - 1].temp < tab[i].temp && tab[i - 1].res > tab[i].res)
    && tab[LAST].res >= 0
  }

  /** In every segment the resistance falls by at least 10 ohms per degree. */
  predicate Steep(tab: Table) {
    |tab| == LAST + 1 &&
    forall i :: 1 <= i <= LAST ==> tab[i - 1].res - tab[i].res >= 10 * (tab[i].temp - tab[i - 1].temp)
  }

  // ------------------------------------------------------------------ the two conversions

  function Interpolation(i1: int, b1: int, i2: int, b2: int, i: int): int
    requires i1 != i2
  {
    TruncDiv((b2 - b1) * (i - i1), i2 - i1) + b1
  }

  /** The first row from i on that is at least as hot. */
  function TempRow(tab: Table, t: int, i: nat): (k: nat)
    requires Wf(tab) && 1 <= i <= LAST && t < tab[LAST].temp
    ensures i <= k <= LAST && t <= tab[k].temp
    ensures forall j :: i <= j < k ==> tab[j].temp < t
    decreases |tab| - i
  {
    if t <= tab[i].temp then i else TempRow(tab, t, i + 1)
  }

  function TempToRes(tab: Table, t: int): int
    requires Wf(tab)
  {
    if t >= tab[LAST].temp then tab[LAST].res
    else if t <= tab[0].temp then tab[0].res
    else
      var k := TempRow(tab, t, 1);
      Interpolation(tab[k - 1].temp, tab[k - 1].res, tab[k].temp, tab[k].res, t)
  }

  /** The first row from i on with no more resistance. */
  function ResRow(tab: Table, r: int, i: nat): (k: nat)
    requires Wf(tab) && 1 <= i <= LAST && r > tab[LAST].res
    ensures i <= k <= LAST && r >= tab[k].res
    ensures forall j :: i <= j < k ==> tab[j].res > r
    decreases |tab| - i
  {
    if r >= tab[i].res then i else ResRow(tab, r, i + 1)
  }

  /** The weighted mean of two temperatures, in tenths. */
  function Tenths(r1: int, t1: int, r2: int, t2: int, r: int): int
    requires r1 > r2
  {
    TruncDiv(((r - r2) * t1 + (r1 - r) * t2) * 10, r1 - r2)
  }

  /** In tenths of a degree. */
  function ResToTemp(tab: Table, r: int): int
    requires Wf(tab)
  {
    if r >= tab[0].res then -400
    else if r <= tab[LAST].res then 600
    else
      var k := ResRow(tab, r, 1);
      Tenths(tab[k - 1].res, tab[k - 1].temp, tab[k].res, tab[k].temp, r)
  }

  // ------------------------------------------------------------------ order within the table

  lemma {:induction false} RowsOrdered(tab: Table, i: nat, j: nat)
    requires Wf(tab) && i <= j <= LAST
    ensures tab[i].temp <= tab[j].temp && tab[i].res >= tab[j].res
    ensures i < j ==> tab[i].temp < tab[j].temp && tab[i].res > tab[j].res
    decreases j
  {
    if i == j {
    } else {
      RowsOrdered(tab, i, j - 1);
    }
  }

  lemma MulMono(a: nat, x: int, y: int)
    requires x <= y
    ensures a * x <= a * y
  {
    assert a * y == a * x + a * (y - x);
  }

  // ------------------------------------------------------------------ temperature to resistance

  lemma TruncDivNegated(x: int, d: int)
    requires d > 0 && x >= 0
    ensures TruncDiv(-x, d) == -TruncDiv(x, d)
  {
    TruncDivBounds(x, d);
    assert d * (-TruncDiv(x, d)) == -(d * TruncDiv(x, d));
    TruncDivUnique(-x, d, -TruncDiv(x, d));
  }

  /** The interpolated resistance as a fall from the colder end. */
  lemma FallForm(t1: int, r1: int, t2: int, r2: int, t: int)
    requires t1 < t2 && r1 > r2 && t1 <= t
    ensures (r1 - r2) * (t - t1) >= 0
    ensures Interpolation(t1, r1, t2, r2, t) == r1 - TruncDiv((r1 - r2) * (t - t1), t2 - t1)
  {
    MulMono(r1 - r2, 0, t - t1);
    assert (r2 - r1) * (t - t1) == -((r1 - r2) * (t - t1));
    TruncDivNegated((r1 - r2) * (t - t1), t2 - t1);
  }

  /** Inside a segment the conversion stays between the ends and falls as the temperature rises. */
  lemma InterpolationFalls(t1: int, r1: int, t2: int, r2: int, t: int, t': int)
    requires t1 < t2 && r1 > r2 && t1 <= t <= t' <= t2
    ensures r2 <= Interpolation(t1, r1, t2, r2, t') <= Interpolation(t1, r1, t2, r2, t) <= r1
  {
    var d, a := t2 - t1, r1 - r2;
    FallForm(t1, r1, t2, r2, t);
    FallForm(t1, r1, t2, r2, t');
    MulMono(a, t - t1, t' - t1);
    MulMono(a, t' - t1, d);
    TruncDivMonotone(a * (t - t1), a * (t' - t1), d);
    TruncDivMonotone(a * (t' - t1), d * a, d);
    TruncDivBounds(a * (t - t1), d);
    WholeQuotient(d, a);
  }

  lemma WholeQuotient(d: int, a: int)
    requires d > 0
    ensures TruncDiv(d * a, d) == a
  {
    TruncDivUnique(d * a, d, a);
  }

  lemma TempToResBounds(tab: Table, t: int)
    requires Wf(tab) && tab[0].temp < t < tab[LAST].temp
    ensures var k := TempRow(tab, t, 1); tab[k].res <= TempToRes(tab, t) <= tab[k - 1].res
    ensures tab[LAST].res <= TempToRes(tab, t) <= tab[0].res
  {
    var k := TempRow(tab, t, 1);
    InterpolationFalls(tab[k - 1].temp, tab[k - 1].res, tab[k].temp, tab[k].res, t, t);
    RowsOrdered(tab, 0, k - 1);
    RowsOrdered(tab, k, LAST);
  }

  /** Hotter is never more resistive. */
  lemma TempToResFalls(tab: Table, t: int, t': int)
    requires Wf(tab) && t <= t'
    ensures TempToRes(tab, t') <= TempToRes(tab, t)
    ensures TempToRes(tab, t) >= 0
  {
    RowsOrdered(tab, 0, LAST);
    if tab[0].temp < t < tab[LAST].temp { TempToResBounds(tab, t); }
    if tab[0].temp < t' < tab[LAST].temp { TempToResBounds(tab, t'); }
    if tab[0].temp < t && t' < tab[LAST].temp {
      TempRowsRise(tab, t, t');
    }
  }

  lemma TempRowsRise(tab: Table, t: int, t': int)
    requires Wf(tab) && tab[0].temp < t <= t' < tab[LAST].temp
    ensures TempToRes(tab, t') <= TempToRes(tab, t)
  {
    var k, k' := TempRow(tab, t, 1), TempRow(tab, t', 1);
    TempToResBounds(tab, t);
    TempToResBounds(tab, t');
    if k == k' {
      InterpolationFalls(tab[k - 1].temp, tab[k - 1].res, tab[k].temp, tab[k].res, t, t');
    } else if k < k' {
      RowsOrdered(tab, k, k' - 1);
    }
  }

  // ------------------------------------------------------------------ resistance to temperature

  lemma TenthsFall(r1: int, t1: int, r2: int, t2: int, r: int, r': int)
    requires r1 > r2 && t1 < t2 && r2 <= r <= r' <= r1
    ensures 10 * t1 <= Tenths(r1, t1, r2, t2, r') <= Tenths(r1, t1, r2, t2, r) <= 10 * t2
  {
    var d, w := r1 - r2, t2 - t1;
    NumeratorForm(r1, t1, r2, t2, r);
    NumeratorForm(r1, t1, r2, t2, r');
    MulMono(10 * w, 0, r1 - r');
    MulMono(10 * w, r1 - r', r1 - r);
    MulMono(10 * w, r1 - r, d);
    assert 10 * w * d == d * (10 * t2) - d * (10 * t1);
    var x, x' := ((r - r2) * t1 + (r1 - r) * t2) * 10, ((r' - r2) * t1 + (r1 - r') * t2) * 10;
    TruncDivMonotone(x', x, d);
    TruncDivMonotone(d * (10 * t1), x', d);
    TruncDivMonotone(x, d * (10 * t2), d);
    TruncDivUnique(d * (10 * t1), d, 10 * t1);
    TruncDivUnique(d * (10 * t2), d, 10 * t2);
  }

  /** The numerator, read from the cold end of the segment. */
  lemma NumeratorForm(r1: int, t1: int, r2: int, t2: int, r: int)
    ensures ((r - r2) * t1 + (r1 - r) * t2) * 10 == (r1 - r2) * (10 * t1) + 10 * (t2 - t1) * (r1 - r)
  {
    var a, b := r - r2, r1 - r;
    assert r1 - r2 == a + b;
    assert (a + b) * (10 * t1) == 10 * (a * t1) + 10 * (b * t1);
    assert 10 * (t2 - t1) * b == 10 * (b * t2) - 10 * (b * t1);
  }

  lemma ResToTempBounds(tab: Table, r: int)
    requires Wf(tab) && tab[LAST].res < r < tab[0].res
    ensures var k := ResRow(tab, r, 1); 10 * tab[k - 1].temp <= ResToTemp(tab, r) <= 10 * tab[k].temp
    ensures -400 <= ResToTemp(tab, r) <= 600
  {
    var k := ResRow(tab, r, 1);
    TenthsFall(tab[k - 1].res, tab[k - 1].temp, tab[k].res, tab[k].temp, r, r);
    RowsOrdered(tab, 0, k - 1);
    RowsOrdered(tab, k, LAST);
  }

  /** More resistance never reads hotter, and every reading is from -40.0 to 60.0 degrees. */
  lemma ResToTempFalls(tab: Table, r: int, r': int)
    requires Wf(tab) && r <= r'
    ensures -400 <= ResToTemp(tab, r') <= ResToTemp(tab, r) <= 600
  {
    if tab[LAST].res < r < tab[0].res { ResToTempBounds(tab, r); }
    if tab[LAST].res < r' < tab[0].res { ResToTempBounds(tab, r'); }
    if tab[LAST].res < r && r' < tab[0].res {
      ResRowsFall(tab, r, r');
    }
  }

  lemma ResRowsFall(tab: Table, r: int, r': int)
    requires Wf(tab) && tab[LAST].res < r <= r' < tab[0].res
    ensures ResToTemp(tab, r') <= ResToTemp(tab, r)
  {
    var k, k' := ResRow(tab, r, 1), ResRow(tab, r', 1);
    ResToTempBounds(tab, r);
    ResToTempBounds(tab, r');
    if k == k' {
      TenthsFall(tab[k - 1].res, tab[k - 1].temp, tab[k].res, tab[k].temp, r, r');
    } else if k' < k {
      RowsOrdered(tab, k', k - 1);
    }
  }

  // ------------------------------------------------------------------ the table itself

  /** At a row of the table both conversions give that row, and beyond its ends they stay at the ends. */
  lemma RowsExact(tab: Table, i: nat, t: int, r: int)
    requires Wf(tab) && i <= LAST
    ensures TempToRes(tab, tab[i].temp) == tab[i].res && ResToTemp(tab, tab[i].res) == 10 * tab[i].temp
    ensures t >= 60 ==> TempToRes(tab, t) == tab[LAST].res
    ensures t <= -40 ==> TempToRes(tab, t) == tab[0].res
    ensures r >= tab[0].res ==> ResToTemp(tab, r) == -400
    ensures r <= tab[LAST].res ==> ResToTemp(tab, r) == 600
  {
    RowsOrdered(tab, 0, i);
    RowsOrdered(tab, i, LAST);
    RowsOrdered(tab, 0, LAST);
    if 0 < i < LAST {
      InnerRow(tab, i);
    }
  }

  lemma InnerRow(tab: Table, i: nat)
    requires Wf(tab) && 0 < i < LAST
    ensures TempToRes(tab, tab[i].temp) == tab[i].res && ResToTemp(tab, tab[i].res) == 10 * tab[i].temp
  {
    RowsOrdered(tab, 0, i);
    RowsOrdered(tab, i, LAST);
    var k, m := TempRow(tab, tab[i].temp, 1), ResRow(tab, tab[i].res, 1);
    if k < i { RowsOrdered(tab, k, i); }
    if m < i { RowsOrdered(tab, m, i); }
    SegmentEnd(tab[i - 1].temp, tab[i - 1].res, tab[i].temp, tab[i].res);
  }

  lemma SegmentEnd(t1: int, r1: int, t2: int, r2: int)
    requires t1 < t2 && r1 > r2
    ensures Interpolation(t1, r1, t2, r2, t2) == r2 && Tenths(r1, t1, r2, t2, r2) == 10 * t2
  {
    FallForm(t1, r1, t2, r2, t2);
    WholeQuotient(t2 - t1, r1 - r2);
    assert (r1 - r2) * (t2 - t1) == (t2 - t1) * (r1 - r2);
    assert ((r2 - r2) * t1 + (r1 - r2) * t2) * 10 == (r1 - r2) * (10 * t2);
    WholeQuotient(r1 - r2, 10 * t2);
  }

  // ------------------------------------------------------------------ the round trip

  /** How far the resistance has fallen inside a segment. */
  lemma Fallen(r1: int, t1: int, r2: int, t2: int, t: int) returns (q: int)
    requires t1 < t <= t2 && r1 - r2 >= 10 * (t2 - t1)
    ensures Interpolation(t1, r1, t2, r2, t) == r1 - q
    ensures (t2 - t1) * q <= (r1 - r2) * (t - t1) < (t2 - t1) * q + (t2 - t1)
    ensures 10 * (t - t1) <= q <= r1 - r2
    ensures t < t2 ==> q < r1 - r2
  {
    var d, a, n := t2 - t1, r1 - r2, t - t1;
    FallForm(t1, r1, t2, r2, t);
    q := TruncDiv(a * n, d);
    TruncDivBounds(a * n, d);
    FallenAtLeast(d, a, n, q);
    FallenAtMost(d, a, n, q);
  }

  lemma FallenAtLeast(d: nat, a: nat, n: nat, q: int)
    requires d > 0 && a >= 10 * d && a * n < d * q + d
    ensures 10 * n <= q
  {
    MulMono(n, 10 * d, a);
    assert n * (10 * d) == d * (10 * n) && n * a == a * n;
    assert d * (q + 1) == d * q + d;
    MulLess(10 * n, q + 1, d);
  }

  lemma FallenAtMost(d: nat, a: nat, n: nat, q: int)
    requires d > 0 && a > 0 && n <= d && d * q <= a * n
    ensures q <= a && (n < d ==> q < a)
  {
    MulMono(a, n, d);
    assert d * a == a * d && d * (a + 1) == d * a + d;
    MulLess(q, a + 1, d);
    if n < d {
      MulMono(a, n + 1, d);
      assert a * (n + 1) == a * n + a;
      MulLess(q, a, d);
    }
  }

  /** The two truncated divisions inside one segment. */
  lemma SegmentRoundTrip(r1: int, t1: int, r2: int, t2: int, t: int)
    requires t1 < t <= t2 && r1 - r2 >= 10 * (t2 - t1)
    ensures var r := Interpolation(t1, r1, t2, r2, t);
      r2 <= r < r1 && (t < t2 ==> r2 < r) && Tenths(r1, t1, r2, t2, r) in {10 * t - 1, 10 * t} &&
      (t <= 0 ==> Tenths(r1, t1, r2, t2, r) == 10 * t)
  {
    var q := Fallen(r1, t1, r2, t2, t);
    NumeratorForm(r1, t1, r2, t2, r1 - q);
    SegmentQuotient(r1 - r2, t2 - t1, t - t1, t1, q);
    NearestTenth((r1 - r2) * (10 * t1) + 10 * (t2 - t1) * q, r1 - r2, 10 * t);
  }

  lemma SegmentQuotient(a: int, d: int, n: int, t1: int, q: int)
    requires a >= 10 * d && d * q <= a * n < d * q + d
    ensures a * (10 * (t1 + n)) - a < a * (10 * t1) + 10 * d * q <= a * (10 * (t1 + n))
  {
    assert a * (10 * (t1 + n)) == a * (10 * t1) + 10 * (a * n);
    assert 10 * d * q == 10 * (d * q);
  }

  /** A quotient that is more than y - 1 and at most y truncates to y, or to y - 1 if it is positive. */
  lemma NearestTenth(x: int, a: int, y: int)
    requires a > 0 && a * y - a < x <= a * y
    ensures TruncDiv(x, a) in {y - 1, y} && (y <= 0 ==> TruncDiv(x, a) == y)
  {
    assert a * (y - 1) == a * y - a;
    if y <= 0 {
      MulMono(a, y, 0);
      TruncDivUnique(x, a, y);
    } else {
      MulMono(a, 0, y - 1);
      TruncDivUnique(x, a, if x == a * y then y else y - 1);
    }
  }

  /** Converting any whole temperature from -40 to 60 degrees to resistance and back gives it again in
      tenths, or one tenth less; at or below zero exactly. For any table steep enough. */
  lemma RoundTrip(tab: Table, t: int)
    requires Wf(tab) && Steep(tab) && -40 <= t <= 60
    ensures ResToTemp(tab, TempToRes(tab, t)) in {10 * t - 1, 10 * t}
    ensures t <= 0 ==> ResToTemp(tab, TempToRes(tab, t)) == 10 * t
  {
    RowsOrdered(tab, 0, LAST);
    if -40 < t < 60 {
      var k := TempRow(tab, t, 1);
      if k > 1 { assert tab[k - 1].temp < t; }
      SegmentRoundTrip(tab[k - 1].res, tab[k - 1].temp, tab[k].res, tab[k].temp, t);
      InSegment(tab, k, t);
    }
  }

  lemma InSegment(tab: Table, k: nat, t: int)
    requires Wf(tab) && Steep(tab) && -40 < t < 60 && k == TempRow(tab, t, 1)
    requires tab[k].res <= TempToRes(tab, t) < tab[k - 1].res
    ensures var r := TempToRes(tab, t);
      ResToTemp(tab, r) == if r <= tab[LAST].res then 600
                           else Tenths(tab[k - 1].res, tab[k - 1].temp, tab[k].res, tab[k].temp, r)
    ensures TempToRes(tab, t) > tab[LAST].res
  {
    var r := TempToRes(tab, t);
    RowsOrdered(tab, 0, k - 1);
    RowsOrdered(tab, k, LAST);
    AboveLast(tab, k, t);
    var m := ResRow(tab, r, 1);
    if m < k {
      RowsOrdered(tab, m, k - 1);
    }
  }

  lemma SegmentAbove(r1: int, t1: int, r2: int, t2: int, t: int)
    requires t1 < t <= t2 && r1 - r2 >= 10 * (t2 - t1)
    ensures Interpolation(t1, r1, t2, r2, t) >= r2
    ensures t < t2 ==> Interpolation(t1, r1, t2, r2, t) > r2
  {
    var q := Fallen(r1, t1, r2, t2, t);
  }

  /** Below 60 degrees the resistance is strictly above the last row's. */
  lemma AboveLast(tab: Table, k: nat, t: int)
    requires Wf(tab) && Steep(tab) && -40 < t < 60 && k == TempRow(tab, t, 1)
    ensures TempToRes(tab, t) > tab[LAST].res
  {
    if k > 1 { assert tab[k - 1].temp < t; }
    assert tab[k - 1].res - tab[k].res >= 10 * (tab[k].temp - tab[k - 1].temp);
    assert TempToRes(tab, t) == Interpolation(tab[k - 1].temp, tab[k - 1].res, tab[k].temp, tab[k].res, t);
    SegmentAbove(tab[k - 1].res, tab[k - 1].temp, tab[k].res, tab[k].temp, t);
    RowsOrdered(tab, k, LAST);
  }

  // ------------------------------------------------------------------ comparator voltages

  /** The divider: pull-up voltage and resistance, and the two current-sense resistances. */
  datatype Divider = Divider(pullUpVolt: nat, pullUpR: nat, rFg: int, meterRes: int)

  /** One reading of the battery current. */
  datatype Sample = Sample(charging: bool, current: int)

  /** The divider's voltage over the thermistor, in units of 0.1 mV. */
  function DividerVolt(dv: Divider, r: nat): nat
    requires dv.pullUpR > 0
  {
    MulMono(r, 0, dv.pullUpVolt);
    TruncDivBounds(r * dv.pullUpVolt * 10, r + dv.pullUpR);
    TruncDiv(r * dv.pullUpVolt * 10, r + dv.pullUpR)
  }

  /** With the drop of the current over the sense resistances, before the cast to unsigned. */
  function SensedVolt(dv: Divider, r: nat, s: Sample): int
    requires dv.pullUpR > 0
  {
    var comp := TruncDiv(s.current * (dv.meterRes + dv.rFg), 10000);
    if s.charging then DividerVolt(dv, r) + comp else DividerVolt(dv, r) - comp
  }

  const TWO_32 := 0x1_0000_0000

  function Unsigned(x: int): int {
    x % TWO_32
  }

  lemma FractionMono(a: nat, b: nat, a': nat, b': nat)
    requires b > 0 && b' > 0 && a * b' <= a' * b
    ensures TruncDiv(a, b) <= TruncDiv(a', b')
  {
    TruncDivBounds(a, b);
    TruncDivBounds(a', b');
    QuotientsOrdered(a, b, TruncDiv(a, b), a', b', TruncDiv(a', b'));
  }

  lemma QuotientsOrdered(a: int, b: int, q: int, a': int, b': int, q': int)
    requires b > 0 && b' > 0 && a * b' <= a' * b && b * q <= a && a' < b' * q' + b'
    ensures q <= q'
  {
    MulMono(b', b * q, a);
    StrictScale(b, a', b' * q' + b');
    assert b' * (b * q) == (b * b') * q && b' * a == a * b' && b * a' == a' * b;
    assert b * (b' * q' + b') == (b * b') * (q' + 1);
    StrictScale(b, 0, b');
    MulLess(q, q' + 1, b * b');
  }

  lemma StrictScale(b: int, x: int, y: int)
    requires b > 0 && x < y
    ensures b * x < b * y
  {
    assert b * y == b * x + b * (y - x);
  }

  lemma CrossProducts(r: nat, r': nat, k: nat, p: nat)
    requires r <= r'
    ensures (r * k) * (r' + p) <= (r' * k) * (r + p)
  {
    var kr, kr' := k * r, k * r';
    MulMono(k, r, r');
    MulMono(p, kr, kr');
    assert kr * (r' + p) == kr * r' + p * kr && kr' * (r + p) == kr' * r + p * kr';
    assert kr * r' == kr' * r;
  }

  /** More resistance, more voltage. */
  lemma DividerRises(dv: Divider, r: nat, r': nat)
    requires dv.pullUpR > 0 && r <= r'
    ensures DividerVolt(dv, r) <= DividerVolt(dv, r')
  {
    var k, p := dv.pullUpVolt * 10, dv.pullUpR;
    assert r * dv.pullUpVolt * 10 == r * k && r' * dv.pullUpVolt * 10 == r' * k;
    MulMono(k, 0, r);
    MulMono(k, 0, r');
    CrossProducts(r, r', k, p);
    FractionMono(r * k, r + p, r' * k, r' + p);
  }

  /** It is the divider's own share of the pull-up voltage, in tenths of a millivolt, rounded down. */
  lemma DividerShare(dv: Divider, r: nat)
    requires dv.pullUpR > 0
    ensures var v := DividerVolt(dv, r);
      (r + dv.pullUpR) * v <= r * dv.pullUpVolt * 10 < (r + dv.pullUpR) * v + (r + dv.pullUpR)
  {
    MulMono(r, 0, dv.pullUpVolt);
    TruncDivBounds(r * dv.pullUpVolt * 10, r + dv.pullUpR);
  }

  /** With one current sample for both, a hotter threshold never sits above a colder one: the hot
      comparator level and the cold one are never crossed. */
  lemma ThresholdsOrdered(tab: Table, dv: Divider, s: Sample, t: int, t': int)
    requires Wf(tab) && dv.pullUpR > 0 && t <= t'
    ensures TempToRes(tab, t') >= 0 && TempToRes(tab, t) >= 0
    ensures SensedVolt(dv, TempToRes(tab, t'), s) <= SensedVolt(dv, TempToRes(tab, t), s)
  {
    TempToResFalls(tab, t, t');
    TempToResFalls(tab, t', t');
    DividerRises(dv, TempToRes(tab, t'), TempToRes(tab, t));
  }

  predicate FitsInt(x: int) {
    -0x8000_0000 <= x < 0x8000_0000
  }

  /** The cast to unsigned keeps the order of two ints in order exactly unless the lower one is
      negative and the higher one is not. */
  lemma UnsignedKeepsOrder(x: int, y: int)
    requires x <= y && FitsInt(x) && FitsInt(y)
    ensures Unsigned(x) <= Unsigned(y) <==> !(x < 0 <= y)
  {
    assert Unsigned(x) == if x < 0 then x + TWO_32 else x;
    assert Unsigned(y) == if y < 0 then y + TWO_32 else y;
  }

  /** What the battery current takes off the divider's voltage; negative while charging. */
  function Sag(dv: Divider, s: Sample): int {
    var comp := TruncDiv(s.current * (dv.meterRes + dv.rFg), 10000);
    if s.charging then -comp else comp
  }

  /** As the hardware sees them, the level for a hotter temperature is no higher than the one for a colder
      temperature exactly unless the current takes more than the hot divider voltage and no more than the
      cold one. */
  lemma LevelsInOrder(tab: Table, dv: Divider, s: Sample, cold: int, hot: int)
    requires Wf(tab) && dv.pullUpR > 0 && cold <= hot
    ensures TempToRes(tab, hot) >= 0 && TempToRes(tab, cold) >= 0
    ensures var rh, rc := TempToRes(tab, hot), TempToRes(tab, cold);
      FitsInt(SensedVolt(dv, rh, s)) && FitsInt(SensedVolt(dv, rc, s)) ==>
        (Unsigned(SensedVolt(dv, rh, s)) <= Unsigned(SensedVolt(dv, rc, s)) <==>
         !(DividerVolt(dv, rh) < Sag(dv, s) <= DividerVolt(dv, rc)))
  {
    ThresholdsOrdered(tab, dv, s, cold, hot);
    var vh, vc := SensedVolt(dv, TempToRes(tab, hot), s), SensedVolt(dv, TempToRes(tab, cold), s);
    if FitsInt(vh) && FitsInt(vc) {
      UnsignedKeepsOrder(vh, vc);
    }
  }

  /** A table falling 20 ohms a degree, from 4200 ohms at -40. */
  predicate Even(tab: Table) {
    |tab| == LAST + 1 && forall i :: 0 <= i <= LAST ==> tab[i] == Row(-40 + 5 * i, 4200 - 100 * i)
  }

  lemma EvenWf(tab: Table)
    requires Even(tab)
    ensures Wf(tab) && Steep(tab)
  {
  }

  lemma EvenRow(tab: Table, t: int, k: nat)
    requires Even(tab) && Wf(tab) && 1 <= k <= LAST && -45 + 5 * k < t <= -40 + 5 * k && -40 < t < 60
    ensures TempRow(tab, t, 1) == k
  {
    var m := TempRow(tab, t, 1);
    assert tab[k].temp >= t && tab[k - 1].temp < t;
  }

  lemma EvenFall(t1: int, r1: int, t: int)
    requires t1 <= t
    ensures Interpolation(t1, r1, t1 + 5, r1 - 100, t) == r1 - 20 * (t - t1)
  {
    FallForm(t1, r1, t1 + 5, r1 - 100, t);
    TruncDivUnique(100 * (t - t1), 5, 20 * (t - t1));
  }

  lemma EvenRes(tab: Table, t: int, k: nat)
    requires Even(tab) && Wf(tab) && 1 <= k <= LAST && -45 + 5 * k < t <= -40 + 5 * k && -40 < t < 60
    ensures TempToRes(tab, t) == 4300 - 100 * k - 20 * (t + 45 - 5 * k)
  {
    EvenRow(tab, t, k);
    EvenFall(tab[k - 1].temp, tab[k - 1].res, t);
  }

  /** The sensed voltage, given the two quotients. */
  lemma SensedIs(dv: Divider, r: nat, s: Sample, v: int, comp: int)
    requires dv.pullUpR > 0 && !s.charging && s.current * (dv.meterRes + dv.rFg) == comp * 10000
    requires r * dv.pullUpVolt * 10 >= 0
    requires (r + dv.pullUpR) * v <= r * dv.pullUpVolt * 10 < (r + dv.pullUpR) * v + (r + dv.pullUpR)
    ensures SensedVolt(dv, r, s) == v - comp
  {
    TruncDivUnique(r * dv.pullUpVolt * 10, r + dv.pullUpR, v);
    WholeQuotient(10000, comp);
  }

  /** That the levels cross does happen: on such a table with a 24 kilohm pull-up to 1.8 V and 19.4 A drawn
      over 100 units of sense resistance, the level for 26 degrees is -12, and that for 24 degrees 12. */
  lemma LevelsCross(tab: Table, dv: Divider, s: Sample)
    requires Even(tab) && dv == Divider(1800, 24000, 100, 0) && s == Sample(false, 194000)
    ensures Wf(tab) && Steep(tab) && TempToRes(tab, 26) == 2880 && TempToRes(tab, 24) == 2920
    ensures SensedVolt(dv, TempToRes(tab, 26), s) == -12 && SensedVolt(dv, TempToRes(tab, 24), s) == 12
    ensures Unsigned(SensedVolt(dv, TempToRes(tab, 26), s)) > Unsigned(SensedVolt(dv, TempToRes(tab, 24), s))
  {
    EvenWf(tab);
    EvenRes(tab, 26, 14);
    EvenRes(tab, 24, 13);
    SensedIs(dv, TempToRes(tab, 26), s, 1928, 1940);
    SensedIs(dv, TempToRes(tab, 24), s, 1952, 1940);
  }

  // ------------------------------------------------------------------ the driver's own loops

  /** The driver's table and the current sample it keeps between calls. */
  class Monitor {
    const table: array<Row>
    const divider: Divider
    var sample: Sample

    constructor (table: array<Row>, divider: Divider)
      ensures this.table == table && this.divider == divider
    {
      this.table, this.divider, sample := table, divider, Sample(false, 0);
    }

    method TempConverBattThermistor(temp: int) returns (r: int)
      requires Wf(table[..])
      ensures r == TempToRes(table[..], temp)
    {
      ghost var tab := table[..];
      if temp >= table[LAST].temp { return table[LAST].res; }
      if temp <= table[0].temp { return table[0].res; }
      var res1, tmp1 := table[0].res, table[0].temp;
      var res2, tmp2 := 0, 0;
      var i := 0;
      while i <= LAST
        invariant i <= LAST
        invariant i == 0 ==> res1 == table[0].res && tmp1 == table[0].temp
        invariant i > 0 ==> res1 == table[i - 1].res && tmp1 == table[i - 1].temp
        invariant i > 0 ==> TempRow(tab, temp, i) == TempRow(tab, temp, 1)
      {
        if temp <= table[i].temp {
          res2, tmp2 := table[i].res, table[i].temp;
          break;
        }
        res1, tmp1 := table[i].res, table[i].temp;
        i := i + 1;
      }
      r := Interpolation(tmp1, res1, tmp2, res2, temp);
    }

    method BattThermistorConverTemp(res: int) returns (t: int)
      requires Wf(table[..])
      ensures t == ResToTemp(table[..], res)
    {
      ghost var tab := table[..];
      if res >= table[0].res { return -400; }
      if res <= table[LAST].res { return 600; }
      var res1, tmp1 := table[0].res, table[0].temp;
      var res2, tmp2 := 0, 0;
      var i := 0;
      while i <= LAST
        invariant i <= LAST
        invariant i == 0 ==> res1 == table[0].res && tmp1 == table[0].temp
        invariant i > 0 ==> res1 == table[i - 1].res && tmp1 == table[i - 1].temp
        invariant i > 0 ==> ResRow(tab, res, i) == ResRow(tab, res, 1)
      {
        if res >= table[i].res {
          res2, tmp2 := table[i].res, table[i].temp;
          break;
        }
        res1, tmp1 := table[i].res, table[i].temp;
        i := i + 1;
      }
      t := Tenths(res1, tmp1, res2, tmp2, res);
    }

    /** A call that does not update reuses the sample of the last one that did. */
    method TempToBattVolt(temp: int, update: bool, now: Sample) returns (v: int)
      requires Wf(table[..]) && divider.pullUpR > 0
      modifies this
      ensures sample == if update then now else old(sample)
      ensures TempToRes(table[..], temp) >= 0
      ensures v == Unsigned(SensedVolt(divider, TempToRes(table[..], temp), sample))
    {
      var r := TempConverBattThermistor(temp);
      TempToResFalls(table[..], temp, temp);
      var vin := DividerVolt(divider, r);
      if update { sample := now; }
      var comp := TruncDiv(sample.current * (divider.meterRes + divider.rFg), 10000);
      var volt := if sample.charging then vin + comp else vin - comp;
      v := Unsigned(volt);
    }

    /** The two levels fg_bat_temp_int_internal programs around a temperature: in order exactly unless the
        current takes more than the hot divider voltage and no more than the cold one. */
    method BatTempLevels(tmp: int, now: Sample) returns (ht: int, lt: int)
      requires Wf(table[..]) && divider.pullUpR > 0
      modifies this
      ensures sample == now
      ensures TempToRes(table[..], tmp + 1) >= 0 && TempToRes(table[..], tmp - 1) >= 0
      ensures var rh, rc := TempToRes(table[..], tmp + 1), TempToRes(table[..], tmp - 1);
              var hot, cold := SensedVolt(divider, rh, now), SensedVolt(divider, rc, now);
              ht == Unsigned(hot) && lt == Unsigned(cold) && hot <= cold &&
              (FitsInt(hot) && FitsInt(cold) ==>
                 (ht <= lt <==> !(DividerVolt(divider, rh) < Sag(divider, now) <= DividerVolt(divider, rc))))
    {
      ht := TempToBattVolt(tmp + 1, true, now);
      lt := TempToBattVolt(tmp - 1, false, now);
      ThresholdsOrdered(table[..], divider, now, tmp - 1, tmp + 1);
      LevelsInOrder(table[..], divider, now, tmp - 1, tmp + 1);
    }
  }
}
