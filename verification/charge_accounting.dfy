/** Charge bookkeeping of the battery core (mtk_battery_core.c): the discharge accumulator that
    counts battery cycles, and the software average-current band. */
module ChargeAccounting {
  import opened CArith
  import opened Sublists

  // ------------------------------------------------------------------ battery cycles

  /** bat_cycle_car, bat_cycle_ncar and bat_cycle_thr; `swCycle` says that the gauge hardware is
      of the generation whose cycles software has to count. */
  datatype Meter = Meter(car: int, ncar: int, thr: int, swCycle: bool)

  /** The downward part of a move of the counter. */
  function Drop(from: int, to: int): nat {
    if to > from then 0 else from - to
  }

  function Accumulated(m: Meter, coulomb: int): int {
    m.ncar + Drop(m.car, coulomb)
  }

  /** Whether this sample completes a cycle. */
  predicate Signals(m: Meter, coulomb: int) {
    m.swCycle && m.thr > 0 && Accumulated(m, coulomb) >= m.thr
  }

  /** fg_sw_bat_cycle_accu. */
  function Accumulate(m: Meter, coulomb: int): Meter {
    m.(car := coulomb, ncar := if Signals(m, coulomb) then 0 else Accumulated(m, coulomb))
  }

  /** The meter after a row of samples, the cycles signalled, and the charge cleared by them. */
  function AccumulateAll(m: Meter, samples: seq<int>): (Meter, nat, int)
    decreases |samples|
  {
    if samples == [] then (m, 0, 0)
    else
      var (m', cycles, cleared) := AccumulateAll(Accumulate(m, samples[0]), samples[1..]);
      if Signals(m, samples[0]) then (m', cycles + 1, cleared + Accumulated(m, samples[0]))
      else (m', cycles, cleared)
  }

  /** The total downward variation of the counter along the samples. */
  function TotalDrop(from: int, samples: seq<int>): nat
    decreases |samples|
  {
    if samples == [] then 0 else Drop(from, samples[0]) + TotalDrop(samples[0], samples[1..])
  }

  /** Discharge is conserved: what is still accumulated plus what the cycle events cleared is
      what was there plus every downward move. */
  lemma {:induction false} DischargeConserved(m: Meter, samples: seq<int>)
    ensures var (m', _, cleared) := AccumulateAll(m, samples);
      m'.ncar + cleared == m.ncar + TotalDrop(m.car, samples)
    decreases |samples|
  {
    if samples == [] {
    } else {
      DischargeConserved(Accumulate(m, samples[0]), samples[1..]);
    }
  }

  /** With a constant threshold, whatever it is and whatever the accumulator starts from, cycles times
      threshold never exceeds what was cleared; nor the discharge, unless the start was negative; and
      where software counts cycles less than one threshold is left after any sample.  Hardware that
      counts its own, or no threshold, gives no cycles at all. */
  lemma {:induction false} CyclesBounded(m: Meter, samples: seq<int>)
    ensures var (m', cycles, cleared) := AccumulateAll(m, samples);
      && cycles * m.thr <= cleared
      && (m.ncar >= 0 ==> 0 <= m'.ncar && cleared <= m.ncar + TotalDrop(m.car, samples))
      && (m.swCycle && m.thr > 0 && (samples != [] || m.ncar < m.thr) ==> m'.ncar < m.thr)
      && (!m.swCycle || m.thr <= 0 ==> cycles == 0 && cleared == 0)
    decreases |samples|
  {
    DischargeConserved(m, samples);
    if samples == [] {
    } else {
      var n := Accumulate(m, samples[0]);
      CyclesBounded(n, samples[1..]);
      DischargeConserved(n, samples[1..]);
      var cycles := AccumulateAll(n, samples[1..]).1;
      assert (cycles + 1) * m.thr == cycles * m.thr + m.thr;
    }
  }

  predicate RisesFrom(from: int, samples: seq<int>)
    decreases |samples|
  {
    samples != [] ==> from <= samples[0] && RisesFrom(samples[0], samples[1..])
  }

  predicate FallsFrom(from: int, samples: seq<int>)
    decreases |samples|
  {
    samples != [] ==> from >= samples[0] && FallsFrom(samples[0], samples[1..])
  }

  function LastOf(from: int, samples: seq<int>): int {
    if samples == [] then from else samples[|samples| - 1]
  }

  /** Charging counts nothing; discharging counts the whole way from the first reading to the last. */
  lemma {:induction false} OnlyDischargeCounts(from: int, samples: seq<int>)
    ensures RisesFrom(from, samples) ==> TotalDrop(from, samples) == 0
    ensures FallsFrom(from, samples) ==> TotalDrop(from, samples) == from - LastOf(from, samples)
    decreases |samples|
  {
    if samples == [] {
    } else {
      OnlyDischargeCounts(samples[0], samples[1..]);
    }
  }

  lemma DropTriangle(a: int, b: int, c: int)
    ensures Drop(a, c) <= Drop(a, b) + Drop(b, c)
  {
  }

  /** Sampling less often never counts more discharge. */
  lemma {:induction false} SparserCountsLess(from: int, few: seq<int>, many: seq<int>)
    requires Sublist(few, many)
    ensures TotalDrop(from, few) <= TotalDrop(from, many)
    decreases |many|
  {
    if few == [] {
    } else {
      if few[0] == many[0] {
        SparserCountsLess(many[0], few[1..], many[1..]);
      } else {
        SparserCountsLess(many[0], few, many[1..]);
        DropTriangle(from, many[0], few[0]);
      }
    }
  }

  // ------------------------------------------------------------------ software average current

  const NSEC_PER_SEC := 1_000_000_000

  /** sw_iavg_*: the last average, its band, and when and where the window began. */
  datatype Iavg = Iavg(avg: int, ht: int, lt: int, gap: int, car: int, time: int) {
    /** The average lies strictly inside a band of half-width gap around some centre. */
    predicate InBand() {
      lt < avg < ht && ht - lt == 2 * gap
    }
  }

  /** timespec_sub(...).tv_sec: whole seconds between two instants in nanoseconds. */
  function Seconds(from: int, to: int): int {
    (to - from) / NSEC_PER_SEC
  }

  function WindowAverage(a: Iavg, now: int, coulomb: int): int
    requires Seconds(a.time, now) >= 60
  {
    TruncDiv((coulomb - a.car) * 3600, Seconds(a.time, now))
  }

  predicate LeavesBand(a: Iavg, avg: int) {
    avg >= a.ht || avg <= a.lt
  }

  /** fg_update_sw_iavg: the new bookkeeping, and whether the daemon is signalled. */
  function UpdateIavg(a: Iavg, now: int, coulomb: int, oldHardware: bool): (Iavg, bool) {
    if Seconds(a.time, now) < 60 then (a, false)
    else
      var avg := WindowAverage(a, now, coulomb);
      var moved := a.(avg := avg, time := now, car := coulomb);
      if LeavesBand(a, avg) then (moved.(ht := avg + a.gap, lt := avg - a.gap), oldHardware)
      else (moved, false)
  }

  function InitIavg(gap: int, charging: bool, current: int, now: int, coulomb: int): Iavg {
    var avg := if charging then current else -current;
    Iavg(avg, avg + gap, avg - gap, gap, coulomb, now)
  }

  function UpdateIavgAll(a: Iavg, samples: seq<(int, int)>, oldHardware: bool): Iavg
    decreases |samples|
  {
    if samples == [] then a
    else UpdateIavgAll(UpdateIavg(a, samples[0].0, samples[0].1, oldHardware).0, samples[1..], oldHardware)
  }

  lemma {:induction false} BandKept(a: Iavg, samples: seq<(int, int)>, oldHardware: bool)
    requires a.InBand()
    ensures UpdateIavgAll(a, samples, oldHardware).InBand()
    decreases |samples|
  {
    if samples == [] {
    } else {
      BandKept(UpdateIavg(a, samples[0].0, samples[0].1, oldHardware).0, samples[1..], oldHardware);
    }
  }

  /** Over every run of updates the average stays strictly inside a band of width 2*gap, exactly
      when the configured gap is positive. */
  lemma IavgBandOverRuns(gap: int, charging: bool, current: int, t0: int, q0: int, oldHardware: bool)
    ensures gap > 0 <==>
      forall samples: seq<(int, int)> ::
        UpdateIavgAll(InitIavg(gap, charging, current, t0, q0), samples, oldHardware).InBand()
  {
    var a := InitIavg(gap, charging, current, t0, q0);
    if gap > 0 {
      forall samples: seq<(int, int)> ensures UpdateIavgAll(a, samples, oldHardware).InBand() {
        BandKept(a, samples, oldHardware);
      }
    } else {
      assert !UpdateIavgAll(a, [], oldHardware).InBand();
    }
  }

  /** The band lies around c. */
  predicate Centred(a: Iavg, c: int) {
    a.ht == c + a.gap && a.lt == c - a.gap
  }

  /** On the old hardware the daemon is signalled exactly when a full window's average is at least the
      gap away from the band's centre, and then and only then the band moves, to that average.  On newer
      hardware the same happens in silence. */
  lemma IavgSignalsOnExit(a: Iavg, now: int, coulomb: int, c: int)
    requires Centred(a, c)
    ensures var (b, signal) := UpdateIavg(a, now, coulomb, true);
      && (signal <==> Seconds(a.time, now) >= 60 && Abs(b.avg - c) >= a.gap)
      && Centred(b, if signal then b.avg else c) && b.gap == a.gap
    ensures UpdateIavg(a, now, coulomb, false) == (UpdateIavg(a, now, coulomb, true).0, false)
  {
  }

  /** The averages the daemon is signalled, in order. */
  function Signalled(a: Iavg, samples: seq<(int, int)>): seq<int>
    decreases |samples|
  {
    if samples == [] then []
    else
      var (b, signal) := UpdateIavg(a, samples[0].0, samples[0].1, true);
      (if signal then [b.avg] else []) + Signalled(b, samples[1..])
  }

  /** The averages of the full windows along the samples. */
  function Averages(a: Iavg, samples: seq<(int, int)>): seq<int>
    decreases |samples|
  {
    if samples == [] then []
    else
      var b := UpdateIavg(a, samples[0].0, samples[0].1, true).0;
      (if Seconds(a.time, samples[0].0) >= 60 then [b.avg] else []) + Averages(b, samples[1..])
  }

  /** Hysteresis without a band: an average is reported when it is at least `gap` from the last one
      reported. */
  function Reported(last: int, gap: int, avgs: seq<int>): seq<int>
    decreases |avgs|
  {
    if avgs == [] then []
    else if Abs(avgs[0] - last) >= gap then [avgs[0]] + Reported(avgs[0], gap, avgs[1..])
    else Reported(last, gap, avgs[1..])
  }

  /** Over any samples the daemon is signalled exactly the window averages that hysteresis reports. */
  lemma {:induction false} SignalsAreHysteresis(a: Iavg, c: int, samples: seq<(int, int)>)
    requires Centred(a, c)
    ensures Signalled(a, samples) == Reported(c, a.gap, Averages(a, samples))
    decreases |samples|
  {
    if samples == [] {
    } else {
      var (now, coulomb) := samples[0];
      var (b, signal) := UpdateIavg(a, now, coulomb, true);
      IavgSignalsOnExit(a, now, coulomb, c);
      SignalsAreHysteresis(b, if signal then b.avg else c, samples[1..]);
      if Seconds(a.time, now) >= 60 {
        assert Averages(a, samples)[1..] == Averages(b, samples[1..]);
      } else {
        assert Averages(a, samples) == Averages(b, samples[1..]);
      }
    }
  }

  lemma {:induction false} ReportedSpaced(last: int, gap: int, avgs: seq<int>, i: nat)
    requires i < |Reported(last, gap, avgs)|
    ensures Abs(Reported(last, gap, avgs)[i] - if i == 0 then last else Reported(last, gap, avgs)[i - 1]) >= gap
    decreases |avgs|
  {
    if Abs(avgs[0] - last) < gap {
      ReportedSpaced(last, gap, avgs[1..], i);
    } else if i > 0 {
      ReportedSpaced(avgs[0], gap, avgs[1..], i - 1);
    }
  }

  /** From init on, the average moves by at least the gap from one signal to the next, and from the
      initial average to the first. */
  lemma SignalsSpaced(gap: int, charging: bool, current: int, t0: int, q0: int, samples: seq<(int, int)>, i: nat)
    requires i < |Signalled(InitIavg(gap, charging, current, t0, q0), samples)|
    ensures var a := InitIavg(gap, charging, current, t0, q0);
      Abs(Signalled(a, samples)[i] - if i == 0 then a.avg else Signalled(a, samples)[i - 1]) >= gap
  {
    var a := InitIavg(gap, charging, current, t0, q0);
    SignalsAreHysteresis(a, a.avg, samples);
    ReportedSpaced(a.avg, gap, Averages(a, samples), i);
  }

  /** The reported average is the measured charge over the measured time, to within one unit. */
  lemma IavgAccurate(a: Iavg, now: int, coulomb: int, oldHardware: bool)
    requires Seconds(a.time, now) >= 60
    ensures var b := UpdateIavg(a, now, coulomb, oldHardware).0; var t := Seconds(a.time, now);
      -t < b.avg * t - 3600 * (coulomb - a.car) < t
  {
    var q := (coulomb - a.car) * 3600;
    TruncDivBounds(q, Seconds(a.time, now));
  }

  /** An averaging window: when and at what charge it began, and when and at what charge it ended. */
  datatype Window = Window(from: int, start: int, to: int, end: int)

  /** The full windows along the samples: each begins where the one before it ended, and ends with the
      first sample at least 60 s later. */
  function Windows(from: int, start: int, samples: seq<(int, int)>): seq<Window>
    decreases |samples|
  {
    if samples == [] then []
    else if Seconds(from, samples[0].0) < 60 then Windows(from, start, samples[1..])
    else [Window(from, start, samples[0].0, samples[0].1)] + Windows(samples[0].0, samples[0].1, samples[1..])
  }

  /** Over any samples, there is one average per full window, and each is the charge moved in that window
      over the time it took, to within one unit. */
  lemma {:induction false} AveragesAccurate(a: Iavg, samples: seq<(int, int)>, i: nat)
    requires i < |Windows(a.time, a.car, samples)|
    ensures |Averages(a, samples)| == |Windows(a.time, a.car, samples)|
    ensures var w := Windows(a.time, a.car, samples)[i]; var t := Seconds(w.from, w.to);
      t >= 60 && -t < Averages(a, samples)[i] * t - 3600 * (w.end - w.start) < t
    decreases |samples|
  {
    var (now, coulomb) := samples[0];
    var b := UpdateIavg(a, now, coulomb, true).0;
    AveragesMatch(b, samples[1..]);
    if Seconds(a.time, now) < 60 {
      AveragesAccurate(b, samples[1..], i);
    } else if i == 0 {
      IavgAccurate(a, now, coulomb, true);
    } else {
      AveragesAccurate(b, samples[1..], i - 1);
    }
  }

  lemma {:induction false} AveragesMatch(a: Iavg, samples: seq<(int, int)>)
    ensures |Averages(a, samples)| == |Windows(a.time, a.car, samples)|
    decreases |samples|
  {
    if samples == [] {
    } else {
      AveragesMatch(UpdateIavg(a, samples[0].0, samples[0].1, true).0, samples[1..]);
    }
  }

  /** The first window begins at init, and the average reported until it ends is the current into the
      battery: negative while it is drawn. */
  lemma InitBegins(gap: int, charging: bool, current: int, t0: int, q0: int)
    ensures var a := InitIavg(gap, charging, current, t0, q0);
      && (a.time, a.car) == (t0, q0) && Centred(a, a.avg) && Abs(a.avg) == Abs(current)
      && (current > 0 ==> (a.avg > 0 <==> charging))
  {
  }

  // ------------------------------------------------------------------ the global gm

  /** The part of the global battery object `gm` these functions update. */
  class Battery {
    var batCycleCar: int
    var batCycleNcar: int
    var batCycleThr: int
    var swIavg: Iavg
    const swCycle: bool
    const oldHardware: bool

    ghost function Cycle(): Meter
      reads this
    {
      Meter(batCycleCar, batCycleNcar, batCycleThr, swCycle)
    }

    method FgSwBatCycleAccu(coulomb: int) returns (signal: bool)
      modifies `batCycleCar, `batCycleNcar
      ensures Cycle() == Accumulate(old(Cycle()), coulomb)
      ensures signal == Signals(old(Cycle()), coulomb)
    {
      var diff := coulomb - batCycleCar;
      if diff <= 0 {
        batCycleNcar := batCycleNcar + Abs(diff);
      }
      batCycleCar := coulomb;
      signal := swCycle && batCycleThr > 0 && batCycleNcar >= batCycleThr;
      if signal {
        batCycleNcar := 0;
      }
    }

    method FgUpdateSwIavg(now: int, coulomb: int) returns (signal: bool)
      modifies `swIavg
      ensures (swIavg, signal) == UpdateIavg(old(swIavg), now, coulomb, oldHardware)
    {
      signal := false;
      var diff := Seconds(swIavg.time, now);
      if diff >= 60 {
        swIavg := swIavg.(avg := TruncDiv((coulomb - swIavg.car) * 3600, diff), time := now, car := coulomb);
        if swIavg.avg >= swIavg.ht || swIavg.avg <= swIavg.lt {
          swIavg := swIavg.(ht := swIavg.avg + swIavg.gap, lt := swIavg.avg - swIavg.gap);
          signal := oldHardware;
        }
      }
    }
  }
}
