/** Counter resets are invisible.  A world is viewed on the logical counter, the one that is never
    reset: count + car_diff.  On that view every step of the real machine is the same step of an
    ideal machine, in which a reset only closes the accounting windows and wakes the worker. */
module CoulombReset {
  import opened WaitLists
  import opened CoulombService
  import opened ChargeAccounting
  import opened CoulombMachine
  import opened CArith

  // ------------------------------------------------------------------ the logical view

  /** Thresholds moved by k; `start` and `variable` only feed the log and are dropped. */
  function Shifted(l: seq<Entry>, k: int): seq<Entry> {
    seq(|l|, i requires 0 <= i < |l| => Entry(l[i].id, 0, l[i].end + k, 0))
  }

  function ShiftedArm(a: Arm, k: int): Arm {
    match a case Off => Off case At(level) => At(level + k)
  }

  function ShiftedPc(pc: Pc, k: int): Pc {
    match pc
    case InPlus(car) => InPlus(car + k)
    case InMinus(car) => InMinus(car + k)
    case _ => pc
  }

  function ShiftedSvc(s: Svc, k: int): Svc {
    Svc(Shifted(s.plus, k), Shifted(s.minus, k), ShiftedArm(s.ht, k), ShiftedArm(s.lt, k), s.flag)
  }

  function View(w: World, k: int): World {
    w.(svc := ShiftedSvc(w.svc, k), count := w.count + k, pc := ShiftedPc(w.pc, k), carDiff := 0,
       cycle := w.cycle.(car := w.cycle.car + k), iavgCar := w.iavgCar + k)
  }

  /** The world as the never-reset counter sees it. */
  function Logical(w: World): World {
    View(w, w.carDiff)
  }

  /** The same event moved onto the logical counter. */
  function ShiftedEvent(e: Event, k: int): Event {
    match e case Tick(count) => Tick(count + k) case _ => e
  }

  // ------------------------------------------------------------------ the ideal machine

  /** What a reset amounts to when the counter itself never moves: the cycle sample and the
      average window are brought up to date, and the worker is woken. */
  function IdealReset(w: World): World {
    w.(cycle := Accumulate(w.cycle, w.count), svc := WakeUp(w.svc, w.count), iavgCar := w.count)
  }

  function IdealStep(w: World, e: Event): World {
    if e.Reset? then (if w.resetting.NoReset? then IdealReset(w) else w) else Step(w, e)
  }

  function IdealRun(w: World, es: seq<Event>): World
    decreases |es|
  {
    if es == [] then w else IdealRun(IdealStep(w, es[0]), es[1..])
  }

  // ------------------------------------------------------------------ lists under a shift

  lemma ShiftedShape(l: seq<Entry>, k: int)
    ensures |Shifted(l, k)| == |l|
    ensures forall i :: 0 <= i < |l| ==> Shifted(l, k)[i] == Entry(l[i].id, 0, l[i].end + k, 0)
  {
  }

  lemma ShiftedTail(l: seq<Entry>, k: int)
    requires l != []
    ensures Shifted(l, k) != [] && Shifted(l, k)[1..] == Shifted(l[1..], k)
    ensures Shifted(l, k)[0] == Entry(l[0].id, 0, l[0].end + k, 0)
  {
  }

  lemma ShiftedTwice(l: seq<Entry>, k: int, j: int)
    ensures Shifted(Shifted(l, k), j) == Shifted(l, k + j)
  {
  }

  lemma ShiftedCons(x: Entry, r: seq<Entry>, k: int)
    ensures Shifted([x] + r, k) == [Entry(x.id, 0, x.end + k, 0)] + Shifted(r, k)
  {
  }

  lemma {:induction false} RemoveShifted(l: seq<Entry>, id: nat, k: int)
    ensures Remove(Shifted(l, k), id) == Shifted(Remove(l, id), k)
  {
    if l == [] {
    } else {
      ShiftedTail(l, k);
      RemoveShifted(l[1..], id, k);
      ShiftedCons(l[0], Remove(l[1..], id), k);
    }
  }

  lemma {:induction false} InsertShifted(dir: Dir, l: seq<Entry>, e: Entry, e': Entry, k: int)
    requires e'.id == e.id && e'.end == e.end + k
    ensures Shifted(Insert(dir, Shifted(l, k), e'), 0) == Shifted(Insert(dir, l, e), k)
  {
    var r, r' := Insert(dir, l, e), Insert(dir, Shifted(l, k), e');
    if l == [] || Gap(dir, l[0].end, e.end) > 0 {
      if l != [] { ShiftedTail(l, k); }
      assert r[0] == e && r[1..] == l && r'[0] == e' && r'[1..] == Shifted(l, k);
      ShiftedTwice(l, k, 0);
    } else {
      ShiftedTail(l, k);
      InsertShifted(dir, l[1..], e, e', k);
      ShiftedCons(l[0], Insert(dir, l[1..], e), k);
      ShiftedCons(Shifted(l, k)[0], Insert(dir, Shifted(l[1..], k), e'), 0);
    }
  }

  lemma {:induction false} LeadShifted(dir: Dir, l: seq<Entry>, count: int, k: int)
    ensures Lead(dir, Shifted(l, k), count + k) == Lead(dir, l, count)
  {
    if l == [] {
    } else {
      ShiftedTail(l, k);
      LeadShifted(dir, l[1..], count, k);
    }
  }

  // ------------------------------------------------------------------ steps under a shift

  lemma RelinkedShifted(s: Svc, id: nat, car: int, count: int, k: int)
    ensures Shifted(Relinked(ShiftedSvc(s, k), id, car, count + k), 0) == Shifted(Relinked(s, id, car, count), k)
  {
    var dir := Towards(car);
    RemoveShifted(s.plus, id, k);
    RemoveShifted(s.minus, id, k);
    InsertShifted(dir, Unlink(s, id).Side(dir), Entry(id, count, count + car, car),
      Entry(id, count + k, count + k + car, car), k);
  }

  lemma SameShift(a: seq<Entry>, b: seq<Entry>, k: int, dir: Dir, count: int)
    requires Shifted(a, 0) == Shifted(b, k)
    ensures |a| == |b|
    ensures forall i :: 0 <= i < |a| ==> a[i].end == b[i].end + k
    ensures Lead(dir, a, count + k) == Lead(dir, b, count)
  {
    ShiftedShape(a, 0);
    ShiftedShape(b, k);
    forall i | 0 <= i < |a| ensures a[i].end == b[i].end + k {
      assert Shifted(a, 0)[i] == Shifted(b, k)[i];
    }
    LeadShifted(dir, a, count + k, 0);
    LeadShifted(dir, b, count, k);
  }

  /** What start does to the parts of the service, its own side and the other one. */
  ghost predicate Started(s: Svc, id: nat, car: int, count: int, r: Svc, wake: bool) {
    var dir := Towards(car);
    var l := Relinked(s, id, car, count);
    && r.Side(dir) == l && r.Side(Flip(dir)) == Remove(s.Side(Flip(dir)), id)
    && l != [] && r.Cmp(dir) == Nearest(dir, l, count) && r.Cmp(Flip(dir)) == s.Cmp(Flip(dir))
    && r.flag == s.flag && (wake <==> Lead(dir, l, count) > 0)
  }

  lemma StartParts(s: Svc, id: nat, car: int, count: int)
    ensures Started(s, id, car, count, StartLocked(s, id, car, count).0, StartLocked(s, id, car, count).1)
  {
    InsertMembers(Towards(car), Unlink(s, id).Side(Towards(car)), Entry(id, count, count + car, car));
  }

  lemma SvcByParts(a: Svc, b: Svc, k: int, dir: Dir)
    requires Shifted(a.Side(dir), 0) == Shifted(b.Side(dir), k)
    requires Shifted(a.Side(Flip(dir)), 0) == Shifted(b.Side(Flip(dir)), k)
    requires a.Cmp(dir) == ShiftedArm(b.Cmp(dir), k) && a.Cmp(Flip(dir)) == ShiftedArm(b.Cmp(Flip(dir)), k)
    requires a.flag == b.flag
    ensures ShiftedSvc(a, 0) == ShiftedSvc(b, k)
  {
  }

  /** Where the scan stops, and the distance programmed there, do not depend on the origin. */
  lemma NearestShifted(dir: Dir, l: seq<Entry>, l': seq<Entry>, count: int, k: int)
    requires |l'| == |l| && l != [] && Lead(dir, l', count + k) == Lead(dir, l, count)
    requires forall i :: 0 <= i < |l| ==> l'[i].end == l[i].end + k
    ensures Nearest(dir, l', count + k) == ShiftedArm(Nearest(dir, l, count), k)
  {
    LeadSplits(dir, l, count);
    var n := Lead(dir, l, count);
    var m := if n < |l| then n else |l| - 1;
    assert Gap(dir, l'[m].end, count + k) == Gap(dir, l[m].end, count);
  }

  lemma OwnSideShifted(s: Svc, id: nat, car: int, count: int, k: int, r: Svc, r': Svc, wake: bool, wake': bool)
    requires Started(s, id, car, count, r, wake) && Started(ShiftedSvc(s, k), id, car, count + k, r', wake')
    ensures var dir := Towards(car);
      Shifted(r'.Side(dir), 0) == Shifted(r.Side(dir), k) && r'.Cmp(dir) == ShiftedArm(r.Cmp(dir), k) && wake' == wake
  {
    var dir := Towards(car);
    RelinkedShifted(s, id, car, count, k);
    SameShift(r'.Side(dir), r.Side(dir), k, dir, count);
    NearestShifted(dir, r.Side(dir), r'.Side(dir), count, k);
  }

  lemma OtherSideShifted(s: Svc, id: nat, car: int, count: int, k: int, r: Svc, r': Svc, wake: bool, wake': bool)
    requires Started(s, id, car, count, r, wake) && Started(ShiftedSvc(s, k), id, car, count + k, r', wake')
    ensures var other := Flip(Towards(car));
      Shifted(r'.Side(other), 0) == Shifted(r.Side(other), k) && r'.Cmp(other) == ShiftedArm(r.Cmp(other), k)
    ensures r'.flag == r.flag
  {
    var other := Flip(Towards(car));
    RemoveShifted(s.Side(other), id, k);
    ShiftedTwice(Remove(s.Side(other), id), k, 0);
  }

  lemma StartedShifted(s: Svc, id: nat, car: int, count: int, k: int, r: Svc, r': Svc, wake: bool, wake': bool)
    requires Started(s, id, car, count, r, wake) && Started(ShiftedSvc(s, k), id, car, count + k, r', wake')
    ensures ShiftedSvc(r', 0) == ShiftedSvc(r, k) && wake' == wake
  {
    OwnSideShifted(s, id, car, count, k, r, r', wake, wake');
    OtherSideShifted(s, id, car, count, k, r, r', wake, wake');
    SvcByParts(r', r, k, Towards(car));
  }

  /** Start treats all counter origins alike: lists, comparator distances and the wake-up decision. */
  lemma StartShifted(s: Svc, id: nat, car: int, count: int, k: int)
    ensures var (r, wake) := StartLocked(s, id, car, count);
            var (r', wake') := StartLocked(ShiftedSvc(s, k), id, car, count + k);
      ShiftedSvc(r', 0) == ShiftedSvc(r, k) && wake' == wake
  {
    var (r, wake) := StartLocked(s, id, car, count);
    var (r', wake') := StartLocked(ShiftedSvc(s, k), id, car, count + k);
    StartParts(s, id, car, count);
    StartParts(ShiftedSvc(s, k), id, car, count + k);
    StartedShifted(s, id, car, count, k, r, r', wake, wake');
  }

  lemma SvcTwice(s: Svc, k: int, j: int)
    ensures ShiftedSvc(ShiftedSvc(s, k), j) == ShiftedSvc(s, k + j)
  {
    ShiftedTwice(s.plus, k, j);
    ShiftedTwice(s.minus, k, j);
  }

  lemma ViewTwice(w: World, k: int, j: int)
    ensures View(View(w, k), j) == View(w, k + j)
  {
    SvcTwice(w.svc, k, j);
  }

  lemma UnlinkShifted(s: Svc, id: nat, k: int)
    ensures Unlink(ShiftedSvc(s, k), id) == ShiftedSvc(Unlink(s, id), k)
  {
    RemoveShifted(s.plus, id, k);
    RemoveShifted(s.minus, id, k);
  }

  lemma PopShifted(w: World, k: int)
    requires w.pc.InPlus? || w.pc.InMinus?
    ensures HeadDue(View(w, k)) == HeadDue(w)
    ensures Step(View(w, k), Pop) == View(Step(w, Pop), k)
  {
    var l := w.svc.Side(SampledDir(w.pc));
    if l != [] { ShiftedTail(l, k); }
  }

  lemma ArmShifted(w: World, k: int)
    requires w.pc.InPlus? || w.pc.InMinus?
    ensures Step(View(w, k), ArmHead) == View(Step(w, ArmHead), k)
  {
    PopShifted(w, k);
    var l := w.svc.Side(SampledDir(w.pc));
    if l != [] { ShiftedTail(l, k); }
  }

  lemma AfterStartShifted(w: World, r: Svc, r': Svc, wake: bool, k: int)
    requires ShiftedSvc(r', 0) == ShiftedSvc(r, k)
    ensures View(AfterStart(View(w, k), r', wake), 0) == View(AfterStart(w, r, wake), k)
  {
  }

  lemma StepStarts(w: World, id: nat, car: int)
    requires car != 0
    ensures var r := StartLocked(w.svc, id, car, w.count); Step(w, ClientStart(id, car)) == AfterStart(w, r.0, r.1)
  {
  }

  lemma StartStepShifted(w: World, id: nat, car: int, k: int)
    requires car != 0
    ensures View(Step(View(w, k), ClientStart(id, car)), 0) == View(Step(w, ClientStart(id, car)), k)
  {
    StepStarts(w, id, car);
    StepStarts(View(w, k), id, car);
    StartShifted(w.svc, id, car, w.count, k);
    var r, r' := StartLocked(w.svc, id, car, w.count), StartLocked(ShiftedSvc(w.svc, k), id, car, w.count + k);
    AfterStartShifted(w, r.0, r'.0, r.1, k);
  }

  /** Steps that move no list treat all counter origins alike. */
  lemma PlainShifted(w: World, e: Event, k: int)
    requires !e.Reset? && !IsSplitReset(e) && !e.ClientStop? && !e.Pop? && !e.ArmHead?
    requires e.ClientStart? ==> e.car == 0
    ensures Step(View(w, k), ShiftedEvent(e, k)) == View(Step(w, e), k)
  {
  }

  /** Apart from resets, every step treats all counter origins alike. */
  lemma StepShifted(w: World, e: Event, k: int)
    requires !e.Reset? && !IsSplitReset(e)
    ensures View(Step(View(w, k), ShiftedEvent(e, k)), 0) == View(Step(w, e), k)
  {
    if e.ClientStart? && e.car != 0 {
      StartStepShifted(w, e.id, e.car, k);
    } else {
      if e.ClientStop? {
        UnlinkShifted(w.svc, e.id, k);
      } else if e.Pop? {
        if w.pc.InPlus? || w.pc.InMinus? { PopShifted(w, k); }
      } else if e.ArmHead? {
        if w.pc.InPlus? || w.pc.InMinus? { ArmShifted(w, k); }
      } else {
        PlainShifted(w, e, k);
      }
      assert Step(View(w, k), ShiftedEvent(e, k)) == View(Step(w, e), k);
      ViewTwice(Step(w, e), k, 0);
    }
  }

  // ------------------------------------------------------------------ the reset step

  ghost predicate RebaseFits(w: World) {
    && (forall i :: 0 <= i < |w.svc.plus| ==> FitsLong(w.svc.plus[i].end - w.count))
    && (forall i :: 0 <= i < |w.svc.minus| ==> FitsLong(w.svc.minus[i].end - w.count))
  }

  /** No handler run is holding a count sampled before the reset (or there is nothing to reset). */
  predicate NoStaleSample(w: World) {
    w.count == 0 || w.pc.Waiting? || w.pc.Cleared?
  }

  lemma RebaseIsShift(l: seq<Entry>, now: int, k: int)
    ensures Shifted(RebaseList(l, now), k + now) == Shifted(l, k)
      <==> forall i :: 0 <= i < |l| ==> FitsLong(l[i].end - now)
  {
    RebaseShape(l, now);
    var a, b := Shifted(RebaseList(l, now), k + now), Shifted(l, k);
    ShiftedShape(RebaseList(l, now), k + now);
    ShiftedShape(l, k);
    forall i | 0 <= i < |l| ensures a[i] == b[i] <==> FitsLong(l[i].end - now) {
      RebaseExact(l[i].end, now);
    }
    if a == b {
      forall i | 0 <= i < |l| ensures FitsLong(l[i].end - now) {
        assert a[i] == b[i];
      }
    }
  }

  lemma ListsAgree(w: World)
    requires w.resetting.NoReset?
    ensures var r, i := Logical(Step(w, Reset)), View(IdealStep(Logical(w), Reset), 0);
      r.svc.plus == i.svc.plus && r.svc.minus == i.svc.minus <==> RebaseFits(w)
  {
    var k := w.carDiff;
    RebaseIsShift(w.svc.plus, w.count, k);
    RebaseIsShift(w.svc.minus, w.count, k);
    ShiftedTwice(w.svc.plus, k, 0);
    ShiftedTwice(w.svc.minus, k, 0);
  }

  /** Everything but the lists and the handler's sample always agrees. */
  lemma RestAgrees(w: World)
    requires w.resetting.NoReset?
    ensures var r, i := Logical(Step(w, Reset)), View(IdealStep(Logical(w), Reset), 0);
      && i == r.(svc := r.svc.(plus := i.svc.plus, minus := i.svc.minus), pc := i.pc)
      && (r.pc == i.pc <==> NoStaleSample(w))
  {
  }

  /** A single reset is invisible on the logical counter exactly when every distance fits the
      rebase's word and no handler run is between its sample and its end. */
  lemma ResetInvisible(w: World)
    requires w.resetting.NoReset?
    ensures Logical(Step(w, Reset)) == View(IdealStep(Logical(w), Reset), 0)
      <==> RebaseFits(w) && NoStaleSample(w)
  {
    ListsAgree(w);
    RestAgrees(w);
  }

  // ------------------------------------------------------------------ whole runs

  /** Resets are taken whole, while no handler run holds a sample. */
  ghost predicate CleanResets(w: World, es: seq<Event>)
    decreases |es|
  {
    es != [] ==>
      && !IsSplitReset(es[0])
      && (es[0].Reset? ==> RebaseFits(w) && NoStaleSample(w))
      && CleanResets(Step(w, es[0]), es[1..])
  }

  /** The events of the ideal run: the same ones, with counter readings on the logical counter. */
  function LogicalEvents(w: World, es: seq<Event>): seq<Event>
    decreases |es|
  {
    if es == [] then [] else [ShiftedEvent(es[0], w.carDiff)] + LogicalEvents(Step(w, es[0]), es[1..])
  }

  lemma StepLogical(w: World, v: World, e: Event)
    requires Logical(w) == View(v, 0) && !IsSplitReset(e)
    requires e.Reset? ==> RebaseFits(w) && NoStaleSample(w)
    ensures Logical(Step(w, e)) == View(IdealStep(v, ShiftedEvent(e, w.carDiff)), 0)
  {
    var k := w.carDiff;
    if e.Reset? {
      if w.resetting.NoReset? {
        ResetInvisible(w);
        ViewTwice(w, k, 0);
        ViewTwice(v, 0, 0);
        SvcTwice(v.svc, 0, 0);
        assert View(IdealReset(View(v, 0)), 0) == View(IdealReset(v), 0);
      }
    } else {
      assert Step(w, e).carDiff == k;
      StepShifted(w, e, k);
      StepShifted(v, ShiftedEvent(e, k), 0);
      assert ShiftedEvent(ShiftedEvent(e, k), 0) == ShiftedEvent(e, k);
    }
  }

  /** Every run with clean resets is, on the logical counter, the ideal run without resets: the
      same thresholds in the same order, the same distances left, comparators, flag, cycle
      accumulator and average window. */
  lemma {:induction false} ResetsInvisible(w: World, v: World, es: seq<Event>)
    requires Logical(w) == View(v, 0) && CleanResets(w, es)
    ensures Logical(Run(w, es)) == View(IdealRun(v, LogicalEvents(w, es)), 0)
    decreases |es|
  {
    if es == [] {
    } else {
      StepLogical(w, v, es[0]);
      var rest := LogicalEvents(Step(w, es[0]), es[1..]);
      assert LogicalEvents(w, es)[1..] == rest;
      ResetsInvisible(Step(w, es[0]), IdealStep(v, ShiftedEvent(es[0], w.carDiff)), es[1..]);
    }
  }

  predicate NoSplits(es: seq<Event>) {
    forall e :: e in es ==> !IsSplitReset(e)
  }

  /** At every point of the run the view on the logical counter is the ideal machine's. */
  ghost predicate AlwaysAgrees(w: World, v: World, es: seq<Event>)
    decreases |es|
  {
    && Logical(w) == View(v, 0)
    && (es != [] ==> AlwaysAgrees(Step(w, es[0]), IdealStep(v, ShiftedEvent(es[0], w.carDiff)), es[1..]))
  }

  lemma StepAgrees(w: World, v: World, e: Event)
    requires Logical(w) == View(v, 0) && w.resetting.NoReset? && !IsSplitReset(e)
    ensures Logical(Step(w, e)) == View(IdealStep(v, ShiftedEvent(e, w.carDiff)), 0) <==>
      (e.Reset? ==> RebaseFits(w) && NoStaleSample(w))
    ensures Step(w, e).resetting.NoReset?
  {
    if e.Reset? {
      ResetInvisible(w);
      ViewTwice(w, w.carDiff, 0);
      ViewTwice(v, 0, 0);
      SvcTwice(v.svc, 0, 0);
      assert View(IdealReset(View(v, 0)), 0) == View(IdealReset(v), 0);
    } else {
      StepLogical(w, v, e);
    }
  }

  /** When resets are invisible: a run with whole resets agrees with the ideal run all along if and only if
      every reset is clean. */
  lemma {:induction false} ResetsInvisibleExactly(w: World, v: World, es: seq<Event>)
    requires Logical(w) == View(v, 0) && w.resetting.NoReset? && NoSplits(es)
    ensures AlwaysAgrees(w, v, es) <==> CleanResets(w, es)
    decreases |es|
  {
    if es == [] {
    } else {
      assert es[0] in es;
      StepAgrees(w, v, es[0]);
      if es[0].Reset? ==> RebaseFits(w) && NoStaleSample(w) {
        ResetsInvisibleExactly(Step(w, es[0]), IdealStep(v, ShiftedEvent(es[0], w.carDiff)), es[1..]);
      }
    }
  }

  /** What the equality of views says about one consumer: the remaining distance is the same. */
  lemma SameDistance(w: World, v: World, dir: Dir, i: nat)
    requires Logical(w) == View(v, 0) && i < |w.svc.Side(dir)|
    ensures i < |v.svc.Side(dir)| && w.svc.Side(dir)[i].id == v.svc.Side(dir)[i].id
    ensures Gap(dir, w.svc.Side(dir)[i].end, w.count) == Gap(dir, v.svc.Side(dir)[i].end, v.count)
    ensures v.svc.Side(dir)[i].end == w.svc.Side(dir)[i].end + w.carDiff
    ensures w.cycle.ncar == v.cycle.ncar && w.cycle.car + w.carDiff == v.cycle.car
  {
    var a, b := w.svc.Side(dir), v.svc.Side(dir);
    assert Shifted(a, w.carDiff) == Shifted(b, 0);
    ShiftedShape(a, w.carDiff);
    ShiftedShape(b, 0);
    assert Shifted(a, w.carDiff)[i] == Shifted(b, 0)[i];
  }

  /** The averages agree too: the window a sample closes is the one the averaging step measures, on either
      counter, and what it measures is the charge moved since the last sample or reset. */
  lemma SameAverage(w: World, v: World, a: Iavg, now: int, oldHardware: bool)
    requires Logical(w) == View(v, 0) && a.car == w.iavgCar && Seconds(a.time, now) >= 60
    ensures var b := UpdateIavg(a, now, w.count, oldHardware).0; var w' := Step(w, IavgSample);
      && b.car == w'.iavgCar && b.avg == TruncDiv(w'.iavgDelta * 3600, Seconds(a.time, now))
      && w'.iavgDelta == Step(v, IavgSample).iavgDelta
  {
  }

  /** A reset that lands inside a callback is visible: the handler goes on with the count it
      sampled before the reset, and expires every head whose remaining distance is no more than
      that stale count, although it still has that whole distance to go. */
  lemma ResetInsideCallbackFiresEarly(w: World, e: Entry, rest: seq<Entry>)
    requires w.pc == InPlus(w.count) && w.resetting.NoReset? && w.svc.plus == [e] + rest
    requires 0 < e.end - w.count <= w.count && FitsLong(e.end - w.count)
    ensures Step(w, Pop) == w
    ensures Step(w, Reset).svc.plus[0].end - Step(w, Reset).count == e.end - w.count
    ensures Step(Step(w, Reset), Pop).svc.plus == RebaseList(rest, w.count)
  {
    RebaseExact(e.end, w.count);
    assert w.svc.plus[1..] == rest;
    var r := Step(w, Reset);
    assert r.svc.plus == [Entry(e.id, 0, e.end - w.count, e.end - w.count)] + RebaseList(rest, w.count);
    assert r.pc == w.pc;
  }

  /** From boot: the consumer at 900 has fired and its callback has started another one 100 ahead. */
  lemma InsideCallback(w: World)
    requires w.svc == Svc([], [], Off, Off, false) && w.count == 0 && w.pc.Waiting?
    requires w.waking == 0 && w.woken == 0
    ensures Run(w, [ClientStart(1, 900)] + ([Tick(900), Fire(Rise), WakeWrite] + [WakeFlag, ThreadClear, Sample]) +
                   [Pop] + [ClientStart(7, 100)])
      == w.(svc := Svc([Entry(7, 900, 1000, 100)], [], At(1000), At(600), false), count := 900, pc := InPlus(900))
  {
    var start, wake := [ClientStart(1, 900)], [Tick(900), Fire(Rise), WakeWrite] + [WakeFlag, ThreadClear, Sample];
    var a := Entry(1, 0, 900, 900);
    var w1 := w.(svc := Svc([a], [], At(900), Off, false));
    var w2 := w.(svc := Svc([a], [], At(1200), At(600), false), count := 900, pc := InPlus(900));
    var w3 := w2.(svc := w2.svc.(plus := []));
    RunSnoc(w, start + wake + [Pop], ClientStart(7, 100));
    RunSnoc(w, start + wake, Pop);
    RunSplit(w, start, wake);
    RunCons(w, ClientStart(1, 900), []);
    assert start + [] == start;
    OneStart(w, 1, 900);
    FireToSample(w1, [a], 900);
    PopOnly(w2, a);
    OneStart(w3, 7, 100);
  }

  /** So a reset inside a callback does happen to be visible: had it not landed before the callback
      returned, the new consumer would have stayed; with it, it is called at once with its 100 to go. */
  lemma ResetInsideCallbackExample(w: World)
    requires w.svc == Svc([], [], Off, Off, false) && w.count == 0 && w.pc.Waiting?
    requires w.waking == 0 && w.woken == 0 && w.resetting.NoReset?
    ensures var during := Run(w, [ClientStart(1, 900)] +
                                 ([Tick(900), Fire(Rise), WakeWrite] + [WakeFlag, ThreadClear, Sample]) +
                                 [Pop] + [ClientStart(7, 100)]);
      && during.svc.plus == [Entry(7, 900, 1000, 100)] && during.count == 900
      && Step(during, Pop) == during
      && Step(during, Reset).svc.plus == [Entry(7, 0, 100, 100)] && Step(during, Reset).count == 0
      && Step(Step(during, Reset), Pop).svc.plus == []
  {
    InsideCallback(w);
    ResetOverWaiting(w.(svc := Svc([Entry(7, 900, 1000, 100)], [], At(1000), At(600), false), count := 900,
                        pc := InPlus(900)), Entry(7, 900, 1000, 100));
  }

  lemma ResetOverWaiting(w: World, b: Entry)
    requires w.pc == InPlus(w.count) && w.resetting.NoReset? && w.svc.plus == [b]
    requires 0 < b.end - w.count <= w.count && FitsLong(b.end - w.count)
    ensures Step(w, Pop) == w && Step(w, Reset).count == 0
    ensures Step(w, Reset).svc.plus == [Entry(b.id, 0, b.end - w.count, b.end - w.count)]
    ensures Step(Step(w, Reset), Pop).svc.plus == []
  {
    assert [b] + [] == [b];
    ResetInsideCallbackFiresEarly(w, b, []);
    RebaseExact(b.end, w.count);
    assert [b][1..] == [];
  }
}
