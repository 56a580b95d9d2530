/** No crossing is lost: an invariant of the coulomb service over every interleaving of client
    calls, counter ticks, interrupts, wake-ups, the worker thread and resets. */
module CoulombRuns {
  import opened WaitLists
  import opened CoulombService
  import opened CoulombMachine
  import opened CoulombReset

  // ------------------------------------------------------------------ how late a comparator is

  /** How far the counter has travelled towards thresholds in direction `dir` since the handler
      sampled it: the distance the handler then writes is counted from too far along. */
  function Travelled(dir: Dir, pc: Pc, count: int): nat
    requires pc.InPlus? || pc.InMinus?
  {
    if Gap(dir, count, pc.car) > 0 then Gap(dir, count, pc.car) else 0
  }

  /** Lateness of the two comparators, as left by whoever programmed them last. */
  datatype Late = Late(up: nat, down: nat) {
    function At(dir: Dir): nat {
      if dir.Rise? then up else down
    }

    function With(dir: Dir, n: nat): Late {
      if dir.Rise? then this.(up := n) else this.(down := n)
    }
  }

  predicate Arms(w: World, e: Event) {
    e.ArmHead? && (w.pc.InPlus? || w.pc.InMinus?) && !HeadDue(w)
  }

  function LateStep(late: Late, w: World, e: Event): Late {
    if Arms(w, e) then late.With(SampledDir(w.pc), Travelled(SampledDir(w.pc), w.pc, w.count))
    else if e.ClientStart? && e.car != 0 then late.With(Towards(e.car), 0)
    else late
  }

  function LateRun(late: Late, w: World, es: seq<Event>): Late
    decreases |es|
  {
    if es == [] then late else LateRun(LateStep(late, w, es[0]), Step(w, es[0]), es[1..])
  }

  // ------------------------------------------------------------------ the invariant

  /** Another handler run is promised: a wake-up or a reset is under way, or the thread is flagged. */
  predicate WakeComing(w: World) {
    w.waking > 0 || w.woken > 0 || w.svc.flag || !w.resetting.NoReset?
  }

  /** Somebody is on the way to running the handler, or it is running and has still to program
      the comparator of this list. */
  predicate Attended(dir: Dir, w: World) {
    WakeComing(w) || w.pc.Cleared? || w.pc.InPlus? || (dir.Fall? && w.pc.InMinus?)
  }

  /** The comparator is armed, at most `late` beyond the nearest threshold. */
  predicate ArmedBy(dir: Dir, w: World, late: nat)
    requires w.svc.Side(dir) != []
  {
    w.svc.Cmp(dir).At? && Gap(dir, w.svc.Cmp(dir).level, w.svc.Side(dir)[0].end) <= late
  }

  predicate Covered(dir: Dir, w: World, late: nat) {
    w.svc.Side(dir) != [] ==> Attended(dir, w) || ArmedBy(dir, w, late)
  }

  ghost predicate Inv(w: World, late: Late) {
    w.svc.Wf() && Covered(Rise, w, late.up) && Covered(Fall, w, late.down)
  }

  predicate Boot(w: World) {
    w.svc.plus == [] && w.svc.minus == []
  }

  // ------------------------------------------------------------------ steps

  lemma UnlinkHead(l: seq<Entry>, dir: Dir, id: nat)
    requires Sorted(dir, l) && Remove(l, id) != []
    ensures l != [] && Gap(dir, Remove(l, id)[0].end, l[0].end) >= 0
  {
    RemoveMembers(l, id);
    var x := Remove(l, id)[0];
    assert x in l;
    var i :| 0 <= i < |l| && l[i] == x;
  }

  /** Unlinking a consumer only moves a list's head further away. */
  lemma UnlinkCovered(dir: Dir, w: World, w': World, id: nat, late: nat)
    requires w.svc.Wf() && Covered(dir, w, late)
    requires w'.svc.Side(dir) == Unlink(w.svc, id).Side(dir) && w'.svc.Cmp(dir) == w.svc.Cmp(dir)
    requires Attended(dir, w) ==> Attended(dir, w')
    ensures Covered(dir, w', late)
  {
    if w'.svc.Side(dir) != [] {
      UnlinkHead(w.svc.Side(dir), dir, id);
    }
  }

  lemma StartInv(w: World, late: Late, id: nat, car: int)
    requires Inv(w, late) && car != 0
    ensures Inv(Step(w, ClientStart(id, car)), LateStep(late, w, ClientStart(id, car)))
  {
    var w' := Step(w, ClientStart(id, car));
    var dir := Towards(car);
    StartWf(w.svc, id, car, w.count);
    StartArmsNearest(w.svc, id, car, w.count);
    UnlinkCovered(Flip(dir), w, w', id, late.At(Flip(dir)));
    assert Covered(dir, w', 0);
  }

  lemma ArmInv(w: World, late: Late)
    requires Inv(w, late) && Arms(w, ArmHead)
    ensures Inv(Step(w, ArmHead), LateStep(late, w, ArmHead))
  {
    var dir := SampledDir(w.pc);
    var w' := Step(w, ArmHead);
    assert w'.svc.plus == w.svc.plus && w'.svc.minus == w.svc.minus;
    if w.svc.Side(dir) != [] {
      ArmHeadLateness(w);
    }
  }

  /** What the handler programs: always a strictly positive distance, and later than the nearest
      threshold by exactly what the counter travelled since the handler sampled it. */
  lemma ArmHeadLateness(w: World)
    requires Arms(w, ArmHead) && w.svc.Side(SampledDir(w.pc)) != []
    ensures var dir := SampledDir(w.pc); var cmp := Step(w, ArmHead).svc.Cmp(dir); var head := w.svc.Side(dir)[0];
      && cmp.At?
      && Gap(dir, cmp.level, w.count) > 0
      && Gap(dir, cmp.level, head.end) == Gap(dir, w.count, w.pc.car)
      && (Gap(dir, cmp.level, head.end) <= 0 <==> Gap(dir, w.count, w.pc.car) <= 0)
  {
  }

  lemma RebaseKeepsOrder(dir: Dir, l: seq<Entry>, now: int)
    requires Sorted(dir, l) && Distinct(l)
    requires forall i :: 0 <= i < |l| ==> FitsLong(l[i].end - now)
    ensures Sorted(dir, RebaseList(l, now)) && Distinct(RebaseList(l, now))
  {
    RebaseShape(l, now);
    var r := RebaseList(l, now);
    forall i | 0 <= i < |l| ensures r[i].end == l[i].end - now && r[i].id == l[i].id {
      RebaseExact(l[i].end, now);
    }
  }

  /** The reset rebase keeps the order and the uniqueness of both lists. */
  lemma RebaseWf(s: Svc, now: int)
    requires s.Wf()
    requires forall i :: 0 <= i < |s.plus| ==> FitsLong(s.plus[i].end - now)
    requires forall i :: 0 <= i < |s.minus| ==> FitsLong(s.minus[i].end - now)
    ensures RebaseSvc(s, now).Wf()
  {
    RebaseKeepsOrder(Rise, s.plus, now);
    RebaseKeepsOrder(Fall, s.minus, now);
    RebaseShape(s.plus, now);
    RebaseShape(s.minus, now);
  }

  /** Distances fit a long wherever a rebase happens (the only place the service's words wrap). */
  ghost predicate Fits(w: World, e: Event) {
    && (e.Reset? ==> RebaseFits(w))
    && (e.SplitRebase? && w.resetting.Zeroed? ==>
          && (forall i :: 0 <= i < |w.svc.plus| ==> FitsLong(w.svc.plus[i].end - w.resetting.now))
          && (forall i :: 0 <= i < |w.svc.minus| ==> FitsLong(w.svc.minus[i].end - w.resetting.now)))
  }

  lemma StepInv(w: World, late: Late, e: Event)
    requires Inv(w, late) && Fits(w, e)
    ensures Inv(Step(w, e), LateStep(late, w, e))
  {
    match e {
      case ClientStart(id, car) =>
        if car != 0 { StartInv(w, late, id, car); }
      case ClientStop(id) =>
        UnlinkWf(w.svc, id);
        UnlinkCovered(Rise, w, Step(w, e), id, late.up);
        UnlinkCovered(Fall, w, Step(w, e), id, late.down);
      case Pop =>
        if (w.pc.InPlus? || w.pc.InMinus?) && HeadDue(w) { PopWf(SampledDir(w.pc), w.svc); }
      case ArmHead =>
        if Arms(w, e) { ArmInv(w, late); }
      case Reset =>
        if w.resetting.NoReset? { RebaseWf(w.svc, w.count); }
      case SplitRebase =>
        if w.resetting.Zeroed? { RebaseWf(w.svc, w.resetting.now); }
      case _ =>
    }
  }

  ghost predicate FitsRun(w: World, es: seq<Event>)
    decreases |es|
  {
    es != [] ==> Fits(w, es[0]) && FitsRun(Step(w, es[0]), es[1..])
  }

  lemma {:induction false} RunInv(w: World, late: Late, es: seq<Event>)
    requires Inv(w, late) && FitsRun(w, es)
    ensures Inv(Run(w, es), LateRun(late, w, es))
    decreases |es|
  {
    if es == [] {
    } else {
      StepInv(w, late, es[0]);
      RunInv(Step(w, es[0]), LateStep(late, w, es[0]), es[1..]);
    }
  }

  // ------------------------------------------------------------------ the theorems

  /** Over every interleaving from boot: both lists keep their shape, and a waiting consumer is
      either attended to or covered by a comparator that is late by no more than the counter
      travelled during the handler run that programmed it. */
  lemma NoCrossingLost(w: World, es: seq<Event>)
    requires Boot(w) && FitsRun(w, es)
    ensures Inv(Run(w, es), LateRun(Late(0, 0), w, es))
  {
    RunInv(w, Late(0, 0), es);
  }

  /** Progress: once a consumer is due by more than that lateness, the service is not at rest. */
  lemma DueIsNoticed(w: World, es: seq<Event>, dir: Dir, e: Entry)
    requires Boot(w) && FitsRun(w, es)
    requires e in Run(w, es).svc.Side(dir)
    requires Gap(dir, e.end, Run(w, es).count) + LateRun(Late(0, 0), w, es).At(dir) <= 0
    ensures Attended(dir, Run(w, es)) || Fires(dir, Run(w, es))
  {
    NoCrossingLost(w, es);
    var l := Run(w, es).svc.Side(dir);
    var i :| 0 <= i < |l| && l[i] == e;
  }

  /** No comparator is armed beyond the nearest threshold of a list that nobody attends to. */
  predicate Punctual(w: World) {
    Covered(Rise, w, 0) && Covered(Fall, w, 0)
  }

  predicate AlwaysPunctual(w: World, es: seq<Event>)
    decreases |es|
  {
    Punctual(w) && (es != [] ==> AlwaysPunctual(Step(w, es[0]), es[1..]))
  }

  /** When the handler programs a comparator, its list is empty, or the counter has not advanced
      towards the thresholds since the handler sampled it, or another handler run is promised. */
  predicate Harmless(w: World, e: Event) {
    Arms(w, e) ==>
      var dir := SampledDir(w.pc);
      w.svc.Side(dir) == [] || Gap(dir, w.count, w.pc.car) <= 0 || WakeComing(w)
  }

  predicate AllHarmless(w: World, es: seq<Event>)
    decreases |es|
  {
    es != [] ==> Harmless(w, es[0]) && AllHarmless(Step(w, es[0]), es[1..])
  }

  lemma PunctualStep(w: World, e: Event)
    requires Inv(w, Late(0, 0)) && Fits(w, e)
    ensures Step(w, e).svc.Wf()
    ensures Punctual(Step(w, e)) <==> Harmless(w, e)
  {
    StepInv(w, Late(0, 0), e);
    if Arms(w, e) && w.svc.Side(SampledDir(w.pc)) != [] {
      ArmHeadLateness(w);
    }
  }

  lemma {:induction false} PunctualRun(w: World, es: seq<Event>)
    requires Inv(w, Late(0, 0)) && FitsRun(w, es)
    ensures AlwaysPunctual(w, es) <==> AllHarmless(w, es)
    decreases |es|
  {
    if es == [] {
    } else {
      PunctualStep(w, es[0]);
      if Harmless(w, es[0]) {
        PunctualRun(Step(w, es[0]), es[1..]);
      }
    }
  }

  /** When no crossing is late: over every interleaving from boot, the comparators are armed no later
      than the nearest threshold all along if and only if every arming by the handler is harmless. */
  lemma NoCrossingLateExactly(w: World, es: seq<Event>)
    requires Boot(w) && FitsRun(w, es)
    ensures AlwaysPunctual(w, es) <==> AllHarmless(w, es)
  {
    PunctualRun(w, es);
  }

  /** Nothing programs a comparator. */
  predicate ProgramsNothing(es: seq<Event>) {
    forall e :: e in es ==> e.Tick? || e.ClientStop? || e.Fire? || e.WakeFlag? || e.ThreadClear? || e.Sample? || e.Pop?
  }

  lemma {:induction false} StaysOff(dir: Dir, w: World, es: seq<Event>)
    requires w.svc.Cmp(dir) == Off && ProgramsNothing(es)
    ensures Run(w, es).svc.Cmp(dir) == Off
    decreases |es|
  {
    if es == [] {
    } else {
      assert es[0] in es;
      StaysOff(dir, Step(w, es[0]), es[1..]);
    }
  }

  /** A comparator that has fired, or that a reset has switched off, interrupts no more until somebody programs
      it: a crossing wakes the worker once. */
  lemma FiresOnce(dir: Dir, w: World, es: seq<Event>)
    requires ProgramsNothing(es)
    ensures Fires(dir, w) ==> !Fires(dir, Run(Step(w, Fire(dir)), es))
    ensures w.resetting.NoReset? ==> !Fires(dir, Run(Step(w, SplitOff), es))
  {
    if Fires(dir, w) { StaysOff(dir, Step(w, Fire(dir)), es); }
    if w.resetting.NoReset? { StaysOff(dir, Step(w, SplitOff), es); }
  }

  /** The counter stands still, or moves away from the thresholds, between a handler's sample
      and its comparator writes. */
  predicate Prompt(w: World, es: seq<Event>)
    decreases |es|
  {
    es != [] ==>
      && (Arms(w, es[0]) ==> Travelled(SampledDir(w.pc), w.pc, w.count) == 0)
      && Prompt(Step(w, es[0]), es[1..])
  }

  lemma {:induction false} PromptIsHarmless(w: World, es: seq<Event>)
    requires Prompt(w, es)
    ensures AllHarmless(w, es)
    decreases |es|
  {
    if es == [] {
    } else {
      PromptIsHarmless(Step(w, es[0]), es[1..]);
    }
  }

  lemma {:induction false} PunctualAtEnd(w: World, es: seq<Event>)
    requires AlwaysPunctual(w, es)
    ensures Punctual(Run(w, es))
    decreases |es|
  {
    if es == [] {
    } else {
      PunctualAtEnd(Step(w, es[0]), es[1..]);
    }
  }

  /** In particular with prompt handlers, whatever else happens. */
  lemma NoCrossingLate(w: World, es: seq<Event>, dir: Dir)
    requires Boot(w) && FitsRun(w, es) && Prompt(w, es)
    ensures AlwaysPunctual(w, es) && Covered(dir, Run(w, es), 0)
  {
    PromptIsHarmless(w, es);
    NoCrossingLateExactly(w, es);
    PunctualAtEnd(w, es);
  }

  /** A handler that is not prompt arms late and nobody notices: from any handler run about to
      program its plus comparator with an empty minus list and nothing else going on, a tick past
      the head's threshold leaves the service at rest with an overdue consumer. */
  lemma SlowHandlerMissesCrossing(w: World, e: Entry, rest: seq<Entry>, count: int)
    requires w.pc.InPlus? && w.svc.plus == [e] + rest && w.svc.minus == []
    requires w.waking == 0 && w.woken == 0 && !w.svc.flag && w.resetting.NoReset?
    requires w.pc.car < e.end <= count
    ensures var w' := Run(w, [Tick(count), ArmHead, ArmHead]);
      && w'.svc.plus == [e] + rest && Due(Rise, e, w'.count)
      && !Attended(Rise, w') && !Attended(Fall, w')
      && !Fires(Rise, w') && w'.svc.ht == At(e.end + (count - w.pc.car))
      && !Covered(Rise, w', 0)
  {
    var es := [Tick(count), ArmHead, ArmHead];
    var w1 := Step(w, es[0]);
    var w2 := Step(w1, ArmHead);
    var w3 := Step(w2, ArmHead);
    assert es[1..] == [ArmHead, ArmHead] && es[1..][1..] == [ArmHead] && es[1..][1..][1..] == [];
    assert Run(w1, es[1..]) == Run(w2, es[1..][1..]) == Run(w3, []);
    assert w2.svc.ht == At(e.end + (count - w.pc.car));
  }

  /** The situation of the previous lemma is reached from boot: consumers at 100 and 110, the
      counter at 100, and the first consumer's callback still running. */
  lemma SlowHandlerReachable(w: World)
    requires w.svc == Svc([], [], Off, Off, false) && w.count == 0 && w.pc.Waiting?
    requires w.waking == 0 && w.woken == 0 && w.resetting.NoReset?
    ensures Run(w, [ClientStart(1, 100), ClientStart(2, 110)] +
                   ([Tick(100), Fire(Rise), WakeWrite] + [WakeFlag, ThreadClear, Sample] + [Pop]))
      == w.(svc := Svc([Entry(2, 0, 110, 110)], [], At(400), At(-200), false), count := 100, pc := InPlus(100))
  {
    var a, b := Entry(1, 0, 100, 100), Entry(2, 0, 110, 110);
    var starts := [ClientStart(1, 100), ClientStart(2, 110)];
    var wake := [Tick(100), Fire(Rise), WakeWrite] + [WakeFlag, ThreadClear, Sample];
    RunSplit(w, starts, wake + [Pop]);
    TwoStarts(w);
    var w2 := Run(w, starts);
    RunSnoc(w2, wake, Pop);
    FireToSample(w2, [a, b], 100);
    PopFirst(Run(w2, wake), a, b);
  }

  lemma TwoStarts(w: World)
    requires w.svc == Svc([], [], Off, Off, false) && w.count == 0
    ensures Run(w, [ClientStart(1, 100), ClientStart(2, 110)])
      == w.(svc := Svc([Entry(1, 0, 100, 100), Entry(2, 0, 110, 110)], [], At(100), Off, false))
  {
    var a, b := Entry(1, 0, 100, 100), Entry(2, 0, 110, 110);
    assert Relinked(w.svc, 1, 100, 0) == [a];
    var w1 := Step(w, ClientStart(1, 100));
    assert w1 == w.(svc := Svc([a], [], At(100), Off, false));
    assert [a][1..] == [] && Remove([a], 2) == [a];
    assert Insert(Rise, [a], b) == [a] + Insert(Rise, [], b);
    assert Relinked(w1.svc, 2, 110, 0) == [a, b];
    RunSnoc(w, [ClientStart(1, 100)], ClientStart(2, 110));
    RunSnoc(w, [], ClientStart(1, 100));
    assert [ClientStart(1, 100)] + [ClientStart(2, 110)] == [ClientStart(1, 100), ClientStart(2, 110)];
    assert [] + [ClientStart(1, 100)] == [ClientStart(1, 100)];
  }

  lemma PopFirst(w: World, a: Entry, b: Entry)
    requires w.svc == Svc([a, b], [], At(400), At(-200), false) && w.pc == InPlus(100) && a.end == 100
    ensures Step(w, Pop) == w.(svc := Svc([b], [], At(400), At(-200), false))
  {
    assert [a, b][1..] == [b];
  }
}
