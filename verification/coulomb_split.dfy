/** A counter reset taken apart into its own sections: comparators off, count latched, counter zeroed, lists
    rebased.  The thread and the clients may run in between. */
module CoulombSplit {
  import opened WaitLists
  import opened CoulombService
  import opened CoulombMachine
  import opened CoulombReset

  /** Events that measure nothing on the zeroed counter against the lists, which still wait on the old one. */
  predicate Unmeasured(e: Event) {
    !e.Reset? && !IsSplitReset(e) && !e.Sample? && (e.ClientStart? ==> e.car == 0)
  }

  predicate AllUnmeasured(es: seq<Event>) {
    forall e :: e in es ==> Unmeasured(e)
  }

  function ShiftedEvents(es: seq<Event>, k: int): seq<Event> {
    if es == [] then [] else [ShiftedEvent(es[0], k)] + ShiftedEvents(es[1..], k)
  }

  /** The real machine after the zero and the one whose counter was never zeroed: the same lists. */
  predicate Twins(r: World, v: World, k: int) {
    && r.svc.plus == v.svc.plus && r.svc.minus == v.svc.minus
    && v.count == r.count + k && v.resetting.NoReset?
    && (r.pc == v.pc || (!InHandler(r) && !InHandler(v)))
  }

  lemma TwinStep(r: World, v: World, k: int, e: Event)
    requires Twins(r, v, k) && Unmeasured(e)
    ensures Twins(Step(r, e), Step(v, ShiftedEvent(e, k)), k) && Step(r, e).resetting == r.resetting
  {
  }

  lemma {:induction false} TwinRun(r: World, v: World, k: int, es: seq<Event>)
    requires Twins(r, v, k) && AllUnmeasured(es)
    ensures Twins(Run(r, es), Run(v, ShiftedEvents(es, k)), k) && Run(r, es).resetting == r.resetting
    decreases |es|
  {
    if es == [] {
    } else {
      assert es[0] in es;
      TwinStep(r, v, k, es[0]);
      TwinRun(Step(r, es[0]), Step(v, ShiftedEvent(es[0], k)), k, es[1..]);
      assert ShiftedEvents(es, k)[1..] == ShiftedEvents(es[1..], k);
    }
  }

  ghost predicate FitAll(l: seq<Entry>, now: int) {
    forall i :: 0 <= i < |l| ==> FitsLong(l[i].end - now)
  }

  /** Both lists name the same consumers in the same order with the same distances left. */
  ghost predicate SameDistances(dir: Dir, a: seq<Entry>, count: int, b: seq<Entry>, count': int) {
    |a| == |b| && forall i :: 0 <= i < |a| ==>
      a[i].id == b[i].id && Gap(dir, a[i].end, count) == Gap(dir, b[i].end, count')
  }

  lemma RebasedDistances(dir: Dir, l: seq<Entry>, now: int, count: int, k: int)
    requires FitAll(l, now)
    ensures SameDistances(dir, RebaseList(l, now), count, l, count + k) <==> l == [] || k == now
  {
    RebaseShape(l, now);
    forall i | 0 <= i < |l| ensures RebaseList(l, now)[i].end == l[i].end - now {
      RebaseExact(l[i].end, now);
    }
    if l != [] && SameDistances(dir, RebaseList(l, now), count, l, count + k) {
      assert Gap(dir, RebaseList(l, now)[0].end, count) == Gap(dir, l[0].end, count + k);
    }
  }

  /** When a reset taken apart keeps every distance: from the latched count `now` on the counter may have
      moved to `k` before it is zeroed.  If nothing is started and no handler samples the counter between
      zero and rebase, every consumer's remaining distance is that of the counter never zeroed, if and only
      if the counter stood at the latched count when it was zeroed, or nobody is waiting. */
  lemma SplitResetExactly(w: World, now: int, ht: Arm, lt: Arm, es: seq<Event>)
    requires w.resetting == Latched(now) && AllUnmeasured(es)
    requires var r := Run(Step(w, SplitZero(ht, lt)), es); FitAll(r.svc.plus, now) && FitAll(r.svc.minus, now)
    ensures var r := Step(Run(Step(w, SplitZero(ht, lt)), es), SplitRebase);
            var v := Run(w.(resetting := NoReset), ShiftedEvents(es, w.count));
      && r.resetting.NoReset? && v.count == r.count + w.count
      && (SameDistances(Rise, r.svc.plus, r.count, v.svc.plus, v.count) &&
          SameDistances(Fall, r.svc.minus, r.count, v.svc.minus, v.count) <==>
          w.count == now || (v.svc.plus == [] && v.svc.minus == []))
  {
    var z, i := Step(w, SplitZero(ht, lt)), w.(resetting := NoReset);
    TwinRun(z, i, w.count, es);
    var r := Run(z, es);
    RebasedDistances(Rise, r.svc.plus, now, r.count, w.count);
    RebasedDistances(Fall, r.svc.minus, now, r.count, w.count);
  }

  /** A start between zero and rebase is measured on the new counter and rebased as if on the old one: it
      is off by the whole latched count, and right if and only if that was 0. */
  lemma StartBeforeRebase(w: World, now: int, id: nat, car: int)
    requires w.resetting == Zeroed(now) && car != 0 && FitsLong(w.count + car - now)
    ensures var dir := Towards(car); var r := Step(Step(w, ClientStart(id, car)), SplitRebase);
            var e := Entry(id, 0, w.count + car - now, w.count + car - now);
      && e in r.svc.Side(dir) && r.count == w.count
      && (Gap(dir, e.end, r.count) == Gap(dir, w.count + car, w.count) <==> now == 0)
  {
    var dir, x := Towards(car), Entry(id, w.count, w.count + car, car);
    var l := Relinked(w.svc, id, car, w.count);
    InsertMembers(dir, Unlink(w.svc, id).Side(dir), x);
    assert x in l;
    var i :| 0 <= i < |l| && l[i] == x;
    assert Step(w, ClientStart(id, car)).svc.Side(dir) == l;
    RebaseShape(l, now);
    RebaseExact(x.end, now);
    assert RebaseList(l, now)[i] == Entry(id, 0, w.count + car - now, w.count + car - now);
  }

  /** For example a consumer that asks for 500 right after a counter of 1000 is zeroed ends up 500 overdue. */
  lemma StartBeforeRebaseExample(w: World)
    requires w.resetting == Zeroed(1000) && w.count == 0 && w.svc.plus == []
    ensures Entry(1, 0, -500, -500) in Step(Step(w, ClientStart(1, 500)), SplitRebase).svc.plus
  {
    StartBeforeRebase(w, 1000, 1, 500);
  }

  /** A handler that samples between zero and rebase calls consumers of the minus list early: with the
      counter zeroed from `now`, everyone waiting for it to fall to a positive count looks due. */
  lemma SampleBeforeRebase(w: World, now: int, e: Entry)
    requires w.resetting == Zeroed(now) && w.count == 0 && w.pc.Cleared?
    requires w.svc.plus == [] && w.svc.minus == [e] && 0 < e.end < now
    ensures Gap(Fall, e.end, now) > 0
    ensures Run(w, [Sample] + ([ArmHead] + [Pop])).svc.minus == []
  {
    var w1 := w.(pc := InPlus(0));
    var w2 := w.(pc := InMinus(0));
    RunCons(w, Sample, [ArmHead] + [Pop]);
    RunCons(w1, ArmHead, [Pop]);
    RunCons(w2, Pop, []);
    assert [Pop] + [] == [Pop] && [e][1..] == [];
  }
}
