/** What the coulomb handler calls while the counter moves and clients act inside its callbacks. */
module CoulombCallbacks {
  import opened Sublists
  import opened WaitLists
  import opened CoulombService
  import opened CoulombHandler
  import opened CoulombMachine

  /** One handler run: it is inside its loops before every event, and nobody resets the counter. */
  predicate Within(w: World, es: seq<Event>)
    decreases |es|
  {
    es != [] ==> InHandler(w) && !es[0].Reset? && !IsSplitReset(es[0]) && Within(Step(w, es[0]), es[1..])
  }

  /** The consumers due in a direction by the handler's sample. */
  function DueNow(dir: Dir, w: World): seq<Entry>
    requires InHandler(w)
  {
    w.svc.DueIn(dir, w.pc.car)
  }

  predicate Pops(dir: Dir, w: World, e: Event) {
    e.Pop? && InHandler(w) && SampledDir(w.pc) == dir && HeadDue(w)
  }

  /** The consumers called from one list along a run. */
  function Popped(dir: Dir, w: World, es: seq<Event>): seq<nat>
    decreases |es|
  {
    if es == [] then []
    else (if Pops(dir, w, es[0]) then [w.svc.Side(dir)[0].id] else []) + Popped(dir, Step(w, es[0]), es[1..])
  }

  /** A start in this direction whose threshold the handler's sample has already passed. */
  predicate Stale(dir: Dir, w: World, e: Event)
    requires InHandler(w)
  {
    e.ClientStart? && e.car != 0 && Towards(e.car) == dir && Gap(dir, w.count + e.car, w.pc.car) <= 0
  }

  predicate AllAhead(dir: Dir, w: World, es: seq<Event>)
    decreases |es|
  {
    es != [] ==> InHandler(w) && !Stale(dir, w, es[0]) && AllAhead(dir, Step(w, es[0]), es[1..])
  }

  // ------------------------------------------------------------------ one step

  /** A start that is not stale only unlinks, as far as the sample can see. */
  lemma StartDueBy(dir: Dir, s: Svc, id: nat, car: int, count: int, sample: int)
    requires car != 0 && (dir == Towards(car) ==> Gap(dir, count + car, sample) > 0)
    ensures StartLocked(s, id, car, count).0.DueIn(dir, sample) == Remove(s.DueIn(dir, sample), id)
  {
    DueOnlyRemove(dir, s.Side(dir), id, sample);
    if dir == Towards(car) {
      DueOnlyInsert(dir, Unlink(s, id).Side(dir), Entry(id, count, count + car, car), sample);
    }
  }

  lemma {:induction false} DueOnlyGrows(dir: Dir, l: seq<Entry>, e: Entry, count: int)
    requires Due(dir, e, count)
    ensures |DueOnly(dir, Insert(dir, l, e), count)| == |DueOnly(dir, l, count)| + 1
  {
    if l == [] || Gap(dir, l[0].end, e.end) > 0 {
      assert ([e] + l)[1..] == l;
    } else {
      DueOnlyGrows(dir, l[1..], e, count);
      var r := Insert(dir, l, e);
      assert r[0] == l[0] && r[1..] == Insert(dir, l[1..], e);
    }
  }

  /** A stale start adds a consumer to those that are due by the sample. */
  lemma StaleDueBy(s: Svc, id: nat, car: int, count: int, sample: int)
    requires car != 0 && Gap(Towards(car), count + car, sample) <= 0
    ensures var dir := Towards(car); var s' := StartLocked(s, id, car, count).0;
      && |s'.DueIn(dir, sample)| == |Remove(s.DueIn(dir, sample), id)| + 1
      && Entry(id, count, count + car, car) in s'.Side(dir)
  {
    var dir, e := Towards(car), Entry(id, count, count + car, car);
    DueOnlyRemove(dir, s.Side(dir), id, sample);
    DueOnlyGrows(dir, Unlink(s, id).Side(dir), e, sample);
    InsertMembers(dir, Unlink(s, id).Side(dir), e);
  }

  /** Steps of others that touch neither list. */
  predicate Plain(e: Event) {
    !e.Reset? && !IsSplitReset(e) && !e.ClientStop? && !e.Pop? && (e.ClientStart? ==> e.car == 0)
  }

  lemma PlainDue(dir: Dir, w: World, e: Event)
    requires InHandler(w) && Plain(e)
    ensures Step(w, e).svc.Side(dir) == w.svc.Side(dir)
    ensures InHandler(Step(w, e)) ==> Step(w, e).pc.car == w.pc.car
  {
  }

  lemma PopDue(dir: Dir, w: World)
    requires InHandler(w)
    ensures Step(w, Pop).pc == w.pc
    ensures Pops(dir, w, Pop) ==> DueNow(dir, w) == [w.svc.Side(dir)[0]] + DueNow(dir, Step(w, Pop))
    ensures !Pops(dir, w, Pop) ==> Step(w, Pop).svc.Side(dir) == w.svc.Side(dir)
  {
  }

  /** The consumer a client event names; none if it does nothing. */
  predicate Touches(e: Event, id: nat) {
    (e.ClientStart? && e.car != 0 && e.id == id) || (e.ClientStop? && e.id == id)
  }

  lemma ClientStopDue(dir: Dir, w: World, id: nat)
    requires InHandler(w)
    ensures Step(w, ClientStop(id)).pc == w.pc
    ensures DueNow(dir, Step(w, ClientStop(id))) == Remove(DueNow(dir, w), id)
  {
    DueOnlyRemove(dir, w.svc.Side(dir), id, w.pc.car);
  }

  lemma ClientStartDue(dir: Dir, w: World, id: nat, car: int)
    requires InHandler(w) && car != 0
    ensures var e := ClientStart(id, car); var w' := Step(w, e);
      && w'.pc == w.pc
      && (!Stale(dir, w, e) ==> DueNow(dir, w') == Remove(DueNow(dir, w), id))
      && (Stale(dir, w, e) ==> |DueNow(dir, w')| == |Remove(DueNow(dir, w), id)| + 1)
  {
    if Stale(dir, w, ClientStart(id, car)) {
      StaleDueBy(w.svc, id, car, w.count, w.pc.car);
    } else {
      StartDueBy(dir, w.svc, id, car, w.count, w.pc.car);
    }
  }

  /** What any step of a handler run does to the consumers due by the sample: a call takes the first; a
      client takes out the one it names, and adds it again exactly if it restarts it behind the sample. */
  lemma StepDue(dir: Dir, w: World, e: Event)
    requires InHandler(w) && !e.Reset? && !IsSplitReset(e) && InHandler(Step(w, e))
    ensures Step(w, e).pc.car == w.pc.car
    ensures Pops(dir, w, e) ==> DueNow(dir, w) == [w.svc.Side(dir)[0]] + DueNow(dir, Step(w, e))
    ensures !Pops(dir, w, e) && !Stale(dir, w, e) ==>
      DueNow(dir, Step(w, e)) ==
      if e.ClientStop? || (e.ClientStart? && e.car != 0) then Remove(DueNow(dir, w), e.id) else DueNow(dir, w)
    ensures Stale(dir, w, e) ==> |DueNow(dir, Step(w, e))| == |Remove(DueNow(dir, w), e.id)| + 1
  {
    if e.ClientStop? {
      ClientStopDue(dir, w, e.id);
    } else if e.ClientStart? && e.car != 0 {
      ClientStartDue(dir, w, e.id, e.car);
    } else if e.Pop? {
      PopDue(dir, w);
    } else {
      PlainDue(dir, w, e);
    }
  }

  /** Only the last event of a handler run leaves it. */
  lemma LastLeaves(w: World, es: seq<Event>)
    requires es != [] && Within(w, es) && !InHandler(Step(w, es[0]))
    ensures es[1..] == [] && es[0].ArmHead?
  {
  }

  // ------------------------------------------------------------------ who is called

  lemma SublistOfRemove(x: seq<nat>, due: seq<Entry>, id: nat)
    requires Sublist(x, Ids(Remove(due, id)))
    ensures Sublist(x, Ids(due))
  {
    RemoveShortens(due, id);
    SublistIds(Remove(due, id), due);
    SublistTrans(x, Ids(Remove(due, id)), Ids(due));
  }

  /** However the counter moves and whatever clients do: if no start lies behind the handler's sample, the
      handler calls only consumers that were due when it sampled, each at most once and in threshold
      order; so its loop comes to an end. */
  lemma {:induction false} PoppedAreDue(dir: Dir, w: World, es: seq<Event>)
    requires InHandler(w) && Within(w, es) && AllAhead(dir, w, es)
    ensures Sublist(Popped(dir, w, es), Ids(DueNow(dir, w)))
    ensures |Popped(dir, w, es)| <= |DueNow(dir, w)|
    decreases |es|
  {
    if es == [] {
    } else {
      var w' := Step(w, es[0]);
      if !InHandler(w') {
        LastLeaves(w, es);
        assert Popped(dir, w', es[1..]) == [] && !Pops(dir, w, es[0]);
        assert Popped(dir, w, es) == [];
      } else {
        StepDue(dir, w, es[0]);
        PoppedAreDue(dir, w', es[1..]);
        var rest := Popped(dir, w', es[1..]);
        if Pops(dir, w, es[0]) {
          var due := DueNow(dir, w);
          IdsCons(due);
          assert due[1..] == DueNow(dir, w');
          assert Popped(dir, w, es)[1..] == rest && Ids(due)[1..] == Ids(due[1..]);
        } else if es[0].ClientStop? || (es[0].ClientStart? && es[0].car != 0) {
          SublistOfRemove(rest, DueNow(dir, w), es[0].id);
          RemoveShortens(DueNow(dir, w), es[0].id);
          assert Popped(dir, w, es) == rest;
        } else {
          assert Popped(dir, w, es) == rest;
        }
      }
    }
  }

  /** No client touches a consumer that is due by the sample. */
  ghost predicate Spared(dir: Dir, w: World, es: seq<Event>)
    decreases |es|
  {
    es != [] ==>
      && InHandler(w)
      && (es[0].ClientStop? || (es[0].ClientStart? && es[0].car != 0) ==> !Linked(DueNow(dir, w), es[0].id))
      && Spared(dir, Step(w, es[0]), es[1..])
  }

  function StaleCount(dir: Dir, w: World, es: seq<Event>): nat
    decreases |es|
  {
    if es == [] then 0
    else (if InHandler(w) && Stale(dir, w, es[0]) then 1 else 0) + StaleCount(dir, Step(w, es[0]), es[1..])
  }

  lemma {:induction false} NoneStale(dir: Dir, w: World, es: seq<Event>)
    requires Within(w, es)
    ensures StaleCount(dir, w, es) == 0 <==> AllAhead(dir, w, es)
    decreases |es|
  {
    if es == [] {
    } else {
      NoneStale(dir, Step(w, es[0]), es[1..]);
    }
  }

  lemma CallFirst(dir: Dir, w: World, es: seq<Event>)
    requires es != [] && Pops(dir, w, es[0])
    ensures Popped(dir, w, es) == [w.svc.Side(dir)[0].id] + Popped(dir, Step(w, es[0]), es[1..])
    ensures Step(w, es[0]).pc == w.pc
    ensures Ids(DueNow(dir, w)) == [w.svc.Side(dir)[0].id] + Ids(DueNow(dir, Step(w, es[0])))
  {
    PopDue(dir, w);
    IdsCons(DueNow(dir, w));
    assert DueNow(dir, w)[1..] == DueNow(dir, Step(w, es[0]));
  }

  /** A step that calls nobody, in a run that spares the due: only a stale start changes who is due. */
  lemma SparedStep(dir: Dir, w: World, es: seq<Event>)
    requires es != [] && Within(w, es) && Spared(dir, w, es) && InHandler(Step(w, es[0])) && !Pops(dir, w, es[0])
    ensures Step(w, es[0]).pc.car == w.pc.car
    ensures if Stale(dir, w, es[0]) then |DueNow(dir, Step(w, es[0]))| == |DueNow(dir, w)| + 1
            else DueNow(dir, Step(w, es[0])) == DueNow(dir, w)
    ensures Popped(dir, w, es) == Popped(dir, Step(w, es[0]), es[1..])
  {
    var e := es[0];
    StepDue(dir, w, e);
    if e.ClientStop? || (e.ClientStart? && e.car != 0) {
      RemoveUnlinked(DueNow(dir, w), e.id);
    }
  }

  lemma LastStep(dir: Dir, w: World, es: seq<Event>)
    requires es != [] && Within(w, es) && !InHandler(Step(w, es[0]))
    ensures Popped(dir, w, es) == [] && StaleCount(dir, w, es) == 0
    ensures Run(w, es).svc.DueIn(dir, w.pc.car) == DueNow(dir, w)
  {
    LastLeaves(w, es);
    PlainDue(dir, w, es[0]);
    assert Run(w, es) == Step(w, es[0]);
  }

  /** Conservation: who was due at the sample, and every stale start, is called or still due. */
  lemma {:induction false} CallsCounted(dir: Dir, w: World, es: seq<Event>)
    requires InHandler(w) && Within(w, es) && Spared(dir, w, es)
    ensures |Popped(dir, w, es)| + |Run(w, es).svc.DueIn(dir, w.pc.car)| == |DueNow(dir, w)| + StaleCount(dir, w, es)
    decreases |es|
  {
    if es == [] {
    } else if !InHandler(Step(w, es[0])) {
      LastStep(dir, w, es);
    } else {
      if Pops(dir, w, es[0]) { CallFirst(dir, w, es); } else { SparedStep(dir, w, es); }
      CallsCounted(dir, Step(w, es[0]), es[1..]);
    }
  }

  /** Without stale starts they are called in threshold order. */
  lemma {:induction false} CallsInOrder(dir: Dir, w: World, es: seq<Event>)
    requires InHandler(w) && Within(w, es) && Spared(dir, w, es) && AllAhead(dir, w, es)
    ensures Popped(dir, w, es) + Ids(Run(w, es).svc.DueIn(dir, w.pc.car)) == Ids(DueNow(dir, w))
    decreases |es|
  {
    if es == [] {
    } else if !InHandler(Step(w, es[0])) {
      LastStep(dir, w, es);
    } else {
      CallsInOrder(dir, Step(w, es[0]), es[1..]);
      if Pops(dir, w, es[0]) { CallFirst(dir, w, es); } else { SparedStep(dir, w, es); }
    }
  }

  /** Exactly when a handler calls the right consumers: of a run that has worked off a list, and in which
      clients left the consumers due by the sample alone, the calls are exactly the consumers due at the
      sample, in threshold order, if and only if no start lay behind the sample. */
  lemma CallsExactly(dir: Dir, w: World, es: seq<Event>)
    requires InHandler(w) && Within(w, es) && Spared(dir, w, es)
    requires Run(w, es).svc.DueIn(dir, w.pc.car) == []
    ensures Popped(dir, w, es) == Ids(DueNow(dir, w)) <==> AllAhead(dir, w, es)
  {
    CallsCounted(dir, w, es);
    NoneStale(dir, w, es);
    if AllAhead(dir, w, es) {
      CallsInOrder(dir, w, es);
    }
  }

  /** A loop ends only when nobody on its list is due by the sample. */
  lemma LoopEndsDrained(w: World)
    requires InHandler(w) && w.svc.Wf() && !HeadDue(w)
    ensures DueNow(SampledDir(w.pc), w) == []
  {
    NothingDue(SampledDir(w.pc), w.svc, w.pc.car);
  }

  predicate Untouched(id: nat, es: seq<Event>) {
    forall e :: e in es ==> !Touches(e, id)
  }

  lemma StaysLinked(dir: Dir, w: World, e: Event, x: Entry)
    requires InHandler(w) && !e.Reset? && !IsSplitReset(e) && x in w.svc.Side(dir) && !Touches(e, x.id)
    requires !(Pops(dir, w, e) && w.svc.Side(dir)[0] == x)
    ensures x in Step(w, e).svc.Side(dir)
  {
    if e.ClientStop? {
      RemoveMembers(w.svc.Side(dir), e.id);
    } else if e.ClientStart? && e.car != 0 {
      RemoveMembers(w.svc.Side(dir), e.id);
      if dir == Towards(e.car) {
        InsertMembers(dir, Unlink(w.svc, e.id).Side(dir), Entry(e.id, w.count, w.count + e.car, e.car));
      }
    } else if e.Pop? {
      PopDue(dir, w);
      if Pops(dir, w, e) {
        var i :| 0 <= i < |w.svc.Side(dir)| && w.svc.Side(dir)[i] == x;
        assert w.svc.Side(dir)[1..][i - 1] == x;
      }
    } else {
      PlainDue(dir, w, e);
    }
  }

  lemma {:induction false} DueIsCalled(dir: Dir, w: World, es: seq<Event>, x: Entry)
    requires InHandler(w) && Within(w, es) && Untouched(x.id, es)
    requires x in w.svc.Side(dir) && Due(dir, x, w.pc.car) && Run(w, es).svc.DueIn(dir, w.pc.car) == []
    ensures x.id in Popped(dir, w, es)
    decreases |es|
  {
    if es == [] {
      DueOnlyMembers(dir, w.svc.Side(dir), w.pc.car);
    } else {
      assert es[0] in es;
      var w' := Step(w, es[0]);
      if Pops(dir, w, es[0]) && w.svc.Side(dir)[0] == x {
        assert Popped(dir, w, es)[0] == x.id;
      } else {
        StaysLinked(dir, w, es[0], x);
        if !InHandler(w') {
          LastLeaves(w, es);
          assert Run(w, es) == w';
          DueOnlyMembers(dir, w'.svc.Side(dir), w.pc.car);
        } else {
          StepDue(dir, w, es[0]);
          DueIsCalled(dir, w', es[1..], x);
          var i :| 0 <= i < |Popped(dir, w', es[1..])| && Popped(dir, w', es[1..])[i] == x.id;
          assert Popped(dir, w, es)[|Popped(dir, w, es)| - |Popped(dir, w', es[1..])| + i] == x.id;
        }
      }
    }
  }

  /** A start behind the sample is called in this very handler run, with its whole distance still to go when
      it was made, unless a client stops or restarts it first. */
  lemma StaleIsCalled(w: World, id: nat, car: int, es: seq<Event>)
    requires InHandler(w) && Stale(Towards(car), w, ClientStart(id, car)) && Untouched(id, es)
    requires var w' := Step(w, ClientStart(id, car));
      Within(w', es) && Run(w', es).svc.DueIn(Towards(car), w.pc.car) == []
    ensures id in Popped(Towards(car), Step(w, ClientStart(id, car)), es)
    ensures Gap(Towards(car), w.count + car, w.count) > 0
  {
    StaleDueBy(w.svc, id, car, w.count, w.pc.car);
    ClientStartDue(Towards(car), w, id, car);
    DueIsCalled(Towards(car), Step(w, ClientStart(id, car)), es, Entry(id, w.count, w.count + car, car));
  }

  // ------------------------------------------------------------------ a handler that need not end

  /** The callback that restarts its consumer, and the call it leads to, again and again. */
  function Again(id: nat, car: int, k: nat): seq<Event> {
    if k == 0 then [] else [ClientStart(id, car)] + ([Pop] + Again(id, car, k - 1))
  }

  lemma OnceMore(w: World, id: nat, car: int)
    requires w.pc.InPlus? && w.svc.plus == [] && w.svc.minus == [] && car > 0 && w.count + car <= w.pc.car
    ensures var w1 := Step(w, ClientStart(id, car));
      && w1.pc == w.pc && w1.count == w.count && w1.svc.plus == [Entry(id, w.count, w.count + car, car)]
      && Pops(Rise, w1, Pop)
      && Step(w1, Pop) == w.(svc := w.svc.(ht := At(w.count + car)))
  {
    OneStart(w, id, car);
    assert [Entry(id, w.count, w.count + car, car)][1..] == [];
  }

  /** Once the counter has fallen back behind the sample by as much as a consumer asks for, its callback can
      restart it any number of times, and each time it is called again with all of that still to go. */
  lemma {:induction false} CalledAgain(w: World, id: nat, car: int, k: nat)
    requires w.pc.InPlus? && w.svc.plus == [] && w.svc.minus == [] && car > 0 && w.count + car <= w.pc.car
    ensures Within(w, Again(id, car, k))
    ensures |Popped(Rise, w, Again(id, car, k))| == k
    ensures Run(w, Again(id, car, k)).count == w.count && Run(w, Again(id, car, k)).pc == w.pc
    decreases k
  {
    if k == 0 {
    } else {
      OnceMore(w, id, car);
      var w1 := Step(w, ClientStart(id, car));
      CalledAgain(Step(w1, Pop), id, car, k - 1);
      var rest := [Pop] + Again(id, car, k - 1);
      assert Again(id, car, k)[1..] == rest && rest[1..] == Again(id, car, k - 1);
      assert Within(w1, rest);
      assert Popped(Rise, w1, rest) == [id] + Popped(Rise, Step(w1, Pop), Again(id, car, k - 1));
      assert Run(w1, rest) == Run(Step(w1, Pop), Again(id, car, k - 1));
    }
  }

  /** That is reached from boot, without any reset: a consumer waiting for 10 fires, and while its callback
      runs the counter falls to -20.  From there the handler may go on for ever. */
  lemma HandlerNeedNotEnd(w: World, k: nat)
    requires w.svc == Svc([], [], Off, Off, false) && w.count == 0 && w.pc.Waiting?
    requires w.waking == 0 && w.woken == 0 && w.resetting.NoReset?
    ensures var during := Run(w, [ClientStart(1, 10)] +
                                 ([Tick(10), Fire(Rise), WakeWrite] + [WakeFlag, ThreadClear, Sample]) +
                                 [Pop] + [Tick(-20)]);
      && during.pc == InPlus(10) && during.count == -20 && DueNow(Rise, during) == []
      && Within(during, Again(1, 10, k)) && |Popped(Rise, during, Again(1, 10, k))| == k
  {
    var start, wake := [ClientStart(1, 10)], [Tick(10), Fire(Rise), WakeWrite] + [WakeFlag, ThreadClear, Sample];
    var a := Entry(1, 0, 10, 10);
    var w1 := w.(svc := Svc([a], [], At(10), Off, false));
    var w2 := w.(svc := Svc([a], [], At(310), At(-290), false), count := 10, pc := InPlus(10));
    RunSnoc(w, start + wake + [Pop], Tick(-20));
    RunSnoc(w, start + wake, Pop);
    RunSplit(w, start, wake);
    RunCons(w, ClientStart(1, 10), []);
    assert start + [] == start;
    OneStart(w, 1, 10);
    FireToSample(w1, [a], 10);
    PopOnly(w2, a);
    CalledAgain(w2.(svc := w2.svc.(plus := []), count := -20), 1, 10, k);
  }

  // ------------------------------------------------------------------ the steady counter

  lemma {:induction false} PoppedAppend(dir: Dir, w: World, a: seq<Event>, b: seq<Event>)
    ensures Popped(dir, w, a + b) == Popped(dir, w, a) + Popped(dir, Run(w, a), b)
    decreases |a|
  {
    if a == [] {
      assert a + b == b;
    } else {
      assert (a + b)[0] == a[0] && (a + b)[1..] == a[1..] + b;
      PoppedAppend(dir, Step(w, a[0]), a[1..], b);
    }
  }

  lemma {:induction false} WithinAppend(dir: Dir, w: World, a: seq<Event>, b: seq<Event>)
    ensures Within(w, a + b) <==> Within(w, a) && Within(Run(w, a), b)
    ensures AllAhead(dir, w, a + b) <==> AllAhead(dir, w, a) && AllAhead(dir, Run(w, a), b)
    decreases |a|
  {
    if a == [] {
      assert a + b == b;
    } else {
      assert (a + b)[0] == a[0] && (a + b)[1..] == a[1..] + b;
      WithinAppend(dir, Step(w, a[0]), a[1..], b);
    }
  }

  lemma RunAppend(dir: Dir, w: World, a: seq<Event>, b: seq<Event>)
    ensures Run(w, a + b) == Run(Run(w, a), b)
    ensures Popped(dir, w, a + b) == Popped(dir, w, a) + Popped(dir, Run(w, a), b)
    ensures Within(w, a + b) <==> Within(w, a) && Within(Run(w, a), b)
    ensures AllAhead(dir, w, a + b) <==> AllAhead(dir, w, a) && AllAhead(dir, Run(w, a), b)
  {
    RunSplit(w, a, b);
    PoppedAppend(dir, w, a, b);
    WithinAppend(dir, w, a, b);
  }

  /** What a callback's call comes to in steps: the locked section, and its wake-up if it asks for one. */
  function OpEvents(s: Svc, op: Op, count: int): seq<Event> {
    match op
    case StopOp(id) => [ClientStop(id)]
    case StartOp(id, car) =>
      [ClientStart(id, car)] + if car != 0 && StartLocked(s, id, car, count).1 then [WakeWrite] + [WakeFlag] else []
  }

  function OpsEvents(s: Svc, ops: seq<Op>, count: int): seq<Event>
    decreases |ops|
  {
    if ops == [] then [] else OpEvents(s, ops[0], count) + OpsEvents(RunOp(s, ops[0], count), ops[1..], count)
  }

  /** The events of one of the handler's loops under a steady counter. */
  function DrainEvents(dir: Dir, s: Svc, count: int, callbacks: map<nat, seq<Op>>): seq<Event>
    decreases |s.DueIn(dir, count)|
  {
    if s.Side(dir) == [] || !Due(dir, s.Side(dir)[0], count) then []
    else
      ExpireShrinks(dir, s, count, callbacks);
      var popped, id := s.WithSide(dir, s.Side(dir)[1..]), s.Side(dir)[0].id;
      var ops := if id in callbacks then callbacks[id] else [];
      [Pop] + OpsEvents(popped, ops, count) + DrainEvents(dir, Expire(dir, s, count, callbacks), count, callbacks)
  }

  /** These events are one run that ends where the functions say, calling nobody and staying ahead. */
  ghost predicate Quietly(dir: Dir, w: World, es: seq<Event>, s: Svc) {
    && Run(w, es) == w.(svc := s) && Popped(dir, w, es) == []
    && Within(w, es) && AllAhead(dir, w, es)
  }

  lemma OneQuietly(dir: Dir, w: World, e: Event)
    requires InHandler(w) && InHandler(Step(w, e)) && !e.Reset? && !IsSplitReset(e) && !e.Pop? && !Stale(dir, w, e)
    ensures Run(w, [e]) == Step(w, e) && Popped(dir, w, [e]) == [] && Within(w, [e]) && AllAhead(dir, w, [e])
  {
    assert [e][1..] == [];
  }

  lemma WakeQuietly(dir: Dir, w: World, s: Svc)
    requires InHandler(w)
    ensures var w1 := w.(svc := s, waking := w.waking + 1); var es := [WakeWrite] + [WakeFlag];
      && Run(w1, es) == w.(svc := WakeUp(s, w.count)) && Popped(dir, w1, es) == []
      && Within(w1, es) && AllAhead(dir, w1, es)
  {
    var w1 := w.(svc := s, waking := w.waking + 1);
    var w2 := Step(w1, WakeWrite);
    RunAppend(dir, w1, [WakeWrite], [WakeFlag]);
    OneQuietly(dir, w1, WakeWrite);
    OneQuietly(dir, w2, WakeFlag);
  }

  lemma OpQuietly(dir: Dir, w: World, op: Op)
    requires InHandler(w) && w.pc.car == w.count
    ensures Quietly(dir, w, OpEvents(w.svc, op, w.count), RunOp(w.svc, op, w.count))
  {
    match op {
      case StopOp(id) => OneQuietly(dir, w, ClientStop(id));
      case StartOp(id, car) =>
        OneQuietly(dir, w, ClientStart(id, car));
        if car != 0 && StartLocked(w.svc, id, car, w.count).1 {
          var es := [WakeWrite] + [WakeFlag];
          WakeQuietly(dir, w, StartLocked(w.svc, id, car, w.count).0);
          RunAppend(dir, w, [ClientStart(id, car)], es);
        } else {
          assert [ClientStart(id, car)] + [] == [ClientStart(id, car)];
        }
    }
  }

  lemma {:induction false} OpsQuietly(dir: Dir, w: World, ops: seq<Op>)
    requires InHandler(w) && w.pc.car == w.count
    ensures Quietly(dir, w, OpsEvents(w.svc, ops, w.count), RunOps(w.svc, ops, w.count))
    decreases |ops|
  {
    if ops == [] {
    } else {
      var first, s' := OpEvents(w.svc, ops[0], w.count), RunOp(w.svc, ops[0], w.count);
      OpQuietly(dir, w, ops[0]);
      OpsQuietly(dir, w.(svc := s'), ops[1..]);
      RunAppend(dir, w, first, OpsEvents(s', ops[1..], w.count));
    }
  }

  /** With the counter standing still across its callbacks a handler loop is one such run, in which every
      start is ahead of the sample: the same state, the same calls, and none from the other list. */
  lemma {:induction false} DrainIsRun(dir: Dir, w: World, callbacks: map<nat, seq<Op>>)
    requires InHandler(w) && SampledDir(w.pc) == dir && w.pc.car == w.count
    ensures var es := DrainEvents(dir, w.svc, w.count, callbacks); var r := Drain(dir, w.svc, w.count, callbacks);
      && Run(w, es) == w.(svc := r.0) && Popped(dir, w, es) == r.1 && Popped(Flip(dir), w, es) == []
      && Within(w, es) && AllAhead(dir, w, es)
    decreases |w.svc.DueIn(dir, w.count)|
  {
    if w.svc.Side(dir) == [] || !Due(dir, w.svc.Side(dir)[0], w.count) {
    } else {
      ExpireShrinks(dir, w.svc, w.count, callbacks);
      var id := w.svc.Side(dir)[0].id;
      var w1, ops := Step(w, Pop), if id in callbacks then callbacks[id] else [];
      var n := Expire(dir, w.svc, w.count, callbacks);
      var mid, rest := OpsEvents(w1.svc, ops, w.count), DrainEvents(dir, n, w.count, callbacks);
      OpsQuietly(dir, w1, ops);
      OpsQuietly(Flip(dir), w1, ops);
      DrainIsRun(dir, w.(svc := n), callbacks);
      DrainStep(dir, w.svc, w.count, callbacks);
      PopThen(dir, w, mid, rest);
      PopThenOther(Flip(dir), w, mid, rest);
    }
  }

  lemma PopThen(dir: Dir, w: World, mid: seq<Event>, rest: seq<Event>)
    requires InHandler(w) && Pops(dir, w, Pop) && Popped(dir, Step(w, Pop), mid) == []
    requires Within(Step(w, Pop), mid) && AllAhead(dir, Step(w, Pop), mid)
    ensures var es, w2 := [Pop] + mid + rest, Run(Step(w, Pop), mid);
      && Run(w, es) == Run(w2, rest) && Popped(dir, w, es) == [w.svc.Side(dir)[0].id] + Popped(dir, w2, rest)
      && (Within(w2, rest) ==> Within(w, es)) && (AllAhead(dir, w2, rest) ==> AllAhead(dir, w, es))
  {
    var w1 := Step(w, Pop);
    assert [Pop] + mid + rest == [Pop] + (mid + rest);
    assert ([Pop] + (mid + rest))[1..] == mid + rest;
    RunAppend(dir, w1, mid, rest);
  }

  lemma PopThenOther(dir: Dir, w: World, mid: seq<Event>, rest: seq<Event>)
    requires InHandler(w) && Pops(Flip(dir), w, Pop) && Popped(dir, Step(w, Pop), mid) == []
    ensures Popped(dir, w, [Pop] + mid + rest) == Popped(dir, Run(Step(w, Pop), mid), rest)
  {
    assert [Pop] + mid + rest == [Pop] + (mid + rest);
    assert ([Pop] + (mid + rest))[1..] == mid + rest;
    PoppedAppend(dir, Step(w, Pop), mid, rest);
  }

  /** So the calls of a loop under a steady counter are consumers due at entry, once each and in order:
      the case of PoppedAreDue in which nothing can be stale. */
  lemma SteadyCalls(dir: Dir, w: World, callbacks: map<nat, seq<Op>>)
    requires InHandler(w) && SampledDir(w.pc) == dir && w.pc.car == w.count
    ensures Sublist(Drain(dir, w.svc, w.count, callbacks).1, Ids(w.svc.DueIn(dir, w.count)))
  {
    DrainIsRun(dir, w, callbacks);
    PoppedAreDue(dir, w, DrainEvents(dir, w.svc, w.count, callbacks));
  }

  /** The events of the whole handler, from its sample on. */
  function HandleEvents(s: Svc, count: int, callbacks: map<nat, seq<Op>>): seq<Event> {
    var s1 := Rearm(Rise, Drain(Rise, s, count, callbacks).0, count);
    DrainEvents(Rise, s, count, callbacks) + [ArmHead] + (DrainEvents(Fall, s1, count, callbacks) + [ArmHead])
  }

  lemma {:induction false} DrainEndsDry(dir: Dir, s: Svc, count: int, callbacks: map<nat, seq<Op>>)
    ensures var l := Drain(dir, s, count, callbacks).0.Side(dir); l == [] || !Due(dir, l[0], count)
    decreases |s.DueIn(dir, count)|
  {
    if s.Side(dir) == [] || !Due(dir, s.Side(dir)[0], count) {
    } else {
      ExpireShrinks(dir, s, count, callbacks);
      DrainEndsDry(dir, Expire(dir, s, count, callbacks), count, callbacks);
    }
  }

  /** One loop and the arming at its end. */
  lemma LoopIsRun(dir: Dir, w: World, callbacks: map<nat, seq<Op>>)
    requires InHandler(w) && SampledDir(w.pc) == dir && w.pc.car == w.count
    ensures var es := DrainEvents(dir, w.svc, w.count, callbacks) + [ArmHead];
            var r := Drain(dir, w.svc, w.count, callbacks);
      && Run(w, es) == w.(svc := Rearm(dir, r.0, w.count), pc := if dir.Rise? then InMinus(w.count) else Waiting)
      && Popped(dir, w, es) == r.1 && Popped(Flip(dir), w, es) == []
  {
    DrainIsRun(dir, w, callbacks);
    DrainEndsDry(dir, w.svc, w.count, callbacks);
    var es, w1 := DrainEvents(dir, w.svc, w.count, callbacks), w.(svc := Drain(dir, w.svc, w.count, callbacks).0);
    RunSnoc(w, es, ArmHead);
    PoppedAppend(dir, w, es, [ArmHead]);
    PoppedAppend(Flip(dir), w, es, [ArmHead]);
    assert [ArmHead][1..] == [];
  }

  /** The whole interrupt handler, with the counter standing still across its callbacks, is one run of the
      thread from its sample back to waiting: the same lists, comparators and flag, the same calls from
      either list. */
  lemma HandleIsRun(w: World, callbacks: map<nat, seq<Op>>)
    requires w.pc == InPlus(w.count)
    ensures var es := HandleEvents(w.svc, w.count, callbacks); var r := Handle(w.svc, w.count, callbacks);
      Run(w, es) == w.(svc := r.0, pc := Waiting) && Popped(Rise, w, es) == r.1 && Popped(Fall, w, es) == r.2
  {
    LoopIsRun(Rise, w, callbacks);
    var s1 := Rearm(Rise, Drain(Rise, w.svc, w.count, callbacks).0, w.count);
    var w1 := w.(svc := s1, pc := InMinus(w.count));
    LoopIsRun(Fall, w1, callbacks);
    var a, b := DrainEvents(Rise, w.svc, w.count, callbacks) + [ArmHead],
                DrainEvents(Fall, s1, w.count, callbacks) + [ArmHead];
    RunSplit(w, a, b);
    PoppedAppend(Rise, w, a, b);
    PoppedAppend(Fall, w, a, b);
  }
}
