/** What the coulomb interrupt handler does to a whole list under a steady counter. */
module CoulombHandler {
  import opened Sublists
  import opened WaitLists
  import opened CoulombService

  lemma NothingDue(dir: Dir, s: Svc, count: int)
    requires s.Wf() && (s.Side(dir) == [] || !Due(dir, s.Side(dir)[0], count))
    ensures s.DueIn(dir, count) == []
  {
    DueOnlyIsPrefix(dir, s.Side(dir), count);
  }

  lemma ExpireOther(dir: Dir, s: Svc, count: int, callbacks: map<nat, seq<Op>>)
    requires s.Side(dir) != []
    ensures Sublist(Expire(dir, s, count, callbacks).DueIn(Flip(dir), count), s.DueIn(Flip(dir), count))
  {
    var d := Flip(dir);
    var popped := s.WithSide(dir, s.Side(dir)[1..]);
    assert popped.Side(d) == s.Side(d);
    SublistRefl(s.DueIn(d, count));
    var e := s.Side(dir)[0];
    if e.id in callbacks {
      RunOpsDue(d, popped, callbacks[e.id], count);
    }
  }

  /** One loop under a steady counter, any callbacks: it ends with nothing due on its list, it has expired only entries
      that were due at entry, each at most once and in threshold order, and it has made nobody
      due on the other list. */
  lemma {:induction false} DrainSound(dir: Dir, s: Svc, count: int, callbacks: map<nat, seq<Op>>)
    requires s.Wf()
    ensures var (s', expired) := Drain(dir, s, count, callbacks);
      && s'.Wf()
      && s'.DueIn(dir, count) == []
      && Sublist(expired, Ids(s.DueIn(dir, count)))
      && Sublist(s'.DueIn(Flip(dir), count), s.DueIn(Flip(dir), count))
    decreases |s.DueIn(dir, count)|
  {
    if s.Side(dir) == [] || !Due(dir, s.Side(dir)[0], count) {
      NothingDue(dir, s, count);
      SublistRefl(s.DueIn(Flip(dir), count));
    } else {
      var n := Expire(dir, s, count, callbacks);
      ExpireWf(dir, s, count, callbacks);
      ExpireShrinks(dir, s, count, callbacks);
      DrainSound(dir, n, count, callbacks);
      DrainStep(dir, s, count, callbacks);
      var (s', rest) := Drain(dir, n, count, callbacks);
      var due := s.DueIn(dir, count);
      SublistIds(n.DueIn(dir, count), due[1..]);
      SublistTrans(rest, Ids(n.DueIn(dir, count)), Ids(due[1..]));
      assert Ids(due)[1..] == Ids(due[1..]) && Ids(due)[0] == s.Side(dir)[0].id;
      assert ([s.Side(dir)[0].id] + rest)[1..] == rest;
      ExpireOther(dir, s, count, callbacks);
      SublistTrans(s'.DueIn(Flip(dir), count), n.DueIn(Flip(dir), count), s.DueIn(Flip(dir), count));
    }
  }

  /** Callbacks of due consumers restart and stop only themselves or consumers not due. */
  ghost predicate Spares(dir: Dir, s: Svc, count: int, callbacks: map<nat, seq<Op>>) {
    forall e: Entry, op: Op, d: Dir ::
      e in s.DueIn(dir, count) && e.id in callbacks && op in callbacks[e.id] ==>
        op.id == e.id || !Linked(s.DueIn(d, count), op.id)
  }

  lemma SparesNarrows(dir: Dir, s: Svc, n: Svc, count: int, callbacks: map<nat, seq<Op>>)
    requires Spares(dir, s, count, callbacks)
    requires forall d: Dir, x :: x in n.DueIn(d, count) ==> x in s.DueIn(d, count)
    ensures Spares(dir, n, count, callbacks)
  {
    forall e: Entry, op: Op, d: Dir | e in n.DueIn(dir, count) && e.id in callbacks && op in callbacks[e.id]
      ensures op.id == e.id || !Linked(n.DueIn(d, count), op.id)
    {
      LinkedMembers(n.DueIn(d, count), op.id);
      LinkedMembers(s.DueIn(d, count), op.id);
    }
  }

  lemma ExpireExact(dir: Dir, s: Svc, count: int, callbacks: map<nat, seq<Op>>)
    requires s.Wf() && Spares(dir, s, count, callbacks)
    requires s.Side(dir) != [] && Due(dir, s.Side(dir)[0], count)
    ensures var n := Expire(dir, s, count, callbacks);
      && n.DueIn(dir, count) == s.DueIn(dir, count)[1..]
      && n.DueIn(Flip(dir), count) == s.DueIn(Flip(dir), count)
  {
    var e := s.Side(dir)[0];
    var popped := s.WithSide(dir, s.Side(dir)[1..]);
    assert e in s.DueIn(dir, count);
    assert popped.DueIn(dir, count) == s.DueIn(dir, count)[1..];
    if e.id in callbacks {
      forall d: Dir ensures RunOps(popped, callbacks[e.id], count).DueIn(d, count) == popped.DueIn(d, count) {
        forall op | op in callbacks[e.id] ensures !Linked(popped.DueIn(d, count), op.id) {
          LinkedMembers(popped.DueIn(d, count), op.id);
          DueOnlyMembers(d, popped.Side(d), count);
          DueOnlyMembers(d, s.Side(d), count);
          LinkedMembers(s.DueIn(d, count), op.id);
          assert forall x :: x in popped.Side(d) ==> x in s.Side(d) && x.id != e.id;
        }
        RunOpsSpareDue(d, popped, callbacks[e.id], count);
      }
    }
  }

  lemma ExpireStep(dir: Dir, s: Svc, count: int, callbacks: map<nat, seq<Op>>)
    requires s.Wf() && Spares(dir, s, count, callbacks)
    requires s.Side(dir) != [] && Due(dir, s.Side(dir)[0], count)
    ensures var n := Expire(dir, s, count, callbacks);
      && n.Wf() && Spares(dir, n, count, callbacks)
      && s.DueIn(dir, count) == [s.Side(dir)[0]] + n.DueIn(dir, count)
      && n.DueIn(Flip(dir), count) == s.DueIn(Flip(dir), count)
  {
    var n := Expire(dir, s, count, callbacks);
    ExpireWf(dir, s, count, callbacks);
    ExpireExact(dir, s, count, callbacks);
    forall d: Dir, x | x in n.DueIn(d, count) ensures x in s.DueIn(d, count) {
      assert d == dir || d == Flip(dir);
    }
    SparesNarrows(dir, s, n, count, callbacks);
  }

  /** One loop under a steady counter, sparing callbacks: everyone due at entry expires exactly once, nearest threshold
      first, and the other list's due entries are untouched. */
  lemma {:induction false} DrainExact(dir: Dir, s: Svc, count: int, callbacks: map<nat, seq<Op>>)
    requires s.Wf() && Spares(dir, s, count, callbacks)
    ensures var (s', expired) := Drain(dir, s, count, callbacks);
      && expired == Ids(s.DueIn(dir, count))
      && s'.DueIn(Flip(dir), count) == s.DueIn(Flip(dir), count)
    decreases |s.DueIn(dir, count)|
  {
    if s.Side(dir) == [] || !Due(dir, s.Side(dir)[0], count) {
      NothingDue(dir, s, count);
    } else {
      ExpireStep(dir, s, count, callbacks);
      DrainExact(dir, Expire(dir, s, count, callbacks), count, callbacks);
      DrainStep(dir, s, count, callbacks);
      IdsCons(s.DueIn(dir, count));
    }
  }

  /** The whole handler while the counter stands still, any callbacks whatsoever: it returns (its loops
      are measured by the number of due entries), keeps the lists' shape, calls nobody early or twice,
      works in threshold order, and leaves only entries that are not yet due. */
  lemma HandlerSound(s: Svc, count: int, callbacks: map<nat, seq<Op>>)
    requires s.Wf()
    ensures var (s', up, down) := Handle(s, count, callbacks);
      && s'.Wf()
      && s'.DueIn(Rise, count) == [] && s'.DueIn(Fall, count) == []
      && Sublist(up, Ids(s.DueIn(Rise, count)))
      && Sublist(down, Ids(s.DueIn(Fall, count)))
  {
    DrainSound(Rise, s, count, callbacks);
    var s1 := Rearm(Rise, Drain(Rise, s, count, callbacks).0, count);
    assert Sublist(s1.DueIn(Fall, count), s.DueIn(Fall, count));
    DrainSound(Fall, s1, count, callbacks);
    var (s2, down) := Drain(Fall, s1, count, callbacks);
    SublistIds(s1.DueIn(Fall, count), s.DueIn(Fall, count));
    SublistTrans(down, Ids(s1.DueIn(Fall, count)), Ids(s.DueIn(Fall, count)));
    assert Sublist(s2.DueIn(Rise, count), s1.DueIn(Rise, count));
  }

  /** The whole handler while the counter stands still, sparing callbacks: exactly the consumers due at
      entry are called back, once per list and nearest threshold first. */
  lemma HandlerExact(s: Svc, count: int, callbacks: map<nat, seq<Op>>)
    requires s.Wf() && Spares(Rise, s, count, callbacks) && Spares(Fall, s, count, callbacks)
    ensures var (s', up, down) := Handle(s, count, callbacks);
      && up == Ids(s.DueIn(Rise, count))
      && down == Ids(s.DueIn(Fall, count))
  {
    DrainSound(Rise, s, count, callbacks);
    DrainExact(Rise, s, count, callbacks);
    var s1 := Rearm(Rise, Drain(Rise, s, count, callbacks).0, count);
    assert s1.DueIn(Fall, count) == s.DueIn(Fall, count);
    assert s1.DueIn(Rise, count) == [];
    SparesNarrows(Fall, s, s1, count, callbacks);
    DrainExact(Fall, s1, count, callbacks);
  }

  // ------------------------------------------------------------------ what the handler programs

  /** The comparator of a list is armed no later than its head, or another handler run is promised. */
  predicate Watched(dir: Dir, s: Svc) {
    s.Side(dir) != [] ==>
      s.flag || (s.Cmp(dir).At? && Gap(dir, s.Side(dir)[0].end, s.Cmp(dir).level) >= 0)
  }

  lemma UnlinkWatched(dir: Dir, s: Svc, id: nat)
    requires s.Wf() && Watched(dir, s)
    ensures Watched(dir, Unlink(s, id))
  {
    var l, r := s.Side(dir), Unlink(s, id).Side(dir);
    RemoveMembers(l, id);
    if r != [] {
      assert r[0] in l;
      var i :| 0 <= i < |l| && l[i] == r[0];
      assert Gap(dir, l[i].end, l[0].end) >= 0 || i == 0;
    }
  }

  lemma StartWatched(dir: Dir, s: Svc, id: nat, car: int, count: int)
    requires s.Wf() && Watched(dir, s)
    ensures Watched(dir, Start(s, id, car, count))
  {
    if car != 0 {
      StartArmsNearest(s, id, car, count);
      UnlinkWatched(dir, s, id);
    }
  }

  lemma {:induction false} RunOpsWatched(dir: Dir, s: Svc, ops: seq<Op>, count: int)
    requires s.Wf() && Watched(dir, s)
    ensures Watched(dir, RunOps(s, ops, count))
    decreases |ops|
  {
    if ops == [] {
    } else {
      match ops[0] {
        case StartOp(id, car) =>
          StartWatched(dir, s, id, car, count);
          StartWf(s, id, car, count);
        case StopOp(id) =>
          UnlinkWatched(dir, s, id);
          UnlinkWf(s, id);
      }
      RunOpsWatched(dir, RunOp(s, ops[0], count), ops[1..], count);
    }
  }

  /** Draining one list keeps watch over the other. */
  lemma {:induction false} DrainWatched(dir: Dir, s: Svc, count: int, callbacks: map<nat, seq<Op>>)
    requires s.Wf() && Watched(Flip(dir), s)
    ensures Watched(Flip(dir), Drain(dir, s, count, callbacks).0)
    decreases |s.DueIn(dir, count)|
  {
    if s.Side(dir) == [] || !Due(dir, s.Side(dir)[0], count) {
    } else {
      var e, popped := s.Side(dir)[0], s.WithSide(dir, s.Side(dir)[1..]);
      PopWf(dir, s);
      assert popped.Side(Flip(dir)) == s.Side(Flip(dir)) && popped.Cmp(Flip(dir)) == s.Cmp(Flip(dir));
      if e.id in callbacks { RunOpsWatched(Flip(dir), popped, callbacks[e.id], count); }
      ExpireWf(dir, s, count, callbacks);
      ExpireShrinks(dir, s, count, callbacks);
      DrainWatched(dir, Expire(dir, s, count, callbacks), count, callbacks);
      DrainStep(dir, s, count, callbacks);
    }
  }

  /** What a loop and the arming after it leave: the comparator at the head, strictly ahead. */
  lemma LoopArms(dir: Dir, s: Svc, count: int, callbacks: map<nat, seq<Op>>)
    requires s.Wf()
    ensures var s' := Rearm(dir, Drain(dir, s, count, callbacks).0, count);
      && s'.Wf() && Watched(dir, s')
      && (s'.Side(dir) != [] ==> s'.Cmp(dir) == At(s'.Side(dir)[0].end) && Gap(dir, s'.Side(dir)[0].end, count) > 0)
  {
    DrainSound(dir, s, count, callbacks);
    DueOnlyIsPrefix(dir, Drain(dir, s, count, callbacks).0.Side(dir), count);
  }

  /** After the handler, whatever the callbacks did while the counter stood still: the low comparator is at
      the minus list's head, strictly ahead, and the high comparator no later than the plus list's, unless a
      callback of the minus list has already promised another run. */
  lemma HandlerArms(s: Svc, count: int, callbacks: map<nat, seq<Op>>)
    requires s.Wf()
    ensures var s' := Handle(s, count, callbacks).0;
      && (s'.minus != [] ==> s'.lt == At(s'.minus[0].end) && s'.minus[0].end < count)
      && Watched(Rise, s')
  {
    LoopArms(Rise, s, count, callbacks);
    var s1 := Rearm(Rise, Drain(Rise, s, count, callbacks).0, count);
    LoopArms(Fall, s1, count, callbacks);
    DrainWatched(Fall, s1, count, callbacks);
  }

  /** With nothing to do on the minus list the high comparator is exactly at the plus list's head. */
  lemma HandlerArmsHigh(s: Svc, count: int, callbacks: map<nat, seq<Op>>)
    requires s.Wf() && Drain(Rise, s, count, callbacks).0.DueIn(Fall, count) == []
    ensures var s' := Handle(s, count, callbacks).0;
      s'.plus != [] ==> s'.ht == At(s'.plus[0].end) && s'.plus[0].end > count
  {
    LoopArms(Rise, s, count, callbacks);
    var s1 := Rearm(Rise, Drain(Rise, s, count, callbacks).0, count);
    DueOnlyIsPrefix(Fall, s1.minus, count);
    DrainDone(Fall, s1, count, callbacks);
  }

  // ------------------------------------------------------------------ the int1 clients

  /** fg_bat_int1_h_handler and fg_bat_int1_l_handler restart both int1 consumers around the
      current count. */
  function BatInt1(plus: nat, minus: nat, gap: int): map<nat, seq<Op>> {
    var both := [StartOp(plus, gap), StartOp(minus, -gap)];
    map[plus := both, minus := both]
  }

  /** Whichever int1 handler runs, both consumers end up linked, one gap either side of the
      count, so the pair forms a band around it. */
  lemma BatInt1CentresBand(s: Svc, count: int, plus: nat, minus: nat, gap: int, caller: nat)
    requires s.Wf() && plus != minus && gap > 0 && caller in {plus, minus}
    ensures var callbacks := BatInt1(plus, minus, gap);
      && caller in callbacks && RunOps(s, callbacks[caller], count).Wf()
      && Entry(plus, count, count + gap, gap) in RunOps(s, callbacks[caller], count).plus
      && Entry(minus, count, count - gap, -gap) in RunOps(s, callbacks[caller], count).minus
  {
    var both := BatInt1(plus, minus, gap)[caller];
    var s1 := Start(s, plus, gap, count);
    var s2 := Start(s1, minus, -gap, count);
    assert both[1..][1..] == [];
    assert RunOps(s1, both[1..], count) == RunOps(s2, both[1..][1..], count);
    StartWf(s, plus, gap, count);
    StartWf(s1, minus, -gap, count);
    InsertMembers(Rise, Unlink(s, plus).plus, Entry(plus, count, count + gap, gap));
    InsertMembers(Fall, Unlink(s1, minus).minus, Entry(minus, count, count - gap, -gap));
    RemoveMembers(s1.plus, minus);
  }

  /** With the plus threshold above the minus threshold the two int1 consumers are never due
      together, so their callbacks spare the due consumers and the handler is exact for them. */
  lemma BatInt1Exact(s: Svc, count: int, p: Entry, m: Entry, gap: int)
    requires s.Wf() && p in s.plus && m in s.minus && p.end > m.end
    ensures var callbacks := BatInt1(p.id, m.id, gap);
      && Spares(Rise, s, count, callbacks) && Spares(Fall, s, count, callbacks)
      && Handle(s, count, callbacks).1 == Ids(s.DueIn(Rise, count))
      && Handle(s, count, callbacks).2 == Ids(s.DueIn(Fall, count))
  {
    var callbacks := BatInt1(p.id, m.id, gap);
    forall dir: Dir, e: Entry, op: Op, d: Dir | e in s.DueIn(dir, count) && e.id in callbacks && op in callbacks[e.id]
      ensures op.id == e.id || !Linked(s.DueIn(d, count), op.id)
    {
      assert op.id == p.id || op.id == m.id;
      DueOnlyMembers(dir, s.Side(dir), count);
      DueOnlyMembers(d, s.Side(d), count);
      LinkedMembers(s.DueIn(d, count), op.id);
      if x :| x in s.DueIn(d, count) && x.id == op.id {
        BatInt1Owner(s, p, m, dir, e);
        BatInt1Owner(s, p, m, d, x);
      }
    }
    HandlerExact(s, count, callbacks);
  }

  lemma BatInt1Owner(s: Svc, p: Entry, m: Entry, dir: Dir, x: Entry)
    requires s.Wf() && p in s.plus && m in s.minus && x in s.Side(dir)
    ensures x.id == p.id ==> x == p && dir == Rise
    ensures x.id == m.id ==> x == m && dir == Fall
  {
  }
}
