/** The gauge timer service (mtk_gauge_time_service.c): one deadline list, one high-resolution
    timer, a rescanning handler, and suspend/resume.  Instants are nanoseconds of boot time. */
module TimerService {
  import opened Sublists
  import opened WaitLists

  const NSEC := 1_000_000_000

  /** The high-resolution timer, as the instant it will fire at. */
  datatype HrTimer = Idle | Armed(instant: int)

  datatype Svc = Svc(list: seq<Entry>, hr: HrTimer, flag: bool) {
    ghost predicate Wf() {
      Sorted(Rise, list) && Distinct(list)
    }

    function DueBy(now: int): seq<Entry> {
      DueOnly(Rise, list, now)
    }
  }

  // ------------------------------------------------------------------ the operations

  /** The whole seconds to program for a remaining time: rounded down, but never below one. */
  function Interval(remaining: int): int {
    if remaining / NSEC < 1 then 1 else remaining / NSEC
  }

  function ArmFor(deadline: int, now: int): HrTimer {
    Armed(now + Interval(deadline - now) * NSEC)
  }

  function Linking(id: nat, sec: int, now: int): Entry {
    Entry(id, now, now + sec * NSEC, sec)
  }

  function Relinked(s: Svc, id: nat, sec: int, now: int): seq<Entry> {
    Insert(Rise, Remove(s.list, id), Linking(id, sec, now))
  }

  /** The locked section of gtimer_start: cancel, relink, then either program the timer for the
      head or, when the head is overdue, ask for a wake-up. */
  function StartLocked(s: Svc, id: nat, sec: int, now: int): (Svc, bool) {
    InsertMembers(Rise, Remove(s.list, id), Linking(id, sec, now));
    var l := Relinked(s, id, sec, now);
    if l[0].end < now then (s.(list := l, hr := Idle), true)
    else (s.(list := l, hr := ArmFor(l[0].end, now)), false)
  }

  function Start(s: Svc, id: nat, sec: int, now: int): Svc {
    var (s', wake) := StartLocked(s, id, sec, now);
    if wake then s'.(flag := true) else s'
  }

  function Stop(s: Svc, id: nat): Svc {
    s.(list := Remove(s.list, id))
  }

  function RearmHead(s: Svc, now: int): Svc {
    if s.list == [] then s else s.(hr := ArmFor(s.list[0].end, now))
  }

  function Suspend(s: Svc): Svc {
    s.(hr := Idle)
  }

  /** gtimer_resume: an expired head wakes the worker, a pending one is armed for. */
  function Resume(s: Svc, now: int): Svc {
    if s.list == [] then s
    else if Due(Rise, s.list[0], now) then s.(flag := true)
    else RearmHead(s, now)
  }

  datatype Op = StartOp(id: nat, sec: int) | StopOp(id: nat)

  type Callbacks = map<nat, seq<Op>>

  /** Callbacks start timers at least a second ahead. */
  ghost predicate Ahead(ops: seq<Op>) {
    forall op :: op in ops && op.StartOp? ==> op.sec >= 1
  }

  ghost predicate AllAhead(callbacks: Callbacks) {
    forall id :: id in callbacks ==> Ahead(callbacks[id])
  }

  function RunOp(s: Svc, op: Op, now: int): Svc {
    match op
    case StartOp(id, sec) => Start(s, id, sec, now)
    case StopOp(id) => Stop(s, id)
  }

  function RunOps(s: Svc, ops: seq<Op>, now: int): Svc
    decreases |ops|
  {
    if ops == [] then s else RunOps(RunOp(s, ops[0], now), ops[1..], now)
  }

  function Without(l: seq<Entry>, pos: nat): seq<Entry>
    requires pos < |l|
  {
    l[..pos] + l[pos + 1..]
  }

  /** Unlink the entry at `pos` and call it back. */
  function Expire(s: Svc, pos: nat, now: int, callbacks: Callbacks): Svc
    requires pos < |s.list|
  {
    var s' := s.(list := Without(s.list, pos));
    if s.list[pos].id in callbacks then RunOps(s', callbacks[s.list[pos].id], now) else s'
  }

  /** The handler's loop under a frozen clock, from list position `pos`: after a callback it starts
      over from the head. */
  function Scan(s: Svc, pos: nat, now: int, callbacks: Callbacks): (Svc, seq<nat>)
    requires AllAhead(callbacks)
    decreases |s.DueBy(now)|, |s.list| - pos
  {
    if pos >= |s.list| then (s, [])
    else if Due(Rise, s.list[pos], now) then
      ExpireShrinks(s, pos, now, callbacks);
      var id := s.list[pos].id;
      var (s', rest) := Scan(Expire(s, pos, now, callbacks), if id in callbacks then 0 else pos, now, callbacks);
      (s', [id] + rest)
    else Scan(s, pos + 1, now, callbacks)
  }

  /** gtimer_handler. */
  function Handle(s: Svc, now: int, callbacks: Callbacks): (Svc, seq<nat>)
    requires AllAhead(callbacks)
  {
    var (s', fired) := Scan(s.(hr := Idle), 0, now, callbacks);
    (RearmHead(s', now), fired)
  }

  // ------------------------------------------------------------------ arming

  /** The programmed instant is within a second of the deadline, on either side. */
  predicate Window(instant: int, deadline: int) {
    deadline - NSEC < instant <= deadline + NSEC
  }

  /** Truncating to whole seconds with a floor of one second keeps the window for every deadline
      that is not overdue, and strictly ahead of now. */
  lemma ArmForWindow(deadline: int, now: int)
    requires deadline >= now
    ensures Window(ArmFor(deadline, now).instant, deadline)
    ensures ArmFor(deadline, now).instant > now
  {
    var r := deadline - now;
    assert NSEC * (r / NSEC) <= r < NSEC * (r / NSEC) + NSEC;
  }

  // ------------------------------------------------------------------ list shape

  lemma StartWf(s: Svc, id: nat, sec: int, now: int)
    requires s.Wf()
    ensures StartLocked(s, id, sec, now).0.Wf() && Start(s, id, sec, now).Wf()
  {
    RemoveKeeps(Rise, s.list, id);
    InsertKeeps(Rise, Remove(s.list, id), Linking(id, sec, now));
  }

  /** A start leaves somebody in charge of the nearest deadline: the worker flagged if it has gone by, the
      timer armed within a second of it if not. */
  lemma StartArmsOrFlags(s: Svc, id: nat, sec: int, now: int)
    ensures var s' := Start(s, id, sec, now);
      && s'.list != []
      && (s'.list[0].end < now ==> s'.flag && s'.hr == Idle)
      && (s'.list[0].end >= now ==>
            s'.flag == s.flag && s'.hr.Armed? && s'.hr.instant > now && Window(s'.hr.instant, s'.list[0].end))
  {
    InsertMembers(Rise, Remove(s.list, id), Linking(id, sec, now));
    var l := Relinked(s, id, sec, now);
    if l[0].end >= now { ArmForWindow(l[0].end, now); }
  }

  /** A start puts the timer behind equal deadlines and moves nobody else. */
  lemma StartIsFifo(s: Svc, id: nat, sec: int, now: int) returns (k: nat)
    requires s.Wf()
    ensures var l := Remove(s.list, id); var end := now + sec * NSEC;
      && k <= |l| && Start(s, id, sec, now).list == l[..k] + [Entry(id, now, end, sec)] + l[k..]
      && (forall i :: 0 <= i < k ==> l[i].end <= end) && (forall i :: k <= i < |l| ==> l[i].end > end)
  {
    RemoveKeeps(Rise, s.list, id);
    k := InsertSplits(Rise, Remove(s.list, id), Linking(id, sec, now));
  }

  lemma StopWf(s: Svc, id: nat)
    requires s.Wf()
    ensures Stop(s, id).Wf()
  {
    RemoveKeeps(Rise, s.list, id);
  }

  lemma {:induction false} RunOpsWf(s: Svc, ops: seq<Op>, now: int)
    requires s.Wf()
    ensures RunOps(s, ops, now).Wf()
    decreases |ops|
  {
    if ops == [] {
    } else {
      match ops[0] {
        case StartOp(id, sec) => StartWf(s, id, sec, now);
        case StopOp(id) => StopWf(s, id);
      }
      RunOpsWf(RunOp(s, ops[0], now), ops[1..], now);
    }
  }

  lemma ExpireWf(s: Svc, pos: nat, now: int, callbacks: Callbacks)
    requires s.Wf() && pos < |s.list|
    ensures s.(list := Without(s.list, pos)).Wf() && Expire(s, pos, now, callbacks).Wf()
  {
    var s' := s.(list := Without(s.list, pos));
    assert forall i :: 0 <= i < |s'.list| ==> s'.list[i] == s.list[if i < pos then i else i + 1];
    if s.list[pos].id in callbacks {
      RunOpsWf(s', callbacks[s.list[pos].id], now);
    }
  }

  // ------------------------------------------------------------------ what is due

  lemma StartDue(s: Svc, id: nat, sec: int, now: int)
    requires sec >= 1
    ensures Start(s, id, sec, now).DueBy(now) == Remove(s.DueBy(now), id)
  {
    DueOnlyRemove(Rise, s.list, id, now);
    DueOnlyInsert(Rise, Remove(s.list, id), Linking(id, sec, now), now);
  }

  lemma OpDue(s: Svc, op: Op, now: int)
    requires op.StartOp? ==> op.sec >= 1
    ensures RunOp(s, op, now).DueBy(now) == Remove(s.DueBy(now), op.id)
  {
    match op {
      case StartOp(id, sec) => StartDue(s, id, sec, now);
      case StopOp(id) => DueOnlyRemove(Rise, s.list, id, now);
    }
  }

  lemma {:induction false} RunOpsDue(s: Svc, ops: seq<Op>, now: int)
    requires Ahead(ops)
    ensures Sublist(RunOps(s, ops, now).DueBy(now), s.DueBy(now))
    ensures |RunOps(s, ops, now).DueBy(now)| <= |s.DueBy(now)|
    decreases |ops|
  {
    SublistRefl(s.DueBy(now));
    if ops == [] {
    } else {
      var s' := RunOp(s, ops[0], now);
      OpDue(s, ops[0], now);
      RemoveShortens(s.DueBy(now), ops[0].id);
      RunOpsDue(s', ops[1..], now);
      SublistTrans(RunOps(s, ops, now).DueBy(now), s'.DueBy(now), s.DueBy(now));
    }
  }

  lemma {:induction false} RunOpsSpareDue(s: Svc, ops: seq<Op>, now: int)
    requires Ahead(ops)
    requires forall op :: op in ops ==> !Linked(s.DueBy(now), op.id)
    ensures RunOps(s, ops, now).DueBy(now) == s.DueBy(now)
    decreases |ops|
  {
    if ops == [] {
    } else {
      OpDue(s, ops[0], now);
      assert ops[0] in ops;
      RemoveUnlinked(s.DueBy(now), ops[0].id);
      RunOpsSpareDue(RunOp(s, ops[0], now), ops[1..], now);
    }
  }

  lemma {:induction false} DueOnlyAppend(a: seq<Entry>, b: seq<Entry>, now: int)
    ensures DueOnly(Rise, a + b, now) == DueOnly(Rise, a, now) + DueOnly(Rise, b, now)
  {
    if a == [] {
      assert a + b == b;
    } else {
      assert (a + b)[1..] == a[1..] + b;
      DueOnlyAppend(a[1..], b, now);
    }
  }

  lemma DueWithout(l: seq<Entry>, pos: nat, now: int)
    requires pos < |l| && Due(Rise, l[pos], now)
    ensures |DueOnly(Rise, Without(l, pos), now)| == |DueOnly(Rise, l, now)| - 1
  {
    DueOnlyAppend(l[..pos], l[pos + 1..], now);
    DueOnlyAppend(l[..pos], l[pos..], now);
    assert l == l[..pos] + l[pos..] && l[pos..][1..] == l[pos + 1..];
  }

  lemma ExpireShrinks(s: Svc, pos: nat, now: int, callbacks: Callbacks)
    requires AllAhead(callbacks) && pos < |s.list| && Due(Rise, s.list[pos], now)
    ensures |Expire(s, pos, now, callbacks).DueBy(now)| < |s.DueBy(now)|
  {
    DueWithout(s.list, pos, now);
    if s.list[pos].id in callbacks {
      RunOpsDue(s.(list := Without(s.list, pos)), callbacks[s.list[pos].id], now);
    }
  }

  // ------------------------------------------------------------------ the handler

  /** Positions before `pos` have been passed over as not due. */
  ghost predicate Passed(s: Svc, pos: nat, now: int) {
    pos <= |s.list| && forall i :: 0 <= i < pos ==> !Due(Rise, s.list[i], now)
  }

  lemma PassedDue(s: Svc, pos: nat, now: int)
    requires s.Wf() && Passed(s, pos, now)
    ensures pos > 0 || pos == |s.list| ==> s.DueBy(now) == []
    ensures pos < |s.list| && Due(Rise, s.list[pos], now) ==>
      pos == 0 && Without(s.list, pos) == s.list[1..] && s.DueBy(now) == [s.list[0]] + DueOnly(Rise, s.list[1..], now)
  {
    DueOnlyIsPrefix(Rise, s.list, now);
    LeadSplits(Rise, s.list, now);
    if pos > 0 {
      assert Gap(Rise, s.list[pos - 1].end, s.list[0].end) >= 0 || pos == 1;
      assert !Due(Rise, s.list[0], now);
    }
  }

  /** Any callbacks that start timers ahead: the loop ends with nothing due, and it has fired only
      timers that were due at entry, each at most once and in deadline order. */
  lemma {:induction false} ScanSound(s: Svc, pos: nat, now: int, callbacks: Callbacks)
    requires s.Wf() && AllAhead(callbacks) && Passed(s, pos, now)
    ensures var (s', fired) := Scan(s, pos, now, callbacks);
      s'.Wf() && s'.DueBy(now) == [] && Sublist(fired, Ids(s.DueBy(now)))
    decreases |s.DueBy(now)|, |s.list| - pos
  {
    PassedDue(s, pos, now);
    if pos == |s.list| {
    } else {
      if Due(Rise, s.list[pos], now) {
        var n := Expire(s, pos, now, callbacks);
        ExpireWf(s, pos, now, callbacks);
        ExpireShrinks(s, pos, now, callbacks);
        ExpireDue(s, now, callbacks);
        ScanSound(n, 0, now, callbacks);
        var due := s.DueBy(now);
        SublistIds(n.DueBy(now), due[1..]);
        var rest := Scan(n, 0, now, callbacks).1;
        SublistTrans(rest, Ids(n.DueBy(now)), Ids(due[1..]));
        IdsCons(due);
        assert ([due[0].id] + rest)[1..] == rest && Ids(due)[1..] == Ids(due[1..]);
      } else {
        ScanSound(s, pos + 1, now, callbacks);
      }
    }
  }

  lemma ExpireDue(s: Svc, now: int, callbacks: Callbacks)
    requires AllAhead(callbacks) && s.list != [] && Due(Rise, s.list[0], now)
    ensures Sublist(Expire(s, 0, now, callbacks).DueBy(now), s.DueBy(now)[1..])
  {
    var popped := s.(list := Without(s.list, 0));
    assert popped.list == s.list[1..];
    SublistRefl(popped.DueBy(now));
    if s.list[0].id in callbacks {
      RunOpsDue(popped, callbacks[s.list[0].id], now);
    }
  }

  /** Callbacks of due timers restart and stop only themselves or timers not due. */
  ghost predicate Spares(s: Svc, now: int, callbacks: Callbacks) {
    forall e: Entry, op: Op ::
      e in s.DueBy(now) && e.id in callbacks && op in callbacks[e.id] ==>
        op.id == e.id || !Linked(s.DueBy(now), op.id)
  }

  lemma PoppedSpared(s: Svc, now: int, callbacks: Callbacks)
    requires s.Wf() && Spares(s, now, callbacks) && s.list != [] && Due(Rise, s.list[0], now)
    requires s.list[0].id in callbacks
    ensures forall op :: op in callbacks[s.list[0].id] ==> !Linked(DueOnly(Rise, s.list[1..], now), op.id)
  {
    var e, tail := s.list[0], s.list[1..];
    DueOnlyMembers(Rise, tail, now);
    DueOnlyMembers(Rise, s.list, now);
    assert e in s.DueBy(now);
    forall op | op in callbacks[e.id] ensures !Linked(DueOnly(Rise, tail, now), op.id) {
      LinkedMembers(DueOnly(Rise, tail, now), op.id);
      LinkedMembers(s.DueBy(now), op.id);
      assert forall x :: x in tail ==> x in s.list && x.id != e.id;
    }
  }

  lemma ExpireExact(s: Svc, now: int, callbacks: Callbacks)
    requires s.Wf() && AllAhead(callbacks) && Spares(s, now, callbacks)
    requires s.list != [] && Due(Rise, s.list[0], now)
    ensures var n := Expire(s, 0, now, callbacks);
      && s.DueBy(now) == [s.list[0]] + n.DueBy(now)
      && n.Wf() && Spares(n, now, callbacks)
  {
    var e := s.list[0];
    var popped := s.(list := Without(s.list, 0));
    ExpireWf(s, 0, now, callbacks);
    assert popped.list == s.list[1..];
    assert e in s.DueBy(now);
    if e.id in callbacks {
      PoppedSpared(s, now, callbacks);
      RunOpsSpareDue(popped, callbacks[e.id], now);
    }
    StillSpares(s, Expire(s, 0, now, callbacks), now, callbacks);
  }

  lemma StillSpares(s: Svc, n: Svc, now: int, callbacks: Callbacks)
    requires Spares(s, now, callbacks) && forall f :: f in n.DueBy(now) ==> f in s.DueBy(now)
    ensures Spares(n, now, callbacks)
  {
    forall f: Entry, op: Op | f in n.DueBy(now) && f.id in callbacks && op in callbacks[f.id]
      ensures op.id == f.id || !Linked(n.DueBy(now), op.id)
    {
      assert f in s.DueBy(now);
      LinkedMembers(n.DueBy(now), op.id);
      LinkedMembers(s.DueBy(now), op.id);
    }
  }

  /** With sparing callbacks exactly the due timers fire, once each and in deadline order. */
  lemma {:induction false} ScanExact(s: Svc, pos: nat, now: int, callbacks: Callbacks)
    requires s.Wf() && AllAhead(callbacks) && Passed(s, pos, now) && Spares(s, now, callbacks)
    ensures Scan(s, pos, now, callbacks).1 == Ids(s.DueBy(now))
    decreases |s.DueBy(now)|, |s.list| - pos
  {
    PassedDue(s, pos, now);
    if pos == |s.list| {
    } else {
      if Due(Rise, s.list[pos], now) {
        ExpireShrinks(s, pos, now, callbacks);
        ExpireExact(s, now, callbacks);
        ScanExact(Expire(s, 0, now, callbacks), 0, now, callbacks);
        IdsCons(s.DueBy(now));
      } else {
        ScanExact(s, pos + 1, now, callbacks);
      }
    }
  }

  /** The whole handler under a frozen clock: it returns, fires exactly the expired timers in
      deadline order, and leaves the timer armed within a second of the next deadline. */
  lemma HandlerFiresExpired(s: Svc, now: int, callbacks: Callbacks)
    requires s.Wf() && AllAhead(callbacks)
    ensures var (s', fired) := Handle(s, now, callbacks);
      && s'.Wf() && s'.DueBy(now) == []
      && Sublist(fired, Ids(s.DueBy(now)))
      && (Spares(s, now, callbacks) ==> fired == Ids(s.DueBy(now)))
      && (s'.list != [] ==> s'.hr.Armed? && Window(s'.hr.instant, s'.list[0].end))
  {
    var q := s.(hr := Idle);
    ScanSound(q, 0, now, callbacks);
    if Spares(s, now, callbacks) {
      ScanExact(q, 0, now, callbacks);
    }
    var s1 := Scan(q, 0, now, callbacks).0;
    if s1.list != [] {
      DueOnlyMembers(Rise, s1.list, now);
      assert s1.list[0] in s1.list;
      ArmForWindow(s1.list[0].end, now);
    }
  }

  // ------------------------------------------------------------------ the handler while the clock advances

  /** The clock in one iteration: as the loop reads it, and as the callback, if one is called, sees it. */
  datatype Reading = Reading(look: int, call: int)

  /** A timer taken off the list, and the reading that decided it. */
  datatype Firing = Firing(e: Entry, at: int)

  /** The loop with a fresh reading for every iteration, for as many readings as there are: the state, the
      position reached, and what fired. */
  function ScanOver(s: Svc, pos: nat, rs: seq<Reading>, callbacks: Callbacks): (Svc, nat, seq<Firing>)
    decreases |rs|
  {
    if pos >= |s.list| || rs == [] then (s, pos, [])
    else if Due(Rise, s.list[pos], rs[0].look) then
      var next := if s.list[pos].id in callbacks then 0 else pos;
      var (s', p, rest) := ScanOver(Expire(s, pos, rs[0].call, callbacks), next, rs[1..], callbacks);
      (s', p, [Firing(s.list[pos], rs[0].look)] + rest)
    else ScanOver(s, pos + 1, rs[1..], callbacks)
  }

  /** The clock never goes back. */
  predicate Advances(from: int, rs: seq<Reading>)
    decreases |rs|
  {
    rs != [] ==> from <= rs[0].look <= rs[0].call && Advances(rs[0].call, rs[1..])
  }

  function LastLook(from: int, rs: seq<Reading>): int
    decreases |rs|
  {
    if rs == [] then from else LastLook(rs[0].look, rs[1..])
  }

  lemma {:induction false} LastLookLate(from: int, from': int, rs: seq<Reading>)
    requires from' <= from && Advances(from, rs)
    ensures from' <= LastLook(from', rs)
    decreases |rs|
  {
    if rs == [] {
    } else {
      LastLookLate(rs[0].call, rs[0].look, rs[1..]);
    }
  }

  /** However the clock advances, whatever the callbacks do: no timer fires before its deadline. */
  lemma {:induction false} NeverEarly(s: Svc, pos: nat, rs: seq<Reading>, callbacks: Callbacks)
    ensures forall f :: f in ScanOver(s, pos, rs, callbacks).2 ==> f.e.end <= f.at
    decreases |rs|
  {
    if pos >= |s.list| || rs == [] {
    } else if Due(Rise, s.list[pos], rs[0].look) {
      var next := if s.list[pos].id in callbacks then 0 else pos;
      NeverEarly(Expire(s, pos, rs[0].call, callbacks), next, rs[1..], callbacks);
    } else {
      NeverEarly(s, pos + 1, rs[1..], callbacks);
    }
  }

  lemma PassedExpire(s: Svc, pos: nat, t: int, call: int, callbacks: Callbacks)
    requires s.Wf() && Passed(s, pos, t) && pos < |s.list|
    ensures Expire(s, pos, call, callbacks).Wf()
    ensures Passed(Expire(s, pos, call, callbacks), if s.list[pos].id in callbacks then 0 else pos, t)
  {
    ExpireWf(s, pos, call, callbacks);
  }

  /** When the loop's last pass began: at the last reading on which a callback was called, or at `since`. */
  function LastPass(s: Svc, pos: nat, since: int, rs: seq<Reading>, callbacks: Callbacks): int
    decreases |rs|
  {
    if pos >= |s.list| || rs == [] then since
    else if Due(Rise, s.list[pos], rs[0].look) then
      var n := Expire(s, pos, rs[0].call, callbacks);
      if s.list[pos].id in callbacks then LastPass(n, 0, rs[0].look, rs[1..], callbacks)
      else LastPass(n, pos, since, rs[1..], callbacks)
    else LastPass(s, pos + 1, since, rs[1..], callbacks)
  }

  /** However the clock advances, nothing the loop has passed over was due when its last pass began. */
  lemma {:induction false} LeftoversPending(s: Svc, pos: nat, from: int, since: int, rs: seq<Reading>,
                                            callbacks: Callbacks)
    requires s.Wf() && Passed(s, pos, since) && since <= from && Advances(from, rs)
    ensures var (s', p, _) := ScanOver(s, pos, rs, callbacks); var t := LastPass(s, pos, since, rs, callbacks);
      s'.Wf() && Passed(s', p, t) && since <= t <= LastLook(since, rs)
    decreases |rs|
  {
    if pos >= |s.list| || rs == [] {
      LastLookLate(from, since, rs);
    } else if Due(Rise, s.list[pos], rs[0].look) {
      var restart := s.list[pos].id in callbacks;
      PassedExpire(s, pos, since, rs[0].call, callbacks);
      var start := if restart then rs[0].look else since;
      LeftoversPending(Expire(s, pos, rs[0].call, callbacks), if restart then 0 else pos, rs[0].call, start, rs[1..],
                       callbacks);
    } else {
      LeftoversPending(s, pos + 1, rs[0].call, since, rs[1..], callbacks);
    }
  }

  /** So a scan that has come to its end arms the timer, from its last reading, later than one second
      before the next deadline, and past one second after it by no more than its last pass took. */
  lemma AdvancingScanArms(s: Svc, from: int, rs: seq<Reading>, callbacks: Callbacks)
    requires s.Wf() && Advances(from, rs)
    requires var (s', p, _) := ScanOver(s, 0, rs, callbacks); p >= |s'.list| > 0
    ensures var head := ScanOver(s, 0, rs, callbacks).0.list[0].end;
            var last, pass := LastLook(from, rs), LastPass(s, 0, from, rs, callbacks);
      from <= pass <= last && head > pass &&
      head - NSEC < ArmFor(head, last).instant <= head + NSEC + (last - pass)
  {
    LeftoversPending(s, 0, from, from, rs, callbacks);
    var head, last := ScanOver(s, 0, rs, callbacks).0.list[0], LastLook(from, rs);
    if head.end >= last { ArmForWindow(head.end, last); } else { assert (head.end - last) / NSEC < 1; }
  }

  /** A clock that stands still. */
  predicate Frozen(now: int, rs: seq<Reading>) {
    forall i :: 0 <= i < |rs| ==> rs[i] == Reading(now, now)
  }

  function FiredIds(fired: seq<Firing>): seq<nat> {
    if fired == [] then [] else [fired[0].e.id] + FiredIds(fired[1..])
  }

  /** Under a frozen clock that is the scan studied above, as soon as there are readings enough to end. */
  lemma {:induction false} FrozenScan(s: Svc, pos: nat, now: int, rs: seq<Reading>, callbacks: Callbacks)
    requires AllAhead(callbacks) && Frozen(now, rs)
    requires var (s', p, _) := ScanOver(s, pos, rs, callbacks); p >= |s'.list|
    ensures var (s', _, fired) := ScanOver(s, pos, rs, callbacks); Scan(s, pos, now, callbacks) == (s', FiredIds(fired))
    decreases |rs|
  {
    if pos >= |s.list| || rs == [] {
    } else {
      assert Frozen(now, rs[1..]);
      if Due(Rise, s.list[pos], now) {
        var next := if s.list[pos].id in callbacks then 0 else pos;
        FrozenScan(Expire(s, pos, now, callbacks), next, now, rs[1..], callbacks);
        var rest := ScanOver(Expire(s, pos, now, callbacks), next, rs[1..], callbacks).2;
        assert ([Firing(s.list[pos], now)] + rest)[1..] == rest;
      } else {
        FrozenScan(s, pos + 1, now, rs[1..], callbacks);
      }
    }
  }

  // ------------------------------------------------------------------ the service object

  class Service {
    var list: seq<Entry>
    var hr: HrTimer
    var gtimerThreadTimeout: bool
    var now: int

    ghost function State(): Svc
      reads this
    {
      Svc(list, hr, gtimerThreadTimeout)
    }

    constructor (now: int)
      ensures State() == Svc([], Idle, false) && State().Wf() && this.now == now
    {
      list, hr, gtimerThreadTimeout := [], Idle, false;
      this.now := now;
    }

    method GtimerStart(id: nat, sec: int)
      modifies this
      ensures State() == Start(old(State()), id, sec, now) && now == old(now)
    {
      hr := Idle;
      var e := Entry(id, now, now + sec * NSEC, sec);
      list := Remove(list, id);
      InsertMembers(Rise, list, e);
      list := AddNode(Rise, list, e);
      if list[0].end < now {
        gtimerThreadTimeout := true;
      } else {
        var remaining := list[0].end - now;
        var interval := remaining / NSEC;
        if interval < 1 {
          interval := 1;
        }
        hr := Armed(now + interval * NSEC);
      }
    }

    method GtimerStop(id: nat)
      modifies this
      ensures State() == Stop(old(State()), id) && now == old(now)
    {
      list := Remove(list, id);
    }

    method GtimerSuspend()
      modifies this
      ensures State() == Suspend(old(State())) && now == old(now)
    {
      hr := Idle;
    }

    method GtimerResume()
      modifies this
      ensures State() == Resume(old(State()), now) && now == old(now)
    {
      if list != [] {
        if now >= list[0].end {
          gtimerThreadTimeout := true;
        } else {
          hr := ArmFor(list[0].end, now);
        }
      }
    }

    method Callback(ops: seq<Op>)
      modifies this
      ensures State() == RunOps(old(State()), ops, now) && now == old(now)
    {
      var i := 0;
      while i < |ops|
        invariant i <= |ops| && now == old(now)
        invariant RunOps(State(), ops[i..], now) == RunOps(old(State()), ops, now)
      {
        match ops[i] {
          case StartOp(id, sec) => GtimerStart(id, sec);
          case StopOp(id) => GtimerStop(id);
        }
        assert ops[i..][1..] == ops[i + 1..];
        i := i + 1;
      }
    }

    /** One iteration of the handler's loop, with its lexicographic measure: expired entries, then
        entries left to scan. */
    method ScanOne(pos: nat, callbacks: Callbacks) returns (next: nat, fired: seq<nat>)
      requires AllAhead(callbacks) && pos < |list|
      modifies this
      ensures now == old(now)
      ensures Scan(old(State()), pos, now, callbacks).0 == Scan(State(), next, now, callbacks).0
      ensures Scan(old(State()), pos, now, callbacks).1 == fired + Scan(State(), next, now, callbacks).1
      ensures |State().DueBy(now)| < |old(State()).DueBy(now)|
           || (State() == old(State()) && next == pos + 1)
    {
      fired := [];
      if now >= list[pos].end {
        ExpireShrinks(State(), pos, now, callbacks);
        var id := list[pos].id;
        fired := [id];
        list := list[..pos] + list[pos + 1..];
        next := pos;
        if id in callbacks {
          Callback(callbacks[id]);
          next := 0;
        }
      } else {
        next := pos + 1;
      }
    }

    method GtimerHandler(callbacks: Callbacks) returns (fired: seq<nat>)
      requires AllAhead(callbacks)
      modifies this
      ensures State() == Handle(old(State()), now, callbacks).0
      ensures fired == Handle(old(State()), now, callbacks).1
      ensures now == old(now)
    {
      hr := Idle;
      ghost var scanned := Scan(State(), 0, now, callbacks);
      fired := [];
      var pos: nat := 0;
      while pos < |list|
        invariant now == old(now)
        invariant Scan(State(), pos, now, callbacks).0 == scanned.0
        invariant fired + Scan(State(), pos, now, callbacks).1 == scanned.1
        decreases |State().DueBy(now)|, |list| - pos
      {
        var some;
        pos, some := ScanOne(pos, callbacks);
        fired := fired + some;
      }
      if list != [] {
        hr := ArmFor(list[0].end, now);
      }
    }
  }
}
