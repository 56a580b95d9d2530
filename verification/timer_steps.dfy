/** The timer service's functions as runs of its state machine: what start, stop, suspend, resume and the
    handler do is what the machine's steps do, wake-ups and callbacks included. */
module TimerSteps {
  import opened WaitLists
  import opened TimerService
  import opened TimerRuns

  // ------------------------------------------------------------------ client calls

  /** What a call comes to in steps: the locked section, and its wake-up if it asks for one. */
  function OpEvents(s: Svc, op: Op, now: int): seq<Event> {
    match op
    case StopOp(id) => [ClientStop(id)]
    case StartOp(id, sec) => [ClientStart(id, sec)] + if StartLocked(s, id, sec, now).1 then [WakeFlag] else []
  }

  function OpsEvents(s: Svc, ops: seq<Op>, now: int): seq<Event>
    decreases |ops|
  {
    if ops == [] then [] else OpEvents(s, ops[0], now) + OpsEvents(RunOp(s, ops[0], now), ops[1..], now)
  }

  lemma RunOne(w: World, e: Event)
    ensures Run(w, [e]) == Step(w, e)
  {
    RunCons(w, e, []);
    assert [e] + [] == [e];
  }

  /** Whoever calls while the lock is free: gtimer_start and gtimer_stop are these steps. */
  lemma OpIsRun(w: World, op: Op)
    requires !w.pc.Scanning?
    ensures Run(w, OpEvents(w.svc, op, w.now)) == w.(svc := RunOp(w.svc, op, w.now))
  {
    match op {
      case StopOp(id) => RunOne(w, ClientStop(id));
      case StartOp(id, sec) =>
        RunOne(w, ClientStart(id, sec));
        if StartLocked(w.svc, id, sec, w.now).1 {
          RunSplit(w, [ClientStart(id, sec)], [WakeFlag]);
          RunOne(Step(w, ClientStart(id, sec)), WakeFlag);
        } else {
          assert [ClientStart(id, sec)] + [] == [ClientStart(id, sec)];
        }
    }
  }

  lemma {:induction false} OpsAreRun(w: World, ops: seq<Op>)
    requires !w.pc.Scanning?
    ensures Run(w, OpsEvents(w.svc, ops, w.now)) == w.(svc := RunOps(w.svc, ops, w.now))
    decreases |ops|
  {
    if ops == [] {
    } else {
      var first, s' := OpEvents(w.svc, ops[0], w.now), RunOp(w.svc, ops[0], w.now);
      OpIsRun(w, ops[0]);
      OpsAreRun(w.(svc := s'), ops[1..]);
      RunSplit(w, first, OpsEvents(s', ops[1..], w.now));
    }
  }

  // ------------------------------------------------------------------ the handler

  /** The timers a run fires, in order. */
  function Fired(w: World, es: seq<Event>): seq<nat>
    decreases |es|
  {
    if es == [] then []
    else
      (if es[0].Look? && w.pc.Scanning? && w.pc.pos < |w.svc.list| && Due(Rise, w.svc.list[w.pc.pos], w.now)
       then [w.svc.list[w.pc.pos].id] else []) + Fired(Step(w, es[0]), es[1..])
  }

  lemma {:induction false} FiredAppend(w: World, a: seq<Event>, b: seq<Event>)
    ensures Fired(w, a + b) == Fired(w, a) + Fired(Run(w, a), b)
    decreases |a|
  {
    if a == [] {
      assert a + b == b;
    } else {
      assert (a + b)[0] == a[0] && (a + b)[1..] == a[1..] + b;
      FiredAppend(Step(w, a[0]), a[1..], b);
    }
  }

  lemma {:induction false} NoneFired(w: World, es: seq<Event>)
    requires forall e :: e in es ==> !e.Look?
    ensures Fired(w, es) == []
    decreases |es|
  {
    if es == [] {
    } else {
      assert es[0] in es;
      NoneFired(Step(w, es[0]), es[1..]);
    }
  }

  lemma {:induction false} OpsDoNotLook(s: Svc, ops: seq<Op>, now: int)
    ensures forall e :: e in OpsEvents(s, ops, now) ==> !e.Look?
    decreases |ops|
  {
    if ops == [] {
    } else {
      OpsDoNotLook(RunOp(s, ops[0], now), ops[1..], now);
    }
  }

  /** The events of the handler's loop under a frozen clock, from list position `pos`. */
  function ScanEvents(s: Svc, pos: nat, now: int, callbacks: Callbacks): seq<Event>
    requires AllAhead(callbacks)
    decreases |s.DueBy(now)|, |s.list| - pos
  {
    if pos >= |s.list| then []
    else if !Due(Rise, s.list[pos], now) then [Look(false)] + ScanEvents(s, pos + 1, now, callbacks)
    else
      ExpireShrinks(s, pos, now, callbacks);
      var id, n := s.list[pos].id, Expire(s, pos, now, callbacks);
      if id in callbacks then CallEvents(s, pos, now, callbacks) + ScanEvents(n, 0, now, callbacks)
      else [Look(false)] + ScanEvents(n, pos, now, callbacks)
  }

  /** A timer with a callback: taken off the list, called, and back to the head. */
  function CallEvents(s: Svc, pos: nat, now: int, callbacks: Callbacks): seq<Event>
    requires pos < |s.list| && s.list[pos].id in callbacks
  {
    [Look(true)] + (OpsEvents(s.(list := Without(s.list, pos)), callbacks[s.list[pos].id], now) + [Return])
  }

  lemma CallIsRun(w: World, callbacks: Callbacks)
    requires w.pc.Scanning? && w.pc.pos < |w.svc.list| && Due(Rise, w.svc.list[w.pc.pos], w.now)
    requires w.svc.list[w.pc.pos].id in callbacks
    ensures var es := CallEvents(w.svc, w.pc.pos, w.now, callbacks);
      && Run(w, es) == w.(svc := Expire(w.svc, w.pc.pos, w.now, callbacks), pc := Scanning(0, w.now, w.now))
      && Fired(w, es) == [w.svc.list[w.pc.pos].id]
  {
    var pos, id := w.pc.pos, w.svc.list[w.pc.pos].id;
    var s1 := w.svc.(list := Without(w.svc.list, pos));
    var w1 := w.(svc := s1, pc := Calling);
    var ops := OpsEvents(s1, callbacks[id], w.now);
    OpsAreRun(w1, callbacks[id]);
    var w2 := w1.(svc := RunOps(s1, callbacks[id], w.now));
    RunSplit(w1, ops, [Return]);
    RunOne(w2, Return);
    RunCons(w, Look(true), ops + [Return]);
    OpsDoNotLook(s1, callbacks[id], w.now);
    NoneFired(w1, ops + [Return]);
    assert ([Look(true)] + (ops + [Return]))[1..] == ops + [Return];
  }

  lemma LookThen(w: World, rest: seq<Event>)
    requires w.pc.Scanning? && w.pc.pos < |w.svc.list|
    ensures Run(w, [Look(false)] + rest) == Run(LookStep(w, false), rest)
    ensures Fired(w, [Look(false)] + rest) ==
      (if Due(Rise, w.svc.list[w.pc.pos], w.now) then [w.svc.list[w.pc.pos].id] else []) +
      Fired(LookStep(w, false), rest)
  {
    assert ([Look(false)] + rest)[1..] == rest;
  }

  lemma {:induction false} ScanIsRun(w: World, callbacks: Callbacks)
    requires AllAhead(callbacks) && w.pc.Scanning? && w.pc.pos <= |w.svc.list| && w.pc.last == w.now
    ensures var es := ScanEvents(w.svc, w.pc.pos, w.now, callbacks);
            var (s', fired) := Scan(w.svc, w.pc.pos, w.now, callbacks); var w' := Run(w, es);
      && w'.pc.Scanning? && w'.pc.pos == |s'.list| && w'.pc.last == w.now
      && w' == w.(svc := s', pc := w'.pc) && Fired(w, es) == fired
    decreases |w.svc.DueBy(w.now)|, |w.svc.list| - w.pc.pos
  {
    var s, pos := w.svc, w.pc.pos;
    if pos == |s.list| {
    } else if !Due(Rise, s.list[pos], w.now) {
      LookThen(w, ScanEvents(s, pos + 1, w.now, callbacks));
      ScanIsRun(LookStep(w, false), callbacks);
    } else {
      var id, n := s.list[pos].id, Expire(s, pos, w.now, callbacks);
      ExpireShrinks(s, pos, w.now, callbacks);
      if id in callbacks {
        var es, rest := CallEvents(s, pos, w.now, callbacks), ScanEvents(n, 0, w.now, callbacks);
        CallIsRun(w, callbacks);
        RunSplit(w, es, rest);
        FiredAppend(w, es, rest);
        ScanIsRun(w.(svc := n, pc := Scanning(0, w.now, w.now)), callbacks);
      } else {
        LookThen(w, ScanEvents(n, pos, w.now, callbacks));
        ScanIsRun(LookStep(w, false), callbacks);
      }
    }
  }

  /** The whole handler under a frozen clock is one run of the worker thread, from entering to waiting:
      the same list, timer and flag, the same timers fired. */
  lemma HandleIsRun(w: World, callbacks: Callbacks)
    requires AllAhead(callbacks) && w.pc.Cleared?
    ensures var es := [Enter] + (ScanEvents(w.svc.(hr := Idle), 0, w.now, callbacks) + [Leave]);
            var r := Handle(w.svc, w.now, callbacks);
      Run(w, es) == w.(svc := r.0, pc := Waiting) && Fired(w, es) == r.1
  {
    var q := w.svc.(hr := Idle);
    var w1, es := w.(svc := q, pc := Scanning(0, w.now, w.now)), ScanEvents(q, 0, w.now, callbacks);
    RunCons(w, Enter, es + [Leave]);
    assert ([Enter] + (es + [Leave]))[1..] == es + [Leave];
    ScanIsRun(w1, callbacks);
    RunSplit(w1, es, [Leave]);
    FiredAppend(w1, es, [Leave]);
    RunOne(Run(w1, es), Leave);
    assert [Leave][1..] == [];
  }

  // ------------------------------------------------------------------ suspend and resume

  /** gtimer_resume is what the machine does at the end of a suspend, with its wake-up if it asks for one. */
  lemma ResumeIsRun(w: World)
    requires w.suspended
    ensures var es := if w.svc.list != [] && Due(Rise, w.svc.list[0], w.now) then [PmPost] + [WakeFlag] else [PmPost];
      Run(w, es) == w.(svc := Resume(w.svc, w.now), suspended := false)
  {
    RunOne(w, PmPost);
    if w.svc.list != [] && Due(Rise, w.svc.list[0], w.now) {
      RunSplit(w, [PmPost], [WakeFlag]);
      RunOne(Step(w, PmPost), WakeFlag);
    }
  }

  /** Nothing arms the timer: no start, no handler run coming to its end, no resume. */
  predicate ArmsNothing(es: seq<Event>) {
    forall e :: e in es ==> !e.ClientStart? && !e.Leave? && !e.PmPost?
  }

  /** From a suspend notification on the timer stays silent until somebody arms it anew. */
  lemma SuspendSilences(w: World, es: seq<Event>)
    requires ArmsNothing(es)
    ensures Run(Step(w, PmPrepare), es).svc.hr == Idle
    ensures Run(Step(w, PmPrepare), es + [HrFire]) == Run(Step(w, PmPrepare), es)
  {
    StaysIdle(Step(w, PmPrepare), es);
    RunSplit(Step(w, PmPrepare), es, [HrFire]);
    RunOne(Run(Step(w, PmPrepare), es), HrFire);
  }

  lemma {:induction false} StaysIdle(w: World, es: seq<Event>)
    requires w.svc.hr == Idle && ArmsNothing(es)
    ensures Run(w, es).svc.hr == Idle
    decreases |es|
  {
    if es == [] {
    } else {
      assert es[0] in es;
      StaysIdle(Step(w, es[0]), es[1..]);
    }
  }

  /** Sleep does not bring an armed timer any closer: boot time goes on, what remains on the timer does not
      change. */
  lemma SleepKeepsRemaining(w: World, d: nat)
    requires w.suspended && w.svc.hr.Armed?
    ensures var w' := Step(w, Sleep(d));
      && w'.now == w.now + d && w'.svc.hr.Armed? && w'.svc.hr.instant - w'.now == w.svc.hr.instant - w.now
      && w'.svc.list == w.svc.list
  {
  }
}
