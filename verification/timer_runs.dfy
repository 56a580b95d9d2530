/** No timer is lost: an invariant of the timer service over every interleaving of starts, stops,
    clock ticks, timer interrupts, wake-ups, the worker thread and suspend/resume. */
module TimerRuns {
  import opened WaitLists
  import opened TimerService

  /** Where the worker thread is.  Scanning: inside gtimer_handler with the lock held, its loop at list
      position `pos`; its last pass from the head began at `since`, and it last read the clock at `last`.
      Calling: inside a callback, with the lock dropped. */
  datatype Pc = Waiting | Cleared | Scanning(pos: nat, since: int, last: int) | Calling

  /** `waking` threads are about to set the flag. */
  datatype World = World(svc: Svc, now: int, pc: Pc, waking: nat, suspended: bool)

  datatype Event =
    | Tick(d: nat)                      // boot time advances
    | ClientStart(id: nat, sec: int)    // locked section of gtimer_start
    | ClientStop(id: nat)
    | HrFire                            // the timer's interrupt: wake_up_gtimer
    | WakeFlag                          // wake_up_gtimer sets the flag
    | ThreadClear                       // gtimer_thread sees and clears the flag
    | Enter                             // gtimer_handler takes the lock and cancels the timer
    | Look(callback: bool)              // one iteration: read the clock, pass over the entry or unlink it
    | Return                            // a callback returns: start over from the head
    | Leave                             // the loop has come to the end: arm for the head, drop the lock
    | PmPrepare                         // PM_SUSPEND_PREPARE and its siblings
    | Sleep(d: nat)                     // boot time advances, the monotonic clock does not
    | PmPost                            // PM_POST_SUSPEND or PM_POST_RESTORE

  function Postponed(hr: HrTimer, d: nat): HrTimer {
    match hr case Idle => Idle case Armed(instant) => Armed(instant + d)
  }

  /** The handler's last act: the remaining time is counted from its last reading, the timer from now. */
  function ArmFrom(s: Svc, last: int, now: int): Svc {
    if s.list == [] then s else s.(hr := Armed(now + Interval(s.list[0].end - last) * NSEC))
  }

  /** The loop has come to the end of the list. */
  predicate Ends(w: World) {
    w.pc.Scanning? && w.pc.pos >= |w.svc.list|
  }

  function LookStep(w: World, callback: bool): World
    requires w.pc.Scanning? && w.pc.pos < |w.svc.list|
  {
    var pos := w.pc.pos;
    if !Due(Rise, w.svc.list[pos], w.now) then w.(pc := w.pc.(pos := pos + 1, last := w.now))
    else w.(svc := w.svc.(list := Without(w.svc.list, pos)), pc := if callback then Calling else w.pc.(last := w.now))
  }

  /** One step; an event that is not enabled leaves the world as it is. Clients wait for the lock. */
  function Step(w: World, e: Event): World {
    match e
    case Tick(d) => w.(now := w.now + d)
    case ClientStart(id, sec) =>
      if w.pc.Scanning? then w
      else
        var r := StartLocked(w.svc, id, sec, w.now);
        w.(svc := r.0, waking := if r.1 then w.waking + 1 else w.waking)
    case ClientStop(id) => if w.pc.Scanning? then w else w.(svc := Stop(w.svc, id))
    case HrFire =>
      if w.svc.hr.Armed? && w.svc.hr.instant <= w.now then
        w.(svc := w.svc.(hr := Idle), waking := w.waking + 1)
      else w
    case WakeFlag =>
      if w.waking > 0 then w.(svc := w.svc.(flag := true), waking := w.waking - 1) else w
    case ThreadClear =>
      if w.pc.Waiting? && w.svc.flag then w.(svc := w.svc.(flag := false), pc := Cleared) else w
    case Enter =>
      if w.pc.Cleared? then w.(svc := w.svc.(hr := Idle), pc := Scanning(0, w.now, w.now)) else w
    case Look(callback) =>
      if w.pc.Scanning? && w.pc.pos < |w.svc.list| then LookStep(w, callback) else w
    case Return =>
      if w.pc.Calling? then w.(pc := Scanning(0, w.now, w.now)) else w
    case Leave =>
      if Ends(w) then w.(svc := ArmFrom(w.svc, w.pc.last, w.now), pc := Waiting) else w
    case PmPrepare => w.(svc := Suspend(w.svc), suspended := true)
    case Sleep(d) =>
      if w.suspended then w.(now := w.now + d, svc := w.svc.(hr := Postponed(w.svc.hr, d))) else w
    case PmPost =>
      if !w.suspended then w
      else if w.svc.list != [] && Due(Rise, w.svc.list[0], w.now) then
        w.(suspended := false, waking := w.waking + 1)
      else
        w.(suspended := false, svc := Resume(w.svc, w.now))
  }

  function Run(w: World, es: seq<Event>): World
    decreases |es|
  {
    if es == [] then w else Run(Step(w, es[0]), es[1..])
  }

  predicate Boot(w: World) {
    w.svc == Svc([], Idle, false) && w.pc.Waiting? && w.waking == 0 && !w.suspended
  }

  // ------------------------------------------------------------------ how late an arming is

  /** Armed in time for a deadline of which the last reading is `last`: while it is still pending or just
      due, or, if it was a second or more ahead, within the second and the fraction that rounding down left. */
  predicate Soon(deadline: int, last: int, now: int) {
    if deadline - last < NSEC then now <= deadline else now - last <= NSEC + (deadline - last) % NSEC
  }

  /** The handler's arming is never a second early; it is past one second after the deadline by no more
      than its last pass took, and in the window exactly if it comes soon enough. */
  lemma ArmFromWindow(deadline: int, since: int, last: int, now: int)
    requires since <= last <= now && since < deadline
    ensures var instant := now + Interval(deadline - last) * NSEC;
      && deadline - NSEC < instant <= deadline + NSEC + (now - since)
      && (Window(instant, deadline) <==> Soon(deadline, last, now))
  {
    var r := deadline - last;
    assert r == NSEC * (r / NSEC) + r % NSEC;
  }

  /** How late the timer may be, as left by whoever armed it last. */
  function LateStep(late: nat, w: World, e: Event): nat {
    match e
    case ClientStart(_, _) => if w.pc.Scanning? then late else 0
    case PmPost => if w.suspended then 0 else late
    case Leave => if Ends(w) && w.now > w.pc.since then w.now - w.pc.since else if Ends(w) then 0 else late
    case _ => late
  }

  function LateRun(late: nat, w: World, es: seq<Event>): nat
    decreases |es|
  {
    if es == [] then late else LateRun(LateStep(late, w, es[0]), Step(w, es[0]), es[1..])
  }

  // ------------------------------------------------------------------ the invariant

  predicate AtRest(w: World) {
    w.pc.Waiting? && !w.suspended && !w.svc.flag && w.waking == 0
  }

  /** The timer is armed, no later than `late` beyond a second after the nearest deadline. */
  predicate Guarded(w: World, late: nat)
    requires w.svc.list != []
  {
    w.svc.hr.Armed? && w.svc.hr.instant <= w.svc.list[0].end + NSEC + late
  }

  /** Readings are in order, and what the loop has passed over was not due when its last pass began. */
  ghost predicate ScanOk(w: World) {
    w.pc.Scanning? ==> w.pc.since <= w.pc.last <= w.now && Passed(w.svc, w.pc.pos, w.pc.since)
  }

  ghost predicate Inv(w: World, late: nat) {
    && w.svc.Wf() && ScanOk(w)
    && (w.svc.list != [] && AtRest(w) ==> Guarded(w, late))
  }

  lemma StartArmed(w: World, id: nat, sec: int)
    requires w.svc.Wf() && !w.pc.Scanning?
    ensures var w' := Step(w, ClientStart(id, sec));
      && w'.svc.Wf() && w'.svc.list != []
      && (w'.waking == w.waking ==> w'.svc.hr.Armed? && Window(w'.svc.hr.instant, w'.svc.list[0].end))
  {
    StartWf(w.svc, id, sec, w.now);
    InsertMembers(Rise, Remove(w.svc.list, id), Linking(id, sec, w.now));
    var l := Relinked(w.svc, id, sec, w.now);
    if l[0].end >= w.now {
      ArmForWindow(l[0].end, w.now);
    }
  }

  /** Stopping a timer only moves the nearest deadline further away. */
  lemma StopMovesHead(l: seq<Entry>, id: nat)
    requires Sorted(Rise, l) && Remove(l, id) != []
    ensures l != [] && Remove(l, id)[0].end >= l[0].end
  {
    RemoveMembers(l, id);
    var x := Remove(l, id)[0];
    assert x in l;
    var i :| 0 <= i < |l| && l[i] == x;
    assert Gap(Rise, l[i].end, l[0].end) >= 0 || i == 0;
  }

  lemma LookOk(w: World, callback: bool)
    requires w.svc.Wf() && ScanOk(w) && w.pc.Scanning? && w.pc.pos < |w.svc.list|
    ensures LookStep(w, callback).svc.Wf() && ScanOk(LookStep(w, callback))
  {
    ExpireWf(w.svc, w.pc.pos, w.now, map[]);
  }

  /** Every step keeps the lists' shape and the loop's bookkeeping. */
  lemma ShapeStep(w: World, e: Event)
    requires w.svc.Wf() && ScanOk(w)
    ensures Step(w, e).svc.Wf() && ScanOk(Step(w, e))
  {
    match e {
      case ClientStart(id, sec) => if !w.pc.Scanning? { StartWf(w.svc, id, sec, w.now); }
      case ClientStop(id) => StopWf(w.svc, id);
      case Look(callback) => if w.pc.Scanning? && w.pc.pos < |w.svc.list| { LookOk(w, callback); }
      case _ =>
    }
  }

  /** The end of a scan that leaves timers linked. */
  lemma LeaveArms(w: World)
    requires ScanOk(w) && Ends(w) && w.svc.list != []
    ensures var w' := Step(w, Leave); var deadline := w.svc.list[0].end;
      && w'.svc.list == w.svc.list && w'.svc.hr.Armed? && w.pc.since < deadline
      && deadline - NSEC < w'.svc.hr.instant <= deadline + NSEC + (w.now - w.pc.since)
      && (Window(w'.svc.hr.instant, deadline) <==> Soon(deadline, w.pc.last, w.now))
  {
    assert !Due(Rise, w.svc.list[0], w.pc.since);
    ArmFromWindow(w.svc.list[0].end, w.pc.since, w.pc.last, w.now);
  }

  lemma StepInv(w: World, late: nat, e: Event)
    requires Inv(w, late)
    ensures Inv(Step(w, e), LateStep(late, w, e))
  {
    ShapeStep(w, e);
    match e {
      case ClientStart(id, sec) => if !w.pc.Scanning? { StartArmed(w, id, sec); }
      case ClientStop(id) => if Remove(w.svc.list, id) != [] { StopMovesHead(w.svc.list, id); }
      case Leave => if Ends(w) && w.svc.list != [] { LeaveArms(w); }
      case PmPost =>
        if w.svc.list != [] && !Due(Rise, w.svc.list[0], w.now) { ArmForWindow(w.svc.list[0].end, w.now); }
      case _ =>
    }
  }

  lemma {:induction false} RunInv(w: World, late: nat, es: seq<Event>)
    requires Inv(w, late)
    ensures Inv(Run(w, es), LateRun(late, w, es))
    decreases |es|
  {
    if es == [] {
    } else {
      StepInv(w, late, es[0]);
      RunInv(Step(w, es[0]), LateStep(late, w, es[0]), es[1..]);
    }
  }

  /** Over every run in which each suspend is resumed through PM_POST_SUSPEND or PM_POST_RESTORE:
      with timers linked, nobody suspended, no handler running and nobody flagged, the timer is
      armed, past one second after the nearest deadline by no more than the last pass took of the scan
      that armed it; and not at all if a start or a resume did. */
  lemma NoTimerLost(w: World, es: seq<Event>)
    requires Boot(w)
    ensures var r := Run(w, es);
      r.svc.list != [] && AtRest(r) ==>
        r.svc.hr.Armed? && r.svc.hr.instant <= r.svc.list[0].end + NSEC + LateRun(0, w, es)
  {
    RunInv(w, 0, es);
  }

  /** Progress: a timer overdue by a second and that lateness is always being dealt with, unless
      suspended. */
  lemma OverdueIsNoticed(w: World, es: seq<Event>, e: Entry)
    requires Boot(w) && e in Run(w, es).svc.list && e.end + NSEC + LateRun(0, w, es) <= Run(w, es).now
    requires AtRest(Run(w, es))
    ensures Step(Run(w, es), HrFire).waking == 1
  {
    RunInv(w, 0, es);
    var l := Run(w, es).svc.list;
    var i :| 0 <= i < |l| && l[i] == e;
    assert Gap(Rise, l[i].end, l[0].end) >= 0 || i == 0;
  }

  /** Every arming by a start or a resume hits the two-sided window of the head; the handler's is never a
      second early, late by no more than its last pass took, and in the window exactly if soon enough. */
  lemma EveryArmingInWindow(w: World, e: Event)
    requires w.svc.Wf() && ScanOk(w) && (e.ClientStart? || e.Leave? || e.PmPost?)
    requires Step(w, e).svc.hr != w.svc.hr && Step(w, e).svc.hr.Armed?
    ensures Step(w, e).svc.list != []
    ensures var instant, deadline := Step(w, e).svc.hr.instant, Step(w, e).svc.list[0].end;
      if !e.Leave? then Window(instant, deadline)
      else
        && Ends(w) && deadline - NSEC < instant <= deadline + NSEC + (w.now - w.pc.since)
        && (Window(instant, deadline) <==> Soon(deadline, w.pc.last, w.now))
  {
    match e {
      case ClientStart(id, sec) => StartArmed(w, id, sec);
      case Leave => LeaveArms(w);
      case PmPost => ArmForWindow(w.svc.list[0].end, w.now);
      case _ =>
    }
  }

  // ------------------------------------------------------------------ the two-sided window

  predicate InWindow(w: World) {
    w.svc.list != [] && AtRest(w) ==> w.svc.hr.Armed? && Window(w.svc.hr.instant, w.svc.list[0].end)
  }

  predicate AlwaysInWindow(w: World, es: seq<Event>)
    decreases |es|
  {
    InWindow(w) && (es != [] ==> AlwaysInWindow(Step(w, es[0]), es[1..]))
  }

  /** gtimer_stop does not reprogram the timer: at rest the instant stays as it was, not too late for
      the deadline that is next now if it was not before, and later than one second before it exactly if
      that deadline is less than a second beyond the instant. */
  lemma StopLeavesTimerEarly(w: World, id: nat)
    requires w.svc.Wf() && AtRest(w) && Remove(w.svc.list, id) != []
    requires w.svc.list != [] ==> Guarded(w, 0)
    ensures var r := Step(w, ClientStop(id)).svc;
      && r.list == Remove(w.svc.list, id) && r.hr == w.svc.hr && r.hr.Armed?
      && r.hr.instant <= r.list[0].end + NSEC
      && (Window(r.hr.instant, r.list[0].end) <==> r.list[0].end - NSEC < w.svc.hr.instant)
  {
    StopMovesHead(w.svc.list, id);
  }

  /** A stop at rest leaves no timer, or one less than a second beyond the programmed instant. */
  predicate StopInTime(w: World, e: Event) {
    e.ClientStop? && AtRest(w) ==>
      var l := Remove(w.svc.list, e.id);
      l != [] ==> w.svc.hr.Armed? && l[0].end - NSEC < w.svc.hr.instant
  }

  /** A scan that ends in the service's rest leaves no timer, or arms for the next one soon enough. */
  predicate ArmInTime(w: World, e: Event) {
    e.Leave? && Ends(w) && w.svc.list != [] && !w.suspended && !w.svc.flag && w.waking == 0 ==>
      Soon(w.svc.list[0].end, w.pc.last, w.now)
  }

  predicate AllInTime(w: World, es: seq<Event>)
    decreases |es|
  {
    es != [] ==> StopInTime(w, es[0]) && ArmInTime(w, es[0]) && AllInTime(Step(w, es[0]), es[1..])
  }

  lemma WindowStep(w: World, e: Event)
    requires w.svc.Wf() && ScanOk(w) && InWindow(w)
    ensures Step(w, e).svc.Wf() && ScanOk(Step(w, e))
    ensures InWindow(Step(w, e)) <==> StopInTime(w, e) && ArmInTime(w, e)
  {
    ShapeStep(w, e);
    match e {
      case ClientStart(id, sec) => if !w.pc.Scanning? { StartArmed(w, id, sec); }
      case ClientStop(id) => if AtRest(w) && Remove(w.svc.list, id) != [] { StopLeavesTimerEarly(w, id); }
      case Leave => if Ends(w) && w.svc.list != [] { LeaveArms(w); }
      case PmPost =>
        if w.svc.list != [] && !Due(Rise, w.svc.list[0], w.now) { ArmForWindow(w.svc.list[0].end, w.now); }
      case _ =>
    }
  }

  lemma {:induction false} WindowRun(w: World, es: seq<Event>)
    requires w.svc.Wf() && ScanOk(w) && InWindow(w)
    ensures AlwaysInWindow(w, es) <==> AllInTime(w, es)
    decreases |es|
  {
    if es == [] {
    } else {
      WindowStep(w, es[0]);
      if StopInTime(w, es[0]) && ArmInTime(w, es[0]) {
        WindowRun(Step(w, es[0]), es[1..]);
      }
    }
  }

  /** Over every run from boot: whenever the service is at rest with timers linked, the programmed
      instant lies within a second of the nearest deadline on either side, if and only if no stop at
      rest ever left a timer a second or more beyond the instant programmed, and every scan that ended in
      rest armed soon enough after its readings. */
  lemma WindowExactly(w: World, es: seq<Event>)
    requires Boot(w)
    ensures AlwaysInWindow(w, es) <==> AllInTime(w, es)
  {
    WindowRun(w, es);
  }

  /** Stops at rest leave no timer, or the nearest deadline where it was; last passes take no time. */
  predicate Gentle(w: World, es: seq<Event>)
    decreases |es|
  {
    es != [] ==>
      && (es[0].ClientStop? && AtRest(w) && w.svc.list != [] && Remove(w.svc.list, es[0].id) != [] ==>
            Remove(w.svc.list, es[0].id)[0].end == w.svc.list[0].end)
      && (es[0].Leave? && Ends(w) ==> w.now == w.pc.since)
      && Gentle(Step(w, es[0]), es[1..])
  }

  lemma {:induction false} GentleInTime(w: World, es: seq<Event>)
    requires w.svc.Wf() && ScanOk(w) && InWindow(w) && Gentle(w, es)
    ensures AllInTime(w, es)
    decreases |es|
  {
    if es == [] {
    } else {
      if es[0].Leave? && Ends(w) && w.svc.list != [] { LeaveArms(w); }
      WindowStep(w, es[0]);
      GentleInTime(Step(w, es[0]), es[1..]);
    }
  }

  /** In particular while the clock stands still during the last pass of every scan, and clients that stop
      a timer at rest never stop the one that is next, unless it is the last one. */
  lemma WindowKept(w: World, es: seq<Event>)
    requires Boot(w) && Gentle(w, es)
    ensures AlwaysInWindow(w, es)
  {
    GentleInTime(w, es);
    WindowExactly(w, es);
  }

  // ------------------------------------------------------------------ the two ways out of the window

  /** From boot: timers 10 s and 100 s ahead; stopping the first leaves the timer 90 s early. */
  lemma StopLeavesTimerEarlyExample(w: World)
    requires Boot(w)
    ensures var w' := Run(w, [ClientStart(1, 10), ClientStart(2, 100), ClientStop(1)]);
      && w'.svc.list == [Entry(2, w.now, w.now + 100 * NSEC, 100)]
      && w'.svc.hr == Armed(w.now + 10 * NSEC) && AtRest(w') && !InWindow(w')
  {
    var a, b := Linking(1, 10, w.now), Linking(2, 100, w.now);
    var es := [ClientStart(1, 10), ClientStart(2, 100), ClientStop(1)];
    var w1 := w.(svc := Svc([a], Armed(w.now + 10 * NSEC), false));
    var w2 := w1.(svc := w1.svc.(list := [a, b]));
    var w3 := w1.(svc := w1.svc.(list := [b]));
    FirstStart(w);
    SecondStart(w1);
    StopFirst(w2, a, b);
    assert es[1..] == [ClientStart(2, 100), ClientStop(1)];
    assert es[1..][1..] == [ClientStop(1)] && es[1..][1..][1..] == [];
    assert Run(w, es) == Run(w1, es[1..]) == Run(w2, es[1..][1..]) == Run(w3, es[1..][1..][1..]);
  }

  lemma FirstStart(w: World)
    requires Boot(w)
    ensures Step(w, ClientStart(1, 10)) == w.(svc := Svc([Linking(1, 10, w.now)], Armed(w.now + 10 * NSEC), false))
  {
    assert Relinked(w.svc, 1, 10, w.now) == [Linking(1, 10, w.now)];
  }

  lemma SecondStart(w: World)
    requires w.svc.list == [Linking(1, 10, w.now)] && w.svc.hr == Armed(w.now + 10 * NSEC) && w.pc.Waiting?
    ensures Step(w, ClientStart(2, 100)) == w.(svc := w.svc.(list := [Linking(1, 10, w.now), Linking(2, 100, w.now)]))
  {
    var a, b := Linking(1, 10, w.now), Linking(2, 100, w.now);
    assert [a][1..] == [] && Remove([a], 2) == [a];
    assert Insert(Rise, [a], b) == [a] + Insert(Rise, [], b);
    assert Relinked(w.svc, 2, 100, w.now) == [a, b];
  }

  lemma StopFirst(w: World, a: Entry, b: Entry)
    requires w.svc.list == [a, b] && a.id == 1 && b.id == 2 && w.pc.Waiting?
    ensures Step(w, ClientStop(1)) == w.(svc := w.svc.(list := [b]))
  {
    assert [a, b][1..] == [b] && [b][1..] == [];
    assert Remove([a, b], 1) == Remove([b], 1) == [b];
  }

  lemma RunCons(w: World, e: Event, es: seq<Event>)
    ensures Run(w, [e] + es) == Run(Step(w, e), es)
  {
    assert ([e] + es)[1..] == es;
  }

  lemma {:induction false} RunSplit(w: World, a: seq<Event>, b: seq<Event>)
    ensures Run(w, a + b) == Run(Run(w, a), b)
    decreases |a|
  {
    if a == [] {
      assert a + b == b;
    } else {
      assert (a + b)[1..] == a[1..] + b;
      RunSplit(Step(w, a[0]), a[1..], b);
    }
  }

  /** Two timers started half a second apart; the first is armed for half a second early. */
  lemma TwoHalfApart(w: World)
    requires Boot(w)
    ensures var t := w.now + NSEC / 2;
      Run(w, [ClientStart(1, 10), Tick(NSEC / 2), ClientStart(2, 110)]) ==
      w.(svc := Svc([Linking(1, 10, w.now), Linking(2, 110, t)], Armed(t + 9 * NSEC), false), now := t)
  {
    var t := w.now + NSEC / 2;
    var a, b := Linking(1, 10, w.now), Linking(2, 110, t);
    var w1 := w.(svc := Svc([a], Armed(w.now + 10 * NSEC), false));
    FirstStart(w);
    RunCons(w, ClientStart(1, 10), [Tick(NSEC / 2), ClientStart(2, 110)]);
    RunCons(w1, Tick(NSEC / 2), [ClientStart(2, 110)]);
    var w2 := w1.(now := t);
    RunCons(w2, ClientStart(2, 110), []);
    assert [a][1..] == [] && Remove([a], 2) == [a];
    assert Insert(Rise, [a], b) == [a] + Insert(Rise, [], b);
    assert Relinked(w2.svc, 2, 110, t) == [a, b];
  }

  lemma FireToFlag(w: World, d: nat)
    requires AtRest(w) && w.svc.hr == Armed(w.now + d)
    ensures Run(w, [Tick(d), HrFire, WakeFlag]) == w.(svc := w.svc.(hr := Idle, flag := true), now := w.now + d)
  {
    var w1 := w.(now := w.now + d);
    var w2 := w1.(svc := w1.svc.(hr := Idle), waking := 1);
    RunCons(w, Tick(d), [HrFire, WakeFlag]);
    RunCons(w1, HrFire, [WakeFlag]);
    RunCons(w2, WakeFlag, []);
  }

  lemma FlagToEnter(w: World)
    requires w.pc.Waiting? && w.svc.flag && w.svc.hr.Idle?
    ensures Run(w, [ThreadClear, Enter]) == w.(svc := w.svc.(flag := false), pc := Scanning(0, w.now, w.now))
  {
    var w1 := w.(svc := w.svc.(flag := false), pc := Cleared);
    RunCons(w, ThreadClear, [Enter]);
    RunCons(w1, Enter, []);
  }

  /** The clock moves on, and the loop passes over the next timer. */
  lemma TickAndPass(w: World, d: nat, callback: bool)
    requires w.pc.Scanning? && w.pc.pos < |w.svc.list| && w.svc.list[w.pc.pos].end > w.now + d
    ensures Run(w, [Tick(d), Look(callback)]) ==
      w.(now := w.now + d, pc := w.pc.(pos := w.pc.pos + 1, last := w.now + d))
  {
    var w1 := w.(now := w.now + d);
    RunCons(w, Tick(d), [Look(callback)]);
    RunCons(w1, Look(callback), []);
  }

  /** A scan of two timers during which the deadline of the first goes by. */
  lemma DeadlineGoesBy(w: World, d: nat, callback: bool)
    requires w.pc.Scanning? && w.pc.pos == 0 && |w.svc.list| == 2 && d > 0
    requires w.svc.list[0].end == w.now + d && w.svc.list[1].end > w.now + d + 1
    ensures Run(w, [Tick(d - 1), Look(callback)] + ([Tick(2), Look(callback)] + [Leave])) ==
      w.(svc := w.svc.(hr := Armed(w.now + d + 1 + NSEC)), now := w.now + d + 1, pc := Waiting)
  {
    var w2 := w.(now := w.now + d - 1, pc := w.pc.(pos := 1, last := w.now + d - 1));
    var w4 := w.(now := w.now + d + 1, pc := w.pc.(pos := 2, last := w.now + d + 1));
    RunSplit(w, [Tick(d - 1), Look(callback)], [Tick(2), Look(callback)] + [Leave]);
    TickAndPass(w, d - 1, callback);
    RunSplit(w2, [Tick(2), Look(callback)], [Leave]);
    TickAndPass(w2, 2, callback);
    RunCons(w4, Leave, []);
    assert [Leave] + [] == [Leave];
  }

  /** From boot, without any stop: timers 10 s and 110 s ahead, half a second apart, so that the timer fires
      half a second early; while the handler looks at them the first deadline goes by, and the timer is
      left armed for more than a second after it. */
  lemma SlowScanLeavesTimerLate(w: World)
    requires Boot(w)
    ensures var deadline := w.now + 10 * NSEC;
            var w' := Run(w, [ClientStart(1, 10), Tick(NSEC / 2), ClientStart(2, 110)] +
                             ([Tick(9 * NSEC), HrFire, WakeFlag] + ([ThreadClear, Enter] +
                              ([Tick(NSEC / 2 - 1), Look(true)] + ([Tick(2), Look(true)] + [Leave])))));
      && AtRest(w') && |w'.svc.list| == 2 && w'.svc.list[0].end == deadline && w'.now == deadline + 1
      && w'.svc.hr == Armed(deadline + NSEC + 1) && !InWindow(w')
  {
    var starts := [ClientStart(1, 10), Tick(NSEC / 2), ClientStart(2, 110)];
    var fire, enter := [Tick(9 * NSEC), HrFire, WakeFlag], [ThreadClear, Enter];
    var scan := [Tick(NSEC / 2 - 1), Look(true)] + ([Tick(2), Look(true)] + [Leave]);
    RunSplit(w, starts, fire + (enter + scan));
    TwoHalfApart(w);
    var w1 := Run(w, starts);
    RunSplit(w1, fire, enter + scan);
    FireToFlag(w1, 9 * NSEC);
    var w2 := Run(w1, fire);
    RunSplit(w2, enter, scan);
    FlagToEnter(w2);
    DeadlineGoesBy(Run(w2, enter), NSEC / 2, true);
  }
}
