/** The coulomb service as a state machine whose steps interleave freely: client calls, counter
    ticks, comparator interrupts, wake-ups, the worker thread, and counter resets both as one
    atomic step and split into their separate locked sections. */
module CoulombMachine {
  import opened WaitLists
  import opened CoulombService
  import opened ChargeAccounting

  /** Where the worker thread is: waiting for its flag; past clearing it; or in the handler's plus
      or minus part with the count it sampled on entry. */
  datatype Pc = Waiting | Cleared | InPlus(car: int) | InMinus(car: int)

  /** A split reset: comparators off, then the count latched in reset_coulomb, then the hardware
      counter cleared; the rebase and the wake-up end it. */
  datatype ResetPc = NoReset | SwitchedOff | Latched(now: int) | Zeroed(now: int)

  /** `waking` threads have decided to wake the worker, `woken` of them have programmed the
      comparators but not yet set the flag. */
  datatype World = World(
    svc: Svc, count: int, pc: Pc, waking: nat, woken: nat, resetting: ResetPc,
    carDiff: int, cycle: Meter, iavgCar: int, iavgDelta: int)

  datatype Event =
    | Tick(count: int)                    // the counter moves
    | ClientStart(id: nat, car: int)      // locked section of gauge_coulomb_start
    | ClientStop(id: nat)
    | Fire(dir: Dir)                      // a comparator interrupt
    | WakeWrite                           // wake_up_gauge_coulomb: comparators ...
    | WakeFlag                            // ... then the flag
    | ThreadClear                         // gauge_coulomb_thread sees and clears the flag
    | Sample                              // handler entry: read the counter
    | Pop                                 // unlink one due head (its callback's calls are client steps)
    | ArmHead                             // end of a loop: program the comparator for the head
    | CycleSample                         // fg_sw_bat_cycle_accu
    | IavgSample                          // a full averaging window ends
    | Reset                               // gauge_reset_hw as one step
    | SplitOff | SplitLatch | SplitZero(ht: Arm, lt: Arm) | SplitRebase

  predicate IsSplitReset(e: Event) {
    e.SplitOff? || e.SplitLatch? || e.SplitZero? || e.SplitRebase?
  }

  // ------------------------------------------------------------------ steps

  /** gauge_reset_hw: account the charge so far, remember it in car_diff, zero the counter,
      rebase every threshold and wake the worker. */
  function ResetHw(w: World): World {
    w.(cycle := Accumulate(w.cycle, w.count).(car := 0),
       carDiff := w.carDiff + w.count,
       svc := WakeUp(RebaseSvc(w.svc, w.count), 0),
       count := 0,
       iavgCar := 0)
  }

  /** The handler is in one of its loops. */
  predicate InHandler(w: World) {
    w.pc.InPlus? || w.pc.InMinus?
  }

  function SampledDir(pc: Pc): Dir {
    if pc.InPlus? then Rise else Fall
  }

  /** The head of the list the handler is working on is due by the count it sampled. */
  predicate HeadDue(w: World)
    requires InHandler(w)
  {
    var l := w.svc.Side(SampledDir(w.pc));
    l != [] && Due(SampledDir(w.pc), l[0], w.pc.car)
  }

  /** End of one handler loop: the distance written is measured from the sampled count, but the
      hardware counts it from the present one. */
  function ArmFromSample(w: World): Svc
    requires InHandler(w)
  {
    var dir := SampledDir(w.pc);
    var l := w.svc.Side(dir);
    if l == [] then w.svc
    else w.svc.WithCmp(dir, Program(dir, Gap(dir, l[0].end, w.pc.car), w.count))
  }

  predicate Fires(dir: Dir, w: World) {
    w.svc.Cmp(dir).At? && Gap(dir, w.svc.Cmp(dir).level, w.count) <= 0
  }

  /** A start has left its locked section; it wakes the worker next if somebody was due. */
  function AfterStart(w: World, s: Svc, wake: bool): World {
    w.(svc := s, waking := if wake then w.waking + 1 else w.waking)
  }

  /** One step; an event that is not enabled leaves the world as it is. */
  function Step(w: World, e: Event): World {
    match e
    case Tick(count) => w.(count := count)
    case ClientStart(id, car) =>
      if car == 0 then w
      else
        var r := StartLocked(w.svc, id, car, w.count);
        AfterStart(w, r.0, r.1)
    case ClientStop(id) => w.(svc := Unlink(w.svc, id))
    case Fire(dir) =>
      if Fires(dir, w) then w.(svc := w.svc.WithCmp(dir, Off), waking := w.waking + 1) else w
    case WakeWrite =>
      if w.waking > 0 then
        w.(svc := WakeUp(w.svc, w.count).(flag := w.svc.flag), waking := w.waking - 1, woken := w.woken + 1)
      else w
    case WakeFlag =>
      if w.woken > 0 then w.(svc := w.svc.(flag := true), woken := w.woken - 1) else w
    case ThreadClear =>
      if w.pc.Waiting? && w.svc.flag then w.(svc := w.svc.(flag := false), pc := Cleared) else w
    case Sample =>
      if w.pc.Cleared? then w.(pc := InPlus(w.count)) else w
    case Pop =>
      if InHandler(w) && HeadDue(w) then
        var dir := SampledDir(w.pc);
        w.(svc := w.svc.WithSide(dir, w.svc.Side(dir)[1..]))
      else w
    case ArmHead =>
      if InHandler(w) && !HeadDue(w) then
        w.(svc := ArmFromSample(w), pc := if w.pc.InPlus? then InMinus(w.pc.car) else Waiting)
      else w
    case CycleSample => w.(cycle := Accumulate(w.cycle, w.count))
    case IavgSample => w.(iavgDelta := w.count - w.iavgCar, iavgCar := w.count)
    case Reset => if w.resetting.NoReset? then ResetHw(w) else w
    case SplitOff =>
      if w.resetting.NoReset? then w.(svc := w.svc.(ht := Off, lt := Off), resetting := SwitchedOff) else w
    case SplitLatch =>
      if w.resetting.SwitchedOff? then w.(resetting := Latched(w.count)) else w
    case SplitZero(ht, lt) =>
      if w.resetting.Latched? then
        w.(svc := w.svc.(ht := ht, lt := lt), count := 0, resetting := Zeroed(w.resetting.now))
      else w
    case SplitRebase =>
      if w.resetting.Zeroed? then
        w.(svc := RebaseSvc(w.svc, w.resetting.now), waking := w.waking + 1, resetting := NoReset)
      else w
  }

  function Run(w: World, es: seq<Event>): World
    decreases |es|
  {
    if es == [] then w else Run(Step(w, es[0]), es[1..])
  }

  // ------------------------------------------------------------------ rows of events

  lemma RunCons(w: World, e: Event, es: seq<Event>)
    ensures Run(w, [e] + es) == Run(Step(w, e), es)
  {
    assert ([e] + es)[1..] == es;
  }

  lemma {:induction false} RunSplit(w: World, a: seq<Event>, b: seq<Event>)
    ensures Run(w, a + b) == Run(Run(w, a), b)
    decreases |a|
  {
    if a == [] {
      assert a + b == b;
    } else {
      assert (a + b)[1..] == a[1..] + b;
      RunSplit(Step(w, a[0]), a[1..], b);
    }
  }

  lemma RunSnoc(w: World, a: seq<Event>, e: Event)
    ensures Run(w, a + [e]) == Step(Run(w, a), e)
  {
    RunSplit(w, a, [e]);
    assert [e][1..] == [];
    assert Run(Run(w, a), [e]) == Run(Step(Run(w, a), e), [e][1..]);
  }

  lemma FireToWake(w: World, l: seq<Entry>, n: int)
    requires w.svc == Svc(l, [], At(n), Off, false) && w.waking == 0 && w.woken == 0
    ensures Run(w, [Tick(n), Fire(Rise), WakeWrite])
      == w.(svc := Svc(l, [], At(n + 300), At(n - 300), false), count := n, woken := 1)
  {
    var w1 := w.(count := n);
    var w2 := w1.(svc := w1.svc.(ht := Off), waking := 1);
    RunCons(w2, WakeWrite, []);
    RunCons(w1, Fire(Rise), [WakeWrite]);
    RunCons(w, Tick(n), [Fire(Rise), WakeWrite]);
  }

  lemma WakeToSample(w: World)
    requires w.pc.Waiting? && w.woken == 1
    ensures Run(w, [WakeFlag, ThreadClear, Sample])
      == w.(svc := w.svc.(flag := false), woken := 0, pc := InPlus(w.count))
  {
    var w1 := w.(svc := w.svc.(flag := true), woken := 0);
    var w2 := w1.(svc := w1.svc.(flag := false), pc := Cleared);
    RunCons(w2, Sample, []);
    RunCons(w1, ThreadClear, [Sample]);
    RunCons(w, WakeFlag, [ThreadClear, Sample]);
  }

  /** From a consumer waiting at n to the handler's sample at n. */
  lemma FireToSample(w: World, l: seq<Entry>, n: int)
    requires w.svc == Svc(l, [], At(n), Off, false) && w.pc.Waiting? && w.waking == 0 && w.woken == 0
    ensures Run(w, [Tick(n), Fire(Rise), WakeWrite] + [WakeFlag, ThreadClear, Sample])
      == w.(svc := Svc(l, [], At(n + 300), At(n - 300), false), count := n, pc := InPlus(n))
  {
    RunSplit(w, [Tick(n), Fire(Rise), WakeWrite], [WakeFlag, ThreadClear, Sample]);
    FireToWake(w, l, n);
    WakeToSample(Run(w, [Tick(n), Fire(Rise), WakeWrite]));
  }

  lemma OneStart(w: World, id: nat, car: int)
    requires w.svc.plus == [] && w.svc.minus == [] && car > 0
    ensures Step(w, ClientStart(id, car)) ==
      w.(svc := w.svc.(plus := [Entry(id, w.count, w.count + car, car)], ht := At(w.count + car)))
  {
    assert Relinked(w.svc, id, car, w.count) == [Entry(id, w.count, w.count + car, car)];
  }

  lemma PopOnly(w: World, a: Entry)
    requires w.pc == InPlus(w.count) && w.svc.plus == [a] && a.end <= w.count
    ensures Step(w, Pop) == w.(svc := w.svc.(plus := []))
  {
    assert [a][1..] == [];
  }
}
