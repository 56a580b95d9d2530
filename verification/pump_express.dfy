/** Pump Express Plus negotiation: a retry protocol raced by plug events and stale work
    (mt6370-pe-rmx3171.c). */
module PumpExpress {

  const TARGET_UV := 9000000
  const INITIAL_UV := 5000000
  const PULSE_UV := 7000000
  const PULSE_COUNT := 5
  const RETRY_MAX := 3

  /** NEGOTIATING exists only while the lock is held, so it is never seen between events. */
  datatype Phase = IDLE | DETECTING | NEGOTIATING | RUNNING | FAILED

  /** The driver outside its lock. pending: the delayed work is scheduled (timer or queue). busy: the
      work function has been started and waits for the lock; cancelling does not stop it any more.
      attempts counts the pulse attempts since the last plug. */
  datatype Pe = Pe(phase: Phase, retry: nat, ac: bool, pending: bool, busy: bool, attempts: nat)

  /** What an attempt meets: a write refused, or a voltage read back (negative: the read failed). */
  datatype Answer = PulseRefused | Reading(uv: int)

  /** online is absent when the charger's property cannot be read. */
  datatype Online = Unread | Known(on: bool)

  datatype Event =
    | Notify(online: Online)
    | Expire                    // the delayed work becomes a running one
    | Work(answer: Answer)      // the running work function gets the lock and runs

  predicate Accepted(a: Answer) {
    a.Reading? && a.uv >= 0 && TARGET_UV - 500000 <= a.uv <= TARGET_UV + 500000
  }

  // ------------------------------------------------------------------ steps

  function Plug(s: Pe): Pe {
    s.(ac := true, phase := DETECTING, retry := 0, pending := true, attempts := 0)
  }

  /** cancel_delayed_work takes the pending work back but leaves a started one alone. */
  function Unplug(s: Pe): Pe {
    s.(ac := false, phase := IDLE, pending := false)
  }

  function OnNotify(s: Pe, online: Online): Pe {
    if online.Unread? then s
    else if online.on && !s.ac then Plug(s)
    else if !online.on && s.ac then Unplug(s)
    else s
  }

  /** Whether a started work function finds anything to do. */
  predicate Wanted(s: Pe) {
    s.ac && s.phase != RUNNING && s.phase != FAILED
  }

  function Attempt(s: Pe, a: Answer): Pe {
    var t := s.(attempts := s.attempts + 1);
    if Accepted(a) then t.(phase := RUNNING)
    else if s.retry + 1 >= RETRY_MAX then t.(phase := FAILED, retry := s.retry + 1)
    else t.(phase := DETECTING, retry := s.retry + 1, pending := true)
  }

  function OnWork(s: Pe, a: Answer): Pe {
    var t := s.(busy := false);
    if Wanted(s) then Attempt(t, a) else t
  }

  /** Expire needs pending work and no other instance running; Work needs a started one. */
  predicate Enabled(s: Pe, e: Event) {
    (e.Expire? ==> s.pending && !s.busy) && (e.Work? ==> s.busy)
  }

  function Step(s: Pe, e: Event): Pe {
    match e
    case Notify(online) => OnNotify(s, online)
    case Expire => if Enabled(s, e) then s.(pending := false, busy := true) else s
    case Work(a) => if Enabled(s, e) then OnWork(s, a) else s
  }

  function Run(s: Pe, es: seq<Event>): Pe
    decreases |es|
  {
    if es == [] then s else Run(Step(s, es[0]), es[1..])
  }

  const START := Pe(IDLE, 0, false, false, false, 0)

  // ------------------------------------------------------------------ the invariant

  predicate Inv(s: Pe) {
    && (s.phase == IDLE <==> !s.ac)
    && s.phase != NEGOTIATING
    && (s.phase == DETECTING ==> s.pending || s.busy)
    && (s.pending ==> s.ac)
    && s.attempts <= RETRY_MAX
    && (s.ac ==> s.attempts == s.retry + if s.phase == RUNNING then 1 else 0)
    && (s.ac ==> if s.phase == FAILED then s.retry == RETRY_MAX else s.retry < RETRY_MAX)
  }

  /** Under every interleaving of plug, unplug, expiry and execution, stale work included: the state
      is IDLE exactly when no adapter is present, never NEGOTIATING, DETECTING only while work is
      pending or about to run, and no plug session makes more than three pulse attempts. */
  lemma {:induction false} RunInv(s: Pe, es: seq<Event>)
    requires Inv(s)
    ensures Inv(Run(s, es))
    decreases |es|
  {
    if es == [] {
    } else {
      RunInv(Step(s, es[0]), es[1..]);
    }
  }

  lemma EveryRun(es: seq<Event>)
    ensures Inv(Run(START, es))
  {
    RunInv(START, es);
  }

  /** Whether an adapter is there, from the notifications alone: what the last readable one said. */
  function Present(es: seq<Event>): bool {
    if es == [] then false
    else
      var e := es[|es| - 1];
      if e.Notify? && e.online.Known? then e.online.on else Present(es[..|es| - 1])
  }

  lemma {:induction false} RunSnoc(s: Pe, es: seq<Event>, e: Event)
    ensures Run(s, es + [e]) == Step(Run(s, es), e)
    decreases |es|
  {
    if es == [] {
      assert ([] + [e])[1..] == [];
    } else {
      assert (es + [e])[0] == es[0] && (es + [e])[1..] == es[1..] + [e];
      RunSnoc(Step(s, es[0]), es[1..], e);
    }
  }

  /** Over every run from probe the driver knows whether an adapter is there: it is IDLE, with nothing
      pending, exactly when the last readable notification said offline or there was none. */
  lemma {:induction false} FollowsAdapter(es: seq<Event>)
    ensures var s := Run(START, es);
      && s.ac == Present(es) && (s.phase == IDLE <==> !Present(es)) && (!Present(es) ==> !s.pending)
    decreases |es|
  {
    EveryRun(es);
    if es == [] {
    } else {
      var before, e := es[..|es| - 1], es[|es| - 1];
      assert es == before + [e];
      FollowsAdapter(before);
      EveryRun(before);
      RunSnoc(START, before, e);
    }
  }

  /** A plug begins a session of its own, whatever went before: detecting, with no retries used up and its
      delayed work pending. */
  lemma PlugBeginsSession(es: seq<Event>)
    requires !Present(es)
    ensures var s := Run(START, es + [Notify(Known(true))]);
      s.phase == DETECTING && s.retry == 0 && s.attempts == 0 && s.pending && s.busy == Run(START, es).busy
  {
    FollowsAdapter(es);
    RunSnoc(START, es, Notify(Known(true)));
  }

  /** Work left over from before an unplug does nothing until the next plug. */
  lemma StaleWorkIsHarmless(s: Pe, a: Answer)
    requires Inv(s) && !s.ac
    ensures Step(s, Work(a)) == s.(busy := false)
  {
  }

  // ------------------------------------------------------------------ a session as a fold

  /** The adapter stays: no notification reports it gone. */
  predicate Stays(es: seq<Event>) {
    forall e :: e in es && e.Notify? ==> e.online.Unread? || e.online.on
  }

  /** The answers of the executions that happen, in order. */
  function Executed(s: Pe, es: seq<Event>): seq<Answer>
    decreases |es|
  {
    if es == [] then []
    else (if es[0].Work? && s.busy then [es[0].answer] else []) + Executed(Step(s, es[0]), es[1..])
  }

  /** What a session should come to: the first accepted answer among three attempts decides. */
  function Verdict(answers: seq<Answer>, retry: nat): (r: (Phase, nat))
    ensures r.0 in {DETECTING, RUNNING, FAILED}
    decreases |answers|
  {
    if answers == [] then (DETECTING, retry)
    else if Accepted(answers[0]) then (RUNNING, retry)
    else if retry + 1 >= RETRY_MAX then (FAILED, retry + 1)
    else Verdict(answers[1..], retry + 1)
  }

  lemma {:induction false} SettledStays(s: Pe, es: seq<Event>)
    requires Inv(s) && s.phase in {RUNNING, FAILED} && Stays(es)
    ensures Run(s, es).phase == s.phase && Run(s, es).retry == s.retry && Run(s, es).attempts == s.attempts
    decreases |es|
  {
    if es == [] {
    } else {
      assert es[0] in es;
      SettledStays(Step(s, es[0]), es[1..]);
    }
  }

  /** However expiries, executions and notifications interleave, a session in which the adapter stays
      comes to exactly what its executed answers say, in their order. */
  lemma {:induction false} SessionFollowsVerdict(s: Pe, es: seq<Event>)
    requires Inv(s) && s.phase == DETECTING && Stays(es)
    ensures (Run(s, es).phase, Run(s, es).retry) == Verdict(Executed(s, es), s.retry)
    decreases |es|
  {
    if es == [] {
    } else {
      assert es[0] in es;
      var s' := Step(s, es[0]);
      if s'.phase == DETECTING {
        SessionFollowsVerdict(s', es[1..]);
        if es[0].Work? && s.busy {
          assert Executed(s, es)[1..] == Executed(s', es[1..]);
        } else {
          assert Executed(s, es) == Executed(s', es[1..]);
        }
      } else {
        SettledStays(s', es[1..]);
      }
    }
  }

  /** If the adapter stays, three executions reach RUNNING or FAILED: RUNNING exactly when one of the
      first three answers is accepted. */
  lemma ThreeExecutionsSettle(s: Pe, es: seq<Event>)
    requires Inv(s) && !s.ac && Stays(es) && |Executed(Plug(s), es)| >= RETRY_MAX
    ensures var a := Executed(Plug(s), es);
      Run(Plug(s), es).phase == if Accepted(a[0]) || Accepted(a[1]) || Accepted(a[2]) then RUNNING else FAILED
  {
    var a := Executed(Plug(s), es);
    SessionFollowsVerdict(Plug(s), es);
    var b := a[1..];
    var c := b[1..];
    assert b[0] == a[1] && c[0] == a[2];
    assert Verdict(c, 2).0 == if Accepted(c[0]) then RUNNING else FAILED;
    assert Verdict(b, 1).0 == if Accepted(b[0]) then RUNNING else Verdict(c, 2).0;
    assert Verdict(a, 0).0 == if Accepted(a[0]) then RUNNING else Verdict(b, 1).0;
  }

  /** No work is scheduled twice over, and none once the session has settled. */
  predicate Tidy(s: Pe) {
    !(s.pending && s.busy) && (s.phase in {RUNNING, FAILED} ==> !s.pending && !s.busy)
  }

  lemma {:induction false} TidyRun(s: Pe, es: seq<Event>)
    requires Inv(s) && s.ac && Tidy(s) && Stays(es)
    ensures s.attempts + |Executed(s, es)| == Run(s, es).attempts && Tidy(Run(s, es))
    decreases |es|
  {
    if es == [] {
    } else {
      assert es[0] in es;
      TidyRun(Step(s, es[0]), es[1..]);
    }
  }

  /** In a session begun with no old work still waiting for the lock every execution is an attempt, so the
      work function runs at most three times and never again once the session has settled. */
  lemma EveryExecutionCounts(s: Pe, es: seq<Event>)
    requires Inv(s) && !s.ac && !s.busy && Stays(es)
    ensures |Executed(Plug(s), es)| == Run(Plug(s), es).attempts <= RETRY_MAX
    ensures Run(Plug(s), es).phase in {RUNNING, FAILED} ==> !Run(Plug(s), es).pending && !Run(Plug(s), es).busy
  {
    TidyRun(Plug(s), es);
    RunInv(Plug(s), es);
  }

  /** Until it settles the session can always go on: an expiry or an execution is enabled. */
  lemma DetectingCanMove(s: Pe, a: Answer)
    requires Inv(s) && s.phase == DETECTING
    ensures Enabled(s, Expire) || Enabled(s, Work(a))
    ensures Enabled(s, Work(a)) ==> Step(s, Work(a)).attempts == s.attempts + 1
  {
  }

  /** No delayed work comes to its time. */
  predicate NoExpiry(es: seq<Event>) {
    forall e :: e in es ==> !e.Expire?
  }

  lemma {:induction false} NobodyRuns(s: Pe, es: seq<Event>)
    requires !s.busy && NoExpiry(es)
    ensures Executed(s, es) == []
    decreases |es|
  {
    if es == [] {
    } else {
      assert es[0] in es;
      NobodyRuns(Step(s, es[0]), es[1..]);
    }
  }

  /** The one effect of stale work.  A new session can make an attempt before its own 500 ms timer has
      expired exactly if, at the plug, work started before the unplug has still not got the lock. */
  lemma StaleWorkJumpsTheDelay(s: Pe)
    requires Inv(s) && !s.ac
    ensures s.busy <==> exists es :: NoExpiry(es) && Executed(Plug(s), es) != []
  {
    if s.busy {
      var es := [Work(PulseRefused)];
      assert NoExpiry(es) && Executed(Plug(s), es) == [PulseRefused] + Executed(Step(Plug(s), es[0]), es[1..]);
    } else if es :| NoExpiry(es) && Executed(Plug(s), es) != [] {
      NobodyRuns(Plug(s), es);
    }
  }

  /** That happens: plug, expiry, unplug, plug, and the work of the first session makes the first attempt
      of the second, whose own work is still pending. */
  lemma StaleWorkExample(a: Answer)
    requires !Accepted(a)
    ensures var s := Run(START, [Notify(Known(true)), Expire, Notify(Known(false)), Notify(Known(true)), Work(a)]);
      s.attempts == 1 && s.pending && s.phase == DETECTING
  {
    var es := [Notify(Known(true)), Expire, Notify(Known(false)), Notify(Known(true)), Work(a)];
    var s1 := Plug(START);
    var s2 := s1.(pending := false, busy := true);
    var s3 := Unplug(s2);
    assert Run(START, es) == Run(s1, es[1..]);
    assert Run(s1, es[1..]) == Run(s2, es[2..]);
    assert Run(s2, es[2..]) == Run(s3, es[3..]);
    assert Run(s3, es[3..]) == Run(Plug(s3), es[4..]);
    assert Run(Plug(s3), es[4..]) == Run(OnWork(Plug(s3), a), es[5..]);
  }

  // ------------------------------------------------------------------ the pulse pattern

  /** The k-th voltage of a pattern of pulses, each up to 7 V and down again to 5 V. */
  function Volt(k: nat): int {
    if k % 2 == 0 then PULSE_UV else INITIAL_UV
  }

  /** pe_send_pulse_pattern. rets[k] is what the k-th write returns. All ten voltages are sent and 0
      returned, or sending stops right after the first write that fails and its error is returned. */
  method SendPulsePattern(rets: seq<int>) returns (ret: int, sent: seq<int>)
    requires |rets| == 2 * PULSE_COUNT
    ensures forall k :: 0 <= k < |sent| ==> sent[k] == if k % 2 == 0 then 7_000_000 else 5_000_000
    ensures ret == 0 ==> |sent| == 10
    ensures ret == 0 <==> forall k :: 0 <= k < |rets| ==> rets[k] == 0
    ensures ret == 0 ==> |sent| == |rets|
    ensures ret != 0 ==>
      0 < |sent| <= |rets| && ret == rets[|sent| - 1] && forall k :: 0 <= k < |sent| - 1 ==> rets[k] == 0
  {
    sent := [];
    var i := 0;
    while i < PULSE_COUNT
      invariant i <= PULSE_COUNT && |sent| == 2 * i
      invariant forall k :: 0 <= k < |sent| ==> sent[k] == Volt(k)
      invariant forall k :: 0 <= k < 2 * i ==> rets[k] == 0
    {
      sent := sent + [PULSE_UV];
      ret := rets[2 * i];
      if ret != 0 { return; }
      sent := sent + [INITIAL_UV];
      ret := rets[2 * i + 1];
      if ret != 0 { return; }
      i := i + 1;
    }
    ret := 0;
  }

  /** pe_check_adapter_response: a failed read keeps its error, anything outside 8.5 V to 9.5 V is
      "no such device". */
  method CheckAdapterResponse(vbus: int) returns (ret: int)
    ensures ret == 0 <==> Accepted(Reading(vbus))
    ensures ret == 0 <==> 8_500_000 <= vbus <= 9_500_000
    ensures vbus < 0 ==> ret == vbus
  {
    if vbus < 0 { return vbus; }
    if vbus >= TARGET_UV - 500000 && vbus <= TARGET_UV + 500000 { return 0; }
    return -19;
  }

  // ------------------------------------------------------------------ the driver object

  class Driver {
    var state: Phase
    var retryCount: nat
    var acPresent: bool
    var pending: bool
    var busy: bool
    ghost var attempts: nat

    constructor ()
      ensures Model() == START
    {
      state, retryCount, acPresent, pending, busy, attempts := IDLE, 0, false, false, false, 0;
    }

    ghost function Model(): Pe
      reads this
    {
      Pe(state, retryCount, acPresent, pending, busy, attempts)
    }

    /** pe_psy_notify, for a property change of the charger. */
    method PsyNotify(online: Online)
      modifies this
      ensures Model() == Step(old(Model()), Notify(online))
    {
      if online.Unread? { return; }
      if online.on && !acPresent {
        acPresent := true;
        state := DETECTING;
        retryCount, attempts := 0, 0;
        pending := true;
      } else if !online.on && acPresent {
        acPresent := false;
        state := IDLE;
        pending := false;
      }
    }

    /** The work queue starts the delayed work: it is no longer pending, and cannot be cancelled. */
    method Start()
      requires pending && !busy
      modifies this
      ensures Model() == Step(old(Model()), Expire)
    {
      pending, busy := false, true;
    }

    /** pe_negotiate_work. rets and vbus are what the charger answers, if it is asked. */
    method NegotiateWork(rets: seq<int>, vbus: int)
      requires busy && |rets| == 2 * PULSE_COUNT
      modifies this
      ensures var a := if forall k :: 0 <= k < |rets| ==> rets[k] == 0 then Reading(vbus) else PulseRefused;
        Model() == Step(old(Model()), Work(a))
    {
      busy := false;
      if !acPresent || state == RUNNING || state == FAILED { return; }
      state := NEGOTIATING;
      attempts := attempts + 1;
      var ret, sent := SendPulsePattern(rets);
      if ret == 0 {
        ret := CheckAdapterResponse(vbus);
        if ret == 0 {
          state := RUNNING;
          return;
        }
      }
      retryCount := retryCount + 1;
      if retryCount >= RETRY_MAX {
        state := FAILED;
      } else {
        state := DETECTING;
        pending := true;
      }
    }
  }
}
