/** Parents first on the way up, children first on the way down: the order of power over the whole history of
    the clock tree, action by action (clk-mt6768-pg.c under the clock core's prepare and unprepare). */
module PowerNesting {
  import opened PowerScripts
  import opened PowerTree

  /** Whether a domain is powered, by the last action on its switches. */
  function PowerOf(log: seq<Note>, d: Domain, boot: bool): bool
    decreases |log|
  {
    if log == [] then boot
    else
      var n := log[|log| - 1];
      if n.d == d && n.act.Power? then n.act.on else PowerOf(log[..|log| - 1], d, boot)
  }

  /** A child and its parent, and whether boot found each of them on. */
  datatype Pair = Pair(child: Domain, parent: Domain, childOn: bool, parentOn: bool)

  /** After every action so far the child is powered only if its parent is. */
  predicate Nested(log: seq<Note>, x: Pair)
    decreases |log|
  {
    && (PowerOf(log, x.child, x.childOn) ==> PowerOf(log, x.parent, x.parentOn))
    && (log != [] ==> Nested(log[..|log| - 1], x))
  }

  lemma {:induction false} NestedAt(log: seq<Note>, x: Pair, n: nat)
    requires Nested(log, x) && n <= |log|
    ensures PowerOf(log[..n], x.child, x.childOn) ==> PowerOf(log[..n], x.parent, x.parentOn)
    decreases |log|
  {
    if n == |log| {
      assert log[..n] == log;
    } else {
      assert log[..|log| - 1][..n] == log[..n];
      NestedAt(log[..|log| - 1], x, n);
    }
  }

  lemma PowerSnoc(log: seq<Note>, n: Note, d: Domain, boot: bool)
    ensures PowerOf(log + [n], d, boot) == if n.d == d && n.act.Power? then n.act.on else PowerOf(log, d, boot)
  {
    assert (log + [n])[..|log + [n]| - 1] == log;
  }

  /** The history is nested so far, and says of both where their switches are. */
  predicate Sound(t: Tree, x: Pair) {
    && Nested(t.log, x)
    && PowerOf(t.log, x.child, x.childOn) == IsOn(t.regs, x.child)
    && PowerOf(t.log, x.parent, x.parentOn) == IsOn(t.regs, x.parent)
  }

  /** An action that cannot break the nesting. */
  predicate MayDo(t: Tree, x: Pair, e: Domain, a: Act) {
    && (e == x.child && a == Power(true) ==> IsOn(t.regs, x.parent))
    && (e == x.parent && a == Power(false) ==> !IsOn(t.regs, x.child))
  }

  lemma DoPower(b: Board, t: Tree, e: Domain, a: Act, d: Domain)
    requires OpsOk(b, e)
    ensures IsOn(Do(b, t, e, a).regs, d) == if e == d && a.Power? then a.on else IsOn(t.regs, d)
  {
    PowerSets(b, t.regs, e, d);
    BusKeepsPower(b, t.regs, e, d);
  }

  lemma DoSound(b: Board, t: Tree, x: Pair, e: Domain, a: Act)
    requires OpsOk(b, e) && x.child != x.parent && Sound(t, x) && MayDo(t, x, e, a)
    ensures Sound(Do(b, t, e, a), x)
  {
    DoPower(b, t, e, a, x.child);
    DoPower(b, t, e, a, x.parent);
    PowerSnoc(t.log, Note(e, a), x.child, x.childOn);
    PowerSnoc(t.log, Note(e, a), x.parent, x.parentOn);
    var log := Do(b, t, e, a).log;
    assert log == t.log + [Note(e, a)];
    assert log[..|log| - 1] == t.log;
  }

  /** A row of actions on one domain that cannot break it. */
  predicate MayPerform(t: Tree, x: Pair, e: Domain, acts: seq<Act>) {
    && (e == x.child ==> IsOn(t.regs, x.parent) || Power(true) !in acts)
    && (e == x.parent ==> !IsOn(t.regs, x.child) || Power(false) !in acts)
  }

  lemma {:induction false} PerformSound(b: Board, t: Tree, x: Pair, e: Domain, acts: seq<Act>)
    requires OpsOk(b, e) && x.child != x.parent && Sound(t, x) && MayPerform(t, x, e, acts)
    ensures Sound(Perform(b, t, e, acts), x)
    decreases |acts|
  {
    if acts == [] {
    } else {
      assert acts[0] in acts;
      DoSound(b, t, x, e, acts[0]);
      DoPower(b, t, e, acts[0], x.child);
      DoPower(b, t, e, acts[0], x.parent);
      PerformSound(b, Do(b, t, e, acts[0]), x, e, acts[1..]);
    }
  }

  lemma {:induction false} ClocksMoveNoPower(names: seq<Clk>)
    ensures forall a :: a in On(names) || a in Off(names) ==> !a.Power?
  {
    if names == [] {
    } else {
      ClocksMoveNoPower(names[1..]);
    }
  }

  lemma OneWay(b: Board, d: Domain, skip: bool)
    ensures Power(false) !in UpActs(b, d, skip) && Power(true) !in DownActs(b, d, skip)
  {
    ClocksMoveNoPower(Pre1(b, d));
    ClocksMoveNoPower(Pre2(b, d));
    OnlyCalls(b.cbs);
    BusIsNoPower(b, d, skip);
  }

  lemma BusIsNoPower(b: Board, d: Domain, skip: bool)
    ensures forall a :: a in UpBus(b, d, skip) || a in DownBus(b, d, skip) ==> !a.Power?
  {
    OnlyCalls(b.cbs);
  }

  lemma GateSound(b: Board, t: Tree, x: Pair, e: Domain, n: nat)
    requires Wf(b) && x.child != x.parent && Sound(t, x) && (e == x.child ==> IsOn(t.regs, x.parent))
    ensures Sound(Counted(PgPrepare(b, t, e), e, n), x)
  {
    assert OpsOk(b, e);
    OneWay(b, e, IsOn(t.regs, e));
    PerformSound(b, t, x, e, UpActs(b, e, IsOn(t.regs, e)));
  }

  lemma GateDownSound(b: Board, t: Tree, x: Pair, e: Domain)
    requires Wf(b) && x.child != x.parent && Sound(t, x) && (e == x.parent ==> !IsOn(t.regs, x.child))
    ensures Sound(PgUnprepare(b, Counted(t, e, 0), e), x)
  {
    assert OpsOk(b, e);
    var t1 := Counted(t, e, 0);
    OneWay(b, e, !IsOn(t1.regs, e));
    PerformSound(b, t1, x, e, DownActs(b, e, !IsOn(t1.regs, e)));
  }

  /** A prepared domain is on. */
  lemma HeldIsOn(b: Board, boot: set<Domain>, wants: map<Domain, nat>, t: Tree, p: Domain)
    requires Inv(b, boot, wants, t) && At(wants, p) > 0
    ensures IsOn(t.regs, p)
  {
    assert CountOk(b, wants, t, p) && PowerOk(boot, t, p);
  }

  /** A parent held once, by its own consumer, has no child that is on, unless boot left it so. */
  lemma LastHold(b: Board, boot: set<Domain>, wants: map<Domain, nat>, t: Tree, d: Domain, p: Domain)
    requires Wf(b) && Inv(b, boot, wants, t) && Parent(b, d) == Some(p) && d !in boot
    requires At(t.count, p) == 1 && At(wants, p) > 0
    ensures !IsOn(t.regs, d)
  {
    assert CountOk(b, wants, t, p) && PowerOk(boot, t, d);
    KidsHas(b.gates, b, t, p, d);
  }

  lemma {:induction false} PrepareSound(b: Board, boot: set<Domain>, wants: map<Domain, nat>, t: Tree, e: Domain,
                                        x: Pair)
    requires Wf(b) && Inv(b, boot, wants, t)
    requires Parent(b, x.child) == Some(x.parent) && x.child != x.parent && Sound(t, x)
    ensures Sound(ClkPrepare(b, t, e), x)
    decreases At(b.depths, e)
  {
    if At(t.count, e) > 0 {
      PrepareHeld(b, t, e);
    } else if Parent(b, e).Some? {
      var q := Parent(b, e).value;
      PrepareSound(b, boot, wants, t, q, x);
      PrepareKeeps(b, boot, wants, t, q);
      HeldIsOn(b, boot, Add(wants, q), ClkPrepare(b, t, q), q);
      GateSound(b, ClkPrepare(b, t, q), x, e, 1);
      PrepareChild(b, t, e, q);
    } else {
      GateSound(b, t, x, e, 1);
      PrepareRoot(b, t, e);
    }
  }

  lemma LastGiveSound(b: Board, boot: set<Domain>, wants: map<Domain, nat>, t: Tree, e: Domain, x: Pair)
    requires Wf(b) && Inv(b, boot, wants, t)
    requires Parent(b, x.child) == Some(x.parent) && x.child != x.parent && Sound(t, x)
    requires x.child !in boot && At(wants, e) > 0 && At(t.count, e) == 1
    ensures Sound(PgUnprepare(b, Counted(t, e, 0), e), x)
  {
    if e == x.parent { LastHold(b, boot, wants, t, x.child, e); }
    GateDownSound(b, t, x, e);
  }

  lemma {:induction false} UnprepareSound(b: Board, boot: set<Domain>, wants: map<Domain, nat>, t: Tree, e: Domain,
                                          x: Pair)
    requires Wf(b) && Inv(b, boot, wants, t)
    requires Parent(b, x.child) == Some(x.parent) && x.child != x.parent && Sound(t, x)
    requires x.child !in boot && At(wants, e) > 0
    ensures Sound(ClkUnprepare(b, t, e), x)
    decreases At(b.depths, e)
  {
    assert CountOk(b, wants, t, e);
    if At(t.count, e) > 1 {
      UnprepareSteps(b, t, e);
    } else if Parent(b, e).Some? {
      var q, u := Parent(b, e).value, PgUnprepare(b, Counted(t, e, 0), e);
      var held := Add(Drop(wants, e), q);
      LastGiveSound(b, boot, wants, t, e, x);
      GateDown(b, boot, wants, t, e, held);
      UnprepareSound(b, boot, held, u, q, x);
      UnprepareSteps(b, t, e);
    } else {
      LastGiveSound(b, boot, wants, t, e, x);
      UnprepareSteps(b, t, e);
    }
  }

  lemma {:induction false} ServeAllSound(b: Board, boot: set<Domain>, wants: map<Domain, nat>, t: Tree,
                                         qs: seq<Request>, x: Pair)
    requires Wf(b) && Inv(b, boot, wants, t) && Balanced(wants, qs)
    requires Parent(b, x.child) == Some(x.parent) && x.child != x.parent && x.child !in boot && Sound(t, x)
    ensures Sound(ServeAll(b, t, qs), x)
    decreases |qs|
  {
    if qs == [] {
    } else {
      if qs[0].Prepare? {
        PrepareSound(b, boot, wants, t, qs[0].d, x);
      } else {
        UnprepareSound(b, boot, wants, t, qs[0].d, x);
      }
      ServeKeeps(b, boot, wants, t, qs[0]);
      ServeAllSound(b, boot, Want(wants, qs[0]), Serve(b, t, qs[0]), qs[1..], x);
    }
  }

  /** Over every balanced run, after every single action in it: a child that boot did not leave on is powered
      only while its parent is.  The parent's switches come first on the way up and go last on the way
      down, at any depth. */
  lemma PoweredUnderParent(b: Board, r: Regs, qs: seq<Request>, d: Domain, n: nat)
    requires Wf(b) && Balanced(map[], qs) && Parent(b, d).Some? && !IsOn(r, d)
    requires n <= |ServeAll(b, Booted(r), qs).log|
    ensures var log, p := ServeAll(b, Booted(r), qs).log, Parent(b, d).value;
      PowerOf(log[..n], d, false) ==> PowerOf(log[..n], p, IsOn(r, p))
  {
    var p := Parent(b, d).value;
    var x := Pair(d, p, false, IsOn(r, p));
    BootInv(b, r);
    ServeAllSound(b, OnAtBoot(r), map[], Booted(r), qs, x);
    NestedAt(ServeAll(b, Booted(r), qs).log, x, n);
  }
}
