/** The bus-protect registers over whole runs of the MT6768's clock tree (clk-mt6768-pg.c): domains share
    their bits, so what a register holds is decided by all of them. */
module PowerProtect {
  import opened PowerScripts
  import opened PowerDomains
  import opened PowerTree
  import opened PowerGates

  /** The board runs the chip's own scripts. */
  ghost predicate RunsReal(b: Board) {
    forall d :: OpsOf(b, d) == Ops(PowerUp(d), PowerDown(d), HasBus(d), BusUp(d), BusDown(d))
  }

  predicate IsProtect(reg: Reg) {
    reg in {ProtectEn, ProtectEn1, SmiClamp}
  }

  /** The domain's protect steps name the bit. */
  predicate Owns(d: Domain, reg: Reg, bit: nat) {
    Names(Protects(d), reg, bit)
  }

  lemma DoBit(b: Board, t: Tree, d: Domain, a: Act, reg: Reg, bit: nat)
    requires RunsReal(b) && IsProtect(reg)
    ensures bit in Get(Do(b, t, d, a).regs, reg) <==>
      if a.Bus? && Owns(d, reg, bit) then !a.open else bit in Get(t.regs, reg)
  {
    assert OpsOf(b, d) == Ops(PowerUp(d), PowerDown(d), HasBus(d), BusUp(d), BusDown(d));
    match a {
      case Power(on) =>
        PowerUpOutcome(d, reg, bit);
        PowerDownOutcome(d, reg, bit);
        ExecOutcome(t.regs, PowerUp(d), reg, bit);
        ExecOutcome(t.regs, PowerDown(d), reg, bit);
      case Bus(open) =>
        BusUpOutcome(d, reg, bit);
        BusDownOutcome(d, reg, bit);
        ExecOutcome(t.regs, BusUp(d), reg, bit);
        ExecOutcome(t.regs, BusDown(d), reg, bit);
      case _ =>
    }
  }

  /** Whether a bit is protecting, by the last bus action of any domain that names it. */
  predicate ByLastBus(log: seq<Note>, reg: Reg, bit: nat, boot: bool)
    decreases |log|
  {
    if log == [] then boot
    else
      var n := log[|log| - 1];
      if n.act.Bus? && Owns(n.d, reg, bit) then !n.act.open else ByLastBus(log[..|log| - 1], reg, bit, boot)
  }

  predicate Follows(t: Tree, reg: Reg, bit: nat, boot: bool) {
    bit in Get(t.regs, reg) <==> ByLastBus(t.log, reg, bit, boot)
  }

  lemma OneMoreNote(log: seq<Note>, n: Note, reg: Reg, bit: nat, boot: bool)
    ensures ByLastBus(log + [n], reg, bit, boot) <==>
      if n.act.Bus? && Owns(n.d, reg, bit) then !n.act.open else ByLastBus(log, reg, bit, boot)
  {
    assert (log + [n])[..|log + [n]| - 1] == log;
  }

  lemma DoFollows(b: Board, t: Tree, d: Domain, a: Act, reg: Reg, bit: nat, boot: bool)
    requires RunsReal(b) && IsProtect(reg) && Follows(t, reg, bit, boot)
    ensures Follows(Do(b, t, d, a), reg, bit, boot)
  {
    DoBit(b, t, d, a, reg, bit);
    OneMoreNote(t.log, Note(d, a), reg, bit, boot);
  }

  lemma {:induction false} PerformFollows(b: Board, t: Tree, d: Domain, acts: seq<Act>, reg: Reg, bit: nat, boot: bool)
    requires RunsReal(b) && IsProtect(reg) && Follows(t, reg, bit, boot)
    ensures Follows(Perform(b, t, d, acts), reg, bit, boot)
    decreases |acts|
  {
    if acts == [] {
    } else {
      DoFollows(b, t, d, acts[0], reg, bit, boot);
      PerformFollows(b, Do(b, t, d, acts[0]), d, acts[1..], reg, bit, boot);
    }
  }

  lemma GateFollows(b: Board, t: Tree, d: Domain, n: nat, reg: Reg, bit: nat, boot: bool)
    requires RunsReal(b) && IsProtect(reg) && Follows(t, reg, bit, boot)
    ensures Follows(Counted(PgPrepare(b, t, d), d, n), reg, bit, boot)
    ensures Follows(PgUnprepare(b, t, d), reg, bit, boot)
  {
    PerformFollows(b, t, d, UpActs(b, d, IsOn(t.regs, d)), reg, bit, boot);
    PerformFollows(b, t, d, DownActs(b, d, !IsOn(t.regs, d)), reg, bit, boot);
  }

  lemma {:induction false} PrepareFollows(b: Board, t: Tree, d: Domain, reg: Reg, bit: nat, boot: bool)
    requires Wf(b) && RunsReal(b) && IsProtect(reg) && Follows(t, reg, bit, boot)
    ensures Follows(ClkPrepare(b, t, d), reg, bit, boot)
    decreases At(b.depths, d)
  {
    if At(t.count, d) > 0 {
      PrepareHeld(b, t, d);
    } else if Parent(b, d).Some? {
      PrepareFollows(b, t, Parent(b, d).value, reg, bit, boot);
      PrepareChild(b, t, d, Parent(b, d).value);
      GateFollows(b, ClkPrepare(b, t, Parent(b, d).value), d, 1, reg, bit, boot);
    } else {
      PrepareRoot(b, t, d);
      GateFollows(b, t, d, 1, reg, bit, boot);
    }
  }

  lemma GiveFollows(b: Board, t: Tree, d: Domain, reg: Reg, bit: nat, boot: bool)
    requires RunsReal(b) && IsProtect(reg) && Follows(t, reg, bit, boot)
    ensures Follows(PgUnprepare(b, Counted(t, d, 0), d), reg, bit, boot)
  {
    GateFollows(b, Counted(t, d, 0), d, 0, reg, bit, boot);
  }

  lemma {:induction false} UnprepareFollows(b: Board, t: Tree, d: Domain, reg: Reg, bit: nat, boot: bool)
    requires Wf(b) && RunsReal(b) && IsProtect(reg) && Follows(t, reg, bit, boot)
    ensures Follows(ClkUnprepare(b, t, d), reg, bit, boot)
    decreases At(b.depths, d)
  {
    if At(t.count, d) == 0 {
    } else if At(t.count, d) > 1 {
      UnprepareSteps(b, t, d);
    } else if Parent(b, d).Some? {
      GiveFollows(b, t, d, reg, bit, boot);
      UnprepareFollows(b, PgUnprepare(b, Counted(t, d, 0), d), Parent(b, d).value, reg, bit, boot);
      UnprepareSteps(b, t, d);
    } else {
      GiveFollows(b, t, d, reg, bit, boot);
      UnprepareSteps(b, t, d);
    }
  }

  lemma {:induction false} ServeAllFollows(b: Board, t: Tree, qs: seq<Request>, reg: Reg, bit: nat, boot: bool)
    requires Wf(b) && RunsReal(b) && IsProtect(reg) && Follows(t, reg, bit, boot)
    ensures Follows(ServeAll(b, t, qs), reg, bit, boot)
    decreases |qs|
  {
    if qs == [] {
    } else {
      if qs[0].Prepare? {
        PrepareFollows(b, t, qs[0].d, reg, bit, boot);
      } else {
        UnprepareFollows(b, t, qs[0].d, reg, bit, boot);
      }
      ServeAllFollows(b, Serve(b, t, qs[0]), qs[1..], reg, bit, boot);
    }
  }

  /** Whether a bit is protecting, by the last bus action in one domain's own history. */
  predicate ByOwnBus(acts: seq<Act>, boot: bool)
    decreases |acts|
  {
    if acts == [] then boot
    else
      var a := acts[|acts| - 1];
      if a.Bus? then !a.open else ByOwnBus(acts[..|acts| - 1], boot)
  }

  lemma {:induction false} SoleOwnerDecides(log: seq<Note>, d: Domain, reg: Reg, bit: nat, boot: bool)
    requires forall e :: Owns(e, reg, bit) <==> e == d
    ensures ByLastBus(log, reg, bit, boot) == ByOwnBus(LogOf(log, d), boot)
    decreases |log|
  {
    if log == [] {
    } else {
      var n, before := log[|log| - 1], log[..|log| - 1];
      assert log == before + [n];
      LogAppend(before, [n], d);
      assert [n][1..] == [];
      SoleOwnerDecides(before, d, reg, bit, boot);
      if n.d == d {
        assert LogOf(log, d) == LogOf(before, d) + [n.act];
        assert LogOf(log, d)[..|LogOf(log, d)| - 1] == LogOf(before, d);
      } else {
        assert LogOf(log, d) == LogOf(before, d) + [] == LogOf(before, d);
      }
    }
  }

  lemma RealBoard(b: Board, found: set<Clk>, cbs: seq<Callback>)
    requires b == Mt6768(found, cbs)
    ensures Wf(b) && RunsReal(b)
  {
    Mt6768Wf(b, found, cbs);
    forall d ensures OpsOf(b, d) == Ops(PowerUp(d), PowerDown(d), HasBus(d), BusUp(d), BusDown(d)) {
      GatesRun(b, found, cbs, d);
    }
  }

  /** What the protect registers hold after any requests, from any registers at boot: a bit is set exactly
      if the last bus action among all domains that name it closed a bus.  A bit only one domain names
      agrees with that domain's own last bus action. */
  lemma ProtectFollowsLastBus(b: Board, found: set<Clk>, cbs: seq<Callback>, r: Regs, qs: seq<Request>, reg: Reg,
                              bit: nat)
    requires b == Mt6768(found, cbs) && IsProtect(reg)
    ensures Wf(b)
    ensures var t := ServeAll(b, Booted(r), qs); var boot := bit in Get(r, reg);
      && (bit in Get(t.regs, reg) <==> ByLastBus(t.log, reg, bit, boot))
      && (forall d :: (forall e :: Owns(e, reg, bit) <==> e == d) ==>
            (bit in Get(t.regs, reg) <==> ByOwnBus(LogOf(t.log, d), boot)))
  {
    RealBoard(b, found, cbs);
    ServeAllFollows(b, Booted(r), qs, reg, bit, bit in Get(r, reg));
    var t := ServeAll(b, Booted(r), qs);
    forall d | forall e :: Owns(e, reg, bit) <==> e == d
      ensures bit in Get(t.regs, reg) <==> ByOwnBus(LogOf(t.log, d), bit in Get(r, reg))
    {
      SoleOwnerDecides(t.log, d, reg, bit, bit in Get(r, reg));
    }
  }

  lemma {:induction false} NoBusKeeps(b: Board, t: Tree, d: Domain, acts: seq<Act>, reg: Reg, bit: nat)
    requires RunsReal(b) && IsProtect(reg) && forall a :: a in acts ==> !a.Bus?
    ensures bit in Get(Perform(b, t, d, acts).regs, reg) <==> bit in Get(t.regs, reg)
    decreases |acts|
  {
    if acts == [] {
    } else {
      assert acts[0] in acts;
      DoBit(b, t, d, acts[0], reg, bit);
      NoBusKeeps(b, Do(b, t, d, acts[0]), d, acts[1..], reg, bit);
    }
  }

  lemma {:induction false} ClocksNoBus(names: seq<Clk>)
    ensures forall a :: a in On(names) || a in Off(names) ==> !a.Bus?
  {
    if names == [] {
    } else {
      ClocksNoBus(names[1..]);
    }
  }

  /** A way down ends with the domain's protect bits set. */
  lemma DownProtects(b: Board, t: Tree, d: Domain, reg: Reg, bit: nat)
    requires Wf(b) && RunsReal(b) && IsProtect(reg) && IsOn(t.regs, d) && Owns(d, reg, bit)
    ensures bit in Get(PgUnprepare(b, t, d).regs, reg)
  {
    assert OpsOk(b, d) && OpsOf(b, d).hasBus;
    var t1, t2, t3 := DownParts(b, t, d);
    OnlyCalls(b.cbs);
    PerformAppend(b, t, d, Befores(b.cbs), [Bus(false)]);
    PerformOne(b, Perform(b, t, d, Befores(b.cbs)), d, Bus(false));
    DoBit(b, Perform(b, t, d, Befores(b.cbs)), d, Bus(false), reg, bit);
    ClocksNoBus(Pre2(b, d));
    NoBusKeeps(b, t1, d, Off(Pre2(b, d)), reg, bit);
    DoBit(b, t2, d, Power(false), reg, bit);
    ClocksNoBus(Pre1(b, d));
    NoBusKeeps(b, t3, d, Off(Pre1(b, d)), reg, bit);
  }

  /** A way up ends with them clear. */
  lemma UpReleases(b: Board, t: Tree, d: Domain, reg: Reg, bit: nat)
    requires Wf(b) && RunsReal(b) && IsProtect(reg) && !IsOn(t.regs, d) && Owns(d, reg, bit)
    ensures bit !in Get(PgPrepare(b, t, d).regs, reg)
  {
    assert OpsOf(b, d).hasBus;
    var t1, t2, t3 := PowerTree.UpParts(b, t, d);
    OnlyCalls(b.cbs);
    PerformAppend(b, t3, d, [Bus(true)], Afters(b.cbs));
    PerformOne(b, t3, d, Bus(true));
    DoBit(b, t3, d, Bus(true), reg, bit);
    NoBusKeeps(b, Do(b, t3, d, Bus(true)), d, Afters(b.cbs), reg, bit);
  }

  lemma CameraBit()
    ensures Owns(DIS, ProtectEn1, 19) && Owns(CAM, ProtectEn1, 19)
  {
    assert Protects(DIS)[0] in Protects(DIS) && Protects(CAM)[0] in Protects(CAM);
  }

  /** So over a run a domain's bits can disagree with its own bus.  The display is up and held; a consumer
      takes the camera and gives it back: the camera's way down sets a protect bit of the display. */
  lemma ProtectedWhileUp(b: Board, found: set<Clk>, cbs: seq<Callback>, r: Regs)
    requires b == Mt6768(found, cbs)
    ensures Wf(b)
    ensures var t := Serve(b, Serve(b, Serve(b, Booted(r), Prepare(DIS)), Prepare(CAM)), Unprepare(CAM));
      At(t.count, DIS) == 1 && IsOn(t.regs, DIS) && Owns(DIS, ProtectEn1, 19) && 19 in Get(t.regs, ProtectEn1)
  {
    RealBoard(b, found, cbs);
    RootAndChild(b, found, cbs);
    CameraBit();
    var t1 := TakeRoot(b, r, DIS);
    TakeChild(b, t1, CAM, DIS);
    GiveChild(b, ClkPrepare(b, t1, CAM), CAM, DIS, ProtectEn1, 19);
  }

  lemma ChildBack(b: Board, t: Tree, d: Domain, p: Domain)
    requires Wf(b) && Parent(b, d) == Some(p) && d != p && At(t.count, d) == 1 && At(t.count, p) == 2
    ensures ClkUnprepare(b, t, d) == Counted(PgUnprepare(b, Counted(t, d, 0), d), p, 1)
  {
    UnprepareSteps(b, t, d);
    UnprepareSteps(b, PgUnprepare(b, Counted(t, d, 0), d), p);
  }

  lemma GiveChild(b: Board, t: Tree, d: Domain, p: Domain, reg: Reg, bit: nat)
    requires Wf(b) && RunsReal(b) && IsProtect(reg) && Owns(d, reg, bit)
    requires Parent(b, d) == Some(p) && d != p && At(t.count, d) == 1 && At(t.count, p) == 2
    requires IsOn(t.regs, d) && IsOn(t.regs, p)
    ensures var t' := Serve(b, t, Unprepare(d));
      At(t'.count, p) == 1 && IsOn(t'.regs, p) && bit in Get(t'.regs, reg)
  {
    ChildBack(b, t, d, p);
    DownProtects(b, Counted(t, d, 0), d, reg, bit);
    DownSpares(b, Counted(t, d, 0), d, p);
  }

  lemma DownSpares(b: Board, t: Tree, d: Domain, p: Domain)
    requires Wf(b) && IsOn(t.regs, d) && IsOn(t.regs, p) && d != p
    ensures IsOn(PgUnprepare(b, t, d).regs, p)
  {
    UnprepareFalls(b, t, d);
  }

  lemma UpPowers(b: Board, t: Tree, d: Domain, p: Domain)
    requires Wf(b) && IsOn(t.regs, p)
    ensures IsOn(PgPrepare(b, t, d).regs, d) && IsOn(PgPrepare(b, t, d).regs, p)
  {
    PrepareRises(b, t, d);
  }

  lemma ChildUp(b: Board, t: Tree, d: Domain, p: Domain)
    requires Wf(b) && Parent(b, d) == Some(p) && d != p && At(t.count, d) == 0 && At(t.count, p) == 1
    ensures ClkPrepare(b, t, d) == Counted(PgPrepare(b, Counted(t, p, 2), d), d, 1)
  {
    PrepareHeld(b, t, p);
    PrepareChild(b, t, d, p);
  }

  lemma TakeChild(b: Board, t: Tree, d: Domain, p: Domain)
    requires Wf(b) && Parent(b, d) == Some(p) && d != p && At(t.count, d) == 0 && At(t.count, p) == 1
    requires IsOn(t.regs, p)
    ensures var t' := ClkPrepare(b, t, d);
      At(t'.count, d) == 1 && At(t'.count, p) == 2 && IsOn(t'.regs, d) && IsOn(t'.regs, p)
  {
    ChildUp(b, t, d, p);
    UpPowers(b, Counted(t, p, 2), d, p);
  }

  /** And the other way: the camera is off with its bus protected, and a consumer takes the display: the
      display's way up clears a protect bit of the camera. */
  lemma ReleasedWhileDown(b: Board, found: set<Clk>, cbs: seq<Callback>, r: Regs)
    requires b == Mt6768(found, cbs)
    requires !IsOn(r, DIS) && !IsOn(r, CAM) && 19 in Get(r, ProtectEn1)
    ensures Wf(b)
    ensures var t := Serve(b, Booted(r), Prepare(DIS));
      At(t.count, CAM) == 0 && !IsOn(t.regs, CAM) && Owns(CAM, ProtectEn1, 19) && 19 !in Get(t.regs, ProtectEn1)
  {
    RealBoard(b, found, cbs);
    RootAndChild(b, found, cbs);
    CameraBit();
    PrepareRoot(b, Booted(r), DIS);
    PrepareRises(b, Booted(r), DIS);
    UpReleases(b, Booted(r), DIS, ProtectEn1, 19);
  }
}
