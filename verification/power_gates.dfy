/** The MT6768's own gates (scp_clks and the subsys_ops tables of clk-mt6768-pg.c), and the driver
    object whose methods run them. */
module PowerGates {
  import opened PowerScripts
  import opened PowerDomains
  import opened PowerTree

  function ParentOf(d: Domain): Option<Domain> {
    match d
    case MFG => Some(MFG_ASYNC)
    case MFG_CORE0 => Some(MFG)
    case MFG_CORE1 => Some(MFG)
    case ISP => Some(DIS)
    case CAM => Some(DIS)
    case VENC => Some(DIS)
    case VDEC => Some(DIS)
    case _ => None
  }

  function DepthOf(d: Domain): nat {
    match d
    case MFG_CORE0 => 2
    case MFG_CORE1 => 2
    case MFG => 1
    case ISP => 1
    case CAM => 1
    case VENC => 1
    case VDEC => 1
    case _ => 0
  }

  const SCP_CLKS: seq<Domain> :=
    [MD1, CONN, DPY, DIS, MFG, ISP, IFR, MFG_CORE0, MFG_CORE1, MFG_ASYNC, CAM, VENC, VDEC]

  const CLK_NUM := 10

  const MM_CG1 := [Clk("mm_sel")]
  const MM_CG2 :=
    [Clk("mm_smi_common"), Clk("mm_smi_comm0"), Clk("mm_smi_comm1"), Clk("mm_smi_larb0"), Clk("mm_cam_mdp_ck")]
  const MFG_CG := [Clk("mfg_sel")]
  const ISP_CG := [Clk("img_larb2"), Clk("mm_smi_img_ck"), Clk("img_dip"), Clk("img_fdvt"), Clk("img_dpe")]
  const CAM_CG := [Clk("cam_larb3"), Clk("cam_dfp_vad"), Clk("cam"), Clk("cam_ccu"), Clk("mm_smi_cam_ck")]
  const VENC_CG := [Clk("venc_set1_venc")]
  const VDEC_CG := [Clk("vdec_cken"), Clk("vdec_active"), Clk("vdec_cken_eng"), Clk("vdec_larb1_cken")]

  /** The board of this chip, for any clocks that lookup finds and any registered callbacks. */
  function Mt6768(found: set<Clk>, cbs: seq<Callback>): Board {
    Board(SCP_CLKS,
          map d: Domain | ParentOf(d).Some? :: ParentOf(d).value,
          map d: Domain | true :: DepthOf(d),
          map[DIS := MM_CG1, MFG_ASYNC := MFG_CG],
          map[DIS := MM_CG2, ISP := ISP_CG, CAM := CAM_CG, VENC := VENC_CG, VDEC := VDEC_CG],
          map d: Domain | true :: Ops(PowerUp(d), PowerDown(d), HasBus(d), BusUp(d), BusDown(d)),
          found, cbs)
  }

  lemma BusKeepsSwitches(r: Regs, d: Domain, e: Domain, b: nat)
    requires b in {ON, ON_2ND}
    ensures b in Get(Exec(r, BusUp(d)), PwrCon(e)) <==> b in Get(r, PwrCon(e))
    ensures b in Get(Exec(r, BusDown(d)), PwrCon(e)) <==> b in Get(r, PwrCon(e))
  {
    HighBits(d);
    ProtectsShared(d);
    BusUpOutcome(d, PwrCon(e), b);
    BusDownOutcome(d, PwrCon(e), b);
    ExecOutcome(r, BusUp(d), PwrCon(e), b);
    ExecOutcome(r, BusDown(d), PwrCon(e), b);
  }

  lemma PowerSetsSwitches(r: Regs, d: Domain, e: Domain, b: nat)
    requires b in {ON, ON_2ND}
    ensures b in Get(Exec(r, PowerUp(d)), PwrCon(e)) <==> e == d || b in Get(r, PwrCon(e))
    ensures b in Get(Exec(r, PowerDown(d)), PwrCon(e)) <==> e != d && b in Get(r, PwrCon(e))
  {
    HighBits(d);
    PowerUpOutcome(d, PwrCon(e), b);
    PowerDownOutcome(d, PwrCon(e), b);
    ExecOutcome(r, PowerUp(d), PwrCon(e), b);
    ExecOutcome(r, PowerDown(d), PwrCon(e), b);
  }

  lemma DomainBusKeepsPower(r: Regs, d: Domain, e: Domain)
    ensures IsOn(Exec(r, BusUp(d)), e) <==> IsOn(r, e)
    ensures IsOn(Exec(r, BusDown(d)), e) <==> IsOn(r, e)
  {
    BusKeepsSwitches(r, d, e, ON);
    BusKeepsSwitches(r, d, e, ON_2ND);
  }

  lemma DomainPowerSets(r: Regs, d: Domain, e: Domain)
    ensures IsOn(Exec(r, PowerUp(d)), e) <==> e == d || IsOn(r, e)
    ensures IsOn(Exec(r, PowerDown(d)), e) <==> e != d && IsOn(r, e)
  {
    PowerSetsSwitches(r, d, e, ON);
    PowerSetsSwitches(r, d, e, ON_2ND);
  }

  lemma {:induction false} TimesAbsent(ds: seq<Domain>, d: Domain)
    requires forall j :: 0 <= j < |ds| ==> ds[j] != d
    ensures Times(ds, d) == 0
  {
    if ds == [] {
    } else {
      TimesAbsent(ds[1..], d);
    }
  }

  lemma {:induction false} TimesOnce(ds: seq<Domain>, i: nat)
    requires i < |ds| && forall j :: 0 <= j < |ds| && j != i ==> ds[j] != ds[i]
    ensures Times(ds, ds[i]) == 1
  {
    if i == 0 {
      TimesAbsent(ds[1..], ds[0]);
    } else {
      TimesOnce(ds[1..], i - 1);
    }
  }

  /** Where a domain stands in scp_clks. */
  function PlaceOf(d: Domain): nat {
    match d
    case MD1 => 0 case CONN => 1 case DPY => 2 case DIS => 3 case MFG => 4 case ISP => 5 case IFR => 6
    case MFG_CORE0 => 7 case MFG_CORE1 => 8 case MFG_ASYNC => 9 case CAM => 10 case VENC => 11 case VDEC => 12
  }

  lemma PlacesMatch(gates: seq<Domain>)
    requires gates == SCP_CLKS
    ensures forall j :: 0 <= j < |gates| ==> PlaceOf(gates[j]) == j
    ensures forall d :: PlaceOf(d) < |gates| && gates[PlaceOf(d)] == d
  {
  }

  lemma GatesOnce(gates: seq<Domain>, d: Domain)
    requires gates == SCP_CLKS
    ensures Times(gates, d) == 1
  {
    PlacesMatch(gates);
    TimesOnce(gates, PlaceOf(d));
  }

  /** The chip's own scripts meet what the tree asks of a domain's operations. */
  lemma RealOps(b: Board, d: Domain)
    requires OpsOf(b, d) == Ops(PowerUp(d), PowerDown(d), HasBus(d), BusUp(d), BusDown(d))
    ensures OpsOk(b, d)
  {
    forall r: Regs, e
      ensures IsOn(Exec(r, PowerUp(d)), e) <==> e == d || IsOn(r, e)
      ensures IsOn(Exec(r, PowerDown(d)), e) <==> e != d && IsOn(r, e)
    {
      DomainPowerSets(r, d, e);
    }
    forall r: Regs, e
      ensures IsOn(Exec(r, BusUp(d)), e) <==> IsOn(r, e)
      ensures IsOn(Exec(r, BusDown(d)), e) <==> IsOn(r, e)
    {
      DomainBusKeepsPower(r, d, e);
    }
  }

  lemma GatesClimb(b: Board, found: set<Clk>, cbs: seq<Callback>, d: Domain)
    requires b == Mt6768(found, cbs) && d in b.parents
    ensures At(b.depths, b.parents[d]) < At(b.depths, d)
  {
    assert ParentOf(d).Some?;
  }

  lemma GatesRun(b: Board, found: set<Clk>, cbs: seq<Callback>, d: Domain)
    requires b == Mt6768(found, cbs)
    ensures OpsOf(b, d) == Ops(PowerUp(d), PowerDown(d), HasBus(d), BusUp(d), BusDown(d))
  {
  }

  /** The chip's gates form a forest in which every domain appears once, so every result about clock
      trees holds of it. */
  lemma Mt6768Wf(b: Board, found: set<Clk>, cbs: seq<Callback>)
    requires b == Mt6768(found, cbs)
    ensures Wf(b)
  {
    forall d ensures Times(b.gates, d) == 1 {
      GatesOnce(b.gates, d);
    }
    forall d | d in b.parents ensures At(b.depths, b.parents[d]) < At(b.depths, d) {
      GatesClimb(b, found, cbs, d);
    }
    forall d ensures OpsOk(b, d) {
      GatesRun(b, found, cbs, d);
      RealOps(b, d);
    }
  }

  /** What goes wrong with domains left on by the bootloader, on this chip: the display and the image
      processor under it are on at boot, and one consumer takes the display and gives it back.  The
      display is then cut under the image processor, which stays on though nobody holds it; and the
      display's callbacks have seen before_off without ever seeing after_on. */
  lemma ChildLeftOverParent(b: Board, found: set<Clk>, cbs: seq<Callback>, r: Regs)
    requires b == Mt6768(found, cbs) && IsOn(r, ISP) && IsOn(r, DIS)
    ensures Wf(b) && Parent(b, ISP) == Some(DIS) && Balanced(map[], [Prepare(DIS), Unprepare(DIS)])
    ensures var t := ServeAll(b, Booted(r), [Prepare(DIS), Unprepare(DIS)]);
      && IsOn(t.regs, ISP) && !IsOn(t.regs, DIS) && At(t.count, ISP) == 0
      && Replay(Cut, LogOf(t.log, DIS)).None?
  {
    Mt6768Wf(b, found, cbs);
    RootAndChild(b, found, cbs);
    TakenAndGivenBack(b, r, DIS);
    BracketsFromCut(b, r, [Prepare(DIS), Unprepare(DIS)], DIS);
  }

  lemma RootAndChild(b: Board, found: set<Clk>, cbs: seq<Callback>)
    requires b == Mt6768(found, cbs)
    ensures Parent(b, DIS).None? && Parent(b, ISP) == Some(DIS) && Parent(b, CAM) == Some(DIS)
  {
    assert ParentOf(DIS).None? && ParentOf(ISP) == Some(DIS) && ParentOf(CAM) == Some(DIS);
  }

  /** When the hardware is at rest, a domain reads as on exactly if both status registers say so. */
  lemma ReadsBothStatuses(d: Domain, h: Hw)
    requires Rested(d, h)
    ensures IsOn(h.ctl, d) <==> ON in Get(h.ack, PwrCon(d)) && ON_2ND in Get(h.ack, PwrCon(d))
  {
  }

  // ------------------------------------------------------------------ mtcmos_force_off

  const FORCE_OFF: seq<Domain> :=
    [MD1, CONN, ISP, MFG_CORE0, MFG_CORE1, MFG, MFG_ASYNC, CAM, VENC, VDEC, DIS]

  function DownAll(r: Regs, ds: seq<Domain>): Regs
    decreases |ds|
  {
    if ds == [] then r else DownAll(Exec(r, Down(ds[0])), ds[1..])
  }

  lemma {:induction false} DownAllTurnsOff(r: Regs, ds: seq<Domain>, e: Domain)
    ensures IsOn(DownAll(r, ds), e) <==> e !in ds && IsOn(r, e)
    decreases |ds|
  {
    if ds == [] {
    } else {
      ExecAppend(r, BusDown(ds[0]), PowerDown(ds[0]));
      DomainBusKeepsPower(r, ds[0], e);
      DomainPowerSets(Exec(r, BusDown(ds[0])), ds[0], e);
      DownAllTurnsOff(Exec(r, Down(ds[0])), ds[1..], e);
      assert e in ds <==> e == ds[0] || e in ds[1..];
    }
  }

  /** Where a domain stands in the force-off order; DPY and IFR stay. */
  function ForcePlace(d: Domain): Option<nat> {
    match d
    case MD1 => Some(0) case CONN => Some(1) case ISP => Some(2) case MFG_CORE0 => Some(3) case MFG_CORE1 => Some(4)
    case MFG => Some(5) case MFG_ASYNC => Some(6) case CAM => Some(7) case VENC => Some(8) case VDEC => Some(9)
    case DIS => Some(10) case DPY => None case IFR => None
  }

  lemma ForcePlaces(order: seq<Domain>, k: nat, d: Domain)
    requires order == FORCE_OFF && k <= |order|
    ensures d in order[..k] <==> ForcePlace(d).Some? && ForcePlace(d).value < k
  {
    assert forall j :: 0 <= j < |order| ==> ForcePlace(order[j]) == Some(j);
    if ForcePlace(d).Some? && ForcePlace(d).value < k {
      assert order[..k][ForcePlace(d).value] == d;
    }
  }

  /** Forcing everything off ends with every domain off but DPY and IFR, and never on the way is a
      child left powered over a parent that is off, if none was to begin with. */
  lemma ForceOffOrder(r: Regs, order: seq<Domain>, k: nat, d: Domain)
    requires order == FORCE_OFF && k <= |order|
    requires ParentOf(d).Some? ==> (IsOn(r, d) ==> IsOn(r, ParentOf(d).value))
    ensures IsOn(DownAll(r, order[..k]), d) <==> !(ForcePlace(d).Some? && ForcePlace(d).value < k) && IsOn(r, d)
    ensures ParentOf(d).Some? ==>
      (IsOn(DownAll(r, order[..k]), d) ==> IsOn(DownAll(r, order[..k]), ParentOf(d).value))
  {
    ForcePlaces(order, k, d);
    DownAllTurnsOff(r, order[..k], d);
    if ParentOf(d).Some? {
      ForcePlaces(order, k, ParentOf(d).value);
      DownAllTurnsOff(r, order[..k], ParentOf(d).value);
    }
  }

  // ------------------------------------------------------------------ the driver object

  /** What enabling, or disabling, the rest of a list from entry i on still has to come to. */
  predicate OnLeft(b: Board, t: Tree, d: Domain, cg: seq<Clk>, i: nat, goal: Tree)
    requires i <= |cg|
  {
    Perform(b, t, d, On(Usable(b.found, cg[i..]))) == goal
  }

  predicate OffLeft(b: Board, t: Tree, d: Domain, cg: seq<Clk>, i: nat, goal: Tree)
    requires i <= |cg|
  {
    Perform(b, t, d, Off(Usable(b.found, cg[i..]))) == goal
  }

  lemma OnStart(b: Board, t: Tree, d: Domain, cg: seq<Clk>) returns (goal: Tree)
    ensures goal == Perform(b, t, d, On(Usable(b.found, cg))) && OnLeft(b, t, d, cg, 0, goal)
  {
    assert cg[0..] == cg;
    goal := Perform(b, t, d, On(Usable(b.found, cg)));
  }

  lemma OffStart(b: Board, t: Tree, d: Domain, cg: seq<Clk>) returns (goal: Tree)
    ensures goal == Perform(b, t, d, Off(Usable(b.found, cg))) && OffLeft(b, t, d, cg, 0, goal)
  {
    assert cg[0..] == cg;
    goal := Perform(b, t, d, Off(Usable(b.found, cg)));
  }

  lemma OnStep(b: Board, t: Tree, d: Domain, cg: seq<Clk>, i: nat, goal: Tree)
    requires i < |cg| && cg[i] in b.found && OnLeft(b, t, d, cg, i, goal)
    ensures OnLeft(b, Do(b, t, d, ClkOn(cg[i])), d, cg, i + 1, goal)
  {
    var rest := On(Usable(b.found, cg[i + 1..]));
    assert cg[i..][1..] == cg[i + 1..];
    assert On(Usable(b.found, cg[i..])) == [ClkOn(cg[i])] + rest;
    assert ([ClkOn(cg[i])] + rest)[1..] == rest;
  }

  lemma OffStep(b: Board, t: Tree, d: Domain, cg: seq<Clk>, i: nat, goal: Tree)
    requires i < |cg| && cg[i] in b.found && OffLeft(b, t, d, cg, i, goal)
    ensures OffLeft(b, Do(b, t, d, ClkOff(cg[i])), d, cg, i + 1, goal)
  {
    var rest := Off(Usable(b.found, cg[i + 1..]));
    assert cg[i..][1..] == cg[i + 1..];
    assert Off(Usable(b.found, cg[i..])) == [ClkOff(cg[i])] + rest;
    assert ([ClkOff(cg[i])] + rest)[1..] == rest;
  }

  lemma OnDone(b: Board, t: Tree, d: Domain, cg: seq<Clk>, i: nat, goal: Tree)
    requires i <= |cg| && (i == |cg| || cg[i] !in b.found) && OnLeft(b, t, d, cg, i, goal)
    ensures t == goal
  {
    assert Usable(b.found, cg[i..]) == [];
  }

  lemma OffDone(b: Board, t: Tree, d: Domain, cg: seq<Clk>, i: nat, goal: Tree)
    requires i <= |cg| && (i == |cg| || cg[i] !in b.found) && OffLeft(b, t, d, cg, i, goal)
    ensures t == goal
  {
    assert Usable(b.found, cg[i..]) == [];
  }

  predicate AftersLeft(b: Board, t: Tree, d: Domain, i: nat, goal: Tree)
    requires i <= |b.cbs|
  {
    Perform(b, t, d, Afters(b.cbs[i..])) == goal
  }

  lemma AftersStep(b: Board, t: Tree, d: Domain, i: nat, goal: Tree)
    requires i < |b.cbs| && AftersLeft(b, t, d, i, goal)
    ensures AftersLeft(b, if b.cbs[i].afterOn then Do(b, t, d, AfterOn(b.cbs[i].id)) else t, d, i + 1, goal)
  {
    var cb, rest := b.cbs[i], Afters(b.cbs[i + 1..]);
    assert b.cbs[i..][1..] == b.cbs[i + 1..];
    if cb.afterOn {
      assert Afters(b.cbs[i..]) == [AfterOn(cb.id)] + rest;
      assert ([AfterOn(cb.id)] + rest)[1..] == rest;
    } else {
      assert Afters(b.cbs[i..]) == rest;
    }
  }

  lemma BeforesStep(b: Board, t: Tree, d: Domain, i: nat)
    requires i < |b.cbs|
    ensures var u := Perform(b, t, d, Befores(b.cbs[i + 1..]));
      Perform(b, t, d, Befores(b.cbs[i..])) ==
      if b.cbs[i].beforeOff then Do(b, u, d, BeforeOff(b.cbs[i].id)) else u
  {
    var rest, cb := Befores(b.cbs[i + 1..]), b.cbs[i];
    assert b.cbs[i..][1..] == b.cbs[i + 1..];
    if cb.beforeOff {
      PerformAppend(b, t, d, rest, [BeforeOff(cb.id)]);
      PerformOne(b, Perform(b, t, d, rest), d, BeforeOff(cb.id));
    } else {
      assert Befores(b.cbs[i..]) == rest;
    }
  }

  /** The driver: its registers, the enable counts of the clocks it uses, its callback list, and (for
      the specification only) its history. The counts of the clock core live in the clock core. */
  class ScpSys {
    const spm: Spm
    var board: Board
    var clks: map<Clk, nat>
    ghost var count: map<Domain, nat>
    ghost var log: seq<Note>
    ghost var rounds: map<Domain, nat>

    constructor (s: Spm, b: Board)
      ensures spm == s && board == b && Model() == Booted(s.ctl)
    {
      spm, board, clks, count, log, rounds := s, b, map[], map[], [], map[];
    }

    ghost function Model(): Tree
      reads this, spm
    {
      Tree(spm.ctl, count, clks, log, rounds)
    }

    /** register_pg_callback: new callbacks go to the head of the list. */
    method RegisterPgCallback(cb: Callback)
      modifies this`board
      ensures board == old(board).(cbs := [cb] + old(board).cbs)
    {
      board := board.(cbs := [cb] + board.cbs);
    }

    method ClkPrepareEnable(d: Domain, c: Clk)
      modifies this`clks, this`log
      ensures Model() == Do(board, old(Model()), d, ClkOn(c))
    {
      clks := clks[c := At(clks, c) + 1];
      log := log + [Note(d, ClkOn(c))];
    }

    method ClkDisableUnprepare(d: Domain, c: Clk)
      modifies this`clks, this`log
      ensures Model() == Do(board, old(Model()), d, ClkOff(c))
    {
      clks := clks[c := if At(clks, c) == 0 then 0 else At(clks, c) - 1];
      log := log + [Note(d, ClkOff(c))];
    }

    /** The clk_prepare_enable loop over one list. */
    method EnableClks(d: Domain, cg: seq<Clk>)
      requires |cg| <= CLK_NUM
      modifies this`clks, this`log
      ensures Model() == Perform(board, old(Model()), d, On(Usable(board.found, cg)))
    {
      ghost var goal := OnStart(board, Model(), d, cg);
      var i := 0;
      while i < CLK_NUM
        invariant i <= |cg|
        invariant OnLeft(board, Model(), d, cg, i, goal)
      {
        if i >= |cg| || cg[i] !in board.found {
          break;
        }
        OnStep(board, Model(), d, cg, i, goal);
        ClkPrepareEnable(d, cg[i]);
        i := i + 1;
      }
      OnDone(board, Model(), d, cg, i, goal);
    }

    /** The clk_disable_unprepare loop over one list. */
    method DisableClks(d: Domain, cg: seq<Clk>)
      requires |cg| <= CLK_NUM
      modifies this`clks, this`log
      ensures Model() == Perform(board, old(Model()), d, Off(Usable(board.found, cg)))
    {
      ghost var goal := OffStart(board, Model(), d, cg);
      var i := 0;
      while i < CLK_NUM
        invariant i <= |cg|
        invariant OffLeft(board, Model(), d, cg, i, goal)
      {
        if i >= |cg| || cg[i] !in board.found {
          break;
        }
        OffStep(board, Model(), d, cg, i, goal);
        ClkDisableUnprepare(d, cg[i]);
        i := i + 1;
      }
      OffDone(board, Model(), d, cg, i, goal);
    }

    /** enable_subsys(id, MTCMOS_PWR). */
    method EnablePower(d: Domain)
      modifies spm, this`log
      ensures Model() == Perform(board, old(Model()), d, [Power(true)])
    {
      PerformOne(board, Model(), d, Power(true));
      spm.Run(OpsOf(board, d).enable);
      log := log + [Note(d, Power(true))];
    }

    /** disable_subsys(id, MTCMOS_PWR). */
    method DisablePower(d: Domain)
      modifies spm, this`log, this`rounds
      ensures Model() == Perform(board, old(Model()), d, [Power(false)])
    {
      PerformOne(board, Model(), d, Power(false));
      spm.Run(OpsOf(board, d).disable);
      log := log + [Note(d, Power(false))];
      rounds := rounds[d := At(rounds, d) + 1];
    }

    /** One callback: nothing of the driver changes. */
    ghost method Call(d: Domain, a: Act)
      requires IsCall(a)
      modifies this`log
      ensures Model() == Do(board, old(Model()), d, a)
    {
      log := log + [Note(d, a)];
    }

    method CallAfterOn(d: Domain)
      modifies this`log
      ensures Model() == Perform(board, old(Model()), d, Afters(board.cbs))
    {
      ghost var goal := Perform(board, Model(), d, Afters(board.cbs));
      assert board.cbs[0..] == board.cbs;
      var i := 0;
      while i < |board.cbs|
        invariant i <= |board.cbs| && AftersLeft(board, Model(), d, i, goal)
      {
        AftersStep(board, Model(), d, i, goal);
        if board.cbs[i].afterOn {
          Call(d, AfterOn(board.cbs[i].id));
        }
        i := i + 1;
      }
      assert board.cbs[i..] == [];
    }

    method CallBeforeOff(d: Domain)
      modifies this`log
      ensures Model() == Perform(board, old(Model()), d, Befores(board.cbs))
    {
      ghost var t := Model();
      var i := |board.cbs|;
      assert board.cbs[i..] == [];
      while i > 0
        invariant i <= |board.cbs|
        invariant Model() == Perform(board, t, d, Befores(board.cbs[i..]))
      {
        i := i - 1;
        BeforesStep(board, t, d, i);
        if board.cbs[i].beforeOff {
          Call(d, BeforeOff(board.cbs[i].id));
        }
      }
      assert board.cbs[0..] == board.cbs;
    }

    /** enable_subsys(id, MTCMOS_BUS_PROT): open the bus, then call after_on along the list. */
    method EnableBus(d: Domain)
      modifies spm, this`log
      ensures Model() == Perform(board, old(Model()), d, [Bus(true)] + Afters(board.cbs))
    {
      PerformOne(board, Model(), d, Bus(true));
      PerformAppend(board, Model(), d, [Bus(true)], Afters(board.cbs));
      spm.Run(OpsOf(board, d).prepare);
      log := log + [Note(d, Bus(true))];
      CallAfterOn(d);
    }

    /** disable_subsys(id, MTCMOS_BUS_PROT): call before_off against the list, then close the bus. */
    method DisableBus(d: Domain)
      modifies spm, this`log
      ensures Model() == Perform(board, old(Model()), d, Befores(board.cbs) + [Bus(false)])
    {
      PerformAppend(board, Model(), d, Befores(board.cbs), [Bus(false)]);
      CallBeforeOff(d);
      PerformOne(board, Model(), d, Bus(false));
      spm.Run(OpsOf(board, d).unprepare);
      log := log + [Note(d, Bus(false))];
    }

    /** pg_prepare. */
    method PgPrepare(d: Domain)
      requires d in board.pre1 ==> |board.pre1[d]| <= CLK_NUM
      requires d in board.pre2 ==> |board.pre2[d]| <= CLK_NUM
      modifies spm, this`clks, this`log
      ensures Model() == PowerTree.PgPrepare(board, old(Model()), d)
    {
      ghost var t := Model();
      var skip := IsOn(spm.ctl, d);
      ghost var power := if skip then [] else [Power(true)];
      ghost var bus := UpBus(board, d, skip);
      PerformAppend(board, t, d, On(Pre1(board, d)), power);
      PerformAppend(board, t, d, On(Pre1(board, d)) + power, On(Pre2(board, d)));
      PerformAppend(board, t, d, On(Pre1(board, d)) + power + On(Pre2(board, d)), bus);
      if d in board.pre1 { EnableClks(d, board.pre1[d]); }
      if !skip { EnablePower(d); }
      if d in board.pre2 { EnableClks(d, board.pre2[d]); }
      if !skip && OpsOf(board, d).hasBus { EnableBus(d); }
    }

    /** pg_unprepare. */
    method PgUnprepare(d: Domain)
      requires d in board.pre1 ==> |board.pre1[d]| <= CLK_NUM
      requires d in board.pre2 ==> |board.pre2[d]| <= CLK_NUM
      modifies spm, this`clks, this`log, this`rounds
      ensures Model() == PowerTree.PgUnprepare(board, old(Model()), d)
    {
      ghost var t := Model();
      var skip := !IsOn(spm.ctl, d);
      ghost var bus := DownBus(board, d, skip);
      ghost var power := if skip then [] else [Power(false)];
      PerformAppend(board, t, d, bus, Off(Pre2(board, d)));
      PerformAppend(board, t, d, bus + Off(Pre2(board, d)), power);
      PerformAppend(board, t, d, bus + Off(Pre2(board, d)) + power, Off(Pre1(board, d)));
      if !skip && OpsOf(board, d).hasBus { DisableBus(d); }
      if d in board.pre2 { DisableClks(d, board.pre2[d]); }
      if !skip { DisablePower(d); }
      if d in board.pre1 { DisableClks(d, board.pre1[d]); }
    }
  }
}
