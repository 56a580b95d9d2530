/** The real power and bus-protect scripts of the thirteen MT6768 domains (clk-mt6768-pg.c), and
    the theorems of PowerScripts instantiated on them. */
module PowerDomains {
  import opened PowerScripts

  /** SRAM_PDN bits of PWR_CON, in the order power-up releases them. */
  function SramBits(d: Domain): seq<nat> {
    match d
    case DPY => [8, 9, 10, 11]
    case CAM => [8, 9]
    case CONN => []
    case MFG_ASYNC => []
    case _ => [8]
  }

  /** Where the SRAM is powered down: with the switches, with bus protection, or (the modem) with
      the switches but unacknowledged. */
  predicate SramWithPower(d: Domain) {
    d.DPY? || d.IFR? || d.MFG_CORE0? || d.MFG_CORE1?
  }

  predicate SramWithBus(d: Domain) {
    d.DIS? || d.MFG? || d.ISP? || d.CAM? || d.VENC? || d.VDEC?
  }

  /** Protect steps in the order power-down sets them. */
  function Protects(d: Domain): seq<Protect> {
    match d
    case MD1 => [Protect(1, ProtectEn, {7}), Protect(2, ProtectEn, {3, 4}), Protect(2, ProtectEn1, {6})]
    case CONN => [Protect(1, ProtectEn, {13}), Protect(1, ProtectEn1, {18}), Protect(2, ProtectEn, {14, 16})]
    case DPY => [Protect(1, ProtectEn, {0, 5, 23, 26}), Protect(1, ProtectEn1, {10, 11, 12, 13, 14, 15, 16, 17}),
                 Protect(2, ProtectEn, {1, 2, 3, 4, 10, 11, 21, 22})]
    case DIS => [Protect(1, ProtectEn1, {19, 20, 30, 31}), Protect(2, ProtectEn1, {16, 17}),
                 Protect(3, ProtectEn, {10, 11}), Protect(4, ProtectEn, {1, 2})]
    case MFG => [Protect(1, ProtectEn, {25}), Protect(2, ProtectEn, {21, 22})]
    case ISP => [Protect(1, ProtectEn1, {20}), Protect(2, SmiClamp, {2})]
    case CAM => [Protect(1, ProtectEn1, {19, 21}), Protect(2, ProtectEn, {20}), Protect(2, SmiClamp, {3})]
    case VENC => [Protect(1, ProtectEn1, {31}), Protect(2, SmiClamp, {4})]
    case VDEC => [Protect(1, ProtectEn1, {30}), Protect(2, SmiClamp, {1})]
    case _ => []
  }

  /** Protect steps in the order power-up releases them. */
  function Releases(d: Domain): seq<Protect> {
    match d
    case MD1 => [Protect(2, ProtectEn, {3, 4}), Protect(2, ProtectEn1, {6}), Protect(1, ProtectEn, {7})]
    case CONN => [Protect(2, ProtectEn, {14, 16}), Protect(1, ProtectEn, {13}), Protect(1, ProtectEn1, {18})]
    case DPY => [Protect(2, ProtectEn, {1, 2, 3, 4, 10, 11, 21, 22}), Protect(1, ProtectEn, {0, 5, 23, 26}),
                 Protect(1, ProtectEn1, {10, 11, 12, 13, 14, 15, 16, 17})]
    case DIS => [Protect(4, ProtectEn, {1, 2}), Protect(3, ProtectEn, {10, 11}),
                 Protect(2, ProtectEn1, {16, 17}), Protect(1, ProtectEn1, {19, 20, 30, 31})]
    case MFG => [Protect(2, ProtectEn, {21, 22}), Protect(1, ProtectEn, {25})]
    case ISP => [Protect(2, SmiClamp, {2}), Protect(1, ProtectEn1, {20})]
    case CAM => [Protect(2, ProtectEn, {20}), Protect(2, SmiClamp, {3}), Protect(1, ProtectEn1, {19, 21})]
    case VENC => [Protect(2, SmiClamp, {4}), Protect(1, ProtectEn1, {31})]
    case VDEC => [Protect(2, SmiClamp, {1}), Protect(1, ProtectEn1, {30})]
    case _ => []
  }

  // ------------------------------------------------------------------ the scripts

  function SramMask(d: Domain): Bits {
    set b | b in SramBits(d)
  }

  function SramDown(d: Domain): Script {
    [Set(PwrCon(d), SramMask(d)), WaitSet(PwrCon(d), SramMask(d))]
  }

  function SramUpBits(d: Domain, bits: seq<nat>): Script {
    if bits == [] then [] else [Clear(PwrCon(d), {bits[0]}), WaitClear(PwrCon(d), {bits[0]})] + SramUpBits(d, bits[1..])
  }

  function SramUp(d: Domain): Script {
    SramUpBits(d, SramBits(d))
  }

  function Isolate(d: Domain): Script {
    [Set(PwrCon(d), {ISO}), Set(PwrCon(d), {CLK_DIS}), Clear(PwrCon(d), {RST_B}),
     Clear(PwrCon(d), {ON}), Clear(PwrCon(d), {ON_2ND}), WaitClear(PwrCon(d), {ON, ON_2ND})]
  }

  function Connect(d: Domain): Script {
    [Set(PwrCon(d), {ON}), Set(PwrCon(d), {ON_2ND}), WaitSet(PwrCon(d), {ON, ON_2ND}),
     Clear(PwrCon(d), {CLK_DIS}), Clear(PwrCon(d), {ISO}), Set(PwrCon(d), {RST_B})]
  }

  const MODEM_ISOLATE: Script :=
    [Set(MdExtraPwr, {0}), Set(PwrCon(MD1), {CLK_DIS}), Set(PwrCon(MD1), {ISO}), Clear(MdSramIso, {0}),
     Set(PwrCon(MD1), {8})]

  const MODEM_SWITCH_OFF: Script :=
    [Clear(PwrCon(MD1), {ON}), Clear(PwrCon(MD1), {ON_2ND}), WaitClear(PwrCon(MD1), {ON, ON_2ND})]

  const MODEM_SWITCH_ON: Script :=
    [Clear(PwrCon(MD1), {RST_B}), Set(PwrCon(MD1), {ON}), Set(PwrCon(MD1), {ON_2ND}),
     WaitSet(PwrCon(MD1), {ON, ON_2ND})]

  const MODEM_RELEASE: Script :=
    [Clear(PwrCon(MD1), {8}), Set(MdSramIso, {0}), Clear(PwrCon(MD1), {ISO}), Clear(PwrCon(MD1), {CLK_DIS}),
     Set(PwrCon(MD1), {RST_B}), Clear(MdExtraPwr, {0})]

  /** spm_mtcmos_ctrl_*_pwr(STA_POWER_DOWN) and (STA_POWER_ON). */
  function PowerDown(d: Domain): Script {
    if d.MD1? then MODEM_ISOLATE + MODEM_SWITCH_OFF else (if SramWithPower(d) then SramDown(d) else []) + Isolate(d)
  }

  function PowerUp(d: Domain): Script {
    if d.MD1? then MODEM_SWITCH_ON + MODEM_RELEASE else Connect(d) + (if SramWithPower(d) then SramUp(d) else [])
  }

  /** spm_mtcmos_ctrl_*_bus_prot(STA_POWER_DOWN) and (STA_POWER_ON). */
  function BusDown(d: Domain): Script {
    SetScript(Protects(d)) + (if SramWithBus(d) then SramDown(d) else [])
  }

  function BusUp(d: Domain): Script {
    (if SramWithBus(d) then SramUp(d) else []) + ReleaseScript(Releases(d))
  }

  predicate HasBus(d: Domain) {
    Protects(d) != []
  }

  /** disable_subsys takes the bus down first; enable_subsys brings it up last. */
  function Down(d: Domain): Script {
    BusDown(d) + PowerDown(d)
  }

  function Up(d: Domain): Script {
    PowerUp(d) + BusUp(d)
  }

  /** The scripts that run for a domain, alone or as a whole power-down or power-up. */
  predicate ScriptOf(d: Domain, script: Script) {
    || script == PowerDown(d) || script == PowerUp(d)
    || script == BusDown(d) || script == BusUp(d)
    || script == Down(d) || script == Up(d)
  }

  // ------------------------------------------------------------------ static facts

  /** Power-down sets protect steps in rising step order. */
  lemma ProtectsRise(d: Domain, i: nat, j: nat)
    requires i < j < |Protects(d)|
    ensures Protects(d)[i].step <= Protects(d)[j].step
  {
  }

  /** Power-up releases them in falling step order. */
  lemma ReleasesFall(d: Domain, i: nat, j: nat)
    requires i < j < |Releases(d)|
    ensures Releases(d)[i].step >= Releases(d)[j].step
  {
  }

  /** What is released is exactly what was set. */
  lemma ReleasesMatch(d: Domain)
    ensures |Releases(d)| == |Protects(d)|
    ensures forall p :: p in Releases(d) <==> p in Protects(d)
  {
    forall p ensures p in Releases(d) <==> p in Protects(d) {
      match d {
        case MD1 => assert p in Protects(d) <==> p == Protects(d)[0] || p == Protects(d)[1] || p == Protects(d)[2];
        case CONN => assert p in Protects(d) <==> p == Protects(d)[0] || p == Protects(d)[1] || p == Protects(d)[2];
        case DPY => assert p in Protects(d) <==> p == Protects(d)[0] || p == Protects(d)[1] || p == Protects(d)[2];
        case CAM => assert p in Protects(d) <==> p == Protects(d)[0] || p == Protects(d)[1] || p == Protects(d)[2];
        case _ =>
      }
    }
  }

  lemma ProtectsShared(d: Domain)
    ensures forall p :: p in Protects(d) || p in Releases(d) ==> p.reg in {ProtectEn, ProtectEn1, SmiClamp}
  {
  }

  lemma HighBits(d: Domain)
    ensures forall i :: 0 <= i < |SramBits(d)| ==> SramBits(d)[i] >= 8
  {
  }

  // ------------------------------------------------------------------ outcomes of the scripts

  lemma IsolateOutcome(d: Domain, b: nat)
    ensures OutcomeOf(Isolate(d), PwrCon(d), b) ==
      if b in {ISO, CLK_DIS} then Raised else if b in {RST_B, ON, ON_2ND} then Lowered else Kept
  {
    var s, c := Isolate(d), PwrCon(d);
    OutcomeCons(s[5], [], c, b);
    OutcomeCons(s[4], [s[5]], c, b);
    OutcomeCons(s[3], [s[4], s[5]], c, b);
    OutcomeCons(s[2], [s[3], s[4], s[5]], c, b);
    OutcomeCons(s[1], [s[2], s[3], s[4], s[5]], c, b);
    OutcomeCons(s[0], [s[1], s[2], s[3], s[4], s[5]], c, b);
  }

  lemma ConnectOutcome(d: Domain, b: nat)
    ensures OutcomeOf(Connect(d), PwrCon(d), b) ==
      if b in {RST_B, ON, ON_2ND} then Raised else if b in {ISO, CLK_DIS} then Lowered else Kept
  {
    var s, c := Connect(d), PwrCon(d);
    OutcomeCons(s[5], [], c, b);
    OutcomeCons(s[4], [s[5]], c, b);
    OutcomeCons(s[3], [s[4], s[5]], c, b);
    OutcomeCons(s[2], [s[3], s[4], s[5]], c, b);
    OutcomeCons(s[1], [s[2], s[3], s[4], s[5]], c, b);
    OutcomeCons(s[0], [s[1], s[2], s[3], s[4], s[5]], c, b);
  }

  lemma ModemDownOutcome(reg: Reg, b: nat)
    ensures OutcomeOf(MODEM_ISOLATE + MODEM_SWITCH_OFF, reg, b) ==
      if reg == PwrCon(MD1) then
        if b in {ISO, CLK_DIS, 8} then Raised else if b in {ON, ON_2ND} then Lowered else Kept
      else if reg.MdExtraPwr? && b == 0 then Raised
      else if reg.MdSramIso? && b == 0 then Lowered
      else Kept
  {
    var s, u := MODEM_ISOLATE, MODEM_SWITCH_OFF;
    OutcomeAppend(s, u, reg, b);
    OutcomeCons(u[2], [], reg, b);
    OutcomeCons(u[1], [u[2]], reg, b);
    OutcomeCons(u[0], [u[1], u[2]], reg, b);
    OutcomeCons(s[4], [], reg, b);
    OutcomeCons(s[3], [s[4]], reg, b);
    OutcomeCons(s[2], [s[3], s[4]], reg, b);
    OutcomeCons(s[1], [s[2], s[3], s[4]], reg, b);
    OutcomeCons(s[0], [s[1], s[2], s[3], s[4]], reg, b);
  }

  lemma ModemUpOutcome(reg: Reg, b: nat)
    ensures OutcomeOf(MODEM_SWITCH_ON + MODEM_RELEASE, reg, b) ==
      if reg == PwrCon(MD1) then
        if b in {RST_B, ON, ON_2ND} then Raised else if b in {ISO, CLK_DIS, 8} then Lowered else Kept
      else if reg.MdExtraPwr? && b == 0 then Lowered
      else if reg.MdSramIso? && b == 0 then Raised
      else Kept
  {
    var s, u := MODEM_SWITCH_ON, MODEM_RELEASE;
    OutcomeAppend(s, u, reg, b);
    OutcomeCons(u[5], [], reg, b);
    OutcomeCons(u[4], [u[5]], reg, b);
    OutcomeCons(u[3], [u[4], u[5]], reg, b);
    OutcomeCons(u[2], [u[3], u[4], u[5]], reg, b);
    OutcomeCons(u[1], [u[2], u[3], u[4], u[5]], reg, b);
    OutcomeCons(u[0], [u[1], u[2], u[3], u[4], u[5]], reg, b);
    OutcomeCons(s[3], [], reg, b);
    OutcomeCons(s[2], [s[3]], reg, b);
    OutcomeCons(s[1], [s[2], s[3]], reg, b);
    OutcomeCons(s[0], [s[1], s[2], s[3]], reg, b);
  }

  lemma SramDownOutcome(d: Domain, reg: Reg, b: nat)
    ensures OutcomeOf(SramDown(d), reg, b) == if reg == PwrCon(d) && b in SramBits(d) then Raised else Kept
  {
    var s := SramDown(d);
    OutcomeCons(s[1], [], reg, b);
    OutcomeCons(s[0], [s[1]], reg, b);
  }

  lemma {:induction false} SramUpOutcome(d: Domain, bits: seq<nat>, reg: Reg, b: nat)
    ensures OutcomeOf(SramUpBits(d, bits), reg, b) == if reg == PwrCon(d) && b in bits then Lowered else Kept
  {
    if bits == [] {
    } else {
      var s := [Clear(PwrCon(d), {bits[0]}), WaitClear(PwrCon(d), {bits[0]})];
      SramUpOutcome(d, bits[1..], reg, b);
      OutcomeAppend(s, SramUpBits(d, bits[1..]), reg, b);
      OutcomeCons(s[1], [], reg, b);
      OutcomeCons(s[0], [s[1]], reg, b);
      assert bits == [bits[0]] + bits[1..];
    }
  }

  /** Whether a row of protect steps names a bit. */
  predicate Names(ps: seq<Protect>, reg: Reg, b: nat) {
    exists p :: p in ps && p.reg == reg && b in p.mask
  }

  lemma {:induction false} SetScriptOutcome(ps: seq<Protect>, reg: Reg, b: nat)
    ensures OutcomeOf(SetScript(ps), reg, b) == if Names(ps, reg, b) then Raised else Kept
  {
    if ps == [] {
    } else {
      var s := [Set(ps[0].reg, ps[0].mask), WaitSet(ps[0].reg, ps[0].mask)];
      SetScriptOutcome(ps[1..], reg, b);
      OutcomeAppend(s, SetScript(ps[1..]), reg, b);
      OutcomeCons(s[1], [], reg, b);
      OutcomeCons(s[0], [s[1]], reg, b);
      assert forall p :: p in ps <==> p == ps[0] || p in ps[1..];
    }
  }

  lemma {:induction false} ReleaseScriptOutcome(ps: seq<Protect>, reg: Reg, b: nat)
    ensures OutcomeOf(ReleaseScript(ps), reg, b) == if Names(ps, reg, b) then Lowered else Kept
  {
    if ps == [] {
    } else {
      ReleaseScriptOutcome(ps[1..], reg, b);
      OutcomeCons(Clear(ps[0].reg, ps[0].mask), ReleaseScript(ps[1..]), reg, b);
      assert forall p :: p in ps <==> p == ps[0] || p in ps[1..];
    }
  }

  // ------------------------------------------------------------------ final register values

  /** The bits of a register a domain's sequences write, shared ones included. */
  predicate InMask(d: Domain, reg: Reg, b: nat) {
    if reg == PwrCon(d) then b in {RST_B, ISO, ON, ON_2ND, CLK_DIS} || b in SramBits(d)
    else if d.MD1? && (reg.MdExtraPwr? || reg.MdSramIso?) then b == 0
    else Names(Protects(d), reg, b)
  }

  /** The domain's bits once it is up: switches on, reset released, everything else of its own
      clear (the modem's SRAM isolation bit is active low). */
  predicate UpBit(d: Domain, reg: Reg, b: nat) {
    if reg == PwrCon(d) then b in {RST_B, ON, ON_2ND} else d.MD1? && reg.MdSramIso? && b == 0
  }

  lemma ConnectOnlyItsCon(d: Domain, reg: Reg, b: nat)
    requires reg != PwrCon(d)
    ensures OutcomeOf(Connect(d), reg, b).Kept?
  {
    OutcomeUntouched(Connect(d), reg, b);
  }

  lemma PowerUpOutcome(d: Domain, reg: Reg, b: nat)
    ensures OutcomeOf(PowerUp(d), reg, b) ==
      if reg == PwrCon(d) then
        if b in {RST_B, ON, ON_2ND} then Raised
        else if b in {ISO, CLK_DIS} || ((d.MD1? || SramWithPower(d)) && b in SramBits(d)) then Lowered
        else Kept
      else if d.MD1? && reg.MdExtraPwr? && b == 0 then Lowered
      else if d.MD1? && reg.MdSramIso? && b == 0 then Raised
      else Kept
  {
    if d.MD1? {
      ModemUpOutcome(reg, b);
    } else {
      SramUpOutcome(d, SramBits(d), reg, b);
      if reg == PwrCon(d) { ConnectOutcome(d, b); } else { ConnectOnlyItsCon(d, reg, b); }
      if SramWithPower(d) {
        OutcomeAppend(Connect(d), SramUp(d), reg, b);
      } else {
        assert PowerUp(d) == Connect(d);
      }
    }
  }

  lemma IsolateOnlyItsCon(d: Domain, reg: Reg, b: nat)
    requires reg != PwrCon(d)
    ensures OutcomeOf(Isolate(d), reg, b).Kept?
  {
    OutcomeUntouched(Isolate(d), reg, b);
  }

  lemma PlainDownOutcome(d: Domain, reg: Reg, b: nat)
    requires !d.MD1?
    ensures OutcomeOf(PowerDown(d), reg, b) ==
      if reg != PwrCon(d) then Kept
      else if b in {ISO, CLK_DIS} then Raised
      else if b in {RST_B, ON, ON_2ND} then Lowered
      else if SramWithPower(d) && b in SramBits(d) then Raised else Kept
  {
    var down := if SramWithPower(d) then SramDown(d) else [];
    OutcomeAppend(down, Isolate(d), reg, b);
    SramDownOutcome(d, reg, b);
    if reg == PwrCon(d) { IsolateOutcome(d, b); } else { IsolateOnlyItsCon(d, reg, b); }
  }

  lemma PowerDownOutcome(d: Domain, reg: Reg, b: nat)
    ensures OutcomeOf(PowerDown(d), reg, b) ==
      if reg == PwrCon(d) then
        if b in {ISO, CLK_DIS} || ((d.MD1? || SramWithPower(d)) && b in SramBits(d)) then Raised
        else if b in {ON, ON_2ND} || (b == RST_B && !d.MD1?) then Lowered
        else Kept
      else if d.MD1? && reg.MdExtraPwr? && b == 0 then Raised
      else if d.MD1? && reg.MdSramIso? && b == 0 then Lowered
      else Kept
  {
    if d.MD1? {
      ModemDownOutcome(reg, b);
    } else {
      HighBits(d);
      PlainDownOutcome(d, reg, b);
    }
  }

  lemma BusUpOutcome(d: Domain, reg: Reg, b: nat)
    ensures OutcomeOf(BusUp(d), reg, b) ==
      if reg == PwrCon(d) then (if SramWithBus(d) && b in SramBits(d) then Lowered else Kept)
      else if Names(Protects(d), reg, b) then Lowered else Kept
  {
    var up := if SramWithBus(d) then SramUp(d) else [];
    OutcomeAppend(up, ReleaseScript(Releases(d)), reg, b);
    SramUpOutcome(d, SramBits(d), reg, b);
    ReleaseScriptOutcome(Releases(d), reg, b);
    ReleasesMatch(d);
    ProtectsShared(d);
  }

  lemma BusDownOutcome(d: Domain, reg: Reg, b: nat)
    ensures OutcomeOf(BusDown(d), reg, b) ==
      if reg == PwrCon(d) then (if SramWithBus(d) && b in SramBits(d) then Raised else Kept)
      else if Names(Protects(d), reg, b) then Raised else Kept
  {
    var down := if SramWithBus(d) then SramDown(d) else [];
    OutcomeAppend(SetScript(Protects(d)), down, reg, b);
    SramDownOutcome(d, reg, b);
    SetScriptOutcome(Protects(d), reg, b);
    ProtectsShared(d);
  }

  /** Powering a domain up ends in one canonical word from any starting registers whatsoever: its
      switches on and reset released; its isolation, clock-disable, SRAM, protect and clamp bits
      clear; and every bit outside its masks, in every register, as it was. */
  lemma UpIsCanonical(r: Regs, d: Domain, reg: Reg, b: nat)
    ensures b in Get(Exec(r, Up(d)), reg) <==>
      if InMask(d, reg, b) then UpBit(d, reg, b) else b in Get(r, reg)
  {
    OutcomeAppend(PowerUp(d), BusUp(d), reg, b);
    PowerUpOutcome(d, reg, b);
    BusUpOutcome(d, reg, b);
    ProtectsShared(d);
    ExecOutcome(r, Up(d), reg, b);
  }

  /** Powering down is as canonical: isolated, clock disabled, reset held, SRAM down, switches off
      and bus protected; except that the modem keeps its reset bit as it was. */
  lemma DownIsCanonical(r: Regs, d: Domain, reg: Reg, b: nat)
    ensures b in Get(Exec(r, Down(d)), reg) <==>
      if reg == PwrCon(d) then
        if b == RST_B then d.MD1? && b in Get(r, reg)
        else if b in {ON, ON_2ND} then false
        else b in {ISO, CLK_DIS} || b in SramBits(d) || b in Get(r, reg)
      else if d.MD1? && reg.MdSramIso? && b == 0 then false
      else InMask(d, reg, b) || b in Get(r, reg)
  {
    OutcomeAppend(BusDown(d), PowerDown(d), reg, b);
    PowerDownOutcome(d, reg, b);
    BusDownOutcome(d, reg, b);
    ProtectsShared(d);
    ExecOutcome(r, Down(d), reg, b);
  }

  /** A power cycle ends where a plain power-up would; so for a domain whose own bits already are
      as power-up leaves them it is the identity on that bit of that register. */
  lemma PowerCycle(r: Regs, d: Domain, reg: Reg, b: nat)
    ensures b in Get(Exec(r, Down(d) + Up(d)), reg) <==>
      if InMask(d, reg, b) then UpBit(d, reg, b) else b in Get(r, reg)
    ensures (InMask(d, reg, b) ==> (b in Get(r, reg) <==> UpBit(d, reg, b))) ==>
      (b in Get(Exec(r, Down(d) + Up(d)), reg) <==> b in Get(r, reg))
  {
    ExecAppend(r, Down(d), Up(d));
    UpIsCanonical(Exec(r, Down(d)), d, reg, b);
    if !InMask(d, reg, b) {
      DownIsCanonical(r, d, reg, b);
    }
  }

  /** Where power-down leaves reset released: every domain ends with both switches off, and with its
      reset bit still set exactly if it is the modem and the bit was set before. */
  lemma ResetStaysReleased(r: Regs, d: Domain)
    ensures var con := Get(Exec(r, Down(d)), PwrCon(d));
      ON !in con && ON_2ND !in con && (RST_B in con <==> d.MD1? && RST_B in Get(r, PwrCon(d)))
  {
    DownIsCanonical(r, d, PwrCon(d), RST_B);
    DownIsCanonical(r, d, PwrCon(d), ON);
    DownIsCanonical(r, d, PwrCon(d), ON_2ND);
  }

  /** So a modem that has been powered up ends every power-down with its reset released. */
  lemma ModemResetStaysReleased(r: Regs)
    ensures var con := Get(Exec(Exec(r, Up(MD1)), Down(MD1)), PwrCon(MD1));
      RST_B in con && ON !in con && ON_2ND !in con
  {
    UpIsCanonical(r, MD1, PwrCon(MD1), RST_B);
    ResetStaysReleased(Exec(r, Up(MD1)), MD1);
  }

  // ------------------------------------------------------------------ safety at every write

  lemma IsolateAccepted(d: Domain, k: Known)
    ensures Accepted(d, Isolate(d), k)
  {
    var s := Isolate(d);
    var k1 := Learn(d, s[0], k);
    var k2 := Learn(d, s[1], k1);
    var k3 := Learn(d, s[2], k2);
    var k4 := Learn(d, s[3], k3);
    var k5 := Learn(d, s[4], k4);
    assert k3.iso && k3.reset && k4.iso && k4.reset;
    assert s[6..] == [];
    AcceptedFrom(d, s, 5, k5);
    AcceptedFrom(d, s, 4, k4);
    AcceptedFrom(d, s, 3, k3);
    AcceptedFrom(d, s, 2, k2);
    AcceptedFrom(d, s, 1, k1);
    AcceptedFrom(d, s, 0, k);
    assert s[0..] == s;
  }

  lemma ConnectAccepted(d: Domain, k: Known)
    ensures Accepted(d, Connect(d), k)
  {
    var s := Connect(d);
    var k1 := Learn(d, s[0], k);
    var k2 := Learn(d, s[1], k1);
    var k3 := Learn(d, s[2], k2);
    var k4 := Learn(d, s[3], k3);
    var k5 := Learn(d, s[4], k4);
    assert k3.on && k3.on2 && k3.acked && k4.acked && k5.on && k5.on2;
    assert s[6..] == [];
    AcceptedFrom(d, s, 5, k5);
    AcceptedFrom(d, s, 4, k4);
    AcceptedFrom(d, s, 3, k3);
    AcceptedFrom(d, s, 2, k2);
    AcceptedFrom(d, s, 1, k1);
    AcceptedFrom(d, s, 0, k);
    assert s[0..] == s;
  }

  lemma ModemIsolateAccepted(k: Known)
    ensures Accepted(MD1, MODEM_ISOLATE, k) && LearnAll(MD1, MODEM_ISOLATE, k).iso
  {
    var s := MODEM_ISOLATE;
    var k1 := Learn(MD1, s[0], k);
    var k2 := Learn(MD1, s[1], k1);
    var k3 := Learn(MD1, s[2], k2);
    var k4 := Learn(MD1, s[3], k3);
    AcceptedCons(MD1, s[4], [], k4);
    AcceptedCons(MD1, s[3], [s[4]], k3);
    AcceptedCons(MD1, s[2], [s[3], s[4]], k2);
    AcceptedCons(MD1, s[1], [s[2], s[3], s[4]], k1);
    AcceptedCons(MD1, s[0], [s[1], s[2], s[3], s[4]], k);
  }

  lemma ModemSwitchOffAccepted(k: Known)
    requires k.iso
    ensures Accepted(MD1, MODEM_SWITCH_OFF, k)
  {
    var s := MODEM_SWITCH_OFF;
    var k1 := Learn(MD1, s[0], k);
    AcceptedCons(MD1, s[2], [], Learn(MD1, s[1], k1));
    AcceptedCons(MD1, s[1], [s[2]], k1);
    AcceptedCons(MD1, s[0], [s[1], s[2]], k);
  }

  lemma ModemSwitchOnAccepted(k: Known)
    ensures Accepted(MD1, MODEM_SWITCH_ON, k) && LearnAll(MD1, MODEM_SWITCH_ON, k).acked
  {
    var s := MODEM_SWITCH_ON;
    var k1 := Learn(MD1, s[0], k);
    var k2 := Learn(MD1, s[1], k1);
    var k3 := Learn(MD1, s[2], k2);
    AcceptedCons(MD1, s[3], [], k3);
    AcceptedCons(MD1, s[2], [s[3]], k2);
    AcceptedCons(MD1, s[1], [s[2], s[3]], k1);
    AcceptedCons(MD1, s[0], [s[1], s[2], s[3]], k);
  }

  /** The end of the modem's release asks for nothing. */
  lemma ModemRunAccepted(k: Known)
    ensures Accepted(MD1, MODEM_RELEASE[3..], k)
  {
    var s := MODEM_RELEASE;
    var k4 := Learn(MD1, s[3], k);
    assert s[6..] == [];
    AcceptedFrom(MD1, s, 5, Learn(MD1, s[4], k4));
    AcceptedFrom(MD1, s, 4, k4);
    AcceptedFrom(MD1, s, 3, k);
  }

  lemma ModemReleaseAccepted(k: Known)
    requires k.acked
    ensures Accepted(MD1, MODEM_RELEASE, k)
  {
    var s := MODEM_RELEASE;
    var k1 := Learn(MD1, s[0], k);
    var k2 := Learn(MD1, s[1], k1);
    ModemRunAccepted(Learn(MD1, s[2], k2));
    AcceptedFrom(MD1, s, 2, k2);
    AcceptedFrom(MD1, s, 1, k1);
    AcceptedFrom(MD1, s, 0, k);
    assert s[0..] == s;
  }

  lemma BusSpares(d: Domain)
    ensures Spared(d, BusDown(d)) && Spared(d, BusUp(d))
  {
    HighBits(d);
    BusSparesBit(d, RST_B);
    BusSparesBit(d, ISO);
    BusSparesBit(d, ON);
    BusSparesBit(d, ON_2ND);
  }

  lemma BusSparesBit(d: Domain, b: nat)
    requires b < 8
    ensures OutcomeOf(BusDown(d), PwrCon(d), b).Kept? && OutcomeOf(BusUp(d), PwrCon(d), b).Kept?
  {
    HighBits(d);
    BusDownOutcome(d, PwrCon(d), b);
    BusUpOutcome(d, PwrCon(d), b);
  }

  lemma SramSparesBit(d: Domain, b: nat)
    requires b < 8
    ensures OutcomeOf(SramDown(d), PwrCon(d), b).Kept? && OutcomeOf(SramUp(d), PwrCon(d), b).Kept?
  {
    HighBits(d);
    SramDownOutcome(d, PwrCon(d), b);
    SramUpOutcome(d, SramBits(d), PwrCon(d), b);
  }

  lemma SramSpares(d: Domain)
    ensures Spared(d, SramDown(d)) && Spared(d, SramUp(d)) && Spared(d, [])
  {
    SramSparesBit(d, RST_B);
    SramSparesBit(d, ISO);
    SramSparesBit(d, ON);
    SramSparesBit(d, ON_2ND);
  }

  lemma BusAccepted(d: Domain, k: Known)
    ensures Accepted(d, BusDown(d), k) && Accepted(d, BusUp(d), k)
  {
    BusSpares(d);
    SparedAccepted(d, BusDown(d), k);
    SparedAccepted(d, BusUp(d), k);
  }

  lemma ModemAccepted(k: Known)
    ensures Accepted(MD1, PowerDown(MD1), k) && Accepted(MD1, PowerUp(MD1), k)
  {
    ModemIsolateAccepted(k);
    ModemSwitchOffAccepted(LearnAll(MD1, MODEM_ISOLATE, k));
    AcceptedAppend(MD1, MODEM_ISOLATE, MODEM_SWITCH_OFF, k);
    ModemSwitchOnAccepted(k);
    ModemReleaseAccepted(LearnAll(MD1, MODEM_SWITCH_ON, k));
    AcceptedAppend(MD1, MODEM_SWITCH_ON, MODEM_RELEASE, k);
  }

  lemma PowerDownAccepted(d: Domain, k: Known)
    ensures Accepted(d, PowerDown(d), k)
  {
    if d.MD1? {
      ModemAccepted(k);
    } else {
      SramSpares(d);
      var down := if SramWithPower(d) then SramDown(d) else [];
      SparedAccepted(d, down, k);
      IsolateAccepted(d, LearnAll(d, down, k));
      AcceptedAppend(d, down, Isolate(d), k);
    }
  }

  lemma PowerUpAccepted(d: Domain, k: Known)
    ensures Accepted(d, PowerUp(d), k)
  {
    if d.MD1? {
      ModemAccepted(k);
    } else {
      SramSpares(d);
      var up := if SramWithPower(d) then SramUp(d) else [];
      ConnectAccepted(d, k);
      SparedAccepted(d, up, LearnAll(d, Connect(d), k));
      AcceptedAppend(d, Connect(d), up, k);
    }
  }

  /** Every script of every domain, from any safe state and with any hardware timing: at every
      single write, isolation is off only while both switches are on and acknowledged, and (except
      on the modem) reset is released only while both switches are on. */
  lemma EveryWriteSafe(d: Domain, script: Script, t: seq<Hw>)
    requires ScriptOf(d, script)
    requires IsTrace(script, t) && Safe(d, t[0])
    ensures forall i :: 0 <= i < |t| ==> Safe(d, t[i])
  {
    BusAccepted(d, NOTHING);
    PowerDownAccepted(d, NOTHING);
    PowerUpAccepted(d, NOTHING);
    PowerDownAccepted(d, LearnAll(d, BusDown(d), NOTHING));
    BusAccepted(d, LearnAll(d, PowerUp(d), NOTHING));
    AcceptedAppend(d, BusDown(d), PowerDown(d), NOTHING);
    AcceptedAppend(d, PowerUp(d), BusUp(d), NOTHING);
    AcceptedSafe(d, script, NOTHING, t);
  }

  // ------------------------------------------------------------------ frame at every write

  lemma ScriptKeeps(d: Domain, script: Script, reg: Reg, b: nat)
    requires ScriptOf(d, script) && !InMask(d, reg, b)
    ensures OutcomeOf(script, reg, b).Kept?
  {
    PowerUpOutcome(d, reg, b);
    PowerDownOutcome(d, reg, b);
    BusUpOutcome(d, reg, b);
    BusDownOutcome(d, reg, b);
    OutcomeAppend(BusDown(d), PowerDown(d), reg, b);
    OutcomeAppend(PowerUp(d), BusUp(d), reg, b);
  }

  /** While any of a domain's scripts runs, no write ever touches a bit outside the domain's masks,
      whatever the starting registers. */
  lemma FrameAtEveryWrite(d: Domain, script: Script, t: seq<Hw>, i: nat, reg: Reg, b: nat)
    requires ScriptOf(d, script)
    requires IsTrace(script, t) && i < |t| && !InMask(d, reg, b)
    ensures b in Get(t[i].ctl, reg) <==> b in Get(t[0].ctl, reg)
  {
    ScriptKeeps(d, script, reg, b);
    KeptAtEveryStep(script, t, i, reg, b);
  }

  // ------------------------------------------------------------------ the order inside a sequence

  /** On the way down: isolated before its clock is stopped, before its reset is held, before the first switch
      goes, before the second. */
  predicate DownChain(con: Bits) {
    && (CLK_DIS in con ==> ISO in con)
    && (RST_B !in con ==> CLK_DIS in con)
    && (ON !in con ==> RST_B !in con)
    && (ON_2ND !in con ==> ON !in con)
  }

  /** On the way up: first switch, second switch, clock, isolation, reset. */
  predicate UpChain(con: Bits) {
    && (ON_2ND in con ==> ON in con)
    && (CLK_DIS !in con ==> ON_2ND in con)
    && (ISO !in con ==> CLK_DIS !in con)
    && (RST_B in con ==> ISO !in con)
  }

  /** Whatever the hardware's timing, a running domain is taken down in this order. */
  lemma IsolateInOrder(d: Domain, t: seq<Hw>, i: nat)
    requires IsTrace(Isolate(d), t) && i < |t|
    requires {RST_B, ON, ON_2ND} <= Get(t[0].ctl, PwrCon(d)) && {ISO, CLK_DIS} !! Get(t[0].ctl, PwrCon(d))
    ensures DownChain(Get(t[i].ctl, PwrCon(d)))
  {
    var s := Isolate(d);
    assert StepRel(s[0], t[0], t[1]) && StepRel(s[1], t[1], t[2]) && StepRel(s[2], t[2], t[3]);
    assert StepRel(s[3], t[3], t[4]) && StepRel(s[4], t[4], t[5]) && StepRel(s[5], t[5], t[6]);
  }

  /** And a domain that is down is brought up in this order. */
  lemma ConnectInOrder(d: Domain, t: seq<Hw>, i: nat)
    requires IsTrace(Connect(d), t) && i < |t|
    requires {ISO, CLK_DIS} <= Get(t[0].ctl, PwrCon(d)) && {RST_B, ON, ON_2ND} !! Get(t[0].ctl, PwrCon(d))
    ensures UpChain(Get(t[i].ctl, PwrCon(d)))
  {
    var s := Connect(d);
    assert StepRel(s[0], t[0], t[1]) && StepRel(s[1], t[1], t[2]) && StepRel(s[2], t[2], t[3]);
    assert StepRel(s[3], t[3], t[4]) && StepRel(s[4], t[4], t[5]) && StepRel(s[5], t[5], t[6]);
  }

  /** The modem's own order on the way down: clock, isolation, SRAM, switches. */
  predicate ModemDownChain(con: Bits) {
    && (ISO in con ==> CLK_DIS in con)
    && (8 in con ==> ISO in con)
    && (ON !in con ==> 8 in con)
    && (ON_2ND !in con ==> ON !in con)
  }

  /** And on the way up: switches, SRAM, isolation, clock, reset. */
  predicate ModemUpChain(con: Bits) {
    && (ON_2ND in con ==> ON in con)
    && (8 !in con ==> ON_2ND in con)
    && (ISO !in con ==> 8 !in con)
    && (CLK_DIS !in con ==> ISO !in con)
    && (RST_B in con ==> CLK_DIS !in con)
  }

  lemma ModemIsolateInOrder(t: seq<Hw>, i: nat)
    requires IsTrace(MODEM_ISOLATE, t) && i < |t|
    requires {ON, ON_2ND} <= Get(t[0].ctl, PwrCon(MD1)) && {ISO, CLK_DIS, 8} !! Get(t[0].ctl, PwrCon(MD1))
    ensures ModemDownChain(Get(t[i].ctl, PwrCon(MD1)))
    ensures {ISO, CLK_DIS, 8, ON, ON_2ND} <= Get(t[5].ctl, PwrCon(MD1))
  {
    var s := MODEM_ISOLATE;
    assert StepRel(s[0], t[0], t[1]) && StepRel(s[1], t[1], t[2]) && StepRel(s[2], t[2], t[3]);
    assert StepRel(s[3], t[3], t[4]) && StepRel(s[4], t[4], t[5]);
  }

  lemma ModemSwitchOffInOrder(t: seq<Hw>, i: nat)
    requires IsTrace(MODEM_SWITCH_OFF, t) && i < |t|
    requires {ISO, CLK_DIS, 8, ON, ON_2ND} <= Get(t[0].ctl, PwrCon(MD1))
    ensures ModemDownChain(Get(t[i].ctl, PwrCon(MD1)))
  {
    var s := MODEM_SWITCH_OFF;
    assert StepRel(s[0], t[0], t[1]) && StepRel(s[1], t[1], t[2]) && StepRel(s[2], t[2], t[3]);
  }

  lemma ModemSwitchOnInOrder(t: seq<Hw>, i: nat)
    requires IsTrace(MODEM_SWITCH_ON, t) && 1 <= i < |t|
    requires {ISO, CLK_DIS, 8} <= Get(t[0].ctl, PwrCon(MD1)) && {ON, ON_2ND} !! Get(t[0].ctl, PwrCon(MD1))
    ensures ModemUpChain(Get(t[i].ctl, PwrCon(MD1)))
    ensures {ISO, CLK_DIS, 8, ON, ON_2ND} <= Get(t[4].ctl, PwrCon(MD1)) && RST_B !in Get(t[4].ctl, PwrCon(MD1))
  {
    var s := MODEM_SWITCH_ON;
    assert StepRel(s[0], t[0], t[1]) && StepRel(s[1], t[1], t[2]);
    assert StepRel(s[2], t[2], t[3]) && StepRel(s[3], t[3], t[4]);
  }

  lemma ModemUnisolate(t: seq<Hw>, i: nat)
    requires IsTrace(MODEM_RELEASE[..3], t) && i < |t|
    requires {ISO, CLK_DIS, 8, ON, ON_2ND} <= Get(t[0].ctl, PwrCon(MD1)) && RST_B !in Get(t[0].ctl, PwrCon(MD1))
    ensures ModemUpChain(Get(t[i].ctl, PwrCon(MD1)))
    ensures {CLK_DIS, ON, ON_2ND} <= Get(t[3].ctl, PwrCon(MD1)) && {RST_B, ISO, 8} !! Get(t[3].ctl, PwrCon(MD1))
  {
    var s := MODEM_RELEASE;
    assert StepRel(s[0], t[0], t[1]) && StepRel(s[1], t[1], t[2]) && StepRel(s[2], t[2], t[3]);
  }

  lemma ModemUnreset(t: seq<Hw>, i: nat)
    requires IsTrace(MODEM_RELEASE[3..], t) && i < |t|
    requires {CLK_DIS, ON, ON_2ND} <= Get(t[0].ctl, PwrCon(MD1)) && {RST_B, ISO, 8} !! Get(t[0].ctl, PwrCon(MD1))
    ensures ModemUpChain(Get(t[i].ctl, PwrCon(MD1)))
  {
    var s := MODEM_RELEASE[3..];
    assert StepRel(s[0], t[0], t[1]) && StepRel(s[1], t[1], t[2]) && StepRel(s[2], t[2], t[3]);
  }

  lemma ModemReleaseInOrder(t: seq<Hw>, i: nat)
    requires IsTrace(MODEM_RELEASE, t) && i < |t|
    requires {ISO, CLK_DIS, 8, ON, ON_2ND} <= Get(t[0].ctl, PwrCon(MD1)) && RST_B !in Get(t[0].ctl, PwrCon(MD1))
    ensures ModemUpChain(Get(t[i].ctl, PwrCon(MD1)))
  {
    assert MODEM_RELEASE == MODEM_RELEASE[..3] + MODEM_RELEASE[3..];
    TraceSplit(MODEM_RELEASE[..3], MODEM_RELEASE[3..], t);
    ModemUnisolate(t[..4], if i <= 3 then i else 3);
    ModemUnreset(t[3..], if i <= 3 then 0 else i - 3);
  }

  /** The modem, whose sequences are its own, in both directions and with any timing. */
  lemma ModemInOrder(t: seq<Hw>, u: seq<Hw>, i: nat, j: nat)
    requires IsTrace(PowerDown(MD1), t) && i < |t| && IsTrace(PowerUp(MD1), u) && 1 <= j < |u|
    requires {ON, ON_2ND} <= Get(t[0].ctl, PwrCon(MD1)) && {ISO, CLK_DIS, 8} !! Get(t[0].ctl, PwrCon(MD1))
    requires {ISO, CLK_DIS, 8} <= Get(u[0].ctl, PwrCon(MD1)) && {ON, ON_2ND} !! Get(u[0].ctl, PwrCon(MD1))
    ensures ModemDownChain(Get(t[i].ctl, PwrCon(MD1))) && ModemUpChain(Get(u[j].ctl, PwrCon(MD1)))
  {
    var m, n := |MODEM_ISOLATE|, |MODEM_SWITCH_ON|;
    TraceSplit(MODEM_ISOLATE, MODEM_SWITCH_OFF, t);
    ModemIsolateInOrder(t[..m + 1], if i <= m then i else m);
    ModemSwitchOffInOrder(t[m..], if i <= m then 0 else i - m);
    TraceSplit(MODEM_SWITCH_ON, MODEM_RELEASE, u);
    ModemSwitchOnInOrder(u[..n + 1], if j <= n then j else n);
    ModemReleaseInOrder(u[n..], if j <= n then 0 else j - n);
  }

  lemma BusLeavesCon(d: Domain, b: nat)
    requires b < 8
    ensures OutcomeOf(BusDown(d), PwrCon(d), b).Kept? && OutcomeOf(BusUp(d), PwrCon(d), b).Kept?
  {
    BusSparesBit(d, b);
  }

  lemma PowerLeavesProtect(d: Domain, p: Protect, b: nat)
    requires p in Protects(d) && b in p.mask
    ensures OutcomeOf(PowerDown(d), p.reg, b).Kept? && OutcomeOf(PowerUp(d), p.reg, b).Kept?
  {
    ProtectsShared(d);
    PowerDownOutcome(d, p.reg, b);
    PowerUpOutcome(d, p.reg, b);
  }

  /** The whole way down, with any timing: a domain is isolated only once its whole bus is protected. */
  lemma ProtectedBeforeIsolated(d: Domain, t: seq<Hw>, i: nat, p: Protect, b: nat)
    requires IsTrace(Down(d), t) && i < |t| && ISO !in Get(t[0].ctl, PwrCon(d)) && p in Protects(d) && b in p.mask
    ensures ISO in Get(t[i].ctl, PwrCon(d)) ==> b in Get(t[i].ctl, p.reg)
  {
    var n := |BusDown(d)|;
    TraceSplit(BusDown(d), PowerDown(d), t);
    if i <= n {
      BusLeavesCon(d, ISO);
      KeptAtEveryStep(BusDown(d), t[..n + 1], i, PwrCon(d), ISO);
    } else {
      TraceControls(BusDown(d), t[..n + 1]);
      ProtectsShared(d);
      BusDownOutcome(d, p.reg, b);
      ExecOutcome(t[0].ctl, BusDown(d), p.reg, b);
      PowerLeavesProtect(d, p, b);
      KeptAtEveryStep(PowerDown(d), t[n..], i - n, p.reg, b);
    }
  }

  /** The whole way up: a protect bit is released only once the domain is out of isolation and reset. */
  lemma ReleasedAfterConnected(d: Domain, t: seq<Hw>, i: nat, p: Protect, b: nat)
    requires IsTrace(Up(d), t) && i < |t| && p in Protects(d) && b in p.mask && b in Get(t[0].ctl, p.reg)
    ensures b !in Get(t[i].ctl, p.reg) ==> ISO !in Get(t[i].ctl, PwrCon(d)) && RST_B in Get(t[i].ctl, PwrCon(d))
  {
    var n := |PowerUp(d)|;
    TraceSplit(PowerUp(d), BusUp(d), t);
    if i <= n {
      PowerLeavesProtect(d, p, b);
      KeptAtEveryStep(PowerUp(d), t[..n + 1], i, p.reg, b);
    } else {
      TraceControls(PowerUp(d), t[..n + 1]);
      UpTo(d, t[0].ctl, t[n].ctl, ISO);
      UpTo(d, t[0].ctl, t[n].ctl, RST_B);
      BusLeavesCon(d, ISO);
      BusLeavesCon(d, RST_B);
      KeptAtEveryStep(BusUp(d), t[n..], i - n, PwrCon(d), ISO);
      KeptAtEveryStep(BusUp(d), t[n..], i - n, PwrCon(d), RST_B);
    }
  }

  lemma UpTo(d: Domain, r: Regs, r': Regs, b: nat)
    requires r' == Exec(r, PowerUp(d)) && b in {ISO, RST_B}
    ensures b in Get(r', PwrCon(d)) <==> b == RST_B
  {
    PowerUpOutcome(d, PwrCon(d), b);
    ExecOutcome(r, PowerUp(d), PwrCon(d), b);
  }

  /** Powering SRAM down waits for all of its acknowledges. */
  lemma SramDownAcked(d: Domain, t: seq<Hw>)
    requires IsTrace(SramDown(d), t)
    ensures SramMask(d) <= Get(t[|t| - 1].ctl, PwrCon(d)) && SramMask(d) <= Get(t[|t| - 1].ack, PwrCon(d))
  {
    var s := SramDown(d);
    assert StepRel(s[0], t[0], t[1]) && StepRel(s[1], t[1], t[2]);
  }

  /** Releasing it goes bit by bit: each is released only when those before it have stopped acknowledging. */
  lemma {:induction false} SramUpAcked(d: Domain, bits: seq<nat>, t: seq<Hw>, i: nat, j: nat)
    requires IsTrace(SramUpBits(d, bits), t) && i < j <= |bits|
    ensures |SramUpBits(d, bits)| == 2 * |bits|
    ensures bits[i] !in Get(t[2 * j].ctl, PwrCon(d)) && bits[i] !in Get(t[2 * j].ack, PwrCon(d))
    decreases |bits|
  {
    var s := SramUpBits(d, bits);
    SramUpLength(d, bits);
    assert s[..2] + s[2..] == s && s[2..] == SramUpBits(d, bits[1..]);
    assert StepRel(s[0], t[0], t[1]) && StepRel(s[1], t[1], t[2]);
    TraceSplit(s[..2], s[2..], t);
    if i == 0 {
      SramStaysUp(d, bits[1..], bits[0], t[2..], 2 * (j - 1));
    } else {
      SramUpAcked(d, bits[1..], t[2..], i - 1, j - 1);
    }
  }

  lemma {:induction false} SramUpLength(d: Domain, bits: seq<nat>)
    ensures |SramUpBits(d, bits)| == 2 * |bits|
    ensures forall s :: s in SramUpBits(d, bits) ==> s.Clear? || s.WaitClear?
  {
    if bits == [] {
    } else {
      SramUpLength(d, bits[1..]);
    }
  }

  lemma {:induction false} SramStaysUp(d: Domain, bits: seq<nat>, b: nat, t: seq<Hw>, k: nat)
    requires IsTrace(SramUpBits(d, bits), t) && k < |t|
    requires b !in Get(t[0].ctl, PwrCon(d)) && b !in Get(t[0].ack, PwrCon(d))
    ensures b !in Get(t[k].ctl, PwrCon(d)) && b !in Get(t[k].ack, PwrCon(d))
    decreases k
  {
    if k == 0 {
    } else {
      SramStaysUp(d, bits, b, t, k - 1);
      SramUpLength(d, bits);
      var s := SramUpBits(d, bits)[k - 1];
      assert s in SramUpBits(d, bits) && StepRel(s, t[k - 1], t[k]);
    }
  }

  /** Which SRAM bits a domain has, and with what they go down: with the switches on five domains, with the
      bus on six; two have none. */
  lemma SramStages(d: Domain, b: nat)
    requires b >= 8
    ensures OutcomeOf(PowerDown(d), PwrCon(d), b).Raised? <==>
      (d in {MD1, IFR, MFG_CORE0, MFG_CORE1} && b == 8) || (d == DPY && b in {8, 9, 10, 11})
    ensures OutcomeOf(BusDown(d), PwrCon(d), b).Raised? <==>
      (d in {DIS, MFG, ISP, VENC, VDEC} && b == 8) || (d == CAM && b in {8, 9})
  {
    PowerDownOutcome(d, PwrCon(d), b);
    BusDownOutcome(d, PwrCon(d), b);
  }

  // ------------------------------------------------------------------ the order of protect steps

  /** While a domain's bus is taken down, with any hardware timing: when the j-th protect step is about to
      be written every step before it, which has no higher number, is set and acknowledged; and when the
      SRAM is touched all are. */
  lemma BusDownInOrder(d: Domain, t: seq<Hw>, i: nat, j: nat)
    requires IsTrace(BusDown(d), t) && i < j <= |Protects(d)|
    ensures 2 * j < |t| && SetAndAcked(Protects(d)[i], t[2 * j])
    ensures j < |Protects(d)| ==> Protects(d)[i].step <= Protects(d)[j].step
  {
    var ps := Protects(d);
    var sets := SetScript(ps);
    TraceSplit(sets, if SramWithBus(d) then SramDown(d) else [], t);
    SetScriptShape(ps);
    ProtectInOrder(ps, t[..|sets| + 1], j, i);
    if j < |ps| { ProtectsRise(d, i, j); }
  }

  /** While it is brought up, the same steps are released in the opposite order of their numbers: when the
      j-th is about to be released every one released before it has no lower number and is clear. */
  lemma BusUpInOrder(d: Domain, t: seq<Hw>, i: nat, j: nat)
    requires IsTrace(BusUp(d), t) && i < j <= |Releases(d)|
    ensures |Releases(d)| == |Protects(d)| && forall p :: p in Releases(d) <==> p in Protects(d)
    ensures var sram := if SramWithBus(d) then |SramUp(d)| else 0;
      sram + j < |t| && Releases(d)[i].mask !! Get(t[sram + j].ctl, Releases(d)[i].reg)
    ensures j < |Releases(d)| ==> Releases(d)[i].step >= Releases(d)[j].step
  {
    var ps := Releases(d);
    var sram := if SramWithBus(d) then SramUp(d) else [];
    ReleasesMatch(d);
    TraceSplit(sram, ReleaseScript(ps), t);
    ReleaseScriptShape(ps);
    ReleaseInOrder(ps, t[|sram|..], j, i);
    if j < |ps| { ReleasesFall(d, i, j); }
  }

  // ------------------------------------------------------------------ shared protect bits

  /** The domains whose protect steps name a bit. */
  function Owners(reg: Reg, b: nat): set<Domain> {
    match reg
    case ProtectEn =>
      if b in {1, 2, 10, 11} then {DPY, DIS}
      else if b in {3, 4} then {DPY, MD1}
      else if b in {21, 22} then {DPY, MFG}
      else if b in {0, 5, 23, 26} then {DPY}
      else if b == 7 then {MD1}
      else if b in {13, 14, 16} then {CONN}
      else if b == 20 then {CAM}
      else if b == 25 then {MFG}
      else {}
    case ProtectEn1 =>
      if b in {16, 17} then {DPY, DIS}
      else if b in {10, 11, 12, 13, 14, 15} then {DPY}
      else if b == 6 then {MD1}
      else if b == 18 then {CONN}
      else if b == 19 then {DIS, CAM}
      else if b == 20 then {DIS, ISP}
      else if b == 21 then {CAM}
      else if b == 30 then {DIS, VDEC}
      else if b == 31 then {DIS, VENC}
      else {}
    case SmiClamp =>
      if b == 1 then {VDEC} else if b == 2 then {ISP} else if b == 3 then {CAM} else if b == 4 then {VENC} else {}
    case _ => {}
  }

  lemma StepOwned(d: Domain, i: nat, reg: Reg, b: nat)
    requires i < |Protects(d)| && Protects(d)[i].reg == reg && b in Protects(d)[i].mask
    ensures d in Owners(reg, b)
  {
  }

  /** Which of a domain's protect steps names a bit. */
  function StepFor(d: Domain, reg: Reg, b: nat): nat {
    match d
    case MD1 => if b == 7 then 0 else if reg.ProtectEn? then 1 else 2
    case CONN => if reg.ProtectEn1? then 1 else if b == 13 then 0 else 2
    case DPY => if reg.ProtectEn1? then 1 else if b in {0, 5, 23, 26} then 0 else 2
    case DIS => if reg.ProtectEn1? then (if b in {16, 17} then 1 else 0) else if b in {10, 11} then 2 else 3
    case MFG => if b == 25 then 0 else 1
    case CAM => if reg.ProtectEn1? then 0 else if reg.ProtectEn? then 1 else 2
    case _ => if reg.ProtectEn1? then 0 else 1
  }

  lemma OwnedStep(d: Domain, reg: Reg, b: nat)
    requires d in Owners(reg, b)
    ensures var i := StepFor(d, reg, b);
      i < |Protects(d)| && Protects(d)[i].reg == reg && b in Protects(d)[i].mask
  {
  }

  /** Bit by bit, whose protect steps name what. */
  lemma OwnersName(d: Domain, reg: Reg, b: nat)
    ensures Names(Protects(d), reg, b) <==> d in Owners(reg, b)
  {
    if d in Owners(reg, b) {
      OwnedStep(d, reg, b);
      assert Protects(d)[StepFor(d, reg, b)] in Protects(d);
    } else if p :| p in Protects(d) && p.reg == reg && b in p.mask {
      var i :| 0 <= i < |Protects(d)| && Protects(d)[i] == p;
      StepOwned(d, i, reg, b);
    }
  }

  /** The DRAM interface with the modem, the display and the graphics domain; the display with its four
      clients. */
  predicate Shares(d: Domain, e: Domain) {
    (d.DPY? && e in {MD1, DIS, MFG}) || (d.DIS? && e in {ISP, CAM, VENC, VDEC})
  }

  ghost predicate Overlap(d: Domain, e: Domain) {
    exists reg, b: nat :: InMask(d, reg, b) && InMask(e, reg, b)
  }

  /** A bit of two domains is one of a protect register. */
  lemma InMaskOfTwo(d: Domain, e: Domain, reg: Reg, b: nat)
    requires d != e && InMask(d, reg, b) && InMask(e, reg, b)
    ensures Names(Protects(d), reg, b) && Names(Protects(e), reg, b)
  {
    ProtectsShared(d);
    ProtectsShared(e);
  }

  lemma TwoOwners(d: Domain, e: Domain, reg: Reg, b: nat)
    requires d != e && d in Owners(reg, b) && e in Owners(reg, b)
    ensures Shares(d, e) || Shares(e, d)
  {
  }

  /** One of the bits e shares with the domain that overlaps it. */
  function SharedBit(e: Domain): nat {
    match e case MD1 => 4 case DIS => 10 case MFG => 21 case ISP => 20 case CAM => 19 case VENC => 31 case _ => 30
  }

  lemma SharedBitNamed(d: Domain, e: Domain, reg: Reg)
    requires Shares(d, e) && reg == if d.DPY? then ProtectEn else ProtectEn1
    ensures Names(Protects(d), reg, SharedBit(e)) && Names(Protects(e), reg, SharedBit(e))
  {
    var mine := if d.DPY? then Protects(d)[2] else Protects(d)[0];
    var other := if e.DIS? then Protects(e)[2] else if e in {MD1, MFG} then Protects(e)[1] else Protects(e)[0];
    assert mine in Protects(d) && other in Protects(e);
  }

  /** Which domains share register bits: exactly these seven pairs, and so nobody owns the two bus
      protect registers. */
  lemma OverlapExactly(d: Domain, e: Domain)
    requires d != e
    ensures Overlap(d, e) <==> Shares(d, e) || Shares(e, d)
  {
    if Shares(d, e) || Shares(e, d) {
      SharedBitOverlaps(d, e);
    } else if reg, b: nat :| InMask(d, reg, b) && InMask(e, reg, b) {
      InMaskOfTwo(d, e, reg, b);
      OwnersName(d, reg, b);
      OwnersName(e, reg, b);
      TwoOwners(d, e, reg, b);
    }
  }

  lemma SharedBitOverlaps(d: Domain, e: Domain)
    requires Shares(d, e) || Shares(e, d)
    ensures Overlap(d, e)
  {
    var wide, narrow := if Shares(d, e) then d else e, if Shares(d, e) then e else d;
    var reg := if wide.DPY? then ProtectEn else ProtectEn1;
    SharedBitNamed(wide, narrow, reg);
    assert InMask(d, reg, SharedBit(narrow)) && InMask(e, reg, SharedBit(narrow));
  }

  lemma InterferesIsOverlap(d: Domain, e: Domain, reg: Reg, b: nat)
    requires d != e && InMask(d, reg, b)
    ensures OutcomeOf(BusDown(e), reg, b).Raised? <==> InMask(e, reg, b)
    ensures OutcomeOf(BusUp(e), reg, b).Lowered? <==> InMask(e, reg, b)
  {
    BusDownOutcome(e, reg, b);
    BusUpOutcome(e, reg, b);
    ProtectsShared(e);
    ProtectsShared(d);
  }

  /** Taking the bus of one domain down sets bits in another domain's masks, and bringing it up clears them,
      exactly when the two share. */
  lemma BusInterferes(d: Domain, e: Domain)
    requires d != e
    ensures (exists reg, b: nat :: InMask(d, reg, b) && OutcomeOf(BusDown(e), reg, b).Raised?) <==>
      Shares(d, e) || Shares(e, d)
    ensures (exists reg, b: nat :: InMask(d, reg, b) && OutcomeOf(BusUp(e), reg, b).Lowered?) <==>
      Shares(d, e) || Shares(e, d)
  {
    OverlapExactly(d, e);
    if Overlap(d, e) {
      var reg, b: nat :| InMask(d, reg, b) && InMask(e, reg, b);
      InterferesIsOverlap(d, e, reg, b);
    } else {
      if reg, b: nat :| InMask(d, reg, b) && OutcomeOf(BusDown(e), reg, b).Raised? {
        InterferesIsOverlap(d, e, reg, b);
      }
      if reg, b: nat :| InMask(d, reg, b) && OutcomeOf(BusUp(e), reg, b).Lowered? {
        InterferesIsOverlap(d, e, reg, b);
      }
    }
  }

  // ------------------------------------------------------------------ status bits at rest

  /** A status bit of a domain agrees with its switch. */
  ghost predicate RestedBit(d: Domain, b: nat, h: Hw) {
    b in Get(h.ack, PwrCon(d)) <==> b in Get(h.ctl, PwrCon(d))
  }

  /** Both status bits of a domain agree with its switches. */
  ghost predicate Rested(d: Domain, h: Hw) {
    RestedBit(d, ON, h) && RestedBit(d, ON_2ND, h)
  }

  lemma KeptStepRested(d: Domain, b: nat, s: Step, h: Hw, h': Hw)
    requires StepRel(s, h, h') && RestedBit(d, b, h) && StepOutcome(s, PwrCon(d), b).Kept?
    ensures RestedBit(d, b, h')
  {
    var con, con' := Get(h.ctl, PwrCon(d)), Get(h'.ctl, PwrCon(d));
    assert b in con' <==> b in con;
    assert Get(h.ack, PwrCon(d)) * con' <= Get(h'.ack, PwrCon(d)) <= Get(h.ack, PwrCon(d)) + con';
  }

  /** A script that leaves a switch alone leaves its status at rest. */
  lemma {:induction false} KeptStaysRested(d: Domain, b: nat, script: Script, t: seq<Hw>)
    requires IsTrace(script, t) && RestedBit(d, b, t[0]) && OutcomeOf(script, PwrCon(d), b).Kept?
    ensures RestedBit(d, b, t[|script|])
    decreases |script|
  {
    if script == [] {
    } else {
      assert StepRel(script[0], t[0], t[1]);
      KeptStepRested(d, b, script[0], t[0], t[1]);
      TraceTail(script, t);
      KeptStaysRested(d, b, script[1..], t[1..]);
    }
  }

  lemma DownLast(d: Domain)
    ensures |Down(d)| > 0 && Down(d)[|Down(d)| - 1] == WaitClear(PwrCon(d), {ON, ON_2ND})
  {
    var last := if d.MD1? then MODEM_SWITCH_OFF else Isolate(d);
    assert last[|last| - 1] == WaitClear(PwrCon(d), {ON, ON_2ND});
    assert PowerDown(d)[|PowerDown(d)| - 1] == last[|last| - 1];
    assert Down(d)[|Down(d)| - 1] == PowerDown(d)[|PowerDown(d)| - 1];
  }

  lemma DownEndsRested(d: Domain, t: seq<Hw>)
    requires IsTrace(Down(d), t)
    ensures Rested(d, t[|Down(d)|])
  {
    var n := |Down(d)|;
    DownLast(d);
    assert StepRel(Down(d)[n - 1], t[n - 1], t[n]);
    TraceControls(Down(d), t);
    DownIsCanonical(t[0].ctl, d, PwrCon(d), ON);
    DownIsCanonical(t[0].ctl, d, PwrCon(d), ON_2ND);
  }

  /** Power-up as far as its wait for both status bits, and the rest of it. */
  function UpHead(d: Domain): Script {
    if d.MD1? then MODEM_SWITCH_ON else Connect(d)[..3]
  }

  function UpTail(d: Domain): Script {
    (if d.MD1? then MODEM_RELEASE else Connect(d)[3..] + (if SramWithPower(d) then SramUp(d) else [])) + BusUp(d)
  }

  lemma Regroup(a: Script, b: Script, c: Script, e: Script)
    ensures ((a + b) + c) + e == a + ((b + c) + e)
  {
  }

  lemma UpParts(d: Domain)
    ensures Up(d) == UpHead(d) + UpTail(d)
  {
    if d.MD1? {
      assert (MODEM_SWITCH_ON + MODEM_RELEASE) + BusUp(d) == MODEM_SWITCH_ON + (MODEM_RELEASE + BusUp(d));
    } else {
      var c, sram := Connect(d), if SramWithPower(d) then SramUp(d) else [];
      assert c == c[..3] + c[3..];
      Regroup(c[..3], c[3..], sram, BusUp(d));
    }
  }

  lemma UpTailKeeps(d: Domain, b: nat)
    requires b in {ON, ON_2ND}
    ensures OutcomeOf(UpTail(d), PwrCon(d), b).Kept?
  {
    var c := PwrCon(d);
    HighBits(d);
    BusUpOutcome(d, c, b);
    SramUpOutcome(d, SramBits(d), c, b);
    var s := if d.MD1? then MODEM_RELEASE else Connect(d)[3..];
    var sram := if !d.MD1? && SramWithPower(d) then SramUp(d) else [];
    TailKeeps(s, c, b);
    OutcomeAppend(s, sram, c, b);
    assert UpTail(d) == (s + sram) + BusUp(d);
    OutcomeAppend(s + sram, BusUp(d), c, b);
  }

  lemma TailKeeps(s: Script, c: Reg, b: nat)
    requires b in {ON, ON_2ND} && c.PwrCon?
    requires s == MODEM_RELEASE || s == Connect(c.d)[3..]
    ensures OutcomeOf(s, c, b).Kept?
  {
    forall x | x in s && Writes(x) && x.reg == c ensures b !in x.mask {
    }
    OutcomeUntouched(s, c, b);
  }

  lemma HeadEndsRested(d: Domain, t: seq<Hw>)
    requires IsTrace(UpHead(d), t)
    ensures Rested(d, t[|UpHead(d)|])
  {
    var s := UpHead(d);
    var w := |s| - 1;
    assert s[w - 2] == Set(PwrCon(d), {ON}) && s[w - 1] == Set(PwrCon(d), {ON_2ND});
    assert s[w] == WaitSet(PwrCon(d), {ON, ON_2ND});
    assert StepRel(s[w - 2], t[w - 2], t[w - 1]);
    assert StepRel(s[w - 1], t[w - 1], t[w]);
    assert StepRel(s[w], t[w], t[w + 1]);
  }

  lemma UpEndsRested(d: Domain, t: seq<Hw>)
    requires IsTrace(Up(d), t)
    ensures Rested(d, t[|Up(d)|])
  {
    var n := |UpHead(d)|;
    UpParts(d);
    TraceSplit(UpHead(d), UpTail(d), t);
    HeadEndsRested(d, t[..n + 1]);
    UpTailKeeps(d, ON);
    UpTailKeeps(d, ON_2ND);
    KeptStaysRested(d, ON, UpTail(d), t[n..]);
    KeptStaysRested(d, ON_2ND, UpTail(d), t[n..]);
  }

  lemma OtherMask(d: Domain, e: Domain, b: nat)
    requires d != e
    ensures !InMask(d, PwrCon(e), b)
  {
    ProtectsShared(d);
  }

  lemma OtherStaysRested(d: Domain, e: Domain, b: nat, script: Script, t: seq<Hw>)
    requires d != e && ScriptOf(d, script) && IsTrace(script, t) && RestedBit(e, b, t[0])
    ensures RestedBit(e, b, t[|script|])
  {
    OtherMask(d, e, b);
    ScriptKeeps(d, script, PwrCon(e), b);
    KeptStaysRested(e, b, script, t);
  }

  /** Whenever a whole power-down or power-up has run, PWR_STATUS and PWR_STATUS_2ND agree with the
      domain's switches, however the hardware timed its acknowledges and whatever they read before;
      and every other domain's status that agreed still does. So between operations a domain's state
      can be read off either. */
  lemma StatusFollowsSwitches(d: Domain, script: Script, t: seq<Hw>, e: Domain)
    requires script == Down(d) || script == Up(d)
    requires IsTrace(script, t) && (e == d || Rested(e, t[0]))
    ensures Rested(e, t[|script|])
  {
    if e != d {
      OtherStaysRested(d, e, ON, script, t);
      OtherStaysRested(d, e, ON_2ND, script, t);
    } else if script == Down(d) {
      DownEndsRested(d, t);
    } else {
      UpEndsRested(d, t);
    }
  }
}
