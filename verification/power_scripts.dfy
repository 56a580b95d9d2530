/** Power-domain sequences as scripts of register writes and acknowledge waits, and what any script
    does: effects, frames, and safety at every single write (clk-mt6768-pg.c). */
module PowerScripts {

  /** A 32-bit register as the set of its set bits. */
  type Bits = set<nat>

  datatype Domain =
    | MD1 | CONN | DPY | DIS | MFG | ISP | IFR | MFG_CORE0 | MFG_CORE1 | MFG_ASYNC | CAM | VENC | VDEC

  /** The registers the sequences write: one PWR_CON per domain, the two bus-protect enables, the
      SMI clamp, and the modem's two extra ones. */
  datatype Reg = PwrCon(d: Domain) | ProtectEn | ProtectEn1 | SmiClamp | MdSramIso | MdExtraPwr

  /** Every acknowledge in the hardware belongs to one control bit, and is kept under that bit:
      for PWR_CON(d) the PWR_STATUS and PWR_STATUS_2ND bits of d acknowledge PWR_ON and PWR_ON_2ND,
      and SRAM_PDN_ACK bit b + 4 acknowledges SRAM_PDN bit b; the STA1 registers acknowledge the
      bus-protect enables, and the clamp register its own bits. */
  datatype Step =
    | Set(reg: Reg, mask: Bits)
    | Clear(reg: Reg, mask: Bits)
    | WaitSet(reg: Reg, mask: Bits)      // until every bit of the mask is acknowledged
    | WaitClear(reg: Reg, mask: Bits)    // until no bit of the mask is acknowledged

  type Script = seq<Step>
  type Regs = map<Reg, Bits>

  // PWR_CON bits
  const RST_B: nat := 0
  const ISO: nat := 1
  const ON: nat := 2
  const ON_2ND: nat := 3
  const CLK_DIS: nat := 4

  function Get(r: Regs, reg: Reg): Bits {
    if reg in r then r[reg] else {}
  }

  function Write(r: Regs, s: Step): Regs {
    match s
    case Set(reg, mask) => r[reg := Get(r, reg) + mask]
    case Clear(reg, mask) => r[reg := Get(r, reg) - mask]
    case WaitSet(_, _) => r
    case WaitClear(_, _) => r
  }

  /** The control registers after a script: waiting changes none of them. */
  function Exec(r: Regs, script: Script): Regs
    decreases |script|
  {
    if script == [] then r else Exec(Write(r, script[0]), script[1..])
  }

  lemma {:induction false} ExecAppend(r: Regs, a: Script, b: Script)
    ensures Exec(r, a + b) == Exec(Exec(r, a), b)
    decreases |a|
  {
    if a == [] {
      assert a + b == b;
    } else {
      assert (a + b)[1..] == a[1..] + b;
      ExecAppend(Write(r, a[0]), a[1..], b);
    }
  }

  // ------------------------------------------------------------------ effects, bit by bit

  predicate Writes(s: Step) {
    s.Set? || s.Clear?
  }

  /** What a script does to one bit of one register. */
  datatype Outcome = Kept | Raised | Lowered

  function StepOutcome(s: Step, reg: Reg, b: nat): Outcome {
    if !Writes(s) || s.reg != reg || b !in s.mask then Kept
    else if s.Set? then Raised else Lowered
  }

  /** The last write that names the bit decides. */
  function OutcomeOf(script: Script, reg: Reg, b: nat): Outcome
    decreases |script|
  {
    if script == [] then Kept
    else
      var later := OutcomeOf(script[1..], reg, b);
      if later.Kept? then StepOutcome(script[0], reg, b) else later
  }

  function Then(a: Outcome, b: Outcome): Outcome {
    if b.Kept? then a else b
  }

  /** Running the scripts of two sequences one after the other composes their outcomes. */
  lemma {:induction false} OutcomeAppend(x: Script, y: Script, reg: Reg, b: nat)
    ensures OutcomeOf(x + y, reg, b) == Then(OutcomeOf(x, reg, b), OutcomeOf(y, reg, b))
    decreases |x|
  {
    if x == [] {
      assert x + y == y;
    } else {
      assert (x + y)[0] == x[0] && (x + y)[1..] == x[1..] + y;
      OutcomeAppend(x[1..], y, reg, b);
    }
  }

  lemma OutcomeCons(s: Step, rest: Script, reg: Reg, b: nat)
    ensures OutcomeOf([s] + rest, reg, b) == Then(StepOutcome(s, reg, b), OutcomeOf(rest, reg, b))
  {
    assert ([s] + rest)[1..] == rest;
  }

  /** The outcome predicts every bit after any script, from any registers. */
  lemma {:induction false} ExecOutcome(r: Regs, script: Script, reg: Reg, b: nat)
    ensures b in Get(Exec(r, script), reg) <==>
      OutcomeOf(script, reg, b).Raised? || (OutcomeOf(script, reg, b).Kept? && b in Get(r, reg))
    decreases |script|
  {
    if script == [] {
    } else {
      ExecOutcome(Write(r, script[0]), script[1..], reg, b);
    }
  }

  lemma {:induction false} OutcomeUntouched(script: Script, reg: Reg, b: nat)
    requires forall s :: s in script && Writes(s) && s.reg == reg ==> b !in s.mask
    ensures OutcomeOf(script, reg, b).Kept?
    decreases |script|
  {
    if script == [] {
    } else {
      assert script[0] in script;
      OutcomeUntouched(script[1..], reg, b);
    }
  }

  // ------------------------------------------------------------------ traces

  /** Control registers and acknowledges together. */
  datatype Hw = Hw(ctl: Regs, ack: Regs)

  /** Acknowledges move on their own, but only towards the control bits in force. */
  ghost predicate Settles(h: Hw, h': Hw) {
    forall reg: Reg ::
      Get(h.ack, reg) * Get(h'.ctl, reg) <= Get(h'.ack, reg) <= Get(h.ack, reg) + Get(h'.ctl, reg)
  }

  ghost predicate StepRel(s: Step, h: Hw, h': Hw) {
    && h'.ctl == Write(h.ctl, s)
    && Settles(h, h')
    && (s.WaitSet? ==> s.mask <= Get(h'.ack, s.reg))
    && (s.WaitClear? ==> s.mask !! Get(h'.ack, s.reg))
  }

  /** One state per step boundary, with any hardware timing. */
  ghost predicate IsTrace(script: Script, t: seq<Hw>) {
    && |t| == |script| + 1
    && forall i :: 0 <= i < |script| ==> StepRel(script[i], t[i], t[i + 1])
  }

  lemma {:induction false} TraceControls(script: Script, t: seq<Hw>)
    requires IsTrace(script, t)
    ensures t[|script|].ctl == Exec(t[0].ctl, script)
    decreases |script|
  {
    if script == [] {
    } else {
      assert StepRel(script[0], t[0], t[1]);
      TraceTail(script, t);
      TraceControls(script[1..], t[1..]);
    }
  }

  lemma TraceTail(script: Script, t: seq<Hw>)
    requires script != [] && IsTrace(script, t)
    ensures IsTrace(script[1..], t[1..])
  {
    forall i | 0 <= i < |script[1..]| ensures StepRel(script[1..][i], t[1..][i], t[1..][i + 1]) {
      assert StepRel(script[i + 1], t[i + 1], t[i + 2]);
    }
  }

  lemma TraceSplit(x: Script, y: Script, t: seq<Hw>)
    requires IsTrace(x + y, t)
    ensures IsTrace(x, t[..|x| + 1]) && IsTrace(y, t[|x|..])
  {
    forall i | 0 <= i < |x| ensures StepRel(x[i], t[..|x| + 1][i], t[..|x| + 1][i + 1]) {
      assert StepRel((x + y)[i], t[i], t[i + 1]);
    }
    forall i | 0 <= i < |y| ensures StepRel(y[i], t[|x|..][i], t[|x|..][i + 1]) {
      assert StepRel((x + y)[|x| + i], t[|x| + i], t[|x| + i + 1]);
    }
  }

  /** A bit that a script leaves alone on the whole is never touched on the way either. */
  lemma {:induction false} KeptAtEveryStep(script: Script, t: seq<Hw>, i: nat, reg: Reg, b: nat)
    requires IsTrace(script, t) && i < |t| && OutcomeOf(script, reg, b).Kept?
    ensures b in Get(t[i].ctl, reg) <==> b in Get(t[0].ctl, reg)
    decreases |script|
  {
    if i == 0 {
    } else {
      assert StepRel(script[0], t[0], t[1]);
      TraceTail(script, t);
      KeptAtEveryStep(script[1..], t[1..], i - 1, reg, b);
    }
  }

  // ------------------------------------------------------------------ safety at every write

  /** Isolation is off only while both switches are on and both have been acknowledged; reset is
      released only while both switches are on (the modem's reset is exempt). */
  predicate Safe(d: Domain, h: Hw) {
    && (ISO !in Get(h.ctl, PwrCon(d)) ==>
          {ON, ON_2ND} <= Get(h.ctl, PwrCon(d)) && {ON, ON_2ND} <= Get(h.ack, PwrCon(d)))
    && (!d.MD1? && RST_B in Get(h.ctl, PwrCon(d)) ==> {ON, ON_2ND} <= Get(h.ctl, PwrCon(d)))
  }

  /** What is known about a domain's control word part-way through a script. */
  datatype Known = Known(iso: bool, on: bool, on2: bool, acked: bool, reset: bool)

  ghost predicate Holds(k: Known, d: Domain, h: Hw) {
    var con, ack := Get(h.ctl, PwrCon(d)), Get(h.ack, PwrCon(d));
    && (k.iso ==> ISO in con)
    && (k.on ==> ON in con)
    && (k.on2 ==> ON_2ND in con)
    && (k.acked ==> k.on && k.on2 && {ON, ON_2ND} <= ack)
    && (k.reset ==> RST_B !in con)
  }

  const NOTHING := Known(false, false, false, false, false)

  /** Whether a step is harmless given what is known. */
  predicate Allowed(d: Domain, s: Step, k: Known) {
    if s.Set? && s.reg == PwrCon(d) then
      RST_B in s.mask && !d.MD1? ==> k.on && k.on2
    else if s.Clear? && s.reg == PwrCon(d) then
      && (ISO in s.mask ==> s.mask == {ISO} && k.acked)
      && (ON in s.mask || ON_2ND in s.mask ==> k.iso && (d.MD1? || k.reset))
    else true
  }

  function Learn(d: Domain, s: Step, k: Known): Known {
    if s.reg != PwrCon(d) then k
    else match s
      case Set(_, m) =>
        k.(iso := k.iso || ISO in m, on := k.on || ON in m, on2 := k.on2 || ON_2ND in m,
           reset := k.reset && RST_B !in m)
      case Clear(_, m) =>
        k.(iso := k.iso && ISO !in m, on := k.on && ON !in m, on2 := k.on2 && ON_2ND !in m,
           acked := k.acked && ON !in m && ON_2ND !in m, reset := k.reset || RST_B in m)
      case WaitSet(_, m) => k.(acked := k.acked || (k.on && k.on2 && {ON, ON_2ND} <= m))
      case WaitClear(_, _) => k
  }

  /** The whole script is harmless. */
  predicate Accepted(d: Domain, script: Script, k: Known)
    decreases |script|
  {
    script != [] ==> Allowed(d, script[0], k) && Accepted(d, script[1..], Learn(d, script[0], k))
  }

  function LearnAll(d: Domain, script: Script, k: Known): Known
    decreases |script|
  {
    if script == [] then k else LearnAll(d, script[1..], Learn(d, script[0], k))
  }

  lemma StepSafe(d: Domain, s: Step, k: Known, h: Hw, h': Hw)
    requires Safe(d, h) && Holds(k, d, h) && Allowed(d, s, k) && StepRel(s, h, h')
    ensures Safe(d, h') && Holds(Learn(d, s, k), d, h')
  {
    var con, con' := Get(h.ctl, PwrCon(d)), Get(h'.ctl, PwrCon(d));
    var ack, ack' := Get(h.ack, PwrCon(d)), Get(h'.ack, PwrCon(d));
    assert ON in con' && ON in ack ==> ON in ack';
    assert ON_2ND in con' && ON_2ND in ack ==> ON_2ND in ack';
  }

  /** An accepted script is safe at every single write, whatever the hardware's timing. */
  lemma {:induction false} AcceptedSafe(d: Domain, script: Script, k: Known, t: seq<Hw>)
    requires IsTrace(script, t) && Safe(d, t[0]) && Holds(k, d, t[0]) && Accepted(d, script, k)
    ensures forall i :: 0 <= i < |t| ==> Safe(d, t[i])
    ensures Holds(LearnAll(d, script, k), d, t[|script|])
    decreases |script|
  {
    if script == [] {
    } else {
      assert StepRel(script[0], t[0], t[1]);
      StepSafe(d, script[0], k, t[0], t[1]);
      TraceTail(script, t);
      AcceptedSafe(d, script[1..], Learn(d, script[0], k), t[1..]);
      forall i | 0 <= i < |t| ensures Safe(d, t[i]) {
        if i > 0 { assert t[i] == t[1..][i - 1]; }
      }
    }
  }

  lemma AcceptedCons(d: Domain, s: Step, rest: Script, k: Known)
    ensures Accepted(d, [s] + rest, k) <==> Allowed(d, s, k) && Accepted(d, rest, Learn(d, s, k))
    ensures LearnAll(d, [s] + rest, k) == LearnAll(d, rest, Learn(d, s, k))
  {
    assert ([s] + rest)[1..] == rest;
  }

  lemma AcceptedFrom(d: Domain, script: Script, i: nat, k: Known)
    requires i < |script| && Allowed(d, script[i], k) && Accepted(d, script[i + 1..], Learn(d, script[i], k))
    ensures Accepted(d, script[i..], k)
  {
    assert script[i..][1..] == script[i + 1..];
  }

  lemma {:induction false} AcceptedAppend(d: Domain, a: Script, b: Script, k: Known)
    requires Accepted(d, a, k) && Accepted(d, b, LearnAll(d, a, k))
    ensures Accepted(d, a + b, k)
    decreases |a|
  {
    if a == [] {
      assert a + b == b;
    } else {
      assert (a + b)[0] == a[0] && (a + b)[1..] == a[1..] + b;
      AcceptedAppend(d, a[1..], b, Learn(d, a[0], k));
    }
  }

  /** The script leaves the domain's reset, isolation and switch bits alone. */
  predicate Spared(d: Domain, script: Script) {
    && OutcomeOf(script, PwrCon(d), RST_B).Kept? && OutcomeOf(script, PwrCon(d), ISO).Kept?
    && OutcomeOf(script, PwrCon(d), ON).Kept? && OutcomeOf(script, PwrCon(d), ON_2ND).Kept?
  }

  lemma {:induction false} SparedAccepted(d: Domain, script: Script, k: Known)
    requires Spared(d, script)
    ensures Accepted(d, script, k)
    decreases |script|
  {
    if script == [] {
    } else {
      SparedAccepted(d, script[1..], Learn(d, script[0], k));
    }
  }

  // ------------------------------------------------------------------ bus protection

  /** One protect step: its step number, its register and its mask. */
  datatype Protect = Protect(step: nat, reg: Reg, mask: Bits)

  /** Set each protect step in order, waiting for its acknowledge. */
  function SetScript(ps: seq<Protect>): Script {
    if ps == [] then [] else [Set(ps[0].reg, ps[0].mask), WaitSet(ps[0].reg, ps[0].mask)] + SetScript(ps[1..])
  }

  /** Release protect steps in the order given; no acknowledge is awaited. */
  function ReleaseScript(ps: seq<Protect>): Script {
    if ps == [] then [] else [Clear(ps[0].reg, ps[0].mask)] + ReleaseScript(ps[1..])
  }

  ghost predicate SetAndAcked(p: Protect, h: Hw) {
    p.mask <= Get(h.ctl, p.reg) && p.mask <= Get(h.ack, p.reg)
  }

  lemma SetStays(p: Protect, s: Step, h: Hw, h': Hw)
    requires SetAndAcked(p, h) && StepRel(s, h, h') && !s.Clear?
    ensures SetAndAcked(p, h')
  {
    forall b | b in p.mask ensures b in Get(h'.ack, p.reg) {
      assert b in Get(h'.ctl, p.reg);
    }
  }

  lemma {:induction false} SetScriptShape(ps: seq<Protect>)
    ensures |SetScript(ps)| == 2 * |ps|
    ensures forall j :: 0 <= j < |ps| ==>
      SetScript(ps)[2 * j] == Set(ps[j].reg, ps[j].mask) && SetScript(ps)[2 * j + 1] == WaitSet(ps[j].reg, ps[j].mask)
  {
    if ps == [] {
    } else {
      SetScriptShape(ps[1..]);
      forall j | 0 <= j < |ps|
        ensures SetScript(ps)[2 * j] == Set(ps[j].reg, ps[j].mask)
        ensures SetScript(ps)[2 * j + 1] == WaitSet(ps[j].reg, ps[j].mask)
      {
        if j > 0 {
          assert SetScript(ps)[2 * j] == SetScript(ps[1..])[2 * (j - 1)];
          assert SetScript(ps)[2 * j + 1] == SetScript(ps[1..])[2 * (j - 1) + 1];
        }
      }
    }
  }

  /** While bus protection is being set up, each protect step is written only when all earlier
      ones are set and acknowledged; at the end all of them are. */
  lemma {:induction false} ProtectInOrder(ps: seq<Protect>, t: seq<Hw>, j: nat, i: nat)
    requires IsTrace(SetScript(ps), t) && i < j <= |ps|
    ensures |SetScript(ps)| == 2 * |ps|
    ensures SetAndAcked(ps[i], t[2 * j])
    decreases j
  {
    SetScriptShape(ps);
    var k := j - 1;
    assert StepRel(SetScript(ps)[2 * k], t[2 * k], t[2 * k + 1]);
    assert StepRel(SetScript(ps)[2 * k + 1], t[2 * k + 1], t[2 * k + 2]);
    if i == k {
    } else {
      ProtectInOrder(ps, t, k, i);
      SetStays(ps[i], SetScript(ps)[2 * k], t[2 * k], t[2 * k + 1]);
      SetStays(ps[i], SetScript(ps)[2 * k + 1], t[2 * k + 1], t[2 * k + 2]);
    }
  }

  lemma {:induction false} ReleaseScriptShape(ps: seq<Protect>)
    ensures |ReleaseScript(ps)| == |ps|
    ensures forall j :: 0 <= j < |ps| ==> ReleaseScript(ps)[j] == Clear(ps[j].reg, ps[j].mask)
  {
    if ps == [] {
    } else {
      ReleaseScriptShape(ps[1..]);
    }
  }

  /** During release nothing is ever set again: after j writes the first j protect steps in release
      order are clear. */
  lemma {:induction false} ReleaseInOrder(ps: seq<Protect>, t: seq<Hw>, j: nat, i: nat)
    requires IsTrace(ReleaseScript(ps), t) && i < j <= |ps|
    ensures |ReleaseScript(ps)| == |ps|
    ensures ps[i].mask !! Get(t[j].ctl, ps[i].reg)
    decreases j
  {
    ReleaseScriptShape(ps);
    assert StepRel(ReleaseScript(ps)[j - 1], t[j - 1], t[j]);
    if i == j - 1 {
    } else {
      ReleaseInOrder(ps, t, j - 1, i);
    }
  }

  // ------------------------------------------------------------------ the register file

  /** The memory-mapped control registers, written in place. */
  class Spm {
    var ctl: Regs

    method SpmWrite(s: Step)
      modifies this
      ensures ctl == Write(old(ctl), s)
    {
      match s {
        case Set(reg, mask) => ctl := ctl[reg := Get(ctl, reg) + mask];
        case Clear(reg, mask) => ctl := ctl[reg := Get(ctl, reg) - mask];
        case _ =>
      }
    }

    method Run(script: Script)
      modifies this
      ensures ctl == Exec(old(ctl), script)
    {
      var i := 0;
      while i < |script|
        invariant i <= |script|
        invariant Exec(ctl, script[i..]) == Exec(old(ctl), script)
      {
        assert script[i..][1..] == script[i + 1..];
        SpmWrite(script[i]);
        i := i + 1;
      }
    }
  }
}
