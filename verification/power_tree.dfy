/** The clock tree above the power domains (clk-mt6768-pg.c): reference-counted prepare and unprepare
    through the clock core, pre-clocks, and power-gate callbacks. */
module PowerTree {
  import opened PowerScripts

  datatype Option<T> = None | Some(value: T)

  // ------------------------------------------------------------------ the static tree

  /** Clocks are looked up by name. */
  datatype Clk = Clk(name: string)

  /** A registered callback; either half may be absent. */
  datatype Callback = Callback(id: nat, afterOn: bool, beforeOff: bool)

  /** A domain's operations (struct subsys_ops): enable, disable, and if it has a protected bus
      also prepare and unprepare. */
  datatype Ops = Ops(enable: Script, disable: Script, hasBus: bool, prepare: Script, unprepare: Script)

  /** What is fixed for a whole run: the registered gates with their parents and pre-clock lists
      (scp_clks), the operation tables, the clocks a lookup finds, and the callback list. The depth
      of a gate in the tree is its distance from a root. */
  datatype Board = Board(gates: seq<Domain>, parents: map<Domain, Domain>, depths: map<Domain, nat>,
                         pre1: map<Domain, seq<Clk>>, pre2: map<Domain, seq<Clk>>, ops: map<Domain, Ops>,
                         found: set<Clk>, cbs: seq<Callback>)

  function OpsOf(b: Board, d: Domain): Ops {
    if d in b.ops then b.ops[d] else Ops([], [], false, [], [])
  }

  /** Both status bits of the domain; at rest they agree with the switches. */
  predicate IsOn(r: Regs, d: Domain) {
    ON in Get(r, PwrCon(d)) && ON_2ND in Get(r, PwrCon(d))
  }

  /** The domain's operations turn its own switches on and off and nobody else's; bus protection
      touches no switch. */
  ghost predicate OpsOk(b: Board, d: Domain) {
    var ops := OpsOf(b, d);
    && (forall r: Regs, e :: IsOn(Exec(r, ops.enable), e) <==> e == d || IsOn(r, e))
    && (forall r: Regs, e :: IsOn(Exec(r, ops.disable), e) <==> e != d && IsOn(r, e))
    && (forall r: Regs, e :: IsOn(Exec(r, ops.prepare), e) <==> IsOn(r, e))
    && (forall r: Regs, e :: IsOn(Exec(r, ops.unprepare), e) <==> IsOn(r, e))
  }

  function Times(ds: seq<Domain>, d: Domain): nat {
    if ds == [] then 0 else (if ds[0] == d then 1 else 0) + Times(ds[1..], d)
  }

  /** Every domain is registered exactly once with its own scripts, and the gates form a forest. */
  ghost predicate Wf(b: Board) {
    && (forall d :: Times(b.gates, d) == 1)
    && (forall d :: OpsOk(b, d))
    && (forall d :: d in b.parents ==> At(b.depths, b.parents[d]) < At(b.depths, d))
  }

  function Parent(b: Board, d: Domain): Option<Domain> {
    if d in b.parents then Some(b.parents[d]) else None
  }

  /** The pre-clock loops stop at the first name whose lookup fails. */
  function Usable(found: set<Clk>, names: seq<Clk>): seq<Clk> {
    if names == [] || names[0] !in found then [] else [names[0]] + Usable(found, names[1..])
  }

  /** Clocks enabled before the switches are turned on. */
  function Pre1(b: Board, d: Domain): seq<Clk> {
    Usable(b.found, if d in b.pre1 then b.pre1[d] else [])
  }

  /** Clocks enabled before the bus is opened. */
  function Pre2(b: Board, d: Domain): seq<Clk> {
    Usable(b.found, if d in b.pre2 then b.pre2[d] else [])
  }

  // ------------------------------------------------------------------ state

  /** What happens to a domain, in order. */
  datatype Act =
    | ClkOn(clk: Clk) | ClkOff(clk: Clk)
    | Power(on: bool) | Bus(open: bool)
    | AfterOn(id: nat) | BeforeOff(id: nat)

  datatype Note = Note(d: Domain, act: Act)

  /** Registers, the clock core's prepare counts, the pre-clocks' enable counts, and the history:
      every action so far, and per domain how often its power has been cut. */
  datatype Tree = Tree(regs: Regs, count: map<Domain, nat>, clks: map<Clk, nat>, log: seq<Note>,
                       rounds: map<Domain, nat>)

  function At<K(==)>(m: map<K, nat>, k: K): nat {
    if k in m then m[k] else 0
  }

  /** The history of one domain. */
  function LogOf(log: seq<Note>, d: Domain): seq<Act> {
    if log == [] then [] else (if log[0].d == d then [log[0].act] else []) + LogOf(log[1..], d)
  }

  function On(names: seq<Clk>): seq<Act> {
    if names == [] then [] else [ClkOn(names[0])] + On(names[1..])
  }

  function Off(names: seq<Clk>): seq<Act> {
    if names == [] then [] else [ClkOff(names[0])] + Off(names[1..])
  }

  /** after_on runs along the list. */
  function Afters(cbs: seq<Callback>): seq<Act> {
    if cbs == [] then [] else (if cbs[0].afterOn then [AfterOn(cbs[0].id)] else []) + Afters(cbs[1..])
  }

  /** before_off runs against the list. */
  function Befores(cbs: seq<Callback>): seq<Act> {
    if cbs == [] then [] else Befores(cbs[1..]) + (if cbs[0].beforeOff then [BeforeOff(cbs[0].id)] else [])
  }

  // ------------------------------------------------------------------ operations

  function UpBus(b: Board, d: Domain, skip: bool): seq<Act> {
    if skip || !OpsOf(b, d).hasBus then [] else [Bus(true)] + Afters(b.cbs)
  }

  function UpActs(b: Board, d: Domain, skip: bool): seq<Act> {
    On(Pre1(b, d)) + (if skip then [] else [Power(true)]) + On(Pre2(b, d)) + UpBus(b, d, skip)
  }

  function DownBus(b: Board, d: Domain, skip: bool): seq<Act> {
    if skip || !OpsOf(b, d).hasBus then [] else Befores(b.cbs) + [Bus(false)]
  }

  function DownActs(b: Board, d: Domain, skip: bool): seq<Act> {
    DownBus(b, d, skip) + Off(Pre2(b, d)) + (if skip then [] else [Power(false)]) + Off(Pre1(b, d))
  }

  /** One action on a domain. Callbacks change nothing here; a clock that is not enabled cannot be
      disabled any further. */
  function Do(b: Board, t: Tree, d: Domain, a: Act): Tree {
    var t1 := t.(log := t.log + [Note(d, a)]);
    match a
    case ClkOn(c) => t1.(clks := t.clks[c := At(t.clks, c) + 1])
    case ClkOff(c) => t1.(clks := t.clks[c := if At(t.clks, c) == 0 then 0 else At(t.clks, c) - 1])
    case Power(on) =>
      if on then t1.(regs := Exec(t.regs, OpsOf(b, d).enable))
      else t1.(regs := Exec(t.regs, OpsOf(b, d).disable), rounds := t.rounds[d := At(t.rounds, d) + 1])
    case Bus(open) =>
      t1.(regs := if open then Exec(t.regs, OpsOf(b, d).prepare) else Exec(t.regs, OpsOf(b, d).unprepare))
    case AfterOn(_) => t1
    case BeforeOff(_) => t1
  }

  function Perform(b: Board, t: Tree, d: Domain, acts: seq<Act>): (t': Tree)
    ensures t'.count == t.count
    decreases |acts|
  {
    if acts == [] then t else Perform(b, Do(b, t, d, acts[0]), d, acts[1..])
  }

  /** pg_prepare: a domain that already reads as on gets its pre-clocks but neither its scripts nor
      its callbacks. */
  function PgPrepare(b: Board, t: Tree, d: Domain): (t': Tree)
    ensures t'.count == t.count
  {
    Perform(b, t, d, UpActs(b, d, IsOn(t.regs, d)))
  }

  /** pg_unprepare: a domain that reads as off only has its pre-clocks disabled. */
  function PgUnprepare(b: Board, t: Tree, d: Domain): (t': Tree)
    ensures t'.count == t.count
  {
    Perform(b, t, d, DownActs(b, d, !IsOn(t.regs, d)))
  }

  function Counted(t: Tree, d: Domain, n: nat): Tree {
    t.(count := t.count[d := n])
  }

  /** The clock core: the first prepare goes to the parent first, then to the gate. */
  ghost function ClkPrepare(b: Board, t: Tree, d: Domain): Tree
    requires Wf(b)
    decreases At(b.depths, d)
  {
    var t1 :=
      if At(t.count, d) > 0 then t
      else if Parent(b, d).Some? then PgPrepare(b, ClkPrepare(b, t, Parent(b, d).value), d)
      else PgPrepare(b, t, d);
    Counted(t1, d, At(t1.count, d) + 1)
  }

  /** The last unprepare goes to the gate first, then to the parent; one too many is refused. */
  ghost function ClkUnprepare(b: Board, t: Tree, d: Domain): Tree
    requires Wf(b)
    decreases At(b.depths, d)
  {
    if At(t.count, d) == 0 then t
    else
      var t1 := Counted(t, d, At(t.count, d) - 1);
      if At(t1.count, d) > 0 then t1
      else if Parent(b, d).Some? then ClkUnprepare(b, PgUnprepare(b, t1, d), Parent(b, d).value)
      else PgUnprepare(b, t1, d)
  }

  // ------------------------------------------------------------------ sums over domains

  /** Whether e is a prepared child of d. */
  function Kid(b: Board, t: Tree, d: Domain, e: Domain): nat {
    if Parent(b, e) == Some(d) && At(t.count, e) > 0 then 1 else 0
  }

  function KidsIn(ds: seq<Domain>, b: Board, t: Tree, d: Domain): nat {
    if ds == [] then 0 else Kid(b, t, d, ds[0]) + KidsIn(ds[1..], b, t, d)
  }

  /** How many children of d are prepared. */
  function Kids(b: Board, t: Tree, d: Domain): nat {
    KidsIn(b.gates, b, t, d)
  }

  function Occurs(names: seq<Clk>, c: Clk): nat {
    if names == [] then 0 else (if names[0] == c then 1 else 0) + Occurs(names[1..], c)
  }

  /** How often a domain lists a clock. */
  function Lists(b: Board, d: Domain, c: Clk): nat {
    Occurs(Pre1(b, d), c) + Occurs(Pre2(b, d), c)
  }

  /** How often a domain lists a clock, if it is prepared. */
  function Use(b: Board, t: Tree, c: Clk, e: Domain): nat {
    if At(t.count, e) > 0 then Lists(b, e, c) else 0
  }

  function UsersIn(ds: seq<Domain>, b: Board, t: Tree, c: Clk): nat {
    if ds == [] then 0 else Use(b, t, c, ds[0]) + UsersIn(ds[1..], b, t, c)
  }

  /** How often the prepared domains list a clock, all together. */
  function Users(b: Board, t: Tree, c: Clk): nat {
    UsersIn(b.gates, b, t, c)
  }

  ghost predicate SameBut(t: Tree, t': Tree, d: Domain) {
    forall e :: e != d ==> At(t'.count, e) == At(t.count, e)
  }

  /** Changing one count changes each sum by just that domain's share. */
  lemma {:induction false} KidsUpdate(ds: seq<Domain>, b: Board, t: Tree, d: Domain, t': Tree, e: Domain)
    requires Times(ds, d) <= 1 && SameBut(t, t', d)
    ensures KidsIn(ds, b, t', e) ==
      KidsIn(ds, b, t, e) + (if Times(ds, d) == 1 then Kid(b, t', e, d) - Kid(b, t, e, d) else 0)
  {
    if ds == [] {
    } else {
      KidsUpdate(ds[1..], b, t, d, t', e);
    }
  }

  lemma {:induction false} UsersUpdate(ds: seq<Domain>, b: Board, t: Tree, d: Domain, t': Tree, c: Clk)
    requires Times(ds, d) <= 1 && SameBut(t, t', d)
    ensures UsersIn(ds, b, t', c) ==
      UsersIn(ds, b, t, c) + (if Times(ds, d) == 1 then Use(b, t', c, d) - Use(b, t, c, d) else 0)
  {
    if ds == [] {
    } else {
      UsersUpdate(ds[1..], b, t, d, t', c);
    }
  }

  lemma {:induction false} UsersHas(ds: seq<Domain>, b: Board, t: Tree, c: Clk, d: Domain)
    requires Times(ds, d) > 0
    ensures UsersIn(ds, b, t, c) >= Use(b, t, c, d)
  {
    if d == ds[0] {
    } else {
      UsersHas(ds[1..], b, t, c, d);
    }
  }

  // ------------------------------------------------------------------ histories

  /** The history of a domain after n complete rounds: pre-clocks, power, pre-clocks, bus, after_on in
      list order; then before_off in reverse, bus, clocks, power, clocks. A domain that was found on
      at boot skips the power and bus parts of its first way up. */
  function Hist(b: Board, d: Domain, found: bool, n: nat, up: bool): seq<Act>
    decreases n, up
  {
    if up then Hist(b, d, found, n, false) + UpActs(b, d, found && n == 0)
    else if n == 0 then []
    else Hist(b, d, found, n - 1, true) + DownActs(b, d, false)
  }

  lemma {:induction false} LogAppend(x: seq<Note>, y: seq<Note>, d: Domain)
    ensures LogOf(x + y, d) == LogOf(x, d) + LogOf(y, d)
    decreases |x|
  {
    if x == [] {
      assert x + y == y;
    } else {
      assert (x + y)[0] == x[0] && (x + y)[1..] == x[1..] + y;
      LogAppend(x[1..], y, d);
    }
  }

  lemma HeadMoves(before: seq<Act>, acts: seq<Act>)
    requires acts != []
    ensures (before + [acts[0]]) + acts[1..] == before + acts
  {
    assert acts == [acts[0]] + acts[1..];
  }

  lemma DoLog(b: Board, t: Tree, d: Domain, a: Act, e: Domain)
    ensures LogOf(Do(b, t, d, a).log, e) == LogOf(t.log, e) + if e == d then [a] else []
  {
    LogAppend(t.log, [Note(d, a)], e);
    assert [Note(d, a)][1..] == [];
  }

  lemma {:induction false} PerformLog(b: Board, t: Tree, d: Domain, acts: seq<Act>, e: Domain)
    ensures LogOf(Perform(b, t, d, acts).log, e) == LogOf(t.log, e) + (if e == d then acts else [])
    decreases |acts|
  {
    if acts == [] {
    } else {
      DoLog(b, t, d, acts[0], e);
      PerformLog(b, Do(b, t, d, acts[0]), d, acts[1..], e);
      if e == d { HeadMoves(LogOf(t.log, e), acts); }
    }
  }

  lemma {:induction false} PerformAppend(b: Board, t: Tree, d: Domain, x: seq<Act>, y: seq<Act>)
    ensures Perform(b, t, d, x + y) == Perform(b, Perform(b, t, d, x), d, y)
    decreases |x|
  {
    if x == [] {
      assert x + y == y;
    } else {
      assert (x + y)[0] == x[0] && (x + y)[1..] == x[1..] + y;
      PerformAppend(b, Do(b, t, d, x[0]), d, x[1..], y);
    }
  }

  lemma {:induction false} PerformOn(b: Board, t: Tree, d: Domain, names: seq<Clk>, c: Clk)
    ensures var t' := Perform(b, t, d, On(names));
      t'.regs == t.regs && t'.count == t.count && t'.rounds == t.rounds &&
      At(t'.clks, c) == At(t.clks, c) + Occurs(names, c)
    decreases |names|
  {
    if names == [] {
    } else {
      assert On(names)[1..] == On(names[1..]);
      PerformOn(b, Do(b, t, d, ClkOn(names[0])), d, names[1..], c);
    }
  }

  lemma {:induction false} PerformOff(b: Board, t: Tree, d: Domain, names: seq<Clk>, c: Clk)
    ensures var t' := Perform(b, t, d, Off(names));
      t'.regs == t.regs && t'.count == t.count && t'.rounds == t.rounds &&
      (At(t.clks, c) >= Occurs(names, c) ==> At(t'.clks, c) == At(t.clks, c) - Occurs(names, c))
    decreases |names|
  {
    if names == [] {
    } else {
      assert Off(names)[1..] == Off(names[1..]);
      PerformOff(b, Do(b, t, d, ClkOff(names[0])), d, names[1..], c);
    }
  }

  predicate IsCall(a: Act) {
    a.AfterOn? || a.BeforeOff?
  }

  lemma {:induction false} OnlyCalls(cbs: seq<Callback>)
    ensures forall a :: a in Afters(cbs) || a in Befores(cbs) ==> IsCall(a)
    decreases |cbs|
  {
    if cbs == [] {
    } else {
      OnlyCalls(cbs[1..]);
    }
  }

  /** Callbacks are recorded but move nothing. */
  lemma {:induction false} PerformCalls(b: Board, t: Tree, d: Domain, acts: seq<Act>)
    requires forall a :: a in acts ==> IsCall(a)
    ensures var t' := Perform(b, t, d, acts);
      t'.regs == t.regs && t'.rounds == t.rounds && t'.clks == t.clks
    decreases |acts|
  {
    if acts == [] {
    } else {
      assert IsCall(acts[0]);
      PerformCalls(b, Do(b, t, d, acts[0]), d, acts[1..]);
    }
  }

  lemma {:induction false} CallsAppend(x: seq<Callback>, y: seq<Callback>)
    ensures Afters(x + y) == Afters(x) + Afters(y)
    ensures Befores(x + y) == Befores(y) + Befores(x)
    decreases |x|
  {
    if x == [] {
      assert x + y == y;
    } else {
      assert (x + y)[0] == x[0] && (x + y)[1..] == x[1..] + y;
      CallsAppend(x[1..], y);
    }
  }

  lemma {:induction false} FullCalls(cbs: seq<Callback>)
    requires forall c :: c in cbs ==> c.afterOn && c.beforeOff
    ensures |Afters(cbs)| == |Befores(cbs)| == |cbs|
    decreases |cbs|
  {
    if cbs == [] {
    } else {
      assert cbs[0] in cbs;
      FullCalls(cbs[1..]);
    }
  }

  /** Where the i-th callback's after_on comes among the after_on calls: behind those of the callbacks
      in front of it. */
  function AfterPlace(cbs: seq<Callback>, i: nat): nat
    requires i < |cbs|
  {
    |Afters(cbs[..i])|
  }

  /** Where its before_off comes: behind those of the callbacks after it. */
  function BeforePlace(cbs: seq<Callback>, i: nat): nat
    requires i < |cbs|
  {
    |Befores(cbs[i + 1..])|
  }

  lemma CallPlaces(cbs: seq<Callback>, i: nat)
    requires i < |cbs|
    ensures cbs[i].afterOn ==>
      AfterPlace(cbs, i) < |Afters(cbs)| && Afters(cbs)[AfterPlace(cbs, i)] == AfterOn(cbs[i].id)
    ensures cbs[i].beforeOff ==>
      BeforePlace(cbs, i) < |Befores(cbs)| && Befores(cbs)[BeforePlace(cbs, i)] == BeforeOff(cbs[i].id)
  {
    var x, y := cbs[..i], cbs[i + 1..];
    assert [cbs[i]][1..] == [];
    assert cbs == x + ([cbs[i]] + y);
    CallsAppend([cbs[i]], y);
    CallsAppend(x, [cbs[i]] + y);
  }

  /** For any two registered callbacks, either half of either possibly absent: of two after_on halves the
      earlier callback's runs first, of two before_off halves it runs last.  With both halves present
      everywhere the places are exactly mirrored. */
  lemma BeforesReverseAfters(cbs: seq<Callback>, i: nat, j: nat)
    requires i < j < |cbs|
    ensures cbs[i].afterOn && cbs[j].afterOn ==>
      && AfterPlace(cbs, i) < AfterPlace(cbs, j) < |Afters(cbs)|
      && Afters(cbs)[AfterPlace(cbs, i)] == AfterOn(cbs[i].id) && Afters(cbs)[AfterPlace(cbs, j)] == AfterOn(cbs[j].id)
    ensures cbs[i].beforeOff && cbs[j].beforeOff ==>
      && BeforePlace(cbs, j) < BeforePlace(cbs, i) < |Befores(cbs)|
      && Befores(cbs)[BeforePlace(cbs, i)] == BeforeOff(cbs[i].id)
      && Befores(cbs)[BeforePlace(cbs, j)] == BeforeOff(cbs[j].id)
    ensures (forall c :: c in cbs ==> c.afterOn && c.beforeOff) ==>
      AfterPlace(cbs, i) == i && BeforePlace(cbs, i) == |cbs| - 1 - i
  {
    CallPlaces(cbs, i);
    CallPlaces(cbs, j);
    AfterPlacesRise(cbs, i, j);
    BeforePlacesFall(cbs, i, j);
    if forall c :: c in cbs ==> c.afterOn && c.beforeOff {
      FullCalls(cbs[..i]);
      FullCalls(cbs[i + 1..]);
    }
  }

  lemma AfterPlacesRise(cbs: seq<Callback>, i: nat, j: nat)
    requires i < j < |cbs|
    ensures cbs[i].afterOn ==> AfterPlace(cbs, i) < AfterPlace(cbs, j)
  {
    var rest := cbs[i + 1..j];
    assert cbs[..j] == cbs[..i] + ([cbs[i]] + rest);
    assert [cbs[i]][1..] == [];
    CallsAppend([cbs[i]], rest);
    CallsAppend(cbs[..i], [cbs[i]] + rest);
  }

  lemma BeforePlacesFall(cbs: seq<Callback>, i: nat, j: nat)
    requires i < j < |cbs|
    ensures cbs[j].beforeOff ==> BeforePlace(cbs, j) < BeforePlace(cbs, i)
  {
    var rest := cbs[i + 1..j];
    assert cbs[i + 1..] == rest + ([cbs[j]] + cbs[j + 1..]);
    assert [cbs[j]][1..] == [];
    CallsAppend([cbs[j]], cbs[j + 1..]);
    CallsAppend(rest, [cbs[j]] + cbs[j + 1..]);
  }

  // ------------------------------------------------------------------ what one operation does

  lemma BusKeepsPower(b: Board, r: Regs, d: Domain, e: Domain)
    requires OpsOk(b, d)
    ensures IsOn(Exec(r, OpsOf(b, d).prepare), e) <==> IsOn(r, e)
    ensures IsOn(Exec(r, OpsOf(b, d).unprepare), e) <==> IsOn(r, e)
  {
  }

  lemma PowerSets(b: Board, r: Regs, d: Domain, e: Domain)
    requires OpsOk(b, d)
    ensures IsOn(Exec(r, OpsOf(b, d).enable), e) <==> e == d || IsOn(r, e)
    ensures IsOn(Exec(r, OpsOf(b, d).disable), e) <==> e != d && IsOn(r, e)
  {
  }

  /** What preparing a gate does: its domain comes on, its clocks are enabled once per listing, its
      history grows by one way up; nothing else moves. */
  ghost predicate Rose(b: Board, t: Tree, d: Domain, t': Tree) {
    && t'.count == t.count
    && t'.rounds == t.rounds
    && (forall e :: LogOf(t'.log, e) == LogOf(t.log, e) + if e == d then UpActs(b, d, IsOn(t.regs, d)) else [])
    && (forall e :: IsOn(t'.regs, e) <==> e == d || IsOn(t.regs, e))
    && (forall c: Clk :: At(t'.clks, c) == At(t.clks, c) + Lists(b, d, c))
  }

  /** What unpreparing a powered gate does: the mirror image. */
  ghost predicate Fell(b: Board, t: Tree, d: Domain, t': Tree) {
    && t'.count == t.count
    && t'.rounds == t.rounds[d := At(t.rounds, d) + 1]
    && (forall e :: LogOf(t'.log, e) == LogOf(t.log, e) + if e == d then DownActs(b, d, false) else [])
    && (forall e :: IsOn(t'.regs, e) <==> e != d && IsOn(t.regs, e))
    && (forall c: Clk :: At(t.clks, c) >= Lists(b, d, c) ==> At(t'.clks, c) == At(t.clks, c) - Lists(b, d, c))
  }

  lemma PerformOne(b: Board, t: Tree, d: Domain, a: Act)
    ensures Perform(b, t, d, [a]) == Do(b, t, d, a)
  {
    assert [a][1..] == [];
  }

  /** The four parts of the way up. */
  lemma UpParts(b: Board, t: Tree, d: Domain) returns (t1: Tree, t2: Tree, t3: Tree)
    ensures t1 == Perform(b, t, d, On(Pre1(b, d)))
    ensures t2 == if IsOn(t.regs, d) then t1 else Do(b, t1, d, Power(true))
    ensures t3 == Perform(b, t2, d, On(Pre2(b, d)))
    ensures PgPrepare(b, t, d) == Perform(b, t3, d, UpBus(b, d, IsOn(t.regs, d)))
  {
    var skip := IsOn(t.regs, d);
    var power := if skip then [] else [Power(true)];
    t1 := Perform(b, t, d, On(Pre1(b, d)));
    t2 := if skip then t1 else Do(b, t1, d, Power(true));
    t3 := Perform(b, t2, d, On(Pre2(b, d)));
    PerformOne(b, t1, d, Power(true));
    PerformAppend(b, t, d, On(Pre1(b, d)), power);
    PerformAppend(b, t, d, On(Pre1(b, d)) + power, On(Pre2(b, d)));
    PerformAppend(b, t, d, On(Pre1(b, d)) + power + On(Pre2(b, d)), UpBus(b, d, skip));
  }

  lemma BusOpens(b: Board, t: Tree, d: Domain, skip: bool, e: Domain)
    requires OpsOk(b, d)
    ensures var t' := Perform(b, t, d, UpBus(b, d, skip));
      t'.rounds == t.rounds && t'.clks == t.clks && (IsOn(t'.regs, e) <==> IsOn(t.regs, e))
  {
    if !skip && OpsOf(b, d).hasBus {
      PerformAppend(b, t, d, [Bus(true)], Afters(b.cbs));
      PerformOne(b, t, d, Bus(true));
      OnlyCalls(b.cbs);
      PerformCalls(b, Do(b, t, d, Bus(true)), d, Afters(b.cbs));
      BusKeepsPower(b, t.regs, d, e);
    }
  }

  lemma PrepareClks(b: Board, t: Tree, d: Domain, c: Clk)
    requires OpsOk(b, d)
    ensures At(PgPrepare(b, t, d).clks, c) == At(t.clks, c) + Lists(b, d, c)
  {
    var t1, t2, t3 := UpParts(b, t, d);
    PerformOn(b, t, d, Pre1(b, d), c);
    PerformOn(b, t2, d, Pre2(b, d), c);
    BusOpens(b, t3, d, IsOn(t.regs, d), d);
  }

  lemma PowerComes(b: Board, t: Tree, d: Domain, e: Domain)
    requires OpsOk(b, d)
    ensures Do(b, t, d, Power(true)).rounds == t.rounds
    ensures IsOn(Do(b, t, d, Power(true)).regs, e) <==> e == d || IsOn(t.regs, e)
  {
    PowerSets(b, t.regs, d, e);
  }

  lemma OnKeeps(b: Board, t: Tree, d: Domain, names: seq<Clk>, e: Domain)
    ensures Perform(b, t, d, On(names)).rounds == t.rounds
    ensures IsOn(Perform(b, t, d, On(names)).regs, e) <==> IsOn(t.regs, e)
  {
    PerformOn(b, t, d, names, Clk(""));
  }

  lemma PrepareRegs(b: Board, t: Tree, d: Domain, e: Domain)
    requires OpsOk(b, d)
    ensures var t' := PgPrepare(b, t, d);
      t'.rounds == t.rounds && (IsOn(t'.regs, e) <==> e == d || IsOn(t.regs, e))
  {
    var t1, t2, t3 := UpParts(b, t, d);
    OnKeeps(b, t, d, Pre1(b, d), e);
    PowerComes(b, t1, d, e);
    OnKeeps(b, t2, d, Pre2(b, d), e);
    BusOpens(b, t3, d, IsOn(t.regs, d), e);
  }

  /** The four parts of the way down. */
  lemma DownParts(b: Board, t: Tree, d: Domain) returns (t1: Tree, t2: Tree, t3: Tree)
    requires OpsOk(b, d) && IsOn(t.regs, d)
    ensures t1 == Perform(b, t, d, DownBus(b, d, false))
    ensures t2 == Perform(b, t1, d, Off(Pre2(b, d)))
    ensures t3 == Do(b, t2, d, Power(false))
    ensures PgUnprepare(b, t, d) == Perform(b, t3, d, Off(Pre1(b, d)))
  {
    var bus := DownBus(b, d, false);
    t1 := Perform(b, t, d, bus);
    t2 := Perform(b, t1, d, Off(Pre2(b, d)));
    t3 := Do(b, t2, d, Power(false));
    PerformOne(b, t2, d, Power(false));
    PerformAppend(b, t, d, bus, Off(Pre2(b, d)));
    PerformAppend(b, t, d, bus + Off(Pre2(b, d)), [Power(false)]);
    PerformAppend(b, t, d, bus + Off(Pre2(b, d)) + [Power(false)], Off(Pre1(b, d)));
  }

  lemma BusCloses(b: Board, t: Tree, d: Domain, e: Domain)
    requires OpsOk(b, d)
    ensures var t1 := Perform(b, t, d, DownBus(b, d, false));
      t1.rounds == t.rounds && t1.clks == t.clks && (IsOn(t1.regs, e) <==> IsOn(t.regs, e))
  {
    var t0 := Perform(b, t, d, Befores(b.cbs));
    OnlyCalls(b.cbs);
    PerformCalls(b, t, d, Befores(b.cbs));
    PerformAppend(b, t, d, Befores(b.cbs), [Bus(false)]);
    PerformOne(b, t0, d, Bus(false));
    BusKeepsPower(b, t.regs, d, e);
  }

  lemma UnprepareClks(b: Board, t: Tree, d: Domain, c: Clk)
    requires OpsOk(b, d) && IsOn(t.regs, d)
    ensures var t' := PgUnprepare(b, t, d);
      At(t.clks, c) >= Lists(b, d, c) ==> At(t'.clks, c) == At(t.clks, c) - Lists(b, d, c)
  {
    var t1, t2, t3 := DownParts(b, t, d);
    BusCloses(b, t, d, d);
    PerformOff(b, t1, d, Pre2(b, d), c);
    PerformOff(b, t3, d, Pre1(b, d), c);
  }

  lemma PowerCuts(b: Board, t: Tree, d: Domain, e: Domain)
    requires OpsOk(b, d)
    ensures Do(b, t, d, Power(false)).rounds == t.rounds[d := At(t.rounds, d) + 1]
    ensures IsOn(Do(b, t, d, Power(false)).regs, e) <==> e != d && IsOn(t.regs, e)
  {
    PowerSets(b, t.regs, d, e);
  }

  lemma OffKeeps(b: Board, t: Tree, d: Domain, names: seq<Clk>, e: Domain)
    ensures Perform(b, t, d, Off(names)).rounds == t.rounds
    ensures IsOn(Perform(b, t, d, Off(names)).regs, e) <==> IsOn(t.regs, e)
  {
    PerformOff(b, t, d, names, Clk(""));
  }

  lemma UnprepareRegs(b: Board, t: Tree, d: Domain, e: Domain)
    requires OpsOk(b, d) && IsOn(t.regs, d)
    ensures var t' := PgUnprepare(b, t, d);
      t'.rounds == t.rounds[d := At(t.rounds, d) + 1] && (IsOn(t'.regs, e) <==> e != d && IsOn(t.regs, e))
  {
    var t1, t2, t3 := DownParts(b, t, d);
    BusCloses(b, t, d, e);
    OffKeeps(b, t1, d, Pre2(b, d), e);
    PowerCuts(b, t2, d, e);
    OffKeeps(b, t3, d, Pre1(b, d), e);
  }

  lemma PrepareRises(b: Board, t: Tree, d: Domain)
    requires Wf(b)
    ensures Rose(b, t, d, PgPrepare(b, t, d))
  {
    assert OpsOk(b, d);
    forall e ensures IsOn(PgPrepare(b, t, d).regs, e) <==> e == d || IsOn(t.regs, e) {
      PrepareRegs(b, t, d, e);
    }
    forall c: Clk ensures At(PgPrepare(b, t, d).clks, c) == At(t.clks, c) + Lists(b, d, c) {
      PrepareClks(b, t, d, c);
    }
    PrepareRegs(b, t, d, d);
    forall e
      ensures LogOf(PgPrepare(b, t, d).log, e) == LogOf(t.log, e) + if e == d then UpActs(b, d, IsOn(t.regs, d)) else []
    {
      PerformLog(b, t, d, UpActs(b, d, IsOn(t.regs, d)), e);
    }
  }

  lemma UnprepareFalls(b: Board, t: Tree, d: Domain)
    requires Wf(b) && IsOn(t.regs, d)
    ensures Fell(b, t, d, PgUnprepare(b, t, d))
  {
    assert OpsOk(b, d);
    forall e ensures IsOn(PgUnprepare(b, t, d).regs, e) <==> e != d && IsOn(t.regs, e) {
      UnprepareRegs(b, t, d, e);
    }
    forall c: Clk | At(t.clks, c) >= Lists(b, d, c)
      ensures At(PgUnprepare(b, t, d).clks, c) == At(t.clks, c) - Lists(b, d, c)
    {
      UnprepareClks(b, t, d, c);
    }
    UnprepareRegs(b, t, d, d);
    forall e
      ensures LogOf(PgUnprepare(b, t, d).log, e) == LogOf(t.log, e) + if e == d then DownActs(b, d, false) else []
    {
      PerformLog(b, t, d, DownActs(b, d, false), e);
    }
  }

  // ------------------------------------------------------------------ the invariant

  /** Whether a domain found on at boot has not been through a power-down since. */
  predicate LeftOn(boot: set<Domain>, t: Tree, d: Domain) {
    d in boot && At(t.rounds, d) == 0
  }

  ghost predicate CountOk(b: Board, wants: map<Domain, nat>, t: Tree, d: Domain) {
    At(t.count, d) == At(wants, d) + Kids(b, t, d)
  }

  predicate PowerOk(boot: set<Domain>, t: Tree, d: Domain) {
    IsOn(t.regs, d) <==> At(t.count, d) > 0 || LeftOn(boot, t, d)
  }

  predicate LogOk(b: Board, boot: set<Domain>, t: Tree, d: Domain) {
    LogOf(t.log, d) == Hist(b, d, d in boot, At(t.rounds, d), At(t.count, d) > 0)
  }

  ghost predicate ClockOk(b: Board, t: Tree, c: Clk) {
    At(t.clks, c) == Users(b, t, c)
  }

  ghost predicate CountsOk(b: Board, wants: map<Domain, nat>, t: Tree) {
    forall d: Domain :: CountOk(b, wants, t, d)
  }

  ghost predicate PowersOk(boot: set<Domain>, t: Tree) {
    forall d: Domain :: PowerOk(boot, t, d)
  }

  ghost predicate LogsOk(b: Board, boot: set<Domain>, t: Tree) {
    forall d: Domain :: LogOk(b, boot, t, d)
  }

  ghost predicate ClocksOk(b: Board, t: Tree) {
    forall c: Clk :: ClockOk(b, t, c)
  }

  /** wants: the prepares each domain's own consumers have outstanding. */
  ghost predicate Inv(b: Board, boot: set<Domain>, wants: map<Domain, nat>, t: Tree) {
    CountsOk(b, wants, t) && PowersOk(boot, t) && LogsOk(b, boot, t) && ClocksOk(b, t)
  }

  function Add(wants: map<Domain, nat>, d: Domain): map<Domain, nat> {
    wants[d := At(wants, d) + 1]
  }

  function Drop(wants: map<Domain, nat>, d: Domain): map<Domain, nat>
    requires At(wants, d) > 0
  {
    wants[d := At(wants, d) - 1]
  }

  /** Going from unprepared to prepared, or back, moves the parent's number of prepared children. */
  lemma KidsMove(b: Board, t: Tree, d: Domain, t': Tree, e: Domain)
    requires Wf(b) && SameBut(t, t', d)
    ensures Kids(b, t', e) == Kids(b, t, e) + Kid(b, t', e, d) - Kid(b, t, e, d)
  {
    KidsUpdate(b.gates, b, t, d, t', e);
  }

  lemma UsersMove(b: Board, t: Tree, d: Domain, t': Tree, c: Clk)
    requires Wf(b) && SameBut(t, t', d)
    ensures Users(b, t', c) == Users(b, t, c) + Use(b, t', c, d) - Use(b, t, c, d)
  {
    UsersUpdate(b.gates, b, t, d, t', c);
  }

  lemma UsersUp(b: Board, t: Tree, d: Domain, t': Tree, c: Clk)
    requires Wf(b) && SameBut(t, t', d) && At(t.count, d) == 0 && At(t'.count, d) > 0
    ensures Users(b, t', c) == Users(b, t, c) + Lists(b, d, c)
  {
    UsersMove(b, t, d, t', c);
  }

  lemma UsersDown(b: Board, t: Tree, d: Domain, t': Tree, c: Clk)
    requires Wf(b) && SameBut(t, t', d) && At(t.count, d) > 0 && At(t'.count, d) == 0
    ensures Users(b, t, c) >= Lists(b, d, c) && Users(b, t', c) == Users(b, t, c) - Lists(b, d, c)
  {
    UsersHas(b.gates, b, t, c, d);
    UsersMove(b, t, d, t', c);
  }

  /** The wants and counts of e move together when only d's count changes. */
  ghost predicate Moved(b: Board, wants: map<Domain, nat>, t: Tree, d: Domain, t': Tree, wants': map<Domain, nat>,
                        e: Domain)
  {
    At(t'.count, e) - At(t.count, e) == At(wants', e) - At(wants, e) + Kid(b, t', e, d) - Kid(b, t, e, d)
  }

  lemma CountFollows(b: Board, wants: map<Domain, nat>, t: Tree, d: Domain, t': Tree, wants': map<Domain, nat>)
    requires Wf(b) && CountsOk(b, wants, t) && SameBut(t, t', d)
    requires forall e :: Moved(b, wants, t, d, t', wants', e)
    ensures CountsOk(b, wants', t')
  {
    forall e ensures CountOk(b, wants', t', e) {
      assert CountOk(b, wants, t, e) && Moved(b, wants, t, d, t', wants', e);
      KidsMove(b, t, d, t', e);
    }
  }

  lemma StillUp(b: Board, boot: set<Domain>, t: Tree, d: Domain, n: nat)
    requires PowersOk(boot, t) && LogsOk(b, boot, t) && At(t.count, d) > 0 && n > 0
    ensures PowersOk(boot, Counted(t, d, n)) && LogsOk(b, boot, Counted(t, d, n))
  {
    var t' := Counted(t, d, n);
    forall e ensures PowerOk(boot, t', e) {
      assert PowerOk(boot, t, e);
    }
    forall e ensures LogOk(b, boot, t', e) {
      assert LogOk(b, boot, t, e);
    }
  }

  lemma StillUsed(b: Board, t: Tree, d: Domain, n: nat)
    requires Wf(b) && ClocksOk(b, t) && At(t.count, d) > 0 && n > 0
    ensures ClocksOk(b, Counted(t, d, n))
  {
    forall c ensures ClockOk(b, Counted(t, d, n), c) {
      assert ClockOk(b, t, c);
      UsersMove(b, t, d, Counted(t, d, n), c);
    }
  }

  lemma HeldMoved(b: Board, wants: map<Domain, nat>, t: Tree, d: Domain, n: nat, wants': map<Domain, nat>, e: Domain)
    requires At(t.count, d) > 0 && n > 0
    requires At(wants', e) - At(wants, e) == if e == d then n - At(t.count, d) else 0
    ensures Moved(b, wants, t, d, Counted(t, d, n), wants', e)
  {
  }

  lemma CountHeld(b: Board, wants: map<Domain, nat>, t: Tree, d: Domain, n: nat, wants': map<Domain, nat>)
    requires Wf(b) && CountsOk(b, wants, t) && At(t.count, d) > 0 && n > 0
    requires forall e :: At(wants', e) - At(wants, e) == if e == d then n - At(t.count, d) else 0
    ensures CountsOk(b, wants', Counted(t, d, n))
  {
    var t' := Counted(t, d, n);
    forall e ensures Moved(b, wants, t, d, t', wants', e) {
      HeldMoved(b, wants, t, d, n, wants', e);
    }
    CountFollows(b, wants, t, d, t', wants');
  }

  /** A count that stays positive changes nothing else. */
  lemma CountMoves(b: Board, boot: set<Domain>, wants: map<Domain, nat>, t: Tree, d: Domain, n: nat,
                   wants': map<Domain, nat>)
    requires Wf(b) && Inv(b, boot, wants, t) && At(t.count, d) > 0 && n > 0
    requires forall e :: At(wants', e) - At(wants, e) == if e == d then n - At(t.count, d) else 0
    ensures Inv(b, boot, wants', Counted(t, d, n))
  {
    CountHeld(b, wants, t, d, n, wants');
    StillUp(b, boot, t, d, n);
    StillUsed(b, t, d, n);
  }

  lemma UpPower(b: Board, boot: set<Domain>, t: Tree, d: Domain, u: Tree)
    requires PowersOk(boot, t) && At(t.count, d) == 0 && Rose(b, t, d, u)
    ensures PowersOk(boot, Counted(u, d, 1))
  {
    forall e ensures PowerOk(boot, Counted(u, d, 1), e) {
      assert PowerOk(boot, t, e);
      assert IsOn(u.regs, e) <==> e == d || IsOn(t.regs, e);
    }
  }

  lemma UpLog(b: Board, boot: set<Domain>, t: Tree, d: Domain, u: Tree, e: Domain)
    requires PowerOk(boot, t, e) && LogOk(b, boot, t, e) && At(t.count, d) == 0 && Rose(b, t, d, u)
    ensures LogOk(b, boot, Counted(u, d, 1), e)
  {
    assert LogOf(u.log, e) == LogOf(t.log, e) + if e == d then UpActs(b, d, IsOn(t.regs, d)) else [];
  }

  lemma UpClock(b: Board, t: Tree, d: Domain, u: Tree, c: Clk)
    requires Wf(b) && ClockOk(b, t, c) && At(t.count, d) == 0
    requires u.count == t.count && At(u.clks, c) == At(t.clks, c) + Lists(b, d, c)
    ensures ClockOk(b, Counted(u, d, 1), c)
  {
    UsersUp(b, t, d, Counted(u, d, 1), c);
  }

  lemma UpLogs(b: Board, boot: set<Domain>, t: Tree, d: Domain, u: Tree)
    requires PowersOk(boot, t) && LogsOk(b, boot, t) && At(t.count, d) == 0 && Rose(b, t, d, u)
    ensures LogsOk(b, boot, Counted(u, d, 1))
  {
    forall e ensures LogOk(b, boot, Counted(u, d, 1), e) {
      assert PowerOk(boot, t, e) && LogOk(b, boot, t, e);
      UpLog(b, boot, t, d, u, e);
    }
  }

  lemma UpClocks(b: Board, t: Tree, d: Domain, u: Tree)
    requires Wf(b) && ClocksOk(b, t) && At(t.count, d) == 0 && Rose(b, t, d, u)
    ensures ClocksOk(b, Counted(u, d, 1))
  {
    forall c ensures ClockOk(b, Counted(u, d, 1), c) {
      assert ClockOk(b, t, c);
      UpClock(b, t, d, u, c);
    }
  }

  lemma UpMoved(b: Board, wants: map<Domain, nat>, t: Tree, d: Domain, u: Tree, wants': map<Domain, nat>, e: Domain)
    requires At(t.count, d) == 0 && u.count == t.count
    requires At(wants', e) - At(wants, e) == (if e == d then 1 else 0) - (if Parent(b, d) == Some(e) then 1 else 0)
    ensures Moved(b, wants, t, d, Counted(u, d, 1), wants', e)
  {
  }

  lemma UpCounts(b: Board, wants: map<Domain, nat>, t: Tree, d: Domain, u: Tree, wants': map<Domain, nat>)
    requires Wf(b) && CountsOk(b, wants, t) && At(t.count, d) == 0 && u.count == t.count
    requires forall e :: At(wants', e) - At(wants, e) ==
                         (if e == d then 1 else 0) - (if Parent(b, d) == Some(e) then 1 else 0)
    ensures CountsOk(b, wants', Counted(u, d, 1))
  {
    var t' := Counted(u, d, 1);
    forall e ensures Moved(b, wants, t, d, t', wants', e) {
      UpMoved(b, wants, t, d, u, wants', e);
    }
    CountFollows(b, wants, t, d, t', wants');
  }

  /** The first prepare of a gate whose parent has just been prepared on its behalf. */
  lemma UpKeeps(b: Board, boot: set<Domain>, wants: map<Domain, nat>, t: Tree, d: Domain, u: Tree,
                wants': map<Domain, nat>)
    requires Wf(b) && Inv(b, boot, wants, t) && At(t.count, d) == 0 && Rose(b, t, d, u)
    requires forall e :: At(wants', e) - At(wants, e) ==
                         (if e == d then 1 else 0) - (if Parent(b, d) == Some(e) then 1 else 0)
    ensures Inv(b, boot, wants', Counted(u, d, 1))
  {
    UpCounts(b, wants, t, d, u, wants');
    UpPower(b, boot, t, d, u);
    UpLogs(b, boot, t, d, u);
    UpClocks(b, t, d, u);
  }

  lemma DownPower(b: Board, boot: set<Domain>, t: Tree, d: Domain, u: Tree)
    requires PowersOk(boot, t) && At(t.count, d) == 1 && Fell(b, Counted(t, d, 0), d, u)
    ensures PowersOk(boot, u)
  {
    forall e ensures PowerOk(boot, u, e) {
      assert PowerOk(boot, t, e);
      assert IsOn(u.regs, e) <==> e != d && IsOn(t.regs, e);
    }
  }

  lemma DownLog(b: Board, boot: set<Domain>, t: Tree, d: Domain, u: Tree, e: Domain)
    requires LogOk(b, boot, t, e) && At(t.count, d) == 1 && Fell(b, Counted(t, d, 0), d, u)
    ensures LogOk(b, boot, u, e)
  {
    assert LogOf(u.log, e) == LogOf(t.log, e) + if e == d then DownActs(b, d, false) else [];
  }

  lemma DownLogs(b: Board, boot: set<Domain>, t: Tree, d: Domain, u: Tree)
    requires LogsOk(b, boot, t) && At(t.count, d) == 1 && Fell(b, Counted(t, d, 0), d, u)
    ensures LogsOk(b, boot, u)
  {
    forall e ensures LogOk(b, boot, u, e) {
      assert LogOk(b, boot, t, e);
      DownLog(b, boot, t, d, u, e);
    }
  }

  lemma DownClock(b: Board, t: Tree, d: Domain, u: Tree, c: Clk)
    requires Wf(b) && ClockOk(b, t, c) && At(t.count, d) == 1
    requires u.count == t.count[d := 0]
    requires At(t.clks, c) >= Lists(b, d, c) ==> At(u.clks, c) == At(t.clks, c) - Lists(b, d, c)
    ensures ClockOk(b, u, c)
  {
    UsersDown(b, t, d, u, c);
  }

  lemma DownClocks(b: Board, t: Tree, d: Domain, u: Tree)
    requires Wf(b) && ClocksOk(b, t) && At(t.count, d) == 1 && Fell(b, Counted(t, d, 0), d, u)
    ensures ClocksOk(b, u)
  {
    forall c ensures ClockOk(b, u, c) {
      assert ClockOk(b, t, c);
      DownClock(b, t, d, u, c);
    }
  }

  lemma DownMoved(b: Board, wants: map<Domain, nat>, t: Tree, d: Domain, u: Tree, wants': map<Domain, nat>, e: Domain)
    requires At(t.count, d) == 1 && u.count == t.count[d := 0]
    requires At(wants', e) - At(wants, e) == (if Parent(b, d) == Some(e) then 1 else 0) - (if e == d then 1 else 0)
    ensures Moved(b, wants, t, d, u, wants', e)
  {
  }

  lemma DownCounts(b: Board, wants: map<Domain, nat>, t: Tree, d: Domain, u: Tree, wants': map<Domain, nat>)
    requires Wf(b) && CountsOk(b, wants, t) && At(t.count, d) == 1 && u.count == t.count[d := 0]
    requires forall e :: At(wants', e) - At(wants, e) ==
                         (if Parent(b, d) == Some(e) then 1 else 0) - (if e == d then 1 else 0)
    ensures CountsOk(b, wants', u)
  {
    forall e ensures Moved(b, wants, t, d, u, wants', e) {
      DownMoved(b, wants, t, d, u, wants', e);
    }
    CountFollows(b, wants, t, d, u, wants');
  }

  /** The last unprepare of a gate, before its hold on the parent is dropped. */
  lemma DownKeeps(b: Board, boot: set<Domain>, wants: map<Domain, nat>, t: Tree, d: Domain, u: Tree,
                  wants': map<Domain, nat>)
    requires Wf(b) && Inv(b, boot, wants, t) && At(t.count, d) == 1 && Fell(b, Counted(t, d, 0), d, u)
    requires forall e :: At(wants', e) - At(wants, e) ==
                         (if Parent(b, d) == Some(e) then 1 else 0) - (if e == d then 1 else 0)
    ensures Inv(b, boot, wants', u)
  {
    DownCounts(b, wants, t, d, u, wants');
    DownPower(b, boot, t, d, u);
    DownLogs(b, boot, t, d, u);
    DownClocks(b, t, d, u);
  }

  /** Preparing a domain prepares nothing below it. */
  lemma {:induction false} PrepareFrame(b: Board, t: Tree, d: Domain, e: Domain)
    requires Wf(b) && At(b.depths, e) > At(b.depths, d)
    ensures At(ClkPrepare(b, t, d).count, e) == At(t.count, e)
    decreases At(b.depths, d)
  {
    if At(t.count, d) == 0 && Parent(b, d).Some? {
      PrepareFrame(b, t, Parent(b, d).value, e);
    }
  }

  lemma GateUp(b: Board, boot: set<Domain>, wants: map<Domain, nat>, t: Tree, d: Domain, wants': map<Domain, nat>)
    requires Wf(b) && Inv(b, boot, wants, t) && At(t.count, d) == 0
    requires forall e :: At(wants', e) - At(wants, e) ==
                         (if e == d then 1 else 0) - (if Parent(b, d) == Some(e) then 1 else 0)
    ensures Inv(b, boot, wants', Counted(PgPrepare(b, t, d), d, 1))
  {
    PrepareRises(b, t, d);
    UpKeeps(b, boot, wants, t, d, PgPrepare(b, t, d), wants');
  }

  lemma PrepareChild(b: Board, t: Tree, d: Domain, p: Domain)
    requires Wf(b) && At(t.count, d) == 0 && Parent(b, d) == Some(p)
    ensures At(ClkPrepare(b, t, p).count, d) == 0
    ensures ClkPrepare(b, t, d) == Counted(PgPrepare(b, ClkPrepare(b, t, p), d), d, 1)
  {
    assert At(b.depths, p) < At(b.depths, d);
    PrepareFrame(b, t, p, d);
    ParentFirst(b, t, d, p);
  }

  lemma ParentFirst(b: Board, t: Tree, d: Domain, p: Domain)
    requires Wf(b) && At(t.count, d) == 0 && Parent(b, d) == Some(p)
    ensures var t1 := PgPrepare(b, ClkPrepare(b, t, p), d);
      ClkPrepare(b, t, d) == Counted(t1, d, At(t1.count, d) + 1)
  {
  }

  lemma PrepareRoot(b: Board, t: Tree, d: Domain)
    requires Wf(b) && At(t.count, d) == 0 && Parent(b, d).None?
    ensures ClkPrepare(b, t, d) == Counted(PgPrepare(b, t, d), d, 1)
  {
  }

  lemma RootUp(b: Board, boot: set<Domain>, wants: map<Domain, nat>, t: Tree, d: Domain)
    requires Wf(b) && Inv(b, boot, wants, t) && At(t.count, d) == 0 && Parent(b, d).None?
    ensures Inv(b, boot, Add(wants, d), Counted(PgPrepare(b, t, d), d, 1))
  {
    GateUp(b, boot, wants, t, d, Add(wants, d));
  }

  lemma ChildUp(b: Board, boot: set<Domain>, wants: map<Domain, nat>, t: Tree, d: Domain, p: Domain)
    requires Wf(b) && Inv(b, boot, Add(wants, p), t) && At(t.count, d) == 0 && Parent(b, d) == Some(p)
    ensures Inv(b, boot, Add(wants, d), Counted(PgPrepare(b, t, d), d, 1))
  {
    GateUp(b, boot, Add(wants, p), t, d, Add(wants, d));
  }

  lemma PrepareHeld(b: Board, t: Tree, d: Domain)
    requires Wf(b) && At(t.count, d) > 0
    ensures ClkPrepare(b, t, d) == Counted(t, d, At(t.count, d) + 1)
  {
  }

  lemma PrepareHeldKeeps(b: Board, boot: set<Domain>, wants: map<Domain, nat>, t: Tree, d: Domain)
    requires Wf(b) && Inv(b, boot, wants, t) && At(t.count, d) > 0
    ensures Inv(b, boot, Add(wants, d), ClkPrepare(b, t, d))
  {
    CountMoves(b, boot, wants, t, d, At(t.count, d) + 1, Add(wants, d));
    PrepareHeld(b, t, d);
  }

  lemma {:induction false} PrepareKeeps(b: Board, boot: set<Domain>, wants: map<Domain, nat>, t: Tree, d: Domain)
    requires Wf(b) && Inv(b, boot, wants, t)
    ensures Inv(b, boot, Add(wants, d), ClkPrepare(b, t, d))
    decreases At(b.depths, d)
  {
    if At(t.count, d) > 0 {
      PrepareHeldKeeps(b, boot, wants, t, d);
    } else if Parent(b, d).Some? {
      PrepareKeeps(b, boot, wants, t, Parent(b, d).value);
      PrepareChild(b, t, d, Parent(b, d).value);
      ChildUp(b, boot, wants, ClkPrepare(b, t, Parent(b, d).value), d, Parent(b, d).value);
    } else {
      PrepareRoot(b, t, d);
      RootUp(b, boot, wants, t, d);
    }
  }

  lemma GateDown(b: Board, boot: set<Domain>, wants: map<Domain, nat>, t: Tree, d: Domain, wants': map<Domain, nat>)
    requires Wf(b) && Inv(b, boot, wants, t) && At(t.count, d) == 1
    requires forall e :: At(wants', e) - At(wants, e) ==
                         (if Parent(b, d) == Some(e) then 1 else 0) - (if e == d then 1 else 0)
    ensures Inv(b, boot, wants', PgUnprepare(b, Counted(t, d, 0), d))
  {
    assert PowerOk(boot, t, d);
    UnprepareFalls(b, Counted(t, d, 0), d);
    DownKeeps(b, boot, wants, t, d, PgUnprepare(b, Counted(t, d, 0), d), wants');
  }

  lemma UnprepareSteps(b: Board, t: Tree, d: Domain)
    requires Wf(b) && At(t.count, d) > 0
    ensures At(t.count, d) > 1 ==> ClkUnprepare(b, t, d) == Counted(t, d, At(t.count, d) - 1)
    ensures At(t.count, d) == 1 && Parent(b, d).None? ==> ClkUnprepare(b, t, d) == PgUnprepare(b, Counted(t, d, 0), d)
    ensures At(t.count, d) == 1 && Parent(b, d).Some? ==>
      ClkUnprepare(b, t, d) == ClkUnprepare(b, PgUnprepare(b, Counted(t, d, 0), d), Parent(b, d).value)
  {
  }

  lemma InvSame(b: Board, boot: set<Domain>, wants: map<Domain, nat>, wants': map<Domain, nat>, t: Tree)
    requires Inv(b, boot, wants, t) && forall d: Domain :: At(wants, d) == At(wants', d)
    ensures Inv(b, boot, wants', t)
  {
    forall d ensures CountOk(b, wants', t, d) {
      assert CountOk(b, wants, t, d);
    }
  }

  lemma UnprepareRootKeeps(b: Board, boot: set<Domain>, wants: map<Domain, nat>, t: Tree, d: Domain)
    requires Wf(b) && Inv(b, boot, wants, t) && At(t.count, d) == 1 && Parent(b, d).None? && At(wants, d) > 0
    ensures Inv(b, boot, Drop(wants, d), ClkUnprepare(b, t, d))
  {
    GateDown(b, boot, wants, t, d, Drop(wants, d));
    UnprepareSteps(b, t, d);
  }

  lemma UnprepareHeldKeeps(b: Board, boot: set<Domain>, wants: map<Domain, nat>, t: Tree, d: Domain)
    requires Wf(b) && Inv(b, boot, wants, t) && At(t.count, d) > 1 && At(wants, d) > 0
    ensures Inv(b, boot, Drop(wants, d), ClkUnprepare(b, t, d))
  {
    CountMoves(b, boot, wants, t, d, At(t.count, d) - 1, Drop(wants, d));
    UnprepareSteps(b, t, d);
  }

  lemma UnprepareChildKeeps(b: Board, boot: set<Domain>, wants: map<Domain, nat>, t: Tree, d: Domain, p: Domain)
    requires Wf(b) && At(t.count, d) == 1 && Parent(b, d) == Some(p) && At(wants, d) > 0
    requires var held := Add(Drop(wants, d), p);
      Inv(b, boot, Drop(held, p), ClkUnprepare(b, PgUnprepare(b, Counted(t, d, 0), d), p))
    ensures Inv(b, boot, Drop(wants, d), ClkUnprepare(b, t, d))
  {
    UnprepareSteps(b, t, d);
    InvSame(b, boot, Drop(Add(Drop(wants, d), p), p), Drop(wants, d), ClkUnprepare(b, t, d));
  }

  lemma {:induction false} UnprepareKeeps(b: Board, boot: set<Domain>, wants: map<Domain, nat>, t: Tree, d: Domain)
    requires Wf(b) && Inv(b, boot, wants, t) && At(wants, d) > 0
    ensures Inv(b, boot, Drop(wants, d), ClkUnprepare(b, t, d))
    decreases At(b.depths, d)
  {
    assert CountOk(b, wants, t, d);
    if At(t.count, d) > 1 {
      UnprepareHeldKeeps(b, boot, wants, t, d);
    } else if Parent(b, d).Some? {
      var p := Parent(b, d).value;
      var held := Add(Drop(wants, d), p);
      GateDown(b, boot, wants, t, d, held);
      UnprepareKeeps(b, boot, held, PgUnprepare(b, Counted(t, d, 0), d), p);
      UnprepareChildKeeps(b, boot, wants, t, d, p);
    } else {
      UnprepareRootKeeps(b, boot, wants, t, d);
    }
  }

  // ------------------------------------------------------------------ whole runs

  /** What the consumers of the clocks ask for. */
  datatype Request = Prepare(d: Domain) | Unprepare(d: Domain)

  function Want(wants: map<Domain, nat>, q: Request): map<Domain, nat> {
    if q.Prepare? then Add(wants, q.d) else if At(wants, q.d) > 0 then Drop(wants, q.d) else wants
  }

  function WantAll(wants: map<Domain, nat>, qs: seq<Request>): map<Domain, nat>
    decreases |qs|
  {
    if qs == [] then wants else WantAll(Want(wants, qs[0]), qs[1..])
  }

  /** No consumer gives back more than was taken. */
  predicate Balanced(wants: map<Domain, nat>, qs: seq<Request>)
    decreases |qs|
  {
    qs != [] ==> (qs[0].Unprepare? ==> At(wants, qs[0].d) > 0) && Balanced(Want(wants, qs[0]), qs[1..])
  }

  ghost function Serve(b: Board, t: Tree, q: Request): Tree
    requires Wf(b)
  {
    if q.Prepare? then ClkPrepare(b, t, q.d) else ClkUnprepare(b, t, q.d)
  }

  ghost function ServeAll(b: Board, t: Tree, qs: seq<Request>): Tree
    requires Wf(b)
    decreases |qs|
  {
    if qs == [] then t else ServeAll(b, Serve(b, t, qs[0]), qs[1..])
  }

  /** Boot: nothing prepared yet, and whatever the bootloader left in the registers. */
  function Booted(r: Regs): Tree {
    Tree(r, map[], map[], [], map[])
  }

  function OnAtBoot(r: Regs): set<Domain> {
    set d: Domain | IsOn(r, d)
  }

  lemma {:induction false} NoKids(ds: seq<Domain>, b: Board, t: Tree, d: Domain)
    requires forall e :: Kid(b, t, d, e) == 0
    ensures KidsIn(ds, b, t, d) == 0
  {
    if ds == [] {
    } else {
      NoKids(ds[1..], b, t, d);
    }
  }

  lemma {:induction false} NoUsers(ds: seq<Domain>, b: Board, t: Tree, c: Clk)
    requires forall e :: At(t.count, e) == 0
    ensures UsersIn(ds, b, t, c) == 0
  {
    if ds == [] {
    } else {
      NoUsers(ds[1..], b, t, c);
    }
  }

  lemma BootInv(b: Board, r: Regs)
    ensures Inv(b, OnAtBoot(r), map[], Booted(r))
  {
    var t := Booted(r);
    forall d ensures CountOk(b, map[], t, d) {
      NoKids(b.gates, b, t, d);
    }
    forall c ensures ClockOk(b, t, c) {
      NoUsers(b.gates, b, t, c);
    }
    assert PowersOk(OnAtBoot(r), t);
    assert LogsOk(b, OnAtBoot(r), t);
  }

  lemma ServeKeeps(b: Board, boot: set<Domain>, wants: map<Domain, nat>, t: Tree, q: Request)
    requires Wf(b) && Inv(b, boot, wants, t) && (q.Unprepare? ==> At(wants, q.d) > 0)
    ensures Inv(b, boot, Want(wants, q), Serve(b, t, q))
  {
    if q.Prepare? {
      PrepareKeeps(b, boot, wants, t, q.d);
    } else {
      UnprepareKeeps(b, boot, wants, t, q.d);
    }
  }

  lemma {:induction false} ServeAllKeeps(b: Board, boot: set<Domain>, wants: map<Domain, nat>, t: Tree,
                                         qs: seq<Request>)
    requires Wf(b) && Inv(b, boot, wants, t) && Balanced(wants, qs)
    ensures Inv(b, boot, WantAll(wants, qs), ServeAll(b, t, qs))
    decreases |qs|
  {
    if qs == [] {
    } else {
      ServeKeeps(b, boot, wants, t, qs[0]);
      ServeAllKeeps(b, boot, Want(wants, qs[0]), Serve(b, t, qs[0]), qs[1..]);
    }
  }

  /** After any balanced requests from any boot state. */
  lemma RunInv(b: Board, r: Regs, qs: seq<Request>)
    requires Wf(b) && Balanced(map[], qs)
    ensures Inv(b, OnAtBoot(r), WantAll(map[], qs), ServeAll(b, Booted(r), qs))
  {
    BootInv(b, r);
    ServeAllKeeps(b, OnAtBoot(r), map[], Booted(r), qs);
  }

  /** Over every balanced run a domain is powered exactly when its prepare count is positive, with
      one family of exceptions: it was found on at boot, has not been cut since, and nobody holds it. */
  lemma PoweredByCount(b: Board, r: Regs, qs: seq<Request>, d: Domain)
    requires Wf(b) && Balanced(map[], qs)
    ensures var t := ServeAll(b, Booted(r), qs);
      (IsOn(t.regs, d) <==> At(t.count, d) > 0) <==> !(IsOn(r, d) && At(t.rounds, d) == 0 && At(t.count, d) == 0)
  {
    RunInv(b, r, qs);
    assert PowerOk(OnAtBoot(r), ServeAll(b, Booted(r), qs), d);
  }

  lemma {:induction false} KidsHas(ds: seq<Domain>, b: Board, t: Tree, d: Domain, e: Domain)
    requires Times(ds, e) > 0
    ensures KidsIn(ds, b, t, d) >= Kid(b, t, d, e)
  {
    if e == ds[0] {
    } else {
      KidsHas(ds[1..], b, t, d, e);
    }
  }

  lemma HeldParent(b: Board, boot: set<Domain>, wants: map<Domain, nat>, t: Tree, d: Domain, p: Domain)
    requires Wf(b) && Inv(b, boot, wants, t) && Parent(b, d) == Some(p)
    ensures At(t.count, d) > 0 ==> At(t.count, p) > 0 && IsOn(t.regs, p)
    ensures (IsOn(t.regs, d) ==> IsOn(t.regs, p)) <==>
      !(LeftOn(boot, t, d) && At(t.count, p) == 0 && !LeftOn(boot, t, p))
  {
    assert CountOk(b, wants, t, p) && PowerOk(boot, t, p) && PowerOk(boot, t, d);
    KidsHas(b.gates, b, t, p, d);
  }

  /** A child that is prepared keeps its parent prepared and powered.  Over every balanced run a child
      is powered only while its parent is, with exactly one family of exceptions: boot left the child
      on and nobody has cut it, while nobody holds the parent, which was off at boot or has been cut. */
  lemma ParentHeld(b: Board, r: Regs, qs: seq<Request>, d: Domain)
    requires Wf(b) && Balanced(map[], qs) && Parent(b, d).Some?
    ensures var t, p := ServeAll(b, Booted(r), qs), Parent(b, d).value;
      && (At(t.count, d) > 0 ==> At(t.count, p) > 0 && IsOn(t.regs, p))
      && ((IsOn(t.regs, d) ==> IsOn(t.regs, p)) <==>
            !(IsOn(r, d) && At(t.rounds, d) == 0 && At(t.count, p) == 0 && (IsOn(r, p) ==> At(t.rounds, p) > 0)))
  {
    RunInv(b, r, qs);
    var t, p := ServeAll(b, Booted(r), qs), Parent(b, d).value;
    HeldParent(b, OnAtBoot(r), WantAll(map[], qs), t, d, p);
  }

  lemma ServeTwo(b: Board, t: Tree, q: Request, q': Request)
    requires Wf(b)
    ensures ServeAll(b, t, [q, q']) == Serve(b, Serve(b, t, q), q')
  {
    assert [q, q'][1..] == [q'] && [q'][1..] == [];
    assert ServeAll(b, Serve(b, t, q), [q']) == ServeAll(b, Serve(b, Serve(b, t, q), q'), []);
  }

  lemma TakeAndGiveBalanced(p: Domain)
    ensures Balanced(map[], [Prepare(p), Unprepare(p)])
  {
    assert [Prepare(p), Unprepare(p)][1..] == [Unprepare(p)] && [Unprepare(p)][1..] == [];
  }

  lemma TakeRoot(b: Board, r: Regs, p: Domain) returns (t1: Tree)
    requires Wf(b) && Parent(b, p).None?
    ensures t1 == Serve(b, Booted(r), Prepare(p)) && t1.count == map[p := 1] && t1.rounds == map[]
    ensures forall e :: IsOn(t1.regs, e) <==> e == p || IsOn(r, e)
    ensures LogOf(t1.log, p) == UpActs(b, p, IsOn(r, p))
  {
    PrepareRoot(b, Booted(r), p);
    PrepareRises(b, Booted(r), p);
    t1 := ClkPrepare(b, Booted(r), p);
    assert LogOf(PgPrepare(b, Booted(r), p).log, p) == [] + UpActs(b, p, IsOn(r, p)) == UpActs(b, p, IsOn(r, p));
  }

  lemma GiveRoot(b: Board, t: Tree, p: Domain)
    requires Wf(b) && Parent(b, p).None? && t.count == map[p := 1] && t.rounds == map[] && IsOn(t.regs, p)
    ensures var t' := Serve(b, t, Unprepare(p));
      && t'.count == map[p := 0] && t'.rounds == map[p := 1]
      && (forall e :: IsOn(t'.regs, e) <==> e != p && IsOn(t.regs, e))
      && LogOf(t'.log, p) == LogOf(t.log, p) + DownActs(b, p, false)
  {
    UnprepareSteps(b, t, p);
    UnprepareFalls(b, Counted(t, p, 0), p);
  }

  /** The smallest run that ends in such an exception: take a root gate, and give it back.  It is cut,
      and whatever boot left on below it stays on. */
  lemma TakenAndGivenBack(b: Board, r: Regs, p: Domain)
    requires Wf(b) && Parent(b, p).None?
    ensures Balanced(map[], [Prepare(p), Unprepare(p)])
    ensures var t := ServeAll(b, Booted(r), [Prepare(p), Unprepare(p)]);
      && t.count == map[p := 0] && t.rounds == map[p := 1]
      && (forall e :: IsOn(t.regs, e) <==> e != p && IsOn(r, e))
      && LogOf(t.log, p) == UpActs(b, p, IsOn(r, p)) + DownActs(b, p, false)
  {
    TakeAndGiveBalanced(p);
    ServeTwo(b, Booted(r), Prepare(p), Unprepare(p));
    var t1 := TakeRoot(b, r, p);
    GiveRoot(b, t1, p);
  }

  /** Every pre-clock is enabled exactly as often as prepared domains list it. */
  lemma ClocksBalance(b: Board, r: Regs, qs: seq<Request>, c: Clk)
    requires Wf(b) && Balanced(map[], qs)
    ensures var t := ServeAll(b, Booted(r), qs); At(t.clks, c) == Users(b, t, c)
  {
    RunInv(b, r, qs);
    assert ClockOk(b, ServeAll(b, Booted(r), qs), c);
  }

  /** The whole history of a domain is complete rounds, plus one way up while it is prepared. */
  lemma HistoryIsRounds(b: Board, r: Regs, qs: seq<Request>, d: Domain)
    requires Wf(b) && Balanced(map[], qs)
    ensures var t := ServeAll(b, Booted(r), qs);
      LogOf(t.log, d) == Hist(b, d, IsOn(r, d), At(t.rounds, d), At(t.count, d) > 0)
  {
    RunInv(b, r, qs);
    assert LogOk(b, OnAtBoot(r), ServeAll(b, Booted(r), qs), d);
  }

  function MaxDepth(ds: seq<Domain>, b: Board): nat {
    if ds == [] then 0
    else if At(b.depths, ds[0]) > MaxDepth(ds[1..], b) then At(b.depths, ds[0]) else MaxDepth(ds[1..], b)
  }

  lemma {:induction false} MaxDepthBounds(ds: seq<Domain>, b: Board, d: Domain)
    requires Times(ds, d) > 0
    ensures At(b.depths, d) <= MaxDepth(ds, b)
  {
    if ds[0] == d {
    } else {
      MaxDepthBounds(ds[1..], b, d);
    }
  }

  lemma {:induction false} NobodyWants(b: Board, wants: map<Domain, nat>, t: Tree, d: Domain)
    requires Wf(b) && CountsOk(b, wants, t) && forall e: Domain :: At(wants, e) == 0
    ensures At(t.count, d) == 0
    decreases MaxDepth(b.gates, b) - At(b.depths, d)
  {
    MaxDepthBounds(b.gates, b, d);
    assert CountOk(b, wants, t, d);
    forall e ensures Kid(b, t, d, e) == 0 {
      if Parent(b, e) == Some(d) {
        MaxDepthBounds(b.gates, b, e);
        NobodyWants(b, wants, t, e);
      }
    }
    NoKids(b.gates, b, t, d);
  }

  /** Once every prepare has been given back, nothing is held: every count is zero, every pre-clock
      is disabled, and every domain is off unless boot left it on and nobody ever took it. */
  lemma AllGivenBack(b: Board, r: Regs, qs: seq<Request>, d: Domain, c: Clk)
    requires Wf(b) && Balanced(map[], qs) && forall e: Domain :: At(WantAll(map[], qs), e) == 0
    ensures var t := ServeAll(b, Booted(r), qs);
      At(t.count, d) == 0 && At(t.clks, c) == 0 && (IsOn(t.regs, d) <==> IsOn(r, d) && At(t.rounds, d) == 0)
  {
    RunInv(b, r, qs);
    var t := ServeAll(b, Booted(r), qs);
    forall e ensures At(t.count, e) == 0 {
      NobodyWants(b, WantAll(map[], qs), t, e);
    }
    NoUsers(b.gates, b, t, c);
    assert PowerOk(OnAtBoot(r), t, d) && ClockOk(b, t, c);
  }

  // ------------------------------------------------------------------ brackets

  /** How far up a domain is, from the point of view of its own history. */
  datatype Phase = Cut | Powered | Open

  /** The order a domain's history must keep: power before bus, callbacks only while the bus is open,
      bus closed before power is cut. */
  function Next(p: Phase, a: Act): Option<Phase> {
    match a
    case Power(on) => if on then (if p.Cut? then Some(Powered) else None) else (if p.Powered? then Some(Cut) else None)
    case Bus(open) =>
      if open then (if p.Powered? then Some(Open) else None) else (if p.Open? then Some(Powered) else None)
    case AfterOn(_) => if p.Open? then Some(Open) else None
    case BeforeOff(_) => if p.Open? then Some(Open) else None
    case ClkOn(_) => Some(p)
    case ClkOff(_) => Some(p)
  }

  function Replay(p: Phase, acts: seq<Act>): Option<Phase>
    decreases |acts|
  {
    if acts == [] then Some(p)
    else match Next(p, acts[0]) case None => None case Some(q) => Replay(q, acts[1..])
  }

  lemma {:induction false} ReplayAppend(p: Phase, x: seq<Act>, y: seq<Act>)
    ensures Replay(p, x + y) == match Replay(p, x) case None => None case Some(q) => Replay(q, y)
    decreases |x|
  {
    if x == [] {
      assert x + y == y;
    } else {
      assert (x + y)[0] == x[0] && (x + y)[1..] == x[1..] + y;
      if Next(p, x[0]).Some? {
        ReplayAppend(Next(p, x[0]).value, x[1..], y);
      }
    }
  }

  lemma {:induction false} ReplayClocks(p: Phase, names: seq<Clk>)
    ensures Replay(p, On(names)) == Some(p) && Replay(p, Off(names)) == Some(p)
    decreases |names|
  {
    if names == [] {
    } else {
      assert On(names)[1..] == On(names[1..]) && Off(names)[1..] == Off(names[1..]);
      ReplayClocks(p, names[1..]);
    }
  }

  lemma {:induction false} ReplayCalls(acts: seq<Act>)
    requires forall a :: a in acts ==> IsCall(a)
    ensures Replay(Open, acts) == Some(Open)
    decreases |acts|
  {
    if acts == [] {
    } else {
      assert IsCall(acts[0]);
      ReplayCalls(acts[1..]);
    }
  }

  /** Where a domain that is up rests. */
  function Top(b: Board, d: Domain): Phase {
    if OpsOf(b, d).hasBus then Open else Powered
  }

  lemma ReplayOne(p: Phase, a: Act)
    ensures Replay(p, [a]) == Next(p, a)
  {
    assert [a][1..] == [];
  }

  lemma UpReplays(b: Board, d: Domain, skip: bool)
    ensures Replay(if skip then Top(b, d) else Cut, UpActs(b, d, skip)) == Some(Top(b, d))
  {
    var p := if skip then Top(b, d) else Cut;
    var power := if skip then [] else [Power(true)];
    var bus := UpBus(b, d, skip);
    ReplayClocks(p, Pre1(b, d));
    ReplayOne(Cut, Power(true));
    ReplayClocks(if skip then p else Powered, Pre2(b, d));
    ReplayOne(Powered, Bus(true));
    OnlyCalls(b.cbs);
    ReplayCalls(Afters(b.cbs));
    ReplayAppend(Powered, [Bus(true)], Afters(b.cbs));
    ReplayAppend(p, On(Pre1(b, d)), power);
    ReplayAppend(p, On(Pre1(b, d)) + power, On(Pre2(b, d)));
    ReplayAppend(p, On(Pre1(b, d)) + power + On(Pre2(b, d)), bus);
  }

  lemma DownReplays(b: Board, d: Domain)
    ensures Replay(Top(b, d), DownActs(b, d, false)) == Some(Cut)
  {
    var bus := DownBus(b, d, false);
    OnlyCalls(b.cbs);
    ReplayCalls(Befores(b.cbs));
    ReplayOne(Open, Bus(false));
    ReplayAppend(Open, Befores(b.cbs), [Bus(false)]);
    ReplayClocks(Powered, Pre2(b, d));
    ReplayOne(Powered, Power(false));
    ReplayClocks(Cut, Pre1(b, d));
    ReplayAppend(Top(b, d), bus, Off(Pre2(b, d)));
    ReplayAppend(Top(b, d), bus + Off(Pre2(b, d)), [Power(false)]);
    ReplayAppend(Top(b, d), bus + Off(Pre2(b, d)) + [Power(false)], Off(Pre1(b, d)));
  }

  lemma {:induction false} HistReplays(b: Board, d: Domain, found: bool, n: nat, up: bool)
    ensures Replay(if found then Top(b, d) else Cut, Hist(b, d, found, n, up)) ==
      Some(if up || (found && n == 0) then Top(b, d) else Cut)
    decreases n, up
  {
    var p := if found then Top(b, d) else Cut;
    if up {
      HistReplays(b, d, found, n, false);
      UpReplays(b, d, found && n == 0);
      ReplayAppend(p, Hist(b, d, found, n, false), UpActs(b, d, found && n == 0));
    } else if n > 0 {
      HistReplays(b, d, found, n - 1, true);
      DownReplays(b, d);
      ReplayAppend(p, Hist(b, d, found, n - 1, true), DownActs(b, d, false));
    }
  }

  /** Callbacks bracket exactly the intervals in which the domain is powered and its own bus open: over
      every balanced run the history of every domain keeps the order, and it ends where the registers say
      its switches are.  (What other domains' sequences do to its protect bits is another matter.) */
  lemma CallbacksBracket(b: Board, r: Regs, qs: seq<Request>, d: Domain)
    requires Wf(b) && Balanced(map[], qs)
    ensures var t := ServeAll(b, Booted(r), qs);
      Replay(if IsOn(r, d) then Top(b, d) else Cut, LogOf(t.log, d)) ==
      Some(if IsOn(t.regs, d) then Top(b, d) else Cut)
  {
    RunInv(b, r, qs);
    var t := ServeAll(b, Booted(r), qs);
    assert PowerOk(OnAtBoot(r), t, d) && LogOk(b, OnAtBoot(r), t, d);
    HistReplays(b, d, IsOn(r, d), At(t.rounds, d), At(t.count, d) > 0);
  }

  lemma DownFromCut(b: Board, d: Domain)
    ensures Replay(Cut, DownActs(b, d, false)).None?
  {
    var bus := DownBus(b, d, false);
    OnlyCalls(b.cbs);
    ReplayAppend(Cut, Befores(b.cbs), [Bus(false)]);
    if Befores(b.cbs) != [] { assert IsCall(Befores(b.cbs)[0]); }
    ReplayOne(Cut, Bus(false));
    ReplayClocks(Cut, Pre2(b, d));
    ReplayOne(Cut, Power(false));
    ReplayAppend(Cut, bus, Off(Pre2(b, d)));
    ReplayAppend(Cut, bus + Off(Pre2(b, d)), [Power(false)]);
    ReplayAppend(Cut, bus + Off(Pre2(b, d)) + [Power(false)], Off(Pre1(b, d)));
  }

  lemma SkippedUpFromCut(b: Board, d: Domain)
    ensures Replay(Cut, UpActs(b, d, true)) == Some(Cut)
  {
    ReplayClocks(Cut, Pre1(b, d));
    ReplayClocks(Cut, Pre2(b, d));
    ReplayAppend(Cut, On(Pre1(b, d)), On(Pre2(b, d)));
    assert UpActs(b, d, true) == On(Pre1(b, d)) + On(Pre2(b, d));
  }

  lemma ReplayStuck(p: Phase, x: seq<Act>, y: seq<Act>)
    requires Replay(p, x).None?
    ensures Replay(p, x + y).None?
  {
    ReplayAppend(p, x, y);
  }

  lemma FirstCut(b: Board, d: Domain)
    ensures Replay(Cut, Hist(b, d, true, 1, false)).None?
  {
    var up := UpActs(b, d, true);
    assert Hist(b, d, true, 0, true) == [] + up == up;
    SkippedUpFromCut(b, d);
    DownFromCut(b, d);
    ReplayAppend(Cut, up, DownActs(b, d, false));
  }

  lemma {:induction false} LaterCuts(b: Board, d: Domain, n: nat, up: bool)
    requires n > 0
    ensures Replay(Cut, Hist(b, d, true, n, up)).None?
    decreases n, up
  {
    if up {
      LaterCuts(b, d, n, false);
      ReplayStuck(Cut, Hist(b, d, true, n, false), UpActs(b, d, false));
    } else if n == 1 {
      FirstCut(b, d);
    } else {
      LaterCuts(b, d, n - 1, true);
      ReplayStuck(Cut, Hist(b, d, true, n - 1, true), DownActs(b, d, false));
    }
  }

  /** Read from the off state the order is kept exactly unless the domain was found on at boot and has
      been through a cut since: that cut called before_off without any after_on before it. */
  lemma HistFromCut(b: Board, d: Domain, found: bool, n: nat, up: bool)
    ensures Replay(Cut, Hist(b, d, found, n, up)).Some? <==> !(found && n > 0)
  {
    if !found {
      HistReplays(b, d, found, n, up);
    } else if n > 0 {
      LaterCuts(b, d, n, up);
    } else if up {
      SkippedUpFromCut(b, d);
      assert Hist(b, d, true, 0, true) == [] + UpActs(b, d, true) == UpActs(b, d, true);
    }
  }

  /** As a callback's owner would see it: over every balanced run, a domain's history read from the off
      state keeps the bracketing exactly unless the domain was found on at boot and has been cut since. */
  lemma BracketsFromCut(b: Board, r: Regs, qs: seq<Request>, d: Domain)
    requires Wf(b) && Balanced(map[], qs)
    ensures var t := ServeAll(b, Booted(r), qs);
      Replay(Cut, LogOf(t.log, d)).Some? <==> !(IsOn(r, d) && At(t.rounds, d) > 0)
  {
    RunInv(b, r, qs);
    var t := ServeAll(b, Booted(r), qs);
    assert LogOk(b, OnAtBoot(r), t, d);
    HistFromCut(b, d, IsOn(r, d), At(t.rounds, d), At(t.count, d) > 0);
  }
}
