/** Pre-clocks in the histories of the clock tree, and the histories of this chip's own gates written out
    (clk-mt6768-pg.c). */
module PowerClocks {
  import opened PowerScripts
  import opened PowerDomains
  import opened PowerTree
  import opened PowerGates

  // ------------------------------------------------------------------ which clocks are used

  predicate AllFound(found: set<Clk>, names: seq<Clk>) {
    forall c :: c in names ==> c in found
  }

  /** The usable pre-clocks are the listed ones up to the first whose lookup fails. */
  lemma {:induction false} UsablePrefix(found: set<Clk>, names: seq<Clk>)
    ensures var u := Usable(found, names);
      && |u| <= |names| && u == names[..|u|] && AllFound(found, u)
      && (|u| < |names| ==> names[|u|] !in found)
  {
    if names == [] || names[0] !in found {
    } else {
      UsablePrefix(found, names[1..]);
      var u := Usable(found, names[1..]);
      assert Usable(found, names) == [names[0]] + u;
      assert names[..|u| + 1] == [names[0]] + names[1..][..|u|];
    }
  }

  // ------------------------------------------------------------------ clocked while powered

  function Delta(a: Act, c: Clk): int {
    if a == ClkOn(c) then 1 else if a == ClkOff(c) then -1 else 0
  }

  /** How often a history has enabled a clock more than disabled it. */
  function Net(acts: seq<Act>, c: Clk): int
    decreases |acts|
  {
    if acts == [] then 0 else Delta(acts[0], c) + Net(acts[1..], c)
  }

  /** How often a domain lists a clock among its first pre-clocks, and among all of them. */
  datatype Listing = Listing(first: nat, all: nat)

  function ListingOf(b: Board, d: Domain, c: Clk): Listing {
    Listing(Occurs(Pre1(b, d), c), Lists(b, d, c))
  }

  /** The switches move only while the domain's first pre-clocks run; its bus is opened or closed, and its
      callbacks called, only while all of them do. */
  predicate MayAct(n: Listing, held: int, a: Act) {
    (a.Power? ==> held >= n.first) && (a.Bus? || IsCall(a) ==> held >= n.all)
  }

  /** So it is all along a history, for one clock, held that often when it begins. */
  predicate Clocked(n: Listing, c: Clk, held: int, acts: seq<Act>)
    decreases |acts|
  {
    acts != [] ==> MayAct(n, held, acts[0]) && Clocked(n, c, held + Delta(acts[0], c), acts[1..])
  }

  lemma {:induction false} ClockedAppend(n: Listing, c: Clk, held: int, x: seq<Act>, y: seq<Act>)
    ensures Clocked(n, c, held, x + y) <==> Clocked(n, c, held, x) && Clocked(n, c, held + Net(x, c), y)
    ensures Net(x + y, c) == Net(x, c) + Net(y, c)
    decreases |x|
  {
    if x == [] {
      assert x + y == y;
    } else {
      assert (x + y)[0] == x[0] && (x + y)[1..] == x[1..] + y;
      ClockedAppend(n, c, held + Delta(x[0], c), x[1..], y);
    }
  }

  lemma {:induction false} ClocksClocked(n: Listing, c: Clk, held: int, names: seq<Clk>)
    ensures Clocked(n, c, held, On(names)) && Net(On(names), c) == Occurs(names, c)
    ensures Clocked(n, c, held, Off(names)) && Net(Off(names), c) == 0 - Occurs(names, c)
    decreases |names|
  {
    if names == [] {
    } else {
      assert On(names)[1..] == On(names[1..]) && Off(names)[1..] == Off(names[1..]);
      ClocksClocked(n, c, held + Delta(ClkOn(names[0]), c), names[1..]);
      ClocksClocked(n, c, held + Delta(ClkOff(names[0]), c), names[1..]);
    }
  }

  /** What happens on the bus moves no clock. */
  lemma {:induction false} BusClocked(n: Listing, c: Clk, held: int, acts: seq<Act>)
    requires (forall a :: a in acts ==> a.Bus? || IsCall(a)) && held >= n.all
    ensures Clocked(n, c, held, acts) && Net(acts, c) == 0
    decreases |acts|
  {
    if acts == [] {
    } else {
      assert acts[0] in acts;
      BusClocked(n, c, held, acts[1..]);
    }
  }

  lemma PowerClocked(n: Listing, c: Clk, held: int, on: bool)
    requires held >= n.first
    ensures Clocked(n, c, held, [Power(on)]) && Net([Power(on)], c) == 0
  {
    assert [Power(on)][1..] == [];
  }

  lemma BusActs(b: Board, d: Domain, skip: bool)
    ensures forall a :: a in UpBus(b, d, skip) || a in DownBus(b, d, skip) ==> a.Bus? || IsCall(a)
  {
    OnlyCalls(b.cbs);
  }

  /** Held `from` times before a piece of history, `to` times after it, and clocked throughout. */
  predicate Piece(n: Listing, c: Clk, from: int, acts: seq<Act>, to: int) {
    Clocked(n, c, from, acts) && from + Net(acts, c) == to
  }

  lemma Joined(n: Listing, c: Clk, from: int, x: seq<Act>, mid: int, y: seq<Act>, to: int)
    requires Piece(n, c, from, x, mid) && Piece(n, c, mid, y, to)
    ensures Piece(n, c, from, x + y, to)
  {
    ClockedAppend(n, c, from, x, y);
  }

  lemma UpPieces(c: Clk, pre1: seq<Clk>, pre2: seq<Clk>, bus: seq<Act>, power: seq<Act>, n: Listing)
    requires n == Listing(Occurs(pre1, c), Occurs(pre1, c) + Occurs(pre2, c)) && power in {[], [Power(true)]}
    requires forall a :: a in bus ==> a.Bus? || IsCall(a)
    ensures Piece(n, c, 0, On(pre1), n.first) && Piece(n, c, n.first, power, n.first)
    ensures Piece(n, c, n.first, On(pre2), n.all) && Piece(n, c, n.all, bus, n.all)
  {
    ClocksClocked(n, c, 0, pre1);
    PowerClocked(n, c, n.first, true);
    ClocksClocked(n, c, n.first, pre2);
    BusClocked(n, c, n.all, bus);
  }

  lemma DownPieces(c: Clk, pre1: seq<Clk>, pre2: seq<Clk>, bus: seq<Act>, n: Listing)
    requires n == Listing(Occurs(pre1, c), Occurs(pre1, c) + Occurs(pre2, c))
    requires forall a :: a in bus ==> a.Bus? || IsCall(a)
    ensures Piece(n, c, n.all, bus, n.all) && Piece(n, c, n.all, Off(pre2), n.first)
    ensures Piece(n, c, n.first, [Power(false)], n.first) && Piece(n, c, n.first, Off(pre1), 0)
  {
    BusClocked(n, c, n.all, bus);
    ClocksClocked(n, c, n.all, pre2);
    PowerClocked(n, c, n.first, false);
    ClocksClocked(n, c, n.first, pre1);
  }

  lemma FourJoined(n: Listing, c: Clk, h: seq<int>, w: seq<Act>, x: seq<Act>, y: seq<Act>, z: seq<Act>)
    requires |h| == 5 && Piece(n, c, h[0], w, h[1]) && Piece(n, c, h[1], x, h[2])
    requires Piece(n, c, h[2], y, h[3]) && Piece(n, c, h[3], z, h[4])
    ensures Piece(n, c, h[0], w + x + y + z, h[4])
  {
    Joined(n, c, h[0], w, h[1], x, h[2]);
    Joined(n, c, h[0], w + x, h[2], y, h[3]);
    Joined(n, c, h[0], w + x + y, h[3], z, h[4]);
  }

  lemma UpClocked(b: Board, d: Domain, c: Clk, skip: bool)
    ensures Piece(ListingOf(b, d, c), c, 0, UpActs(b, d, skip), Lists(b, d, c))
  {
    var n, power := ListingOf(b, d, c), if skip then [] else [Power(true)];
    BusActs(b, d, skip);
    UpPieces(c, Pre1(b, d), Pre2(b, d), UpBus(b, d, skip), power, n);
    FourJoined(n, c, [0, n.first, n.first, n.all, n.all], On(Pre1(b, d)), power, On(Pre2(b, d)), UpBus(b, d, skip));
  }

  lemma DownClocked(b: Board, d: Domain, c: Clk)
    ensures Piece(ListingOf(b, d, c), c, Lists(b, d, c), DownActs(b, d, false), 0)
  {
    var n := ListingOf(b, d, c);
    BusActs(b, d, false);
    DownPieces(c, Pre1(b, d), Pre2(b, d), DownBus(b, d, false), n);
    FourJoined(n, c, [n.all, n.all, n.first, n.first, 0], DownBus(b, d, false), Off(Pre2(b, d)), [Power(false)],
               Off(Pre1(b, d)));
  }

  lemma {:induction false} HistClocked(b: Board, d: Domain, c: Clk, found: bool, n: nat, up: bool)
    ensures Piece(ListingOf(b, d, c), c, 0, Hist(b, d, found, n, up), if up then Lists(b, d, c) else 0)
    decreases n, up
  {
    var m, all := ListingOf(b, d, c), Lists(b, d, c);
    if up {
      HistClocked(b, d, c, found, n, false);
      UpClocked(b, d, c, found && n == 0);
      Joined(m, c, 0, Hist(b, d, found, n, false), 0, UpActs(b, d, found && n == 0), all);
    } else if n > 0 {
      HistClocked(b, d, c, found, n - 1, true);
      DownClocked(b, d, c);
      Joined(m, c, 0, Hist(b, d, found, n - 1, true), all, DownActs(b, d, false), 0);
    }
  }

  /** Over every balanced run, a domain's switches move only while its own history keeps its first pre-clocks
      enabled, and its bus and callbacks are only touched while it keeps all of them; at rest it keeps
      each as often as it lists it while prepared, and not at all otherwise. */
  lemma ClockedWhilePowered(b: Board, r: Regs, qs: seq<Request>, d: Domain, c: Clk)
    requires Wf(b) && Balanced(map[], qs)
    ensures var t := ServeAll(b, Booted(r), qs);
      && Clocked(ListingOf(b, d, c), c, 0, LogOf(t.log, d))
      && Net(LogOf(t.log, d), c) == if At(t.count, d) > 0 then Lists(b, d, c) else 0
  {
    HistoryIsRounds(b, r, qs, d);
    var t := ServeAll(b, Booted(r), qs);
    HistClocked(b, d, c, IsOn(r, d), At(t.rounds, d), At(t.count, d) > 0);
  }

  // ------------------------------------------------------------------ this chip's gates, written out

  function Noted(d: Domain, acts: seq<Act>): seq<Note> {
    if acts == [] then [] else [Note(d, acts[0])] + Noted(d, acts[1..])
  }

  lemma {:induction false} PerformNotes(b: Board, t: Tree, d: Domain, acts: seq<Act>)
    ensures Perform(b, t, d, acts).log == t.log + Noted(d, acts)
    decreases |acts|
  {
    if acts == [] {
      assert t.log + Noted(d, acts) == t.log;
    } else {
      DoNotes(b, t, d, acts[0]);
      PerformNotes(b, Do(b, t, d, acts[0]), d, acts[1..]);
      Regrouped(t.log, [Note(d, acts[0])], Noted(d, acts[1..]));
    }
  }

  lemma DoNotes(b: Board, t: Tree, d: Domain, a: Act)
    ensures Do(b, t, d, a).log == t.log + [Note(d, a)]
  {
  }

  function Clks(names: seq<string>): seq<Clk> {
    seq(|names|, i requires 0 <= i < |names| => Clk(names[i]))
  }

  /** The clocks a domain has enabled before its switches are turned on. */
  function BeforePower(d: Domain): seq<string> {
    match d
    case DIS => ["mm_sel"]
    case MFG_ASYNC => ["mfg_sel"]
    case _ => []
  }

  /** And those before its bus is opened. */
  function BeforeBus(d: Domain): seq<string> {
    match d
    case DIS => ["mm_smi_common", "mm_smi_comm0", "mm_smi_comm1", "mm_smi_larb0", "mm_cam_mdp_ck"]
    case ISP => ["img_larb2", "mm_smi_img_ck", "img_dip", "img_fdvt", "img_dpe"]
    case CAM => ["cam_larb3", "cam_dfp_vad", "cam", "cam_ccu", "mm_smi_cam_ck"]
    case VENC => ["venc_set1_venc"]
    case VDEC => ["vdec_cken", "vdec_active", "vdec_cken_eng", "vdec_larb1_cken"]
    case _ => []
  }

  predicate WithBus(d: Domain) {
    d in {MD1, CONN, DPY, DIS, MFG, ISP, CAM, VENC, VDEC}
  }

  /** What happens to a domain on its way up and on its way down, with one callback registered. */
  function WayUp(d: Domain, id: nat): seq<Act> {
    On(Clks(BeforePower(d))) + [Power(true)] + On(Clks(BeforeBus(d))) +
    (if WithBus(d) then [Bus(true), AfterOn(id)] else [])
  }

  function WayDown(d: Domain, id: nat): seq<Act> {
    (if WithBus(d) then [BeforeOff(id), Bus(false)] else []) +
    Off(Clks(BeforeBus(d))) + [Power(false)] + Off(Clks(BeforePower(d)))
  }

  /** The lookup finds every clock a domain lists. */
  predicate Finds(found: set<Clk>, d: Domain) {
    AllFound(found, Clks(BeforePower(d))) && AllFound(found, Clks(BeforeBus(d)))
  }

  lemma ListsWritten()
    ensures MM_CG1 == Clks(BeforePower(DIS)) && MFG_CG == Clks(BeforePower(MFG_ASYNC)) && MM_CG2 == Clks(BeforeBus(DIS))
    ensures ISP_CG == Clks(BeforeBus(ISP)) && CAM_CG == Clks(BeforeBus(CAM))
    ensures VENC_CG == Clks(BeforeBus(VENC)) && VDEC_CG == Clks(BeforeBus(VDEC)) && Clks([]) == []
  {
  }

  lemma ListedBeforePower(pre1: map<Domain, seq<Clk>>, d: Domain)
    requires pre1 == map[DIS := MM_CG1, MFG_ASYNC := MFG_CG]
    ensures (if d in pre1 then pre1[d] else []) == Clks(BeforePower(d))
  {
    ListsWritten();
  }

  lemma ListedBeforeBus(pre2: map<Domain, seq<Clk>>, d: Domain)
    requires pre2 == map[DIS := MM_CG2, ISP := ISP_CG, CAM := CAM_CG, VENC := VENC_CG, VDEC := VDEC_CG]
    ensures (if d in pre2 then pre2[d] else []) == Clks(BeforeBus(d))
  {
    ListsWritten();
  }

  lemma OneCallback(cb: Callback)
    requires cb.afterOn && cb.beforeOff
    ensures Afters([cb]) == [AfterOn(cb.id)] && Befores([cb]) == [BeforeOff(cb.id)]
  {
    assert [cb][1..] == [];
  }

  lemma BusDomains(d: Domain)
    ensures HasBus(d) <==> WithBus(d)
  {
  }

  lemma BusWritten(b: Board, cb: Callback, d: Domain)
    requires b.cbs == [cb] && cb.afterOn && cb.beforeOff && OpsOf(b, d).hasBus == HasBus(d)
    ensures UpBus(b, d, false) == if WithBus(d) then [Bus(true), AfterOn(cb.id)] else []
    ensures DownBus(b, d, false) == if WithBus(d) then [BeforeOff(cb.id), Bus(false)] else []
  {
    OneCallback(cb);
    BusDomains(d);
  }

  lemma WaysFrom(b: Board, d: Domain, id: nat)
    requires Pre1(b, d) == Clks(BeforePower(d)) && Pre2(b, d) == Clks(BeforeBus(d))
    requires UpBus(b, d, false) == if WithBus(d) then [Bus(true), AfterOn(id)] else []
    requires DownBus(b, d, false) == if WithBus(d) then [BeforeOff(id), Bus(false)] else []
    ensures UpActs(b, d, false) == WayUp(d, id) && DownActs(b, d, false) == WayDown(d, id)
  {
  }

  lemma PreClocks(b: Board, d: Domain, one: seq<Clk>, two: seq<Clk>)
    requires one == (if d in b.pre1 then b.pre1[d] else []) && AllFound(b.found, one)
    requires two == (if d in b.pre2 then b.pre2[d] else []) && AllFound(b.found, two)
    ensures Pre1(b, d) == one && Pre2(b, d) == two
  {
    UsablePrefix(b.found, one);
    UsablePrefix(b.found, two);
  }

  /** Every domain's way up and way down on this chip, step by step. */
  lemma WaysWritten(b: Board, found: set<Clk>, cb: Callback, d: Domain)
    requires b == Mt6768(found, [cb]) && cb.afterOn && cb.beforeOff && Finds(found, d)
    ensures UpActs(b, d, false) == WayUp(d, cb.id) && DownActs(b, d, false) == WayDown(d, cb.id)
  {
    ListedBeforePower(b.pre1, d);
    ListedBeforeBus(b.pre2, d);
    PreClocks(b, d, Clks(BeforePower(d)), Clks(BeforeBus(d)));
    GatesRun(b, found, [cb], d);
    BusWritten(b, cb, d);
    WaysFrom(b, d, cb.id);
  }

  /** A gate with the gates above it, root first. */
  function Chain(d: Domain): seq<Domain> {
    match d
    case ISP => [DIS, ISP]
    case CAM => [DIS, CAM]
    case VENC => [DIS, VENC]
    case VDEC => [DIS, VDEC]
    case MFG => [MFG_ASYNC, MFG]
    case MFG_CORE0 => [MFG_ASYNC, MFG, MFG_CORE0]
    case MFG_CORE1 => [MFG_ASYNC, MFG, MFG_CORE1]
    case _ => [d]
  }

  function Story(ds: seq<Domain>, id: nat): seq<Note> {
    if ds == [] then [] else Story(ds[..|ds| - 1], id) + Noted(ds[|ds| - 1], WayUp(ds[|ds| - 1], id))
  }

  ghost predicate ChainOk(b: Board, d: Domain) {
    match Parent(b, d)
    case None => Chain(d) == [d]
    case Some(p) => Chain(d) == Chain(p) + [d] && d !in Chain(p)
  }

  /** Gates, parents and ways up are as written. */
  ghost predicate Tells(b: Board, id: nat) {
    && Wf(b) && (forall d :: ChainOk(b, d))
    && (forall d :: UpActs(b, d, false) == WayUp(d, id))
  }

  lemma ChainStep(b: Board, found: set<Clk>, cbs: seq<Callback>, d: Domain)
    requires b == Mt6768(found, cbs)
    ensures ChainOk(b, d)
  {
    ParentWritten(b, found, cbs, d);
    ChainOfParent(d);
  }

  lemma ParentWritten(b: Board, found: set<Clk>, cbs: seq<Callback>, d: Domain)
    requires b == Mt6768(found, cbs)
    ensures Parent(b, d) == ParentOf(d)
  {
  }

  lemma ChainOfParent(d: Domain)
    ensures match ParentOf(d) case None => Chain(d) == [d] case Some(p) => Chain(d) == Chain(p) + [d] && d !in Chain(p)
  {
  }

  lemma StorySnoc(ds: seq<Domain>, d: Domain, id: nat)
    ensures Story(ds + [d], id) == Story(ds, id) + Noted(d, WayUp(d, id))
  {
    assert (ds + [d])[..|ds + [d]| - 1] == ds;
  }

  lemma GateStory(b: Board, id: nat, t: Tree, d: Domain)
    requires Tells(b, id) && !IsOn(t.regs, d)
    ensures PgPrepare(b, t, d).log == t.log + Noted(d, WayUp(d, id))
    ensures forall e :: IsOn(PgPrepare(b, t, d).regs, e) <==> e == d || IsOn(t.regs, e)
  {
    PerformNotes(b, t, d, UpActs(b, d, false));
    PrepareRises(b, t, d);
  }

  lemma RootStory(b: Board, id: nat, t: Tree, d: Domain)
    requires Tells(b, id) && Parent(b, d).None? && !IsOn(t.regs, d) && At(t.count, d) == 0
    ensures ClkPrepare(b, t, d).log == t.log + Story(Chain(d), id)
    ensures forall e :: IsOn(ClkPrepare(b, t, d).regs, e) <==> e in Chain(d) || IsOn(t.regs, e)
  {
    assert ChainOk(b, d);
    PrepareRoot(b, t, d);
    GateStory(b, id, t, d);
    StorySnoc([], d, id);
    assert [] + [d] == [d] && Story([], id) + Noted(d, WayUp(d, id)) == Noted(d, WayUp(d, id));
  }

  lemma ChildPower(b: Board, id: nat, t: Tree, d: Domain, p: Domain, u: Tree)
    requires Tells(b, id) && Chain(d) == Chain(p) + [d] && !IsOn(u.regs, d)
    requires forall e :: IsOn(u.regs, e) <==> e in Chain(p) || IsOn(t.regs, e)
    ensures forall e :: IsOn(PgPrepare(b, u, d).regs, e) <==> e in Chain(d) || IsOn(t.regs, e)
  {
    GateStory(b, id, u, d);
  }

  lemma Regrouped(x: seq<Note>, y: seq<Note>, z: seq<Note>)
    ensures (x + y) + z == x + (y + z)
  {
  }

  lemma ChildStory(b: Board, id: nat, t: Tree, d: Domain, p: Domain, u: Tree)
    requires Tells(b, id) && Chain(d) == Chain(p) + [d] && !IsOn(u.regs, d)
    requires u.log == t.log + Story(Chain(p), id)
    ensures PgPrepare(b, u, d).log == t.log + Story(Chain(d), id)
  {
    var own, above := Noted(d, WayUp(d, id)), Story(Chain(p), id);
    GateStory(b, id, u, d);
    StorySnoc(Chain(p), d, id);
    Regrouped(t.log, above, own);
  }

  lemma {:induction false} PrepareStory(b: Board, id: nat, t: Tree, d: Domain)
    requires Tells(b, id) && forall e :: e in Chain(d) ==> !IsOn(t.regs, e) && At(t.count, e) == 0
    ensures ClkPrepare(b, t, d).log == t.log + Story(Chain(d), id)
    ensures forall e :: IsOn(ClkPrepare(b, t, d).regs, e) <==> e in Chain(d) || IsOn(t.regs, e)
    decreases At(b.depths, d)
  {
    assert ChainOk(b, d);
    if Parent(b, d).None? {
      RootStory(b, id, t, d);
    } else {
      PrepareStory(b, id, t, Parent(b, d).value);
      ChildStory(b, id, t, d, Parent(b, d).value, ClkPrepare(b, t, Parent(b, d).value));
      ChildPower(b, id, t, d, Parent(b, d).value, ClkPrepare(b, t, Parent(b, d).value));
      PrepareChild(b, t, d, Parent(b, d).value);
    }
  }

  /** With all clocks found, and a gate and its ancestors off, its first prepare writes this history: the
      ancestors' ways up, root first, then its own; and nobody else's power moves. */
  lemma FirstPrepare(b: Board, found: set<Clk>, cb: Callback, r: Regs, d: Domain)
    requires b == Mt6768(found, [cb]) && cb.afterOn && cb.beforeOff && forall e :: Finds(found, e)
    requires forall e :: e in Chain(d) ==> !IsOn(r, e)
    ensures Wf(b) && ClkPrepare(b, Booted(r), d).log == Story(Chain(d), cb.id)
    ensures forall e :: IsOn(ClkPrepare(b, Booted(r), d).regs, e) <==> e in Chain(d) || IsOn(r, e)
  {
    Mt6768Wf(b, found, [cb]);
    forall e ensures ChainOk(b, e) && UpActs(b, e, false) == WayUp(e, cb.id) {
      ChainStep(b, found, [cb], e);
      WaysWritten(b, found, cb, e);
    }
    PrepareStory(b, cb.id, Booted(r), d);
    assert [] + Story(Chain(d), cb.id) == Story(Chain(d), cb.id);
  }
}
