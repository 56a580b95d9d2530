/** The coulomb threshold service (mtk_gauge_coulomb_service.c): the locked sections of start,
    stop, wake-up and the interrupt handler, first as functions of the service state, then as
    the methods that update it in place. */
module CoulombService {
  import opened Sublists
  import opened WaitLists

  /** One hardware comparator, as the absolute counter level it fires at. */
  datatype Arm = Off | At(level: int)

  /** The driver writes a distance from the current count; 0 switches the comparator off. */
  function Program(dir: Dir, distance: int, count: int): Arm {
    if distance == 0 then Off
    else At(if dir.Rise? then count + distance else count - distance)
  }

  const WAKE_DISTANCE := 300

  datatype Svc = Svc(plus: seq<Entry>, minus: seq<Entry>, ht: Arm, lt: Arm, flag: bool) {
    function Side(dir: Dir): seq<Entry> {
      if dir.Rise? then plus else minus
    }

    function Cmp(dir: Dir): Arm {
      if dir.Rise? then ht else lt
    }

    function WithSide(dir: Dir, l: seq<Entry>): Svc {
      if dir.Rise? then this.(plus := l) else this.(minus := l)
    }

    function WithCmp(dir: Dir, a: Arm): Svc {
      if dir.Rise? then this.(ht := a) else this.(lt := a)
    }

    /** Both lists ordered, every consumer linked at most once across the two. */
    ghost predicate Wf() {
      && Sorted(Rise, plus) && Sorted(Fall, minus)
      && Distinct(plus) && Distinct(minus)
      && forall i, j :: 0 <= i < |plus| && 0 <= j < |minus| ==> plus[i].id != minus[j].id
    }

    function DueIn(dir: Dir, count: int): seq<Entry> {
      DueOnly(dir, Side(dir), count)
    }
  }

  // ------------------------------------------------------------------ the operations

  function Unlink(s: Svc, id: nat): Svc {
    s.(plus := Remove(s.plus, id), minus := Remove(s.minus, id))
  }

  function Towards(car: int): Dir {
    if car > 0 then Rise else Fall
  }

  /** The waiting list once the consumer has been relinked with a fresh threshold. */
  function Relinked(s: Svc, id: nat, car: int, count: int): seq<Entry> {
    Insert(Towards(car), Unlink(s, id).Side(Towards(car)), Entry(id, count, count + car, car))
  }

  /** What start programs: the distance to the entry its second walk stops at, the first pending one. */
  function Nearest(dir: Dir, l: seq<Entry>, count: int): Arm
    requires l != []
  {
    LeadSplits(dir, l, count);
    var k := Lead(dir, l, count);
    Program(dir, Gap(dir, l[if k < |l| then k else |l| - 1].end, count), count)
  }

  /** The locked section of gauge_coulomb_start: the new state, and whether to wake the thread. */
  function StartLocked(s: Svc, id: nat, car: int, count: int): (Svc, bool) {
    var dir := Towards(car);
    var l := Relinked(s, id, car, count);
    InsertMembers(dir, Unlink(s, id).Side(dir), Entry(id, count, count + car, car));
    (Unlink(s, id).WithSide(dir, l).WithCmp(dir, Nearest(dir, l, count)), Lead(dir, l, count) > 0)
  }

  /** wake_up_gauge_coulomb: both comparators 300 away, then the thread is flagged. */
  function WakeUp(s: Svc, count: int): Svc {
    s.(ht := Program(Rise, WAKE_DISTANCE, count), lt := Program(Fall, WAKE_DISTANCE, count), flag := true)
  }

  function Start(s: Svc, id: nat, car: int, count: int): Svc {
    if car == 0 then s
    else
      var (s', wake) := StartLocked(s, id, car, count);
      if wake then WakeUp(s', count) else s'
  }

  /** What a consumer's callback may do to the service, one call after the other. */
  datatype Op = StartOp(id: nat, car: int) | StopOp(id: nat)

  function RunOp(s: Svc, op: Op, count: int): Svc {
    match op
    case StartOp(id, car) => Start(s, id, car, count)
    case StopOp(id) => Unlink(s, id)
  }

  function RunOps(s: Svc, ops: seq<Op>, count: int): Svc
    decreases |ops|
  {
    if ops == [] then s else RunOps(RunOp(s, ops[0], count), ops[1..], count)
  }

  /** Unlink the head and hand it to its callback, if it has one. */
  function Expire(dir: Dir, s: Svc, count: int, callbacks: map<nat, seq<Op>>): Svc
    requires s.Side(dir) != []
  {
    var e := s.Side(dir)[0];
    var s' := s.WithSide(dir, s.Side(dir)[1..]);
    if e.id in callbacks then RunOps(s', callbacks[e.id], count) else s'
  }

  /** One of the handler's two loops under a steady counter: the state it leaves, and who expired. */
  function Drain(dir: Dir, s: Svc, count: int, callbacks: map<nat, seq<Op>>): (Svc, seq<nat>)
    decreases |s.DueIn(dir, count)|
  {
    if s.Side(dir) == [] || !Due(dir, s.Side(dir)[0], count) then (s, [])
    else
      ExpireShrinks(dir, s, count, callbacks);
      var (s', rest) := Drain(dir, Expire(dir, s, count, callbacks), count, callbacks);
      (s', [s.Side(dir)[0].id] + rest)
  }

  /** Program the comparator for the head of the list, if there is one. */
  function Rearm(dir: Dir, s: Svc, count: int): Svc {
    if s.Side(dir) == [] then s
    else s.WithCmp(dir, Program(dir, Gap(dir, s.Side(dir)[0].end, count), count))
  }

  /** gauge_coulomb_int_handler: the plus list first, then the minus list. */
  function Handle(s: Svc, count: int, callbacks: map<nat, seq<Op>>): (Svc, seq<nat>, seq<nat>) {
    var (s1, up) := Drain(Rise, s, count, callbacks);
    var (s2, down) := Drain(Fall, Rearm(Rise, s1, count), count, callbacks);
    (Rearm(Fall, s2, count), up, down)
  }

  // ------------------------------------------------------------------ shape of the lists

  lemma UnlinkWf(s: Svc, id: nat)
    requires s.Wf()
    ensures Unlink(s, id).Wf()
    ensures forall dir: Dir :: !Linked(Unlink(s, id).Side(dir), id)
  {
    RemoveKeeps(Rise, s.plus, id);
    RemoveKeeps(Fall, s.minus, id);
    var u := Unlink(s, id);
    RemoveMembers(s.plus, id);
    RemoveMembers(s.minus, id);
    forall i, j | 0 <= i < |u.plus| && 0 <= j < |u.minus| ensures u.plus[i].id != u.minus[j].id {
      assert u.plus[i] in s.plus && u.minus[j] in s.minus;
    }
  }

  /** Start keeps both lists ordered and every consumer linked at most once across both lists,
      whatever list it came from and whichever sign it is restarted with. */
  lemma StartWf(s: Svc, id: nat, car: int, count: int)
    requires s.Wf()
    ensures StartLocked(s, id, car, count).0.Wf()
    ensures Start(s, id, car, count).Wf()
  {
    UnlinkWf(s, id);
    var dir := Towards(car);
    var u := Unlink(s, id);
    var e := Entry(id, count, count + car, car);
    InsertKeeps(dir, u.Side(dir), e);
    InsertMembers(dir, u.Side(dir), e);
    var l := Relinked(s, id, car, count);
    var other := u.Side(if dir.Rise? then Fall else Rise);
    forall i, j | 0 <= i < |l| && 0 <= j < |other| ensures l[i].id != other[j].id {
      assert l[i] in l;
      if l[i] != e {
        assert l[i] in u.Side(dir);
      } else {
        assert !Linked(other, id);
      }
    }
  }

  lemma {:induction false} RunOpsWf(s: Svc, ops: seq<Op>, count: int)
    requires s.Wf()
    ensures RunOps(s, ops, count).Wf()
    decreases |ops|
  {
    if ops == [] {
    } else {
      match ops[0] {
        case StartOp(id, car) => StartWf(s, id, car, count);
        case StopOp(id) => UnlinkWf(s, id);
      }
      RunOpsWf(RunOp(s, ops[0], count), ops[1..], count);
    }
  }

  lemma PopWf(dir: Dir, s: Svc)
    requires s.Wf() && s.Side(dir) != []
    ensures s.WithSide(dir, s.Side(dir)[1..]).Wf()
  {
  }

  lemma ExpireWf(dir: Dir, s: Svc, count: int, callbacks: map<nat, seq<Op>>)
    requires s.Wf() && s.Side(dir) != []
    ensures Expire(dir, s, count, callbacks).Wf()
  {
    PopWf(dir, s);
    var e := s.Side(dir)[0];
    if e.id in callbacks {
      RunOpsWf(s.WithSide(dir, s.Side(dir)[1..]), callbacks[e.id], count);
    }
  }

  /** Start is first-come-first-served: the consumer goes behind every waiting consumer at or
      before its threshold, in front of every one beyond it, and nobody else moves. */
  lemma StartIsFifo(s: Svc, id: nat, car: int, count: int) returns (k: nat)
    requires s.Wf() && car != 0
    ensures var dir := Towards(car); var l := Unlink(s, id).Side(dir);
      && k <= |l|
      && Start(s, id, car, count).Side(dir) == l[..k] + [Entry(id, count, count + car, car)] + l[k..]
      && (forall i :: 0 <= i < k ==> Gap(dir, count + car, l[i].end) >= 0)
      && (forall i :: k <= i < |l| ==> Gap(dir, l[i].end, count + car) > 0)
  {
    UnlinkWf(s, id);
    k := InsertSplits(Towards(car), Unlink(s, id).Side(Towards(car)), Entry(id, count, count + car, car));
  }

  // ------------------------------------------------------------------ the comparator

  /** Start always programs the nearest threshold that is still ahead: a strictly positive
      distance, never the off value.  It asks for a wake-up exactly when somebody is already due. */
  lemma StartArmsNearest(s: Svc, id: nat, car: int, count: int)
    requires s.Wf() && car != 0
    ensures var dir := Towards(car); var r := StartLocked(s, id, car, count); var l := r.0.Side(dir);
      && Lead(dir, l, count) < |l|
      && Gap(dir, l[Lead(dir, l, count)].end, count) > 0
      && r.0.Cmp(dir) == At(l[Lead(dir, l, count)].end)
      && (r.1 <==> r.0.DueIn(dir, count) != [])
      && (!r.1 ==> r.0.Cmp(dir) == At(l[0].end))
  {
    StartLead(s, id, car, count);
    var dir := Towards(car);
    var l := Relinked(s, id, car, count);
    assert StartLocked(s, id, car, count).0.Side(dir) == l;
    DueOnlyIsPrefix(dir, l, count);
  }

  lemma StartLead(s: Svc, id: nat, car: int, count: int)
    requires s.Wf() && car != 0
    ensures var dir := Towards(car); var l := Relinked(s, id, car, count);
      Sorted(dir, l) && Lead(dir, l, count) < |l| && Gap(dir, l[Lead(dir, l, count)].end, count) > 0
  {
    var dir := Towards(car);
    var e := Entry(id, count, count + car, car);
    var l := Relinked(s, id, car, count);
    UnlinkWf(s, id);
    assert !Linked(Unlink(s, id).Side(dir), id);
    InsertKeeps(dir, Unlink(s, id).Side(dir), e);
    InsertMembers(dir, Unlink(s, id).Side(dir), e);
    LeadPending(dir, l, count, e);
    LeadSplits(dir, l, count);
  }

  // ------------------------------------------------------------------ what is due

  lemma UnlinkDue(dir: Dir, s: Svc, id: nat, count: int)
    ensures Unlink(s, id).DueIn(dir, count) == Remove(s.DueIn(dir, count), id)
  {
    DueOnlyRemove(dir, s.Side(dir), id, count);
  }

  lemma StartDue(dir: Dir, s: Svc, id: nat, car: int, count: int)
    requires car != 0
    ensures Start(s, id, car, count).DueIn(dir, count) == Remove(s.DueIn(dir, count), id)
  {
    UnlinkDue(dir, s, id, count);
    if dir == Towards(car) {
      DueOnlyInsert(dir, Unlink(s, id).Side(dir), Entry(id, count, count + car, car), count);
    }
  }

  /** Under a steady counter no start or stop makes anybody due. */
  lemma {:induction false} RunOpsDue(dir: Dir, s: Svc, ops: seq<Op>, count: int)
    ensures Sublist(RunOps(s, ops, count).DueIn(dir, count), s.DueIn(dir, count))
    ensures |RunOps(s, ops, count).DueIn(dir, count)| <= |s.DueIn(dir, count)|
    decreases |ops|
  {
    SublistRefl(s.DueIn(dir, count));
    if ops == [] {
    } else {
      var s' := RunOp(s, ops[0], count);
      match ops[0] {
        case StartOp(id, car) => if car != 0 { StartDue(dir, s, id, car, count); }
        case StopOp(id) => UnlinkDue(dir, s, id, count);
      }
      RemoveShortens(s.DueIn(dir, count), ops[0].id);
      RunOpsDue(dir, s', ops[1..], count);
      SublistTrans(RunOps(s, ops, count).DueIn(dir, count), s'.DueIn(dir, count), s.DueIn(dir, count));
    }
  }

  /** A callback that leaves the due consumers alone leaves the due entries as they are. */
  lemma {:induction false} RunOpsSpareDue(dir: Dir, s: Svc, ops: seq<Op>, count: int)
    requires forall op :: op in ops ==> !Linked(s.DueIn(dir, count), op.id)
    ensures RunOps(s, ops, count).DueIn(dir, count) == s.DueIn(dir, count)
    decreases |ops|
  {
    if ops == [] {
    } else {
      var s' := RunOp(s, ops[0], count);
      match ops[0] {
        case StartOp(id, car) => if car != 0 { StartDue(dir, s, id, car, count); }
        case StopOp(id) => UnlinkDue(dir, s, id, count);
      }
      assert ops[0] in ops;
      RemoveUnlinked(s.DueIn(dir, count), ops[0].id);
      RunOpsSpareDue(dir, s', ops[1..], count);
    }
  }

  lemma ExpireShrinks(dir: Dir, s: Svc, count: int, callbacks: map<nat, seq<Op>>)
    requires s.Side(dir) != [] && Due(dir, s.Side(dir)[0], count)
    ensures var s' := Expire(dir, s, count, callbacks);
      && |s'.DueIn(dir, count)| < |s.DueIn(dir, count)|
      && Sublist(s'.DueIn(dir, count), s.DueIn(dir, count)[1..])
  {
    var popped := s.WithSide(dir, s.Side(dir)[1..]);
    assert s.DueIn(dir, count) == [s.Side(dir)[0]] + popped.DueIn(dir, count);
    SublistRefl(popped.DueIn(dir, count));
    var e := s.Side(dir)[0];
    if e.id in callbacks {
      RunOpsDue(dir, popped, callbacks[e.id], count);
    }
  }

  // ------------------------------------------------------------------ the unsigned rebase

  const TWO63 := 0x8000_0000_0000_0000
  const TWO64 := 0x1_0000_0000_0000_0000

  function ToUnsigned(x: int): nat {
    x % TWO64
  }

  function ToSigned(u: int): int
    requires 0 <= u < TWO64
  {
    if u < TWO63 then u else u - TWO64
  }

  function FitsLong(x: int): bool {
    -TWO63 <= x < TWO63
  }

  /** `duraction = ptr->end - now; ptr->end = duraction` with both locals unsigned long. */
  function Rebase(end: int, now: int): int {
    ToSigned((ToUnsigned(end) - ToUnsigned(now)) % TWO64)
  }

  /** The rebase is exact precisely when the distance fits a long, whatever the signs. */
  lemma RebaseExact(end: int, now: int)
    ensures Rebase(end, now) == end - now <==> FitsLong(end - now)
  {
    var u := ToUnsigned(end) - ToUnsigned(now);
    var a, b := end / TWO64, now / TWO64;
    assert end - now == u + TWO64 * (a - b);
    var d := end - now;
    assert u % TWO64 == d % TWO64 by {
      ModShift(u, a - b);
    }
    if FitsLong(d) {
      if d >= 0 { ModUnique(d, 0, d); } else { ModUnique(d, -1, d + TWO64); }
    }
  }

  lemma ModUnique(d: int, q: int, r: int)
    requires d == TWO64 * q + r && 0 <= r < TWO64
    ensures d % TWO64 == r
  {
  }

  lemma ModShift(u: int, k: int)
    ensures (u + TWO64 * k) % TWO64 == u % TWO64
  {
    var q, r := u / TWO64, u % TWO64;
    assert u + TWO64 * k == TWO64 * (q + k) + r;
    ModUnique(u + TWO64 * k, q + k, r);
  }

  function RebaseList(l: seq<Entry>, now: int): seq<Entry> {
    if l == [] then []
    else [Entry(l[0].id, 0, Rebase(l[0].end, now), Rebase(l[0].end, now))] + RebaseList(l[1..], now)
  }

  function RebaseSvc(s: Svc, now: int): Svc {
    s.(plus := RebaseList(s.plus, now), minus := RebaseList(s.minus, now))
  }

  lemma {:induction false} RebaseShape(l: seq<Entry>, now: int)
    ensures |RebaseList(l, now)| == |l|
    ensures forall i :: 0 <= i < |l| ==>
      RebaseList(l, now)[i] == Entry(l[i].id, 0, Rebase(l[i].end, now), Rebase(l[i].end, now))
  {
    if l == [] {
    } else {
      RebaseShape(l[1..], now);
    }
  }

  /** gauge_coulomb_after_reset's walk over one list, entry by entry. */
  method RebaseWalk(l: seq<Entry>, now: int) returns (r: seq<Entry>)
    ensures r == RebaseList(l, now)
  {
    RebaseShape(l, now);
    r := l;
    for pos := 0 to |l|
      invariant |r| == |l|
      invariant forall i :: 0 <= i < pos ==> r[i] == RebaseList(l, now)[i]
      invariant forall i :: pos <= i < |l| ==> r[i] == l[i]
    {
      var duration := (ToUnsigned(r[pos].end) - ToUnsigned(now)) % TWO64;
      r := r[pos := Entry(r[pos].id, 0, ToSigned(duration), ToSigned(duration))];
    }
  }

  // ------------------------------------------------------------------ the second list walk of start

  /** Walk over the due entries; the distance to program is that of the entry the walk stopped at. */
  method ScanDue(dir: Dir, l: seq<Entry>, count: int) returns (wake: bool, hwCar: int)
    requires l != []
    ensures wake <==> Lead(dir, l, count) > 0
    ensures Lead(dir, l, count) <= |l|
    ensures hwCar == Gap(dir, l[if Lead(dir, l, count) < |l| then Lead(dir, l, count) else |l| - 1].end, count)
  {
    wake := false;
    var ptr, k := l[0], 0;
    while k < |l|
      invariant k <= |l|
      invariant Lead(dir, l, count) == k + Lead(dir, l[k..], count)
      invariant wake <==> k > 0
      invariant k > 0 ==> ptr == l[k - 1]
    {
      ptr := l[k];
      if Gap(dir, ptr.end, count) > 0 {
        break;
      }
      wake := true;
      assert l[k..][1..] == l[k + 1..];
      k := k + 1;
    }
    hwCar := Gap(dir, ptr.end, count);
  }

  lemma DrainStep(dir: Dir, s: Svc, count: int, callbacks: map<nat, seq<Op>>)
    requires s.Side(dir) != [] && Due(dir, s.Side(dir)[0], count)
    ensures var rest := Drain(dir, Expire(dir, s, count, callbacks), count, callbacks);
      Drain(dir, s, count, callbacks) == (rest.0, [s.Side(dir)[0].id] + rest.1)
  {
  }

  /** Part-way through a drain: what has expired so far and what is still to do make up the whole. */
  predicate Drains(dir: Dir, s: Svc, count: int, callbacks: map<nat, seq<Op>>, before: seq<nat>,
                   all: (Svc, seq<nat>))
  {
    var todo := Drain(dir, s, count, callbacks);
    todo.0 == all.0 && before + todo.1 == all.1
  }

  lemma DrainsStep(dir: Dir, s: Svc, count: int, callbacks: map<nat, seq<Op>>, before: seq<nat>,
                   all: (Svc, seq<nat>))
    requires s.Side(dir) != [] && Due(dir, s.Side(dir)[0], count) && Drains(dir, s, count, callbacks, before, all)
    ensures Drains(dir, Expire(dir, s, count, callbacks), count, callbacks, before + [s.Side(dir)[0].id], all)
  {
    DrainStep(dir, s, count, callbacks);
    var id, rest := s.Side(dir)[0].id, Drain(dir, Expire(dir, s, count, callbacks), count, callbacks).1;
    assert before + ([id] + rest) == (before + [id]) + rest;
  }

  lemma DrainDone(dir: Dir, s: Svc, count: int, callbacks: map<nat, seq<Op>>)
    requires s.Side(dir) == [] || !Due(dir, s.Side(dir)[0], count)
    ensures Drain(dir, s, count, callbacks) == (s, [])
  {
  }

  // ------------------------------------------------------------------ the service object

  /** The service with its static state; `count` is the gauge's counter, steady while the
      service's lock is held. */
  class Service {
    var plus: seq<Entry>
    var minus: seq<Entry>
    var ht: Arm
    var lt: Arm
    var coulombThreadTimeout: bool
    var count: int

    ghost function State(): Svc
      reads this
    {
      Svc(plus, minus, ht, lt, coulombThreadTimeout)
    }

    constructor (count: int)
      ensures State() == Svc([], [], Off, Off, false) && State().Wf() && this.count == count
    {
      plus, minus, ht, lt, coulombThreadTimeout := [], [], Off, Off, false;
      this.count := count;
    }

    method WakeUpGaugeCoulomb()
      modifies this
      ensures State() == WakeUp(old(State()), count) && count == old(count)
    {
      ht := Program(Rise, WAKE_DISTANCE, count);
      lt := Program(Fall, WAKE_DISTANCE, count);
      coulombThreadTimeout := true;
    }

    method GaugeCoulombStop(id: nat)
      modifies this
      ensures State() == Unlink(old(State()), id) && count == old(count)
    {
      plus := Remove(plus, id);
      minus := Remove(minus, id);
    }

    /** Link a consumer into the list for its direction. */
    method Link(dir: Dir, e: Entry)
      modifies this
      ensures State() == old(State()).WithSide(dir, Insert(dir, old(State()).Side(dir), e)) && count == old(count)
    {
      if dir.Rise? {
        plus := AddNode(Rise, plus, e);
      } else {
        minus := AddNode(Fall, minus, e);
      }
    }

    /** Program the comparator for the nearest pending threshold. */
    method ProgramNearest(dir: Dir) returns (wake: bool)
      requires State().Side(dir) != []
      modifies this
      ensures State() == old(State().WithCmp(dir, Nearest(dir, State().Side(dir), count))) && count == old(count)
      ensures wake <==> old(Lead(dir, State().Side(dir), count)) > 0
    {
      var hwCar: int;
      if dir.Rise? {
        wake, hwCar := ScanDue(Rise, plus, count);
        ht := Program(Rise, hwCar, count);
      } else {
        wake, hwCar := ScanDue(Fall, minus, count);
        lt := Program(Fall, hwCar, count);
      }
    }

    /** The locked section of start: relink the consumer and program the comparator. */
    method Relink(id: nat, car: int) returns (wake: bool)
      requires car != 0
      modifies this
      ensures (State(), wake) == StartLocked(old(State()), id, car, count) && count == old(count)
    {
      GaugeCoulombStop(id);
      var e := Entry(id, count, count + car, car);
      InsertMembers(Towards(car), State().Side(Towards(car)), e);
      Link(Towards(car), e);
      wake := ProgramNearest(Towards(car));
    }

    method GaugeCoulombStart(id: nat, car: int)
      modifies this
      ensures State() == Start(old(State()), id, car, count) && count == old(count)
    {
      if car == 0 {
        return;
      }
      var wake := Relink(id, car);
      if wake {
        WakeUpGaugeCoulomb();
      }
    }

    method Callback(ops: seq<Op>)
      modifies this
      ensures State() == RunOps(old(State()), ops, count) && count == old(count)
    {
      var i := 0;
      while i < |ops|
        invariant i <= |ops| && count == old(count)
        invariant RunOps(State(), ops[i..], count) == RunOps(old(State()), ops, count)
      {
        match ops[i] {
          case StartOp(id, car) => GaugeCoulombStart(id, car);
          case StopOp(id) => GaugeCoulombStop(id);
        }
        assert ops[i..][1..] == ops[i + 1..];
        i := i + 1;
      }
    }

    /** Unlink a due head and call it back: one due entry less, and the same drain still to do. */
    method PopAndCall(dir: Dir, callbacks: map<nat, seq<Op>>, ghost before: seq<nat>, ghost all: (Svc, seq<nat>))
      returns (id: nat)
      requires State().Side(dir) != [] && Due(dir, State().Side(dir)[0], count)
      requires Drains(dir, State(), count, callbacks, before, all)
      modifies this
      ensures State() == Expire(dir, old(State()), count, callbacks) && count == old(count)
      ensures |State().DueIn(dir, count)| < |old(State()).DueIn(dir, count)|
      ensures id == old(State()).Side(dir)[0].id && Drains(dir, State(), count, callbacks, before + [id], all)
    {
      ExpireShrinks(dir, State(), count, callbacks);
      DrainsStep(dir, State(), count, callbacks, before, all);
      if dir.Rise? {
        id := plus[0].id;
        plus := plus[1..];
      } else {
        id := minus[0].id;
        minus := minus[1..];
      }
      if id in callbacks {
        Callback(callbacks[id]);
      }
    }

    /** One pop-and-call loop of the interrupt handler, with the number of due entries as its
        termination measure. */
    method ExpireDue(dir: Dir, callbacks: map<nat, seq<Op>>) returns (expired: seq<nat>)
      modifies this
      ensures State() == Drain(dir, old(State()), count, callbacks).0
      ensures expired == Drain(dir, old(State()), count, callbacks).1
      ensures count == old(count)
    {
      ghost var all := Drain(dir, State(), count, callbacks);
      expired := [];
      while true
        invariant count == old(count)
        invariant Drains(dir, State(), count, callbacks, expired, all)
        decreases |State().DueIn(dir, count)|
      {
        var pos := if dir.Rise? then plus else minus;
        if |pos| == 0 || !Due(dir, pos[0], count) {
          DrainDone(dir, State(), count, callbacks);
          break;
        }
        var id := PopAndCall(dir, callbacks, expired, all);
        expired := expired + [id];
      }
    }

    method GaugeCoulombBeforeReset()
      modifies this
      ensures State() == old(State()).(ht := Off, lt := Off) && count == old(count)
    {
      ht, lt := Program(Rise, 0, count), Program(Fall, 0, count);
    }

    /** Rebase both lists on the count latched before the reset, then wake the worker. */
    method GaugeCoulombAfterReset(resetCoulomb: int)
      modifies this
      ensures State() == WakeUp(RebaseSvc(old(State()), resetCoulomb), count) && count == old(count)
    {
      plus := RebaseWalk(plus, resetCoulomb);
      minus := RebaseWalk(minus, resetCoulomb);
      WakeUpGaugeCoulomb();
    }

    /** The service's part of gauge_reset_hw, taken as one step. */
    method GaugeResetHw()
      modifies this
      ensures State() == WakeUp(RebaseSvc(old(State()), old(count)), 0) && count == 0
    {
      var resetCoulomb := count;
      GaugeCoulombBeforeReset();
      count := 0;
      GaugeCoulombAfterReset(resetCoulomb);
    }

    method GaugeCoulombIntHandler(callbacks: map<nat, seq<Op>>) returns (up: seq<nat>, down: seq<nat>)
      modifies this
      ensures (State(), up, down) == Handle(old(State()), count, callbacks) && count == old(count)
    {
      up := ExpireDue(Rise, callbacks);
      if plus != [] {
        ht := Program(Rise, plus[0].end - count, count);
      }
      assert State() == Rearm(Rise, Drain(Rise, old(State()), count, callbacks).0, count);
      down := ExpireDue(Fall, callbacks);
      if minus != [] {
        lt := Program(Fall, count - minus[0].end, count);
      }
    }
  }
}
