/** The ordered waiting lists of the coulomb service (mtk_gauge_coulomb_service.c) and of the timer
    service (mtk_gauge_time_service.c).

    A consumer waits for the charge counter to rise (plus list) or to fall (minus list) to a
    threshold; a timer waits for the clock to rise to a deadline.  Every list holds the nearest
    threshold first, so one set of definitions serves all of them, read in the direction the
    counter has to travel. */
module WaitLists {
  import opened Sublists

  datatype Dir = Rise | Fall

  function Flip(dir: Dir): Dir {
    if dir.Rise? then Fall else Rise
  }

  /** A linked consumer: who it is, where the counter stood when it was linked, the threshold, and
      the distance it asked for. */
  datatype Entry = Entry(id: nat, start: int, end: int, variable: int)

  /** How far the counter still has to travel from `count` to reach `end`. */
  function Gap(dir: Dir, end: int, count: int): int {
    if dir.Rise? then end - count else count - end
  }

  predicate Due(dir: Dir, e: Entry, count: int) {
    Gap(dir, e.end, count) <= 0
  }

  /** Nearest threshold first: ascending for Rise, descending for Fall. */
  ghost predicate Sorted(dir: Dir, l: seq<Entry>) {
    forall i, j :: 0 <= i < j < |l| ==> Gap(dir, l[j].end, l[i].end) >= 0
  }

  ghost predicate Distinct(l: seq<Entry>) {
    forall i, j :: 0 <= i < j < |l| ==> l[i].id != l[j].id
  }

  ghost predicate Linked(l: seq<Entry>, id: nat) {
    exists i :: 0 <= i < |l| && l[i].id == id
  }

  /** Link `e` in front of the first entry that lies strictly beyond it. */
  function Insert(dir: Dir, l: seq<Entry>, e: Entry): seq<Entry> {
    if l == [] || Gap(dir, l[0].end, e.end) > 0 then [e] + l
    else [l[0]] + Insert(dir, l[1..], e)
  }

  /** Unlink the consumer `id`. */
  function Remove(l: seq<Entry>, id: nat): seq<Entry> {
    if l == [] then []
    else if l[0].id == id then Remove(l[1..], id)
    else [l[0]] + Remove(l[1..], id)
  }

  /** The number of leading due entries: where the service's scan for the nearest pending
      threshold stops. */
  function Lead(dir: Dir, l: seq<Entry>, count: int): nat {
    if l == [] || !Due(dir, l[0], count) then 0 else 1 + Lead(dir, l[1..], count)
  }

  /** The due entries, in list order. */
  function DueOnly(dir: Dir, l: seq<Entry>, count: int): seq<Entry> {
    if l == [] then []
    else if Due(dir, l[0], count) then [l[0]] + DueOnly(dir, l[1..], count)
    else DueOnly(dir, l[1..], count)
  }

  function Ids(l: seq<Entry>): (r: seq<nat>)
    ensures |r| == |l| && forall i :: 0 <= i < |l| ==> r[i] == l[i].id
  {
    seq(|l|, i requires 0 <= i < |l| => l[i].id)
  }

  lemma IdsCons(l: seq<Entry>)
    requires l != []
    ensures Ids(l) == [l[0].id] + Ids(l[1..])
  {
  }

  // ------------------------------------------------------------------ insertion

  /** First come, first served: in an ordered list the new entry goes behind everything at or
      before its threshold and in front of everything strictly beyond it. */
  lemma {:induction false} InsertSplits(dir: Dir, l: seq<Entry>, e: Entry) returns (k: nat)
    requires Sorted(dir, l)
    ensures k <= |l| && Insert(dir, l, e) == l[..k] + [e] + l[k..]
    ensures forall i :: 0 <= i < k ==> Gap(dir, e.end, l[i].end) >= 0
    ensures forall i :: k <= i < |l| ==> Gap(dir, l[i].end, e.end) > 0
  {
    if l == [] || Gap(dir, l[0].end, e.end) > 0 {
      k := 0;
      assert l[..0] + [e] + l[0..] == [e] + l;
    } else {
      TailKeeps(dir, l);
      var k' := InsertSplits(dir, l[1..], e);
      k := k' + 1;
      SplitCons(l, k', e);
      forall i | k <= i < |l| ensures Gap(dir, l[i].end, e.end) > 0 {
        assert l[i] == l[1..][i - 1];
      }
      forall i | 0 < i < k ensures Gap(dir, e.end, l[i].end) >= 0 {
        assert l[i] == l[1..][i - 1];
      }
    }
  }

  lemma SplitCons(l: seq<Entry>, k: nat, e: Entry)
    requires l != [] && k <= |l| - 1
    ensures [l[0]] + (l[1..][..k] + [e] + l[1..][k..]) == l[..k + 1] + [e] + l[k + 1..]
  {
    assert l[..k + 1] == [l[0]] + l[1..][..k];
    assert l[k + 1..] == l[1..][k..];
  }

  lemma TailKeeps(dir: Dir, l: seq<Entry>)
    requires l != []
    ensures Sorted(dir, l) ==> Sorted(dir, l[1..])
    ensures Distinct(l) ==> Distinct(l[1..])
  {
  }

  lemma ConsKeeps(dir: Dir, x: Entry, r: seq<Entry>)
    requires Sorted(dir, r) && Distinct(r)
    requires forall y :: y in r ==> Gap(dir, y.end, x.end) >= 0 && y.id != x.id
    ensures Sorted(dir, [x] + r) && Distinct([x] + r)
  {
    var l := [x] + r;
    forall i, j | 0 <= i < j < |l| ensures Gap(dir, l[j].end, l[i].end) >= 0 && l[i].id != l[j].id {
      assert l[j] == r[j - 1] && l[j] in r;
      if i > 0 { assert l[i] == r[i - 1]; }
    }
  }

  lemma InsertStep(dir: Dir, l: seq<Entry>, e: Entry, pos: nat)
    requires pos < |l| && Gap(dir, l[pos].end, e.end) <= 0
    ensures l[..pos] + Insert(dir, l[pos..], e) == l[..pos + 1] + Insert(dir, l[pos + 1..], e)
  {
    var rest := Insert(dir, l[pos + 1..], e);
    assert l[pos..][1..] == l[pos + 1..];
    assert Insert(dir, l[pos..], e) == [l[pos]] + rest;
    assert l[..pos + 1] == l[..pos] + [l[pos]];
    assert l[..pos] + ([l[pos]] + rest) == (l[..pos] + [l[pos]]) + rest;
  }

  /** Walk to the first entry strictly beyond the new one and link in front of it. */
  method AddNode(dir: Dir, l: seq<Entry>, e: Entry) returns (r: seq<Entry>)
    ensures r == Insert(dir, l, e)
  {
    var pos := 0;
    while pos < |l| && Gap(dir, l[pos].end, e.end) <= 0
      invariant pos <= |l|
      invariant Insert(dir, l, e) == l[..pos] + Insert(dir, l[pos..], e)
    {
      InsertStep(dir, l, e, pos);
      pos := pos + 1;
    }
    assert Insert(dir, l[pos..], e) == [e] + l[pos..];
    r := l[..pos] + [e] + l[pos..];
  }

  /** Insertion keeps the order, and keeps the links unique when the consumer was unlinked. */
  lemma InsertKeeps(dir: Dir, l: seq<Entry>, e: Entry)
    requires Sorted(dir, l) && Distinct(l) && !Linked(l, e.id)
    ensures Sorted(dir, Insert(dir, l, e)) && Distinct(Insert(dir, l, e))
  {
    var k := InsertSplits(dir, l, e);
    var r := l[..k] + [e] + l[k..];
    forall i, j | 0 <= i < j < |r| ensures Gap(dir, r[j].end, r[i].end) >= 0 && r[i].id != r[j].id {
      var i', j' := if i < k then i else i - 1, if j < k then j else j - 1;
      assert i != k ==> r[i] == l[i'];
      assert j != k ==> r[j] == l[j'];
      assert i != k ==> l[i'].id != e.id;
      assert j != k ==> l[j'].id != e.id;
    }
  }

  lemma {:induction false} InsertMembers(dir: Dir, l: seq<Entry>, e: Entry)
    ensures |Insert(dir, l, e)| == |l| + 1
    ensures forall x :: x in Insert(dir, l, e) <==> x == e || x in l
  {
    if l == [] || Gap(dir, l[0].end, e.end) > 0 {
    } else {
      InsertMembers(dir, l[1..], e);
      assert l == [l[0]] + l[1..];
    }
  }

  lemma LinkedMembers(l: seq<Entry>, id: nat)
    ensures Linked(l, id) <==> exists x :: x in l && x.id == id
  {
    if x :| x in l && x.id == id {
      var i :| 0 <= i < |l| && l[i] == x;
      assert l[i].id == id;
    }
  }

  // ------------------------------------------------------------------ removal

  /** Unlinking keeps order and uniqueness, and takes away exactly the named consumer. */
  lemma {:induction false} RemoveKeeps(dir: Dir, l: seq<Entry>, id: nat)
    requires Sorted(dir, l) && Distinct(l)
    ensures Sorted(dir, Remove(l, id)) && Distinct(Remove(l, id)) && !Linked(Remove(l, id), id)
  {
    RemoveMembers(l, id);
    if l == [] {
    } else {
      TailKeeps(dir, l);
      RemoveKeeps(dir, l[1..], id);
      if l[0].id != id {
        RemoveMembers(l[1..], id);
        forall y | y in l[1..] ensures Gap(dir, y.end, l[0].end) >= 0 && y.id != l[0].id {
          var j :| 0 <= j < |l[1..]| && l[1..][j] == y;
          assert l[j + 1] == y;
        }
        ConsKeeps(dir, l[0], Remove(l[1..], id));
      }
    }
  }

  lemma {:induction false} RemoveMembers(l: seq<Entry>, id: nat)
    ensures forall x :: x in Remove(l, id) <==> x in l && x.id != id
  {
    if l == [] {
    } else {
      RemoveMembers(l[1..], id);
      assert l == [l[0]] + l[1..];
    }
  }

  lemma {:induction false} RemoveUnlinked(l: seq<Entry>, id: nat)
    requires !Linked(l, id)
    ensures Remove(l, id) == l
  {
    if l == [] {
    } else {
      assert l[0].id != id;
      assert forall i :: 0 <= i < |l[1..]| ==> l[1..][i] == l[i + 1];
      RemoveUnlinked(l[1..], id);
    }
  }

  // ------------------------------------------------------------------ due entries

  /** The scan stops at the nearest pending threshold whenever anything is pending. */
  lemma {:induction false} LeadSplits(dir: Dir, l: seq<Entry>, count: int)
    ensures Lead(dir, l, count) <= |l|
    ensures forall i :: 0 <= i < Lead(dir, l, count) ==> Due(dir, l[i], count)
    ensures Lead(dir, l, count) < |l| ==> !Due(dir, l[Lead(dir, l, count)], count)
  {
    if l == [] || !Due(dir, l[0], count) {
    } else {
      LeadSplits(dir, l[1..], count);
      forall i | 0 <= i < Lead(dir, l, count) ensures Due(dir, l[i], count) {
        if i > 0 { assert l[i] == l[1..][i - 1]; }
      }
    }
  }

  lemma LeadPending(dir: Dir, l: seq<Entry>, count: int, e: Entry)
    requires e in l && !Due(dir, e, count)
    ensures Lead(dir, l, count) < |l|
  {
    LeadSplits(dir, l, count);
  }

  /** In an ordered list the due entries are a prefix. */
  lemma {:induction false} DueOnlyIsPrefix(dir: Dir, l: seq<Entry>, count: int)
    requires Sorted(dir, l)
    ensures Lead(dir, l, count) <= |l|
    ensures DueOnly(dir, l, count) == l[..Lead(dir, l, count)]
  {
    LeadSplits(dir, l, count);
    if l == [] {
    } else {
      DueOnlyIsPrefix(dir, l[1..], count);
      assert |l| > 1 ==> Gap(dir, l[1].end, l[0].end) >= 0;
    }
  }

  lemma {:induction false} DueOnlyMembers(dir: Dir, l: seq<Entry>, count: int)
    ensures forall x :: x in DueOnly(dir, l, count) <==> x in l && Due(dir, x, count)
  {
    if l == [] {
    } else {
      DueOnlyMembers(dir, l[1..], count);
      assert l == [l[0]] + l[1..];
    }
  }

  /** An entry that is not due changes nothing among the due ones when it is linked. */
  lemma {:induction false} DueOnlyInsert(dir: Dir, l: seq<Entry>, e: Entry, count: int)
    requires !Due(dir, e, count)
    ensures DueOnly(dir, Insert(dir, l, e), count) == DueOnly(dir, l, count)
  {
    var r := Insert(dir, l, e);
    if l == [] || Gap(dir, l[0].end, e.end) > 0 {
      assert r[1..] == l;
    } else {
      DueOnlyInsert(dir, l[1..], e, count);
      assert r[0] == l[0] && r[1..] == Insert(dir, l[1..], e);
    }
  }

  lemma {:induction false} DueOnlyRemove(dir: Dir, l: seq<Entry>, id: nat, count: int)
    ensures DueOnly(dir, Remove(l, id), count) == Remove(DueOnly(dir, l, count), id)
  {
    if l == [] {
    } else {
      DueOnlyRemove(dir, l[1..], id, count);
      if l[0].id != id {
        var r := Remove(l, id);
        assert r[0] == l[0] && r[1..] == Remove(l[1..], id);
      }
      if Due(dir, l[0], count) {
        var d := DueOnly(dir, l, count);
        assert d[0] == l[0] && d[1..] == DueOnly(dir, l[1..], count);
      }
    }
  }

  lemma {:induction false} RemoveShortens(l: seq<Entry>, id: nat)
    ensures |Remove(l, id)| <= |l|
    ensures Sublist(Remove(l, id), l)
  {
    if l == [] {
    } else {
      RemoveShortens(l[1..], id);
      if l[0].id == id {
        SublistDrop(Remove(l, id), l);
      } else {
        var r := Remove(l, id);
        assert r[0] == l[0] && r[1..] == Remove(l[1..], id);
      }
    }
  }

  // ------------------------------------------------------------------ sublists

  lemma {:induction false} SublistIds(a: seq<Entry>, b: seq<Entry>)
    requires Sublist(a, b)
    ensures Sublist(Ids(a), Ids(b))
    decreases |b|
  {
    if a == [] {
    } else {
      assert Ids(b)[1..] == Ids(b[1..]);
      if a[0] == b[0] {
        assert Ids(a)[1..] == Ids(a[1..]);
        SublistIds(a[1..], b[1..]);
      } else {
        SublistIds(a, b[1..]);
        SublistDrop(Ids(a), Ids(b));
      }
    }
  }
}
