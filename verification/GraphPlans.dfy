/**
 Direct-key graph queries: a list of edge ids with endpoints to check.  The plan looks the ids up and filters by
 endpoints; the scan tests every edge of the store.
 */
module GraphPlans {
  import opened Common

  /** Ids in the order in which the source sorts its id strings. */
  type EdgeId = int

  datatype Ends = Ends(a: string, b: string)

  /** `ends` is `None` when the stored ends cannot be erased. */
  datatype Edge = Edge(id: EdgeId, ends: Option<Ends>)

  /** An endpoint of a query is `None` when it cannot be erased. */
  datatype Query =
    | FromIds(endpoint: Option<string>, ids: seq<EdgeId>)
    | ToIds(endpoint: Option<string>, ids: seq<EdgeId>)
    | BetweenIds(a: Option<string>, b: Option<string>, ids: seq<EdgeId>)

  type Store = map<EdgeId, Edge>

  ghost predicate KeyedById(store: Store) {
    forall id :: id in store ==> store[id].id == id
  }

  // ---------------------------------------------------------------- the scan

  predicate EndsMatch(undirected: bool, q: Query, ends: Ends) {
    match q
    case FromIds(endpoint, _) => Some(ends.a) == endpoint
    case ToIds(endpoint, _) => Some(ends.b) == endpoint
    case BetweenIds(a, b, _) =>
      (Some(ends.a) == a && Some(ends.b) == b) || (undirected && Some(ends.a) == b && Some(ends.b) == a)
  }

  /** Both endpoints of the query can be erased. */
  predicate Erasable(q: Query) {
    if q.BetweenIds? then q.a.Some? && q.b.Some? else q.endpoint.Some?
  }

  predicate TestEntity(undirected: bool, q: Query, e: Edge) {
    e.id in q.ids && Erasable(q) && e.ends.Some? && EndsMatch(undirected, q, e.ends.value)
  }

  function Scan(undirected: bool, q: Query, store: Store): Store {
    map id | id in store && TestEntity(undirected, q, store[id]) :: store[id]
  }

  // ---------------------------------------------------------------- sorting and deduplicating ids

  ghost predicate Increasing(ids: seq<EdgeId>) {
    forall i, j :: 0 <= i < j < |ids| ==> ids[i] < ids[j]
  }

  ghost predicate SameMembers(a: seq<EdgeId>, b: seq<EdgeId>) {
    forall id :: id in a <==> id in b
  }

  /** Puts `id` into a list that is sorted from `i` on, walking down from the end. */
  method InsertSorted(ids: seq<EdgeId>, id: EdgeId) returns (out: seq<EdgeId>)
    requires Increasing(ids)
    ensures Increasing(out) && forall x :: x in out <==> x in ids || x == id
  {
    var i := |ids|;
    while i > 0 && ids[i - 1] > id
      invariant 0 <= i <= |ids| && forall k :: i <= k < |ids| ==> ids[k] > id
    {
      i := i - 1;
    }
    if i > 0 && ids[i - 1] == id { return ids; }
    out := ids[..i] + [id] + ids[i..];
    Inserted(ids, i, id, out);
  }

  lemma Inserted(ids: seq<EdgeId>, i: nat, id: EdgeId, out: seq<EdgeId>)
    requires Increasing(ids) && i <= |ids| && out == ids[..i] + [id] + ids[i..]
    requires (i > 0 ==> ids[i - 1] < id) && (i < |ids| ==> id < ids[i])
    ensures Increasing(out) && forall x :: x in out <==> x in ids || x == id
  {
    InsertedMembers(ids, i, id);
    forall j, k | 0 <= j < k < |out| ensures out[j] < out[k] { InsertedPair(ids, i, id, j, k); }
  }

  lemma InsertedMembers(ids: seq<EdgeId>, i: nat, id: EdgeId)
    requires i <= |ids|
    ensures forall x :: x in ids[..i] + [id] + ids[i..] <==> x in ids || x == id
  {
    assert ids == ids[..i] + ids[i..];
  }

  function InsertedAt(ids: seq<EdgeId>, i: nat, id: EdgeId, j: nat): EdgeId
    requires i <= |ids| && j <= |ids|
  {
    if j < i then ids[j] else if j == i then id else ids[j - 1]
  }

  lemma InsertedPair(ids: seq<EdgeId>, i: nat, id: EdgeId, j: nat, k: nat)
    requires Increasing(ids) && i <= |ids| && j < k <= |ids|
    requires (i > 0 ==> ids[i - 1] < id) && (i < |ids| ==> id < ids[i])
    ensures InsertedAt(ids, i, id, j) < InsertedAt(ids, i, id, k)
    ensures var out := ids[..i] + [id] + ids[i..];
            out[j] == InsertedAt(ids, i, id, j) && out[k] == InsertedAt(ids, i, id, k)
  {
  }

  method SortDedup(ids: seq<EdgeId>) returns (out: seq<EdgeId>)
    ensures Increasing(out) && SameMembers(out, ids)
  {
    out := [];
    for i := 0 to |ids|
      invariant Increasing(out) && SameMembers(out, ids[..i])
    {
      assert ids[..i + 1] == ids[..i] + [ids[i]];
      out := InsertSorted(out, ids[i]);
    }
    assert ids[..|ids|] == ids;
  }

  /** A set of ids has one sorted listing, so queries over the same ids are stored alike. */
  lemma {:induction false} OneSortedListing(a: seq<EdgeId>, b: seq<EdgeId>)
    requires Increasing(a) && Increasing(b) && SameMembers(a, b)
    ensures a == b
  {
    if a == [] {
      assert forall i :: 0 <= i < |b| ==> b[i] in a;
    } else {
      assert a[0] in a && a[0] in b;
      assert b[0] in b && b[0] in a;
      FirstIsLeast(a, b[0]);
      FirstIsLeast(b, a[0]);
      RestMembers(a, b);
      OneSortedListing(a[1..], b[1..]);
      assert a == [a[0]] + a[1..] && b == [b[0]] + b[1..];
    }
  }

  lemma FirstIsLeast(a: seq<EdgeId>, x: EdgeId)
    requires Increasing(a) && x in a
    ensures a[0] <= x
  {
  }

  lemma RestMembers(a: seq<EdgeId>, b: seq<EdgeId>)
    requires Increasing(a) && Increasing(b) && SameMembers(a, b) && a != [] && b != [] && a[0] == b[0]
    ensures SameMembers(a[1..], b[1..])
  {
    forall id ensures id in a[1..] <==> id in b[1..] {
      RestWithoutFirst(a, id);
      RestWithoutFirst(b, id);
    }
  }

  lemma RestWithoutFirst(a: seq<EdgeId>, id: EdgeId)
    requires Increasing(a) && a != []
    ensures id in a[1..] <==> id in a && id != a[0]
  {
    assert a == [a[0]] + a[1..];
  }

  // ---------------------------------------------------------------- the plan

  /** The query as its constructor stores it. */
  method NewQuery(q: Query) returns (r: Query)
    ensures Increasing(r.ids) && SameMembers(r.ids, q.ids) && r == q.(ids := r.ids)
  {
    var ids := SortDedup(q.ids);
    r := q.(ids := ids);
  }

  /** The edges looked up by id whose ends match. */
  ghost function Chosen(undirected: bool, q: Query, ids: seq<EdgeId>, store: Store): Store {
    map id | id in store && id in ids && store[id].ends.Some? && EndsMatch(undirected, q, store[id].ends.value)
      :: store[id]
  }

  /** Direct lookups, in any order and with any repetitions, find what the scan finds. */
  lemma ChosenIsScan(undirected: bool, q: Query, ids: seq<EdgeId>, store: Store)
    requires KeyedById(store) && Erasable(q) && SameMembers(ids, q.ids)
    ensures Chosen(undirected, q, ids, store) == Scan(undirected, q, store)
  {
    var chosen, scan := Chosen(undirected, q, ids, store), Scan(undirected, q, store);
    forall id ensures id in chosen <==> id in scan {
      if id in store { assert id in ids <==> id in q.ids; }
    }
  }

  /** The lookup of one id. */
  function Pick(undirected: bool, q: Query, id: EdgeId, store: Store): Option<Edge> {
    if id in store && store[id].ends.Some? && EndsMatch(undirected, q, store[id].ends.value) then Some(store[id])
    else None
  }

  lemma ChosenOneMore(undirected: bool, q: Query, ids: seq<EdgeId>, id: EdgeId, store: Store)
    ensures var found, before := Pick(undirected, q, id, store), Chosen(undirected, q, ids, store);
            Chosen(undirected, q, ids + [id], store) == if found.Some? then before[id := found.value] else before
  {
    var found, before := Pick(undirected, q, id, store), Chosen(undirected, q, ids, store);
    var after := Chosen(undirected, q, ids + [id], store);
    var next := if found.Some? then before[id := found.value] else before;
    forall x ensures x in after <==> x in next {
      assert x in ids + [id] <==> x in ids || x == id;
    }
  }

  /**
   The edge lies as the query asks: it leaves the one endpoint, arrives at it, or leads from the one to the other,
   for undirected edges also the other way round.
   */
  predicate Lies(undirected: bool, q: Query, ends: Ends) {
    match q
    case FromIds(Some(from), _) => ends == Ends(from, ends.b)
    case ToIds(Some(to), _) => ends == Ends(ends.a, to)
    case BetweenIds(Some(from), Some(to), _) => ends == Ends(from, to) || (undirected && ends == Ends(to, from))
    case _ => false
  }

  /** The scan finds the stored edges with one of the ids that lie as the query asks. */
  lemma ScanFinds(undirected: bool, q: Query, store: Store, id: EdgeId)
    requires KeyedById(store)
    ensures id in Scan(undirected, q, store)
            <==> id in store && id in q.ids && store[id].ends.Some? && Lies(undirected, q, store[id].ends.value)
    ensures id in Scan(undirected, q, store) ==> Scan(undirected, q, store)[id] == store[id]
  {
  }

  /** The view of a query: direct lookups when the endpoints can be erased, else a scan. */
  method BuildView(undirected: bool, q: Query, store: Store) returns (view: Store)
    requires KeyedById(store)
    ensures view == Scan(undirected, q, store)
    ensures forall id :: id in view
              <==> id in store && id in q.ids && store[id].ends.Some? && Lies(undirected, q, store[id].ends.value)
    ensures forall id :: id in view ==> view[id] == store[id]
  {
    forall id { ScanFinds(undirected, q, store, id); }
    if !Erasable(q) {
      view := Scan(undirected, q, store);
    } else {
      var ids := SortDedup(q.ids);
      view := map[];
      for i := 0 to |ids|
        invariant view == Chosen(undirected, q, ids[..i], store)
      {
        assert ids[..i + 1] == ids[..i] + [ids[i]];
        ChosenOneMore(undirected, q, ids[..i], ids[i], store);
        var found := Pick(undirected, q, ids[i], store);
        if found.Some? {
          view := view[ids[i] := found.value];
        }
      }
      assert ids[..|ids|] == ids;
      ChosenIsScan(undirected, q, ids, store);
    }
  }

  /** A query built by its constructor answers as the one with the ids as they were given. */
  method Ask(undirected: bool, q: Query, store: Store) returns (view: Store)
    requires KeyedById(store)
    ensures view == Scan(undirected, q, store)
  {
    var r := NewQuery(q);
    OnlyMembersMatter(undirected, r, q, store);
    view := BuildView(undirected, r, store);
  }

  /** Order and repetition of the ids do not change the answer. */
  lemma OnlyMembersMatter(undirected: bool, p: Query, q: Query, store: Store)
    requires p == q.(ids := p.ids) && SameMembers(p.ids, q.ids)
    ensures Scan(undirected, p, store) == Scan(undirected, q, store)
  {
    forall id | id in store ensures TestEntity(undirected, p, store[id]) <==> TestEntity(undirected, q, store[id]) {
    }
  }

  /** A query that cannot name its endpoints finds nothing, whatever is stored. */
  lemma UnerasableFindsNothing(undirected: bool, q: Query, store: Store)
    requires !Erasable(q)
    ensures Scan(undirected, q, store) == map[]
  {
    assert forall id :: id !in Scan(undirected, q, store);
  }

  ghost predicate SwapAgrees(undirected: bool, a: Option<string>, b: Option<string>, ids: seq<EdgeId>, store: Store) {
    Scan(undirected, BetweenIds(a, b, ids), store) == Scan(undirected, BetweenIds(b, a, ids), store)
  }

  /** For undirected edges the ends of a between query may be swapped. */
  lemma BetweenIsSymmetric(a: Option<string>, b: Option<string>, ids: seq<EdgeId>, store: Store)
    ensures SwapAgrees(true, a, b, ids, store)
  {
    var p, q := BetweenIds(a, b, ids), BetweenIds(b, a, ids);
    forall id | id in store ensures TestEntity(true, p, store[id]) <==> TestEntity(true, q, store[id]) {
    }
  }

  /**
   Swapping the ends of a between query leaves its answer alone, for every store and id list, exactly when the
   edges are undirected, the two ends are the same, or one of them cannot be erased.
   */
  lemma SwapIff(undirected: bool, a: Option<string>, b: Option<string>)
    ensures (forall ids, store :: SwapAgrees(undirected, a, b, ids, store))
            <==> undirected || a == b || a.None? || b.None?
  {
    if undirected {
      forall ids, store ensures SwapAgrees(true, a, b, ids, store) { BetweenIsSymmetric(a, b, ids, store); }
    } else if a.Some? && b.Some? && a != b {
      var store: Store := map[0 := Edge(0, Some(Ends(a.value, b.value)))];
      assert 0 in Scan(false, BetweenIds(a, b, [0]), store);
      assert 0 !in Scan(false, BetweenIds(b, a, [0]), store);
      assert !SwapAgrees(false, a, b, [0], store);
    } else {
      forall ids, store ensures SwapAgrees(false, a, b, ids, store) {
        if a != b {
          UnerasableFindsNothing(false, BetweenIds(a, b, ids), store);
          UnerasableFindsNothing(false, BetweenIds(b, a, ids), store);
        }
      }
    }
  }
}
