/**
 The index behind `belongs_to` sources: it keeps the store's rows by key and prepares, for each diff of the store,
 actions for the buckets in use.
 */
module BelongsToIndex {
  import opened QueryStoreSpec
  import opened UnionSource
  import opened IndexOrders

  /** The members as the index keeps them; a key without rows is absent. */
  type Members = map<Fk, Rows>

  function RowsAt(members: Members, k: Fk): Rows {
    if k in members then members[k] else map[]
  }

  ghost predicate Follows(members: Members, store: Rows) {
    && (forall k :: RowsAt(members, k) == Pick(store, k))
    && (forall k :: k in members ==> members[k] != map[])
  }

  // ---------------------------------------------------------------- groups

  type Groups = map<Fk, seq<Diff>>

  function ChangesAt(groups: Groups, k: Fk): seq<Diff> {
    if k in groups then groups[k] else []
  }

  ghost predicate NoneEmpty(groups: Groups) {
    forall k :: k in groups ==> groups[k] != []
  }

  /** The groups of these changes. */
  ghost predicate Pending(groups: Groups, changes: seq<Diff>)
    requires AllFlat(changes)
  {
    NoneEmpty(groups) && forall k :: ChangesAt(groups, k) == SplitAll(changes, k)
  }

  method GroupChange(groups: Groups, change: Diff, ghost changes: seq<Diff>) returns (out: Groups)
    requires IsFlat(change) && AllFlat(changes) && Pending(groups, changes)
    ensures Pending(out, changes + [change])
  {
    match change {
      case Insert(key, value) => out := Push(groups, value.fk, change);
      case Remove(key, old_) => out := Push(groups, old_.fk, change);
      case Update(key, old_, new_) =>
        if old_.fk == new_.fk {
          out := Push(groups, new_.fk, change);
        } else {
          out := Push(groups, old_.fk, Remove(key, old_));
          out := Push(out, new_.fk, Insert(key, new_));
        }
    }
    PendingOneMore(groups, out, change, changes);
  }

  method Push(groups: Groups, k: Fk, change: Diff) returns (out: Groups)
    requires NoneEmpty(groups)
    ensures NoneEmpty(out)
    ensures forall j :: ChangesAt(out, j) == if j == k then ChangesAt(groups, j) + [change] else ChangesAt(groups, j)
  {
    out := groups[k := ChangesAt(groups, k) + [change]];
  }

  lemma PendingOneMore(groups: Groups, out: Groups, change: Diff, changes: seq<Diff>)
    requires IsFlat(change) && AllFlat(changes) && Pending(groups, changes) && NoneEmpty(out)
    requires forall k :: ChangesAt(out, k) == if Split(change, k) == [] then ChangesAt(groups, k)
                                              else ChangesAt(groups, k) + Split(change, k)
    ensures Pending(out, changes + [change])
  {
    var next := changes + [change];
    assert AllFlat(next);
    forall k ensures ChangesAt(out, k) == SplitAll(next, k) {
      GroupOneMore(ChangesAt(groups, k), ChangesAt(out, k), change, changes, k);
    }
  }

  lemma GroupOneMore(before: seq<Diff>, after: seq<Diff>, change: Diff, changes: seq<Diff>, k: Fk)
    requires IsFlat(change) && AllFlat(changes) && AllFlat(changes + [change])
    requires before == SplitAll(changes, k)
    requires after == if Split(change, k) == [] then before else before + Split(change, k)
    ensures after == SplitAll(changes + [change], k)
  {
    SplitAllOneMore(changes, change, k);
  }

  /** The index of one combination of fields; `live` are the keys whose bucket somebody holds. */
  class Index {
    var members: Members
    var live: set<Fk>

    constructor ()
      ensures Follows(members, map[]) && live == {}
    {
      members, live := map[], {};
    }

    /** A bucket asked for anew starts with the rows the members have. */
    method BucketFor(k: Fk, ghost store: Rows) returns (rows: Rows)
      requires Follows(members, store)
      modifies this`live
      ensures live == old(live) + {k} && rows == Pick(store, k)
    {
      live := live + {k};
      rows := RowsAt(members, k);
    }

    /** The groups, taken in whatever order the map gives them. */
    method ApplyGrouped(groups: Groups, ghost store: Rows, ghost changes: seq<Diff>) returns (actions: seq<Action>)
      requires AllFlat(changes) && TruthfulAll(store, changes, |changes|)
      requires Follows(members, store) && Pending(groups, changes)
      modifies this`members
      ensures Follows(members, MutateAll(store, changes, |changes|))
      ensures Deals(Batch(changes), live, actions)
    {
      actions := [];
      var rest := groups.Keys;
      while rest != {}
        invariant rest <= groups.Keys && Halfway(members, actions, live, groups, rest, store, changes)
        decreases rest
      {
        var k :| k in rest;
        var rows := Applied(RowsAt(members, k), groups[k]);
        HalfwayStep(members, actions, live, groups, rest, store, changes, k, rows);
        members := PutMembers(members, k, rows);
        if k in live {
          actions := actions + [Action(k, Batch(groups[k]))];
        }
        rest := rest - {k};
      }
      HalfwayDone(members, actions, live, groups, store, changes);
    }

    /** Splits a diff of the store into actions for the live buckets. */
    method Prepare(diff: Diff, ghost store: Rows) returns (actions: seq<Action>)
      requires Follows(members, store) && Truthful(store, diff)
      modifies this`members
      ensures Follows(members, Mutate(store, diff))
      ensures Prepared(diff, live, actions)
      ensures Delivers(actions, live, store, Mutate(store, diff))
      decreases diff, 1
    {
      match diff {
        case Initial(entries) =>
          members := Grouped(entries);
          actions := InitialActions(entries);
          OneDeal(diff, live, actions);
        case Batch(changes) =>
          actions := PrepareBatch(changes, store);
        case _ =>
          NothingPending();
          assert [] + [diff] == [diff];
          var groups := GroupChange(map[], diff, []);
          OnePhase(store, diff);
          actions := ApplyGrouped(groups, store, [diff]);
          OneDeal(Batch([diff]), live, actions);
      }
      PreparedDelivers(diff, live, actions, store);
    }

    method PrepareBatch(changes: seq<Diff>, ghost store: Rows) returns (actions: seq<Action>)
      requires Follows(members, store) && TruthfulAll(store, changes, |changes|)
      modifies this`members
      ensures Follows(members, MutateAll(store, changes, |changes|))
      ensures Prepared(Batch(changes), live, actions)
      decreases changes, 0
    {
      actions := [];
      var groups: Groups := map[];
      ghost var cut := CutAt(changes, 0);
      NothingPending();
      for i := 0 to |changes|
        invariant cut == CutAt(changes, i)
        invariant Follows(members, Flushed(store, cut)) && Pending(groups, cut.open)
        invariant DealsAll(cut.done, |cut.done|, live, actions)
      {
        ghost var now := Arrived(store, changes, i);
        if IsFlat(changes[i]) {
          groups := GroupChange(groups, changes[i], cut.open);
        } else {
          var before := ApplyGrouped(groups, Flushed(store, cut), cut.open);
          var nested := Prepare(changes[i], now);
          NestedDone(store, changes, i, live, actions, before, nested);
          actions := actions + before + nested;
          groups := map[];
          NothingPending();
        }
        cut := CutAt(changes, i + 1);
      }
      ghost var now := Arrived(store, changes, |changes|);
      var last := ApplyGrouped(groups, Flushed(store, cut), cut.open);
      BatchDone(changes, live, actions, last);
      actions := actions + last;
    }

    /** A fresh snapshot of every live bucket, in any order. */
    method InitialActions(ghost entries: seq<Entry<Item>>) returns (actions: seq<Action>)
      requires Follows(members, FromEntries(entries))
      ensures Deals(Initial(entries), live, actions)
    {
      actions := [];
      var rest := live;
      while rest != {}
        invariant rest <= live
        invariant Deals(Initial(entries), live - rest, actions)
        decreases rest
      {
        var k :| k in rest;
        var listing := Listing(RowsAt(members, k));
        DealsNext(Initial(entries), live - rest, actions, Action(k, Initial(listing)));
        actions := actions + [Action(k, Initial(listing))];
        rest := rest - {k};
        assert live - rest == live - (rest + {k}) + {k};
      }
      assert live - {} == live;
    }
  }

  /** The store as of the last flush. */
  ghost function Flushed(store: Rows, cut: Cut): Rows { MutateAll(store, cut.done, |cut.done|) }

  /** The open changes lead from the last flush to the store now, for which the next change is truthful. */
  lemma Arrived(store: Rows, changes: seq<Diff>, i: nat) returns (now: Rows)
    requires i <= |changes| && TruthfulAll(store, changes, |changes|)
    ensures now == MutateAll(store, changes, i) && (i < |changes| ==> Truthful(now, changes[i]))
    ensures var cut := CutAt(changes, i);
            && TruthfulAll(Flushed(store, cut), cut.open, |cut.open|)
            && MutateAll(Flushed(store, cut), cut.open, |cut.open|) == now
  {
    now := MutateAll(store, changes, i);
    TruthfulPrefix(store, changes, i);
    if i < |changes| { TruthfulPrefix(store, changes, i + 1); }
    CutMeans(store, changes, i);
  }

  lemma NestedDone(store: Rows, changes: seq<Diff>, i: nat, live: set<Fk>, actions: seq<Action>, before: seq<Action>,
                   nested: seq<Action>)
    requires i < |changes| && TruthfulAll(store, changes, |changes|) && !IsFlat(changes[i])
    requires var cut := CutAt(changes, i);
             DealsAll(cut.done, |cut.done|, live, actions) && Deals(Batch(cut.open), live, before)
    requires Prepared(changes[i], live, nested)
    ensures var next := CutAt(changes, i + 1);
            && next.open == [] && DealsAll(next.done, |next.done|, live, actions + before + nested)
            && Flushed(store, next) == Mutate(MutateAll(store, changes, i), changes[i])
  {
    var cut := CutAt(changes, i);
    OneDeal(Batch(cut.open), live, before);
    DealsAppend(cut.done, [Batch(cut.open)], 1, live, actions, before);
    DealsAppend(cut.done + [Batch(cut.open)], Phases(changes[i]), |Phases(changes[i])|, live, actions + before, nested);
    NestedFlushed(store, changes, i);
  }

  lemma NestedFlushed(store: Rows, changes: seq<Diff>, i: nat)
    requires i < |changes| && TruthfulAll(store, changes, |changes|) && !IsFlat(changes[i])
    ensures CutAt(changes, i + 1).open == []
    ensures Flushed(store, CutAt(changes, i + 1)) == Mutate(MutateAll(store, changes, i), changes[i])
  {
    TruthfulPrefix(store, changes, i + 1);
    CutMeans(store, changes, i + 1);
  }

  lemma BatchDone(changes: seq<Diff>, live: set<Fk>, actions: seq<Action>, last: seq<Action>)
    requires var cut := CutAt(changes, |changes|);
             DealsAll(cut.done, |cut.done|, live, actions) && Deals(Batch(cut.open), live, last)
    ensures Prepared(Batch(changes), live, actions + last)
  {
    var cut := CutAt(changes, |changes|);
    OneDeal(Batch(cut.open), live, last);
    DealsAppend(cut.done, [Batch(cut.open)], 1, live, actions, last);
  }

  lemma GroupMeans(groups: Groups, store: Rows, changes: seq<Diff>, k: Fk)
    requires AllFlat(changes) && TruthfulAll(store, changes, |changes|) && Pending(groups, changes) && k in groups
    ensures groups[k] == SplitAll(changes, k) && groups[k] != []
    ensures MutateAll(Pick(store, k), groups[k], |groups[k]|) == Pick(MutateAll(store, changes, |changes|), k)
  {
    assert ChangesAt(groups, k) == SplitAll(changes, k);
    SplitAllFollows(store, changes, k);
  }

  function PutMembers(members: Members, k: Fk, rows: Rows): Members {
    if rows == map[] then members - {k} else members[k := rows]
  }

  /** Some of the groups have reached the members. */
  ghost predicate HalfMembers(members: Members, groups: Groups, rest: set<Fk>, from: Rows, to: Rows) {
    && (forall k :: RowsAt(members, k) == Pick(if k in groups && k !in rest then to else from, k))
    && (forall k :: k in members ==> members[k] != map[])
  }

  lemma HalfMembersStep(members: Members, groups: Groups, rest: set<Fk>, k: Fk, rows: Rows, from: Rows, to: Rows)
    requires HalfMembers(members, groups, rest, from, to) && k in rest && k in groups
    requires rows == MutateAll(RowsAt(members, k), groups[k], |groups[k]|)
    requires MutateAll(Pick(from, k), groups[k], |groups[k]|) == Pick(to, k)
    ensures HalfMembers(PutMembers(members, k, rows), groups, rest - {k}, from, to)
  {
    assert RowsAt(members, k) == Pick(from, k);
    var next := PutMembers(members, k, rows);
    forall j ensures RowsAt(next, j) == Pick(if j in groups && j !in rest - {k} then to else from, j) {
      assert RowsAt(members, j) == Pick(if j in groups && j !in rest then to else from, j);
      assert RowsAt(next, j) == if j == k then rows else RowsAt(members, j);
    }
  }

  /** Some of the groups have reached the members and been turned into actions. */
  ghost predicate Halfway(members: Members, actions: seq<Action>, live: set<Fk>, groups: Groups, rest: set<Fk>,
                          store: Rows, changes: seq<Diff>)
    requires AllFlat(changes)
  {
    && HalfMembers(members, groups, rest, store, MutateAll(store, changes, |changes|))
    && Deals(Batch(changes), live * (groups.Keys - rest), actions)
  }

  lemma HalfwayStep(members: Members, actions: seq<Action>, live: set<Fk>, groups: Groups, rest: set<Fk>,
                    store: Rows, changes: seq<Diff>, k: Fk, rows: Rows)
    requires AllFlat(changes) && TruthfulAll(store, changes, |changes|) && Pending(groups, changes)
    requires Halfway(members, actions, live, groups, rest, store, changes) && rest <= groups.Keys && k in rest
    requires rows == MutateAll(RowsAt(members, k), groups[k], |groups[k]|)
    ensures var next := if k in live then actions + [Action(k, Batch(groups[k]))] else actions;
            Halfway(PutMembers(members, k, rows), next, live, groups, rest - {k}, store, changes)
  {
    GroupMeans(groups, store, changes, k);
    HalfMembersStep(members, groups, rest, k, rows, store, MutateAll(store, changes, |changes|));
    var dealt := live * (groups.Keys - rest);
    if k in live {
      DealsNext(Batch(changes), dealt, actions, Action(k, Batch(groups[k])));
      assert live * (groups.Keys - (rest - {k})) == dealt + {k};
    } else {
      assert live * (groups.Keys - (rest - {k})) == dealt;
    }
  }

  lemma HalfwayDone(members: Members, actions: seq<Action>, live: set<Fk>, groups: Groups, store: Rows,
                    changes: seq<Diff>)
    requires AllFlat(changes) && TruthfulAll(store, changes, |changes|) && Pending(groups, changes)
    requires Halfway(members, actions, live, groups, {}, store, changes)
    ensures Follows(members, MutateAll(store, changes, |changes|))
    ensures Deals(Batch(changes), live, actions)
  {
    var to := MutateAll(store, changes, |changes|);
    forall k ensures RowsAt(members, k) == Pick(to, k) {
      SplitAllFollows(store, changes, k);
      assert ChangesAt(groups, k) == SplitAll(changes, k);
    }
    forall k | k in live ensures Keyed(actions, k) <==> Concerns(Batch(changes), k) {
      assert ChangesAt(groups, k) == SplitAll(changes, k);
    }
  }

  lemma NothingPending()
    ensures Pending(map[], [])
  {
  }

  lemma {:induction false} TruthfulPrefix(store: Rows, changes: seq<Diff>, n: nat)
    requires n <= |changes| && TruthfulAll(store, changes, |changes|)
    ensures TruthfulAll(store, changes, n)
  {
    var i := |changes|;
    while i > n
      invariant n <= i <= |changes| && TruthfulAll(store, changes, i)
    {
      i := i - 1;
    }
  }

  method Applied(rows: Rows, changes: seq<Diff>) returns (out: Rows)
    ensures out == MutateAll(rows, changes, |changes|)
  {
    out := rows;
    for i := 0 to |changes|
      invariant out == MutateAll(rows, changes, i)
    {
      out := Mutate(out, changes[i]);
    }
  }

  /** A snapshot, sorted into members. */
  method Grouped(entries: seq<Entry<Item>>) returns (members: Members)
    requires Distinct(entries)
    ensures Follows(members, FromEntries(entries))
  {
    members := map[];
    for i := 0 to |entries|
      invariant Follows(members, FromEntries(entries[..i]))
    {
      var Entry(id, item) := entries[i];
      GroupedOneMore(members, entries, i);
      members := members[item.fk := RowsAt(members, item.fk)[id := item]];
    }
    assert entries[..|entries|] == entries;
  }

  lemma {:induction false} ListedKeys(entries: seq<Entry<Item>>, id: Key)
    requires id in FromEntries(entries)
    ensures exists i :: 0 <= i < |entries| && entries[i].key == id
  {
    if |entries| > 0 && entries[|entries| - 1].key != id {
      ListedKeys(entries[..|entries| - 1], id);
      var i :| 0 <= i < |entries| - 1 && entries[..|entries| - 1][i].key == id;
      assert entries[i].key == id;
    }
  }

  lemma GroupedOneMore(members: Members, entries: seq<Entry<Item>>, i: nat)
    requires i < |entries| && Distinct(entries) && Follows(members, FromEntries(entries[..i]))
    ensures var Entry(id, item) := entries[i];
            Follows(members[item.fk := RowsAt(members, item.fk)[id := item]], FromEntries(entries[..i + 1]))
  {
    var Entry(id, item) := entries[i];
    var before, after := FromEntries(entries[..i]), FromEntries(entries[..i + 1]);
    assert entries[..i + 1][..i] == entries[..i];
    var next := members[item.fk := RowsAt(members, item.fk)[id := item]];
    NotListedBefore(entries, i);
    forall k ensures RowsAt(next, k) == Pick(after, k) {
      assert RowsAt(members, k) == Pick(before, k);
      assert RowsAt(next, k) == if k == item.fk then Pick(before, k)[id := item] else Pick(before, k);
    }
    assert id in next[item.fk];
  }

  lemma NotListedBefore(entries: seq<Entry<Item>>, i: nat)
    requires i < |entries| && Distinct(entries)
    ensures entries[i].key !in FromEntries(entries[..i])
  {
    if entries[i].key in FromEntries(entries[..i]) { ListedKeys(entries[..i], entries[i].key); }
  }

  /** The rows of a bucket as a snapshot. */
  method Listing(rows: Rows) returns (entries: seq<Entry<Item>>)
    ensures FromEntries(entries) == rows
  {
    entries := [];
    var rest := rows.Keys;
    while rest != {}
      invariant rest <= rows.Keys
      invariant FromEntries(entries) == rows - rest
      decreases rest
    {
      var id :| id in rest;
      assert (entries + [Entry(id, rows[id])])[..|entries|] == entries;
      entries := entries + [Entry(id, rows[id])];
      rest := rest - {id};
    }
    assert rows - {} == rows;
  }
}
