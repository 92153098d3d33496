/**
 What it takes for a diff of the store to be safe for a union, and what happens to a row that changes its key.
 */
module UnionSafety {
  import opened Common
  import opened QueryStoreSpec
  import opened UnionSource
  import opened IndexOrders
  import opened UnionOverStore
  import opened UnionOrders

  // ---------------------------------------------------------------- what safe means

  lemma OnePhaseSafeIff(diff: Diff, phase: Diff, store: Rows, keys: set<Fk>)
    requires IsPhase(phase) && Phases(diff) == [phase]
    ensures Safe(diff, store, keys)
            <==> forall id :: id in WithKeys(Mutate(store, diff), keys) ==>
                                Namers(phase, store, keys, id) <= {Mutate(store, diff)[id].fk}
  {
    forall id ensures LastNamers([phase], 1, store, keys, id) == Namers(phase, store, keys, id) {
      assert LastNamers([phase], 0, store, keys, id) == {};
      assert MutateAll(store, [phase], 0) == store;
    }
  }

  /** These changes name the row for a key other than this one. */
  predicate NamesOther(changes: seq<Diff>, keys: set<Fk>, id: Key, home: Fk)
    requires AllFlat(changes)
  {
    exists k :: k in keys && k != home && NamesAny(changes, k, id)
  }

  /** Flat changes are safe when no row that ends under one of the keys is named for another. */
  lemma SafeBatchIff(changes: seq<Diff>, store: Rows, keys: set<Fk>)
    requires AllFlat(changes)
    ensures var to := MutateAll(store, changes, |changes|);
            Safe(Batch(changes), store, keys)
            <==> forall id :: id in WithKeys(to, keys) ==> !NamesOther(changes, keys, id, to[id].fk)
  {
    FlatIsOpen(changes, |changes|);
    OnePhaseSafeIff(Batch(changes), Batch(changes), store, keys);
    forall id, home
      ensures Namers(Batch(changes), store, keys, id) <= {home} <==> !NamesOther(changes, keys, id, home)
    {
      assert forall k :: k in Namers(Batch(changes), store, keys, id) <==> k in keys && NamesAny(changes, k, id);
    }
  }

  lemma {:induction false} FlatIsOpen(changes: seq<Diff>, n: nat)
    requires AllFlat(changes) && n <= |changes|
    ensures CutAt(changes, n) == Cut([], changes[..n])
    ensures n == |changes| ==> Phases(Batch(changes)) == [Batch(changes)]
  {
    if n > 0 { FlatIsOpen(changes, n - 1); }
    assert changes[..|changes|] == changes;
  }

  /** A snapshot is safe when no row goes from one of the keys to another. */
  lemma SafeSnapshotIff(entries: seq<Entry<Item>>, store: Rows, keys: set<Fk>)
    ensures var to := FromEntries(entries);
            Safe(Initial(entries), store, keys)
            <==> forall id :: id in WithKeys(store, keys) && id in WithKeys(to, keys) ==> store[id].fk == to[id].fk
  {
    var to := FromEntries(entries);
    OnePhaseSafeIff(Initial(entries), Initial(entries), store, keys);
    forall id | id in WithKeys(to, keys)
      ensures Namers(Initial(entries), store, keys, id) <= {to[id].fk}
              <==> (id in WithKeys(store, keys) ==> store[id].fk == to[id].fk)
    {
      SnapshotNamers(entries, store, keys, id);
    }
  }

  lemma SnapshotNamers(entries: seq<Entry<Item>>, store: Rows, keys: set<Fk>, id: Key)
    ensures var to := FromEntries(entries);
            Namers(Initial(entries), store, keys, id)
            == (if id in WithKeys(store, keys) then {store[id].fk} else {})
               + (if id in WithKeys(to, keys) then {to[id].fk} else {})
  {
  }

  /** One change is safe unless it takes a row from one of the keys to another. */
  lemma SafeChangeIff(change: Diff, store: Rows, keys: set<Fk>)
    requires IsFlat(change) && Truthful(store, change)
    ensures Safe(change, store, keys)
            <==> !(change.Update? && change.oldValue.fk != change.newValue.fk
                   && change.oldValue.fk in keys && change.newValue.fk in keys)
  {
    var to := Mutate(store, change);
    OnePhaseSafeIff(change, Batch([change]), store, keys);
    forall k, id ensures Names(Batch([change]), store, k, id) <==> NamesOne(change, k, id) {
      assert [change][0] == change;
    }
    if change.Update? && change.newValue.fk in keys {
      assert change.key in WithKeys(to, keys);
      assert NamesOne(change, change.oldValue.fk, change.key);
      assert change.oldValue.fk in keys ==>
          change.oldValue.fk in Namers(Batch([change]), store, keys, change.key);
    }
  }

  /** What is safe for some keys is safe for fewer. */
  lemma SafeForFewer(diff: Diff, store: Rows, keys: set<Fk>, fewer: set<Fk>)
    requires Safe(diff, store, keys) && fewer <= keys
    ensures Safe(diff, store, fewer)
  {
    var phases, to := Phases(diff), Mutate(store, diff);
    forall id | id in WithKeys(to, fewer)
      ensures LastNamers(phases, |phases|, store, fewer, id) <= {to[id].fk}
    {
      assert id in WithKeys(to, keys);
      LastNamersOfFewer(phases, |phases|, store, keys, fewer, id);
    }
  }

  /** Leaving out keys leaves the last namers that are kept, unless all of them go. */
  lemma {:induction false} LastNamersOfFewer(
    phases: seq<Diff>, n: nat, store: Rows, keys: set<Fk>, fewer: set<Fk>, id: Key)
    requires ArePhases(phases) && n <= |phases| && fewer <= keys
    ensures var all, some := LastNamers(phases, n, store, keys, id), LastNamers(phases, n, store, fewer, id);
            (all == {} ==> some == {}) && (all * fewer != {} ==> some == all * fewer)
  {
    if n > 0 {
      LastNamersOfFewer(phases, n - 1, store, keys, fewer, id);
      var phase, before := phases[n - 1], MutateAll(store, phases, n - 1);
      assert Namers(phase, before, fewer, id) == Namers(phase, before, keys, id) * fewer;
    }
  }

  // ---------------------------------------------------------------- a row that changes its key

  /** The two actions of a row that moves between two live buckets. */
  function Leave(id: Key, old_: Item): Action {
    Action(old_.fk, Batch([Remove(id, old_)]))
  }

  function Join(id: Key, new_: Item): Action {
    Action(new_.fk, Batch([Insert(id, new_)]))
  }

  /** For a row that moves between two live keys the index may hand out these two actions, in either order. */
  lemma BothOrdersPrepared(id: Key, old_: Item, new_: Item, live: set<Fk>, actions: seq<Action>)
    requires old_.fk != new_.fk && old_.fk in live && new_.fk in live
    ensures var leave, join := Leave(id, old_), Join(id, new_);
            Prepared(Update(id, old_, new_), live, actions) <==> actions == [leave, join] || actions == [join, leave]
  {
    var diff: Diff := Update(id, old_, new_);
    var leave, join := Leave(id, old_), Join(id, new_);
    assert Phases(diff) == [Batch([diff])];
    if actions == [leave, join] || actions == [join, leave] {
      MoveDeals(id, old_, new_, live, actions);
      OneDeal(Batch([diff]), live, actions);
    }
    if Prepared(diff, live, actions) {
      var before, last := LastDeal([Batch([diff])], 1, live, actions);
      assert DealsAll([Batch([diff])], 0, live, before);
      assert actions == last;
      MoveDealsOnly(id, old_, new_, live, actions);
    }
  }

  lemma MoveDeals(id: Key, old_: Item, new_: Item, live: set<Fk>, actions: seq<Action>)
    requires old_.fk != new_.fk && old_.fk in live && new_.fk in live
    requires actions == [Leave(id, old_), Join(id, new_)] || actions == [Join(id, new_), Leave(id, old_)]
    ensures Deals(Batch([Update(id, old_, new_)]), live, actions)
  {
    MoveGroups(id, old_, new_);
    assert Keyed(actions, actions[0].fk) && Keyed(actions, actions[1].fk);
  }

  lemma MoveDealsOnly(id: Key, old_: Item, new_: Item, live: set<Fk>, actions: seq<Action>)
    requires old_.fk != new_.fk && old_.fk in live && new_.fk in live
    requires Deals(Batch([Update(id, old_, new_)]), live, actions)
    ensures actions == [Leave(id, old_), Join(id, new_)] || actions == [Join(id, new_), Leave(id, old_)]
  {
    MoveGroups(id, old_, new_);
    var phase: Diff := Batch([Update(id, old_, new_)]);
    assert Concerns(phase, old_.fk) && Concerns(phase, new_.fk);
    forall i | 0 <= i < |actions|
      ensures actions[i] == Leave(id, old_) || actions[i] == Join(id, new_)
    {
      assert IsPart(actions[i], phase);
      assert Keyed(actions, actions[i].fk);
      assert Concerns(phase, actions[i].fk);
    }
    OnlyTwo(actions, old_.fk, new_.fk);
  }

  lemma MoveGroups(id: Key, old_: Item, new_: Item)
    requires old_.fk != new_.fk
    ensures var diff: Diff := Update(id, old_, new_);
            && SplitAll([diff], old_.fk) == [Remove(id, old_)] && SplitAll([diff], new_.fk) == [Insert(id, new_)]
            && forall k :: k != old_.fk && k != new_.fk ==> SplitAll([diff], k) == []
  {
    var diff: Diff := Update(id, old_, new_);
    forall k ensures SplitAll([diff], k) == Split(diff, k) {
      SplitAllOneMore([], diff, k);
      assert [] + [diff] == [diff];
    }
  }

  lemma OnlyTwo(actions: seq<Action>, a: Fk, b: Fk)
    requires a != b && Keyed(actions, a) && Keyed(actions, b)
    requires forall i :: 0 <= i < |actions| ==> actions[i].fk == a || actions[i].fk == b
    requires forall i, j :: 0 <= i < j < |actions| ==> actions[i].fk != actions[j].fk
    ensures |actions| == 2
  {
    FirstThreeDiffer(actions);
  }

  lemma FirstThreeDiffer(actions: seq<Action>)
    requires forall i, j :: 0 <= i < j < |actions| ==> actions[i].fk != actions[j].fk
    ensures |actions| > 2 ==>
              actions[0].fk != actions[1].fk && actions[0].fk != actions[2].fk && actions[1].fk != actions[2].fk
  {
  }

  /**
   When a row moves from one key of a right union to another, the union stays right if and only if the index
   tells the bucket it left first.
   */
  lemma MovedRowKeptIff(u: Union, store: Rows, id: Key, new_: Item, live: set<Fk>, actions: seq<Action>)
    requires BucketsFollow(u, store) && IsRight(u, store) && u.contributions.Keys <= live
    requires id in store && store[id].fk != new_.fk
    requires store[id].fk in u.contributions && new_.fk in u.contributions
    requires Prepared(Update(id, store[id], new_), live, actions)
    ensures |actions| == 2
    ensures IsRight(Dispatch(u, actions, 2), store[id := new_]) <==> actions[0].fk == store[id].fk
  {
    BothOrdersPrepared(id, store[id], new_, live, actions);
    PreparedDelivers(Update(id, store[id], new_), live, actions, store);
    UnionAfterDiff(u, actions, live, store, store[id := new_]);
    DispatchKeepsKeys(u, actions, 2);
    forall x { MoveTouches(u, store, new_, live, actions, id, x); }
    MoveHomes(u, actions, store[id := new_], id);
  }

  lemma MoveHomes(u: Union, actions: seq<Action>, to: Rows, id: Key)
    requires |actions| == 2 && BucketsFollow(Dispatch(u, actions, 2), to)
    requires id in to && to[id].fk in Dispatch(u, actions, 2).contributions
    requires forall x :: LastToucher(u, actions, 2, x) == if x == id then Some(actions[1].fk) else None
    ensures HomeTouchesLast(u, actions) <==> actions[1].fk == to[id].fk
  {
    var t := Dispatch(u, actions, 2);
    assert In(t.contributions, to[id].fk, id);
    if actions[1].fk == to[id].fk {
      forall k, x | In(t.contributions, k, x) ensures LastToucher(u, actions, 2, x) in {None, Some(k)} {
        assert to[x].fk == k;
      }
    }
  }

  lemma MoveTouches(u: Union, store: Rows, new_: Item, live: set<Fk>, actions: seq<Action>, id: Key, x: Key)
    requires BucketsFollow(u, store) && u.contributions.Keys <= live && id in store && store[id].fk != new_.fk
    requires store[id].fk in u.contributions && new_.fk in u.contributions
    requires actions in {[Leave(id, store[id]), Join(id, new_)], [Join(id, new_), Leave(id, store[id])]}
    requires Prepared(Update(id, store[id], new_), live, actions)
    ensures LastToucher(u, actions, 2, x) == if x == id then Some(actions[1].fk) else None
  {
    var diff: Diff := Update(id, store[id], new_);
    var before, last := LastDeal([Batch([diff])], 1, live, actions);
    assert actions == last;
    DealDecides(u, Batch([diff]), live, actions, store, x);
    forall k ensures NamesAny([diff], k, x) <==> NamesOne(diff, k, x) { assert [diff][0] == diff; }
    assert actions[1].fk in Namers(Batch([diff]), store, u.contributions.Keys, x) <==> x == id;
  }
}
