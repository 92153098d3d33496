/** What a union source holds while the store behind its index changes. */
module UnionOverStore {
  import opened QueryStoreSpec
  import opened UnionSource
  import opened IndexOrders

  /** The rows a routed query is to be served: those whose key is one of the union's. */
  function WithKeys(store: Rows, keys: set<Fk>): Rows {
    map id | id in store && store[id].fk in keys :: store[id]
  }

  /** Every bucket of the union holds the store's rows with its key. */
  ghost predicate BucketsFollow(u: Union, store: Rows) {
    forall k :: k in u.contributions ==> u.contributions[k] == Pick(store, k)
  }

  lemma BucketsAreDisjoint(u: Union, store: Rows)
    requires BucketsFollow(u, store)
    ensures Disjoint(u.contributions)
    ensures forall id :: Home(u.contributions, id) == Lookup(WithKeys(store, u.contributions.Keys), id)
  {
    forall j, k, id | In(u.contributions, j, id) && In(u.contributions, k, id) ensures j == k {
      assert store[id].fk == j && store[id].fk == k;
    }
    forall id ensures Home(u.contributions, id) == Lookup(WithKeys(store, u.contributions.Keys), id) {
      if id in store && store[id].fk in u.contributions {
        assert In(u.contributions, store[id].fk, id);
        HomeIs(u.contributions, store[id].fk, id);
      }
    }
  }

  /** Being exact, for buckets that follow the store, is holding the store's rows with the union's keys. */
  lemma ExactIsWithKeys(u: Union, store: Rows)
    requires BucketsFollow(u, store)
    ensures Exact(u) <==> u.result == WithKeys(store, u.contributions.Keys)
  {
    BucketsAreDisjoint(u, store);
    if Exact(u) { SameLookups(u.result, WithKeys(store, u.contributions.Keys)); }
  }

  lemma {:induction false} DispatchReplays(u: Union, actions: seq<Action>, n: nat, k: Fk)
    requires n <= |actions| && k in u.contributions
    ensures k in Dispatch(u, actions, n).contributions
    ensures Dispatch(u, actions, n).contributions[k] == ReplayAt(actions[..n], k, u.contributions[k])
  {
    if n > 0 {
      DispatchReplays(u, actions, n - 1, k);
      assert actions[..n][..n - 1] == actions[..n - 1];
    }
  }

  lemma BucketsFollowDiff(u: Union, actions: seq<Action>, live: set<Fk>, from: Rows, to: Rows)
    requires BucketsFollow(u, from) && Delivers(actions, live, from, to) && u.contributions.Keys <= live
    ensures BucketsFollow(Dispatch(u, actions, |actions|), to)
    ensures Dispatch(u, actions, |actions|).contributions.Keys == u.contributions.Keys
  {
    DispatchKeepsKeys(u, actions, |actions|);
    assert actions[..|actions|] == actions;
    forall k | k in u.contributions ensures Dispatch(u, actions, |actions|).contributions[k] == Pick(to, k) {
      DispatchReplays(u, actions, |actions|, k);
    }
  }

  /**
   A union that held the right rows holds the right rows after any diff of the store exactly when, in the order
   the index dispatched its actions, every row was touched last by the bucket it ended in.
   */
  lemma UnionAfterDiff(u: Union, actions: seq<Action>, live: set<Fk>, from: Rows, to: Rows)
    requires BucketsFollow(u, from) && u.result == WithKeys(from, u.contributions.Keys)
    requires Delivers(actions, live, from, to) && u.contributions.Keys <= live
    ensures var t := Dispatch(u, actions, |actions|);
            && BucketsFollow(t, to)
            && (t.result == WithKeys(to, u.contributions.Keys) <==> HomeTouchesLast(u, actions))
  {
    var t := Dispatch(u, actions, |actions|);
    BucketsFollowDiff(u, actions, live, from, to);
    ExactIsWithKeys(u, from);
    ExactIsWithKeys(t, to);
    BucketsAreDisjoint(t, to);
    ExactIffHomeTouchesLast(u, actions);
  }
}
