/** The view of a filter query while the store changes. */
module LiveRoute {
  import opened Common
  import Routing
  import opened UnionSource
  import opened QueryStoreSpec
  import opened UnionOverStore
  import opened UnionRuns
  import opened UnionSettling

  // ---------------------------------------------------------------- a route by ids

  /** The store after the cell of one id took a value or lost it. */
  function Written(store: Routing.Store, id: Routing.Id, value: Option<Routing.Item>): Routing.Store {
    if value.Some? then store[id := value.value] else store - {id}
  }

  /** The source behind an id route: a map that listens to the store's cell of each id. */
  class IdsSource {
    const ids: seq<Routing.Id>
    var source: Routing.Store

    constructor (store: Routing.Store, ids: seq<Routing.Id>)
      ensures this.ids == ids && source == Routing.ByIds(store, ids)
    {
      this.ids := ids;
      source := map[];
      new;
      source := Routing.BuildIdsSource(store, ids);
    }

    /** A write of the store reaches the source through the cell of its id, if that is one of the ids. */
    method OnWrite(id: Routing.Id, value: Option<Routing.Item>, ghost store: Routing.Store)
      requires source == Routing.ByIds(store, ids)
      modifies this`source
      ensures source == Routing.ByIds(Written(store, id, value), ids)
    {
      if id in ids {
        source := if value.Some? then source[id := value.value] else source - {id};
      }
    }
  }

  // ---------------------------------------------------------------- a route by keys

  /** The rows as an index over these fields sees them. */
  function Indexed(store: Routing.Store, fields: seq<nat>): Rows
    requires Routing.Extractable(store, fields)
  {
    map id | id in store :: Item(Routing.Extract(store[id], fields), store[id])
  }

  function Plain(rows: Rows): Routing.Store {
    map id | id in rows :: rows[id].data
  }

  lemma WithKeysIsByKeys(store: Routing.Store, fields: seq<nat>, keys: seq<Fk>)
    requires Routing.Extractable(store, fields)
    ensures Plain(WithKeys(Indexed(store, fields), set k | k in keys)) == Routing.ByKeys(store, fields, keys)
  {
  }

  /** The run of an index and one union serves this route of the query over this store. */
  ghost predicate Serves(f: Routing.Filter, masks: seq<nat>, store: Routing.Store, w: World) {
    && Routing.Holds(store, f) && Routing.QueryRoute(f, masks).Some? && Routing.QueryRoute(f, masks).value.BelongsTo?
    && var route := Routing.QueryRoute(f, masks).value;
       && Routing.Extractable(store, route.fields) && w.store == Indexed(store, route.fields)
       && w.keys == set k | k in route.keys
  }

  /**
   At every settled moment of every run, the routed view is the full scan of the store if and only if of every row
   that matches the bucket it is in was the last to tell.
   */
  lemma LiveViewIsScanIff(f: Routing.Filter, masks: seq<nat>, store: Routing.Store,
                          worlds: seq<World>, steps: seq<Step>, n: nat)
    requires IsRun(worlds, steps) && n <= |steps| && Settled(worlds[n]) && Serves(f, masks, store, worlds[n])
    ensures var view := Plain(UnionAt(worlds[n]).result);
            && (forall id :: id in view ==> Routing.Fits(f, view[id]))
            && (Routing.Select(f, view) == Routing.Select(f, store)
                <==> forall id :: id in store && Routing.Matches(f, store[id]) ==> Kept(worlds[n], id))
  {
    var w, route := worlds[n], Routing.QueryRoute(f, masks).value;
    var view := Plain(UnionAt(w).result);
    UnionFollowsRun(worlds, steps, n);
    WithKeysIsByKeys(store, route.fields, route.keys);
    Routing.RoutedIsScan(f, store, masks);
    forall id ensures id in view <==> Kept(w, id) {
      assert Lookup(UnionAt(w).result, id) == if Kept(w, id) then Some(w.store[id]) else None;
    }
    forall id | id in view ensures id in store && view[id] == store[id] {
      assert Lookup(UnionAt(w).result, id) == Some(w.store[id]);
    }
    if Routing.Select(f, view) == Routing.Select(f, store) {
      forall id | id in store && Routing.Matches(f, store[id]) ensures Kept(w, id) {
        assert id in Routing.Select(f, store);
      }
    }
  }

  /** It always is if no step of the run was harmful; no step is under a route of one key. */
  lemma LiveViewIsScan(f: Routing.Filter, masks: seq<nat>, store: Routing.Store,
                       worlds: seq<World>, steps: seq<Step>, n: nat)
    requires IsRun(worlds, steps) && n <= |steps| && Settled(worlds[n]) && Serves(f, masks, store, worlds[n])
    requires (forall m :: 0 <= m < n ==> Harmless(worlds[m], steps[m])) || |worlds[n].keys| == 1
    ensures var view := Plain(UnionAt(worlds[n]).result);
            && (forall id :: id in view ==> Routing.Fits(f, view[id]))
            && Routing.Select(f, view) == Routing.Select(f, store)
  {
    var route := Routing.QueryRoute(f, masks).value;
    forall m | 0 <= m < n ensures Harmless(worlds[m], steps[m]) {
      SameKeys(worlds, steps, m, n);
      RunInv(worlds, steps, m);
      if |worlds[n].keys| == 1 { OneKeyIsHarmless(worlds[m], steps[m]); }
    }
    HarmlessRunSettles(worlds, steps, n);
    LiveViewIsScanIff(f, masks, store, worlds, steps, n);
    WithKeysIsByKeys(store, route.fields, route.keys);
    Routing.RoutedIsScan(f, store, masks);
  }

  lemma {:induction false} SameKeys(worlds: seq<World>, steps: seq<Step>, m: nat, n: nat)
    requires IsRun(worlds, steps) && m <= n <= |steps|
    ensures worlds[m].keys == worlds[n].keys
    decreases n
  {
    if m < n { SameKeys(worlds, steps, m, n - 1); }
  }
}
