/** The view of a direct-key graph query while the store of its edges changes. */
module LiveGraphPlan {
  import opened Common
  import opened GraphPlans

  /** The store after the cell of one id took a value or lost it. */
  function Written(store: Store, id: EdgeId, value: Option<Edge>): Store {
    if value.Some? then store[id := value.value] else store - {id}
  }

  function WrittenAll(store: Store, writes: seq<(EdgeId, Option<Edge>)>): Store {
    if writes == [] then store
    else
      var (id, value) := writes[|writes| - 1];
      Written(WrittenAll(store, writes[..|writes| - 1]), id, value)
  }

  /** Under the plan the view listens to the cells of its ids only; the fallback listens to the whole store. */
  class GraphView {
    const undirected: bool
    const query: Query
    var view: Store

    constructor (undirected: bool, query: Query, store: Store)
      requires KeyedById(store)
      ensures this.undirected == undirected && this.query == query && view == Scan(undirected, query, store)
    {
      this.undirected, this.query := undirected, query;
      view := map[];
      new;
      view := BuildView(undirected, query, store);
    }

    /** The filter over the cells looks at the ends only; the fallback tests ids and ends. */
    method OnWrite(id: EdgeId, value: Option<Edge>, ghost store: Store)
      requires KeyedById(store) && (value.Some? ==> value.value.id == id)
      requires view == Scan(undirected, query, store)
      modifies this`view
      ensures KeyedById(Written(store, id, value)) && view == Scan(undirected, query, Written(store, id, value))
    {
      if !Erasable(query) {
        Put(id, value, value.Some? && TestEntity(undirected, query, value.value));
      } else if id in query.ids {
        Put(id, value, value.Some? && value.value.ends.Some? && EndsMatch(undirected, query, value.value.ends.value));
      }
    }

    method Put(id: EdgeId, value: Option<Edge>, passes: bool)
      requires passes ==> value.Some?
      modifies this`view
      ensures view == if passes then old(view)[id := value.value] else old(view) - {id}
    {
      view := if passes then view[id := value.value] else view - {id};
    }
  }

  predicate AreKeyed(writes: seq<(EdgeId, Option<Edge>)>) {
    forall i :: 0 <= i < |writes| && writes[i].1.Some? ==> writes[i].1.value.id == writes[i].0
  }

  /** Whatever is written after it was built, the view is the scan of the store as it is then. */
  method Follow(undirected: bool, q: Query, store: Store, writes: seq<(EdgeId, Option<Edge>)>) returns (view: Store)
    requires KeyedById(store) && AreKeyed(writes)
    ensures view == Scan(undirected, q, WrittenAll(store, writes))
  {
    var live := new GraphView(undirected, q, store);
    for i := 0 to |writes|
      invariant live.undirected == undirected && live.query == q
      invariant KeyedById(WrittenAll(store, writes[..i]))
      invariant live.view == Scan(undirected, q, WrittenAll(store, writes[..i]))
    {
      assert writes[..i + 1][..i] == writes[..i];
      live.OnWrite(writes[i].0, writes[i].1, WrittenAll(store, writes[..i]));
    }
    assert writes[..|writes|] == writes;
    view := live.view;
  }
}
