/**
 Whole runs of a union source: the store's diffs are split under the gate and queued, one drainer delivers the
 actions in order, and diffs, new buckets and new subscriptions may come between any two deliveries, whether from
 other threads or from the callbacks of a delivery.
 */
module UnionRuns {
  import opened Common
  import opened QueryStoreSpec
  import opened UnionSource
  import opened IndexOrders
  import opened UnionOverStore

  /**
   `store` is what the index has been told of, `queue` the actions prepared and not delivered.  `keys` are those of
   one union, `subscribed` those whose bucket it observes already, `told` what it has heard from its buckets.
   */
  datatype World = World(store: Rows, buckets: map<Fk, Rows>, queue: seq<Action>,
                         keys: set<Fk>, subscribed: set<Fk>, told: seq<Action>)

  /** The actions of a diff are for the buckets there are when it is split, in some order the index may choose. */
  datatype Step =
    | StoreDiff(diff: Diff, actions: seq<Action>)
    | BucketFor(k: Fk)
    | Subscribe(k: Fk, listing: seq<Entry<Item>>)
    | Deliver

  function Start(store: Rows, keys: set<Fk>): World { World(store, map[], [], keys, {}, []) }

  ghost predicate Enabled(w: World, step: Step) {
    match step
    case StoreDiff(diff, actions) =>
      Truthful(w.store, diff) && Prepared(diff, w.buckets.Keys, actions)
    case BucketFor(_) => true
    case Subscribe(k, listing) =>
      k in w.keys && k !in w.subscribed && k in w.buckets && FromEntries(listing) == w.buckets[k]
    case Deliver => w.queue != [] && w.queue[0].fk in w.buckets
  }

  ghost function Apply(w: World, step: Step): World
    requires Enabled(w, step)
  {
    match step
    case StoreDiff(diff, actions) => w.(store := Mutate(w.store, diff), queue := w.queue + actions)
    case BucketFor(k) => if k in w.buckets then w else w.(buckets := w.buckets[k := Pick(w.store, k)])
    case Subscribe(k, listing) =>
      w.(subscribed := w.subscribed + {k}, told := w.told + [Action(k, Initial(listing))])
    case Deliver =>
      var a := w.queue[0];
      w.(queue := w.queue[1..], buckets := w.buckets[a.fk := Mutate(w.buckets[a.fk], a.diff)],
      told := if a.fk in w.subscribed then w.told + [a] else w.told)
  }

  // ---------------------------------------------------------------- delivery in order

  ghost predicate Inv(w: World) {
    && (forall i :: 0 <= i < |w.queue| ==> w.queue[i].fk in w.buckets)
    && (forall k :: k in w.buckets ==> ReplayAt(w.queue, k, w.buckets[k]) == Pick(w.store, k))
    && w.subscribed <= w.buckets.Keys && w.subscribed <= w.keys
    && (forall i :: 0 <= i < |w.told| ==> w.told[i].fk in w.subscribed)
    && forall k :: k in w.subscribed ==> ReplayAt(w.told, k, map[]) == w.buckets[k]
  }

  lemma ReplayOne(a: Action, k: Fk, m: Rows)
    ensures ReplayAt([a], k, m) == if a.fk == k then Mutate(m, a.diff) else m
  {
    assert [a][..0] == [];
    assert ReplayAt([a][..0], k, m) == m;
  }

  lemma ReplayFirst(actions: seq<Action>, k: Fk, m: Rows)
    requires actions != []
    ensures ReplayAt(actions, k, m)
            == ReplayAt(actions[1..], k, if actions[0].fk == k then Mutate(m, actions[0].diff) else m)
  {
    ReplayAppend([actions[0]], actions[1..], k, m);
    ReplayOne(actions[0], k, m);
    assert [actions[0]] + actions[1..] == actions;
  }

  lemma ReplayLast(actions: seq<Action>, a: Action, k: Fk, m: Rows)
    ensures ReplayAt(actions + [a], k, m)
            == if a.fk == k then Mutate(ReplayAt(actions, k, m), a.diff) else ReplayAt(actions, k, m)
  {
    assert (actions + [a])[..|actions|] == actions;
  }

  lemma DiffKeepsInv(w: World, diff: Diff, actions: seq<Action>)
    requires Inv(w) && Enabled(w, StoreDiff(diff, actions))
    ensures Inv(Apply(w, StoreDiff(diff, actions)))
  {
    var v := Apply(w, StoreDiff(diff, actions));
    PreparedDelivers(diff, w.buckets.Keys, actions, w.store);
    forall k | k in v.buckets ensures ReplayAt(v.queue, k, v.buckets[k]) == Pick(v.store, k) {
      ReplayAppend(w.queue, actions, k, w.buckets[k]);
    }
  }

  lemma BucketKeepsInv(w: World, k: Fk)
    requires Inv(w)
    ensures Inv(Apply(w, BucketFor(k)))
  {
    if k !in w.buckets { ReplayOthers(w.queue, k, Pick(w.store, k)); }
  }

  lemma SubscribeKeepsInv(w: World, k: Fk, listing: seq<Entry<Item>>)
    requires Inv(w) && Enabled(w, Subscribe(k, listing))
    ensures Inv(Apply(w, Subscribe(k, listing)))
  {
    var v := Apply(w, Subscribe(k, listing));
    forall j | j in v.subscribed ensures ReplayAt(v.told, j, map[]) == v.buckets[j] {
      ReplayLast(w.told, Action(k, Initial(listing)), j, map[]);
    }
  }

  lemma DeliverKeepsInv(w: World)
    requires Inv(w) && Enabled(w, Deliver)
    ensures Inv(Apply(w, Deliver))
  {
    var v, a := Apply(w, Deliver), w.queue[0];
    forall k | k in v.buckets ensures ReplayAt(v.queue, k, v.buckets[k]) == Pick(v.store, k) {
      ReplayFirst(w.queue, k, w.buckets[k]);
    }
    forall k | k in v.subscribed ensures ReplayAt(v.told, k, map[]) == v.buckets[k] {
      if a.fk in w.subscribed { ReplayLast(w.told, a, k, map[]); }
    }
  }

  lemma StepKeepsInv(w: World, step: Step)
    requires Inv(w) && Enabled(w, step)
    ensures Inv(Apply(w, step))
  {
    match step
    case StoreDiff(diff, actions) => DiffKeepsInv(w, diff, actions);
    case BucketFor(k) => BucketKeepsInv(w, k);
    case Subscribe(k, listing) => SubscribeKeepsInv(w, k, listing);
    case Deliver => DeliverKeepsInv(w);
  }

  // ---------------------------------------------------------------- every run

  ghost predicate IsRun(worlds: seq<World>, steps: seq<Step>) {
    && |worlds| == |steps| + 1
    && worlds[0] == Start(worlds[0].store, worlds[0].keys)
    && forall n :: 0 <= n < |steps| ==> Enabled(worlds[n], steps[n]) && worlds[n + 1] == Apply(worlds[n], steps[n])
  }

  lemma {:induction false} RunInv(worlds: seq<World>, steps: seq<Step>, n: nat)
    requires IsRun(worlds, steps) && n <= |steps|
    ensures Inv(worlds[n])
  {
    if n > 0 {
      RunInv(worlds, steps, n - 1);
      StepKeepsInv(worlds[n - 1], steps[n - 1]);
    }
  }

  /** The union before it has heard anything. */
  function Unheard(keys: set<Fk>): Union { Union(map[], map k | k in keys :: map[]) }

  ghost function UnionAt(w: World): Union { Dispatch(Unheard(w.keys), w.told, |w.told|) }

  /** Nothing is left to deliver and the union observes all its buckets. */
  predicate Settled(w: World) { w.queue == [] && w.subscribed == w.keys }

  lemma UnheardIsExact(keys: set<Fk>)
    ensures Exact(Unheard(keys))
  {
  }

  /** What a union counts as a bucket's contribution is what that bucket holds. */
  lemma ContributionsAreBuckets(w: World)
    requires Inv(w) && w.subscribed == w.keys
    ensures UnionAt(w).contributions.Keys == w.keys
    ensures forall k :: k in w.keys ==> UnionAt(w).contributions[k] == w.buckets[k]
  {
    var u := Unheard(w.keys);
    DispatchKeepsKeys(u, w.told, |w.told|);
    assert w.told[..|w.told|] == w.told;
    forall k | k in w.keys ensures UnionAt(w).contributions[k] == w.buckets[k] {
      DispatchReplays(u, w.told, |w.told|, k);
    }
  }

  /**
   In every run each bucket, whenever it was asked for, holds the store's rows with its key once what is queued is
   delivered; and a settled union over one key serves exactly its rows.
   */
  lemma BucketsFollowRun(worlds: seq<World>, steps: seq<Step>, n: nat)
    requires IsRun(worlds, steps) && n <= |steps|
    ensures var w := worlds[n];
            && (forall k :: k in w.buckets ==> ReplayAt(w.queue, k, w.buckets[k]) == Pick(w.store, k))
            && (w.queue == [] ==> forall k :: k in w.buckets ==> w.buckets[k] == Pick(w.store, k))
            && (Settled(w) && |w.keys| == 1 ==> UnionAt(w).result == WithKeys(w.store, w.keys))
  {
    RunInv(worlds, steps, n);
    var w := worlds[n];
    if Settled(w) && |w.keys| == 1 {
      var k := OneMember(w.keys);
      UnheardIsExact(w.keys);
      OneKeyIsExact(Unheard(w.keys), w.told, k);
      ContributionsAreBuckets(w);
      ExactIsWithKeys(UnionAt(w), w.store);
    }
  }

  /** The row is one of the union's, and the bucket it is in was the last to tell of it. */
  ghost predicate Kept(w: World, id: Key) {
    && id in WithKeys(w.store, w.keys)
    && LastToucher(Unheard(w.keys), w.told, |w.told|, id) == Some(w.store[id].fk)
  }

  /**
   In every run a settled union serves no row it should not, and of its rows exactly those of which the bucket they
   ended in told last.
   */
  lemma UnionFollowsRun(worlds: seq<World>, steps: seq<Step>, n: nat)
    requires IsRun(worlds, steps) && n <= |steps| && Settled(worlds[n])
    ensures var w := worlds[n];
            && (forall id :: Lookup(UnionAt(w).result, id) == if Kept(w, id) then Some(w.store[id]) else None)
            && (UnionAt(w).result == WithKeys(w.store, w.keys)
                <==> forall id :: id in WithKeys(w.store, w.keys) ==> Kept(w, id))
  {
    var w := worlds[n];
    RunInv(worlds, steps, n);
    forall id ensures Lookup(UnionAt(w).result, id) == if Kept(w, id) then Some(w.store[id]) else None {
      KeptIsHeld(w, id);
    }
    if forall id :: id in WithKeys(w.store, w.keys) ==> Kept(w, id) {
      forall id ensures Lookup(UnionAt(w).result, id) == Lookup(WithKeys(w.store, w.keys), id) {
        assert id in WithKeys(w.store, w.keys) <==> Kept(w, id);
      }
      SameLookups(UnionAt(w).result, WithKeys(w.store, w.keys));
    }
  }

  lemma KeptIsHeld(w: World, id: Key)
    requires Inv(w) && Settled(w)
    ensures Lookup(UnionAt(w).result, id) == if Kept(w, id) then Some(w.store[id]) else None
  {
    var u := Unheard(w.keys);
    LastToucherDecides(u, w.told, |w.told|, id);
    ContributionsAreBuckets(w);
    forall k | k in w.keys ensures w.buckets[k] == Pick(w.store, k) {
      assert ReplayAt(w.queue, k, w.buckets[k]) == Pick(w.store, k);
    }
    if id in WithKeys(w.store, w.keys) { assert Lookup(UnionAt(w).contributions[w.store[id].fk], id) != None; }
  }

  lemma OneMember(s: set<Fk>) returns (k: Fk)
    requires |s| == 1
    ensures s == {k}
  {
    k :| k in s;
    assert |s - {k}| == 0;
    assert s == {k} + (s - {k});
  }
}
