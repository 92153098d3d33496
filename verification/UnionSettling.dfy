/**
 Which steps of a run can make a union serve the wrong rows, over every order the index may choose and every course
 the deliveries may take.
 */
module UnionSettling {
  import opened Common
  import opened QueryStoreSpec
  import opened UnionSource
  import opened IndexOrders
  import opened UnionOverStore
  import opened UnionOrders
  import opened UnionSafety
  import opened UnionRuns

  /** The buckets of these keys. */
  function Over(buckets: map<Fk, Rows>, keys: set<Fk>): map<Fk, Rows> {
    map k | k in buckets && k in keys :: buckets[k]
  }

  /** The union as it is, with the buckets it observes. */
  ghost function Heard(w: World): Union { Union(UnionAt(w).result, Over(w.buckets, w.subscribed)) }

  /** The union once the queue is delivered to these buckets. */
  ghost function Ahead(w: World): Union { Dispatch(Heard(w), w.queue, |w.queue|) }

  /** All buckets there are for the union's keys, observed or not. */
  function Live(w: World): Union { Union(map[], Over(w.buckets, w.keys)) }

  /** The last bucket of the union for which the queue touches the row. */
  ghost function QueuedLast(w: World, id: Key): Option<Fk> { LastToucher(Live(w), w.queue, |w.queue|, id) }

  /** The queue has no bucket of the union told of a row after the bucket in which the row is. */
  ghost predicate QueueIsSafe(w: World) {
    forall id :: id in w.store && w.store[id].fk in w.keys * w.buckets.Keys ==>
                   QueuedLast(w, id) in {None, Some(w.store[id].fk)}
  }

  /** Delivering the queue makes the union right, now and when it observes more of its buckets. */
  ghost predicate Good(w: World) {
    Inv(w) && QueueIsSafe(w) && IsRight(Ahead(w), w.store)
  }

  /**
   A diff is harmless if it is safe for the keys that have buckets; making a bucket is harmless if nothing is queued
   for the union that touches one of the rows it starts with.
   */
  ghost predicate Harmless(w: World, step: Step) {
    match step
    case StoreDiff(diff, _) => Safe(diff, w.store, w.keys * w.buckets.Keys)
    case BucketFor(k) =>
      k in w.keys && k !in w.buckets ==> forall id :: id in Pick(w.store, k) ==> QueuedLast(w, id) == None
    case Subscribe(_, _) => true
    case Deliver => true
  }

  // ---------------------------------------------------------------- fewer buckets

  ghost predicate PartOfUnion(v: Union, u: Union) {
    forall k :: k in v.contributions ==> k in u.contributions && v.contributions[k] == u.contributions[k]
  }

  /** With fewer buckets a row is touched last by the same one, if that is among them. */
  lemma {:induction false} LastToucherOfFewer(u: Union, v: Union, actions: seq<Action>, n: nat, id: Key)
    requires n <= |actions| && PartOfUnion(v, u)
    ensures PartOfUnion(Dispatch(v, actions, n), Dispatch(u, actions, n))
    ensures var all, some := LastToucher(u, actions, n, id), LastToucher(v, actions, n, id);
            && (all == None ==> some == None)
            && (all.Some? && all.value in v.contributions ==> some == all)
            && (some.Some? ==> some.value in v.contributions)
  {
    if n > 0 {
      LastToucherOfFewer(u, v, actions, n - 1, id);
      DispatchKeepsKeys(v, actions, n - 1);
      DispatchKeepsKeys(u, actions, n - 1);
    }
  }

  lemma {:induction false} LastToucherIsKeyed(u: Union, actions: seq<Action>, n: nat, id: Key)
    requires n <= |actions|
    ensures LastToucher(u, actions, n, id).Some? ==> Keyed(actions, LastToucher(u, actions, n, id).value)
  {
    if n > 0 { LastToucherIsKeyed(u, actions, n - 1, id); }
  }

  /** The buckets, with the queue delivered, follow the store. */
  lemma QueueLeads(w: World, u: Union)
    requires Inv(w) && PartOfUnion(u, Union(map[], w.buckets))
    ensures var t := Dispatch(u, w.queue, |w.queue|);
            BucketsFollow(t, w.store) && t.contributions.Keys == u.contributions.Keys
  {
    DispatchKeepsKeys(u, w.queue, |w.queue|);
    assert w.queue[..|w.queue|] == w.queue;
    var t := Dispatch(u, w.queue, |w.queue|);
    forall k | k in t.contributions ensures t.contributions[k] == Pick(w.store, k) {
      DispatchReplays(u, w.queue, |w.queue|, k);
    }
  }

  // ---------------------------------------------------------------- each step

  lemma DeliverKeepsAhead(w: World)
    requires Inv(w) && Enabled(w, Deliver)
    ensures Ahead(Apply(w, Deliver)) == Ahead(w)
  {
    HeardAfter(w);
    DispatchFirst(Heard(w), w.queue, "");
  }

  lemma DispatchFirst(u: Union, queue: seq<Action>, id: Key)
    requires queue != []
    ensures var v, rest := AfterAction(u, queue[0]), queue[1..];
            && Dispatch(u, queue, |queue|) == Dispatch(v, rest, |rest|)
            && (LastToucher(v, rest, |rest|, id).Some? ==>
                  LastToucher(u, queue, |queue|, id) == LastToucher(v, rest, |rest|, id))
  {
    var first, rest := [queue[0]], queue[1..];
    assert first + rest == queue;
    DispatchAppend(u, first, rest, |rest|, |queue|);
    LastToucherAppend(u, first, rest, |rest|, |queue|, id);
    assert Dispatch(u, first, 1) == AfterAction(Dispatch(u, first, 0), queue[0]);
  }

  lemma HeardAfter(w: World)
    requires Inv(w) && Enabled(w, Deliver)
    ensures Heard(Apply(w, Deliver)) == AfterAction(Heard(w), w.queue[0])
  {
    var v, a := Apply(w, Deliver), w.queue[0];
    if a.fk in w.subscribed {
      HeardAfterTold(w);
    } else {
      assert Over(v.buckets, v.subscribed) == Over(w.buckets, w.subscribed);
    }
  }

  lemma HeardAfterTold(w: World)
    requires Inv(w) && Enabled(w, Deliver) && w.queue[0].fk in w.subscribed
    ensures Heard(Apply(w, Deliver)) == AfterAction(Heard(w), w.queue[0])
  {
    var v, a := Apply(w, Deliver), w.queue[0];
    ToldOneMore(w, a);
    HeardIsTold(w, a.fk);
    OverlayOfPart(UnionAt(w), Heard(w), a);
    OverPut(w.buckets, w.subscribed, a.fk, Mutate(w.buckets[a.fk], a.diff));
  }

  lemma OverPut(buckets: map<Fk, Rows>, keys: set<Fk>, k: Fk, rows: Rows)
    requires k in keys
    ensures Over(buckets[k := rows], keys) == Over(buckets, keys)[k := rows]
  {
  }

  lemma OverlayOfPart(u: Union, v: Union, a: Action)
    requires a.fk in u.contributions && a.fk in v.contributions
    requires u.contributions[a.fk] == v.contributions[a.fk] && u.result == v.result
    ensures Overlay(u, a) == Overlay(v, a)
  {
  }

  lemma ToldOneMore(w: World, a: Action)
    ensures Dispatch(Unheard(w.keys), w.told + [a], |w.told| + 1) == AfterAction(UnionAt(w), a)
  {
    DispatchPrefix(Unheard(w.keys), w.told, [a], |w.told|);
  }

  /** What the union counts as the bucket's contribution: what the bucket holds, or nothing yet. */
  lemma HeardIsTold(w: World, k: Fk)
    requires Inv(w) && k in w.keys
    ensures k in UnionAt(w).contributions
    ensures UnionAt(w).contributions[k] == if k in w.subscribed then w.buckets[k] else map[]
  {
    DispatchReplays(Unheard(w.keys), w.told, |w.told|, k);
    assert w.told[..|w.told|] == w.told;
    if k !in w.subscribed { ReplayOthers(w.told, k, map[]); }
  }

  lemma DeliverKeepsGood(w: World)
    requires Good(w) && Enabled(w, Deliver)
    ensures Good(Apply(w, Deliver))
  {
    DeliverKeepsInv(w);
    DeliverKeepsAhead(w);
    var v := Apply(w, Deliver);
    forall id | id in v.store && v.store[id].fk in v.keys * v.buckets.Keys
      ensures QueuedLast(v, id) in {None, Some(v.store[id].fk)}
    {
      DeliverQueuedLast(w, id);
    }
  }

  lemma DeliverQueuedLast(w: World, id: Key)
    requires Inv(w) && Enabled(w, Deliver)
    ensures QueuedLast(Apply(w, Deliver), id) in {None, QueuedLast(w, id)}
  {
    var v := Apply(w, Deliver);
    LiveAfter(w);
    DispatchFirst(Live(w), w.queue, id);
    ResultDoesNotMatter(AfterAction(Live(w), w.queue[0]), Live(v), v.queue, |v.queue|, id);
  }

  lemma LiveAfter(w: World)
    requires Inv(w) && Enabled(w, Deliver)
    ensures Live(Apply(w, Deliver)).contributions == AfterAction(Live(w), w.queue[0]).contributions
  {
  }

  lemma ResultDoesNotMatter(u: Union, v: Union, actions: seq<Action>, n: nat, id: Key)
    requires n <= |actions| && u.contributions == v.contributions
    ensures LastToucher(u, actions, n, id) == LastToucher(v, actions, n, id)
  {
    LastToucherOfFewer(u, v, actions, n, id);
    LastToucherOfFewer(v, u, actions, n, id);
  }

  /** More is queued, and the store is what it leads to. */
  function Queued(w: World, store: Rows, actions: seq<Action>): World {
    w.(store := store, queue := w.queue + actions)
  }

  lemma QueuedAhead(w: World, store: Rows, actions: seq<Action>)
    ensures Ahead(Queued(w, store, actions)) == Dispatch(Ahead(w), actions, |actions|)
  {
    SameHeard(w, store, actions);
    DispatchAppend(Heard(w), w.queue, actions, |actions|, |w.queue + actions|);
  }

  lemma SameHeard(w: World, store: Rows, actions: seq<Action>)
    ensures Heard(Queued(w, store, actions)) == Heard(w)
  {
  }

  lemma DiffKeepsGood(w: World, diff: Diff, actions: seq<Action>)
    requires Good(w) && Enabled(w, StoreDiff(diff, actions)) && Harmless(w, StoreDiff(diff, actions))
    ensures Good(Apply(w, StoreDiff(diff, actions)))
  {
    var to := Mutate(w.store, diff);
    var v := Queued(w, to, actions);
    DiffKeepsInv(w, diff, actions);
    assert Inv(v);
    DiffKeepsRight(w, diff, actions);
    forall id | id in v.store && v.store[id].fk in v.keys * v.buckets.Keys
      ensures QueuedLast(v, id) in {None, Some(v.store[id].fk)}
    {
      DiffQueuedLast(w, diff, actions, id);
    }
  }

  lemma DiffKeepsRight(w: World, diff: Diff, actions: seq<Action>)
    requires Inv(w) && IsRight(Ahead(w), w.store)
    requires Truthful(w.store, diff) && Prepared(diff, w.buckets.Keys, actions)
    requires Safe(diff, w.store, w.keys * w.buckets.Keys)
    ensures var to := Mutate(w.store, diff); IsRight(Ahead(Queued(w, to, actions)), to)
  {
    QueuedAhead(w, Mutate(w.store, diff), actions);
    QueueLeads(w, Heard(w));
    assert Ahead(w).contributions.Keys == w.subscribed;
    SafeForFewer(diff, w.store, w.keys * w.buckets.Keys, w.subscribed);
    SafeStaysRight(Ahead(w), diff, w.buckets.Keys, actions, w.store);
  }

  /** All buckets there are for the union's keys, once the queue is delivered. */
  ghost function LiveAhead(w: World): (t: Union)
    requires Inv(w)
    ensures BucketsFollow(t, w.store) && t.contributions.Keys == w.keys * w.buckets.Keys
  {
    QueueLeads(w, Live(w));
    Dispatch(Live(w), w.queue, |w.queue|)
  }

  lemma QueuedMore(w: World, store: Rows, actions: seq<Action>, id: Key)
    requires Inv(w)
    ensures var later := LastToucher(LiveAhead(w), actions, |actions|, id);
            QueuedLast(Queued(w, store, actions), id) == if later.Some? then later else QueuedLast(w, id)
  {
    assert Live(Queued(w, store, actions)) == Live(w);
    LastToucherAppend(Live(w), w.queue, actions, |actions|, |w.queue + actions|, id);
  }

  lemma DiffQueuedLast(w: World, diff: Diff, actions: seq<Action>, id: Key)
    requires Inv(w) && QueueIsSafe(w)
    requires Truthful(w.store, diff) && Prepared(diff, w.buckets.Keys, actions)
    requires Safe(diff, w.store, w.keys * w.buckets.Keys)
    requires id in WithKeys(Mutate(w.store, diff), w.keys * w.buckets.Keys)
    ensures var to := Mutate(w.store, diff); QueuedLast(Queued(w, to, actions), id) in {None, Some(to[id].fk)}
  {
    var t := LiveAhead(w);
    QueuedMore(w, Mutate(w.store, diff), actions, id);
    SafeLastToucher(t, diff, w.buckets.Keys, actions, w.store, id);
    if LastToucher(t, actions, |actions|, id) == None {
      UntouchedRowStays(t, diff, w.buckets.Keys, actions, w.store, id);
    }
  }

  lemma UntouchedRowStays(u: Union, diff: Diff, live: set<Fk>, actions: seq<Action>, store: Rows, id: Key)
    requires Truthful(store, diff) && BucketsFollow(u, store) && u.contributions.Keys <= live
    requires Prepared(diff, live, actions) && LastToucher(u, actions, |actions|, id) == None
    requires id in WithKeys(Mutate(store, diff), u.contributions.Keys)
    ensures id in store && store[id] == Mutate(store, diff)[id]
  {
    var to := Mutate(store, diff);
    LastToucherDecides(u, actions, |actions|, id);
    PreparedDelivers(diff, live, actions, store);
    BucketsFollowDiff(u, actions, live, store, to);
    assert Lookup(Pick(store, to[id].fk), id) == Lookup(Pick(to, to[id].fk), id);
  }

  lemma BucketKeepsGood(w: World, k: Fk)
    requires Good(w) && Harmless(w, BucketFor(k))
    ensures Good(Apply(w, BucketFor(k)))
  {
    var v := Apply(w, BucketFor(k));
    BucketKeepsInv(w, k);
    assert Over(v.buckets, v.subscribed) == Over(w.buckets, w.subscribed);
    assert Ahead(v) == Ahead(w);
    forall id | id in v.store && v.store[id].fk in v.keys * v.buckets.Keys
      ensures QueuedLast(v, id) in {None, Some(v.store[id].fk)}
    {
      BucketQueuedLast(w, k, id);
    }
  }

  /** A new bucket has nothing queued. */
  lemma BucketQueuedLast(w: World, k: Fk, id: Key)
    requires Inv(w)
    ensures QueuedLast(Apply(w, BucketFor(k)), id) == QueuedLast(w, id)
  {
    var v := Apply(w, BucketFor(k));
    LastToucherOfFewer(Live(v), Live(w), w.queue, |w.queue|, id);
    LastToucherIsKeyed(Live(v), w.queue, |w.queue|, id);
    LastToucherOfFewer(Live(v), Live(v), w.queue, |w.queue|, id);
  }

  lemma SubscribeKeepsGood(w: World, k: Fk, listing: seq<Entry<Item>>)
    requires Good(w) && Enabled(w, Subscribe(k, listing))
    ensures Good(Apply(w, Subscribe(k, listing)))
  {
    var v := Apply(w, Subscribe(k, listing));
    SubscribeKeepsInv(w, k, listing);
    assert Live(v) == Live(w);
    assert QueueIsSafe(v);
    SubscribeKeepsRight(w, k, listing);
  }

  lemma SubscribeKeepsRight(w: World, k: Fk, listing: seq<Entry<Item>>)
    requires Good(w) && Enabled(w, Subscribe(k, listing)) && Inv(Apply(w, Subscribe(k, listing)))
    ensures var v := Apply(w, Subscribe(k, listing)); IsRight(Ahead(v), v.store)
  {
    var v := Apply(w, Subscribe(k, listing));
    forall id ensures Lookup(Ahead(v).result, id) == Lookup(WithKeys(v.store, v.subscribed), id) {
      SubscribedAt(w, k, listing, id);
    }
    RightByLookups(v);
  }

  lemma RightByLookups(w: World)
    requires Inv(w)
    requires forall id :: Lookup(Ahead(w).result, id) == Lookup(WithKeys(w.store, w.subscribed), id)
    ensures IsRight(Ahead(w), w.store)
  {
    SameLookups(Ahead(w).result, WithKeys(w.store, w.subscribed));
    QueueLeads(w, Heard(w));
    assert Ahead(w).contributions.Keys == w.subscribed;
  }

  lemma SubscribedAt(w: World, k: Fk, listing: seq<Entry<Item>>, id: Key)
    requires Good(w) && Enabled(w, Subscribe(k, listing))
    ensures var v := Apply(w, Subscribe(k, listing));
            Lookup(Ahead(v).result, id) == Lookup(WithKeys(v.store, v.subscribed), id)
  {
    var v := Apply(w, Subscribe(k, listing));
    SubscribeKeepsInv(w, k, listing);
    if id in WithKeys(v.store, v.subscribed) { HomesQueuedLast(v, id); }
    AheadAt(v, id);
    AheadAt(w, id);
    if LastToucher(Heard(v), w.queue, |w.queue|, id) == None { UntoldAt(w, k, listing, id); }
  }

  lemma UntoldAt(w: World, k: Fk, listing: seq<Entry<Item>>, id: Key)
    requires Good(w) && Enabled(w, Subscribe(k, listing))
    requires LastToucher(Heard(Apply(w, Subscribe(k, listing))), w.queue, |w.queue|, id) == None
    requires Lookup(w.buckets[k], id) == Lookup(Pick(w.store, k), id)
    ensures var v := Apply(w, Subscribe(k, listing));
            Lookup(Heard(v).result, id) == Lookup(WithKeys(v.store, v.subscribed), id)
  {
    SubscribeAt(w, k, listing, id);
    LastToucherOfFewer(Heard(Apply(w, Subscribe(k, listing))), Heard(w), w.queue, |w.queue|, id);
    AheadAt(w, id);
    QueueLeads(w, Heard(w));
    assert Ahead(w).contributions.Keys == w.subscribed;
    assert Lookup(WithKeys(w.store, w.subscribed), id) == Lookup(Heard(w).result, id);
  }

  /** Of the buckets the union observes, too, the one the row is in is told last. */
  lemma HomesQueuedLast(w: World, id: Key)
    requires Inv(w) && QueueIsSafe(w) && id in WithKeys(w.store, w.subscribed)
    ensures LastToucher(Heard(w), w.queue, |w.queue|, id) in {None, Some(w.store[id].fk)}
  {
    LastToucherOfFewer(Live(w), Heard(w), w.queue, |w.queue|, id);
  }

  /** What the union will hold at a row: what the bucket told last will, or what it holds now. */
  lemma AheadAt(w: World, id: Key)
    requires Inv(w)
    ensures match LastToucher(Heard(w), w.queue, |w.queue|, id)
            case None =>
              && Lookup(Ahead(w).result, id) == Lookup(Heard(w).result, id)
              && forall k :: k in w.subscribed ==> Lookup(w.buckets[k], id) == Lookup(Pick(w.store, k), id)
            case Some(k) => k in w.subscribed && Lookup(Ahead(w).result, id) == Lookup(Pick(w.store, k), id)
  {
    LastToucherDecides(Heard(w), w.queue, |w.queue|, id);
    QueueLeads(w, Heard(w));
  }

  lemma SubscribeAt(w: World, k: Fk, listing: seq<Entry<Item>>, id: Key)
    requires Inv(w) && Enabled(w, Subscribe(k, listing))
    ensures var v := Apply(w, Subscribe(k, listing));
            Lookup(Heard(v).result, id)
            == if id in w.buckets[k] then Some(w.buckets[k][id]) else Lookup(Heard(w).result, id)
  {
    ToldOneMore(w, Action(k, Initial(listing)));
    HeardIsTold(w, k);
  }

  lemma StepKeepsGood(w: World, step: Step)
    requires Good(w) && Enabled(w, step) && Harmless(w, step)
    ensures Good(Apply(w, step))
  {
    match step
    case StoreDiff(diff, actions) => DiffKeepsGood(w, diff, actions);
    case BucketFor(k) => BucketKeepsGood(w, k);
    case Subscribe(k, listing) => SubscribeKeepsGood(w, k, listing);
    case Deliver => DeliverKeepsGood(w);
  }

  lemma StartIsGood(store: Rows, keys: set<Fk>)
    ensures Good(Start(store, keys))
  {
  }

  lemma {:induction false} HarmlessRunIsGood(worlds: seq<World>, steps: seq<Step>, n: nat)
    requires IsRun(worlds, steps) && n <= |steps|
    requires forall m :: 0 <= m < n ==> Harmless(worlds[m], steps[m])
    ensures Good(worlds[n])
  {
    if n > 0 {
      HarmlessRunIsGood(worlds, steps, n - 1);
      StepKeepsGood(worlds[n - 1], steps[n - 1]);
    } else {
      StartIsGood(worlds[0].store, worlds[0].keys);
    }
  }

  /** After harmless steps only, a settled union serves exactly its rows. */
  lemma HarmlessRunSettles(worlds: seq<World>, steps: seq<Step>, n: nat)
    requires IsRun(worlds, steps) && n <= |steps| && Settled(worlds[n])
    requires forall m :: 0 <= m < n ==> Harmless(worlds[m], steps[m])
    ensures UnionAt(worlds[n]).result == WithKeys(worlds[n].store, worlds[n].keys)
  {
    HarmlessRunIsGood(worlds, steps, n);
    assert Heard(worlds[n]).contributions.Keys == worlds[n].keys;
  }

  /** Safe diffs, and buckets made for the union only while nothing is queued: then a settled union is right. */
  lemma SafeRunSettles(worlds: seq<World>, steps: seq<Step>, n: nat)
    requires IsRun(worlds, steps) && n <= |steps| && Settled(worlds[n])
    requires forall m :: 0 <= m < n && steps[m].StoreDiff? ==> Safe(steps[m].diff, worlds[m].store, worlds[m].keys)
    requires forall m :: 0 <= m < n && steps[m].BucketFor? && steps[m].k in worlds[m].keys ==> worlds[m].queue == []
    ensures UnionAt(worlds[n]).result == WithKeys(worlds[n].store, worlds[n].keys)
  {
    forall m | 0 <= m < n ensures Harmless(worlds[m], steps[m]) {
      if steps[m].StoreDiff? {
        SafeForFewer(steps[m].diff, worlds[m].store, worlds[m].keys, worlds[m].keys * worlds[m].buckets.Keys);
      }
    }
    HarmlessRunSettles(worlds, steps, n);
  }

  /** A union over one key meets no other step. */
  lemma OneKeyIsHarmless(w: World, step: Step)
    requires Inv(w) && |w.keys| == 1
    ensures Harmless(w, step)
  {
    var k := OneMember(w.keys);
    match step
    case StoreDiff(diff, _) =>
      var phases, keys := Phases(diff), w.keys * w.buckets.Keys;
      forall id | id in WithKeys(Mutate(w.store, diff), keys)
        ensures LastNamers(phases, |phases|, w.store, keys, id) <= {Mutate(w.store, diff)[id].fk}
      {
        LastNamersAreKeys(phases, |phases|, w.store, keys, id);
      }
    case BucketFor(_) =>
      forall id ensures k !in w.buckets ==> QueuedLast(w, id) == None {
        LastToucherOfFewer(Live(w), Live(w), w.queue, |w.queue|, id);
      }
    case _ =>
  }
}
