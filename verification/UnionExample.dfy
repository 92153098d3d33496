/** A union whose rows go wrong although no diff of the store is to blame. */
module UnionExample {
  import opened Common
  import Routing
  import opened QueryStoreSpec
  import opened UnionSource
  import opened IndexOrders
  import opened UnionOrders
  import opened UnionSafety
  import opened UnionRuns
  import opened UnionSettling
  import opened UnionHarm

  const J: Fk := ["j"]
  const K: Fk := ["k"]
  const Other: Fk := ["other"]

  function Row(fk: Fk, data: Routing.Item): Item { Item(fk, data) }

  /** The row leaves the one key of the union, and comes under the other before its bucket is made. */
  function Course(data: Routing.Item): seq<Step> {
    [BucketFor(J),
     StoreDiff(Update("x", Row(J, data), Row(Other, data)), [Leave("x", Row(J, data))]),
     StoreDiff(Update("x", Row(Other, data), Row(K, data)), []),
     BucketFor(K)]
  }

  function Along(data: Routing.Item): seq<World> {
    var start := Start(map["x" := Row(J, data)], {J, K});
    var held: map<Fk, Rows> := map[J := map["x" := Row(J, data)]];
    var queue := [Leave("x", Row(J, data))];
    var ahead := start.(store := map["x" := Row(K, data)], buckets := held, queue := queue);
    [start,
     start.(buckets := held),
     start.(store := map["x" := Row(Other, data)], buckets := held, queue := queue),
     ahead,
     ahead.(buckets := held[K := map["x" := Row(K, data)]])]
  }

  lemma LeavePrepared(data: Routing.Item)
    ensures Prepared(Update("x", Row(J, data), Row(Other, data)), {J}, [Leave("x", Row(J, data))])
  {
    var diff: Diff, actions := Update("x", Row(J, data), Row(Other, data)), [Leave("x", Row(J, data))];
    MoveGroups("x", Row(J, data), Row(Other, data));
    assert Keyed(actions, actions[0].fk);
    OneDeal(Batch([diff]), {J}, actions);
  }

  lemma NothingPrepared(data: Routing.Item)
    ensures Prepared(Update("x", Row(Other, data), Row(K, data)), {J}, [])
  {
    var diff: Diff := Update("x", Row(Other, data), Row(K, data));
    MoveGroups("x", Row(Other, data), Row(K, data));
    OneDeal(Batch([diff]), {J}, []);
  }

  lemma BucketSteps(data: Routing.Item)
    ensures var worlds, steps := Along(data), Course(data);
            && worlds[1] == Apply(worlds[0], steps[0]) && worlds[4] == Apply(worlds[3], steps[3])
  {
    var worlds := Along(data);
    assert Pick(worlds[0].store, J) == worlds[0].store;
    assert Pick(worlds[3].store, K) == worlds[3].store;
  }

  lemma LeaveStep(data: Routing.Item)
    ensures var worlds, steps := Along(data), Course(data);
            Enabled(worlds[1], steps[1]) && worlds[2] == Apply(worlds[1], steps[1])
  {
    var w, step := Along(data)[1], Course(data)[1];
    LeavePrepared(data);
    assert w.buckets.Keys == {J};
    assert Mutate(w.store, step.diff) == Along(data)[2].store;
    assert w.queue + step.actions == Along(data)[2].queue;
  }

  lemma JoinStep(data: Routing.Item)
    ensures var worlds, steps := Along(data), Course(data);
            Enabled(worlds[2], steps[2]) && worlds[3] == Apply(worlds[2], steps[2])
  {
    var w, step := Along(data)[2], Course(data)[2];
    NothingPrepared(data);
    assert w.buckets.Keys == {J};
    assert Mutate(w.store, step.diff) == Along(data)[3].store;
    assert w.queue + step.actions == Along(data)[3].queue;
  }

  lemma CourseIsRun(data: Routing.Item)
    ensures IsRun(Along(data), Course(data))
  {
    var worlds, steps := Along(data), Course(data);
    BucketSteps(data);
    LeaveStep(data);
    JoinStep(data);
    forall n | 0 <= n < 4 ensures Enabled(worlds[n], steps[n]) && worlds[n + 1] == Apply(worlds[n], steps[n]) {
      assert n == 0 || n == 1 || n == 2 || n == 3;
    }
  }

  lemma DiffIsSafe(data: Routing.Item, n: nat)
    requires n == 1 || n == 2
    ensures Safe(Course(data)[n].diff, Along(data)[n].store, {J, K})
  {
    SafeChangeIff(Course(data)[n].diff, Along(data)[n].store, {J, K});
  }

  lemma CourseIsHarmless(data: Routing.Item, n: nat)
    requires n < 3
    ensures Harmless(Along(data)[n], Course(data)[n])
  {
    if n > 0 {
      DiffIsSafe(data, n);
      SafeForFewer(Course(data)[n].diff, Along(data)[n].store, {J, K}, {J, K} * Along(data)[n].buckets.Keys);
    }
  }

  /** Every diff of the run is safe, even for all keys of the union, and still its last step can go wrong. */
  lemma SafeDiffsAreNotEnough(data: Routing.Item) returns (worlds: seq<World>, steps: seq<Step>)
    ensures IsRun(worlds, steps) && |steps| > 0
    ensures forall n :: 0 <= n < |steps| && steps[n].StoreDiff? ==> Safe(steps[n].diff, worlds[n].store, worlds[n].keys)
    ensures CanGoWrong(worlds[|steps| - 1], steps[|steps| - 1])
  {
    worlds, steps := Along(data), Course(data);
    CourseIsRun(data);
    forall n | 0 <= n < |steps| && steps[n].StoreDiff? ensures Safe(steps[n].diff, worlds[n].store, worlds[n].keys) {
      DiffIsSafe(data, n);
    }
    forall n | 0 <= n < 3 ensures Harmless(worlds[n], steps[n]) { CourseIsHarmless(data, n); }
    HarmlessRunIsGood(worlds, steps, 3);
    StillQueued(data);
    StepCanGoWrongIff(worlds[3], steps[3]);
  }

  lemma StillQueued(data: Routing.Item)
    ensures QueuedLast(Along(data)[3], "x") == Some(J)
  {
    var w := Along(data)[3];
    var a := Leave("x", Row(J, data));
    assert w.queue == [a] && Dispatch(Live(w), [a], 0) == Live(w);
    assert TouchesAll(a.diff.changes, 1, Live(w).contributions[J], "x")
        <== Touches(a.diff.changes[0], MutateAll(Live(w).contributions[J], a.diff.changes, 0), "x");
  }
}
