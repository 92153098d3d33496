/** What a ready store can show while diffs, signals and deliveries are still outstanding. */
module QueryHistory {
  import opened Common
  import opened QueryStoreSpec
  import opened QueryProjection
  import opened QueryReadiness

  /** A store that is ready after `n` of the events to come shows a state the source has had. */
  ghost predicate ShowsPastAfter<T>(w: World<T>, n: nat)
    requires n <= |ToCome(w)|
  {
    Replay(w.store, ToCome(w)[..n]).ready ==> Rows(Replay(w.store, ToCome(w)[..n])) in w.history
  }

  /** And so it does now and after any part of what is to come. */
  ghost predicate ShowsOnlyPast<T>(w: World<T>) {
    forall n: nat :: n <= |ToCome(w)| ==> ShowsPastAfter(w, n)
  }

  /** The history ends with the present source. */
  ghost predicate Newest<T>(w: World<T>) {
    w.history != [] && w.history[|w.history| - 1] == w.source
  }

  /**
   The step captures no misleading snapshot: either the store will not be ready once the captured event is
   delivered, or every state that the diffs still outstanding make of the present source is one it has had.
   */
  ghost predicate Harmless<T>(w: World<T>, step: Step<T>) {
    IsSignal(step) && Replay(w.store, w.queue + [Captured(step)]).ready ==>
      forall n :: 0 <= n <= |w.pending| ==> MutateAll(w.source, w.pending, n) in w.history
  }

  /** Once the captured event is delivered, a ready store shows the source as it was at the capture. */
  lemma CapturedRows<T>(w: World<T>, step: Step<T>)
    requires Inv(w) && Enabled(w, step) && IsSignal(step)
    ensures var t := Replay(w.store, w.queue + [Captured(step)]);
      Agrees(t) && (t.ready ==> Rows(t) == w.source)
  {
    var q := Replay(w.store, w.queue);
    ReplayAgrees(w.store, w.queue);
    ReplayAppend(w.store, w.queue, [Captured(step)]);
    ReplayOne(q, Captured(step));
    EventKeepsAgreement(q, Captured(step));
    if step.SignalReady? || step.SignalStatus? { PublishedRows(q, Captured(step), w.source); }
  }

  /** What is shown after `n` events, which are the queue, the captured event and `m` of the outstanding diffs. */
  lemma ShownAfterCapture<T>(w: World<T>, step: Step<T>, n: nat, m: nat)
    requires Inv(w) && Enabled(w, step) && IsSignal(step) && m <= |w.pending| && n == |w.queue| + 1 + m
    ensures n <= |ToCome(Apply(w, step))|
    ensures var t := Replay(w.store, w.queue + [Captured(step)]);
            var r := Replay(w.store, ToCome(Apply(w, step))[..n]);
      r.ready == t.ready && (t.ready ==> Rows(r) == MutateAll(w.source, w.pending, m))
  {
    var t := Replay(w.store, w.queue + [Captured(step)]);
    CapturedRows(w, step);
    ReplayDiffs(t, w.pending, m);
    SplitAtCapture(w, step, n, m);
    ReplayAppend(w.store, w.queue + [Captured(step)], AsEvents(w.pending)[..m]);
  }

  lemma SplitAtCapture<T>(w: World<T>, step: Step<T>, n: nat, m: nat)
    requires Enabled(w, step) && IsSignal(step) && m <= |w.pending| && n == |w.queue| + 1 + m
    ensures n <= |ToCome(Apply(w, step))|
    ensures ToCome(Apply(w, step))[..n] == (w.queue + [Captured(step)]) + AsEvents(w.pending)[..m]
  {
  }

  /** Nothing changes for the events that were queued before the signal. */
  lemma SplitBeforeCapture<T>(w: World<T>, step: Step<T>, n: nat)
    requires Enabled(w, step) && IsSignal(step) && n <= |w.queue|
    ensures n <= |ToCome(Apply(w, step))| && ToCome(Apply(w, step))[..n] == ToCome(w)[..n]
  {
  }

  /** A signal keeps the store from showing what never was if and only if it is harmless. */
  lemma SignalShowsPastIff<T>(w: World<T>, step: Step<T>)
    requires Inv(w) && Enabled(w, step) && IsSignal(step) && ShowsOnlyPast(w)
    ensures ShowsOnlyPast(Apply(w, step)) <==> Harmless(w, step)
  {
    if ShowsOnlyPast(Apply(w, step)) { ShownIsHarmless(w, step); }
    if Harmless(w, step) { HarmlessShowsPast(w, step); }
  }

  lemma ShownIsHarmless<T>(w: World<T>, step: Step<T>)
    requires Inv(w) && Enabled(w, step) && IsSignal(step) && ShowsOnlyPast(Apply(w, step))
    ensures Harmless(w, step)
  {
    var v := Apply(w, step);
    if Replay(w.store, w.queue + [Captured(step)]).ready {
      forall m | 0 <= m <= |w.pending| ensures MutateAll(w.source, w.pending, m) in w.history {
        var n := |w.queue| + 1 + m;
        ShownAfterCapture(w, step, n, m);
        assert ShowsPastAfter(v, n);
      }
    }
  }

  lemma HarmlessShowsPast<T>(w: World<T>, step: Step<T>)
    requires Inv(w) && Enabled(w, step) && IsSignal(step) && ShowsOnlyPast(w) && Harmless(w, step)
    ensures ShowsOnlyPast(Apply(w, step))
  {
    forall n: nat | n <= |ToCome(Apply(w, step))| ensures ShowsPastAfter(Apply(w, step), n) {
      if n <= |w.queue| {
        SplitBeforeCapture(w, step, n);
        assert ShowsPastAfter(w, n);
      } else {
        ShownAfterCapture(w, step, n, n - |w.queue| - 1);
      }
    }
  }

  lemma ShowsOnlyPastKept<T>(w: World<T>, step: Step<T>)
    requires Inv(w) && Newest(w) && ShowsOnlyPast(w)
    requires Enabled(w, step) && Harmless(w, step)
    ensures ShowsOnlyPast(Apply(w, step)) && Newest(Apply(w, step))
  {
    StepKeepsInv(w, step);
    if IsSignal(step) {
      SignalShowsPastIff(w, step);
    } else if step.Deliver? {
      DeliverShowsPast(w);
    } else if step.Fanout? {
      FanoutShowsPast(w);
    } else if step.MutateSource? && !w.subscribed {
      NothingToCome(Apply(w, step));
    } else {
      OneMoreToCome(w, step);
      NewestShown(w, Apply(w, step));
    }
  }

  lemma OneMoreToCome<T>(w: World<T>, step: Step<T>)
    requires Inv(w) && Enabled(w, step) && (step.Subscribe? || (step.MutateSource? && w.subscribed))
    ensures var v := Apply(w, step); |ToCome(v)| == |ToCome(w)| + 1 && ToCome(v)[..|ToCome(w)|] == ToCome(w)
  {
    var v := Apply(w, step);
    if step.MutateSource? {
      assert AsEvents(v.pending) == AsEvents(w.pending) + [Map(step.diff)];
      assert ToCome(v) == ToCome(w) + [Map(step.diff)];
    } else {
      assert ToCome(v) == v.queue && ToCome(w) == w.queue;
    }
  }

  lemma FanoutShowsPast<T>(w: World<T>)
    requires ShowsOnlyPast(w) && |w.pending| > 0
    ensures ShowsOnlyPast(Apply(w, Fanout))
  {
    var v := Apply(w, Fanout);
    assert ToCome(v) == ToCome(w);
    forall n: nat | n <= |ToCome(v)| ensures ShowsPastAfter(v, n) { assert ShowsPastAfter(w, n); }
  }

  lemma NothingToCome<T>(v: World<T>)
    requires v.queue == [] && v.pending == [] && !v.store.ready
    ensures ShowsOnlyPast(v)
  {
    assert ToCome(v) == [];
  }

  lemma DeliverShowsPast<T>(w: World<T>)
    requires ShowsOnlyPast(w) && |w.queue| > 0
    ensures ShowsOnlyPast(Apply(w, Deliver))
  {
    var v := Apply(w, Deliver);
    forall n: nat | n <= |ToCome(v)| ensures ShowsPastAfter(v, n) {
      assert ToCome(w)[..n + 1] == [w.queue[0]] + ToCome(v)[..n];
      ReplayAppend(w.store, [w.queue[0]], ToCome(v)[..n]);
      ReplayOne(w.store, w.queue[0]);
      assert ShowsPastAfter(w, n + 1);
    }
  }

  lemma NewestShown<T>(w: World<T>, v: World<T>)
    requires ShowsOnlyPast(w) && Inv(v) && v.store == w.store
    requires |ToCome(v)| == |ToCome(w)| + 1 && ToCome(v)[..|ToCome(w)|] == ToCome(w)
    requires Newest(v)
    requires forall m :: m in w.history ==> m in v.history
    ensures ShowsOnlyPast(v)
  {
    forall n: nat | n <= |ToCome(v)| ensures ShowsPastAfter(v, n) {
      if n <= |ToCome(w)| {
        assert ToCome(v)[..n] == ToCome(w)[..n];
        assert ShowsPastAfter(w, n);
      } else {
        assert ToCome(v)[..n] == ToCome(v);
      }
    }
  }

  lemma {:induction false} RunShowsOnlyPast<T>(worlds: seq<World<T>>, steps: seq<Step<T>>, k: nat)
    requires IsRun(worlds, steps) && k < |worlds|
    requires forall j :: 0 <= j < k ==> Harmless(worlds[j], steps[j])
    ensures ShowsOnlyPast(worlds[k]) && Newest(worlds[k])
  {
    if k == 0 {
      assert ToCome(worlds[0]) == [];
    } else {
      RunShowsOnlyPast(worlds, steps, k - 1);
      RunInv(worlds, steps, k - 1);
      ShowsOnlyPastKept(worlds[k - 1], steps[k - 1]);
    }
  }

  /** When every signal so far was harmless, a ready store shows a state the source has had. */
  lemma ReadyStoreShowsPast<T>(worlds: seq<World<T>>, steps: seq<Step<T>>, k: nat)
    requires IsRun(worlds, steps) && k < |worlds| && worlds[k].store.ready
    requires forall j :: 0 <= j < k ==> Harmless(worlds[j], steps[j])
    ensures Rows(worlds[k].store) in worlds[k].history
  {
    RunShowsOnlyPast(worlds, steps, k);
    assert ShowsPastAfter(worlds[k], 0);
    assert ToCome(worlds[k])[..0] == [];
  }

  /** `steps` only run outstanding callbacks and deliver queued events. */
  ghost predicate Drains<T>(w: World<T>, steps: seq<Step<T>>, v: World<T>)
    decreases |steps|
  {
    if steps == [] then w == v
    else
      && (steps[0].Fanout? || steps[0].Deliver?) && Enabled(w, steps[0])
      && Drains(Apply(w, steps[0]), steps[1..], v)
  }

  /** Without any further mutation or signal the store can come to show a state the source never had. */
  ghost predicate Misleads<T(!new)>(w: World<T>) {
    exists steps, v :: Drains(w, steps, v) && v.store.ready && Rows(v.store) !in v.history
  }

  lemma {:induction false} DrainingShowsPast<T>(w: World<T>, steps: seq<Step<T>>, v: World<T>)
    requires ShowsOnlyPast(w) && Drains(w, steps, v)
    ensures v.store.ready ==> Rows(v.store) in v.history
    decreases |steps|
  {
    if steps == [] {
      assert ShowsPastAfter(w, 0);
      assert ToCome(w)[..0] == [];
    } else {
      if steps[0].Deliver? { DeliverShowsPast(w); } else { FanoutShowsPast(w); }
      DrainingShowsPast(Apply(w, steps[0]), steps[1..], v);
    }
  }

  lemma {:induction false} DeliverSome<T>(w: World<T>, n: nat) returns (steps: seq<Step<T>>, v: World<T>)
    requires n <= |w.queue|
    ensures Drains(w, steps, v) && v.store == Replay(w.store, w.queue[..n]) && v.history == w.history
    decreases n
  {
    if n == 0 {
      steps, v := [], w;
      assert w.queue[..0] == [];
    } else {
      var u := Apply(w, Deliver);
      var rest, last := DeliverSome(u, n - 1);
      steps, v := [Deliver] + rest, last;
      assert steps[1..] == rest;
      assert w.queue[..n] == [w.queue[0]] + u.queue[..n - 1];
      ReplayAppend(w.store, [w.queue[0]], u.queue[..n - 1]);
      ReplayOne(w.store, w.queue[0]);
    }
  }

  lemma {:induction false} ReachesPrefix<T>(w: World<T>, n: nat) returns (steps: seq<Step<T>>, v: World<T>)
    requires n <= |ToCome(w)|
    ensures Drains(w, steps, v) && v.store == Replay(w.store, ToCome(w)[..n]) && v.history == w.history
    decreases |w.pending|
  {
    if w.pending == [] {
      assert ToCome(w) == w.queue;
      steps, v := DeliverSome(w, n);
    } else {
      assert ToCome(Apply(w, Fanout)) == ToCome(w);
      var rest, last := ReachesPrefix(Apply(w, Fanout), n);
      steps, v := [Fanout] + rest, last;
      assert steps[1..] == rest;
    }
  }

  lemma MisleadsIff<T(!new)>(w: World<T>)
    ensures Misleads(w) <==> !ShowsOnlyPast(w)
  {
    if ShowsOnlyPast(w) && Misleads(w) {
      var steps, v :| Drains(w, steps, v) && v.store.ready && Rows(v.store) !in v.history;
      DrainingShowsPast(w, steps, v);
    }
    if !ShowsOnlyPast(w) {
      var n: nat :| n <= |ToCome(w)| && !ShowsPastAfter(w, n);
      var steps, v := ReachesPrefix(w, n);
    }
  }

  /**
   Over every run: at no moment can the store come to show a state the source never had if and only if every
   signal, at the moment it captured its snapshot, was harmless.
   */
  lemma ShowsPastIff<T(!new)>(worlds: seq<World<T>>, steps: seq<Step<T>>)
    requires IsRun(worlds, steps)
    ensures (forall k :: 0 <= k < |worlds| ==> !Misleads(worlds[k]))
            <==> forall j :: 0 <= j < |steps| ==> Harmless(worlds[j], steps[j])
  {
    forall k | 0 <= k < |worlds| ensures Misleads(worlds[k]) <==> !ShowsOnlyPast(worlds[k]) {
      MisleadsIff(worlds[k]);
    }
    if forall j :: 0 <= j < |steps| ==> Harmless(worlds[j], steps[j]) {
      forall k | 0 <= k < |worlds| ensures !Misleads(worlds[k]) { RunShowsOnlyPast(worlds, steps, k); }
    }
    if forall k :: 0 <= k < |worlds| ==> !Misleads(worlds[k]) {
      forall j | 0 <= j < |steps| ensures Harmless(worlds[j], steps[j]) {
        RunInv(worlds, steps, j);
        assert !Misleads(worlds[j]) && !Misleads(worlds[j + 1]);
        if IsSignal(steps[j]) { SignalShowsPastIff(worlds[j], steps[j]); }
      }
    }
  }

  // ---------------------------------------------------------------- the store comes to hold the source

  /** Diffs leave a ready store ready. */
  lemma {:induction false} DiffsLeaveReady<T>(s: Store<T>, diffs: seq<MapDiff<T>>, n: nat)
    requires n <= |diffs|
    ensures Replay(s, AsEvents(diffs)[..n]).ready == s.ready
  {
    if n > 0 {
      DiffsLeaveReady(s, diffs, n - 1);
      assert AsEvents(diffs)[..n][..n - 1] == AsEvents(diffs)[..n - 1];
      DiffMovesRowsOnly(Replay(s, AsEvents(diffs)[..n - 1]), diffs[n - 1]);
    }
  }

  /** The world after the connection is up and the server has answered. */
  ghost predicate Answered<T>(w: World<T>, addr: string, listing: seq<Entry<T>>, v: World<T>) {
    && w.subscribed && FromEntries(listing) == w.source
    && v == Enqueue(Enqueue(w, StatusSignal(Connected(addr), listing)), ReadySignal(true, listing))
  }

  lemma AnsweredIsReady<T>(w: World<T>, addr: string, listing: seq<Entry<T>>, v: World<T>)
    requires Answered(w, addr, listing, v)
    ensures Replay(v.store, ToCome(v)).ready
  {
    var status, answer := StatusSignal(Connected(addr), listing), ReadySignal(true, listing);
    var q := Replay(w.store, w.queue);
    var r := ApplyEvent(ApplyEvent(q, status).store, answer).store;
    ReplayTwo(w.store, w.queue, status, answer);
    assert ToCome(v) == (w.queue + [status, answer]) + AsEvents(w.pending);
    ReplayAppend(w.store, w.queue + [status, answer], AsEvents(w.pending));
    assert AsEvents(w.pending)[..|w.pending|] == AsEvents(w.pending);
    DiffsLeaveReady(r, w.pending, |w.pending|);
  }

  lemma ReplayTwo<T>(s: Store<T>, events: seq<Event<T>>, a: Event<T>, b: Event<T>)
    ensures Replay(s, events + [a, b]) == ApplyEvent(ApplyEvent(Replay(s, events), a).store, b).store
  {
    assert (events + [a, b])[..|events| + 1] == events + [a];
    assert (events + [a])[..|events|] == events;
  }

  /**
   From every moment of every run: once the connection is up and the server answers, running what is outstanding
   makes the store ready, with exactly the source in it.
   */
  lemma AnsweredStoreBecomesSource<T>(worlds: seq<World<T>>, steps: seq<Step<T>>, k: nat, addr: string,
                                      listing: seq<Entry<T>>)
    returns (v: World<T>, more: seq<Step<T>>, u: World<T>)
    requires IsRun(worlds, steps) && k < |worlds| && worlds[k].subscribed && FromEntries(listing) == worlds[k].source
    ensures var first, second := SignalStatus(Connected(addr), listing), SignalReady(true, listing);
            && Enabled(worlds[k], first) && Enabled(Apply(worlds[k], first), second)
            && v == Apply(Apply(worlds[k], first), second)
    ensures Drains(v, more, u) && u.store.ready && Rows(u.store) == worlds[k].source
  {
    var w := worlds[k];
    RunInv(worlds, steps, k);
    StepKeepsInv(w, SignalStatus(Connected(addr), listing));
    v := Apply(w, SignalStatus(Connected(addr), listing));
    StepKeepsInv(v, SignalReady(true, listing));
    v := Apply(v, SignalReady(true, listing));
    AnsweredIsReady(w, addr, listing, v);
    more, u := ReachesPrefix(v, |ToCome(v)|);
    assert ToCome(v)[..|ToCome(v)|] == ToCome(v);
  }

  lemma Extend<T>(worlds: seq<World<T>>, steps: seq<Step<T>>, step: Step<T>)
    returns (worlds': seq<World<T>>, steps': seq<Step<T>>)
    requires IsRun(worlds, steps) && Enabled(worlds[|worlds| - 1], step)
    ensures IsRun(worlds', steps') && worlds'[|worlds'| - 1] == Apply(worlds[|worlds| - 1], step)
  {
    worlds' := worlds + [Apply(worlds[|worlds| - 1], step)];
    steps' := steps + [step];
  }

  /** A connected, not yet ready store over an empty source, told everything. */
  lemma ConnectedExample() returns (worlds: seq<World<int>>, steps: seq<Step<int>>)
    ensures IsRun(worlds, steps)
    ensures var w := worlds[|worlds| - 1];
      && w.subscribed && w.queue == [] && w.pending == [] && w.source == map[] && w.history == [map[]]
      && w.store.connection == Some(Connected(""))
  {
    var start: World<int> := Start(map[]);
    worlds, steps := [start], [];
    worlds, steps := Extend(worlds, steps, Subscribe([]));
    worlds, steps := Extend(worlds, steps, SignalStatus(Connected(""), []));
    worlds, steps := Extend(worlds, steps, Deliver);
    worlds, steps := Extend(worlds, steps, Deliver);
  }

  /** Then `a` comes and goes, `b` comes, and none of the three diffs has been enqueued yet. */
  lemma BelatedExample() returns (worlds: seq<World<int>>, steps: seq<Step<int>>)
    ensures IsRun(worlds, steps)
    ensures var w := worlds[|worlds| - 1];
      && w.subscribed && w.queue == [] && w.pending == [Insert("a", 1), Remove("a", 1), Insert("b", 2)]
      && w.source == map["b" := 2] && w.history == [map[], map["a" := 1], map[], map["b" := 2]]
      && w.store.connection == Some(Connected(""))
  {
    worlds, steps := ConnectedExample();
    worlds, steps := Extend(worlds, steps, MutateSource(Insert("a", 1)));
    worlds, steps := Extend(worlds, steps, MutateSource(Remove("a", 1)));
    worlds, steps := Extend(worlds, steps, MutateSource(Insert("b", 2)));
    var w := worlds[|worlds| - 1];
    assert map["a" := 1] - {"a"} == map[];
    assert w.source == map["b" := 2];
  }

  /** A readiness signal captured at that moment makes the store ready with `b` alone. */
  lemma EarlySnapshotExample() returns (worlds: seq<World<int>>, steps: seq<Step<int>>)
    ensures IsRun(worlds, steps)
    ensures var w := worlds[|worlds| - 1];
      && w.queue == [] && w.pending == [Insert("a", 1), Remove("a", 1), Insert("b", 2)]
      && w.history == [map[], map["a" := 1], map[], map["b" := 2]]
      && w.store.ready && Agrees(w.store) && Rows(w.store) == map["b" := 2]
  {
    worlds, steps := BelatedExample();
    var b := [Entry("b", 2)];
    assert FromEntries(b) == map["b" := 2] by { assert FromEntries(b[..0]) == map[]; }
    var before := worlds[|worlds| - 1].store;
    RunInv(worlds, steps, |worlds| - 1);
    PublishedRows(before, ReadySignal(true, b), map["b" := 2]);
    EventKeepsAgreement(before, ReadySignal(true, b));
    worlds, steps := Extend(worlds, steps, SignalReady(true, b));
    worlds, steps := Extend(worlds, steps, Deliver);
  }

  /**
   After a signal that is not harmless a ready store can show a state the source never had: a snapshot taken after
   `a` came and went is followed by the belated diff that inserts `a`.
   */
  lemma TransientStateHappens()
    ensures exists worlds: seq<World<int>>, steps, k ::
      IsRun(worlds, steps) && 0 <= k < |worlds| && worlds[k].store.ready && Rows(worlds[k].store) !in worlds[k].history
  {
    var worlds, steps := EarlySnapshotExample();
    var shown := worlds[|worlds| - 1].store;
    DiffOnRows(shown, Insert("a", 1));
    DiffMovesRowsOnly(shown, Insert("a", 1));
    worlds, steps := Extend(worlds, steps, Fanout);
    worlds, steps := Extend(worlds, steps, Deliver);
    var k := |worlds| - 1;
    var rows := Rows(worlds[k].store);
    assert "a" in rows && "b" in rows;
    assert worlds[k].history == [map[], map["a" := 1], map[], map["b" := 2]];
    assert rows !in worlds[k].history;
  }
}
