/**
 The projection together with its source: a reactive map whose diffs, readiness and connection signals reach
 the store through one queue.

 A mutation of the source and the callback that enqueues its diff are separate steps here; callbacks run in
 the order of the mutations.  Signals may capture their snapshot between the two.
 */
module QueryProjection {
  import opened Common
  import opened QueryStoreSpec

  /**
   `pending` holds diffs the source already has but whose callback has not run; `base` is the source as the
   enqueued diffs describe it; `history` lists every state the source has had since the subscription.
   */
  datatype World<T> = World(
    subscribed: bool, source: map<Key, T>, base: map<Key, T>, pending: seq<MapDiff<T>>,
    queue: seq<Event<T>>, store: Store<T>, history: seq<map<Key, T>>)

  datatype Step<T> =
    | Subscribe(snapshot: seq<Entry<T>>)
    | MutateSource(diff: MapDiff<T>)
    | Fanout
    | SignalReady(ready: bool, snapshot: seq<Entry<T>>)
    | SignalStatus(status: ConnectionStatus, snapshot: seq<Entry<T>>)
    | SignalReadyError(message: string)
    | SignalStatusError(message: string)
    | Deliver

  function Start<T>(source: map<Key, T>): World<T> {
    World(false, source, source, [], [], EmptyStore(), [source])
  }

  function Enqueue<T>(w: World<T>, event: Event<T>): World<T> {
    w.(queue := w.queue + [event])
  }

  predicate Enabled<T(==)>(w: World<T>, step: Step<T>) {
    match step
    case Subscribe(snapshot) => !w.subscribed && FromEntries(snapshot) == w.source
    case MutateSource(_) => true
    case Fanout => |w.pending| > 0
    case SignalReady(ready, snapshot) =>
      w.subscribed && (if ready then FromEntries(snapshot) == w.source else snapshot == [])
    case SignalStatus(status, snapshot) =>
      w.subscribed && (if status.Connected? then FromEntries(snapshot) == w.source else snapshot == [])
    case SignalReadyError(_) => w.subscribed
    case SignalStatusError(_) => w.subscribed
    case Deliver => |w.queue| > 0
  }

  predicate IsSignal<T>(step: Step<T>) {
    step.SignalReady? || step.SignalStatus? || step.SignalReadyError? || step.SignalStatusError?
  }

  /** The event a signal's callback enqueues. */
  function Captured<T>(step: Step<T>): Event<T>
    requires IsSignal(step)
  {
    match step
    case SignalReady(ready, snapshot) => ReadySignal(ready, snapshot)
    case SignalStatus(status, snapshot) => StatusSignal(status, snapshot)
    case SignalReadyError(message) => ReadyError(message)
    case SignalStatusError(message) => StatusError(message)
  }

  function Apply<T(==)>(w: World<T>, step: Step<T>): World<T>
    requires Enabled(w, step)
  {
    match step
    case Subscribe(snapshot) => Enqueue(w, Map(Initial(snapshot))).(subscribed := true)
    case MutateSource(diff) =>
      var source := Mutate(w.source, diff);
      if w.subscribed then w.(source := source, pending := w.pending + [diff], history := w.history + [source])
      else w.(source := source, base := source, history := [source])
    case Fanout =>
      Enqueue(w, Map(w.pending[0])).(pending := w.pending[1..], base := Mutate(w.base, w.pending[0]))
    case SignalReady(_, _) => Enqueue(w, Captured(step))
    case SignalStatus(_, _) => Enqueue(w, Captured(step))
    case SignalReadyError(_) => Enqueue(w, Captured(step))
    case SignalStatusError(_) => Enqueue(w, Captured(step))
    case Deliver => w.(queue := w.queue[1..], store := ApplyEvent(w.store, w.queue[0]).store)
  }

  // ---------------------------------------------------------------- replaying what is still to come

  function AsEvents<T>(diffs: seq<MapDiff<T>>): seq<Event<T>> {
    seq(|diffs|, i requires 0 <= i < |diffs| => Map(diffs[i]))
  }

  /** Everything the store has yet to see: the queue, then the diffs whose callbacks have not run. */
  function ToCome<T>(w: World<T>): seq<Event<T>> {
    w.queue + AsEvents(w.pending)
  }

  lemma {:induction false} ReplayAppend<T>(s: Store<T>, a: seq<Event<T>>, b: seq<Event<T>>)
    ensures Replay(s, a + b) == Replay(Replay(s, a), b)
    decreases |b|
  {
    if |b| == 0 {
      assert a + b == a;
    } else {
      assert (a + b)[..|a + b| - 1] == a + b[..|b| - 1];
      ReplayAppend(s, a, b[..|b| - 1]);
    }
  }

  lemma ReplayOne<T>(s: Store<T>, event: Event<T>)
    ensures Replay(s, [event]) == ApplyEvent(s, event).store
  {
    assert Replay(s, [event][..0]) == s;
  }

  lemma {:induction false} ReplayAgrees<T>(s: Store<T>, events: seq<Event<T>>)
    requires Agrees(s)
    ensures Agrees(Replay(s, events))
    decreases |events|
  {
    if |events| > 0 {
      ReplayAgrees(s, events[..|events| - 1]);
      EventKeepsAgreement(Replay(s, events[..|events| - 1]), events[|events| - 1]);
    }
  }

  /** Replaying diffs leaves readiness alone, and on a ready store mutates the rows as it mutates a map. */
  lemma {:induction false} ReplayDiffs<T>(s: Store<T>, diffs: seq<MapDiff<T>>, n: nat)
    requires Agrees(s) && n <= |diffs|
    ensures var r := Replay(s, AsEvents(diffs)[..n]);
      && r.ready == s.ready && Agrees(r)
      && (s.ready ==> Rows(r) == MutateAll(Rows(s), diffs, n))
    decreases n
  {
    if n == 0 {
      assert AsEvents(diffs)[..0] == [];
    } else {
      ReplayDiffs(s, diffs, n - 1);
      var before := Replay(s, AsEvents(diffs)[..n - 1]);
      assert AsEvents(diffs)[..n][..n - 1] == AsEvents(diffs)[..n - 1];
      assert Replay(s, AsEvents(diffs)[..n]) == ApplyEvent(before, Map(diffs[n - 1])).store;
      DiffKeepsAgreement(before, diffs[n - 1]);
      DiffOnRows(before, diffs[n - 1]);
    }
  }

  // ---------------------------------------------------------------- the replay invariant

  ghost predicate Inv<T>(w: World<T>) {
    && Agrees(w.store)
    && w.source == MutateAll(w.base, w.pending, |w.pending|)
    && (!w.subscribed ==> w.queue == [] && w.pending == [] && !w.store.ready)
    && (Replay(w.store, ToCome(w)).ready ==> Rows(Replay(w.store, ToCome(w))) == w.source)
  }

  lemma {:induction false} MutateAllFirst<T>(m: map<Key, T>, diffs: seq<MapDiff<T>>, n: nat)
    requires 1 <= n <= |diffs|
    ensures MutateAll(m, diffs, n) == MutateAll(Mutate(m, diffs[0]), diffs[1..], n - 1)
    decreases n
  {
    if n > 1 {
      MutateAllFirst(m, diffs, n - 1);
      assert diffs[1..][n - 2] == diffs[n - 1];
    } else {
      assert MutateAll(m, diffs, 0) == m;
    }
  }

  lemma {:induction false} MutateAllPrefix<T>(m: map<Key, T>, a: seq<MapDiff<T>>, b: seq<MapDiff<T>>, n: nat)
    requires n <= |a|
    ensures MutateAll(m, a + b, n) == MutateAll(m, a, n)
    decreases n
  {
    if n > 0 {
      MutateAllPrefix(m, a, b, n - 1);
      assert (a + b)[n - 1] == a[n - 1];
    }
  }

  lemma MutationKeepsInv<T>(w: World<T>, diff: MapDiff<T>)
    requires Inv(w)
    ensures Inv(Apply(w, MutateSource(diff)))
  {
    var v := Apply(w, MutateSource(diff));
    if w.subscribed {
      MutateAllPrefix(w.base, w.pending, [diff], |w.pending|);
      assert v.pending[|v.pending| - 1] == diff;
      OneDiffToCome(w, diff);
      ReplayOneMore(w.store, ToCome(w), diff);
    } else {
      assert ToCome(v) == [];
    }
  }

  lemma OneDiffToCome<T>(w: World<T>, diff: MapDiff<T>)
    requires w.subscribed
    ensures ToCome(Apply(w, MutateSource(diff))) == ToCome(w) + [Map(diff)]
  {
    assert AsEvents(w.pending + [diff]) == AsEvents(w.pending) + [Map(diff)];
  }

  lemma ReplayOneMore<T>(s: Store<T>, events: seq<Event<T>>, diff: MapDiff<T>)
    requires Agrees(s)
    ensures var before, after := Replay(s, events), Replay(s, events + [Map(diff)]);
      after.ready == before.ready && (before.ready ==> Rows(after) == Mutate(Rows(before), diff))
  {
    assert (events + [Map(diff)])[..|events|] == events;
    var before := Replay(s, events);
    ReplayAgrees(s, events);
    DiffKeepsAgreement(before, diff);
    DiffOnRows(before, diff);
  }

  lemma FanoutKeepsInv<T>(w: World<T>)
    requires Inv(w) && |w.pending| > 0
    ensures Inv(Apply(w, Fanout))
  {
    var v := Apply(w, Fanout);
    assert ToCome(v) == ToCome(w);
    MutateAllFirst(w.base, w.pending, |w.pending|);
  }

  /** An event that, if it makes the store ready, shows it the source as it is now. */
  lemma SignalKeepsInv<T>(w: World<T>, event: Event<T>)
    requires Inv(w) && w.subscribed
    requires forall s: Store<T> ::
               Agrees(s) && ApplyEvent(s, event).store.ready ==> Rows(ApplyEvent(s, event).store) == w.source
    ensures Inv(Enqueue(w, event))
  {
    var v := Enqueue(w, event);
    var q := Replay(w.store, w.queue);
    var t := ApplyEvent(q, event).store;
    var n := |w.pending|;
    ReplayAgrees(w.store, w.queue);
    EventKeepsAgreement(q, event);
    assert ToCome(v) == w.queue + ([event] + AsEvents(w.pending));
    ReplayAppend(w.store, w.queue, [event] + AsEvents(w.pending));
    ReplayAppend(q, [event], AsEvents(w.pending));
    ReplayOne(q, event);
    assert AsEvents(w.pending)[..n] == AsEvents(w.pending);
    ReplayDiffs(t, w.pending, n);
    ReplayAbsorbed(w.base, w.pending);
  }

  lemma PublishedRows<T>(s: Store<T>, event: Event<T>, source: map<Key, T>)
    requires Agrees(s)
    requires event.ReadySignal? || event.StatusSignal?
    requires event.ReadySignal? && event.ready ==> FromEntries(event.snapshot) == source
    requires event.StatusSignal? && event.status.Connected? ==> FromEntries(event.snapshot) == source
    ensures ApplyEvent(s, event).store.ready ==> Rows(ApplyEvent(s, event).store) == source
  {
    var t := if event.ReadySignal? then s.(responseReady := event.ready)
             else s.(responseReady := s.responseReady && event.status.Connected?, connection := Some(event.status));
    assert Agrees(t);
    ReconcileRows(t, event.snapshot);
    var p := Reconcile(t, event.snapshot).store;
    assert Rows(p.(ready := true, state := Loaded)) == Rows(p);
  }

  lemma StepKeepsInv<T>(w: World<T>, step: Step<T>)
    requires Inv(w) && Enabled(w, step)
    ensures Inv(Apply(w, step))
  {
    match step
    case Subscribe(snapshot) =>
      var v := Apply(w, step);
      assert ToCome(v) == [Map(Initial(snapshot))];
      ReplayOne(w.store, Map(Initial(snapshot)));
    case MutateSource(diff) => MutationKeepsInv(w, diff);
    case Fanout => FanoutKeepsInv(w);
    case SignalReady(ready, snapshot) =>
      forall s: Store<T> | Agrees(s) && ApplyEvent(s, ReadySignal(ready, snapshot)).store.ready
        ensures Rows(ApplyEvent(s, ReadySignal(ready, snapshot)).store) == w.source
      {
        PublishedRows(s, ReadySignal(ready, snapshot), w.source);
      }
      SignalKeepsInv(w, ReadySignal(ready, snapshot));
    case SignalStatus(status, snapshot) =>
      forall s: Store<T> | Agrees(s) && ApplyEvent(s, StatusSignal(status, snapshot)).store.ready
        ensures Rows(ApplyEvent(s, StatusSignal(status, snapshot)).store) == w.source
      {
        PublishedRows(s, StatusSignal(status, snapshot), w.source);
      }
      SignalKeepsInv(w, StatusSignal(status, snapshot));
    case SignalReadyError(message) => SignalKeepsInv(w, ReadyError(message));
    case SignalStatusError(message) => SignalKeepsInv(w, StatusError(message));
    case Deliver =>
      var v := Apply(w, step);
      assert ToCome(w) == [w.queue[0]] + ToCome(v);
      ReplayAppend(w.store, [w.queue[0]], ToCome(v));
      ReplayOne(w.store, w.queue[0]);
      EventKeepsAgreement(w.store, w.queue[0]);
  }

  // ---------------------------------------------------------------- runs

  ghost predicate IsRun<T>(worlds: seq<World<T>>, steps: seq<Step<T>>) {
    && |worlds| == |steps| + 1
    && worlds[0] == Start(worlds[0].source)
    && forall k :: 0 <= k < |steps| ==> Enabled(worlds[k], steps[k]) && worlds[k + 1] == Apply(worlds[k], steps[k])
  }

  lemma {:induction false} RunInv<T>(worlds: seq<World<T>>, steps: seq<Step<T>>, k: nat)
    requires IsRun(worlds, steps) && k < |worlds|
    ensures Inv(worlds[k])
  {
    if k == 0 {
      assert ToCome(worlds[0]) == [];
    } else {
      RunInv(worlds, steps, k - 1);
      StepKeepsInv(worlds[k - 1], steps[k - 1]);
    }
  }

  /** A ready store that has been told everything holds exactly the source, in every run. */
  lemma ReadyStoreIsSource<T>(worlds: seq<World<T>>, steps: seq<Step<T>>, k: nat)
    requires IsRun(worlds, steps) && k < |worlds|
    requires worlds[k].queue == [] && worlds[k].pending == [] && worlds[k].store.ready
    ensures Rows(worlds[k].store) == worlds[k].source
    ensures forall key :: key in worlds[k].store.keys <==> key in worlds[k].source
  {
    RunInv(worlds, steps, k);
    assert ToCome(worlds[k]) == [];
  }
}
