/** The query projection as values: what each event does to a store, and what diffs do to a keyed map. */
module QueryStoreSpec {
  import opened Common

  type Key = string

  datatype Entry<T> = Entry(key: Key, value: T)

  datatype MapDiff<T> =
    | Initial(entries: seq<Entry<T>>)
    | Insert(key: Key, value: T)
    | Update(key: Key, oldValue: T, newValue: T)
    | Remove(key: Key, oldValue: T)
    | Batch(changes: seq<MapDiff<T>>)

  datatype ConnectionStatus =
    | Idle | Disconnected | Connecting(addr: string) | Reconnecting(addr: string) | Connected(addr: string)

  /** Load state of the collection; `stale` says that a value of an earlier ready state is kept. */
  datatype LoadState = Loading(stale: bool) | Loaded | Failed(message: string, stale: bool)

  function HasValue(state: LoadState): bool {
    match state
    case Loaded => true
    case Loading(stale) => stale
    case Failed(_, stale) => stale
  }

  datatype Event<T> =
    | Map(diff: MapDiff<T>)
    | ReadySignal(ready: bool, snapshot: seq<Entry<T>>)
    | StatusSignal(status: ConnectionStatus, snapshot: seq<Entry<T>>)
    | ReadyError(message: string)
    | StatusError(message: string)

  /** `values` holds the current value of every row entity ever made; `None` after removal. */
  datatype Store<T> = Store(
    state: LoadState, ready: bool, responseReady: bool, connection: Option<ConnectionStatus>,
    keys: seq<Key>, values: map<Key, Option<T>>)

  function EmptyStore<T>(): Store<T> {
    Store(Loading(false), false, false, None, [], map[])
  }

  // ---------------------------------------------------------------- the store's operations

  datatype Changed<T> = Changed(store: Store<T>, changed: bool)

  function UpdateEntry<T>(s: Store<T>, key: Key, value: T): Changed<T> {
    Changed(s.(values := s.values[key := Some(value)], keys := if key in s.keys then s.keys else s.keys + [key]),
            key !in s.keys)
  }

  function Without(keys: seq<Key>, key: Key): (r: seq<Key>)
    ensures key !in r && (forall k :: k in r <==> k in keys && k != key)
    ensures |r| <= |keys| && (|r| == |keys| <==> key !in keys) && (key !in keys ==> r == keys)
  {
    if |keys| == 0 then []
    else if keys[0] == key then Without(keys[1..], key)
    else [keys[0]] + Without(keys[1..], key)
  }

  function RemoveEntry<T>(s: Store<T>, key: Key): Changed<T> {
    Changed(s.(values := if key in s.values then s.values[key := None] else s.values, keys := Without(s.keys, key)),
            key in s.keys)
  }

  function KeysOf<T>(entries: seq<Entry<T>>): (r: seq<Key>)
    ensures |r| == |entries| && forall i :: 0 <= i < |r| ==> r[i] == entries[i].key
  {
    seq(|entries|, i requires 0 <= i < |entries| => entries[i].key)
  }

  /** The values after every key in `gone` lost its value. */
  function ClearValues<T>(values: map<Key, Option<T>>, gone: set<Key>): map<Key, Option<T>> {
    map k | k in values :: if k in gone then None else values[k]
  }

  function PutValues<T>(values: map<Key, Option<T>>, entries: seq<Entry<T>>): map<Key, Option<T>>
    decreases |entries|
  {
    if |entries| == 0 then values
    else PutValues(values, entries[..|entries| - 1])[entries[|entries| - 1].key := Some(entries[|entries| - 1].value)]
  }

  function Reconcile<T>(s: Store<T>, snapshot: seq<Entry<T>>): Changed<T> {
    var next := KeysOf(snapshot);
    var gone := set k | k in s.keys && k !in next;
    Changed(s.(values := PutValues(ClearValues(s.values, gone), snapshot), keys := next), s.keys != next)
  }

  function ApplyDiff<T>(s: Store<T>, diff: MapDiff<T>): Changed<T>
    decreases diff, 0
  {
    match diff
    case Initial(entries) => Reconcile(s, entries)
    case Insert(key, value) => UpdateEntry(s, key, value)
    case Update(key, _, newValue) => UpdateEntry(s, key, newValue)
    case Remove(key, _) => RemoveEntry(s, key)
    case Batch(changes) => ApplyBatch(s, changes, |changes|)
  }

  /** The first `n` changes of a batch, in order; `changed` if any of them said so. */
  function ApplyBatch<T>(s: Store<T>, changes: seq<MapDiff<T>>, n: nat): Changed<T>
    requires n <= |changes|
    decreases changes, n
  {
    if n == 0 then Changed(s, false)
    else
      var before := ApplyBatch(s, changes, n - 1);
      var after := ApplyDiff(before.store, changes[n - 1]);
      Changed(after.store, before.changed || after.changed)
  }

  function NotReadyState(connection: Option<ConnectionStatus>, state: LoadState): LoadState {
    if connection == Some(Disconnected) then Failed("Myko connection disconnected", HasValue(state))
    else Loading(HasValue(state))
  }

  function SyncNotReady<T>(s: Store<T>): Store<T> {
    s.(ready := false, state := NotReadyState(s.connection, s.state))
  }

  function Publish<T>(s: Store<T>, snapshot: seq<Entry<T>>): Store<T> {
    Reconcile(s, snapshot).store.(ready := true, state := Loaded)
  }

  function IsConnected(connection: Option<ConnectionStatus>): bool {
    connection.Some? && connection.value.Connected?
  }

  /** The store after one event, and whether the collection notified its observers. */
  function ApplyEvent<T>(s: Store<T>, event: Event<T>): Changed<T> {
    match event
    case Map(diff) => if s.ready then ApplyDiff(s, diff) else Changed(s, false)
    case ReadySignal(ready, snapshot) =>
      var t := s.(responseReady := ready);
      Changed(if ready && IsConnected(t.connection) then Publish(t, snapshot) else SyncNotReady(t), true)
    case StatusSignal(status, snapshot) =>
      var t := s.(responseReady := s.responseReady && status.Connected?, connection := Some(status));
      Changed(if t.responseReady then Publish(t, snapshot) else SyncNotReady(t), true)
    case ReadyError(message) =>
      Changed(s.(ready := false, responseReady := false, state := Failed(message, HasValue(s.state))), true)
    case StatusError(message) =>
      var t := s.(connection := None);
      Changed(t.(ready := false, responseReady := false, state := Failed(message, HasValue(s.state))), true)
  }

  function Replay<T>(s: Store<T>, events: seq<Event<T>>): Store<T>
    decreases |events|
  {
    if |events| == 0 then s
    else ApplyEvent(Replay(s, events[..|events| - 1]), events[|events| - 1]).store
  }

  // ---------------------------------------------------------------- membership

  /** A key is a member exactly when its entity holds a value. */
  ghost predicate Agrees<T>(s: Store<T>) {
    forall k :: k in s.keys <==> k in s.values && s.values[k].Some?
  }

  /** The collection as a map. */
  function Rows<T>(s: Store<T>): map<Key, T> {
    map k | k in s.values && s.values[k].Some? :: s.values[k].value
  }

  lemma {:induction false} PutValuesAt<T>(values: map<Key, Option<T>>, entries: seq<Entry<T>>, k: Key)
    ensures k in PutValues(values, entries) <==> k in values || k in KeysOf(entries)
    ensures k in KeysOf(entries) ==> PutValues(values, entries)[k].Some?
    ensures k !in KeysOf(entries) && k in values ==> PutValues(values, entries)[k] == values[k]
    decreases |entries|
  {
    if |entries| > 0 {
      var n := |entries| - 1;
      PutValuesAt(values, entries[..n], k);
      assert KeysOf(entries) == KeysOf(entries[..n]) + [entries[n].key];
    }
  }

  lemma ReconcileAgrees<T>(s: Store<T>, snapshot: seq<Entry<T>>)
    requires Agrees(s)
    ensures Agrees(Reconcile(s, snapshot).store)
  {
    var next := KeysOf(snapshot);
    var gone := set k | k in s.keys && k !in next;
    forall k ensures var t := Reconcile(s, snapshot).store; k in t.keys <==> k in t.values && t.values[k].Some? {
      PutValuesAt(ClearValues(s.values, gone), snapshot, k);
    }
  }

  lemma UpdateAgrees<T>(s: Store<T>, key: Key, value: T)
    requires Agrees(s)
    ensures Agrees(UpdateEntry(s, key, value).store)
  {
  }

  lemma RemoveAgrees<T>(s: Store<T>, key: Key)
    requires Agrees(s)
    ensures Agrees(RemoveEntry(s, key).store)
  {
  }

  /** Membership and values stay in agreement, and a change reported as none leaves the key list untouched. */
  lemma {:induction false} DiffKeepsAgreement<T>(s: Store<T>, diff: MapDiff<T>)
    requires Agrees(s)
    ensures Agrees(ApplyDiff(s, diff).store)
    ensures !ApplyDiff(s, diff).changed ==> ApplyDiff(s, diff).store.keys == s.keys
    ensures s.values.Keys <= ApplyDiff(s, diff).store.values.Keys
    ensures var t := ApplyDiff(s, diff).store;
      t.state == s.state && t.ready == s.ready && t.responseReady == s.responseReady && t.connection == s.connection
    decreases diff, 0
  {
    match diff
    case Initial(entries) =>
      ReconcileAgrees(s, entries);
      ReconcileKeepsEntities(s, entries);
    case Insert(_, _) =>
    case Update(_, _, _) =>
    case Remove(_, _) =>
    case Batch(changes) => BatchKeepsAgreement(s, changes, |changes|);
  }

  lemma {:induction false} BatchKeepsAgreement<T>(s: Store<T>, changes: seq<MapDiff<T>>, n: nat)
    requires Agrees(s) && n <= |changes|
    ensures var r := ApplyBatch(s, changes, n);
      && Agrees(r.store)
      && (!r.changed ==> r.store.keys == s.keys)
      && s.values.Keys <= r.store.values.Keys
      && r.store.state == s.state && r.store.ready == s.ready
      && r.store.responseReady == s.responseReady && r.store.connection == s.connection
    decreases changes, n
  {
    if n > 0 {
      BatchKeepsAgreement(s, changes, n - 1);
      DiffKeepsAgreement(ApplyBatch(s, changes, n - 1).store, changes[n - 1]);
    }
  }

  lemma ReconcileKeepsEntities<T>(s: Store<T>, snapshot: seq<Entry<T>>)
    ensures s.values.Keys <= Reconcile(s, snapshot).store.values.Keys
  {
    var gone := set k | k in s.keys && k !in KeysOf(snapshot);
    forall k | k in s.values ensures k in Reconcile(s, snapshot).store.values {
      PutValuesAt(ClearValues(s.values, gone), snapshot, k);
    }
  }

  lemma EventKeepsAgreement<T>(s: Store<T>, event: Event<T>)
    requires Agrees(s)
    ensures Agrees(ApplyEvent(s, event).store)
    ensures s.values.Keys <= ApplyEvent(s, event).store.values.Keys
  {
    match event
    case Map(diff) => DiffKeepsAgreement(s, diff);
    case ReadySignal(ready, snapshot) =>
      var t := s.(responseReady := ready);
      assert Agrees(t);
      ReconcileAgrees(t, snapshot);
      ReconcileKeepsEntities(t, snapshot);
    case StatusSignal(status, snapshot) =>
      var t := s.(responseReady := s.responseReady && status.Connected?, connection := Some(status));
      assert Agrees(t);
      ReconcileAgrees(t, snapshot);
      ReconcileKeepsEntities(t, snapshot);
    case ReadyError(_) =>
    case StatusError(_) =>
  }

  // ---------------------------------------------------------------- when a change is reported

  /** A diff as a flat list: nested batches opened. */
  function Flatten<T>(diff: MapDiff<T>): seq<MapDiff<T>>
    decreases diff, 0
  {
    if diff.Batch? then FlattenAll(diff.changes, |diff.changes|) else [diff]
  }

  function FlattenAll<T>(changes: seq<MapDiff<T>>, n: nat): seq<MapDiff<T>>
    requires n <= |changes|
    decreases changes, n
  {
    if n == 0 then [] else FlattenAll(changes, n - 1) + Flatten(changes[n - 1])
  }

  lemma {:induction false} BatchAppend<T>(s: Store<T>, a: seq<MapDiff<T>>, b: seq<MapDiff<T>>, n: nat)
    requires n <= |b|
    ensures var x := ApplyBatch(s, a, |a|);
      var y := ApplyBatch(x.store, b, n);
      ApplyBatch(s, a + b, |a| + n) == Changed(y.store, x.changed || y.changed)
    decreases n
  {
    if n == 0 {
      BatchPrefix(s, a, b, |a|);
    } else {
      BatchAppend(s, a, b, n - 1);
      assert (a + b)[|a| + n - 1] == b[n - 1];
    }
  }

  lemma {:induction false} BatchPrefix<T>(s: Store<T>, a: seq<MapDiff<T>>, b: seq<MapDiff<T>>, n: nat)
    requires n <= |a|
    ensures ApplyBatch(s, a + b, n) == ApplyBatch(s, a, n)
    decreases n
  {
    if n > 0 {
      BatchPrefix(s, a, b, n - 1);
      assert (a + b)[n - 1] == a[n - 1];
    }
  }

  /** Nesting of batches means nothing: a diff does what its flat list does, and reports the same. */
  lemma {:induction false} NestingIsTransparent<T>(s: Store<T>, diff: MapDiff<T>)
    ensures ApplyDiff(s, diff) == ApplyBatch(s, Flatten(diff), |Flatten(diff)|)
    decreases diff, 0
  {
    if diff.Batch? {
      NestingIsTransparentAll(s, diff.changes, |diff.changes|);
    } else {
      assert ApplyBatch(s, [diff], 1) == Changed(ApplyDiff(ApplyBatch(s, [diff], 0).store, diff).store,
                                                 ApplyDiff(ApplyBatch(s, [diff], 0).store, diff).changed);
    }
  }

  lemma {:induction false} NestingIsTransparentAll<T>(s: Store<T>, changes: seq<MapDiff<T>>, n: nat)
    requires n <= |changes|
    ensures ApplyBatch(s, changes, n) == ApplyBatch(s, FlattenAll(changes, n), |FlattenAll(changes, n)|)
    decreases changes, n
  {
    if n > 0 {
      NestingIsTransparentAll(s, changes, n - 1);
      NestingIsTransparent(ApplyBatch(s, changes, n - 1).store, changes[n - 1]);
      BatchAppend(s, FlattenAll(changes, n - 1), Flatten(changes[n - 1]), |Flatten(changes[n - 1])|);
    }
  }

  /** The change moves a key list that is `keys`; a batch, if any change in it would. */
  predicate Disturbs<T>(keys: seq<Key>, diff: MapDiff<T>) {
    match diff
    case Initial(entries) => KeysOf(entries) != keys
    case Insert(key, _) => key !in keys
    case Update(key, _, _) => key !in keys
    case Remove(key, _) => key in keys
    case Batch(changes) => exists i :: 0 <= i < |changes| && Disturbs(keys, changes[i])
  }

  /** A diff reports a change exactly when it disturbs the key list the store has before it. */
  lemma {:induction false} ReportedExactlyWhenDisturbed<T>(s: Store<T>, diff: MapDiff<T>)
    ensures ApplyDiff(s, diff).changed <==> Disturbs(s.keys, diff)
    ensures !ApplyDiff(s, diff).changed ==> ApplyDiff(s, diff).store.keys == s.keys
    decreases diff, 0
  {
    if diff.Batch? { BatchReported(s, diff.changes, |diff.changes|); }
  }

  lemma {:induction false} BatchReported<T>(s: Store<T>, changes: seq<MapDiff<T>>, n: nat)
    requires n <= |changes|
    ensures ApplyBatch(s, changes, n).changed <==> exists i :: 0 <= i < n && Disturbs(s.keys, changes[i])
    ensures !ApplyBatch(s, changes, n).changed ==> ApplyBatch(s, changes, n).store.keys == s.keys
    decreases changes, n
  {
    if n > 0 {
      BatchReported(s, changes, n - 1);
      ReportedExactlyWhenDisturbed(ApplyBatch(s, changes, n - 1).store, changes[n - 1]);
    }
  }

  /**
   In a flat batch that is when the key list differs after some single change in it, and also when some change
   in it disturbs the key list there was before the batch.
   */
  lemma {:induction false} ReportedExactlyWhenKeysMove<T>(s: Store<T>, flat: seq<MapDiff<T>>, n: nat)
    requires n <= |flat| && forall i :: 0 <= i < |flat| ==> !flat[i].Batch?
    ensures ApplyBatch(s, flat, n).changed <==> exists i :: 0 <= i < n && KeysMoveAt(s, flat, i)
    ensures ApplyBatch(s, flat, n).changed <==> exists i :: 0 <= i < n && Disturbs(s.keys, flat[i])
    decreases n
  {
    BatchReported(s, flat, n);
    if n > 0 {
      ReportedExactlyWhenKeysMove(s, flat, n - 1);
      OneChangeReported(ApplyBatch(s, flat, n - 1).store, flat[n - 1]);
      assert KeysMoveAt(s, flat, n - 1) <==> ApplyDiff(ApplyBatch(s, flat, n - 1).store, flat[n - 1]).changed;
    }
  }

  /** The key list differs after change `i` from what it was before. */
  predicate KeysMoveAt<T>(s: Store<T>, flat: seq<MapDiff<T>>, i: nat)
    requires i < |flat|
  {
    ApplyBatch(s, flat, i).store.keys != ApplyBatch(s, flat, i + 1).store.keys
  }

  lemma OneChangeReported<T>(s: Store<T>, diff: MapDiff<T>)
    requires !diff.Batch?
    ensures ApplyDiff(s, diff).changed <==> s.keys != ApplyDiff(s, diff).store.keys
  {
  }

  /** So a notification does not mean that membership moved: insert and remove in one batch report a change. */
  lemma NotificationWithoutChange<T>(s: Store<T>, k: Key, v: T)
    requires s.ready && k !in s.keys
    ensures var r := ApplyEvent(s, Map(Batch([Insert(k, v), Remove(k, v)])));
      r.changed && r.store.keys == s.keys
  {
    var batch := [Insert(k, v), Remove(k, v)];
    var zero := ApplyBatch(s, batch, 0);
    assert zero == Changed(s, false);
    var first := ApplyDiff(zero.store, batch[0]);
    assert first == UpdateEntry(s, k, v);
    var one := ApplyBatch(s, batch, 1);
    assert one == Changed(first.store, true);
    var second := ApplyDiff(one.store, batch[1]);
    assert ApplyBatch(s, batch, 2) == Changed(second.store, true);
    WithoutLast(s.keys, k);
  }

  lemma {:induction false} WithoutLast(keys: seq<Key>, k: Key)
    requires k !in keys
    ensures Without(keys + [k], k) == keys
  {
    if |keys| > 0 {
      assert (keys + [k])[1..] == keys[1..] + [k];
      WithoutLast(keys[1..], k);
    }
  }

  // ---------------------------------------------------------------- diffs on the source map

  function FromEntries<T>(entries: seq<Entry<T>>): map<Key, T>
    decreases |entries|
  {
    if |entries| == 0 then map[]
    else FromEntries(entries[..|entries| - 1])[entries[|entries| - 1].key := entries[|entries| - 1].value]
  }

  /** What a diff says happened to the source map. */
  function Mutate<T>(m: map<Key, T>, diff: MapDiff<T>): map<Key, T>
    decreases diff, 0
  {
    match diff
    case Initial(entries) => FromEntries(entries)
    case Insert(key, value) => m[key := value]
    case Update(key, _, newValue) => m[key := newValue]
    case Remove(key, _) => m - {key}
    case Batch(changes) => MutateAll(m, changes, |changes|)
  }

  function MutateAll<T>(m: map<Key, T>, changes: seq<MapDiff<T>>, n: nat): map<Key, T>
    requires n <= |changes|
    decreases changes, n
  {
    if n == 0 then m else Mutate(MutateAll(m, changes, n - 1), changes[n - 1])
  }

  lemma {:induction false} PutRows<T>(values: map<Key, Option<T>>, entries: seq<Entry<T>>, k: Key)
    ensures k in FromEntries(entries) <==> k in KeysOf(entries)
    ensures k in KeysOf(entries) ==>
              k in PutValues(values, entries) && PutValues(values, entries)[k] == Some(FromEntries(entries)[k])
    decreases |entries|
  {
    if |entries| > 0 {
      var n := |entries| - 1;
      PutRows(values, entries[..n], k);
      assert KeysOf(entries) == KeysOf(entries[..n]) + [entries[n].key];
    }
  }

  /** Reconciling makes the rows those of the snapshot, whatever they were. */
  lemma ReconcileRows<T>(s: Store<T>, snapshot: seq<Entry<T>>)
    requires Agrees(s)
    ensures Rows(Reconcile(s, snapshot).store) == FromEntries(snapshot)
  {
    var gone := set k | k in s.keys && k !in KeysOf(snapshot);
    var cleared := ClearValues(s.values, gone);
    var t := Reconcile(s, snapshot).store;
    forall k
      ensures k in Rows(t) <==> k in FromEntries(snapshot)
      ensures k in Rows(t) && k in FromEntries(snapshot) ==> Rows(t)[k] == FromEntries(snapshot)[k]
    {
      PutRows(cleared, snapshot, k);
      PutValuesAt(cleared, snapshot, k);
    }
  }

  lemma UpdateRows<T>(s: Store<T>, key: Key, value: T)
    ensures Rows(UpdateEntry(s, key, value).store) == Rows(s)[key := value]
  {
  }

  lemma RemoveRows<T>(s: Store<T>, key: Key)
    ensures Rows(RemoveEntry(s, key).store) == Rows(s) - {key}
  {
  }

  /** On rows a diff does exactly what it does on the source map. */
  lemma {:induction false} DiffOnRows<T>(s: Store<T>, diff: MapDiff<T>)
    requires Agrees(s)
    ensures Rows(ApplyDiff(s, diff).store) == Mutate(Rows(s), diff)
    decreases diff, 0
  {
    match diff
    case Initial(entries) => ReconcileRows(s, entries);
    case Insert(key, value) => UpdateRows(s, key, value);
    case Update(key, _, newValue) => UpdateRows(s, key, newValue);
    case Remove(key, _) => RemoveRows(s, key);
    case Batch(changes) => BatchOnRows(s, changes, |changes|);
  }

  lemma {:induction false} BatchOnRows<T>(s: Store<T>, changes: seq<MapDiff<T>>, n: nat)
    requires Agrees(s) && n <= |changes|
    ensures Rows(ApplyBatch(s, changes, n).store) == MutateAll(Rows(s), changes, n)
    decreases changes, n
  {
    if n > 0 {
      BatchOnRows(s, changes, n - 1);
      BatchKeepsAgreement(s, changes, n - 1);
      DiffOnRows(ApplyBatch(s, changes, n - 1).store, changes[n - 1]);
    }
  }

  // ---------------------------------------------------------------- diffs overwrite

  function Lookup<T>(m: map<Key, T>, k: Key): Option<T> {
    if k in m then Some(m[k]) else None
  }

  /** What a diff leaves at key `k` whatever was there, or `None` if it does not touch `k`. */
  function Outcome<T>(diff: MapDiff<T>, k: Key): Option<Option<T>>
    decreases diff, 0
  {
    match diff
    case Initial(entries) => Some(Lookup(FromEntries(entries), k))
    case Insert(key, value) => if k == key then Some(Some(value)) else None
    case Update(key, _, newValue) => if k == key then Some(Some(newValue)) else None
    case Remove(key, _) => if k == key then Some(None) else None
    case Batch(changes) => OutcomeAll(changes, |changes|, k)
  }

  function OutcomeAll<T>(changes: seq<MapDiff<T>>, n: nat, k: Key): Option<Option<T>>
    requires n <= |changes|
    decreases changes, n
  {
    if n == 0 then None
    else if Outcome(changes[n - 1], k).Some? then Outcome(changes[n - 1], k)
    else OutcomeAll(changes, n - 1, k)
  }

  lemma {:induction false} MutateOverwrites<T>(m: map<Key, T>, diff: MapDiff<T>, k: Key)
    ensures Lookup(Mutate(m, diff), k) == Outcome(diff, k).GetOr(Lookup(m, k))
    decreases diff, 0
  {
    if diff.Batch? { MutateAllOverwrites(m, diff.changes, |diff.changes|, k); }
  }

  lemma {:induction false} MutateAllOverwrites<T>(m: map<Key, T>, changes: seq<MapDiff<T>>, n: nat, k: Key)
    requires n <= |changes|
    ensures Lookup(MutateAll(m, changes, n), k) == OutcomeAll(changes, n, k).GetOr(Lookup(m, k))
    decreases changes, n
  {
    if n > 0 {
      MutateAllOverwrites(m, changes, n - 1, k);
      MutateOverwrites(MutateAll(m, changes, n - 1), changes[n - 1], k);
    }
  }

  /** Replaying diffs over a map that already has them changes nothing. */
  lemma ReplayAbsorbed<T>(m: map<Key, T>, changes: seq<MapDiff<T>>)
    ensures var n := |changes|; MutateAll(MutateAll(m, changes, n), changes, n) == MutateAll(m, changes, n)
  {
    var n := |changes|;
    var once := MutateAll(m, changes, n);
    var twice := MutateAll(once, changes, n);
    forall k ensures Lookup(twice, k) == Lookup(once, k) {
      MutateAllOverwrites(m, changes, n, k);
      MutateAllOverwrites(once, changes, n, k);
    }
    SameLookups(twice, once);
  }

  lemma SameLookups<T>(a: map<Key, T>, b: map<Key, T>)
    requires forall k :: Lookup(a, k) == Lookup(b, k)
    ensures a == b
  {
    forall k ensures k in a <==> k in b { assert Lookup(a, k) == Lookup(b, k); }
    forall k | k in a ensures a[k] == b[k] { assert Lookup(a, k) == Lookup(b, k); }
  }

  // ---------------------------------------------------------------- notifications without a change

  ghost predicate SameMembers(a: seq<Key>, b: seq<Key>) {
    forall k :: k in a <==> k in b
  }

  /** The event notifies though neither membership nor readiness is different afterwards. */
  ghost predicate NotifiesInVain<T>(s: Store<T>, event: Event<T>) {
    var r := ApplyEvent(s, event);
    r.changed && SameMembers(r.store.keys, s.keys) && r.store.ready == s.ready
  }

  /** The signal finds readiness and connection together and publishes its snapshot. */
  predicate Publishes<T>(s: Store<T>, event: Event<T>) {
    || (event.ReadySignal? && event.ready && IsConnected(s.connection))
    || (event.StatusSignal? && event.status.Connected? && s.responseReady)
  }

  /** The diff leaves `k` a member exactly when it was one. */
  predicate LeavesMembership<T>(s: Store<T>, diff: MapDiff<T>, k: Key) {
    var outcome := Outcome(diff, k);
    outcome.Some? ==> (outcome.value.Some? <==> k in s.keys)
  }

  /**
   The cause, read off the store and the event before it is applied: a diff on a ready store disturbs the key
   list and still leaves every key as it was; a published snapshot names the members of a ready store; or any
   other signal or error meets a store that is not ready.
   */
  ghost predicate VainCause<T>(s: Store<T>, event: Event<T>) {
    if event.Map? then
      && s.ready && Disturbs(s.keys, event.diff)
      && forall k :: LeavesMembership(s, event.diff, k)
    else if Publishes(s, event) then s.ready && SameMembers(KeysOf(event.snapshot), s.keys)
    else !s.ready
  }

  /** After a diff a key is a member as the diff says, or, if it says nothing about it, as before. */
  lemma MembersAfter<T>(s: Store<T>, diff: MapDiff<T>, k: Key)
    requires Agrees(s)
    ensures k in ApplyDiff(s, diff).store.keys <==>
              if Outcome(diff, k).Some? then Outcome(diff, k).value.Some? else k in s.keys
  {
    DiffKeepsAgreement(s, diff);
    DiffOnRows(s, diff);
    MutateOverwrites(Rows(s), diff, k);
    assert k in ApplyDiff(s, diff).store.keys <==> k in Rows(ApplyDiff(s, diff).store);
    assert k in s.keys <==> k in Rows(s);
  }

  /** Exactly when an event notifies although neither membership nor readiness changed. */
  lemma NotifiesInVainIff<T>(s: Store<T>, event: Event<T>)
    requires Agrees(s)
    ensures NotifiesInVain(s, event) <==> VainCause(s, event)
  {
    if event.Map? && s.ready {
      DiffInVain(s, event.diff);
    } else if event.Map? {
      assert !ApplyEvent(s, event).changed;
    } else {
      SignalKeys(s, event);
    }
  }

  lemma DiffInVain<T>(s: Store<T>, diff: MapDiff<T>)
    requires Agrees(s) && s.ready
    ensures NotifiesInVain(s, Map(diff)) <==>
              Disturbs(s.keys, diff) && forall k :: LeavesMembership(s, diff, k)
  {
    var t := ApplyDiff(s, diff).store;
    ReportedExactlyWhenDisturbed(s, diff);
    DiffKeepsAgreement(s, diff);
    forall k ensures LeavesMembership(s, diff, k) <==> (k in t.keys <==> k in s.keys) { MembersAfter(s, diff, k); }
    assert SameMembers(t.keys, s.keys) <==> forall k :: LeavesMembership(s, diff, k);
  }

  lemma SignalKeys<T>(s: Store<T>, event: Event<T>)
    requires !event.Map?
    ensures var t := ApplyEvent(s, event).store;
            if Publishes(s, event) then t.ready && t.keys == KeysOf(event.snapshot) else !t.ready && t.keys == s.keys
  {
  }

  // ---------------------------------------------------------------- the order of the keys

  predicate Before(keys: seq<Key>, x: Key, y: Key) {
    exists i, j :: 0 <= i < j < |keys| && keys[i] == x && keys[j] == y
  }

  /** If `x` was ahead of `y`, or `y` was no member, `x` is ahead of `y` now. */
  predicate StaysAhead(before: seq<Key>, after: seq<Key>, x: Key, y: Key) {
    x in before && y in after && (Before(before, x, y) || y !in before) ==> Before(after, x, y)
  }

  lemma AppendStaysAhead(keys: seq<Key>, key: Key, x: Key, y: Key)
    requires x != key && key !in keys
    ensures StaysAhead(keys, keys + [key], x, y)
  {
    var after := keys + [key];
    assert forall i :: 0 <= i < |keys| ==> after[i] == keys[i];
    if x in keys && y == key {
      var i :| 0 <= i < |keys| && keys[i] == x;
      assert after[i] == x && after[|keys|] == y;
    }
  }

  lemma {:induction false} WithoutStaysAhead(keys: seq<Key>, key: Key, x: Key, y: Key)
    requires x != key
    ensures StaysAhead(keys, Without(keys, key), x, y)
  {
    if keys != [] {
      var rest, after := keys[1..], Without(keys, key);
      WithoutStaysAhead(rest, key, x, y);
      if i, j :| 0 <= i < j < |keys| && keys[i] == x && keys[j] == y && y in after {
        if i > 0 {
          assert rest[i - 1] == x && rest[j - 1] == y;
          var k, l :| 0 <= k < l < |Without(rest, key)| && Without(rest, key)[k] == x && Without(rest, key)[l] == y;
          if keys[0] != key { assert after[k + 1] == x && after[l + 1] == y; }
        } else {
          assert rest[j - 1] == y && after[0] == x && y in Without(rest, key);
          var l :| 0 <= l < |Without(rest, key)| && Without(rest, key)[l] == y;
          assert after[l + 1] == y;
        }
      }
    }
  }

  /** A member that a diff does not touch keeps its place ahead of others, and is ahead of those that join. */
  lemma {:induction false} UntouchedStaysAhead<T>(s: Store<T>, diff: MapDiff<T>, x: Key, y: Key)
    requires Outcome(diff, x) == None
    ensures StaysAhead(s.keys, ApplyDiff(s, diff).store.keys, x, y)
    ensures x in s.keys ==> x in ApplyDiff(s, diff).store.keys
    decreases diff, 0
  {
    match diff
    case Initial(_) =>
    case Insert(key, _) => if key !in s.keys { AppendStaysAhead(s.keys, key, x, y); }
    case Update(key, _, _) => if key !in s.keys { AppendStaysAhead(s.keys, key, x, y); }
    case Remove(key, _) => WithoutStaysAhead(s.keys, key, x, y);
    case Batch(changes) => BatchStaysAhead(s, changes, |changes|, x, y);
  }

  lemma {:induction false} BatchStaysAhead<T>(s: Store<T>, changes: seq<MapDiff<T>>, n: nat, x: Key, y: Key)
    requires n <= |changes| && OutcomeAll(changes, n, x) == None
    ensures StaysAhead(s.keys, ApplyBatch(s, changes, n).store.keys, x, y)
    ensures x in s.keys ==> x in ApplyBatch(s, changes, n).store.keys
    decreases changes, n
  {
    if n > 0 {
      BatchStaysAhead(s, changes, n - 1, x, y);
      UntouchedStaysAhead(ApplyBatch(s, changes, n - 1).store, changes[n - 1], x, y);
    }
  }
}
