/** The query store and the row list as objects: row entities are made once and updated in place. */
module QueryStoreClass {
  import opened Common
  import opened QueryStoreSpec

  /** The entity of one row that is or was a member; observers keep it across removals. */
  class MapEntry<T> {
    var value: Option<T>

    constructor (value: Option<T>)
      ensures this.value == value
    {
      this.value := value;
    }
  }

  class QueryStore<T> {
    var state: LoadState
    var ready: bool
    var responseReady: bool
    var connection: Option<ConnectionStatus>
    var keys: seq<Key>
    var entries: map<Key, MapEntry<T>>
    var notifications: nat

    ghost function Values(): map<Key, Option<T>>
      reads this, entries.Values
    {
      map k | k in entries :: entries[k].value
    }

    ghost function View(): Store<T>
      reads this, entries.Values
    {
      Store(state, ready, responseReady, connection, keys, Values())
    }

    /** No two keys share an entity, and exactly the members' entities hold a value. */
    ghost predicate Valid()
      reads this, entries.Values
    {
      Distinct(entries) && Agrees(View())
    }

    constructor ()
      ensures Valid() && View() == EmptyStore() && notifications == 0 && entries == map[]
    {
      state, ready, responseReady, connection := Loading(false), false, false, None;
      keys, entries, notifications := [], map[], 0;
    }

    /** The row entity of a current member. */
    method Entry(key: Key) returns (entry: MapEntry?<T>)
      requires Valid()
      ensures key in keys <==> entry != null
      ensures entry != null ==> key in entries && entry == entries[key] && entry.value.Some?
    {
      if key in keys {
        assert key in View().values;
        entry := entries[key];
      } else {
        entry := null;
      }
    }

    method UpdateEntry(key: Key, value: T) returns (changed: bool)
      requires Valid()
      modifies this`keys, this`entries, entries.Values
      ensures Valid() && View() == QueryStoreSpec.UpdateEntry(old(View()), key, value).store
      ensures changed == QueryStoreSpec.UpdateEntry(old(View()), key, value).changed
      ensures EntitiesKept(old(entries), entries) && fresh(entries.Values - old(entries.Values))
    {
      ghost var after := QueryStoreSpec.UpdateEntry(View(), key, value).store;
      UpdateAgrees(View(), key, value);
      PutEntry(key, value);
      changed := key !in keys;
      if changed {
        keys := keys + [key];
      }
      assert View() == after;
    }

    /** Store a value in the row's entity, making the entity if the key never had one. */
    method PutEntry(key: Key, value: T)
      requires Distinct(entries)
      modifies this`entries, entries.Values
      ensures Distinct(entries) && Values() == old(Values())[key := Some(value)]
      ensures EntitiesKept(old(entries), entries) && fresh(entries.Values - old(entries.Values))
    {
      if key in entries {
        entries[key].value := Some(value);
      } else {
        var entry := new MapEntry(Some(value));
        entries := entries[key := entry];
      }
    }

    method RemoveEntry(key: Key) returns (changed: bool)
      requires Valid()
      modifies this`keys, entries.Values
      ensures Valid() && View() == QueryStoreSpec.RemoveEntry(old(View()), key).store
      ensures changed == QueryStoreSpec.RemoveEntry(old(View()), key).changed
    {
      ghost var after := QueryStoreSpec.RemoveEntry(View(), key).store;
      RemoveAgrees(View(), key);
      var previous := |keys|;
      keys := Without(keys, key);
      ClearEntry(key);
      changed := |keys| != previous;
      assert View() == after;
    }

    /** Empty the row's entity, if the key ever had one. */
    method ClearEntry(key: Key)
      requires Distinct(entries)
      modifies entries.Values
      ensures Values() == if key in old(Values()) then old(Values())[key := None] else old(Values())
    {
      if key in entries {
        entries[key].value := None;
      }
    }

    /** Make the rows those of an authoritative snapshot. */
    method ReconcileSnapshot(snapshot: seq<Entry<T>>) returns (membershipChanged: bool)
      requires Valid()
      modifies this`keys, this`entries, entries.Values
      ensures Valid() && View() == Reconcile(old(View()), snapshot).store
      ensures membershipChanged == Reconcile(old(View()), snapshot).changed
      ensures EntitiesKept(old(entries), entries) && fresh(entries.Values - old(entries.Values))
    {
      ghost var after := Reconcile(View(), snapshot).store;
      ReconcileAgrees(View(), snapshot);
      var next := KeysOf(snapshot);
      ClearMissing(next);
      membershipChanged := keys != next;
      PutSnapshot(snapshot);
      keys := next;
      assert View() == after;
    }

    /** Empty the entities of members that the next key list leaves out. */
    method ClearMissing(next: seq<Key>)
      requires Valid()
      modifies entries.Values
      ensures Values() == ClearValues(old(Values()), set k | k in keys && k !in next)
    {
      for i := 0 to |keys|
        invariant Values() == ClearValues(old(Values()), set k | k in keys[..i] && k !in next)
      {
        if keys[i] !in next {
          assert keys[i] in old(View()).values;
          entries[keys[i]].value := None;
        }
        assert keys[..i + 1] == keys[..i] + [keys[i]];
      }
      assert keys[..|keys|] == keys;
    }

    method PutSnapshot(snapshot: seq<Entry<T>>)
      requires Distinct(entries)
      modifies this`entries, entries.Values
      ensures Distinct(entries) && Values() == PutValues(old(Values()), snapshot)
      ensures EntitiesKept(old(entries), entries) && fresh(entries.Values - old(entries.Values))
    {
      for i := 0 to |snapshot|
        invariant Distinct(entries) && Values() == PutValues(old(Values()), snapshot[..i])
        invariant EntitiesKept(old(entries), entries) && fresh(entries.Values - old(entries.Values))
      {
        PutEntry(snapshot[i].key, snapshot[i].value);
        assert snapshot[..i + 1][..i] == snapshot[..i];
      }
      assert snapshot[..|snapshot|] == snapshot;
    }

    method ApplyMapDiff(diff: MapDiff<T>) returns (changed: bool)
      requires Valid()
      modifies this`keys, this`entries, entries.Values
      ensures Valid() && View() == ApplyDiff(old(View()), diff).store
      ensures changed == ApplyDiff(old(View()), diff).changed
      ensures EntitiesKept(old(entries), entries) && fresh(entries.Values - old(entries.Values))
      decreases diff
    {
      match diff
      case Initial(entries) => changed := ReconcileSnapshot(entries);
      case Insert(key, value) => changed := UpdateEntry(key, value);
      case Update(key, _, newValue) => changed := UpdateEntry(key, newValue);
      case Remove(key, _) => changed := RemoveEntry(key);
      case Batch(changes) =>
        changed := false;
        for i := 0 to |changes|
          invariant Valid() && View() == ApplyBatch(old(View()), changes, i).store
          invariant changed == ApplyBatch(old(View()), changes, i).changed
          invariant EntitiesKept(old(this.entries), this.entries)
          invariant fresh(this.entries.Values - old(this.entries.Values))
        {
          var one := ApplyMapDiff(changes[i]);
          changed := changed || one;
        }
    }

    method SyncNotReadyState()
      modifies this`ready, this`state
      ensures View() == SyncNotReady(old(View()))
    {
      ready := false;
      state := NotReadyState(connection, state);
    }

    method PublishSnapshot(snapshot: seq<Entry<T>>)
      requires Valid()
      modifies this, entries.Values
      ensures Valid() && View() == Publish(old(View()), snapshot)
      ensures EntitiesKept(old(entries), entries) && fresh(entries.Values - old(entries.Values))
      ensures notifications == old(notifications) + 1
    {
      var _ := ReconcileSnapshot(snapshot);
      ghost var values := Values();
      ready := true;
      state := Loaded;
      notifications := notifications + 1;
      assert Values() == values;
    }

    /** One event of the queue; the collection notifies exactly when the specification says so. */
    method Apply(event: Event<T>)
      requires Valid()
      modifies this, entries.Values
      ensures Valid() && View() == ApplyEvent(old(View()), event).store
      ensures notifications == old(notifications) + (if ApplyEvent(old(View()), event).changed then 1 else 0)
      ensures EntitiesKept(old(entries), entries) && fresh(entries.Values - old(entries.Values))
    {
      match event
      case Map(diff) => ApplyMap(diff);
      case ReadySignal(answer, snapshot) => ApplyReady(answer, snapshot);
      case StatusSignal(status, snapshot) => ApplyStatus(status, snapshot);
      case ReadyError(message) => Fail(message, connection);
      case StatusError(message) => Fail(message, None);
    }

    /** A diff counts only while the store is ready. */
    method ApplyMap(diff: MapDiff<T>)
      requires Valid()
      modifies this, entries.Values
      ensures Valid() && View() == ApplyEvent(old(View()), Event.Map(diff)).store
      ensures notifications == old(notifications) + (if ApplyEvent(old(View()), Event.Map(diff)).changed then 1 else 0)
      ensures EntitiesKept(old(entries), entries) && fresh(entries.Values - old(entries.Values))
    {
      if ready {
        var changed := ApplyMapDiff(diff);
        if changed { notifications := notifications + 1; }
      }
    }

    /** An error ends readiness and keeps the rows as a stale value. */
    method Fail(message: string, known: Option<ConnectionStatus>)
      requires Valid()
      modifies this`ready, this`responseReady, this`connection, this`state, this`notifications
      ensures Valid() && View() == old(View()).(ready := false, responseReady := false, connection := known,
                                    state := Failed(message, HasValue(old(state))))
      ensures notifications == old(notifications) + 1
    {
      ready, responseReady, connection := false, false, known;
      state := Failed(message, HasValue(state));
      notifications := notifications + 1;
      assert Values() == old(Values());
    }

    method ApplyReady(answer: bool, snapshot: seq<Entry<T>>)
      requires Valid()
      modifies this, entries.Values
      ensures Valid() && View() == ApplyEvent(old(View()), ReadySignal(answer, snapshot)).store
      ensures notifications == old(notifications) + 1
      ensures EntitiesKept(old(entries), entries) && fresh(entries.Values - old(entries.Values))
    {
      responseReady := answer;
      assert Values() == old(Values());
      if answer && IsConnected(connection) {
        PublishSnapshot(snapshot);
      } else {
        SyncNotReadyState();
        notifications := notifications + 1;
      }
    }

    method ApplyStatus(status: ConnectionStatus, snapshot: seq<Entry<T>>)
      requires Valid()
      modifies this, entries.Values
      ensures Valid() && View() == ApplyEvent(old(View()), StatusSignal(status, snapshot)).store
      ensures notifications == old(notifications) + 1
      ensures EntitiesKept(old(entries), entries) && fresh(entries.Values - old(entries.Values))
    {
      var connected := status.Connected?;
      if !connected { responseReady := false; }
      connection := Some(status);
      assert Values() == old(Values());
      if responseReady && connected {
        PublishSnapshot(snapshot);
      } else {
        SyncNotReadyState();
        notifications := notifications + 1;
      }
    }
  }

  ghost predicate Distinct<T>(entries: map<Key, MapEntry<T>>) {
    forall j, k :: j in entries && k in entries && j != k ==> entries[j] != entries[k]
  }

  /** Every entity made for a key is still the entity of that key. */
  ghost predicate EntitiesKept<T>(before: map<Key, MapEntry<T>>, after: map<Key, MapEntry<T>>) {
    forall k :: k in before ==> k in after && after[k] == before[k]
  }

  // ---------------------------------------------------------------- the row list

  /** What a row was built from: its key and the entity it observes. */
  class Row<T> {
    const key: Key
    const entry: MapEntry<T>

    constructor (key: Key, entry: MapEntry<T>)
      ensures this.key == key && this.entry == entry
    {
      this.key := key;
      this.entry := entry;
    }
  }

  class FineQueryList<T> {
    const store: QueryStore<T>
    var rows: map<Key, Row<T>>

    /** Every row was built for its key on the entity the store has for that key. */
    ghost predicate OnStore()
      reads this, store
    {
      RowsFit(rows, store.entries)
    }

    constructor (store: QueryStore<T>)
      requires store.Valid()
      ensures this.store == store && OnStore() && (forall k :: k in rows <==> k in store.keys)
    {
      this.store := store;
      this.rows := map[];
      new;
      SyncRows();
    }

    /** Drop the rows of departed keys, keep the others as they are, build rows for new keys. */
    method SyncRows()
      requires store.Valid() && OnStore()
      modifies this
      ensures OnStore() && (forall k :: k in rows <==> k in store.keys)
      ensures forall k :: k in old(rows) && k in store.keys ==> rows[k] == old(rows)[k]
    {
      assert forall k :: k in store.keys ==> k in store.View().values && k in store.entries;
      rows := map k | k in rows && k in store.keys :: rows[k];
      AddMissing(store.keys, store.entries);
    }

    /** Build a row for every key that has none. */
    method AddMissing(keys: seq<Key>, entries: map<Key, MapEntry<T>>)
      requires RowsFit(rows, entries) && forall k :: k in keys ==> k in entries
      modifies this`rows
      ensures RowsFit(rows, entries)
      ensures forall k :: k in rows <==> k in old(rows) || k in keys
      ensures forall k :: k in old(rows) ==> rows[k] == old(rows)[k]
    {
      for i := 0 to |keys|
        invariant RowsFit(rows, entries)
        invariant forall k :: k in rows ==> k in old(rows) || k in keys
        invariant forall j :: 0 <= j < i ==> keys[j] in rows
        invariant forall k :: k in old(rows) ==> k in rows && rows[k] == old(rows)[k]
      {
        if keys[i] !in rows {
          var row := new Row(keys[i], entries[keys[i]]);
          rows := rows[keys[i] := row];
        }
      }
    }
  }

  ghost predicate RowsFit<T>(rows: map<Key, Row<T>>, entries: map<Key, MapEntry<T>>) {
    forall k :: k in rows ==> rows[k].key == k && k in entries && rows[k].entry == entries[k]
  }

  /**
   An event and the notification that follows it: afterwards the list has exactly the store's keys, each row
   built on the store's current entity, and rows of keys that stayed are the same rows.  An event without a
   notification leaves the list in that state on its own.
   */
  method DeliverAndObserve<T>(store: QueryStore<T>, list: FineQueryList<T>, event: Event<T>)
    requires list.store == store && store.Valid() && list.OnStore()
    requires forall k :: k in list.rows <==> k in store.keys
    modifies store, store.entries.Values, list
    ensures store.Valid() && store.View() == ApplyEvent(old(store.View()), event).store
    ensures list.OnStore() && (forall k :: k in list.rows <==> k in store.keys)
    ensures forall k :: k in old(list.rows) && k in store.keys ==> list.rows[k] == old(list.rows)[k]
  {
    var seen := store.notifications;
    ghost var before := store.View();
    EventKeysQuiet(before, event);
    store.Apply(event);
    if store.notifications != seen {
      list.SyncRows();
    }
  }

  /** Without a notification the key list has not moved. */
  lemma EventKeysQuiet<T>(s: Store<T>, event: Event<T>)
    requires Agrees(s)
    ensures !ApplyEvent(s, event).changed ==> ApplyEvent(s, event).store.keys == s.keys
  {
    if event.Map? { DiffKeepsAgreement(s, event.diff); }
  }
}
