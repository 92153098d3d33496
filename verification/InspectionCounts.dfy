/** What an inspection counts, and when it gets through, in terms of the JSON values of a response. */
module InspectionCounts {
  import opened Common
  import opened Fingerprint
  import opened Inspection

  // ---------------------------------------------------------------- what one comparison counts

  /** Places at which both values have a leaf. */
  function Shared(old_: Json, new_: Json): set<Path> {
    set p | p in Leaves(old_, []) && p in Leaves(new_, [])
  }

  /** Places at which both values have the same leaf. */
  function Unmoved(old_: Json, new_: Json): set<Path> {
    set p | p in Shared(old_, new_) && Leaves(old_, [])[p] == Leaves(new_, [])[p]
  }

  datatype Sums = Sums(properties: int, changed: int, removed: int, upserts: int, deletes: int)

  const NOTHING := Sums(0, 0, 0, 0, 0)

  function Plus(a: Sums, b: Sums): Sums {
    Sums(a.properties + b.properties, a.changed + b.changed, a.removed + b.removed, a.upserts + b.upserts,
         a.deletes + b.deletes)
  }

  /** A value in place of another, or of none: its leaves, those that are not as before, and those that are gone. */
  function Replacing(old_: Option<Json>, new_: Json): Sums {
    match old_
    case None => Sums(LeafCount(new_), LeafCount(new_), 0, 0, 0)
    case Some(o) =>
      Sums(LeafCount(new_), LeafCount(new_) - |Unmoved(o, new_)|, LeafCount(o) - |Shared(o, new_)|, 0, 0)
  }

  function Entry(view: View, id: Id): Option<Json> {
    if id in view then view[id] else None
  }

  function SumsOf(view: View, c: Change): Sums {
    match c
    case Upsert(item) =>
      if item.json.None? then NOTHING else Plus(Replacing(Entry(view, item.id), item.json.value), Sums(0, 0, 0, 1, 0))
    case Delete(id) =>
      Sums(0, 0, if Entry(view, id).Some? then LeafCount(view[id].value) else 0, 0, 1)
    case WindowOrder => NOTHING
  }

  /** Each change counted against the data it meets. */
  function SumsOfAll(view: View, changes: seq<Change>): Sums
    decreases |changes|
  {
    if changes == [] then NOTHING
    else Plus(SumsOf(view, changes[0]), SumsOfAll(ApplyChange(view, changes[0]), changes[1..]))
  }

  function Counters(t: Tally): Sums { Sums(t.properties, t.changed, t.removed, t.upserts, t.deletes) }

  lemma Differences(previous: LeafMap, current: LeafMap)
    ensures |ChangedLeaves(Some(previous), current)|
            == |current| - |set p | p in previous && p in current && previous[p] == current[p]|
    ensures |RemovedLeaves(Some(previous), current)| == |previous| - |set p | p in previous && p in current|
  {
    var same := set p | p in previous && p in current && previous[p] == current[p];
    var shared := set p | p in previous && p in current;
    ChangedPart(previous, current, same);
    RemovedPart(previous, current, shared);
    TwoParts(ChangedLeaves(Some(previous), current), same, current.Keys);
    TwoParts(RemovedLeaves(Some(previous), current), shared, previous.Keys);
  }

  lemma ChangedPart(previous: LeafMap, current: LeafMap, same: set<Path>)
    requires same == set p | p in previous && p in current && previous[p] == current[p]
    ensures ChangedLeaves(Some(previous), current) + same == current.Keys
    ensures ChangedLeaves(Some(previous), current) !! same
  {
    forall p ensures p in ChangedLeaves(Some(previous), current) + same <==> p in current.Keys {
    }
  }

  lemma RemovedPart(previous: LeafMap, current: LeafMap, shared: set<Path>)
    requires shared == set p | p in previous && p in current
    ensures RemovedLeaves(Some(previous), current) + shared == previous.Keys
    ensures RemovedLeaves(Some(previous), current) !! shared
  {
    forall p ensures p in RemovedLeaves(Some(previous), current) + shared <==> p in previous.Keys {
    }
  }

  lemma TwoParts<T>(a: set<T>, b: set<T>, all: set<T>)
    requires a !! b && a + b == all
    ensures |a| == |all| - |b|
  {
  }

  lemma AllNew(current: LeafMap)
    ensures ChangedLeaves(None, current) == current.Keys && RemovedLeaves(None, current) == {}
  {
  }

  function LeavesOf(v: Option<Json>): Option<LeafMap> {
    if v.Some? then Some(Leaves(v.value, [])) else None
  }

  lemma ComparedCounts(t: Tally, old_: Option<Json>, new_: Json, item: Option<Id>)
    requires WellFormed(new_) && (old_.Some? ==> WellFormed(old_.value))
    ensures var r := Compared(t, LeavesOf(old_), Leaves(new_, []), item);
            && Counters(r) == Plus(Counters(t), Replacing(old_, new_)) && |r.keys| == |t.keys| + LeafCount(new_)
            && forall slot :: slot in r.keys <==>
                                slot in t.keys || (slot.item == item && slot.path in Leaves(new_, []))
  {
    LeavesSize(new_, []);
    SlotsOfLeaves(item, Leaves(new_, []));
    ReplacingCounts(old_, new_);
  }

  lemma ReplacingCounts(old_: Option<Json>, new_: Json)
    requires WellFormed(new_) && (old_.Some? ==> WellFormed(old_.value))
    ensures Replacing(old_, new_).changed == |ChangedLeaves(LeavesOf(old_), Leaves(new_, []))|
    ensures Replacing(old_, new_).removed == |RemovedLeaves(LeavesOf(old_), Leaves(new_, []))|
  {
    LeavesSize(new_, []);
    match old_
    case None => AllNew(Leaves(new_, []));
    case Some(o) =>
      LeavesSize(o, []);
      Differences(Leaves(o, []), Leaves(new_, []));
      assert Unmoved(o, new_)
          == set p | p in Leaves(o, []) && p in Leaves(new_, []) && Leaves(o, [])[p] == Leaves(new_, [])[p];
  }

  lemma {:induction false} SlotsOfLeaves(item: Option<Id>, leaves: LeafMap)
    ensures |Slots(item, leaves)| == |leaves|
    decreases |leaves|
  {
    if leaves != map[] {
      var p :| p in leaves;
      assert (leaves - {p}).Keys == leaves.Keys - {p};
      SlotsOfLeaves(item, leaves - {p});
      assert Slots(item, leaves) == Slots(item, leaves - {p}) + {Slot(item, p)};
    }
  }

  // ---------------------------------------------------------------- whole responses

  predicate NamesSlot(c: Change, slot: Slot) {
    c.Upsert? && c.item.json.Some? && slot.item == Some(c.item.id) && slot.path in Leaves(c.item.json.value, [])
  }

  predicate NamesSlotIn(changes: seq<Change>, slot: Slot) {
    changes != [] && (NamesSlot(changes[0], slot) || NamesSlotIn(changes[1..], slot))
  }

  lemma ChangeCounts(t: Tally, items: ItemLeaves, view: View, c: Change)
    requires WellFormedView(view) && WellFormedChange(c) && Fully(items, view) && t.complete
    requires InspectChange(t, items, c).tally.complete
    ensures var r := InspectChange(t, items, c).tally;
            && Counters(r) == Plus(Counters(t), SumsOf(view, c))
            && |r.keys| == |t.keys| + SumsOf(view, c).properties
            && forall slot :: slot in r.keys <==> slot in t.keys || NamesSlot(c, slot)
  {
    match c
    case Upsert(item) => UpsertCounts(t, items, view, item);
    case Delete(id) => DeleteCounts(t, items, view, id);
    case WindowOrder =>
  }

  lemma UpsertCounts(t: Tally, items: ItemLeaves, view: View, item: Item)
    requires WellFormedView(view) && WellFormedChange(Upsert(item)) && Fully(items, view) && t.complete
    requires InspectUpsert(t, items, item).tally.complete
    ensures var r := InspectUpsert(t, items, item).tally;
            && Counters(r) == Plus(Counters(t), SumsOf(view, Upsert(item)))
            && |r.keys| == |t.keys| + SumsOf(view, Upsert(item)).properties
            && forall slot :: slot in r.keys <==> slot in t.keys || NamesSlot(Upsert(item), slot)
  {
    var counted, old_ := t.(upserts := t.upserts + 1), Entry(view, item.id);
    UpsertIsCompared(t, items, item);
    RetainedIsEntry(items, view, item.id);
    ComparedCounts(counted, old_, item.json.value, Some(item.id));
    UpsertAdded(t, Replacing(old_, item.json.value));
  }

  lemma UpsertAdded(t: Tally, replaced: Sums)
    ensures Plus(Counters(t.(upserts := t.upserts + 1)), replaced)
            == Plus(Counters(t), Plus(replaced, Sums(0, 0, 0, 1, 0)))
  {
  }

  lemma UpsertIsCompared(t: Tally, items: ItemLeaves, item: Item)
    requires WellFormedChange(Upsert(item)) && t.complete && InspectUpsert(t, items, item).tally.complete
    ensures item.json.Some?
    ensures InspectUpsert(t, items, item).tally
            == Compared(t.(upserts := t.upserts + 1), Lookup(items, item.id), Leaves(item.json.value, []),
                        Some(item.id))
  {
    FlattenWhole(item.json.value);
  }

  lemma RetainedIsEntry(items: ItemLeaves, view: View, id: Id)
    requires WellFormedView(view) && Fully(items, view)
    ensures Lookup(items, id) == LeavesOf(Entry(view, id))
    ensures Entry(view, id).Some? ==> WellFormed(Entry(view, id).value)
  {
    if id in items { assert Fingerprints(items[id], view[id]); }
    if id in view { assert WellFormedEntry(view[id]); }
  }

  lemma DeleteCounts(t: Tally, items: ItemLeaves, view: View, id: Id)
    requires WellFormedView(view) && Fully(items, view)
    ensures var r := InspectDelete(t, items, id).tally;
            Counters(r) == Plus(Counters(t), SumsOf(view, Delete(id))) && r.keys == t.keys
  {
    if id in items {
      assert Fingerprints(items[id], view[id]);
      LeavesSize(view[id].value, []);
    }
  }

  /** The counters of an inspection that gets through are the sums over its changes. */
  lemma {:induction false} ChangesCounts(t: Tally, items: ItemLeaves, view: View, changes: seq<Change>)
    requires WellFormedView(view) && WellFormedChanges(changes) && Fully(items, view) && t.complete
    requires InspectChanges(t, items, changes).tally.complete
    ensures var r := InspectChanges(t, items, changes).tally;
            && Counters(r) == Plus(Counters(t), SumsOfAll(view, changes))
            && |r.keys| == |t.keys| + SumsOfAll(view, changes).properties
            && forall slot :: slot in r.keys <==> slot in t.keys || NamesSlotIn(changes, slot)
    decreases |changes|
  {
    if changes != [] {
      WellFormedStep(view, changes);
      ChangeCounts(t, items, view, changes[0]);
      ChangeInspected(t, items, view, changes[0]);
      var next := InspectChange(t, items, changes[0]);
      ChangesCounts(next.tally, next.items, ApplyChange(view, changes[0]), changes[1..]);
    }
  }

  /**
   A response that is fully inspected from a baseline of all the client's data counts: the leaves of the values it
   brings, those of them that are not as they were, the leaves that are gone, its upserts and its deletes; and its
   keys are the leaves it brings, each with its item.
   */
  lemma ResponseCounts(items: ItemLeaves, view: View, response: Response)
    requires WellFormedView(view) && WellFormedChanges(Changes(response)) && Fully(items, view)
    requires InspectResponse(items, response).tally.complete
    ensures var r, from := InspectResponse(items, response).tally, if response.sequence == 0 then map[] else view;
            && Counters(r) == SumsOfAll(from, Changes(response)) && |r.keys| == r.properties
            && forall slot :: slot in r.keys <==> NamesSlotIn(Changes(response), slot)
  {
    if response.sequence == 0 {
      FreshCounts(FreshTally().(same := false), map[], map[], Changes(response));
    } else {
      FreshCounts(FreshTally(), items, view, Changes(response));
    }
  }

  lemma FreshCounts(t: Tally, items: ItemLeaves, view: View, changes: seq<Change>)
    requires WellFormedView(view) && WellFormedChanges(changes) && Fully(items, view)
    requires t.(same := true) == FreshTally() && InspectChanges(t, items, changes).tally.complete
    ensures var r := InspectChanges(t, items, changes).tally;
            && Counters(r) == SumsOfAll(view, changes) && |r.keys| == r.properties
            && forall slot :: slot in r.keys <==> NamesSlotIn(changes, slot)
  {
    ChangesCounts(t, items, view, changes);
    FromNothing(t, SumsOfAll(view, changes));
  }

  lemma ReportIsCompared(previous: Option<LeafMap>, payload: Json)
    requires WellFormed(payload) && InspectReport(previous, payload).tally.complete
    ensures InspectReport(previous, payload).tally == Compared(FreshTally(), previous, Leaves(payload, []), None)
  {
    FlattenWhole(payload);
  }

  /** The same for a report, which is compared with the one before it. */
  lemma ReportCounts(before: Option<Json>, payload: Json)
    requires WellFormed(payload) && (before.Some? ==> WellFormed(before.value))
    requires InspectReport(LeavesOf(before), payload).tally.complete
    ensures var r := InspectReport(LeavesOf(before), payload).tally;
            && Counters(r) == Replacing(before, payload) && |r.keys| == LeafCount(payload)
            && forall slot :: slot in r.keys <==> slot.item == None && slot.path in Leaves(payload, [])
  {
    ReportIsCompared(LeavesOf(before), payload);
    ComparedCounts(FreshTally(), before, payload, None);
    FromNothing(FreshTally(), Replacing(before, payload));
  }

  lemma FromNothing(t: Tally, sums: Sums)
    requires t.(same := true) == FreshTally()
    ensures Plus(Counters(t), sums) == sums && |t.keys| == 0 && forall slot :: slot !in t.keys
  {
  }

  // ---------------------------------------------------------------- when an inspection gets through

  /** The change stays within the bounds, `slots` leaves having been counted and the items of `ids` being retained. */
  predicate AcceptableOne(slots: nat, ids: set<Id>, c: Change) {
    c.Upsert? ==>
      && |c.item.id| <= 1024 && c.item.json.Some?
      && Height(c.item.json.value) <= 64 && slots + LeafCount(c.item.json.value) <= 4096
      && (c.item.id in ids || |ids| < 4096)
  }

  function SlotsAfter(slots: nat, c: Change): nat {
    if c.Upsert? && c.item.json.Some? then slots + LeafCount(c.item.json.value) else slots
  }

  function IdsAfter(ids: set<Id>, c: Change): set<Id> {
    match c
    case Upsert(item) => ids + {item.id}
    case Delete(id) => ids - {id}
    case WindowOrder => ids
  }

  predicate Acceptable(slots: nat, ids: set<Id>, changes: seq<Change>)
    decreases |changes|
  {
    changes != [] ==>
      && AcceptableOne(slots, ids, changes[0])
      && Acceptable(SlotsAfter(slots, changes[0]), IdsAfter(ids, changes[0]), changes[1..])
  }

  /** An inspection gets through exactly when its changes stay within the bounds. */
  lemma {:induction false} GetsThroughIff(t: Tally, items: ItemLeaves, changes: seq<Change>)
    requires WellFormedChanges(changes) && t.complete && |t.keys| <= 4096
    ensures InspectChanges(t, items, changes).tally.complete <==> Acceptable(|t.keys|, items.Keys, changes)
    decreases |changes|
  {
    if changes != [] {
      assert WellFormedChange(changes[0]);
      var next := InspectChange(t, items, changes[0]);
      ChangeGetsThrough(t, items, changes[0]);
      if next.tally.complete { GetsThroughIff(next.tally, next.items, changes[1..]); }
    }
  }

  lemma ChangeGetsThrough(t: Tally, items: ItemLeaves, c: Change)
    requires t.complete && WellFormedChange(c) && |t.keys| <= 4096
    ensures var r := InspectChange(t, items, c);
            && (r.tally.complete <==> AcceptableOne(|t.keys|, items.Keys, c))
            && (r.tally.complete ==>
                  |r.tally.keys| == SlotsAfter(|t.keys|, c) <= 4096 && r.items.Keys == IdsAfter(items.Keys, c))
  {
    if c.Upsert? { UpsertGetsThrough(t, items, c.item); }
  }

  lemma UpsertGetsThrough(t: Tally, items: ItemLeaves, item: Item)
    requires t.complete && WellFormedChange(Upsert(item)) && |t.keys| <= 4096
    ensures var r := InspectUpsert(t, items, item);
            && (r.tally.complete <==>
                  && |item.id| <= 1024 && item.json.Some? && Height(item.json.value) <= 64
                  && |t.keys| + LeafCount(item.json.value) <= 4096 && (item.id in items || |items| < 4096))
            && (r.tally.complete ==>
                  |r.tally.keys| == |t.keys| + LeafCount(item.json.value) && r.items.Keys == items.Keys + {item.id})
  {
    if item.json.Some? {
      FlattenWhole(item.json.value);
      LeavesSize(item.json.value, []);
      SlotsOfLeaves(Some(item.id), Leaves(item.json.value, []));
      assert |items.Keys| == |items|;
    }
  }

  // ---------------------------------------------------------------- what a response does to the client's data

  /** The item is the last one with this id. */
  predicate IsLast(items: seq<Item>, i: int, id: Id) {
    0 <= i < |items| && items[i].id == id && forall j :: i < j < |items| ==> items[j].id != id
  }

  /** In the older form the deletes come last, and an item that is not deleted has its last upsert, if any. */
  lemma DeletesComeLast(view: View, response: Response, id: Id)
    requires response.changes == [] && response.sequence != 0
    ensures id in ApplyResponse(view, response) <==>
              && id !in response.deletes
              && (id in view || exists i :: 0 <= i < |response.upserts| && response.upserts[i].id == id)
    ensures forall i :: IsLast(response.upserts, i, id) && id !in response.deletes ==>
                          ApplyResponse(view, response)[id] == response.upserts[i].json
  {
    ApplyAppend(view, Upserts(response.upserts), Deletes(response.deletes));
    AfterUpserts(view, response.upserts, id);
    AfterDeletes(ApplyChanges(view, Upserts(response.upserts)), response.deletes, id);
  }

  lemma {:induction false} ApplyAppend(view: View, a: seq<Change>, b: seq<Change>)
    ensures ApplyChanges(view, a + b) == ApplyChanges(ApplyChanges(view, a), b)
    decreases |a|
  {
    if a == [] {
      assert a + b == b;
    } else {
      assert (a + b)[0] == a[0] && (a + b)[1..] == a[1..] + b;
      ApplyAppend(ApplyChange(view, a[0]), a[1..], b);
    }
  }

  lemma {:induction false} AfterUpserts(view: View, items: seq<Item>, id: Id)
    ensures var w := ApplyChanges(view, Upserts(items));
            && (id in w <==> id in view || exists i :: 0 <= i < |items| && items[i].id == id)
            && ((forall j :: 0 <= j < |items| ==> items[j].id != id) && id in view ==> w[id] == view[id])
            && forall i :: IsLast(items, i, id) ==> w[id] == items[i].json
    decreases |items|
  {
    if items != [] {
      var rest := items[1..];
      assert Upserts(items)[1..] == Upserts(rest);
      AfterUpserts(view[items[0].id := items[0].json], rest, id);
      if i :| 0 <= i < |items| && items[i].id == id { assert i > 0 ==> rest[i - 1].id == id; }
      if i :| 0 <= i < |rest| && rest[i].id == id { assert items[i + 1].id == id; }
      forall i | IsLast(items, i, id)
        ensures ApplyChanges(view, Upserts(items))[id] == items[i].json
      {
        assert i > 0 ==> rest[i - 1] == items[i] && IsLast(rest, i - 1, id);
      }
    }
  }

  lemma {:induction false} AfterDeletes(view: View, ids: seq<Id>, id: Id)
    ensures var w := ApplyChanges(view, Deletes(ids));
            (id in w <==> id in view && id !in ids) && (id in w ==> w[id] == view[id])
    decreases |ids|
  {
    if ids != [] {
      assert Deletes(ids)[1..] == Deletes(ids[1..]);
      AfterDeletes(view - {ids[0]}, ids[1..], id);
      assert ids == [ids[0]] + ids[1..];
    }
  }
}
