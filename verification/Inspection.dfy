/**
 Inspection of one outgoing frame: what is compared, what is retained, and when a frame counts as unchanged.
 A leaf key carries the item it belongs to; both hashes of the source are injective here.
 */
module Inspection {
  import opened Common
  import opened Fingerprint

  const MAX_INSPECTED_ID_BYTES: nat := 1024

  /** Identifiers, one character for each byte. */
  type Id = string

  /** An item of a response; `json` is `None` when it cannot be serialized. */
  datatype Item = Item(id: Id, json: Option<Json>)

  datatype Change = Upsert(item: Item) | Delete(id: Id) | WindowOrder

  datatype Response = Response(sequence: nat, changes: seq<Change>, upserts: seq<Item>, deletes: seq<Id>)

  datatype Slot = Slot(item: Option<Id>, path: Path)

  type ItemLeaves = map<Id, LeafMap>

  datatype Tally = Tally(complete: bool, same: bool, properties: nat, changed: nat, removed: nat,
                         upserts: nat, deletes: nat, keys: multiset<Slot>)

  datatype Inspected = Inspected(tally: Tally, items: ItemLeaves)

  // ---------------------------------------------------------------- what one comparison counts

  function ChangedLeaves(previous: Option<LeafMap>, current: LeafMap): set<Path> {
    set p | p in current && !(previous.Some? && p in previous.value && previous.value[p] == current[p])
  }

  function RemovedLeaves(previous: Option<LeafMap>, current: LeafMap): set<Path> {
    if previous.None? then {} else previous.value.Keys - current.Keys
  }

  function Slots(item: Option<Id>, leaves: LeafMap): set<Slot> {
    set p | p in leaves :: Slot(item, p)
  }

  function AddTo(t: Tally, properties: nat, changed: nat, removed: nat, same: bool, slots: multiset<Slot>): Tally {
    t.(properties := t.properties + properties, changed := t.changed + changed, removed := t.removed + removed,
    same := t.same && same, keys := t.keys + slots)
  }

  function Compared(t: Tally, previous: Option<LeafMap>, current: LeafMap, item: Option<Id>): Tally {
    AddTo(t, |current|, |ChangedLeaves(previous, current)|, |RemovedLeaves(previous, current)|,
          previous == Some(current), multiset(Slots(item, current)))
  }

  function Lookup(items: ItemLeaves, id: Id): Option<LeafMap> {
    if id in items then Some(items[id]) else None
  }

  /** An item the inspection refuses: too long an id, not serializable, or over one of the bounds. */
  predicate Refused(t: Tally, items: ItemLeaves, item: Item) {
    || |item.id| > MAX_INSPECTED_ID_BYTES
    || item.json.None?
    || var scan := Flatten(item.json.value, [], 0, map[]);
       || !scan.complete
       || |t.keys| + |scan.leaves| > MAX_PROPERTIES
       || (|items| >= MAX_PROPERTIES && item.id !in items)
  }

  function InspectUpsert(t: Tally, items: ItemLeaves, item: Item): Inspected {
    var counted := t.(upserts := t.upserts + 1);
    if Refused(t, items, item) then Inspected(counted.(complete := false), items)
    else
      var leaves := Flatten(item.json.value, [], 0, map[]).leaves;
      Inspected(Compared(counted, Lookup(items, item.id), leaves, Some(item.id)), items[item.id := leaves])
  }

  function InspectDelete(t: Tally, items: ItemLeaves, id: Id): Inspected {
    var counted := t.(deletes := t.deletes + 1);
    if id in items then
      Inspected(counted.(removed := t.removed + |items[id]|, same := false), items - {id})
    else Inspected(counted, items)
  }

  function InspectChange(t: Tally, items: ItemLeaves, c: Change): Inspected {
    match c
    case Upsert(item) => InspectUpsert(t, items, item)
    case Delete(id) => InspectDelete(t, items, id)
    case WindowOrder => Inspected(t.(same := false), items)
  }

  /** The changes in order, up to the first one that is refused. */
  function InspectChanges(t: Tally, items: ItemLeaves, changes: seq<Change>): Inspected
    decreases |changes|
  {
    if changes == [] then Inspected(t, items)
    else
      var next := InspectChange(t, items, changes[0]);
      if !next.tally.complete then next else InspectChanges(next.tally, next.items, changes[1..])
  }

  lemma {:induction false} InspectAppend(t: Tally, items: ItemLeaves, a: seq<Change>, b: seq<Change>)
    requires t.complete
    ensures var first := InspectChanges(t, items, a);
            InspectChanges(t, items, a + b)
            == if first.tally.complete then InspectChanges(first.tally, first.items, b) else first
    decreases |a|
  {
    if a == [] {
      assert a + b == b;
    } else {
      assert (a + b)[0] == a[0] && (a + b)[1..] == a[1..] + b;
      var next := InspectChange(t, items, a[0]);
      if next.tally.complete { InspectAppend(next.tally, next.items, a[1..], b); }
    }
  }

  /** The authoritative representation: ordered changes when there are any, else upserts then deletes. */
  function Changes(response: Response): (changes: seq<Change>)
    ensures response.changes != [] ==> changes == response.changes
  {
    if response.changes != [] then response.changes else Upserts(response.upserts) + Deletes(response.deletes)
  }

  function Upserts(items: seq<Item>): (changes: seq<Change>)
    ensures |changes| == |items| && forall i :: 0 <= i < |items| ==> changes[i] == Upsert(items[i])
  {
    seq(|items|, i requires 0 <= i < |items| => Upsert(items[i]))
  }

  function Deletes(ids: seq<Id>): (changes: seq<Change>)
    ensures |changes| == |ids| && forall i :: 0 <= i < |ids| ==> changes[i] == Delete(ids[i])
  {
    seq(|ids|, i requires 0 <= i < |ids| => Delete(ids[i]))
  }

  function FreshTally(): Tally { Tally(true, true, 0, 0, 0, 0, 0, multiset{}) }

  /** A query or view response; sequence 0 is a fresh snapshot. */
  function InspectResponse(items: ItemLeaves, response: Response): Inspected {
    if response.sequence == 0 then InspectChanges(FreshTally().(same := false), map[], Changes(response))
    else InspectChanges(FreshTally(), items, Changes(response))
  }

  datatype InspectedReport = InspectedReport(tally: Tally, leaves: LeafMap)

  function InspectReport(previous: Option<LeafMap>, payload: Json): InspectedReport {
    var scan := Flatten(payload, [], 0, map[]);
    InspectedReport(Compared(FreshTally().(complete := scan.complete), previous, scan.leaves, None), scan.leaves)
  }

  // ---------------------------------------------------------------- the form the source runs

  /** The record an inspection fills in place while it walks over a frame. */
  class Inspector {
    var tally: Tally

    constructor ()
      ensures tally == FreshTally()
    {
      tally := FreshTally();
    }

    method SetComplete(complete: bool)
      modifies this
      ensures tally == old(tally).(complete := complete)
    {
      tally := tally.(complete := complete);
    }

    method NotTheSame()
      modifies this
      ensures tally == old(tally).(same := false)
    {
      tally := tally.(same := false);
    }

    method Compare(previous: Option<LeafMap>, current: LeafMap, item: Option<Id>)
      modifies this
      ensures tally == Compared(old(tally), previous, current, item)
    {
      var changedLeaves, removedLeaves := |ChangedLeaves(previous, current)|, |RemovedLeaves(previous, current)|;
      var slots := multiset(Slots(item, current));
      Add(|current|, changedLeaves, removedLeaves, previous == Some(current), slots);
    }

    method Add(properties: nat, changed: nat, removed: nat, same: bool, slots: multiset<Slot>)
      modifies this
      ensures tally == AddTo(old(tally), properties, changed, removed, same, slots)
    {
      tally := tally.(properties := tally.properties + properties);
      tally := tally.(changed := tally.changed + changed, removed := tally.removed + removed);
      tally := tally.(same := tally.same && same, keys := tally.keys + slots);
    }

    method Upsert(item: Item, items: ItemLeaves) returns (out: ItemLeaves)
      modifies this
      ensures tally == InspectUpsert(old(tally), items, item).tally
      ensures out == InspectUpsert(old(tally), items, item).items
    {
      out := items;
      tally := tally.(upserts := tally.upserts + 1);
      if |item.id| > MAX_INSPECTED_ID_BYTES || item.json.None? {
        tally := tally.(complete := false);
        return;
      }
      var scanned, leaves := FingerprintLeaves(item.json.value, [], 0, map[]);
      if !scanned || |tally.keys| + |leaves| > MAX_PROPERTIES || (|items| >= MAX_PROPERTIES && item.id !in items) {
        assert Refused(old(tally), items, item);
        tally := tally.(complete := false);
        return;
      }
      assert !Refused(old(tally), items, item);
      Compare(Lookup(items, item.id), leaves, Some(item.id));
      out := items[item.id := leaves];
    }

    method Delete(id: Id, items: ItemLeaves) returns (out: ItemLeaves)
      modifies this
      ensures Inspected(tally, out) == InspectDelete(old(tally), items, id)
    {
      out := items;
      tally := tally.(deletes := tally.deletes + 1);
      if id in items {
        tally := tally.(removed := tally.removed + |items[id]|, same := false);
        out := items - {id};
      }
    }

    method Query(response: Response, items: ItemLeaves) returns (out: ItemLeaves)
      requires tally.complete
      modifies this
      ensures Inspected(tally, out) == InspectChanges(old(tally), items, Changes(response))
    {
      if response.changes == [] {
        InspectAppend(tally, items, Upserts(response.upserts), Deletes(response.deletes));
        out := UpsertAll(response.upserts, items);
        if !tally.complete { return; }
        out := DeleteAll(response.deletes, out);
      } else {
        out := Ordered(response.changes, items);
      }
    }

    method Ordered(changes: seq<Change>, items: ItemLeaves) returns (out: ItemLeaves)
      requires tally.complete
      modifies this
      ensures Inspected(tally, out) == InspectChanges(old(tally), items, changes)
    {
      out := items;
      for i := 0 to |changes|
        invariant tally.complete
        invariant InspectChanges(old(tally), items, changes) == InspectChanges(tally, out, changes[i..])
      {
        ghost var rest := changes[i..];
        assert rest[0] == changes[i] && rest[1..] == changes[i + 1..];
        match changes[i] {
          case Upsert(item) => out := Upsert(item, out);
          case Delete(id) => out := Delete(id, out);
          case WindowOrder => tally := tally.(same := false);
        }
        if !tally.complete { return; }
      }
    }

    method UpsertAll(upserts: seq<Item>, items: ItemLeaves) returns (out: ItemLeaves)
      requires tally.complete
      modifies this
      ensures Inspected(tally, out) == InspectChanges(old(tally), items, Upserts(upserts))
    {
      out := items;
      ghost var all := Upserts(upserts);
      for i := 0 to |upserts|
        invariant tally.complete
        invariant InspectChanges(old(tally), items, all) == InspectChanges(tally, out, all[i..])
      {
        ghost var rest := all[i..];
        assert rest[0] == Change.Upsert(upserts[i]) && rest[1..] == all[i + 1..];
        out := Upsert(upserts[i], out);
        if !tally.complete { return; }
      }
    }

    method DeleteAll(deletes: seq<Id>, items: ItemLeaves) returns (out: ItemLeaves)
      requires tally.complete
      modifies this
      ensures Inspected(tally, out) == InspectChanges(old(tally), items, Deletes(deletes))
    {
      out := items;
      ghost var all := Deletes(deletes);
      for i := 0 to |deletes|
        invariant tally.complete
        invariant InspectChanges(old(tally), items, all) == InspectChanges(tally, out, all[i..])
      {
        ghost var rest := all[i..];
        assert rest[0] == Change.Delete(deletes[i]) && rest[1..] == all[i + 1..];
        out := Delete(deletes[i], out);
      }
    }
  }

  // ---------------------------------------------------------------- the data behind the fingerprints

  /** The items a client holds after replaying the responses; `None` stands for an item without a JSON form. */
  type View = map<Id, Option<Json>>

  ghost predicate SameEntry(a: Option<Json>, b: Option<Json>) {
    if a.Some? && b.Some? then SameJson(a.value, b.value) else a == b
  }

  ghost predicate SameView(v: View, w: View) {
    v.Keys == w.Keys && forall id :: id in v ==> SameEntry(v[id], w[id])
  }

  function ApplyChange(view: View, c: Change): View {
    match c
    case Upsert(item) => view[item.id := item.json]
    case Delete(id) => view - {id}
    case WindowOrder => view
  }

  function ApplyChanges(view: View, changes: seq<Change>): View
    decreases |changes|
  {
    if changes == [] then view else ApplyChanges(ApplyChange(view, changes[0]), changes[1..])
  }

  function ApplyResponse(view: View, response: Response): View {
    ApplyChanges(if response.sequence == 0 then map[] else view, Changes(response))
  }

  /** The change leaves the client's data and its order as they are. */
  ghost predicate NoOp(view: View, c: Change) {
    !c.WindowOrder? && SameView(ApplyChange(view, c), view)
  }

  ghost predicate AllNoOps(view: View, changes: seq<Change>)
    decreases |changes|
  {
    changes == [] || (NoOp(view, changes[0]) && AllNoOps(ApplyChange(view, changes[0]), changes[1..]))
  }

  ghost predicate WellFormedEntry(entry: Option<Json>) {
    entry.Some? ==> WellFormed(entry.value)
  }

  ghost predicate WellFormedView(view: View) {
    forall id :: id in view ==> WellFormedEntry(view[id])
  }

  ghost predicate WellFormedChange(c: Change) {
    c.Upsert? ==> WellFormedEntry(c.item.json)
  }

  ghost predicate WellFormedChanges(changes: seq<Change>) {
    forall i :: 0 <= i < |changes| ==> WellFormedChange(changes[i])
  }

  /** The leaves retained for an item are those of the client's value. */
  ghost predicate Fingerprints(leaves: LeafMap, entry: Option<Json>) {
    entry.Some? && leaves == Leaves(entry.value, [])
  }

  /** What is retained is right, though items may be missing. */
  ghost predicate Partly(items: ItemLeaves, view: View) {
    forall id :: id in items ==> id in view && Fingerprints(items[id], view[id])
  }

  ghost predicate Fully(items: ItemLeaves, view: View) {
    Partly(items, view) && items.Keys == view.Keys
  }

  // ---------------------------------------------------------------- one change

  /** What the inspection itself takes for "nothing changed". */
  ghost predicate Quiet(items: ItemLeaves, c: Change) {
    match c
    case Upsert(item) => item.json.Some? && Lookup(items, item.id) == Some(Leaves(item.json.value, []))
    case Delete(id) => id !in items
    case WindowOrder => false
  }

  /** A change the inspection misjudges: it concerns an item whose fingerprint was dropped. */
  ghost predicate Blind(items: ItemLeaves, view: View, c: Change) {
    match c
    case Upsert(item) => item.id in view && item.id !in items && SameEntry(item.json, view[item.id])
    case Delete(id) => id in view && id !in items
    case WindowOrder => false
  }

  lemma SameEntryReflexive(a: Option<Json>)
    requires WellFormedEntry(a)
    ensures SameEntry(a, a)
  {
    if a.Some? { EqualLeavesEqualValues(a.value, a.value, []); }
  }

  /** A change is a no-op exactly when the one entry it names stays as it was. */
  lemma NoOpIsLocal(view: View, c: Change)
    requires WellFormedView(view)
    ensures NoOp(view, c) <==>
              match c
              case Upsert(item) => item.id in view && SameEntry(item.json, view[item.id])
              case Delete(id) => id !in view
              case WindowOrder => false
  {
    forall id | id in view ensures SameEntry(view[id], view[id]) { SameEntryReflexive(view[id]); }
    match c
    case Upsert(item) =>
      var w := ApplyChange(view, c);
      assert w[item.id] == item.json;
      if item.id in view && SameEntry(item.json, view[item.id]) {
        assert SameView(w, view);
      }
    case Delete(id) =>
      if id !in view { assert view - {id} == view; }
    case WindowOrder =>
  }

  lemma SameEntryByLeaves(a: Json, b: Json)
    requires WellFormed(a) && WellFormed(b)
    ensures SameJson(a, b) <==> Leaves(a, []) == Leaves(b, [])
  {
    if SameJson(a, b) { SameValuesSameLeaves(a, b, []); }
    if Leaves(a, []) == Leaves(b, []) { EqualLeavesEqualValues(a, b, []); }
  }

  /** The inspection judges a change rightly except when it is blind to it. */
  lemma QuietUnlessBlind(items: ItemLeaves, view: View, c: Change)
    requires WellFormedView(view) && WellFormedChange(c) && Partly(items, view)
    requires c.Upsert? ==> c.item.json.Some?
    ensures (Quiet(items, c) <==> NoOp(view, c)) <==> !Blind(items, view, c)
  {
    NoOpIsLocal(view, c);
    if c.Upsert? && c.item.id in items {
      assert Fingerprints(items[c.item.id], view[c.item.id]) && WellFormedEntry(view[c.item.id]);
      SameEntryByLeaves(c.item.json.value, view[c.item.id].value);
    }
  }

  /** One accepted change: the retained leaves follow the data, and the verdict is that of `Quiet`. */
  lemma ChangeInspected(t: Tally, items: ItemLeaves, view: View, c: Change)
    requires WellFormedChange(c) && Partly(items, view) && t.complete
    requires InspectChange(t, items, c).tally.complete
    ensures Partly(InspectChange(t, items, c).items, ApplyChange(view, c))
    ensures Fully(items, view) ==> Fully(InspectChange(t, items, c).items, ApplyChange(view, c))
    ensures InspectChange(t, items, c).tally.same <==> t.same && Quiet(items, c)
    ensures c.Upsert? ==> c.item.json.Some?
  {
    if c.Upsert? {
      FlattenWhole(c.item.json.value);
      var r, w := InspectChange(t, items, c).items, ApplyChange(view, c);
      assert r == items[c.item.id := Leaves(c.item.json.value, [])];
      forall id | id in r ensures id in w && Fingerprints(r[id], w[id]) {
        if id != c.item.id { assert id in items; }
      }
    }
  }

  // ---------------------------------------------------------------- whole responses

  /**
   What the inspection misses in a list of changes, each looked at where it is inspected: whether every change it
   sees rightly is a no-op, and whether it is blind to some delete and to some upsert.
   */
  datatype Sight = Sight(seenAreNoOps: bool, blindDelete: bool, blindUpsert: bool)

  ghost function Look(t: Tally, items: ItemLeaves, view: View, changes: seq<Change>): Sight
    decreases |changes|
  {
    if changes == [] then Sight(true, false, false)
    else
      var next := InspectChange(t, items, changes[0]);
      var rest := Look(next.tally, next.items, ApplyChange(view, changes[0]), changes[1..]);
      if !Blind(items, view, changes[0]) then rest.(seenAreNoOps := rest.seenAreNoOps && NoOp(view, changes[0]))
      else if changes[0].Delete? then rest.(blindDelete := true)
      else rest.(blindUpsert := true)
  }

  /** No change of the response is one the inspection is blind to, at the point where it is inspected. */
  ghost predicate NeverBlind(t: Tally, items: ItemLeaves, view: View, changes: seq<Change>) {
    var sight := Look(t, items, view, changes);
    !sight.blindDelete && !sight.blindUpsert
  }

  lemma WellFormedStep(view: View, changes: seq<Change>)
    requires WellFormedView(view) && WellFormedChanges(changes) && changes != []
    ensures WellFormedChange(changes[0]) && WellFormedChanges(changes[1..])
    ensures WellFormedView(ApplyChange(view, changes[0]))
  {
    assert WellFormedChange(changes[0]);
    var w := ApplyChange(view, changes[0]);
    forall id | id in w ensures WellFormedEntry(w[id]) {
      if id in view { assert WellFormedEntry(view[id]); }
    }
  }

  lemma {:induction false} NeverBlindWhenFull(t: Tally, items: ItemLeaves, view: View, changes: seq<Change>)
    requires WellFormedView(view) && WellFormedChanges(changes) && Fully(items, view) && t.complete
    requires InspectChanges(t, items, changes).tally.complete
    ensures NeverBlind(t, items, view, changes)
    decreases |changes|
  {
    if changes != [] {
      WellFormedStep(view, changes);
      ChangeInspected(t, items, view, changes[0]);
      var next := InspectChange(t, items, changes[0]);
      NeverBlindWhenFull(next.tally, next.items, ApplyChange(view, changes[0]), changes[1..]);
    }
  }

  /**
   A fully inspected list of changes: what is retained stays right (and complete, if it was); the frame counts as
   unchanged exactly when the changes seen are no-ops and no upsert is missed, and every change is a no-op exactly
   when those seen are and no delete is missed.
   */
  lemma {:induction false} ChangesInspected(t: Tally, items: ItemLeaves, view: View, changes: seq<Change>)
    requires WellFormedView(view) && WellFormedChanges(changes) && Partly(items, view) && t.complete
    requires InspectChanges(t, items, changes).tally.complete
    ensures Partly(InspectChanges(t, items, changes).items, ApplyChanges(view, changes))
    ensures Fully(items, view) ==> Fully(InspectChanges(t, items, changes).items, ApplyChanges(view, changes))
    ensures WellFormedView(ApplyChanges(view, changes))
    ensures var sight := Look(t, items, view, changes);
            && (InspectChanges(t, items, changes).tally.same <==> t.same && sight.seenAreNoOps && !sight.blindUpsert)
            && (AllNoOps(view, changes) <==> sight.seenAreNoOps && !sight.blindDelete)
    ensures NeverBlind(t, items, view, changes) ==>
              (InspectChanges(t, items, changes).tally.same <==> t.same && AllNoOps(view, changes))
    decreases |changes|
  {
    if changes != [] {
      WellFormedStep(view, changes);
      ChangeInspected(t, items, view, changes[0]);
      QuietUnlessBlind(items, view, changes[0]);
      if Blind(items, view, changes[0]) { BlindVerdict(items, view, changes[0]); }
      var next := InspectChange(t, items, changes[0]);
      ChangesInspected(next.tally, next.items, ApplyChange(view, changes[0]), changes[1..]);
    }
  }

  /** A missed delete looks quiet and is not a no-op; a missed upsert looks like a change and is a no-op. */
  lemma BlindVerdict(items: ItemLeaves, view: View, c: Change)
    requires WellFormedView(view) && Blind(items, view, c)
    ensures c.Delete? ==> Quiet(items, c) && !NoOp(view, c)
    ensures !c.Delete? ==> c.Upsert? && !Quiet(items, c) && NoOp(view, c)
  {
    NoOpIsLocal(view, c);
  }

  /** The replay property for one response, from a baseline that covers the client's whole view. */
  lemma ResponseInspected(items: ItemLeaves, view: View, response: Response)
    requires WellFormedView(view) && WellFormedChanges(Changes(response)) && Partly(items, view)
    requires InspectResponse(items, response).tally.complete
    ensures Partly(InspectResponse(items, response).items, ApplyResponse(view, response))
    ensures Fully(items, view) || response.sequence == 0 ==>
              && Fully(InspectResponse(items, response).items, ApplyResponse(view, response))
              && (InspectResponse(items, response).tally.same
                  <==> response.sequence != 0 && AllNoOps(view, Changes(response)))
    ensures WellFormedView(ApplyResponse(view, response))
  {
    var snapshot := response.sequence == 0;
    var t := if snapshot then FreshTally().(same := false) else FreshTally();
    var from: ItemLeaves := if snapshot then map[] else items;
    var on: View := if snapshot then map[] else view;
    ChangesInspected(t, from, on, Changes(response));
    if Fully(from, on) { NeverBlindWhenFull(t, from, on, Changes(response)); }
  }

  /** The verdict says otherwise than what the changes do. */
  ghost predicate WrongVerdict(items: ItemLeaves, view: View, response: Response) {
    InspectResponse(items, response).tally.same != (response.sequence != 0 && AllNoOps(view, Changes(response)))
  }

  /**
   For a whole frame, whatever the baseline: the verdict is wrong if and only if the frame is no snapshot, every
   change the inspection sees rightly is a no-op, and it is blind to changes all of one kind, at least one.
   */
  lemma WrongVerdictIff(items: ItemLeaves, view: View, response: Response)
    requires WellFormedView(view) && WellFormedChanges(Changes(response)) && Partly(items, view)
    requires InspectResponse(items, response).tally.complete
    ensures WrongVerdict(items, view, response) <==>
              && response.sequence != 0
              && var sight := Look(FreshTally(), items, view, Changes(response));
                 sight.seenAreNoOps && sight.blindDelete != sight.blindUpsert
  {
    if response.sequence == 0 {
      ResponseInspected(items, view, response);
    } else {
      ChangesInspected(FreshTally(), items, view, Changes(response));
    }
  }

  lemma {:induction false} ViewStaysWellFormed(view: View, changes: seq<Change>)
    requires WellFormedView(view) && WellFormedChanges(changes)
    ensures WellFormedView(ApplyChanges(view, changes))
    decreases |changes|
  {
    if changes != [] {
      WellFormedStep(view, changes);
      ViewStaysWellFormed(ApplyChange(view, changes[0]), changes[1..]);
    }
  }

  // ---------------------------------------------------------------- the verdict and the counters agree

  lemma NothingDiffers(previous: LeafMap, current: LeafMap)
    ensures previous == current <==>
              ChangedLeaves(Some(previous), current) == {} && RemovedLeaves(Some(previous), current) == {}
  {
    if ChangedLeaves(Some(previous), current) == {} && RemovedLeaves(Some(previous), current) == {} {
      forall p | p in current ensures p in previous && previous[p] == current[p] {
        assert p !in ChangedLeaves(Some(previous), current);
      }
      forall p | p in previous ensures p in current {
        assert p !in RemovedLeaves(Some(previous), current);
      }
      assert previous.Keys == current.Keys;
    }
  }

  lemma CountsOfComparison(previous: Option<LeafMap>, current: LeafMap)
    requires current != map[]
    ensures previous == Some(current) <==>
              |ChangedLeaves(previous, current)| == 0 && |RemovedLeaves(previous, current)| == 0
  {
    if previous.Some? {
      NothingDiffers(previous.value, current);
    } else {
      var p :| p in current;
      assert p in ChangedLeaves(previous, current);
    }
  }

  /** No retained item is without leaves. */
  ghost predicate NonEmptyItems(items: ItemLeaves) {
    forall id :: id in items ==> items[id] != map[]
  }

  lemma LeavesNotEmpty(v: Json)
    ensures Leaves(v, []) != map[]
  {
    var p := SomeLeaf(v, []);
  }

  lemma OneChangeCounted(t: Tally, items: ItemLeaves, c: Change)
    requires NonEmptyItems(items) && WellFormedChange(c) && !c.WindowOrder? && t.complete
    requires InspectChange(t, items, c).tally.complete
    ensures NonEmptyItems(InspectChange(t, items, c).items)
    ensures var r := InspectChange(t, items, c).tally;
            && t.changed <= r.changed && t.removed <= r.removed
            && (r.same <==> t.same && t.changed == r.changed && t.removed == r.removed)
  {
    if c.Upsert? {
      FlattenWhole(c.item.json.value);
      LeavesNotEmpty(c.item.json.value);
      CountsOfComparison(Lookup(items, c.item.id), Leaves(c.item.json.value, []));
    } else if c.id in items {
      assert items[c.id] != map[];
    }
  }

  lemma {:induction false} ChangesCounted(t: Tally, items: ItemLeaves, changes: seq<Change>)
    requires NonEmptyItems(items) && WellFormedChanges(changes) && WindowOrder !in changes && t.complete
    requires InspectChanges(t, items, changes).tally.complete
    ensures NonEmptyItems(InspectChanges(t, items, changes).items)
    ensures var r := InspectChanges(t, items, changes).tally;
            && t.changed <= r.changed && t.removed <= r.removed
            && (r.same <==> t.same && t.changed == r.changed && t.removed == r.removed)
    decreases |changes|
  {
    if changes != [] {
      assert WellFormedChange(changes[0]) && changes[0] in changes;
      OneChangeCounted(t, items, changes[0]);
      var next := InspectChange(t, items, changes[0]);
      ChangesCounted(next.tally, next.items, changes[1..]);
    }
  }

  /** A response that is no snapshot and moves no window counts as unchanged exactly when it counts no leaf. */
  lemma UnchangedCountsNothing(items: ItemLeaves, response: Response)
    requires NonEmptyItems(items) && WellFormedChanges(Changes(response))
    requires response.sequence != 0 && WindowOrder !in Changes(response)
    requires InspectResponse(items, response).tally.complete
    ensures var r := InspectResponse(items, response).tally;
            r.same <==> r.changed == 0 && r.removed == 0
  {
    ChangesCounted(FreshTally(), items, Changes(response));
  }

  /** Two reports in a row, both fully inspected: the second counts as unchanged exactly when it is the same. */
  lemma ReportInspected(before: Json, payload: Json)
    requires WellFormed(before) && WellFormed(payload)
    requires InspectReport(None, before).tally.complete && InspectReport(None, payload).tally.complete
    ensures InspectReport(Some(InspectReport(None, before).leaves), payload).tally.same
            <==> SameJson(before, payload)
  {
    FlattenWhole(before);
    FlattenWhole(payload);
    SameEntryByLeaves(before, payload);
  }
}
