/**
 Filter queries of an item type: what a filter matches, where the query is routed, and the view it builds.
 */
module Routing {
  import opened Common
  import opened RouteArms

  type Id = string

  /** Ids are matched exactly, one or a set of them. */
  datatype IdFilter = Eq(id: Id) | In(ids: seq<Id>)

  datatype FieldFilter = EqualTo(value: int) | OneOf(values: seq<int>) | Range(min: Option<int>, max: Option<int>)

  /** `refs` are the `belongs_to` fields in declaration order, `fields` the others; `None` leaves one unpinned. */
  datatype Filter = Filter(id: Option<IdFilter>, refs: seq<Option<IdFilter>>, fields: seq<Option<FieldFilter>>)

  /** An optional field without a value is `None`; `belongs_to` fields always have one. */
  datatype Item = Item(id: Id, refs: seq<Id>, fields: seq<Option<int>>)

  type Store = map<Id, Item>

  predicate Fits(f: Filter, item: Item) {
    |item.refs| == |f.refs| && |item.fields| == |f.fields|
  }

  ghost predicate Holds(store: Store, f: Filter) {
    forall id :: id in store ==> store[id].id == id && Fits(f, store[id])
  }

  // ---------------------------------------------------------------- matching

  predicate IdMatches(f: IdFilter, id: Id) {
    match f
    case Eq(expected) => id == expected
    case In(ids) => id in ids
  }

  predicate FieldMatches(f: FieldFilter, v: int) {
    match f
    case EqualTo(value) => v == value
    case OneOf(values) => v in values
    case Range(min, max) => (min.Some? ==> min.value <= v) && (max.Some? ==> v <= max.value)
  }

  predicate RefMatches(f: Option<IdFilter>, id: Id) {
    f.Some? ==> IdMatches(f.value, id)
  }

  /** An item without a value for the field never matches a pinned filter. */
  predicate OptionalMatches(f: Option<FieldFilter>, v: Option<int>) {
    f.Some? ==> v.Some? && FieldMatches(f.value, v.value)
  }

  predicate Matches(f: Filter, item: Item)
    requires Fits(f, item)
  {
    && RefMatches(f.id, item.id)
    && (forall i :: 0 <= i < |f.refs| ==> RefMatches(f.refs[i], item.refs[i]))
    && (forall i :: 0 <= i < |f.fields| ==> OptionalMatches(f.fields[i], item.fields[i]))
  }

  // ---------------------------------------------------------------- routing

  function KeyValues(f: IdFilter): seq<Id> {
    match f
    case Eq(id) => [id]
    case In(ids) => ids
  }

  datatype Route =
    | Ids(ids: seq<Id>)
    | BelongsTo(fields: seq<nat>, keys: seq<seq<Id>>)

  function Pins(f: Filter): (pins: seq<bool>)
    ensures |pins| == |f.refs| && forall i :: 0 <= i < |pins| ==> pins[i] == f.refs[i].Some?
  {
    seq(|f.refs|, i requires 0 <= i < |f.refs| => f.refs[i].Some?)
  }

  /** The first arm whose fields are all pinned. */
  function FirstArm(masks: seq<nat>, pins: seq<bool>): Option<nat> {
    if masks == [] then None
    else if Applies(masks[0], pins) then Some(masks[0])
    else FirstArm(masks[1..], pins)
  }

  predicate PinnedFields(f: Filter, fields: seq<nat>) {
    forall i :: 0 <= i < |fields| ==> fields[i] < |f.refs| && f.refs[fields[i]].Some?
  }

  function ValueSets(f: Filter, fields: seq<nat>): (sets: seq<seq<Id>>)
    requires PinnedFields(f, fields)
    ensures |sets| == |fields|
    ensures forall i :: 0 <= i < |sets| ==> sets[i] == KeyValues(f.refs[fields[i]].value)
  {
    seq(|fields|, i requires 0 <= i < |fields| => KeyValues(f.refs[fields[i]].value))
  }

  /** Every prefix with every value of the next set. */
  function Extend(prefixes: seq<seq<Id>>, values: seq<Id>): seq<seq<Id>> {
    if prefixes == [] then [] else AppendEach(prefixes[0], values) + Extend(prefixes[1..], values)
  }

  function AppendEach(prefix: seq<Id>, values: seq<Id>): (r: seq<seq<Id>>)
    ensures |r| == |values| && forall i :: 0 <= i < |r| ==> r[i] == prefix + [values[i]]
  {
    seq(|values|, i requires 0 <= i < |values| => prefix + [values[i]])
  }

  function CartesianProduct(sets: seq<seq<Id>>): seq<seq<Id>> {
    if sets == [] then [[]] else Extend(CartesianProduct(sets[..|sets| - 1]), sets[|sets| - 1])
  }

  lemma {:induction false} ArmIsPinned(f: Filter, masks: seq<nat>)
    requires FirstArm(masks, Pins(f)).Some?
    ensures var m := FirstArm(masks, Pins(f)).value;
            m in masks && Applies(m, Pins(f)) && PinnedFields(f, Selected(m, |f.refs|))
  {
    if Applies(masks[0], Pins(f)) {
      SelectedBits(masks[0], |f.refs|);
    } else {
      ArmIsPinned(f, masks[1..]);
    }
  }

  lemma {:induction false} SelectedBits(m: nat, n: nat)
    ensures forall k :: 0 <= k < |Selected(m, n)| ==> Selected(m, n)[k] < n && Bit(m, Selected(m, n)[k])
  {
    if n > 0 { SelectedBits(m, n - 1); }
  }

  /** An id pin wins over any `belongs_to` fields; without either the query is a scan. */
  function QueryRoute(f: Filter, masks: seq<nat>): Option<Route> {
    if f.id.Some? then Some(Ids(KeyValues(f.id.value)))
    else
      match FirstArm(masks, Pins(f))
      case None => None
      case Some(m) =>
        ArmIsPinned(f, masks);
        var fields := Selected(m, |f.refs|);
        Some(BelongsTo(fields, CartesianProduct(ValueSets(f, fields))))
  }

  /** The key an item contributes for a combination of fields. */
  function Extract(item: Item, fields: seq<nat>): (key: seq<Id>)
    requires forall i :: 0 <= i < |fields| ==> fields[i] < |item.refs|
    ensures |key| == |fields| && forall i :: 0 <= i < |key| ==> key[i] == item.refs[fields[i]]
  {
    seq(|fields|, i requires 0 <= i < |fields| => item.refs[fields[i]])
  }

  // ---------------------------------------------------------------- the product

  lemma {:induction false} ExtendHolds(prefixes: seq<seq<Id>>, values: seq<Id>, key: seq<Id>)
    ensures key in Extend(prefixes, values) <==>
              |key| > 0 && key[..|key| - 1] in prefixes && key[|key| - 1] in values
  {
    if prefixes != [] {
      ExtendHolds(prefixes[1..], values, key);
      AppendEachHolds(prefixes[0], values, key);
      assert prefixes == [prefixes[0]] + prefixes[1..];
    }
  }

  lemma AppendEachHolds(prefix: seq<Id>, values: seq<Id>, key: seq<Id>)
    ensures key in AppendEach(prefix, values) <==>
              |key| > 0 && key[..|key| - 1] == prefix && key[|key| - 1] in values
  {
    var r := AppendEach(prefix, values);
    if |key| > 0 && key[..|key| - 1] == prefix && key[|key| - 1] in values {
      var i :| 0 <= i < |values| && values[i] == key[|key| - 1];
      assert r[i] == prefix + [values[i]] == key;
    }
    if key in r {
      var i :| 0 <= i < |r| && r[i] == key;
      assert key == prefix + [values[i]];
    }
  }

  /** The product holds exactly the tuples with, at each position, a value of the set at that position. */
  lemma {:induction false} ProductHolds(sets: seq<seq<Id>>, key: seq<Id>)
    ensures key in CartesianProduct(sets) <==>
              |key| == |sets| && forall i :: 0 <= i < |sets| ==> key[i] in sets[i]
    decreases |sets|
  {
    if sets == [] {
      assert key in [[]] <==> key == [];
    } else {
      var n := |sets| - 1;
      ExtendHolds(CartesianProduct(sets[..n]), sets[n], key);
      if |key| > 0 {
        ProductHolds(sets[..n], key[..|key| - 1]);
        if |key| == |sets| {
          assert forall i :: 0 <= i < n ==> key[..n][i] == key[i] && sets[..n][i] == sets[i];
        }
      }
    }
  }

  lemma KeyValuesMatch(f: IdFilter, id: Id)
    ensures id in KeyValues(f) <==> IdMatches(f, id)
  {
  }

  /** An item's key is among a route's keys exactly when the item matches every field of the route. */
  lemma RouteKeysMatch(f: Filter, fields: seq<nat>, item: Item)
    requires PinnedFields(f, fields) && Fits(f, item)
    ensures Extract(item, fields) in CartesianProduct(ValueSets(f, fields)) <==>
              forall i :: 0 <= i < |fields| ==> RefMatches(f.refs[fields[i]], item.refs[fields[i]])
  {
    var sets, key := ValueSets(f, fields), Extract(item, fields);
    ProductHolds(sets, key);
    forall i | 0 <= i < |fields| ensures key[i] in sets[i] <==> RefMatches(f.refs[fields[i]], item.refs[fields[i]]) {
      KeyValuesMatch(f.refs[fields[i]].value, item.refs[fields[i]]);
    }
  }

  // ---------------------------------------------------------------- sources and views

  ghost function ByIds(store: Store, ids: seq<Id>): Store {
    map id | id in store && id in ids :: store[id]
  }

  ghost predicate Extractable(store: Store, fields: seq<nat>) {
    forall id :: id in store ==> forall i :: 0 <= i < |fields| ==> fields[i] < |store[id].refs|
  }

  function Bucket(store: Store, fields: seq<nat>, key: seq<Id>): Store
    requires Extractable(store, fields)
  {
    map id | id in store && Extract(store[id], fields) == key :: store[id]
  }

  ghost function ByKeys(store: Store, fields: seq<nat>, keys: seq<seq<Id>>): Store
    requires Extractable(store, fields)
  {
    map id | id in store && Extract(store[id], fields) in keys :: store[id]
  }

  function Select(f: Filter, source: Store): Store
    requires forall id :: id in source ==> Fits(f, source[id])
  {
    map id | id in source && Matches(f, source[id]) :: source[id]
  }

  /** One lookup for each id; an id asked for twice is looked up twice. */
  method BuildIdsSource(store: Store, ids: seq<Id>) returns (source: Store)
    ensures source == ByIds(store, ids)
  {
    source := map[];
    for i := 0 to |ids|
      invariant source == ByIds(store, ids[..i])
    {
      assert ids[..i + 1] == ids[..i] + [ids[i]];
      if ids[i] in store {
        source := source[ids[i] := store[ids[i]]];
      }
    }
    assert ids[..|ids|] == ids;
  }

  /** The union of one bucket for each key. */
  method BuildUnionSource(store: Store, fields: seq<nat>, keys: seq<seq<Id>>) returns (source: Store)
    requires Extractable(store, fields)
    ensures source == ByKeys(store, fields, keys)
  {
    source := map[];
    for i := 0 to |keys|
      invariant source == ByKeys(store, fields, keys[..i])
    {
      assert keys[..i + 1] == keys[..i] + [keys[i]];
      source := source + Bucket(store, fields, keys[i]);
    }
    assert keys[..|keys|] == keys;
  }

  ghost function Source(store: Store, route: Route): Store
    requires route.BelongsTo? ==> Extractable(store, route.fields)
  {
    match route
    case Ids(ids) => ByIds(store, ids)
    case BelongsTo(fields, keys) => ByKeys(store, fields, keys)
  }

  ghost predicate IsArms(masks: seq<nat>, n: nat) {
    if n >= 32 then masks == [] else IsArmOrder(masks, n)
  }

  lemma RouteFits(f: Filter, store: Store, masks: seq<nat>)
    requires Holds(store, f) && QueryRoute(f, masks).Some?
    ensures var route := QueryRoute(f, masks).value;
            route.BelongsTo? ==> PinnedFields(f, route.fields) && Extractable(store, route.fields)
  {
    if f.id.None? { ArmIsPinned(f, masks); }
  }

  /**
   Routing preserves meaning: the rows found through a route and then filtered are exactly the rows of a full
   scan, for every filter and every store.
   */
  lemma RoutedIsScan(f: Filter, store: Store, masks: seq<nat>)
    requires Holds(store, f) && QueryRoute(f, masks).Some?
    requires QueryRoute(f, masks).value.BelongsTo? ==> Extractable(store, QueryRoute(f, masks).value.fields)
    ensures Select(f, Source(store, QueryRoute(f, masks).value)) == Select(f, store)
  {
    var route := QueryRoute(f, masks).value;
    RouteFits(f, store, masks);
    forall id | id in store && Matches(f, store[id]) ensures id in Source(store, route) {
      if f.id.Some? {
        KeyValuesMatch(f.id.value, id);
      } else {
        ArmIsPinned(f, masks);
        RouteKeysMatch(f, route.fields, store[id]);
      }
    }
  }

  /** The route taken pins every pinned `belongs_to` field, in declaration order; it is a scan only if none is. */
  lemma RouteIsMostSelective(f: Filter, masks: seq<nat>)
    requires |f.refs| < 32 && IsArms(masks, |f.refs|) && f.id.None?
    ensures QueryRoute(f, masks).None? <==> forall i :: 0 <= i < |f.refs| ==> f.refs[i].None?
    ensures var route := QueryRoute(f, masks);
            route.Some? ==>
              && route.value.BelongsTo?
              && (forall i :: i in route.value.fields <==> 0 <= i < |f.refs| && f.refs[i].Some?)
              && forall i, j :: 0 <= i < j < |route.value.fields| ==> route.value.fields[i] < route.value.fields[j]
  {
    var pins := Pins(f);
    var at := FirstArmAt(masks, pins);
    SomeArmUnlessNonePinned(masks, pins);
    if at < |masks| {
      MostSelectiveArm(masks, pins, at);
      SelectedIsMask(pins, |pins|);
    }
  }

  lemma {:induction false} FirstArmAt(masks: seq<nat>, pins: seq<bool>) returns (at: nat)
    ensures at <= |masks| && forall j :: 0 <= j < at ==> !Applies(masks[j], pins)
    ensures at < |masks| ==> Applies(masks[at], pins) && FirstArm(masks, pins) == Some(masks[at])
    ensures at == |masks| ==> FirstArm(masks, pins) == None
  {
    if masks == [] {
      at := 0;
    } else if Applies(masks[0], pins) {
      at := 0;
    } else {
      var rest := FirstArmAt(masks[1..], pins);
      at := rest + 1;
      assert forall j :: 0 < j < at ==> masks[j] == masks[1..][j - 1];
    }
  }

  // ---------------------------------------------------------------- which rows a query asks for

  /** The ids a pin names. */
  function Named(pin: IdFilter): set<Id> {
    match pin
    case Eq(id) => {id}
    case In(ids) => set id | id in ids
  }

  /** A bound that is left out excludes nothing. */
  predicate Between(min: Option<int>, v: int, max: Option<int>) {
    (min == None || min.value <= v) && (max == None || v <= max.value)
  }

  /**
   The row is one the query asks for: its id and each `belongs_to` value are named by the pin there, and each pinned
   field has a value, which equals the one asked for, is in the list, or lies within the bounds.
   */
  ghost predicate AskedFor(f: Filter, item: Item)
    requires Fits(f, item)
  {
    && (forall pin :: f.id == Some(pin) ==> item.id in Named(pin))
    && (forall i, pin :: 0 <= i < |f.refs| && f.refs[i] == Some(pin) ==> item.refs[i] in Named(pin))
    && (forall i, asked :: 0 <= i < |f.fields| && f.fields[i] == Some(EqualTo(asked)) ==>
          item.fields[i] == Some(asked))
    && (forall i, list :: 0 <= i < |f.fields| && f.fields[i] == Some(OneOf(list)) ==>
          exists v :: v in list && item.fields[i] == Some(v))
    && (forall i, min, max :: 0 <= i < |f.fields| && f.fields[i] == Some(Range(min, max)) ==>
          exists v :: item.fields[i] == Some(v) && Between(min, v, max))
  }

  /** Matching is what the query asks for. */
  lemma MatchesAskedFor(f: Filter, item: Item)
    requires Fits(f, item)
    ensures Matches(f, item) <==> AskedFor(f, item)
  {
    assert (forall i :: 0 <= i < |f.refs| ==> RefMatches(f.refs[i], item.refs[i]))
        <==> forall i, pin :: 0 <= i < |f.refs| && f.refs[i] == Some(pin) ==> item.refs[i] in Named(pin);
    if Matches(f, item) {
      forall i, list | 0 <= i < |f.fields| && f.fields[i] == Some(OneOf(list))
        ensures exists v :: v in list && item.fields[i] == Some(v)
      {
        assert OptionalMatches(f.fields[i], item.fields[i]);
        assert item.fields[i].value in list;
      }
      forall i, min, max | 0 <= i < |f.fields| && f.fields[i] == Some(Range(min, max))
        ensures exists v :: item.fields[i] == Some(v) && Between(min, v, max)
      {
        assert OptionalMatches(f.fields[i], item.fields[i]);
        assert Between(min, item.fields[i].value, max);
      }
    }
    if AskedFor(f, item) {
      forall i | 0 <= i < |f.fields| ensures OptionalMatches(f.fields[i], item.fields[i]) {
        FieldAskedFor(f.fields[i], item.fields[i]);
      }
    }
  }

  lemma FieldAskedFor(pin: Option<FieldFilter>, value: Option<int>)
    requires forall asked :: pin == Some(EqualTo(asked)) ==> value == Some(asked)
    requires forall list :: pin == Some(OneOf(list)) ==> exists v :: v in list && value == Some(v)
    requires forall min, max :: pin == Some(Range(min, max)) ==> exists v :: value == Some(v) && Between(min, v, max)
    ensures OptionalMatches(pin, value)
  {
    if pin.Some? {
      match pin.value
      case EqualTo(asked) => assert value == Some(asked);
      case OneOf(list) => assert pin == Some(OneOf(list));
      case Range(min, max) => assert pin == Some(Range(min, max));
    }
  }

  /** A query's view: routed when there is a route, else a scan of the store. */
  method BuildView(f: Filter, store: Store) returns (view: Store)
    requires Holds(store, f)
    ensures view == Select(f, store)
    ensures forall id :: id in view <==> id in store && AskedFor(f, store[id])
    ensures forall id :: id in view ==> view[id] == store[id]
  {
    forall id | id in store { MatchesAskedFor(f, store[id]); }
    var masks := ArmMasks(|f.refs|);
    var route := QueryRoute(f, masks);
    if route.None? {
      view := Select(f, store);
    } else {
      RouteFits(f, store, masks);
      RoutedIsScan(f, store, masks);
      var source;
      match route.value {
        case Ids(ids) => source := BuildIdsSource(store, ids);
        case BelongsTo(fields, keys) => source := BuildUnionSource(store, fields, keys);
      }
      view := Select(f, source);
    }
  }
}
