/**
 Sources routed on `belongs_to` keys.  An index groups the store's diffs by key and hands them to the buckets
 of the keys in use; a union over several keys rewrites each bucket's diffs and merges them into one map.
 */
module UnionSource {
  import opened Common
  import opened QueryStoreSpec
  import Routing

  type Fk = seq<string>

  /** A row with the key it contributes. */
  datatype Item = Item(fk: Fk, data: Routing.Item)

  type Rows = map<Key, Item>

  type Diff = MapDiff<Item>

  /** The rows of a store that carry one key. */
  function Pick(store: Rows, k: Fk): Rows {
    map id | id in store && store[id].fk == k :: store[id]
  }

  /** A snapshot lists no key twice. */
  ghost predicate Distinct(entries: seq<Entry<Item>>) {
    forall i, j :: 0 <= i < j < |entries| ==> entries[i].key != entries[j].key
  }

  /** A diff names the values it replaces, and inserts only what is not there. */
  ghost predicate Truthful(store: Rows, diff: Diff)
    decreases diff, 0
  {
    match diff
    case Initial(entries) => Distinct(entries)
    case Insert(key, _) => key !in store
    case Update(key, old_, _) => Lookup(store, key) == Some(old_)
    case Remove(key, old_) => Lookup(store, key) == Some(old_)
    case Batch(changes) => TruthfulAll(store, changes, |changes|)
  }

  ghost predicate TruthfulAll(store: Rows, changes: seq<Diff>, n: nat)
    requires n <= |changes|
    decreases changes, n
  {
    n == 0 || (TruthfulAll(store, changes, n - 1) && Truthful(MutateAll(store, changes, n - 1), changes[n - 1]))
  }

  predicate IsFlat(diff: Diff) { !diff.Initial? && !diff.Batch? }

  // ---------------------------------------------------------------- the rewrite for a union

  /** The ids whose place in the union one bucket's diff decides, when the bucket contributed `c`. */
  ghost predicate Touches(diff: Diff, c: Rows, id: Key)
    decreases diff, 0
  {
    match diff
    case Initial(entries) => id in c || id in FromEntries(entries)
    case Insert(key, _) => id == key
    case Update(key, _, _) => id == key
    case Remove(key, _) => id == key
    case Batch(changes) => TouchesAll(changes, |changes|, c, id)
  }

  ghost predicate TouchesAll(changes: seq<Diff>, n: nat, c: Rows, id: Key)
    requires n <= |changes|
    decreases changes, n
  {
    n > 0 && (TouchesAll(changes, n - 1, c, id) || Touches(changes[n - 1], MutateAll(c, changes, n - 1), id))
  }

  lemma {:induction false} UntouchedStays(diff: Diff, c: Rows, id: Key)
    requires !Touches(diff, c, id)
    ensures Lookup(Mutate(c, diff), id) == Lookup(c, id)
    decreases diff, 0
  {
    if diff.Batch? { UntouchedStaysAll(diff.changes, |diff.changes|, c, id); }
  }

  lemma {:induction false} UntouchedStaysAll(changes: seq<Diff>, n: nat, c: Rows, id: Key)
    requires n <= |changes| && !TouchesAll(changes, n, c, id)
    ensures Lookup(MutateAll(c, changes, n), id) == Lookup(c, id)
    decreases changes, n
  {
    if n > 0 {
      UntouchedStaysAll(changes, n - 1, c, id);
      UntouchedStays(changes[n - 1], MutateAll(c, changes, n - 1), id);
    }
  }

  /** What a rewritten diff says about `id`. */
  function Says(diff: Option<Diff>, id: Key): Option<Option<Item>> {
    if diff.Some? then Outcome(diff.value, id) else None
  }

  /**
   A rewrite for the union: at the ids the diff touches it says what the bucket holds afterwards, elsewhere it
   says nothing.
   */
  ghost predicate IsRewrite(additive: Option<Diff>, diff: Diff, c: Rows) {
    forall id :: Says(additive, id) == if Touches(diff, c, id) then Some(Lookup(Mutate(c, diff), id)) else None
  }

  /** The changes say so about every id. */
  ghost predicate AllSay(changes: seq<Diff>, done: seq<Diff>, n: nat, c: Rows)
    requires n <= |done|
  {
    forall id :: OutcomeAll(changes, |changes|, id)
                 == if TouchesAll(done, n, c, id) then Some(Lookup(MutateAll(c, done, n), id)) else None
  }

  /** A removal for every row the bucket contributed, in any order. */
  method Retract(c: Rows) returns (changes: seq<Diff>)
    ensures forall id :: OutcomeAll(changes, |changes|, id) == if id in c then Some(None) else None
    ensures changes == [] ==> c == map[]
  {
    changes := [];
    var rest := c;
    while rest != map[]
      invariant rest.Keys <= c.Keys
      invariant forall id :: OutcomeAll(changes, |changes|, id) == if id in c && id !in rest then Some(None) else None
      invariant changes == [] ==> rest == c
      decreases |rest|
    {
      var id :| id in rest;
      assert (rest - {id}).Keys == rest.Keys - {id};
      SayOneMore(changes, Remove(id, rest[id]));
      changes := changes + [Remove(id, rest[id])];
      rest := rest - {id};
    }
  }

  ghost predicate SaysReplaced(changes: seq<Diff>, c: Rows, rows: Rows) {
    forall id :: OutcomeAll(changes, |changes|, id)
                 == if id in rows then Some(Some(rows[id])) else if id in c then Some(None) else None
  }

  lemma ReplacedOneMore(changes: seq<Diff>, c: Rows, entries: seq<Entry<Item>>, i: nat)
    requires i < |entries| && SaysReplaced(changes, c, FromEntries(entries[..i]))
    ensures SaysReplaced(changes + [Insert(entries[i].key, entries[i].value)], c, FromEntries(entries[..i + 1]))
  {
    assert entries[..i + 1][..i] == entries[..i];
    var d: Diff := Insert(entries[i].key, entries[i].value);
    var next, rows := changes + [d], FromEntries(entries[..i + 1]);
    SayOneMore(changes, d);
    forall id
      ensures OutcomeAll(next, |next|, id)
              == if id in rows then Some(Some(rows[id])) else if id in c then Some(None) else None
    {
      assert Outcome(d, id) == if id == entries[i].key then Some(Some(entries[i].value)) else None;
    }
  }

  /** Retract what the bucket contributed, then insert the new snapshot. */
  method Replace(entries: seq<Entry<Item>>, c: Rows) returns (changes: seq<Diff>)
    ensures SaysReplaced(changes, c, FromEntries(entries))
    ensures changes == [] ==> c == map[] && entries == []
  {
    changes := Retract(c);
    for i := 0 to |entries|
      invariant SaysReplaced(changes, c, FromEntries(entries[..i]))
      invariant changes == [] ==> c == map[] && i == 0
    {
      ReplacedOneMore(changes, c, entries, i);
      changes := changes + [Insert(entries[i].key, entries[i].value)];
    }
    assert entries[..|entries|] == entries;
  }

  lemma SayOneMore(changes: seq<Diff>, d: Diff)
    ensures forall id :: OutcomeAll(changes + [d], |changes| + 1, id)
                         == if Outcome(d, id).Some? then Outcome(d, id) else OutcomeAll(changes, |changes|, id)
  {
    forall id { OutcomePrefix(changes, [d], |changes|, id); }
  }

  lemma {:induction false} OutcomePrefix(a: seq<Diff>, b: seq<Diff>, n: nat, id: Key)
    requires n <= |a|
    ensures OutcomeAll(a + b, n, id) == OutcomeAll(a, n, id)
    decreases n
  {
    if n > 0 { OutcomePrefix(a, b, n - 1, id); }
  }

  method AdditiveUnionDiff(diff: Diff, c: Rows) returns (additive: Option<Diff>, out: Rows)
    ensures out == Mutate(c, diff)
    ensures IsRewrite(additive, diff, c)
    decreases diff
  {
    match diff {
      case Initial(entries) =>
        var changes := Replace(entries, c);
        out := map[];
        for i := 0 to |entries|
          invariant out == FromEntries(entries[..i])
        {
          assert entries[..i + 1][..i] == entries[..i];
          out := out[entries[i].key := entries[i].value];
        }
        assert entries[..|entries|] == entries;
        additive := if changes == [] then None else Some(Batch(changes));
      case Batch(changes) =>
        var rewritten: seq<Diff> := [];
        out := c;
        for i := 0 to |changes|
          invariant out == MutateAll(c, changes, i)
          invariant AllSay(rewritten, changes, i, c)
        {
          var one;
          ghost var before := out;
          one, out := AdditiveUnionDiff(changes[i], out);
          AllSayOneMore(rewritten, changes, i, c, one);
          if one.Some? {
            rewritten := rewritten + [one.value];
          }
        }
        additive := if rewritten == [] then None else Some(Batch(rewritten));
        assert forall id :: Says(additive, id) == OutcomeAll(rewritten, |rewritten|, id);
      case Insert(key, value) =>
        out := c[key := value];
        additive := Some(diff);
      case Remove(key, _) =>
        out := c - {key};
        additive := Some(diff);
      case Update(key, _, value) =>
        out := c[key := value];
        additive := Some(diff);
    }
  }

  lemma AllSayOneMore(rewritten: seq<Diff>, changes: seq<Diff>, i: nat, c: Rows, one: Option<Diff>)
    requires i < |changes| && AllSay(rewritten, changes, i, c)
    requires IsRewrite(one, changes[i], MutateAll(c, changes, i))
    ensures AllSay(if one.Some? then rewritten + [one.value] else rewritten, changes, i + 1, c)
  {
    var before := MutateAll(c, changes, i);
    var next := if one.Some? then rewritten + [one.value] else rewritten;
    if one.Some? { SayOneMore(rewritten, one.value); }
    forall id
      ensures OutcomeAll(next, |next|, id)
              == if TouchesAll(changes, i + 1, c, id) then Some(Lookup(MutateAll(c, changes, i + 1), id)) else None
    {
      assert Says(one, id)
          == if Touches(changes[i], before, id) then Some(Lookup(Mutate(before, changes[i]), id)) else None;
      if !Touches(changes[i], before, id) { UntouchedStays(changes[i], before, id); }
    }
    assert AllSay(next, changes, i + 1, c);
  }

  // ---------------------------------------------------------------- the union under any order of actions

  /** A diff handed to the bucket of one key. */
  datatype Action = Action(fk: Fk, diff: Diff)

  datatype Union = Union(result: Rows, contributions: map<Fk, Rows>)

  ghost predicate TouchedBy(u: Union, a: Action, id: Key) {
    a.fk in u.contributions && Touches(a.diff, u.contributions[a.fk], id)
  }

  /** The merged rows after one bucket's rewritten diff. */
  ghost function Overlay(u: Union, a: Action): Rows
    requires a.fk in u.contributions
  {
    var c := Mutate(u.contributions[a.fk], a.diff);
    map id | id in u.result.Keys + c.Keys && (if TouchedBy(u, a, id) then id in c else id in u.result)
      :: if TouchedBy(u, a, id) then c[id] else u.result[id]
  }

  ghost function AfterAction(u: Union, a: Action): Union {
    if a.fk !in u.contributions then u
    else Union(Overlay(u, a), u.contributions[a.fk := Mutate(u.contributions[a.fk], a.diff)])
  }

  ghost function Dispatch(u: Union, actions: seq<Action>, n: nat): Union
    requires n <= |actions|
  {
    if n == 0 then u else AfterAction(Dispatch(u, actions, n - 1), actions[n - 1])
  }

  /** The union object: each bucket's subscriber rewrites its diff and applies it to the shared map. */
  class UnionMap {
    var result: Rows
    var contributions: map<Fk, Rows>

    ghost function Merged(): Union
      reads this
    {
      Union(result, contributions)
    }

    constructor ()
      ensures Merged() == Union(map[], map[])
    {
      result, contributions := map[], map[];
    }

    /** A new bucket first delivers its present rows. */
    method Subscribe(k: Fk, bucket: Rows, listing: seq<Entry<Item>>)
      requires k !in contributions && FromEntries(listing) == bucket
      modifies this
      ensures Merged() == AfterAction(Union(old(result), old(contributions)[k := map[]]), Action(k, Initial(listing)))
      ensures contributions[k] == bucket
    {
      contributions := contributions[k := map[]];
      OnDiff(Action(k, Initial(listing)));
    }

    method OnDiff(a: Action)
      modifies this
      ensures Merged() == AfterAction(old(Merged()), a)
    {
      if a.fk in contributions {
        var additive, c := AdditiveUnionDiff(a.diff, contributions[a.fk]);
        ghost var before := Merged();
        contributions := contributions[a.fk := c];
        ghost var merged := result;
        if additive.Some? {
          result := Mutate(result, additive.value);
        }
        OverlayOf(before, a, additive, result);
      }
    }
  }

  lemma OverlayOf(u: Union, a: Action, additive: Option<Diff>, after: Rows)
    requires a.fk in u.contributions && IsRewrite(additive, a.diff, u.contributions[a.fk])
    requires after == if additive.Some? then Mutate(u.result, additive.value) else u.result
    ensures after == Overlay(u, a)
  {
    forall id ensures Lookup(after, id) == Lookup(Overlay(u, a), id) {
      if additive.Some? { MutateOverwrites(u.result, additive.value, id); }
      assert Says(additive, id) == if Touches(a.diff, u.contributions[a.fk], id)
        then Some(Lookup(Mutate(u.contributions[a.fk], a.diff), id)) else None;
    }
    SameLookups(after, Overlay(u, a));
  }

  /** The rows of the union are the rows of its buckets, and no row is in two of them. */
  ghost predicate Exact(u: Union) {
    && Disjoint(u.contributions)
    && forall id :: Lookup(u.result, id) == Home(u.contributions, id)
  }

  ghost predicate Disjoint(contributions: map<Fk, Rows>) {
    forall j, k, id :: In(contributions, j, id) && In(contributions, k, id) ==> j == k
  }

  ghost predicate In(contributions: map<Fk, Rows>, k: Fk, id: Key) {
    k in contributions && id in contributions[k]
  }

  /** The row, as the bucket that has it holds it. */
  ghost function Home(contributions: map<Fk, Rows>, id: Key): Option<Item> {
    if exists k :: In(contributions, k, id) then
      var k :| In(contributions, k, id);
      Some(contributions[k][id])
    else None
  }

  /** The bucket whose action touched `id` last. */
  ghost function LastToucher(u: Union, actions: seq<Action>, n: nat, id: Key): Option<Fk>
    requires n <= |actions|
  {
    if n == 0 then None
    else if TouchedBy(Dispatch(u, actions, n - 1), actions[n - 1], id) then Some(actions[n - 1].fk)
    else LastToucher(u, actions, n - 1, id)
  }

  lemma {:induction false} DispatchKeepsKeys(u: Union, actions: seq<Action>, n: nat)
    requires n <= |actions|
    ensures Dispatch(u, actions, n).contributions.Keys == u.contributions.Keys
  {
    if n > 0 { DispatchKeepsKeys(u, actions, n - 1); }
  }

  /** The union holds, at every id, what the bucket that touched it last holds. */
  lemma {:induction false} LastToucherDecides(u: Union, actions: seq<Action>, n: nat, id: Key)
    requires n <= |actions|
    ensures var t := Dispatch(u, actions, n);
            match LastToucher(u, actions, n, id)
            case None =>
              && Lookup(t.result, id) == Lookup(u.result, id)
              && (forall k :: k in u.contributions ==>
                    k in t.contributions && Lookup(t.contributions[k], id) == Lookup(u.contributions[k], id))
            case Some(k) => k in t.contributions && Lookup(t.result, id) == Lookup(t.contributions[k], id)
  {
    if n > 0 {
      LastToucherDecides(u, actions, n - 1, id);
      var before, a := Dispatch(u, actions, n - 1), actions[n - 1];
      DispatchKeepsKeys(u, actions, n - 1);
      if a.fk in before.contributions && !TouchedBy(before, a, id) {
        UntouchedStays(a.diff, before.contributions[a.fk], id);
      }
    }
  }

  lemma HomeIs(contributions: map<Fk, Rows>, k: Fk, id: Key)
    requires Disjoint(contributions) && In(contributions, k, id)
    ensures Home(contributions, id) == Some(contributions[k][id])
  {
  }

  /** No row ends in one bucket while another bucket's action touched it last. */
  ghost predicate HomeTouchesLast(u: Union, actions: seq<Action>) {
    var t := Dispatch(u, actions, |actions|);
    forall k, id :: In(t.contributions, k, id) ==>
                      LastToucher(u, actions, |actions|, id) in {None, Some(k)}
  }

  /**
   After any sequence of actions that leaves the buckets disjoint, the union is the union of its buckets
   exactly when every row was touched last by the bucket it ended in.
   */
  lemma ExactIffHomeTouchesLast(u: Union, actions: seq<Action>)
    requires Exact(u) && Disjoint(Dispatch(u, actions, |actions|).contributions)
    ensures Exact(Dispatch(u, actions, |actions|)) <==> HomeTouchesLast(u, actions)
  {
    var n := |actions|;
    var t := Dispatch(u, actions, n);
    DispatchKeepsKeys(u, actions, n);
    if HomeTouchesLast(u, actions) {
      forall id ensures Lookup(t.result, id) == Home(t.contributions, id) { SettledAt(u, actions, id); }
    }
    if Exact(t) {
      forall k, id | In(t.contributions, k, id) ensures LastToucher(u, actions, n, id) in {None, Some(k)} {
        LastToucherDecides(u, actions, n, id);
        HomeIs(t.contributions, k, id);
        var last := LastToucher(u, actions, n, id);
        assert last.Some? ==> In(t.contributions, last.value, id);
      }
    }
  }

  lemma SettledAt(u: Union, actions: seq<Action>, id: Key)
    requires Exact(u) && Disjoint(Dispatch(u, actions, |actions|).contributions) && HomeTouchesLast(u, actions)
    ensures var t := Dispatch(u, actions, |actions|); Lookup(t.result, id) == Home(t.contributions, id)
  {
    var n := |actions|;
    var t := Dispatch(u, actions, n);
    DispatchKeepsKeys(u, actions, n);
    LastToucherDecides(u, actions, n, id);
    var last := LastToucher(u, actions, n, id);
    if k :| In(t.contributions, k, id) {
      HomeIs(t.contributions, k, id);
      assert last in {None, Some(k)};
      if last == None {
        assert Lookup(u.contributions[k], id) == Lookup(t.contributions[k], id);
        assert In(u.contributions, k, id);
        HomeIs(u.contributions, k, id);
      }
    } else if last == None {
      forall k ensures !In(u.contributions, k, id) {
        assert !In(t.contributions, k, id);
      }
    } else {
      assert !In(t.contributions, last.value, id);
    }
  }

  /** A union over one key is always exact. */
  lemma {:induction false} OneKeyIsExact(u: Union, actions: seq<Action>, k: Fk)
    requires Exact(u) && u.contributions.Keys == {k}
    ensures Exact(Dispatch(u, actions, |actions|))
  {
    DispatchKeepsKeys(u, actions, |actions|);
    forall id { LastToucherDecides(u, actions, |actions|, id); }
    ExactIffHomeTouchesLast(u, actions);
  }
}
