/**
 Which diffs of the store leave a union right whatever order the index's maps have.
 */
module UnionOrders {
  import opened Common
  import opened QueryStoreSpec
  import opened UnionSource
  import opened IndexOrders
  import opened UnionOverStore

  // ---------------------------------------------------------------- which keys a diff names a row for

  /** The change moves the row into, out of or within the rows of `k`. */
  predicate NamesOne(change: Diff, k: Fk, id: Key)
    requires IsFlat(change)
  {
    change.key == id && Split(change, k) != []
  }

  predicate NamesAny(changes: seq<Diff>, k: Fk, id: Key)
    requires AllFlat(changes)
  {
    exists i :: 0 <= i < |changes| && NamesOne(changes[i], k, id)
  }

  /** A snapshot names the rows that were under `k` and those that are. */
  predicate Names(phase: Diff, before: Rows, k: Fk, id: Key)
    requires IsPhase(phase)
  {
    match phase
    case Initial(entries) => id in Pick(before, k) || id in Pick(FromEntries(entries), k)
    case Batch(changes) => NamesAny(changes, k, id)
  }

  function Namers(phase: Diff, before: Rows, keys: set<Fk>, id: Key): set<Fk>
    requires IsPhase(phase)
  {
    set k | k in keys && Names(phase, before, k, id)
  }

  /** Those of the keys for which the last phase that names the row for any of them names it. */
  function LastNamers(phases: seq<Diff>, n: nat, store: Rows, keys: set<Fk>, id: Key): set<Fk>
    requires ArePhases(phases) && n <= |phases|
  {
    if n == 0 then {}
    else
      var last := Namers(phases[n - 1], MutateAll(store, phases, n - 1), keys, id);
      if last != {} then last else LastNamers(phases, n - 1, store, keys, id)
  }

  /** No row that ends under one of the keys is, where it is named last, also named for another. */
  ghost predicate Safe(diff: Diff, store: Rows, keys: set<Fk>) {
    forall id :: id in WithKeys(Mutate(store, diff), keys) ==>
                   LastNamers(Phases(diff), |Phases(diff)|, store, keys, id) <= {Mutate(store, diff)[id].fk}
  }

  // ---------------------------------------------------------------- what the actions touch

  lemma {:induction false} GroupTouches(changes: seq<Diff>, k: Fk, c: Rows, id: Key)
    requires AllFlat(changes)
    ensures var group := SplitAll(changes, k); TouchesAll(group, |group|, c, id) <==> NamesAny(changes, k, id)
  {
    if changes != [] {
      var n := |changes| - 1;
      var first, last := SplitAll(changes[..n], k), Split(changes[n], k);
      GroupTouches(changes[..n], k, c, id);
      SplitTouches(first, changes[n], k, c, id);
      NamesOneMore(changes[..n], changes[n], k, id);
      assert changes[..n] + [changes[n]] == changes;
    }
  }

  lemma SplitTouches(group: seq<Diff>, change: Diff, k: Fk, c: Rows, id: Key)
    requires IsFlat(change)
    ensures var all := group + Split(change, k);
            TouchesAll(all, |all|, c, id) <==> TouchesAll(group, |group|, c, id) || NamesOne(change, k, id)
  {
    TouchesPrefix(group, Split(change, k), |group|, c, id);
  }

  lemma NamesOneMore(changes: seq<Diff>, change: Diff, k: Fk, id: Key)
    requires AllFlat(changes) && IsFlat(change)
    ensures NamesAny(changes + [change], k, id) <==> NamesAny(changes, k, id) || NamesOne(change, k, id)
  {
    var all := changes + [change];
    assert all[|changes|] == change;
    if i :| 0 <= i < |changes| && NamesOne(changes[i], k, id) { assert NamesOne(all[i], k, id); }
  }

  lemma {:induction false} TouchesPrefix(a: seq<Diff>, b: seq<Diff>, n: nat, c: Rows, id: Key)
    requires n <= |a|
    ensures TouchesAll(a + b, n, c, id) <==> TouchesAll(a, n, c, id)
  {
    if n > 0 {
      TouchesPrefix(a, b, n - 1, c, id);
      MutatePrefix(c, a, b, n - 1);
    }
  }

  /** Wherever in the order an action stands, it touches exactly the rows the phase names for its key. */
  lemma DealTouches(u: Union, phase: Diff, live: set<Fk>, actions: seq<Action>, n: nat, store: Rows, id: Key)
    requires IsPhase(phase) && BucketsFollow(u, store) && Deals(phase, live, actions) && n < |actions|
    ensures TouchedBy(Dispatch(u, actions, n), actions[n], id)
            <==> actions[n].fk in Namers(phase, store, u.contributions.Keys, id)
  {
    var a := actions[n];
    DispatchKeepsKeys(u, actions, n);
    if a.fk in u.contributions {
      DispatchReplays(u, actions, n, a.fk);
      ReplayOthers(actions[..n], a.fk, u.contributions[a.fk]);
      assert IsPart(a, phase);
      if phase.Batch? { GroupTouches(phase.changes, a.fk, u.contributions[a.fk], id); }
    }
  }

  lemma NamedIsConcerned(phase: Diff, before: Rows, k: Fk, id: Key)
    requires IsPhase(phase) && Names(phase, before, k, id)
    ensures Concerns(phase, k)
  {
    if phase.Batch? {
      var i :| 0 <= i < |phase.changes| && NamesOne(phase.changes[i], k, id);
      GroupHas(phase.changes, i, k);
    }
  }

  lemma {:induction false} GroupHas(changes: seq<Diff>, i: nat, k: Fk)
    requires AllFlat(changes) && i < |changes| && Split(changes[i], k) != []
    ensures SplitAll(changes, k) != []
  {
    var n := |changes| - 1;
    assert SplitAll(changes, k) == SplitAll(changes[..n], k) + Split(changes[n], k);
    if i < n {
      assert changes[..n][i] == changes[i];
      GroupHas(changes[..n], i, k);
    }
  }

  /** The actions touch the row exactly where they are for one of these keys. */
  ghost predicate TouchFor(u: Union, actions: seq<Action>, namers: set<Fk>, id: Key) {
    forall i :: 0 <= i < |actions| ==> TouchesFor(u, actions, i, namers, id)
  }

  ghost predicate TouchesFor(u: Union, actions: seq<Action>, i: nat, namers: set<Fk>, id: Key)
    requires i < |actions|
  {
    TouchedBy(Dispatch(u, actions, i), actions[i], id) <==> actions[i].fk in namers
  }

  /** Among the first `n` actions the last toucher is one of these keys, or there is none of these keys. */
  ghost predicate SoFar(last: Option<Fk>, actions: seq<Action>, n: nat, namers: set<Fk>)
    requires n <= |actions|
  {
    (last.Some? ==> last.value in namers) && (last == None ==> forall i :: 0 <= i < n ==> actions[i].fk !in namers)
  }

  lemma {:induction false} LastForOne(u: Union, actions: seq<Action>, n: nat, namers: set<Fk>, id: Key)
    requires n <= |actions| && TouchFor(u, actions, namers, id)
    ensures SoFar(LastToucher(u, actions, n, id), actions, n, namers)
  {
    if n > 0 {
      LastForOne(u, actions, n - 1, namers, id);
      assert TouchesFor(u, actions, n - 1, namers, id);
    }
  }

  lemma DealTouchesFor(u: Union, phase: Diff, live: set<Fk>, actions: seq<Action>, store: Rows, id: Key)
    requires IsPhase(phase) && BucketsFollow(u, store) && Deals(phase, live, actions)
    ensures TouchFor(u, actions, Namers(phase, store, u.contributions.Keys, id), id)
  {
    forall i | 0 <= i < |actions|
      ensures TouchesFor(u, actions, i, Namers(phase, store, u.contributions.Keys, id), id)
    {
      DealTouches(u, phase, live, actions, i, store, id);
    }
  }

  lemma NamedHasAction(phase: Diff, live: set<Fk>, actions: seq<Action>, store: Rows, k: Fk, id: Key)
    requires IsPhase(phase) && Deals(phase, live, actions) && k in live && Names(phase, store, k, id)
    ensures exists i :: 0 <= i < |actions| && actions[i].fk == k
  {
    NamedIsConcerned(phase, store, k, id);
    assert Keyed(actions, k);
  }

  /** Somebody touched the row last exactly if it is named for somebody, and that is one of them. */
  predicate IsOneOf(last: Option<Fk>, namers: set<Fk>) {
    (last == None <==> namers == {}) && (last.Some? ==> last.value in namers)
  }

  lemma DealDecides(u: Union, phase: Diff, live: set<Fk>, actions: seq<Action>, store: Rows, id: Key)
    requires IsPhase(phase) && BucketsFollow(u, store) && u.contributions.Keys <= live && Deals(phase, live, actions)
    ensures var last, namers := LastToucher(u, actions, |actions|, id), Namers(phase, store, u.contributions.Keys, id);
            && IsOneOf(last, namers)
            && (actions != [] && actions[|actions| - 1].fk in namers ==> last == Some(actions[|actions| - 1].fk))
  {
    var namers := Namers(phase, store, u.contributions.Keys, id);
    DealTouchesFor(u, phase, live, actions, store, id);
    LastForOne(u, actions, |actions|, namers, id);
    if k :| k in namers { NamedHasAction(phase, live, actions, store, k, id); }
    if actions != [] { assert TouchesFor(u, actions, |actions| - 1, namers, id); }
  }

  // ---------------------------------------------------------------- one list of actions after another

  lemma {:induction false} DispatchPrefix(u: Union, a: seq<Action>, b: seq<Action>, n: nat)
    requires n <= |a|
    ensures Dispatch(u, a + b, n) == Dispatch(u, a, n)
  {
    if n > 0 { DispatchPrefix(u, a, b, n - 1); }
  }

  lemma {:induction false} DispatchAppend(u: Union, a: seq<Action>, b: seq<Action>, n: nat, m: nat)
    requires n <= |b| && m == |a| + n
    ensures Dispatch(u, a + b, m) == Dispatch(Dispatch(u, a, |a|), b, n)
  {
    if n == 0 {
      DispatchPrefix(u, a, b, |a|);
    } else {
      DispatchAppend(u, a, b, n - 1, m - 1);
    }
  }

  lemma {:induction false} LastToucherPrefix(u: Union, a: seq<Action>, b: seq<Action>, n: nat, id: Key)
    requires n <= |a|
    ensures LastToucher(u, a + b, n, id) == LastToucher(u, a, n, id)
  {
    if n > 0 {
      LastToucherPrefix(u, a, b, n - 1, id);
      DispatchPrefix(u, a, b, n - 1);
    }
  }

  lemma {:induction false} LastToucherAppend(u: Union, a: seq<Action>, b: seq<Action>, n: nat, m: nat, id: Key)
    requires n <= |b| && m == |a| + n
    ensures var later := LastToucher(Dispatch(u, a, |a|), b, n, id);
            LastToucher(u, a + b, m, id) == if later.Some? then later else LastToucher(u, a, |a|, id)
  {
    if n == 0 {
      LastToucherPrefix(u, a, b, |a|, id);
    } else {
      LastToucherAppend(u, a, b, n - 1, m - 1, id);
      DispatchAppend(u, a, b, n - 1, m - 1);
    }
  }

  lemma AfterDeals(u: Union, phases: seq<Diff>, n: nat, live: set<Fk>, actions: seq<Action>, store: Rows)
    requires ArePhases(phases) && n <= |phases| && TruthfulAll(store, phases, n) && DealsAll(phases, n, live, actions)
    requires BucketsFollow(u, store) && u.contributions.Keys <= live
    ensures var t := Dispatch(u, actions, |actions|);
            BucketsFollow(t, MutateAll(store, phases, n)) && t.contributions.Keys == u.contributions.Keys
  {
    DealsAllDeliver(phases, n, live, actions, store);
    BucketsFollowDiff(u, actions, live, store, MutateAll(store, phases, n));
  }

  /** Whatever the order, a row is touched last for one of the keys it is named for last. */
  lemma {:induction false} LastToucherIsLastNamer(
    u: Union, phases: seq<Diff>, n: nat, live: set<Fk>, actions: seq<Action>, store: Rows, id: Key)
    requires ArePhases(phases) && n <= |phases| && TruthfulAll(store, phases, n) && DealsAll(phases, n, live, actions)
    requires BucketsFollow(u, store) && u.contributions.Keys <= live
    ensures IsOneOf(LastToucher(u, actions, |actions|, id), LastNamers(phases, n, store, u.contributions.Keys, id))
    decreases n
  {
    if n > 0 {
      var a, b := LastDeal(phases, n, live, actions);
      LastToucherIsLastNamer(u, phases, n - 1, live, a, store, id);
      AfterDeals(u, phases, n - 1, live, a, store);
      DealDecides(Dispatch(u, a, |a|), phases[n - 1], live, b, MutateAll(store, phases, n - 1), id);
      TouchedLater(u, phases, n, a, b, store, id);
    }
  }

  lemma TouchedLater(u: Union, phases: seq<Diff>, n: nat, a: seq<Action>, b: seq<Action>, store: Rows, id: Key)
    requires ArePhases(phases) && 0 < n <= |phases|
    requires IsOneOf(LastToucher(u, a, |a|, id), LastNamers(phases, n - 1, store, u.contributions.Keys, id))
    requires IsOneOf(LastToucher(Dispatch(u, a, |a|), b, |b|, id),
                           Namers(phases[n - 1], MutateAll(store, phases, n - 1), u.contributions.Keys, id))
    ensures IsOneOf(LastToucher(u, a + b, |a + b|, id), LastNamers(phases, n, store, u.contributions.Keys, id))
  {
    LastToucherAppend(u, a, b, |b|, |a + b|, id);
  }

  // ---------------------------------------------------------------- an order that tells a given key last

  lemma {:induction false} ListingOf(rows: Rows) returns (entries: seq<Entry<Item>>)
    ensures FromEntries(entries) == rows
    decreases |rows|
  {
    if rows == map[] {
      entries := [];
    } else {
      var id :| id in rows;
      assert (rows - {id}).Keys == rows.Keys - {id};
      var others := ListingOf(rows - {id});
      entries := others + [Entry(id, rows[id])];
      assert entries[..|others|] == others;
    }
  }

  lemma PartOf(phase: Diff, k: Fk) returns (a: Action)
    requires IsPhase(phase)
    ensures a.fk == k && IsPart(a, phase)
  {
    if phase.Initial? {
      var listing := ListingOf(Pick(FromEntries(phase.entries), k));
      a := Action(k, Initial(listing));
    } else {
      a := Action(k, Batch(SplitAll(phase.changes, k)));
    }
  }

  lemma {:induction false} DealTo(phase: Diff, keys: set<Fk>) returns (actions: seq<Action>)
    requires IsPhase(phase)
    ensures Deals(phase, keys, actions)
    decreases keys
  {
    if keys == {} {
      actions := [];
    } else {
      var k :| k in keys;
      actions := DealTo(phase, keys - {k});
      actions := DealLast(phase, keys, k, actions);
    }
  }

  lemma DealLast(phase: Diff, keys: set<Fk>, k: Fk, others: seq<Action>) returns (actions: seq<Action>)
    requires IsPhase(phase) && k in keys && Deals(phase, keys - {k}, others)
    ensures Deals(phase, keys, actions)
    ensures Concerns(phase, k) ==> actions != [] && actions[|actions| - 1].fk == k
  {
    assert keys - {k} + {k} == keys;
    actions := others;
    if Concerns(phase, k) {
      var a := PartOf(phase, k);
      DealsNext(phase, keys - {k}, others, a);
      actions := others + [a];
    }
  }

  /** In this order `k` touches the row last, if it is one of those that could. */
  ghost predicate ToldLast(u: Union, phases: seq<Diff>, n: nat, actions: seq<Action>, store: Rows, id: Key, k: Fk)
    requires ArePhases(phases) && n <= |phases|
  {
    k in LastNamers(phases, n, store, u.contributions.Keys, id) ==> LastToucher(u, actions, |actions|, id) == Some(k)
  }

  ghost predicate ToldLastIn(u: Union, phase: Diff, actions: seq<Action>, store: Rows, id: Key, k: Fk)
    requires IsPhase(phase)
  {
    var last, namers := LastToucher(u, actions, |actions|, id), Namers(phase, store, u.contributions.Keys, id);
    (last == None <==> namers == {}) && (k in namers ==> last == Some(k))
  }

  lemma DealLastTold(u: Union, phase: Diff, live: set<Fk>, store: Rows, k: Fk, id: Key) returns (actions: seq<Action>)
    requires IsPhase(phase) && BucketsFollow(u, store) && u.contributions.Keys <= live && k in live
    ensures Deals(phase, live, actions)
    ensures ToldLastIn(u, phase, actions, store, id, k)
  {
    var others := DealTo(phase, live - {k});
    actions := DealLast(phase, live, k, others);
    DealDecides(u, phase, live, actions, store, id);
    if Names(phase, store, k, id) { NamedIsConcerned(phase, store, k, id); }
  }

  lemma StillToldLast(u: Union, phases: seq<Diff>, n: nat, a: seq<Action>, b: seq<Action>, store: Rows, id: Key, k: Fk)
    requires ArePhases(phases) && 0 < n <= |phases|
    requires ToldLast(u, phases, n - 1, a, store, id, k)
    requires var t := Dispatch(u, a, |a|);
             t.contributions.Keys == u.contributions.Keys
             && ToldLastIn(t, phases[n - 1], b, MutateAll(store, phases, n - 1), id, k)
    ensures ToldLast(u, phases, n, a + b, store, id, k)
  {
    LastToucherAppend(u, a, b, |b|, |a + b|, id);
  }

  lemma {:induction false} DealAllLast(phases: seq<Diff>, n: nat, live: set<Fk>, k: Fk, u: Union, store: Rows, id: Key)
    returns (actions: seq<Action>)
    requires ArePhases(phases) && n <= |phases| && TruthfulAll(store, phases, n)
    requires BucketsFollow(u, store) && u.contributions.Keys <= live && k in live
    ensures DealsAll(phases, n, live, actions)
    ensures ToldLast(u, phases, n, actions, store, id, k)
    decreases n
  {
    if n == 0 {
      actions := [];
    } else {
      actions := DealAllLast(phases, n - 1, live, k, u, store, id);
      actions := DealNextLast(phases, n, live, k, u, store, id, actions);
    }
  }

  lemma DealNextLast(phases: seq<Diff>, n: nat, live: set<Fk>, k: Fk, u: Union, store: Rows, id: Key, a: seq<Action>)
    returns (actions: seq<Action>)
    requires ArePhases(phases) && 0 < n <= |phases| && TruthfulAll(store, phases, n - 1)
    requires BucketsFollow(u, store) && u.contributions.Keys <= live && k in live
    requires DealsAll(phases, n - 1, live, a) && ToldLast(u, phases, n - 1, a, store, id, k)
    ensures DealsAll(phases, n, live, actions) && ToldLast(u, phases, n, actions, store, id, k)
  {
    var t, phase, mid := Dispatch(u, a, |a|), phases[n - 1], MutateAll(store, phases, n - 1);
    AfterDeals(u, phases, n - 1, live, a, store);
    var b := DealLastTold(t, phase, live, mid, k, id);
    DealsOneMore(phases, n - 1, live, a, b);
    StillToldLast(u, phases, n, a, b, store, id, k);
    actions := a + b;
  }

  // ---------------------------------------------------------------- the theorem

  /** The union holds the store's rows with its keys. */
  ghost predicate IsRight(u: Union, store: Rows) {
    u.result == WithKeys(store, u.contributions.Keys)
  }

  lemma SafeStaysRight(u: Union, diff: Diff, live: set<Fk>, actions: seq<Action>, store: Rows)
    requires Truthful(store, diff) && BucketsFollow(u, store) && IsRight(u, store) && u.contributions.Keys <= live
    requires Safe(diff, store, u.contributions.Keys) && Prepared(diff, live, actions)
    ensures HomeTouchesLast(u, actions)
    ensures IsRight(Dispatch(u, actions, |actions|), Mutate(store, diff))
  {
    var to, keys := Mutate(store, diff), u.contributions.Keys;
    PreparedDelivers(diff, live, actions, store);
    UnionAfterDiff(u, actions, live, store, to);
    var t := Dispatch(u, actions, |actions|);
    DispatchKeepsKeys(u, actions, |actions|);
    forall k, id | In(t.contributions, k, id) ensures LastToucher(u, actions, |actions|, id) in {None, Some(k)} {
      assert id in WithKeys(to, keys) && to[id].fk == k;
      SafeLastToucher(u, diff, live, actions, store, id);
    }
  }

  /** A safe diff touches a row last for the key under which it ends. */
  lemma SafeLastToucher(u: Union, diff: Diff, live: set<Fk>, actions: seq<Action>, store: Rows, id: Key)
    requires Truthful(store, diff) && BucketsFollow(u, store) && u.contributions.Keys <= live
    requires Safe(diff, store, u.contributions.Keys) && Prepared(diff, live, actions)
    requires id in WithKeys(Mutate(store, diff), u.contributions.Keys)
    ensures LastToucher(u, actions, |actions|, id) in {None, Some(Mutate(store, diff)[id].fk)}
  {
    PhasesMean(store, diff);
    LastToucherIsLastNamer(u, Phases(diff), |Phases(diff)|, live, actions, store, id);
  }

  /** Tell last the key for which the row is named besides the one it ends under. */
  lemma UnsafeGoesWrong(u: Union, diff: Diff, live: set<Fk>, store: Rows, id: Key, k: Fk) returns (actions: seq<Action>)
    requires Truthful(store, diff) && BucketsFollow(u, store) && IsRight(u, store) && u.contributions.Keys <= live
    requires var to := Mutate(store, diff);
             && id in WithKeys(to, u.contributions.Keys) && k != to[id].fk
             && k in LastNamers(Phases(diff), |Phases(diff)|, store, u.contributions.Keys, id)
    ensures Prepared(diff, live, actions) && !IsRight(Dispatch(u, actions, |actions|), Mutate(store, diff))
  {
    var to, phases := Mutate(store, diff), Phases(diff);
    PhasesMean(store, diff);
    LastNamersAreKeys(phases, |phases|, store, u.contributions.Keys, id);
    actions := DealAllLast(phases, |phases|, live, k, u, store, id);
    PreparedDelivers(diff, live, actions, store);
    UnionAfterDiff(u, actions, live, store, to);
    DispatchKeepsKeys(u, actions, |actions|);
    assert In(Dispatch(u, actions, |actions|).contributions, to[id].fk, id);
  }

  lemma {:induction false} LastNamersAreKeys(phases: seq<Diff>, n: nat, store: Rows, keys: set<Fk>, id: Key)
    requires ArePhases(phases) && n <= |phases|
    ensures LastNamers(phases, n, store, keys, id) <= keys
  {
    if n > 0 { LastNamersAreKeys(phases, n - 1, store, keys, id); }
  }

  /**
   A right union is right after a diff in whatever order the index hands out its actions if and only if the diff
   is safe for the keys of the union.
   */
  lemma DiffSafeIff(u: Union, diff: Diff, live: set<Fk>, store: Rows)
    requires Truthful(store, diff) && BucketsFollow(u, store) && IsRight(u, store) && u.contributions.Keys <= live
    ensures (forall actions :: Prepared(diff, live, actions) ==>
                                 IsRight(Dispatch(u, actions, |actions|), Mutate(store, diff)))
            <==> Safe(diff, store, u.contributions.Keys)
  {
    if Safe(diff, store, u.contributions.Keys) {
      forall actions | Prepared(diff, live, actions)
        ensures IsRight(Dispatch(u, actions, |actions|), Mutate(store, diff))
      {
        SafeStaysRight(u, diff, live, actions, store);
      }
    } else {
      var to, phases := Mutate(store, diff), Phases(diff);
      var id :| id in WithKeys(to, u.contributions.Keys)
        && !(LastNamers(phases, |phases|, store, u.contributions.Keys, id) <= {to[id].fk});
      var k :| k in LastNamers(phases, |phases|, store, u.contributions.Keys, id) && k != to[id].fk;
      var actions := UnsafeGoesWrong(u, diff, live, store, id, k);
    }
  }
}
