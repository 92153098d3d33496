/**
 How an index splits the store's diffs by key: the groups it forms, and every order in which it may hand them to
 the buckets.
 */
module IndexOrders {
  import opened QueryStoreSpec
  import opened UnionSource

  // ---------------------------------------------------------------- one change, split by key

  /** The changes a flat change means for the bucket of `k`; a row that changes its key leaves one and joins another. */
  function Split(diff: Diff, k: Fk): seq<Diff>
    requires IsFlat(diff)
  {
    match diff
    case Insert(key, value) => if value.fk == k then [diff] else []
    case Remove(key, old_) => if old_.fk == k then [diff] else []
    case Update(key, old_, new_) =>
      if old_.fk == new_.fk then if new_.fk == k then [diff] else []
      else if old_.fk == k then [Remove(key, old_)]
      else if new_.fk == k then [Insert(key, new_)]
      else []
    case _ => []
  }

  lemma SplitFollows(store: Rows, diff: Diff, k: Fk)
    requires IsFlat(diff) && Truthful(store, diff)
    ensures var changes := Split(diff, k);
            MutateAll(Pick(store, k), changes, |changes|) == Pick(Mutate(store, diff), k)
  {
    SplitMeans(store, diff, k);
    var changes := Split(diff, k);
    if changes != [] {
      assert MutateAll(Pick(store, k), changes, 1) == Mutate(Pick(store, k), changes[0]);
    }
  }

  lemma SplitMeans(store: Rows, diff: Diff, k: Fk)
    requires IsFlat(diff) && Truthful(store, diff)
    ensures |Split(diff, k)| <= 1
    ensures Split(diff, k) == [] ==> Pick(Mutate(store, diff), k) == Pick(store, k)
    ensures Split(diff, k) != [] ==> Pick(Mutate(store, diff), k) == Mutate(Pick(store, k), Split(diff, k)[0])
  {
  }

  lemma {:induction false} MutateAppend(m: Rows, a: seq<Diff>, b: seq<Diff>, n: nat)
    requires n <= |b|
    ensures MutateAll(m, a + b, |a| + n) == MutateAll(MutateAll(m, a, |a|), b, n)
  {
    if n == 0 {
      MutatePrefix(m, a, b, |a|);
    } else {
      MutateAppend(m, a, b, n - 1);
    }
  }

  lemma {:induction false} MutatePrefix(m: Rows, a: seq<Diff>, b: seq<Diff>, n: nat)
    requires n <= |a|
    ensures MutateAll(m, a + b, n) == MutateAll(m, a, n)
  {
    if n > 0 { MutatePrefix(m, a, b, n - 1); }
  }

  lemma {:induction false} TruthfulAppend(m: Rows, a: seq<Diff>, b: seq<Diff>, n: nat)
    requires n <= |b|
    ensures TruthfulAll(m, a + b, |a| + n)
            <==> TruthfulAll(m, a, |a|) && TruthfulAll(MutateAll(m, a, |a|), b, n)
  {
    if n == 0 {
      TruthfulFirst(m, a, b, |a|);
    } else {
      TruthfulAppend(m, a, b, n - 1);
      MutateAppend(m, a, b, n - 1);
    }
  }

  lemma {:induction false} TruthfulFirst(m: Rows, a: seq<Diff>, b: seq<Diff>, n: nat)
    requires n <= |a|
    ensures TruthfulAll(m, a + b, n) <==> TruthfulAll(m, a, n)
  {
    if n > 0 {
      TruthfulFirst(m, a, b, n - 1);
      MutatePrefix(m, a, b, n - 1);
    }
  }

  predicate AllFlat(changes: seq<Diff>) {
    forall i :: 0 <= i < |changes| ==> IsFlat(changes[i])
  }

  /** The group of `k` among these changes. */
  function SplitAll(changes: seq<Diff>, k: Fk): seq<Diff>
    requires AllFlat(changes)
  {
    if changes == [] then [] else SplitAll(changes[..|changes| - 1], k) + Split(changes[|changes| - 1], k)
  }

  lemma SplitAllOneMore(changes: seq<Diff>, change: Diff, k: Fk)
    requires AllFlat(changes) && IsFlat(change)
    ensures SplitAll(changes + [change], k) == SplitAll(changes, k) + Split(change, k)
  {
    assert (changes + [change])[..|changes|] == changes;
  }

  /** The group of a key takes its rows from before the changes to after them. */
  lemma {:induction false} SplitAllFollows(store: Rows, changes: seq<Diff>, k: Fk)
    requires AllFlat(changes) && TruthfulAll(store, changes, |changes|)
    ensures var group := SplitAll(changes, k);
            MutateAll(Pick(store, k), group, |group|) == Pick(MutateAll(store, changes, |changes|), k)
  {
    if changes != [] {
      var n := |changes| - 1;
      var first, last := changes[..n], changes[n];
      assert first + [last] == changes;
      TruthfulFirst(store, first, [last], n);
      MutatePrefix(store, first, [last], n);
      SplitAllFollows(store, first, k);
      GroupFollows(Pick(store, k), SplitAll(first, k), last, MutateAll(store, first, n), k);
    }
  }

  lemma GroupFollows(rows: Rows, group: seq<Diff>, change: Diff, store: Rows, k: Fk)
    requires IsFlat(change) && Truthful(store, change) && MutateAll(rows, group, |group|) == Pick(store, k)
    ensures var all := group + Split(change, k); MutateAll(rows, all, |all|) == Pick(Mutate(store, change), k)
  {
    MutateAppend(rows, group, Split(change, k), |Split(change, k)|);
    SplitFollows(store, change, k);
  }

  // ---------------------------------------------------------------- phases

  /** What the index handles at once: a snapshot, or flat changes to be grouped. */
  predicate IsPhase(phase: Diff) {
    phase.Initial? || (phase.Batch? && AllFlat(phase.changes))
  }

  predicate ArePhases(phases: seq<Diff>) {
    forall i :: 0 <= i < |phases| ==> IsPhase(phases[i])
  }

  /** A batch partly handled: the phases so far, and the flat changes not grouped yet. */
  datatype Cut = Cut(done: seq<Diff>, open: seq<Diff>)

  function Phases(diff: Diff): (phases: seq<Diff>)
    ensures ArePhases(phases)
    decreases diff, 0
  {
    match diff
    case Initial(_) => [diff]
    case Batch(changes) =>
      var cut := CutAt(changes, |changes|);
      cut.done + [Batch(cut.open)]
    case _ => [Batch([diff])]
  }

  /** A snapshot or a nested batch ends the phase before it. */
  function CutAt(changes: seq<Diff>, n: nat): (cut: Cut)
    requires n <= |changes|
    ensures ArePhases(cut.done) && AllFlat(cut.open)
    decreases changes, n
  {
    if n == 0 then Cut([], [])
    else
      var cut := CutAt(changes, n - 1);
      if IsFlat(changes[n - 1]) then cut.(open := cut.open + [changes[n - 1]])
      else Cut(cut.done + [Batch(cut.open)] + Phases(changes[n - 1]), [])
  }

  /** The phases, one after the other, are the diff. */
  ghost predicate PhasesAre(store: Rows, phases: seq<Diff>, after: Rows) {
    TruthfulAll(store, phases, |phases|) && MutateAll(store, phases, |phases|) == after
  }

  lemma PhasesAppend(store: Rows, a: seq<Diff>, mid: Rows, b: seq<Diff>, after: Rows)
    requires PhasesAre(store, a, mid) && PhasesAre(mid, b, after)
    ensures PhasesAre(store, a + b, after)
  {
    TruthfulAppend(store, a, b, |b|);
    MutateAppend(store, a, b, |b|);
  }

  lemma OnePhase(store: Rows, phase: Diff)
    requires Truthful(store, phase)
    ensures PhasesAre(store, [phase], Mutate(store, phase))
  {
    assert MutateAll(store, [phase], 0) == store;
    assert TruthfulAll(store, [phase], 0);
  }

  lemma {:induction false} PhasesMean(store: Rows, diff: Diff)
    requires Truthful(store, diff)
    ensures PhasesAre(store, Phases(diff), Mutate(store, diff))
    decreases diff, 0
  {
    match diff
    case Initial(_) => OnePhase(store, diff);
    case Batch(changes) =>
      CutMeans(store, changes, |changes|);
      var cut := CutAt(changes, |changes|);
      var mid := MutateAll(store, cut.done, |cut.done|);
      OnePhase(mid, Batch(cut.open));
      PhasesAppend(store, cut.done, mid, [Batch(cut.open)], Mutate(store, diff));
    case _ =>
      OnePhase(store, diff);
      OnePhase(store, Batch([diff]));
  }

  lemma {:induction false} CutMeans(store: Rows, changes: seq<Diff>, n: nat)
    requires n <= |changes| && TruthfulAll(store, changes, n)
    ensures var cut := CutAt(changes, n);
            var mid := MutateAll(store, cut.done, |cut.done|);
            PhasesAre(store, cut.done, mid) && PhasesAre(mid, cut.open, MutateAll(store, changes, n))
    decreases changes, n
  {
    if n > 0 {
      CutMeans(store, changes, n - 1);
      var cut, now := CutAt(changes, n - 1), MutateAll(store, changes, n - 1);
      var mid := MutateAll(store, cut.done, |cut.done|);
      if IsFlat(changes[n - 1]) {
        OnePhase(now, changes[n - 1]);
        PhasesAppend(mid, cut.open, now, [changes[n - 1]], MutateAll(store, changes, n));
      } else {
        OnePhase(mid, Batch(cut.open));
        PhasesAppend(store, cut.done, mid, [Batch(cut.open)], now);
        PhasesMean(now, changes[n - 1]);
        PhasesAppend(store, cut.done + [Batch(cut.open)], now, Phases(changes[n - 1]), MutateAll(store, changes, n));
      }
    }
  }

  // ---------------------------------------------------------------- actions

  /** What the actions for `k`, in order, make of a bucket. */
  function ReplayAt(actions: seq<Action>, k: Fk, m: Rows): Rows {
    if actions == [] then m
    else
      var n := |actions| - 1;
      var before := ReplayAt(actions[..n], k, m);
      if actions[n].fk == k then Mutate(before, actions[n].diff) else before
  }

  lemma {:induction false} ReplayAppend(a: seq<Action>, b: seq<Action>, k: Fk, m: Rows)
    ensures ReplayAt(a + b, k, m) == ReplayAt(b, k, ReplayAt(a, k, m))
    decreases |b|
  {
    if b == [] {
      assert a + b == a;
    } else {
      var n := |b| - 1;
      assert (a + b)[..|a| + n] == a + b[..n];
      ReplayAppend(a, b[..n], k, m);
    }
  }

  lemma {:induction false} ReplayOthers(actions: seq<Action>, k: Fk, m: Rows)
    requires forall i :: 0 <= i < |actions| ==> actions[i].fk != k
    ensures ReplayAt(actions, k, m) == m
  {
    if actions != [] { ReplayOthers(actions[..|actions| - 1], k, m); }
  }

  /** The actions take every live bucket from the rows of one store to those of another. */
  ghost predicate Delivers(actions: seq<Action>, live: set<Fk>, from: Rows, to: Rows) {
    && (forall i :: 0 <= i < |actions| ==> actions[i].fk in live)
    && (forall k :: k in live ==> ReplayAt(actions, k, Pick(from, k)) == Pick(to, k))
  }

  lemma DeliversAppend(a: seq<Action>, b: seq<Action>, live: set<Fk>, from: Rows, mid: Rows, to: Rows)
    requires Delivers(a, live, from, mid) && Delivers(b, live, mid, to)
    ensures Delivers(a + b, live, from, to)
  {
    forall k | k in live ensures ReplayAt(a + b, k, Pick(from, k)) == Pick(to, k) {
      ReplayAppend(a, b, k, Pick(from, k));
    }
  }

  /** A phase has something for the bucket of `k`; a snapshot has for every bucket. */
  predicate Concerns(phase: Diff, k: Fk)
    requires IsPhase(phase)
  {
    phase.Initial? || SplitAll(phase.changes, k) != []
  }

  /** The action is what the phase has for its key: the rows in any order, or the group. */
  predicate IsPart(a: Action, phase: Diff)
    requires IsPhase(phase)
  {
    match phase
    case Initial(entries) => a.diff.Initial? && FromEntries(a.diff.entries) == Pick(FromEntries(entries), a.fk)
    case Batch(changes) => a.diff == Batch(SplitAll(changes, a.fk))
  }

  predicate Keyed(actions: seq<Action>, k: Fk) {
    exists i :: 0 <= i < |actions| && actions[i].fk == k
  }

  /** One part of the phase for each of these keys that it concerns, in any order. */
  ghost predicate Deals(phase: Diff, keys: set<Fk>, actions: seq<Action>)
    requires IsPhase(phase)
  {
    && (forall i :: 0 <= i < |actions| ==> actions[i].fk in keys && IsPart(actions[i], phase))
    && (forall i, j :: 0 <= i < j < |actions| ==> actions[i].fk != actions[j].fk)
    && (forall k :: k in keys ==> (Keyed(actions, k) <==> Concerns(phase, k)))
  }

  lemma DealsNext(phase: Diff, keys: set<Fk>, actions: seq<Action>, a: Action)
    requires IsPhase(phase) && Deals(phase, keys, actions)
    requires a.fk !in keys && IsPart(a, phase) && Concerns(phase, a.fk)
    ensures Deals(phase, keys + {a.fk}, actions + [a])
  {
    var next := actions + [a];
    assert next[|actions|] == a;
    forall k | k in keys + {a.fk} ensures Keyed(next, k) <==> Concerns(phase, k) {
      if i :| 0 <= i < |actions| && actions[i].fk == k { assert next[i].fk == k; }
    }
  }

  /** The parts of the first `n` phases, one phase after the other. */
  ghost predicate DealsAll(phases: seq<Diff>, n: nat, live: set<Fk>, actions: seq<Action>)
    requires ArePhases(phases) && n <= |phases|
    decreases n, 1
  {
    if n == 0 then actions == [] else exists cut :: DealsAt(phases, n, live, actions, cut)
  }

  /** The actions from `cut` on are those of the last phase. */
  ghost predicate DealsAt(phases: seq<Diff>, n: nat, live: set<Fk>, actions: seq<Action>, cut: nat)
    requires ArePhases(phases) && 0 < n <= |phases|
    decreases n, 0
  {
    && cut <= |actions|
    && DealsAll(phases, n - 1, live, actions[..cut]) && Deals(phases[n - 1], live, actions[cut..])
  }

  /** These are actions the index may hand to the live buckets for the diff, whatever order its maps have. */
  ghost predicate Prepared(diff: Diff, live: set<Fk>, actions: seq<Action>) {
    DealsAll(Phases(diff), |Phases(diff)|, live, actions)
  }

  lemma DealsOneMore(phases: seq<Diff>, n: nat, live: set<Fk>, a: seq<Action>, b: seq<Action>)
    requires ArePhases(phases) && n < |phases|
    requires DealsAll(phases, n, live, a) && Deals(phases[n], live, b)
    ensures DealsAll(phases, n + 1, live, a + b)
  {
    assert (a + b)[..|a|] == a && (a + b)[|a|..] == b;
    assert DealsAt(phases, n + 1, live, a + b, |a|);
  }

  lemma LastDeal(phases: seq<Diff>, n: nat, live: set<Fk>, actions: seq<Action>)
    returns (before: seq<Action>, last: seq<Action>)
    requires ArePhases(phases) && 0 < n <= |phases| && DealsAll(phases, n, live, actions)
    ensures actions == before + last && DealsAll(phases, n - 1, live, before) && Deals(phases[n - 1], live, last)
  {
    var cut: nat :| DealsAt(phases, n, live, actions, cut);
    before, last := actions[..cut], actions[cut..];
  }

  lemma {:induction false} DealsPrefix(p: seq<Diff>, q: seq<Diff>, n: nat, live: set<Fk>, actions: seq<Action>)
    requires ArePhases(p) && ArePhases(q) && n <= |p|
    ensures DealsAll(p + q, n, live, actions) <==> DealsAll(p, n, live, actions)
    decreases n
  {
    if n > 0 {
      forall cut: nat ensures DealsAt(p + q, n, live, actions, cut) <==> DealsAt(p, n, live, actions, cut) {
        if cut <= |actions| { DealsPrefix(p, q, n - 1, live, actions[..cut]); }
      }
    }
  }

  lemma {:induction false} DealsAppend(
    p: seq<Diff>, q: seq<Diff>, n: nat, live: set<Fk>, a: seq<Action>, b: seq<Action>)
    requires ArePhases(p) && ArePhases(q) && n <= |q|
    requires DealsAll(p, |p|, live, a) && DealsAll(q, n, live, b)
    ensures DealsAll(p + q, |p| + n, live, a + b)
    decreases n
  {
    if n == 0 {
      assert a + b == a;
      DealsPrefix(p, q, |p|, live, a);
    } else {
      var before, last := LastDeal(q, n, live, b);
      DealsAppend(p, q, n - 1, live, a, before);
      DealsNextPhase(p, q, n, live, a, before, last);
    }
  }

  lemma DealsNextPhase(p: seq<Diff>, q: seq<Diff>, n: nat, live: set<Fk>, a: seq<Action>, before: seq<Action>,
                       last: seq<Action>)
    requires ArePhases(p) && ArePhases(q) && 0 < n <= |q|
    requires DealsAll(p + q, |p| + n - 1, live, a + before) && Deals(q[n - 1], live, last)
    ensures DealsAll(p + q, |p| + n, live, a + (before + last))
  {
    assert (p + q)[|p| + n - 1] == q[n - 1];
    DealsOneMore(p + q, |p| + n - 1, live, a + before, last);
    assert a + (before + last) == a + before + last;
  }

  lemma OneDeal(phase: Diff, live: set<Fk>, actions: seq<Action>)
    requires IsPhase(phase) && Deals(phase, live, actions)
    ensures DealsAll([phase], 1, live, actions)
  {
    assert DealsAll([phase], 0, live, []);
    DealsOneMore([phase], 0, live, [], actions);
    assert [] + actions == actions;
  }

  /** With one action at most for each key, a bucket gets its part, if there is one. */
  lemma {:induction false} ReplayDistinct(actions: seq<Action>, k: Fk, m: Rows)
    requires forall i, j :: 0 <= i < j < |actions| ==> actions[i].fk != actions[j].fk
    ensures !Keyed(actions, k) ==> ReplayAt(actions, k, m) == m
    ensures forall i :: 0 <= i < |actions| && actions[i].fk == k ==>
                          ReplayAt(actions, k, m) == Mutate(m, actions[i].diff)
  {
    if actions != [] {
      var n := |actions| - 1;
      var first := actions[..n];
      ReplayDistinct(first, k, m);
      if actions[n].fk == k {
        ReplayOthers(first, k, m);
      } else if !Keyed(actions, k) {
        ReplayOthers(actions, k, m);
      } else {
        forall i | 0 <= i < |actions| && actions[i].fk == k
          ensures ReplayAt(actions, k, m) == Mutate(m, actions[i].diff)
        {
          assert first[i] == actions[i];
        }
      }
    }
  }

  lemma DealsDelivers(phase: Diff, live: set<Fk>, actions: seq<Action>, store: Rows)
    requires IsPhase(phase) && Truthful(store, phase) && Deals(phase, live, actions)
    ensures Delivers(actions, live, store, Mutate(store, phase))
  {
    forall k | k in live ensures ReplayAt(actions, k, Pick(store, k)) == Pick(Mutate(store, phase), k) {
      ReplayDistinct(actions, k, Pick(store, k));
      if phase.Batch? { SplitAllFollows(store, phase.changes, k); }
      if Keyed(actions, k) {
        var i :| 0 <= i < |actions| && actions[i].fk == k;
        assert IsPart(actions[i], phase);
      }
    }
  }

  lemma {:induction false} DealsAllDeliver(
    phases: seq<Diff>, n: nat, live: set<Fk>, actions: seq<Action>, store: Rows)
    requires ArePhases(phases) && n <= |phases| && TruthfulAll(store, phases, n)
    requires DealsAll(phases, n, live, actions)
    ensures Delivers(actions, live, store, MutateAll(store, phases, n))
    decreases n
  {
    if n > 0 {
      var before, last := LastDeal(phases, n, live, actions);
      DealsAllDeliver(phases, n - 1, live, before, store);
      var mid := MutateAll(store, phases, n - 1);
      DealsDelivers(phases[n - 1], live, last, mid);
      DeliversAppend(before, last, live, store, mid, MutateAll(store, phases, n));
    }
  }

  /** Whatever the order, the actions take every live bucket along with the store. */
  lemma PreparedDelivers(diff: Diff, live: set<Fk>, actions: seq<Action>, store: Rows)
    requires Truthful(store, diff) && Prepared(diff, live, actions)
    ensures Delivers(actions, live, store, Mutate(store, diff))
  {
    PhasesMean(store, diff);
    DealsAllDeliver(Phases(diff), |Phases(diff)|, live, actions, store);
  }
}
