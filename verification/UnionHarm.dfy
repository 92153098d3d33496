/**
 A step that is not harmless can make a union serve the wrong rows: the index hands out the actions of a diff in an
 unlucky order, or the union observes a bucket that is ahead of what is still queued.
 */
module UnionHarm {
  import opened Common
  import opened QueryStoreSpec
  import opened UnionSource
  import opened IndexOrders
  import opened UnionOverStore
  import opened UnionOrders
  import opened UnionSafety
  import opened UnionRuns
  import opened UnionSettling

  // ---------------------------------------------------------------- what may follow a step

  /** Nothing new from the store, and no new bucket. */
  predicate IsQuiet(step: Step) { step.Subscribe? || step.Deliver? }

  ghost predicate Leads(w: World, steps: seq<Step>, v: World)
    decreases |steps|
  {
    if steps == [] then v == w
    else IsQuiet(steps[0]) && Enabled(w, steps[0]) && Leads(Apply(w, steps[0]), steps[1..], v)
  }

  /** The same step, but for the order of the index's actions. */
  predicate Twins(a: Step, b: Step) {
    a == b || (a.StoreDiff? && b.StoreDiff? && a.diff == b.diff)
  }

  /** Everything is delivered and the union does not hold the rows of the buckets it observes. */
  ghost predicate IsWrong(v: World) {
    v.queue == [] && UnionAt(v).result != WithKeys(v.store, v.subscribed)
  }

  ghost predicate GoesWrong(w: World, step: Step, twin: Step, steps: seq<Step>, v: World) {
    Twins(step, twin) && Enabled(w, twin) && Leads(Apply(w, twin), steps, v) && IsWrong(v)
  }

  /** In some order of its actions, and some quiet course of things after it, the step leaves the union wrong. */
  ghost predicate CanGoWrong(w: World, step: Step) {
    exists twin, steps, v :: GoesWrong(w, step, twin, steps, v)
  }

  lemma {:induction false} LeadsToGood(w: World, steps: seq<Step>, v: World)
    requires Good(w) && Leads(w, steps, v)
    ensures Good(v)
    decreases |steps|
  {
    if steps != [] {
      StepKeepsGood(w, steps[0]);
      LeadsToGood(Apply(w, steps[0]), steps[1..], v);
    }
  }

  lemma {:induction false} LeadsOn(w: World, a: seq<Step>, u: World, b: seq<Step>, v: World)
    requires Leads(w, a, u) && Leads(u, b, v)
    ensures Leads(w, a + b, v)
    decreases |a|
  {
    if a == [] {
      assert a + b == b;
    } else {
      LeadsOn(Apply(w, a[0]), a[1..], u, b, v);
      assert (a + b)[1..] == a[1..] + b;
    }
  }

  lemma GoodIsNotWrong(v: World)
    requires Good(v)
    ensures !IsWrong(v)
  {
    assert v.queue == [] ==> Ahead(v) == Heard(v);
    assert Heard(v).contributions.Keys == v.subscribed;
  }

  lemma HarmlessCannotGoWrong(w: World, step: Step)
    requires Good(w) && Harmless(w, step)
    ensures !CanGoWrong(w, step)
  {
    forall twin, steps, v ensures !GoesWrong(w, step, twin, steps, v) {
      if GoesWrong(w, step, twin, steps, v) {
        StepKeepsGood(w, twin);
        LeadsToGood(Apply(w, twin), steps, v);
        GoodIsNotWrong(v);
      }
    }
  }

  // ---------------------------------------------------------------- ways to go on

  lemma {:induction false} DeliverAll(w: World) returns (steps: seq<Step>, v: World)
    requires Inv(w)
    ensures Leads(w, steps, v) && v.queue == [] && v.store == w.store && v.subscribed == w.subscribed
    ensures UnionAt(v).result == Ahead(w).result
    decreases |w.queue|
  {
    if w.queue == [] {
      steps, v := [], w;
    } else {
      DeliverKeepsInv(w);
      DeliverKeepsAhead(w);
      steps, v := DeliverAll(Apply(w, Deliver));
      steps := [Deliver] + steps;
      assert steps[1..] == steps[1..];
      LeadsFirst(w, Deliver, steps[1..], v);
    }
  }

  lemma LeadsFirst(w: World, step: Step, steps: seq<Step>, v: World)
    requires IsQuiet(step) && Enabled(w, step) && Leads(Apply(w, step), steps, v)
    ensures Leads(w, [step] + steps, v)
  {
    assert ([step] + steps)[1..] == steps;
  }

  /** The world with the union observing one bucket more. */
  function Attending(w: World, k: Fk, listing: seq<Entry<Item>>): World {
    if k in w.subscribed then w
    else w.(subscribed := w.subscribed + {k}, told := w.told + [Action(k, Initial(listing))])
  }

  /** What it takes is the same whatever is stored and queued. */
  lemma Attend(w: World, k: Fk) returns (listing: seq<Entry<Item>>, steps: seq<Step>)
    requires k in w.keys && k in w.buckets
    ensures forall store, queue ::
              var x := w.(store := store, queue := queue); Leads(x, steps, Attending(x, k, listing))
  {
    listing, steps := [], [];
    if k !in w.subscribed {
      listing := ListingOf(w.buckets[k]);
      steps := [Subscribe(k, listing)];
      forall store, queue
        ensures var x := w.(store := store, queue := queue); Leads(x, steps, Attending(x, k, listing))
      {
        var x := w.(store := store, queue := queue);
        assert Leads(Apply(x, steps[0]), steps[1..], Attending(x, k, listing));
      }
    }
  }

  /** The world with the union observing two buckets more, and a way there. */
  lemma AttendBoth(w: World, j: Fk, k: Fk) returns (u: World, steps: seq<Step>)
    requires j in w.keys && j in w.buckets && k in w.keys && k in w.buckets
    ensures u == w.(subscribed := w.subscribed + {j, k}, told := u.told)
    ensures forall store, queue ::
              Leads(w.(store := store, queue := queue), steps, u.(store := store, queue := queue))
  {
    var first, a := Attend(w, j);
    var mid := Attending(w, j, first);
    var second, b := Attend(mid, k);
    u, steps := Attending(mid, k, second), a + b;
    forall store, queue
      ensures Leads(w.(store := store, queue := queue), steps, u.(store := store, queue := queue))
    {
      LeadsOn(w.(store := store, queue := queue), a, mid.(store := store, queue := queue), b,
              u.(store := store, queue := queue));
    }
  }

  lemma WrongAhead(w: World, step: Step, twin: Step, steps: seq<Step>, u: World)
    requires Twins(step, twin) && Enabled(w, twin) && Leads(Apply(w, twin), steps, u)
    requires Inv(u) && Ahead(u).result != WithKeys(u.store, u.subscribed)
    ensures CanGoWrong(w, step)
  {
    var rest, end := DeliverAll(u);
    LeadsOn(Apply(w, twin), steps, u, rest, end);
    assert GoesWrong(w, step, twin, steps + rest, end);
  }

  // ---------------------------------------------------------------- a diff that is not safe

  lemma UnsafeDiffCanGoWrong(w: World, diff: Diff, actions: seq<Action>)
    requires Good(w) && Enabled(w, StoreDiff(diff, actions)) && !Harmless(w, StoreDiff(diff, actions))
    ensures CanGoWrong(w, StoreDiff(diff, actions))
  {
    var keys, to := w.keys * w.buckets.Keys, Mutate(w.store, diff);
    var id, k := UnsafeRow(diff, w.store, keys);
    var u, steps := AttendBoth(w, to[id].fk, k);
    LeadsToGood(w, steps, u);
    var wrong := UnsafeOrder(u, diff, keys, id, k);
    var v := Queued(w, to, wrong);
    assert Leads(v, steps, Queued(u, to, wrong));
    assert v == Apply(w, StoreDiff(diff, wrong));
    DiffKeepsInv(u, diff, wrong);
    WrongAhead(w, StoreDiff(diff, actions), StoreDiff(diff, wrong), steps, Queued(u, to, wrong));
  }

  lemma UnsafeRow(diff: Diff, store: Rows, keys: set<Fk>) returns (id: Key, k: Fk)
    requires !Safe(diff, store, keys)
    ensures var to := Mutate(store, diff);
            && id in WithKeys(to, keys) && k != to[id].fk
            && k in LastNamers(Phases(diff), |Phases(diff)|, store, keys, id) && k in keys
  {
    var to, phases := Mutate(store, diff), Phases(diff);
    id :| id in WithKeys(to, keys) && !(LastNamers(phases, |phases|, store, keys, id) <= {to[id].fk});
    k :| k in LastNamers(phases, |phases|, store, keys, id) && k != to[id].fk;
    LastNamersAreKeys(phases, |phases|, store, keys, id);
  }

  lemma UnsafeOrder(w: World, diff: Diff, keys: set<Fk>, id: Key, k: Fk) returns (actions: seq<Action>)
    requires Good(w) && Truthful(w.store, diff) && keys == w.keys * w.buckets.Keys
    requires var to := Mutate(w.store, diff);
             && id in WithKeys(to, keys) && k != to[id].fk && k in w.subscribed && to[id].fk in w.subscribed
             && k in LastNamers(Phases(diff), |Phases(diff)|, w.store, keys, id)
    ensures Prepared(diff, w.buckets.Keys, actions)
    ensures Ahead(Queued(w, Mutate(w.store, diff), actions)).result != WithKeys(Mutate(w.store, diff), w.subscribed)
  {
    var to, phases := Mutate(w.store, diff), Phases(diff);
    QueueLeads(w, Heard(w));
    assert Ahead(w).contributions.Keys == w.subscribed;
    LastNamersOfFewer(phases, |phases|, w.store, keys, w.subscribed, id);
    assert k in LastNamers(phases, |phases|, w.store, keys, id) * w.subscribed;
    actions := UnsafeGoesWrong(Ahead(w), diff, w.buckets.Keys, w.store, id, k);
    DispatchKeepsKeys(Ahead(w), actions, |actions|);
    QueuedAhead(w, to, actions);
  }

  // ---------------------------------------------------------------- a bucket that is ahead of the queue

  lemma EarlyBucketCanGoWrong(w: World, k: Fk)
    requires Good(w) && !Harmless(w, BucketFor(k))
    ensures CanGoWrong(w, BucketFor(k))
  {
    var id, j := EarlyRow(w, k);
    var v := Apply(w, BucketFor(k));
    BucketKeepsInv(w, k);
    var u, steps := AttendBoth(v, j, k);
    assert v == v.(store := v.store, queue := v.queue) && u == u.(store := v.store, queue := v.queue);
    LeadsKeepsInv(v, steps, u);
    EarlyRowIsLost(u, k, j, id);
    WrongAhead(w, BucketFor(k), BucketFor(k), steps, u);
  }

  /** A row the new bucket starts with, and another bucket for which the queue still touches it. */
  lemma EarlyRow(w: World, k: Fk) returns (id: Key, j: Fk)
    requires Inv(w) && !Harmless(w, BucketFor(k))
    ensures k in w.keys && k !in w.buckets && id in Pick(w.store, k) && j in w.keys && j in w.buckets
    ensures LastToucher(Live(Apply(w, BucketFor(k))), w.queue, |w.queue|, id) == Some(j)
  {
    id :| id in Pick(w.store, k) && QueuedLast(w, id) != None;
    j := QueuedLast(w, id).value;
    LastToucherOfFewer(Live(w), Live(w), w.queue, |w.queue|, id);
    BucketQueuedLast(w, k, id);
  }

  lemma EarlyRowIsLost(u: World, k: Fk, j: Fk, id: Key)
    requires Inv(u) && j in u.subscribed && k in u.subscribed && j != k && id in Pick(u.store, k)
    requires LastToucher(Live(u), u.queue, |u.queue|, id) == Some(j)
    ensures Ahead(u).result != WithKeys(u.store, u.subscribed)
  {
    LastToucherOfFewer(Live(u), Heard(u), u.queue, |u.queue|, id);
    AheadAt(u, id);
    assert id in WithKeys(u.store, u.subscribed) && id !in Ahead(u).result;
  }

  lemma {:induction false} LeadsKeepsInv(w: World, steps: seq<Step>, v: World)
    requires Inv(w) && Leads(w, steps, v)
    ensures Inv(v)
    decreases |steps|
  {
    if steps != [] {
      StepKeepsInv(w, steps[0]);
      LeadsKeepsInv(Apply(w, steps[0]), steps[1..], v);
    }
  }

  // ---------------------------------------------------------------- the theorem

  lemma StepCanGoWrongIff(w: World, step: Step)
    requires Good(w) && Enabled(w, step)
    ensures CanGoWrong(w, step) <==> !Harmless(w, step)
  {
    if Harmless(w, step) {
      HarmlessCannotGoWrong(w, step);
    } else if step.StoreDiff? {
      UnsafeDiffCanGoWrong(w, step.diff, step.actions);
    } else {
      EarlyBucketCanGoWrong(w, step.k);
    }
  }

  /**
   Over every run: no step of it can ever leave the union wrong, in whatever order the index hands out the actions
   of a diff and whatever the union observes while they are delivered, if and only if every step is harmless.
   */
  lemma {:induction false} NeverWrongIff(worlds: seq<World>, steps: seq<Step>, n: nat)
    requires IsRun(worlds, steps) && n <= |steps|
    ensures (forall m :: 0 <= m < n ==> !CanGoWrong(worlds[m], steps[m]))
            <==> (forall m :: 0 <= m < n ==> Harmless(worlds[m], steps[m]))
  {
    if n > 0 {
      NeverWrongIff(worlds, steps, n - 1);
      if forall m :: 0 <= m < n - 1 ==> Harmless(worlds[m], steps[m]) {
        HarmlessRunIsGood(worlds, steps, n - 1);
        StepCanGoWrongIff(worlds[n - 1], steps[n - 1]);
      }
    }
  }
}
