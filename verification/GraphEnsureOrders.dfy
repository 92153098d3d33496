/**
 Every interleaving of Ensure commands comes down to an order of their writes, over any stored edges.
 */
module GraphEnsureOrders {
  import opened GraphEnsure
  import opened GraphEnsureProposals

  // ---------------------------------------------------------------- orders of writes

  function Prefix(order: seq<nat>): seq<nat>
    requires order != []
  {
    order[..|order| - 1]
  }

  function Last(order: seq<nat>): nat
    requires order != []
  {
    order[|order| - 1]
  }

  /** The edges after the writes of these commands. */
  function After(before: Edges, ps: seq<Proposal>, order: seq<nat>): Edges {
    if order == [] || Last(order) >= |ps| then before
    else After(before, ps, Prefix(order))[ps[Last(order)].id := ps[Last(order)].pair]
  }

  /** At some moment so far no edge was on the pair. */
  ghost predicate WasVacant(before: Edges, ps: seq<Proposal>, order: seq<nat>, pair: Pair) {
    Vacant(After(before, ps, order), pair) || (order != [] && WasVacant(before, ps, Prefix(order), pair))
  }

  /** No command writes twice, and each may write: its pair was vacant once, and is free of other edges now. */
  ghost predicate IsOrder(before: Edges, ps: seq<Proposal>, order: seq<nat>) {
    order != [] ==>
      && IsOrder(before, ps, Prefix(order))
      && Last(order) < |ps| && Last(order) !in Prefix(order)
      && WasVacant(before, ps, Prefix(order), ps[Last(order)].pair)
      && Free(After(before, ps, Prefix(order)), ps[Last(order)].id, ps[Last(order)].pair)
  }

  lemma OneMore(order: seq<nat>, i: nat)
    ensures var next := order + [i]; Prefix(next) == order && Last(next) == i
  {
  }

  // ---------------------------------------------------------------- from a run to an order

  /** The order holds the writes made so far. */
  ghost predicate Traced(before: Edges, ps: seq<Proposal>, order: seq<nat>, s: State) {
    && IsOrder(before, ps, order) && Proposals(s.commands) <= ps && s.edges == After(before, ps, order)
    && (forall i :: 0 <= i < |s.commands| ==> CommandTraced(before, ps, order, s.commands[i], i))
    && forall i :: i in order ==> i < |s.commands|
  }

  ghost predicate CommandTraced(before: Edges, ps: seq<Proposal>, order: seq<nat>, c: Command, i: nat) {
    && (HasCreated(c, c.id) <==> i in order)
    && (c.at.Emitting? ==> WasVacant(before, ps, order, c.pair))
  }

  lemma {:induction false} RunHasOrder(states: seq<State>, steps: seq<Step>, before: Edges, ps: seq<Proposal>, n: nat)
    returns (order: seq<nat>)
    requires IsRunOf(states, steps, before, ps) && n <= |steps|
    ensures Traced(before, ps, order, states[n])
  {
    ProposalsGrow(states, steps, n, |steps|);
    if n == 0 {
      order := [];
    } else {
      order := RunHasOrder(states, steps, before, ps, n - 1);
      order := StepHasOrder(before, ps, order, states[n - 1], steps[n - 1], states[n]);
    }
  }

  predicate Writes(s: State, step: Step) {
    && step.Emit? && !step.fails && step.i < |s.commands|
    && Free(s.edges, s.commands[step.i].id, s.commands[step.i].pair)
  }

  lemma StepHasOrder(before: Edges, ps: seq<Proposal>, order: seq<nat>, s: State, step: Step, t: State)
    returns (next: seq<nat>)
    requires Traced(before, ps, order, s) && Next(s, step, t) && !step.Delete? && Proposals(t.commands) <= ps
    ensures Traced(before, ps, next, t)
  {
    if Writes(s, step) {
      next := order + [step.i];
      WriteTraced(before, ps, order, s, step, t);
    } else {
      next := order;
      forall k | 0 <= k < |t.commands| ensures CommandTraced(before, ps, order, t.commands[k], k) {
        if k < |s.commands| { assert CommandTraced(before, ps, order, s.commands[k], k); }
      }
    }
  }

  lemma WriteTraced(before: Edges, ps: seq<Proposal>, order: seq<nat>, s: State, step: Step, t: State)
    requires Traced(before, ps, order, s) && Next(s, step, t) && Writes(s, step)
    ensures Traced(before, ps, order + [step.i], t)
  {
    var i, next := step.i, order + [step.i];
    OneMore(order, i);
    assert Proposals(s.commands)[i] == ps[i];
    assert Proposals(t.commands) == Proposals(s.commands);
    assert CommandTraced(before, ps, order, s.commands[i], i);
    assert IsOrder(before, ps, next);
    forall k | 0 <= k < |t.commands| ensures CommandTraced(before, ps, next, t.commands[k], k) {
      assert CommandTraced(before, ps, order, s.commands[k], k);
    }
  }

  // ---------------------------------------------------------------- from an order to a run

  /** Of the first `m` commands every one that waits to look and would find nothing has looked. */
  lemma {:induction false} LookAll(states: seq<State>, steps: seq<Step>, before: Edges, ps: seq<Proposal>, m: nat)
    returns (states': seq<State>, steps': seq<Step>)
    requires IsRunOf(states, steps, before, ps) && m <= |ps|
    ensures IsRunOf(states', steps', before, ps)
    ensures AllLooked(states[|steps|], states'[|steps'|], m)
  {
    states', steps' := states, steps;
    if m > 0 {
      states', steps' := LookAll(states, steps, before, ps, m - 1);
      var s := states'[|steps'|];
      assert Proposals(s.commands)[m - 1] == ps[m - 1];
      if s.commands[m - 1].at == Looking && Vacant(s.edges, ps[m - 1].pair) {
        states', steps' := LookVacant(states', steps', before, ps, m - 1);
      }
    }
  }

  ghost predicate AllLooked(s: State, t: State, m: nat) {
    && t.edges == s.edges && |t.commands| == |s.commands|
    && forall i :: 0 <= i < |s.commands| ==>
         var c := s.commands[i];
         t.commands[i] == if i < m && c.at == Looking && Vacant(s.edges, c.pair) then c.(at := Emitting) else c
  }

  ghost function StageOf(before: Edges, ps: seq<Proposal>, order: seq<nat>, p: Proposal, i: nat): Progress {
    if i in order then Ended(Ok(p.id, true)) else if WasVacant(before, ps, order, p.pair) then Emitting else Looking
  }

  /** The writes are made, and whoever could look and find nothing has. */
  ghost predicate Staged(before: Edges, ps: seq<Proposal>, order: seq<nat>, s: State) {
    && s.edges == After(before, ps, order) && |s.commands| == |ps|
    && forall i :: 0 <= i < |ps| ==>
         s.commands[i] == Command(ps[i].id, ps[i].pair, StageOf(before, ps, order, ps[i], i))
  }

  lemma {:induction false} OrderHasRun(before: Edges, ps: seq<Proposal>, order: seq<nat>)
    returns (states: seq<State>, steps: seq<Step>)
    requires Unique(before) && IsOrder(before, ps, order)
    ensures IsRunOf(states, steps, before, ps) && Staged(before, ps, order, states[|steps|])
  {
    var s: State;
    if order == [] {
      states, steps := InvokeAll(before, ps);
      s := states[|steps|];
      states, steps := LookAll(states, steps, before, ps, |ps|);
    } else {
      states, steps := OrderHasRun(before, ps, Prefix(order));
      var r: State := states[|steps|];
      states, steps := WriteFree(states, steps, before, ps, Last(order));
      s := states[|steps|];
      states, steps := LookAll(states, steps, before, ps, |ps|);
      NextStage(before, ps, order, r, s, states[|steps|]);
    }
  }

  lemma NextStage(before: Edges, ps: seq<Proposal>, order: seq<nat>, r: State, s: State, t: State)
    requires order != [] && IsOrder(before, ps, order) && Staged(before, ps, Prefix(order), r)
    requires var i := Last(order);
             s == Move(r.(edges := r.edges[ps[i].id := ps[i].pair]), i, Ended(Ok(ps[i].id, true)))
    requires AllLooked(s, t, |ps|)
    ensures Staged(before, ps, order, t)
  {
    assert order == Prefix(order) + [Last(order)];
    forall k | 0 <= k < |ps|
      ensures t.commands[k] == Command(ps[k].id, ps[k].pair, StageOf(before, ps, order, ps[k], k))
    {
      assert r.commands[k] == Command(ps[k].id, ps[k].pair, StageOf(before, ps, Prefix(order), ps[k], k));
    }
  }

  // ---------------------------------------------------------------- the theorem

  /** Some order of writes contains both. */
  ghost predicate BothInOrder(before: Edges, ps: seq<Proposal>, order: seq<nat>, i: nat, j: nat) {
    IsOrder(before, ps, order) && i in order && j in order
  }

  /**
   Over any stored edges, whatever proposals move them: two commands can both answer `created` if and only if some
   order of writes contains both, each write on a pair that was vacant before it and is free of other edges at it.
   */
  lemma BothCreateIffOrder(before: Edges, ps: seq<Proposal>, i: nat, j: nat)
    requires Unique(before) && i < |ps| && j < |ps|
    ensures CanBothCreate(before, ps, i, j) <==> exists order :: BothInOrder(before, ps, order, i, j)
  {
    if CanBothCreate(before, ps, i, j) {
      var states, steps :| BothCreated(states, steps, before, ps, i, j);
      var order := RunHasOrder(states, steps, before, ps, |steps|);
      CreatedIsInOrder(before, ps, order, states[|steps|], i);
      CreatedIsInOrder(before, ps, order, states[|steps|], j);
      assert BothInOrder(before, ps, order, i, j);
    }
    if order :| BothInOrder(before, ps, order, i, j) {
      var states, steps := OrderHasRun(before, ps, order);
      assert BothCreated(states, steps, before, ps, i, j);
    }
  }

  lemma CreatedIsInOrder(before: Edges, ps: seq<Proposal>, order: seq<nat>, s: State, i: nat)
    requires Traced(before, ps, order, s) && i < |ps| && CreatedBy(s.commands, i, ps[i].id)
    ensures i in order
  {
    assert CommandTraced(before, ps, order, s.commands[i], i);
  }
}
