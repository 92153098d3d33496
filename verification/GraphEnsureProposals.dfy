/**
 Which proposals let two Ensure commands on one pair both answer `created`, over every delete-free run.
 */
module GraphEnsureProposals {
  import opened Common
  import opened GraphEnsure

  datatype Proposal = Proposal(id: Id, pair: Pair)

  function Proposals(commands: seq<Command>): (ps: seq<Proposal>)
    ensures |ps| == |commands| && forall i :: 0 <= i < |ps| ==> ps[i] == Proposal(commands[i].id, commands[i].pair)
  {
    seq(|commands|, i requires 0 <= i < |commands| => Proposal(commands[i].id, commands[i].pair))
  }

  /** A delete-free run of exactly these commands, over these stored edges. */
  ghost predicate IsRunOf(states: seq<State>, steps: seq<Step>, before: Edges, ps: seq<Proposal>) {
    && IsRun(states, steps) && DeleteFree(steps)
    && states[0].edges == before && Proposals(states[|steps|].commands) == ps
  }

  /** In some delete-free run of these commands both `i` and `j` answer `created`. */
  ghost predicate CanBothCreate(before: Edges, ps: seq<Proposal>, i: nat, j: nat)
    requires i < |ps| && j < |ps|
  {
    exists states, steps :: BothCreated(states, steps, before, ps, i, j)
  }

  /** A run of these commands in which both `i` and `j` answered `created`. */
  ghost predicate BothCreated(states: seq<State>, steps: seq<Step>, before: Edges, ps: seq<Proposal>, i: nat, j: nat)
    requires i < |ps| && j < |ps|
  {
    && IsRunOf(states, steps, before, ps)
    && CreatedBy(states[|steps|].commands, i, ps[i].id) && CreatedBy(states[|steps|].commands, j, ps[j].id)
  }

  /** Command `m` proposes the id of `i` or `j`, which are on one pair, for another pair. */
  predicate Reuses(ps: seq<Proposal>, i: nat, j: nat, m: int)
    requires i < |ps| && j < |ps|
  {
    0 <= m < |ps| && ps[m].pair != ps[i].pair && (ps[m].id == ps[i].id || ps[m].id == ps[j].id)
  }

  ghost predicate Vacant(before: Edges, pair: Pair) {
    forall e :: e in before ==> before[e] != pair
  }

  /** No stored edge on a pair that is proposed is itself proposed for another pair. */
  ghost predicate StockStays(before: Edges, ps: seq<Proposal>) {
    forall e, k, m :: e in before && 0 <= k < |ps| && 0 <= m < |ps| && before[e] == ps[k].pair && ps[m].id == e ==>
                        ps[m].pair == before[e]
  }

  // What both creating takes: an edge once created leaves its pair only by a command that proposes it elsewhere.

  predicate CreatedElsewhere(commands: seq<Command>, m: int, e: Id, pair: Pair) {
    CreatedBy(commands, m, e) && commands[m].pair != pair
  }

  ghost predicate StayedOrMoved(s: State, i: nat)
    requires i < |s.commands|
  {
    var c := s.commands[i];
    HasCreated(c, c.id) ==> Occupies(s.edges, c.id, c.pair) || exists m :: CreatedElsewhere(s.commands, m, c.id, c.pair)
  }

  lemma StayedOrMovedKept(s: State, step: Step, t: State, i: nat)
    requires Next(s, step, t) && !step.Delete? && i < |t.commands|
    requires i < |s.commands| ==> StayedOrMoved(s, i)
    ensures StayedOrMoved(t, i)
  {
    if i < |s.commands| {
      var c := s.commands[i];
      CommandStays(s, step, t, i);
      if m :| CreatedElsewhere(s.commands, m, c.id, c.pair) {
        CommandStays(s, step, t, m);
        assert CreatedElsewhere(t.commands, m, c.id, c.pair);
      } else if step.Emit? && t.edges != s.edges && s.commands[step.i].id == c.id && s.commands[step.i].pair != c.pair {
        assert CreatedElsewhere(t.commands, step.i, c.id, c.pair);
      }
    }
  }

  lemma {:induction false} StayedOrMovedInEveryRun(states: seq<State>, steps: seq<Step>, n: nat, i: nat)
    requires IsRun(states, steps) && DeleteFree(steps) && n <= |steps| && i < |states[n].commands|
    ensures StayedOrMoved(states[n], i)
  {
    if n > 0 {
      if i < |states[n - 1].commands| { StayedOrMovedInEveryRun(states, steps, n - 1, i); }
      StayedOrMovedKept(states[n - 1], steps[n - 1], states[n], i);
    }
  }

  /** Two commands on one pair that both created share their id, or a third has moved one of their edges away. */
  lemma BothCreatedNeedsReuse(states: seq<State>, steps: seq<Step>, before: Edges, ps: seq<Proposal>, i: nat, j: nat)
    returns (m: int)
    requires i < |ps| && j < |ps| && ps[i].pair == ps[j].pair && BothCreated(states, steps, before, ps, i, j)
    ensures ps[i].id == ps[j].id || (Reuses(ps, i, j, m) && CreatedBy(states[|steps|].commands, m, ps[m].id))
  {
    var s := states[|steps|];
    AtMostOneEdge(states, steps, |steps|);
    StayedOrMovedInEveryRun(states, steps, |steps|, i);
    StayedOrMovedInEveryRun(states, steps, |steps|, j);
    m := 0;
    if k :| CreatedElsewhere(s.commands, k, ps[i].id, ps[i].pair) {
      m := k;
    } else if k :| CreatedElsewhere(s.commands, k, ps[j].id, ps[j].pair) {
      m := k;
    }
  }

  // A stored edge that no proposal moves keeps its pair, and then nothing is created there.

  ghost predicate Blocked(s: State, e: Id, pair: Pair) {
    && Occupies(s.edges, e, pair)
    && forall i :: 0 <= i < |s.commands| && s.commands[i].pair == pair ==> NeverCreates(s.commands[i])
  }

  predicate NeverCreates(c: Command) {
    !c.at.Emitting? && !c.at.Relooking? && !HasCreated(c, c.id)
  }

  lemma BlockedKept(s: State, step: Step, t: State, e: Id, pair: Pair)
    requires Next(s, step, t) && !step.Delete? && Blocked(s, e, pair)
    requires forall m :: 0 <= m < |s.commands| && s.commands[m].id == e ==> s.commands[m].pair == pair
    ensures Blocked(t, e, pair)
  {
    forall i | 0 <= i < |t.commands| && t.commands[i].pair == pair ensures NeverCreates(t.commands[i]) {
      if i < |s.commands| {
        CommandStays(s, step, t, i);
        assert NeverCreates(s.commands[i]);
      }
    }
  }

  /** The proposals of a run so far are the first of its proposals. */
  lemma {:induction false} ProposalsGrow(states: seq<State>, steps: seq<Step>, k: nat, n: nat)
    requires IsRun(states, steps) && k <= n <= |steps|
    ensures Proposals(states[k].commands) <= Proposals(states[n].commands)
    decreases n
  {
    if k < n {
      ProposalsGrow(states, steps, k, n - 1);
      var a, b := states[n - 1].commands, states[n].commands;
      forall i | 0 <= i < |a| ensures i < |b| && Proposals(b)[i] == Proposals(a)[i] {
        CommandStays(states[n - 1], steps[n - 1], states[n], i);
      }
    }
  }

  lemma {:induction false} BlockedInEveryRun(
    states: seq<State>, steps: seq<Step>, before: Edges, ps: seq<Proposal>, n: nat, e: Id, k: nat)
    requires IsRunOf(states, steps, before, ps) && StockStays(before, ps) && n <= |steps|
    requires e in before && k < |ps| && before[e] == ps[k].pair
    ensures Blocked(states[n], e, before[e])
  {
    if n > 0 {
      BlockedInEveryRun(states, steps, before, ps, n - 1, e, k);
      ProposalsGrow(states, steps, n - 1, |steps|);
      var s := states[n - 1];
      forall m | 0 <= m < |s.commands| && s.commands[m].id == e ensures s.commands[m].pair == before[e] {
        assert Proposals(s.commands)[m] == ps[m];
      }
      BlockedKept(s, steps[n - 1], states[n], e, before[e]);
    }
  }

  lemma CreatedNeedsVacant(states: seq<State>, steps: seq<Step>, before: Edges, ps: seq<Proposal>, k: nat)
    requires IsRunOf(states, steps, before, ps) && StockStays(before, ps)
    requires k < |ps| && CreatedBy(states[|steps|].commands, k, ps[k].id)
    ensures Vacant(before, ps[k].pair)
  {
    forall e | e in before ensures before[e] != ps[k].pair {
      if before[e] == ps[k].pair {
        assert !NeverCreates(states[|steps|].commands[k]);
        BlockedInEveryRun(states, steps, before, ps, |steps|, e, k);
      }
    }
  }

  // And that is enough: all commands look first, then write in the right order.

  lemma Extend(states: seq<State>, steps: seq<Step>, step: Step, t: State)
    requires IsRun(states, steps) && DeleteFree(steps) && Next(states[|steps|], step, t) && !step.Delete?
    ensures IsRun(states + [t], steps + [step]) && DeleteFree(steps + [step])
  {
    var allStates, allSteps := states + [t], steps + [step];
    forall n | 0 <= n < |allSteps| ensures Next(allStates[n], allSteps[n], allStates[n + 1]) {
      if n < |steps| { assert allStates[n] == states[n] && allStates[n + 1] == states[n + 1]; }
    }
  }

  lemma {:induction false} InvokeAll(before: Edges, ps: seq<Proposal>) returns (states: seq<State>, steps: seq<Step>)
    requires Unique(before)
    ensures IsRunOf(states, steps, before, ps) && states[|steps|].edges == before
    ensures forall i :: 0 <= i < |ps| ==> states[|steps|].commands[i] == Command(ps[i].id, ps[i].pair, Looking)
  {
    if ps == [] {
      states, steps := [State(before, [])], [];
    } else {
      var n := |ps| - 1;
      states, steps := InvokeAll(before, ps[..n]);
      var s := states[|steps|];
      var t := s.(commands := s.commands + [Command(ps[n].id, ps[n].pair, Looking)]);
      Extend(states, steps, Invoke(ps[n].id, ps[n].pair), t);
      states, steps := states + [t], steps + [Invoke(ps[n].id, ps[n].pair)];
      assert Proposals(t.commands) == ps;
    }
  }

  /** Command `i` looks, finds nothing, and is about to write. */
  lemma LookVacant(states: seq<State>, steps: seq<Step>, before: Edges, ps: seq<Proposal>, i: nat)
    returns (states': seq<State>, steps': seq<Step>)
    requires IsRunOf(states, steps, before, ps) && i < |ps|
    requires var s := states[|steps|]; s.commands[i].at == Looking && Vacant(s.edges, ps[i].pair)
    ensures IsRunOf(states', steps', before, ps)
    ensures states'[|steps'|] == Move(states[|steps|], i, Emitting)
  {
    var s := states[|steps|];
    var t := Move(s, i, Emitting);
    assert Looked(s, i, false, None, t);
    Extend(states, steps, Lookup(i, false), t);
    states', steps' := states + [t], steps + [Lookup(i, false)];
    assert Proposals(t.commands) == Proposals(s.commands);
  }

  /** Command `i` writes its edge. */
  lemma WriteFree(states: seq<State>, steps: seq<Step>, before: Edges, ps: seq<Proposal>, i: nat)
    returns (states': seq<State>, steps': seq<Step>)
    requires IsRunOf(states, steps, before, ps) && i < |ps|
    requires var s := states[|steps|]; s.commands[i].at == Emitting && Free(s.edges, ps[i].id, ps[i].pair)
    ensures IsRunOf(states', steps', before, ps)
    ensures var s := states[|steps|];
            states'[|steps'|] == Move(s.(edges := s.edges[ps[i].id := ps[i].pair]), i, Ended(Ok(ps[i].id, true)))
  {
    var s := states[|steps|];
    assert Proposals(s.commands)[i] == ps[i];
    var t := Emitted(s, i, false);
    Extend(states, steps, Emit(i, false), t);
    states', steps' := states + [t], steps + [Emit(i, false)];
    assert Proposals(t.commands) == Proposals(s.commands);
  }

  lemma SharedIdBothCreate(before: Edges, ps: seq<Proposal>, i: nat, j: nat)
    requires Unique(before) && i < |ps| && j < |ps| && i != j && ps[i] == ps[j] && Vacant(before, ps[i].pair)
    ensures CanBothCreate(before, ps, i, j)
  {
    var states, steps := InvokeAll(before, ps);
    states, steps := LookVacant(states, steps, before, ps, i);
    states, steps := LookVacant(states, steps, before, ps, j);
    states, steps := WriteFree(states, steps, before, ps, i);
    states, steps := WriteFree(states, steps, before, ps, j);
    assert BothCreated(states, steps, before, ps, i, j);
  }

  /** `i` writes, `m` takes its edge to another pair, `j` writes. */
  lemma MovedIdBothCreate(before: Edges, ps: seq<Proposal>, i: nat, j: nat, m: nat)
    requires Unique(before) && i < |ps| && j < |ps| && m < |ps| && i != j && ps[i].pair == ps[j].pair
    requires ps[m].pair != ps[i].pair && ps[m].id == ps[i].id
    requires Vacant(before, ps[i].pair) && Vacant(before, ps[m].pair)
    ensures CanBothCreate(before, ps, i, j)
  {
    var states, steps := InvokeAll(before, ps);
    states, steps := LookVacant(states, steps, before, ps, i);
    states, steps := LookVacant(states, steps, before, ps, j);
    states, steps := LookVacant(states, steps, before, ps, m);
    states, steps := WriteFree(states, steps, before, ps, i);
    states, steps := WriteFree(states, steps, before, ps, m);
    states, steps := WriteFree(states, steps, before, ps, j);
    assert BothCreated(states, steps, before, ps, i, j);
  }

  lemma BothCreateSwapped(before: Edges, ps: seq<Proposal>, i: nat, j: nat)
    requires i < |ps| && j < |ps| && CanBothCreate(before, ps, j, i)
    ensures CanBothCreate(before, ps, i, j)
  {
    var states, steps :| BothCreated(states, steps, before, ps, j, i);
    assert BothCreated(states, steps, before, ps, i, j);
  }

  /**
   Over stored edges of which no proposal moves one that is on a proposed pair: two commands on one pair can both
   answer `created` if and only if the pair is vacant and they share their id or a third command reuses one of
   their ids for another vacant pair.
   */
  lemma BothCreateIff(before: Edges, ps: seq<Proposal>, i: nat, j: nat)
    requires Unique(before) && StockStays(before, ps) && i < |ps| && j < |ps| && i != j && ps[i].pair == ps[j].pair
    ensures CanBothCreate(before, ps, i, j) <==>
              && Vacant(before, ps[i].pair)
              && (ps[i].id == ps[j].id || exists m :: Reuses(ps, i, j, m) && Vacant(before, ps[m].pair))
  {
    if CanBothCreate(before, ps, i, j) {
      var states, steps :| BothCreated(states, steps, before, ps, i, j);
      var m := BothCreatedNeedsReuse(states, steps, before, ps, i, j);
      CreatedNeedsVacant(states, steps, before, ps, i);
      if ps[i].id != ps[j].id { CreatedNeedsVacant(states, steps, before, ps, m); }
    }
    if Vacant(before, ps[i].pair) {
      if ps[i].id == ps[j].id {
        SharedIdBothCreate(before, ps, i, j);
      } else if m :| Reuses(ps, i, j, m) && Vacant(before, ps[m].pair) {
        if ps[m].id == ps[i].id {
          MovedIdBothCreate(before, ps, i, j, m);
        } else {
          MovedIdBothCreate(before, ps, j, i, m);
          BothCreateSwapped(before, ps, i, j);
        }
      }
    }
  }

  /**
   The proposals alone decide what is safe whatever is stored: two commands on one pair never both answer
   `created`, over any stored edges, if and only if they propose different ids and no other command reuses one of
   these for another pair.
   */
  lemma NeverBothCreateIff(ps: seq<Proposal>, i: nat, j: nat)
    requires i < |ps| && j < |ps| && i != j && ps[i].pair == ps[j].pair
    ensures (forall before :: Unique(before) ==> !CanBothCreate(before, ps, i, j)) <==>
              ps[i].id != ps[j].id && forall m :: !Reuses(ps, i, j, m)
  {
    if ps[i].id != ps[j].id && forall m :: !Reuses(ps, i, j, m) {
      forall before | Unique(before) ensures !CanBothCreate(before, ps, i, j) {
        if states, steps :| BothCreated(states, steps, before, ps, i, j) {
          var m := BothCreatedNeedsReuse(states, steps, before, ps, i, j);
        }
      }
    } else {
      BothCreateIff(map[], ps, i, j);
      if m :| Reuses(ps, i, j, m) { assert Vacant(map[], ps[m].pair); }
    }
  }
}
