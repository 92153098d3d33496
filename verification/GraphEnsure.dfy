/**
 Concurrent Ensure commands on unique edge pairs.  A lookup, a reservation with its write, and a delete are
 one atomic step each; any number of commands interleave.
 */
module GraphEnsure {
  import opened Common

  type Id = string

  /** A pair with its scope, ends in canonical order when the edge type is undirected. */
  datatype Pair = Pair(scope: Option<string>, a: string, b: string)

  type Edges = map<Id, Pair>

  datatype Error = Occupied | Fault

  datatype Result = Ok(id: Id, created: bool) | Err(error: Error)

  datatype Progress = Looking | Emitting | Relooking(error: Error) | Ended(result: Result)

  datatype Command = Command(id: Id, pair: Pair, at: Progress)

  datatype State = State(edges: Edges, commands: seq<Command>)

  /** A lookup or a write may fail for reasons of its own (`fails`). */
  datatype Step =
    | Invoke(id: Id, pair: Pair)
    | Lookup(i: nat, fails: bool)
    | Emit(i: nat, fails: bool)
    | Relook(i: nat, fails: bool)
    | Delete(id: Id)

  // ---------------------------------------------------------------- the edge store

  /** The reservation: no other edge has the pair. */
  predicate Free(edges: Edges, id: Id, pair: Pair) {
    forall e :: e in edges && e != id ==> edges[e] != pair
  }

  predicate Occupies(edges: Edges, id: Id, pair: Pair) {
    id in edges && edges[id] == pair
  }

  ghost predicate Unique(edges: Edges) {
    forall e, f :: e in edges && f in edges && edges[e] == edges[f] ==> e == f
  }

  // ---------------------------------------------------------------- one command's steps

  /** What a lookup may report: an edge with the pair, or that there is none. */
  predicate Found(edges: Edges, pair: Pair, existing: Option<Id>) {
    if existing.Some? then Occupies(edges, existing.value, pair) else forall e :: e in edges ==> edges[e] != pair
  }

  ghost predicate Next(s: State, step: Step, t: State) {
    match step
    case Invoke(id, pair) => t == s.(commands := s.commands + [Command(id, pair, Looking)])
    case Delete(id) => t == s.(edges := s.edges - {id})
    case Lookup(i, fails) =>
      && i < |s.commands| && s.commands[i].at == Looking
      && exists existing :: Looked(s, i, fails, existing, t)
    case Emit(i, fails) => i < |s.commands| && s.commands[i].at == Emitting && t == Emitted(s, i, fails)
    case Relook(i, fails) =>
      && i < |s.commands| && s.commands[i].at.Relooking?
      && exists existing :: Relooked(s, i, fails, existing, t)
  }

  function Move(s: State, i: nat, at: Progress): State
    requires i < |s.commands|
  {
    s.(commands := s.commands[i := s.commands[i].(at := at)])
  }

  ghost predicate Looked(s: State, i: nat, fails: bool, existing: Option<Id>, t: State)
    requires i < |s.commands|
  {
    && Found(s.edges, s.commands[i].pair, existing)
    && t == Move(s, i, if fails then Ended(Err(Fault))
                       else if existing.Some? then Ended(Ok(existing.value, false)) else Emitting)
  }

  function Emitted(s: State, i: nat, fails: bool): State
    requires i < |s.commands|
  {
    var c := s.commands[i];
    if fails then Move(s, i, Relooking(Fault))
    else if !Free(s.edges, c.id, c.pair) then Move(s, i, Relooking(Occupied))
    else Move(s.(edges := s.edges[c.id := c.pair]), i, Ended(Ok(c.id, true)))
  }

  ghost predicate Relooked(s: State, i: nat, fails: bool, existing: Option<Id>, t: State)
    requires i < |s.commands| && s.commands[i].at.Relooking?
  {
    && Found(s.edges, s.commands[i].pair, existing)
    && t == Move(s, i, if !fails && existing.Some? then Ended(Ok(existing.value, false))
                       else Ended(Err(s.commands[i].at.error)))
  }

  // ---------------------------------------------------------------- the command as the source runs it

  method FindUnique(edges: Edges, pair: Pair) returns (existing: Option<Id>)
    ensures Found(edges, pair, existing)
  {
    var rest := edges.Keys;
    while rest != {}
      invariant rest <= edges.Keys
      invariant forall e :: e in edges && e !in rest ==> edges[e] != pair
      decreases rest
    {
      var e :| e in rest;
      if edges[e] == pair { return Some(e); }
      rest := rest - {e};
    }
    existing := None;
  }

  /** Writes that succeed or not, then deletes, between two steps of a command. */
  datatype Interference = Interference(writes: seq<(Id, Pair)>, deletes: set<Id>)

  /** Which of a command's accesses fail for reasons of their own. */
  datatype Faults = Faults(look: bool, write: bool, relook: bool)

  /** The edges of a server, shared by the commands that run on it. */
  class Graph {
    var edges: Edges

    constructor ()
      ensures edges == map[]
    {
      edges := map[];
    }

    method EmitSet(id: Id, pair: Pair, fails: bool) returns (error: Option<Error>)
      modifies this
      ensures error == if fails then Some(Fault) else if Free(old(edges), id, pair) then None else Some(Occupied)
      ensures edges == if error == None then old(edges)[id := pair] else old(edges)
    {
      if fails { return Some(Fault); }
      if !Free(edges, id, pair) { return Some(Occupied); }
      edges := edges[id := pair];
      error := None;
    }

    /** What other writers do in between. */
    method Others(others: Interference)
      requires Unique(edges)
      modifies this
      ensures Unique(edges)
    {
      for k := 0 to |others.writes|
        invariant Unique(edges)
      {
        var error := EmitSet(others.writes[k].0, others.writes[k].1, false);
      }
      edges := edges - others.deletes;
    }

    /**
     One command from end to end, with other writers before its write and before its second look.  Either look
     and the write may fail on their own: the first look's error is returned, the second look's is dropped.
     */
    method Ensure(id: Id, pair: Pair, first: Interference, second: Interference, faults: Faults)
      returns (result: Result)
      requires Unique(edges)
      modifies this
      ensures Unique(edges)
      ensures result.Ok? ==> Occupies(edges, result.id, pair) && (result.created ==> result.id == id)
      ensures result.Err? && !faults.look ==> result.error == if faults.write then Fault else Occupied
      ensures result.Err? && !faults.look && !faults.relook ==> forall e :: e in edges ==> edges[e] != pair
      ensures faults.look ==> result == Err(Fault) && edges == old(edges)
      ensures !faults.look && (exists e :: Occupies(old(edges), e, pair)) ==>
                result.Ok? && !result.created && Occupies(old(edges), result.id, pair) && edges == old(edges)
      ensures result.Ok? && result.created ==>
                !faults.look && !faults.write && forall e :: !Occupies(old(edges), e, pair)
    {
      if faults.look {
        return Err(Fault);
      }
      var existing := FindUnique(edges, pair);
      if existing.Some? {
        return Ok(existing.value, false);
      }
      Others(first);
      var error := EmitSet(id, pair, faults.write);
      if error == None {
        return Ok(id, true);
      }
      Others(second);
      if !faults.relook {
        existing := FindUnique(edges, pair);
        if existing.Some? {
          return Ok(existing.value, false);
        }
      }
      result := Err(error.value);
    }
  }

  // ---------------------------------------------------------------- every run

  ghost predicate IsRun(states: seq<State>, steps: seq<Step>) {
    && |states| == |steps| + 1
    && Unique(states[0].edges) && states[0].commands == []
    && forall n :: 0 <= n < |steps| ==> Next(states[n], steps[n], states[n + 1])
  }

  lemma UniqueStep(s: State, step: Step, t: State)
    requires Unique(s.edges) && Next(s, step, t)
    ensures Unique(t.edges)
  {
  }

  /** At most one edge has a pair, at every moment of every run, deletes and failures included. */
  lemma {:induction false} AtMostOneEdge(states: seq<State>, steps: seq<Step>, n: nat)
    requires IsRun(states, steps) && n <= |steps|
    ensures Unique(states[n].edges)
  {
    if n > 0 {
      AtMostOneEdge(states, steps, n - 1);
      UniqueStep(states[n - 1], steps[n - 1], states[n]);
    }
  }

  /** The moment a command ends: its answer is true then, whatever others did before. */
  lemma AnswerIsTrueWhenGiven(s: State, step: Step, t: State, i: nat)
    requires Next(s, step, t) && i < |s.commands| && !s.commands[i].at.Ended? && t.commands[i].at.Ended?
    ensures var c, r := s.commands[i], t.commands[i].at.result;
            && (r.Ok? ==> Occupies(t.edges, r.id, c.pair))
            && (r.Ok? && r.created ==>
                  r.id == c.id && t.edges == s.edges[c.id := c.pair] && Free(s.edges, c.id, c.pair))
            && (r.Ok? && !r.created ==> t.edges == s.edges)
            && (r.Err? ==> step.fails || (step.Relook? && forall e :: e in t.edges ==> t.edges[e] != c.pair))
            && (r.Err? ==> step.Lookup? || step.Relook?)
  {
  }

  ghost predicate DeleteFree(steps: seq<Step>) {
    forall n :: 0 <= n < |steps| ==> !steps[n].Delete?
  }

  predicate HasCreated(c: Command, e: Id) {
    c.at == Ended(Ok(e, true)) && c.id == e
  }

  predicate CreatedBy(commands: seq<Command>, i: int, e: Id) {
    0 <= i < |commands| && HasCreated(commands[i], e)
  }

  /** A command keeps its proposal, and its answer once it has ended. */
  lemma CommandStays(s: State, step: Step, t: State, i: nat)
    requires Next(s, step, t) && i < |s.commands|
    ensures i < |t.commands| && t.commands[i].id == s.commands[i].id && t.commands[i].pair == s.commands[i].pair
    ensures s.commands[i].at.Ended? ==> t.commands[i] == s.commands[i]
  {
  }

  // ---------------------------------------------------------------- where an edge comes from

  predicate CreatedAt(commands: seq<Command>, i: int, e: Id, pair: Pair) {
    CreatedBy(commands, i, e) && commands[i].pair == pair
  }

  /** Edge `e` had the pair from the start, or a command that says so gave it the pair. */
  ghost predicate HasOrigin(before: Edges, commands: seq<Command>, e: Id, pair: Pair) {
    Occupies(before, e, pair) || exists i :: CreatedAt(commands, i, e, pair)
  }

  lemma OriginStays(before: Edges, s: State, step: Step, t: State, e: Id)
    requires Next(s, step, t) && e in t.edges
    requires e in s.edges ==> HasOrigin(before, s.commands, e, s.edges[e])
    ensures HasOrigin(before, t.commands, e, t.edges[e])
  {
    if e in s.edges && t.edges[e] == s.edges[e] {
      if i :| CreatedAt(s.commands, i, e, s.edges[e]) {
        CommandStays(s, step, t, i);
        assert CreatedAt(t.commands, i, e, s.edges[e]);
      }
    } else {
      assert CreatedAt(t.commands, step.i, e, t.edges[e]);
    }
  }

  /**
   Every edge has its pair from the start or from a command that answered `created`; it is the only such
   command when no other proposes the edge's id.
   */
  lemma {:induction false} EveryNewEdgeHasItsCreator(states: seq<State>, steps: seq<Step>, n: nat, e: Id)
    requires IsRun(states, steps) && n <= |steps| && e in states[n].edges
    ensures HasOrigin(states[0].edges, states[n].commands, e, states[n].edges[e])
    ensures (forall i, j :: 0 <= i < j < |states[n].commands| ==>
               !(states[n].commands[i].id == e && states[n].commands[j].id == e)) ==>
              forall i, j :: CreatedBy(states[n].commands, i, e) && CreatedBy(states[n].commands, j, e) ==> i == j
  {
    if n > 0 {
      if e in states[n - 1].edges { EveryNewEdgeHasItsCreator(states, steps, n - 1, e); }
      OriginStays(states[0].edges, states[n - 1], steps[n - 1], states[n], e);
    }
  }

  // ---------------------------------------------------------------- one pair, left alone

  /** No id that is stored on the pair or proposed for it is proposed for another pair. */
  ghost predicate Undisturbed(before: Edges, commands: seq<Command>, pair: Pair) {
    forall i :: 0 <= i < |commands| && commands[i].pair != pair ==> !NamedFor(before, commands, pair, commands[i].id)
  }

  /** The id is stored on the pair or proposed for it. */
  ghost predicate NamedFor(before: Edges, commands: seq<Command>, pair: Pair, id: Id) {
    Occupies(before, id, pair) || exists j :: 0 <= j < |commands| && ProposedFor(commands[j], pair, id)
  }

  predicate ProposedFor(c: Command, pair: Pair, id: Id) {
    c.pair == pair && c.id == id
  }

  /** The commands on the pair propose distinct ids, none of them stored on it. */
  ghost predicate OwnIds(before: Edges, commands: seq<Command>, pair: Pair) {
    && (forall i :: 0 <= i < |commands| && commands[i].pair == pair ==> !Occupies(before, commands[i].id, pair))
    && forall i, j :: 0 <= i < j < |commands| && commands[i].pair == pair == commands[j].pair ==>
                        commands[i].id != commands[j].id
  }

  /** Later commands can only add to what disturbs a pair. */
  lemma EarlierUndisturbed(before: Edges, s: State, step: Step, t: State, pair: Pair)
    requires Next(s, step, t)
    ensures Undisturbed(before, t.commands, pair) ==> Undisturbed(before, s.commands, pair)
    ensures OwnIds(before, t.commands, pair) ==> OwnIds(before, s.commands, pair)
    ensures forall id :: NamedFor(before, s.commands, pair, id) ==> NamedFor(before, t.commands, pair, id)
  {
    forall i | 0 <= i < |s.commands|
      ensures i < |t.commands| && t.commands[i].id == s.commands[i].id && t.commands[i].pair == s.commands[i].pair
    {
      CommandStays(s, step, t, i);
    }
    forall id | NamedFor(before, s.commands, pair, id) ensures NamedFor(before, t.commands, pair, id) {
      if !Occupies(before, id, pair) {
        var j :| 0 <= j < |s.commands| && ProposedFor(s.commands[j], pair, id);
        assert ProposedFor(t.commands[j], pair, id);
      }
    }
  }

  /** What is settled about a pair that is left alone; `honest` says that no second look has failed. */
  ghost predicate PairSettled(before: Edges, s: State, pair: Pair, honest: bool) {
    && (forall e :: Occupies(s.edges, e, pair) ==> NamedFor(before, s.commands, pair, e))
    && forall i :: 0 <= i < |s.commands| && s.commands[i].pair == pair ==> AnswerStands(s.edges, s.commands[i], honest)
  }

  ghost predicate AnswerStands(edges: Edges, c: Command, honest: bool) {
    match c.at
    case Ended(Ok(id, created)) => Occupies(edges, id, c.pair) && (created ==> id == c.id)
    case Ended(Err(error)) => honest ==> error == Fault
    case Relooking(error) => error == Occupied ==> exists e :: Occupies(edges, e, c.pair)
    case _ => true
  }

  /** On a pair left alone an edge stays where it is. */
  lemma PairOnlyGrows(before: Edges, s: State, step: Step, t: State, pair: Pair, honest: bool, e: Id)
    requires Next(s, step, t) && !step.Delete? && PairSettled(before, s, pair, honest)
    requires Undisturbed(before, t.commands, pair) && Occupies(s.edges, e, pair)
    ensures Occupies(t.edges, e, pair)
  {
    EarlierUndisturbed(before, s, step, t, pair);
    assert NamedFor(before, s.commands, pair, e);
  }

  lemma PairStaysSettled(before: Edges, s: State, step: Step, t: State, pair: Pair, honest: bool)
    requires Next(s, step, t) && !step.Delete? && PairSettled(before, s, pair, honest)
    requires Undisturbed(before, t.commands, pair) && (honest && step.Relook? ==> !step.fails)
    ensures PairSettled(before, t, pair, honest)
  {
    EarlierUndisturbed(before, s, step, t, pair);
    forall e | Occupies(t.edges, e, pair) ensures NamedFor(before, t.commands, pair, e) {
      if !Occupies(s.edges, e, pair) { assert ProposedFor(t.commands[step.i], pair, e); }
    }
    forall i | 0 <= i < |t.commands| && t.commands[i].pair == pair
      ensures AnswerStands(t.edges, t.commands[i], honest)
    {
      if i < |s.commands| { AnswerStaysTrue(before, s, step, t, pair, honest, i); }
    }
  }

  lemma AnswerStaysTrue(before: Edges, s: State, step: Step, t: State, pair: Pair, honest: bool, i: nat)
    requires Next(s, step, t) && !step.Delete? && PairSettled(before, s, pair, honest)
    requires Undisturbed(before, t.commands, pair) && (honest && step.Relook? ==> !step.fails)
    requires i < |s.commands| && s.commands[i].pair == pair && i < |t.commands|
    ensures AnswerStands(t.edges, t.commands[i], honest)
  {
    var c := s.commands[i];
    assert AnswerStands(s.edges, c, honest);
    forall e | Occupies(s.edges, e, pair) ensures Occupies(t.edges, e, pair) {
      PairOnlyGrows(before, s, step, t, pair, honest, e);
    }
    if step.Emit? && step.i == i && !step.fails && !Free(s.edges, c.id, c.pair) {
      var e :| e in s.edges && e != c.id && s.edges[e] == c.pair;
      assert Occupies(t.edges, e, pair);
    }
  }

  lemma {:induction false} SettledInEveryRun(states: seq<State>, steps: seq<Step>, n: nat, pair: Pair, honest: bool)
    requires IsRun(states, steps) && DeleteFree(steps) && n <= |steps|
    requires Undisturbed(states[0].edges, states[n].commands, pair)
    requires honest ==> NoFailedSecondLook(steps)
    ensures PairSettled(states[0].edges, states[n], pair, honest)
  {
    if n > 0 {
      EarlierUndisturbed(states[0].edges, states[n - 1], steps[n - 1], states[n], pair);
      SettledInEveryRun(states, steps, n - 1, pair, honest);
      PairStaysSettled(states[0].edges, states[n - 1], steps[n - 1], states[n], pair, honest);
    }
  }

  ghost predicate NoFailedSecondLook(steps: seq<Step>) {
    forall n :: 0 <= n < |steps| ==> steps[n].Relook? ==> !steps[n].fails
  }

  /** With ids of their own, a command's id is on the pair exactly when the command answered `created`. */
  ghost predicate OwnSettled(s: State, pair: Pair) {
    forall i :: 0 <= i < |s.commands| && s.commands[i].pair == pair ==> OwnAnswer(s.edges, s.commands[i])
  }

  ghost predicate OwnAnswer(edges: Edges, c: Command) {
    && (Occupies(edges, c.id, c.pair) ==> HasCreated(c, c.id))
    && (c.at.Ended? && c.at.result.Ok? && !c.at.result.created ==> c.at.result.id != c.id)
  }

  lemma OwnStaysSettled(before: Edges, s: State, step: Step, t: State, pair: Pair)
    requires Next(s, step, t) && !step.Delete? && PairSettled(before, s, pair, false) && OwnSettled(s, pair)
    requires OwnIds(before, t.commands, pair)
    ensures OwnSettled(t, pair)
  {
    forall i | 0 <= i < |t.commands| && t.commands[i].pair == pair ensures OwnAnswer(t.edges, t.commands[i]) {
      if i < |s.commands| {
        CommandStays(s, step, t, i);
        OwnAnswerStays(before, s, step, t, pair, i);
      } else if Occupies(s.edges, t.commands[i].id, pair) {
        NewIdIsNotThere(before, s, step, t, pair);
      }
    }
  }

  lemma OwnAnswerStays(before: Edges, s: State, step: Step, t: State, pair: Pair, i: nat)
    requires Next(s, step, t) && !step.Delete? && OwnSettled(s, pair) && OwnIds(before, t.commands, pair)
    requires i < |s.commands| && i < |t.commands| && s.commands[i].pair == pair == t.commands[i].pair
    ensures OwnAnswer(t.edges, t.commands[i])
  {
    var c, d := s.commands[i], t.commands[i];
    CommandStays(s, step, t, i);
    assert OwnAnswer(s.edges, c);
    if step.Emit? && t.edges != s.edges && step.i != i {
      CommandStays(s, step, t, step.i);
      assert t.commands[step.i].pair == pair ==> t.commands[step.i].id != d.id;
    }
  }

  lemma NewIdIsNotThere(before: Edges, s: State, step: Step, t: State, pair: Pair)
    requires Next(s, step, t) && step.Invoke? && step.pair == pair && PairSettled(before, s, pair, false)
    requires OwnIds(before, t.commands, pair)
    ensures !Occupies(s.edges, step.id, pair)
  {
    var n := |s.commands|;
    assert t.commands[n].id == step.id && t.commands[n].pair == pair;
    forall j | 0 <= j < n ensures !ProposedFor(s.commands[j], pair, step.id) { assert t.commands[j] == s.commands[j]; }
    assert !NamedFor(before, s.commands, pair, step.id);
  }

  lemma {:induction false} OwnInEveryRun(states: seq<State>, steps: seq<Step>, n: nat, pair: Pair)
    requires IsRun(states, steps) && DeleteFree(steps) && n <= |steps|
    requires Undisturbed(states[0].edges, states[n].commands, pair) && OwnIds(states[0].edges, states[n].commands, pair)
    ensures OwnSettled(states[n], pair)
  {
    if n > 0 {
      EarlierUndisturbed(states[0].edges, states[n - 1], steps[n - 1], states[n], pair);
      OwnInEveryRun(states, steps, n - 1, pair);
      SettledInEveryRun(states, steps, n - 1, pair, false);
      OwnStaysSettled(states[0].edges, states[n - 1], steps[n - 1], states[n], pair);
    }
  }

  /**
   Without deletes, on a pair whose ids nobody proposes for another pair: all commands that succeed answer with
   the one edge the pair has, and, if no second look fails, none fails because the pair was taken.  When the
   commands on the pair propose ids of their own, `created` is the answer of the command whose edge it is and of
   no other.
   */
  lemma EnsureIsIdempotent(states: seq<State>, steps: seq<Step>, n: nat, i: nat, j: nat)
    requires IsRun(states, steps) && DeleteFree(steps) && n <= |steps|
    requires i < |states[n].commands| && j < |states[n].commands|
    requires states[n].commands[i].at.Ended? && states[n].commands[j].at.Ended?
    requires states[n].commands[i].pair == states[n].commands[j].pair
    requires Undisturbed(states[0].edges, states[n].commands, states[n].commands[i].pair)
    ensures var c, d := states[n].commands[i], states[n].commands[j];
            var r, q := c.at.result, d.at.result;
            && (r.Ok? ==> Occupies(states[n].edges, r.id, c.pair))
            && (r.Ok? && q.Ok? ==> r.id == q.id)
            && (NoFailedSecondLook(steps) ==> r != Err(Occupied))
            && (OwnIds(states[0].edges, states[n].commands, c.pair) && r.Ok? ==>
                  && (r.created <==> r.id == c.id)
                  && (q.Ok? && r.created && q.created ==> i == j))
  {
    var s, pair := states[n], states[n].commands[i].pair;
    AtMostOneEdge(states, steps, n);
    SettledInEveryRun(states, steps, n, pair, NoFailedSecondLook(steps));
    assert AnswerStands(s.edges, s.commands[i], NoFailedSecondLook(steps));
    assert AnswerStands(s.edges, s.commands[j], NoFailedSecondLook(steps));
    if OwnIds(states[0].edges, s.commands, pair) {
      OwnInEveryRun(states, steps, n, pair);
      assert OwnAnswer(s.edges, s.commands[i]) && OwnAnswer(s.edges, s.commands[j]);
    }
  }

  // ---------------------------------------------------------------- proposals that share an id

  ghost function SharedStates(id: Id, pair: Pair): (states: seq<State>)
    ensures |states| == 7
  {
    var s2 := State(map[], [Command(id, pair, Looking), Command(id, pair, Looking)]);
    var s3 := Move(s2, 0, Emitting);
    var s4 := Move(s3, 1, Emitting);
    var s5 := Emitted(s4, 0, false);
    [State(map[], []), State(map[], [Command(id, pair, Looking)]), s2, s3, s4, s5, Emitted(s5, 1, false)]
  }

  lemma SharedFirstLooks(id: Id, pair: Pair)
    ensures var s := SharedStates(id, pair);
            && Next(s[0], Invoke(id, pair), s[1]) && Next(s[1], Invoke(id, pair), s[2])
            && Next(s[2], Lookup(0, false), s[3]) && Next(s[3], Lookup(1, false), s[4])
  {
    var s := SharedStates(id, pair);
    assert Looked(s[2], 0, false, None, s[3]) && Looked(s[3], 1, false, None, s[4]);
  }

  lemma SharedThenEmits(id: Id, pair: Pair)
    ensures var s := SharedStates(id, pair);
            Next(s[4], Emit(0, false), s[5]) && Next(s[5], Emit(1, false), s[6]) && TwiceCreated(s[6], id)
  {
    var s := SharedStates(id, pair);
    assert s[4].commands == [Command(id, pair, Emitting), Command(id, pair, Emitting)];
    assert s[5].edges == map[id := pair];
  }

  predicate TwiceCreated(s: State, id: Id) {
    |s.commands| == 2 && HasCreated(s.commands[0], id) && HasCreated(s.commands[1], id)
  }

  /** Two commands that propose the same id can both answer `created`: the reservation lets an id take its own pair. */
  lemma SharedIdCreatesTwice(id: Id, pair: Pair)
    ensures exists states, steps :: IsRun(states, steps) && |steps| == 6 && TwiceCreated(states[6], id)
  {
    SharedFirstLooks(id, pair);
    SharedThenEmits(id, pair);
    var states := SharedStates(id, pair);
    var steps :=
      [Invoke(id, pair), Invoke(id, pair), Lookup(0, false), Lookup(1, false), Emit(0, false), Emit(1, false)];
    assert IsRun(states, steps) && TwiceCreated(states[6], id);
  }
}
