/** To which operation a frame is charged, and what an operation's counters add up to, over every run. */
module DiagnosticsCounts {
  import opened Common
  import opened Fingerprint
  import opened Inspection
  import opened InspectionCounts
  import opened Diagnostics

  // ---------------------------------------------------------------- the owner of a frame, read off the events

  datatype Claim = Nobody | Subscribed(operation: Operation) | Cancelled(operation: Operation)

  /** Who claims a transaction: its last accepted subscription, also after that was cancelled. */
  function ClaimOf(events: seq<Event>, i: nat, tx: Tx): Claim
    requires i <= |events|
  {
    if i == 0 then Nobody
    else
      var before := ClaimOf(events, i - 1, tx);
      match events[i - 1]
      case In(Subscribe(operation, isReport, Some(t))) =>
        if t == tx && (isReport || !before.Subscribed?) then Subscribed(operation) else before
      case In(Cancel(t)) => if t == tx && before.Subscribed? then Cancelled(before.operation) else before
      case _ => before
  }

  /** The command a transaction stands for, until its first answer. */
  function CommandOf(events: seq<Event>, i: nat, tx: Tx): Option<string>
    requires i <= |events|
  {
    if i == 0 then None
    else
      match events[i - 1]
      case In(Command(Some(t), id)) => if t == tx then Some(id) else CommandOf(events, i - 1, tx)
      case Out(CommandResponse(t), _, _) => if t == tx then None else CommandOf(events, i - 1, tx)
      case Out(CommandError(t, _), _, _) => if t == tx then None else CommandOf(events, i - 1, tx)
      case _ => CommandOf(events, i - 1, tx)
  }

  /** The operation frame `i` belongs to. */
  function OwnerOf(events: seq<Event>, i: nat): Operation
    requires i < |events| && events[i].Out?
  {
    var tag := events[i].tag;
    match events[i].outbound
    case ReportResponse(tx, _) => ClaimedOr(ClaimOf(events, i, tx), tag)
    case QueryResponse(tx, _) => ClaimedOr(ClaimOf(events, i, tx), tag)
    case CommandResponse(tx) =>
      if CommandOf(events, i, tx).Some? then Operation(tag.kind, CommandOf(events, i, tx).value) else tag
    case CommandError(_, id) => Operation(tag.kind, id)
    case OtherOutbound => tag
  }

  function ClaimedOr(claim: Claim, tag: Operation): Operation {
    if claim.Nobody? then tag else claim.operation
  }

  /** The connection knows of each transaction what the events say. */
  ghost predicate Known(s: State, claim: Claim, command: Option<string>, tx: Tx) {
    && (tx in s.subscriptions <==> claim.Subscribed?)
    && (claim.Subscribed? ==> s.subscriptions[tx].operation == claim.operation)
    && (tx in s.cancelled <==> claim.Cancelled?)
    && (claim.Cancelled? ==> s.cancelled[tx] == claim.operation)
    && (if tx in s.commands then command == Some(s.commands[tx]) else command == None)
  }

  lemma {:induction false} KnownInEveryRun(states: seq<State>, events: seq<Event>, i: nat, tx: Tx)
    requires IsRun(states, events) && i <= |events|
    ensures Known(states[i], ClaimOf(events, i, tx), CommandOf(events, i, tx), tx)
  {
    if i > 0 {
      KnownInEveryRun(states, events, i - 1, tx);
      var s, t := states[i - 1], states[i];
      match events[i - 1]
      case In(m) => InboundKnown(s, m, events, i, tx);
      case Out(m, tag, bytes) => SentKnown(s, m, bytes, events, i, tx);
      case Flush =>
    }
  }

  lemma InboundKnown(s: State, m: Inbound, events: seq<Event>, i: nat, tx: Tx)
    requires 0 < i <= |events| && events[i - 1] == In(m)
    requires Known(s, ClaimOf(events, i - 1, tx), CommandOf(events, i - 1, tx), tx)
    ensures Known(AfterInbound(s, m), ClaimOf(events, i, tx), CommandOf(events, i, tx), tx)
  {
  }

  lemma SentKnown(s: State, m: Outbound, bytes: nat, events: seq<Event>, i: nat, tx: Tx)
    requires 0 < i <= |events| && events[i - 1].Out? && events[i - 1].outbound == m
    requires Known(s, ClaimOf(events, i - 1, tx), CommandOf(events, i - 1, tx), tx)
    ensures Known(AfterSent(s, m, bytes), ClaimOf(events, i, tx), CommandOf(events, i, tx), tx)
  {
  }

  /** In every run each frame is charged to its owner. */
  lemma ChargedToOwner(states: seq<State>, events: seq<Event>, i: nat)
    requires IsRun(states, events) && i < |events| && events[i].Out?
    ensures Charged(states[i], events[i].outbound, events[i].tag) == OwnerOf(events, i)
  {
    var m := events[i].outbound;
    if !m.OtherOutbound? { KnownInEveryRun(states, events, i, m.tx); }
  }

  // ---------------------------------------------------------------- what the counters add up to

  /** Frame `i` is one of the operation's. */
  predicate FrameOf(events: seq<Event>, i: nat, op: Operation)
    requires i < |events|
  {
    events[i].Out? && OwnerOf(events, i) == op
  }

  /** What frame `i` was found to be. */
  ghost function Found(states: seq<State>, events: seq<Event>, i: nat): Tally
    requires i < |events| <= |states| && events[i].Out?
  {
    Verdict(states[i], events[i].outbound, events[i].bytes)
  }

  predicate IsResponse(e: Event) { e.Out? && ResponseTx(e.outbound).Some? }

  /** The leaves of frame `i`, if it was fully inspected. */
  ghost function KeysOf(states: seq<State>, events: seq<Event>, i: nat): set<Seen>
    requires i < |events| <= |states|
  {
    if IsResponse(events[i]) && Found(states, events, i).complete
    then set slot | slot in Found(states, events, i).keys :: Seen(ResponseTx(events[i].outbound).value, slot)
    else {}
  }

  /** Frame `i` was not fully inspected, or not all its leaves found room. */
  ghost predicate IsIncomplete(states: seq<State>, events: seq<Event>, i: nat)
    requires i < |events| < |states|
  {
    && IsResponse(events[i])
    && (!Found(states, events, i).complete
        || !(KeysOf(states, events, i) <= CountsOf(states[i + 1].counts, OwnerOf(events, i)).unique))
  }

  ghost predicate IsSame(states: seq<State>, events: seq<Event>, i: nat)
    requires i < |events| <= |states|
  {
    IsResponse(events[i]) && Found(states, events, i).complete && Found(states, events, i).same
  }

  /** The operation's counters as the events since the last flush have them; `unique` is an upper bound. */
  ghost function Expected(states: seq<State>, events: seq<Event>, i: nat, op: Operation): Counts
    requires i <= |events| < |states|
  {
    if i == 0 || events[i - 1].Flush? then Counts(0, 0, 0, {})
    else
      var before := Expected(states, events, i - 1, op);
      if !FrameOf(events, i - 1, op) then before
      else Counts(before.messages + 1,
                  before.same + (if IsSame(states, events, i - 1) then 1 else 0),
                  before.incomplete + (if IsIncomplete(states, events, i - 1) then 1 else 0),
                  before.unique + KeysOf(states, events, i - 1))
  }

  /**
   In every run, since the last flush: an operation's messages, unchanged and incomplete counts are the numbers of
   its frames, of those fully inspected and unchanged, and of those not fully inspected or not fully remembered; the
   leaves remembered are among those of its frames, and all of them when no frame is counted as incomplete.
   */
  lemma {:induction false} CountersAddUp(states: seq<State>, events: seq<Event>, i: nat, op: Operation)
    requires IsRun(states, events) && i <= |events|
    ensures var c, e := CountsOf(states[i].counts, op), Expected(states, events, i, op);
            && c.messages == e.messages && c.same == e.same && c.incomplete == e.incomplete
            && c.unique <= e.unique && (e.incomplete == 0 ==> c.unique == e.unique)
  {
    if i > 0 && !events[i - 1].Flush? {
      CountersAddUp(states, events, i - 1, op);
      if events[i - 1].Out? && OwnerOf(events, i - 1) == op {
        ChargedToOwner(states, events, i - 1);
        FrameCounted(states, events, i - 1);
      } else {
        OthersCounted(states, events, i - 1, op);
      }
    }
  }

  lemma OthersCounted(states: seq<State>, events: seq<Event>, i: nat, op: Operation)
    requires IsRun(states, events) && i < |events| && !events[i].Flush? && !FrameOf(events, i, op)
    ensures CountsOf(states[i + 1].counts, op) == CountsOf(states[i].counts, op)
  {
    if events[i].Out? { ChargedToOwner(states, events, i); }
  }

  lemma FrameCounted(states: seq<State>, events: seq<Event>, i: nat)
    requires IsRun(states, events) && i < |events| && events[i].Out?
    requires Charged(states[i], events[i].outbound, events[i].tag) == OwnerOf(events, i)
    ensures var op := OwnerOf(events, i);
            var c, d := CountsOf(states[i].counts, op), CountsOf(states[i + 1].counts, op);
            && d.messages == c.messages + 1
            && d.same == c.same + (if IsSame(states, events, i) then 1 else 0)
            && d.incomplete == c.incomplete + (if IsIncomplete(states, events, i) then 1 else 0)
            && c.unique <= d.unique <= c.unique + KeysOf(states, events, i)
            && (!IsIncomplete(states, events, i) ==> d.unique == c.unique + KeysOf(states, events, i))
  {
  }

  /** Leaves of a fully inspected frame are forgotten only once the connection remembers as many as it may. */
  lemma ForgottenOnlyWhenFull(states: seq<State>, events: seq<Event>, i: nat)
    requires IsRun(states, events) && i < |events| && IsResponse(events[i])
    requires Found(states, events, i).complete && IsIncomplete(states, events, i)
    ensures SumMap(UniqueSizes(states[i + 1].counts)) == 65536
  {
    ExactInEveryRun(states, events, i);
    ChargedToOwner(states, events, i);
    FilledUp(states[i].counts, OwnerOf(events, i), Found(states, events, i), ResponseTx(events[i].outbound).value,
             states[i + 1].counts);
  }

  lemma FilledUp(before: map<Operation, Counts>, op: Operation, tally: Tally, tx: Tx, after: map<Operation, Counts>)
    requires SumMap(UniqueSizes(before)) <= MAX_CLIENT_PROPERTIES && Counted(before, op, tally, Some(tx), after)
    requires tally.complete && !(Stamped(tx, tally.keys) <= after[op].unique)
    ensures SumMap(UniqueSizes(after)) == MAX_CLIENT_PROPERTIES
  {
    var n := |after[op].unique|;
    assert UniqueSizes(after) == UniqueSizes(before)[op := n];
    SumMapPut(UniqueSizes(before), op, n);
  }

  // ---------------------------------------------------------------- when a response is fully inspected

  /** When a query or view response is fully inspected. */
  lemma ResponseInspectedWhen(s: State, m: Outbound, bytes: nat)
    requires Exact(s) && WellFormedFrame(m) && m.QueryResponse? && Live(s, m)
    ensures var sub := s.subscriptions[m.tx];
            var ids := if m.response.sequence == 0 then {} else sub.items.Keys;
            Verdict(s, m, bytes).complete <==>
              && bytes <= 262144
              && Acceptable(0, ids, Changes(m.response))
              && s.retained - Retained(sub) + Retained(InspectFrame(sub, m).1) <= 65536
  {
    RetainedDrop(s.subscriptions, m.tx);
    ResponseGetsThrough(s.subscriptions[m.tx].items, m.response);
  }

  lemma ResponseGetsThrough(items: ItemLeaves, response: Response)
    requires WellFormedChanges(Changes(response))
    ensures InspectResponse(items, response).tally.complete
            <==> Acceptable(0, if response.sequence == 0 then {} else items.Keys, Changes(response))
  {
    if response.sequence == 0 {
      GetsThroughIff(FreshTally().(same := false), map[], Changes(response));
    } else {
      GetsThroughIff(FreshTally(), items, Changes(response));
    }
  }
}
