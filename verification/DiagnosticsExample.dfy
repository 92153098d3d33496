/** A connection on which a frame that changes the client's data counts as unchanged. */
module DiagnosticsExample {
  import opened Common
  import opened Fingerprint
  import opened Inspection
  import opened Diagnostics

  // ---------------------------------------------------------------- every event has a next state

  lemma RememberSome(before: set<Seen>, keys: set<Seen>, room: nat) returns (after: set<Seen>, overflow: bool)
    ensures Remembers(before, keys, room, after, overflow)
  {
    after, overflow := before, false;
    var rest, left := keys, room;
    while rest != {}
      invariant rest <= keys && before <= after <= before + keys && |after| + left == |before| + room
      invariant keys - rest <= after
      decreases rest
    {
      var k :| k in rest;
      if k !in after {
        if left == 0 {
          overflow := true;
          return;
        }
        left := left - 1;
        after := after + {k};
      }
      rest := rest - {k};
    }
  }

  lemma CountSome(before: map<Operation, Counts>, op: Operation, tally: Tally, tx: Option<Tx>)
    returns (after: map<Operation, Counts>)
    ensures Counted(before, op, tally, tx, after)
  {
    var c := CountsOf(before, op);
    c := c.(messages := c.messages + 1);
    if tally.complete && tx.Some? {
      var room := SaturatingSub(MAX_CLIENT_PROPERTIES, SumMap(UniqueSizes(before)));
      var unique, overflow := RememberSome(c.unique, Stamped(tx.value, tally.keys), room);
      c := Counts(c.messages, c.same + (if tally.same then 1 else 0), c.incomplete + (if overflow then 1 else 0),
                  unique);
    } else if tx.Some? {
      c := c.(incomplete := c.incomplete + 1);
    }
    after := before[op := c];
  }

  /** A run goes on with any event. */
  lemma Extend(states: seq<State>, events: seq<Event>, e: Event) returns (t: State)
    requires IsRun(states, events)
    ensures IsRun(states + [t], events + [e]) && Step(states[|events|], e, t)
  {
    var s := states[|events|];
    match e {
      case In(m) => t := AfterInbound(s, m);
      case Out(m, tag, bytes) =>
        var counts := CountSome(s.counts, Charged(s, m, tag), Verdict(s, m, bytes), ResponseTx(m));
        t := AfterSent(s, m, bytes).(counts := counts);
      case Flush => t := s.(counts := map[]);
    }
    var allStates, allEvents := states + [t], events + [e];
    forall n | 0 <= n < |allEvents| ensures Step(allStates[n], allEvents[n], allStates[n + 1]) {
      if n < |events| { assert allStates[n] == states[n] && allStates[n + 1] == states[n + 1]; }
    }
  }

  /** Any events make a run. */
  lemma {:induction false} RunOf(events: seq<Event>) returns (states: seq<State>)
    ensures IsRun(states, events)
  {
    if events == [] {
      states := [INITIAL];
    } else {
      var n := |events| - 1;
      var before := RunOf(events[..n]);
      var t := Extend(before, events[..n], events[n]);
      states := before + [t];
      assert events[..n] + [events[n]] == events;
    }
  }

  // ---------------------------------------------------------------- the frames of the example

  const OPERATION: Operation := Operation("query", "q")
  const SUBSCRIBE: Event := In(Subscribe(OPERATION, false, Some("t")))
  const SNAPSHOT: Response := Response(0, [], [Item("a", Some(Null))], [])
  const LARGE: Response := Response(1, [WindowOrder], [], [])
  const DELETION: Response := Response(2, [], [], ["a"])

  function Frame(response: Response, bytes: nat): Event { Out(QueryResponse("t", response), OPERATION, bytes) }

  const EVENTS: seq<Event> :=
    [SUBSCRIBE, Frame(SNAPSHOT, 10), Frame(LARGE, MAX_FRAME_BYTES + 1), Frame(DELETION, 10)]

  lemma SnapshotChanges()
    ensures Changes(SNAPSHOT) == [Upsert(Item("a", Some(Null)))] && Changes(LARGE) == [WindowOrder]
    ensures Changes(DELETION) == [Delete("a")]
  {
  }

  lemma ViewsOfExample()
    ensures ApplyResponse(map[], SNAPSHOT) == map["a" := Some(Null)]
    ensures ApplyResponse(map["a" := Some(Null)], LARGE) == map["a" := Some(Null)]
    ensures !SameView(ApplyResponse(map["a" := Some(Null)], DELETION), map["a" := Some(Null)])
  {
    SnapshotChanges();
    var view: View := map["a" := Some(Null)];
    ApplyOne(map[], Upsert(Item("a", Some(Null))));
    ApplyOne(view, WindowOrder);
    ApplyOne(view, Delete("a"));
    assert "a" in view && "a" !in ApplyResponse(view, DELETION);
  }

  lemma ApplyOne(view: View, c: Change)
    ensures ApplyChanges(view, [c]) == ApplyChange(view, c)
  {
    assert [c][1..] == [];
  }

  /** After the snapshot, whether or not it was fully inspected, the large frame leaves nothing retained. */
  lemma LargeFrameForgets(sub: Subscription, retained: nat)
    ensures SentOn(sub, retained, QueryResponse("t", LARGE), MAX_FRAME_BYTES + 1).sub == Forget(sub)
  {
  }

  /** On an empty baseline the deletion is fully inspected and counts as unchanged. */
  lemma DeletionLooksQuiet(sub: Subscription, retained: nat)
    requires sub.previous == None && sub.items == map[] && retained <= MAX_CLIENT_PROPERTIES
    ensures var tally := SentOn(sub, retained, QueryResponse("t", DELETION), 10).tally; tally.complete && tally.same
  {
    SnapshotChanges();
    var t := FreshTally();
    assert [Delete("a")][1..] == [];
    assert InspectChanges(t, map[], [Delete("a")]) == InspectDelete(t, map[], "a");
    NothingRetained(sub.operation);
    assert sub == Subscription(sub.operation, None, map[]);
  }

  /** Every frame of the example reaches the live subscription. */
  lemma StaysLive(s: State, response: Response, bytes: nat, t: State)
    requires "t" in s.subscriptions && Step(s, Frame(response, bytes), t)
    ensures "t" in t.subscriptions
    ensures t.subscriptions["t"] == SentOn(s.subscriptions["t"], s.retained, QueryResponse("t", response), bytes).sub
  {
  }

  lemma HistoryStep(states: seq<State>, events: seq<Event>, i: nat, response: Response, bytes: nat)
    requires i < |events| <= |states| && events[i] == Frame(response, bytes)
    requires "t" in states[i].subscriptions && "t" in HistoryOf(states, events, i)
    ensures var before, after := HistoryOf(states, events, i), HistoryOf(states, events, i + 1);
            "t" in after && after["t"].view == ApplyResponse(before["t"].view, response)
  {
  }

  /** The subscription at the moment of the deletion. */
  lemma ExampleBaseline(states: seq<State>)
    requires IsRun(states, EVENTS)
    ensures "t" in states[1].subscriptions && "t" in states[2].subscriptions && "t" in states[3].subscriptions
    ensures states[3].retained <= MAX_CLIENT_PROPERTIES
    ensures states[3].subscriptions["t"].previous == None && states[3].subscriptions["t"].items == map[]
  {
    assert Step(states[0], EVENTS[0], states[1]) && Step(states[1], EVENTS[1], states[2]);
    assert Step(states[2], EVENTS[2], states[3]);
    StaysLive(states[1], SNAPSHOT, 10, states[2]);
    StaysLive(states[2], LARGE, MAX_FRAME_BYTES + 1, states[3]);
    LargeFrameForgets(states[2].subscriptions["t"], states[2].retained);
    ExactInEveryRun(states, EVENTS, 3);
  }

  lemma ExampleView(states: seq<State>)
    requires IsRun(states, EVENTS) && "t" in states[1].subscriptions && "t" in states[2].subscriptions
    ensures "t" in HistoryOf(states, EVENTS, 3) && HistoryOf(states, EVENTS, 3)["t"].view == map["a" := Some(Null)]
  {
    ViewsOfExample();
    assert HistoryOf(states, EVENTS, 0) == map[];
    assert HistoryOf(states, EVENTS, 1) == map["t" := NEW_TRACK];
    HistoryStep(states, EVENTS, 1, SNAPSHOT, 10);
    HistoryStep(states, EVENTS, 2, LARGE, MAX_FRAME_BYTES + 1);
  }

  /**
   After a frame that was too large to inspect, a frame that deletes an item the client holds is fully inspected
   and counts as unchanged, though the client's data changes.
   */
  lemma DroppedBaselineMisjudges()
    ensures exists states, events, i :: MisjudgedAt(states, events, i)
  {
    var states := RunOf(EVENTS);
    ExampleBaseline(states);
    ExampleView(states);
    ViewsOfExample();
    DeletionLooksQuiet(states[3].subscriptions["t"], states[3].retained);
    assert MisjudgedAt(states, EVENTS, 3);
  }

  ghost predicate MisjudgedAt(states: seq<State>, events: seq<Event>, i: nat) {
    && IsRun(states, events) && i < |events|
    && events[i].Out? && events[i].outbound.QueryResponse? && Live(states[i], events[i].outbound)
    && var m, h := events[i].outbound, HistoryOf(states, events, i);
       && Verdict(states[i], m, events[i].bytes).complete && Verdict(states[i], m, events[i].bytes).same
       && m.tx in h && !SameView(ApplyResponse(h[m.tx].view, m.response), h[m.tx].view)
  }
}
