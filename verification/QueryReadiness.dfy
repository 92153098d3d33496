/** Readiness of the query store over runs of events. */
module QueryReadiness {
  import opened Common
  import opened QueryStoreSpec

  /** Readiness is the last readiness answer together with a connected status, and the load state says so. */
  ghost predicate ReadinessFits<T>(s: Store<T>) {
    && (s.ready <==> s.responseReady && IsConnected(s.connection))
    && (s.ready <==> s.state.Loaded?)
  }

  lemma {:induction false} ReadinessOverRuns<T>(events: seq<Event<T>>)
    ensures ReadinessFits(Replay(EmptyStore(), events))
    decreases |events|
  {
    if |events| > 0 {
      var before := Replay(EmptyStore(), events[..|events| - 1]);
      ReadinessOverRuns(events[..|events| - 1]);
      EventFitsReadiness(before, events[|events| - 1]);
    }
  }

  lemma EventFitsReadiness<T>(s: Store<T>, event: Event<T>)
    requires ReadinessFits(s)
    ensures ReadinessFits(ApplyEvent(s, event).store)
  {
    if event.Map? { DiffMovesRowsOnly(s, event.diff); }
  }

  lemma {:induction false} DiffMovesRowsOnly<T>(s: Store<T>, diff: MapDiff<T>)
    ensures var t := ApplyDiff(s, diff).store;
      t.state == s.state && t.ready == s.ready && t.responseReady == s.responseReady && t.connection == s.connection
    decreases diff, 0
  {
    if diff.Batch? { BatchMovesRowsOnly(s, diff.changes, |diff.changes|); }
  }

  lemma {:induction false} BatchMovesRowsOnly<T>(s: Store<T>, changes: seq<MapDiff<T>>, n: nat)
    requires n <= |changes|
    ensures var t := ApplyBatch(s, changes, n).store;
      t.state == s.state && t.ready == s.ready && t.responseReady == s.responseReady && t.connection == s.connection
    decreases changes, n
  {
    if n > 0 {
      BatchMovesRowsOnly(s, changes, n - 1);
      DiffMovesRowsOnly(ApplyBatch(s, changes, n - 1).store, changes[n - 1]);
    }
  }

  /** After a status other than connected only a later positive readiness answer can make the store ready. */
  lemma {:induction false} ReadyNeedsNewAnswer<T>(
    s: Store<T>, status: ConnectionStatus, snapshot: seq<Entry<T>>, rest: seq<Event<T>>)
    requires !status.Connected?
    requires forall i :: 0 <= i < |rest| ==> !(rest[i].ReadySignal? && rest[i].ready)
    ensures var t := Replay(ApplyEvent(s, StatusSignal(status, snapshot)).store, rest);
      !t.ready && !t.responseReady
    decreases |rest|
  {
    if |rest| > 0 {
      ReadyNeedsNewAnswer(s, status, snapshot, rest[..|rest| - 1]);
    }
  }

  /** While the store is not ready its rows are those of the last ready moment. */
  lemma {:induction false} RowsRestWhileNotReady<T>(s: Store<T>, events: seq<Event<T>>)
    requires forall n :: 1 <= n <= |events| ==> !Replay(s, events[..n]).ready
    ensures Rows(Replay(s, events)) == Rows(s) && Replay(s, events).keys == s.keys
    decreases |events|
  {
    if |events| > 0 {
      var init := events[..|events| - 1];
      forall n | 1 <= n <= |init| ensures !Replay(s, init[..n]).ready {
        assert init[..n] == events[..n];
      }
      RowsRestWhileNotReady(s, init);
      assert events[..|events|] == events;
      var before, last := Replay(s, init), events[|events| - 1];
      if last.Map? { DiffMovesRowsOnly(before, last.diff); }
      assert ApplyEvent(before, last).store.values == before.values;
    }
  }

  // ---------------------------------------------------------------- the load state, read off the events

  /** The last readiness answer is positive, and no error and no status but connected has come after it. */
  predicate AnswerStands<T>(events: seq<Event<T>>) {
    events != [] &&
    var before, last := events[..|events| - 1], events[|events| - 1];
    match last
    case Map(_) => AnswerStands(before)
    case ReadySignal(ready, _) => ready
    case StatusSignal(status, _) => status.Connected? && AnswerStands(before)
    case ReadyError(_) => false
    case StatusError(_) => false
  }

  /** The last status, unless a status error has come after it. */
  function LastStatus<T>(events: seq<Event<T>>): Option<ConnectionStatus> {
    if events == [] then None
    else
      match events[|events| - 1]
      case StatusSignal(status, _) => Some(status)
      case StatusError(_) => None
      case _ => LastStatus(events[..|events| - 1])
  }

  predicate IsReady<T>(events: seq<Event<T>>) {
    AnswerStands(events) && LastStatus(events).Some? && LastStatus(events).value.Connected?
  }

  predicate WasReady<T>(events: seq<Event<T>>) {
    exists n :: 0 <= n <= |events| && IsReady(events[..n])
  }

  /** The last event that is no diff, if there is one. */
  function LastSignal<T>(events: seq<Event<T>>): Option<Event<T>> {
    if events == [] then None
    else if !events[|events| - 1].Map? then Some(events[|events| - 1])
    else LastSignal(events[..|events| - 1])
  }

  lemma {:induction false} ReadyByEvents<T>(events: seq<Event<T>>)
    ensures var s := Replay(EmptyStore(), events);
            && s.responseReady == AnswerStands(events) && s.connection == LastStatus(events)
            && s.ready == IsReady(events)
    decreases |events|
  {
    if events != [] {
      var before, last := events[..|events| - 1], events[|events| - 1];
      ReadyByEvents(before);
      ReadinessOverRuns(before);
      ReadinessOverRuns(events);
      if last.Map? { DiffMovesRowsOnly(Replay(EmptyStore(), before), last.diff); }
    }
  }

  lemma WasReadyOneMore<T>(events: seq<Event<T>>)
    requires events != []
    ensures WasReady(events) <==> WasReady(events[..|events| - 1]) || IsReady(events)
  {
    var before := events[..|events| - 1];
    assert events[..|events|] == events;
    forall n | 0 <= n <= |before| ensures before[..n] == events[..n] {
    }
    if n :| 0 <= n <= |events| && IsReady(events[..n]) { assert n < |events| ==> IsReady(before[..n]); }
    if n :| 0 <= n <= |before| && IsReady(before[..n]) { assert IsReady(events[..n]); }
  }

  lemma {:induction false} StaleByEvents<T>(events: seq<Event<T>>)
    ensures HasValue(Replay(EmptyStore(), events).state) == WasReady(events)
    decreases |events|
  {
    ReadinessOverRuns(events);
    ReadyByEvents(events);
    if events == [] {
      assert events[..0] == events;
    } else {
      StaleByEvents(events[..|events| - 1]);
      ReadinessOverRuns(events[..|events| - 1]);
      WasReadyOneMore(events);
      StaleMoves(Replay(EmptyStore(), events[..|events| - 1]), events[|events| - 1]);
    }
  }

  /** Once there is a value there is one for good, and there is one when the store is ready. */
  lemma StaleMoves<T>(s: Store<T>, event: Event<T>)
    requires ReadinessFits(s)
    ensures var t := ApplyEvent(s, event).store; HasValue(t.state) == (HasValue(s.state) || t.ready)
  {
    if event.Map? { DiffMovesRowsOnly(s, event.diff); }
  }

  /**
   Over every list of events the load state is what the events say: failed with its message when an error came last;
   else loaded while ready, failed while the last status is disconnected, loading otherwise; and a stale value is
   kept exactly when the store was ready at some moment before.
   */
  lemma {:induction false} StateOverRuns<T>(events: seq<Event<T>>)
    ensures Replay(EmptyStore<T>(), events).state ==
              match LastSignal(events)
              case None => Loading(false)
              case Some(ReadyError(message)) => Failed(message, WasReady(events))
              case Some(StatusError(message)) => Failed(message, WasReady(events))
              case Some(_) =>
                if IsReady(events) then Loaded
                else if LastStatus(events) == Some(Disconnected) then
                  Failed("Myko connection disconnected", WasReady(events))
                else Loading(WasReady(events))
    decreases |events|
  {
    if events != [] {
      var before, last := events[..|events| - 1], events[|events| - 1];
      StaleByEvents(before);
      StaleByEvents(events);
      ReadyByEvents(events);
      ReadinessOverRuns(events);
      if last.Map? {
        StateOverRuns(before);
        DiffMovesRowsOnly(Replay(EmptyStore(), before), last.diff);
        WasReadyOneMore(events);
      }
    }
  }
}
