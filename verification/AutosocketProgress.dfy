/** The driver never gets stuck on an old generation, and a session costs at most one queued frame. */
module AutosocketProgress {
  import opened AutosocketModel
  import opened AutosocketInvariants

  // ---------------------------------------------------------------- catching up

  /** The driver works for the generation in the control record, or is idle because there is no address. */
  predicate Current(s: State) {
    s.watch.seen == s.watch.version &&
    (HeldBy(s.driver).Some? || s.driver.SetIdle? || s.driver.WaitIdle?)
  }

  /** A step of the driver or of a session task that needs nothing from callers, senders or the peer. */
  predicate Internal(step: Step) {
    || (step.Drive? && !step.event.ConnectOk? && !step.event.ConnectErr? && !step.event.Elapsed?)
    || (step.Run? && !step.task.ReadFrame? && !step.task.Pop? && !step.task.WriteOk? && !step.task.Crash?)
  }

  /** Steps a session still has to make before it has ended. */
  function SessionRank(x: Session): nat {
    if x.finished then 0
    else
      1
      + (if x.aborting then 0 else 1)
      + (if x.ready.Pending? then 1 else 0)
      + (match x.reader case ReaderUnborn => 4 case Reading => 1 case Holding(_) => 2 case ReaderDone => 0)
      + (match x.writer case WriterUnborn => 1 case Waiting => 1 case Writing(_) => 1 case WriterDone => 0)
  }

  function LastRank(s: State): nat {
    if |s.sessions| == 0 then 0 else SessionRank(s.sessions[|s.sessions| - 1])
  }

  /** Distance of the driver from its next look at the watch channel. */
  function Rank(s: State): nat {
    match s.driver
    case Borrow => 1
    case SetIdle => 3
    case WaitIdle => 2
    case Attempt(_, _) => 34
    case Parse(_, _) => 33
    case BadUrl(_) => 3
    case WaitChange(_) => 2
    case Connect(_, _) => 2
    case ConnectFailed(_, _) => 3
    case Delay(_, _) => 2
    case CheckConnected(_, _) => 32
    case SpawnSession(_, _) => 31
    case AwaitReady(_, _) => 20 + LastRank(s)
    case ReadyLost(_, _) => 36
    case ReadyLostSet(_, _) => 35
    case CheckReady(_, _) => 19 + LastRank(s)
    case SetConnected(_) => 22 + LastRank(s)
    case Live(_) => 20 + LastRank(s)
    case SessionEnded(_) => 3
    case Teardown(_, _) => 2 + LastRank(s)
    case Exited => 0
  }

  /** The step that brings the driver closer to the current generation. */
  function NextInternal(s: State): Step {
    if s.driver.Teardown? && !LastFinished(s) && |s.sessions| > 0 then
      var i := |s.sessions| - 1;
      var x := s.sessions[i];
      Run(i,
          if x.reader.ReaderUnborn? then Start
          else if x.ready.Pending? then SignalReady
          else if x.reader.Reading? then StopReading
          else if x.reader.Holding? then Deliver
          else if x.writer.Waiting? then StopWriting
          else if x.writer.Writing? then WriteFail(false)
          else if !x.aborting then Notice
          else Finish)
    else if s.driver.Teardown? || s.driver.ReadyLost? then Drive(SessionDone)
    else if s.driver.Parse? then Drive(UrlOk)
    else if Listening(s.driver) then Drive(SeeChange)
    else Drive(Go)
  }

  /** Away from the current generation some internal step is always enabled and brings the driver closer. */
  lemma NextInternalHelps(s: State)
    requires Inv(s) && !s.watch.closed && !Current(s)
    ensures var step := NextInternal(s);
      Internal(step) && Enabled(s, step) && (Current(Apply(s, step)) || Rank(Apply(s, step)) < Rank(s))
      && Apply(s, step).control == s.control && !Apply(s, step).watch.closed
  {
    if s.driver.Teardown? && !LastFinished(s) {
      SessionStepHelps(s);
    } else {
      DriverStepHelps(s);
    }
  }

  lemma SessionStepHelps(s: State)
    requires Inv(s) && !s.watch.closed && s.driver.Teardown? && !LastFinished(s)
    ensures var step := NextInternal(s);
      Internal(step) && Enabled(s, step) && Rank(Apply(s, step)) < Rank(s)
      && Apply(s, step).control == s.control && !Apply(s, step).watch.closed
  {
    var i := |s.sessions| - 1;
    assert SessionFits(s, s.sessions[i]) && s.sessions[i].cancelled;
  }

  lemma DriverStepHelps(s: State)
    requires Inv(s) && !s.watch.closed && !Current(s) && (s.driver.Teardown? ==> LastFinished(s))
    ensures var step := NextInternal(s);
      Internal(step) && Enabled(s, step) && (Current(Apply(s, step)) || Rank(Apply(s, step)) < Rank(s))
      && Apply(s, step).control == s.control && !Apply(s, step).watch.closed
  {
    if HasSession(s.driver) {
      AttachedStepHelps(s);
    } else {
      LooseStepHelps(s);
    }
  }

  lemma AttachedStepHelps(s: State)
    requires Inv(s) && !s.watch.closed && !Current(s)
    requires HasSession(s.driver) && (s.driver.Teardown? ==> LastFinished(s))
    ensures var step := NextInternal(s);
      Internal(step) && Enabled(s, step) && (Current(Apply(s, step)) || Rank(Apply(s, step)) < Rank(s))
      && Apply(s, step).control == s.control && !Apply(s, step).watch.closed
  {
    if s.driver.Teardown? || s.driver.ReadyLost? {
      EndedStepHelps(s);
    } else if s.driver.AwaitReady? || s.driver.Live? {
      ListeningStepHelps(s);
    } else {
      ReadyStepHelps(s);
    }
  }

  /** The session has ended, or is given up. */
  lemma EndedStepHelps(s: State)
    requires Inv(s) && !s.watch.closed && !Current(s)
    requires s.driver.ReadyLost? || (s.driver.Teardown? && LastFinished(s))
    ensures var step := NextInternal(s);
      Internal(step) && Enabled(s, step) && (Current(Apply(s, step)) || Rank(Apply(s, step)) < Rank(s))
      && Apply(s, step).control == s.control && !Apply(s, step).watch.closed
  {
    assert SessionFits(s, s.sessions[|s.sessions| - 1]);
  }

  lemma ListeningStepHelps(s: State)
    requires Inv(s) && !s.watch.closed && !Current(s) && (s.driver.AwaitReady? || s.driver.Live?)
    ensures var step := NextInternal(s);
      Internal(step) && Enabled(s, step) && (Current(Apply(s, step)) || Rank(Apply(s, step)) < Rank(s))
      && Apply(s, step).control == s.control && !Apply(s, step).watch.closed
  {
    var x := s.sessions[|s.sessions| - 1];
    assert SessionFits(s, x);
    assert SessionRank(x) <= 8 && SessionRank(x.(cancelled := true)) == SessionRank(x);
  }

  lemma ReadyStepHelps(s: State)
    requires Inv(s) && !s.watch.closed && !Current(s) && (s.driver.CheckReady? || s.driver.SetConnected?)
    ensures var step := NextInternal(s);
      Internal(step) && Enabled(s, step) && (Current(Apply(s, step)) || Rank(Apply(s, step)) < Rank(s))
      && Apply(s, step).control == s.control && !Apply(s, step).watch.closed
  {
    var x := s.sessions[|s.sessions| - 1];
    assert SessionFits(s, x);
    assert SessionRank(x.(cancelled := true)) == SessionRank(x);
  }

  lemma LooseStepHelps(s: State)
    requires Inv(s) && !s.watch.closed && !Current(s) && !HasSession(s.driver) && !s.driver.Teardown?
    ensures var step := NextInternal(s);
      Internal(step) && Enabled(s, step) && (Current(Apply(s, step)) || Rank(Apply(s, step)) < Rank(s))
      && Apply(s, step).control == s.control && !Apply(s, step).watch.closed
  {
  }

  /** Steps that lead from one state to another. */
  ghost predicate Leads(s: State, steps: seq<Step>, t: State)
    decreases |steps|
  {
    if |steps| == 0 then s == t
    else Enabled(s, steps[0]) && Leads(Apply(s, steps[0]), steps[1..], t)
  }

  ghost predicate CatchesUp(s: State, steps: seq<Step>, t: State) {
    && Leads(s, steps, t) && Current(t) && t.control == s.control
    && (forall k :: 0 <= k < |steps| ==> Internal(steps[k]))
    && |steps| <= Rank(s)
  }

  lemma {:induction false} CatchUp(s: State) returns (steps: seq<Step>, t: State)
    requires Inv(s) && !s.watch.closed
    ensures CatchesUp(s, steps, t)
    decreases Rank(s), if Current(s) then 0 else 1
  {
    if Current(s) {
      steps, t := [], s;
    } else {
      NextInternalHelps(s);
      InvKept(s, NextInternal(s));
      var u := Apply(s, NextInternal(s));
      if Current(u) {
        steps, t := [NextInternal(s)], u;
        assert steps[1..] == [];
      } else {
        var rest, v := CatchUp(u);
        steps, t := [NextInternal(s)] + rest, v;
        assert steps[1..] == rest;
      }
    }
  }

  /**
   No readdress can strand the driver: from every reachable state with the handle alive, the driver and the
   session tasks alone can reach the generation that is in the control record now.
   */
  lemma CanCatchUp(states: seq<State>, steps: seq<Step>, k: nat)
    requires IsRun(states, steps) && k < |states| && !states[k].watch.closed
    ensures exists rest, t :: CatchesUp(states[k], rest, t)
  {
    RunInv(states, steps, k);
    var rest, t := CatchUp(states[k]);
  }

  // ---------------------------------------------------------------- frames lost with a session

  /** Frames of queue `q` on the wire. */
  function Written(wire: seq<WireEntry>, q: nat): nat {
    if |wire| == 0 then 0
    else Written(wire[..|wire| - 1], q) + if wire[|wire| - 1].queue == q then 1 else 0
  }

  /** The session may be sitting on a frame it popped, or may have dropped one. */
  predicate MayOwe(x: Session, q: nat) {
    x.queue == q && (x.writer.Writing? || x.writer.WriterDone?)
  }

  function Owing(sessions: seq<Session>, q: nat): nat {
    if |sessions| == 0 then 0
    else Owing(sessions[..|sessions| - 1], q) + if MayOwe(sessions[|sessions| - 1], q) then 1 else 0
  }

  lemma {:induction false} OwingUpdate(sessions: seq<Session>, i: nat, x: Session, q: nat)
    requires i < |sessions|
    ensures Owing(sessions[i := x], q)
            == Owing(sessions, q) - (if MayOwe(sessions[i], q) then 1 else 0) + (if MayOwe(x, q) then 1 else 0)
    decreases |sessions|
  {
    var n := |sessions| - 1;
    if i == n {
      assert sessions[i := x][..n] == sessions[..n];
    } else {
      OwingUpdate(sessions[..n], i, x, q);
      assert sessions[i := x][..n] == sessions[..n][i := x];
    }
  }

  lemma OwingGrows(sessions: seq<Session>, x: Session, q: nat)
    ensures Owing(sessions + [x], q) == Owing(sessions, q) + if MayOwe(x, q) then 1 else 0
  {
    assert (sessions + [x])[..|sessions|] == sessions;
  }

  /** Every frame popped is on the wire, but for at most one per session of its queue. */
  ghost predicate OneLossPerSession(s: State) {
    forall q :: 0 <= q < |s.queues| ==> s.queues[q].popped <= Written(s.wire, q) + Owing(s.sessions, q)
  }

  lemma OneLossPerSessionKept(s: State, step: Step)
    requires Inv(s) && OneLossPerSession(s) && Enabled(s, step)
    ensures OneLossPerSession(Apply(s, step))
  {
    var t := Apply(s, step);
    forall q | 0 <= q < |t.queues| ensures t.queues[q].popped <= Written(t.wire, q) + Owing(t.sessions, q) {
      if step.Run? {
        RunLoss(s, step.i, step.task, q);
      } else if step.Drive? {
        DriveLoss(s, step.event, q);
      } else {
        CallersPopNothing(s, step, q);
      }
    }
  }

  /** Callers and senders pop no frame and touch neither sessions nor wire. */
  lemma CallersPopNothing(s: State, step: Step, q: nat)
    requires Enabled(s, step) && !step.Run? && !step.Drive? && q < |Apply(s, step).queues|
    ensures var t := Apply(s, step);
      t.wire == s.wire && t.sessions == s.sessions
      && (if q < |s.queues| then t.queues[q].popped == s.queues[q].popped else t.queues[q].popped == 0)
  {
  }

  lemma DriveLoss(s: State, e: DriverEvent, q: nat)
    requires Inv(s) && DriverEnabled(s, e)
    ensures Owing(DriverStep(s, e).sessions, q) == Owing(s.sessions, q)
  {
    DriverSessions(s, e);
    OperateLoss(s.sessions, DriverEffect(s, e).op, q);
  }

  lemma OperateLoss(sessions: seq<Session>, op: SessionOp, q: nat)
    requires op.Spawn? ==> op.session.writer.WriterUnborn?
    ensures Owing(Operate(sessions, op), q) == Owing(sessions, q)
  {
    match op
    case Keep =>
    case Cancel =>
      if |sessions| > 0 {
        OwingUpdate(sessions, |sessions| - 1, sessions[|sessions| - 1].(cancelled := true), q);
      }
    case Spawn(x) => OwingGrows(sessions, x, q);
  }

  lemma RunLoss(s: State, i: nat, task: TaskStep, q: nat)
    requires Inv(s) && OneLossPerSession(s) && TaskEnabled(s, i, task) && q < |s.queues|
    ensures var t := RunStep(s, i, task);
      q < |t.queues| && t.queues[q].popped <= Written(t.wire, q) + Owing(t.sessions, q)
  {
    var x, t := s.sessions[i], RunStep(s, i, task);
    assert SessionFits(s, x);
    OwingUpdate(s.sessions, i, TaskSession(s, x, task), q);
    if t.wire != s.wire {
      assert t.wire[..|s.wire|] == s.wire;
    }
  }

  /**
   Conservation of outgoing frames: what a generation's queue accepted is still queued, on the wire, or one
   of at most as many lost frames as that generation had sessions.
   */
  lemma {:induction false} FramesConserved(states: seq<State>, steps: seq<Step>, k: nat, q: nat)
    requires IsRun(states, steps) && k < |states| && q < |states[k].queues|
    ensures var s := states[k];
      s.queues[q].popped <= |s.queues[q].accepted| && s.queues[q].popped <= Written(s.wire, q) + Owing(s.sessions, q)
  {
    RunInv(states, steps, k);
    RunLosses(states, steps, k);
  }

  lemma {:induction false} RunLosses(states: seq<State>, steps: seq<Step>, k: nat)
    requires IsRun(states, steps) && k < |states|
    ensures OneLossPerSession(states[k])
  {
    if k > 0 {
      RunLosses(states, steps, k - 1);
      RunInv(states, steps, k - 1);
      OneLossPerSessionKept(states[k - 1], steps[k - 1]);
    }
  }
}
