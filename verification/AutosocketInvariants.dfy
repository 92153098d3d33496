/** What every step of the socket protocol keeps, one group of facts at a time. */
module AutosocketInvariants {
  import opened Common
  import opened AutosocketModel

  /** The watch value always equals the control record, and versions count generations. */
  ghost predicate WatchMirrorsControl(s: State) {
    && s.watch.value == Desired(s.control.generation, s.control.addr,
                                if s.control.addr.Some? then Some(s.control.outgoing) else None)
    && s.control.outgoing == s.control.generation
    && |s.queues| == s.control.generation + 1
    && s.watch.version == s.control.generation
    && s.watch.seen <= s.watch.version
  }

  lemma WatchMirrorsControlKept(s: State, step: Step)
    requires WatchMirrorsControl(s) && Enabled(s, step)
    ensures WatchMirrorsControl(Apply(s, step))
  {
  }

  // ---------------------------------------------------------------- callers

  /** The caller still has a write to make, or a check that will send it round its loop again. */
  predicate Unsettled(s: State, p: Caller) {
    p.AtPublish? || (p.AtCheck? && p.generation != s.control.generation)
  }

  ghost predicate CallerFits(s: State, p: Caller) {
    p.AtLock? ||
    ( && p.own + p.turns <= p.generation <= s.control.generation
      && (p.generation == s.control.generation ==> p.addr == s.control.addr))
  }

  /** The intended status is that of the address in the control record. */
  predicate Announced(s: State) {
    s.intended == if s.control.addr.Some? then Connected(s.control.addr.value) else Idle
  }

  ghost predicate CallersConverge(s: State) {
    && (forall c :: c in s.callers ==> CallerFits(s, s.callers[c]))
    && (Announced(s) || exists c :: c in s.callers && Unsettled(s, s.callers[c]))
  }

  lemma CallersConvergeKept(s: State, step: Step)
    requires CallersConverge(s) && Enabled(s, step)
    ensures CallersConverge(Apply(s, step))
  {
    var t := Apply(s, step);
    if step.CallBegin? {
      WitnessStays(s, t, step.c);
    } else if step.CallLock? {
      CallLockConverges(s, step.c);
    } else if step.CallPublish? {
      CallPublishConverges(s, step.c);
    } else if step.CallCheck? {
      CallCheckConverges(s, step.c);
    } else {
      assert t.callers == s.callers && t.intended == s.intended && t.control == s.control;
    }
  }

  /** A caller other than `c` that was unsettled still is, when only `c` moved. */
  lemma WitnessStays(s: State, t: State, c: nat)
    requires CallersConverge(s) && t.control == s.control && t.intended == s.intended
    requires c in s.callers ==> !Unsettled(s, s.callers[c])
    requires t.callers.Keys <= s.callers.Keys + {c}
    requires forall b :: b in s.callers && b != c ==> b in t.callers && t.callers[b] == s.callers[b]
    requires c in t.callers ==> CallerFits(t, t.callers[c])
    ensures CallersConverge(t)
  {
    if !Announced(s) {
      var b :| b in s.callers && Unsettled(s, s.callers[b]);
      assert b in t.callers && Unsettled(t, t.callers[b]);
    }
  }

  lemma CallLockConverges(s: State, c: nat)
    requires CallersConverge(s) && c in s.callers && s.callers[c].AtLock?
    ensures CallersConverge(CallLockStep(s, c))
  {
    var addr := s.callers[c].addr;
    var t := CallLockStep(s, c);
    if s.control.addr == addr && Engaged(s.callers[c].observed, addr) {
      WitnessStays(s, t, c);
    } else {
      assert c in t.callers && Unsettled(t, t.callers[c]);
      forall b | b in t.callers ensures CallerFits(t, t.callers[b]) {
        if b != c { assert CallerFits(s, s.callers[b]); }
      }
    }
  }

  lemma CallPublishConverges(s: State, c: nat)
    requires CallersConverge(s) && c in s.callers && s.callers[c].AtPublish?
    ensures CallersConverge(CallPublishStep(s, c))
  {
    var t := CallPublishStep(s, c);
    forall b | b in t.callers ensures CallerFits(t, t.callers[b]) {
      assert CallerFits(s, s.callers[b]);
    }
    if s.callers[c].generation != s.control.generation {
      assert c in t.callers && Unsettled(t, t.callers[c]);
    }
  }

  /** A caller that finds its published generation current leaves; otherwise it takes over the newest pair. */
  lemma CheckOutcome(s: State, c: nat)
    requires CallersConverge(s) && c in s.callers && s.callers[c].AtCheck?
    ensures var t := CallCheckStep(s, c);
      if s.callers[c].generation == s.control.generation
      then c !in t.callers
      else t.callers[c].AtPublish?
           && t.callers[c].generation == t.control.generation && t.callers[c].addr == t.control.addr
           && s.callers[c].generation < t.callers[c].generation
  {
    assert CallerFits(s, s.callers[c]);
  }

  lemma CallCheckConverges(s: State, c: nat)
    requires CallersConverge(s) && c in s.callers && s.callers[c].AtCheck?
    ensures CallersConverge(CallCheckStep(s, c))
  {
    var t := CallCheckStep(s, c);
    if s.control.generation == s.callers[c].generation {
      WitnessStays(s, t, c);
    } else {
      assert c in t.callers && Unsettled(t, t.callers[c]);
      forall b | b in t.callers ensures CallerFits(t, t.callers[b]) {
        assert CallerFits(s, s.callers[b]);
      }
    }
  }

  // ---------------------------------------------------------------- driver

  /** The desired connection the driver works for is the one of the last version it saw. */
  ghost predicate HeldFits(s: State, d: Desired) {
    && d.generation == s.watch.seen
    && d.addr.Some?
    && d.outgoing == Some(d.generation)
    && (s.watch.seen == s.watch.version ==> d == s.watch.value)
  }

  predicate Trying(status: Status, addr: Addr) {
    status == Connecting(addr) || status == Reconnecting(addr)
  }

  /** What `actual_status` says while the driver stands at each point. */
  ghost predicate ActualFits(s: State) {
    match s.driver
    case WaitIdle => s.actual == Idle
    case Parse(d, _) => d.addr.Some? && Trying(s.actual, d.addr.value)
    case BadUrl(d) => d.addr.Some? && Trying(s.actual, d.addr.value)
    case WaitChange(d) => s.actual == Disconnected
    case Connect(d, _) => d.addr.Some? && Trying(s.actual, d.addr.value)
    case ConnectFailed(d, _) => d.addr.Some? && Trying(s.actual, d.addr.value)
    case Delay(d, _) => d.addr.Some? && (s.actual == Disconnected || Trying(s.actual, d.addr.value))
    case CheckConnected(d, _) => d.addr.Some? && Trying(s.actual, d.addr.value)
    case SpawnSession(d, _) => d.addr.Some? && Trying(s.actual, d.addr.value)
    case AwaitReady(d, _) => d.addr.Some? && Trying(s.actual, d.addr.value)
    case ReadyLost(d, _) => d.addr.Some? && Trying(s.actual, d.addr.value)
    case ReadyLostSet(d, _) => d.addr.Some? && Trying(s.actual, d.addr.value)
    case CheckReady(d, _) => d.addr.Some? && Trying(s.actual, d.addr.value)
    case SetConnected(d) => d.addr.Some? && Trying(s.actual, d.addr.value)
    case Live(d) => s.actual == Connected(d.addr.GetOr(""))
    case SessionEnded(d) => s.actual == Connected(d.addr.GetOr(""))
    case Teardown(d, _) => d.addr.Some? && (Trying(s.actual, d.addr.value) || s.actual == Connected(d.addr.value))
    case _ => true
  }

  ghost predicate DriverFits(s: State) {
    && (HeldBy(s.driver).Some? ==> HeldFits(s, HeldBy(s.driver).value))
    && (s.driver.SetIdle? || s.driver.WaitIdle? ==> s.watch.seen == s.watch.version ==> s.control.addr.None?)
    && (s.driver.Exited? || (s.driver.Teardown? && s.driver.exit) ==> s.watch.closed)
    && ActualFits(s)
  }

  lemma DriverFitsKept(s: State, step: Step)
    requires WatchMirrorsControl(s) && DriverFits(s) && Enabled(s, step)
    ensures DriverFits(Apply(s, step))
  {
    var t := Apply(s, step);
    if step.Drive? {
      DriverStepFits(s, step.event);
    } else {
      SameDriverFits(s, t);
    }
  }

  /** Nothing but the driver moves the driver, the seen version or `actual_status`. */
  lemma SameDriverFits(s: State, t: State)
    requires WatchMirrorsControl(s) && DriverFits(s)
    requires t.driver == s.driver && t.actual == s.actual && t.watch.seen == s.watch.seen
    requires s.watch.closed ==> t.watch.closed
    requires s.watch.version <= t.watch.version
    requires t.watch.version == s.watch.version ==> t.watch.value == s.watch.value && t.control == s.control
    ensures DriverFits(t)
  {
  }

  lemma DriverStepFits(s: State, e: DriverEvent)
    requires WatchMirrorsControl(s) && DriverFits(s) && DriverEnabled(s, e)
    ensures DriverFits(DriverStep(s, e))
  {
    DriverStepHolds(s, e);
    DriverStepActual(s, e);
  }

  lemma DriverStepHolds(s: State, e: DriverEvent)
    requires WatchMirrorsControl(s) && DriverFits(s) && DriverEnabled(s, e)
    ensures var t := DriverStep(s, e);
      && (HeldBy(t.driver).Some? ==> HeldFits(t, HeldBy(t.driver).value))
      && (t.driver.SetIdle? || t.driver.WaitIdle? ==> t.watch.seen == t.watch.version ==> t.control.addr.None?)
      && (t.driver.Exited? || (t.driver.Teardown? && t.driver.exit) ==> t.watch.closed)
  {
    var f := DriverEffect(s, e);
    if !s.driver.Borrow? && HeldBy(f.driver).Some? {
      assert HeldBy(s.driver) == HeldBy(f.driver) && !f.see;
    }
  }

  lemma DriverStepActual(s: State, e: DriverEvent)
    requires DriverFits(s) && DriverEnabled(s, e)
    ensures ActualFits(DriverStep(s, e))
  {
  }

  // ---------------------------------------------------------------- sessions

  ghost predicate SessionFits(s: State, x: Session) {
    && x.queue == x.generation <= s.watch.seen
    && (x.finished ==> x.reader.ReaderDone? && x.writer.WriterDone? && (x.ready.Lost? || x.aborting))
    && (x.ready.Lost? ==> x.finished)
    && (x.reader.ReaderUnborn? <==> x.writer.WriterUnborn?)
    && (x.reader.ReaderUnborn? ==> x.ready.Pending? && !x.aborting)
    && (x.aborting ==> x.cancelled && x.ready.Sent?)
  }

  ghost predicate SessionsInOrder(s: State) {
    && (forall i :: 0 <= i < |s.sessions| ==> SessionFits(s, s.sessions[i]))
    && (forall i, j :: 0 <= i < j < |s.sessions| ==> s.sessions[i].generation <= s.sessions[j].generation)
  }

  /** Every session but the one the driver is watching over has ended. */
  ghost predicate OneSession(s: State) {
    && (forall i :: 0 <= i < |s.sessions| - 1 ==> s.sessions[i].finished)
    && (!HasSession(s.driver) && |s.sessions| > 0 ==> s.sessions[|s.sessions| - 1].finished)
    && (HasSession(s.driver) ==> |s.sessions| > 0)
    && (HasSession(s.driver) && !s.driver.Teardown? ==>
          s.sessions[|s.sessions| - 1].generation == s.driver.d.generation)
    && (s.driver.Teardown? ==> s.sessions[|s.sessions| - 1].cancelled)
    && (s.driver.ReadyLost? ==> s.sessions[|s.sessions| - 1].finished)
  }

  lemma SessionsInOrderKept(s: State, step: Step)
    requires WatchMirrorsControl(s) && DriverFits(s) && SessionsInOrder(s) && Enabled(s, step)
    ensures SessionsInOrder(Apply(s, step))
  {
    if step.Drive? {
      DriverKeepsSessions(s, step.event);
    } else if step.Run? {
      RunKeepsSession(s, step.i, step.task);
      var t := RunStep(s, step.i, step.task);
      assert forall j :: 0 <= j < |s.sessions| ==> t.sessions[j].generation == s.sessions[j].generation;
    } else {
      assert Apply(s, step).sessions == s.sessions && Apply(s, step).watch.seen == s.watch.seen;
    }
  }

  lemma RunKeepsSession(s: State, i: nat, task: TaskStep)
    requires SessionsInOrder(s) && TaskEnabled(s, i, task)
    ensures var x, y := s.sessions[i], RunStep(s, i, task).sessions[i];
      && SessionFits(s, y)
      && y.generation == x.generation && y.queue == x.queue
      && (x.cancelled ==> y.cancelled) && (x.finished ==> y.finished)
  {
    assert SessionFits(s, s.sessions[i]);
  }

  /** A driver step leaves the sessions alone, cancels the last, or adds one for the version it has seen. */
  lemma DriverSessions(s: State, e: DriverEvent)
    requires DriverFits(s) && DriverEnabled(s, e)
    ensures var f := DriverEffect(s, e);
      && (f.op.Spawn? ==> s.driver.SpawnSession? && f.driver == AwaitReady(s.driver.d, s.driver.n)
                          && f.op.session == NewSession(s.driver.d) && s.driver.d.generation == s.watch.seen)
      && (f.op.Cancel? <==> f.driver.Teardown?)
      && (f.op.Cancel? ==> HasSession(s.driver))
      && (HasSession(f.driver) && f.op.Keep? ==>
            HasSession(s.driver) && !s.driver.Teardown? && !f.driver.Teardown? && f.driver.d == s.driver.d)
      && (HasSession(s.driver) && !HasSession(f.driver) ==> LastFinished(s) || s.driver.ReadyLost?)
      && (f.driver.ReadyLost? ==> LastReady(s, Lost))
  {
  }

  lemma DriverKeepsSessions(s: State, e: DriverEvent)
    requires WatchMirrorsControl(s) && DriverFits(s) && SessionsInOrder(s) && DriverEnabled(s, e)
    ensures SessionsInOrder(DriverStep(s, e))
  {
    DriverSessions(s, e);
    OperateKeepsOrder(s, DriverStep(s, e), DriverEffect(s, e).op);
  }

  lemma OperateKeepsOrder(s: State, t: State, op: SessionOp)
    requires SessionsInOrder(s)
    requires s.watch.seen <= t.watch.seen && t.sessions == Operate(s.sessions, op)
    requires op.Spawn? ==> op.session.generation == s.watch.seen && SessionFits(s, op.session)
    ensures SessionsInOrder(t)
  {
    forall i | 0 <= i < |t.sessions| ensures SessionFits(t, t.sessions[i]) {
      if i < |s.sessions| { assert SessionFits(s, s.sessions[i]); }
    }
  }

  lemma OneSessionKept(s: State, step: Step)
    requires WatchMirrorsControl(s) && DriverFits(s) && SessionsInOrder(s) && OneSession(s) && Enabled(s, step)
    ensures OneSession(Apply(s, step))
  {
    if step.Drive? {
      DriverSessions(s, step.event);
      if |s.sessions| > 0 { assert SessionFits(s, s.sessions[|s.sessions| - 1]); }
      OperateKeepsOne(s, DriverStep(s, step.event), DriverEffect(s, step.event));
    } else if step.Run? {
      RunKeepsSession(s, step.i, step.task);
      RunKeepsOne(s, RunStep(s, step.i, step.task), step.i);
    } else {
      assert Apply(s, step).sessions == s.sessions && Apply(s, step).driver == s.driver;
    }
  }

  lemma RunKeepsOne(s: State, t: State, i: nat)
    requires OneSession(s) && t.driver == s.driver && i < |s.sessions| == |t.sessions|
    requires forall j :: 0 <= j < |s.sessions| && j != i ==> t.sessions[j] == s.sessions[j]
    requires t.sessions[i].generation == s.sessions[i].generation
    requires s.sessions[i].cancelled ==> t.sessions[i].cancelled
    requires s.sessions[i].finished ==> t.sessions[i].finished
    ensures OneSession(t)
  {
  }

  lemma OperateKeepsOne(s: State, t: State, f: Effect)
    requires OneSession(s) && t.driver == f.driver && t.sessions == Operate(s.sessions, f.op)
    requires f.op.Spawn? ==>
               !HasSession(s.driver) && f.driver.AwaitReady? && f.op.session.generation == f.driver.d.generation
    requires f.op.Cancel? <==> f.driver.Teardown?
    requires f.op.Cancel? ==> HasSession(s.driver)
    requires HasSession(f.driver) && f.op.Keep? ==>
               HasSession(s.driver) && !s.driver.Teardown? && !f.driver.Teardown? && f.driver.d == s.driver.d
    requires HasSession(s.driver) && !HasSession(f.driver) ==> LastFinished(s) || s.driver.ReadyLost?
    requires f.driver.ReadyLost? ==> LastFinished(s)
    ensures OneSession(t)
  {
  }

  // ---------------------------------------------------------------- wire

  ghost predicate WireEntryFits(s: State, e: WireEntry) {
    && e.session < |s.sessions| && e.queue < |s.queues|
    && s.sessions[e.session].queue == e.queue
    && e.idx < s.queues[e.queue].popped
  }

  /** Frames leave each queue in order and at most once, and reach only sessions of that queue. */
  ghost predicate WireInOrder(s: State) {
    && (forall q :: 0 <= q < |s.queues| ==> s.queues[q].popped <= |s.queues[q].accepted|)
    && (forall k :: 0 <= k < |s.wire| ==> WireEntryFits(s, s.wire[k]))
    && (forall j, k :: 0 <= j < k < |s.wire| && s.wire[j].queue == s.wire[k].queue ==> s.wire[j].idx < s.wire[k].idx)
  }

  /** The frame a writer holds was popped after every frame of its queue that is on the wire. */
  ghost predicate WriterAhead(s: State) {
    forall i :: 0 <= i < |s.sessions| && s.sessions[i].writer.Writing? ==>
      && s.sessions[i].queue < |s.queues| && s.sessions[i].writer.idx < s.queues[s.sessions[i].queue].popped
      && forall k :: 0 <= k < |s.wire| && s.wire[k].queue == s.sessions[i].queue ==>
           s.wire[k].idx < s.sessions[i].writer.idx
  }

  ghost predicate Alive(s: State, i: nat) {
    i < |s.sessions| && !s.sessions[i].finished
  }

  lemma AtMostOneAlive(s: State, i: nat, j: nat)
    requires OneSession(s) && Alive(s, i) && Alive(s, j)
    ensures i == j == |s.sessions| - 1 && HasSession(s.driver)
  {
  }

  lemma WireKept(s: State, step: Step)
    requires SessionsInOrder(s) && OneSession(s) && WireInOrder(s) && WriterAhead(s) && Enabled(s, step)
    ensures WireInOrder(Apply(s, step)) && WriterAhead(Apply(s, step))
  {
    var t := Apply(s, step);
    if step.Run? {
      RunKeepsWire(s, step.i, step.task);
    } else {
      if step.Drive? { OperateKeepsWriters(s.sessions, DriverEffect(s, step.event).op); }
      SameWireFits(s, t);
    }
  }

  lemma OperateKeepsWriters(sessions: seq<Session>, op: SessionOp)
    requires op.Spawn? ==> op.session.writer.WriterUnborn?
    ensures var after := Operate(sessions, op);
      && |sessions| <= |after|
      && (forall i :: 0 <= i < |sessions| ==>
            after[i].queue == sessions[i].queue && after[i].writer == sessions[i].writer)
      && (forall i :: |sessions| <= i < |after| ==> after[i].writer.WriterUnborn?)
  {
  }

  /** Steps that pop nothing and write nothing keep the order of the wire. */
  lemma SameWireFits(s: State, t: State)
    requires WireInOrder(s) && WriterAhead(s)
    requires t.wire == s.wire && |s.sessions| <= |t.sessions| && |s.queues| <= |t.queues|
    requires forall q :: 0 <= q < |t.queues| ==> t.queues[q].popped <= |t.queues[q].accepted|
    requires forall q :: 0 <= q < |s.queues| ==> t.queues[q].popped == s.queues[q].popped
    requires forall i :: 0 <= i < |s.sessions| ==>
               t.sessions[i].queue == s.sessions[i].queue && t.sessions[i].writer == s.sessions[i].writer
    requires forall i :: |s.sessions| <= i < |t.sessions| ==> t.sessions[i].writer.WriterUnborn?
    ensures WireInOrder(t) && WriterAhead(t)
  {
    forall k | 0 <= k < |t.wire| ensures WireEntryFits(t, t.wire[k]) {
      assert WireEntryFits(s, s.wire[k]);
    }
  }

  /** While one session is being served no other has a writer at work. */
  lemma OnlyWriter(s: State, i: nat, j: nat)
    requires SessionsInOrder(s) && OneSession(s)
    requires i < |s.sessions| && j < |s.sessions| && i != j
    requires s.sessions[i].writer.Writing? || s.sessions[i].writer.Waiting?
    ensures !s.sessions[j].writer.Writing?
  {
    assert SessionFits(s, s.sessions[i]) && SessionFits(s, s.sessions[j]);
  }

  lemma RunKeepsWire(s: State, i: nat, task: TaskStep)
    requires SessionsInOrder(s) && OneSession(s) && WireInOrder(s) && WriterAhead(s) && TaskEnabled(s, i, task)
    ensures WireInOrder(RunStep(s, i, task)) && WriterAhead(RunStep(s, i, task))
  {
    var t := RunStep(s, i, task);
    if task.Pop? || task.WriteOk? || task.WriteFail? {
      forall j | 0 <= j < |s.sessions| && j != i ensures !t.sessions[j].writer.Writing? {
        OnlyWriter(s, i, j);
      }
      if task.Pop? { PopKeepsWire(s, t, i); } else { WriteKeepsWire(s, t, i); }
    } else {
      QuietTaskFits(s, t, i, task);
    }
  }

  lemma QuietTaskFits(s: State, t: State, i: nat, task: TaskStep)
    requires WireInOrder(s) && WriterAhead(s) && TaskEnabled(s, i, task)
    requires !task.Pop? && !task.WriteOk? && !task.WriteFail? && t == RunStep(s, i, task)
    ensures WireInOrder(t) && WriterAhead(t)
  {
    assert t.queues == s.queues && t.wire == s.wire;
    assert t.sessions[i].queue == s.sessions[i].queue;
    assert t.sessions[i].writer == s.sessions[i].writer || !t.sessions[i].writer.Writing?;
    forall k | 0 <= k < |t.wire| ensures WireEntryFits(t, t.wire[k]) {
      assert WireEntryFits(s, s.wire[k]);
    }
  }

  lemma PopKeepsWire(s: State, t: State, i: nat)
    requires WireInOrder(s) && TaskEnabled(s, i, Pop) && t == RunStep(s, i, Pop)
    requires forall j :: 0 <= j < |s.sessions| && j != i ==> !t.sessions[j].writer.Writing?
    ensures WireInOrder(t) && WriterAhead(t)
  {
    forall k | 0 <= k < |t.wire| ensures WireEntryFits(t, t.wire[k]) {
      assert WireEntryFits(s, s.wire[k]);
    }
  }

  lemma WriteKeepsWire(s: State, t: State, i: nat)
    requires WireInOrder(s) && WriterAhead(s) && i < |s.sessions| && s.sessions[i].writer.Writing?
    requires t.wire == s.wire || t.wire == s.wire + [WireEntry(i, s.sessions[i].queue, s.sessions[i].writer.idx)]
    requires t.queues == s.queues && |t.sessions| == |s.sessions|
    requires t.sessions[i].queue == s.sessions[i].queue && !t.sessions[i].writer.Writing?
    requires forall j :: 0 <= j < |s.sessions| && j != i ==>
                           t.sessions[j] == s.sessions[j] && !t.sessions[j].writer.Writing?
    ensures WireInOrder(t) && WriterAhead(t)
  {
    forall k | 0 <= k < |t.wire| ensures WireEntryFits(t, t.wire[k]) {
      if k < |s.wire| { assert WireEntryFits(s, s.wire[k]); }
    }
  }

  // ---------------------------------------------------------------- incoming

  /** Generation tags on the incoming queue never decrease and never run ahead of the control record. */
  ghost predicate IncomingInOrder(s: State) {
    && (forall k :: 0 <= k < |s.incoming| ==> s.incoming[k].generation <= s.control.generation)
    && (forall j, k :: 0 <= j < k < |s.incoming| ==> s.incoming[j].generation <= s.incoming[k].generation)
  }

  /** A step only ever adds one frame to the incoming queue, and only one of the current generation. */
  lemma IncomingGrowth(s: State, step: Step)
    requires Enabled(s, step)
    ensures var t := Apply(s, step);
      && s.control.generation <= t.control.generation
      && (t.incoming == s.incoming
          || exists f :: t.incoming == s.incoming + [InEntry(s.control.generation, f)])
  {
    var t := Apply(s, step);
    if t.incoming != s.incoming {
      assert step.Run? && step.task.Deliver?;
      assert t.incoming == s.incoming + [InEntry(s.control.generation, s.sessions[step.i].reader.frame)];
    }
  }

  lemma IncomingInOrderKept(s: State, step: Step)
    requires IncomingInOrder(s) && Enabled(s, step)
    ensures IncomingInOrder(Apply(s, step))
  {
    IncomingGrowth(s, step);
  }

  // ---------------------------------------------------------------- all together

  ghost predicate Inv(s: State) {
    && WatchMirrorsControl(s)
    && CallersConverge(s)
    && DriverFits(s)
    && SessionsInOrder(s)
    && OneSession(s)
    && WireInOrder(s)
    && WriterAhead(s)
    && IncomingInOrder(s)
  }

  lemma InitInv(autoReconnect: bool)
    ensures Inv(Init(autoReconnect))
  {
  }

  lemma InvKept(s: State, step: Step)
    requires Inv(s) && Enabled(s, step)
    ensures Inv(Apply(s, step))
  {
    WatchMirrorsControlKept(s, step);
    CallersConvergeKept(s, step);
    DriverFitsKept(s, step);
    SessionsInOrderKept(s, step);
    OneSessionKept(s, step);
    WireKept(s, step);
    IncomingInOrderKept(s, step);
  }

  lemma {:induction false} RunInv(states: seq<State>, steps: seq<Step>, k: nat)
    requires IsRun(states, steps) && k < |states|
    ensures Inv(states[k])
  {
    if k == 0 {
      InitInv(states[0].autoReconnect);
    } else {
      RunInv(states, steps, k - 1);
      InvKept(states[k - 1], steps[k - 1]);
    }
  }
}
