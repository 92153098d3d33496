/** What becomes of frames, and of the readers and writers that move them, over every run. */
module AutosocketFlow {
  import opened Common
  import opened AutosocketModel
  import opened AutosocketInvariants

  // ---------------------------------------------------------------- frames sent

  /** The frames of the sends into queue `q`, in order. */
  function SentTo(steps: seq<Step>, k: nat, q: nat): seq<Frame>
    requires k <= |steps|
  {
    if k == 0 then []
    else SentTo(steps, k - 1, q) + if steps[k - 1].Send? && steps[k - 1].q == q then [steps[k - 1].frame] else []
  }

  /** A queue has accepted exactly what was sent into it, in that order. */
  lemma {:induction false} AcceptedAreSent(states: seq<State>, steps: seq<Step>, k: nat, q: nat)
    requires IsRun(states, steps) && k <= |steps|
    ensures SentTo(steps, k, q) == if q < |states[k].queues| then states[k].queues[q].accepted else []
  {
    if k > 0 {
      AcceptedAreSent(states, steps, k - 1, q);
      AcceptedGrows(states[k - 1], steps[k - 1], q);
    }
  }

  function Accepted(s: State, q: nat): seq<Frame> {
    if q < |s.queues| then s.queues[q].accepted else []
  }

  lemma AcceptedGrows(s: State, step: Step, q: nat)
    requires Enabled(s, step)
    ensures Accepted(Apply(s, step), q) == Accepted(s, q) + if step.Send? && step.q == q then [step.frame] else []
  {
  }

  /** No queue ever holds more than 1024 frames. */
  lemma {:induction false} QueuesAreBounded(states: seq<State>, steps: seq<Step>, k: nat, q: nat)
    requires IsRun(states, steps) && k < |states| && q < |states[k].queues|
    ensures states[k].queues[q].popped <= |states[k].queues[q].accepted| <= states[k].queues[q].popped + 1024
  {
    RunInv(states, steps, k);
    if k > 0 && q < |states[k - 1].queues| {
      QueuesAreBounded(states, steps, k - 1, q);
      QueueStaysBounded(states[k - 1], steps[k - 1], q);
    }
  }

  lemma QueueStaysBounded(s: State, step: Step, q: nat)
    requires Enabled(s, step) && q < |s.queues| && |s.queues[q].accepted| <= s.queues[q].popped + 1024
    ensures q < |Apply(s, step).queues|
    ensures |Apply(s, step).queues[q].accepted| <= Apply(s, step).queues[q].popped + 1024
  {
  }

  /** A queue nobody can receive from any more stays so: a refused send would be refused ever after. */
  lemma {:induction false} RefusalIsFinal(states: seq<State>, steps: seq<Step>, k: nat, j: nat, q: nat)
    requires IsRun(states, steps) && k <= j < |states| && q < |states[k].queues| && !ReceiverAlive(states[k], q)
    ensures q < |states[j].queues| && !ReceiverAlive(states[j], q)
    decreases j
  {
    if k < j {
      RefusalIsFinal(states, steps, k, j - 1, q);
      RunInv(states, steps, j - 1);
      DeadStaysDead(states[j - 1], steps[j - 1], q);
    }
  }

  lemma DeadStaysDead(s: State, step: Step, q: nat)
    requires Inv(s) && Enabled(s, step) && q < |s.queues| && !ReceiverAlive(s, q)
    ensures q < |Apply(s, step).queues| && !ReceiverAlive(Apply(s, step), q)
  {
    var t := Apply(s, step);
    if step.Drive? {
      DeadQueueStaysFree(s, step.event, q);
    } else if step.Run? {
      DeadQueueStaysDead(s, step.i, step.task, q);
    } else {
      assert t.driver == s.driver && t.sessions == s.sessions;
    }
  }

  lemma DeadQueueStaysDead(s: State, i: nat, task: TaskStep, q: nat)
    requires SessionsInOrder(s) && TaskEnabled(s, i, task) && q < |s.queues| && !ReceiverAlive(s, q)
    ensures !ReceiverAlive(RunStep(s, i, task), q)
  {
    var t := RunStep(s, i, task);
    RunKeepsSession(s, i, task);
    forall j | 0 <= j < |t.sessions| ensures !t.sessions[j].finished ==> t.sessions[j].queue != q {
      assert !s.sessions[j].finished ==> s.sessions[j].queue != q;
    }
  }

  lemma DeadQueueStaysFree(s: State, e: DriverEvent, q: nat)
    requires Inv(s) && DriverEnabled(s, e) && q < |s.queues| && !ReceiverAlive(s, q)
    ensures !ReceiverAlive(DriverStep(s, e), q)
  {
    var t := DriverStep(s, e);
    DriverSessions(s, e);
    DriverHoldsNothingOld(s, e);
    forall i | 0 <= i < |t.sessions| ensures !t.sessions[i].finished ==> t.sessions[i].queue != q {
      if i < |s.sessions| { assert !s.sessions[i].finished ==> s.sessions[i].queue != q; }
    }
  }

  /** The queue the driver has at hand, at work or in a teardown. */
  function QueueAtHand(driver: Driver): Option<nat> {
    if driver.Teardown? then driver.d.outgoing
    else if HeldBy(driver).Some? then HeldBy(driver).value.outgoing
    else None
  }

  lemma DriverHoldsNothingOld(s: State, e: DriverEvent)
    requires WatchMirrorsControl(s) && DriverEnabled(s, e)
    ensures QueueAtHand(DriverStep(s, e).driver) in {None, QueueAtHand(s.driver), Some(s.control.outgoing)}
  {
  }

  // ---------------------------------------------------------------- frames read

  /** The frames read in sessions of generation `g`, in order. */
  function ReadIn(states: seq<State>, steps: seq<Step>, k: nat, g: nat): seq<Frame>
    requires k <= |steps| <= |states|
  {
    if k == 0 then [] else ReadIn(states, steps, k - 1, g) + ReadBy(states[k - 1], steps[k - 1], g)
  }

  function ReadBy(s: State, step: Step, g: nat): seq<Frame> {
    if step.Run? && step.task.ReadFrame? && step.i < |s.sessions| && s.sessions[step.i].generation == g
    then [step.task.frame] else []
  }

  /** The frames of generation `g` on the incoming queue. */
  function Arrived(incoming: seq<InEntry>, g: nat): seq<Frame> {
    if incoming == [] then []
    else
      var last := incoming[|incoming| - 1];
      Arrived(incoming[..|incoming| - 1], g) + if last.generation == g then [last.frame] else []
  }

  /** The frame of generation `g` a reader has in hand. */
  function InHand(s: State, g: nat): seq<Frame> {
    if |s.sessions| == 0 then []
    else
      var x := s.sessions[|s.sessions| - 1];
      if x.generation == g && x.reader.Holding? then [x.reader.frame] else []
  }

  ghost predicate Inbound(s: State, read: seq<Frame>, g: nat) {
    && Arrived(s.incoming, g) <= read
    && (s.control.generation < g ==> read == [])
    && (g == s.control.generation ==> read == Arrived(s.incoming, g) + InHand(s, g))
  }

  lemma {:induction false} NothingArrived(incoming: seq<InEntry>, g: nat)
    requires forall k :: 0 <= k < |incoming| ==> incoming[k].generation < g
    ensures Arrived(incoming, g) == []
  {
    if incoming != [] { NothingArrived(incoming[..|incoming| - 1], g); }
  }

  lemma ArrivedOneMore(incoming: seq<InEntry>, e: InEntry, g: nat)
    ensures Arrived(incoming + [e], g) == Arrived(incoming, g) + if e.generation == g then [e.frame] else []
  {
    assert (incoming + [e])[..|incoming|] == incoming;
  }

  /** Only the last session can read. */
  lemma ReaderIsLast(s: State, i: nat)
    requires SessionsInOrder(s) && OneSession(s) && i < |s.sessions|
    requires s.sessions[i].reader.Reading? || s.sessions[i].reader.Holding?
    ensures i == |s.sessions| - 1
  {
    assert SessionFits(s, s.sessions[i]);
  }

  lemma InboundKept(s: State, step: Step, read: seq<Frame>, g: nat)
    requires Inv(s) && Enabled(s, step) && !Apply(s, step).watch.closed && Inbound(s, read, g)
    ensures Inbound(Apply(s, step), read + ReadBy(s, step, g), g)
  {
    if step.Run? {
      InboundKeptByTask(s, step.i, step.task, read, g);
    } else if step.Drive? {
      InboundKeptByDriver(s, step.event, read, g);
    } else {
      InboundKeptByOthers(s, step, read, g);
    }
  }

  lemma InboundKeptByTask(s: State, i: nat, task: TaskStep, read: seq<Frame>, g: nat)
    requires Inv(s) && TaskEnabled(s, i, task) && !s.watch.closed && Inbound(s, read, g)
    ensures Inbound(RunStep(s, i, task), read + ReadBy(s, Run(i, task), g), g)
  {
    var x := s.sessions[i];
    assert SessionFits(s, x);
    if task.ReadFrame? {
      ReaderIsLast(s, i);
    } else if task.Deliver? {
      ReaderIsLast(s, i);
      InboundKeptByDelivery(s, i, read, g);
    } else {
      InboundKeptQuietly(s, i, task, read, g);
    }
  }

  lemma InboundKeptByDelivery(s: State, i: nat, read: seq<Frame>, g: nat)
    requires TaskEnabled(s, i, Deliver) && i == |s.sessions| - 1 && Inbound(s, read, g)
    ensures Inbound(RunStep(s, i, Deliver), read, g)
  {
    ArrivedOneMore(s.incoming, InEntry(s.sessions[i].generation, s.sessions[i].reader.frame), g);
  }

  lemma InboundKeptQuietly(s: State, i: nat, task: TaskStep, read: seq<Frame>, g: nat)
    requires SessionsInOrder(s) && TaskEnabled(s, i, task) && !s.watch.closed && Inbound(s, read, g)
    requires !task.ReadFrame? && !task.Deliver?
    ensures Inbound(RunStep(s, i, task), read, g)
  {
    assert SessionFits(s, s.sessions[i]);
  }

  lemma InboundKeptByDriver(s: State, e: DriverEvent, read: seq<Frame>, g: nat)
    requires Inv(s) && DriverEnabled(s, e) && Inbound(s, read, g)
    ensures Inbound(DriverStep(s, e), read, g)
  {
    DriverLeavesHand(s, e, g);
  }

  /** A session that is cancelled keeps its frame, and a new one starts when the last has none. */
  lemma DriverLeavesHand(s: State, e: DriverEvent, g: nat)
    requires Inv(s) && DriverEnabled(s, e)
    ensures InHand(DriverStep(s, e), g) == InHand(s, g)
  {
    DriverSessions(s, e);
    if |s.sessions| > 0 { assert SessionFits(s, s.sessions[|s.sessions| - 1]); }
  }

  lemma InboundKeptByOthers(s: State, step: Step, read: seq<Frame>, g: nat)
    requires Inv(s) && Enabled(s, step) && !step.Run? && !step.Drive? && Inbound(s, read, g)
    ensures Inbound(Apply(s, step), read, g)
  {
    var t := Apply(s, step);
    assert t.sessions == s.sessions && t.incoming == s.incoming;
    if t.control.generation != s.control.generation { NewGenerationIsEmpty(s, t.control.generation); }
  }

  lemma NewGenerationIsEmpty(s: State, g: nat)
    requires Inv(s) && s.control.generation < g
    ensures Arrived(s.incoming, g) == [] && InHand(s, g) == []
  {
    NothingArrived(s.incoming, g);
    if |s.sessions| > 0 { assert SessionFits(s, s.sessions[|s.sessions| - 1]); }
  }

  /**
   While the handle lives, what arrives of a generation is what was read in its sessions, in order and from the
   start; of the current one nothing is missing but the frame a reader has in hand.
   */
  lemma {:induction false} ReadFramesArrive(states: seq<State>, steps: seq<Step>, k: nat, g: nat)
    requires IsRun(states, steps) && k <= |steps| && !states[k].watch.closed
    ensures Inbound(states[k], ReadIn(states, steps, k, g), g)
  {
    if k > 0 {
      StillOpen(states[k - 1], steps[k - 1]);
      ReadFramesArrive(states, steps, k - 1, g);
      RunInv(states, steps, k - 1);
      InboundKept(states[k - 1], steps[k - 1], ReadIn(states, steps, k - 1, g), g);
    }
  }

  lemma StillOpen(s: State, step: Step)
    requires Enabled(s, step) && !Apply(s, step).watch.closed
    ensures !s.watch.closed
  {
  }

  // ---------------------------------------------------------------- tasks go on

  predicate ReaderGoesOn(x: Session) { x.reader.Reading? || x.reader.Holding? }

  predicate WriterGoesOn(x: Session) { x.writer.Waiting? || x.writer.Writing? }

  /** The step ends the reader of session `i` on the network's or the server's account. */
  predicate StopsReader(s: State, step: Step, i: nat) {
    && step.Run? && step.i == i && i < |s.sessions|
    && (step.task.StopReading? || (step.task.Reject? && s.watch.closed)
        || (step.task.Deliver? && s.sessions[i].generation != s.control.generation))
  }

  /** A write fails, or the session is cancelled or its queue replaced. */
  predicate StopsWriter(s: State, step: Step, i: nat) {
    && step.Run? && step.i == i && i < |s.sessions|
    && (step.task.WriteFail?
        || (step.task.StopWriting? && (s.sessions[i].cancelled || s.sessions[i].queue != s.control.outgoing)))
  }

  lemma ReaderGoesOnKept(s: State, step: Step, i: nat)
    requires SessionsInOrder(s) && Enabled(s, step) && i < |s.sessions| && ReaderGoesOn(s.sessions[i])
    requires !StopsReader(s, step, i)
    ensures i < |Apply(s, step).sessions| && ReaderGoesOn(Apply(s, step).sessions[i])
  {
    assert SessionFits(s, s.sessions[i]);
  }

  lemma WriterGoesOnKept(s: State, step: Step, i: nat)
    requires SessionsInOrder(s) && Enabled(s, step) && i < |s.sessions| && WriterGoesOn(s.sessions[i])
    requires !StopsWriter(s, step, i)
    ensures i < |Apply(s, step).sessions| && WriterGoesOn(Apply(s, step).sessions[i])
  {
    assert SessionFits(s, s.sessions[i]);
  }

  /** A reader goes on from frame to frame until it is stopped or its generation is replaced. */
  lemma {:induction false} ReadersGoOn(states: seq<State>, steps: seq<Step>, k: nat, j: nat, i: nat)
    requires IsRun(states, steps) && k <= j < |states| && i < |states[k].sessions|
    requires ReaderGoesOn(states[k].sessions[i])
    requires forall m :: k <= m < j ==> !StopsReader(states[m], steps[m], i)
    ensures i < |states[j].sessions| && ReaderGoesOn(states[j].sessions[i])
    decreases j
  {
    if k < j {
      ReadersGoOn(states, steps, k, j - 1, i);
      RunInv(states, steps, j - 1);
      ReaderGoesOnKept(states[j - 1], steps[j - 1], i);
    }
  }

  /** A writer goes on from frame to frame until a write fails or it is stopped. */
  lemma {:induction false} WritersGoOn(states: seq<State>, steps: seq<Step>, k: nat, j: nat, i: nat)
    requires IsRun(states, steps) && k <= j < |states| && i < |states[k].sessions|
    requires WriterGoesOn(states[k].sessions[i])
    requires forall m :: k <= m < j ==> !StopsWriter(states[m], steps[m], i)
    ensures i < |states[j].sessions| && WriterGoesOn(states[j].sessions[i])
    decreases j
  {
    if k < j {
      WritersGoOn(states, steps, k, j - 1, i);
      RunInv(states, steps, j - 1);
      WriterGoesOnKept(states[j - 1], steps[j - 1], i);
    }
  }

  /** A frame that waits in a session's queue can go out: it is the oldest one not taken yet, and the writer goes on. */
  lemma QueuedFrameGoesOut(states: seq<State>, steps: seq<Step>, k: nat, i: nat)
    requires IsRun(states, steps) && k < |states| && i < |states[k].sessions| && states[k].sessions[i].writer.Waiting?
    requires var q := states[k].sessions[i].queue;
             q < |states[k].queues| && states[k].queues[q].popped < |states[k].queues[q].accepted|
    ensures var s, q := states[k], states[k].sessions[i].queue;
            && Enabled(s, Run(i, Pop)) && Enabled(Apply(s, Run(i, Pop)), Run(i, WriteOk))
            && var t := Apply(Apply(s, Run(i, Pop)), Run(i, WriteOk));
               && t.wire == s.wire + [WireEntry(i, q, s.queues[q].popped)]
               && t.queues[q].popped == s.queues[q].popped + 1 && t.queues[q].accepted == s.queues[q].accepted
               && t.sessions[i] == s.sessions[i]
  {
  }

  /** A frame read in a session of the current generation can be delivered, and the reader goes on. */
  lemma ReadFrameComesIn(states: seq<State>, steps: seq<Step>, k: nat, i: nat, frame: Frame)
    requires IsRun(states, steps) && k < |states| && i < |states[k].sessions| && states[k].sessions[i].reader.Reading?
    requires states[k].sessions[i].generation == states[k].control.generation
    ensures var s := states[k];
            && Enabled(s, Run(i, ReadFrame(frame))) && Enabled(Apply(s, Run(i, ReadFrame(frame))), Run(i, Deliver))
            && var t := Apply(Apply(s, Run(i, ReadFrame(frame))), Run(i, Deliver));
               t.incoming == s.incoming + [InEntry(s.control.generation, frame)] && t.sessions[i] == s.sessions[i]
  {
  }

  lemma DoneReaderStays(s: State, step: Step, i: nat)
    requires SessionsInOrder(s) && Enabled(s, step) && i < |s.sessions| && s.sessions[i].reader.ReaderDone?
    ensures i < |Apply(s, step).sessions| && Apply(s, step).sessions[i].reader.ReaderDone?
  {
    assert SessionFits(s, s.sessions[i]);
  }

  /** A reader that finds its generation replaced drops the frame in its hand and never reads another. */
  lemma {:induction false} StaleReaderStops(states: seq<State>, steps: seq<Step>, k: nat, j: nat, i: nat)
    requires IsRun(states, steps) && k < j < |states| && steps[k] == Run(i, Deliver)
    requires states[k].sessions[i].generation != states[k].control.generation
    ensures states[k + 1].incoming == states[k].incoming
    ensures i < |states[j].sessions| && states[j].sessions[i].reader.ReaderDone?
    decreases j
  {
    if k + 1 < j {
      StaleReaderStops(states, steps, k, j - 1, i);
      RunInv(states, steps, j - 1);
      DoneReaderStays(states[j - 1], steps[j - 1], i);
    }
  }

  /** A session is cancelled only when one of its tasks is over or the driver tears it down. */
  ghost predicate CancelFits(s: State) {
    forall i :: 0 <= i < |s.sessions| && s.sessions[i].cancelled ==>
      || s.sessions[i].reader.ReaderDone? || s.sessions[i].writer.WriterDone?
      || (s.driver.Teardown? && i == |s.sessions| - 1)
  }

  lemma CancelFitsKept(s: State, step: Step)
    requires Inv(s) && CancelFits(s) && Enabled(s, step)
    ensures CancelFits(Apply(s, step))
  {
    if step.Drive? {
      DriverSessions(s, step.event);
      CancelFitsDriven(s, step.event);
    } else if step.Run? {
      CancelFitsRun(s, step.i, step.task);
    } else {
      assert Apply(s, step).sessions == s.sessions && Apply(s, step).driver == s.driver;
    }
  }

  lemma CancelFitsRun(s: State, i: nat, task: TaskStep)
    requires SessionsInOrder(s) && CancelFits(s) && TaskEnabled(s, i, task)
    ensures CancelFits(RunStep(s, i, task))
  {
    assert SessionFits(s, s.sessions[i]);
  }

  lemma CancelFitsDriven(s: State, e: DriverEvent)
    requires Inv(s) && CancelFits(s) && DriverEnabled(s, e)
    ensures CancelFits(DriverStep(s, e))
  {
    DriverSessions(s, e);
    if |s.sessions| > 0 { assert SessionFits(s, s.sessions[|s.sessions| - 1]); }
  }

  lemma {:induction false} CancelledForAReason(states: seq<State>, steps: seq<Step>, k: nat)
    requires IsRun(states, steps) && k < |states|
    ensures CancelFits(states[k])
  {
    if k > 0 {
      CancelledForAReason(states, steps, k - 1);
      RunInv(states, steps, k - 1);
      CancelFitsKept(states[k - 1], steps[k - 1]);
    }
  }
}
