/**
 How soon the driver comes round to the current generation.  A select of the source polls the watch first, so a
 driver that listens while a version is unseen sees it before anything else.
 */
module AutosocketPace {
  import opened AutosocketModel
  import opened AutosocketInvariants
  import opened AutosocketProgress

  /** The step respects the order in which the driver's selects poll. */
  predicate Heeds(s: State, step: Step) {
    step.Drive? && Listening(s.driver) && s.watch.seen < s.watch.version ==> step.event.SeeChange?
  }

  /** The step neither drops the socket's handle nor starts a generation; a `set_addr` may still return early. */
  predicate LeavesAddress(s: State, step: Step)
    requires Enabled(s, step)
  {
    !step.DropHandle? && Apply(s, step).control.generation == s.control.generation
  }

  /** The task only moves a frame along. */
  predicate MovesFrame(task: TaskStep) {
    task.ReadFrame? || task.Deliver? || task.Pop? || task.WriteOk?
  }

  /** A step of the driver, or one that brings a session being torn down closer to its end. */
  predicate Counts(s: State, step: Step) {
    step.Drive? || (s.driver.Teardown? && step.Run? && step.i == |s.sessions| - 1 && !MovesFrame(step.task))
  }

  /** What a session still has to do to end, however many frames it moves meanwhile. */
  function SessionLeft(x: Session): nat {
    if x.finished then 0
    else
      1
      + (if x.aborting then 0 else 1)
      + (if x.ready.Pending? then 1 else 0)
      + (match x.reader case ReaderUnborn => 2 case Reading => 1 case Holding(_) => 1 case ReaderDone => 0)
      + (if x.writer.WriterDone? then 0 else 1)
  }

  /** How many counted steps the driver can take at most before it works for the current generation. */
  function Distance(s: State): nat {
    match s.driver
    case Borrow => 1
    case SetIdle => 3
    case WaitIdle => 2
    case Attempt(_, _) => 11
    case Parse(_, _) => 10
    case BadUrl(_) => 3
    case WaitChange(_) => 2
    case Connect(_, _) => 2
    case ConnectFailed(_, _) => 3
    case Delay(_, _) => 2
    case CheckConnected(_, _) => 3
    case SpawnSession(_, _) => 10
    case AwaitReady(_, _) => 9
    case ReadyLost(_, _) => 13
    case ReadyLostSet(_, _) => 12
    case CheckReady(_, _) => 9
    case SetConnected(_) => 10
    case Live(_) => 9
    case SessionEnded(_) => 3
    case Teardown(_, _) => 2 + (if |s.sessions| == 0 then 0 else SessionLeft(s.sessions[|s.sessions| - 1]))
    case Exited => 0
  }

  lemma SessionLeftBound(x: Session)
    ensures SessionLeft(x) <= 6
  {
  }

  lemma DriverComesCloser(s: State, e: DriverEvent)
    requires Inv(s) && !s.watch.closed && !Current(s) && DriverEnabled(s, e) && Heeds(s, Drive(e))
    ensures var t := DriverStep(s, e); Current(t) || Distance(t) < Distance(s)
  {
    if HasSession(s.driver) {
      AttachedComesCloser(s, e);
    } else {
      LooseComesCloser(s, e);
    }
  }

  /** A driver with a session may send it into its teardown, where the session's steps are bounded too. */
  lemma AttachedComesCloser(s: State, e: DriverEvent)
    requires Inv(s) && !s.watch.closed && !Current(s) && DriverEnabled(s, e) && Heeds(s, Drive(e))
    requires HasSession(s.driver)
    ensures var t := DriverStep(s, e); Current(t) || Distance(t) < Distance(s)
  {
    var x := s.sessions[|s.sessions| - 1];
    SessionLeftBound(x.(cancelled := true));
    assert SessionFits(s, x);
  }

  lemma LooseComesCloser(s: State, e: DriverEvent)
    requires Inv(s) && !s.watch.closed && !Current(s) && DriverEnabled(s, e) && Heeds(s, Drive(e))
    requires !HasSession(s.driver)
    ensures var t := DriverStep(s, e); Current(t) || Distance(t) < Distance(s)
  {
  }

  lemma SessionComesCloser(s: State, i: nat, task: TaskStep)
    requires Inv(s) && s.driver.Teardown? && TaskEnabled(s, i, task) && i == |s.sessions| - 1
    ensures var t := RunStep(s, i, task);
      Distance(t) <= Distance(s) && (!MovesFrame(task) ==> Distance(t) < Distance(s))
  {
    assert SessionFits(s, s.sessions[i]);
  }

  /** The driver stands where it did, and so does the session it tears down, if any. */
  predicate SamePlace(s: State, t: State) {
    && t.driver == s.driver
    && (s.driver.Teardown? ==> |t.sessions| == |s.sessions|)
    && (s.driver.Teardown? && |s.sessions| > 0 ==> t.sessions[|s.sessions| - 1] == s.sessions[|s.sessions| - 1])
  }

  lemma SamePlaceSameDistance(s: State, t: State)
    requires SamePlace(s, t)
    ensures Distance(t) == Distance(s)
  {
  }

  lemma OtherStepsKeepDistance(s: State, step: Step)
    requires Inv(s) && Enabled(s, step) && LeavesAddress(s, step) && !step.Drive?
    requires step.Run? && s.driver.Teardown? ==> step.i < |s.sessions| - 1
    ensures Distance(Apply(s, step)) == Distance(s)
  {
    SamePlaceSameDistance(s, Apply(s, step));
  }

  /** Away from the current generation no step goes back, and every counted step comes closer. */
  lemma StepsComeCloser(s: State, step: Step)
    requires Inv(s) && !s.watch.closed && !Current(s)
    requires Enabled(s, step) && LeavesAddress(s, step) && Heeds(s, step)
    ensures var t := Apply(s, step);
      Current(t) || (Distance(t) <= Distance(s) && (Counts(s, step) ==> Distance(t) < Distance(s)))
    ensures !Apply(s, step).watch.closed
  {
    if step.Drive? {
      DriverComesCloser(s, step.event);
    } else if step.Run? && s.driver.Teardown? && step.i == |s.sessions| - 1 {
      SessionComesCloser(s, step.i, step.task);
    } else {
      OtherStepsKeepDistance(s, step);
    }
  }

  /** The step does not lead away from the current generation, and leads closer if it counts. */
  predicate Closer(s: State, step: Step, t: State) {
    Distance(t) + (if Counts(s, step) then 1 else 0) <= Distance(s) && !t.watch.closed
  }

  lemma RunComesCloser(states: seq<State>, steps: seq<Step>, k: nat)
    requires IsRun(states, steps) && k < |steps| && !states[k].watch.closed
    requires LeavesAddress(states[k], steps[k]) && Heeds(states[k], steps[k])
    requires !Current(states[k]) && !Current(states[k + 1])
    ensures Closer(states[k], steps[k], states[k + 1])
  {
    RunInv(states, steps, k);
    StepsComeCloser(states[k], steps[k]);
  }

  /** Counted steps among steps `from..until`. */
  function Counted(states: seq<State>, steps: seq<Step>, from: nat, until: nat): nat
    requires from <= until <= |steps| <= |states|
    decreases until
  {
    if from == until then 0
    else Counted(states, steps, from, until - 1) + if Counts(states[until - 1], steps[until - 1]) then 1 else 0
  }

  lemma {:induction false} CloserAddsUp(states: seq<State>, steps: seq<Step>, from: nat, until: nat)
    requires from <= until <= |steps| < |states|
    requires forall k :: from <= k < until ==> Closer(states[k], steps[k], states[k + 1])
    ensures Counted(states, steps, from, until) + Distance(states[until]) <= Distance(states[from])
    decreases until
  {
    if from < until {
      var k := until - 1;
      CloserAddsUp(states, steps, from, k);
      assert Closer(states[k], steps[k], states[k + 1]);
    }
  }

  lemma {:induction false} StaysOpen(states: seq<State>, steps: seq<Step>, from: nat, until: nat)
    requires IsRun(states, steps) && from <= until <= |steps| && !states[from].watch.closed
    requires forall k :: from <= k < until ==> LeavesAddress(states[k], steps[k])
    ensures !states[until].watch.closed
    decreases until
  {
    if from < until {
      StaysOpen(states, steps, from, until - 1);
      OnlyDropCloses(states[until - 1], steps[until - 1]);
    }
  }

  lemma OnlyDropCloses(s: State, step: Step)
    requires Enabled(s, step) && !s.watch.closed && LeavesAddress(s, step)
    ensures !Apply(s, step).watch.closed
  {
  }

  /**
   In every stretch of every run without a readdress, whatever frames, senders and callers' other steps come in
   between: after at most `Distance` counted steps the driver has come round to the current generation.
   */
  lemma ComesRoundInTime(states: seq<State>, steps: seq<Step>, from: nat, until: nat)
    requires IsRun(states, steps) && from <= until <= |steps| && !states[from].watch.closed
    requires forall k :: from <= k < until ==> LeavesAddress(states[k], steps[k]) && Heeds(states[k], steps[k])
    requires forall k :: from <= k <= until ==> !Current(states[k])
    ensures Counted(states, steps, from, until) <= Distance(states[from])
  {
    forall k | from <= k < until ensures Closer(states[k], steps[k], states[k + 1]) {
      StaysOpen(states, steps, from, k);
      RunComesCloser(states, steps, k);
    }
    CloserAddsUp(states, steps, from, until);
  }
}
