/**
 The blocking-work lane: any number of jobs share a counting semaphore and two atomic counters.  Each step is
 one atomic action of one job; jobs may be cancelled wherever their task awaits, panic, or lose their receiver.
 */
module BlockingLane {
  const USIZE_MAX: nat := 0xFFFF_FFFF_FFFF_FFFF

  /** `fetch_sub` wraps. */
  function FetchSub(counter: nat): nat { if counter == 0 then USIZE_MAX else counter - 1 }

  /** `fetch_add` wraps. */
  function FetchAdd(counter: nat): nat { if counter >= USIZE_MAX then 0 else counter + 1 }

  /**
   Created: the task has not run yet.  Queued: counted, waiting for a permit.  Granted: the semaphore gave it a
   permit its task has not seen.  Admitted: counted as active and handed to the blocking pool.  Leaving: its
   future is being dropped.  Finished: the closure is over, its guard not dropped.  Releasing: no longer
   counted as active, permit still held.
   */
  datatype Phase =
    | Created | Queued | Granted | Leaving | Dequeued | Admitted | Running | Finished | Releasing | Done | Cancelled

  /**
   `closed`: its receiver is gone; a job without a receiver never closes.  `dropped`: the pool shut down before
   the closure ran.
   */
  datatype Job = Job(phase: Phase, closed: bool, dropped: bool, runs: nat)

  datatype Lane = Lane(concurrency: nat, queued: nat, active: nat, available: nat, jobs: seq<Job>)

  datatype Step =
    | Submit
    | Enter(i: nat)
    | Grant(i: nat)
    | Dequeue(i: nat)
    | Admit(i: nat)
    | Start(i: nat)
    | Finish(i: nat)
    | DropGuard(i: nat)
    | Release(i: nat)
    | Cancel(i: nat)
    | Leave(i: nat)
    | PoolDrop(i: nat)
    | Close(i: nat)

  function Max(a: nat, b: nat): nat { if a < b then b else a }

  function NewLane(concurrency: nat): Lane {
    Lane(Max(concurrency, 1), 0, 0, Max(concurrency, 1), [])
  }

  predicate Enabled(s: Lane, step: Step) {
    if step.Submit? then true
    else
      step.i < |s.jobs| &&
      var phase := s.jobs[step.i].phase;
      match step
      case Enter(_) => phase == Created
      case Grant(_) => phase == Queued && s.available > 0
      case Dequeue(_) => phase == Granted
      case Admit(_) => phase == Dequeued
      case Start(_) => phase == Admitted
      case Finish(_) => phase == Running
      case DropGuard(_) => phase == Finished
      case Release(_) => phase == Releasing
      case Cancel(_) => phase in {Created, Queued, Granted}
      case Leave(_) => phase == Leaving
      case PoolDrop(_) => phase == Admitted
      case _ => true
  }

  /** What a step does to its own job. */
  function JobAfter(j: Job, step: Step): Job {
    match step
    case Enter(_) => j.(phase := Queued)
    case Grant(_) => j.(phase := Granted)
    case Dequeue(_) => j.(phase := Dequeued)
    case Admit(_) => j.(phase := Admitted)
    case Start(_) => if j.closed then j.(phase := Finished) else j.(phase := Running, runs := j.runs + 1)
    case Finish(_) => j.(phase := Finished)
    case DropGuard(_) => j.(phase := Releasing)
    case Release(_) => j.(phase := Done)
    case Cancel(_) => j.(phase := if j.phase == Created then Cancelled else Leaving)
    case Leave(_) => j.(phase := Cancelled)
    case PoolDrop(_) => j.(phase := Finished, dropped := true)
    case Close(_) => j.(closed := true)
    case Submit => j
  }

  function QueuedAfter(s: Lane, step: Step): nat {
    if step.Enter? then FetchAdd(s.queued)
    else if step.Dequeue? || step.Leave? then FetchSub(s.queued)
    else s.queued
  }

  function ActiveAfter(s: Lane, step: Step): nat {
    if step.Admit? then FetchAdd(s.active) else if step.DropGuard? then FetchSub(s.active) else s.active
  }

  function AvailableAfter(s: Lane, step: Step): nat
    requires Enabled(s, step)
  {
    if step.Grant? then s.available - 1
    else if step.Release? || (step.Cancel? && s.jobs[step.i].phase == Granted) then s.available + 1
    else s.available
  }

  function Apply(s: Lane, step: Step): Lane
    requires Enabled(s, step)
  {
    if step.Submit? then s.(jobs := s.jobs + [Job(Created, false, false, 0)])
    else Lane(s.concurrency, QueuedAfter(s, step), ActiveAfter(s, step), AvailableAfter(s, step),
              s.jobs[step.i := JobAfter(s.jobs[step.i], step)])
  }

  // ---------------------------------------------------------------- counting

  datatype Kind = InQueue | Active | Holding | Executing

  predicate Is(kind: Kind, phase: Phase) {
    match kind
    case InQueue => phase in {Queued, Granted, Leaving}
    case Active => phase in {Admitted, Running, Finished}
    case Holding => phase in {Granted, Dequeued, Admitted, Running, Finished, Releasing}
    case Executing => phase == Running
  }

  function One(kind: Kind, phase: Phase): nat { if Is(kind, phase) then 1 else 0 }

  /** The number of jobs of a kind. */
  function Count(jobs: seq<Job>, kind: Kind): nat {
    if jobs == [] then 0 else Count(jobs[..|jobs| - 1], kind) + One(kind, jobs[|jobs| - 1].phase)
  }

  lemma {:induction false} CountUpdate(jobs: seq<Job>, i: nat, j: Job, kind: Kind)
    requires i < |jobs|
    ensures Count(jobs[i := j], kind) + One(kind, jobs[i].phase) == Count(jobs, kind) + One(kind, j.phase)
  {
    var n := |jobs| - 1;
    if i < n {
      assert jobs[i := j][..n] == jobs[..n][i := j];
      CountUpdate(jobs[..n], i, j, kind);
    } else {
      assert jobs[i := j][..n] == jobs[..n];
    }
  }

  lemma {:induction false} CountOrder(jobs: seq<Job>)
    ensures Count(jobs, Executing) <= Count(jobs, Active) <= Count(jobs, Holding)
    ensures Count(jobs, InQueue) <= |jobs| && Count(jobs, Active) <= |jobs|
  {
    if jobs != [] { CountOrder(jobs[..|jobs| - 1]); }
  }

  lemma {:induction false} CountPositive(jobs: seq<Job>, i: nat, kind: Kind)
    requires i < |jobs| && Is(kind, jobs[i].phase)
    ensures Count(jobs, kind) > 0
  {
    if i < |jobs| - 1 { CountPositive(jobs[..|jobs| - 1], i, kind); }
  }

  lemma {:induction false} CountZero(jobs: seq<Job>, kind: Kind)
    requires forall i :: 0 <= i < |jobs| ==> !Is(kind, jobs[i].phase)
    ensures Count(jobs, kind) == 0
  {
    if jobs != [] { CountZero(jobs[..|jobs| - 1], kind); }
  }

  // ---------------------------------------------------------------- the invariant

  /** What a job's history amounts to at each phase. */
  predicate Lawful(j: Job) {
    && j.runs <= 1
    && (j.phase == Running ==> j.runs == 1)
    && (j.phase in {Created, Queued, Granted, Leaving, Dequeued, Admitted, Cancelled} ==> j.runs == 0)
    && (j.phase in {Finished, Releasing, Done} ==> j.runs == 1 || j.closed || j.dropped)
  }

  /** The counters count exactly the jobs they stand for, and no permit is lost or made up. */
  ghost predicate Inv(s: Lane) {
    && s.concurrency >= 1
    && s.queued == Count(s.jobs, InQueue)
    && s.active == Count(s.jobs, Active)
    && s.available + Count(s.jobs, Holding) == s.concurrency
    && forall i :: 0 <= i < |s.jobs| ==> Lawful(s.jobs[i])
  }

  lemma JobStaysLawful(s: Lane, step: Step)
    requires Enabled(s, step) && !step.Submit? && Lawful(s.jobs[step.i])
    ensures Lawful(JobAfter(s.jobs[step.i], step))
  {
  }

  lemma QueuedKept(s: Lane, step: Step)
    requires Inv(s) && Enabled(s, step) && |s.jobs| < USIZE_MAX && !step.Submit?
    ensures QueuedAfter(s, step) == Count(Apply(s, step).jobs, InQueue)
  {
    var before, after := s.jobs[step.i].phase, JobAfter(s.jobs[step.i], step).phase;
    CountUpdate(s.jobs, step.i, JobAfter(s.jobs[step.i], step), InQueue);
    CountOrder(s.jobs);
    if step.Dequeue? || step.Leave? { CountPositive(s.jobs, step.i, InQueue); }
    QueueMoves(s, step);
  }

  /** Entering counts a job as queued, dequeuing and leaving end that, nothing else does. */
  lemma QueueMoves(s: Lane, step: Step)
    requires Enabled(s, step) && !step.Submit?
    ensures var before, after := s.jobs[step.i].phase, JobAfter(s.jobs[step.i], step).phase;
            One(InQueue, after) - One(InQueue, before)
            == if step.Enter? then 1 else if step.Dequeue? || step.Leave? then -1 else 0
  {
  }

  lemma ActiveKept(s: Lane, step: Step)
    requires Inv(s) && Enabled(s, step) && |s.jobs| < USIZE_MAX && !step.Submit?
    ensures ActiveAfter(s, step) == Count(Apply(s, step).jobs, Active)
  {
    CountUpdate(s.jobs, step.i, JobAfter(s.jobs[step.i], step), Active);
    CountOrder(s.jobs);
    if step.DropGuard? { CountPositive(s.jobs, step.i, Active); }
  }

  lemma PermitsKept(s: Lane, step: Step)
    requires Inv(s) && Enabled(s, step) && !step.Submit?
    ensures AvailableAfter(s, step) + Count(Apply(s, step).jobs, Holding) == s.concurrency
  {
    CountUpdate(s.jobs, step.i, JobAfter(s.jobs[step.i], step), Holding);
  }

  lemma InvKept(s: Lane, step: Step)
    requires Inv(s) && Enabled(s, step) && |s.jobs| < USIZE_MAX
    ensures Inv(Apply(s, step))
  {
    if step.Submit? {
      assert Apply(s, step).jobs[..|s.jobs|] == s.jobs;
    } else {
      QueuedKept(s, step);
      ActiveKept(s, step);
      PermitsKept(s, step);
      JobStaysLawful(s, step);
    }
  }

  // ---------------------------------------------------------------- every run

  /** States joined by enabled steps. */
  ghost predicate IsPath(states: seq<Lane>, steps: seq<Step>) {
    && |states| == |steps| + 1
    && forall i :: 0 <= i < |steps| ==> Enabled(states[i], steps[i]) && states[i + 1] == Apply(states[i], steps[i])
  }

  /** A path from a new lane on which fewer jobs than a counter can hold are ever submitted. */
  ghost predicate IsRun(states: seq<Lane>, steps: seq<Step>) {
    && IsPath(states, steps)
    && states[0] == NewLane(states[0].concurrency)
    && forall i :: 0 <= i < |states| ==> |states[i].jobs| < USIZE_MAX
  }

  lemma NewLaneStarts(concurrency: nat)
    ensures Inv(NewLane(concurrency))
  {
  }

  lemma {:induction false} RunInv(states: seq<Lane>, steps: seq<Step>, n: nat)
    requires IsRun(states, steps) && n <= |steps|
    ensures Inv(states[n])
  {
    if n == 0 {
      NewLaneStarts(states[0].concurrency);
    } else {
      RunInv(states, steps, n - 1);
      InvKept(states[n - 1], steps[n - 1]);
    }
  }

  /**
   At every moment of every run: no more closures execute than are counted as active, no more are active than
   hold a permit, and permits held and available together are the lane's concurrency.
   */
  lemma LaneSafety(states: seq<Lane>, steps: seq<Step>, n: nat)
    requires IsRun(states, steps) && n <= |steps|
    ensures var s := states[n];
            && Count(s.jobs, Executing) <= s.active <= Count(s.jobs, Holding) <= s.concurrency
            && s.available + Count(s.jobs, Holding) == s.concurrency == states[0].concurrency
            && s.queued == Count(s.jobs, InQueue)
  {
    RunInv(states, steps, n);
    CountOrder(states[n].jobs);
    ConcurrencyFixed(states, steps, n);
  }

  lemma {:induction false} ConcurrencyFixed(states: seq<Lane>, steps: seq<Step>, n: nat)
    requires IsRun(states, steps) && n <= |steps|
    ensures states[n].concurrency == states[0].concurrency
  {
    if n > 0 { ConcurrencyFixed(states, steps, n - 1); }
  }

  predicate AtRest(s: Lane) {
    forall i :: 0 <= i < |s.jobs| ==> s.jobs[i].phase in {Created, Done, Cancelled}
  }

  /** When every job is over, both counters are 0 and every permit is back. */
  lemma RestRestoresLane(states: seq<Lane>, steps: seq<Step>, n: nat)
    requires IsRun(states, steps) && n <= |steps| && AtRest(states[n])
    ensures states[n].queued == 0 && states[n].active == 0 && states[n].available == states[0].concurrency
  {
    var s := states[n];
    LaneSafety(states, steps, n);
    CountZero(s.jobs, InQueue);
    CountZero(s.jobs, Holding);
  }

  // ---------------------------------------------------------------- one job through a run

  /** How far a job has come; `Leaving` ends in `Cancelled`. */
  function Rank(phase: Phase): nat {
    match phase
    case Created => 0
    case Queued => 1
    case Granted => 2
    case Dequeued => 3
    case Admitted => 4
    case Running => 5
    case Finished => 6
    case Releasing => 7
    case Done => 8
    case Leaving => 7
    case Cancelled => 8
  }

  /** A job left the queue by being cancelled. */
  predicate Abandoned(phase: Phase) { phase == Leaving || phase == Cancelled }

  /** What can become of a job: it only moves on, and leaves the queue either admitted or abandoned, for good. */
  predicate Later(j: Job, k: Job) {
    && Rank(j.phase) <= Rank(k.phase) && j.runs <= k.runs <= 1
    && (j.closed ==> k.closed)
    && (Abandoned(j.phase) ==> Abandoned(k.phase) && k.runs == 0)
    && (!Abandoned(j.phase) && Rank(j.phase) >= 3 ==> !Abandoned(k.phase))
    && (j.closed && Rank(j.phase) <= 4 ==> k.runs == 0 && k.phase != Running)
  }

  lemma LaterLater(j: Job, k: Job, l: Job)
    requires Later(j, k) && Later(k, l) && Lawful(j) && Lawful(k) && Lawful(l)
    requires k.closed && k.runs == 0 && k.phase != Running ==> l.runs == 0 && l.phase != Running
    ensures Later(j, l)
  {
  }

  lemma JobAdvances(s: Lane, step: Step, i: nat)
    requires Enabled(s, step) && i < |s.jobs| && Lawful(s.jobs[i]) && Lawful(Apply(s, step).jobs[i])
    ensures var j, k := s.jobs[i], Apply(s, step).jobs[i];
            Later(j, k) && (j.closed && j.runs == 0 && j.phase != Running ==> k.runs == 0 && k.phase != Running)
  {
  }

  /** Over every run a job only moves on, as `Later` says. */
  lemma {:induction false} JobsMoveOn(states: seq<Lane>, steps: seq<Step>, a: nat, b: nat, i: nat)
    requires IsRun(states, steps) && a <= b <= |steps| && i < |states[a].jobs|
    ensures i < |states[b].jobs| && Later(states[a].jobs[i], states[b].jobs[i])
  {
    LawfulAt(states, steps, a, i);
    if a == b {
      LaterSelf(states[a].jobs[i]);
    } else {
      JobsMoveOn(states, steps, a, b - 1, i);
      OneMoreStep(states, steps, a, b, i);
    }
  }

  lemma LawfulAt(states: seq<Lane>, steps: seq<Step>, n: nat, i: nat)
    requires IsRun(states, steps) && n <= |steps| && i < |states[n].jobs|
    ensures Lawful(states[n].jobs[i])
  {
    RunInv(states, steps, n);
  }

  lemma LaterSelf(j: Job)
    requires Lawful(j)
    ensures Later(j, j)
  {
  }

  lemma OneMoreStep(states: seq<Lane>, steps: seq<Step>, a: nat, b: nat, i: nat)
    requires IsRun(states, steps) && a < b <= |steps| && i < |states[a].jobs| && i < |states[b - 1].jobs|
    requires Later(states[a].jobs[i], states[b - 1].jobs[i]) && Lawful(states[a].jobs[i])
    ensures i < |states[b].jobs| && Later(states[a].jobs[i], states[b].jobs[i])
  {
    RunInv(states, steps, b - 1);
    RunInv(states, steps, b);
    assert Lawful(states[b - 1].jobs[i]) && Lawful(states[b].jobs[i]);
    JobAdvances(states[b - 1], steps[b - 1], i);
    LaterLater(states[a].jobs[i], states[b - 1].jobs[i], states[b].jobs[i]);
  }

  /** A job that waits, or has a permit its task has not seen, can be cancelled and leaves nothing behind. */
  lemma WaitingJobsCanLeave(states: seq<Lane>, steps: seq<Step>, n: nat, i: nat)
    requires IsRun(states, steps) && n <= |steps| && i < |states[n].jobs|
    requires states[n].jobs[i].phase == Queued || states[n].jobs[i].phase == Granted
    ensures var s := states[n];
            && Enabled(s, Cancel(i)) && Enabled(Apply(s, Cancel(i)), Leave(i))
            && var t := Apply(Apply(s, Cancel(i)), Leave(i));
               && t.queued == s.queued - 1 && t.active == s.active
               && t.available == s.available + (if s.jobs[i].phase == Granted then 1 else 0)
               && t.jobs == s.jobs[i := s.jobs[i].(phase := Cancelled)] && t.jobs[i].runs == 0
  {
    RunInv(states, steps, n);
    assert Lawful(states[n].jobs[i]);
    CountPositive(states[n].jobs, i, InQueue);
  }

  /** A job that was queued and no longer is was admitted or cancelled. */
  lemma LeavesQueueOneWay(states: seq<Lane>, steps: seq<Step>, a: nat, b: nat, i: nat)
    requires IsRun(states, steps) && a <= b <= |steps| && i < |states[a].jobs|
    requires Is(InQueue, states[a].jobs[i].phase)
    ensures i < |states[b].jobs|
    ensures var j, k := states[a].jobs[i], states[b].jobs[i];
            !Is(InQueue, k.phase) ==>
              if k.phase == Cancelled then k.runs == 0
              else j.phase != Leaving && k.phase in {Dequeued, Admitted, Running, Finished, Releasing, Done}
  {
    JobsMoveOn(states, steps, a, b, i);
    RunInv(states, steps, b);
    assert Lawful(states[b].jobs[i]);
  }

  /** A job whose receiver is gone before its closure starts never runs. */
  lemma ClosedNeverRuns(states: seq<Lane>, steps: seq<Step>, a: nat, b: nat, i: nat)
    requires IsRun(states, steps) && a <= b <= |steps| && i < |states[a].jobs|
    requires states[a].jobs[i].closed && Rank(states[a].jobs[i].phase) <= 4
    ensures i < |states[b].jobs| && states[b].jobs[i].runs == 0 && states[b].jobs[i].phase != Running
  {
    JobsMoveOn(states, steps, a, b, i);
  }

  /** Admission is lossless: a job that is over ran exactly once, unless it was cancelled, closed or dropped. */
  lemma AdmittedJobsRun(states: seq<Lane>, steps: seq<Step>, n: nat, i: nat)
    requires IsRun(states, steps) && n <= |steps| && i < |states[n].jobs|
    requires states[n].jobs[i].phase in {Done, Cancelled}
    ensures var j := states[n].jobs[i];
            && (j.runs == 1 || j.phase == Cancelled || j.closed || j.dropped)
            && (j.phase == Cancelled ==> j.runs == 0)
            && j.runs <= 1
  {
    RunInv(states, steps, n);
    assert Lawful(states[n].jobs[i]);
  }

  // ---------------------------------------------------------------- the lane drains

  /** A step of a job under way; only new submissions, entries and closures come from outside. */
  predicate Internal(step: Step) { !step.Submit? && !step.Close? }

  function Left(jobs: seq<Job>): nat {
    if jobs == [] then 0 else Left(jobs[..|jobs| - 1]) + (8 - Rank(jobs[|jobs| - 1].phase))
  }

  lemma {:induction false} LeftUpdate(jobs: seq<Job>, i: nat, j: Job)
    requires i < |jobs|
    ensures Left(jobs[i := j]) + 8 - Rank(jobs[i].phase) == Left(jobs) + 8 - Rank(j.phase)
  {
    var n := |jobs| - 1;
    if i < n {
      assert jobs[i := j][..n] == jobs[..n][i := j];
      LeftUpdate(jobs[..n], i, j);
    } else {
      assert jobs[i := j][..n] == jobs[..n];
    }
  }

  lemma InternalStepsProgress(s: Lane, step: Step)
    requires Enabled(s, step) && Internal(step)
    ensures Left(Apply(s, step).jobs) < Left(s.jobs)
  {
    LeftUpdate(s.jobs, step.i, JobAfter(s.jobs[step.i], step));
  }

  /** Without new jobs no run goes on for longer than what its jobs have left to do. */
  lemma {:induction false} InternalRunsEnd(states: seq<Lane>, steps: seq<Step>, n: nat)
    requires IsPath(states, steps) && n <= |steps| && forall i :: 0 <= i < n ==> Internal(steps[i])
    ensures n + Left(states[n].jobs) <= Left(states[0].jobs)
  {
    if n > 0 {
      InternalRunsEnd(states, steps, n - 1);
      InternalStepsProgress(states[n - 1], steps[n - 1]);
    }
  }

  predicate Over(s: Lane) {
    forall i :: 0 <= i < |s.jobs| ==> s.jobs[i].phase in {Done, Cancelled}
  }

  /** The step that a job under way takes next without being cancelled. */
  function NextStep(phase: Phase, i: nat): Step
    requires phase != Done && phase != Cancelled
  {
    match phase
    case Created => Enter(i)
    case Queued => Grant(i)
    case Granted => Dequeue(i)
    case Leaving => Leave(i)
    case Dequeued => Admit(i)
    case Admitted => Start(i)
    case Running => Finish(i)
    case Finished => DropGuard(i)
    case Releasing => Release(i)
  }

  /**
   No deadlock: while a job is not over, some job can go on without anything being cancelled; a job that waits
   for a permit waits for one that is available or held by a job that can go on.
   */
  lemma SomeJobGoesOn(s: Lane) returns (i: nat)
    requires Inv(s) && !Over(s)
    ensures i < |s.jobs| && s.jobs[i].phase != Done && s.jobs[i].phase != Cancelled
    ensures Enabled(s, NextStep(s.jobs[i].phase, i)) && Internal(NextStep(s.jobs[i].phase, i))
  {
    i :| 0 <= i < |s.jobs| && s.jobs[i].phase !in {Done, Cancelled};
    if s.jobs[i].phase == Queued && s.available == 0 {
      i := SomeHolder(s.jobs);
    }
  }

  lemma {:induction false} SomeHolder(jobs: seq<Job>) returns (i: nat)
    requires Count(jobs, Holding) > 0
    ensures i < |jobs| && Is(Holding, jobs[i].phase)
  {
    if Is(Holding, jobs[|jobs| - 1].phase) {
      i := |jobs| - 1;
    } else {
      i := SomeHolder(jobs[..|jobs| - 1]);
    }
  }

  ghost predicate Continues(states: seq<Lane>, steps: seq<Step>) {
    && |states| == |steps| + 1
    && forall i :: 0 <= i < |steps| ==>
                     Internal(steps[i]) && !steps[i].Cancel? && !steps[i].PoolDrop?
                     && Enabled(states[i], steps[i]) && states[i + 1] == Apply(states[i], steps[i])
  }

  lemma ContinuesFrom(s: Lane, step: Step, states: seq<Lane>, steps: seq<Step>)
    requires Continues(states, steps) && Internal(step) && !step.Cancel? && !step.PoolDrop?
    requires Enabled(s, step) && states[0] == Apply(s, step)
    ensures Continues([s] + states, [step] + steps)
  {
    var allStates, allSteps := [s] + states, [step] + steps;
    forall i | 0 <= i < |allSteps|
      ensures Internal(allSteps[i]) && !allSteps[i].Cancel? && !allSteps[i].PoolDrop?
              && Enabled(allStates[i], allSteps[i]) && allStates[i + 1] == Apply(allStates[i], allSteps[i])
    {
      if i > 0 { assert allSteps[i] == steps[i - 1] && allStates[i] == states[i - 1]; }
    }
  }

  /** From every state the lane can drain without cancelling anything. */
  lemma {:induction false} Drains(s: Lane) returns (states: seq<Lane>, steps: seq<Step>)
    requires Inv(s) && |s.jobs| < USIZE_MAX
    ensures Continues(states, steps) && states[0] == s && Over(states[|steps|])
    ensures |steps| <= Left(s.jobs)
    decreases Left(s.jobs)
  {
    if Over(s) {
      states, steps := [s], [];
    } else {
      var i := SomeJobGoesOn(s);
      var step := NextStep(s.jobs[i].phase, i);
      InvKept(s, step);
      InternalStepsProgress(s, step);
      var laterStates, laterSteps := Drains(Apply(s, step));
      ContinuesFrom(s, step, laterStates, laterSteps);
      states, steps := [s] + laterStates, [step] + laterSteps;
    }
  }
}
