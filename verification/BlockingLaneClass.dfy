/** The lane's counters in the form the source runs, and one call of `run` among any other jobs. */
module BlockingLaneClass {
  import opened BlockingLane

  datatype Outcome = StillQueued | Ran | Skipped

  class Lane {
    const concurrency: nat
    var queued: nat
    var active: nat
    var available: nat
    var jobs: seq<Job>

    function Counters(): BlockingLane.Lane
      reads this
    {
      BlockingLane.Lane(concurrency, queued, active, available, jobs)
    }

    constructor (concurrency: nat)
      ensures Counters() == NewLane(concurrency)
    {
      var permits := Max(concurrency, 1);
      this.concurrency := permits;
      queued, active, available, jobs := 0, 0, permits, [];
    }

    /** One atomic step of some job. */
    method Take(step: Step)
      requires Enabled(Counters(), step)
      modifies this
      ensures Counters() == Apply(old(Counters()), step)
    {
      match step {
        case Submit =>
          jobs := jobs + [Job(Created, false, false, 0)];
          return;
        case Enter(_) => queued := FetchAdd(queued);
        case Grant(_) => available := available - 1;
        case Dequeue(_) => queued := FetchSub(queued);
        case Admit(_) => active := FetchAdd(active);
        case DropGuard(_) => active := FetchSub(active);
        case Release(_) => available := available + 1;
        case Cancel(i) => if jobs[i].phase == Granted { available := available + 1; }
        case Leave(_) => queued := FetchSub(queued);
        case _ =>
      }
      jobs := jobs[step.i := JobAfter(jobs[step.i], step)];
    }

    /** Whatever other jobs, and the receiver of job `i`, do in between; a step that is not possible is skipped. */
    method Others(i: nat, steps: seq<Step>)
      requires Ready(i)
      modifies this
      ensures Ready(i) && Same(old(jobs[i]), jobs[i])
    {
      for n := 0 to |steps|
        invariant Ready(i) && Same(old(jobs[i]), jobs[i])
      {
        var step := steps[n];
        if Enabled(Counters(), step) && if step.Submit? then |jobs| + 1 < USIZE_MAX else step.Close? || step.i != i {
          InvKept(Counters(), step);
          Take(step);
        }
      }
    }

    /** The accounts are exact, and there are fewer jobs than a counter can hold. */
    ghost predicate Ready(i: nat)
      reads this
    {
      Inv(Counters()) && i < |jobs| < USIZE_MAX
    }

    /** The job as its own task left it; its receiver may be gone by now. */
    static predicate Same(before: Job, after: Job) {
      after == before || after == before.(closed := true)
    }

    /** A step of job `i`, then whatever the others do. */
    method Then(step: Step, others: seq<Step>)
      requires !step.Submit? && Enabled(Counters(), step) && Ready(step.i)
      modifies this
      ensures Ready(step.i) && Same(JobAfter(old(jobs[step.i]), step), jobs[step.i])
    {
      InvKept(Counters(), step);
      Take(step);
      Others(step.i, others);
    }

    /**
     One call that is not cancelled.  `waits` is what the others do while the call has no permit, `others` what
     they do after each of its steps.
     */
    method Run(i: nat, waits: seq<seq<Step>>, others: seq<Step>) returns (outcome: Outcome)
      requires Ready(i) && jobs[i].phase == Created
      modifies this
      ensures Ready(i)
      ensures outcome == StillQueued ==> jobs[i].phase == Queued && jobs[i].runs == 0
      ensures outcome == Ran ==> jobs[i].phase == Done && jobs[i].runs == 1
      ensures outcome == Skipped ==> jobs[i].phase == Done && jobs[i].runs == 0 && jobs[i].closed
    {
      assert Lawful(jobs[i]);
      Then(Enter(i), others);
      var k := 0;
      while available == 0 && k < |waits|
        invariant 0 <= k <= |waits| && Ready(i)
        invariant jobs[i].phase == Queued && jobs[i].runs == 0
      {
        Others(i, waits[k]);
        k := k + 1;
      }
      if available == 0 {
        return StillQueued;
      }
      Then(Grant(i), others);
      outcome := Admitted(i, others);
    }

    /** The rest of the call, once it has its permit. */
    method Admitted(i: nat, others: seq<Step>) returns (outcome: Outcome)
      requires Ready(i) && jobs[i].phase == Granted && jobs[i].runs == 0
      modifies this
      ensures Ready(i) && jobs[i].phase == Done
      ensures outcome == Ran ==> jobs[i].runs == 1
      ensures outcome == Skipped ==> jobs[i].runs == 0 && jobs[i].closed
      ensures outcome != StillQueued
    {
      Then(Dequeue(i), others);
      Then(Step.Admit(i), others);
      var closed := jobs[i].closed;
      Then(Start(i), others);
      if !closed {
        Then(Finish(i), others);
      }
      Then(DropGuard(i), others);
      Then(Release(i), others);
      outcome := if closed then Skipped else Ran;
    }
  }
}
