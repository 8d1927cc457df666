/** The in-process job pool: per-queue permits, job statuses, and what queue_size counts. */
module JobPool {
  import opened Common

  datatype Status = Queued | InProgress | Complete | Failed | Cancelled

  /**
   * Where a job's task stands. `Granted` holds a permit the semaphore handed over but has not resumed
   * yet; `Finishing` has its final status and still holds the permit while it publishes.
   */
  datatype Phase = Waiting | Granted | Running | Finishing | Done

  datatype Job = Job(queue: string, status: Status, phase: Phase)

  /** `free` is each semaphore's counter. */
  datatype Pool = Pool(free: map<string, nat>, jobs: seq<Job>, closed: bool)

  /** What the pool is built with: permits per queue and the registered handlers. */
  datatype Config = Config(caps: map<string, nat>, handlers: set<string>)

  predicate Terminal(s: Status) {
    s.Complete? || s.Failed? || s.Cancelled?
  }

  predicate Holds(phase: Phase) {
    phase.Granted? || phase.Running? || phase.Finishing?
  }

  /** A task that ended before it ever held its permit to the start: its status was never updated. */
  predicate Abandoned(job: Job) {
    job.phase.Done? && job.status.Queued?
  }

  // ----- counting -----

  datatype Aspect = Holder | Listed | Working | Lost

  predicate Has(job: Job, queue: string, aspect: Aspect) {
    && job.queue == queue
    && match aspect
       case Holder => Holds(job.phase)
       case Listed => job.status.Queued? || job.status.InProgress?
       case Working => !job.phase.Done? && !job.phase.Finishing?
       case Lost => Abandoned(job)
  }

  function One(b: bool): nat { if b then 1 else 0 }

  function Count(jobs: seq<Job>, queue: string, aspect: Aspect): nat {
    if jobs == [] then 0
    else Count(jobs[..|jobs| - 1], queue, aspect) + One(Has(jobs[|jobs| - 1], queue, aspect))
  }

  lemma {:induction false} CountSnoc(jobs: seq<Job>, job: Job, queue: string, aspect: Aspect)
    ensures Count(jobs + [job], queue, aspect) == Count(jobs, queue, aspect) + One(Has(job, queue, aspect))
  {
    assert (jobs + [job])[..|jobs|] == jobs;
  }

  lemma {:induction false} CountUpdate(jobs: seq<Job>, i: nat, job: Job, queue: string, aspect: Aspect)
    requires i < |jobs|
    ensures Count(jobs[i := job], queue, aspect) + One(Has(jobs[i], queue, aspect))
            == Count(jobs, queue, aspect) + One(Has(job, queue, aspect))
  {
    var n := |jobs| - 1;
    if i < n {
      CountUpdate(jobs[..n], i, job, queue, aspect);
      assert jobs[i := job][..n] == jobs[..n][i := job];
    } else {
      assert jobs[i := job][..n] == jobs[..n];
    }
  }

  lemma {:induction false} CountLaws(jobs: seq<Job>, queue: string)
    requires forall j :: 0 <= j < |jobs| ==> JobLaw(jobs[j])
    ensures Count(jobs, queue, Listed) == Count(jobs, queue, Working) + Count(jobs, queue, Lost)
  {
    if jobs != [] { CountLaws(jobs[..|jobs| - 1], queue); }
  }

  lemma {:induction false} PositiveCountHasWitness(jobs: seq<Job>, queue: string, aspect: Aspect) returns (i: nat)
    requires Count(jobs, queue, aspect) > 0
    ensures i < |jobs| && Has(jobs[i], queue, aspect)
  {
    i := |jobs| - 1;
    if !Has(jobs[i], queue, aspect) {
      i := PositiveCountHasWitness(jobs[..i], queue, aspect);
    }
  }

  // ----- the pool as a step system -----

  /** One resumption of the event loop. `Abandon` is a cancellation that reaches a job before its handler starts. */
  datatype Step =
    | Enqueue(function_: string, queue: string)
    | Acquire(job: nat)
    | Start(job: nat)
    | Finish(job: nat, ending: Status)
    | Leave(job: nat)
    | Abandon(job: nat)
    | Close

  predicate Enabled(config: Config, p: Pool, step: Step) {
    match step
    case Enqueue(f, queue) => !p.closed && queue in p.free && f in config.handlers
    case Acquire(i) => i < |p.jobs| && p.jobs[i].phase.Waiting? && p.jobs[i].queue in p.free && p.free[p.jobs[i].queue] > 0
    case Start(i) => i < |p.jobs| && p.jobs[i].phase.Granted?
    case Finish(i, ending) => i < |p.jobs| && p.jobs[i].phase.Running? && Terminal(ending)
    case Leave(i) => i < |p.jobs| && p.jobs[i].phase.Finishing?
    case Abandon(i) => i < |p.jobs| && (p.jobs[i].phase.Waiting? || p.jobs[i].phase.Granted?)
    case Close => true
  }

  /** Job `i` becomes `job`; its queue's semaphore moves by the permits the job takes or gives back. */
  function Move(p: Pool, i: nat, job: Job): Pool
    requires i < |p.jobs|
  {
    var q, taken := p.jobs[i].queue, One(Holds(job.phase)) - One(Holds(p.jobs[i].phase));
    var free := if q in p.free && taken <= p.free[q] then p.free[q := p.free[q] - taken] else p.free;
    Pool(free, p.jobs[i := job], p.closed)
  }

  function Apply(config: Config, p: Pool, step: Step): Pool {
    if !Enabled(config, p, step) then p
    else match step
      case Enqueue(_, queue) => p.(jobs := p.jobs + [Job(queue, Queued, Waiting)])
      case Acquire(i) => Move(p, i, p.jobs[i].(phase := Granted))
      case Start(i) => Move(p, i, p.jobs[i].(phase := Running, status := InProgress))
      case Finish(i, ending) => Move(p, i, p.jobs[i].(phase := Finishing, status := ending))
      case Leave(i) => Move(p, i, p.jobs[i].(phase := Done))
      case Abandon(i) => Move(p, i, p.jobs[i].(phase := Done))
      case Close => p.(closed := true)
  }

  function Initial(config: Config): Pool {
    Pool(config.caps, [], false)
  }

  function Run(config: Config, p: Pool, steps: seq<Step>): Pool {
    if steps == [] then p else Apply(config, Run(config, p, steps[..|steps| - 1]), steps[|steps| - 1])
  }

  // ----- the invariant -----

  predicate JobLaw(job: Job) {
    match job.phase
    case Waiting => job.status.Queued?
    case Granted => job.status.Queued?
    case Running => job.status.InProgress?
    case Finishing => Terminal(job.status)
    case Done => Terminal(job.status) || job.status.Queued?
  }

  ghost predicate JobsLaw(config: Config, jobs: seq<Job>) {
    forall i :: 0 <= i < |jobs| ==> JobLaw(jobs[i]) && jobs[i].queue in config.caps
  }

  ghost predicate PermitLaw(config: Config, p: Pool) {
    && p.free.Keys == config.caps.Keys
    && forall q :: q in p.free ==> p.free[q] + Count(p.jobs, q, Holder) == config.caps[q]
  }

  ghost predicate Law(config: Config, p: Pool) {
    JobsLaw(config, p.jobs) && PermitLaw(config, p)
  }

  lemma {:induction false} MoveKeepsLaw(config: Config, p: Pool, i: nat, job: Job)
    requires Law(config, p) && i < |p.jobs|
    requires JobLaw(job) && job.queue == p.jobs[i].queue
    requires One(Holds(job.phase)) - One(Holds(p.jobs[i].phase)) <= p.free[job.queue]
    ensures Law(config, Move(p, i, job))
  {
    forall q | q in p.free
      ensures Move(p, i, job).free[q] + Count(Move(p, i, job).jobs, q, Holder) == config.caps[q]
    {
      CountUpdate(p.jobs, i, job, q, Holder);
    }
  }

  lemma {:induction false} ArrivalKeepsLaw(config: Config, p: Pool, job: Job)
    requires Law(config, p) && job.queue in p.free && job.phase.Waiting? && job.status.Queued?
    ensures Law(config, p.(jobs := p.jobs + [job]))
  {
    forall q | q in p.free ensures p.free[q] + Count(p.jobs + [job], q, Holder) == config.caps[q] {
      CountSnoc(p.jobs, job, q, Holder);
    }
  }

  lemma {:induction false} StepKeepsLaw(config: Config, p: Pool, step: Step)
    requires Law(config, p)
    ensures Law(config, Apply(config, p, step))
  {
    if Enabled(config, p, step) {
      match step
      case Enqueue(_, queue) => ArrivalKeepsLaw(config, p, Job(queue, Queued, Waiting));
      case Acquire(i) => MoveKeepsLaw(config, p, i, p.jobs[i].(phase := Granted));
      case Start(i) => MoveKeepsLaw(config, p, i, p.jobs[i].(phase := Running, status := InProgress));
      case Finish(i, ending) => MoveKeepsLaw(config, p, i, p.jobs[i].(phase := Finishing, status := ending));
      case Leave(i) => MoveKeepsLaw(config, p, i, p.jobs[i].(phase := Done));
      case Abandon(i) => MoveKeepsLaw(config, p, i, p.jobs[i].(phase := Done));
      case Close =>
    }
  }

  lemma {:induction false} EveryRunKeepsLaw(config: Config, steps: seq<Step>)
    ensures Law(config, Run(config, Initial(config), steps))
  {
    if steps != [] {
      EveryRunKeepsLaw(config, steps[..|steps| - 1]);
      StepKeepsLaw(config, Run(config, Initial(config), steps[..|steps| - 1]), steps[|steps| - 1]);
    }
  }

  /** The jobs that count, as a set. */
  function Members(jobs: seq<Job>, queue: string, aspect: Aspect): set<nat> {
    set i: nat | i < |jobs| && Has(jobs[i], queue, aspect)
  }

  lemma {:induction false} CountIsSize(jobs: seq<Job>, queue: string, aspect: Aspect)
    ensures Count(jobs, queue, aspect) == |Members(jobs, queue, aspect)|
  {
    if jobs != [] {
      CountIsSize(jobs[..|jobs| - 1], queue, aspect);
      MembersSnoc(jobs[..|jobs| - 1], jobs[|jobs| - 1], queue, aspect);
      assert jobs == jobs[..|jobs| - 1] + [jobs[|jobs| - 1]];
    }
  }

  lemma {:induction false} MembersSnoc(jobs: seq<Job>, job: Job, queue: string, aspect: Aspect)
    ensures |Members(jobs + [job], queue, aspect)| == |Members(jobs, queue, aspect)| + One(Has(job, queue, aspect))
  {
    var rest := Members(jobs, queue, aspect);
    assert Members(jobs + [job], queue, aspect) == if Has(job, queue, aspect) then rest + {|jobs|} else rest;
  }

  /** The queue's jobs with status in progress. */
  ghost function InProgressOf(jobs: seq<Job>, queue: string): set<nat> {
    set i: nat | i < |jobs| && jobs[i].queue == queue && jobs[i].status.InProgress?
  }

  /** The queue's jobs that have been handed a permit and not given it back. */
  ghost function HoldersOf(jobs: seq<Job>, queue: string): set<nat> {
    set i: nat | i < |jobs| && jobs[i].queue == queue && !jobs[i].phase.Waiting? && !jobs[i].phase.Done?
  }

  /** In every reachable state each queue's permits are all accounted for, so its cap bounds the running jobs. */
  lemma {:induction false} PermitsAreConserved(config: Config, steps: seq<Step>, queue: string)
    requires queue in config.caps
    ensures var p := Run(config, Initial(config), steps);
            && queue in p.free
            && p.free[queue] + |HoldersOf(p.jobs, queue)| == config.caps[queue]
            && InProgressOf(p.jobs, queue) <= HoldersOf(p.jobs, queue)
            && |InProgressOf(p.jobs, queue)| <= config.caps[queue]
  {
    EveryRunKeepsLaw(config, steps);
    var jobs := Run(config, Initial(config), steps).jobs;
    CountIsSize(jobs, queue, Holder);
    assert HoldersOf(jobs, queue) == Members(jobs, queue, Holder);
    forall i | i in InProgressOf(jobs, queue) ensures i in HoldersOf(jobs, queue) { assert JobLaw(jobs[i]); }
    SubsetSize(InProgressOf(jobs, queue), HoldersOf(jobs, queue));
  }

  /** A job still waiting for a queue with any capacity never waits alone: some job of that queue can move. */
  lemma {:induction false} NobodyWaitsForNothing(config: Config, steps: seq<Step>, i: nat) returns (step: Step)
    requires i < |Run(config, Initial(config), steps).jobs|
    requires Run(config, Initial(config), steps).jobs[i].phase.Waiting?
    requires var queue := Run(config, Initial(config), steps).jobs[i].queue; queue in config.caps && config.caps[queue] > 0
    ensures var p := Run(config, Initial(config), steps);
            && Enabled(config, p, step) && !step.Enqueue? && !step.Close? && !step.Abandon?
            && step.job < |p.jobs| && p.jobs[step.job].queue == p.jobs[i].queue
  {
    var p := Run(config, Initial(config), steps);
    var queue := p.jobs[i].queue;
    EveryRunKeepsLaw(config, steps);
    if p.free[queue] > 0 {
      step := Acquire(i);
    } else {
      var h := PositiveCountHasWitness(p.jobs, queue, Holder);
      step := if p.jobs[h].phase.Granted? then Start(h)
              else if p.jobs[h].phase.Running? then Finish(h, Complete) else Leave(h);
    }
  }

  // ----- statuses only move forward -----

  predicate Later(s: Status, t: Status) {
    s == t || s.Queued? || (s.InProgress? && Terminal(t))
  }

  /** What any later state keeps of an earlier one. */
  ghost predicate Extends(p: Pool, q: Pool) {
    && |p.jobs| <= |q.jobs| && (p.closed ==> q.closed && |q.jobs| == |p.jobs|)
    && forall i :: 0 <= i < |p.jobs| ==>
         (&& q.jobs[i].queue == p.jobs[i].queue && Later(p.jobs[i].status, q.jobs[i].status)
          && (p.jobs[i].phase.Done? ==> q.jobs[i] == p.jobs[i]))
  }

  /** What one step can do to job `i`. */
  ghost predicate MovesOn(p: Pool, step: Step, q: Pool, i: nat)
    requires i < |p.jobs| && i < |q.jobs|
  {
    var before, after := p.jobs[i], q.jobs[i];
    && after.queue == before.queue && Later(before.status, after.status) && (before.phase.Done? ==> after == before)
    && (after.status != before.status ==>
          (step == Start(i) && before.status.Queued? && after.status.InProgress?)
          || (step.Finish? && step.job == i && before.status.InProgress? && after.status == step.ending))
    && (Abandoned(after) && !Abandoned(before) ==> step == Abandon(i))
  }

  /**
   * In one step at most one job changes status, and only from queued to running or from running to
   * an end; only a cancellation before its handler starts makes a job end without one.
   */
  lemma {:induction false} StatusesMoveOneStep(config: Config, p: Pool, step: Step, i: nat)
    requires Law(config, p) && i < |p.jobs|
    ensures |p.jobs| <= |Apply(config, p, step).jobs| && MovesOn(p, step, Apply(config, p, step), i)
  {
    assert JobLaw(p.jobs[i]);
  }

  lemma {:induction false} StepExtends(config: Config, p: Pool, step: Step)
    requires Law(config, p)
    ensures Extends(p, Apply(config, p, step))
  {
    forall i | 0 <= i < |p.jobs| ensures MovesOn(p, step, Apply(config, p, step), i) {
      StatusesMoveOneStep(config, p, step, i);
    }
  }

  lemma {:induction false} ExtendsTransitive(p: Pool, q: Pool, r: Pool)
    requires Extends(p, q) && Extends(q, r)
    ensures Extends(p, r)
  {
    forall i | 0 <= i < |p.jobs|
      ensures r.jobs[i].queue == p.jobs[i].queue && Later(p.jobs[i].status, r.jobs[i].status)
      ensures p.jobs[i].phase.Done? ==> r.jobs[i] == p.jobs[i]
    {
      assert q.jobs[i].queue == p.jobs[i].queue;
    }
  }

  /** Whatever happens later, a job keeps its queue, an ended status never changes and a finished task stays finished. */
  lemma {:induction false} HistoryOnlyGrows(config: Config, steps: seq<Step>, more: seq<Step>)
    ensures Extends(Run(config, Initial(config), steps), Run(config, Initial(config), steps + more))
  {
    var p := Run(config, Initial(config), steps);
    if more == [] {
      assert steps + more == steps;
    } else {
      var init := more[..|more| - 1];
      HistoryOnlyGrows(config, steps, init);
      EveryRunKeepsLaw(config, steps + init);
      var q := Run(config, Initial(config), steps + init);
      assert (steps + more)[..|steps + more| - 1] == steps + init;
      StepExtends(config, q, more[|more| - 1]);
      ExtendsTransitive(p, q, Apply(config, q, more[|more| - 1]));
    }
  }

  // ----- what queue_size counts -----

  ghost predicate NoneLost(jobs: seq<Job>, queue: string) {
    forall i :: 0 <= i < |jobs| && jobs[i].queue == queue ==> !Abandoned(jobs[i])
  }

  lemma {:induction false} NoneLostIff(jobs: seq<Job>, queue: string)
    ensures Count(jobs, queue, Lost) == 0 <==> NoneLost(jobs, queue)
  {
    if jobs != [] {
      var init := jobs[..|jobs| - 1];
      NoneLostIff(init, queue);
      if !NoneLost(init, queue) {
        var i :| 0 <= i < |init| && init[i].queue == queue && Abandoned(init[i]);
        assert jobs[i].queue == queue && Abandoned(jobs[i]);
      }
      if NoneLost(init, queue) && !Has(jobs[|jobs| - 1], queue, Lost) {
        forall i | 0 <= i < |jobs| && jobs[i].queue == queue ensures !Abandoned(jobs[i]) {
          if i < |init| { assert init[i].queue == queue; }
        }
      }
    }
  }

  /** Step `n` of the run is a cancellation that reaches a job of `queue` before its handler starts. */
  ghost predicate CancelsEarly(config: Config, steps: seq<Step>, n: nat, queue: string)
    requires n < |steps|
  {
    var p := Run(config, Initial(config), steps[..n]);
    steps[n].Abandon? && Enabled(config, p, steps[n]) && p.jobs[steps[n].job].queue == queue
  }

  ghost predicate NeverCancelsEarly(config: Config, steps: seq<Step>, queue: string) {
    forall n :: 0 <= n < |steps| ==> !CancelsEarly(config, steps, n, queue)
  }

  lemma {:induction false} NeverCancelsEarlySnoc(config: Config, steps: seq<Step>, queue: string)
    requires steps != []
    ensures var n := |steps| - 1;
            NeverCancelsEarly(config, steps, queue) <==>
            NeverCancelsEarly(config, steps[..n], queue) && !CancelsEarly(config, steps, n, queue)
  {
    var init := steps[..|steps| - 1];
    forall n | 0 <= n < |init| ensures CancelsEarly(config, steps, n, queue) == CancelsEarly(config, init, n, queue) {
      assert steps[..n] == init[..n] && steps[n] == init[n];
    }
  }

  /** One step loses a job of `queue` exactly if it is such a cancellation; none already lost comes back. */
  lemma {:induction false} StepLosesIff(config: Config, p: Pool, step: Step, queue: string)
    requires Law(config, p)
    ensures NoneLost(Apply(config, p, step).jobs, queue) <==>
            NoneLost(p.jobs, queue)
            && !(step.Abandon? && Enabled(config, p, step) && p.jobs[step.job].queue == queue)
  {
    var q := Apply(config, p, step);
    StepExtends(config, p, step);
    if !NoneLost(p.jobs, queue) {
      var i :| 0 <= i < |p.jobs| && p.jobs[i].queue == queue && Abandoned(p.jobs[i]);
      assert q.jobs[i] == p.jobs[i];
    } else if step.Abandon? && Enabled(config, p, step) && p.jobs[step.job].queue == queue {
      assert q.jobs[step.job].queue == queue && Abandoned(q.jobs[step.job]);
    } else {
      forall i | 0 <= i < |q.jobs| && q.jobs[i].queue == queue ensures !Abandoned(q.jobs[i]) {
        if i < |p.jobs| { StatusesMoveOneStep(config, p, step, i); }
      }
    }
  }

  /** A queue has a lost job exactly if at some step a cancellation came before a handler of that queue. */
  lemma {:induction false} LostIffCancelledEarly(config: Config, steps: seq<Step>, queue: string)
    ensures NoneLost(Run(config, Initial(config), steps).jobs, queue) <==> NeverCancelsEarly(config, steps, queue)
  {
    if steps != [] {
      var init := steps[..|steps| - 1];
      LostIffCancelledEarly(config, init, queue);
      EveryRunKeepsLaw(config, init);
      StepLosesIff(config, Run(config, Initial(config), init), steps[|steps| - 1], queue);
      NeverCancelsEarlySnoc(config, steps, queue);
    }
  }

  /**
   * queue_size is never less than the jobs still to end, and it is exactly their number if and only
   * if no cancellation ever reached a job of the queue before its handler started.
   */
  lemma {:induction false} QueueSizeCountsLostJobs(config: Config, steps: seq<Step>, queue: string)
    ensures var jobs := Run(config, Initial(config), steps).jobs;
            && Count(jobs, queue, Listed) == Count(jobs, queue, Working) + Count(jobs, queue, Lost)
            && (Count(jobs, queue, Listed) == Count(jobs, queue, Working) <==> NeverCancelsEarly(config, steps, queue))
  {
    EveryRunKeepsLaw(config, steps);
    var jobs := Run(config, Initial(config), steps).jobs;
    CountLaws(jobs, queue);
    NoneLostIff(jobs, queue);
    LostIffCancelledEarly(config, steps, queue);
  }

  /** A cancellation before the handler starts makes such a job, and it stays listed in every later state. */
  lemma {:induction false} LostJobsStayListed(config: Config, steps: seq<Step>, i: nat, more: seq<Step>)
    requires var jobs := Run(config, Initial(config), steps).jobs;
             i < |jobs| && (jobs[i].phase.Waiting? || jobs[i].phase.Granted?)
    ensures var jobs := Run(config, Initial(config), steps + [Abandon(i)] + more).jobs;
            i < |jobs| && jobs[i].status.Queued? && jobs[i].phase.Done? && Has(jobs[i], jobs[i].queue, Listed)
  {
    var before := Run(config, Initial(config), steps);
    EveryRunKeepsLaw(config, steps);
    assert (steps + [Abandon(i)])[..|steps|] == steps;
    HistoryOnlyGrows(config, steps + [Abandon(i)], more);
  }

  // ----- closing drains the pool -----

  function Effort(phase: Phase): nat {
    match phase
    case Waiting => 4
    case Granted => 3
    case Running => 2
    case Finishing => 1
    case Done => 0
  }

  function WorkLeft(jobs: seq<Job>): nat {
    if jobs == [] then 0 else WorkLeft(jobs[..|jobs| - 1]) + Effort(jobs[|jobs| - 1].phase)
  }

  lemma {:induction false} WorkUpdate(jobs: seq<Job>, i: nat, job: Job)
    requires i < |jobs|
    ensures WorkLeft(jobs[i := job]) == WorkLeft(jobs) - Effort(jobs[i].phase) + Effort(job.phase)
  {
    var n := |jobs| - 1;
    if i < n {
      WorkUpdate(jobs[..n], i, job);
      assert jobs[i := job][..n] == jobs[..n][i := job];
    } else {
      assert jobs[i := job][..n] == jobs[..n];
    }
  }

  /** How many of `more` change the pool, run from `p`. */
  function Effective(config: Config, p: Pool, more: seq<Step>): nat {
    if more == [] then 0
    else
      var q := Run(config, p, more[..|more| - 1]);
      Effective(config, p, more[..|more| - 1]) + One(Apply(config, q, more[|more| - 1]) != q)
  }

  lemma {:induction false} StepUsesWork(config: Config, p: Pool, step: Step)
    requires p.closed
    ensures var q := Apply(config, p, step);
            q.closed && WorkLeft(q.jobs) + One(q != p) <= WorkLeft(p.jobs)
  {
    if Enabled(config, p, step) && !step.Close? {
      WorkUpdate(p.jobs, step.job, Apply(config, p, step).jobs[step.job]);
    }
  }

  /** Once the pool is closed, every run changes it at most as often as the tasks left have phases to go. */
  lemma {:induction false} ClosedPoolRunsDry(config: Config, p: Pool, more: seq<Step>)
    requires p.closed
    ensures var q := Run(config, p, more);
            q.closed && Effective(config, p, more) + WorkLeft(q.jobs) <= WorkLeft(p.jobs)
  {
    if more != [] {
      ClosedPoolRunsDry(config, p, more[..|more| - 1]);
      StepUsesWork(config, Run(config, p, more[..|more| - 1]), more[|more| - 1]);
    }
  }

  /** Where a task ends once it is cancelled: only a running handler gets to choose its status. */
  function Settled(job: Job, ending: Status): (settled: Job)
    requires Terminal(ending)
    ensures settled.phase.Done? && settled.queue == job.queue && (JobLaw(job) ==> JobLaw(settled))
    ensures job.phase.Done? ==> settled == job
  {
    if job.phase.Running? then job.(phase := Done, status := ending) else job.(phase := Done)
  }

  // ----- what a job can do, and what a cancellation makes of it -----

  lemma {:induction false} RunSnoc(config: Config, p: Pool, steps: seq<Step>, step: Step)
    ensures Run(config, p, steps + [step]) == Apply(config, Run(config, p, steps), step)
  {
    assert (steps + [step])[..|steps|] == steps;
  }

  lemma {:induction false} RunConcat(config: Config, p: Pool, a: seq<Step>, b: seq<Step>)
    ensures Run(config, p, a + b) == Run(config, Run(config, p, a), b)
  {
    if b == [] {
      assert a + b == a;
    } else {
      assert (a + b)[..|a + b| - 1] == a + b[..|b| - 1];
      RunConcat(config, p, a, b[..|b| - 1]);
    }
  }

  lemma {:induction false} RunOne(config: Config, p: Pool, step: Step)
    ensures Run(config, p, [step]) == Apply(config, p, step)
  {
    assert [step][..0] == [];
  }

  /** With job `i` put to `job` and `free` permits in its queue. */
  function With(p: Pool, i: nat, job: Job, free: nat): Pool
    requires i < |p.jobs|
  {
    p.(free := p.free[job.queue := free], jobs := p.jobs[i := job])
  }

  lemma {:induction false} StartAndFinish(config: Config, p: Pool, i: nat, queue: string, ending: Status, free: nat)
    requires i < |p.jobs| && queue in p.free && Terminal(ending)
    ensures var granted := With(p, i, Job(queue, Queued, Granted), free);
            var running := With(p, i, Job(queue, InProgress, Running), free);
            var finishing := With(p, i, Job(queue, ending, Finishing), free);
            && Apply(config, granted, Start(i)) == running
            && Apply(config, running, Finish(i, ending)) == finishing
            && Apply(config, finishing, Leave(i)) == With(p, i, Job(queue, ending, Done), free + 1)
  {
    var granted := With(p, i, Job(queue, Queued, Granted), free);
    assert granted.free[queue := free] == granted.free;
  }

  lemma {:induction false} ArrivesAndAcquires(config: Config, p: Pool, function_: string, queue: string)
    requires !p.closed && queue in p.free && p.free[queue] > 0 && function_ in config.handlers
    ensures var arrived := p.(jobs := p.jobs + [Job(queue, Queued, Waiting)]);
            && Apply(config, p, Enqueue(function_, queue)) == arrived
            && Apply(config, arrived, Acquire(|p.jobs|))
               == With(arrived, |p.jobs|, Job(queue, Queued, Granted), p.free[queue] - 1)
  {
  }

  /** Five steps that take the pool from `p` over `q`, `r`, `s` and `t` to `u`. */
  lemma {:induction false} FiveSteps(config: Config, p: Pool, a: Step, q: Pool, b: Step, r: Pool, c: Step, s: Pool,
        d: Step, t: Pool, e: Step, u: Pool)
    requires Apply(config, p, a) == q && Apply(config, q, b) == r && Apply(config, r, c) == s
    requires Apply(config, s, d) == t && Apply(config, t, e) == u
    ensures Run(config, p, [a] + [b] + [c] + [d] + [e]) == u
  {
    RunOne(config, p, a);
    RunSnoc(config, p, [a], b);
    RunSnoc(config, p, [a] + [b], c);
    RunSnoc(config, p, [a] + [b] + [c], d);
    RunSnoc(config, p, [a] + [b] + [c] + [d], e);
  }

  /**
   * A job accepted by an open pool whose queue has a permit to give can run at once, and whichever way
   * its handler ends, that is its status, and the permit is back.
   */
  lemma {:induction false} AcceptedJobCanRun(config: Config, p: Pool, function_: string, queue: string, ending: Status)
    returns (steps: seq<Step>)
    requires !p.closed && queue in p.free && p.free[queue] > 0 && function_ in config.handlers
    requires ending.Complete? || ending.Failed? || ending.Cancelled?
    ensures |steps| == 5 && steps[0] == Enqueue(function_, queue)
    ensures Run(config, p, steps) == p.(jobs := p.jobs + [Job(queue, ending, Done)])
  {
    var i, n := |p.jobs|, p.free[queue] - 1;
    var arrived := p.(jobs := p.jobs + [Job(queue, Queued, Waiting)]);
    var granted := With(arrived, i, Job(queue, Queued, Granted), n);
    var running := With(arrived, i, Job(queue, InProgress, Running), n);
    var finishing := With(arrived, i, Job(queue, ending, Finishing), n);
    var done := With(arrived, i, Job(queue, ending, Done), n + 1);
    ArrivesAndAcquires(config, p, function_, queue);
    StartAndFinish(config, arrived, i, queue, ending, n);
    steps := [Enqueue(function_, queue)] + [Acquire(i)] + [Start(i)] + [Finish(i, ending)] + [Leave(i)];
    FiveSteps(config, p, Enqueue(function_, queue), arrived, Acquire(i), granted, Start(i), running,
              Finish(i, ending), finishing, Leave(i), done);
    assert done == p.(jobs := p.jobs + [Job(queue, ending, Done)]);
  }

  /** The steps a cancelled task still takes. */
  function Ending(job: Job, i: nat, ending: Status): seq<Step> {
    match job.phase
    case Waiting => [Abandon(i)]
    case Granted => [Abandon(i)]
    case Running => [Finish(i, ending)] + [Leave(i)]
    case Finishing => [Leave(i)]
    case Done => []
  }

  /** The pool with job `i` settled: a permit it held is back. */
  function AfterCancel(p: Pool, i: nat, ending: Status): Pool
    requires i < |p.jobs| && Terminal(ending)
  {
    var job := p.jobs[i];
    var free := if Holds(job.phase) && job.queue in p.free then p.free[job.queue := p.free[job.queue] + 1] else p.free;
    Pool(free, p.jobs[i := Settled(job, ending)], p.closed)
  }

  /** Cancelling a task is nothing new: it is a run of the steps it had left or was kept from taking. */
  lemma {:induction false} CancellationIsARun(config: Config, p: Pool, i: nat, ending: Status)
    requires Law(config, p) && i < |p.jobs| && Terminal(ending)
    ensures Run(config, p, Ending(p.jobs[i], i, ending)) == AfterCancel(p, i, ending)
  {
    var job := p.jobs[i];
    assert JobLaw(job) && job.queue in p.free;
    match job.phase
    case Waiting => WaitingIsCancelled(config, p, i, ending);
    case Granted => WaitingIsCancelled(config, p, i, ending);
    case Running => RunningIsCancelled(config, p, i, ending);
    case Finishing => RunOne(config, p, Leave(i));
    case Done => assert p.jobs[i := job] == p.jobs;
  }

  lemma {:induction false} WaitingIsCancelled(config: Config, p: Pool, i: nat, ending: Status)
    requires Law(config, p) && i < |p.jobs| && Terminal(ending) && (p.jobs[i].phase.Waiting? || p.jobs[i].phase.Granted?)
    ensures Run(config, p, [Abandon(i)]) == AfterCancel(p, i, ending)
  {
    var queue := p.jobs[i].queue;
    assert queue in p.free && p.free[queue := p.free[queue]] == p.free;
    RunOne(config, p, Abandon(i));
  }

  lemma {:induction false} RunKeepsLaw(config: Config, p: Pool, steps: seq<Step>)
    requires Law(config, p)
    ensures Law(config, Run(config, p, steps))
  {
    if steps != [] {
      RunKeepsLaw(config, p, steps[..|steps| - 1]);
      StepKeepsLaw(config, Run(config, p, steps[..|steps| - 1]), steps[|steps| - 1]);
    }
  }

  lemma {:induction false} RunningIsCancelled(config: Config, p: Pool, i: nat, ending: Status)
    requires Law(config, p) && i < |p.jobs| && Terminal(ending) && p.jobs[i].phase.Running?
    ensures Run(config, p, [Finish(i, ending)] + [Leave(i)]) == AfterCancel(p, i, ending)
  {
    var queue := p.jobs[i].queue;
    assert queue in p.free;
    assert p == With(p, i, p.jobs[i], p.free[queue]);
    assert JobLaw(p.jobs[i]);
    StartAndFinish(config, p, i, queue, ending, p.free[queue]);
    RunOne(config, p, Finish(i, ending));
    RunSnoc(config, p, [Finish(i, ending)], Leave(i));
  }

  /** One more task cancelled, in the pool that `steps` made of `was`. */
  lemma {:induction false} CancellationGoesOn(config: Config, was: Pool, steps: seq<Step>, i: nat, ending: Status)
    requires Law(config, Run(config, was, steps)) && i < |Run(config, was, steps).jobs| && Terminal(ending)
    ensures var p := Run(config, was, steps);
            && p.jobs[i].queue in p.free && Law(config, AfterCancel(p, i, ending))
            && Run(config, was, steps + Ending(p.jobs[i], i, ending)) == AfterCancel(p, i, ending)
  {
    var p := Run(config, was, steps);
    var more := Ending(p.jobs[i], i, ending);
    RunConcat(config, was, steps, more);
    CancellationIsARun(config, p, i, ending);
    RunKeepsLaw(config, p, more);
    assert JobsLaw(config, p.jobs);
  }

  /** The tasks named in `done` are settled, the others as they were. */
  ghost predicate AreSettled(was: seq<Job>, now: seq<Job>, done: seq<nat>, ending: nat -> Status)
    requires forall i: nat :: Terminal(ending(i))
  {
    |now| == |was| && forall i :: 0 <= i < |was| ==> now[i] == if i in done then Settled(was[i], ending(i)) else was[i]
  }

  lemma {:induction false} OneMoreSettled(was: seq<Job>, now: seq<Job>, done: seq<nat>, i: nat, ending: nat -> Status)
    requires (forall k: nat :: Terminal(ending(k))) && AreSettled(was, now, done, ending) && i < |now|
    ensures AreSettled(was, now[i := Settled(now[i], ending(i))], done + [i], ending)
  {
  }

  lemma {:induction false} NoHolders(jobs: seq<Job>, queue: string)
    requires forall i :: 0 <= i < |jobs| ==> jobs[i].phase.Done?
    ensures Count(jobs, queue, Holder) == 0
  {
    if jobs != [] { NoHolders(jobs[..|jobs| - 1], queue); }
  }

  /** When every task is done every permit is back. */
  lemma {:induction false} AllDoneFreesAll(config: Config, p: Pool)
    requires Law(config, p) && forall i :: 0 <= i < |p.jobs| ==> p.jobs[i].phase.Done?
    ensures p.free == config.caps
  {
    forall q | q in p.free ensures p.free[q] == config.caps[q] { NoHolders(p.jobs, q); }
  }

  // ----- the pool object -----

  datatype EnqueueError = PoolClosed | UnknownQueue | NoHandler

  const DEFAULT_QUEUE_LIMITS: map<string, nat> := map["replay_queue" := 2, "medallion_queue" := 10]

  class InProcessQueuePool {
    const config: Config
    var free: map<string, nat>
    var jobs: seq<Job>
    var cancelEvents: map<string, bool>
    var closed: bool

    constructor (handlers: set<string>, queueLimits: map<string, nat>)
      ensures config == Config(DEFAULT_QUEUE_LIMITS + queueLimits, handlers)
      ensures forall queue :: queue in queueLimits ==> queue in config.caps && config.caps[queue] == queueLimits[queue]
      ensures forall queue :: queue in config.caps ==> queue in queueLimits || queue in {"replay_queue", "medallion_queue"}
      ensures "replay_queue" !in queueLimits ==> "replay_queue" in config.caps && config.caps["replay_queue"] == 2
      ensures "medallion_queue" !in queueLimits ==> "medallion_queue" in config.caps && config.caps["medallion_queue"] == 10
      ensures State() == Initial(config) && cancelEvents == map[]
    {
      config := Config(DEFAULT_QUEUE_LIMITS + queueLimits, handlers);
      free := DEFAULT_QUEUE_LIMITS + queueLimits;
      jobs, cancelEvents, closed := [], map[], false;
    }

    function State(): Pool
      reads this
    {
      Pool(free, jobs, closed)
    }

    /** The checks come in this order; a rejected call changes nothing. */
    method EnqueueJob(function_: string, queue: string, runId: Option<string>)
      returns (id: nat, error: Option<EnqueueError>)
      modifies this
      ensures State() == Apply(config, old(State()), Enqueue(function_, queue))
      ensures error.None? <==> !old(closed) && queue in old(free) && function_ in config.handlers
      ensures error.None? ==> id == |old(jobs)| && jobs == old(jobs) + [Job(queue, Queued, Waiting)]
      ensures error == Some(PoolClosed) <==> old(closed)
      ensures error == Some(UnknownQueue) <==> !old(closed) && queue !in old(free)
      ensures cancelEvents == if error.None? && runId.Some? && runId.value !in old(cancelEvents)
                              then old(cancelEvents)[runId.value := false] else old(cancelEvents)
    {
      id, error := 0, None;
      if closed {
        error := Some(PoolClosed);
      } else if queue !in free {
        error := Some(UnknownQueue);
      } else if function_ !in config.handlers {
        error := Some(NoHandler);
      } else {
        if runId.Some? && runId.value !in cancelEvents {
          cancelEvents := cancelEvents[runId.value := false];
        }
        id := |jobs|;
        jobs := jobs + [Job(queue, Queued, Waiting)];
      }
    }

    /** The semaphore hands job `i` a permit. */
    method TakePermit(i: nat)
      requires Enabled(config, State(), Acquire(i))
      modifies this
      ensures State() == Apply(config, old(State()), Acquire(i)) && cancelEvents == old(cancelEvents)
    {
      var queue := jobs[i].queue;
      free := free[queue := free[queue] - 1];
      jobs := jobs[i := jobs[i].(phase := Granted)];
    }

    method BeginHandler(i: nat)
      requires Enabled(config, State(), Start(i))
      modifies this
      ensures State() == Apply(config, old(State()), Start(i)) && cancelEvents == old(cancelEvents)
    {
      jobs := jobs[i := jobs[i].(phase := Running, status := InProgress)];
    }

    /** The handler returned, raised, or was cancelled. */
    method EndHandler(i: nat, ending: Status)
      requires Enabled(config, State(), Finish(i, ending))
      modifies this
      ensures State() == Apply(config, old(State()), Finish(i, ending)) && cancelEvents == old(cancelEvents)
    {
      jobs := jobs[i := jobs[i].(phase := Finishing, status := ending)];
    }

    method ReturnPermit(i: nat)
      requires Enabled(config, State(), Leave(i)) && jobs[i].queue in free
      modifies this
      ensures State() == Apply(config, old(State()), Leave(i)) && cancelEvents == old(cancelEvents)
    {
      var queue := jobs[i].queue;
      free := free[queue := free[queue] + 1];
      jobs := jobs[i := jobs[i].(phase := Done)];
    }

    /** A cancellation before the handler starts: a permit already handed over goes back, the status is not touched. */
    method AbandonWait(i: nat)
      requires Enabled(config, State(), Abandon(i)) && jobs[i].queue in free
      modifies this
      ensures State() == Apply(config, old(State()), Abandon(i)) && cancelEvents == old(cancelEvents)
    {
      var queue := jobs[i].queue;
      if jobs[i].phase.Granted? {
        free := free[queue := free[queue] + 1];
      }
      jobs := jobs[i := jobs[i].(phase := Done)];
    }

    method QueueSize(queue: string) returns (size: nat)
      ensures size == Count(jobs, queue, Listed)
      ensures size == |set i: nat | i < |jobs| && jobs[i].queue == queue
                                   && (jobs[i].status.Queued? || jobs[i].status.InProgress?)|
    {
      size := 0;
      for i := 0 to |jobs|
        invariant size == Count(jobs[..i], queue, Listed)
      {
        CountSnoc(jobs[..i], jobs[i], queue, Listed);
        assert jobs[..i + 1] == jobs[..i] + [jobs[i]];
        if jobs[i].queue == queue && (jobs[i].status.Queued? || jobs[i].status.InProgress?) {
          size := size + 1;
        }
      }
      assert jobs[..|jobs|] == jobs;
      CountIsSize(jobs, queue, Listed);
      assert Members(jobs, queue, Listed) == set i: nat | i < |jobs| && jobs[i].queue == queue
                                                         && (jobs[i].status.Queued? || jobs[i].status.InProgress?);
    }

    /** Stops new work and names the tasks still to be awaited; a second call finds none. */
    method CloseDown() returns (active: seq<nat>)
      modifies this
      ensures State() == Apply(config, old(State()), Close) && cancelEvents == old(cancelEvents)
      ensures forall i :: i in active <==> !old(closed) && 0 <= i < |jobs| && !jobs[i].phase.Done?
    {
      active := [];
      if closed {
        return;
      }
      closed := true;
      for i := 0 to |jobs|
        invariant forall k :: k in active <==> 0 <= k < i && !jobs[k].phase.Done?
      {
        if !jobs[i].phase.Done? {
          active := active + [i];
        }
      }
    }

    /** Task `i`, cancelled, runs to its end. */
    method CancelOne(i: nat, ending: Status)
      requires i < |jobs| && jobs[i].queue in free && Terminal(ending)
      modifies this
      ensures State() == AfterCancel(old(State()), i, ending) && cancelEvents == old(cancelEvents)
    {
      if Holds(jobs[i].phase) {
        free := free[jobs[i].queue := free[jobs[i].queue] + 1];
      }
      jobs := jobs[i := Settled(jobs[i], ending)];
    }

    method CancelEach(active: seq<nat>, ending: nat -> Status) returns (ghost steps: seq<Step>)
      requires Law(config, State()) && forall i: nat :: Terminal(ending(i))
      requires forall k :: 0 <= k < |active| ==> active[k] < |jobs|
      modifies this
      ensures Law(config, State()) && closed == old(closed) && cancelEvents == old(cancelEvents)
      ensures State() == Run(config, old(State()), steps) && AreSettled(old(jobs), jobs, active, ending)
    {
      steps := [];
      ghost var was := State();
      for k := 0 to |active|
        invariant Law(config, State()) && closed == was.closed && cancelEvents == old(cancelEvents)
        invariant State() == Run(config, was, steps) && AreSettled(was.jobs, jobs, active[..k], ending)
      {
        var i := active[k];
        assert active[..k + 1] == active[..k] + [i];
        CancellationGoesOn(config, was, steps, i, ending(i));
        OneMoreSettled(was.jobs, jobs, active[..k], i, ending);
        steps := steps + Ending(jobs[i], i, ending(i));
        CancelOne(i, ending(i));
      }
      assert active[..|active|] == active;
    }

    /**
     * The end of `close()` when the grace period runs out: every task it named is cancelled and
     * awaited. `ending` is the status with which each running handler answers its cancellation; no other
     * job changes its status. `steps` is the run of the step system this comes to.
     */
    method CancelActive(active: seq<nat>, ending: nat -> Status) returns (ghost steps: seq<Step>)
      requires Law(config, State()) && (forall i: nat :: Terminal(ending(i)))
      requires forall i :: i in active <==> 0 <= i < |jobs| && !jobs[i].phase.Done?
      modifies this
      ensures closed == old(closed) && cancelEvents == old(cancelEvents) && |jobs| == |old(jobs)|
      ensures forall i :: 0 <= i < |jobs| ==>
                jobs[i] == Job(old(jobs)[i].queue,
                               if old(jobs)[i].phase.Running? then ending(i) else old(jobs)[i].status, Done)
      ensures free == config.caps
      ensures State() == Run(config, old(State()), steps)
    {
      forall k | 0 <= k < |active| ensures active[k] < |jobs| { assert active[k] in active; }
      steps := CancelEach(active, ending);
      AllDoneFreesAll(config, State());
    }

    /** The local flag is only set for runs an accepted job has announced. */
    method Cancel(runId: string)
      modifies this
      ensures State() == old(State())
      ensures cancelEvents == if runId in old(cancelEvents) then old(cancelEvents)[runId := true] else old(cancelEvents)
    {
      if runId in cancelEvents {
        cancelEvents := cancelEvents[runId := true];
      }
    }
  }
}
