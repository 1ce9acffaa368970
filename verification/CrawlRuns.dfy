/**
 * Whole runs of the match-id crawl pool: they make progress and end, every worker takes one sentinel, and
 * what is delivered does not depend on the schedule (match_ids.py).
 */
module CrawlRuns {
  import opened Counting
  import opened Crawl
  import opened CrawlOwed
  import opened CrawlPool
  import opened Results
  import opened Sequences
  import opened Spreading

  // ----- The rest of the invariant -----

  lemma StepKeepsAccounted(server: Server, p: Pool, step: Step)
    requires Enabled(p, step) && Accounted(p)
    ensures Accounted(Apply(server, p, step))
  {
    var p' := Apply(server, p, step);
    if step.Take? || step.Fetch? || step.Deliver? || step.Decide? || step.Report? || step.TaskDone? {
      CountUpdate(p.workers, step.w, p'.workers[step.w], Busy);
    }
  }

  /** The join returns only when every worker is waiting on an empty queue. */
  lemma JoinFindsAllWaiting(p: Pool)
    requires Accounted(p) && Phases(p) && Enabled(p, JoinReturns)
    ensures p.queue == [] && CountIf(p.workers, Idle) == |p.workers|
    ensures forall worker <- p.workers :: worker.Waiting?
  {
    CountZero(p.workers, Busy);
    CountAll(p.workers, Idle);
  }

  lemma JoinKeepsPhases(server: Server, p: Pool)
    requires Enabled(p, JoinReturns) && Accounted(p) && Phases(p)
    ensures Phases(Apply(server, p, JoinReturns))
  {
    JoinFindsAllWaiting(p);
  }

  /** Taking an entry: work before the join, a sentinel after it. */
  lemma TakeKeepsPhases(server: Server, p: Pool, w: nat)
    requires Enabled(p, Take(w)) && Phases(p)
    ensures Phases(Apply(server, p, Take(w)))
  {
    var p' := Apply(server, p, Take(w));
    CountUpdate(p.workers, w, p'.workers[w], Idle);
    assert p.queue[0] in p.queue && p.workers[w] in p.workers;
    assert forall worker <- p'.workers :: worker in p.workers || worker == p'.workers[w];
  }

  /** A step of a worker that holds an entry. */
  lemma WorkerKeepsPhases(server: Server, p: Pool, step: Step)
    requires step.Fetch? || step.Deliver? || step.Decide? || step.Report? || step.TaskDone?
    requires Enabled(p, step) && Phases(p)
    ensures Phases(Apply(server, p, step))
  {
    var p' := Apply(server, p, step);
    CountUpdate(p.workers, step.w, p'.workers[step.w], Idle);
    assert p.workers[step.w] in p.workers;
    assert forall worker <- p'.workers :: worker in p.workers || worker == p'.workers[step.w];
  }

  lemma StepKeepsPhases(server: Server, p: Pool, step: Step)
    requires Enabled(p, step) && Accounted(p) && Phases(p)
    ensures Phases(Apply(server, p, step))
  {
    match step {
      case JoinReturns => JoinKeepsPhases(server, p);
      case Take(w) => TakeKeepsPhases(server, p, w);
      case GatherReturns =>
      case Consume =>
      case _ => WorkerKeepsPhases(server, p, step);
    }
  }

  lemma StepKeepsDoneLast(server: Server, p: Pool, step: Step)
    requires Enabled(p, step) && Phases(p) && DoneLast(p)
    ensures DoneLast(Apply(server, p, step))
  {
    if step.Deliver? || step.Report? {
      assert p.workers[step.w] in p.workers;
    }
  }

  // ----- The invariant over runs -----

  lemma StepKeepsInv(server: Server, seeds: seq<CrawlState>, p: Pool, step: Step)
    requires Enabled(p, step) && Inv(server, seeds, p)
    ensures Inv(server, seeds, Apply(server, p, step))
  {
    StepKeepsAccounted(server, p, step);
    StepKeepsPhases(server, p, step);
    StepKeepsDoneLast(server, p, step);
    forall x: nat ensures Owing(server, seeds, Apply(server, p, step), x) {
      StepKeepsOwing(server, seeds, p, step, x);
    }
  }

  lemma {:induction false} SeedJobsOwe(server: Server, seeds: seq<CrawlState>, x: nat)
    ensures CountIf(SeedJobs(seeds), JobOf(x)) == if x < |seeds| then 1 else 0
    ensures QueueOwes(server, SeedJobs(seeds), x) == Expected(server, seeds, x)
  {
    if seeds != [] {
      var n := |seeds| - 1;
      SeedJobsOwe(server, seeds[..n], x);
      assert SeedJobs(seeds)[..n] == SeedJobs(seeds[..n]);
      assert SeedJobs(seeds)[n] == Work(n, seeds[n]);
    }
  }

  lemma InitOwing(server: Server, states: seq<CrawlState>, n: nat, x: nat)
    ensures Owing(server, Seeds(states), Init(states, n), x)
  {
    var p := Init(states, n);
    SeedJobsOwe(server, Seeds(states), x);
    CountZero(p.workers, HolderOf(x));
    WorkersOweNothing(server, p.workers, x);
    assert Published(p) == [];
  }

  lemma InitInv(server: Server, states: seq<CrawlState>, n: nat)
    ensures Inv(server, Seeds(states), Init(states, n))
  {
    CountZero(Init(states, n).workers, Busy);
    forall x: nat ensures Owing(server, Seeds(states), Init(states, n), x) {
      InitOwing(server, states, n, x);
    }
  }

  lemma {:induction false} RunKeepsInv(server: Server, seeds: seq<CrawlState>, from: Pool, steps: seq<Step>, to: Pool)
    requires Inv(server, seeds, from) && IsRun(server, from, steps, to)
    ensures Inv(server, seeds, to) && |to.workers| == |from.workers|
    decreases |steps|
  {
    if steps != [] {
      StepKeepsInv(server, seeds, from, steps[0]);
      RunKeepsInv(server, seeds, Apply(server, from, steps[0]), steps[1..], to);
    }
  }

  // ----- What the invariant means -----

  lemma NothingLeft(server: Server, seeds: seq<CrawlState>, p: Pool, x: nat)
    requires Owing(server, seeds, p, x)
    requires forall job <- p.queue :: job.Stop?
    requires forall worker <- p.workers :: !Holds(worker, x)
    ensures PublishedFor(p, x) == Expected(server, seeds, x)
  {
    CountZero(p.queue, JobOf(x));
    CountZero(p.workers, HolderOf(x));
    QueueOwesNothing(server, p.queue, x);
    WorkersOweNothing(server, p.workers, x);
  }

  /** `join()` cannot return while a page is owed: by then every seed's crawl has been published. */
  lemma JoinMeansCrawled(server: Server, seeds: seq<CrawlState>, p: Pool, x: nat)
    requires Inv(server, seeds, p) && Enabled(p, JoinReturns)
    ensures PublishedFor(p, x) == Expected(server, seeds, x)
  {
    JoinFindsAllWaiting(p);
    NothingLeft(server, seeds, p, x);
  }

  /** When `Done` is consumed, the consumer has each seed's sequential crawl, in order, and nothing else. */
  lemma FinishedMeansDelivered(server: Server, seeds: seq<CrawlState>, p: Pool, x: nat)
    requires Inv(server, seeds, p) && p.finished
    ensures Bucket(p.delivered, SeedOf, x) == Expected(server, seeds, x)
  {
    NothingLeft(server, seeds, p, x);
    assert Published(p) == p.delivered;
  }

  /** No deadlock: with at least one worker, some step is enabled until the consumer has finished. */
  lemma Progress(server: Server, seeds: seq<CrawlState>, p: Pool) returns (step: Step)
    requires Inv(server, seeds, p) && |p.workers| > 0 && !p.finished
    ensures Enabled(p, step)
  {
    if p.out != [] {
      return Consume;
    }
    if w: nat :| w < |p.workers| && Busy(p.workers[w]) {
      var worker := p.workers[w];
      TaskDoneNeverRaises(p, w);
      return if worker.Fetching? then Fetch(w)
        else if worker.Delivering? then Deliver(w)
        else if worker.Deciding? then Decide(w)
        else if worker.Reporting? then Report(w)
        else TaskDone(w);
    }
    CountZero(p.workers, Idle);
    if w: nat :| w < |p.workers| && p.workers[w].Waiting? && p.queue != [] {
      return Take(w);
    }
    CountZero(p.workers, Busy);
    return if p.closer.Joining? then JoinReturns else GatherReturns;
  }

  /** `task_done` never raises: while a worker holds an entry, the unfinished count is positive. */
  lemma TaskDoneNeverRaises(p: Pool, w: nat)
    requires Accounted(p) && w < |p.workers| && Busy(p.workers[w])
    ensures p.unfinished > 0
  {
    CountZero(p.workers, Busy);
    assert p.workers[w] in p.workers;
  }

  // ----- Termination -----

  function JobWeight(job: Job): nat {
    match job
    case Work(_, state) => 8 * PagesLeft(state.pageStart)
    case Stop => 3
  }

  function WorkerWeight(worker: Worker): nat {
    match worker
    case Fetching(_, state) => 8 * PagesLeft(state.pageStart) - 1
    case Delivering(_, state, _) => 8 * PagesLeft(state.pageStart) - 2
    case Reporting(_, state, _) => 8 * PagesLeft(state.pageStart) - 2
    case Deciding(_, state, _) => 8 * PagesLeft(state.pageStart) - 4
    case Stopping => 2
    case Finishing => 1
    case _ => 0
  }

  function CloserWeight(closer: Closer, n: nat): nat {
    match closer
    case Joining => 3 * n + 4
    case Gathering => 3
    case Closed => 0
  }

  /** How many steps the pool can still take at most. */
  function Measure(p: Pool): nat {
    SumBy(p.queue, JobWeight) + SumBy(p.workers, WorkerWeight) + |p.out| + CloserWeight(p.closer, |p.workers|)
  }

  lemma WorkerStepDecreases(server: Server, p: Pool, step: Step)
    requires Enabled(p, step)
    requires step.Fetch? || step.Deliver? || step.Report? || step.TaskDone?
    ensures Measure(Apply(server, p, step)) < Measure(p)
  {
    var p' := Apply(server, p, step);
    SumUpdate(p.workers, step.w, p'.workers[step.w], WorkerWeight);
  }

  lemma DecideDecreases(server: Server, p: Pool, w: nat)
    requires Enabled(p, Decide(w))
    ensures Measure(Apply(server, p, Decide(w))) < Measure(p)
  {
    var Deciding(seed, state, ids) := p.workers[w];
    SumUpdate(p.workers, w, Finishing, WorkerWeight);
    if Continues(state, ids) {
      var job := Work(seed, NextPage(state));
      assert (p.queue + [job])[..|p.queue|] == p.queue;
      assert PagesLeft(state.pageStart) == 1 + PagesLeft(NextPage(state).pageStart);
    }
  }

  lemma QueueStepDecreases(server: Server, p: Pool, step: Step)
    requires Enabled(p, step) && (step.JoinReturns? || step.Take?)
    ensures Measure(Apply(server, p, step)) < Measure(p)
  {
    if step.JoinReturns? {
      SumConcat(p.queue, Stops(|p.workers|), JobWeight);
      SumUniform(Stops(|p.workers|), JobWeight, 3);
    } else {
      SumUpdate(p.workers, step.w, Apply(server, p, step).workers[step.w], WorkerWeight);
      SumHead(p.queue, JobWeight);
    }
  }

  lemma StepDecreases(server: Server, p: Pool, step: Step)
    requires Enabled(p, step)
    ensures Measure(Apply(server, p, step)) < Measure(p)
  {
    match step {
      case JoinReturns => QueueStepDecreases(server, p, step);
      case Take(_) => QueueStepDecreases(server, p, step);
      case Decide(w) => DecideDecreases(server, p, w);
      case GatherReturns =>
      case Consume =>
      case _ => WorkerStepDecreases(server, p, step);
    }
  }

  lemma {:induction false} RunsAreBounded(server: Server, from: Pool, steps: seq<Step>, to: Pool)
    requires IsRun(server, from, steps, to)
    ensures |steps| + Measure(to) <= Measure(from)
    decreases |steps|
  {
    if steps != [] {
      StepDecreases(server, from, steps[0]);
      RunsAreBounded(server, Apply(server, from, steps[0]), steps[1..], to);
    }
  }

  /** The measure at the start: ten pages per seed, and a few steps per worker. */
  lemma InitMeasure(states: seq<CrawlState>, n: nat)
    requires forall state <- states :: state.pageStart == 0
    ensures Measure(Init(states, n)) == 80 * |states| + 3 * n + 4
  {
    var jobs := Init(states, n).queue;
    SpreadPermutes(states, ContinentKey);
    assert |multiset(Seeds(states))| == |multiset(states)|;
    TenPages();
    forall job <- jobs ensures JobWeight(job) == 80 {
      var i :| 0 <= i < |jobs| && jobs[i] == job;
      assert Seeds(states)[i] in multiset(Seeds(states));
      assert Seeds(states)[i] in multiset(states);
    }
    SumUniform(jobs, JobWeight, 80);
    SumUniform(Init(states, n).workers, WorkerWeight, 0);
  }

  // ----- Every worker takes exactly one sentinel -----

  predicate TookSentinel(worker: Worker) {
    worker.Stopping? || worker.Exited?
  }

  /** How often worker `w` takes a sentinel in a run. */
  ghost function SentinelsTaken(server: Server, from: Pool, steps: seq<Step>, w: nat): nat
    decreases |steps|
  {
    if steps == [] || !Enabled(from, steps[0]) then 0
    else
      (if steps[0] == Take(w) && from.queue[0].Stop? then 1 else 0)
      + SentinelsTaken(server, Apply(server, from, steps[0]), steps[1..], w)
  }

  lemma {:induction false} SentinelsCounted(server: Server, from: Pool, steps: seq<Step>, to: Pool, w: nat)
    requires IsRun(server, from, steps, to) && w < |from.workers|
    ensures |to.workers| == |from.workers|
    ensures SentinelsTaken(server, from, steps, w) + (if TookSentinel(from.workers[w]) then 1 else 0)
            == if TookSentinel(to.workers[w]) then 1 else 0
    decreases |steps|
  {
    if steps != [] {
      SentinelsCounted(server, Apply(server, from, steps[0]), steps[1..], to, w);
    }
  }

  // ----- The whole pool -----

  ghost predicate Stuck(p: Pool) {
    forall step :: !Enabled(p, step)
  }

  /**
   * Total correctness for every schedule and any positive number of workers: a run can only stop when
   * the consumer has finished, after a bounded number of steps; it has then received, seed by seed,
   * exactly the sequential crawl, and every worker has taken exactly one sentinel.
   */
  lemma PoolCorrect(server: Server, states: seq<CrawlState>, n: nat, steps: seq<Step>, p: Pool)
    requires n > 0 && IsRun(server, Init(states, n), steps, p)
    ensures |steps| <= Measure(Init(states, n))
    ensures Stuck(p) <==> p.finished
    ensures p.finished ==>
      && (forall x: nat :: Bucket(p.delivered, SeedOf, x) == Expected(server, Seeds(states), x))
      && (forall w | 0 <= w < n :: SentinelsTaken(server, Init(states, n), steps, w) == 1)
  {
    var seeds := Seeds(states);
    InitInv(server, states, n);
    RunKeepsInv(server, seeds, Init(states, n), steps, p);
    RunsAreBounded(server, Init(states, n), steps, p);
    if !p.finished {
      var step := Progress(server, seeds, p);
    } else {
      FinishedIsStuck(server, seeds, p);
      forall x: nat ensures Bucket(p.delivered, SeedOf, x) == Expected(server, seeds, x) {
        FinishedMeansDelivered(server, seeds, p, x);
      }
      forall w | 0 <= w < n ensures SentinelsTaken(server, Init(states, n), steps, w) == 1 {
        SentinelsCounted(server, Init(states, n), steps, p, w);
        assert p.workers[w] in p.workers;
      }
    }
  }

  lemma FinishedIsStuck(server: Server, seeds: seq<CrawlState>, p: Pool)
    requires Inv(server, seeds, p) && p.finished
    ensures Stuck(p)
  {
    assert forall w | 0 <= w < |p.workers| :: p.workers[w].Exited?;
  }

  /** `p` is where some completed run of a pool with a positive number of workers has ended. */
  ghost predicate Completes(server: Server, states: seq<CrawlState>, p: Pool) {
    exists n: nat, steps :: n > 0 && IsRun(server, Init(states, n), steps, p) && p.finished
  }

  lemma CompletedDelivers(server: Server, states: seq<CrawlState>, p: Pool)
    requires Completes(server, states, p)
    ensures forall x: nat :: Bucket(p.delivered, SeedOf, x) == Expected(server, Seeds(states), x)
  {
    var n: nat, steps :| n > 0 && IsRun(server, Init(states, n), steps, p) && p.finished;
    PoolCorrect(server, states, n, steps, p);
  }

  /** The result does not depend on the schedule or on the number of workers. */
  lemma ScheduleIndependent(server: Server, states: seq<CrawlState>, p: Pool, p': Pool)
    requires Completes(server, states, p) && Completes(server, states, p')
    ensures multiset(p.delivered) == multiset(p'.delivered)
  {
    CompletedDelivers(server, states, p);
    CompletedDelivers(server, states, p');
    forall t: Tagged ensures multiset(p.delivered)[t] == multiset(p'.delivered)[t] {
      BucketCount(p.delivered, SeedOf, t);
      BucketCount(p'.delivered, SeedOf, t);
      assert Bucket(p.delivered, SeedOf, t.seed) == Expected(server, Seeds(states), t.seed);
    }
    SameCounts(p.delivered, p'.delivered);
  }
}
