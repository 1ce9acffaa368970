/**
 * The match-id crawl worker pool (`stream_match_ids`): workers that share a job queue and feed it with
 * continuation pages, a closer that waits for the queue to be finished, and the consumer.
 *
 * The pool is a state machine; one step is what one task does between two suspension points or less,
 * so every schedule of the event loop is a sequence of these steps.
 */
module CrawlPool {
  import opened Counting
  import opened Crawl
  import opened Results
  import opened Sequences
  import opened Spreading

  /** A queue entry: a crawl state (with the seed it descends from) or the `None` sentinel. */
  datatype Job = Work(seed: nat, state: CrawlState) | Stop

  /** Where a worker is. Every value but `Waiting` and `Exited` holds an entry not yet marked done. */
  datatype Worker =
    | Waiting
    | Fetching(seed: nat, state: CrawlState)
    | Delivering(seed: nat, state: CrawlState, ids: seq<string>)
    | Deciding(seed: nat, state: CrawlState, ids: seq<string>)
    | Reporting(seed: nat, state: CrawlState, error: CrawlError)
    | Finishing
    | Stopping
    | Exited

  datatype Closer = Joining | Gathering | Closed

  datatype Message = Delivery(tagged: Tagged) | Done

  datatype Pool = Pool(
    queue: seq<Job>,
    unfinished: nat,
    workers: seq<Worker>,
    closer: Closer,
    out: seq<Message>,
    delivered: seq<Tagged>,
    finished: bool)

  datatype Step =
    | Take(w: nat)
    | Fetch(w: nat)
    | Deliver(w: nat)
    | Decide(w: nat)
    | Report(w: nat)
    | TaskDone(w: nat)
    | JoinReturns
    | GatherReturns
    | Consume

  predicate Enabled(p: Pool, step: Step) {
    match step
    case Take(w) => w < |p.workers| && p.workers[w].Waiting? && p.queue != []
    case Fetch(w) => w < |p.workers| && p.workers[w].Fetching?
    case Deliver(w) => w < |p.workers| && p.workers[w].Delivering?
    case Decide(w) => w < |p.workers| && p.workers[w].Deciding?
    case Report(w) => w < |p.workers| && p.workers[w].Reporting?
    case TaskDone(w) => w < |p.workers| && (p.workers[w].Finishing? || p.workers[w].Stopping?) && p.unfinished > 0
    case JoinReturns => p.closer.Joining? && p.unfinished == 0
    case GatherReturns => p.closer.Gathering? && forall worker <- p.workers :: worker.Exited?
    case Consume => !p.finished && p.out != []
  }

  function Stops(n: nat): seq<Job> {
    seq(n, _ => Stop)
  }

  function Apply(server: Server, p: Pool, step: Step): Pool
    requires Enabled(p, step)
  {
    match step
    case Take(w) =>
      var pc := match p.queue[0] case Work(seed, state) => Fetching(seed, state) case Stop => Stopping;
      p.(queue := p.queue[1..], workers := p.workers[w := pc])
    case Fetch(w) =>
      var Fetching(seed, state) := p.workers[w];
      var pc := match FetchPage(server, state)
        case Err(error) => Reporting(seed, state, error)
        case Ok(ids) => if ids == [] then Deciding(seed, state, ids) else Delivering(seed, state, ids);
      p.(workers := p.workers[w := pc])
    case Deliver(w) =>
      var Delivering(seed, state, ids) := p.workers[w];
      p.(out := p.out + [Delivery(Tagged(seed, Item(state.key, ids, None)))],
         workers := p.workers[w := Deciding(seed, state, ids)])
    case Decide(w) =>
      var Deciding(seed, state, ids) := p.workers[w];
      var next := p.(workers := p.workers[w := Finishing]);
      if Continues(state, ids)
        then next.(queue := p.queue + [Work(seed, NextPage(state))], unfinished := p.unfinished + 1)
        else next
    case Report(w) =>
      var Reporting(seed, state, error) := p.workers[w];
      p.(out := p.out + [Delivery(ErrorItem(seed, state, error))], workers := p.workers[w := Finishing])
    case TaskDone(w) =>
      p.(unfinished := p.unfinished - 1,
         workers := p.workers[w := if p.workers[w].Stopping? then Exited else Waiting])
    case JoinReturns =>
      p.(queue := p.queue + Stops(|p.workers|), unfinished := p.unfinished + |p.workers|, closer := Gathering)
    case GatherReturns =>
      p.(out := p.out + [Done], closer := Closed)
    case Consume =>
      match p.out[0]
      case Delivery(tagged) => p.(out := p.out[1..], delivered := p.delivered + [tagged])
      case Done => p.(out := p.out[1..], finished := true)
  }

  function SeedJobs(seeds: seq<CrawlState>): seq<Job> {
    seq(|seeds|, i requires 0 <= i < |seeds| => Work(i, seeds[i]))
  }

  function ContinentKey(state: CrawlState): string { state.continent }

  /** The seeds in queue order: the initial states spread over the continents. */
  function Seeds(states: seq<CrawlState>): seq<CrawlState> {
    Spread(states, ContinentKey)
  }

  function Init(states: seq<CrawlState>, n: nat): Pool {
    var jobs := SeedJobs(Seeds(states));
    Pool(jobs, |jobs|, seq(n, _ => Waiting), Joining, [], [], false)
  }

  /** `p` after the given steps; only runs whose every step is enabled when taken exist. */
  ghost predicate IsRun(server: Server, from: Pool, steps: seq<Step>, to: Pool)
    decreases |steps|
  {
    if steps == [] then from == to
    else
      Enabled(from, steps[0]) && IsRun(server, Apply(server, from, steps[0]), steps[1..], to)
  }

  // ----- Bookkeeping: entries held, work owed, results published -----

  predicate Busy(worker: Worker) {
    !worker.Waiting? && !worker.Exited?
  }

  predicate Idle(worker: Worker) { worker.Waiting? }

  /** The items this job still has to produce for seed `x`. */
  function JobOwes(server: Server, job: Job, x: nat): seq<Tagged> {
    if job.Work? && job.seed == x then SequentialCrawl(server, x, job.state) else []
  }

  predicate Holds(worker: Worker, x: nat) {
    match worker
    case Fetching(seed, _) => seed == x
    case Delivering(seed, _, _) => seed == x
    case Deciding(seed, _, _) => seed == x
    case Reporting(seed, _, _) => seed == x
    case _ => false
  }

  function WorkerOwes(server: Server, worker: Worker, x: nat): seq<Tagged> {
    if !Holds(worker, x) then []
    else
      match worker
      case Fetching(seed, state) => SequentialCrawl(server, seed, state)
      case Delivering(seed, state, ids) => [Tagged(seed, Item(state.key, ids, None))]
        + AfterPage(server, seed, state, ids)
      case Deciding(seed, state, ids) => AfterPage(server, seed, state, ids)
      case Reporting(seed, state, error) => [ErrorItem(seed, state, error)]
      case _ => []
  }

  function JobOf(x: nat): Job -> bool { (job: Job) => job.Work? && job.seed == x }

  function HolderOf(x: nat): Worker -> bool { (worker: Worker) => Holds(worker, x) }

  /** How many queued or held jobs belong to seed `x`. */
  function Tokens(p: Pool, x: nat): nat {
    CountIf(p.queue, JobOf(x)) + CountIf(p.workers, HolderOf(x))
  }

  function QueueOwes(server: Server, queue: seq<Job>, x: nat): seq<Tagged> {
    if queue == [] then [] else QueueOwes(server, queue[..|queue| - 1], x) + JobOwes(server, queue[|queue| - 1], x)
  }

  function WorkersOwe(server: Server, workers: seq<Worker>, x: nat): seq<Tagged> {
    if workers == [] then []
    else WorkersOwe(server, workers[..|workers| - 1], x) + WorkerOwes(server, workers[|workers| - 1], x)
  }

  function Owed(server: Server, p: Pool, x: nat): seq<Tagged> {
    QueueOwes(server, p.queue, x) + WorkersOwe(server, p.workers, x)
  }

  function Deliveries(out: seq<Message>): seq<Tagged> {
    if out == [] then []
    else if out[|out| - 1].Delivery? then Deliveries(out[..|out| - 1]) + [out[|out| - 1].tagged]
    else Deliveries(out[..|out| - 1])
  }

  /** Everything published so far: what the consumer has taken, then what still waits for it. */
  function Published(p: Pool): seq<Tagged> {
    p.delivered + Deliveries(p.out)
  }

  function SeedOf(t: Tagged): nat { t.seed }

  function PublishedFor(p: Pool, x: nat): seq<Tagged> {
    Bucket(Published(p), SeedOf, x)
  }

  /** The sequential crawl of seed number `x`. */
  function Expected(server: Server, seeds: seq<CrawlState>, x: nat): seq<Tagged> {
    if x < |seeds| then SequentialCrawl(server, x, seeds[x]) else []
  }

  // ----- The invariant -----

  /** `unfinished` counts the queued entries and the entries held by workers. */
  ghost predicate Accounted(p: Pool) {
    p.unfinished == |p.queue| + CountIf(p.workers, Busy)
  }

  /** One job at most per seed, and published plus owed items are the seed's sequential crawl. */
  ghost predicate Owing(server: Server, seeds: seq<CrawlState>, p: Pool, x: nat) {
    && Tokens(p, x) <= 1
    && PublishedFor(p, x) + Owed(server, p, x) == Expected(server, seeds, x)
  }

  /** Sentinels appear only after the join, and then one per worker that has not taken its own. */
  ghost predicate Phases(p: Pool) {
    if p.closer.Joining? then
      && (forall job <- p.queue :: job.Work?)
      && (forall worker <- p.workers :: !worker.Stopping? && !worker.Exited?)
    else
      && (forall job <- p.queue :: job.Stop?)
      && (forall worker <- p.workers :: worker.Waiting? || worker.Stopping? || worker.Exited?)
      && |p.queue| == CountIf(p.workers, Idle)
      && (p.closer.Closed? ==> forall worker <- p.workers :: worker.Exited?)
  }

  /** There is one `Done`, it is sent when everything is closed, and nothing follows it. */
  ghost predicate DoneLast(p: Pool) {
    && (forall i | 0 <= i < |p.out| - 1 :: p.out[i].Delivery?)
    && ((p.out != [] && p.out[|p.out| - 1].Done?) <==> (p.closer.Closed? && !p.finished))
    && (p.finished ==> p.closer.Closed? && p.out == [])
  }

  ghost predicate Inv(server: Server, seeds: seq<CrawlState>, p: Pool) {
    Accounted(p) && Phases(p) && DoneLast(p) && forall x: nat :: Owing(server, seeds, p, x)
  }
}
