/**
 * The balance of the match-id crawl pool: what is published and what is owed for a seed make up its
 * sequential crawl (match_ids.py).
 */
module CrawlOwed {
  import opened Counting
  import opened Crawl
  import opened CrawlPool
  import opened Results
  import opened Sequences
  import opened Spreading

  // ----- Owed items under queue and worker updates -----

  lemma {:induction false} QueueOwesConcat(server: Server, a: seq<Job>, b: seq<Job>, x: nat)
    ensures QueueOwes(server, a + b, x) == QueueOwes(server, a, x) + QueueOwes(server, b, x)
  {
    if b == [] {
      assert a + b == a;
    } else {
      var init, last := b[..|b| - 1], b[|b| - 1];
      QueueOwesConcat(server, a, init, x);
      assert (a + b)[..|a + b| - 1] == a + init && (a + b)[|a + b| - 1] == last;
      Associative(QueueOwes(server, a, x), QueueOwes(server, init, x), JobOwes(server, last, x));
    }
  }

  lemma {:induction false} QueueOwesNothing(server: Server, queue: seq<Job>, x: nat)
    requires CountIf(queue, JobOf(x)) == 0
    ensures QueueOwes(server, queue, x) == []
  {
    if queue != [] {
      QueueOwesNothing(server, queue[..|queue| - 1], x);
    }
  }

  lemma {:induction false} WorkersOweNothing(server: Server, workers: seq<Worker>, x: nat)
    requires CountIf(workers, HolderOf(x)) == 0
    ensures WorkersOwe(server, workers, x) == []
  {
    if workers != [] {
      WorkersOweNothing(server, workers[..|workers| - 1], x);
    }
  }

  /** When worker `w` holds the only token of seed `x`, it owes all that the workers owe for `x`. */
  lemma {:induction false} OnlyHolderOwes(server: Server, workers: seq<Worker>, w: nat, x: nat)
    requires w < |workers| && Holds(workers[w], x) && CountIf(workers, HolderOf(x)) <= 1
    ensures CountIf(workers, HolderOf(x)) == 1
    ensures WorkersOwe(server, workers, x) == WorkerOwes(server, workers[w], x)
  {
    var n := |workers| - 1;
    if w < n {
      OnlyHolderOwes(server, workers[..n], w, x);
    } else {
      WorkersOweNothing(server, workers[..n], x);
    }
  }

  lemma {:induction false} OthersOweTheSame(server: Server, workers: seq<Worker>, w: nat, worker: Worker, x: nat)
    requires w < |workers| && !Holds(workers[w], x) && !Holds(worker, x)
    ensures WorkersOwe(server, workers[w := worker], x) == WorkersOwe(server, workers, x)
  {
    var n := |workers| - 1;
    if w < n {
      OthersOweTheSame(server, workers[..n], w, worker, x);
      assert workers[w := worker][..n] == workers[..n][w := worker];
    } else {
      assert workers[w := worker][..n] == workers[..n];
    }
  }

  // ----- Steps that move work without publishing it -----

  /** A step by worker `w` that leaves the queue alone and turns it into `worker`. */
  lemma WorkerKeepsOwed(server: Server, p: Pool, p': Pool, w: nat, x: nat)
    requires w < |p.workers| == |p'.workers| && Tokens(p, x) <= 1
    requires p'.queue == p.queue && p'.workers == p.workers[w := p'.workers[w]]
    requires Holds(p.workers[w], x) <==> Holds(p'.workers[w], x)
    requires WorkerOwes(server, p.workers[w], x) == WorkerOwes(server, p'.workers[w], x)
    ensures Tokens(p', x) == Tokens(p, x) && Owed(server, p', x) == Owed(server, p, x)
  {
    CountUpdate(p.workers, w, p'.workers[w], HolderOf(x));
    if Holds(p.workers[w], x) {
      OnlyHolderOwes(server, p.workers, w, x);
      OnlyHolderOwes(server, p'.workers, w, x);
    } else {
      OthersOweTheSame(server, p.workers, w, p'.workers[w], x);
    }
  }

  lemma QueueSplit(server: Server, a: seq<Job>, b: seq<Job>, x: nat)
    ensures CountIf(a + b, JobOf(x)) == CountIf(a, JobOf(x)) + CountIf(b, JobOf(x))
    ensures QueueOwes(server, a + b, x) == QueueOwes(server, a, x) + QueueOwes(server, b, x)
  {
    CountConcat(a, b, JobOf(x));
    QueueOwesConcat(server, a, b, x);
  }

  /** Entries of other seeds at the end of the queue change nothing. */
  lemma QueueOthersLast(server: Server, a: seq<Job>, b: seq<Job>, x: nat)
    requires CountIf(b, JobOf(x)) == 0
    ensures CountIf(a + b, JobOf(x)) == CountIf(a, JobOf(x))
    ensures QueueOwes(server, a + b, x) == QueueOwes(server, a, x)
  {
    QueueSplit(server, a, b, x);
    QueueOwesNothing(server, b, x);
    assert QueueOwes(server, a, x) + [] == QueueOwes(server, a, x);
  }

  /** After entries of other seeds only the end of the queue counts. */
  lemma QueueOthersFirst(server: Server, a: seq<Job>, b: seq<Job>, x: nat)
    requires CountIf(a, JobOf(x)) == 0
    ensures CountIf(a + b, JobOf(x)) == CountIf(b, JobOf(x))
    ensures QueueOwes(server, a + b, x) == QueueOwes(server, b, x)
  {
    QueueSplit(server, a, b, x);
    QueueOwesNothing(server, a, x);
    assert [] + QueueOwes(server, b, x) == QueueOwes(server, b, x);
  }

  lemma SingleJob(server: Server, job: Job, x: nat)
    ensures CountIf([job], JobOf(x)) == if JobOf(x)(job) then 1 else 0
    ensures QueueOwes(server, [job], x) == JobOwes(server, job, x)
  {
  }

  lemma HeadSplit(server: Server, queue: seq<Job>, x: nat)
    requires queue != []
    ensures CountIf(queue, JobOf(x)) == CountIf(queue[1..], JobOf(x)) + if JobOf(x)(queue[0]) then 1 else 0
    ensures QueueOwes(server, queue, x) == JobOwes(server, queue[0], x) + QueueOwes(server, queue[1..], x)
  {
    assert queue == [queue[0]] + queue[1..];
    QueueSplit(server, [queue[0]], queue[1..], x);
    SingleJob(server, queue[0], x);
  }

  /** The only job of seed `x` leaves the head of the queue. */
  lemma QueueGivesSeed(server: Server, queue: seq<Job>, x: nat)
    requires queue != [] && JobOf(x)(queue[0]) && CountIf(queue, JobOf(x)) <= 1
    ensures CountIf(queue, JobOf(x)) == 1 && CountIf(queue[1..], JobOf(x)) == 0
    ensures QueueOwes(server, queue, x) == JobOwes(server, queue[0], x) && QueueOwes(server, queue[1..], x) == []
  {
    HeadSplit(server, queue, x);
    QueueOwesNothing(server, queue[1..], x);
  }

  /** Worker `w` takes up the work of seed `x`, which no worker held. */
  lemma WorkerTakesSeed(server: Server, workers: seq<Worker>, w: nat, worker: Worker, x: nat)
    requires w < |workers| && CountIf(workers, HolderOf(x)) == 0 && !Holds(workers[w], x) && Holds(worker, x)
    ensures CountIf(workers[w := worker], HolderOf(x)) == 1
    ensures WorkersOwe(server, workers, x) == []
    ensures WorkersOwe(server, workers[w := worker], x) == WorkerOwes(server, worker, x)
  {
    CountUpdate(workers, w, worker, HolderOf(x));
    WorkersOweNothing(server, workers, x);
    OnlyHolderOwes(server, workers[w := worker], w, x);
  }

  /** An entry that is not work of seed `x` leaves the queue. */
  lemma TakeForOthers(server: Server, p: Pool, w: nat, x: nat, worker: Worker)
    requires w < |p.workers| && p.workers[w].Waiting? && p.queue != [] && !JobOf(x)(p.queue[0]) && !Holds(worker, x)
    ensures CountIf(p.queue[1..], JobOf(x)) == CountIf(p.queue, JobOf(x))
    ensures QueueOwes(server, p.queue[1..], x) == QueueOwes(server, p.queue, x)
    ensures CountIf(p.workers[w := worker], HolderOf(x)) == CountIf(p.workers, HolderOf(x))
    ensures WorkersOwe(server, p.workers[w := worker], x) == WorkersOwe(server, p.workers, x)
  {
    HeadSplit(server, p.queue, x);
    CountUpdate(p.workers, w, worker, HolderOf(x));
    OthersOweTheSame(server, p.workers, w, worker, x);
  }

  lemma TakeKeepsOwed(server: Server, p: Pool, w: nat, x: nat)
    requires Enabled(p, Take(w)) && Tokens(p, x) <= 1
    ensures Tokens(Apply(server, p, Take(w)), x) == Tokens(p, x)
    ensures Owed(server, Apply(server, p, Take(w)), x) == Owed(server, p, x)
  {
    var p', job := Apply(server, p, Take(w)), p.queue[0];
    if JobOf(x)(job) {
      QueueGivesSeed(server, p.queue, x);
      WorkerTakesSeed(server, p.workers, w, p'.workers[w], x);
    } else {
      TakeForOthers(server, p, w, x, p'.workers[w]);
    }
  }

  lemma FetchKeepsOwed(server: Server, p: Pool, w: nat, x: nat)
    requires Enabled(p, Fetch(w)) && Tokens(p, x) <= 1
    ensures Tokens(Apply(server, p, Fetch(w)), x) == Tokens(p, x)
    ensures Owed(server, Apply(server, p, Fetch(w)), x) == Owed(server, p, x)
  {
    WorkerKeepsOwed(server, p, Apply(server, p, Fetch(w)), w, x);
  }

  /** Worker `w`, the only one that held work of seed `x`, is done with it. */
  lemma WorkerDone(server: Server, workers: seq<Worker>, w: nat, x: nat)
    requires w < |workers| && Holds(workers[w], x) && CountIf(workers, HolderOf(x)) <= 1
    ensures CountIf(workers, HolderOf(x)) == 1 && CountIf(workers[w := Finishing], HolderOf(x)) == 0
    ensures WorkersOwe(server, workers[w := Finishing], x) == []
    ensures WorkersOwe(server, workers, x) == WorkerOwes(server, workers[w], x)
  {
    CountUpdate(workers, w, Finishing, HolderOf(x));
    OnlyHolderOwes(server, workers, w, x);
    WorkersOweNothing(server, workers[w := Finishing], x);
  }

  lemma WorkerDoneForOthers(server: Server, workers: seq<Worker>, w: nat, x: nat)
    requires w < |workers| && !Holds(workers[w], x)
    ensures CountIf(workers[w := Finishing], HolderOf(x)) == CountIf(workers, HolderOf(x))
    ensures WorkersOwe(server, workers[w := Finishing], x) == WorkersOwe(server, workers, x)
  {
    CountUpdate(workers, w, Finishing, HolderOf(x));
    OthersOweTheSame(server, workers, w, Finishing, x);
  }

  /** The queue after a decision. */
  function Requeued(p: Pool, seed: nat, state: CrawlState, ids: seq<string>): seq<Job> {
    if Continues(state, ids) then p.queue + [Work(seed, NextPage(state))] else p.queue
  }

  lemma RequeuedForSeed(server: Server, p: Pool, x: nat, state: CrawlState, ids: seq<string>)
    requires CountIf(p.queue, JobOf(x)) == 0
    ensures CountIf(Requeued(p, x, state, ids), JobOf(x)) <= 1
    ensures QueueOwes(server, Requeued(p, x, state, ids), x) == AfterPage(server, x, state, ids)
  {
    if Continues(state, ids) {
      SingleJob(server, Work(x, NextPage(state)), x);
      QueueOthersFirst(server, p.queue, [Work(x, NextPage(state))], x);
    } else {
      QueueOwesNothing(server, p.queue, x);
    }
  }

  lemma DecideKeepsOwed(server: Server, p: Pool, w: nat, x: nat)
    requires Enabled(p, Decide(w)) && Tokens(p, x) <= 1
    ensures Tokens(Apply(server, p, Decide(w)), x) <= Tokens(p, x)
    ensures Owed(server, Apply(server, p, Decide(w)), x) == Owed(server, p, x)
  {
    var Deciding(seed, state, ids) := p.workers[w];
    var p' := Apply(server, p, Decide(w));
    assert p'.workers == p.workers[w := Finishing] && p'.queue == Requeued(p, seed, state, ids);
    if seed == x {
      WorkerDone(server, p.workers, w, x);
      RequeuedForSeed(server, p, x, state, ids);
      QueueOwesNothing(server, p.queue, x);
    } else {
      WorkerDoneForOthers(server, p.workers, w, x);
    }
  }

  lemma StopsOweNothing(server: Server, n: nat, x: nat)
    ensures CountIf(Stops(n), JobOf(x)) == 0 && QueueOwes(server, Stops(n), x) == []
  {
    CountZero(Stops(n), JobOf(x));
    QueueOwesNothing(server, Stops(n), x);
  }

  lemma JoinKeepsOwed(server: Server, p: Pool, x: nat)
    requires Enabled(p, JoinReturns)
    ensures Tokens(Apply(server, p, JoinReturns), x) == Tokens(p, x)
    ensures Owed(server, Apply(server, p, JoinReturns), x) == Owed(server, p, x)
  {
    StopsOweNothing(server, |p.workers|, x);
    QueueOthersLast(server, p.queue, Stops(|p.workers|), x);
  }

  // ----- Publishing -----

  lemma {:induction false} DeliveriesConcat(a: seq<Message>, b: seq<Message>)
    ensures Deliveries(a + b) == Deliveries(a) + Deliveries(b)
  {
    if b == [] {
      assert a + b == a;
    } else {
      assert (a + b)[..|a + b| - 1] == a + b[..|b| - 1];
      DeliveriesConcat(a, b[..|b| - 1]);
    }
  }

  lemma ConsumeKeepsPublished(server: Server, p: Pool)
    requires Enabled(p, Consume)
    ensures Published(Apply(server, p, Consume)) == Published(p)
  {
    DeliveriesConcat([p.out[0]], p.out[1..]);
    assert p.out == [p.out[0]] + p.out[1..];
  }

  /** A published item joins its own seed's results and no other's. */
  lemma PublishFor(p: Pool, p': Pool, t: Tagged, x: nat)
    requires p'.delivered == p.delivered && p'.out == p.out + [Delivery(t)]
    ensures PublishedFor(p', x) == PublishedFor(p, x) + if t.seed == x then [t] else []
  {
    DeliveriesConcat(p.out, [Delivery(t)]);
    assert Deliveries([Delivery(t)]) == [t];
    assert Published(p') == Published(p) + [t];
    BucketConcat(Published(p), [t], SeedOf, x);
    BucketUniform([t], SeedOf, t.seed, x);
  }

  /** Worker `w`, the only one with work of the seed of `t`, has published `t`. */
  lemma PublishPaysOwn(server: Server, workers: seq<Worker>, w: nat, worker: Worker, t: Tagged)
    requires w < |workers| && Holds(workers[w], t.seed) && CountIf(workers, HolderOf(t.seed)) <= 1
    requires WorkerOwes(server, workers[w], t.seed) == [t] + WorkerOwes(server, worker, t.seed)
    ensures CountIf(workers[w := worker], HolderOf(t.seed)) <= CountIf(workers, HolderOf(t.seed)) == 1
    ensures [t] + WorkersOwe(server, workers[w := worker], t.seed) == WorkersOwe(server, workers, t.seed)
  {
    CountUpdate(workers, w, worker, HolderOf(t.seed));
    OnlyHolderOwes(server, workers, w, t.seed);
    if Holds(worker, t.seed) {
      OnlyHolderOwes(server, workers[w := worker], w, t.seed);
    } else {
      WorkersOweNothing(server, workers[w := worker], t.seed);
    }
  }

  lemma PublishPaysOthers(server: Server, workers: seq<Worker>, w: nat, worker: Worker, x: nat)
    requires w < |workers| && !Holds(workers[w], x) && !Holds(worker, x)
    ensures CountIf(workers[w := worker], HolderOf(x)) == CountIf(workers, HolderOf(x))
    ensures [] + WorkersOwe(server, workers[w := worker], x) == WorkersOwe(server, workers, x)
  {
    CountUpdate(workers, w, worker, HolderOf(x));
    OthersOweTheSame(server, workers, w, worker, x);
  }

  /** Worker `w` publishes `t`, the first item it owes. */
  lemma PublishPaysOwed(server: Server, p: Pool, p': Pool, w: nat, t: Tagged, x: nat)
    requires w < |p.workers| == |p'.workers| && Tokens(p, x) <= 1
    requires p'.queue == p.queue && p'.workers == p.workers[w := p'.workers[w]]
    requires Holds(p.workers[w], t.seed)
    requires Holds(p'.workers[w], x) ==> x == t.seed
    requires WorkerOwes(server, p.workers[w], t.seed) == [t] + WorkerOwes(server, p'.workers[w], t.seed)
    ensures Tokens(p', x) <= Tokens(p, x)
    ensures (if t.seed == x then [t] else []) + Owed(server, p', x) == Owed(server, p, x)
  {
    if t.seed == x {
      PublishPaysOwn(server, p.workers, w, p'.workers[w], t);
      QueueOwesNothing(server, p.queue, x);
      NothingAdded(WorkersOwe(server, p.workers, x));
      NothingAdded(WorkersOwe(server, p'.workers, x));
    } else {
      PublishPaysOthers(server, p.workers, w, p'.workers[w], x);
      NothingAdded(WorkersOwe(server, p'.workers, x));
      NothingAdded(Owed(server, p', x));
    }
  }

  lemma PublishKeepsOwing(server: Server, seeds: seq<CrawlState>, p: Pool, p': Pool, w: nat, t: Tagged, x: nat)
    requires Owing(server, seeds, p, x)
    requires w < |p.workers| == |p'.workers| && Holds(p.workers[w], t.seed)
    requires p' == p.(out := p.out + [Delivery(t)], workers := p.workers[w := p'.workers[w]])
    requires Holds(p'.workers[w], x) ==> x == t.seed
    requires WorkerOwes(server, p.workers[w], t.seed) == [t] + WorkerOwes(server, p'.workers[w], t.seed)
    ensures Owing(server, seeds, p', x)
  {
    PublishFor(p, p', t, x);
    PublishPaysOwed(server, p, p', w, t, x);
    Associative(PublishedFor(p, x), if t.seed == x then [t] else [], Owed(server, p', x));
  }

  // ----- Every step keeps every seed's balance -----

  lemma PublishStepKeepsOwing(server: Server, seeds: seq<CrawlState>, p: Pool, step: Step, x: nat)
    requires step.Deliver? || step.Report?
    requires Enabled(p, step) && Owing(server, seeds, p, x)
    ensures Owing(server, seeds, Apply(server, p, step), x)
  {
    match step {
      case Deliver(w) =>
        var Delivering(seed, state, ids) := p.workers[w];
        PublishKeepsOwing(server, seeds, p, Apply(server, p, step), w, Tagged(seed, Item(state.key, ids, None)), x);
      case Report(w) =>
        var Reporting(seed, state, error) := p.workers[w];
        PublishKeepsOwing(server, seeds, p, Apply(server, p, step), w, ErrorItem(seed, state, error), x);
    }
  }

  /** Steps that publish nothing. */
  lemma QuietStepKeepsOwed(server: Server, p: Pool, step: Step, x: nat)
    requires !step.Deliver? && !step.Report?
    requires Enabled(p, step) && Tokens(p, x) <= 1
    ensures Tokens(Apply(server, p, step), x) <= Tokens(p, x)
    ensures Owed(server, Apply(server, p, step), x) == Owed(server, p, x)
  {
    match step {
      case Take(w) => TakeKeepsOwed(server, p, w, x);
      case Fetch(w) => FetchKeepsOwed(server, p, w, x);
      case Decide(w) => DecideKeepsOwed(server, p, w, x);
      case TaskDone(w) => WorkerKeepsOwed(server, p, Apply(server, p, step), w, x);
      case JoinReturns => JoinKeepsOwed(server, p, x);
      case GatherReturns =>
      case Consume =>
    }
  }

  lemma QuietStepKeepsPublished(server: Server, p: Pool, step: Step)
    requires !step.Deliver? && !step.Report? && Enabled(p, step)
    ensures Published(Apply(server, p, step)) == Published(p)
  {
    if step.Consume? {
      ConsumeKeepsPublished(server, p);
    }
  }

  lemma StepKeepsOwing(server: Server, seeds: seq<CrawlState>, p: Pool, step: Step, x: nat)
    requires Enabled(p, step) && Owing(server, seeds, p, x)
    ensures Owing(server, seeds, Apply(server, p, step), x)
  {
    if step.Deliver? || step.Report? {
      PublishStepKeepsOwing(server, seeds, p, step, x);
    } else {
      QuietStepKeepsOwed(server, p, step, x);
      QuietStepKeepsPublished(server, p, step);
    }
  }
}
