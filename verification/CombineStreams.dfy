/**
 * `combine_streams`: two pumps feed one bounded queue, the consumer drains it until both have closed.
 * The streams modelled here do not fail.
 */
module CombineStreams {
  import opened Sequences
  import opened Spreading

  datatype Stream = NonTimeline | Timeline

  datatype StreamItem<T> = StreamItem(stream: Stream, raw: T)

  datatype Message<T> = Data(item: StreamItem<T>) | Done(stream: Stream)

  /** How far a pump has come: items put so far, and whether its `Done` has been put. */
  datatype Pump = Pump(put: nat, closed: bool)

  datatype State<T> = State(
    queue: seq<Message<T>>,
    nonTimeline: Pump,
    timeline: Pump,
    done: set<Stream>,
    yielded: seq<StreamItem<T>>)
  {
    function PumpOf(stream: Stream): Pump {
      if stream.NonTimeline? then nonTimeline else timeline
    }

    function WithPump(stream: Stream, pump: Pump): State<T> {
      if stream.NonTimeline? then this.(nonTimeline := pump) else this.(timeline := pump)
    }

    /** The consumer's loop ends when both `Done` messages have been taken. */
    predicate Finished() {
      NonTimeline in done && Timeline in done
    }
  }

  type Inputs<T> = Stream -> seq<T>

  datatype Step = Put(stream: Stream) | Close(stream: Stream) | Get

  /** `asyncio.Queue` is unbounded when its `maxsize` is not positive. */
  predicate HasRoom<T>(s: State<T>, maxBuffer: int) {
    maxBuffer <= 0 || |s.queue| < maxBuffer
  }

  predicate Enabled<T>(inputs: Inputs<T>, maxBuffer: int, s: State<T>, step: Step) {
    match step
    case Put(stream) => s.PumpOf(stream).put < |inputs(stream)| && HasRoom(s, maxBuffer)
    case Close(stream) => s.PumpOf(stream).put >= |inputs(stream)| && !s.PumpOf(stream).closed && HasRoom(s, maxBuffer)
    case Get => !s.Finished() && s.queue != []
  }

  function Apply<T>(inputs: Inputs<T>, maxBuffer: int, s: State<T>, step: Step): State<T>
    requires Enabled(inputs, maxBuffer, s, step)
  {
    match step
    case Put(stream) =>
      var pump := s.PumpOf(stream);
      s.WithPump(stream, pump.(put := pump.put + 1))
       .(queue := s.queue + [Data(StreamItem(stream, inputs(stream)[pump.put]))])
    case Close(stream) =>
      s.WithPump(stream, s.PumpOf(stream).(closed := true)).(queue := s.queue + [Done(stream)])
    case Get =>
      match s.queue[0]
      case Data(item) => s.(queue := s.queue[1..], yielded := s.yielded + [item])
      case Done(stream) => s.(queue := s.queue[1..], done := s.done + {stream})
  }

  function Start<T>(): State<T> {
    State([], Pump(0, false), Pump(0, false), {}, [])
  }

  ghost predicate IsRun<T>(inputs: Inputs<T>, maxBuffer: int, from: State<T>, steps: seq<Step>, to: State<T>)
    decreases |steps|
  {
    if steps == [] then from == to
    else
      && Enabled(inputs, maxBuffer, from, steps[0])
      && IsRun(inputs, maxBuffer, Apply(inputs, maxBuffer, from, steps[0]), steps[1..], to)
  }

  // ----- The invariant -----

  function StreamOf<T>(): StreamItem<T> -> Stream { (item: StreamItem<T>) => item.stream }

  function Sender<T>(): Message<T> -> Stream {
    (m: Message<T>) => if m.Data? then m.item.stream else m.stream
  }

  /** The first `n` items of one input, as stream items. */
  function Prefix<T>(inputs: Inputs<T>, stream: Stream, n: nat): seq<StreamItem<T>>
    requires n <= |inputs(stream)|
  {
    seq(n, i requires 0 <= i < n => StreamItem(stream, inputs(stream)[i]))
  }

  /** Items `m` to `n` of one input, as messages. */
  function Messages<T>(inputs: Inputs<T>, stream: Stream, m: nat, n: nat): seq<Message<T>>
    requires m <= n <= |inputs(stream)|
  {
    seq(n - m, i requires 0 <= i < n - m => Data(StreamItem(stream, inputs(stream)[m + i])))
  }

  /**
   * One stream: the items yielded are a prefix of its input, the queue holds the following items up to
   * the last one put, and its `Done` stands behind them.
   */
  ghost predicate StreamInv<T>(inputs: Inputs<T>, s: State<T>, stream: Stream) {
    var pump, taken := s.PumpOf(stream), Bucket(s.yielded, StreamOf(), stream);
    && |taken| <= pump.put <= |inputs(stream)|
    && taken == Prefix(inputs, stream, |taken|)
    && Bucket(s.queue, Sender(), stream)
       == Messages(inputs, stream, |taken|, pump.put)
         + (if pump.closed && stream !in s.done then [Done(stream)] else [])
    && (pump.closed ==> pump.put == |inputs(stream)|)
    && (stream in s.done ==> pump.closed && |taken| == pump.put)
  }

  ghost predicate Inv<T>(inputs: Inputs<T>, s: State<T>) {
    StreamInv(inputs, s, NonTimeline) && StreamInv(inputs, s, Timeline)
  }

  lemma SentByHead<T>(queue: seq<Message<T>>, stream: Stream)
    requires queue != []
    ensures Bucket(queue, Sender(), stream)
            == (if Sender()(queue[0]) == stream then [queue[0]] else []) + Bucket(queue[1..], Sender(), stream)
  {
    assert queue == [queue[0]] + queue[1..];
    BucketConcat([queue[0]], queue[1..], Sender(), stream);
    BucketUniform([queue[0]], Sender(), Sender()(queue[0]), stream);
  }

  lemma MessagesGrow<T>(inputs: Inputs<T>, stream: Stream, m: nat, n: nat)
    requires m <= n < |inputs(stream)|
    ensures Messages(inputs, stream, m, n + 1)
            == Messages(inputs, stream, m, n) + [Data(StreamItem(stream, inputs(stream)[n]))]
    ensures Messages(inputs, stream, m, n + 1)
            == [Data(StreamItem(stream, inputs(stream)[m]))] + Messages(inputs, stream, m + 1, n + 1)
  {
  }

  lemma PutKeepsInv<T>(inputs: Inputs<T>, maxBuffer: int, s: State<T>, from: Stream, stream: Stream)
    requires Enabled(inputs, maxBuffer, s, Put(from)) && StreamInv(inputs, s, stream)
    ensures StreamInv(inputs, Apply(inputs, maxBuffer, s, Put(from)), stream)
  {
    var n := s.PumpOf(from).put;
    if from == stream {
      MessagesGrow(inputs, stream, |Bucket(s.yielded, StreamOf(), stream)|, n);
    }
  }

  lemma CloseKeepsInv<T>(inputs: Inputs<T>, maxBuffer: int, s: State<T>, from: Stream, stream: Stream)
    requires Enabled(inputs, maxBuffer, s, Close(from)) && StreamInv(inputs, s, stream)
    ensures StreamInv(inputs, Apply(inputs, maxBuffer, s, Close(from)), stream)
  {
  }

  /** What follows the items taken: the next item, or the `Done` once every item put has been taken. */
  lemma NextSent<T>(inputs: Inputs<T>, stream: Stream, k: nat, n: nat, tail: seq<Message<T>>)
    requires k <= n <= |inputs(stream)| && (tail == [] || tail == [Done(stream)])
    requires Messages(inputs, stream, k, n) + tail != []
    ensures var sent := Messages(inputs, stream, k, n) + tail;
      if k < n then
        sent[0] == Data(StreamItem(stream, inputs(stream)[k])) && sent[1..] == Messages(inputs, stream, k + 1, n) + tail
      else
        tail == [Done(stream)] && sent == tail && sent[0] == Done(stream) && sent[1..] == []
  {
    if k < n {
      MessagesGrow(inputs, stream, k, n - 1);
    } else {
      assert Messages(inputs, stream, k, n) == [];
    }
  }

  /** Yielding the next item of a stream. */
  lemma TakenGrows<T>(inputs: Inputs<T>, yielded: seq<StreamItem<T>>, stream: Stream, k: nat)
    requires k < |inputs(stream)| && Bucket(yielded, StreamOf(), stream) == Prefix(inputs, stream, k)
    ensures Bucket(yielded + [StreamItem(stream, inputs(stream)[k])], StreamOf(), stream)
            == Prefix(inputs, stream, k + 1)
  {
    var item := StreamItem(stream, inputs(stream)[k]);
    BucketConcat(yielded, [item], StreamOf(), stream);
    BucketUniform([item], StreamOf(), stream, stream);
    assert Prefix(inputs, stream, k + 1) == Prefix(inputs, stream, k) + [item];
  }

  lemma GetOwn<T>(inputs: Inputs<T>, maxBuffer: int, s: State<T>, stream: Stream)
    requires Enabled(inputs, maxBuffer, s, Get) && StreamInv(inputs, s, stream)
    requires Sender()(s.queue[0]) == stream
    ensures StreamInv(inputs, Apply(inputs, maxBuffer, s, Get), stream)
  {
    var k, pump := |Bucket(s.yielded, StreamOf(), stream)|, s.PumpOf(stream);
    var tail := if pump.closed && stream !in s.done then [Done(stream)] else [];
    SentByHead(s.queue, stream);
    NextSent(inputs, stream, k, pump.put, tail);
    if k < pump.put {
      TakenGrows(inputs, s.yielded, stream, k);
    }
  }

  lemma OtherTaken<T>(yielded: seq<StreamItem<T>>, item: StreamItem<T>, stream: Stream)
    requires item.stream != stream
    ensures Bucket(yielded + [item], StreamOf(), stream) == Bucket(yielded, StreamOf(), stream)
  {
    BucketConcat(yielded, [item], StreamOf(), stream);
    BucketUniform([item], StreamOf(), item.stream, stream);
    NothingAdded(Bucket(yielded, StreamOf(), stream));
  }

  lemma GetOther<T>(inputs: Inputs<T>, maxBuffer: int, s: State<T>, stream: Stream)
    requires Enabled(inputs, maxBuffer, s, Get) && StreamInv(inputs, s, stream)
    requires Sender()(s.queue[0]) != stream
    ensures StreamInv(inputs, Apply(inputs, maxBuffer, s, Get), stream)
  {
    var s' := Apply(inputs, maxBuffer, s, Get);
    SentByHead(s.queue, stream);
    NothingAdded(Bucket(s.queue[1..], Sender(), stream));
    if s.queue[0].Data? {
      OtherTaken(s.yielded, s.queue[0].item, stream);
    }
    assert Bucket(s'.yielded, StreamOf(), stream) == Bucket(s.yielded, StreamOf(), stream);
    assert Bucket(s'.queue, Sender(), stream) == Bucket(s.queue, Sender(), stream);
    assert s'.PumpOf(stream) == s.PumpOf(stream) && (stream in s'.done <==> stream in s.done);
  }

  lemma GetKeepsInv<T>(inputs: Inputs<T>, maxBuffer: int, s: State<T>, stream: Stream)
    requires Enabled(inputs, maxBuffer, s, Get) && StreamInv(inputs, s, stream)
    ensures StreamInv(inputs, Apply(inputs, maxBuffer, s, Get), stream)
  {
    if Sender()(s.queue[0]) != stream {
      GetOther(inputs, maxBuffer, s, stream);
    } else {
      GetOwn(inputs, maxBuffer, s, stream);
    }
  }

  lemma StepKeepsInv<T>(inputs: Inputs<T>, maxBuffer: int, s: State<T>, step: Step)
    requires Inv(inputs, s) && Enabled(inputs, maxBuffer, s, step)
    ensures Inv(inputs, Apply(inputs, maxBuffer, s, step))
  {
    if step.Get? {
      GetKeepsInv(inputs, maxBuffer, s, NonTimeline);
      GetKeepsInv(inputs, maxBuffer, s, Timeline);
    } else if step.Put? {
      PutKeepsInv(inputs, maxBuffer, s, step.stream, NonTimeline);
      PutKeepsInv(inputs, maxBuffer, s, step.stream, Timeline);
    } else {
      CloseKeepsInv(inputs, maxBuffer, s, step.stream, NonTimeline);
      CloseKeepsInv(inputs, maxBuffer, s, step.stream, Timeline);
    }
  }

  lemma {:induction false} RunKeepsInv<T>(inputs: Inputs<T>, maxBuffer: int, from: State<T>, steps: seq<Step>,
                                          to: State<T>)
    requires Inv(inputs, from) && IsRun(inputs, maxBuffer, from, steps, to)
    ensures Inv(inputs, to)
    decreases |steps|
  {
    if steps != [] {
      StepKeepsInv(inputs, maxBuffer, from, steps[0]);
      RunKeepsInv(inputs, maxBuffer, Apply(inputs, maxBuffer, from, steps[0]), steps[1..], to);
    }
  }

  // ----- No deadlock, no infinite run -----

  /** The consumer takes a message if there is one; otherwise a stream that is not done sends its next one. */
  function SomeStep<T>(inputs: Inputs<T>, s: State<T>): Step {
    if s.queue != [] then Get
    else
      var stream := if NonTimeline in s.done then Timeline else NonTimeline;
      if s.PumpOf(stream).put < |inputs(stream)| then Put(stream) else Close(stream)
  }

  /** With any buffer bound, some step is enabled until both `Done` messages have been taken. */
  lemma Progress<T>(inputs: Inputs<T>, maxBuffer: int, s: State<T>)
    requires Inv(inputs, s) && !s.Finished()
    ensures Enabled(inputs, maxBuffer, s, SomeStep(inputs, s))
  {
    var stream := if NonTimeline in s.done then Timeline else NonTimeline;
    assert StreamInv(inputs, s, stream);
  }

  /** Messages still to be sent count twice, queued ones once. */
  function Measure<T>(inputs: Inputs<T>, s: State<T>): int {
    2 * (ToSend(inputs, s, NonTimeline) + ToSend(inputs, s, Timeline)) + |s.queue|
  }

  function ToSend<T>(inputs: Inputs<T>, s: State<T>, stream: Stream): int {
    |inputs(stream)| - s.PumpOf(stream).put + if s.PumpOf(stream).closed then 0 else 1
  }

  lemma StepDecreases<T>(inputs: Inputs<T>, maxBuffer: int, s: State<T>, step: Step)
    requires Enabled(inputs, maxBuffer, s, step)
    ensures Measure(inputs, Apply(inputs, maxBuffer, s, step)) < Measure(inputs, s)
  {
  }

  lemma {:induction false} RunsAreBounded<T>(inputs: Inputs<T>, maxBuffer: int, from: State<T>, steps: seq<Step>,
                                             to: State<T>)
    requires IsRun(inputs, maxBuffer, from, steps, to)
    ensures |steps| + Measure(inputs, to) <= Measure(inputs, from)
    decreases |steps|
  {
    if steps != [] {
      StepDecreases(inputs, maxBuffer, from, steps[0]);
      RunsAreBounded(inputs, maxBuffer, Apply(inputs, maxBuffer, from, steps[0]), steps[1..], to);
    }
  }

  // ----- The result -----

  /**
   * Every run of the two pumps and the consumer, whatever the schedule and the buffer bound, is finite,
   * can stop only when both streams are closed, and has then yielded an order-preserving merge: the
   * items of each stream, all of them, in their own order, and nothing else.
   */
  lemma MergeCorrect<T>(inputs: Inputs<T>, maxBuffer: int, steps: seq<Step>, s: State<T>)
    requires IsRun(inputs, maxBuffer, Start(), steps, s)
    ensures |steps| <= 2 * (|inputs(NonTimeline)| + |inputs(Timeline)| + 2)
    ensures (forall step :: !Enabled(inputs, maxBuffer, s, step)) <==> s.Finished()
    ensures s.Finished() ==>
      && Bucket(s.yielded, StreamOf(), NonTimeline) == Prefix(inputs, NonTimeline, |inputs(NonTimeline)|)
      && Bucket(s.yielded, StreamOf(), Timeline) == Prefix(inputs, Timeline, |inputs(Timeline)|)
  {
    StartInv(inputs);
    RunKeepsInv(inputs, maxBuffer, Start(), steps, s);
    RunsAreBounded(inputs, maxBuffer, Start(), steps, s);
    if !s.Finished() {
      Progress(inputs, maxBuffer, s);
    }
  }

  lemma StartInv<T>(inputs: Inputs<T>)
    ensures Inv(inputs, Start())
  {
  }

  // ----- The generator -----

  lemma {:induction false} RunAppend<T>(inputs: Inputs<T>, maxBuffer: int, from: State<T>, steps: seq<Step>,
                                        to: State<T>, step: Step)
    requires IsRun(inputs, maxBuffer, from, steps, to) && Enabled(inputs, maxBuffer, to, step)
    ensures IsRun(inputs, maxBuffer, from, steps + [step], Apply(inputs, maxBuffer, to, step))
    decreases |steps|
  {
    if steps == [] {
      assert [step][1..] == [];
    } else {
      RunAppend(inputs, maxBuffer, Apply(inputs, maxBuffer, from, steps[0]), steps[1..], to, step);
      assert (steps + [step])[1..] == steps[1..] + [step];
    }
  }

  /** Some run of the pumps and the consumer has yielded `items`, and has ended if `complete`. */
  ghost predicate Yields<T(!new)>(inputs: Inputs<T>, maxBuffer: int, items: seq<StreamItem<T>>, complete: bool) {
    exists steps, s ::
      IsRun(inputs, maxBuffer, Start(), steps, s) && s.yielded == items && (complete ==> s.Finished())
  }

  /**
   * `combine_streams`, for any schedule: take enabled steps until both streams are closed. A stream that
   * raises (`breaksOff`) may end the generator at any moment.
   */
  method Combine<T(!new)>(inputs: Inputs<T>, maxBuffer: int, breaksOff: bool) returns (items: seq<StreamItem<T>>)
    ensures Yields(inputs, maxBuffer, items, !breaksOff)
  {
    var s: State<T> := Start();
    ghost var steps: seq<Step> := [];
    StartInv(inputs);
    while !s.Finished()
      invariant Inv(inputs, s) && IsRun(inputs, maxBuffer, Start(), steps, s)
      decreases Measure(inputs, s)
    {
      var broken: bool := *;
      if breaksOff && broken {
        return s.yielded;
      }
      var step: Step := *;
      if !Enabled(inputs, maxBuffer, s, step) {
        step := SomeStep(inputs, s);
      }
      Progress(inputs, maxBuffer, s);
      StepKeepsInv(inputs, maxBuffer, s, step);
      StepDecreases(inputs, maxBuffer, s, step);
      RunAppend(inputs, maxBuffer, Start(), steps, s, step);
      s, steps := Apply(inputs, maxBuffer, s, step), steps + [step];
    }
    items := s.yielded;
  }

  /** A complete merge holds each stream's items, all of them, in their own order. */
  lemma YieldsMerge<T(!new)>(inputs: Inputs<T>, maxBuffer: int, items: seq<StreamItem<T>>, stream: Stream)
    requires Yields(inputs, maxBuffer, items, true)
    ensures Bucket(items, StreamOf(), stream) == Prefix(inputs, stream, |inputs(stream)|)
  {
    var steps, s :| IsRun(inputs, maxBuffer, Start(), steps, s) && s.yielded == items && s.Finished();
    MergeCorrect(inputs, maxBuffer, steps, s);
  }

  /** Complete or not, a merge yields only what its streams deliver. */
  lemma YieldsMembers<T(!new)>(inputs: Inputs<T>, maxBuffer: int, items: seq<StreamItem<T>>, item: StreamItem<T>)
    requires Yields(inputs, maxBuffer, items, false) && item in items
    ensures item.raw in inputs(item.stream)
  {
    var steps, s :| IsRun(inputs, maxBuffer, Start(), steps, s) && s.yielded == items;
    StartInv(inputs);
    RunKeepsInv(inputs, maxBuffer, Start(), steps, s);
    var own := Bucket(items, StreamOf(), item.stream);
    BucketCount(items, StreamOf(), item);
    assert item in multiset(own);
    var i :| 0 <= i < |own| && own[i] == item;
    assert StreamInv(inputs, s, item.stream);
    assert Prefix(inputs, item.stream, |own|)[i] == StreamItem(item.stream, inputs(item.stream)[i]);
  }
}
