/**
 * The steady-stream rate limiter and its telemetry (rate_limiter.py). Times are real numbers; a caller's
 * arrival is the clock reading under the lock.
 */
module RateLimiter {
  import opened Results
  import opened Sequences

  function Max(a: real, b: real): real { if a >= b then a else b }

  // ----- The slots a limiter hands out -----

  /** The slot of the n-th caller, from the slot before it. */
  function Slot(arrivals: seq<real>, interval: real, n: nat): real
    requires n < |arrivals|
  {
    if n == 0 then arrivals[0] else Max(arrivals[n], Slot(arrivals, interval, n - 1) + interval)
  }

  function Slots(arrivals: seq<real>, interval: real): seq<real> {
    seq(|arrivals|, n requires 0 <= n < |arrivals| => Slot(arrivals, interval, n))
  }

  lemma {:induction false} SlotPrefix(arrivals: seq<real>, more: seq<real>, interval: real, n: nat)
    requires n < |arrivals| && arrivals <= more
    ensures Slot(arrivals, interval, n) == Slot(more, interval, n)
  {
    if n > 0 {
      SlotPrefix(arrivals, more, interval, n - 1);
    }
  }

  lemma SlotsAppend(arrivals: seq<real>, now: real, interval: real)
    ensures var more := arrivals + [now];
      && Slots(more, interval) == Slots(arrivals, interval) + [Slot(more, interval, |arrivals|)]
      && Slot(more, interval, |arrivals|) ==
         if arrivals == [] then now else Max(now, Slots(arrivals, interval)[|arrivals| - 1] + interval)
  {
    var more := arrivals + [now];
    forall n | 0 <= n < |arrivals| ensures Slot(more, interval, n) == Slot(arrivals, interval, n) {
      SlotPrefix(arrivals, more, interval, n);
    }
  }

  /** `Limiter`; the ghost fields record every caller's arrival and slot. */
  class Limiter {
    const calls: nat
    const period: real
    const interval: real
    var nextAt: Option<real>
    ghost var arrivals: seq<real>
    ghost var slots: seq<real>

    ghost predicate Valid()
      reads this
    {
      && calls > 0 && period > 0.0 && interval == period / calls as real
      && slots == Slots(arrivals, interval)
      && nextAt == if slots == [] then None else Some(slots[|slots| - 1] + interval)
    }

    constructor (calls: nat, period: real)
      requires calls > 0 && period > 0.0
      ensures Valid() && this.calls == calls && this.period == period && arrivals == []
    {
      this.calls := calls;
      this.period := period;
      this.interval := period / calls as real;
      nextAt := None;
      arrivals := [];
      slots := [];
    }

    /** The locked part of `acquire`: take the next slot and say how long to sleep until it. */
    method Acquire(now: real) returns (delay: real)
      requires Valid()
      modifies this
      ensures Valid() && arrivals == old(arrivals) + [now]
      ensures slots == old(slots) + [now + delay] && delay >= 0.0
    {
      if nextAt.None? {
        nextAt := Some(now);
      }
      var scheduled := if nextAt.value >= now then nextAt.value else now;
      nextAt := Some(scheduled + interval);
      delay := scheduled - now;
      SlotsAppend(arrivals, now, interval);
      arrivals := arrivals + [now];
      slots := slots + [scheduled];
    }
  }

  // ----- What the slots are -----

  /** The n-th caller waits for the i-th caller's arrival and the intervals after it. */
  function Demand(arrivals: seq<real>, interval: real, n: nat, i: nat): real
    requires i <= n < |arrivals|
  {
    arrivals[i] + (n - i) as real * interval
  }

  /** A slot is the maximum of all demands up to its caller. */
  lemma {:induction false} SlotIsMaximum(arrivals: seq<real>, interval: real, n: nat)
    requires n < |arrivals|
    ensures forall i | 0 <= i <= n :: Demand(arrivals, interval, n, i) <= Slot(arrivals, interval, n)
    ensures exists i | 0 <= i <= n :: Demand(arrivals, interval, n, i) == Slot(arrivals, interval, n)
  {
    assert Demand(arrivals, interval, n, n) == arrivals[n];
    if n > 0 {
      SlotIsMaximum(arrivals, interval, n - 1);
      forall i | 0 <= i < n
        ensures Demand(arrivals, interval, n, i) == Demand(arrivals, interval, n - 1, i) + interval
      {
        OneMore(n - i, interval);
      }
      var i :| 0 <= i <= n - 1 && Demand(arrivals, interval, n - 1, i) == Slot(arrivals, interval, n - 1);
      assert Demand(arrivals, interval, n, i) == Slot(arrivals, interval, n - 1) + interval;
    }
  }

  lemma OneMore(k: int, interval: real)
    ensures k as real * interval == (k - 1) as real * interval + interval
  {
    assert k as real == (k - 1) as real + 1.0;
  }

  /** Nobody before arrival, and consecutive permits at least one interval apart. */
  ghost predicate Respects(schedule: seq<real>, arrivals: seq<real>, interval: real) {
    && |schedule| == |arrivals|
    && (forall n | 0 <= n < |arrivals| :: arrivals[n] <= schedule[n])
    && Spaced(schedule, interval)
  }

  ghost predicate Spaced(times: seq<real>, interval: real) {
    forall n | 0 < n < |times| :: times[n - 1] + interval <= times[n]
  }

  /** The slots are the earliest schedule that respects arrivals and spacing. */
  lemma SlotsEarliest(arrivals: seq<real>, interval: real, schedule: seq<real>)
    requires Respects(schedule, arrivals, interval)
    ensures Respects(Slots(arrivals, interval), arrivals, interval)
    ensures forall n | 0 <= n < |arrivals| :: Slots(arrivals, interval)[n] <= schedule[n]
  {
    forall n | 0 <= n < |arrivals| ensures Slot(arrivals, interval, n) <= schedule[n] {
      SlotEarliest(arrivals, interval, schedule, n);
    }
    SlotsSpaced(arrivals, interval);
  }

  lemma SlotsSpaced(arrivals: seq<real>, interval: real)
    ensures Respects(Slots(arrivals, interval), arrivals, interval)
  {
    var slots := Slots(arrivals, interval);
    forall n | 0 < n < |slots| ensures slots[n - 1] + interval <= slots[n] {
      assert slots[n] == Slot(arrivals, interval, n) && slots[n - 1] == Slot(arrivals, interval, n - 1);
    }
  }

  lemma {:induction false} SlotEarliest(arrivals: seq<real>, interval: real, schedule: seq<real>, n: nat)
    requires Respects(schedule, arrivals, interval) && n < |arrivals|
    ensures Slot(arrivals, interval, n) <= schedule[n]
  {
    if n > 0 {
      SlotEarliest(arrivals, interval, schedule, n - 1);
      assert schedule[n - 1] + interval <= schedule[n];
    }
  }

  // ----- How many permits a window holds -----

  /** A window of the given width, closed at one end and open at the other. */
  predicate InWindow(from: real, width: real, closedLeft: bool, t: real) {
    if closedLeft then from <= t < from + width else from < t <= from + width
  }

  function Window(from: real, width: real, closedLeft: bool): real -> bool {
    (t: real) => InWindow(from, width, closedLeft, t)
  }

  lemma {:induction false} FilterMonotone<T>(s: seq<T>, p: T -> bool, q: T -> bool)
    requires forall x <- s :: p(x) ==> q(x)
    ensures |Filter(s, p)| <= |Filter(s, q)|
  {
    if s != [] {
      assert s == s[..|s| - 1] + [s[|s| - 1]];
      FilterMonotone(s[..|s| - 1], p, q);
    }
  }

  lemma {:induction false} SpacedBefore(times: seq<real>, interval: real, i: nat)
    requires Spaced(times, interval) && interval > 0.0 && i < |times| - 1
    ensures times[i] + interval <= times[|times| - 1]
    decreases |times| - i
  {
    if i < |times| - 2 {
      SpacedBefore(times, interval, i + 1);
      assert times[i] + interval <= times[i + 1];
    }
  }

  /** The length of k intervals. */
  function Span(k: nat, interval: real): real {
    if k == 0 then 0.0 else Span(k - 1, interval) + interval
  }

  lemma {:induction false} SpanIsProduct(k: nat, interval: real)
    ensures Span(k, interval) == k as real * interval
  {
    if k > 0 {
      SpanIsProduct(k - 1, interval);
      OneMore(k, interval);
    }
  }

  /** Times spaced by an interval: a window of k intervals holds at most k of them. */
  lemma {:induction false} WindowHolds(times: seq<real>, interval: real, from: real, k: nat, closedLeft: bool)
    requires Spaced(times, interval) && interval > 0.0
    ensures |Filter(times, Window(from, Span(k, interval), closedLeft))| <= k
  {
    if times != [] {
      var n := |times| - 1;
      var init, last, window := times[..n], times[n], Window(from, Span(k, interval), closedLeft);
      if window(last) {
        var smaller := Window(from, Span(k - 1, interval), closedLeft);
        WindowHolds(init, interval, from, k - 1, closedLeft);
        forall t <- init ensures window(t) ==> smaller(t) {
          var i :| 0 <= i < n && init[i] == t;
          SpacedBefore(times, interval, i);
        }
        FilterMonotone(init, window, smaller);
      } else {
        WindowHolds(init, interval, from, k, closedLeft);
      }
    }
  }

  /** Any half-open window of one period, wherever it lies, holds at most `calls` slots. */
  lemma AtMostCallsPerPeriod(arrivals: seq<real>, calls: nat, period: real, from: real, closedLeft: bool)
    requires calls > 0 && period > 0.0
    ensures |Filter(Slots(arrivals, period / calls as real), Window(from, period, closedLeft))| <= calls
  {
    var interval := period / calls as real;
    SlotsSpaced(arrivals, interval);
    SpanIsProduct(calls, interval);
    WindowHolds(Slots(arrivals, interval), interval, from, calls, closedLeft);
  }

  // ----- Telemetry: a sliding window kept in a deque -----

  ghost predicate Rising(times: seq<real>) {
    forall i, j | 0 <= i < j < |times| :: times[i] <= times[j]
  }

  /** The times in (now - period, now]. */
  function Recent(times: seq<real>, now: real, period: real): seq<real> {
    Filter(times, Window(now - period, period, false))
  }

  lemma {:induction false} FilterDropFirst<T>(s: seq<T>, p: T -> bool)
    requires s != [] && !p(s[0])
    ensures Filter(s[1..], p) == Filter(s, p)
  {
    if |s| > 1 {
      var init := s[..|s| - 1];
      FilterDropFirst(init, p);
      assert s[1..][..|s| - 2] == init[1..];
    }
  }

  lemma {:induction false} FilterRising(times: seq<real>, p: real -> bool)
    requires Rising(times)
    ensures Rising(Filter(times, p)) && forall t <- Filter(times, p) :: t in times
  {
    if times != [] {
      var init, last := times[..|times| - 1], times[|times| - 1];
      assert times == init + [last];
      FilterRising(init, p);
      forall t <- Filter(init, p) ensures t <= last {
        var i :| 0 <= i < |init| && init[i] == t;
      }
      RisingAppend(Filter(init, p), last);
    }
  }

  lemma RisingAppend(times: seq<real>, now: real)
    requires Rising(times) && forall t <- times :: t <= now
    ensures Rising(times + [now]) && forall t <- times + [now] :: t <= now
  {
    var all := times + [now];
    forall i, j | 0 <= i < j < |all| ensures all[i] <= all[j] {
      assert all[i] in times;
    }
  }

  lemma RisingRest(times: seq<real>, now: real)
    requires times != [] && Rising(times) && forall t <- times :: t <= now
    ensures Rising(times[1..]) && forall t <- times[1..] :: t <= now
  {
    forall t <- times[1..] ensures t in times {
    }
  }

  /** Popping the head while it is too old leaves the times in the window. */
  method PopOld(times: seq<real>, now: real, period: real) returns (kept: seq<real>)
    requires Rising(times) && forall t <- times :: t <= now
    ensures kept == Recent(times, now, period)
  {
    kept := times;
    var cutoff := now - period;
    ghost var window := Window(now - period, period, false);
    while kept != [] && kept[0] <= cutoff
      invariant Rising(kept) && (forall t <- kept :: t <= now)
      invariant Filter(kept, window) == Filter(times, window)
      decreases |kept|
    {
      FilterDropFirst(kept, window);
      RisingRest(kept, now);
      kept := kept[1..];
    }
    FilterAll(kept, window);
  }

  /** What `Recent` keeps at a later time follows from what it kept before. */
  lemma RecentLater(times: seq<real>, before: real, now: real, period: real)
    requires before <= now && forall t <- times :: t <= before
    ensures Recent(times + [now], now, period) == Recent(Recent(times, before, period) + [now], now, period)
  {
    var old', new' := Window(before - period, period, false), Window(now - period, period, false);
    FilterConcat(times, [now], new');
    FilterConcat(Filter(times, old'), [now], new');
    FilterTwice(times, old', new');
  }

  /** `TelemetryLimiter`; the ghost field records every permit time. */
  class Telemetry {
    const period: real
    var times: seq<real>
    ghost var recorded: seq<real>

    ghost predicate Valid()
      reads this
    {
      && period > 0.0 && Rising(recorded)
      && (recorded == [] ==> times == [])
      && (recorded != [] ==> times == Recent(recorded, recorded[|recorded| - 1], period))
    }

    constructor (period: real)
      requires period > 0.0
      ensures Valid() && recorded == [] && this.period == period
    {
      this.period := period;
      times := [];
      recorded := [];
    }

    /** `_record_and_export`: the deque is the sliding window of all permit times, the rate its length per period. */
    method RecordAndExport(now: real) returns (rate: real)
      requires Valid() && (recorded != [] ==> recorded[|recorded| - 1] <= now)
      modifies this
      ensures Valid() && recorded == old(recorded) + [now]
      ensures times == Recent(recorded, now, period)
      ensures rate == |times| as real / period
    {
      if recorded != [] {
        var last := recorded[|recorded| - 1];
        FilterRising(recorded, Window(last - period, period, false));
        RecentLater(recorded, last, now, period);
      }
      RisingAppend(recorded, now);
      RisingAppend(times, now);
      times := PopOld(times + [now], now, period);
      recorded := recorded + [now];
      rate := |times| as real / period;
    }
  }

  /** When every permit is recorded at its slot, the exported rate never exceeds calls per period. */
  lemma RateWithinLimit(arrivals: seq<real>, calls: nat, period: real, now: real)
    requires calls > 0 && period > 0.0
    ensures |Recent(Slots(arrivals, period / calls as real), now, period)| as real / period <= calls as real / period
  {
    AtMostCallsPerPeriod(arrivals, calls, period, now - period, false);
    var n := |Recent(Slots(arrivals, period / calls as real), now, period)|;
    assert n as real <= calls as real;
  }

  // ----- Debug metrics: permits counted in aligned periods -----

  /** The time the whole periods in `elapsed` take. */
  function WholePeriods(elapsed: real, period: real): real
    requires period > 0.0
  {
    (elapsed / period).Floor as real * period
  }

  /** The start of the period that holds `now`, among the periods that follow one another from `first`. */
  function PeriodStart(first: real, period: real, now: real): real
    requires period > 0.0
  {
    first + WholePeriods(now - first, period)
  }

  predicate IsSince(start: real, t: real) {
    start <= t
  }

  function Since(start: real): real -> bool {
    (t: real) => IsSince(start, t)
  }

  lemma FractionOf(y: real, period: real, v: real)
    requires period > 0.0 && v == y * period
    ensures 0.0 <= v < period ==> 0.0 <= y < 1.0
    ensures 0.0 <= y < 1.0 ==> 0.0 <= v < period
  {
    if y < 0.0 {
      assert y * period < 0.0;
    } else if y >= 1.0 {
      assert (y - 1.0) * period >= 0.0;
    } else {
      assert (1.0 - y) * period > 0.0;
    }
  }

  lemma Remainder(x: real, period: real, whole: real)
    requires period > 0.0
    ensures x - whole * period == (x / period - whole) * period
  {
  }

  lemma FloorUnique(q: real, k: int)
    requires 0.0 <= q - k as real < 1.0
    ensures q.Floor == k
  {
  }

  lemma FloorIs(x: real, period: real, k: int)
    requires period > 0.0 && 0.0 <= x - k as real * period < period
    ensures WholePeriods(x, period) == k as real * period
  {
    Remainder(x, period, k as real);
    FractionOf(x / period - k as real, period, x - k as real * period);
    FloorUnique(x / period, k);
  }

  lemma FloorBounds(x: real, period: real)
    requires period > 0.0
    ensures 0.0 <= x - WholePeriods(x, period) < period
  {
    var whole := (x / period).Floor as real;
    Remainder(x, period, whole);
    FractionOf(x / period - whole, period, x - whole * period);
  }

  lemma AtLeastOne(y: real, period: real)
    requires period > 0.0
    ensures y >= 1.0 <==> y * period >= period
  {
    if y >= 1.0 {
      assert (y - 1.0) * period >= 0.0;
    } else {
      assert (1.0 - y) * period > 0.0;
    }
  }

  lemma FullPeriod(elapsed: real, period: real)
    requires period > 0.0 && elapsed >= period
    ensures WholePeriods(elapsed, period) >= period
  {
    var q := elapsed / period;
    assert q * period == elapsed;
    AtLeastOne(q, period);
    AtLeastOne(q.Floor as real, period);
    assert WholePeriods(elapsed, period) == q.Floor as real * period;
  }

  lemma Shift(first: real, period: real, j: int, k: int)
    ensures first + j as real * period + k as real * period == first + (j + k) as real * period
  {
    assert (j + k) as real == j as real + k as real;
  }

  /** Moving a period start on by the whole periods elapsed gives the start of the current period. */
  lemma PeriodAdvances(first: real, period: real, before: real, now: real)
    requires period > 0.0
    ensures var start := PeriodStart(first, period, before);
      PeriodStart(first, period, now) == start + WholePeriods(now - start, period)
    ensures 0.0 <= now - PeriodStart(first, period, now) < period
  {
    var start := PeriodStart(first, period, before);
    var j, k := ((before - first) / period).Floor, ((now - start) / period).Floor;
    FloorBounds(now - start, period);
    Shift(first, period, j, k);
    FloorIs(now - first, period, j + k);
  }

  /** The counters `record` keeps, after the permit times so far. */
  ghost predicate Counts(recorded: seq<real>, period: real, periodStart: real, permits: nat)
    requires recorded != [] && period > 0.0
  {
    && periodStart == PeriodStart(recorded[0], period, recorded[|recorded| - 1])
    && permits == |Filter(recorded, Since(periodStart))|
  }

  lemma CountsFirst(period: real, now: real)
    requires period > 0.0
    ensures Counts([now], period, now, 1)
  {
    FloorIs(0.0, period, 0);
    assert Filter([now], Since(now)) == [now];
  }

  lemma CountsNext(recorded: seq<real>, period: real, periodStart: real, permits: nat, now: real)
    requires recorded != [] && period > 0.0 && Rising(recorded) && recorded[|recorded| - 1] <= now
    requires Counts(recorded, period, periodStart, permits)
    ensures now - periodStart < period ==> Counts(recorded + [now], period, periodStart, permits + 1)
    ensures now - periodStart >= period ==>
              Counts(recorded + [now], period, periodStart + WholePeriods(now - periodStart, period), 1)
  {
    var first, last, all := recorded[0], recorded[|recorded| - 1], recorded + [now];
    PeriodAdvances(first, period, last, now);
    PeriodAdvances(first, period, last, last);
    if now - periodStart < period {
      FloorIs(now - periodStart, period, 0);
      assert PeriodStart(first, period, now) == periodStart;
      assert all[..|recorded|] == recorded;
    } else {
      FullPeriod(now - periodStart, period);
      var start := periodStart + WholePeriods(now - periodStart, period);
      forall t <- recorded ensures !IsSince(start, t) {
        var i :| 0 <= i < |recorded| && recorded[i] == t;
        assert i < |recorded| - 1 ==> recorded[i] <= recorded[|recorded| - 1];
      }
      FilterNone(recorded, Since(start));
      assert all[..|recorded|] == recorded;
    }
  }

  /** `_LimiterDebugMetrics`; the ghost field records every permit time. */
  class DebugMetrics {
    const period: real
    var periodStart: Option<real>
    var permits: nat
    ghost var recorded: seq<real>

    ghost predicate Valid()
      reads this
    {
      && period > 0.0 && Rising(recorded)
      && (recorded == [] ==> periodStart == None && permits == 0)
      && (recorded != [] ==> periodStart.Some? && Counts(recorded, period, periodStart.value, permits))
    }

    constructor (period: real)
      requires period > 0.0
      ensures Valid() && recorded == [] && this.period == period
    {
      this.period := period;
      periodStart := None;
      permits := 0;
      recorded := [];
    }

    /**
     * `record`: the permits counted are exactly those since the start of the period that holds `now`, where
     * periods follow one another from the first permit.
     */
    method Record(now: real) returns (count: nat, elapsed: real)
      requires Valid() && (recorded != [] ==> recorded[|recorded| - 1] <= now)
      modifies this
      ensures Valid() && recorded == old(recorded) + [now]
      ensures count == |Filter(recorded, Since(PeriodStart(recorded[0], period, now)))|
      ensures elapsed == now - PeriodStart(recorded[0], period, now) && 0.0 <= elapsed < period
    {
      ghost var before := recorded;
      recorded := recorded + [now];
      RisingAppend(before, now);
      if before == [] {
        CountsFirst(period, now);
      } else {
        CountsNext(before, period, periodStart.value, permits, now);
      }
      PeriodAdvances(recorded[0], period, now, now);
      if periodStart.None? {
        periodStart := Some(now);
      }
      elapsed := now - periodStart.value;
      if elapsed >= period {
        periodStart := Some(periodStart.value + WholePeriods(elapsed, period));
        permits := 0;
        elapsed := now - periodStart.value;
      }
      permits := permits + 1;
      count := permits;
    }
  }
}
