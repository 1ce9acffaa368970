/**
 * Finding the last league page and expanding it into page jobs (subelite_players.py): the binary search
 * `probe`, the batches of 64 probes, and the list of pages to fetch.
 */
module SubElitePages {
  import opened Results
  import opened Sequences
  import opened Spreading

  const LEAGUE_PAGE_UPPER_BOUND: nat := 1024
  const MAX_IN_FLIGHT: nat := 64

  /** The answer to one page request: a list, something else, a 404, or any other failure. */
  datatype Answer = Page(nonEmpty: bool) | NotAList | Missing | Failed

  datatype ProbeError = UnexpectedPayload(page: nat) | RequestFailed(page: nat)

  type Server = nat -> Answer

  // ----- The search -----

  /** The result of the search between a page taken as present and one taken as absent. */
  function Search(server: Server, low: nat, high: nat): Result<nat, ProbeError>
    requires low < high
    decreases high - low
  {
    if low + 1 >= high then Ok(low)
    else
      var mid := (low + high) / 2;
      match server(mid)
      case Page(nonEmpty) => if nonEmpty then Search(server, mid, high) else Search(server, low, mid)
      case Missing => Ok(low)
      case NotAList => Err(UnexpectedPayload(mid))
      case Failed => Err(RequestFailed(mid))
  }

  /** The pages the search requests, in order. */
  function Requests(server: Server, low: nat, high: nat): seq<nat>
    requires low < high
    decreases high - low
  {
    if low + 1 >= high then []
    else
      var mid := (low + high) / 2;
      match server(mid)
      case Page(nonEmpty) => [mid] + if nonEmpty then Requests(server, mid, high) else Requests(server, low, mid)
      case _ => [mid]
  }

  function BoundOf(server: Server): Result<nat, ProbeError> {
    Search(server, 1, LEAGUE_PAGE_UPPER_BOUND + 1)
  }

  function ProbeRequests(server: Server): seq<nat> {
    Requests(server, 1, LEAGUE_PAGE_UPPER_BOUND + 1)
  }

  /** `probe`. */
  method Probe(server: Server) returns (bound: Result<nat, ProbeError>, ghost requested: seq<nat>)
    ensures bound == BoundOf(server) && requested == ProbeRequests(server)
  {
    var low: nat, high: nat := 1, LEAGUE_PAGE_UPPER_BOUND + 1;
    requested := [];
    while low + 1 < high
      invariant low < high && Search(server, low, high) == BoundOf(server)
      invariant requested + Requests(server, low, high) == ProbeRequests(server)
      decreases high - low
    {
      var mid := (low + high) / 2;
      ghost var rest := Requests(server, low, high);
      assert requested + rest == requested + [mid] + rest[1..];
      requested := requested + [mid];
      match server(mid)
      case Page(nonEmpty) =>
        if nonEmpty {
          low := mid;
        } else {
          high := mid;
        }
      case Missing =>
        return Ok(low), requested;
      case NotAList =>
        return Err(UnexpectedPayload(mid)), requested;
      case Failed =>
        return Err(RequestFailed(mid)), requested;
    }
    bound := Ok(low);
  }

  function Pow2(k: nat): (p: nat)
    ensures p > 0
  {
    if k == 0 then 1 else 2 * Pow2(k - 1)
  }

  /** Every one of the pages is answered by a list. */
  predicate AllLists(server: Server, pages: seq<nat>) {
    pages == [] || (server(pages[0]).Page? && AllLists(server, pages[1..]))
  }

  /** One step of the search on an interval with the middle `mid`. */
  lemma Halve(server: Server, low: nat, mid: nat, high: nat)
    requires low < mid && high - mid == mid - low
    ensures server(mid) == Page(true) ==>
              && Search(server, low, high) == Search(server, mid, high)
              && Requests(server, low, high) == [mid] + Requests(server, mid, high)
    ensures server(mid) == Page(false) ==>
              && Search(server, low, high) == Search(server, low, mid)
              && Requests(server, low, high) == [mid] + Requests(server, low, mid)
    ensures server(mid) == Missing ==> Search(server, low, high) == Ok(low)
    ensures server(mid) == NotAList ==> Search(server, low, high) == Err(UnexpectedPayload(mid))
    ensures server(mid) == Failed ==> Search(server, low, high) == Err(RequestFailed(mid))
    ensures !server(mid).Page? ==> Requests(server, low, high) == [mid]
  {
    assert (low + high) / 2 == mid;
  }

  /** The search on 2^k pages, told by the exponent. */
  function Halving(server: Server, low: nat, k: nat): Result<nat, ProbeError>
    decreases k
  {
    if k == 0 then Ok(low)
    else
      var mid := low + Pow2(k - 1);
      match server(mid)
      case Page(nonEmpty) => Halving(server, if nonEmpty then mid else low, k - 1)
      case Missing => Ok(low)
      case NotAList => Err(UnexpectedPayload(mid))
      case Failed => Err(RequestFailed(mid))
  }

  function HalvingRequests(server: Server, low: nat, k: nat): seq<nat>
    decreases k
  {
    if k == 0 then []
    else
      var mid := low + Pow2(k - 1);
      match server(mid)
      case Page(nonEmpty) => [mid] + HalvingRequests(server, if nonEmpty then mid else low, k - 1)
      case _ => [mid]
  }

  lemma {:induction false} SearchIsHalving(server: Server, low: nat, high: nat, k: nat)
    requires high == low + Pow2(k)
    ensures Search(server, low, high) == Halving(server, low, k)
    ensures Requests(server, low, high) == HalvingRequests(server, low, k)
    decreases k
  {
    if k > 0 {
      var mid := low + Pow2(k - 1);
      Halve(server, low, mid, high);
      if server(mid) == Page(true) {
        SearchIsHalving(server, mid, high, k - 1);
      } else if server(mid) == Page(false) {
        SearchIsHalving(server, low, mid, k - 1);
      }
    }
  }

  /** Without a 404 or an error the interval halves until one page is left. */
  lemma {:induction false} HalvingCounts(server: Server, low: nat, k: nat)
    ensures |HalvingRequests(server, low, k)| <= k
    ensures AllLists(server, HalvingRequests(server, low, k)) ==>
              |HalvingRequests(server, low, k)| == k && Halving(server, low, k).Ok?
    decreases k
  {
    if k > 0 {
      var mid := low + Pow2(k - 1);
      if server(mid).Page? {
        var next := if server(mid).nonEmpty then mid else low;
        HalvingCounts(server, next, k - 1);
      }
    }
  }

  /** A probe sends at most ten requests, and exactly ten when every answer is a list. */
  lemma TenRequests(server: Server)
    ensures |ProbeRequests(server)| <= 10
    ensures AllLists(server, ProbeRequests(server)) ==> |ProbeRequests(server)| == 10 && BoundOf(server).Ok?
  {
    SearchIsHalving(server, 1, LEAGUE_PAGE_UPPER_BOUND + 1, 10);
    HalvingCounts(server, 1, 10);
  }

  /** The result is the starting page or a page the search requested and saw non-empty. */
  lemma {:induction false} SearchSeen(server: Server, low: nat, high: nat)
    requires low < high
    ensures Search(server, low, high).Ok? ==>
              var v := Search(server, low, high).value;
              low <= v < high && (v == low || (v in Requests(server, low, high) && server(v) == Page(true)))
    ensures Search(server, low, high).Err? ==> exists p ::
              p in Requests(server, low, high) && (server(p).NotAList? || server(p).Failed?)
    decreases high - low
  {
    if low + 1 < high {
      var mid := (low + high) / 2;
      if server(mid) == Page(true) {
        SearchSeen(server, mid, high);
      } else if server(mid) == Page(false) {
        SearchSeen(server, low, mid);
      } else {
        assert mid in Requests(server, low, high);
      }
    }
  }

  /** No page after `n` has entries. */
  ghost predicate NothingAfter(server: Server, n: nat) {
    forall p | p > n :: server(p) != Page(true)
  }

  /** However the probe ends, it never overshoots the last non-empty page. */
  lemma NeverOvershoots(server: Server, n: nat)
    requires NothingAfter(server, n) && BoundOf(server).Ok?
    ensures 1 <= BoundOf(server).value <= LEAGUE_PAGE_UPPER_BOUND
    ensures BoundOf(server).value == 1 || BoundOf(server).value <= n
  {
    SearchSeen(server, 1, LEAGUE_PAGE_UPPER_BOUND + 1);
  }

  /** Between the two ends the non-empty pages are those up to `n`, and every answer is a list. */
  ghost predicate PrefixOfLists(server: Server, low: nat, high: nat, n: nat) {
    forall p | low < p < high :: server(p) == Page(p <= n)
  }

  lemma {:induction false} SearchFinds(server: Server, low: nat, high: nat, n: nat)
    requires low < high && n < high && PrefixOfLists(server, low, high, n)
    ensures Search(server, low, high) == Ok(if n < low then low else n)
    ensures AllLists(server, Requests(server, low, high))
    decreases high - low
  {
    if low + 1 < high {
      var mid := (low + high) / 2;
      if mid <= n {
        SearchFinds(server, mid, high, n);
      } else {
        SearchFinds(server, low, mid, n);
      }
    }
  }

  /** Without 404 answers the probe finds the last non-empty page, or 1 if there is none, in ten requests. */
  lemma ProbeFindsLastPage(server: Server, n: nat)
    requires n <= LEAGUE_PAGE_UPPER_BOUND && PrefixOfLists(server, 1, LEAGUE_PAGE_UPPER_BOUND + 1, n)
    ensures BoundOf(server) == Ok(if n == 0 then 1 else n)
    ensures |ProbeRequests(server)| == 10
  {
    SearchFinds(server, 1, LEAGUE_PAGE_UPPER_BOUND + 1, n);
    TenRequests(server);
  }

  // ----- A server that answers 404 past the last page -----

  ghost predicate PrefixThenMissing(server: Server, low: nat, high: nat, n: nat) {
    forall p | low < p < high :: server(p) == if p <= n then Page(true) else Missing
  }

  ghost predicate IsPow2(x: nat) {
    exists j: nat :: Pow2(j) == x
  }

  lemma {:induction false} Pow2Between(j: nat, k: nat)
    requires Pow2(k) < Pow2(j) < 2 * Pow2(k)
    ensures false
  {
    if k > 0 && j > 0 {
      Pow2Between(j - 1, k - 1);
    }
  }

  lemma {:induction false} HalvingStopsAtMissing(server: Server, low: nat, k: nat, n: nat)
    requires low <= n < low + Pow2(k) && PrefixThenMissing(server, low, low + Pow2(k), n)
    ensures Halving(server, low, k).Ok?
    ensures Halving(server, low, k).value == n <==> n == low || IsPow2(low + Pow2(k) - n)
    decreases k
  {
    if k > 0 {
      var mid := low + Pow2(k - 1);
      if mid <= n {
        HalvingStopsAtMissing(server, mid, k - 1, n);
        assert n == mid ==> Pow2(k - 1) == low + Pow2(k) - n;
      } else if n > low {
        NotPow2(low + Pow2(k) - n, k - 1);
      }
    }
  }

  lemma NotPow2(x: nat, k: nat)
    requires Pow2(k) < x < 2 * Pow2(k)
    ensures !IsPow2(x)
  {
    forall j: nat ensures Pow2(j) != x {
      if Pow2(j) == x {
        Pow2Between(j, k);
      }
    }
  }

  /**
   * When pages past the last one are answered by 404, the probe finds the last page `n` exactly when there
   * is at most one page or 1025 - n is a power of two; otherwise it returns a smaller page.
   */
  lemma MissingPagesUnderestimate(server: Server, n: nat)
    requires n <= LEAGUE_PAGE_UPPER_BOUND && PrefixThenMissing(server, 1, LEAGUE_PAGE_UPPER_BOUND + 1, n)
    ensures BoundOf(server).Ok?
    ensures n > 0 ==> (BoundOf(server) == Ok(n) <==> IsPow2(LEAGUE_PAGE_UPPER_BOUND + 1 - n))
    ensures n == 0 ==> BoundOf(server) == Ok(1)
  {
    if n > 0 {
      SearchIsHalving(server, 1, LEAGUE_PAGE_UPPER_BOUND + 1, 10);
      HalvingStopsAtMissing(server, 1, 10, n);
      assert n == 1 ==> Pow2(10) == LEAGUE_PAGE_UPPER_BOUND + 1 - n;
    }
  }

  /** For instance 600 pages followed by 404 answers look like 513, after two requests. */
  lemma SixHundredPagesLookLikeFewer(server: Server)
    requires PrefixThenMissing(server, 1, LEAGUE_PAGE_UPPER_BOUND + 1, 600)
    ensures BoundOf(server) == Ok(513) && ProbeRequests(server) == [513, 769]
  {
    Halve(server, 1, 513, 1025);
    Halve(server, 513, 769, 1025);
    assert server(513) == Page(true) && server(769) == Missing;
  }

  // ----- From bounds to page jobs -----

  datatype PageKey = PageKey(region: string, queue: string, tier: string, division: string)

  datatype PageBound = PageBound(key: PageKey, last: nat)

  datatype PageJob = PageJob(key: PageKey, page: nat)

  type Api = PageKey -> Server

  function RegionOf(key: PageKey): string { key.region }

  function JobRegion(job: PageJob): string { job.key.region }

  function KeyInRegion(region: string): PageKey -> bool { (key: PageKey) => key.region == region }

  function JobInRegion(region: string): PageJob -> bool { (job: PageJob) => job.key.region == region }

  lemma {:induction false} BucketIsFilter<P, K>(items: seq<P>, key: P -> K, k: K, p: P -> bool)
    requires forall x <- items :: p(x) <==> key(x) == k
    ensures Bucket(items, key, k) == Filter(items, p)
  {
    if items != [] {
      assert items == items[..|items| - 1] + [items[|items| - 1]];
      BucketIsFilter(items[..|items| - 1], key, k, p);
    }
  }

  /** Spreading the keys keeps the order of the keys of each region. */
  lemma RegionOrderKept(work: seq<PageKey>, region: string)
    ensures Filter(Spread(work, RegionOf), KeyInRegion(region)) == Filter(work, KeyInRegion(region))
  {
    SpreadKeepsKeyOrder(work, RegionOf, region);
    BucketIsFilter(work, RegionOf, region, KeyInRegion(region));
    BucketIsFilter(Spread(work, RegionOf), RegionOf, region, KeyInRegion(region));
  }

  /** `chunked`: consecutive chunks of `n`, the last one possibly shorter. */
  method Chunked<T>(s: seq<T>, n: nat) returns (chunks: seq<seq<T>>)
    ensures n == 0 ==> chunks == []
    ensures n > 0 ==> Flat(chunks) == s
    ensures forall c <- chunks :: 0 < |c| <= n
    ensures forall i | 0 <= i < |chunks| - 1 :: |chunks[i]| == n
  {
    chunks := [];
    var taken := 0;
    while true
      invariant taken <= |s| && Flat(chunks) == s[..taken]
      invariant (forall c <- chunks :: |c| == n > 0) || (taken == |s| && n > 0)
      invariant (forall c <- chunks :: 0 < |c| <= n) && forall i | 0 <= i < |chunks| - 1 :: |chunks[i]| == n
      decreases |s| - taken
    {
      var end := if taken + n <= |s| then taken + n else |s|;
      var batch := s[taken..end];
      if batch == [] {
        break;
      }
      assert (chunks + [batch])[..|chunks|] == chunks;
      assert s[..taken] + batch == s[..end];
      chunks := chunks + [batch];
      taken := end;
    }
    assert s[..|s|] == s;
  }

  /** The bounds of the keys whose probe succeeds. */
  function BoundsOf(api: Api, work: seq<PageKey>): seq<PageBound> {
    if work == [] then []
    else
      var rest, key := BoundsOf(api, work[..|work| - 1]), work[|work| - 1];
      if BoundOf(api(key)).Ok? then rest + [PageBound(key, BoundOf(api(key)).value)] else rest
  }

  lemma {:induction false} BoundsConcat(api: Api, a: seq<PageKey>, b: seq<PageKey>)
    ensures BoundsOf(api, a + b) == BoundsOf(api, a) + BoundsOf(api, b)
  {
    if b == [] {
      assert a + b == a;
    } else {
      assert (a + b)[..|a + b| - 1] == a + b[..|b| - 1];
      BoundsConcat(api, a, b[..|b| - 1]);
    }
  }

  lemma {:induction false} BoundsMembers(api: Api, work: seq<PageKey>, b: PageBound)
    ensures b in BoundsOf(api, work) <==> b.key in work && BoundOf(api(b.key)) == Ok(b.last)
  {
    if work != [] {
      assert work == work[..|work| - 1] + [work[|work| - 1]];
      BoundsMembers(api, work[..|work| - 1], b);
    }
  }

  /** One batch of probes; a failed probe is left out. */
  method ProbeBatch(api: Api, batch: seq<PageKey>) returns (results: seq<PageBound>)
    ensures results == BoundsOf(api, batch)
  {
    results := [];
    for i := 0 to |batch|
      invariant results == BoundsOf(api, batch[..i])
    {
      assert batch[..i + 1][..i] == batch[..i];
      ghost var requested;
      var bound;
      bound, requested := Probe(api(batch[i]));
      if bound.Ok? {
        results := results + [PageBound(batch[i], bound.value)];
      }
    }
    assert batch[..|batch|] == batch;
  }

  /** `discover_page_bounds`: probe the keys, spread over regions, in batches. */
  method DiscoverPageBounds(api: Api, work: seq<PageKey>) returns (results: seq<PageBound>)
    ensures results == BoundsOf(api, Spread(work, RegionOf))
  {
    var spreadWork := Spreading.Spreading(work, RegionOf);
    var batches := Chunked(spreadWork, MAX_IN_FLIGHT);
    results := [];
    for i := 0 to |batches|
      invariant results == BoundsOf(api, Flat(batches[..i]))
    {
      assert batches[..i + 1][..i] == batches[..i];
      var probed := ProbeBatch(api, batches[i]);
      BoundsConcat(api, Flat(batches[..i]), batches[i]);
      results := results + probed;
    }
    assert batches[..|batches|] == batches;
  }

  function Pages(key: PageKey, last: nat): seq<PageJob> {
    seq(last, i requires 0 <= i < last => PageJob(key, i + 1))
  }

  function PageJobs(bounds: seq<PageBound>): seq<PageJob> {
    if bounds == [] then []
    else PageJobs(bounds[..|bounds| - 1]) + Pages(bounds[|bounds| - 1].key, bounds[|bounds| - 1].last)
  }

  method ExpandPages(bounds: seq<PageBound>) returns (jobs: seq<PageJob>)
    ensures jobs == PageJobs(bounds)
  {
    jobs := [];
    for i := 0 to |bounds|
      invariant jobs == PageJobs(bounds[..i])
    {
      assert bounds[..i + 1][..i] == bounds[..i];
      var key, last := bounds[i].key, bounds[i].last;
      ghost var before := jobs;
      assert before + Pages(key, 0) == before;
      for page := 1 to last + 1
        invariant jobs == before + Pages(key, page - 1)
      {
        assert Pages(key, page) == Pages(key, page - 1) + [PageJob(key, page)];
        jobs := jobs + [PageJob(key, page)];
      }
    }
    assert bounds[..|bounds|] == bounds;
  }

  lemma {:induction false} JobsMembers(bounds: seq<PageBound>, job: PageJob)
    ensures job in PageJobs(bounds) <==> exists b :: b in bounds && b.key == job.key && 1 <= job.page <= b.last
  {
    if bounds != [] {
      var init, b := bounds[..|bounds| - 1], bounds[|bounds| - 1];
      assert bounds == init + [b];
      JobsMembers(init, job);
      if b.key == job.key && 1 <= job.page <= b.last {
        assert Pages(b.key, b.last)[job.page - 1] == job;
      }
    }
  }

  lemma {:induction false} JobsDistinct(api: Api, work: seq<PageKey>)
    requires Distinct(work)
    ensures Distinct(PageJobs(BoundsOf(api, work)))
  {
    if work != [] {
      var init, key := work[..|work| - 1], work[|work| - 1];
      JobsDistinct(api, init);
      if BoundOf(api(key)).Ok? {
        var before, pages := PageJobs(BoundsOf(api, init)), Pages(key, BoundOf(api(key)).value);
        var bounds := BoundsOf(api, work);
        assert bounds[..|bounds| - 1] == BoundsOf(api, init);
        forall job <- before ensures job.key in init {
          JobsMembers(BoundsOf(api, init), job);
          var b :| b in BoundsOf(api, init) && b.key == job.key;
          BoundsMembers(api, init, b);
        }
        DistinctConcat(before, pages);
      }
    }
  }

  lemma DistinctConcat<T>(a: seq<T>, b: seq<T>)
    requires Distinct(a) && Distinct(b) && forall x <- a :: x !in b
    ensures Distinct(a + b)
  {
    var all := a + b;
    forall i, j | 0 <= i < j < |all| ensures all[i] != all[j] {
      if i < |a| <= j {
        assert all[i] in a && all[j] in b;
      }
    }
  }

  /**
   * The requests of `stream_sub_elite_players`, batch by batch: a permutation of the page jobs that keeps
   * the order within each region.
   */
  method PlanRequests(api: Api, work: seq<PageKey>) returns (batches: seq<seq<PageJob>>, ghost jobs: seq<PageJob>)
    ensures jobs == PageJobs(BoundsOf(api, Spread(work, RegionOf)))
    ensures multiset(Flat(batches)) == multiset(jobs)
    ensures forall region :: Filter(Flat(batches), JobInRegion(region)) == Filter(jobs, JobInRegion(region))
    ensures forall batch <- batches :: 0 < |batch| <= 64
  {
    var bounds := DiscoverPageBounds(api, work);
    var allJobs := ExpandPages(bounds);
    jobs := allJobs;
    var spreadJobs := Spreading.Spreading(allJobs, JobRegion);
    SpreadPermutes(allJobs, JobRegion);
    forall region ensures Filter(spreadJobs, JobInRegion(region)) == Filter(jobs, JobInRegion(region)) {
      SpreadKeepsKeyOrder(allJobs, JobRegion, region);
      BucketIsFilter(allJobs, JobRegion, region, JobInRegion(region));
      BucketIsFilter(spreadJobs, JobRegion, region, JobInRegion(region));
    }
    batches := Chunked(spreadJobs, MAX_IN_FLIGHT);
  }

  /** Each page up to the bound of a successfully probed key is requested exactly once, and nothing else is. */
  lemma EveryPageOnce(api: Api, work: seq<PageKey>, requests: seq<PageJob>)
    requires Distinct(work)
    requires multiset(requests) == multiset(PageJobs(BoundsOf(api, Spread(work, RegionOf))))
    ensures Distinct(requests)
    ensures forall job :: job in requests <==>
              job.key in work && BoundOf(api(job.key)).Ok? && 1 <= job.page <= BoundOf(api(job.key)).value
  {
    var spread := Spread(work, RegionOf);
    SpreadPermutes(work, RegionOf);
    SelectionDistinct(work, spread);
    JobsDistinct(api, spread);
    var jobs := PageJobs(BoundsOf(api, spread));
    SelectionDistinct(jobs, requests);
    forall job: PageJob ensures job in requests <==>
                       job.key in work && BoundOf(api(job.key)).Ok? && 1 <= job.page <= BoundOf(api(job.key)).value
    {
      assert job in requests <==> job in multiset(requests);
      assert job in jobs <==> job in multiset(jobs);
      assert job.key in spread <==> job.key in multiset(spread);
      assert job.key in work <==> job.key in multiset(work);
      JobsMembers(BoundsOf(api, spread), job);
      if job in jobs {
        var b :| b in BoundsOf(api, spread) && b.key == job.key && 1 <= job.page <= b.last;
        BoundsMembers(api, spread, b);
      }
      if job.key in spread && BoundOf(api(job.key)).Ok? {
        BoundsMembers(api, spread, PageBound(job.key, BoundOf(api(job.key)).value));
      }
    }
  }
}
