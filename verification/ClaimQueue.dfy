/** Claiming the next batch of pending match ids (database/clickhouse/operations/work_state.py). */
module ClaimQueue {
  import opened Deduping
  import opened Ordering
  import opened Results
  import opened Sequences
  import opened Spreading

  datatype Continent = Americas | Europe | Asia | Sea | Unknown {
    /** Rank used by the final ORDER BY (`transform(continent, ...)`). */
    function Order(): nat {
      match this
      case Americas => 1
      case Europe => 2
      case Asia => 3
      case Sea => 4
      case Unknown => 5
    }

    /** Rank of the continent's name among the other names, used by `ORDER BY continent`. */
    function NameRank(): nat {
      match this
      case Americas => 1
      case Asia => 2
      case Europe => 3
      case Sea => 4
      case Unknown => 5
    }
  }

  const CONTINENTS: seq<Continent> := [Americas, Europe, Asia, Sea, Unknown]

  function Lower(s: string): string {
    seq(|s|, i requires 0 <= i < |s| => if 'A' <= s[i] <= 'Z' then s[i] - 'A' + 'a' else s[i])
  }

  /** The part of a match id before its first underscore. */
  function Shard(id: string): string {
    if id == "" || id[0] == '_' then "" else [id[0]] + Shard(id[1..])
  }

  function ContinentOf(id: string): Continent {
    var shard := Lower(Shard(id));
    if shard in ["br1", "la1", "la2", "na1"] then Americas
    else if shard in ["euw1", "eun1", "ru", "tr1", "me1"] then Europe
    else if shard in ["jp1", "kr"] then Asia
    else if shard in ["ph2", "th2", "tw2", "oc1", "vn2", "sg2"] then Sea
    else Unknown
  }

  // ----- Which continent an id belongs to, told by its platform -----

  /** The platforms of each continent, as the API names them. */
  function PlatformsOf(c: Continent): seq<string> {
    match c
    case Americas => ["br1", "la1", "la2", "na1"]
    case Europe => ["euw1", "eun1", "ru", "tr1", "me1"]
    case Asia => ["jp1", "kr"]
    case Sea => ["ph2", "th2", "tw2", "oc1", "vn2", "sg2"]
    case Unknown => []
  }

  /** The same letters, in upper or lower case: `s` may have 'A' to 'Z' (32 below) for 'a' to 'z' of `p`. */
  predicate SameLetters(s: string, p: string) {
    |s| == |p| && forall i | 0 <= i < |s| ::
      s[i] == p[i] || ('a' <= p[i] <= 'z' && s[i] as int + 32 == p[i] as int)
  }

  /** `id` is a platform name in whatever case, alone or followed by an underscore. */
  ghost predicate NamesPlatform(id: string, p: string) {
    SameLetters(if |id| <= |p| then id else id[..|p|], p) && (|id| <= |p| || id[|p|] == '_')
  }

  ghost predicate OnPlatformOf(id: string, c: Continent) {
    exists p :: p in PlatformsOf(c) && NamesPlatform(id, p)
  }

  ghost predicate OnPlatform(id: string) {
    exists c :: OnPlatformOf(id, c)
  }

  lemma {:induction false} ShardMeaning(id: string)
    ensures Shard(id) <= id && '_' !in Shard(id) && (|Shard(id)| < |id| ==> id[|Shard(id)|] == '_')
  {
    if id != "" && id[0] != '_' {
      ShardMeaning(id[1..]);
    }
  }

  lemma ShardIs(id: string, n: nat)
    requires n <= |id| && '_' !in id[..n] && (n < |id| ==> id[n] == '_')
    ensures Shard(id) == id[..n]
  {
    ShardMeaning(id);
    assert forall i | 0 <= i < |Shard(id)| :: id[i] == Shard(id)[i] != '_';
    assert forall i | 0 <= i < n :: id[i] == id[..n][i] != '_';
  }

  predicate IsName(p: string) {
    forall i | 0 <= i < |p| :: 'a' <= p[i] <= 'z' || '0' <= p[i] <= '9'
  }

  lemma LowerMeaning(s: string, p: string)
    requires IsName(p)
    ensures Lower(s) == p <==> SameLetters(s, p)
    ensures SameLetters(s, p) ==> '_' !in s
  {
    if Lower(s) == p {
      forall i | 0 <= i < |s| ensures s[i] == p[i] || ('a' <= p[i] <= 'z' && s[i] as int + 32 == p[i] as int) {
        assert Lower(s)[i] == p[i];
      }
    }
    if SameLetters(s, p) {
      forall i | 0 <= i < |s| ensures Lower(s)[i] == p[i] && s[i] != '_' {
      }
    }
  }

  lemma NamesPlatformIs(id: string, p: string)
    requires IsName(p)
    ensures Lower(Shard(id)) == p <==> NamesPlatform(id, p)
  {
    ShardMeaning(id);
    LowerMeaning(Shard(id), p);
    var head := if |id| <= |p| then id else id[..|p|];
    LowerMeaning(head, p);
    if NamesPlatform(id, p) {
      assert head == id[..|p|];
      ShardIs(id, |p|);
    }
  }

  lemma OnPlatformExactly(id: string, c: Continent)
    ensures OnPlatformOf(id, c) <==> Lower(Shard(id)) in PlatformsOf(c)
  {
    forall p | p in PlatformsOf(c) ensures Lower(Shard(id)) == p <==> NamesPlatform(id, p) {
      NamesPlatformIs(id, p);
    }
  }

  /** No platform is listed under two continents. */
  lemma OneContinent(p: string, c: Continent, d: Continent)
    requires p in PlatformsOf(c) && p in PlatformsOf(d)
    ensures c == d
  {
    assert p[0] in (match c case Americas => "bln" case Europe => "ertm" case Asia => "jk" case _ => "ptovs");
    assert p[0] == 't' ==> p[1] in (if c.Europe? then "r" else "hw");
  }

  /** The continent of an id is the one whose list has its platform, and unknown if none has. */
  lemma ContinentExactly(id: string)
    ensures forall c :: OnPlatformOf(id, c) <==> c == ContinentOf(id) && !c.Unknown?
    ensures OnPlatform(id) <==> !ContinentOf(id).Unknown?
  {
    var shard := Lower(Shard(id));
    assert ContinentOf(id).Unknown? || shard in PlatformsOf(ContinentOf(id));
    forall c ensures OnPlatformOf(id, c) <==> c == ContinentOf(id) && !c.Unknown? {
      OnPlatformExactly(id, c);
      match c {
        case Americas => assert shard in PlatformsOf(Americas) ==> ContinentOf(id) == c;
        case Europe => OtherLists(shard, c);
        case Asia => OtherLists(shard, c);
        case Sea => OtherLists(shard, c);
        case Unknown =>
      }
    }
    assert OnPlatform(id) <==> exists c :: OnPlatformOf(id, c);
    assert OnPlatformOf(id, ContinentOf(id)) <==> !ContinentOf(id).Unknown?;
  }

  lemma OtherLists(p: string, c: Continent)
    ensures p in PlatformsOf(c) ==> forall d | d != c :: p !in PlatformsOf(d)
  {
    forall d | d != c && p in PlatformsOf(c) ensures p !in PlatformsOf(d) {
      if p in PlatformsOf(d) {
        OneContinent(p, c, d);
      }
    }
  }

  /** The ids of the API: a platform in any case, an underscore and whatever follows. */
  lemma PlatformId(c: Continent, p: string, prefix: string, rest: string)
    requires p in PlatformsOf(c) && SameLetters(prefix, p)
    ensures ContinentOf(prefix + "_" + rest) == c
  {
    var id := prefix + "_" + rest;
    assert id[..|p|] == prefix;
    assert NamesPlatform(id, p) && OnPlatformOf(id, c);
    ContinentExactly(id);
  }

  // ----- The claim query, clause by clause. `hash` stands for cityHash64. -----

  predicate IdLe(hash: string -> nat, a: string, b: string) {
    hash(a) < hash(b) || (hash(a) == hash(b) && StrLe(a, b))
  }

  /** `ORDER BY shuffle_key, matchid`, as used inside one continent. */
  function ByShuffle(hash: string -> nat): (string, string) -> bool {
    (a, b) => IdLe(hash, a, b)
  }

  /** `ORDER BY continent, shuffle_key, matchid`. */
  function ByContinent(hash: string -> nat): (string, string) -> bool {
    (a, b) =>
      var x, y := ContinentOf(a).NameRank(), ContinentOf(b).NameRank();
      x < y || (x == y && IdLe(hash, a, b))
  }

  /** `LIMIT n BY continent`: keep a row while fewer than `n` rows of its continent precede it. */
  function LimitBy(rows: seq<string>, n: nat): seq<string> {
    if rows == [] then []
    else
      var init, last := rows[..|rows| - 1], rows[|rows| - 1];
      if |Bucket(init, ContinentOf, ContinentOf(last))| < n then LimitBy(init, n) + [last] else LimitBy(init, n)
  }

  datatype Ranked = Ranked(matchid: string, shuffle: nat, rowN: nat, continentOrder: nat)

  function OrderOf(): Ranked -> nat { (r: Ranked) => r.continentOrder }

  /** `row_number() OVER (PARTITION BY continent ORDER BY shuffle_key, matchid)` for one continent. */
  function Numbered(sorted: seq<string>, c: Continent, hash: string -> nat): seq<Ranked> {
    seq(|sorted|, i requires 0 <= i < |sorted| => Ranked(sorted[i], hash(sorted[i]), i + 1, c.Order()))
  }

  /** One continent's rows in claim order. */
  function ContinentQueue(rows: seq<string>, c: Continent, hash: string -> nat): seq<string> {
    Sort(Bucket(rows, ContinentOf, c), ByShuffle(hash))
  }

  function ContinentQueues(rows: seq<string>, hash: string -> nat): seq<seq<string>> {
    seq(|CONTINENTS|, i requires 0 <= i < |CONTINENTS| => ContinentQueue(rows, CONTINENTS[i], hash))
  }

  function NumberedQueues(queues: seq<seq<string>>, hash: string -> nat): seq<seq<Ranked>>
    requires |queues| == |CONTINENTS|
  {
    seq(|CONTINENTS|, i requires 0 <= i < |CONTINENTS| => Numbered(queues[i], CONTINENTS[i], hash))
  }

  predicate RankedLe(a: Ranked, b: Ranked) {
    a.rowN < b.rowN || (a.rowN == b.rowN &&
    (a.continentOrder < b.continentOrder || (a.continentOrder == b.continentOrder &&
    (a.shuffle < b.shuffle || (a.shuffle == b.shuffle && StrLe(a.matchid, b.matchid))))))
  }

  function Ids(ranked: seq<Ranked>): seq<string> {
    seq(|ranked|, i requires 0 <= i < |ranked| => ranked[i].matchid)
  }

  /** `ranked` and the final `ORDER BY row_n, continent_order, shuffle_key, matchid LIMIT n`. */
  function RankAndLimit(rows: seq<string>, n: nat, hash: string -> nat): seq<string> {
    Take(Ids(Sort(Flat(NumberedQueues(ContinentQueues(rows, hash), hash)), RankedLe)), n)
  }

  /** The whole query: the per-continent prefilter feeds the ranking. */
  function ClaimQuery(rows: seq<string>, n: nat, hash: string -> nat): seq<string> {
    RankAndLimit(LimitBy(Sort(rows, ByContinent(hash)), n), n, hash)
  }

  // ----- The orders are total -----

  lemma ByShuffleOrder(hash: string -> nat)
    ensures TotalOrder(ByShuffle(hash))
  {
    StrLeOrder();
  }

  lemma ByContinentOrder(hash: string -> nat)
    ensures TotalOrder(ByContinent(hash))
  {
    StrLeOrder();
  }

  lemma RankedOrder()
    ensures TotalOrder(RankedLe)
  {
    StrLeOrder();
  }

  // ----- Ranking is going through the continents' queues row by row -----

  lemma NumberedLabelled(queues: seq<seq<string>>, hash: string -> nat) returns (labels: seq<nat>)
    requires |queues| == |CONTINENTS|
    ensures Labelled(NumberedQueues(queues, hash), labels, OrderOf())
  {
    labels := [1, 2, 3, 4, 5];
  }

  lemma {:induction false} IdsOfRow(queues: seq<seq<string>>, hash: string -> nat, n: nat, r: nat)
    requires |queues| == |CONTINENTS| && n <= |CONTINENTS|
    ensures Ids(Row(NumberedQueues(queues, hash), n, r)) == Row(queues, n, r)
  {
    if n > 0 {
      IdsOfRow(queues, hash, n - 1, r);
    }
  }

  lemma {:induction false} IdsOfRows(queues: seq<seq<string>>, hash: string -> nat, m: nat)
    requires |queues| == |CONTINENTS|
    ensures Ids(Rows(NumberedQueues(queues, hash), m)) == Rows(queues, m)
  {
    if m > 0 {
      IdsOfRows(queues, hash, m - 1);
      IdsOfRow(queues, hash, |CONTINENTS|, m - 1);
      var a, b := Rows(NumberedQueues(queues, hash), m - 1), Row(NumberedQueues(queues, hash), |CONTINENTS|, m - 1);
      assert Ids(a + b) == Ids(a) + Ids(b);
    }
  }

  lemma {:induction false} RowSorted(queues: seq<seq<string>>, hash: string -> nat, n: nat, r: nat)
    requires |queues| == |CONTINENTS| && n <= |CONTINENTS|
    ensures Sorted(Row(NumberedQueues(queues, hash), n, r), RankedLe)
    ensures forall x <- Row(NumberedQueues(queues, hash), n, r) :: x.rowN == r + 1 && x.continentOrder <= n
  {
    if n > 0 {
      RowSorted(queues, hash, n - 1, r);
    }
  }

  lemma {:induction false} RowsSorted(queues: seq<seq<string>>, hash: string -> nat, m: nat)
    requires |queues| == |CONTINENTS|
    ensures Sorted(Rows(NumberedQueues(queues, hash), m), RankedLe)
    ensures forall x <- Rows(NumberedQueues(queues, hash), m) :: x.rowN <= m
  {
    if m > 0 {
      RowsSorted(queues, hash, m - 1);
      RowSorted(queues, hash, |CONTINENTS|, m - 1);
    }
  }

  lemma RankingPermutes(queues: seq<seq<string>>, hash: string -> nat)
    requires |queues| == |CONTINENTS|
    ensures multiset(Rows(NumberedQueues(queues, hash), Height(queues))) == multiset(Flat(NumberedQueues(queues, hash)))
  {
    var labels := NumberedLabelled(queues, hash);
    RowsPermute(NumberedQueues(queues, hash), labels, OrderOf(), Height(queues));
  }

  lemma SortedRanking(queues: seq<seq<string>>, hash: string -> nat)
    requires |queues| == |CONTINENTS|
    ensures Sort(Flat(NumberedQueues(queues, hash)), RankedLe) == Rows(NumberedQueues(queues, hash), Height(queues))
  {
    RankingPermutes(queues, hash);
    RowsSorted(queues, hash, Height(queues));
    RankedOrder();
    SortIs(Flat(NumberedQueues(queues, hash)), Rows(NumberedQueues(queues, hash), Height(queues)), RankedLe);
  }

  lemma RankIsRows(rows: seq<string>, n: nat, hash: string -> nat)
    ensures RankAndLimit(rows, n, hash) ==
              Take(Rows(ContinentQueues(rows, hash), Height(ContinentQueues(rows, hash))), n)
  {
    var queues := ContinentQueues(rows, hash);
    SortedRanking(queues, hash);
    IdsOfRows(queues, hash, Height(queues));
  }

  // ----- The prefilter keeps the first n rows of every continent's queue -----

  lemma {:induction false} LimitByOfContinent(rows: seq<string>, n: nat, c: Continent)
    ensures Bucket(LimitBy(rows, n), ContinentOf, c) == Take(Bucket(rows, ContinentOf, c), n)
  {
    if rows != [] {
      var init, last := rows[..|rows| - 1], rows[|rows| - 1];
      LimitByOfContinent(init, n, c);
      assert (LimitBy(init, n) + [last])[..|LimitBy(init, n)|] == LimitBy(init, n);
    }
  }

  lemma {:induction false} BucketSorted(rows: seq<string>, c: Continent, hash: string -> nat)
    requires Sorted(rows, ByContinent(hash))
    ensures Sorted(Bucket(rows, ContinentOf, c), ByShuffle(hash))
  {
    if rows != [] {
      var init, last := rows[..|rows| - 1], rows[|rows| - 1];
      BucketSorted(init, c, hash);
      BucketHasKey(init, ContinentOf, c);
      if ContinentOf(last) == c {
        forall x <- Bucket(init, ContinentOf, c) ensures ByShuffle(hash)(x, last) {
          var i :| 0 <= i < |init| && init[i] == x;
          assert ByContinent(hash)(rows[i], rows[|rows| - 1]);
        }
      }
    }
  }

  lemma BucketOfPermutation(a: seq<string>, b: seq<string>, c: Continent)
    requires multiset(a) == multiset(b)
    ensures multiset(Bucket(a, ContinentOf, c)) == multiset(Bucket(b, ContinentOf, c))
  {
    forall x: string ensures multiset(Bucket(a, ContinentOf, c))[x] == multiset(Bucket(b, ContinentOf, c))[x] {
      BucketHasKey(a, ContinentOf, c);
      BucketHasKey(b, ContinentOf, c);
      BucketCount(a, ContinentOf, x);
      BucketCount(b, ContinentOf, x);
    }
    SameCounts(Bucket(a, ContinentOf, c), Bucket(b, ContinentOf, c));
  }

  lemma PrefilteredQueue(rows: seq<string>, n: nat, c: Continent, hash: string -> nat)
    ensures ContinentQueue(LimitBy(Sort(rows, ByContinent(hash)), n), c, hash)
            == Take(ContinentQueue(rows, c, hash), n)
  {
    var sorted := Sort(rows, ByContinent(hash));
    ByContinentOrder(hash);
    ByShuffleOrder(hash);
    SortCorrect(rows, ByContinent(hash));
    BucketSorted(sorted, c, hash);
    BucketOfPermutation(sorted, rows, c);
    SortIs(Bucket(rows, ContinentOf, c), Bucket(sorted, ContinentOf, c), ByShuffle(hash));
    LimitByOfContinent(sorted, n, c);
    var kept := Take(ContinentQueue(rows, c, hash), n);
    assert Sorted(kept, ByShuffle(hash));
    SortIs(kept, kept, ByShuffle(hash));
  }

  // ----- Cutting every queue to n entries keeps the first n ranked rows -----

  lemma {:induction false} RowOfCut(full: seq<seq<string>>, cut: seq<seq<string>>, n: nat, m: nat, r: nat)
    requires |full| == |cut| && m <= |full| && r < n
    requires forall i | 0 <= i < |full| :: cut[i] == Take(full[i], n)
    ensures Row(cut, m, r) == Row(full, m, r)
  {
    if m > 0 {
      RowOfCut(full, cut, n, m - 1, r);
    }
  }

  lemma {:induction false} RowsOfCut(full: seq<seq<string>>, cut: seq<seq<string>>, n: nat, m: nat)
    requires |full| == |cut| && m <= n
    requires forall i | 0 <= i < |full| :: cut[i] == Take(full[i], n)
    ensures Rows(cut, m) == Rows(full, m)
  {
    if m > 0 {
      RowsOfCut(full, cut, n, m - 1);
      RowOfCut(full, cut, n, |full|, m - 1);
    }
  }

  lemma {:induction false} RowsLong(queues: seq<seq<string>>, m: nat)
    requires m <= Height(queues)
    ensures |Rows(queues, m)| >= m
  {
    if m > 0 {
      RowsLong(queues, m - 1);
      RowEmpty(queues, |queues|, m - 1);
      assert queues[..|queues|] == queues;
      var b :| b in queues && |b| == Height(queues);
    }
  }

  predicate IsCut(full: seq<seq<string>>, cut: seq<seq<string>>, n: nat) {
    |full| == |cut| && forall i | 0 <= i < |full| :: cut[i] == Take(full[i], n)
  }

  lemma CutRows(full: seq<seq<string>>, cut: seq<seq<string>>, n: nat, m: nat)
    ensures IsCut(full, cut, n) && m <= n && (m == n || m == Height(full)) ==> Rows(cut, Height(cut)) == Rows(full, m)
  {
    if IsCut(full, cut, n) && m <= n && (m == n || m == Height(full)) {
      forall b <- cut ensures |b| <= m {
        var i :| 0 <= i < |cut| && cut[i] == b;
        assert full[i] in full;
      }
      RowsStable(cut, Height(cut), m);
      RowsOfCut(full, cut, n, m);
    }
  }

  lemma CutHarmless(full: seq<seq<string>>, cut: seq<seq<string>>, n: nat)
    requires IsCut(full, cut, n)
    ensures Take(Rows(cut, Height(cut)), n) == Take(Rows(full, Height(full)), n)
  {
    var h := Height(full);
    if h <= n {
      CutRows(full, cut, n, h);
    } else {
      CutRows(full, cut, n, n);
      RowsLong(full, n);
      RowsPrefix(full, n, h);
      PrefixTake(Rows(full, n), Rows(full, h), n);
    }
  }

  lemma PrefixTake<T>(a: seq<T>, b: seq<T>, n: nat)
    requires a <= b && n <= |a|
    ensures Take(a, n) == Take(b, n)
  {
  }

  /** The prefilter cuts every continent's queue to its first `n` entries. */
  lemma QueuesCut(rows: seq<string>, n: nat, hash: string -> nat)
    ensures forall i | 0 <= i < |CONTINENTS| ::
      ContinentQueues(LimitBy(Sort(rows, ByContinent(hash)), n), hash)[i] == Take(ContinentQueues(rows, hash)[i], n)
  {
    forall i | 0 <= i < |CONTINENTS|
      ensures ContinentQueues(LimitBy(Sort(rows, ByContinent(hash)), n), hash)[i] ==
                Take(ContinentQueues(rows, hash)[i], n)
    {
      PrefilteredQueue(rows, n, CONTINENTS[i], hash);
    }
  }

  /** The `LIMIT n BY continent` prefilter never changes what is claimed. */
  lemma PrefilterHarmless(rows: seq<string>, n: nat, hash: string -> nat)
    ensures ClaimQuery(rows, n, hash) == RankAndLimit(rows, n, hash)
  {
    var limited := LimitBy(Sort(rows, ByContinent(hash)), n);
    QueuesCut(rows, n, hash);
    RankIsRows(rows, n, hash);
    RankIsRows(limited, n, hash);
    CutHarmless(ContinentQueues(rows, hash), ContinentQueues(limited, hash), n);
  }

  lemma QueuesLabelled(rows: seq<string>, hash: string -> nat)
    ensures Labelled(ContinentQueues(rows, hash), CONTINENTS, ContinentOf)
  {
    forall i | 0 <= i < |CONTINENTS|
      ensures forall x <- ContinentQueues(rows, hash)[i] :: ContinentOf(x) == CONTINENTS[i]
    {
      QueueMembers(rows, CONTINENTS[i], hash);
    }
  }

  lemma QueueMembers(rows: seq<string>, c: Continent, hash: string -> nat)
    ensures multiset(ContinentQueue(rows, c, hash)) == multiset(Bucket(rows, ContinentOf, c))
    ensures forall x <- ContinentQueue(rows, c, hash) :: ContinentOf(x) == c
  {
    ByShuffleOrder(hash);
    SortCorrect(Bucket(rows, ContinentOf, c), ByShuffle(hash));
    BucketHasKey(rows, ContinentOf, c);
    forall x <- ContinentQueue(rows, c, hash) ensures ContinentOf(x) == c {
      assert x in multiset(ContinentQueue(rows, c, hash));
      assert x in multiset(Bucket(rows, ContinentOf, c));
    }
  }

  /** The claim is the first `n` entries of `spreading` applied to the continents' sorted queues. */
  lemma ClaimIsSpread(rows: seq<string>, n: nat, hash: string -> nat)
    ensures ClaimQuery(rows, n, hash) == Take(Spread(Flat(ContinentQueues(rows, hash)), ContinentOf), n)
  {
    PrefilterHarmless(rows, n, hash);
    RankIsRows(rows, n, hash);
    QueuesLabelled(rows, hash);
    SpreadOfGroups(ContinentQueues(rows, hash), CONTINENTS, ContinentOf, Height(ContinentQueues(rows, hash)));
  }

  lemma ClaimSelects(rows: seq<string>, n: nat, hash: string -> nat)
    ensures |ClaimQuery(rows, n, hash)| == if n <= |rows| then n else |rows|
    ensures multiset(ClaimQuery(rows, n, hash)) <= multiset(rows)
  {
    var queues, h := ContinentQueues(rows, hash), Height(ContinentQueues(rows, hash));
    PrefilterHarmless(rows, n, hash);
    RankIsRows(rows, n, hash);
    QueuesLabelled(rows, hash);
    forall x: string ensures multiset(Rows(queues, h))[x] == multiset(rows)[x] {
      RowsKeepKey(queues, CONTINENTS, ContinentOf, h, ContinentOf(x));
      BucketCount(Rows(queues, h), ContinentOf, x);
      QueueCount(rows, x, hash);
    }
    SameCounts(Rows(queues, h), rows);
    assert |multiset(Rows(queues, h))| == |multiset(rows)|;
    TakeSubset(Rows(queues, h), n);
  }

  lemma QueueCount(rows: seq<string>, x: string, hash: string -> nat)
    ensures multiset(Bucket(Flat(ContinentQueues(rows, hash)), ContinentOf, ContinentOf(x)))[x] == multiset(rows)[x]
  {
    var a := ContinentOf(x).Order() - 1;
    assert CONTINENTS[a] == ContinentOf(x);
    QueuesLabelled(rows, hash);
    var queues := ContinentQueues(rows, hash);
    assert queues[..|queues|] == queues;
    FlatOfKey(queues, CONTINENTS, ContinentOf, |queues|, a);
    QueueMembers(rows, ContinentOf(x), hash);
    BucketCount(rows, ContinentOf, x);
  }

  lemma TakeSubset<T>(s: seq<T>, n: nat)
    ensures multiset(Take(s, n)) <= multiset(s)
  {
    if n <= |s| {
      assert s == s[..n] + s[n..];
    }
  }

  // ----- Claiming -----

  datatype ClaimError = BatchSizeNotPositive

  /** `claim_pending_matchids`. The claim only reads the queue. */
  method ClaimPending(rows: seq<string>, batchSize: int, hash: string -> nat)
    returns (claimed: Result<seq<string>, ClaimError>)
    ensures claimed.Err? <==> batchSize <= 0
    ensures claimed.Ok? ==> claimed.value == Deduped(ClaimQuery(rows, batchSize, hash))
  {
    if batchSize <= 0 {
      return Err(BatchSizeNotPositive);
    }
    var ids := Dedupe(ClaimQuery(rows, batchSize, hash));
    claimed := Ok(ids);
  }

  /**
   * From a queue of distinct non-blank ids a claim of `n` takes exactly `n` different ids, or all of
   * them when there are fewer; so a claim comes back empty only from an empty queue.
   */
  lemma ClaimedBatch(rows: seq<string>, n: nat, hash: string -> nat)
    requires n > 0 && Distinct(rows) && "" !in rows
    ensures Deduped(ClaimQuery(rows, n, hash)) == ClaimQuery(rows, n, hash)
    ensures Distinct(ClaimQuery(rows, n, hash))
    ensures forall x <- ClaimQuery(rows, n, hash) :: x in rows && x != ""
    ensures |ClaimQuery(rows, n, hash)| == if n <= |rows| then n else |rows|
  {
    var claim := ClaimQuery(rows, n, hash);
    ClaimSelects(rows, n, hash);
    forall x <- claim ensures x in rows {
      assert x in multiset(claim);
      assert x in multiset(rows);
    }
    SelectionDistinct(rows, claim);
    FilterAll(claim, IsFilled());
    KeysClean(claim);
  }
}
