/**
 * The order of a claim, told by the queue alone: ids come by their rank within their continent, then by continent.
 */
module ClaimOrder {
  import opened ClaimQueue
  import opened Deduping
  import opened Ordering
  import opened Sequences
  import opened Spreading

  /** Within its continent `y` comes before `x`: by hash, then by id. */
  ghost predicate Precedes(hash: string -> nat, y: string, x: string) {
    hash(y) < hash(x) || (hash(y) == hash(x) && StrictlyBelow(y, x))
  }

  /** The ids of the same continent that come before `x`. */
  ghost function Ahead(rows: seq<string>, hash: string -> nat, x: string): set<string> {
    set y | y in rows && ContinentOf(y) == ContinentOf(x) && Precedes(hash, y, x)
  }

  /** The continents in the order in which they are served. */
  function Turn(c: Continent): nat {
    match c
    case Americas => 1
    case Europe => 2
    case Asia => 3
    case Sea => 4
    case Unknown => 5
  }

  /** `x` is claimed before `y`: fewer ids of its continent come before it, or as many and its continent comes first. */
  ghost predicate Before(rows: seq<string>, hash: string -> nat, x: string, y: string) {
    var m, n := |Ahead(rows, hash, x)|, |Ahead(rows, hash, y)|;
    m < n || (m == n && Turn(ContinentOf(x)) < Turn(ContinentOf(y)))
  }

  /** Numbering one continent's sorted queue gives each id the number of ids that come before it. */
  lemma QueueRank(rows: seq<string>, c: Continent, hash: string -> nat, k: nat)
    requires Distinct(rows) && k < |ContinentQueue(rows, c, hash)|
    ensures
      var queue := ContinentQueue(rows, c, hash);
      queue[k] in rows && ContinentOf(queue[k]) == c && |Ahead(rows, hash, queue[k])| == k
  {
    var queue := ContinentQueue(rows, c, hash);
    QueueFacts(rows, c, hash);
    var x := queue[k];
    forall y ensures y in Ahead(rows, hash, x) <==> y in queue[..k] {
      StrLeMeaning(y, x);
      StrLeMeaning(x, y);
      if y in queue {
        var i :| 0 <= i < |queue| && queue[i] == y;
        if i < k {
          assert ByShuffle(hash)(queue[i], queue[k]);
          assert queue[..k][i] == y;
        } else if k < i {
          assert ByShuffle(hash)(queue[k], queue[i]);
        }
      }
    }
    assert Ahead(rows, hash, x) == set y | y in queue[..k];
    PrefixSize(queue, k);
  }

  lemma QueueFacts(rows: seq<string>, c: Continent, hash: string -> nat)
    requires Distinct(rows)
    ensures
      var queue := ContinentQueue(rows, c, hash);
      && Sorted(queue, ByShuffle(hash)) && Distinct(queue)
      && forall x :: x in queue <==> x in rows && ContinentOf(x) == c
  {
    var queue, bucket := ContinentQueue(rows, c, hash), Bucket(rows, ContinentOf, c);
    ByShuffleOrder(hash);
    SortCorrect(bucket, ByShuffle(hash));
    BucketHasKey(rows, ContinentOf, c);
    forall x ensures multiset(bucket)[x] <= multiset(rows)[x] && (x in queue <==> x in rows && ContinentOf(x) == c) {
      BucketCount(rows, ContinentOf, x);
      assert ContinentOf(x) != c ==> x !in bucket;
      assert x in queue <==> x in multiset(queue);
      assert x in bucket <==> x in multiset(bucket);
      assert x in rows <==> x in multiset(rows);
    }
    SelectionDistinct(rows, queue);
  }

  lemma {:induction false} PrefixSize(s: seq<string>, k: nat)
    requires Distinct(s) && k <= |s|
    ensures |set y | y in s[..k]| == k
  {
    if k > 0 {
      PrefixSize(s, k - 1);
      var init := s[..k - 1];
      assert s[..k] == init + [s[k - 1]];
      assert (set y | y in s[..k]) == (set y | y in init) + {s[k - 1]};
      assert s[k - 1] !in init;
    }
  }

  // ----- The ranked rows -----

  /** `x` is entry `k` of the queue of continent `c`, with its number. */
  ghost predicate IsEntry(queues: seq<seq<string>>, hash: string -> nat, x: Ranked, c: nat, k: nat)
    requires |queues| == |CONTINENTS|
  {
    c < |CONTINENTS| && k < |queues[c]| && x == Ranked(queues[c][k], hash(queues[c][k]), k + 1, CONTINENTS[c].Order())
  }

  lemma {:induction false} RowEntries(queues: seq<seq<string>>, hash: string -> nat, n: nat, r: nat)
    requires |queues| == |CONTINENTS| && n <= |CONTINENTS|
    ensures forall x <- Row(NumberedQueues(queues, hash), n, r) :: exists c: nat :: IsEntry(queues, hash, x, c, r)
  {
    if n > 0 {
      RowEntries(queues, hash, n - 1, r);
      if r < |queues[n - 1]| {
        var x := NumberedQueues(queues, hash)[n - 1][r];
        assert IsEntry(queues, hash, x, n - 1, r);
      }
    }
  }

  lemma {:induction false} RowsEntries(queues: seq<seq<string>>, hash: string -> nat, m: nat)
    requires |queues| == |CONTINENTS|
    ensures forall x <- Rows(NumberedQueues(queues, hash), m) ::
              exists c: nat, k: nat :: IsEntry(queues, hash, x, c, k)
  {
    if m > 0 {
      RowsEntries(queues, hash, m - 1);
      RowEntries(queues, hash, |CONTINENTS|, m - 1);
    }
  }

  /** An entry's number and continent order are those that the queue gives its id. */
  lemma EntryRank(rows: seq<string>, hash: string -> nat, x: Ranked, c: nat, k: nat)
    requires Distinct(rows) && IsEntry(ContinentQueues(rows, hash), hash, x, c, k)
    ensures |Ahead(rows, hash, x.matchid)| == x.rowN - 1 && Turn(ContinentOf(x.matchid)) == x.continentOrder
  {
    QueueRank(rows, CONTINENTS[c], hash, k);
  }

  lemma RankedBefore(rows: seq<string>, hash: string -> nat, x: Ranked, c: nat, k: nat, y: Ranked, d: nat, l: nat)
    requires Distinct(rows) && x.matchid != y.matchid && RankedLe(x, y)
    requires IsEntry(ContinentQueues(rows, hash), hash, x, c, k) && IsEntry(ContinentQueues(rows, hash), hash, y, d, l)
    ensures Before(rows, hash, x.matchid, y.matchid)
  {
    EntryRank(rows, hash, x, c, k);
    EntryRank(rows, hash, y, d, l);
    assert CONTINENTS[c].Order() == c + 1 && CONTINENTS[d].Order() == d + 1;
  }

  /** All rows as they are ranked before the limit. */
  function Ranking(rows: seq<string>, hash: string -> nat): seq<Ranked> {
    var queues := ContinentQueues(rows, hash);
    Rows(NumberedQueues(queues, hash), Height(queues))
  }

  lemma TakesRanked(rows: seq<string>, n: nat, hash: string -> nat)
    ensures ClaimQuery(rows, n, hash) == Take(Ids(Ranking(rows, hash)), n)
  {
    SortedRanking(ContinentQueues(rows, hash), hash);
    PrefilterHarmless(rows, n, hash);
  }

  lemma RankingInOrder(rows: seq<string>, hash: string -> nat, i: nat, j: nat)
    requires Distinct(rows) && i < j < |Ranking(rows, hash)|
    requires Ranking(rows, hash)[i].matchid != Ranking(rows, hash)[j].matchid
    ensures Before(rows, hash, Ranking(rows, hash)[i].matchid, Ranking(rows, hash)[j].matchid)
  {
    var queues, ranked := ContinentQueues(rows, hash), Ranking(rows, hash);
    RowsSorted(queues, hash, Height(queues));
    RowsEntries(queues, hash, Height(queues));
    var x, y := ranked[i], ranked[j];
    assert RankedLe(x, y) && x in ranked && y in ranked;
    var c: nat, k: nat :| IsEntry(queues, hash, x, c, k);
    var d: nat, l: nat :| IsEntry(queues, hash, y, d, l);
    RankedBefore(rows, hash, x, c, k, y, d, l);
  }

  /** The ranking holds every row. */
  lemma RankingPermutesRows(rows: seq<string>, hash: string -> nat, n: nat)
    requires |Ranking(rows, hash)| <= n && |rows| <= n
    ensures multiset(Ids(Ranking(rows, hash))) == multiset(rows)
  {
    var all, claim := Ids(Ranking(rows, hash)), ClaimQuery(rows, n, hash);
    TakesRanked(rows, n, hash);
    ClaimSelects(rows, n, hash);
    assert claim == all;
    SameSize(claim, rows);
  }

  lemma SameSize(a: seq<string>, b: seq<string>)
    requires multiset(a) <= multiset(b) && |a| == |b|
    ensures multiset(a) == multiset(b)
  {
    SubsetOfSameSize(multiset(a), multiset(b));
  }

  /** The ranked ids: every row once, in the order of `Before`. */
  lemma AllInOrder(rows: seq<string>, hash: string -> nat)
    requires Distinct(rows)
    ensures
      var all := Ids(Ranking(rows, hash));
      && (forall x :: x in all <==> x in rows)
      && forall i, j | 0 <= i < j < |all| :: Before(rows, hash, all[i], all[j])
  {
    var all := Ids(Ranking(rows, hash));
    RankingPermutesRows(rows, hash, |all| + |rows|);
    SelectionDistinct(rows, all);
    forall x ensures x in all <==> x in rows {
      assert x in all <==> x in multiset(all);
      assert x in rows <==> x in multiset(rows);
    }
    forall i, j | 0 <= i < j < |all| ensures Before(rows, hash, all[i], all[j]) {
      assert Ranking(rows, hash)[i].matchid == all[i] != all[j] == Ranking(rows, hash)[j].matchid;
      RankingInOrder(rows, hash, i, j);
    }
  }

  lemma SubsetOfSameSize<T>(a: multiset<T>, b: multiset<T>)
    requires a <= b && |a| == |b|
    ensures a == b
  {
    assert |b - a| == 0;
    assert b == a + (b - a);
  }

  /**
   * The claim, told by the queue alone: as many ids as asked for, or all of them; each comes `Before` the next
   * ones, and before every id that is left behind.
   */
  lemma ClaimInOrder(rows: seq<string>, n: nat, hash: string -> nat)
    requires Distinct(rows)
    ensures
      var claim := ClaimQuery(rows, n, hash);
      && |claim| == (if n <= |rows| then n else |rows|) && Distinct(claim) && (forall x <- claim :: x in rows)
      && (forall i, j | 0 <= i < j < |claim| :: Before(rows, hash, claim[i], claim[j]))
      && (forall x, y | x in claim && y in rows && y !in claim :: Before(rows, hash, x, y))
  {
    AllInOrder(rows, hash);
    TakesRanked(rows, n, hash);
    ClaimSelects(rows, n, hash);
    SelectionDistinct(rows, ClaimQuery(rows, n, hash));
    LeftBehind(rows, Ids(Ranking(rows, hash)), n, hash);
  }

  /** What a prefix leaves behind comes later. */
  lemma LeftBehind(rows: seq<string>, all: seq<string>, n: nat, hash: string -> nat)
    requires forall i, j | 0 <= i < j < |all| :: Before(rows, hash, all[i], all[j])
    ensures forall x, y | x in Take(all, n) && y in all && y !in Take(all, n) :: Before(rows, hash, x, y)
  {
    var claim := Take(all, n);
    forall x, y | x in claim && y in all && y !in claim ensures Before(rows, hash, x, y) {
      var i :| 0 <= i < |claim| && claim[i] == x;
      var j :| 0 <= j < |all| && all[j] == y;
      assert forall k | 0 <= k < |claim| :: claim[k] == all[k] != y;
      assert i < |claim| <= j;
    }
  }

  /** One id of each continent, in any order and whatever the hash: the claim goes round the continents. */
  lemma OneOfEach(rows: seq<string>, hash: string -> nat, na: string, eu: string, kr: string, oc: string)
    requires multiset(rows) == multiset{"NA1_" + na, "EUW1_" + eu, "KR_" + kr, "OC1_" + oc}
    ensures ClaimQuery(rows, 4, hash) == ["NA1_" + na, "EUW1_" + eu, "KR_" + kr, "OC1_" + oc]
  {
    ApiIds(na, eu, kr, oc);
    FourContinents(rows, hash, "NA1_" + na, "EUW1_" + eu, "KR_" + kr, "OC1_" + oc);
  }

  lemma ApiIds(na: string, eu: string, kr: string, oc: string)
    ensures ContinentOf("NA1_" + na) == Americas && ContinentOf("EUW1_" + eu) == Europe
    ensures ContinentOf("KR_" + kr) == Asia && ContinentOf("OC1_" + oc) == Sea
  {
    AmericasId(na);
    EuropeId(eu);
    AsiaId(kr);
    SeaId(oc);
  }

  lemma AmericasId(rest: string)
    ensures ContinentOf("NA1_" + rest) == Americas
  {
    ApiId(Americas, "na1", "NA1", "NA1_", rest);
  }

  lemma EuropeId(rest: string)
    ensures ContinentOf("EUW1_" + rest) == Europe
  {
    ApiId(Europe, "euw1", "EUW1", "EUW1_", rest);
  }

  lemma AsiaId(rest: string)
    ensures ContinentOf("KR_" + rest) == Asia
  {
    ApiId(Asia, "kr", "KR", "KR_", rest);
  }

  lemma SeaId(rest: string)
    ensures ContinentOf("OC1_" + rest) == Sea
  {
    ApiId(Sea, "oc1", "OC1", "OC1_", rest);
  }

  lemma ApiId(c: Continent, p: string, prefix: string, start: string, rest: string)
    requires p in PlatformsOf(c) && SameLetters(prefix, p) && start == prefix + "_"
    ensures ContinentOf(start + rest) == c
  {
    PlatformId(c, p, prefix, rest);
  }

  lemma FourContinents(rows: seq<string>, hash: string -> nat, a: string, b: string, c: string, d: string)
    requires multiset(rows) == multiset{a, b, c, d}
    requires ContinentOf(a) == Americas && ContinentOf(b) == Europe && ContinentOf(c) == Asia && ContinentOf(d) == Sea
    ensures ClaimQuery(rows, 4, hash) == [a, b, c, d]
  {
    assert |rows| == |multiset(rows)| == 4;
    SelectionDistinct([a, b, c, d], rows);
    forall x ensures x in rows <==> x in [a, b, c, d] {
      assert x in rows <==> x in multiset(rows);
    }
    var claim := ClaimQuery(rows, 4, hash);
    ClaimInOrder(rows, 4, hash);
    forall i, j | 0 <= i < j < 4 ensures Turn(ContinentOf(claim[i])) < Turn(ContinentOf(claim[j])) {
      Alone(rows, hash, claim[i], a, b, c, d);
      Alone(rows, hash, claim[j], a, b, c, d);
      assert Before(rows, hash, claim[i], claim[j]);
    }
    ByTurn(claim, a, b, c, d);
  }

  /** No other id of its continent is queued. */
  lemma Alone(rows: seq<string>, hash: string -> nat, x: string, a: string, b: string, c: string, d: string)
    requires (forall y :: y in rows <==> y in [a, b, c, d]) && x in rows
    requires ContinentOf(a) == Americas && ContinentOf(b) == Europe && ContinentOf(c) == Asia && ContinentOf(d) == Sea
    ensures |Ahead(rows, hash, x)| == 0
  {
    forall y <- rows | ContinentOf(y) == ContinentOf(x) ensures y == x {
      assert y in [a, b, c, d] && x in [a, b, c, d];
    }
    assert Ahead(rows, hash, x) == {};
  }

  lemma ByTurn(claim: seq<string>, a: string, b: string, c: string, d: string)
    requires |claim| == 4 && forall x <- claim :: x in [a, b, c, d]
    requires forall i, j | 0 <= i < j < 4 :: Turn(ContinentOf(claim[i])) < Turn(ContinentOf(claim[j]))
    requires ContinentOf(a) == Americas && ContinentOf(b) == Europe && ContinentOf(c) == Asia && ContinentOf(d) == Sea
    ensures claim == [a, b, c, d]
  {
    forall i | 0 <= i < 4 ensures claim[i] in [a, b, c, d] && 1 <= Turn(ContinentOf(claim[i])) <= 4 {
      assert claim[i] in claim;
    }
    assert Turn(ContinentOf(claim[0])) < Turn(ContinentOf(claim[1])) < Turn(ContinentOf(claim[2]))
           < Turn(ContinentOf(claim[3]));
  }
}
