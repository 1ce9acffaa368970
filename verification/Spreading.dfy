/** Round-robin spreading of work over keys (app/services/riot_api_client/utils.py). */
module Spreading {

  /** The items of key `k`, in input order. */
  function Bucket<P, K(==)>(items: seq<P>, key: P -> K, k: K): seq<P> {
    if items == [] then []
    else
      var init, last := items[..|items| - 1], items[|items| - 1];
      if key(last) == k then Bucket(init, key, k) + [last] else Bucket(init, key, k)
  }

  /** The keys of the items in the order in which they are first seen. */
  function KeysOf<P, K(==)>(items: seq<P>, key: P -> K): seq<K> {
    if items == [] then []
    else
      var ks, k := KeysOf(items[..|items| - 1], key), key(items[|items| - 1]);
      if k in ks then ks else ks + [k]
  }

  function BucketsOf<P, K(==)>(items: seq<P>, key: P -> K): seq<seq<P>> {
    var ks := KeysOf(items, key);
    seq(|ks|, i requires 0 <= i < |ks| => Bucket(items, key, ks[i]))
  }

  /** The `r`-th entry of every one of the first `n` buckets that is long enough. */
  function Row<P>(buckets: seq<seq<P>>, n: nat, r: nat): seq<P>
    requires n <= |buckets|
  {
    if n == 0 then []
    else if r < |buckets[n - 1]| then Row(buckets, n - 1, r) + [buckets[n - 1][r]]
    else Row(buckets, n - 1, r)
  }

  /** The first `n` rows, one after the other. */
  function Rows<P>(buckets: seq<seq<P>>, n: nat): seq<P> {
    if n == 0 then [] else Rows(buckets, n - 1) + Row(buckets, |buckets|, n - 1)
  }

  function Height<P>(buckets: seq<seq<P>>): (h: nat)
    ensures forall b <- buckets :: |b| <= h
    ensures h > 0 ==> exists b <- buckets :: |b| == h
  {
    if buckets == [] then 0
    else
      var h, last := Height(buckets[..|buckets| - 1]), buckets[|buckets| - 1];
      assert forall b <- buckets :: b in buckets[..|buckets| - 1] || b == last;
      if |last| > h then |last| else h
  }

  function Spread<P, K(==)>(items: seq<P>, key: P -> K): seq<P> {
    var buckets := BucketsOf(items, key);
    Rows(buckets, Height(buckets))
  }

  // ----- Elementary facts about buckets and keys -----

  lemma KeysDistinct<P, K>(items: seq<P>, key: P -> K)
    ensures forall i, j | 0 <= i < j < |KeysOf(items, key)| :: KeysOf(items, key)[i] != KeysOf(items, key)[j]
  {
  }

  lemma KeysComplete<P, K>(items: seq<P>, key: P -> K, k: K)
    ensures k in KeysOf(items, key) <==> Bucket(items, key, k) != []
  {
  }

  lemma BucketConcat<P, K>(a: seq<P>, b: seq<P>, key: P -> K, k: K)
    ensures Bucket(a + b, key, k) == Bucket(a, key, k) + Bucket(b, key, k)
  {
    if b == [] {
      assert a + b == a;
    } else {
      assert (a + b)[..|a + b| - 1] == a + b[..|b| - 1];
    }
  }

  lemma BucketHasKey<P, K>(items: seq<P>, key: P -> K, k: K)
    ensures forall p <- Bucket(items, key, k) :: key(p) == k && p in items
  {
  }

  lemma BucketCount<P, K>(items: seq<P>, key: P -> K, p: P)
    ensures multiset(Bucket(items, key, key(p)))[p] == multiset(items)[p]
  {
    if items != [] {
      assert items == items[..|items| - 1] + [items[|items| - 1]];
      BucketCount(items[..|items| - 1], key, p);
    }
  }

  // ----- The loop -----

  /** First loop of `spreading`: one queue per key, keys in the order first seen. */
  method Group<P, K(==)>(items: seq<P>, key: P -> K) returns (keys: seq<K>, buckets: map<K, seq<P>>)
    ensures keys == KeysOf(items, key)
    ensures forall k :: k in buckets <==> k in keys
    ensures forall k <- keys :: buckets[k] == Bucket(items, key, k)
  {
    keys, buckets := [], map[];
    for i := 0 to |items|
      invariant keys == KeysOf(items[..i], key)
      invariant forall k :: k in buckets <==> k in keys
      invariant forall k <- keys :: buckets[k] == Bucket(items[..i], key, k)
    {
      var k := key(items[i]);
      assert items[..i + 1][..i] == items[..i];
      KeysComplete(items[..i], key, k);
      if k in buckets {
        buckets := buckets[k := buckets[k] + [items[i]]];
      } else {
        buckets := buckets[k := [items[i]]];
        keys := keys + [k];
      }
    }
    assert items[..|items|] == items;
  }

  /** The queues while a round is at key `j`: those before it have lost `r + 1` items, the others `r`. */
  ghost predicate Popped<P, K>(keys: seq<K>, buckets: map<K, seq<P>>, full: seq<seq<P>>, j: nat, r: nat)
    requires |full| == |keys|
  {
    && (forall k <- keys :: k in buckets)
    && (forall i | 0 <= i < |keys| :: buckets[keys[i]] == Drop(full[i], if i < j then r + 1 else r))
  }

  lemma PoppedNext<P, K>(keys: seq<K>, buckets: map<K, seq<P>>, full: seq<seq<P>>, j: nat, r: nat)
    requires |full| == |keys| && j < |keys| && Popped(keys, buckets, full, j, r)
    requires forall i, j | 0 <= i < j < |keys| :: keys[i] != keys[j]
    ensures buckets[keys[j]] == [] ==> Popped(keys, buckets, full, j + 1, r)
    ensures buckets[keys[j]] != [] ==> Popped(keys, buckets[keys[j] := buckets[keys[j]][1..]], full, j + 1, r)
    ensures buckets[keys[j]] == [] <==> |full[j]| <= r
    ensures buckets[keys[j]] != [] ==> buckets[keys[j]][0] == full[j][r]
  {
    DropStep(full[j], r);
  }

  /** One round of `spreading`: pop the head of every queue that still has one. */
  method Round<P, K(==)>(keys: seq<K>, buckets: map<K, seq<P>>, ghost full: seq<seq<P>>, ghost r: nat)
    returns (left: map<K, seq<P>>, popped: seq<P>, made: bool)
    requires forall i, j | 0 <= i < j < |keys| :: keys[i] != keys[j]
    requires |full| == |keys| && Popped(keys, buckets, full, 0, r)
    ensures Popped(keys, left, full, 0, r + 1)
    ensures popped == Row(full, |full|, r)
    ensures made <==> popped != []
  {
    left, popped, made := buckets, [], false;
    for j := 0 to |keys|
      invariant Popped(keys, left, full, j, r)
      invariant popped == Row(full, j, r)
      invariant made <==> popped != []
    {
      var queue := left[keys[j]];
      PoppedNext(keys, left, full, j, r);
      if queue != [] {
        popped := popped + [queue[0]];
        left := left[keys[j] := queue[1..]];
        made := true;
      }
    }
  }

  /** `spreading`: group by key, then go round the keys until no queue has an item left. */
  method Spreading<P, K(==)>(items: seq<P>, key: P -> K) returns (out: seq<P>)
    ensures out == Spread(items, key)
  {
    var keys, buckets := Group(items, key);
    KeysDistinct(items, key);
    ghost var full := BucketsOf(items, key);
    ghost var r: nat := 0;
    out := [];
    var made := true;
    while made
      invariant Popped(keys, buckets, full, 0, r)
      invariant out == Rows(full, r)
      invariant !made ==> forall b <- full :: |b| <= r
      invariant r <= Height(full) + if made then 0 else 1
      decreases Height(full) + 1 - r
    {
      var popped;
      buckets, popped, made := Round(keys, buckets, full, r);
      RowEmpty(full, |full|, r);
      out := out + popped;
      r := r + 1;
    }
    RowsStable(full, r, Height(full));
  }

  ghost function Drop<P>(s: seq<P>, n: nat): seq<P> {
    if n <= |s| then s[n..] else []
  }

  lemma DropStep<P>(s: seq<P>, n: nat)
    ensures Drop(s, n) == [] <==> |s| <= n
    ensures n < |s| ==> Drop(s, n)[0] == s[n] && Drop(s, n)[1..] == Drop(s, n + 1)
    ensures |s| <= n ==> Drop(s, n + 1) == []
  {
  }

  lemma RowEmpty<P>(buckets: seq<seq<P>>, n: nat, r: nat)
    requires n <= |buckets|
    ensures Row(buckets, n, r) == [] <==> forall b <- buckets[..n] :: |b| <= r
  {
    if n > 0 {
      assert buckets[..n] == buckets[..n - 1] + [buckets[n - 1]];
    }
  }

  lemma RowBeyond<P>(buckets: seq<seq<P>>, r: nat)
    requires forall b <- buckets :: |b| <= r
    ensures Row(buckets, |buckets|, r) == []
  {
    assert buckets[..|buckets|] == buckets;
    RowEmpty(buckets, |buckets|, r);
  }

  lemma RowAddsNothing<P>(buckets: seq<seq<P>>, n: nat)
    requires n > 0 && Row(buckets, |buckets|, n - 1) == []
    ensures Rows(buckets, n) == Rows(buckets, n - 1)
  {
    var before := Rows(buckets, n - 1);
    assert before + [] == before;
  }

  lemma {:induction false} RowsBeyond<P>(buckets: seq<seq<P>>, h: nat, n: nat)
    requires h <= n && forall r: nat | h <= r < n :: Row(buckets, |buckets|, r) == []
    ensures Rows(buckets, n) == Rows(buckets, h)
  {
    if h < n {
      RowAddsNothing(buckets, n);
      RowsBeyond(buckets, h, n - 1);
    }
  }

  lemma RowsStable<P>(buckets: seq<seq<P>>, m: nat, n: nat)
    requires forall b <- buckets :: |b| <= m
    requires forall b <- buckets :: |b| <= n
    ensures Rows(buckets, m) == Rows(buckets, n)
  {
    forall r: nat | m <= r || n <= r ensures Row(buckets, |buckets|, r) == [] {
      RowBeyond(buckets, r);
    }
    if m <= n {
      RowsBeyond(buckets, m, n);
    } else {
      RowsBeyond(buckets, n, m);
    }
  }

  // ----- Every key's items come out complete and in their own order -----

  /** Pairwise different labels, and every bucket holds only items of its name. */
  ghost predicate Labelled<P, K>(buckets: seq<seq<P>>, labels: seq<K>, key: P -> K) {
    && |buckets| == |labels|
    && (forall i, j | 0 <= i < j < |labels| :: labels[i] != labels[j])
    && (forall i, r | 0 <= i < |buckets| && 0 <= r < |buckets[i]| :: key(buckets[i][r]) == labels[i])
  }

  lemma BucketAppend<P, K>(items: seq<P>, p: P, key: P -> K, k: K)
    ensures Bucket(items + [p], key, k) == Bucket(items, key, k) + if key(p) == k then [p] else []
  {
    assert (items + [p])[..|items|] == items;
  }

  lemma {:induction false} RowOfKey<P, K>(buckets: seq<seq<P>>, labels: seq<K>, key: P -> K, n: nat, r: nat, a: nat)
    requires Labelled(buckets, labels, key) && n <= |buckets| && a < |labels|
    ensures Bucket(Row(buckets, n, r), key, labels[a]) == if a < n && r < |buckets[a]| then [buckets[a][r]] else []
  {
    if n > 0 {
      RowOfKey(buckets, labels, key, n - 1, r, a);
      if r < |buckets[n - 1]| {
        BucketAppend(Row(buckets, n - 1, r), buckets[n - 1][r], key, labels[a]);
      }
    }
  }

  lemma {:induction false} RowOfNoKey<P, K>(buckets: seq<seq<P>>, labels: seq<K>, key: P -> K, n: nat, r: nat, k: K)
    requires Labelled(buckets, labels, key) && n <= |buckets| && k !in labels
    ensures Bucket(Row(buckets, n, r), key, k) == []
  {
    if n > 0 {
      RowOfNoKey(buckets, labels, key, n - 1, r, k);
      if r < |buckets[n - 1]| {
        BucketAppend(Row(buckets, n - 1, r), buckets[n - 1][r], key, k);
      }
    }
  }

  function Take<P>(s: seq<P>, n: nat): seq<P> {
    if n <= |s| then s[..n] else s
  }

  lemma TakeNext<P>(s: seq<P>, n: nat)
    ensures Take(s, n + 1) == Take(s, n) + if n < |s| then [s[n]] else []
  {
  }

  lemma RowsOfKeyNext<P, K>(before: seq<P>, row: seq<P>, key: P -> K, m: nat, n: nat, k: K, bucket: seq<P>)
    requires n == m + 1 && Bucket(before, key, k) == Take(bucket, m)
    requires Bucket(row, key, k) == if m < |bucket| then [bucket[m]] else []
    ensures Bucket(before + row, key, k) == Take(bucket, n)
  {
    BucketConcat(before, row, key, k);
    TakeNext(bucket, m);
  }

  lemma {:induction false} RowsOfKey<P, K>(buckets: seq<seq<P>>, labels: seq<K>, key: P -> K, n: nat, a: nat)
    requires Labelled(buckets, labels, key) && a < |labels|
    ensures Bucket(Rows(buckets, n), key, labels[a]) == Take(buckets[a], n)
  {
    if n > 0 {
      var m, k, bucket := n - 1, labels[a], buckets[a];
      var before, row := Rows(buckets, m), Row(buckets, |buckets|, m);
      RowsOfKey(buckets, labels, key, m, a);
      RowOfKey(buckets, labels, key, |buckets|, m, a);
      assert Bucket(row, key, k) == if m < |bucket| then [bucket[m]] else [];
      RowsOfKeyNext(before, row, key, m, n, k, bucket);
      assert Rows(buckets, n) == before + row;
    }
  }

  lemma {:induction false} RowsOfNoKey<P, K>(buckets: seq<seq<P>>, labels: seq<K>, key: P -> K, n: nat, k: K)
    requires Labelled(buckets, labels, key) && k !in labels
    ensures Bucket(Rows(buckets, n), key, k) == []
  {
    if n > 0 {
      RowsOfNoKey(buckets, labels, key, n - 1, k);
      BucketConcat(Rows(buckets, n - 1), Row(buckets, |buckets|, n - 1), key, k);
      RowOfNoKey(buckets, labels, key, |buckets|, n - 1, k);
    }
  }

  lemma BucketsLabelled<P, K>(items: seq<P>, key: P -> K)
    ensures Labelled(BucketsOf(items, key), KeysOf(items, key), key)
  {
    var ks := KeysOf(items, key);
    KeysDistinct(items, key);
    forall i | 0 <= i < |ks| ensures forall p <- BucketsOf(items, key)[i] :: key(p) == ks[i] {
      BucketHasKey(items, key, ks[i]);
    }
  }

  /** Spreading keeps each key's items and their order. */
  lemma SpreadKeepsKeyOrder<P, K>(items: seq<P>, key: P -> K, k: K)
    ensures Bucket(Spread(items, key), key, k) == Bucket(items, key, k)
  {
    var buckets, ks := BucketsOf(items, key), KeysOf(items, key);
    BucketsLabelled(items, key);
    KeysComplete(items, key, k);
    if k in ks {
      var a :| 0 <= a < |ks| && ks[a] == k;
      assert buckets[a] in buckets;
      RowsOfKey(buckets, ks, key, Height(buckets), a);
      assert buckets[a][..|buckets[a]|] == buckets[a];
    } else {
      RowsOfNoKey(buckets, ks, key, Height(buckets), k);
    }
  }

  /** Spreading neither loses nor duplicates an item. */
  lemma SpreadPermutes<P, K>(items: seq<P>, key: P -> K)
    ensures multiset(Spread(items, key)) == multiset(items)
  {
    var out := Spread(items, key);
    forall p: P ensures multiset(out)[p] == multiset(items)[p] {
      SpreadKeepsKeyOrder(items, key, key(p));
      BucketCount(items, key, p);
      BucketCount(out, key, p);
    }
    SameCounts(out, items);
  }

  lemma SameCounts<P>(a: seq<P>, b: seq<P>)
    requires forall p: P :: multiset(a)[p] == multiset(b)[p]
    ensures multiset(a) == multiset(b)
  {
  }

  // ----- The interleaving law -----

  /** `out[p]` is the `r`-th item (counting from 0) of key `k`. */
  ghost predicate IsAt<P, K>(out: seq<P>, key: P -> K, k: K, r: nat, p: nat) {
    p < |out| && key(out[p]) == k && |Bucket(out[..p], key, k)| == r
  }

  function Pos<P>(buckets: seq<seq<P>>, a: nat, r: nat): nat
    requires a < |buckets|
  {
    |Rows(buckets, r)| + |Row(buckets, a, r)|
  }

  lemma {:induction false} RowPrefix<P>(buckets: seq<seq<P>>, a: nat, n: nat, r: nat)
    requires a < n <= |buckets| && r < |buckets[a]|
    ensures Row(buckets, a, r) + [buckets[a][r]] <= Row(buckets, n, r)
  {
    if a < n - 1 {
      RowPrefix(buckets, a, n - 1, r);
    }
  }

  lemma {:induction false} RowsPrefix<P>(buckets: seq<seq<P>>, m: nat, n: nat)
    requires m <= n
    ensures Rows(buckets, m) <= Rows(buckets, n)
  {
    if m < n {
      RowsPrefix(buckets, m, n - 1);
    }
  }

  lemma PosOrder<P>(buckets: seq<seq<P>>, a: nat, r: nat, b: nat, s: nat)
    requires a < |buckets| && r < |buckets[a]|
    requires b < |buckets| && s < |buckets[b]|
    requires r < s || (r == s && a < b)
    ensures Pos(buckets, a, r) < Pos(buckets, b, s)
  {
    RowPrefix(buckets, a, if r == s then b else |buckets|, r);
    if r < s {
      RowsPrefix(buckets, r + 1, s);
    }
  }

  lemma PosOrderExactly<P>(buckets: seq<seq<P>>, a: nat, r: nat, b: nat, s: nat)
    requires a < |buckets| && r < |buckets[a]|
    requires b < |buckets| && s < |buckets[b]|
    ensures Pos(buckets, a, r) < Pos(buckets, b, s) <==> r < s || (r == s && a < b)
  {
    if r < s || (r == s && a < b) {
      PosOrder(buckets, a, r, b, s);
    } else if r > s || a > b {
      PosOrder(buckets, b, s, a, r);
    }
  }

  lemma PosIsAt<P, K>(buckets: seq<seq<P>>, labels: seq<K>, key: P -> K, h: nat, a: nat, r: nat)
    requires Labelled(buckets, labels, key)
    requires a < |buckets| && r < |buckets[a]| && r < h
    ensures Pos(buckets, a, r) < |Rows(buckets, h)|
    ensures Rows(buckets, h)[Pos(buckets, a, r)] == buckets[a][r]
    ensures IsAt(Rows(buckets, h), key, labels[a], r, Pos(buckets, a, r))
  {
    var out, before, row := Rows(buckets, h), Rows(buckets, r), Row(buckets, a, r);
    RowPrefix(buckets, a, |buckets|, r);
    RowsPrefix(buckets, r + 1, h);
    assert before + row + [buckets[a][r]] <= Rows(buckets, r + 1) <= out;
    assert out[..Pos(buckets, a, r)] == before + row;
    BucketConcat(before, row, key, labels[a]);
    RowsOfKey(buckets, labels, key, r, a);
    RowOfKey(buckets, labels, key, a, r, a);
  }

  lemma BucketPrefix<P, K>(out: seq<P>, key: P -> K, k: K, m: nat, n: nat)
    requires m <= n <= |out|
    ensures Bucket(out[..m], key, k) <= Bucket(out[..n], key, k)
  {
    assert out[..n] == out[..m] + out[m..n];
    BucketConcat(out[..m], out[m..n], key, k);
  }

  lemma IsAtCounts<P, K>(out: seq<P>, key: P -> K, k: K, r: nat, p: nat, n: nat)
    requires IsAt(out, key, k, r, p) && n <= |out|
    ensures p < n <==> r < |Bucket(out[..n], key, k)|
  {
    assert out[..p + 1][..p] == out[..p];
    if p < n {
      BucketPrefix(out, key, k, p + 1, n);
    } else {
      BucketPrefix(out, key, k, n, p);
    }
  }

  /** The position of the `r`-th item of the `a`-th key in the spread list. */
  lemma SpreadAt<P, K>(items: seq<P>, key: P -> K, a: nat, r: nat) returns (p: nat)
    requires a < |KeysOf(items, key)| && r < |Bucket(items, key, KeysOf(items, key)[a])|
    ensures p == Pos(BucketsOf(items, key), a, r)
    ensures IsAt(Spread(items, key), key, KeysOf(items, key)[a], r, p)
    ensures Spread(items, key)[p] == Bucket(items, key, KeysOf(items, key)[a])[r]
  {
    var buckets := BucketsOf(items, key);
    BucketsLabelled(items, key);
    assert buckets[a] in buckets;
    PosIsAt(buckets, KeysOf(items, key), key, Height(buckets), a, r);
    p := Pos(buckets, a, r);
  }

  /**
   * The exact interleaving: of any two output positions, the one holding the lower turn number comes
   * first, and within one turn the key seen first in the input.
   */
  lemma SpreadOrder<P, K>(items: seq<P>, key: P -> K, a: nat, r: nat, p: nat, b: nat, s: nat, q: nat)
    requires a < |KeysOf(items, key)| && b < |KeysOf(items, key)|
    requires IsAt(Spread(items, key), key, KeysOf(items, key)[a], r, p)
    requires IsAt(Spread(items, key), key, KeysOf(items, key)[b], s, q)
    ensures p < q <==> r < s || (r == s && a < b)
  {
    var _ := SpreadAtUnique(items, key, a, r, p);
    var _ := SpreadAtUnique(items, key, b, s, q);
    PosOrderExactly(BucketsOf(items, key), a, r, b, s);
  }

  lemma SpreadAtUnique<P, K>(items: seq<P>, key: P -> K, a: nat, r: nat, p: nat) returns (p': nat)
    requires a < |KeysOf(items, key)|
    requires IsAt(Spread(items, key), key, KeysOf(items, key)[a], r, p)
    ensures r < |Bucket(items, key, KeysOf(items, key)[a])|
    ensures p == p' == Pos(BucketsOf(items, key), a, r)
  {
    var out, k := Spread(items, key), KeysOf(items, key)[a];
    assert out[..|out|] == out;
    IsAtCounts(out, key, k, r, p, |out|);
    SpreadKeepsKeyOrder(items, key, k);
    p' := SpreadAt(items, key, a, r);
    IsAtCounts(out, key, k, r, p, p');
    IsAtCounts(out, key, k, r, p', p);
  }

  /** Fairness: in any prefix no key is more than one item ahead of a key that still has items to come. */
  lemma SpreadFair<P, K>(items: seq<P>, key: P -> K, n: nat, k: K, j: K)
    requires n <= |Spread(items, key)|
    requires |Bucket(Spread(items, key)[..n], key, k)| < |Bucket(items, key, k)|
    ensures |Bucket(Spread(items, key)[..n], key, j)| <= |Bucket(Spread(items, key)[..n], key, k)| + 1
  {
    var out, ks := Spread(items, key), KeysOf(items, key);
    var c, d := |Bucket(out[..n], key, k)|, |Bucket(out[..n], key, j)|;
    if d > c + 1 {
      KeysComplete(items, key, k);
      KeysComplete(items, key, j);
      assert out[..|out|] == out;
      BucketPrefix(out, key, j, n, |out|);
      SpreadKeepsKeyOrder(items, key, j);
      var a :| 0 <= a < |ks| && ks[a] == k;
      var b :| 0 <= b < |ks| && ks[b] == j;
      var p := SpreadAt(items, key, a, c);
      var q := SpreadAt(items, key, b, d - 1);
      IsAtCounts(out, key, k, c, p, n);
      IsAtCounts(out, key, j, d - 1, q, n);
      SpreadOrder(items, key, a, c, p, b, d - 1, q);
      assert false;
    }
  }

  // ----- Spreading lists that are already grouped by key -----

  function Flat<P>(buckets: seq<seq<P>>): seq<P> {
    if buckets == [] then [] else Flat(buckets[..|buckets| - 1]) + buckets[|buckets| - 1]
  }

  lemma FlatNext<P>(buckets: seq<seq<P>>, n: nat)
    requires n < |buckets|
    ensures Flat(buckets[..n + 1]) == Flat(buckets[..n]) + buckets[n]
  {
    assert buckets[..n + 1][..n] == buckets[..n];
  }

  lemma {:induction false} FlatOfKey<P, K>(buckets: seq<seq<P>>, labels: seq<K>, key: P -> K, n: nat, a: nat)
    requires Labelled(buckets, labels, key) && n <= |buckets| && a < |labels|
    ensures Bucket(Flat(buckets[..n]), key, labels[a]) == if a < n then buckets[a] else []
  {
    if n > 0 {
      FlatOfKey(buckets, labels, key, n - 1, a);
      FlatNext(buckets, n - 1);
      BucketConcat(Flat(buckets[..n - 1]), buckets[n - 1], key, labels[a]);
      BucketUniform(buckets[n - 1], key, labels[n - 1], labels[a]);
    }
  }

  lemma {:induction false} FlatOfNoKey<P, K>(buckets: seq<seq<P>>, labels: seq<K>, key: P -> K, n: nat, k: K)
    requires Labelled(buckets, labels, key) && n <= |buckets| && k !in labels
    ensures Bucket(Flat(buckets[..n]), key, k) == []
  {
    if n > 0 {
      FlatOfNoKey(buckets, labels, key, n - 1, k);
      FlatNext(buckets, n - 1);
      BucketConcat(Flat(buckets[..n - 1]), buckets[n - 1], key, k);
      BucketUniform(buckets[n - 1], key, labels[n - 1], k);
    }
  }

  lemma {:induction false} BucketUniform<P, K>(items: seq<P>, key: P -> K, name: K, k: K)
    requires forall i | 0 <= i < |items| :: key(items[i]) == name
    ensures Bucket(items, key, k) == if k == name then items else []
  {
    if items != [] {
      assert items == items[..|items| - 1] + [items[|items| - 1]];
      BucketUniform(items[..|items| - 1], key, name, k);
    }
  }

  lemma RowsKeepKey<P, K>(buckets: seq<seq<P>>, labels: seq<K>, key: P -> K, h: nat, k: K)
    requires Labelled(buckets, labels, key) && h >= Height(buckets)
    ensures Bucket(Rows(buckets, h), key, k) == Bucket(Flat(buckets), key, k)
  {
    assert buckets[..|buckets|] == buckets;
    if k in labels {
      var a :| 0 <= a < |labels| && labels[a] == k;
      FlatOfKey(buckets, labels, key, |buckets|, a);
      RowsOfKey(buckets, labels, key, h, a);
      assert buckets[a] in buckets;
      assert buckets[a][..|buckets[a]|] == buckets[a];
    } else {
      FlatOfNoKey(buckets, labels, key, |buckets|, k);
      RowsOfNoKey(buckets, labels, key, h, k);
    }
  }

  /** Whatever the grouping, going through all rows gives a rearrangement of the groups' items. */
  lemma RowsPermute<P, K>(buckets: seq<seq<P>>, labels: seq<K>, key: P -> K, h: nat)
    requires Labelled(buckets, labels, key) && h >= Height(buckets)
    ensures multiset(Rows(buckets, h)) == multiset(Flat(buckets))
  {
    var out, items := Rows(buckets, h), Flat(buckets);
    forall p: P ensures multiset(out)[p] == multiset(items)[p] {
      RowsKeepKey(buckets, labels, key, h, key(p));
      BucketCount(items, key, p);
      BucketCount(out, key, p);
    }
    SameCounts(out, items);
  }

  function NonEmpty<P>(buckets: seq<seq<P>>, n: nat): seq<seq<P>>
    requires n <= |buckets|
  {
    if n == 0 then []
    else if buckets[n - 1] == [] then NonEmpty(buckets, n - 1)
    else NonEmpty(buckets, n - 1) + [buckets[n - 1]]
  }

  lemma RowSlice<P>(buckets: seq<seq<P>>, more: seq<seq<P>>, n: nat, r: nat)
    requires n <= |buckets|
    ensures Row(buckets + more, n, r) == Row(buckets, n, r)
  {
  }

  lemma RowNonEmpty<P>(buckets: seq<seq<P>>, n: nat, r: nat)
    requires n <= |buckets|
    ensures Row(NonEmpty(buckets, n), |NonEmpty(buckets, n)|, r) == Row(buckets, n, r)
  {
    if n > 0 && buckets[n - 1] != [] {
      RowSlice(NonEmpty(buckets, n - 1), [buckets[n - 1]], |NonEmpty(buckets, n - 1)|, r);
    }
  }

  lemma RowsNonEmpty<P>(buckets: seq<seq<P>>, m: nat)
    ensures Rows(NonEmpty(buckets, |buckets|), m) == Rows(buckets, m)
  {
    if m > 0 {
      RowNonEmpty(buckets, |buckets|, m - 1);
    }
  }

  lemma KeysAppendGroup<P, K>(items: seq<P>, group: seq<P>, key: P -> K, name: K)
    requires forall i | 0 <= i < |group| :: key(group[i]) == name
    ensures KeysOf(items + group, key) ==
            if group == [] || name in KeysOf(items, key) then KeysOf(items, key) else KeysOf(items, key) + [name]
  {
    if group == [] {
      assert items + group == items;
    } else {
      assert (items + group)[..|items + group| - 1] == items + group[..|group| - 1];
      KeysAppendGroup(items, group[..|group| - 1], key, name);
    }
  }

  /** The labels of the non-empty buckets among the first `n`. */
  function NonEmptyLabels<P, K>(buckets: seq<seq<P>>, labels: seq<K>, n: nat): seq<K>
    requires n <= |buckets| == |labels|
  {
    if n == 0 then []
    else if buckets[n - 1] == [] then NonEmptyLabels(buckets, labels, n - 1)
    else NonEmptyLabels(buckets, labels, n - 1) + [labels[n - 1]]
  }

  lemma {:induction false} NonEmptyParallel<P, K>(buckets: seq<seq<P>>, labels: seq<K>, n: nat)
    requires n <= |buckets| == |labels|
    ensures |NonEmptyLabels(buckets, labels, n)| == |NonEmpty(buckets, n)|
  {
    if n > 0 {
      NonEmptyParallel(buckets, labels, n - 1);
    }
  }

  lemma {:induction false} NonEmptyAt<P, K>(buckets: seq<seq<P>>, labels: seq<K>, n: nat, i: nat) returns (a: nat)
    requires n <= |buckets| == |labels| && i < |NonEmptyLabels(buckets, labels, n)| == |NonEmpty(buckets, n)|
    ensures a < n && labels[a] == NonEmptyLabels(buckets, labels, n)[i] && buckets[a] == NonEmpty(buckets, n)[i]
  {
    NonEmptyParallel(buckets, labels, n - 1);
    if i < |NonEmpty(buckets, n - 1)| {
      a := NonEmptyAt(buckets, labels, n - 1, i);
    } else {
      a := n - 1;
    }
  }

  lemma LabelIsNew<P, K>(buckets: seq<seq<P>>, labels: seq<K>, key: P -> K, n: nat)
    requires Labelled(buckets, labels, key) && n < |buckets|
    ensures labels[n] !in NonEmptyLabels(buckets, labels, n)
  {
    NonEmptyParallel(buckets, labels, n);
    forall i | 0 <= i < |NonEmptyLabels(buckets, labels, n)|
      ensures NonEmptyLabels(buckets, labels, n)[i] != labels[n]
    {
      var a := NonEmptyAt(buckets, labels, n, i);
    }
  }

  lemma {:induction false} KeysOfGroups<P, K>(buckets: seq<seq<P>>, labels: seq<K>, key: P -> K, n: nat)
    requires Labelled(buckets, labels, key) && n <= |buckets|
    ensures KeysOf(Flat(buckets[..n]), key) == NonEmptyLabels(buckets, labels, n)
  {
    if n > 0 {
      KeysOfGroups(buckets, labels, key, n - 1);
      assert buckets[..n][..n - 1] == buckets[..n - 1];
      KeysAppendGroup(Flat(buckets[..n - 1]), buckets[n - 1], key, labels[n - 1]);
      LabelIsNew(buckets, labels, key, n - 1);
    }
  }

  lemma BucketsOfGroups<P, K>(buckets: seq<seq<P>>, labels: seq<K>, key: P -> K)
    requires Labelled(buckets, labels, key)
    ensures BucketsOf(Flat(buckets), key) == NonEmpty(buckets, |buckets|)
  {
    var n := |buckets|;
    assert buckets[..n] == buckets;
    KeysOfGroups(buckets, labels, key, n);
    NonEmptyParallel(buckets, labels, n);
    var ks := KeysOf(Flat(buckets), key);
    forall i | 0 <= i < |ks| ensures Bucket(Flat(buckets), key, ks[i]) == NonEmpty(buckets, n)[i] {
      var a := NonEmptyAt(buckets, labels, n, i);
      FlatOfKey(buckets, labels, key, n, a);
    }
  }

  /** Spreading a list made of one group per key goes through the groups row by row. */
  lemma SpreadOfGroups<P, K>(buckets: seq<seq<P>>, labels: seq<K>, key: P -> K, h: nat)
    requires Labelled(buckets, labels, key) && h >= Height(buckets)
    ensures Spread(Flat(buckets), key) == Rows(buckets, h)
  {
    var full := NonEmpty(buckets, |buckets|);
    BucketsOfGroups(buckets, labels, key);
    RowsNonEmpty(buckets, Height(full));
    NonEmptyMember(buckets, |buckets|);
    forall b <- buckets ensures |b| <= Height(full) {
      var i :| 0 <= i < |buckets| && buckets[i] == b;
    }
    RowsStable(buckets, Height(full), h);
  }

  lemma NonEmptyMember<P>(buckets: seq<seq<P>>, n: nat)
    requires n <= |buckets|
    ensures forall i | 0 <= i < n && buckets[i] != [] :: buckets[i] in NonEmpty(buckets, n)
  {
  }
}
