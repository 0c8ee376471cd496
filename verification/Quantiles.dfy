/** Exact quantiles over a frequency map: the key walk, and what it means for the observations. */

module Quantiles {
  import opened Picks
  import opened Frequency

  // ------------------------------------------------------- specification

  function Ceiling(x: real): (n: int)
    ensures x <= n as real < x + 1.0
  {
    -((-x).Floor)
  }

  function Scale(q: real, n: nat): real {
    q * n as real
  }

  function Clamp(rank: int, n: nat): (r: nat)
    requires n > 0
    ensures 1 <= r <= n
  {
    if rank < 1 then 1 else if rank > n then n else rank
  }

  /** The rank a quantile asks for among n observations: ceil(q * n) brought into 1..n. */
  function Rank(q: real, n: nat): (r: nat)
    requires n > 0
    ensures 1 <= r <= n
  {
    Clamp(Ceiling(Scale(q, n)), n)
  }

  /** The nearest-rank value in microseconds. */
  ghost function NearestRank(ms: multiset<int>, q: real): int
    requires |ms| > 0
  {
    Sorted(ms)[Rank(q, |ms|) - 1]
  }

  /** The same in milliseconds, with the source's zero for an empty window. */
  ghost function QuantileMs(ms: multiset<int>, q: real): real {
    if |ms| == 0 then 0.0 else NearestRank(ms, q) as real / 1000.0
  }

  /** How many entries of s are at most v. */
  function AtMost(s: seq<int>, v: int): (n: nat)
    ensures n <= |s|
  {
    if s == [] then 0
    else AtMost(s[..|s| - 1], v) + if s[|s| - 1] <= v then 1 else 0
  }

  lemma {:induction false} AtMostSplit(s: seq<int>, n: nat, v: int)
    requires n <= |s|
    ensures AtMost(s[..n], v) <= AtMost(s, v)
    ensures (forall i :: n <= i < |s| ==> s[i] > v) ==> AtMost(s, v) == AtMost(s[..n], v)
    decreases |s| - n
  {
    if n == |s| {
      assert s[..n] == s;
    } else {
      assert s[..n + 1][..n] == s[..n];
      AtMostSplit(s, n + 1, v);
    }
  }

  lemma {:induction false} AtMostAll(s: seq<int>, v: int)
    requires forall i :: 0 <= i < |s| ==> s[i] <= v
    ensures AtMost(s, v) == |s|
  {
    if s == [] {
    } else {
      AtMostAll(s[..|s| - 1], v);
    }
  }

  lemma {:induction false} RankedIsLeast(s: seq<int>, r: nat, w: int)
    requires Ascending(s) && 1 <= r <= |s|
    ensures AtMost(s, s[r - 1]) >= r
    ensures AtMost(s, w) >= r ==> s[r - 1] <= w
  {
    AtMostAll(s[..r], s[r - 1]);
    AtMostSplit(s, r, s[r - 1]);
    if w < s[r - 1] {
      AtMostSplit(s, r - 1, w);
    }
  }

  /** The documented definition of nearest rank: the value is observed, at least `rank` observations are at
      most it, and no smaller number has that many at or below it. */
  lemma NearestRankIsLeast(ms: multiset<int>, q: real)
    requires |ms| > 0
    ensures NearestRank(ms, q) in ms
    ensures AtMost(Sorted(ms), NearestRank(ms, q)) >= Rank(q, |ms|)
    ensures forall w :: AtMost(Sorted(ms), w) >= Rank(q, |ms|) ==> NearestRank(ms, q) <= w
  {
    var s, r := Sorted(ms), Rank(q, |ms|);
    assert s[r - 1] in multiset(s);
    RankedIsLeast(s, r, s[r - 1]);
    forall w | AtMost(s, w) >= r ensures s[r - 1] <= w {
      RankedIsLeast(s, r, w);
    }
  }

  lemma ScaleBounds(q: real, n: nat)
    requires n > 0
    ensures Scale(q, n) == q * n as real
    ensures q <= 0.0 ==> q * n as real <= 0.0
    ensures 0.0 < q <= 1.0 ==> 0.0 < q * n as real <= n as real
    ensures q >= 1.0 ==> q * n as real >= n as real
  {
  }

  /** A fraction q of n observations ends within the one of this rank. */
  lemma RankCovers(q: real, n: nat)
    requires n > 0
    ensures 0.0 < q <= 1.0 ==> (Rank(q, n) - 1) as real < q * n as real <= Rank(q, n) as real
    ensures q <= 0.0 ==> Rank(q, n) == 1
    ensures q >= 1.0 ==> Rank(q, n) == n
  {
    ScaleBounds(q, n);
    hide Scale;
  }

  lemma {:induction false} Covering(s: seq<int>, rank: nat, part: real, w: int)
    requires Ascending(s) && 1 <= rank <= |s| && (rank - 1) as real < part <= rank as real
    ensures AtMost(s, w) as real >= part <==> s[rank - 1] <= w
  {
    RankedIsLeast(s, rank, w);
    if s[rank - 1] <= w {
      AtMostMonotone(s, s[rank - 1], w);
    }
  }

  /** The same in terms of the fraction: the value is the least number that at least the fraction q of the
      observations does not exceed; the least observation for a q below that, the greatest for one above. */
  lemma NearestRankCovers(ms: multiset<int>, q: real)
    requires |ms| > 0
    ensures NearestRank(ms, q) in ms
    ensures 0.0 < q <= 1.0 ==>
      forall w :: AtMost(Sorted(ms), w) as real >= q * |ms| as real <==> NearestRank(ms, q) <= w
    ensures q <= 0.0 ==> forall x :: x in ms ==> NearestRank(ms, q) <= x
    ensures q >= 1.0 ==> forall x :: x in ms ==> x <= NearestRank(ms, q)
  {
    hide *;
    RankCovers(q, |ms|);
    NearestRankIsLeast(ms, q);
    SortedEnds(ms);
    RankedValue(ms, q);
    if 0.0 < q <= 1.0 {
      CoversExactly(ms, Rank(q, |ms|), q * |ms| as real);
    }
  }

  lemma RankedValue(ms: multiset<int>, q: real)
    requires |ms| > 0
    ensures NearestRank(ms, q) == Sorted(ms)[Rank(q, |ms|) - 1]
  {
  }

  lemma {:induction false} CoversExactly(ms: multiset<int>, rank: nat, part: real)
    requires 1 <= rank <= |ms| && (rank - 1) as real < part <= rank as real
    ensures forall w :: AtMost(Sorted(ms), w) as real >= part <==> Sorted(ms)[rank - 1] <= w
  {
    forall w ensures AtMost(Sorted(ms), w) as real >= part <==> Sorted(ms)[rank - 1] <= w {
      Covering(Sorted(ms), rank, part, w);
    }
  }

  lemma SortedEnds(ms: multiset<int>)
    requires |ms| > 0
    ensures forall x :: x in ms ==> Sorted(ms)[0] <= x <= Sorted(ms)[|ms| - 1]
  {
    var s := Sorted(ms);
    forall x | x in ms ensures s[0] <= x <= s[|ms| - 1] {
      assert x in multiset(s);
      assert x in s;
    }
  }

  lemma {:induction false} AtMostMonotone(s: seq<int>, v: int, w: int)
    requires v <= w
    ensures AtMost(s, v) <= AtMost(s, w)
  {
    if s == [] {
    } else {
      AtMostMonotone(s[..|s| - 1], v, w);
    }
  }

  lemma CeilingMonotone(x: real, y: real)
    requires x <= y
    ensures Ceiling(x) <= Ceiling(y)
  {
  }

  lemma ScaleMonotone(p: real, q: real, n: nat)
    requires p <= q
    ensures Scale(p, n) <= Scale(q, n)
  {
  }

  lemma RankMonotone(p: real, q: real, n: nat)
    requires n > 0 && p <= q
    ensures Rank(p, n) <= Rank(q, n)
  {
    ScaleMonotone(p, q, n);
    CeilingMonotone(Scale(p, n), Scale(q, n));
  }

  /** A larger quantile is never a smaller latency. */
  lemma NearestRankMonotone(ms: multiset<int>, p: real, q: real)
    requires |ms| > 0 && p <= q
    ensures NearestRank(ms, p) <= NearestRank(ms, q)
  {
    RankMonotone(p, q, |ms|);
  }

  // ------------------------------------------------- the expanded key list

  function Copies(k: int, n: nat): (s: seq<int>)
    ensures |s| == n && forall i :: 0 <= i < n ==> s[i] == k
  {
    seq(n, _ => k)
  }

  /** Every key repeated as often as it was observed, in key order. */
  ghost function Expand(m: Freq, keys: seq<int>): seq<int> {
    if keys == [] then []
    else Expand(m, keys[..|keys| - 1]) + Copies(keys[|keys| - 1], Get(m, keys[|keys| - 1]))
  }

  lemma {:induction false} CopiesMultiset(k: int, n: nat)
    ensures multiset(Copies(k, n)) == multiset{}[k := n]
  {
    if n == 0 {
    } else {
      CopiesMultiset(k, n - 1);
      assert Copies(k, n) == Copies(k, n - 1) + [k];
    }
  }

  lemma {:induction false} ExpandBelow(m: Freq, keys: seq<int>)
    requires StrictlyAscending(keys)
    ensures Ascending(Expand(m, keys))
    ensures forall x :: x in Expand(m, keys) ==> x in keys
  {
    if keys == [] {
    } else {
      var init, last := keys[..|keys| - 1], keys[|keys| - 1];
      ExpandBelow(m, init);
      var e, c := Expand(m, init), Copies(last, Get(m, last));
      forall i, j | 0 <= i < j < |e + c| ensures (e + c)[i] <= (e + c)[j] {
        if i < |e| {
          assert e[i] in e && e[i] in init;
        }
      }
    }
  }

  lemma {:induction false} ExpandCount(m: Freq, keys: seq<int>, x: int)
    requires StrictlyAscending(keys)
    ensures multiset(Expand(m, keys))[x] == if x in keys then Get(m, x) else 0
  {
    if keys == [] {
    } else {
      var init, last := keys[..|keys| - 1], keys[|keys| - 1];
      ExpandCount(m, init, x);
      CopiesMultiset(last, Get(m, last));
      assert keys == init + [last];
      assert last !in init;
    }
  }

  /** Key by key repetition is exactly the ascending list of observations. */
  lemma {:induction false} ExpandIsSorted(m: Freq, keys: seq<int>)
    requires StrictlyAscending(keys) && forall k :: k in keys <==> k in m
    ensures Expand(m, keys) == Sorted(Obs(m))
  {
    ExpandBelow(m, keys);
    var left, right := multiset(Expand(m, keys)), Obs(m);
    forall x: int ensures left[x] == right[x] {
      ExpandCount(m, keys, x);
    }
    assert left == right;
    AscendingUnique(Expand(m, keys), Sorted(Obs(m)));
  }

  lemma {:induction false} ExpandPrefix(m: Freq, keys: seq<int>, i: nat)
    requires i <= |keys|
    ensures Expand(m, keys[..i]) <= Expand(m, keys)
    decreases |keys| - i
  {
    if i == |keys| {
      assert keys[..i] == keys;
    } else {
      ExpandPrefix(m, keys, i + 1);
      assert keys[..i + 1][..i] == keys[..i];
    }
  }

  // -------------------------------------------------------------- the code

  /** The distinct latencies in ascending order and the number of observations. */
  method SortedKeys(latencies: Freq) returns (keys: seq<int>, total: nat)
    ensures StrictlyAscending(keys) && forall k :: k in keys <==> k in latencies
    ensures total == |Obs(latencies)|
  {
    keys, total := [], 0;
    var left := latencies.Keys;
    ghost var done: Freq := map[];
    while left != {}
      invariant left <= latencies.Keys && done.Keys == latencies.Keys - left
      invariant forall k :: k in done ==> done[k] == latencies[k]
      invariant StrictlyAscending(keys) && forall k :: k in keys <==> k in done
      invariant total == |Obs(done)|
    {
      var us := Pick(left);
      left := left - {us};
      ObsExtends(done, us, latencies[us]);
      done := done[us := latencies[us]];
      keys := InsertKey(keys, us);
      total := total + latencies[us];
    }
    ObsSame(done, latencies);
  }

  lemma InsertStrictly(keys: seq<int>, i: nat, k: int)
    requires StrictlyAscending(keys) && i <= |keys|
    requires (forall j :: 0 <= j < i ==> keys[j] < k) && forall j :: i <= j < |keys| ==> k < keys[j]
    ensures StrictlyAscending(keys[..i] + [k] + keys[i..])
  {
  }

  /** The library sort, applied as the keys arrive. */
  function InsertKey(keys: seq<int>, k: int): (r: seq<int>)
    requires StrictlyAscending(keys) && k !in keys
    ensures StrictlyAscending(r) && forall x :: x in r <==> x in keys || x == k
  {
    var i := Place(keys, k);
    assert forall j :: i <= j < |keys| ==> keys[j] in keys;
    InsertStrictly(keys, i, k);
    InsertMembers(keys, i, k);
    keys[..i] + [k] + keys[i..]
  }

  /** Observations of the first i keys. */
  ghost function Passed(m: Freq, keys: seq<int>, i: nat): nat
    requires i <= |keys|
  {
    |Expand(m, keys[..i])|
  }

  /** The observations of key i are the ones ranked after those of the keys before it, up to and including
      its own count; after the last key every observation has been passed. */
  lemma {:induction false} KeyBlock(m: Freq, keys: seq<int>, i: nat, r: nat)
    requires i < |keys| && StrictlyAscending(keys) && forall k :: k in keys <==> k in m
    ensures Passed(m, keys, i + 1) == Passed(m, keys, i) + Get(m, keys[i])
    ensures i + 1 == |keys| ==> Passed(m, keys, i + 1) == |Obs(m)|
    ensures Passed(m, keys, i) < r <= Passed(m, keys, i + 1) ==> r <= |Obs(m)| && Sorted(Obs(m))[r - 1] == keys[i]
  {
    assert keys[..i + 1][..i] == keys[..i];
    ExpandPrefix(m, keys, i + 1);
    ExpandIsSorted(m, keys);
    if i + 1 == |keys| {
      assert keys[..i + 1] == keys;
    }
  }

  /** The walk over every key but the last.  It stops at the latency of the ranked observation for every map,
      keys with count zero included, and never indexes an empty key list. */
  method RankedKey(latencies: Freq, keys: seq<int>, total: nat, rank: nat) returns (us: int)
    requires StrictlyAscending(keys) && forall k :: k in keys <==> k in latencies
    requires total == |Obs(latencies)| && 1 <= rank <= total
    ensures us == Sorted(Obs(latencies))[rank - 1]
  {
    if keys == [] {
      KeysNeeded(latencies);
    }
    var cum := 0;
    for i := 0 to |keys| - 1
      invariant cum == Passed(latencies, keys, i) < rank
    {
      us := keys[i];
      KeyBlock(latencies, keys, i, rank);
      cum := cum + latencies[us];
      if cum >= rank {
        return;
      }
    }
    KeyBlock(latencies, keys, |keys| - 1, rank);
    us := keys[|keys| - 1];
  }

  /** The shared nearest-rank implementation. */
  method QuantileFrom(latencies: Freq, keys: seq<int>, total: nat, q: real) returns (ms: real)
    requires StrictlyAscending(keys) && forall k :: k in keys <==> k in latencies
    requires total == |Obs(latencies)|
    ensures ms == QuantileMs(Obs(latencies), q)
    ensures total == 0 ==> ms == 0.0
    ensures total > 0 ==>
      exists i :: 0 <= i < total && ms == Sorted(Obs(latencies))[i] as real / 1000.0 &&
        if q <= 0.0 then i == 0 else if q >= 1.0 then i == total - 1
        else i as real < q * total as real <= (i + 1) as real
  {
    if total == 0 {
      return 0.0;
    }
    RankCovers(q, total);
    var rank := Ceiling(Scale(q, total));
    if rank < 1 {
      rank := 1;
    } else if rank > total {
      rank := total;
    }
    var us := RankedKey(latencies, keys, total, rank);
    ms := us as real / 1000.0;
  }

  lemma {:induction false} KeysNeeded(m: Freq)
    requires |Obs(m)| > 0
    ensures exists k :: k in m
  {
    var k := AnyIn(Obs(m));
    assert Obs(m)[k] > 0;
  }
}
