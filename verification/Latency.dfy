/** The full latency summary of one op. */

module Latency {
  import opened Picks
  import opened Frequency
  import opened Quantiles

  datatype LatencyStats = LatencyStats(
    minMs: real, meanMs: real, p50Ms: real, p95Ms: real, p99Ms: real, p999Ms: real, maxMs: real)

  const NONE := LatencyStats(0.0, 0.0, 0.0, 0.0, 0.0, 0.0, 0.0)

  // ------------------------------------------------------- specification

  function Sum(s: seq<int>): int {
    if s == [] then 0 else Sum(s[..|s| - 1]) + s[|s| - 1]
  }

  ghost function Least(ms: multiset<int>): int
    requires |ms| > 0
  {
    Sorted(ms)[0]
  }

  ghost function Greatest(ms: multiset<int>): int
    requires |ms| > 0
  {
    Sorted(ms)[|ms| - 1]
  }

  ghost function MeanMs(ms: multiset<int>): real
    requires |ms| > 0
  {
    Ratio(Sum(Sorted(ms)), |ms|) / 1000.0
  }

  function Ratio(a: int, n: nat): real
    requires n > 0
  {
    a as real / n as real
  }

  function ToMs(us: int): real {
    us as real / 1000.0
  }

  /** The summary, read off the ascending list of observations. */
  ghost function Summary(ms: multiset<int>): LatencyStats {
    if |ms| == 0 then NONE else
      LatencyStats(ToMs(Least(ms)), MeanMs(ms), QuantileMs(ms, 0.50), QuantileMs(ms, 0.95),
                   QuantileMs(ms, 0.99), QuantileMs(ms, 0.999), ToMs(Greatest(ms)))
  }

  lemma {:induction false} SumBounds(s: seq<int>, lo: int, hi: int)
    requires forall i :: 0 <= i < |s| ==> lo <= s[i] <= hi
    ensures |s| * lo <= Sum(s) <= |s| * hi
  {
    if s == [] {
    } else {
      SumBounds(s[..|s| - 1], lo, hi);
      assert |s| * lo == (|s| - 1) * lo + lo && |s| * hi == (|s| - 1) * hi + hi;
    }
  }

  lemma QuotientBounds(a: real, n: real, lo: real, hi: real)
    requires n > 0.0 && lo * n <= a <= hi * n
    ensures lo <= a / n <= hi
  {
  }

  lemma RatioBounds(a: int, n: nat, lo: int, hi: int)
    requires n > 0 && n * lo <= a <= n * hi
    ensures lo as real <= Ratio(a, n) <= hi as real
  {
    assert (n * lo) as real == lo as real * n as real && (n * hi) as real == hi as real * n as real;
    QuotientBounds(a as real, n as real, lo as real, hi as real);
  }

  /** Every statistic lies between the extremes in order, and all but the mean are latencies that occurred. */
  lemma SummaryOrdered(ms: multiset<int>)
    requires |ms| > 0
    ensures var r := Summary(ms);
      r.minMs <= r.p50Ms <= r.p95Ms <= r.p99Ms <= r.p999Ms <= r.maxMs && r.minMs <= r.meanMs <= r.maxMs
    ensures Least(ms) in ms && Greatest(ms) in ms
    ensures forall q :: NearestRank(ms, q) in ms
    ensures forall x :: x in ms ==> Least(ms) <= x <= Greatest(ms)
  {
    var s, n := Sorted(ms), |ms|;
    NearestRankMonotone(ms, 0.50, 0.95);
    NearestRankMonotone(ms, 0.95, 0.99);
    NearestRankMonotone(ms, 0.99, 0.999);
    Extremes(ms);
    forall q ensures NearestRank(ms, q) in ms {
      NearestRankIsLeast(ms, q);
    }
    NearestRankIsLeast(ms, 0.50);
    NearestRankIsLeast(ms, 0.999);
    SumBounds(s, s[0], s[n - 1]);
    RatioBounds(Sum(s), n, s[0], s[n - 1]);
  }

  lemma Extremes(ms: multiset<int>)
    requires |ms| > 0
    ensures Least(ms) in ms && Greatest(ms) in ms
    ensures forall x :: x in ms ==> Least(ms) <= x <= Greatest(ms)
  {
    var s := Sorted(ms);
    assert s[0] in multiset(s) && s[|ms| - 1] in multiset(s);
    SortedEnds(ms);
  }

  lemma PercentRanks(n: nat)
    requires n > 0
    ensures Rank(0.50, n) == (50 * n + 99) / 100 && Rank(0.95, n) == (95 * n + 99) / 100
    ensures Rank(0.99, n) == (99 * n + 99) / 100 && Rank(0.999, n) == (999 * n + 999) / 1000
  {
    RankCovers(0.50, n);
    RankCovers(0.95, n);
    RankCovers(0.99, n);
    RankCovers(0.999, n);
    hide Rank;
  }

  lemma RatioTimes(a: int, n: nat)
    requires n > 0
    ensures Ratio(a, n) / 1000.0 * 1000.0 * n as real == a as real
  {
    assert Ratio(a, n) * n as real == a as real;
  }

  /** The summary of an ascending list of latencies in microseconds, written out: its ends and the
      entries at ranks ceil(n / 2), ceil(0.95 n), ceil(0.99 n) and ceil(0.999 n), in milliseconds. */
  lemma {:induction false} SummaryExplicit(s: seq<int>)
    requires Ascending(s) && s != []
    ensures var r, n := Summary(multiset(s)), |s|;
      && r.minMs == s[0] as real / 1000.0 && r.maxMs == s[n - 1] as real / 1000.0
      && r.p50Ms == s[(50 * n + 99) / 100 - 1] as real / 1000.0
      && r.p95Ms == s[(95 * n + 99) / 100 - 1] as real / 1000.0
      && r.p99Ms == s[(99 * n + 99) / 100 - 1] as real / 1000.0
      && r.p999Ms == s[(999 * n + 999) / 1000 - 1] as real / 1000.0
  {
    hide *;
    SortedAlready(s);
    PercentRanks(|s|);
    SummaryRanked(multiset(s));
  }

  /** The mean times the number of latencies is their sum. */
  lemma {:induction false} MeanExplicit(s: seq<int>)
    requires Ascending(s) && s != []
    ensures Summary(multiset(s)).meanMs * 1000.0 * |s| as real == Sum(s) as real
  {
    hide *;
    SortedAlready(s);
    SummaryRanked(multiset(s));
    RatioTimes(Sum(s), |s|);
  }

  lemma {:induction false} SortedSound(ms: multiset<int>)
    ensures Ascending(Sorted(ms)) && multiset(Sorted(ms)) == ms
  {
  }

  lemma {:induction false} SortedAlready(s: seq<int>)
    requires Ascending(s)
    ensures Sorted(multiset(s)) == s && |multiset(s)| == |s|
  {
    AscendingUnique(s, Sorted(multiset(s)));
  }

  lemma SummaryRanked(ms: multiset<int>)
    requires |ms| > 0
    ensures var r, s, n := Summary(ms), Sorted(ms), |ms|;
      && r.minMs == s[0] as real / 1000.0 && r.maxMs == s[n - 1] as real / 1000.0
      && r.meanMs == Ratio(Sum(s), n) / 1000.0
      && r.p50Ms == s[Rank(0.50, n) - 1] as real / 1000.0 && r.p95Ms == s[Rank(0.95, n) - 1] as real / 1000.0
      && r.p99Ms == s[Rank(0.99, n) - 1] as real / 1000.0 && r.p999Ms == s[Rank(0.999, n) - 1] as real / 1000.0
  {
    hide Rank;
    hide Ratio;
    hide Sum;
    hide Sorted;
  }

  // -------------------------------------------------------------- the code

  lemma {:induction false} SumSnoc(s: seq<int>, x: int)
    ensures Sum(s + [x]) == Sum(s) + x
  {
    assert (s + [x])[..|s|] == s;
  }

  lemma {:induction false} SumConcat(s: seq<int>, t: seq<int>)
    ensures Sum(s + t) == Sum(s) + Sum(t)
  {
    if t == [] {
      assert s + t == s;
    } else {
      SumConcat(s, t[..|t| - 1]);
      assert s + t == (s + t[..|t| - 1]) + [t[|t| - 1]];
    }
  }

  /** One observation more adds itself to the sum, wherever it is sorted in. */
  lemma {:induction false} SumOneMore(ms: multiset<int>, x: int)
    ensures Sum(Sorted(ms + multiset{x})) == Sum(Sorted(ms)) + x
  {
    hide *;
    SortedSound(ms);
    SortedAlready(Insert(Sorted(ms), x));
    SumInserted(Sorted(ms), x);
  }

  lemma {:induction false} SumInserted(s: seq<int>, x: int)
    requires Ascending(s)
    ensures Sum(Insert(s, x)) == Sum(s) + x
  {
    hide Sum;
    hide Ascending;
    hide Place;
    var i := Place(s, x);
    SumConcat(s[..i] + [x], s[i..]);
    SumSnoc(s[..i], x);
    SumConcat(s[..i], s[i..]);
    assert s == s[..i] + s[i..];
  }

  lemma TimesNext(k: int, n: nat)
    requires n > 0
    ensures k * n == k * (n - 1) + k
  {
  }

  lemma {:induction false} SumAppend(s: seq<int>, k: int, n: nat)
    ensures Sum(s + Copies(k, n)) == Sum(s) + k * n
  {
    if n == 0 {
      assert s + Copies(k, n) == s;
    } else {
      SumAppend(s, k, n - 1);
      assert s + Copies(k, n) == (s + Copies(k, n - 1)) + [k];
      hide Sum;
      hide Copies;
      SumSnoc(s + Copies(k, n - 1), k);
      TimesNext(k, n);
    }
  }

  lemma {:induction false} SumStep(m: Freq, keys: seq<int>, i: nat)
    requires i < |keys|
    ensures Sum(Expand(m, keys[..i + 1])) == Sum(Expand(m, keys[..i])) + keys[i] * Get(m, keys[i])
  {
    assert keys[..i + 1][..i] == keys[..i];
    SumAppend(Expand(m, keys[..i]), keys[i], Get(m, keys[i]));
  }

  /** Does the smallest (largest) key of the map stand for an observation? */
  ghost predicate EndsObserved(m: Freq) {
    && (forall k :: k in m && (forall j :: j in m ==> k <= j) ==> m[k] > 0)
    && (forall k :: k in m && (forall j :: j in m ==> j <= k) ==> m[k] > 0)
  }

  lemma {:induction false} EndKeys(m: Freq, keys: seq<int>)
    requires StrictlyAscending(keys) && (forall k :: k in keys <==> k in m) && |Obs(m)| > 0
    ensures keys != [] && keys[0] <= Least(Obs(m)) && Greatest(Obs(m)) <= keys[|keys| - 1]
    ensures EndsObserved(m) <==> keys[0] == Least(Obs(m)) && keys[|keys| - 1] == Greatest(Obs(m))
    ensures keys[0] in m && keys[|keys| - 1] in m && forall j :: j in m ==> keys[0] <= j <= keys[|keys| - 1]
  {
    KeysNeeded(m);
    var ms := Obs(m);
    Extremes(ms);
    assert ms[Least(ms)] > 0 && ms[Greatest(ms)] > 0;
    assert Least(ms) in keys && Greatest(ms) in keys;
    var lo, hi := keys[0], keys[|keys| - 1];
    assert lo in keys && hi in keys;
    assert forall j :: j in m ==> lo <= j <= hi by {
      forall j | j in m ensures lo <= j <= hi {
        assert j in keys;
      }
    }
    assert ms[lo] == m[lo] && ms[hi] == m[hi];
    assert m[lo] > 0 ==> lo in ms;
    assert m[hi] > 0 ==> hi in ms;
  }

  /** The number of observations a map holds, its values added in whatever order the keys come. */
  method Samples(latencies: Freq) returns (n: nat)
    ensures n == |Obs(latencies)|
  {
    n := 0;
    var left := latencies.Keys;
    ghost var done: Freq := map[];
    while left != {}
      invariant left <= latencies.Keys && done.Keys == latencies.Keys - left
      invariant forall k :: k in done ==> done[k] == latencies[k]
      invariant n == |Obs(done)|
    {
      var us := Pick(left);
      left := left - {us};
      ObsExtends(done, us, latencies[us]);
      done := done[us := latencies[us]];
      n := n + latencies[us];
    }
    ObsSame(done, latencies);
  }

  method WeightedSum(latencies: Freq, keys: seq<int>) returns (sum: int)
    requires StrictlyAscending(keys) && forall k :: k in keys <==> k in latencies
    ensures sum == Sum(Sorted(Obs(latencies)))
  {
    sum := 0;
    for i := 0 to |keys|
      invariant sum == Sum(Expand(latencies, keys[..i]))
    {
      SumStep(latencies, keys, i);
      sum := sum + keys[i] * latencies[keys[i]];
    }
    assert keys[..|keys|] == keys;
    ExpandIsSorted(latencies, keys);
  }

  /** The single-sort summary.  On every map the mean and the percentiles are those of the observations; the
      two extremes are too exactly when the end keys carry observations, which the accumulator guarantees. */
  method Summarise(latencies: Freq) returns (r: LatencyStats)
    ensures |Obs(latencies)| == 0 ==> r == NONE
    ensures |Obs(latencies)| > 0 ==> r == Summary(Obs(latencies)).(minMs := r.minMs, maxMs := r.maxMs)
    ensures |Obs(latencies)| > 0 ==> (r == Summary(Obs(latencies)) <==> EndsObserved(latencies))
    ensures |Obs(latencies)| > 0 ==>
      && (exists k :: k in latencies && r.minMs == k as real / 1000.0 && forall j :: j in latencies ==> k <= j)
      && (exists k :: k in latencies && r.maxMs == k as real / 1000.0 && forall j :: j in latencies ==> j <= k)
  {
    var keys, total := SortedKeys(latencies);
    if total == 0 {
      return NONE;
    }
    EndKeys(latencies, keys);
    var weightedSum := WeightedSum(latencies, keys);
    var p50 := QuantileFrom(latencies, keys, total, 0.50);
    var p95 := QuantileFrom(latencies, keys, total, 0.95);
    var p99 := QuantileFrom(latencies, keys, total, 0.99);
    var p999 := QuantileFrom(latencies, keys, total, 0.999);
    r := LatencyStats(ToMs(keys[0]), Ratio(weightedSum, total) / 1000.0, p50, p95, p99, p999,
                      ToMs(keys[|keys| - 1]));
  }
}
