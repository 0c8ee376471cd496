/** The exact latency frequency map and its nearest-rank quantiles. */

module Frequency {
  import opened Picks

  /** Latency in microseconds to number of observations, as the source's latency maps hold it. */
  type Freq = map<int, nat>

  function Get(m: Freq, k: int): nat {
    if k in m then m[k] else 0
  }

  /** The observations a map stands for.  A key with count zero stands for none. */
  ghost function Obs(m: Freq): (ms: multiset<int>)
    ensures forall k :: ms[k] == Get(m, k)
    decreases m.Keys
  {
    if m.Keys == {} then multiset{} else
      var k := AnyOf(m.Keys);
      Obs(m - {k})[k := m[k]]
  }

  lemma ObsExtends(m: Freq, k: int, n: nat)
    requires k !in m
    ensures Obs(m[k := n]) == Obs(m)[k := n]
    ensures |Obs(m[k := n])| == |Obs(m)| + n
  {
    var left, right := Obs(m[k := n]), Obs(m)[k := n];
    assert forall x :: left[x] == right[x];
  }

  lemma {:induction false} ObsSame(a: Freq, b: Freq)
    requires forall k :: Get(a, k) == Get(b, k)
    ensures Obs(a) == Obs(b)
  {
    var left, right := Obs(a), Obs(b);
    assert forall x :: left[x] == right[x];
  }

  // ---------------------------------------------------------------- sorting

  predicate Ascending(s: seq<int>) {
    forall i, j :: 0 <= i < j < |s| ==> s[i] <= s[j]
  }

  predicate StrictlyAscending(s: seq<int>) {
    forall i, j :: 0 <= i < j < |s| ==> s[i] < s[j]
  }

  lemma WithoutLast(s: seq<int>)
    requires s != []
    ensures multiset(s[..|s| - 1]) == multiset(s) - multiset{s[|s| - 1]}
  {
    assert s == s[..|s| - 1] + [s[|s| - 1]];
  }

  lemma SameGreatest(s: seq<int>, t: seq<int>)
    requires Ascending(s) && Ascending(t) && multiset(s) == multiset(t) && s != [] && t != []
    ensures s[|s| - 1] == t[|t| - 1]
  {
    var x, y := s[|s| - 1], t[|t| - 1];
    assert x in multiset(t) && y in multiset(s);
    assert x in t && y in s;
  }

  lemma SameLength(s: seq<int>, t: seq<int>)
    requires multiset(s) == multiset(t)
    ensures |s| == |t|
  {
    assert |s| == |multiset(s)| && |t| == |multiset(t)|;
  }

  /** Two ascending sequences with the same elements are the same sequence. */
  lemma {:induction false} AscendingUnique(s: seq<int>, t: seq<int>)
    requires Ascending(s) && Ascending(t) && multiset(s) == multiset(t)
    ensures s == t
    decreases |s|
  {
    SameLength(s, t);
    if s == [] {
    } else {
      var n := |s| - 1;
      SameGreatest(s, t);
      WithoutLast(s);
      WithoutLast(t);
      assert Ascending(s[..n]) && Ascending(t[..n]);
      hide Ascending;
      AscendingUnique(s[..n], t[..n]);
      assert s == s[..n] + [s[n]] && t == t[..n] + [t[n]];
    }
  }

  /** Where x goes in an ascending sequence. */
  function Place(s: seq<int>, x: int): (i: nat)
    requires Ascending(s)
    ensures i <= |s|
    ensures forall j :: 0 <= j < i ==> s[j] < x
    ensures forall j :: i <= j < |s| ==> x <= s[j]
  {
    if s == [] || x <= s[0] then 0 else 1 + Place(s[1..], x)
  }

  lemma InsertAscends(s: seq<int>, i: nat, x: int)
    requires Ascending(s) && i <= |s|
    requires (forall j :: 0 <= j < i ==> s[j] < x) && forall j :: i <= j < |s| ==> x <= s[j]
    ensures Ascending(s[..i] + [x] + s[i..])
  {
  }

  lemma InsertAdds<T>(s: seq<T>, i: nat, x: T)
    requires i <= |s|
    ensures multiset(s[..i] + [x] + s[i..]) == multiset(s) + multiset{x}
  {
    assert s == s[..i] + s[i..];
  }

  lemma InsertMembers<T>(s: seq<T>, i: nat, x: T)
    requires i <= |s|
    ensures forall y :: y in s[..i] + [x] + s[i..] <==> y in s || y == x
  {
    assert s == s[..i] + s[i..];
  }

  /** One step of an insertion sort. */
  function Insert(s: seq<int>, x: int): (r: seq<int>)
    requires Ascending(s)
    ensures Ascending(r) && multiset(r) == multiset(s) + multiset{x}
  {
    var i := Place(s, x);
    InsertAscends(s, i, x);
    InsertAdds(s, i, x);
    s[..i] + [x] + s[i..]
  }

  lemma {:induction false} SortedExists(ms: multiset<int>) returns (s: seq<int>)
    ensures Ascending(s) && multiset(s) == ms
    decreases |ms|
  {
    if |ms| == 0 {
      s := [];
    } else {
      var x := AnyIn(ms);
      s := SortedExists(ms - multiset{x});
      s := Insert(s, x);
    }
  }

  ghost predicate IsSorting(s: seq<int>, ms: multiset<int>) {
    Ascending(s) && multiset(s) == ms
  }

  /** The observations in ascending order. */
  ghost function Sorted(ms: multiset<int>): (s: seq<int>)
    ensures IsSorting(s, ms) && |s| == |ms|
  {
    assert exists s :: IsSorting(s, ms) by {
      var s := SortedExists(ms);
      assert IsSorting(s, ms);
    }
    var s :| IsSorting(s, ms);
    assert |s| == |multiset(s)|;
    s
  }
}
