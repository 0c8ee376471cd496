/** The result document: ops in alphabetical order with rates and latency blocks, and the run's own totals. */

module Report {
  import opened Lists
  import opened Options
  import opened Picks
  import opened Frequency
  import opened Latency
  import opened Tally
  import opened Intervals
  import opened Store

  /** `latency` is absent when no op succeeded. */
  datatype OpResult = OpResult(op: string, count: nat, errors: nat, rate: real, latency: Option<LatencyStats>)

  datatype RunResult = RunResult(ops: nat, errors: nat, rate: real, operations: seq<OpResult>)

  // ------------------------------------------------------ alphabetical order

  predicate Before(a: string, b: string) {
    b != [] && (a == [] || a[0] < b[0] || (a[0] == b[0] && Before(a[1..], b[1..])))
  }

  lemma SamePrefix(a: string, b: string, i: nat)
    requires i < |a| && i < |b| && a[0] == b[0]
    ensures a[..i + 1] == b[..i + 1] <==> a[1..][..i] == b[1..][..i]
  {
    assert a[..i + 1] == [a[0]] + a[1..][..i] && b[..i + 1] == [b[0]] + b[1..][..i];
  }

  /** The order of strings: the shorter of two if it begins the longer, else the one with the smaller character where
      they first differ. */
  lemma {:induction false} BeforeMeans(a: string, b: string)
    ensures Before(a, b) <==> a < b || exists i :: 0 <= i < |a| && i < |b| && a[..i] == b[..i] && a[i] < b[i]
  {
    if a == [] || b == [] {
    } else if a[0] != b[0] {
      assert a[0] < b[0] ==> a[..0] == b[..0];
      assert forall i :: 0 < i < |a| && i < |b| && a[..i] == b[..i] ==> a[..i][0] == b[..i][0];
    } else {
      var c, d := a[1..], b[1..];
      BeforeMeans(c, d);
      assert a == [a[0]] + c && b == [a[0]] + d;
      assert a < b <==> c < d;
      if i :| 0 <= i < |c| && i < |d| && c[..i] == d[..i] && c[i] < d[i] {
        SamePrefix(a, b, i);
        assert a[i + 1] < b[i + 1];
      }
      if i :| 0 <= i < |a| && i < |b| && a[..i] == b[..i] && a[i] < b[i] {
        SamePrefix(a, b, i - 1);
        assert c[i - 1] < d[i - 1];
      }
    }
  }

  lemma {:induction false} BeforeTotal(a: string, b: string)
    ensures Before(a, b) || a == b || Before(b, a)
  {
    if a == [] || b == [] {
    } else {
      BeforeTotal(a[1..], b[1..]);
      assert a == [a[0]] + a[1..] && b == [b[0]] + b[1..];
    }
  }

  lemma {:induction false} BeforeTransitive(a: string, b: string, c: string)
    requires Before(a, b) && Before(b, c)
    ensures Before(a, c)
  {
    if a != [] && a[0] == b[0] && b[0] == c[0] {
      BeforeTransitive(a[1..], b[1..], c[1..]);
    }
  }

  lemma {:induction false} BeforeAsymmetric(a: string, b: string)
    requires Before(a, b)
    ensures !Before(b, a) && a != b
  {
    if a != [] && a[0] == b[0] {
      BeforeAsymmetric(a[1..], b[1..]);
    }
  }

  predicate Alphabetical(names: seq<string>) {
    forall i, j :: 0 <= i < j < |names| ==> Before(names[i], names[j])
  }

  /** Where a name goes among sorted ones. */
  function NamePlace(names: seq<string>, x: string): (i: nat)
    requires Alphabetical(names) && x !in names
    ensures i <= |names|
    ensures forall j :: 0 <= j < i ==> Before(names[j], x)
    ensures forall j :: i <= j < |names| ==> Before(x, names[j])
  {
    if names == [] then 0
    else if Before(names[0], x) then 1 + NamePlace(names[1..], x)
    else
      BeforeTotal(names[0], x);
      assert forall j :: 0 < j < |names| ==> Before(x, names[j]) by {
        forall j | 0 < j < |names| ensures Before(x, names[j]) {
          BeforeTransitive(x, names[0], names[j]);
        }
      }
      0
  }

  lemma {:induction false} InsertAlphabetical(names: seq<string>, i: nat, x: string)
    requires Alphabetical(names) && i <= |names|
    requires (forall j :: 0 <= j < i ==> Before(names[j], x)) && forall j :: i <= j < |names| ==> Before(x, names[j])
    ensures Alphabetical(names[..i] + [x] + names[i..])
  {
    hide Before;
  }

  /** The library sort, applied as the names arrive. */
  function InsertName(names: seq<string>, x: string): (r: seq<string>)
    requires Alphabetical(names) && x !in names
    ensures Alphabetical(r) && SetOf(r) == SetOf(names) + {x} && |r| == |names| + 1
  {
    var i := NamePlace(names, x);
    InsertAlphabetical(names, i, x);
    InsertMembers(names, i, x);
    names[..i] + [x] + names[i..]
  }

  lemma AlphabeticalLast(a: seq<string>, b: seq<string>)
    requires Alphabetical(a) && Alphabetical(b) && SetOf(a) == SetOf(b) && a != [] && b != []
    ensures a[|a| - 1] == b[|b| - 1]
  {
    var x, y := a[|a| - 1], b[|b| - 1];
    assert x in SetOf(a) && y in SetOf(b);
    assert x in b && y in a;
    var i :| 0 <= i < |b| && b[i] == x;
    var j :| 0 <= j < |a| && a[j] == y;
    if x != y {
      assert Before(x, y) && Before(y, x);
      BeforeAsymmetric(x, y);
    }
  }

  lemma WithoutLastName(a: seq<string>)
    requires Alphabetical(a) && a != []
    ensures Alphabetical(a[..|a| - 1]) && SetOf(a[..|a| - 1]) == SetOf(a) - {a[|a| - 1]}
  {
    var n := |a| - 1;
    assert a == a[..n] + [a[n]];
    forall i | 0 <= i < n ensures a[i] != a[n] {
      BeforeAsymmetric(a[i], a[n]);
    }
  }

  lemma EmptyOrNot(a: seq<string>)
    ensures SetOf(a) == {} <==> a == []
  {
    if a != [] {
      assert a[0] in SetOf(a);
    }
  }

  lemma {:induction false} AlphabeticalUnique(a: seq<string>, b: seq<string>)
    requires Alphabetical(a) && Alphabetical(b) && SetOf(a) == SetOf(b)
    ensures a == b
  {
    EmptyOrNot(a);
    EmptyOrNot(b);
    if a == [] {
    } else {
      var n, m := |a| - 1, |b| - 1;
      AlphabeticalLast(a, b);
      WithoutLastName(a);
      WithoutLastName(b);
      AlphabeticalUnique(a[..n], b[..m]);
      assert a == a[..n] + [a[n]] && b == b[..m] + [b[m]];
    }
  }

  // ------------------------------------------------------------ the document

  /** The latency block of an op: there is one exactly when some op succeeded. */
  ghost function Block(s: Stat): Option<LatencyStats> {
    if s.count > s.errors then Some(Summary(s.obs)) else None
  }

  ghost function OpReport(op: string, s: Stat, duration: real): OpResult {
    OpResult(op, s.count, s.errors, Rate(s.count, duration), Block(s))
  }

  ghost function ReportNames(r: RunResult): (ns: seq<string>)
    ensures |ns| == |r.operations| && forall i :: 0 <= i < |ns| ==> ns[i] == r.operations[i].op
  {
    seq(|r.operations|, i requires 0 <= i < |r.operations| => r.operations[i].op)
  }

  /** r is the document of the totals w. */
  ghost predicate Documents(r: RunResult, w: Window, duration: real) {
    && Alphabetical(ReportNames(r)) && SetOf(ReportNames(r)) == w.Keys
    && (forall o :: o in r.operations ==> o == OpReport(o.op, At(w, o.op), duration))
    && r.ops == SumOver(w, w.Keys, false) && r.errors == SumOver(w, w.Keys, true)
    && r.rate == Rate(r.ops, duration)
  }

  /** There is one document: the order in which the totals are iterated does not show. */
  lemma DocumentUnique(r: RunResult, q: RunResult, w: Window, duration: real)
    requires Documents(r, w, duration) && Documents(q, w, duration)
    ensures r == q
  {
    AlphabeticalUnique(ReportNames(r), ReportNames(q));
    assert |r.operations| == |ReportNames(r)| == |ReportNames(q)| == |q.operations|;
    forall i | 0 <= i < |r.operations| ensures r.operations[i] == q.operations[i] {
      assert ReportNames(r)[i] == ReportNames(q)[i];
      assert r.operations[i] in r.operations && q.operations[i] in q.operations;
    }
  }

  /** The ops come in declared order if and only if they were declared in alphabetical order. */
  lemma {:induction false} DeclaredOrder(r: RunResult, w: Window, ops: seq<string>, duration: real)
    requires Documents(r, w, duration) && NoDup(ops) && w.Keys == SetOf(ops)
    ensures ReportNames(r) == ops <==> Alphabetical(ops)
  {
    if Alphabetical(ops) {
      AlphabeticalUnique(ReportNames(r), ops);
    }
  }

  /** The ops of the default profile, as it declares them. */
  const OLTP_OPS: seq<string> := ["insert", "read_simple", "read_join", "update", "delete", "read_by_ip"]

  /** They are not in alphabetical order, so its documents are not in declared order. */
  lemma {:induction false} DefaultProfileReordered(r: RunResult, w: Window, duration: real)
    requires Documents(r, w, duration) && w.Keys == SetOf(OLTP_OPS)
    ensures NoDup(OLTP_OPS) && ReportNames(r) != OLTP_OPS
  {
    var update, delete := OLTP_OPS[3], OLTP_OPS[4];
    assert update[0] == 'u' && delete[0] == 'd';
    assert !Before(update, delete);
    assert forall i, j :: 0 <= i < j < |OLTP_OPS| ==>
      OLTP_OPS[i][0] != OLTP_OPS[j][0] || OLTP_OPS[i][5] != OLTP_OPS[j][5] || |OLTP_OPS[i]| != |OLTP_OPS[j]|;
    DeclaredOrder(r, w, OLTP_OPS, duration);
  }

  method SortedNames(totals: map<string, OpValue>) returns (names: seq<string>)
    ensures Alphabetical(names) && SetOf(names) == totals.Keys
  {
    names := [];
    var left := totals.Keys;
    while left != {}
      invariant left <= totals.Keys && Alphabetical(names) && SetOf(names) == totals.Keys - left
    {
      var op := Pick(left);
      left := left - {op};
      assert op !in SetOf(names);
      names := InsertName(names, op);
    }
  }

  /** The latency block of a total, its presence decided by the number of observations. */
  method LatencyBlock(v: OpValue, ghost s: Stat) returns (latency: Option<LatencyStats>)
    requires Stands(v, s) && Sampled(s)
    ensures latency == Block(s)
  {
    var m := Held(v.latencies);
    var n := Samples(m);
    latency := None;
    if n > 0 {
      var ls := Summarise(m);
      latency := Some(ls);
    }
  }

  lemma {:induction false} NextName(names: seq<string>, i: nat, w: Window, err: bool)
    requires Alphabetical(names) && i < |names|
    ensures SumOver(w, SetOf(names[..i + 1]), err) == SumOver(w, SetOf(names[..i]), err) + Part(At(w, names[i]), err)
  {
    assert names[..i + 1] == names[..i] + [names[i]];
    assert names[i] !in names[..i] by {
      forall j | 0 <= j < i ensures names[j] != names[i] {
        BeforeAsymmetric(names[j], names[i]);
      }
    }
    SumOverRemove(w, SetOf(names[..i + 1]), names[i], err);
    assert SetOf(names[..i + 1]) - {names[i]} == SetOf(names[..i]);
  }

  /** Assembles the document from the totals of a finished run. */
  method BuildRunResult(totals: map<string, OpValue>, ghost w: Window, duration: real) returns (r: RunResult)
    requires w.Keys == totals.Keys && forall op :: op in totals ==> Stands(totals[op], w[op]) && Sampled(w[op])
    ensures Documents(r, w, duration)
  {
    hide SumOver;
    hide Rate;
    hide Block;
    hide Before;
    hide Summary;
    hide Positive;
    hide Obs;
    var names := SortedNames(totals);
    var ops, errors := 0, 0;
    var operations: seq<OpResult> := [];
    assert SetOf(names[..0]) == {};
    NoneSummed(w);
    for i := 0 to |names|
      invariant forall op :: op in totals ==> Stands(totals[op], w[op])
      invariant ops == SumOver(w, SetOf(names[..i]), false) && errors == SumOver(w, SetOf(names[..i]), true)
      invariant |operations| == i && forall j :: 0 <= j < i ==>
        operations[j] == OpReport(names[j], At(w, names[j]), duration)
    {
      var op := names[i];
      assert op in SetOf(names);
      var s := totals[op];
      StandsCounts(s, w[op]);
      NextName(names, i, w, false);
      NextName(names, i, w, true);
      ops := ops + s.count;
      errors := errors + s.errors;
      var latency := LatencyBlock(s, w[op]);
      operations := operations + [OpResult(op, s.count, s.errors, Rate(s.count, duration), latency)];
    }
    assert names[..|names|] == names;
    r := RunResult(ops, errors, Rate(ops, duration), operations);
    assert ReportNames(r) == names;
  }

  lemma {:induction false} NoneSummed(w: Window)
    ensures SumOver(w, {}, false) == 0 && SumOver(w, {}, true) == 0
  {
  }

  lemma StandsCounts(v: OpValue, s: Stat)
    requires Stands(v, s)
    ensures v.count == s.count && v.errors == s.errors
  {
  }
}
