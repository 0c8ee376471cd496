/** The series as the outcome of all drains so far, for any declared list of ops, repeated names included. */

module Drains {
  import opened Lists
  import opened Picks
  import opened Tally
  import opened Quantiles
  import opened Intervals
  import opened IntervalFacts

  /** A merged window and the time it was drained at. */
  datatype Drain = Drain(merged: Window, now: real)

  ghost function SeriesAfter(ops: seq<string>, at: real, drains: seq<Drain>): Series {
    if drains == [] then Series(at, at, []) else
      var d := drains[|drains| - 1];
      Record(ops, SeriesAfter(ops, at, drains[..|drains| - 1]), d.merged, d.now)
  }

  ghost predicate AllOver(ops: seq<string>, drains: seq<Drain>) {
    forall d :: d in drains ==> d.merged.Keys == SetOf(ops)
  }

  // -------------------------------------------------------- repeated op names

  /** What an interval's entries hold of an op, looked up by name. */
  ghost function HeldBy(xs: seq<IntervalOp>, op: string): Stat {
    if Has(xs, op) then Stat(Lookup(xs, op).count, Lookup(xs, op).errors, multiset{}) else ZERO
  }

  ghost function HeldWindow(xs: seq<IntervalOp>, ops: seq<string>): Window {
    map op | op in SetOf(ops) :: HeldBy(xs, op)
  }

  /** The interval counts each op once, its entries count each declaration. */
  ghost predicate Counted(iv: Interval, ops: seq<string>) {
    var w := HeldWindow(iv.operations, ops);
    iv.ops == SumOver(w, SetOf(ops), false) && Total(iv.operations, false) == ListSum(w, ops, false)
  }

  lemma {:induction false} LookupSnoc(xs: seq<IntervalOp>, o: IntervalOp, op: string)
    requires o.op == op || Has(xs, op)
    ensures Has(xs + [o], op)
    ensures Lookup(xs + [o], op) == if o.op == op then o else Lookup(xs, op)
  {
    HasSnoc(xs, o, op);
    assert (xs + [o])[..|xs|] == xs;
  }

  lemma {:induction false} LookupFolded(
      ops: seq<string>, prev: seq<IntervalOp>, merged: Window, span: real, op: string)
    requires op in ops && Kept(prev, merged, op)
    ensures Has(Folded(ops, prev, merged, span), op)
    ensures Lookup(Folded(ops, prev, merged, span), op) == FoldedEntry(op, prev, At(merged, op), span)
  {
    var n := |ops| - 1;
    var init, o := Folded(ops[..n], prev, merged, span), FoldedEntry(ops[n], prev, At(merged, ops[n]), span);
    assert ops == ops[..n] + [ops[n]];
    assert o.op == ops[n];
    FoldedStep(ops, prev, merged, span);
    if ops[n] != op {
      LookupFolded(ops[..n], prev, merged, span, op);
    }
    if Kept(prev, merged, ops[n]) {
      LookupSnoc(init, o, op);
    }
  }

  lemma {:induction false} HeldAfterFold(
      ops: seq<string>, prev: seq<IntervalOp>, merged: Window, span: real, op: string)
    requires op in ops
    ensures HeldBy(Folded(ops, prev, merged, span), op).count == HeldBy(prev, op).count + At(merged, op).count
  {
    if Kept(prev, merged, op) {
      LookupFolded(ops, prev, merged, span, op);
    } else {
      FoldedHas(ops, prev, merged, span, op);
    }
  }

  lemma {:induction false} TotalSnoc(xs: seq<IntervalOp>, o: IntervalOp, err: bool)
    ensures Total(xs + [o], err) == Total(xs, err) + Field(o, err)
  {
    assert (xs + [o])[..|xs|] == xs;
  }

  lemma {:induction false} TotalFolded(
      ops: seq<string>, prev: seq<IntervalOp>, merged: Window, span: real, w: Window)
    requires forall op :: op in ops ==> At(w, op).count == HeldBy(prev, op).count + At(merged, op).count
    ensures Total(Folded(ops, prev, merged, span), false) == ListSum(w, ops, false)
  {
    if ops == [] {
    } else {
      var n := |ops| - 1;
      var o := FoldedEntry(ops[n], prev, At(merged, ops[n]), span);
      TotalFolded(ops[..n], prev, merged, span, w);
      FoldedStep(ops, prev, merged, span);
      assert ops[n] in ops;
      if Kept(prev, merged, ops[n]) {
        TotalSnoc(Folded(ops[..n], prev, merged, span), o, false);
        assert o.count == HeldBy(prev, ops[n]).count + At(merged, ops[n]).count;
      }
    }
  }

  lemma {:induction false} SumAdds(u: Window, v: Window, w: Window, keys: set<string>)
    requires forall op :: op in keys ==> At(w, op).count == At(u, op).count + At(v, op).count
    ensures SumOver(w, keys, false) == SumOver(u, keys, false) + SumOver(v, keys, false)
    decreases keys
  {
    if keys == {} {
    } else {
      SumAdds(u, v, w, keys - {AnyOf(keys)});
    }
  }

  lemma {:induction false} FoldedCounted(
      iv: Interval, ops: seq<string>, prev: Interval, merged: Window, span: real)
    requires Counted(prev, ops) && merged.Keys == SetOf(ops)
    requires iv.operations == Folded(ops, prev.operations, merged, span)
    requires iv.ops == prev.ops + SumOver(merged, merged.Keys, false)
    ensures Counted(iv, ops)
  {
    var u, w := HeldWindow(prev.operations, ops), HeldWindow(iv.operations, ops);
    forall op | op in SetOf(ops) ensures At(w, op).count == At(u, op).count + At(merged, op).count {
      HeldAfterFold(ops, prev.operations, merged, span, op);
    }
    SumAdds(u, merged, w, SetOf(ops));
    forall op | op in ops ensures At(w, op).count == HeldBy(prev.operations, op).count + At(merged, op).count {
      assert op in SetOf(ops);
    }
    TotalFolded(ops, prev.operations, merged, span, w);
  }

  lemma {:induction false} NothingHeld(ops: seq<string>, keys: set<string>, list: seq<string>)
    ensures SumOver(HeldWindow([], ops), keys, false) == 0
    ensures ListSum(HeldWindow([], ops), list, false) == 0
    decreases keys, |list|
  {
    if keys != {} {
      NothingHeld(ops, keys - {AnyOf(keys)}, list);
    } else if list != [] {
      NothingHeld(ops, {}, list[..|list| - 1]);
    }
  }

  ghost predicate AllCounted(sr: Series, ops: seq<string>) {
    forall i :: 0 <= i < |sr.intervals| ==> Counted(sr.intervals[i], ops)
  }

  lemma {:induction false} FoldCounted(ops: seq<string>, prev: Interval, merged: Window, endS: real)
    requires Counted(prev, ops) && merged.Keys == SetOf(ops)
    ensures Counted(FoldInto(prev, ops, merged, endS), ops)
  {
    FoldedCounted(FoldInto(prev, ops, merged, endS), ops, prev, merged, endS - prev.startS);
  }

  lemma {:induction false} OwnCounted(ops: seq<string>, sr: Series, merged: Window, endS: real)
    requires merged.Keys == SetOf(ops)
    ensures Counted(OwnInterval(sr, ops, merged, endS), ops)
  {
    var iv := OwnInterval(sr, ops, merged, endS);
    NothingHeld(ops, SetOf(ops), ops);
    AppendedIsFolded(ops, merged, iv.endS - iv.startS);
    FoldedCounted(iv, ops, NOTHING, merged, iv.endS - iv.startS);
  }

  lemma RecordCounted(ops: seq<string>, sr: Series, merged: Window, now: real)
    requires AllCounted(sr, ops) && merged.Keys == SetOf(ops)
    ensures AllCounted(Record(ops, sr, merged, now), ops)
  {
    RecordCases(ops, sr, merged, now);
    hide Record;
    hide Counted;
    hide FoldInto;
    hide OwnInterval;
    if Quiet(merged) {
    } else if Folds(sr, now) {
      FoldCounted(ops, sr.intervals[|sr.intervals| - 1], merged, now - sr.start);
    } else {
      OwnCounted(ops, sr, merged, now - sr.start);
    }
  }

  lemma {:induction false} DrainsCounted(ops: seq<string>, at: real, drains: seq<Drain>)
    requires AllOver(ops, drains)
    ensures AllCounted(SeriesAfter(ops, at, drains), ops)
  {
    if drains == [] {
    } else {
      var n := |drains| - 1;
      DrainsCounted(ops, at, drains[..n]);
      RecordCounted(ops, SeriesAfter(ops, at, drains[..n]), drains[n].merged, drains[n].now);
    }
  }

  /** Distinct names matter, in every interval of every series, appended or folded into: its op count is the sum of its
      entries exactly when no op that it has traffic of is declared twice, and otherwise the entries overcount. */
  lemma {:induction false} RepeatedNames(ops: seq<string>, at: real, drains: seq<Drain>, i: nat)
    requires AllOver(ops, drains) && i < |SeriesAfter(ops, at, drains).intervals|
    ensures var iv := SeriesAfter(ops, at, drains).intervals[i];
      && iv.ops <= Total(iv.operations, false)
      && (iv.ops == Total(iv.operations, false) <==> ActiveOnce(ops, HeldWindow(iv.operations, ops)))
  {
    DrainsCounted(ops, at, drains);
    var iv := SeriesAfter(ops, at, drains).intervals[i];
    assert Counted(iv, ops);
    ListSumIsSetSum(HeldWindow(iv.operations, ops), ops);
  }

  /** A repeated name with traffic, from the first drain on. */
  lemma {:induction false} RepeatedNameOvercounts(at: real, merged: Window, now: real)
    requires merged.Keys == {"a"} && merged["a"].count > 0
    ensures var sr := SeriesAfter(["a", "a"], at, [Drain(merged, now)]);
      |sr.intervals| == 1 && sr.intervals[0].ops < Total(sr.intervals[0].operations, false)
  {
    var ops, drains := ["a", "a"], [Drain(merged, now)];
    var sr := SeriesAfter(ops, at, drains);
    assert drains[..0] == [] && SeriesAfter(ops, at, []) == Series(at, at, []);
    SumOverRemove(merged, merged.Keys, "a", false);
    assert sr == Extend(Series(at, at, []), OwnInterval(Series(at, at, []), ops, merged, now - at), now);
    assert SetOf(ops) == {"a"};
    RepeatedNames(ops, at, drains, 0);
    var xs := sr.intervals[0].operations;
    AppendedIsFolded(ops, merged, now - at);
    HeldAfterFold(ops, [], merged, now - at, "a");
    assert "a" in SetOf(ops);
    assert At(HeldWindow(xs, ops), ops[0]).count > 0 && ops[0] == ops[1];
  }

  // -------------------------------------------------- whose percentiles these are

  /** The percentiles are those of the op in this window. */
  ghost predicate Measures(merged: Window, o: IntervalOp) {
    var obs := At(merged, o.op).obs;
    && At(merged, o.op).count > 0
    && o.p50Ms == QuantileMs(obs, 0.50) && o.p95Ms == QuantileMs(obs, 0.95) && o.p99Ms == QuantileMs(obs, 0.99)
  }

  ghost predicate Idle(op: string, drains: seq<Drain>, lo: nat, hi: nat) {
    hi <= |drains| && forall j :: lo <= j < hi ==> At(drains[j].merged, op).count == 0
  }

  /** The entry carries the percentiles of the first drain since lo in which its op saw traffic. */
  ghost predicate FirstMeasured(o: IntervalOp, drains: seq<Drain>, lo: nat, hi: nat) {
    exists k :: lo <= k < hi <= |drains| && Measures(drains[k].merged, o) && Idle(o.op, drains, lo, k)
  }

  /** The interval is made of the drains from lo up to hi. */
  ghost predicate MadeOf(iv: Interval, ops: seq<string>, drains: seq<Drain>, lo: nat, hi: nat) {
    && lo < hi <= |drains|
    && (forall o :: o in iv.operations ==> FirstMeasured(o, drains, lo, hi))
    && (forall op :: op in ops && !Has(iv.operations, op) ==> Idle(op, drains, lo, hi))
  }

  lemma FirstMeasuredLater(o: IntervalOp, drains: seq<Drain>, more: seq<Drain>, lo: nat, hi: nat, later: nat)
    requires FirstMeasured(o, drains, lo, hi) && drains <= more && hi <= later <= |more|
    ensures FirstMeasured(o, more, lo, later)
  {
    var k :| lo <= k < hi <= |drains| && Measures(drains[k].merged, o) && Idle(o.op, drains, lo, k);
    assert Idle(o.op, more, lo, k) && Measures(more[k].merged, o);
  }

  lemma MadeOfMore(iv: Interval, ops: seq<string>, drains: seq<Drain>, more: seq<Drain>, lo: nat, hi: nat)
    requires MadeOf(iv, ops, drains, lo, hi) && drains <= more
    ensures MadeOf(iv, ops, more, lo, hi)
  {
    forall o | o in iv.operations ensures FirstMeasured(o, more, lo, hi) {
      FirstMeasuredLater(o, drains, more, lo, hi, hi);
    }
    forall op | op in ops && !Has(iv.operations, op) ensures Idle(op, more, lo, hi) {
      assert Idle(op, drains, lo, hi);
    }
  }

  lemma {:induction false} QuietStretch(iv: Interval, ops: seq<string>, drains: seq<Drain>, d: Drain, lo: nat)
    requires MadeOf(iv, ops, drains, lo, |drains|) && Quiet(d.merged) && d.merged.Keys == SetOf(ops)
    ensures MadeOf(iv, ops, drains + [d], lo, |drains| + 1)
  {
    forall o | o in iv.operations ensures FirstMeasured(o, drains + [d], lo, |drains| + 1) {
      FirstMeasuredLater(o, drains, drains + [d], lo, |drains|, |drains| + 1);
    }
    forall op | op in ops && !Has(iv.operations, op) ensures Idle(op, drains + [d], lo, |drains| + 1) {
      assert Idle(op, drains, lo, |drains|);
      assert op in d.merged;
      SumOverRemove(d.merged, d.merged.Keys, op, false);
    }
  }

  ghost predicate SamePercentiles(o: IntervalOp, p: IntervalOp) {
    o.op == p.op && o.p50Ms == p.p50Ms && o.p95Ms == p.p95Ms && o.p99Ms == p.p99Ms
  }

  /** Left as they were, or from the sliver alone. */
  ghost predicate Inherits(o: IntervalOp, prev: seq<IntervalOp>, merged: Window) {
    if Has(prev, o.op) then SamePercentiles(o, Lookup(prev, o.op)) else Measures(merged, o)
  }

  lemma {:induction false} FoldedPercentiles(ops: seq<string>, prev: seq<IntervalOp>, merged: Window, span: real)
    ensures forall o :: o in Folded(ops, prev, merged, span) ==> Inherits(o, prev, merged)
  {
    if ops == [] {
    } else {
      var n := |ops| - 1;
      FoldedPercentiles(ops[..n], prev, merged, span);
      FoldedStep(ops, prev, merged, span);
    }
  }

  lemma {:induction false} FoldedMade(
      iv: Interval, ops: seq<string>, prev: seq<IntervalOp>, drains: seq<Drain>, d: Drain, span: real, lo: nat)
    requires lo <= |drains| && iv.operations == Folded(ops, prev, d.merged, span)
    requires forall o :: o in prev ==> FirstMeasured(o, drains, lo, |drains|)
    requires forall op :: op in ops && !Has(prev, op) ==> Idle(op, drains, lo, |drains|)
    requires forall o :: o in iv.operations ==> o.op in ops
    ensures MadeOf(iv, ops, drains + [d], lo, |drains| + 1)
  {
    var n, more := |drains|, drains + [d];
    FoldedPercentiles(ops, prev, d.merged, span);
    forall o | o in iv.operations ensures FirstMeasured(o, more, lo, n + 1) {
      assert Inherits(o, prev, d.merged);
      if Has(prev, o.op) {
        var p := Lookup(prev, o.op);
        assert FirstMeasured(p, drains, lo, n);
        FirstMeasuredLater(p, drains, more, lo, n, n + 1);
        var k :| lo <= k < n + 1 && Measures(more[k].merged, p) && Idle(p.op, more, lo, k);
        assert Measures(more[k].merged, o) && Idle(o.op, more, lo, k);
      } else {
        assert Idle(o.op, drains, lo, n);
        assert Measures(more[n].merged, o) && Idle(o.op, more, lo, n);
      }
    }
    forall op | op in ops && !Has(iv.operations, op) ensures Idle(op, more, lo, n + 1) {
      FoldedHas(ops, prev, d.merged, span, op);
      assert Idle(op, drains, lo, n);
    }
  }

  lemma {:induction false} FoldedDeclared(ops: seq<string>, prev: seq<IntervalOp>, merged: Window, span: real)
    ensures forall o :: o in Folded(ops, prev, merged, span) ==> o.op in ops
  {
    if ops == [] {
    } else {
      FoldedDeclared(ops[..|ops| - 1], prev, merged, span);
      FoldedStep(ops, prev, merged, span);
    }
  }

  lemma {:induction false} FoldStretch(
      ops: seq<string>, prev: Interval, drains: seq<Drain>, d: Drain, endS: real, lo: nat)
    requires MadeOf(prev, ops, drains, lo, |drains|)
    ensures MadeOf(FoldInto(prev, ops, d.merged, endS), ops, drains + [d], lo, |drains| + 1)
  {
    var span := endS - prev.startS;
    FoldedDeclared(ops, prev.operations, d.merged, span);
    FoldedMade(FoldInto(prev, ops, d.merged, endS), ops, prev.operations, drains, d, span, lo);
  }

  lemma {:induction false} OwnMade(ops: seq<string>, sr: Series, drains: seq<Drain>, d: Drain, endS: real)
    ensures MadeOf(OwnInterval(sr, ops, d.merged, endS), ops, drains + [d], |drains|, |drains| + 1)
  {
    var iv := OwnInterval(sr, ops, d.merged, endS);
    var span := iv.endS - iv.startS;
    AppendedIsFolded(ops, d.merged, span);
    FoldedDeclared(ops, [], d.merged, span);
    FoldedMade(iv, ops, [], drains, d, span, |drains|);
  }

  /** Which drains each interval is made of. */
  datatype Span = Span(lo: nat, hi: nat)

  ghost function Stretched(spans: seq<Span>, hi: nat): seq<Span> {
    if spans == [] then [] else spans[..|spans| - 1] + [Span(spans[|spans| - 1].lo, hi)]
  }

  ghost function Spans(ops: seq<string>, at: real, drains: seq<Drain>): seq<Span> {
    if drains == [] then [] else
      var n := |drains| - 1;
      var init := Spans(ops, at, drains[..n]);
      if Quiet(drains[n].merged) || Folds(SeriesAfter(ops, at, drains[..n]), drains[n].now) then Stretched(init, n + 1)
      else init + [Span(n, n + 1)]
  }

  /** The spans follow one another up to the last drain, and each interval is made of its own. */
  ghost predicate Traced(ivs: seq<Interval>, ops: seq<string>, drains: seq<Drain>, spans: seq<Span>) {
    && |spans| == |ivs|
    && (spans != [] ==> spans[|spans| - 1].hi == |drains|)
    && (forall i :: 0 < i < |spans| ==> spans[i - 1].hi == spans[i].lo)
    && (forall i :: 0 <= i < |spans| ==> MadeOf(ivs[i], ops, drains, spans[i].lo, spans[i].hi))
  }

  /** All but the last interval are made of the drains they were made of before. */
  lemma TracedRest(ivs: seq<Interval>, ops: seq<string>, drains: seq<Drain>, spans: seq<Span>, d: Drain)
    requires Traced(ivs, ops, drains, spans)
    ensures forall i :: 0 <= i < |spans| ==> MadeOf(ivs[i], ops, drains + [d], spans[i].lo, spans[i].hi)
  {
    forall i | 0 <= i < |spans| ensures MadeOf(ivs[i], ops, drains + [d], spans[i].lo, spans[i].hi) {
      MadeOfMore(ivs[i], ops, drains, drains + [d], spans[i].lo, spans[i].hi);
    }
  }

  lemma TracedLast(ivs: seq<Interval>, ops: seq<string>, drains: seq<Drain>, spans: seq<Span>, d: Drain, iv: Interval)
    requires Traced(ivs, ops, drains, spans) && spans != []
    requires MadeOf(iv, ops, drains + [d], spans[|spans| - 1].lo, |drains| + 1)
    ensures Traced(ivs[..|ivs| - 1] + [iv], ops, drains + [d], Stretched(spans, |drains| + 1))
  {
    TracedRest(ivs, ops, drains, spans, d);
    hide MadeOf;
  }

  lemma TracedNext(ivs: seq<Interval>, ops: seq<string>, drains: seq<Drain>, spans: seq<Span>, d: Drain, iv: Interval)
    requires Traced(ivs, ops, drains, spans) && MadeOf(iv, ops, drains + [d], |drains|, |drains| + 1)
    ensures Traced(ivs + [iv], ops, drains + [d], spans + [Span(|drains|, |drains| + 1)])
  {
    TracedRest(ivs, ops, drains, spans, d);
    hide MadeOf;
  }

  lemma {:induction false} SpansNext(ops: seq<string>, at: real, drains: seq<Drain>, d: Drain)
    ensures SeriesAfter(ops, at, drains + [d]) == Record(ops, SeriesAfter(ops, at, drains), d.merged, d.now)
    ensures var sr, spans := SeriesAfter(ops, at, drains), Spans(ops, at, drains);
      Spans(ops, at, drains + [d]) ==
        if Quiet(d.merged) || Folds(sr, d.now) then Stretched(spans, |drains| + 1)
        else spans + [Span(|drains|, |drains| + 1)]
  {
    assert (drains + [d])[..|drains|] == drains;
  }

  lemma LastAgain<T>(s: seq<T>)
    requires s != []
    ensures s[..|s| - 1] + [s[|s| - 1]] == s
  {
  }

  lemma {:induction false} LastMade(ivs: seq<Interval>, ops: seq<string>, drains: seq<Drain>, spans: seq<Span>)
    requires Traced(ivs, ops, drains, spans) && ivs != []
    ensures |spans| == |ivs| && MadeOf(ivs[|ivs| - 1], ops, drains, spans[|ivs| - 1].lo, |drains|)
  {
  }

  lemma {:induction false} NoneTraced(ops: seq<string>, drains: seq<Drain>, spans: seq<Span>, d: Drain)
    requires Traced([], ops, drains, spans)
    ensures Traced([], ops, drains + [d], Stretched(spans, |drains| + 1))
  {
  }

  lemma {:induction false} QuietTraced(
      ivs: seq<Interval>, ops: seq<string>, drains: seq<Drain>, spans: seq<Span>, d: Drain)
    requires Traced(ivs, ops, drains, spans) && Quiet(d.merged) && d.merged.Keys == SetOf(ops)
    ensures Traced(ivs, ops, drains + [d], Stretched(spans, |drains| + 1))
  {
    hide *;
    if ivs == [] {
      NoneTraced(ops, drains, spans, d);
    } else {
      var n := |ivs| - 1;
      LastMade(ivs, ops, drains, spans);
      QuietStretch(ivs[n], ops, drains, d, spans[n].lo);
      TracedLast(ivs, ops, drains, spans, d, ivs[n]);
      LastAgain(ivs);
    }
  }

  lemma {:induction false} FoldTraced(
      ivs: seq<Interval>, ops: seq<string>, drains: seq<Drain>, spans: seq<Span>, d: Drain, endS: real)
    requires Traced(ivs, ops, drains, spans) && ivs != []
    ensures Traced(ivs[..|ivs| - 1] + [FoldInto(ivs[|ivs| - 1], ops, d.merged, endS)], ops, drains + [d],
                   Stretched(spans, |drains| + 1))
  {
    var n := |ivs| - 1;
    LastMade(ivs, ops, drains, spans);
    hide *;
    FoldStretch(ops, ivs[n], drains, d, endS, spans[n].lo);
    TracedLast(ivs, ops, drains, spans, d, FoldInto(ivs[n], ops, d.merged, endS));
  }

  lemma {:induction false} RecordTraced(ops: seq<string>, at: real, drains: seq<Drain>, d: Drain)
    requires d.merged.Keys == SetOf(ops)
    requires Traced(SeriesAfter(ops, at, drains).intervals, ops, drains, Spans(ops, at, drains))
    ensures Traced(SeriesAfter(ops, at, drains + [d]).intervals, ops, drains + [d], Spans(ops, at, drains + [d]))
  {
    var sr, spans := SeriesAfter(ops, at, drains), Spans(ops, at, drains);
    SpansNext(ops, at, drains, d);
    RecordCases(ops, sr, d.merged, d.now);
    hide Record;
    hide Spans;
    hide SeriesAfter;
    hide Traced;
    hide FoldInto;
    hide OwnInterval;
    hide Stretched;
    if Quiet(d.merged) {
      QuietTraced(sr.intervals, ops, drains, spans, d);
    } else if Folds(sr, d.now) {
      FoldTraced(sr.intervals, ops, drains, spans, d, d.now - sr.start);
    } else {
      OwnMade(ops, sr, drains, d, d.now - sr.start);
      TracedNext(sr.intervals, ops, drains, spans, d, OwnInterval(sr, ops, d.merged, d.now - sr.start));
    }
  }

  /** In every series each interval is made of the consecutive drains of its span, and every entry carries the
      percentiles of one of them: the first in which its op saw traffic. */
  lemma {:induction false} PercentilesOfFirst(ops: seq<string>, at: real, drains: seq<Drain>)
    requires AllOver(ops, drains)
    ensures Traced(SeriesAfter(ops, at, drains).intervals, ops, drains, Spans(ops, at, drains))
  {
    if drains == [] {
    } else {
      var n := |drains| - 1;
      PercentilesOfFirst(ops, at, drains[..n]);
      assert drains[..n] + [drains[n]] == drains;
      RecordTraced(ops, at, drains[..n], drains[n]);
    }
  }
}
