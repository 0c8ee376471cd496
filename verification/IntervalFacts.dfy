/** Recording a window keeps the series exact: sums, order, tiling and rates. */

module IntervalFacts {
  import opened Lists
  import opened Tally
  import opened Intervals

  // ------------------------------------------------------ sums over op lists

  ghost function Weigh(w: Window, op: string, err: bool): nat {
    Part(At(w, op), err)
  }

  ghost function ListSum(w: Window, ops: seq<string>, err: bool): nat {
    if ops == [] then 0 else ListSum(w, ops[..|ops| - 1], err) + Weigh(w, ops[|ops| - 1], err)
  }

  /** No op that saw traffic is declared twice. */
  ghost predicate ActiveOnce(ops: seq<string>, w: Window) {
    forall i, j :: 0 <= i < j < |ops| && ops[i] == ops[j] ==> At(w, ops[i]).count == 0
  }

  lemma SetOfSnoc(ops: seq<string>)
    requires ops != []
    ensures SetOf(ops) == SetOf(ops[..|ops| - 1]) + {ops[|ops| - 1]}
  {
    var n := |ops| - 1;
    assert ops == ops[..n] + [ops[n]];
  }

  /** A list counts at least what the set of its members does, and exactly that when no active op repeats. */
  lemma {:induction false} ListSumIsSetSum(w: Window, ops: seq<string>)
    ensures ListSum(w, ops, false) >= SumOver(w, SetOf(ops), false)
    ensures ListSum(w, ops, false) == SumOver(w, SetOf(ops), false) <==> ActiveOnce(ops, w)
  {
    if ops == [] {
    } else {
      var n := |ops| - 1;
      var init, op := ops[..n], ops[n];
      ListSumIsSetSum(w, init);
      SetOfSnoc(ops);
      if op in init {
        assert SetOf(ops) == SetOf(init);
        var i :| 0 <= i < n && init[i] == op;
        assert ActiveOnce(ops, w) ==> At(w, ops[i]).count == 0;
      } else {
        SumOverRemove(w, SetOf(ops), op, false);
        assert SetOf(ops) - {op} == SetOf(init);
      }
      if ActiveOnce(init, w) && (op in init ==> At(w, op).count == 0) {
        OnceSnoc(ops, w);
      }
    }
  }

  lemma OnceSnoc(ops: seq<string>, w: Window)
    requires ops != [] && ActiveOnce(ops[..|ops| - 1], w)
    requires ops[|ops| - 1] in ops[..|ops| - 1] ==> At(w, ops[|ops| - 1]).count == 0
    ensures ActiveOnce(ops, w)
  {
    var n := |ops| - 1;
    forall i, j | 0 <= i < j < |ops| && ops[i] == ops[j] ensures At(w, ops[i]).count == 0 {
      if j < n {
        assert ops[..n][i] == ops[..n][j];
      } else {
        assert ops[..n][i] == ops[n];
      }
    }
  }

  lemma {:induction false} DistinctSum(w: Window, ops: seq<string>, err: bool)
    requires NoDup(ops)
    ensures ListSum(w, ops, err) == SumOver(w, SetOf(ops), err)
  {
    if ops == [] {
    } else {
      var n := |ops| - 1;
      DistinctSum(w, ops[..n], err);
      SetOfSnoc(ops);
      SumOverRemove(w, SetOf(ops), ops[n], err);
      assert SetOf(ops) - {ops[n]} == SetOf(ops[..n]);
    }
  }

  ghost function SumShares(xs: seq<IntervalOp>, ops: seq<string>, err: bool): nat {
    if ops == [] then 0 else SumShares(xs, ops[..|ops| - 1], err) + Share(xs, ops[|ops| - 1], err)
  }

  lemma {:induction false} SumSharesSnoc(xs: seq<IntervalOp>, ops: seq<string>, err: bool)
    requires xs != [] && NoDup(ops)
    ensures SumShares(xs, ops, err) == SumShares(xs[..|xs| - 1], ops, err) +
      if xs[|xs| - 1].op in ops then Field(xs[|xs| - 1], err) else 0
  {
    if ops == [] {
    } else {
      var n := |ops| - 1;
      SumSharesSnoc(xs, ops[..n], err);
      assert ops == ops[..n] + [ops[n]];
      assert ops[n] !in ops[..n];
    }
  }

  lemma {:induction false} SumSharesEmpty(ops: seq<string>, err: bool)
    ensures SumShares([], ops, err) == 0
  {
    if ops == [] {
    } else {
      SumSharesEmpty(ops[..|ops| - 1], err);
    }
  }

  /** Entries named within a distinct list sum to what the list's members sum to. */
  lemma {:induction false} TotalIsSumOfShares(xs: seq<IntervalOp>, ops: seq<string>, err: bool)
    requires NoDup(ops) && forall o :: o in xs ==> o.op in ops
    ensures Total(xs, err) == SumShares(xs, ops, err)
  {
    if xs == [] {
      SumSharesEmpty(ops, err);
    } else {
      TotalIsSumOfShares(xs[..|xs| - 1], ops, err);
      SumSharesSnoc(xs, ops, err);
    }
  }

  lemma {:induction false} SharesAdd(xs: seq<IntervalOp>, prev: seq<IntervalOp>, w: Window, ops: seq<string>, err: bool)
    requires forall op :: op in ops ==> Share(xs, op, err) == Share(prev, op, err) + Weigh(w, op, err)
    ensures SumShares(xs, ops, err) == SumShares(prev, ops, err) + ListSum(w, ops, err)
  {
    if ops == [] {
    } else {
      SharesAdd(xs, prev, w, ops[..|ops| - 1], err);
    }
  }

  // --------------------------------------------------------- names and order

  lemma HasSnoc(xs: seq<IntervalOp>, o: IntervalOp, op: string)
    ensures Has(xs + [o], op) <==> Has(xs, op) || o.op == op
  {
    var ys := xs + [o];
    if Has(xs, op) {
      var i :| 0 <= i < |xs| && xs[i].op == op;
      assert ys[i].op == op;
    }
    if o.op == op {
      assert ys[|xs|].op == op;
    }
  }

  lemma {:induction false} ListedDistinct(ops: seq<string>, xs: seq<IntervalOp>)
    requires NoDup(ops)
    ensures NoDup(Listed(ops, xs)) && forall op :: op in Listed(ops, xs) ==> op in ops
  {
    if ops == [] {
    } else {
      var n := |ops| - 1;
      ListedDistinct(ops[..n], xs);
      assert ops[n] !in ops[..n];
    }
  }

  ghost predicate Distinct(xs: seq<IntervalOp>) {
    forall i, j :: 0 <= i < j < |xs| ==> xs[i].op != xs[j].op
  }

  lemma ConsistentDistinct(iv: Interval, ops: seq<string>)
    requires Consistent(iv, ops) && NoDup(ops)
    ensures Distinct(iv.operations)
  {
    ListedDistinct(ops, iv.operations);
    var xs := iv.operations;
    forall i, j | 0 <= i < j < |xs| ensures xs[i].op != xs[j].op {
      assert Names(xs)[i] != Names(xs)[j];
    }
  }

  lemma {:induction false} ShareIsLookup(xs: seq<IntervalOp>, op: string, err: bool)
    requires Distinct(xs)
    ensures Share(xs, op, err) == if Has(xs, op) then Field(Lookup(xs, op), err) else 0
  {
    if xs == [] {
    } else {
      var n := |xs| - 1;
      assert xs == xs[..n] + [xs[n]];
      HasSnoc(xs[..n], xs[n], op);
      ShareIsLookup(xs[..n], op, err);
    }
  }

  // ------------------------------------------------------- the rebuilt entries

  lemma AppendedEntryIsFolded(op: string, s: Stat, span: real)
    requires s.count > 0
    ensures AppendedEntry(op, s, span) == FoldedEntry(op, [], s, span)
  {
  }

  /** A window of its own is the fold of that window into nothing. */
  lemma {:induction false} AppendedIsFolded(ops: seq<string>, merged: Window, span: real)
    ensures Appended(ops, merged, span) == Folded(ops, [], merged, span)
  {
    if ops == [] {
    } else {
      var n := |ops| - 1;
      AppendedIsFolded(ops[..n], merged, span);
      if At(merged, ops[n]).count > 0 {
        AppendedEntryIsFolded(ops[n], At(merged, ops[n]), span);
      }
    }
  }

  lemma {:induction false} ShareSnoc(xs: seq<IntervalOp>, o: IntervalOp, op: string, err: bool)
    ensures Share(xs + [o], op, err) == Share(xs, op, err) + if o.op == op then Field(o, err) else 0
  {
    assert (xs + [o])[..|xs|] == xs;
  }

  /** Whether an op gets an entry. */
  ghost predicate Kept(prev: seq<IntervalOp>, merged: Window, op: string) {
    Has(prev, op) || At(merged, op).count > 0
  }

  /** What an entry holds after the fold: what it held, if it was there, and the window's part. */
  lemma {:induction false} FoldedEntryHolds(op: string, prev: seq<IntervalOp>, s: Stat, span: real, err: bool)
    requires Sampled(s)
    ensures FoldedEntry(op, prev, s, span).op == op
    ensures Field(FoldedEntry(op, prev, s, span), err) ==
      Part(s, err) + if Has(prev, op) then Field(Lookup(prev, op), err) else 0
  {
  }

  /** An op without an entry brings nothing. */
  lemma NotKept(prev: seq<IntervalOp>, merged: Window, op: string, err: bool)
    requires Sampled(At(merged, op)) && !Kept(prev, merged, op)
    ensures Weigh(merged, op, err) == 0 && !Has(prev, op)
  {
  }

  lemma LastApart(ops: seq<string>)
    requires ops != [] && NoDup(ops)
    ensures var n := |ops| - 1; NoDup(ops[..n]) && ops[n] !in ops[..n]
    ensures forall op :: op in ops <==> op in ops[..|ops| - 1] || op == ops[|ops| - 1]
  {
    var n := |ops| - 1;
    assert ops == ops[..n] + [ops[n]];
  }

  lemma {:induction false} FoldedStep(ops: seq<string>, prev: seq<IntervalOp>, merged: Window, span: real)
    requires ops != []
    ensures var n := |ops| - 1; var init := Folded(ops[..n], prev, merged, span);
      Folded(ops, prev, merged, span) ==
        if Kept(prev, merged, ops[n]) then init + [FoldedEntry(ops[n], prev, At(merged, ops[n]), span)] else init
  {
  }

  lemma {:induction false} FoldedShare(
      ops: seq<string>, prev: seq<IntervalOp>, merged: Window, span: real, op: string, err: bool)
    requires NoDup(ops) && Sampled(At(merged, op))
    ensures Share(Folded(ops, prev, merged, span), op, err) ==
      if op !in ops then 0
      else Weigh(merged, op, err) + if Has(prev, op) then Field(Lookup(prev, op), err) else 0
  {
    if ops == [] {
    } else {
      var n := |ops| - 1;
      var s := At(merged, ops[n]);
      var o := FoldedEntry(ops[n], prev, s, span);
      FoldedShare(ops[..n], prev, merged, span, op, err);
      LastApart(ops);
      FoldedStep(ops, prev, merged, span);
      assert o.op == ops[n];
      if ops[n] == op {
        FoldedEntryHolds(op, prev, s, span, err);
      }
      hide FoldedEntry;
      hide Folded;
      hide Lookup;
      hide Has;
      if Kept(prev, merged, ops[n]) {
        ShareSnoc(Folded(ops[..n], prev, merged, span), o, op, err);
      } else if ops[n] == op {
        NotKept(prev, merged, op, err);
      }
    }
  }

  lemma {:induction false} FoldedHas(
      ops: seq<string>, prev: seq<IntervalOp>, merged: Window, span: real, op: string)
    ensures Has(Folded(ops, prev, merged, span), op) <==> op in ops && Kept(prev, merged, op)
  {
    if ops == [] {
    } else {
      var n := |ops| - 1;
      FoldedHas(ops[..n], prev, merged, span, op);
      assert ops == ops[..n] + [ops[n]];
      if Kept(prev, merged, ops[n]) {
        HasSnoc(Folded(ops[..n], prev, merged, span), FoldedEntry(ops[n], prev, At(merged, ops[n]), span), op);
      }
    }
  }

  lemma {:induction false} FoldedNames(
      ops: seq<string>, prev: seq<IntervalOp>, merged: Window, span: real, xs: seq<IntervalOp>)
    requires forall op :: op in ops ==> (Has(xs, op) <==> Kept(prev, merged, op))
    ensures Names(Folded(ops, prev, merged, span)) == Listed(ops, xs)
  {
    if ops == [] {
    } else {
      var n := |ops| - 1;
      FoldedNames(ops[..n], prev, merged, span, xs);
      assert ops[n] in ops;
    }
  }

  lemma {:induction false} FoldedCounts(ops: seq<string>, prev: seq<IntervalOp>, merged: Window, span: real)
    requires forall o :: o in prev ==> o.count > 0
    ensures forall o :: o in Folded(ops, prev, merged, span) ==> o.op in ops && o.count > 0
  {
    if ops == [] {
    } else {
      FoldedCounts(ops[..|ops| - 1], prev, merged, span);
    }
  }

  lemma {:induction false} FoldedRates(
      ops: seq<string>, prev: seq<IntervalOp>, merged: Window, span: real, was: real)
    requires 0.0 <= was <= span && forall o :: o in prev ==> o.rate == Rate(o.count, was)
    requires span == 0.0 ==> was == 0.0
    ensures forall o :: o in Folded(ops, prev, merged, span) ==> o.rate == Rate(o.count, span)
  {
    if ops == [] {
    } else {
      FoldedRates(ops[..|ops| - 1], prev, merged, span, was);
    }
  }

  // --------------------------------------------------------- one more window

  /** The entries after a fold: consistent, and holding what they held plus what the window brought. */
  lemma {:induction false} FoldedConsistent(iv: Interval, ops: seq<string>, prev: Interval, merged: Window, span: real)
    requires NoDup(ops) && Over(merged, ops) && Consistent(prev, ops)
    requires iv.operations == Folded(ops, prev.operations, merged, span)
    requires iv.ops == prev.ops + SumOver(merged, merged.Keys, false)
    requires iv.errors == prev.errors + SumOver(merged, merged.Keys, true)
    ensures Consistent(iv, ops)
    ensures forall op, err :: op in ops ==>
      Share(iv.operations, op, err) == Share(prev.operations, op, err) + Weigh(merged, op, err)
  {
    var xs, ys := iv.operations, prev.operations;
    ConsistentDistinct(prev, ops);
    FoldedCounts(ops, ys, merged, span);
    forall op | op in ops ensures Has(xs, op) <==> Kept(ys, merged, op) {
      FoldedHas(ops, ys, merged, span, op);
    }
    FoldedNames(ops, ys, merged, span, xs);
    forall op, err | op in ops ensures Share(xs, op, err) == Share(ys, op, err) + Weigh(merged, op, err) {
      assert op in merged;
      FoldedShare(ops, ys, merged, span, op, err);
      ShareIsLookup(ys, op, err);
    }
    FoldedTotal(xs, ys, merged, ops, false);
    FoldedTotal(xs, ys, merged, ops, true);
  }

  lemma {:induction false} FoldedTotal(
      xs: seq<IntervalOp>, prev: seq<IntervalOp>, merged: Window, ops: seq<string>, err: bool)
    requires NoDup(ops) && merged.Keys == SetOf(ops)
    requires (forall o :: o in xs ==> o.op in ops) && forall o :: o in prev ==> o.op in ops
    requires forall op :: op in ops ==> Share(xs, op, err) == Share(prev, op, err) + Weigh(merged, op, err)
    ensures Total(xs, err) == Total(prev, err) + SumOver(merged, merged.Keys, err)
  {
    TotalIsSumOfShares(xs, ops, err);
    TotalIsSumOfShares(prev, ops, err);
    SharesAdd(xs, prev, merged, ops, err);
    DistinctSum(merged, ops, err);
  }

  // ------------------------------------------------------------ the series

  ghost const NOTHING := Interval(0.0, 0.0, 0, 0, 0.0, [])

  lemma {:induction false} NothingListed(ops: seq<string>)
    ensures Listed(ops, []) == []
  {
    if ops == [] {
    } else {
      NothingListed(ops[..|ops| - 1]);
    }
  }

  lemma {:induction false} AppendedConsistent(iv: Interval, ops: seq<string>, merged: Window, span: real)
    requires NoDup(ops) && Over(merged, ops)
    requires iv.operations == Appended(ops, merged, span)
    requires iv.ops == SumOver(merged, merged.Keys, false)
    requires iv.errors == SumOver(merged, merged.Keys, true)
    ensures Consistent(iv, ops)
    ensures forall op, err :: op in ops ==> Share(iv.operations, op, err) == Weigh(merged, op, err)
  {
    NothingListed(ops);
    AppendedIsFolded(ops, merged, span);
    FoldedConsistent(iv, ops, NOTHING, merged, span);
    forall op, err | op in ops ensures Share(iv.operations, op, err) == Weigh(merged, op, err) {
      assert Share([], op, err) == 0;
    }
  }

  lemma QuietWindow(merged: Window, op: string, err: bool)
    requires Quiet(merged) && op in merged && Sampled(merged[op])
    ensures Weigh(merged, op, err) == 0
  {
    SumOverRemove(merged, merged.Keys, op, false);
  }

  lemma {:induction false} ExtendSums(sr: Series, iv: Interval, now: real, op: string, err: bool)
    ensures SeriesShare(Extend(sr, iv, now).intervals, op, err) ==
      SeriesShare(sr.intervals, op, err) + Share(iv.operations, op, err)
  {
    assert (sr.intervals + [iv])[..|sr.intervals|] == sr.intervals;
  }

  lemma {:induction false} ReplaceSums(sr: Series, iv: Interval, now: real, op: string, err: bool)
    requires sr.intervals != []
    ensures SeriesShare(ReplaceLast(sr, iv, now).intervals, op, err) +
      Share(sr.intervals[|sr.intervals| - 1].operations, op, err) ==
      SeriesShare(sr.intervals, op, err) + Share(iv.operations, op, err)
  {
    var init := sr.intervals[..|sr.intervals| - 1];
    assert (init + [iv])[..|init|] == init;
  }

  /** What the interval that changed holds, in each of the two branches that change one. */
  lemma FoldBranch(ops: seq<string>, sr: Series, merged: Window, now: real)
    requires NoDup(ops) && Over(merged, ops) && AllConsistent(sr, ops) && sr.intervals != []
    ensures var prev := sr.intervals[|sr.intervals| - 1];
      var iv := FoldInto(prev, ops, merged, now - sr.start);
      && iv.ops > 0 && Consistent(iv, ops)
      && forall op, err :: op in ops ==>
        Share(iv.operations, op, err) == Share(prev.operations, op, err) + Weigh(merged, op, err)
  {
    var prev := sr.intervals[|sr.intervals| - 1];
    var iv := FoldInto(prev, ops, merged, now - sr.start);
    FoldedConsistent(iv, ops, prev, merged, iv.endS - iv.startS);
  }

  lemma OwnBranch(ops: seq<string>, sr: Series, merged: Window, now: real)
    requires NoDup(ops) && Over(merged, ops)
    ensures var iv := OwnInterval(sr, ops, merged, now - sr.start);
      && Consistent(iv, ops)
      && forall op, err :: op in ops ==> Share(iv.operations, op, err) == Weigh(merged, op, err)
  {
    var iv := OwnInterval(sr, ops, merged, now - sr.start);
    AppendedConsistent(iv, ops, merged, iv.endS - iv.startS);
  }

  /** The three branches by name. */
  lemma {:induction false} RecordCases(ops: seq<string>, sr: Series, merged: Window, now: real)
    ensures Folds(sr, now) ==> sr.intervals != []
    ensures var next := Record(ops, sr, merged, now);
      if Quiet(merged) then next == sr
      else if Folds(sr, now) then
        next == ReplaceLast(sr, FoldInto(sr.intervals[|sr.intervals| - 1], ops, merged, now - sr.start), now)
      else next == Extend(sr, OwnInterval(sr, ops, merged, now - sr.start), now)
  {
  }

  lemma {:induction false} NothingCounted(w: Window, keys: set<string>)
    ensures SumOver(w, keys, false) == 0 <==> forall op :: op in keys ==> At(w, op).count == 0
  {
    if keys == {} {
    } else {
      var k := Picks.AnyOf(keys);
      NothingCounted(w, keys - {k});
    }
  }

  /** Which windows become intervals: one in which nothing was counted changes nothing; one less than a second after
      the boundary joins the last interval if there is one; any other is a new interval.  The intervals before are
      kept, and the boundary moves exactly if something was counted. */
  lemma {:induction false} RecordBranches(ops: seq<string>, sr: Series, merged: Window, now: real)
    ensures var ivs, next := sr.intervals, Record(ops, sr, merged, now);
      next.start == sr.start &&
      if forall op :: op in merged ==> merged[op].count == 0 then next == sr
      else if ivs != [] && now - sr.lastBoundary < 1.0 then
        && next.lastBoundary == now && |next.intervals| == |ivs|
        && next.intervals[..|ivs| - 1] == ivs[..|ivs| - 1]
        && next.intervals[|ivs| - 1].startS == ivs[|ivs| - 1].startS
        && next.intervals[|ivs| - 1].endS == now - sr.start
      else
        && next.lastBoundary == now && |next.intervals| == |ivs| + 1 && next.intervals[..|ivs|] == ivs
        && next.intervals[|ivs|].startS == sr.lastBoundary - sr.start
        && next.intervals[|ivs|].endS == now - sr.start
  {
    NothingCounted(merged, merged.Keys);
    RecordCases(ops, sr, merged, now);
    hide SumOver;
    hide Folded;
    hide Appended;
    hide Record;
  }

  lemma {:induction false} FoldSums(ops: seq<string>, sr: Series, merged: Window, now: real, op: string, err: bool)
    requires NoDup(ops) && Over(merged, ops) && AllConsistent(sr, ops) && op in ops && sr.intervals != []
    ensures var iv := FoldInto(sr.intervals[|sr.intervals| - 1], ops, merged, now - sr.start);
      SeriesShare(ReplaceLast(sr, iv, now).intervals, op, err) ==
        SeriesShare(sr.intervals, op, err) + Weigh(merged, op, err)
  {
    FoldBranch(ops, sr, merged, now);
    hide FoldInto;
    hide ReplaceLast;
    hide SeriesShare;
    hide Share;
    hide Consistent;
    ReplaceSums(sr, FoldInto(sr.intervals[|sr.intervals| - 1], ops, merged, now - sr.start), now, op, err);
  }

  lemma {:induction false} OwnSums(ops: seq<string>, sr: Series, merged: Window, now: real, op: string, err: bool)
    requires NoDup(ops) && Over(merged, ops) && op in ops
    ensures var iv := OwnInterval(sr, ops, merged, now - sr.start);
      SeriesShare(Extend(sr, iv, now).intervals, op, err) ==
        SeriesShare(sr.intervals, op, err) + Weigh(merged, op, err)
  {
    OwnBranch(ops, sr, merged, now);
    hide OwnInterval;
    hide Extend;
    hide SeriesShare;
    hide Share;
    hide Consistent;
    ExtendSums(sr, OwnInterval(sr, ops, merged, now - sr.start), now, op, err);
  }

  /** Appended, folded or empty: the series gains exactly what the window held, for every op. */
  lemma {:induction false} RecordSums(ops: seq<string>, sr: Series, merged: Window, now: real, op: string, err: bool)
    requires NoDup(ops) && Over(merged, ops) && AllConsistent(sr, ops) && op in ops
    ensures SeriesShare(Record(ops, sr, merged, now).intervals, op, err) ==
      SeriesShare(sr.intervals, op, err) + Weigh(merged, op, err)
  {
    assert op in merged && Sampled(merged[op]);
    hide *;
    RecordCases(ops, sr, merged, now);
    if Quiet(merged) {
      QuietWindow(merged, op, err);
    } else if Folds(sr, now) {
      FoldSums(ops, sr, merged, now, op, err);
    } else {
      OwnSums(ops, sr, merged, now, op, err);
    }
  }

  lemma ExtendConsistent(sr: Series, iv: Interval, now: real, ops: seq<string>)
    requires AllConsistent(sr, ops) && iv.ops > 0 && Consistent(iv, ops)
    ensures AllConsistent(Extend(sr, iv, now), ops)
  {
  }

  lemma ReplaceConsistent(sr: Series, iv: Interval, now: real, ops: seq<string>)
    requires AllConsistent(sr, ops) && iv.ops > 0 && Consistent(iv, ops) && sr.intervals != []
    ensures AllConsistent(ReplaceLast(sr, iv, now), ops)
  {
  }

  lemma OwnBusy(ops: seq<string>, sr: Series, merged: Window, endS: real)
    requires !Quiet(merged)
    ensures OwnInterval(sr, ops, merged, endS).ops > 0
  {
    hide SumOver;
    hide Appended;
  }

  lemma {:induction false} RecordConsistent(ops: seq<string>, sr: Series, merged: Window, now: real)
    requires NoDup(ops) && Over(merged, ops) && AllConsistent(sr, ops)
    ensures AllConsistent(Record(ops, sr, merged, now), ops)
  {
    hide *;
    RecordCases(ops, sr, merged, now);
    var endS := now - sr.start;
    if Quiet(merged) {
    } else if Folds(sr, now) {
      FoldBranch(ops, sr, merged, now);
      ReplaceConsistent(sr, FoldInto(sr.intervals[|sr.intervals| - 1], ops, merged, endS), now, ops);
    } else {
      OwnBranch(ops, sr, merged, now);
      OwnBusy(ops, sr, merged, endS);
      ExtendConsistent(sr, OwnInterval(sr, ops, merged, endS), now, ops);
    }
  }

  /** The tiling needs nothing of the clock. */
  lemma RecordTiles(ops: seq<string>, sr: Series, merged: Window, now: real)
    requires Tiled(sr)
    ensures Tiled(Record(ops, sr, merged, now))
  {
  }

  lemma FoldRated(ops: seq<string>, prev: Interval, merged: Window, endS: real)
    requires Rated(prev) && endS >= prev.endS
    ensures Rated(FoldInto(prev, ops, merged, endS))
  {
    FoldedRates(ops, prev.operations, merged, endS - prev.startS, prev.endS - prev.startS);
  }

  lemma OwnRated(ops: seq<string>, sr: Series, merged: Window, endS: real)
    requires endS >= sr.lastBoundary - sr.start
    ensures Rated(OwnInterval(sr, ops, merged, endS))
  {
    var span := endS - (sr.lastBoundary - sr.start);
    AppendedIsFolded(ops, merged, span);
    FoldedRates(ops, [], merged, span, 0.0);
  }

  /** When time does not run backwards, slivers are folded away and every rate is a count over its true span. */
  lemma RecordSpaced(ops: seq<string>, sr: Series, merged: Window, now: real)
    requires Tiled(sr) && Spaced(sr)
    requires Quiet(merged) || now >= sr.lastBoundary
    ensures Spaced(Record(ops, sr, merged, now))
  {
    if Quiet(merged) {
    } else if Folds(sr, now) {
      FoldRated(ops, sr.intervals[|sr.intervals| - 1], merged, now - sr.start);
    } else {
      OwnRated(ops, sr, merged, now - sr.start);
    }
  }

  /** A window of its own keeps the series well timed exactly when the clock did not run backwards. */
  lemma OwnSpacedExact(ops: seq<string>, sr: Series, merged: Window, now: real)
    requires Tiled(sr) && Spaced(sr) && !Quiet(merged) && !Folds(sr, now)
    ensures Spaced(Record(ops, sr, merged, now)) <==> now >= sr.lastBoundary
  {
    if now >= sr.lastBoundary {
      RecordSpaced(ops, sr, merged, now);
    } else {
      var ivs := Record(ops, sr, merged, now).intervals;
      assert !Rated(ivs[|ivs| - 1]);
    }
  }

  /** Does the last interval, ending at endS, still span a proper time? */
  ghost predicate SpanHolds(sr: Series, endS: real)
    requires sr.intervals != []
  {
    var prev := sr.intervals[|sr.intervals| - 1];
    var span := endS - prev.startS;
    && (span > 0.0 || (span == 0.0 && prev.endS == prev.startS))
    && (|sr.intervals| > 1 ==> span >= MIN_INTERVAL)
  }

  /** Over a positive span every rate is made anew, whatever it was before. */
  lemma {:induction false} FoldedRatesAnew(ops: seq<string>, prev: seq<IntervalOp>, merged: Window, span: real)
    requires span > 0.0
    ensures forall o :: o in Folded(ops, prev, merged, span) ==> o.rate == Rate(o.count, span)
  {
    if ops == [] {
    } else {
      FoldedRatesAnew(ops[..|ops| - 1], prev, merged, span);
    }
  }

  lemma PositiveRate(n: nat, span: real)
    requires n > 0 && span > 0.0
    ensures Rate(n, span) > 0.0
  {
  }

  /** The interval a sliver was folded into has true rates exactly if its span is positive, or was and is none. */
  lemma {:induction false} FoldRatedExact(ops: seq<string>, prev: Interval, merged: Window, endS: real)
    requires Rated(prev) && prev.ops > 0
    ensures var span := endS - prev.startS;
      Rated(FoldInto(prev, ops, merged, endS)) <==> span > 0.0 || (span == 0.0 && prev.endS == prev.startS)
  {
    var span, was := endS - prev.startS, prev.endS - prev.startS;
    if span > 0.0 {
      FoldedRatesAnew(ops, prev.operations, merged, span);
    } else if span == 0.0 {
      if was == 0.0 {
        FoldedRates(ops, prev.operations, merged, span, was);
      } else {
        PositiveRate(prev.ops, was);
      }
    }
  }

  /** A sliver keeps the series well timed exactly if the interval it joins still spans a proper time. */
  lemma FoldSpacedExact(ops: seq<string>, sr: Series, merged: Window, now: real)
    requires AllConsistent(sr, ops) && Spaced(sr) && !Quiet(merged) && Folds(sr, now)
    ensures Spaced(Record(ops, sr, merged, now)) <==> SpanHolds(sr, now - sr.start)
  {
    var n := |sr.intervals| - 1;
    var prev := sr.intervals[n];
    var iv := FoldInto(prev, ops, merged, now - sr.start);
    assert Rated(prev) && prev.ops > 0;
    FoldRatedExact(ops, prev, merged, now - sr.start);
    var ivs := Record(ops, sr, merged, now).intervals;
    assert ivs[n] == iv && forall i :: 0 <= i < n ==> ivs[i] == sr.intervals[i];
  }

  /** When a window of whatever kind keeps the series well timed. */
  lemma {:induction false} SpacedExact(ops: seq<string>, sr: Series, merged: Window, now: real)
    requires AllConsistent(sr, ops) && Tiled(sr) && Spaced(sr)
    ensures Spaced(Record(ops, sr, merged, now)) <==>
      Quiet(merged) || (if Folds(sr, now) then SpanHolds(sr, now - sr.start) else now >= sr.lastBoundary)
  {
    if Quiet(merged) {
    } else if Folds(sr, now) {
      FoldSpacedExact(ops, sr, merged, now);
    } else {
      OwnSpacedExact(ops, sr, merged, now);
    }
  }

  lemma RateTimesSpan(n: nat, span: real)
    requires span > 0.0
    ensures Rate(n, span) * span == n as real
  {
  }

  ghost function SumRates(xs: seq<IntervalOp>): real {
    if xs == [] then 0.0 else SumRates(xs[..|xs| - 1]) + xs[|xs| - 1].rate
  }

  lemma {:induction false} RatesAddUp(xs: seq<IntervalOp>, span: real)
    requires span >= 0.0 && forall o :: o in xs ==> o.rate == Rate(o.count, span)
    ensures SumRates(xs) == Rate(Total(xs, false), span)
  {
    if xs == [] {
    } else {
      var n := |xs| - 1;
      RatesAddUp(xs[..n], span);
      RateAdds(Total(xs[..n], false), xs[n].count, span);
    }
  }

  lemma RateAdds(a: nat, b: nat, span: real)
    ensures Rate(a + b, span) == Rate(a, span) + Rate(b, span)
  {
    if span > 0.0 {
      assert (a + b) as real / span == a as real / span + b as real / span;
    }
  }

  /** Rate times span is the count, and the rate is zero where the span is. */
  lemma RateMeasures(n: nat, span: real)
    ensures if span > 0.0 then Rate(n, span) * span == n as real else Rate(n, span) == 0.0
  {
    if span > 0.0 {
      RateTimesSpan(n, span);
    }
  }

  lemma EntriesMeasure(xs: seq<IntervalOp>, span: real)
    requires forall o :: o in xs ==> o.rate == Rate(o.count, span)
    ensures forall o :: o in xs ==> if span > 0.0 then o.rate * span == o.count as real else o.rate == 0.0
  {
    hide *;
    forall o | o in xs ensures if span > 0.0 then o.rate * span == o.count as real else o.rate == 0.0 {
      RateMeasures(o.count, span);
    }
  }

  lemma RatedAt(sr: Series, ops: seq<string>, i: nat)
    requires AllConsistent(sr, ops) && Spaced(sr) && i < |sr.intervals|
    ensures var iv := sr.intervals[i]; var span := iv.endS - iv.startS;
      && span >= 0.0 && iv.rate == Rate(iv.ops, span) && iv.ops == Total(iv.operations, false)
      && forall o :: o in iv.operations ==> o.rate == Rate(o.count, span)
  {
    hide Rate;
    assert Rated(sr.intervals[i]) && Consistent(sr.intervals[i], ops);
  }

  /** In a well-timed series an interval's rate times its span is its count, op by op and in total, and the
      per-op rates add up to the interval's. */
  lemma {:induction false} IntervalRates(sr: Series, ops: seq<string>, i: nat)
    requires AllConsistent(sr, ops) && Spaced(sr) && i < |sr.intervals|
    ensures var iv := sr.intervals[i]; var span := iv.endS - iv.startS;
      && SumRates(iv.operations) == iv.rate
      && (if span > 0.0 then iv.rate * span == iv.ops as real else iv.rate == 0.0)
      && forall o :: o in iv.operations ==>
        if span > 0.0 then o.rate * span == o.count as real else o.rate == 0.0
  {
    hide *;
    var iv := sr.intervals[i];
    var span := iv.endS - iv.startS;
    RatedAt(sr, ops, i);
    RatesAddUp(iv.operations, span);
    RateMeasures(iv.ops, span);
    EntriesMeasure(iv.operations, span);
  }

  /** The same of a whole series, with the spans of its intervals. */
  lemma {:induction false} WellTimed(sr: Series, ops: seq<string>)
    requires AllConsistent(sr, ops) && Spaced(sr)
    ensures forall i :: 0 <= i < |sr.intervals| ==>
      var iv := sr.intervals[i]; var span := iv.endS - iv.startS;
      && span >= (if i == 0 then 0.0 else 1.0)
      && (if span > 0.0 then iv.rate * span == iv.ops as real else iv.rate == 0.0)
      && forall o :: o in iv.operations ==>
        if span > 0.0 then o.rate * span == o.count as real else o.rate == 0.0
  {
    forall i | 0 <= i < |sr.intervals|
      ensures var iv := sr.intervals[i]; var span := iv.endS - iv.startS;
        && span >= (if i == 0 then 0.0 else 1.0)
        && (if span > 0.0 then iv.rate * span == iv.ops as real else iv.rate == 0.0)
        && forall o :: o in iv.operations ==>
          if span > 0.0 then o.rate * span == o.count as real else o.rate == 0.0
    {
      assert Rated(sr.intervals[i]);
      hide *;
      IntervalRates(sr, ops, i);
    }
  }

  // -------------------------------------------------------- repeated op names

  lemma {:induction false} AppendedTotal(ops: seq<string>, merged: Window, span: real)
    ensures Total(Appended(ops, merged, span), false) == ListSum(merged, ops, false)
  {
    if ops == [] {
    } else {
      AppendedTotal(ops[..|ops| - 1], merged, span);
    }
  }

  /** Distinct names matter: an interval's op count is the sum of its entries exactly when no op that saw
      traffic is declared twice, and otherwise the entries overcount. */
  lemma OwnTotalExact(sr: Series, ops: seq<string>, merged: Window, endS: real)
    requires merged.Keys == SetOf(ops)
    ensures var iv := OwnInterval(sr, ops, merged, endS);
      && iv.ops <= Total(iv.operations, false)
      && (iv.ops == Total(iv.operations, false) <==> ActiveOnce(ops, merged))
  {
    AppendedTotal(ops, merged, endS - (sr.lastBoundary - sr.start));
    ListSumIsSetSum(merged, ops);
  }
}
