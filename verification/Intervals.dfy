/** The time series of summary windows: what recording one more window does to it. */

module Intervals {
  import opened Lists
  import opened Picks
  import opened Tally
  import opened Quantiles

  /** One op within a window. */
  datatype IntervalOp = IntervalOp(
    op: string, count: nat, errors: nat, rate: real, p50Ms: real, p95Ms: real, p99Ms: real)

  datatype Interval = Interval(
    startS: real, endS: real, ops: nat, errors: nat, rate: real, operations: seq<IntervalOp>)

  /** Instants are clock readings in seconds. */
  datatype Series = Series(start: real, lastBoundary: real, intervals: seq<Interval>)

  const MIN_INTERVAL := 1.0

  function Rate(n: nat, span: real): real {
    if span <= 0.0 then 0.0 else n as real / span
  }

  /** The count of a stat, or its errors. */
  ghost function Part(s: Stat, err: bool): nat {
    if err then s.errors else s.count
  }

  ghost function Field(o: IntervalOp, err: bool): nat {
    if err then o.errors else o.count
  }

  ghost function SumOver(w: Window, keys: set<string>, err: bool): nat {
    if keys == {} then 0 else
      var k := AnyOf(keys);
      Part(At(w, k), err) + SumOver(w, keys - {k}, err)
  }

  lemma {:induction false} SumOverRemove(w: Window, keys: set<string>, k: string, err: bool)
    requires k in keys
    ensures SumOver(w, keys, err) == Part(At(w, k), err) + SumOver(w, keys - {k}, err)
  {
    var j := AnyOf(keys);
    if j != k {
      SumOverRemove(w, keys - {j}, k, err);
      SumOverRemove(w, keys - {k}, j, err);
      assert keys - {j} - {k} == keys - {k} - {j};
    }
  }

  // ------------------------------------------------- recording a window

  /** An entry for an op that has none yet: percentiles from this window, nothing counted so far. */
  ghost function NewEntry(op: string, s: Stat): IntervalOp {
    IntervalOp(op, 0, 0, 0.0, QuantileMs(s.obs, 0.50), QuantileMs(s.obs, 0.95), QuantileMs(s.obs, 0.99))
  }

  ghost function AppendedEntry(op: string, s: Stat, span: real): IntervalOp {
    NewEntry(op, s).(count := s.count, errors := s.errors, rate := Rate(s.count, span))
  }

  /** The entries of a window of its own, in declared op order. */
  ghost function Appended(ops: seq<string>, merged: Window, span: real): seq<IntervalOp> {
    if ops == [] then [] else
      var n := |ops| - 1;
      var s := At(merged, ops[n]);
      var init := Appended(ops[..n], merged, span);
      if s.count == 0 then init
      else init + [AppendedEntry(ops[n], s, span)]
  }

  ghost predicate Has(xs: seq<IntervalOp>, op: string) {
    exists i :: 0 <= i < |xs| && xs[i].op == op
  }

  /** The entry an index of xs by op name ends up with. */
  ghost function Lookup(xs: seq<IntervalOp>, op: string): (o: IntervalOp)
    requires Has(xs, op)
    ensures o in xs && o.op == op
  {
    if xs[|xs| - 1].op == op then xs[|xs| - 1] else Lookup(xs[..|xs| - 1], op)
  }

  ghost function FoldedEntry(op: string, prev: seq<IntervalOp>, s: Stat, span: real): IntervalOp {
    var o := if Has(prev, op) then Lookup(prev, op) else NewEntry(op, s);
    var o := if s.count > 0 then o.(count := o.count + s.count, errors := o.errors + s.errors) else o;
    if span > 0.0 then o.(rate := o.count as real / span) else o
  }

  /** The entries of an interval that a sliver is folded into, rebuilt in declared op order. */
  ghost function Folded(ops: seq<string>, prev: seq<IntervalOp>, merged: Window, span: real): seq<IntervalOp> {
    if ops == [] then [] else
      var n := |ops| - 1;
      var s := At(merged, ops[n]);
      var init := Folded(ops[..n], prev, merged, span);
      if !Has(prev, ops[n]) && s.count == 0 then init else init + [FoldedEntry(ops[n], prev, s, span)]
  }

  ghost function FoldInto(prev: Interval, ops: seq<string>, merged: Window, endS: real): Interval {
    var n := prev.ops + SumOver(merged, merged.Keys, false);
    var span := endS - prev.startS;
    prev.(
      endS := endS,
      ops := n,
      errors := prev.errors + SumOver(merged, merged.Keys, true),
      rate := if span > 0.0 then n as real / span else prev.rate,
      operations := Folded(ops, prev.operations, merged, span))
  }

  /** The interval a window of its own becomes. */
  ghost function OwnInterval(sr: Series, ops: seq<string>, merged: Window, endS: real): Interval {
    var startS := sr.lastBoundary - sr.start;
    var n := SumOver(merged, merged.Keys, false);
    Interval(startS, endS, n, SumOver(merged, merged.Keys, true), Rate(n, endS - startS),
             Appended(ops, merged, endS - startS))
  }

  ghost function Extend(sr: Series, iv: Interval, now: real): Series {
    Series(sr.start, now, sr.intervals + [iv])
  }

  ghost function ReplaceLast(sr: Series, iv: Interval, now: real): Series
    requires sr.intervals != []
  {
    Series(sr.start, now, sr.intervals[..|sr.intervals| - 1] + [iv])
  }

  ghost predicate Quiet(merged: Window) {
    SumOver(merged, merged.Keys, false) == 0
  }

  ghost predicate Folds(sr: Series, now: real) {
    now - sr.lastBoundary < MIN_INTERVAL && sr.intervals != []
  }

  /** Empty window, sliver folded into its predecessor, or window of its own. */
  ghost function Record(ops: seq<string>, sr: Series, merged: Window, now: real): Series {
    if Quiet(merged) then sr
    else if Folds(sr, now) then
      ReplaceLast(sr, FoldInto(sr.intervals[|sr.intervals| - 1], ops, merged, now - sr.start), now)
    else Extend(sr, OwnInterval(sr, ops, merged, now - sr.start), now)
  }

  // ------------------------------------------------------- what it means

  ghost function Share(xs: seq<IntervalOp>, op: string, err: bool): nat {
    if xs == [] then 0
    else Share(xs[..|xs| - 1], op, err) + if xs[|xs| - 1].op == op then Field(xs[|xs| - 1], err) else 0
  }

  ghost function Total(xs: seq<IntervalOp>, err: bool): nat {
    if xs == [] then 0 else Total(xs[..|xs| - 1], err) + Field(xs[|xs| - 1], err)
  }

  ghost function SeriesShare(ivs: seq<Interval>, op: string, err: bool): nat {
    if ivs == [] then 0
    else SeriesShare(ivs[..|ivs| - 1], op, err) + Share(ivs[|ivs| - 1].operations, op, err)
  }

  ghost function Names(xs: seq<IntervalOp>): (ns: seq<string>)
    ensures |ns| == |xs| && forall i :: 0 <= i < |xs| ==> ns[i] == xs[i].op
  {
    seq(|xs|, i requires 0 <= i < |xs| => xs[i].op)
  }

  /** The ops that have an entry in xs, in declared order. */
  ghost function Listed(ops: seq<string>, xs: seq<IntervalOp>): seq<string> {
    if ops == [] then [] else
      var n := |ops| - 1;
      if Has(xs, ops[n]) then Listed(ops[..n], xs) + [ops[n]] else Listed(ops[..n], xs)
  }

  /** The entries are a subsequence of the declared ops, one entry an op, exactly the ops that saw traffic;
      and the interval's own figures are the sums of its entries. */
  ghost predicate Consistent(iv: Interval, ops: seq<string>) {
    && Names(iv.operations) == Listed(ops, iv.operations)
    && (forall o :: o in iv.operations ==> o.op in ops && o.count > 0)
    && iv.ops == Total(iv.operations, false)
    && iv.errors == Total(iv.operations, true)
  }

  ghost predicate AllConsistent(sr: Series, ops: seq<string>) {
    forall i :: 0 <= i < |sr.intervals| ==> sr.intervals[i].ops > 0 && Consistent(sr.intervals[i], ops)
  }

  /** The intervals tile the run from its start to the last boundary. */
  ghost predicate Tiled(sr: Series) {
    && (sr.intervals == [] ==> sr.lastBoundary == sr.start)
    && (sr.intervals != [] ==>
      && sr.intervals[0].startS == 0.0
      && sr.intervals[|sr.intervals| - 1].endS == sr.lastBoundary - sr.start)
    && forall i :: 0 < i < |sr.intervals| ==> sr.intervals[i].startS == sr.intervals[i - 1].endS
  }

  /** Rates are counts over the true span, zero where the span is. */
  ghost predicate Rated(iv: Interval) {
    && iv.startS <= iv.endS
    && iv.rate == Rate(iv.ops, iv.endS - iv.startS)
    && forall o :: o in iv.operations ==> o.rate == Rate(o.count, iv.endS - iv.startS)
  }

  /** Every interval but the first is a real observation window. */
  ghost predicate Spaced(sr: Series) {
    && (forall i :: 0 <= i < |sr.intervals| ==> Rated(sr.intervals[i]))
    && forall i :: 0 < i < |sr.intervals| ==> sr.intervals[i].endS - sr.intervals[i].startS >= MIN_INTERVAL
  }

  /** A window over exactly the declared ops, with one latency for each op that did not fail. */
  ghost predicate Over(w: Window, ops: seq<string>) {
    && w.Keys == SetOf(ops)
    && forall op :: op in w ==> Sampled(w[op])
  }
}
