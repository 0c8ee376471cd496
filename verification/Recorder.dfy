/** The loops that turn a merged window into interval entries. */

module Recorder {
  import opened Picks
  import opened Frequency
  import opened Quantiles
  import opened Tally
  import opened Intervals
  import IntervalFacts
  import opened Store
  import opened Tables

  /** An entry for an op that has none yet. */
  method FirstEntry(op: string, s: OpStats) returns (o: IntervalOp)
    requires s.Sound()
    ensures o == NewEntry(op, s.Abs())
  {
    var m := Held(s.latencies);
    var keys, total := SortedKeys(m);
    var p50 := QuantileFrom(m, keys, total, 0.50);
    var p95 := QuantileFrom(m, keys, total, 0.95);
    var p99 := QuantileFrom(m, keys, total, 0.99);
    o := IntervalOp(op, 0, 0, 0.0, p50, p95, p99);
  }

  /** The window's counts and errors, summed in whatever order the ops come. */
  method SumStats(merged: StatsTable, ghost w: Window) returns (ops: nat, errs: nat)
    requires merged.Valid() && merged.Abs() == w
    ensures merged.Valid() && merged.Abs() == w
    ensures ops == SumOver(w, merged.cells.Keys, false) && errs == SumOver(w, merged.cells.Keys, true)
  {
    ops, errs := 0, 0;
    var left := merged.cells.Keys;
    while left != {}
      invariant left <= merged.cells.Keys
      invariant ops + SumOver(w, left, false) == SumOver(w, merged.cells.Keys, false)
      invariant errs + SumOver(w, left, true) == SumOver(w, merged.cells.Keys, true)
    {
      var op := Pick(left);
      SumOverRemove(w, left, op, false);
      SumOverRemove(w, left, op, true);
      left := left - {op};
      ops := ops + merged.cells[op].count;
      errs := errs + merged.cells[op].errors;
    }
  }

  lemma PrefixStep(ops: seq<string>, i: nat)
    requires i < |ops|
    ensures ops[..i + 1][..i] == ops[..i] && ops[..i + 1][i] == ops[i] && |ops[..i + 1]| == i + 1
  {
  }

  lemma {:induction false} AppendedStep(ops: seq<string>, i: nat, w: Window, span: real)
    requires i < |ops|
    ensures var s := At(w, ops[i]);
      Appended(ops[..i + 1], w, span) ==
        if s.count == 0 then Appended(ops[..i], w, span)
        else Appended(ops[..i], w, span) + [AppendedEntry(ops[i], s, span)]
  {
    PrefixStep(ops, i);
  }

  lemma {:induction false} FoldedStep(ops: seq<string>, i: nat, prev: seq<IntervalOp>, w: Window, span: real)
    requires i < |ops|
    ensures var s := At(w, ops[i]);
      Folded(ops[..i + 1], prev, w, span) ==
        if !Has(prev, ops[i]) && s.count == 0 then Folded(ops[..i], prev, w, span)
        else Folded(ops[..i], prev, w, span) + [FoldedEntry(ops[i], prev, s, span)]
  {
    PrefixStep(ops, i);
  }

  lemma {:induction false} NoOps(ops: seq<string>, prev: seq<IntervalOp>, w: Window, span: real)
    ensures Appended(ops[..0], w, span) == [] == Folded(ops[..0], prev, w, span) && ops[..|ops|] == ops
  {
  }

  /** The entry an op of a window of its own gets. */
  method OwnEntry(op: string, s: OpStats, span: real) returns (o: IntervalOp)
    requires s.Sound()
    ensures o == AppendedEntry(op, s.Abs(), span)
  {
    o := FirstEntry(op, s);
    o := o.(count := s.count, errors := s.errors, rate := Rate(s.count, span));
  }

  /** The entries of a window of its own. */
  method OwnOperations(ops: seq<string>, merged: StatsTable, span: real, ghost w: Window) returns (xs: seq<IntervalOp>)
    requires merged.Valid() && merged.Abs() == w
    ensures xs == Appended(ops, w, span)
  {
    hide StatsTable.Valid;
    hide StatsTable.Abs;
    hide OpStats.Sound;
    hide Appended;
    hide AppendedEntry;
    NoOps(ops, [], w, span);
    merged.AbsOver();
    xs := [];
    for i := 0 to |ops|
      invariant xs == Appended(ops[..i], w, span)
    {
      AppendedStep(ops, i, w, span);
      var op := ops[i];
      if op in merged.cells {
        merged.CellSound(op);
        if merged.cells[op].count > 0 {
          var o := OwnEntry(op, merged.cells[op], span);
          xs := xs + [o];
        }
      }
    }
  }

  /** Where the entry is that an index by op name ends up with. */
  lemma {:induction false} LookupLast(xs: seq<IntervalOp>, op: string) returns (i: nat)
    requires Has(xs, op)
    ensures i < |xs| && Lookup(xs, op) == xs[i] && xs[i].op == op
    ensures forall j :: i < j < |xs| ==> xs[j].op != op
  {
    i := |xs| - 1;
    if xs[i].op != op {
      i := LookupLast(xs[..i], op);
      assert forall j :: i < j < |xs| - 1 ==> xs[j].op == xs[..|xs| - 1][j].op;
    }
  }

  /** The predecessor's entries by op; a later entry of the same name replaces an earlier one. */
  method Existing(prev: seq<IntervalOp>) returns (existing: map<string, IntervalOp>)
    ensures forall op :: op in existing <==> Has(prev, op)
    ensures forall op :: op in existing ==> existing[op] == Lookup(prev, op)
    ensures forall op :: op in existing ==>
      exists i :: 0 <= i < |prev| && existing[op] == prev[i] && prev[i].op == op &&
        (forall j :: i < j < |prev| ==> prev[j].op != op)
  {
    existing := map[];
    for i := 0 to |prev|
      invariant forall op :: op in existing <==> Has(prev[..i], op)
      invariant forall op :: op in existing ==> existing[op] == Lookup(prev[..i], op)
    {
      assert prev[..i + 1] == prev[..i] + [prev[i]];
      forall op ensures Has(prev[..i + 1], op) <==> Has(prev[..i], op) || prev[i].op == op {
        IntervalFacts.HasSnoc(prev[..i], prev[i], op);
      }
      existing := existing[prev[i].op := prev[i]];
    }
    assert prev[..|prev|] == prev;
    forall op | op in existing
      ensures
        exists i :: 0 <= i < |prev| && existing[op] == prev[i] && prev[i].op == op &&
          forall j :: i < j < |prev| ==> prev[j].op != op
    {
      var i := LookupLast(prev, op);
    }
  }

  /** One entry of the rebuilt list: carried over or new, with the sliver's counts and the new rate. */
  method RebuildEntry(
      op: string, existing: map<string, IntervalOp>, ghost prev: seq<IntervalOp>, s: OpStats, span: real)
    returns (o: IntervalOp)
    requires s.Sound()
    requires (op in existing <==> Has(prev, op)) && (op in existing ==> existing[op] == Lookup(prev, op))
    ensures o == FoldedEntry(op, prev, s.Abs(), span)
  {
    if op in existing {
      o := existing[op];
    } else {
      o := FirstEntry(op, s);
    }
    if s.count > 0 {
      o := o.(count := o.count + s.count, errors := o.errors + s.errors);
    }
    if span > 0.0 {
      o := o.(rate := o.count as real / span);
    }
  }

  /** The entries of the predecessor with a sliver folded in, rebuilt in declared op order. */
  method Rebuild(ops: seq<string>, prev: seq<IntervalOp>, merged: StatsTable, span: real, ghost w: Window)
    returns (xs: seq<IntervalOp>)
    requires merged.Valid() && merged.Abs() == w && forall op :: op in ops ==> op in merged.cells
    ensures xs == Folded(ops, prev, w, span)
  {
    hide StatsTable.Valid;
    hide StatsTable.Abs;
    hide OpStats.Sound;
    hide Folded;
    hide FoldedEntry;
    NoOps(ops, prev, w, span);
    var existing := Existing(prev);
    xs := [];
    for i := 0 to |ops|
      invariant xs == Folded(ops[..i], prev, w, span)
    {
      FoldedStep(ops, i, prev, w, span);
      var op := ops[i];
      var s := merged.cells[op];
      merged.CellSound(op);
      if op in existing || s.count > 0 {
        var o := RebuildEntry(op, existing, prev, s, span);
        xs := xs + [o];
      }
    }
  }
}
