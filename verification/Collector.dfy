/** The collector: drains the workers' windows into the run total and the series. */

module Collector {
  import opened Lists
  import opened Tally
  import opened Intervals
  import IntervalFacts
  import opened Pipeline
  import opened Store
  import opened Tables
  import opened Recorder

  /** An interval as the program holds it: copying one copies the reference to its entries, not the entries. */
  datatype IntervalRef = IntervalRef(
    startS: real, endS: real, ops: nat, errors: nat, rate: real, operations: array<IntervalOp>)

  ghost function Deref(iv: IntervalRef): Interval
    reads iv.operations
  {
    Interval(iv.startS, iv.endS, iv.ops, iv.errors, iv.rate, iv.operations[..])
  }

  ghost function Entries(ivs: seq<IntervalRef>): set<array<IntervalOp>> {
    set iv | iv in ivs :: iv.operations
  }

  ghost function DerefAll(ivs: seq<IntervalRef>): seq<Interval>
    reads Entries(ivs)
  {
    if ivs == [] then [] else DerefAll(ivs[..|ivs| - 1]) + [Deref(ivs[|ivs| - 1])]
  }

  lemma {:induction false} DerefLength(ivs: seq<IntervalRef>)
    ensures |DerefAll(ivs)| == |ivs|
  {
    if ivs == [] {
    } else {
      DerefLength(ivs[..|ivs| - 1]);
    }
  }

  twostate lemma {:induction false} DerefKept(ivs: seq<IntervalRef>)
    requires forall iv :: iv in ivs ==> unchanged(iv.operations)
    ensures DerefAll(ivs) == old(DerefAll(ivs))
  {
    if ivs == [] {
    } else {
      var n := |ivs| - 1;
      DerefKept(ivs[..n]);
      assert ivs[n] in ivs;
    }
  }

  lemma {:induction false} DerefSnoc(ivs: seq<IntervalRef>, iv: IntervalRef)
    ensures DerefAll(ivs + [iv]) == DerefAll(ivs) + [Deref(iv)]
  {
    assert (ivs + [iv])[..|ivs|] == ivs;
  }

  lemma {:induction false} DerefInit(ivs: seq<IntervalRef>)
    requires ivs != []
    ensures var n := |ivs| - 1;
      |DerefAll(ivs)| == |ivs| && DerefAll(ivs)[..n] == DerefAll(ivs[..n]) && DerefAll(ivs)[n] == Deref(ivs[n])
  {
    DerefLength(ivs[..|ivs| - 1]);
  }

  /** The windows of all workers merged, one worker after the other. */
  ghost function MergedWith(ops: seq<string>, ws: seq<Window>): Window {
    if ws == [] then Empty(ops) else Merge(MergedWith(ops, ws[..|ws| - 1]), ws[|ws| - 1])
  }

  /** The windows of n workers after their lift. */
  ghost function Cleared(ops: seq<string>, n: nat): (ws: seq<Window>)
    ensures |ws| == n && forall i :: 0 <= i < n ==> ws[i] == Empty(ops)
  {
    if n == 0 then [] else Cleared(ops, n - 1) + [Empty(ops)]
  }

  /** The windows once the first i are lifted. */
  ghost function PartlyCleared(ops: seq<string>, ws: seq<Window>, i: nat): seq<Window>
    requires i <= |ws|
  {
    Cleared(ops, i) + ws[i..]
  }

  lemma PartlyClearedStep(ops: seq<string>, ws: seq<Window>, i: nat)
    requires i < |ws|
    ensures PartlyCleared(ops, ws, i)[i] == ws[i]
    ensures PartlyCleared(ops, ws, i)[i := Empty(ops)] == PartlyCleared(ops, ws, i + 1)
  {
  }

  lemma {:induction false} PartlyClearedEnds(ops: seq<string>, ws: seq<Window>)
    ensures PartlyCleared(ops, ws, 0) == ws && PartlyCleared(ops, ws, |ws|) == Cleared(ops, |ws|)
  {
  }

  lemma {:induction false} MergedWithStep(ops: seq<string>, ws: seq<Window>, i: nat)
    requires i < |ws|
    ensures MergedWith(ops, ws[..i + 1]) == Merge(MergedWith(ops, ws[..i]), ws[i])
  {
    assert ws[..i + 1][..i] == ws[..i];
  }

  lemma {:induction false} MergedWithEnds(ops: seq<string>, ws: seq<Window>)
    ensures MergedWith(ops, ws[..0]) == Empty(ops) && ws[..|ws|] == ws
  {
  }

  lemma {:induction false} BranchConditions(ops: seq<string>, sr: Series, w: Window, now: real)
    ensures Quiet(w) <==> SumOver(w, w.Keys, false) == 0
    ensures Folds(sr, now) <==> now - sr.lastBoundary < MIN_INTERVAL && |sr.intervals| > 0
    ensures forall op :: op in ops ==> op in SetOf(ops)
  {
  }

  method NewArray(xs: seq<IntervalOp>) returns (a: array<IntervalOp>)
    ensures fresh(a) && a[..] == xs
  {
    a := new IntervalOp[|xs|](i requires 0 <= i < |xs| => xs[i]);
  }

  class StatsCollector {
    const ops: seq<string>
    const start: real
    const total: StatsTable
    var workers: seq<StatsTable>
    var intervals: seq<IntervalRef>
    var lastBoundary: real

    ghost var cells: set<OpStats>
    ghost var maps: set<LatencyMap>

    ghost predicate Owns(t: StatsTable)
      reads this, t, cells, maps
    {
      t.owned <= cells && t.maps <= maps && t.Valid() && t.cells.Keys == SetOf(ops)
    }

    /** Every table covers the declared ops, and no two tables share a cell or a latency map. */
    ghost predicate Valid()
      reads this, total, workers, cells, maps
    {
      && Owns(total)
      && (forall i :: 0 <= i < |workers| ==> Owns(workers[i]) && Apart(workers[i], total))
      && (forall i, j :: 0 <= i < j < |workers| ==> Apart(workers[i], workers[j]))
    }

    ghost function SeriesNow(): Series
      reads this, Entries(intervals)
    {
      Series(start, lastBoundary, DerefAll(intervals))
    }

    lemma LastInterval()
      requires intervals != []
      ensures var ivs := SeriesNow().intervals;
        |ivs| == |intervals| && ivs[|ivs| - 1] == Deref(intervals[|intervals| - 1])
    {
      DerefInit(intervals);
    }

    lemma SeriesShape()
      ensures SeriesNow().start == start && SeriesNow().lastBoundary == lastBoundary
      ensures |SeriesNow().intervals| == |intervals|
    {
      DerefLength(intervals);
    }

    constructor (ops: seq<string>, now: real)
      ensures Valid() && Hold([]) && this.ops == ops && workers == [] && SeriesNow() == Series(now, now, [])
      ensures total.Abs() == Empty(ops) && fresh(total) && fresh(cells) && fresh(maps)
    {
      hide StatsTable.Valid;
      hide StatsTable.Abs;
      hide Empty;
      var t := new StatsTable(ops);
      this.ops := ops;
      start, lastBoundary := now, now;
      total := t;
      workers, intervals := [], [];
      cells, maps := t.owned, {};
    }

    /** What the workers' windows stand for. */
    ghost predicate Hold(ws: seq<Window>)
      reads this, workers, set i, c | 0 <= i < |workers| && c in workers[i].owned :: c
    {
      |ws| == |workers| && forall i :: 0 <= i < |ws| ==> workers[i].Closed() && workers[i].Abs() == ws[i]
    }

    /** Registers a worker: an empty window of its own. */
    method NewWorkerStats(ghost ws: seq<Window>) returns (w: StatsTable)
      requires Valid() && Hold(ws)
      modifies this`workers, this`cells
      ensures Valid() && workers == old(workers) + [w] && fresh(w) && fresh(w.owned) && cells == old(cells) + w.owned
      ensures Hold(ws + [Empty(ops)]) && total.Abs() == old(total.Abs())
    {
      hide StatsTable.Valid;
      hide StatsTable.Abs;
      hide Empty;
      w := new StatsTable(ops);
      TableKept(total);
      forall i | 0 <= i < |workers| ensures workers[i].Valid() && workers[i].Abs() == ws[i] {
        TableKept(workers[i]);
      }
      cells := cells + w.owned;
      workers := workers + [w];
    }

    /** Of the collector's objects only a worker's window, its cells and its maps were written to. */
    twostate lemma OnlyWritten(mine: StatsTable)
      requires old(Valid()) && mine in workers && unchanged(`workers) && unchanged(`cells) && unchanged(`maps)
      requires unchanged(total) && forall w :: w in workers && w != mine ==> unchanged(w)
      requires unchanged(cells - mine.owned) && unchanged(maps - old(mine.maps))
      ensures total.Valid() && total.Abs() == old(total.Abs())
      ensures forall w :: w in workers && w != mine ==> w.Valid() && w.Abs() == old(w.Abs())
    {
      hide StatsTable.Valid;
      hide StatsTable.Abs;
      var i :| 0 <= i < |workers| && workers[i] == mine;
      TableKept(total);
      forall w | w in workers && w != mine ensures w.Valid() && w.Abs() == old(w.Abs()) {
        var j :| 0 <= j < |workers| && workers[j] == w;
        assert old(Apart(workers[if i < j then i else j], workers[if i < j then j else i]));
        TableKept(w);
      }
    }

    /** A worker's Record leaves every other table as it is. */
    method RecordOwn(i: nat, op: string, o: Outcome, ghost ws: seq<Window>)
      requires Valid() && Hold(ws) && i < |workers| && op in ops && op in ws[i]
      modifies workers[i], workers[i].owned, workers[i].maps
      ensures workers[i].Valid() && fresh(workers[i].maps - old(workers[i].maps))
      ensures workers[i].Abs() == Observe(ws[i], op, o)
      ensures total.Valid() && total.Abs() == old(total.Abs()) && unchanged(total)
      ensures forall j :: 0 <= j < |workers| && j != i ==>
        workers[j].Valid() && workers[j].Abs() == ws[j] && unchanged(workers[j])
    {
      hide StatsTable.Valid;
      hide StatsTable.Abs;
      hide Observe;
      assert op in SetOf(ops);
      var mine := workers[i];
      assert forall j :: 0 <= j < |workers| && j != i ==> workers[j] != mine;
      mine.Record(op, o);
      OnlyWritten(mine);
    }

    /** A worker's Record, seen from the collector: its own window takes it in, nothing else changes. */
    method RecordBy(i: nat, op: string, o: Outcome, ghost ws: seq<Window>)
      requires Valid() && Hold(ws) && i < |workers| && op in ops && op in ws[i]
      modifies this`maps, workers[i], workers[i].owned, workers[i].maps
      ensures Valid() && Hold(ws[i := Observe(ws[i], op, o)]) && total.Abs() == old(total.Abs())
      ensures fresh(maps - old(maps))
    {
      hide StatsTable.Valid;
      hide StatsTable.Abs;
      hide Observe;
      RecordOwn(i, op, o, ws);
      maps := maps + workers[i].maps;
    }

    /** Lifts one worker's window into the merge. */
    method LiftWorker(i: nat, merged: StatsTable, ghost ws: seq<Window>)
      requires Valid() && Hold(ws) && i < |workers|
      requires merged.Valid() && merged.owned !! cells && merged.maps !! maps && merged != total && merged !in workers
      modifies workers[i], workers[i].owned, merged, merged.owned, merged.maps
      ensures Valid() && Hold(ws[i := Empty(ops)]) && total.Abs() == old(total.Abs())
      ensures merged.Valid() && merged.maps !! maps && fresh(merged.maps - old(merged.maps))
      ensures merged.Abs() == Merge(old(merged.Abs()), ws[i])
    {
      hide StatsTable.Valid;
      hide StatsTable.Abs;
      hide Merge;
      hide Zeros;
      var mine := workers[i];
      assert forall j :: 0 <= j < |workers| && j != i ==> workers[j] != mine;
      Tables.Lift(mine, merged, ws[i]);
      OnlyWritten(mine);
    }

    /** Lifts every worker's window, one worker after the other. */
    method LiftAll(merged: StatsTable, ghost ws: seq<Window>)
      requires Valid() && Hold(ws)
      requires merged.Valid() && merged.owned !! cells && merged.maps !! maps && merged != total && merged !in workers
      requires merged.Abs() == Empty(ops)
      modifies workers, cells, merged, merged.owned, merged.maps
      ensures Valid() && Hold(Cleared(ops, |ws|)) && total.Abs() == old(total.Abs()) && unchanged(total.owned)
      ensures merged.Valid() && merged.maps !! maps && fresh(merged.maps - old(merged.maps))
      ensures merged.Abs() == MergedWith(ops, ws)
    {
      hide StatsTable.Valid;
      hide StatsTable.Abs;
      hide Merge;
      hide Empty;
      hide MergedWith;
      hide PartlyCleared;
      ghost var now := ws;
      PartlyClearedEnds(ops, ws);
      MergedWithEnds(ops, ws);
      for i := 0 to |workers|
        invariant Valid() && Hold(now) && total.Abs() == old(total.Abs()) && unchanged(total.owned)
        invariant now == PartlyCleared(ops, ws, i)
        invariant merged.Valid() && merged.maps !! maps && fresh(merged.maps - old(merged.maps))
        invariant merged.Abs() == MergedWith(ops, ws[..i])
      {
        PartlyClearedStep(ops, ws, i);
        MergedWithStep(ops, ws, i);
        LiftWorker(i, merged, now);
        now := now[i := Empty(ops)];
      }
    }

    /** Nothing the collector owns was written to. */
    twostate lemma NothingTouched(ws: seq<Window>)
      requires old(Valid()) && old(Hold(ws))
      requires unchanged(`workers) && unchanged(`cells) && unchanged(`maps)
      requires unchanged(total) && unchanged(workers) && unchanged(cells) && unchanged(maps)
      ensures Valid() && Hold(ws) && total.Abs() == old(total.Abs())
    {
      hide StatsTable.Valid;
      hide StatsTable.Abs;
      TableKept(total);
      forall i | 0 <= i < |workers| ensures workers[i].Valid() && workers[i].Abs() == ws[i] {
        TableKept(workers[i]);
      }
    }

    /** A total that grew by maps of its own shares nothing with the workers. */
    twostate lemma TotalGrew(ws: seq<Window>)
      requires old(Valid()) && old(Hold(ws)) && total.Valid() && fresh(total.maps - old(total.maps))
      requires unchanged(`workers) && unchanged(`cells) && maps == old(maps) + total.maps
      requires forall i :: 0 <= i < |workers| ==> Untouched(workers[i])
      ensures Valid() && Hold(ws)
    {
      hide StatsTable.Valid;
      hide StatsTable.Abs;
      forall i | 0 <= i < |workers| ensures workers[i].Valid() && workers[i].Abs() == ws[i] {
        TableKept(workers[i]);
      }
    }

    /** Adds the merge into the run total. */
    method FoldTotal(merged: StatsTable, ghost m: Window, ghost ws: seq<Window>)
      requires Valid() && Hold(ws) && merged.Valid() && merged.Abs() == m
      requires merged.owned !! cells && merged.maps !! maps && merged != total && merged !in workers
      modifies this`maps, total, total.owned, total.maps
      ensures Valid() && Hold(ws) && merged.Valid() && merged.Abs() == m && merged.maps !! maps
      ensures fresh(maps - old(maps)) && total.MapsStay()
      ensures total.Abs() == Merge(old(total.Abs()), m)
    {
      hide StatsTable.Valid;
      hide StatsTable.Abs;
      hide Stands;
      hide Merge;
      hide StatsTable.MapsStay;
      merged.AbsOver();
      merged.ValuesStand();
      total.Fold(merged.Values(), m);
      maps := maps + total.maps;
      TableKept(merged);
      TotalGrew(ws);
    }

    method ReplaceTail(next: IntervalRef, now: real)
      requires intervals != []
      modifies this`intervals, this`lastBoundary
      ensures intervals == old(intervals)[..|old(intervals)| - 1] + [next]
      ensures SeriesNow() == ReplaceLast(old(SeriesNow()), old(Deref(next)), now)
    {
      var k := |intervals| - 1;
      DerefInit(intervals);
      intervals := intervals[..k] + [next];
      lastBoundary := now;
      DerefKept(old(intervals)[..k]);
      DerefSnoc(old(intervals)[..k], next);
    }

    method Append(own: IntervalRef, now: real)
      modifies this`intervals, this`lastBoundary
      ensures intervals == old(intervals) + [own]
      ensures SeriesNow() == Extend(old(SeriesNow()), old(Deref(own)), now)
    {
      intervals := intervals + [own];
      lastBoundary := now;
      DerefKept(old(intervals));
      DerefSnoc(old(intervals), own);
    }

    /** The predecessor with a sliver folded in.  The rebuilt entries are a new array: the old one, which a
        returned series may share, is not written. */
    method Sliver(prev: IntervalRef, merged: StatsTable, n: nat, errs: nat, endSecs: real, ghost w: Window)
      returns (next: IntervalRef)
      requires merged.Valid() && merged.Abs() == w && forall op :: op in ops ==> op in merged.cells
      requires n == SumOver(w, w.Keys, false) && errs == SumOver(w, w.Keys, true)
      ensures fresh(next.operations) && Deref(next) == FoldInto(old(Deref(prev)), ops, w, endSecs)
    {
      hide StatsTable.Valid;
      hide StatsTable.Abs;
      hide SumOver;
      hide Folded;
      var prevSpan := endSecs - prev.startS;
      var rebuilt := Rebuild(ops, prev.operations[..], merged, prevSpan, w);
      var a := NewArray(rebuilt);
      next := IntervalRef(prev.startS, endSecs, prev.ops + n, prev.errors + errs,
                          if prevSpan > 0.0 then (prev.ops + n) as real / prevSpan else prev.rate, a);
    }

    /** The window as an interval of its own. */
    method Own(merged: StatsTable, n: nat, errs: nat, endSecs: real, ghost w: Window) returns (own: IntervalRef)
      requires merged.Valid() && merged.Abs() == w
      requires n == SumOver(w, w.Keys, false) && errs == SumOver(w, w.Keys, true)
      ensures fresh(own.operations) && Deref(own) == OwnInterval(old(SeriesNow()), ops, w, endSecs)
    {
      hide StatsTable.Valid;
      hide StatsTable.Abs;
      hide SumOver;
      hide Appended;
      hide DerefAll;
      var startSecs := lastBoundary - start;
      var span := endSecs - startSecs;
      var operations := OwnOperations(ops, merged, span, w);
      var a := NewArray(operations);
      own := IntervalRef(startSecs, endSecs, n, errs, Rate(n, span), a);
    }

    method FoldSliver(now: real, merged: StatsTable, n: nat, errs: nat, ghost w: Window)
      requires merged.Valid() && merged.Abs() == w && (forall op :: op in ops ==> op in merged.cells)
      requires n == SumOver(w, w.Keys, false) && errs == SumOver(w, w.Keys, true)
      requires intervals != []
      modifies this`intervals, this`lastBoundary
      ensures intervals != [] && fresh(intervals[|intervals| - 1].operations)
      ensures old(SeriesNow()).intervals != []
      ensures var sr := old(SeriesNow());
        SeriesNow() == ReplaceLast(sr, FoldInto(sr.intervals[|sr.intervals| - 1], ops, w, now - sr.start), now)
    {
      hide FoldInto;
      hide SumOver;
      hide StatsTable.Valid;
      hide StatsTable.Abs;
      hide DerefAll;
      hide Deref;
      hide ReplaceLast;
      LastInterval();
      var next := Sliver(intervals[|intervals| - 1], merged, n, errs, now - start, w);
      DerefKept(intervals);
      ReplaceTail(next, now);
    }

    method AppendOwn(now: real, merged: StatsTable, n: nat, errs: nat, ghost w: Window)
      requires merged.Valid() && merged.Abs() == w
      requires n == SumOver(w, w.Keys, false) && errs == SumOver(w, w.Keys, true)
      modifies this`intervals, this`lastBoundary
      ensures intervals != [] && fresh(intervals[|intervals| - 1].operations)
      ensures var sr := old(SeriesNow());
        SeriesNow() == Extend(sr, OwnInterval(sr, ops, w, now - sr.start), now)
    {
      hide OwnInterval;
      hide SumOver;
      hide StatsTable.Valid;
      var own := Own(merged, n, errs, now - start, w);
      DerefKept(intervals);
      Append(own, now);
    }

    /** A window in which something happened. */
    method RecordBusy(now: real, merged: StatsTable, n: nat, errs: nat, ghost w: Window)
      requires merged.Valid() && merged.Abs() == w && merged.cells.Keys == w.Keys == SetOf(ops)
      requires n == SumOver(w, w.Keys, false) && errs == SumOver(w, w.Keys, true) && n != 0
      modifies this`intervals, this`lastBoundary
      ensures SeriesNow() == Intervals.Record(ops, old(SeriesNow()), w, now)
    {
      hide *;
      SeriesShape();
      ghost var sr := SeriesNow();
      IntervalFacts.RecordCases(ops, sr, w, now);
      BranchConditions(ops, sr, w, now);
      if now - lastBoundary < MIN_INTERVAL && |intervals| > 0 {
        FoldSliver(now, merged, n, errs, w);
      } else {
        AppendOwn(now, merged, n, errs, w);
      }
    }

    /** Adds this window to the series: nothing if it is empty, into the predecessor if it is a sliver, as an
        interval of its own otherwise.  The caller holds the lock. */
    method RecordInterval(now: real, merged: StatsTable, ghost w: Window)
      requires merged.Valid() && merged.Abs() == w && merged.cells.Keys == SetOf(ops)
      modifies this`intervals, this`lastBoundary
      ensures SeriesNow() == Intervals.Record(ops, old(SeriesNow()), w, now)
    {
      hide StatsTable.Valid;
      hide StatsTable.Abs;
      hide SumOver;
      hide Intervals.Record;
      merged.AbsOver();
      IntervalFacts.RecordCases(ops, SeriesNow(), w, now);
      var n, errs := SumStats(merged, w);
      DerefKept(intervals);
      if n != 0 {
        RecordBusy(now, merged, n, errs, w);
      }
    }

    /** Takes every worker's window and adds it to the run total. */
    method Gather(ghost ws: seq<Window>) returns (merged: StatsTable)
      requires Valid() && Hold(ws)
      modifies this`maps, workers, cells, total, maps
      ensures Valid() && Hold(Cleared(ops, |ws|)) && fresh(maps - old(maps))
      ensures fresh(merged) && merged.Valid() && merged.owned !! cells && merged.maps !! maps
      ensures merged.cells.Keys == SetOf(ops) && merged.Abs() == MergedWith(ops, ws)
      ensures total.Abs() == Merge(old(total.Abs()), MergedWith(ops, ws)) && total.MapsStay()
    {
      hide StatsTable.Valid;
      hide StatsTable.Abs;
      hide Merge;
      hide MergedWith;
      hide Empty;
      hide Cleared;
      hide SetOf;
      assert total.owned <= cells && total.maps <= maps && total !in workers && total.Closed();
      hide Valid;
      hide Hold;
      merged := new StatsTable(ops);
      NothingTouched(ws);
      LiftAll(merged, ws);
      FoldTotal(merged, MergedWith(ops, ws), Cleared(ops, |ws|));
    }

    /** Takes every worker's window, adds it to the run total and to the series, and returns it merged.  Nothing
        the caller gets is shared with the workers or the run total. */
    method Drain(now: real, ghost ws: seq<Window>) returns (merged: StatsTable)
      requires Valid() && Hold(ws)
      modifies this`maps, this`intervals, this`lastBoundary, workers, cells, total, maps
      ensures Valid() && Hold(Cleared(ops, |ws|)) && fresh(maps - old(maps))
      ensures fresh(merged) && merged.Valid() && merged.owned !! cells && merged.maps !! maps
      ensures merged.Abs() == MergedWith(ops, ws)
      ensures total.Abs() == Merge(old(total.Abs()), MergedWith(ops, ws)) && total.MapsStay()
      ensures SeriesNow() == Intervals.Record(ops, old(SeriesNow()), MergedWith(ops, ws), now)
      ensures DerefAll(old(intervals)) == old(DerefAll(intervals))
    {
      hide StatsTable.Valid;
      hide StatsTable.Abs;
      hide Merge;
      hide MergedWith;
      hide Intervals.Record;
      hide Cleared;
      hide SetOf;
      hide DerefAll;
      hide Deref;
      assert total.Closed();
      hide Valid;
      hide Hold;
      merged := Gather(ws);
      DerefKept(intervals);
      label Gathered:
      RecordInterval(now, merged, MergedWith(ops, ws));
      NothingTouched@Gathered(Cleared(ops, |ws|));
      TableKept@Gathered(merged);
      DerefKept(old(intervals));
    }

    /** The totals and the series of everything recorded so far, with the instants between which it was recorded.  The
        totals are struct copies, so their counts are the caller's own and their latency maps are the live ones; the
        series shares its entries with the live one, which replaces entries but never writes to them. */
    method Finalize(now: real, later: real, ghost ws: seq<Window>)
      returns (totals: map<string, OpValue>, series: seq<IntervalRef>, started: real, ended: real)
      requires Valid() && Hold(ws)
      modifies this`maps, this`intervals, this`lastBoundary, workers, cells, total, maps
      ensures Valid() && Hold(Cleared(ops, |ws|)) && fresh(maps - old(maps))
      ensures total.Abs() == Merge(old(total.Abs()), MergedWith(ops, ws))
      ensures totals == total.Values() && forall op :: op in total.cells ==> Stands(totals[op], total.Abs()[op])
      ensures series == intervals && started == SeriesNow().start && ended == later
      ensures SeriesNow() == Intervals.Record(ops, old(SeriesNow()), MergedWith(ops, ws), now)
    {
      hide StatsTable.Valid;
      hide StatsTable.Abs;
      hide Merge;
      hide MergedWith;
      hide Intervals.Record;
      hide Empty;
      hide DerefAll;
      hide Hold;
      hide Stands;
      var merged := Drain(now, ws);
      label Drained:
      totals := total.CopyOut();
      series, started, ended := intervals, start, later;
      DerefKept@Drained(intervals);
      NothingTouched@Drained(Cleared(ops, |ws|));
      total.ValuesStand();
    }
  }
}
