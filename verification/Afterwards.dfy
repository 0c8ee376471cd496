/** What becomes of a result that was returned, while its latency maps are the live ones and its series shares the
    live entries. */

module Afterwards {
  import opened Lists
  import opened Tally
  import opened Intervals
  import opened Pipeline
  import opened Store
  import opened Tables
  import opened Collector
  import opened Refinement

  /** What may still happen to a collector: a drain at some time, or a worker recording an op. */
  datatype Action = Tick(now: real) | Work(worker: nat, op: string, outcome: Outcome)

  ghost predicate Possible(a: Action, c: StatsCollector)
    reads c
  {
    a.Work? ==> a.worker < |c.workers| && a.op in c.ops
  }

  lemma HeldOver(c: StatsCollector, ws: seq<Window>, i: nat)
    requires c.Valid() && c.Hold(ws) && i < |ws|
    ensures ws[i].Keys == SetOf(c.ops)
  {
    c.workers[i].AbsOver();
  }

  /** A worker's recording leaves the total's cells and the entries of every series alone. */
  method Work(c: StatsCollector, i: nat, op: string, o: Outcome, ghost ws: seq<Window>, ghost series: seq<IntervalRef>)
    requires c.Valid() && c.Hold(ws) && i < |c.workers| && op in c.ops && op in ws[i]
    modifies c, c.workers, c.cells, c.maps
    ensures c.Valid() && c.Hold(ws[i := Observe(ws[i], op, o)]) && fresh(c.maps - old(c.maps))
    ensures c.workers == old(c.workers) && c.cells == old(c.cells)
    ensures unchanged(c.total) && unchanged(c.total.owned) && DerefAll(series) == old(DerefAll(series))
  {
    hide StatsTable.Valid;
    hide StatsTable.Abs;
    hide DerefAll;
    hide Observe;
    assert Apart(c.workers[i], c.total);
    assert c.workers[i].owned <= c.cells && c.workers[i].maps <= c.maps;
    hide StatsCollector.Valid;
    hide StatsCollector.Hold;
    c.RecordBy(i, op, o, ws);
    DerefKept(series);
  }

  /** One more action, seen by results returned before it. */
  method Act(c: StatsCollector, a: Action, ghost ws: seq<Window>, ghost series: seq<IntervalRef>)
    returns (ghost left: seq<Window>)
    requires c.Valid() && c.Hold(ws) && Possible(a, c)
    modifies c, c.workers, c.cells, c.total, c.maps
    ensures c.Valid() && c.Hold(left) && fresh(c.maps - old(c.maps))
    ensures c.workers == old(c.workers) && c.cells == old(c.cells)
    ensures c.total.MapsStay() && DerefAll(series) == old(DerefAll(series))
  {
    assert c.total.Closed();
    match a {
      case Tick(now) =>
        hide *;
        var _ := c.Drain(now, ws);
        left := Cleared(c.ops, |ws|);
        DerefKept(series);
      case Work(i, op, o) =>
        HeldOver(c, ws, i);
        assert op in SetOf(c.ops);
        hide StatsTable.Valid;
        hide StatsTable.Abs;
        hide DerefAll;
        hide Observe;
        hide StatsCollector.Valid;
        Work(c, i, op, o, ws, series);
        left := ws[i := Observe(ws[i], op, o)];
    }
  }

  /** Whatever happens to the collector after a report, drains and recordings in any number and order: a series handed
      out before stays as it was, and every total handed out keeps its counts and reads the live latencies. */
  method GoOn(c: StatsCollector, actions: seq<Action>, ghost ws: seq<Window>, ghost totals: map<string, OpValue>,
              ghost series: seq<IntervalRef>)
    requires c.Valid() && c.Hold(ws) && totals == c.total.Values()
    requires forall a :: a in actions ==> Possible(a, c)
    modifies c, c.workers, c.cells, c.total, c.maps
    ensures c.Valid() && DerefAll(series) == old(DerefAll(series))
    ensures forall op :: op in totals ==> var v, was := totals[op], old(c.total.Abs()[op]);
      && v.count == was.count && v.errors == was.errors
      && (StatOf(v) == was <==> v.latencies == null || c.total.Abs()[op].obs == was.obs)
  {
    ghost var left := ws;
    assert c.total.Valid();
    hide StatsTable.Valid;
    hide StatsTable.Abs;
    hide DerefAll;
    hide StatsCollector.Hold;
    hide StatOf;
    for k := 0 to |actions|
      invariant c.Valid() && c.Hold(left) && fresh(c.maps - old(c.maps))
      invariant c.workers == old(c.workers) && c.cells == old(c.cells)
      invariant c.total.MapsStay() && DerefAll(series) == old(DerefAll(series))
    {
      assert actions[k] in actions;
      left := Act(c, actions[k], left, series);
    }
    assert c.total.Valid();
    AliasesHold(c.total);
  }

  twostate lemma AliasesHold(t: StatsTable)
    requires old(t.Valid()) && t.Valid() && t.MapsStay()
    ensures forall op :: op in t.cells ==> var v, was := old(t.Values())[op], old(t.Abs()[op]);
      && v.count == was.count && v.errors == was.errors
      && (StatOf(v) == was <==> v.latencies == null || t.Abs()[op].obs == was.obs)
  {
    forall op | op in t.cells
      ensures var v, was := old(t.Values())[op], old(t.Abs()[op]);
        && v.count == was.count && v.errors == was.errors
        && (StatOf(v) == was <==> v.latencies == null || t.Abs()[op].obs == was.obs)
    {
      t.CopyAliases(op);
    }
  }

  lemma TotalOver(c: StatsCollector)
    requires c.Valid()
    ensures c.total.Closed() && c.total.Abs().Keys == SetOf(c.ops)
  {
    c.total.AbsOver();
  }

  lemma {:induction false} NothingNew(
      ops: seq<string>, n: nat, was: Window, sr: Series, now: real, total: Window, series: Series)
    requires was.Keys == SetOf(ops)
    requires total == Merge(was, MergedWith(ops, Cleared(ops, n)))
    requires series == Intervals.Record(ops, sr, MergedWith(ops, Cleared(ops, n)), now)
    ensures total == was && series == sr
  {
    SecondDrainAddsNothing(ops, n, was, sr, now);
  }

  /** A drain of windows in which nothing was recorded leaves total and series as they are. */
  method IdleDrain(c: StatsCollector, now: real, ghost n: nat)
    requires c.Valid() && c.Hold(Cleared(c.ops, n))
    modifies c, c.workers, c.cells, c.total, c.maps
    ensures c.Valid() && c.Hold(Cleared(c.ops, n)) && fresh(c.maps - old(c.maps))
    ensures c.workers == old(c.workers) && c.cells == old(c.cells)
    ensures c.total.MapsStay() && c.total.Abs() == old(c.total.Abs())
    ensures c.SeriesNow() == old(c.SeriesNow())
  {
    hide *;
    TotalOver(c);
    ghost var was, sr := c.total.Abs(), c.SeriesNow();
    ghost var ws := Cleared(c.ops, n);
    assert |ws| == n;
    var _ := c.Drain(now, ws);
    NothingNew(c.ops, n, was, sr, now, c.total.Abs(), c.SeriesNow());
  }

  method IdleDrains(c: StatsCollector, times: seq<real>, ghost n: nat, ghost series: seq<IntervalRef>)
    requires c.Valid() && c.Hold(Cleared(c.ops, n))
    modifies c, c.workers, c.cells, c.total, c.maps
    ensures c.Valid() && c.total.MapsStay() && c.total.Abs() == old(c.total.Abs())
    ensures c.SeriesNow() == old(c.SeriesNow()) && DerefAll(series) == old(DerefAll(series))
  {
    assert c.total.Closed();
    hide StatsTable.Valid;
    hide StatsTable.Abs;
    hide StatsCollector.Hold;
    hide DerefAll;
    for k := 0 to |times|
      invariant c.Valid() && c.Hold(Cleared(c.ops, n)) && fresh(c.maps - old(c.maps))
      invariant c.workers == old(c.workers) && c.cells == old(c.cells)
      invariant c.total.MapsStay() && c.total.Abs() == old(c.total.Abs())
      invariant c.SeriesNow() == old(c.SeriesNow())
    {
      IdleDrain(c, times[k], n);
    }
    DerefKept(series);
  }

  /** Finalize, and then only drains, workers having stopped: totals and series stay what was reported, although the
      totals' latency maps are the live ones. */
  method FinalizeThenDrain(c: StatsCollector, now: real, later: real, times: seq<real>, ghost ws: seq<Window>)
    returns (totals: map<string, OpValue>, series: seq<IntervalRef>)
    requires c.Valid() && c.Hold(ws)
    modifies c, c.workers, c.cells, c.total, c.maps
    ensures c.Valid() && c.total.Abs() == Merge(old(c.total.Abs()), MergedWith(c.ops, ws))
    ensures totals.Keys == c.total.Abs().Keys && forall op :: op in totals ==> StatOf(totals[op]) == c.total.Abs()[op]
    ensures c.SeriesNow() == Intervals.Record(c.ops, old(c.SeriesNow()), MergedWith(c.ops, ws), now)
    ensures DerefAll(series) == c.SeriesNow().intervals
  {
    hide StatsTable.Valid;
    hide StatsTable.Abs;
    hide StatsCollector.Hold;
    hide DerefAll;
    hide Merge;
    hide MergedWith;
    hide Intervals.Record;
    var started, ended;
    totals, series, started, ended := c.Finalize(now, later, ws);
    c.total.AbsOver();
    label Reported:
    IdleDrains(c, times, |ws|, series);
    AliasesHold@Reported(c.total);
  }
}
