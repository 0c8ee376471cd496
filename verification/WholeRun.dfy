/** What a whole run reports, in terms of nothing but what was recorded. */

module WholeRun {
  import opened Lists
  import opened Options
  import opened Frequency
  import opened Quantiles
  import opened Latency
  import opened Tally
  import opened Intervals
  import opened IntervalFacts
  import opened Pipeline
  import opened PipelineFacts
  import opened MainRun
  import opened Report

  // ----------------------------------------------- the history, read directly

  /** The latencies of an op's successes, in the order they were recorded. */
  ghost function Latencies(h: seq<Event>, op: string): seq<int> {
    if h == [] then [] else
      var e := h[|h| - 1];
      var init := Latencies(h[..|h| - 1], op);
      if e.op == op && e.outcome.Success? then init + [if e.outcome.us < 0 then 0 else e.outcome.us] else init
  }

  /** The same as they were measured, before a negative one is pinned to zero. */
  ghost function Measured(h: seq<Event>, op: string): seq<int> {
    if h == [] then [] else
      var e := h[|h| - 1];
      var init := Measured(h[..|h| - 1], op);
      if e.op == op && e.outcome.Success? then init + [e.outcome.us] else init
  }

  /** Unless a measured duration is negative, the reported latencies are the measured ones. */
  lemma {:induction false} LatenciesMeasured(h: seq<Event>, op: string)
    requires forall us :: us in Measured(h, op) ==> us >= 0
    ensures Latencies(h, op) == Measured(h, op)
    ensures TallyOf(h, op).obs == multiset(Measured(h, op))
  {
    if h == [] {
    } else {
      var init := h[..|h| - 1];
      assert forall us :: us in Measured(init, op) ==> us in Measured(h, op);
      assert h[|h| - 1].op == op && h[|h| - 1].outcome.Success? ==> h[|h| - 1].outcome.us in Measured(h, op);
      LatenciesMeasured(init, op);
      TallyReads(h, op);
    }
  }

  /** How often an op was executed, or failed. */
  ghost function Times(h: seq<Event>, op: string, err: bool): nat {
    if h == [] then 0 else
      var e := h[|h| - 1];
      Times(h[..|h| - 1], op, err) + if e.op == op && (err ==> e.outcome.Failed?) then 1 else 0
  }

  ghost function Recorded(h: seq<Event>, err: bool): nat {
    if h == [] then 0 else
      Recorded(h[..|h| - 1], err) + if err ==> h[|h| - 1].outcome.Failed? then 1 else 0
  }

  lemma {:induction false} RecordedAll(h: seq<Event>)
    ensures Recorded(h, false) == |h|
  {
    if h == [] {
    } else {
      RecordedAll(h[..|h| - 1]);
    }
  }

  lemma OneMore(s: Stat, init: seq<int>, us: int)
    requires s.obs == multiset(init)
    ensures Add(s, Stat(1, 0, multiset{us})).obs == multiset(init + [us])
  {
  }

  /** The accumulator of an op is what counting, counting failures and collecting latencies would give. */
  lemma {:induction false} TallyReads(h: seq<Event>, op: string)
    ensures TallyOf(h, op) == Stat(Times(h, op, false), Times(h, op, true), multiset(Latencies(h, op)))
  {
    if h == [] {
    } else {
      var e := h[|h| - 1];
      TallyReads(h[..|h| - 1], op);
      if e.op == op {
        match e.outcome
        case Success(us) => OneMore(TallyOf(h[..|h| - 1], op), Latencies(h[..|h| - 1], op), Pin(us));
        case Failed =>
      }
    }
  }

  // ------------------------------------------------- any number of consumers

  /** In every interleaving and at every moment: what was recorded is in the run total, with a drain in progress or
      in a window, each recording exactly once, and nothing is with a drain while the lock is free. */
  lemma {:induction false} EveryRecordLandsOnce(
      ops: seq<string>, consumers: nat, at: real, steps: seq<Step>, op: string)
    requires NoDup(ops) && op in ops && After(Start(ops, consumers, at), steps).Some?
    ensures var s := After(Start(ops, consumers, at), steps).value;
      && TallyOf(s.history, op) == Add(Gathered(s.total, s.lock, op), SumWindows(s.windows, op))
      && (s.lock.Free? ==> TallyOf(s.history, op) == Add(At(s.total, op), SumWindows(s.windows, op)))
    ensures var s := After(Start(ops, consumers, at), steps).value;
      s.lock.Free? ==> var x, y := At(s.total, op), SumWindows(s.windows, op);
        && x.count + y.count == Times(s.history, op, false)
        && x.errors + y.errors == Times(s.history, op, true)
        && x.obs + y.obs == multiset(Latencies(s.history, op))
  {
    InvAlways(ops, consumers, at, steps);
    assert OpSound(After(Start(ops, consumers, at), steps).value, op);
    TallyReads(After(Start(ops, consumers, at), steps).value.history, op);
  }

  /** A report holds what was recorded before `mark`, nothing that was not recorded, and a series that adds up. */
  ghost predicate Faithful(h: seq<Event>, mark: nat, totals: Window, series: Series, op: string) {
    && mark <= |h|
    && Leq(TallyOf(h[..mark], op), At(totals, op))
    && Leq(At(totals, op), TallyOf(h, op))
    && forall err :: SeriesShare(series.intervals, op, err) == Part(At(totals, op), err)
  }

  lemma ReportFaithful(s: State, t: nat, op: string)
    requires OpSound(s, op) && t < |s.threads| && s.threads[t].Returned?
    ensures Faithful(s.history, s.threads[t].mark, s.threads[t].totals, s.threads[t].series, op)
  {
    assert ThreadSound(s, s.threads[t], op);
  }

  /** In every interleaving, whichever drain won: the totals a finished call of Finalize returned hold everything
      recorded before it was called and nothing that was not recorded, and the series it returned sums to them. */
  lemma {:induction false} FinalizeReports(
      ops: seq<string>, consumers: nat, at: real, steps: seq<Step>, op: string, t: nat)
    requires NoDup(ops) && op in ops && After(Start(ops, consumers, at), steps).Some?
    requires var s := After(Start(ops, consumers, at), steps).value; t < |s.threads| && s.threads[t].Returned?
    ensures var s := After(Start(ops, consumers, at), steps).value; var report := s.threads[t];
      Faithful(s.history, report.mark, report.totals, report.series, op)
    ensures var s := After(Start(ops, consumers, at), steps).value;
      var x, h, mark := At(s.threads[t].totals, op), s.history, s.threads[t].mark;
      && mark <= |h|
      && Times(h[..mark], op, false) <= x.count <= Times(h, op, false)
      && Times(h[..mark], op, true) <= x.errors <= Times(h, op, true)
      && multiset(Latencies(h[..mark], op)) <= x.obs <= multiset(Latencies(h, op))
      && SeriesShare(s.threads[t].series.intervals, op, false) == x.count
      && SeriesShare(s.threads[t].series.intervals, op, true) == x.errors
  {
    InvAlways(ops, consumers, at, steps);
    hide OpSound;
    hide Faithful;
    hide Shaped;
    hide AllSeriesSound;
    hide CopiesOver;
    var s := After(Start(ops, consumers, at), steps).value;
    ReportFaithful(s, t, op);
    FaithfulPlainly(s.history, s.threads[t].mark, s.threads[t].totals, s.threads[t].series, op);
  }

  lemma {:induction false} FaithfulPlainly(h: seq<Event>, mark: nat, totals: Window, series: Series, op: string)
    requires Faithful(h, mark, totals, series, op)
    ensures var x := At(totals, op);
      && mark <= |h|
      && Times(h[..mark], op, false) <= x.count <= Times(h, op, false)
      && Times(h[..mark], op, true) <= x.errors <= Times(h, op, true)
      && multiset(Latencies(h[..mark], op)) <= x.obs <= multiset(Latencies(h, op))
      && SeriesShare(series.intervals, op, false) == x.count
      && SeriesShare(series.intervals, op, true) == x.errors
  {
    TallyReads(h[..mark], op);
    TallyReads(h, op);
    hide TallyOf;
    hide Times;
    hide Latencies;
    hide SeriesShare;
  }

  /** In every interleaving the series accounts for every op and error of the run total but those a drain has
      folded and not yet recorded, its intervals are consistent, and they tile the run. */
  lemma {:induction false} SeriesAccounts(
      ops: seq<string>, consumers: nat, at: real, steps: seq<Step>, op: string, err: bool)
    requires NoDup(ops) && op in ops && After(Start(ops, consumers, at), steps).Some?
    ensures var s := After(Start(ops, consumers, at), steps).value;
      && SeriesShare(s.series.intervals, op, err) + Unwritten(s.lock, op, err) == Part(At(s.total, op), err)
      && AllConsistent(s.series, ops) && Tiled(s.series)
  {
    InvAlways(ops, consumers, at, steps);
    var s := After(Start(ops, consumers, at), steps).value;
    assert OpSound(s, op);
    assert Matched(s, op, err);
  }

  // ------------------------------------------------------ sums over all ops

  ghost function ListTally(h: seq<Event>, ops: seq<string>, err: bool): nat {
    if ops == [] then 0
    else ListTally(h, ops[..|ops| - 1], err) + Part(TallyOf(h, ops[|ops| - 1]), err)
  }

  lemma {:induction false} ListTallySnoc(h: seq<Event>, ops: seq<string>, err: bool)
    requires NoDup(ops) && h != []
    ensures var e := h[|h| - 1];
      ListTally(h, ops, err) ==
        ListTally(h[..|h| - 1], ops, err) + if e.op in ops then Part(Unit(e.outcome), err) else 0
  {
    if ops == [] {
    } else {
      var n := |ops| - 1;
      ListTallySnoc(h, ops[..n], err);
      assert ops == ops[..n] + [ops[n]];
      assert ops[n] !in ops[..n];
    }
  }

  lemma {:induction false} NothingTallied(ops: seq<string>, err: bool)
    ensures ListTally([], ops, err) == 0
  {
    if ops == [] {
    } else {
      NothingTallied(ops[..|ops| - 1], err);
    }
  }

  lemma {:induction false} ListTallyAll(h: seq<Event>, ops: seq<string>, err: bool)
    requires NoDup(ops) && forall e :: e in h ==> e.op in ops
    ensures ListTally(h, ops, err) == Recorded(h, err)
  {
    if h == [] {
      NothingTallied(ops, err);
    } else {
      ListTallyAll(h[..|h| - 1], ops, err);
      ListTallySnoc(h, ops, err);
      assert h[|h| - 1] in h;
    }
  }

  lemma {:induction false} ListSumIsTally(w: Window, h: seq<Event>, ops: seq<string>, err: bool)
    requires forall op :: op in ops ==> At(w, op) == TallyOf(h, op)
    ensures ListSum(w, ops, err) == ListTally(h, ops, err)
  {
    if ops == [] {
    } else {
      ListSumIsTally(w, h, ops[..|ops| - 1], err);
      assert ops[|ops| - 1] in ops;
    }
  }

  /** The intervals' own figures, summed over the series. */
  ghost function SeriesTotal(ivs: seq<Interval>, err: bool): nat {
    if ivs == [] then 0
    else SeriesTotal(ivs[..|ivs| - 1], err) + if err then ivs[|ivs| - 1].errors else ivs[|ivs| - 1].ops
  }

  ghost function ListShares(ivs: seq<Interval>, ops: seq<string>, err: bool): nat {
    if ops == [] then 0
    else ListShares(ivs, ops[..|ops| - 1], err) + SeriesShare(ivs, ops[|ops| - 1], err)
  }

  lemma {:induction false} ListSharesSnoc(ivs: seq<Interval>, ops: seq<string>, err: bool)
    requires ivs != []
    ensures ListShares(ivs, ops, err) ==
      ListShares(ivs[..|ivs| - 1], ops, err) + SumShares(ivs[|ivs| - 1].operations, ops, err)
  {
    if ops == [] {
    } else {
      ListSharesSnoc(ivs, ops[..|ops| - 1], err);
    }
  }

  lemma {:induction false} NothingShared(ops: seq<string>, err: bool)
    ensures ListShares([], ops, err) == 0
  {
    if ops == [] {
    } else {
      NothingShared(ops[..|ops| - 1], err);
    }
  }

  lemma {:induction false} SeriesTotalIsShares(ivs: seq<Interval>, ops: seq<string>, err: bool)
    requires NoDup(ops) && forall iv :: iv in ivs ==> Consistent(iv, ops)
    ensures SeriesTotal(ivs, err) == ListShares(ivs, ops, err)
  {
    if ivs == [] {
      NothingShared(ops, err);
    } else {
      var iv := ivs[|ivs| - 1];
      SeriesTotalIsShares(ivs[..|ivs| - 1], ops, err);
      ListSharesSnoc(ivs, ops, err);
      assert iv in ivs;
      TotalIsSumOfShares(iv.operations, ops, err);
    }
  }

  lemma {:induction false} SharesAreTally(ivs: seq<Interval>, h: seq<Event>, ops: seq<string>, err: bool)
    requires forall op :: op in ops ==> SeriesShare(ivs, op, err) == Part(TallyOf(h, op), err)
    ensures ListShares(ivs, ops, err) == ListTally(h, ops, err)
  {
    if ops == [] {
    } else {
      SharesAreTally(ivs, h, ops[..|ops| - 1], err);
      assert ops[|ops| - 1] in ops;
    }
  }

  // ------------------------------------------------------------ a finished run

  lemma RecordedStep(s: State, step: Step)
    requires Shaped(s) && Enabled(s, step) && forall e :: e in s.history ==> e.op in s.ops
    ensures forall e :: e in Next(s, step).history ==> e.op in s.ops
  {
    if step.Record? {
      assert s.workers[step.w].op in SetOf(s.ops);
    }
  }

  /** Only declared ops are ever recorded. */
  lemma {:induction false} RecordedOps(ops: seq<string>, at: real, moves: seq<Move>)
    requires NoDup(ops) && Finished(Begin(ops, at), moves).Some?
    ensures forall e :: e in Finished(Begin(ops, at), moves).value.s.history ==> e.op in ops
  {
    if moves == [] {
    } else {
      var init, m := moves[..|moves| - 1], moves[|moves| - 1];
      RecordedOps(ops, at, init);
      RunInv(ops, at, init);
      hide InOrder;
      hide AllSeriesSound;
      hide CopiesOver;
      hide Shaped;
      hide Enabled;
      hide Next;
      if m.Do? {
        RecordedStep(Finished(Begin(ops, at), init).value.s, m.step);
      }
    }
  }

  ghost predicate Complete(ops: seq<string>, at: real, moves: seq<Move>) {
    NoDup(ops) && Finished(Begin(ops, at), moves).Some? && Done(Finished(Begin(ops, at), moves).value)
  }

  ghost function HistoryOf(ops: seq<string>, at: real, moves: seq<Move>): seq<Event>
    requires Complete(ops, at, moves)
  {
    Finished(Begin(ops, at), moves).value.s.history
  }

  ghost function TotalsOf(ops: seq<string>, at: real, moves: seq<Move>): Window
    requires Complete(ops, at, moves)
  {
    Finished(Begin(ops, at), moves).value.s.threads[1].totals
  }

  ghost function SeriesOf(ops: seq<string>, at: real, moves: seq<Move>): Series
    requires Complete(ops, at, moves)
  {
    Finished(Begin(ops, at), moves).value.s.threads[1].series
  }

  /** The totals of a run are the accumulators of its history. */
  lemma TotalsAreHistory(ops: seq<string>, at: real, moves: seq<Move>)
    requires Complete(ops, at, moves)
    ensures Over(TotalsOf(ops, at, moves), ops)
    ensures forall op :: op in ops ==> At(TotalsOf(ops, at, moves), op) == TallyOf(HistoryOf(ops, at, moves), op)
  {
    RunInv(ops, at, moves);
    forall op | op in ops ensures At(TotalsOf(ops, at, moves), op) == TallyOf(HistoryOf(ops, at, moves), op) {
      RunReport(ops, at, moves, op);
    }
  }

  /** Once main has seen every worker return, the exported counters are those of the history: an op counts as ok and is
      observed exactly if it succeeded. */
  lemma {:induction false} CountersOfRun(ops: seq<string>, at: real, moves: seq<Move>, op: string)
    requires Complete(ops, at, moves) && op in ops
    ensures var h, c := HistoryOf(ops, at, moves), Finished(Begin(ops, at), moves).value.s.counters;
      && Count(c.ok, op) == |Latencies(h, op)| == Count(c.samples, op)
      && Count(c.err, op) == Times(h, op, true)
      && |Latencies(h, op)| + Times(h, op, true) == Times(h, op, false)
  {
    RunReport(ops, at, moves, op);
    TallyReads(HistoryOf(ops, at, moves), op);
    assert |multiset(Latencies(HistoryOf(ops, at, moves), op))| == |Latencies(HistoryOf(ops, at, moves), op)|;
  }

  /** The latency block computed directly on the latencies of the history. */
  ghost function DirectBlock(us: seq<int>): Option<LatencyStats> {
    if us == [] then None else Some(Latency.Summary(multiset(us)))
  }

  lemma {:induction false} BlockIsDirect(h: seq<Event>, op: string)
    ensures Block(TallyOf(h, op)) == DirectBlock(Latencies(h, op))
    ensures TallyOf(h, op).count > TallyOf(h, op).errors <==> Latencies(h, op) != []
  {
    TallyReads(h, op);
    var us := Latencies(h, op);
    assert |multiset(us)| == |us|;
  }

  /** The document of a finished run: as many ops as were recorded and as many errors as failed, the series sums to
      them, and each op's entry is read off the history: executions, failures, and the latency summary of its
      successes, absent exactly if it had none. */
  lemma DocumentOfRun(ops: seq<string>, at: real, moves: seq<Move>, r: RunResult, duration: real)
    requires Complete(ops, at, moves) && Documents(r, TotalsOf(ops, at, moves), duration)
    ensures var h := HistoryOf(ops, at, moves);
      && r.ops == |h| && r.errors == Recorded(h, true)
      && SeriesTotal(SeriesOf(ops, at, moves).intervals, false) == r.ops
      && SeriesTotal(SeriesOf(ops, at, moves).intervals, true) == r.errors
      && forall o :: o in r.operations ==>
        && o.op in ops && o.count == Times(h, o.op, false) && o.errors == Times(h, o.op, true)
        && o.latency == DirectBlock(Latencies(h, o.op))
    ensures forall op :: op in ops ==> exists i :: 0 <= i < |r.operations| && r.operations[i].op == op
    ensures forall i, j :: 0 <= i < j < |r.operations| ==> Before(r.operations[i].op, r.operations[j].op)
    ensures if duration > 0.0 then r.rate * duration == r.ops as real else r.rate == 0.0
    ensures forall o :: o in r.operations ==>
      if duration > 0.0 then o.rate * duration == o.count as real else o.rate == 0.0
  {
    DocumentNames(r, TotalsOf(ops, at, moves), duration);
    DocumentRates(r, TotalsOf(ops, at, moves), duration);
    hide Rate;
    var h, w := HistoryOf(ops, at, moves), TotalsOf(ops, at, moves);
    TotalsAreHistory(ops, at, moves);
    TotalsAddUp(ops, at, moves, false);
    TotalsAddUp(ops, at, moves, true);
    RecordedAll(h);
    forall o | o in r.operations
      ensures o.op in ops && o.count == Times(h, o.op, false) && o.errors == Times(h, o.op, true)
      ensures o.latency == DirectBlock(Latencies(h, o.op))
    {
      EntryNamed(r, o);
      assert o.op in SetOf(ops);
      TallyReads(h, o.op);
      BlockIsDirect(h, o.op);
    }
  }

  lemma DocumentNames(r: RunResult, w: Window, duration: real)
    requires Documents(r, w, duration)
    ensures forall op :: op in w ==> exists i :: 0 <= i < |r.operations| && r.operations[i].op == op
    ensures forall i, j :: 0 <= i < j < |r.operations| ==> Before(r.operations[i].op, r.operations[j].op)
  {
    hide OpReport;
    hide SumOver;
    hide Before;
    var names := ReportNames(r);
    forall op | op in w ensures exists i :: 0 <= i < |r.operations| && r.operations[i].op == op {
      assert op in SetOf(names);
      var i :| 0 <= i < |names| && names[i] == op;
      assert r.operations[i].op == op;
    }
    forall i, j | 0 <= i < j < |r.operations| ensures Before(r.operations[i].op, r.operations[j].op) {
      assert Before(names[i], names[j]);
    }
  }

  lemma DocumentRates(r: RunResult, w: Window, duration: real)
    requires Documents(r, w, duration)
    ensures if duration > 0.0 then r.rate * duration == r.ops as real else r.rate == 0.0
    ensures forall o :: o in r.operations ==>
      if duration > 0.0 then o.rate * duration == o.count as real else o.rate == 0.0
  {
    hide *;
    RatesWritten(r, w, duration);
    RateMeasures(r.ops, duration);
    forall o | o in r.operations
      ensures if duration > 0.0 then o.rate * duration == o.count as real else o.rate == 0.0
    {
      RateMeasures(o.count, duration);
    }
  }

  lemma RatesWritten(r: RunResult, w: Window, duration: real)
    requires Documents(r, w, duration)
    ensures r.rate == Rate(r.ops, duration) && forall o :: o in r.operations ==> o.rate == Rate(o.count, duration)
  {
    hide Rate;
  }

  lemma EntryNamed(r: RunResult, o: OpResult)
    requires o in r.operations
    ensures o.op in SetOf(ReportNames(r))
  {
    var i :| 0 <= i < |r.operations| && r.operations[i] == o;
    assert ReportNames(r)[i] == o.op;
  }

  lemma {:induction false} TotalsAddUp(ops: seq<string>, at: real, moves: seq<Move>, err: bool)
    requires Complete(ops, at, moves)
    ensures SumOver(TotalsOf(ops, at, moves), SetOf(ops), err) == Recorded(HistoryOf(ops, at, moves), err)
    ensures SeriesTotal(SeriesOf(ops, at, moves).intervals, err) == Recorded(HistoryOf(ops, at, moves), err)
  {
    var h, w, ivs := HistoryOf(ops, at, moves), TotalsOf(ops, at, moves), SeriesOf(ops, at, moves).intervals;
    TotalsAreHistory(ops, at, moves);
    RecordedOps(ops, at, moves);
    DistinctSum(w, ops, err);
    ListSumIsTally(w, h, ops, err);
    ListTallyAll(h, ops, err);
    forall op | op in ops ensures SeriesShare(ivs, op, err) == Part(TallyOf(h, op), err) {
      RunReport(ops, at, moves, op);
    }
    SharesAreTally(ivs, h, ops, err);
    RunConsistent(ops, at, moves);
    SeriesTotalIsShares(ivs, ops, err);
  }

  lemma RunConsistent(ops: seq<string>, at: real, moves: seq<Move>)
    requires Complete(ops, at, moves)
    ensures var sr := SeriesOf(ops, at, moves); AllConsistent(sr, ops) && Tiled(sr) && Spaced(sr)
  {
    RunInv(ops, at, moves);
  }

  lemma TiledPlainly(sr: Series)
    requires Tiled(sr)
    ensures sr.intervals != [] ==> sr.intervals[0].startS == 0.0
    ensures forall i :: 0 < i < |sr.intervals| ==> sr.intervals[i].startS == sr.intervals[i - 1].endS
  {
  }

  /** The series of a finished run starts with the run, and its intervals follow each other without a gap. */
  lemma {:induction false} SeriesTiles(ops: seq<string>, at: real, moves: seq<Move>)
    requires Complete(ops, at, moves)
    ensures var ivs := SeriesOf(ops, at, moves).intervals;
      && (ivs != [] ==> ivs[0].startS == 0.0)
      && forall i :: 0 < i < |ivs| ==> ivs[i].startS == ivs[i - 1].endS
  {
    hide *;
    RunConsistent(ops, at, moves);
    TiledPlainly(SeriesOf(ops, at, moves));
  }

  /** Each interval but the first spans a second or more, and rates are counts over spans. */
  lemma {:induction false} SeriesTimed(ops: seq<string>, at: real, moves: seq<Move>)
    requires Complete(ops, at, moves)
    ensures var ivs := SeriesOf(ops, at, moves).intervals;
      forall i :: 0 <= i < |ivs| ==> var iv := ivs[i]; var span := iv.endS - iv.startS;
        && span >= (if i == 0 then 0.0 else 1.0)
        && (if span > 0.0 then iv.rate * span == iv.ops as real else iv.rate == 0.0)
        && forall o :: o in iv.operations ==>
          if span > 0.0 then o.rate * span == o.count as real else o.rate == 0.0
  {
    hide *;
    RunConsistent(ops, at, moves);
    WellTimed(SeriesOf(ops, at, moves), ops);
  }

  /** The entries of an op sum to how often the op was executed, and how often it failed. */
  lemma {:induction false} SeriesShares(ops: seq<string>, at: real, moves: seq<Move>, op: string, err: bool)
    requires Complete(ops, at, moves) && op in ops
    ensures SeriesShare(SeriesOf(ops, at, moves).intervals, op, err) == Times(HistoryOf(ops, at, moves), op, err)
  {
    RunReport(ops, at, moves, op);
    TallyReads(HistoryOf(ops, at, moves), op);
  }

  /** The sum of the latencies of an op's successes. */
  ghost function LatencySum(h: seq<Event>, op: string): nat {
    if h == [] then 0 else
      var e := h[|h| - 1];
      LatencySum(h[..|h| - 1], op) +
        if e.op == op && e.outcome.Success? && e.outcome.us > 0 then e.outcome.us else 0
  }

  lemma {:induction false} LatenciesSummed(h: seq<Event>, op: string)
    ensures Sum(Sorted(multiset(Latencies(h, op)))) == LatencySum(h, op)
  {
    if h == [] {
      assert Sorted(multiset{}) == [];
    } else {
      var e, init := h[|h| - 1], Latencies(h[..|h| - 1], op);
      LatenciesSummed(h[..|h| - 1], op);
      if e.op == op && e.outcome.Success? {
        var us := if e.outcome.us < 0 then 0 else e.outcome.us;
        assert multiset(init + [us]) == multiset(init) + multiset{us};
        SumOneMore(multiset(init), us);
      }
    }
  }

  /** What a document says about the latencies of an op, written out on any ascending list of them: its ends, and the
      entries at ranks ceil(n / 2), ceil(0.95 n), ceil(0.99 n) and ceil(0.999 n). */
  lemma {:induction false} LatencyBlockOfRun(
      ops: seq<string>, at: real, moves: seq<Move>, r: RunResult, duration: real, o: OpResult, s: seq<int>)
    requires Complete(ops, at, moves) && Documents(r, TotalsOf(ops, at, moves), duration) && o in r.operations
    requires Ascending(s) && multiset(s) == multiset(Latencies(HistoryOf(ops, at, moves), o.op))
    ensures |s| == o.count - o.errors && (o.latency.Some? <==> s != [])
    ensures o.latency.Some? ==> var b, n := o.latency.value, |s|;
      && b.minMs == s[0] as real / 1000.0 && b.maxMs == s[n - 1] as real / 1000.0
      && b.p50Ms == s[(50 * n + 99) / 100 - 1] as real / 1000.0
      && b.p95Ms == s[(95 * n + 99) / 100 - 1] as real / 1000.0
      && b.p99Ms == s[(99 * n + 99) / 100 - 1] as real / 1000.0
      && b.p999Ms == s[(999 * n + 999) / 1000 - 1] as real / 1000.0
  {
    hide *;
    DocumentOfRun(ops, at, moves, r, duration);
    BlockSized(HistoryOf(ops, at, moves), o.op, s);
    if s != [] {
      SummaryExplicit(s);
    }
  }

  /** The mean a document reports for an op, times the number of its successes, is the sum of their latencies. */
  lemma {:induction false} MeanOfRun(
      ops: seq<string>, at: real, moves: seq<Move>, r: RunResult, duration: real, o: OpResult)
    requires Complete(ops, at, moves) && Documents(r, TotalsOf(ops, at, moves), duration)
    requires o in r.operations && o.latency.Some?
    ensures o.latency.value.meanMs * 1000.0 * (o.count - o.errors) as real ==
      LatencySum(HistoryOf(ops, at, moves), o.op) as real
  {
    hide *;
    var h := HistoryOf(ops, at, moves);
    var s := Sorted(multiset(Latencies(h, o.op)));
    SortedSound(multiset(Latencies(h, o.op)));
    DocumentOfRun(ops, at, moves, r, duration);
    BlockSized(h, o.op, s);
    MeanExplicit(s);
    LatenciesSummed(h, o.op);
  }

  lemma {:induction false} BlockSized(h: seq<Event>, op: string, s: seq<int>)
    requires multiset(s) == multiset(Latencies(h, op))
    ensures |s| == Times(h, op, false) - Times(h, op, true)
    ensures DirectBlock(Latencies(h, op)) == if s == [] then None else Some(Latency.Summary(multiset(s)))
  {
    TallyReads(h, op);
    SameBlocks(s, Latencies(h, op));
    assert |s| == |multiset(s)|;
  }

  /** Two finished runs in which an op had the same successful latencies report the same latency summary for it:
      who recorded what, when drains happened, how maps were iterated and how many ops failed does not show. */
  lemma LatencyDependsOnSuccesses(
      ops1: seq<string>, at1: real, moves1: seq<Move>, r1: RunResult, d1: real,
      ops2: seq<string>, at2: real, moves2: seq<Move>, r2: RunResult, d2: real, o1: OpResult, o2: OpResult)
    requires Complete(ops1, at1, moves1) && Documents(r1, TotalsOf(ops1, at1, moves1), d1)
    requires Complete(ops2, at2, moves2) && Documents(r2, TotalsOf(ops2, at2, moves2), d2)
    requires o1 in r1.operations && o2 in r2.operations && o1.op == o2.op
    requires multiset(Latencies(HistoryOf(ops1, at1, moves1), o1.op)) ==
      multiset(Latencies(HistoryOf(ops2, at2, moves2), o2.op))
    ensures o1.latency == o2.latency
  {
    DocumentOfRun(ops1, at1, moves1, r1, d1);
    DocumentOfRun(ops2, at2, moves2, r2, d2);
    SameBlocks(Latencies(HistoryOf(ops1, at1, moves1), o1.op), Latencies(HistoryOf(ops2, at2, moves2), o2.op));
  }

  lemma SameBlocks(us: seq<int>, vs: seq<int>)
    requires multiset(us) == multiset(vs)
    ensures DirectBlock(us) == DirectBlock(vs)
  {
    assert |us| == |multiset(us)| && |vs| == |multiset(vs)|;
  }

  /** Statistics in order, and all but the mean among the latencies us (microseconds shown as milliseconds). */
  ghost predicate ObservedBlock(x: LatencyStats, us: seq<int>) {
    && x.minMs <= x.p50Ms <= x.p95Ms <= x.p99Ms <= x.p999Ms <= x.maxMs && x.minMs <= x.meanMs <= x.maxMs
    && Occurs(us, x.minMs) && Occurs(us, x.p50Ms) && Occurs(us, x.p95Ms)
    && Occurs(us, x.p99Ms) && Occurs(us, x.p999Ms) && Occurs(us, x.maxMs)
  }

  ghost predicate Occurs(us: seq<int>, v: real) {
    exists u :: u in us && ToMs(u) == v
  }

  lemma SummaryObserved(us: seq<int>)
    requires us != []
    ensures ObservedBlock(Latency.Summary(multiset(us)), us)
  {
    var ms := multiset(us);
    assert |ms| == |us|;
    SummaryOrdered(ms);
    OccursIn(us, Least(ms));
    OccursIn(us, NearestRank(ms, 0.50));
    OccursIn(us, NearestRank(ms, 0.95));
    OccursIn(us, NearestRank(ms, 0.99));
    OccursIn(us, NearestRank(ms, 0.999));
    OccursIn(us, Greatest(ms));
  }

  lemma OccursIn(us: seq<int>, u: int)
    requires u in multiset(us)
    ensures Occurs(us, ToMs(u))
  {
    assert u in us;
  }

  /** The latency block of an op that succeeded at least once: its statistics are in order, and all but the mean are
      latencies that were recorded. */
  lemma ReportedLatenciesOccurred(
      ops: seq<string>, at: real, moves: seq<Move>, r: RunResult, duration: real, o: OpResult)
    requires Complete(ops, at, moves) && Documents(r, TotalsOf(ops, at, moves), duration)
    requires o in r.operations && o.latency.Some?
    ensures ObservedBlock(o.latency.value, Latencies(HistoryOf(ops, at, moves), o.op))
  {
    hide ObservedBlock;
    DocumentOfRun(ops, at, moves, r, duration);
    SummaryObserved(Latencies(HistoryOf(ops, at, moves), o.op));
  }
}
