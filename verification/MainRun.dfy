/** The run and shutdown order that main imposes on the pipeline, and what it makes of a finished run. */

module MainRun {
  import opened Lists
  import opened Options
  import opened Tally
  import opened Intervals
  import IntervalFacts
  import Picks
  import opened Pipeline
  import opened PipelineFacts

  /** Thread 0 is the summary loop, thread 1 is main itself.  `waited` is set once every worker has returned. */
  datatype Run = Run(s: State, clock: real, lastTick: real, waited: bool)

  datatype Move = Advance(clock: real) | Wait | Do(step: Step)

  ghost function Begin(ops: seq<string>, at: real): Run {
    Run(Start(ops, 2, at), at, at, false)
  }

  ghost predicate AllStopped(s: State) {
    forall i :: 0 <= i < |s.workers| ==> s.workers[i].Stopped?
  }

  /** Clocks do not run backwards, a tick is drained no earlier than it fired and after the tick before it,
      workers are registered before main waits for them, and Finalize is called once, after the wait, with the
      clock read at the call. */
  ghost predicate Allowed(r: Run, m: Move) {
    match m
    case Advance(c) => r.clock <= c
    case Wait => AllStopped(r.s)
    case Do(step) =>
      && Enabled(r.s, step)
      && (step.Register? ==> !r.waited)
      && (step.Call? ==>
        if step.kind.Summary? then step.t == 0 && r.lastTick <= step.now <= r.clock
        else step.t == 1 && r.s.threads[1].Idle? && r.waited && step.now == r.clock)
  }

  ghost function Moved(r: Run, m: Move): Run
    requires Allowed(r, m)
  {
    match m
    case Advance(c) => r.(clock := c)
    case Wait => r.(waited := true)
    case Do(step) =>
      r.(s := Next(r.s, step), lastTick := if step.Call? && step.kind.Summary? then step.now else r.lastTick)
  }

  ghost predicate EmptyUpTo(s: State, n: nat)
    requires n <= |s.windows|
  {
    forall i :: 0 <= i < n ==> s.windows[i] == Empty(s.ops)
  }

  ghost predicate AllEmpty(s: State) {
    EmptyUpTo(s, |s.windows|)
  }

  /** Nothing is left to drain and nothing more will come. */
  ghost predicate Drained(r: Run) {
    r.waited && AllEmpty(r.s)
  }

  ghost predicate OnTime(r: Run, now: real) {
    now >= r.s.series.lastBoundary || Drained(r)
  }

  /** The summary loop overtook Finalize: it reads a later clock but got to the lock first. */
  ghost predicate Overtakes(s: State, kind: Kind, now: real) {
    kind.Summary? && |s.threads| == 2 && s.threads[1].Waiting? && now > s.threads[1].now
  }

  ghost predicate Holds(s: State, t: nat) {
    t < 2 && |s.threads| == 2 && s.threads[t].Inside?
  }

  ghost predicate HolderInOrder(r: Run) {
    var s := r.s;
    match s.lock
    case Free => true
    case Lifting(t, kind, now, mark, next, merged) =>
      && Holds(s, t) && (kind.Summary? <==> t == 0)
      && now <= (if t == 0 then r.lastTick else r.clock)
      && (now >= s.series.lastBoundary || (Drained(r) && merged == Empty(s.ops)))
      && next <= |s.windows|
      && (kind.Final? ==> r.waited && mark == |s.history|)
      && (kind.Final? || Overtakes(s, kind, now) ==> EmptyUpTo(s, next))
    case Folding(t, kind, now, mark, merged, _) =>
      && Holds(s, t) && (kind.Summary? <==> t == 0)
      && now <= (if t == 0 then r.lastTick else r.clock)
      && (now >= s.series.lastBoundary || Quiet(merged))
      && (kind.Final? ==> r.waited && mark == |s.history|)
      && (kind.Final? || Overtakes(s, kind, now) ==> AllEmpty(s))
    case Leaving(t, kind, mark) =>
      && Holds(s, t) && (kind.Summary? <==> t == 0)
      && (kind.Final? ==> r.waited && mark == |s.history|)
    case Copying(t, mark) => t == 1 && Holds(s, t) && r.waited && mark == |s.history|
    case Copied(t, mark, _, _) => t == 1 && Holds(s, t) && r.waited && mark == |s.history|
  }

  ghost predicate ThreadsInOrder(r: Run) {
    var s := r.s;
    && |s.threads| == 2
    && (match s.threads[0]
        case Waiting(kind, now, _) => kind.Summary? && now <= r.lastTick && OnTime(r, now)
        case Between(_) => false
        case Returned(_, _, _) => false
        case _ => true)
    && (match s.threads[1]
        case Idle => true
        case Waiting(kind, now, mark) => kind.Final? && now <= r.clock && OnTime(r, now) && mark == |s.history|
        case Inside => true
        case Between(mark) => mark == |s.history|
        case Returned(mark, _, _) => mark == |s.history|)
    && (!s.threads[1].Idle? ==> r.waited)
  }

  ghost predicate InOrder(r: Run) {
    && r.s.ordered
    && r.lastTick <= r.clock && r.s.series.lastBoundary <= r.clock
    && (r.waited ==> AllStopped(r.s))
    && (r.s.series.lastBoundary <= r.lastTick || Drained(r))
    && ThreadsInOrder(r)
    && HolderInOrder(r)
  }

  // -------------------------------------------------------------- preservation

  lemma {:induction false} EmptyQuiet(ops: seq<string>, keys: set<string>)
    ensures SumOver(Empty(ops), keys, false) == 0
    decreases keys
  {
    if keys == {} {
    } else {
      var k := Picks.AnyOf(keys);
      EmptyAt(ops, k);
      EmptyQuiet(ops, keys - {k});
    }
  }

  lemma MergeOfEmpty(ops: seq<string>)
    ensures Merge(Empty(ops), Empty(ops)) == Empty(ops)
  {
    AddZero(ZERO);
  }

  lemma InOrderStart(ops: seq<string>, at: real)
    ensures InOrder(Begin(ops, at))
  {
  }

  lemma InOrderWorker(r: Run, step: Step)
    requires InOrder(r) && Shaped(r.s) && Allowed(r, Do(step))
    requires step.Register? || step.Meter? || step.Record? || step.Stop?
    ensures InOrder(Moved(r, Do(step)))
  {
  }

  lemma InOrderCall(r: Run, step: Step)
    requires InOrder(r) && Shaped(r.s) && Allowed(r, Do(step)) && step.Call?
    ensures InOrder(Moved(r, Do(step)))
  {
  }

  lemma InOrderAcquire(r: Run, step: Step)
    requires InOrder(r) && Shaped(r.s) && Allowed(r, Do(step)) && step.Acquire?
    ensures InOrder(Moved(r, Do(step)))
  {
  }

  lemma InOrderLift(r: Run)
    requires InOrder(r) && Shaped(r.s) && Allowed(r, Do(Lift))
    ensures InOrder(Moved(r, Do(Lift)))
  {
    MergeOfEmpty(r.s.ops);
  }

  lemma InOrderLifted(r: Run)
    requires InOrder(r) && Shaped(r.s) && Allowed(r, Do(Lifted))
    ensures InOrder(Moved(r, Do(Lifted)))
  {
    EmptyQuiet(r.s.ops, Empty(r.s.ops).Keys);
  }

  lemma InOrderFold(r: Run, op: string)
    requires InOrder(r) && Shaped(r.s) && Allowed(r, Do(Fold(op)))
    ensures InOrder(Moved(r, Do(Fold(op))))
  {
  }

  lemma InOrderClose(r: Run)
    requires InOrder(r) && Shaped(r.s) && Allowed(r, Do(Close))
    ensures InOrder(Moved(r, Do(Close)))
  {
  }

  lemma InOrderCopy(r: Run)
    requires InOrder(r) && Shaped(r.s) && Allowed(r, Do(Copy))
    ensures InOrder(Moved(r, Do(Copy)))
  {
  }

  lemma InOrderUnlock(r: Run)
    requires InOrder(r) && Shaped(r.s) && Allowed(r, Do(Unlock))
    ensures InOrder(Moved(r, Do(Unlock)))
  {
  }

  lemma InOrderMove(r: Run, m: Move)
    requires InOrder(r) && Shaped(r.s) && Allowed(r, m)
    ensures InOrder(Moved(r, m))
  {
    match m
    case Advance(_) =>
    case Wait =>
    case Do(step) =>
      match step
      case Call(_, _, _) => InOrderCall(r, step);
      case Acquire(_) => InOrderAcquire(r, step);
      case Lift => InOrderLift(r);
      case Lifted => InOrderLifted(r);
      case Fold(op) => InOrderFold(r, op);
      case Close => InOrderClose(r);
      case Copy => InOrderCopy(r);
      case Unlock => InOrderUnlock(r);
      case _ => InOrderWorker(r, step);
  }

  // ------------------------------------------------------------ whole runs

  ghost function Finished(r: Run, moves: seq<Move>): Option<Run> {
    if moves == [] then Some(r)
    else
      match Finished(r, moves[..|moves| - 1])
      case None => None
      case Some(q) =>
        if Allowed(q, moves[|moves| - 1]) then Some(Moved(q, moves[|moves| - 1])) else None
  }

  lemma {:induction false} RunInv(ops: seq<string>, at: real, moves: seq<Move>)
    requires NoDup(ops) && Finished(Begin(ops, at), moves).Some?
    ensures var r := Finished(Begin(ops, at), moves).value; Inv(r.s) && InOrder(r) && r.s.ops == ops
  {
    if moves == [] {
      InvStart(ops, 2, at);
      InOrderStart(ops, at);
    } else {
      var init, m := moves[..|moves| - 1], moves[|moves| - 1];
      RunInv(ops, at, init);
      var q := Finished(Begin(ops, at), init).value;
      InOrderMove(q, m);
      if m.Do? {
        InvStep(q.s, m.step);
      }
    }
  }

  lemma {:induction false} RunTimed(ops: seq<string>, at: real, moves: seq<Move>)
    requires NoDup(ops) && Finished(Begin(ops, at), moves).Some?
    ensures Spaced(Finished(Begin(ops, at), moves).value.s.series)
    ensures AllConsistent(Finished(Begin(ops, at), moves).value.s.series, ops)
  {
    RunInv(ops, at, moves);
  }

  /** In main's order no window is ever recorded before the boundary it follows, so every interval but the first
      is a full observation window and every rate is a count over its true span. */
  lemma {:induction false} RunSpaced(ops: seq<string>, at: real, moves: seq<Move>)
    requires NoDup(ops) && Finished(Begin(ops, at), moves).Some?
    ensures Spaced(Finished(Begin(ops, at), moves).value.s.series)
    ensures var ivs := Finished(Begin(ops, at), moves).value.s.series.intervals;
      forall i :: 0 <= i < |ivs| ==> var iv := ivs[i]; var span := iv.endS - iv.startS;
        && span >= (if i == 0 then 0.0 else 1.0)
        && (if span > 0.0 then iv.rate * span == iv.ops as real else iv.rate == 0.0)
        && forall o :: o in iv.operations ==>
          if span > 0.0 then o.rate * span == o.count as real else o.rate == 0.0
  {
    hide *;
    RunTimed(ops, at, moves);
    IntervalFacts.WellTimed(Finished(Begin(ops, at), moves).value.s.series, ops);
  }

  lemma {:induction false} NothingMetering(ws: seq<Worker>, op: string)
    requires forall i :: 0 <= i < |ws| ==> !ws[i].Observed?
    ensures SumWindows(AllMetering(ws), op) == ZERO
  {
    forall w | w in AllMetering(ws) ensures At(w, op) == ZERO {
    }
    SumOfZeros(AllMetering(ws), op);
  }

  lemma {:induction false} LeqOfGathered(s: State, op: string)
    requires Conserved(s, op)
    ensures Leq(At(s.total, op), TallyOf(s.history, op))
  {
    var g := Gathered(s.total, s.lock, op);
    LeqOfSum(g, SumWindows(s.windows, op));
    if s.lock.Lifting? || s.lock.Folding? {
      LeqOfSum(At(s.total, op), At(s.lock.merged, op));
    }
    LeqReflexive(At(s.total, op));
    LeqTransitive(At(s.total, op), g, TallyOf(s.history, op));
  }

  /** Finalize has returned to main. */
  ghost predicate Done(r: Run) {
    |r.s.threads| == 2 && r.s.threads[1].Returned?
  }

  lemma {:induction false} FullReport(s: State, totals: Window, series: Series, op: string)
    requires Reported(s, |s.history|, totals, series, op) && Leq(At(s.total, op), TallyOf(s.history, op))
    ensures At(totals, op) == TallyOf(s.history, op) == At(s.total, op)
  {
    assert s.history[..|s.history|] == s.history;
    LeqAntisymmetric(At(totals, op), TallyOf(s.history, op));
    LeqAntisymmetric(At(s.total, op), TallyOf(s.history, op));
  }

  /** The report and the live totals both are the accumulator of the whole history. */
  lemma {:induction false} ReportIsHistory(s: State, op: string)
    requires OpSound(s, op) && |s.threads| == 2 && s.threads[1].Returned? && s.threads[1].mark == |s.history|
    ensures At(s.threads[1].totals, op) == TallyOf(s.history, op) == At(s.total, op)
    ensures forall err :: SeriesShare(s.threads[1].series.intervals, op, err) == Part(TallyOf(s.history, op), err)
  {
    var report := s.threads[1];
    assert ThreadSound(s, report, op);
    LeqOfGathered(s, op);
    FullReport(s, report.totals, report.series, op);
  }

  lemma {:induction false} CountersAreHistory(r: Run, op: string)
    requires Inv(r.s) && InOrder(r) && r.waited && op in r.s.ops
    ensures Agree(r.s.counters, op, TallyOf(r.s.history, op))
  {
    assert Exported(r.s, op);
    NothingMetering(r.s.workers, op);
    AddZero(TallyOf(r.s.history, op));
  }

  /** The report of a finished run.  For every op the totals Finalize returned are the accumulator of the whole
      history, the live totals they share their latency maps with are equal to them and stay so, the exported
      counters agree, and the series sums to them, tiles the run and has true rates. */
  lemma {:induction false} RunReport(ops: seq<string>, at: real, moves: seq<Move>, op: string)
    requires NoDup(ops) && op in ops && Finished(Begin(ops, at), moves).Some?
    requires Done(Finished(Begin(ops, at), moves).value)
    ensures var s := Finished(Begin(ops, at), moves).value.s;
      var report := s.threads[1]; var x := TallyOf(s.history, op);
      && At(report.totals, op) == x && At(s.total, op) == x
      && Agree(s.counters, op, x)
      && (forall err :: SeriesShare(report.series.intervals, op, err) == Part(x, err))
      && AllConsistent(report.series, ops) && Tiled(report.series) && Spaced(report.series)
  {
    var r := Finished(Begin(ops, at), moves).value;
    RunInv(ops, at, moves);
    assert OpSound(r.s, op);
    ReportIsHistory(r.s, op);
    CountersAreHistory(r, op);
  }
}
