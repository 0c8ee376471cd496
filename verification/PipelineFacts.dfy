/** The pipeline's invariant is kept by every step, hence holds in every reachable state. */

module PipelineFacts {
  import opened Lists
  import opened Options
  import opened Tally
  import opened Intervals
  import IntervalFacts
  import opened Pipeline

  // ------------------------------------------------------------------- shape

  lemma SampledAdd(a: Stat, b: Stat)
    requires Sampled(a) && Sampled(b)
    ensures Sampled(Add(a, b))
  {
  }

  lemma ObserveOver(w: Window, ops: seq<string>, op: string, o: Outcome)
    requires Over(w, ops) && op in w
    ensures Over(Observe(w, op, o), ops)
  {
    SampledAdd(w[op], Unit(o));
    assert op in SetOf(ops);
    assert Observe(w, op, o).Keys == w.Keys;
  }

  lemma MergeOver(a: Window, b: Window, ops: seq<string>)
    requires Over(a, ops) && Over(b, ops)
    ensures Over(Merge(a, b), ops)
  {
    forall op | op in a ensures Sampled(Add(a[op], At(b, op))) {
      SampledAdd(a[op], b[op]);
    }
  }

  lemma ShapedWorker(s: State, step: Step)
    requires Shaped(s) && Enabled(s, step) && (step.Register? || step.Meter? || step.Record? || step.Stop?)
    ensures Shaped(Next(s, step))
  {
    if step.Record? {
      ObserveOver(s.windows[step.w], s.ops, s.workers[step.w].op, s.workers[step.w].outcome);
    }
  }

  lemma ShapedThread(s: State, step: Step)
    requires Shaped(s) && Enabled(s, step) && (step.Call? || step.Acquire? || step.Copy? || step.Unlock? || step.Close?)
    ensures Shaped(Next(s, step))
  {
  }

  lemma ShapedDrain(s: State, step: Step)
    requires Shaped(s) && Enabled(s, step) && (step.Lift? || step.Lifted? || step.Fold?)
    ensures Shaped(Next(s, step))
  {
    match step
    case Lift => MergeOver(s.lock.merged, s.windows[s.lock.next], s.ops);
    case Lifted =>
    case Fold(op) => SampledAdd(s.total[op], s.lock.merged[op]);
  }

  lemma ShapedStep(s: State, step: Step)
    requires Shaped(s) && Enabled(s, step)
    ensures Shaped(Next(s, step))
  {
    hide Shaped;
    hide Next;
    hide Enabled;
    match step
    case Register => ShapedWorker(s, step);
    case Meter(_, _, _) => ShapedWorker(s, step);
    case Record(_) => ShapedWorker(s, step);
    case Stop(_) => ShapedWorker(s, step);
    case Lift => ShapedDrain(s, step);
    case Lifted => ShapedDrain(s, step);
    case Fold(_) => ShapedDrain(s, step);
    case _ => ShapedThread(s, step);
  }

  lemma SeriesClose(s: State)
    requires Shaped(s) && SeriesSound(s, s.series) && Enabled(s, Close)
    ensures SeriesSound(Next(s, Close), Next(s, Close).series)
  {
    var l := s.lock;
    IntervalFacts.RecordConsistent(s.ops, s.series, l.merged, l.now);
    IntervalFacts.RecordTiles(s.ops, s.series, l.merged, l.now);
    if Next(s, Close).ordered {
      IntervalFacts.RecordSpaced(s.ops, s.series, l.merged, l.now);
    }
  }

  lemma SeriesKept(s: State, t: State, series: Series)
    requires SeriesSound(s, series) && t.ops == s.ops && (t.ordered ==> s.ordered)
    ensures SeriesSound(t, series)
  {
  }

  lemma SeriesStep(s: State, step: Step)
    requires Shaped(s) && AllSeriesSound(s) && Enabled(s, step)
    ensures AllSeriesSound(Next(s, step))
  {
    var t := Next(s, step);
    if step.Close? {
      SeriesClose(s);
    } else {
      SeriesKept(s, t, s.series);
    }
    hide SeriesSound;
    hide Shaped;
    forall i | 0 <= i < |s.threads| && s.threads[i].Returned? ensures SeriesSound(t, s.threads[i].series) {
      SeriesKept(s, t, s.threads[i].series);
    }
    if s.lock.Copied? {
      SeriesKept(s, t, s.lock.series);
    }
  }

  lemma CopiesStep(s: State, step: Step)
    requires Shaped(s) && CopiesOver(s) && Enabled(s, step)
    ensures CopiesOver(Next(s, step))
  {
  }

  // ----------------------------------------------------- what only ever grows

  lemma {:induction false} TallyGrows(h: seq<Event>, g: seq<Event>, op: string)
    requires h <= g
    ensures Leq(TallyOf(h, op), TallyOf(g, op))
  {
    TallySplit(g, |h|, op);
    assert g[..|h|] == h;
  }

  lemma LeqTransitive(a: Stat, b: Stat, c: Stat)
    requires Leq(a, b) && Leq(b, c)
    ensures Leq(a, c)
  {
  }

  lemma ReachesKeeps(s: State, t: State, mark: nat, op: string, x: Stat, y: Stat)
    requires Reaches(s, mark, op, x) && s.history <= t.history && Leq(x, y)
    ensures Reaches(t, mark, op, y)
  {
    assert t.history[..mark] == s.history[..mark];
    LeqTransitive(TallyOf(s.history[..mark], op), x, y);
  }

  lemma ReportedKeeps(s: State, t: State, mark: nat, totals: Window, series: Series, op: string)
    requires Reported(s, mark, totals, series, op) && s.history <= t.history
    requires Leq(At(s.total, op), At(t.total, op))
    ensures Reported(t, mark, totals, series, op)
  {
    ReachesKeeps(s, t, mark, op, At(s.total, op), At(t.total, op));
    ReachesKeeps(s, t, mark, op, At(totals, op), At(totals, op));
    TallyGrows(s.history, t.history, op);
    LeqTransitive(At(totals, op), TallyOf(s.history, op), TallyOf(t.history, op));
  }

  lemma ThreadKeeps(s: State, t: State, th: Thread, op: string)
    requires ThreadSound(s, th, op) && s.history <= t.history && Leq(At(s.total, op), At(t.total, op))
    ensures ThreadSound(t, th, op)
  {
    match th
    case Between(mark) => ReachesKeeps(s, t, mark, op, At(s.total, op), At(t.total, op));
    case Returned(mark, totals, series) => ReportedKeeps(s, t, mark, totals, series, op);
    case _ =>
  }

  ghost predicate ThreadsSound(s: State, op: string) {
    forall i :: 0 <= i < |s.threads| ==> ThreadSound(s, s.threads[i], op)
  }

  lemma ThreadsKeep(s: State, t: State, op: string)
    requires ThreadsSound(s, op) && s.history <= t.history && Leq(At(s.total, op), At(t.total, op))
    requires s.threads == t.threads
    ensures ThreadsSound(t, op)
  {
    forall i | 0 <= i < |t.threads| ensures ThreadSound(t, t.threads[i], op) {
      ThreadKeeps(s, t, s.threads[i], op);
    }
  }

  // ------------------------------------------------------------ step by step

  /** What recording an op does to a list of windows that contains the worker's own. */
  lemma ObservedSum(ws: seq<Window>, w: nat, o: string, out: Outcome, op: string)
    requires w < |ws| && o in ws[w] && op in ws[w]
    ensures SumWindows(ws[w := Observe(ws[w], o, out)], op) ==
      if o == op then Add(SumWindows(ws, op), Unit(out)) else SumWindows(ws, op)
  {
    if o == op {
      SumUpdate(ws, w, Observe(ws[w], o, out), op, Unit(out));
    } else {
      SumUntouched(ws, w, Observe(ws[w], o, out), op);
    }
  }

  lemma RecordConserves(s: State, w: nat, op: string)
    requires Shaped(s) && Enabled(s, Record(w)) && op in s.ops && Conserved(s, op)
    ensures Conserved(Next(s, Record(w)), op)
  {
    var ws := s.workers[w];
    TallySnoc(s.history, Event(w, ws.op, ws.outcome), op);
    ObservedSum(s.windows, w, ws.op, ws.outcome, op);
    AddAssociates(Gathered(s.total, s.lock, op), SumWindows(s.windows, op), Unit(ws.outcome));
  }

  /** One more recording, in a window already lifted or not: what was lifted holds no more than what came late. */
  lemma {:induction false} LateGrows(ws: seq<Window>, n: nat, late: seq<Event>, w: nat, e: Event, op: string)
    requires n <= |ws| && w < |ws| && e.op in ws[w] && op in ws[w]
    requires Leq(SumWindows(ws[..n], op), TallyOf(late, op))
    ensures Leq(SumWindows(ws[w := Observe(ws[w], e.op, e.outcome)][..n], op), TallyOf(late + [e], op))
  {
    var us := ws[w := Observe(ws[w], e.op, e.outcome)];
    var part := SumWindows(ws[..n], op);
    TallySnoc(late, e, op);
    LeqOfSum(TallyOf(late, op), Unit(e.outcome));
    if w < n {
      assert us[..n] == ws[..n][w := Observe(ws[w], e.op, e.outcome)];
      ObservedSum(ws[..n], w, e.op, e.outcome, op);
      AddMonotone(part, TallyOf(late, op), Unit(e.outcome), Unit(e.outcome));
    } else {
      assert us[..n] == ws[..n];
      LeqTransitive(part, TallyOf(late, op), TallyOf(late + [e], op));
    }
  }

  /** A recording during a drain lands in a window the drain has still to lift, or in one it already has. */
  lemma RecordLifted(s: State, w: nat, op: string)
    requires Shaped(s) && Enabled(s, Record(w)) && op in s.ops && s.lock.Lifting? && LockSound(s, op)
    ensures LockSound(Next(s, Record(w)), op)
  {
    var ws, mark := s.workers[w], s.lock.mark;
    var e := Event(w, ws.op, ws.outcome);
    assert op in s.windows[w];
    assert (s.history + [e])[mark..] == s.history[mark..] + [e];
    LateGrows(s.windows, s.lock.next, s.history[mark..], w, e, op);
    hide SumWindows;
    hide TallyOf;
    hide Leq;
    hide Add;
    hide Observe;
    hide Shaped;
  }

  lemma LeqReflexive(a: Stat)
    ensures Leq(a, a)
  {
  }

  /** A step that leaves the lock and the total alone, and adds at most to the history, keeps what the holder of
      the lock knows, unless it is lifting windows. */
  lemma LockKeeps(s: State, t: State, op: string)
    requires LockSound(s, op) && !s.lock.Lifting?
    requires t.lock == s.lock && t.total == s.total && s.history <= t.history
    ensures LockSound(t, op)
  {
    var x, y := Gathered(s.total, s.lock, op), At(s.total, op);
    LeqReflexive(x);
    LeqReflexive(y);
    match s.lock
    case Free =>
    case Folding(_, _, _, mark, _, _) => ReachesKeeps(s, t, mark, op, x, x);
    case Leaving(_, _, mark) => ReachesKeeps(s, t, mark, op, y, y);
    case Copying(_, mark) => ReachesKeeps(s, t, mark, op, y, y);
    case Copied(_, mark, totals, series) => ReportedKeeps(s, t, mark, totals, series, op);
  }

  lemma OpRecord(s: State, w: nat, op: string)
    requires Shaped(s) && Enabled(s, Record(w)) && op in s.ops && OpSound(s, op)
    ensures OpSound(Next(s, Record(w)), op)
  {
    var t := Next(s, Record(w));
    RecordConserves(s, w, op);
    LeqReflexive(At(s.total, op));
    ThreadsKeep(s, t, op);
    if s.lock.Lifting? {
      RecordLifted(s, w, op);
    } else {
      LockKeeps(s, t, op);
    }
    MatchedKeeps(s, t, op);
  }

  lemma MatchedKeeps(s: State, t: State, op: string)
    requires forall err :: Matched(s, op, err)
    requires t.series == s.series && At(t.total, op) == At(s.total, op)
    requires forall err :: Unwritten(t.lock, op, err) == Unwritten(s.lock, op, err)
    ensures forall err :: Matched(t, op, err)
  {
    forall err ensures Matched(t, op, err) {
      assert Matched(s, op, err);
    }
  }

  lemma OpRegister(s: State, op: string)
    requires Shaped(s) && Enabled(s, Register) && op in s.ops && OpSound(s, op)
    ensures OpSound(Next(s, Register), op)
  {
    var t := Next(s, Register);
    assert t.windows[..|s.windows|] == s.windows;
    AddZero(SumWindows(s.windows, op));
    LeqReflexive(At(s.total, op));
    ThreadsKeep(s, t, op);
    MatchedKeeps(s, t, op);
  }

  /** Moving x from the rest to what is held. */
  lemma Moves(total: Stat, held: Stat, x: Stat, rest: Stat)
    ensures Add(Add(total, Add(held, x)), rest) == Add(Add(total, held), Add(rest, x))
  {
    AddAssociates(total, held, x);
    AddAssociates(Add(total, held), x, rest);
    AddCommutes(x, rest);
  }

  /** What a lift changes. */
  lemma LiftParts(s: State)
    requires Enabled(s, Lift)
    ensures var t := Next(s, Lift); var n := s.lock.next;
      && n < |s.windows| && t.windows == s.windows[n := Empty(s.ops)]
      && t.lock == s.lock.(next := n + 1, merged := Merge(s.lock.merged, s.windows[n]))
      && t.total == s.total && t.history == s.history
  {
  }

  lemma LiftConserves(s: State, op: string)
    requires Shaped(s) && Enabled(s, Lift) && op in s.ops && Conserved(s, op)
    ensures Conserved(Next(s, Lift), op)
  {
    var n := s.lock.next;
    assert op in s.lock.merged && op in s.windows[n] && op in Empty(s.ops);
    var held, x := At(s.lock.merged, op), At(s.windows[n], op);
    assert At(Merge(s.lock.merged, s.windows[n]), op) == Add(held, x);
    assert At(Empty(s.ops), op) == ZERO;
    LiftParts(s);
    hide Add;
    hide SumWindows;
    hide TallyOf;
    hide Merge;
    hide Empty;
    hide Shaped;
    hide Next;
    hide Enabled;
    SumEmptied(s.windows, n, Empty(s.ops), op);
    Moves(At(s.total, op), held, x, SumWindows(s.windows[n := Empty(s.ops)], op));
  }

  /** One more window counted, and it is empty now. */
  lemma {:induction false} OneMoreEmpty(ws: seq<Window>, n: nat, ops: seq<string>, op: string)
    requires n < |ws|
    ensures SumWindows(ws[n := Empty(ops)][..n + 1], op) == SumWindows(ws[..n], op)
  {
    var us := ws[n := Empty(ops)];
    assert us[..n + 1][..n] == ws[..n];
    EmptyAt(ops, op);
    AddZero(SumWindows(ws[..n], op));
  }

  lemma LiftedSoFar(s: State, op: string)
    requires Shaped(s) && Enabled(s, Lift) && op in s.ops && LockSound(s, op)
    ensures LockSound(Next(s, Lift), op)
  {
    LiftParts(s);
    hide SumWindows;
    hide TallyOf;
    hide Merge;
    hide Empty;
    hide Shaped;
    hide Leq;
    hide Next;
    hide Enabled;
    OneMoreEmpty(s.windows, s.lock.next, s.ops, op);
  }

  lemma OpLift(s: State, op: string)
    requires Shaped(s) && Enabled(s, Lift) && op in s.ops && OpSound(s, op)
    ensures OpSound(Next(s, Lift), op)
  {
    var t := Next(s, Lift);
    LiftConserves(s, op);
    LiftedSoFar(s, op);
    LeqReflexive(At(s.total, op));
    ThreadsKeep(s, t, op);
    MatchedKeeps(s, t, op);
  }

  lemma OpParts(s: State, op: string)
    requires Conserved(s, op) && LockSound(s, op) && ThreadsSound(s, op) && forall err :: Matched(s, op, err)
    ensures OpSound(s, op)
  {
  }

  /** All windows lifted, the merge and the total hold everything recorded before the drain's call. */
  lemma LiftedReaches(s: State, op: string)
    requires Enabled(s, Lifted) && Conserved(s, op) && LockSound(s, op)
    ensures Reaches(s, s.lock.mark, op, Gathered(s.total, s.lock, op))
  {
    var mark := s.lock.mark;
    assert s.windows[..s.lock.next] == s.windows;
    TallySplit(s.history, mark, op);
    hide Gathered;
    hide SumWindows;
    hide TallyOf;
    LeqOfRemainder(Gathered(s.total, s.lock, op), SumWindows(s.windows, op),
                   TallyOf(s.history[..mark], op), TallyOf(s.history[mark..], op));
  }

  lemma LiftedGathers(s: State, op: string)
    requires Enabled(s, Lifted) && op in s.lock.merged
    ensures Gathered(s.total, Next(s, Lifted).lock, op) == Gathered(s.total, s.lock, op)
  {
  }

  lemma LiftedLock(s: State, op: string)
    requires Enabled(s, Lifted) && op in s.lock.merged && Conserved(s, op) && LockSound(s, op)
    ensures LockSound(Next(s, Lifted), op) && Conserved(Next(s, Lifted), op)
  {
    LiftedReaches(s, op);
    LiftedGathers(s, op);
    hide Gathered;
    hide SumWindows;
    hide TallyOf;
    hide Leq;
    hide Add;
  }

  lemma ThreadsKeepOf(s: State, t: State, op: string)
    requires OpSound(s, op) && s.history <= t.history && Leq(At(s.total, op), At(t.total, op))
    requires s.threads == t.threads
    ensures ThreadsSound(t, op)
  {
    ThreadsKeep(s, t, op);
  }

  lemma OpLifted(s: State, op: string)
    requires Shaped(s) && Enabled(s, Lifted) && op in s.ops && OpSound(s, op)
    ensures OpSound(Next(s, Lifted), op)
  {
    var t := Next(s, Lifted);
    assert op in s.lock.merged;
    LiftedLock(s, op);
    LeqReflexive(At(s.total, op));
    ThreadsKeep(s, t, op);
    MatchedKeeps(s, t, op);
    hide *;
    OpParts(t, op);
  }

  lemma FoldGathers(s: State, f: string, op: string)
    requires Enabled(s, Fold(f))
    ensures Gathered(Next(s, Fold(f)).total, Next(s, Fold(f)).lock, op) == Gathered(s.total, s.lock, op)
    ensures Leq(At(s.total, op), At(Next(s, Fold(f)).total, op))
  {
    LeqReflexive(At(s.total, op));
    LeqOfSum(At(s.total, op), At(s.lock.merged, op));
  }

  lemma FoldLock(s: State, f: string, op: string)
    requires Enabled(s, Fold(f)) && Conserved(s, op) && LockSound(s, op)
    ensures LockSound(Next(s, Fold(f)), op) && Conserved(Next(s, Fold(f)), op)
  {
    FoldGathers(s, f, op);
    hide Gathered;
    hide SumWindows;
    hide TallyOf;
    hide Leq;
    hide Add;
  }

  lemma FoldMatches(s: State, f: string, op: string, err: bool)
    requires Shaped(s) && Enabled(s, Fold(f)) && op in s.ops && Matched(s, op, err)
    ensures Matched(Next(s, Fold(f)), op, err)
  {
  }

  lemma OpFold(s: State, f: string, op: string)
    requires Shaped(s) && Enabled(s, Fold(f)) && op in s.ops && OpSound(s, op)
    ensures OpSound(Next(s, Fold(f)), op)
  {
    var t := Next(s, Fold(f));
    assert t.threads == s.threads && t.history == s.history;
    FoldLock(s, f, op);
    FoldGathers(s, f, op);
    forall err ensures Matched(t, op, err) {
      assert Matched(s, op, err);
      FoldMatches(s, f, op, err);
    }
    hide *;
    ThreadsKeepOf(s, t, op);
    OpParts(t, op);
  }

  lemma CloseMatches(s: State, op: string, err: bool)
    requires Shaped(s) && AllConsistent(s.series, s.ops) && Enabled(s, Close) && op in s.ops && Matched(s, op, err)
    ensures Matched(Next(s, Close), op, err)
  {
    IntervalFacts.RecordSums(s.ops, s.series, s.lock.merged, s.lock.now, op, err);
  }

  lemma CloseLock(s: State, op: string)
    requires Enabled(s, Close) && LockSound(s, op) && Conserved(s, op)
    ensures LockSound(Next(s, Close), op) && Conserved(Next(s, Close), op)
  {
  }

  lemma OpClose(s: State, op: string)
    requires Shaped(s) && AllConsistent(s.series, s.ops) && Enabled(s, Close) && op in s.ops && OpSound(s, op)
    ensures OpSound(Next(s, Close), op)
  {
    var t := Next(s, Close);
    CloseLock(s, op);
    LeqReflexive(At(s.total, op));
    ThreadsKeep(s, t, op);
    forall err ensures Matched(t, op, err) {
      assert Matched(s, op, err);
      CloseMatches(s, op, err);
    }
    hide *;
    OpParts(t, op);
  }

  lemma CopyLock(s: State, op: string)
    requires Enabled(s, Copy) && Conserved(s, op) && LockSound(s, op) && forall err :: Matched(s, op, err)
    ensures LockSound(Next(s, Copy), op) && Conserved(Next(s, Copy), op)
  {
    LeqReflexive(At(s.total, op));
    LeqOfSum(At(s.total, op), SumWindows(s.windows, op));
    forall err ensures SeriesShare(s.series.intervals, op, err) == Part(At(s.total, op), err) {
      assert Matched(s, op, err);
    }
    hide SumWindows;
    hide TallyOf;
    hide Leq;
    hide Add;
  }

  lemma OpCopy(s: State, op: string)
    requires Shaped(s) && Enabled(s, Copy) && op in s.ops && OpSound(s, op)
    ensures OpSound(Next(s, Copy), op)
  {
    var t := Next(s, Copy);
    assert t.threads == s.threads && t.history == s.history && t.total == s.total;
    CopyLock(s, op);
    LeqReflexive(At(s.total, op));
    MatchedKeeps(s, t, op);
    hide *;
    ThreadsKeepOf(s, t, op);
    OpParts(t, op);
  }

  /** A step that changes nothing but one thread's own state keeps everything but that thread's. */
  lemma OtherThreadsKeep(s: State, t: State, a: nat, op: string)
    requires ThreadsSound(s, op) && a < |s.threads| && |t.threads| == |s.threads|
    requires t.history == s.history && t.total == s.total
    requires forall i :: 0 <= i < |s.threads| && i != a ==> t.threads[i] == s.threads[i]
    requires ThreadSound(t, t.threads[a], op)
    ensures ThreadsSound(t, op)
  {
    LeqReflexive(At(s.total, op));
    forall i | 0 <= i < |t.threads| ensures ThreadSound(t, t.threads[i], op) {
      if i != a {
        ThreadKeeps(s, t, s.threads[i], op);
      }
    }
  }

  lemma OpUnlock(s: State, op: string)
    requires Shaped(s) && Enabled(s, Unlock) && op in s.ops && OpSound(s, op)
    ensures OpSound(Next(s, Unlock), op)
  {
    var t := Next(s, Unlock);
    MatchedKeeps(s, t, op);
    assert ThreadSound(t, t.threads[s.lock.thread], op);
    OtherThreadsKeep(s, t, s.lock.thread, op);
  }

  lemma EmptyAt(ops: seq<string>, op: string)
    ensures At(Empty(ops), op) == ZERO
  {
  }

  lemma NothingGathered(total: Window, l: Lock, op: string)
    requires l.Lifting? && At(l.merged, op) == ZERO
    ensures Gathered(total, l, op) == At(total, op)
  {
    AddZero(At(total, op));
  }

  lemma AcquireGathers(s: State, a: nat, op: string)
    requires Enabled(s, Acquire(a))
    ensures Gathered(s.total, Next(s, Acquire(a)).lock, op) == At(s.total, op)
  {
    EmptyAt(s.ops, op);
    if s.threads[a].Waiting? {
      NothingGathered(s.total, Next(s, Acquire(a)).lock, op);
    }
  }

  lemma ZeroLeast(a: Stat)
    ensures Leq(ZERO, a)
  {
  }

  lemma AcquireLock(s: State, a: nat, op: string)
    requires Shaped(s) && Enabled(s, Acquire(a)) && op in s.ops && ThreadSound(s, s.threads[a], op)
    ensures LockSound(Next(s, Acquire(a)), op)
  {
    assert s.windows[..0] == [];
    if s.threads[a].Waiting? {
      ZeroLeast(TallyOf(s.history[s.threads[a].mark..], op));
    }
  }

  lemma OpAcquire(s: State, a: nat, op: string)
    requires Shaped(s) && Enabled(s, Acquire(a)) && op in s.ops && OpSound(s, op)
    ensures OpSound(Next(s, Acquire(a)), op)
  {
    var t := Next(s, Acquire(a));
    AcquireGathers(s, a, op);
    AcquireLock(s, a, op);
    MatchedKeeps(s, t, op);
    OtherThreadsKeep(s, t, a, op);
  }

  lemma OpCall(s: State, a: nat, kind: Kind, now: real, op: string)
    requires Shaped(s) && Enabled(s, Call(a, kind, now)) && op in s.ops && OpSound(s, op)
    ensures OpSound(Next(s, Call(a, kind, now)), op)
  {
    var t := Next(s, Call(a, kind, now));
    MatchedKeeps(s, t, op);
    OtherThreadsKeep(s, t, a, op);
    if !s.lock.Lifting? {
      LockKeeps(s, t, op);
    }
  }

  lemma OpWorker(s: State, step: Step, op: string)
    requires Shaped(s) && Enabled(s, step) && (step.Meter? || step.Stop?) && op in s.ops && OpSound(s, op)
    ensures OpSound(Next(s, step), op)
  {
    var t := Next(s, step);
    MatchedKeeps(s, t, op);
    LeqReflexive(At(s.total, op));
    ThreadsKeep(s, t, op);
    if !s.lock.Lifting? {
      LockKeeps(s, t, op);
    }
  }

  lemma OpStep(s: State, step: Step, op: string)
    requires Shaped(s) && AllSeriesSound(s) && Enabled(s, step) && op in s.ops && OpSound(s, op)
    ensures OpSound(Next(s, step), op)
  {
    match step
    case Register => OpRegister(s, op);
    case Meter(_, _, _) => OpWorker(s, step, op);
    case Record(w) => OpRecord(s, w, op);
    case Stop(_) => OpWorker(s, step, op);
    case Call(t, kind, now) => OpCall(s, t, kind, now, op);
    case Acquire(t) => OpAcquire(s, t, op);
    case Lift => OpLift(s, op);
    case Lifted => OpLifted(s, op);
    case Fold(f) => OpFold(s, f, op);
    case Close => OpClose(s, op);
    case Copy => OpCopy(s, op);
    case Unlock => OpUnlock(s, op);
  }

  // ---------------------------------------------------------------- counters

  lemma MeteringUpdate(ws: seq<Worker>, i: nat, w: Worker)
    requires i < |ws|
    ensures AllMetering(ws[i := w]) == AllMetering(ws)[i := Metering(w)]
  {
  }

  /** The pending ops after worker i turns from idle to metering, and the other way round. */
  lemma {:induction false} MeteringStarts(ws: seq<Worker>, i: nat, o: string, out: Outcome, op: string)
    requires i < |ws| && !ws[i].Observed?
    ensures SumWindows(AllMetering(ws[i := Observed(o, out)]), op) ==
      if o == op then Add(SumWindows(AllMetering(ws), op), Unit(out)) else SumWindows(AllMetering(ws), op)
  {
    var w := Observed(o, out);
    MeteringUpdate(ws, i, w);
    if o == op {
      AddZero(Unit(out));
      AddCommutes(ZERO, Unit(out));
      SumUpdate(AllMetering(ws), i, Metering(w), op, Unit(out));
    } else {
      SumUntouched(AllMetering(ws), i, Metering(w), op);
    }
  }

  lemma {:induction false} MeteringEnds(ws: seq<Worker>, i: nat, op: string)
    requires i < |ws| && ws[i].Observed?
    ensures SumWindows(AllMetering(ws), op) ==
      if ws[i].op == op then Add(SumWindows(AllMetering(ws[i := Top]), op), Unit(ws[i].outcome))
      else SumWindows(AllMetering(ws[i := Top]), op)
  {
    MeteringStarts(ws[i := Top], i, ws[i].op, ws[i].outcome, op);
    assert ws[i := Top][i := ws[i]] == ws;
  }

  lemma {:induction false} MeteringIdle(ws: seq<Worker>, i: nat, w: Worker, op: string)
    requires i < |ws| && !ws[i].Observed? && !w.Observed?
    ensures SumWindows(AllMetering(ws[i := w]), op) == SumWindows(AllMetering(ws), op)
  {
    MeteringUpdate(ws, i, w);
    SumUntouched(AllMetering(ws), i, Metering(w), op);
  }

  lemma {:induction false} MeteringJoins(ws: seq<Worker>, op: string)
    ensures SumWindows(AllMetering(ws + [Top]), op) == SumWindows(AllMetering(ws), op)
  {
    assert AllMetering(ws + [Top]) == AllMetering(ws) + [map[]];
    AddZero(SumWindows(AllMetering(ws), op));
  }

  lemma MeteredAgrees(c: Counters, o: string, out: Outcome, op: string, x: Stat)
    requires Agree(c, op, x)
    ensures Agree(Metered(c, o, out), op, if o == op then Add(x, Unit(out)) else x)
  {
  }

  lemma ExportedMeter(s: State, w: nat, o: string, out: Outcome, op: string)
    requires Enabled(s, Meter(w, o, out)) && Exported(s, op)
    ensures Exported(Next(s, Meter(w, o, out)), op)
  {
    var held := SumWindows(AllMetering(s.workers), op);
    MeteringStarts(s.workers, w, o, out, op);
    AddAssociates(TallyOf(s.history, op), held, Unit(out));
    MeteredAgrees(s.counters, o, out, op, Add(TallyOf(s.history, op), held));
  }

  lemma ExportedRecord(s: State, w: nat, op: string)
    requires Enabled(s, Record(w)) && Exported(s, op)
    ensures Exported(Next(s, Record(w)), op)
  {
    var ws := s.workers[w];
    var rest := SumWindows(AllMetering(s.workers[w := Top]), op);
    MeteringEnds(s.workers, w, op);
    TallySnoc(s.history, Event(w, ws.op, ws.outcome), op);
    AddAssociates(TallyOf(s.history, op), rest, Unit(ws.outcome));
  }

  lemma ExportedStep(s: State, step: Step, op: string)
    requires Enabled(s, step) && Exported(s, op)
    ensures Exported(Next(s, step), op)
  {
    match step
    case Register => MeteringJoins(s.workers, op);
    case Meter(w, o, out) => ExportedMeter(s, w, o, out, op);
    case Record(w) => ExportedRecord(s, w, op);
    case Stop(w) => MeteringIdle(s.workers, w, Stopped, op);
    case _ =>
  }

  // -------------------------------------------------------------------- runs

  lemma InvStep(s: State, step: Step)
    requires Inv(s) && Enabled(s, step)
    ensures Inv(Next(s, step))
  {
    ShapedStep(s, step);
    SeriesStep(s, step);
    CopiesStep(s, step);
    var t := Next(s, step);
    forall op | op in t.ops ensures OpSound(t, op) && Exported(t, op) {
      assert OpSound(s, op) && Exported(s, op);
      OpStep(s, step, op);
      ExportedStep(s, step, op);
    }
  }

  lemma {:induction false} ConservedStart(s: State, op: string)
    requires s.history == [] && SumWindows(s.windows, op) == ZERO && Gathered(s.total, s.lock, op) == ZERO
    ensures Conserved(s, op)
  {
    AddOfZeros(Gathered(s.total, s.lock, op), SumWindows(s.windows, op));
  }

  lemma AgreeAtStart(op: string, x: Stat)
    requires x == ZERO
    ensures Agree(Counters(map[], map[], map[]), op, x)
  {
  }

  lemma {:induction false} ExportedStart(s: State, op: string)
    requires s.history == [] && SumWindows(AllMetering(s.workers), op) == ZERO
    requires s.counters == Counters(map[], map[], map[])
    ensures Exported(s, op)
  {
    var tally, held := TallyOf(s.history, op), SumWindows(AllMetering(s.workers), op);
    AddOfZeros(tally, held);
    AgreeAtStart(op, Add(tally, held));
  }

  lemma {:induction false} NoWindows(op: string)
    ensures SumWindows([], op) == ZERO
  {
  }

  lemma QuietStart(s: State, op: string)
    requires Conserved(s, op) && s.lock.Free? && s.series.intervals == []
    requires At(s.total, op).count == 0 && At(s.total, op).errors == 0
    requires forall i :: 0 <= i < |s.threads| ==> s.threads[i].Idle?
    ensures OpSound(s, op)
  {
  }

  lemma OpStart(s: State, op: string)
    requires s.windows == [] && s.history == [] && s.lock.Free? && s.series.intervals == []
    requires At(s.total, op) == ZERO
    requires forall i :: 0 <= i < |s.threads| ==> s.threads[i].Idle?
    ensures OpSound(s, op)
  {
    NoWindows(op);
    ConservedStart(s, op);
    QuietStart(s, op);
  }

  lemma CountersStart(ops: seq<string>, consumers: nat, at: real, op: string)
    ensures Exported(Start(ops, consumers, at), op)
  {
    NoWindows(op);
    assert AllMetering([]) == [];
    ExportedStart(Start(ops, consumers, at), op);
  }

  lemma ShapedStart(ops: seq<string>, consumers: nat, at: real)
    requires NoDup(ops)
    ensures Shaped(Start(ops, consumers, at)) && AllSeriesSound(Start(ops, consumers, at))
    ensures CopiesOver(Start(ops, consumers, at))
  {
  }

  lemma InvStart(ops: seq<string>, consumers: nat, at: real)
    requires NoDup(ops)
    ensures Inv(Start(ops, consumers, at))
  {
    ShapedStart(ops, consumers, at);
    forall op | op in ops ensures OpSound(Start(ops, consumers, at), op) && Exported(Start(ops, consumers, at), op) {
      EmptyAt(ops, op);
      OpStart(Start(ops, consumers, at), op);
      CountersStart(ops, consumers, at, op);
    }
  }

  /** Every reachable state satisfies the invariant, whatever the interleaving. */
  lemma {:induction false} InvAlways(ops: seq<string>, consumers: nat, at: real, steps: seq<Step>)
    requires NoDup(ops) && After(Start(ops, consumers, at), steps).Some?
    ensures var s := After(Start(ops, consumers, at), steps).value; Inv(s) && s.ops == ops
  {
    if steps == [] {
      InvStart(ops, consumers, at);
    } else {
      InvAlways(ops, consumers, at, steps[..|steps| - 1]);
      InvStep(After(Start(ops, consumers, at), steps[..|steps| - 1]).value, steps[|steps| - 1]);
    }
  }
}
