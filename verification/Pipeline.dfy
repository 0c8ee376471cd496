/** The measurement pipeline as a transition system: any number of workers recording, any number of consumers
    draining, one step at a time and in any order. */

module Pipeline {
  import opened Lists
  import opened Options
  import opened Tally
  import opened Intervals

  /** Who drains: the summary loop's print, or Finalize. */
  datatype Kind = Summary | Final

  /** A worker between ops, between the two recordings of one op, or gone. */
  datatype Worker = Top | Observed(op: string, outcome: Outcome) | Stopped

  /** A consumer.  `mark` is how many recordings had completed when it was called. */
  datatype Thread =
    | Idle
    | Waiting(kind: Kind, now: real, mark: nat)
    | Inside
    | Between(mark: nat)
    | Returned(mark: nat, totals: Window, series: Series)

  /** The collector's lock, with what its holder has done so far. */
  datatype Lock =
    | Free
    | Lifting(thread: nat, kind: Kind, now: real, mark: nat, next: nat, merged: Window)
    | Folding(thread: nat, kind: Kind, now: real, mark: nat, merged: Window, pending: set<string>)
    | Leaving(thread: nat, kind: Kind, mark: nat)
    | Copying(thread: nat, mark: nat)
    | Copied(thread: nat, mark: nat, totals: Window, series: Series)

  /** The exported counters: ops_total by status, and the sample count of the latency histogram. */
  datatype Counters = Counters(ok: map<string, nat>, err: map<string, nat>, samples: map<string, nat>)

  /** `ordered` remembers whether every window recorded so far was no earlier than the boundary before it;
      `history` is every recording, in the order they took effect. */
  datatype State = State(
    ops: seq<string>,
    windows: seq<Window>,
    workers: seq<Worker>,
    counters: Counters,
    total: Window,
    series: Series,
    threads: seq<Thread>,
    lock: Lock,
    ordered: bool,
    history: seq<Event>)

  ghost function Empty(ops: seq<string>): Window {
    Zeros(SetOf(ops))
  }

  ghost function Count(m: map<string, nat>, op: string): nat {
    if op in m then m[op] else 0
  }

  ghost function Inc(m: map<string, nat>, op: string): map<string, nat> {
    m[op := Count(m, op) + 1]
  }

  /** The exported counters after an executed op: errors are counted but not observed. */
  ghost function Metered(c: Counters, op: string, o: Outcome): Counters {
    match o
    case Success(_) => c.(ok := Inc(c.ok, op), samples := Inc(c.samples, op))
    case Failed => c.(err := Inc(c.err, op))
  }

  ghost function Observe(w: Window, op: string, o: Outcome): Window
    requires op in w
  {
    w[op := Add(w[op], Unit(o))]
  }

  ghost function Merge(merged: Window, w: Window): Window {
    map op | op in merged :: Add(merged[op], At(w, op))
  }

  /** A total into which the ops of `done` have been folded. */
  ghost function PartlyMerged(total: Window, merged: Window, done: set<string>): Window {
    map op | op in total :: if op in done then Add(total[op], At(merged, op)) else total[op]
  }

  lemma PartlyMergedStep(total: Window, merged: Window, done: set<string>, op: string)
    requires op in total && op in merged && op !in done
    ensures var x := PartlyMerged(total, merged, done);
      op in x && x[op := Add(x[op], merged[op])] == PartlyMerged(total, merged, done + {op})
  {
  }

  lemma PartlyMergedSkip(total: Window, merged: Window, done: set<string>, op: string)
    requires op !in total
    ensures PartlyMerged(total, merged, done + {op}) == PartlyMerged(total, merged, done)
  {
  }

  lemma PartlyMergedEnds(total: Window, merged: Window)
    ensures PartlyMerged(total, merged, {}) == total
    ensures PartlyMerged(total, merged, total.Keys) == Merge(total, merged)
    ensures PartlyMerged(total, merged, merged.Keys) == Merge(total, merged)
  {
    forall op | op in total && op !in merged ensures total[op] == Add(total[op], At(merged, op)) {
      AddZero(total[op]);
    }
  }

  ghost function Idles(n: nat): (ts: seq<Thread>)
    ensures |ts| == n && forall i :: 0 <= i < n ==> ts[i] == Idle
  {
    if n == 0 then [] else Idles(n - 1) + [Idle]
  }

  ghost function Start(ops: seq<string>, consumers: nat, at: real): State {
    State(ops, [], [], Counters(map[], map[], map[]), Empty(ops), Series(at, at, []),
          Idles(consumers), Free, true, [])
  }

  datatype Step =
    | Register
    | Meter(w: nat, op: string, outcome: Outcome)
    | Record(w: nat)
    | Stop(w: nat)
    | Call(t: nat, kind: Kind, now: real)
    | Acquire(t: nat)
    | Lift
    | Lifted
    | Fold(op: string)
    | Close
    | Copy
    | Unlock

  ghost predicate Enabled(s: State, step: Step) {
    match step
    case Register => s.lock.Free?
    case Meter(w, op, _) => w < |s.workers| && s.workers[w].Top? && op in s.ops
    case Record(w) => w < |s.workers| && w < |s.windows| && s.workers[w].Observed? && s.workers[w].op in s.windows[w]
    case Stop(w) => w < |s.workers| && s.workers[w].Top?
    case Call(t, _, _) => t < |s.threads| && (s.threads[t].Idle? || s.threads[t].Returned?)
    case Acquire(t) => s.lock.Free? && t < |s.threads| && (s.threads[t].Waiting? || s.threads[t].Between?)
    case Lift => s.lock.Lifting? && s.lock.next < |s.windows|
    case Lifted => s.lock.Lifting? && s.lock.next == |s.windows|
    case Fold(op) => s.lock.Folding? && op in s.lock.pending && op in s.lock.merged && op in s.total
    case Close => s.lock.Folding? && s.lock.pending == {}
    case Copy => s.lock.Copying?
    case Unlock => (s.lock.Leaving? || s.lock.Copied?) && s.lock.thread < |s.threads|
  }

  ghost function Next(s: State, step: Step): State
    requires Enabled(s, step)
  {
    match step
    case Register => s.(windows := s.windows + [Empty(s.ops)], workers := s.workers + [Top])
    case Meter(w, op, o) => s.(workers := s.workers[w := Observed(op, o)], counters := Metered(s.counters, op, o))
    case Record(w) =>
      var ws := s.workers[w];
      s.(workers := s.workers[w := Top],
         windows := s.windows[w := Observe(s.windows[w], ws.op, ws.outcome)],
         history := s.history + [Event(w, ws.op, ws.outcome)])
    case Stop(w) => s.(workers := s.workers[w := Stopped])
    case Call(t, kind, now) => s.(threads := s.threads[t := Waiting(kind, now, |s.history|)])
    case Acquire(t) =>
      s.(threads := s.threads[t := Inside],
         lock := match s.threads[t]
                 case Waiting(kind, now, mark) => Lifting(t, kind, now, mark, 0, Empty(s.ops))
                 case Between(mark) => Copying(t, mark))
    case Lift =>
      s.(lock := s.lock.(next := s.lock.next + 1, merged := Merge(s.lock.merged, s.windows[s.lock.next])),
         windows := s.windows[s.lock.next := Empty(s.ops)])
    case Lifted =>
      var l := s.lock;
      s.(lock := Folding(l.thread, l.kind, l.now, l.mark, l.merged, l.merged.Keys))
    case Fold(op) =>
      s.(lock := s.lock.(pending := s.lock.pending - {op}),
         total := s.total[op := Add(s.total[op], s.lock.merged[op])])
    case Close =>
      var l := s.lock;
      s.(lock := Leaving(l.thread, l.kind, l.mark),
         series := Intervals.Record(s.ops, s.series, l.merged, l.now),
         ordered := s.ordered && (Quiet(l.merged) || l.now >= s.series.lastBoundary))
    case Copy => s.(lock := Copied(s.lock.thread, s.lock.mark, s.total, s.series))
    case Unlock =>
      s.(lock := Free,
         threads := s.threads[s.lock.thread :=
           match s.lock
           case Leaving(_, Summary, _) => Idle
           case Leaving(_, Final, mark) => Between(mark)
           case Copied(_, mark, totals, series) => Returned(mark, totals, series)])
  }

  // -------------------------------------------------------------- invariants

  /** Every map holds exactly the declared ops, and every accumulator one latency per op that did not fail. */
  ghost predicate Shaped(s: State) {
    && NoDup(s.ops)
    && |s.workers| == |s.windows|
    && (forall i :: 0 <= i < |s.windows| ==> Over(s.windows[i], s.ops))
    && (forall i :: 0 <= i < |s.workers| && s.workers[i].Observed? ==> s.workers[i].op in s.ops)
    && Over(s.total, s.ops)
    && (s.lock.Lifting? ==> Over(s.lock.merged, s.ops) && s.lock.next <= |s.windows|)
    && (s.lock.Folding? ==> Over(s.lock.merged, s.ops) && s.lock.pending <= s.lock.merged.Keys)
  }

  /** The run total of an op together with what the lock holder has lifted and not yet added to it. */
  ghost function Gathered(total: Window, l: Lock, op: string): Stat {
    match l
    case Lifting(_, _, _, _, _, merged) => Add(At(total, op), At(merged, op))
    case Folding(_, _, _, _, merged, pending) =>
      if op in pending then Add(At(total, op), At(merged, op)) else At(total, op)
    case _ => At(total, op)
  }

  /** What the lock holder has added to the total and not yet to the series. */
  ghost function Unwritten(l: Lock, op: string, err: bool): nat {
    if l.Folding? && op !in l.pending then Part(At(l.merged, op), err) else 0
  }

  /** The history of an op is the run total, plus what a drain holds, plus what is still with the workers. */
  ghost predicate Conserved(s: State, op: string) {
    TallyOf(s.history, op) == Add(Gathered(s.total, s.lock, op), SumWindows(s.windows, op))
  }

  /** The series accounts for every op and every error of the run total. */
  ghost predicate Matched(s: State, op: string, err: bool) {
    SeriesShare(s.series.intervals, op, err) + Unwritten(s.lock, op, err) == Part(At(s.total, op), err)
  }

  /** Everything recorded before `mark` has reached x. */
  ghost predicate Reaches(s: State, mark: nat, op: string, x: Stat) {
    mark <= |s.history| && Leq(TallyOf(s.history[..mark], op), x)
  }

  /** A report of Finalize for one op: all that was recorded before the call, nothing that was not recorded at
      all, and a series that sums to the totals.  The live total never falls behind it. */
  ghost predicate Reported(s: State, mark: nat, totals: Window, series: Series, op: string) {
    && Reaches(s, mark, op, At(totals, op))
    && Reaches(s, mark, op, At(s.total, op))
    && Leq(At(totals, op), TallyOf(s.history, op))
    && forall err :: SeriesShare(series.intervals, op, err) == Part(At(totals, op), err)
  }

  ghost predicate LockSound(s: State, op: string) {
    match s.lock
    case Free => true
    case Lifting(_, _, _, mark, next, _) =>
      && mark <= |s.history| && next <= |s.windows|
      && Leq(SumWindows(s.windows[..next], op), TallyOf(s.history[mark..], op))
    case Folding(_, _, _, mark, _, _) => Reaches(s, mark, op, Gathered(s.total, s.lock, op))
    case Leaving(_, _, mark) => Reaches(s, mark, op, At(s.total, op))
    case Copying(_, mark) => Reaches(s, mark, op, At(s.total, op))
    case Copied(_, mark, totals, series) => Reported(s, mark, totals, series, op)
  }

  ghost predicate ThreadSound(s: State, t: Thread, op: string) {
    match t
    case Idle => true
    case Waiting(_, _, mark) => mark <= |s.history|
    case Inside => true
    case Between(mark) => Reaches(s, mark, op, At(s.total, op))
    case Returned(mark, totals, series) => Reported(s, mark, totals, series, op)
  }

  ghost predicate SeriesSound(s: State, series: Series) {
    && AllConsistent(series, s.ops)
    && Tiled(series)
    && (s.ordered ==> Spaced(series))
  }

  ghost predicate AllSeriesSound(s: State) {
    && SeriesSound(s, s.series)
    && (s.lock.Copied? ==> SeriesSound(s, s.lock.series))
    && forall i :: 0 <= i < |s.threads| && s.threads[i].Returned? ==> SeriesSound(s, s.threads[i].series)
  }

  /** What is copied out covers exactly the declared ops. */
  ghost predicate CopiesOver(s: State) {
    && (s.lock.Copied? ==> Over(s.lock.totals, s.ops))
    && forall i :: 0 <= i < |s.threads| && s.threads[i].Returned? ==> Over(s.threads[i].totals, s.ops)
  }

  ghost predicate OpSound(s: State, op: string) {
    && Conserved(s, op)
    && (forall err :: Matched(s, op, err))
    && LockSound(s, op)
    && forall i :: 0 <= i < |s.threads| ==> ThreadSound(s, s.threads[i], op)
  }

  /** The op a worker has metered and not yet recorded. */
  ghost function Metering(w: Worker): Window {
    if w.Observed? then map[w.op := Unit(w.outcome)] else map[]
  }

  ghost function AllMetering(ws: seq<Worker>): seq<Window> {
    seq(|ws|, i requires 0 <= i < |ws| => Metering(ws[i]))
  }

  /** Exported counters agree with the history and the ops just about to join it. */
  ghost predicate Agree(c: Counters, op: string, x: Stat) {
    && Count(c.ok, op) == |x.obs|
    && Count(c.samples, op) == |x.obs|
    && Count(c.err, op) == x.errors
  }

  ghost predicate Exported(s: State, op: string) {
    Agree(s.counters, op, Add(TallyOf(s.history, op), SumWindows(AllMetering(s.workers), op)))
  }

  ghost predicate Inv(s: State) {
    && Shaped(s)
    && AllSeriesSound(s)
    && CopiesOver(s)
    && forall op :: op in s.ops ==> OpSound(s, op) && Exported(s, op)
  }

  // -------------------------------------------------------------------- runs

  /** The state after a sequence of steps, if each of them could be taken. */
  ghost function After(s: State, steps: seq<Step>): Option<State> {
    if steps == [] then Some(s)
    else
      match After(s, steps[..|steps| - 1])
      case None => None
      case Some(t) =>
        if Enabled(t, steps[|steps| - 1]) then Some(Next(t, steps[|steps| - 1])) else None
  }
}
