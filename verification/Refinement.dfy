/** The collector's drain and the transition system agree: a drain that nobody interrupts, its folds in any order,
    takes the machine to the state the collector's contract describes. */

module Refinement {
  import opened Lists
  import opened Options
  import opened Tally
  import opened Intervals
  import opened Pipeline
  import PipelineFacts
  import MainRun
  import opened Collector

  /** A thread gets the lock and lifts the first i windows. */
  ghost function Lifts(t: nat, i: nat): seq<Step> {
    if i == 0 then [Acquire(t)] else Lifts(t, i - 1) + [Step.Lift]
  }

  /** ... all n of them, and then folds the first j ops of the merge, in the order given. */
  ghost function Folds(t: nat, n: nat, order: seq<string>, j: nat): seq<Step>
    requires j <= |order|
  {
    if j == 0 then Lifts(t, n) + [Lifted] else Folds(t, n, order, j - 1) + [Step.Fold(order[j - 1])]
  }

  /** A drain from the lock's acquisition to its release. */
  ghost function WholeDrain(t: nat, n: nat, order: seq<string>): seq<Step> {
    Folds(t, n, order, |order|) + [Close] + [Unlock]
  }

  ghost predicate Ready(s: State, t: nat) {
    Shaped(s) && s.lock.Free? && t < |s.threads| && s.threads[t].Waiting?
  }

  /** A consumer that calls while the lock is free is ready to drain, for all that was recorded before the call. */
  lemma CallReady(s: State, t: nat, kind: Kind, now: real)
    requires Shaped(s) && s.lock.Free? && t < |s.threads| && s.threads[t].Idle?
    ensures Enabled(s, Call(t, kind, now)) && Ready(Next(s, Call(t, kind, now)), t)
    ensures Next(s, Call(t, kind, now)) == s.(threads := s.threads[t := Waiting(kind, now, |s.history|)])
  {
  }

  lemma {:induction false} AfterSnoc(s: State, steps: seq<Step>, step: Step)
    requires After(s, steps).Some? && Enabled(After(s, steps).value, step)
    ensures After(s, steps + [step]) == Some(Next(After(s, steps).value, step))
  {
    assert (steps + [step])[..|steps|] == steps;
  }

  ghost function LiftingState(s: State, t: nat, i: nat): State
    requires Ready(s, t) && i <= |s.windows|
  {
    var th := s.threads[t];
    s.(threads := s.threads[t := Inside],
       windows := PartlyCleared(s.ops, s.windows, i),
       lock := Lifting(t, th.kind, th.now, th.mark, i, MergedWith(s.ops, s.windows[..i])))
  }

  lemma {:induction false} AfterLifts(s: State, t: nat, i: nat)
    requires Ready(s, t) && i <= |s.windows|
    ensures After(s, Lifts(t, i)) == Some(LiftingState(s, t, i))
  {
    if i == 0 {
      PartlyClearedEnds(s.ops, s.windows);
      MergedWithEnds(s.ops, s.windows);
      assert After(s, []) == Some(s);
      AfterSnoc(s, [], Acquire(t));
      assert [] + [Acquire(t)] == Lifts(t, 0);
    } else {
      AfterLifts(s, t, i - 1);
      PartlyClearedStep(s.ops, s.windows, i - 1);
      MergedWithStep(s.ops, s.windows, i - 1);
      AfterSnoc(s, Lifts(t, i - 1), Step.Lift);
    }
  }

  lemma {:induction false} MergedOver(ops: seq<string>, ws: seq<Window>)
    ensures MergedWith(ops, ws).Keys == SetOf(ops)
  {
    if ws == [] {
    } else {
      MergedOver(ops, ws[..|ws| - 1]);
    }
  }

  ghost function FoldingState(s: State, t: nat, done: set<string>): State
    requires Ready(s, t)
  {
    var th := s.threads[t];
    var merged := MergedWith(s.ops, s.windows);
    s.(threads := s.threads[t := Inside],
       windows := Cleared(s.ops, |s.windows|),
       total := PartlyMerged(s.total, merged, done),
       lock := Folding(t, th.kind, th.now, th.mark, merged, merged.Keys - done))
  }

  lemma PendingStep(keys: set<string>, done: set<string>, op: string)
    ensures keys - done - {op} == keys - (done + {op})
  {
  }

  lemma FoldStep(s: State, t: nat, done: set<string>, op: string)
    requires Ready(s, t) && op in SetOf(s.ops) && op !in done
    ensures Enabled(FoldingState(s, t, done), Step.Fold(op))
    ensures Next(FoldingState(s, t, done), Step.Fold(op)) == FoldingState(s, t, done + {op})
  {
    MergedOver(s.ops, s.windows);
    hide MergedWith;
    hide PartlyMerged;
    var merged := MergedWith(s.ops, s.windows);
    assert op in s.total;
    PartlyMergedStep(s.total, merged, done, op);
    PendingStep(merged.Keys, done, op);
  }

  lemma LiftedStep(s: State, t: nat)
    requires Ready(s, t)
    ensures Enabled(LiftingState(s, t, |s.windows|), Lifted)
    ensures Next(LiftingState(s, t, |s.windows|), Lifted) == FoldingState(s, t, {})
  {
    PartlyClearedEnds(s.ops, s.windows);
    MergedWithEnds(s.ops, s.windows);
    hide MergedWith;
    hide PartlyMerged;
    var merged := MergedWith(s.ops, s.windows);
    PartlyMergedEnds(s.total, merged);
    assert merged.Keys - {} == merged.Keys;
  }

  lemma PrefixSet(order: seq<string>, j: nat)
    requires 0 < j <= |order| && NoDup(order)
    ensures SetOf(order[..j]) == SetOf(order[..j - 1]) + {order[j - 1]} && order[j - 1] !in SetOf(order[..j - 1])
  {
    assert order[..j] == order[..j - 1] + [order[j - 1]];
  }

  lemma {:induction false} AfterFolds(s: State, t: nat, order: seq<string>, j: nat)
    requires Ready(s, t) && NoDup(order) && SetOf(order) == SetOf(s.ops) && j <= |order|
    ensures After(s, Folds(t, |s.windows|, order, j)) == Some(FoldingState(s, t, SetOf(order[..j])))
  {
    hide MergedWith;
    hide FoldingState;
    hide LiftingState;
    var n := |s.windows|;
    if j == 0 {
      AfterLifts(s, t, n);
      LiftedStep(s, t);
      AfterSnoc(s, Lifts(t, n), Lifted);
      assert SetOf(order[..0]) == {};
    } else {
      AfterFolds(s, t, order, j - 1);
      PrefixSet(order, j);
      assert order[j - 1] in SetOf(order);
      FoldStep(s, t, SetOf(order[..j - 1]), order[j - 1]);
      AfterSnoc(s, Folds(t, n, order, j - 1), Step.Fold(order[j - 1]));
    }
  }

  /** A drain in one go, whatever the order of its folds, is the drain the collector's contract describes: windows
      emptied, their merge added to the total and recorded in the series, nothing else touched. */
  lemma {:induction false} DrainAgrees(s: State, t: nat, order: seq<string>)
    requires Ready(s, t) && NoDup(order) && SetOf(order) == SetOf(s.ops)
    ensures var merged := MergedWith(s.ops, s.windows);
      var end := After(s, WholeDrain(t, |s.windows|, order));
      && end.Some?
      && end.value == s.(
        windows := Cleared(s.ops, |s.windows|),
        total := Merge(s.total, merged),
        series := Intervals.Record(s.ops, s.series, merged, s.threads[t].now),
        ordered := end.value.ordered,
        threads := s.threads[t := if s.threads[t].kind.Final? then Between(s.threads[t].mark) else Idle])
  {
    var n := |s.windows|;
    AfterFolds(s, t, order, |order|);
    MergedOver(s.ops, s.windows);
    assert order[..|order|] == order;
    hide MergedWith;
    hide Intervals.Record;
    hide PartlyMerged;
    var merged := MergedWith(s.ops, s.windows);
    PartlyMergedEnds(s.total, merged);
    assert merged.Keys - SetOf(order) == {};
    AfterSnoc(s, Folds(t, n, order, |order|), Close);
    AfterSnoc(s, Folds(t, n, order, |order|) + [Close], Unlock);
  }

  /** Finalize in one go: the drain, then the copy under a second hold of the lock.  It returns the totals and the
      series of everything drained so far. */
  lemma {:induction false} FinalizeAgrees(s: State, t: nat, order: seq<string>)
    requires Ready(s, t) && s.threads[t].kind.Final? && NoDup(order) && SetOf(order) == SetOf(s.ops)
    ensures var merged := MergedWith(s.ops, s.windows);
      var end := After(s, WholeDrain(t, |s.windows|, order) + [Acquire(t)] + [Copy] + [Unlock]);
      && end.Some? && end.value.lock.Free? && t < |end.value.threads|
      && end.value.threads[t] == Returned(s.threads[t].mark, Merge(s.total, merged),
                                          Intervals.Record(s.ops, s.series, merged, s.threads[t].now))
  {
    hide MergedWith;
    hide Merge;
    hide Intervals.Record;
    var drain := WholeDrain(t, |s.windows|, order);
    DrainAgrees(s, t, order);
    AfterSnoc(s, drain, Acquire(t));
    AfterSnoc(s, drain + [Acquire(t)], Copy);
    AfterSnoc(s, drain + [Acquire(t)] + [Copy], Unlock);
  }

  // ------------------------------------------------- and main's order

  /** Neither a call nor a registration. */
  ghost predicate Inner(steps: seq<Step>) {
    forall i :: 0 <= i < |steps| ==> !steps[i].Call? && !steps[i].Register?
  }

  lemma {:induction false} LiftsInner(t: nat, n: nat)
    ensures Inner(Lifts(t, n))
  {
    if n > 0 {
      LiftsInner(t, n - 1);
    }
  }

  lemma {:induction false} FoldsInner(t: nat, n: nat, order: seq<string>, j: nat)
    requires j <= |order|
    ensures Inner(Folds(t, n, order, j))
  {
    if j == 0 {
      LiftsInner(t, n);
    } else {
      FoldsInner(t, n, order, j - 1);
    }
  }

  ghost function Doing(steps: seq<Step>): seq<MainRun.Move> {
    seq(|steps|, i requires 0 <= i < |steps| => MainRun.Do(steps[i]))
  }

  lemma {:induction false} DoingAgrees(r: MainRun.Run, steps: seq<Step>)
    requires Inner(steps) && After(r.s, steps).Some?
    ensures MainRun.Finished(r, Doing(steps)) == Some(r.(s := After(r.s, steps).value))
  {
    if steps == [] {
    } else {
      var n := |steps| - 1;
      DoingAgrees(r, steps[..n]);
      assert Doing(steps)[..n] == Doing(steps[..n]);
      hide Next;
    }
  }

  /** Main's order can always be completed: once the workers have returned and the lock is free, a call of Finalize that
      nobody disturbs returns, whatever happened before. */
  lemma {:induction false} MainFinishes(r: MainRun.Run, order: seq<string>)
    requires Shaped(r.s) && r.waited && r.s.lock.Free? && |r.s.threads| == 2 && r.s.threads[1].Idle?
    requires NoDup(order) && SetOf(order) == SetOf(r.s.ops)
    ensures var call := MainRun.Do(Call(1, Final, r.clock));
      && MainRun.Allowed(r, call)
      && var rest := Doing(WholeDrain(1, |r.s.windows|, order) + [Acquire(1)] + [Copy] + [Unlock]);
      && var end := MainRun.Finished(MainRun.Moved(r, call), rest);
      && end.Some? && MainRun.Done(end.value)
  {
    var q := MainRun.Moved(r, MainRun.Do(Call(1, Final, r.clock)));
    CallReady(r.s, 1, Final, r.clock);
    FinalizeAgrees(q.s, 1, order);
    FoldsInner(1, |r.s.windows|, order, |order|);
    var steps := WholeDrain(1, |r.s.windows|, order) + [Acquire(1)] + [Copy] + [Unlock];
    assert q.s.windows == r.s.windows;
    hide Folds;
    assert Inner(steps);
    DoingAgrees(q, steps);
    ThreadsStay(q.s, steps);
  }

  lemma {:induction false} ThreadsStay(s: State, steps: seq<Step>)
    requires After(s, steps).Some?
    ensures |After(s, steps).value.threads| == |s.threads|
  {
    if steps == [] {
    } else {
      ThreadsStay(s, steps[..|steps| - 1]);
      ThreadsStep(After(s, steps[..|steps| - 1]).value, steps[|steps| - 1]);
      hide Next;
      hide Enabled;
    }
  }

  lemma ThreadsStep(s: State, step: Step)
    requires Enabled(s, step)
    ensures |Next(s, step).threads| == |s.threads|
  {
  }

  /** One latency for every op that did not fail, in what a drain merges and in what it leaves as the total. */
  lemma {:induction false} MergeSampled(ops: seq<string>, ws: seq<Window>, total: Window)
    requires Over(total, ops) && forall w :: w in ws ==> Over(w, ops)
    ensures Over(MergedWith(ops, ws), ops) && Over(Merge(total, MergedWith(ops, ws)), ops)
  {
    if ws == [] {
      EmptyOver(ops);
    } else {
      var n := |ws| - 1;
      MergeSampled(ops, ws[..n], total);
      assert ws[n] in ws;
      PipelineFacts.MergeOver(MergedWith(ops, ws[..n]), ws[n], ops);
    }
    PipelineFacts.MergeOver(total, MergedWith(ops, ws), ops);
  }

  /** What a drain merges and adds to the total is the sum of all the windows, op by op. */
  lemma {:induction false} MergedIsSum(ops: seq<string>, ws: seq<Window>, total: Window, op: string)
    requires op in ops && total.Keys == SetOf(ops)
    ensures op in MergedWith(ops, ws) && MergedWith(ops, ws)[op] == SumWindows(ws, op)
    ensures var x, y, z := total[op], SumWindows(ws, op), At(Merge(total, MergedWith(ops, ws)), op);
      z.count == x.count + y.count && z.errors == x.errors + y.errors && z.obs == x.obs + y.obs
  {
    if ws == [] {
      PipelineFacts.EmptyAt(ops, op);
    } else {
      MergedIsSum(ops, ws[..|ws| - 1], total, op);
    }
  }

  lemma EmptyOver(ops: seq<string>)
    ensures Over(Empty(ops), ops)
  {
  }

  lemma {:induction false} NothingMerged(ops: seq<string>, n: nat)
    ensures MergedWith(ops, Cleared(ops, n)) == Empty(ops)
  {
    if n == 0 {
    } else {
      NothingMerged(ops, n - 1);
      assert Cleared(ops, n)[..n - 1] == Cleared(ops, n - 1);
      MainRun.MergeOfEmpty(ops);
    }
  }

  /** A drain of windows in which nothing was recorded since the last one changes neither the total nor the series:
      a second Finalize adds nothing. */
  lemma {:induction false} SecondDrainAddsNothing(ops: seq<string>, n: nat, total: Window, sr: Series, now: real)
    requires total.Keys == SetOf(ops)
    ensures Merge(total, MergedWith(ops, Cleared(ops, n))) == total
    ensures Intervals.Record(ops, sr, MergedWith(ops, Cleared(ops, n)), now) == sr
  {
    NothingMerged(ops, n);
    MainRun.EmptyQuiet(ops, Empty(ops).Keys);
    MergeNothing(ops, total);
    hide Merge;
    hide MergedWith;
    assert Quiet(Empty(ops));
  }

  lemma MergeNothing(ops: seq<string>, total: Window)
    ensures Merge(total, Empty(ops)) == total
  {
    forall op | op in total ensures Add(total[op], At(Empty(ops), op)) == total[op] {
      PipelineFacts.EmptyAt(ops, op);
      AddZero(total[op]);
    }
  }
}
