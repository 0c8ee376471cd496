/** What a call of Finalize is owed: everything recorded before it. */

module FinalizeCalls {
  import opened Options
  import opened Lists
  import opened Tally
  import opened Intervals
  import opened Pipeline
  import opened WholeRun

  /** The holder of the lock is a consumer inside its critical section. */
  ghost predicate HolderInside(s: State) {
    s.lock.Free? || (s.lock.thread < |s.threads| && s.threads[s.lock.thread].Inside?)
  }

  /** Whatever the consumer is doing, it goes back to a call made when m recordings had completed. */
  ghost predicate Carries(s: State, t: nat, m: nat) {
    t < |s.threads| &&
    match s.threads[t]
    case Idle => true
    case Waiting(_, _, mark) => mark == m
    case Inside => !s.lock.Free? && s.lock.thread == t && s.lock.mark == m
    case Between(mark) => mark == m
    case Returned(mark, _, _) => mark == m
  }

  lemma HolderStep(s: State, step: Step)
    requires HolderInside(s) && Enabled(s, step)
    ensures HolderInside(Next(s, step)) && s.history <= Next(s, step).history
  {
  }

  lemma CarriesStep(s: State, step: Step, t: nat, m: nat)
    requires HolderInside(s) && Enabled(s, step) && Carries(s, t, m) && !(step.Call? && step.t == t)
    ensures Carries(Next(s, step), t, m)
  {
  }

  lemma {:induction false} HolderAlways(ops: seq<string>, consumers: nat, at: real, steps: seq<Step>)
    requires After(Start(ops, consumers, at), steps).Some?
    ensures HolderInside(After(Start(ops, consumers, at), steps).value)
  {
    if steps == [] {
    } else {
      HolderAlways(ops, consumers, at, steps[..|steps| - 1]);
      HolderStep(After(Start(ops, consumers, at), steps[..|steps| - 1]).value, steps[|steps| - 1]);
    }
  }

  /** A run up to a call, the call, and the run after it until the consumer calls again. */
  ghost function CallRun(before: seq<Step>, t: nat, kind: Kind, now: real, later: seq<Step>): seq<Step> {
    before + [Call(t, kind, now)] + later
  }

  lemma {:induction false} CallKept(
      ops: seq<string>, consumers: nat, at: real,
      before: seq<Step>, t: nat, kind: Kind, now: real, later: seq<Step>)
    requires After(Start(ops, consumers, at), CallRun(before, t, kind, now, later)).Some?
    requires forall step :: step in later && step.Call? ==> step.t != t
    ensures After(Start(ops, consumers, at), before).Some?
    ensures var s := After(Start(ops, consumers, at), CallRun(before, t, kind, now, later)).value;
      var was := After(Start(ops, consumers, at), before).value;
      was.history <= s.history && HolderInside(s) && Carries(s, t, |was.history|)
  {
    var steps := CallRun(before, t, kind, now, later);
    var n := |steps| - 1;
    if later == [] {
      assert steps[..n] == before && steps[n] == Call(t, kind, now);
      HolderAlways(ops, consumers, at, before);
      HolderAlways(ops, consumers, at, steps);
    } else {
      var k := |later| - 1;
      assert steps[..n] == CallRun(before, t, kind, now, later[..k]) && steps[n] == later[k];
      CallKept(ops, consumers, at, before, t, kind, now, later[..k]);
      assert later[k] in later;
      var s := After(Start(ops, consumers, at), steps[..n]).value;
      HolderStep(s, steps[n]);
      CarriesStep(s, steps[n], t, |After(Start(ops, consumers, at), before).value.history|);
    }
  }

  /** In every interleaving: when a call of Finalize has returned, its totals hold everything that had been recorded
      when it was called and nothing that was never recorded, in counts, errors and latencies alike, and the series it
      returned sums to them. */
  lemma {:induction false} CallCovered(
      ops: seq<string>, consumers: nat, at: real,
      before: seq<Step>, t: nat, now: real, later: seq<Step>, op: string)
    requires NoDup(ops) && op in ops
    requires After(Start(ops, consumers, at), CallRun(before, t, Final, now, later)).Some?
    requires forall step :: step in later && step.Call? ==> step.t != t
    requires var s := After(Start(ops, consumers, at), CallRun(before, t, Final, now, later)).value;
      t < |s.threads| && s.threads[t].Returned?
    ensures After(Start(ops, consumers, at), before).Some?
    ensures var g := After(Start(ops, consumers, at), before).value.history;
      var s := After(Start(ops, consumers, at), CallRun(before, t, Final, now, later)).value;
      var x, h := At(s.threads[t].totals, op), s.history;
      && Times(g, op, false) <= x.count <= Times(h, op, false)
      && Times(g, op, true) <= x.errors <= Times(h, op, true)
      && multiset(Latencies(g, op)) <= x.obs <= multiset(Latencies(h, op))
      && SeriesShare(s.threads[t].series.intervals, op, false) == x.count
      && SeriesShare(s.threads[t].series.intervals, op, true) == x.errors
  {
    hide *;
    CallKept(ops, consumers, at, before, t, Final, now, later);
    FinalizeReports(ops, consumers, at, CallRun(before, t, Final, now, later), op, t);
    var s := After(Start(ops, consumers, at), CallRun(before, t, Final, now, later)).value;
    CarriedMark(s, t, After(Start(ops, consumers, at), before).value.history);
  }

  lemma CarriedMark(s: State, t: nat, g: seq<Event>)
    requires t < |s.threads| && s.threads[t].Returned? && Carries(s, t, |g|) && g <= s.history
    ensures s.threads[t].mark == |g| && s.history[..s.threads[t].mark] == g
  {
  }
}
