/** The series of every run is the outcome of its drains. */

module RunSeries {
  import opened Options
  import opened Lists
  import opened Tally
  import opened Intervals
  import opened Pipeline
  import opened PipelineFacts
  import opened Drains

  /** The merged windows that were recorded in the series, in order. */
  ghost function DrainsOf(s: State, steps: seq<Step>): seq<Drain> {
    if steps == [] then [] else
      var init := DrainsOf(s, steps[..|steps| - 1]);
      match After(s, steps[..|steps| - 1])
      case None => init
      case Some(t) =>
        if steps[|steps| - 1].Close? && t.lock.Folding? then init + [Drain(t.lock.merged, t.lock.now)] else init
  }

  /** A series as it was after some of the drains. */
  ghost predicate Once(series: Series, ops: seq<string>, at: real, drains: seq<Drain>) {
    exists k: nat :: k <= |drains| && series == SeriesAfter(ops, at, drains[..k])
  }

  ghost predicate SeriesKnown(s: State, ops: seq<string>, at: real, drains: seq<Drain>) {
    && AllOver(ops, drains)
    && s.series == SeriesAfter(ops, at, drains)
    && (s.lock.Copied? ==> Once(s.lock.series, ops, at, drains))
    && forall i :: 0 <= i < |s.threads| && s.threads[i].Returned? ==> Once(s.threads[i].series, ops, at, drains)
  }

  lemma {:induction false} OnceMore(series: Series, ops: seq<string>, at: real, drains: seq<Drain>, d: Drain)
    requires Once(series, ops, at, drains)
    ensures Once(series, ops, at, drains + [d])
  {
    var k: nat :| k <= |drains| && series == SeriesAfter(ops, at, drains[..k]);
    assert (drains + [d])[..k] == drains[..k];
  }

  lemma {:induction false} Now(ops: seq<string>, at: real, drains: seq<Drain>)
    ensures Once(SeriesAfter(ops, at, drains), ops, at, drains)
  {
    assert drains[..|drains|] == drains;
  }

  lemma {:induction false} CloseKnown(s: State, ops: seq<string>, at: real, drains: seq<Drain>)
    requires Shaped(s) && s.ops == ops && Enabled(s, Close) && SeriesKnown(s, ops, at, drains)
    ensures SeriesKnown(Next(s, Close), ops, at, drains + [Drain(s.lock.merged, s.lock.now)])
  {
    var d := Drain(s.lock.merged, s.lock.now);
    assert (drains + [d])[..|drains|] == drains;
    assert d.merged.Keys == SetOf(ops);
    var t := Next(s, Close);
    forall i | 0 <= i < |t.threads| && t.threads[i].Returned? ensures Once(t.threads[i].series, ops, at, drains + [d]) {
      OnceMore(s.threads[i].series, ops, at, drains, d);
    }
  }

  lemma {:induction false} OtherKnown(s: State, step: Step, ops: seq<string>, at: real, drains: seq<Drain>)
    requires Enabled(s, step) && !step.Close? && SeriesKnown(s, ops, at, drains)
    ensures SeriesKnown(Next(s, step), ops, at, drains)
  {
    Now(ops, at, drains);
    hide Once;
    hide SeriesAfter;
    hide AllOver;
  }

  /** In every run the series is the outcome of all drains so far, and every series that Finalize returned is the
      outcome of all drains up to some moment. */
  lemma {:induction false} SeriesOfDrains(ops: seq<string>, consumers: nat, at: real, steps: seq<Step>)
    requires NoDup(ops) && After(Start(ops, consumers, at), steps).Some?
    ensures var s := Start(ops, consumers, at);
      SeriesKnown(After(s, steps).value, ops, at, DrainsOf(s, steps))
  {
    var s := Start(ops, consumers, at);
    if steps == [] {
    } else {
      var init, step := steps[..|steps| - 1], steps[|steps| - 1];
      SeriesOfDrains(ops, consumers, at, init);
      InvAlways(ops, consumers, at, init);
      var t := After(s, init).value;
      hide SeriesKnown;
      hide Next;
      if step.Close? {
        CloseKnown(t, ops, at, DrainsOf(s, init));
      } else {
        OtherKnown(t, step, ops, at, DrainsOf(s, init));
      }
    }
  }

  /** In every run every entry of every interval carries the percentiles of one drained window: of the drains its
      interval is made of, the first in which its op saw traffic. */
  lemma {:induction false} PercentilesInRuns(ops: seq<string>, consumers: nat, at: real, steps: seq<Step>)
    requires NoDup(ops) && After(Start(ops, consumers, at), steps).Some?
    ensures var s := Start(ops, consumers, at); var drains := DrainsOf(s, steps);
      Traced(After(s, steps).value.series.intervals, ops, drains, Spans(ops, at, drains))
  {
    SeriesOfDrains(ops, consumers, at, steps);
    PercentilesOfFirst(ops, at, DrainsOf(Start(ops, consumers, at), steps));
  }
}
