/** A worker: what it executes, what of that it records, and what it leaves out. */

module Worker {
  import opened Lists
  import opened Tally
  import opened Intervals
  import opened Pipeline
  import opened Store
  import opened Tables
  import opened Weights

  /** What executing an op returned; an error may wrap several of the errors the worker asks about. */
  datatype Result = Done | Error(skipped: bool, canceled: bool, deadline: bool)

  /** One turn of the loop: was the run over at its top, the roll, how long the op took and what it returned, was the
      run over when that was looked at, and did the pause after it end the worker. */
  datatype Turn = Turn(stopped: bool, roll: nat, us: int, result: Result, over: bool, leaves: bool)

  /** A run that is over stays over. */
  ghost predicate Timely(turns: seq<Turn>) {
    forall i, j :: 0 <= i < j < |turns| && turns[i].over ==> turns[j].stopped
  }

  predicate IsShutdownCancellation(over: bool, r: Result) {
    over && r.Error? && (r.canceled || r.deadline)
  }

  predicate IsSkip(t: Turn) {
    t.result.Error? && t.result.skipped
  }

  predicate IsDropped(t: Turn) {
    !IsSkip(t) && IsShutdownCancellation(t.over, t.result)
  }

  predicate IsKept(t: Turn) {
    !IsSkip(t) && !IsDropped(t)
  }

  function OutcomeOf(t: Turn): Outcome {
    if t.result.Done? then Success(t.us) else Failed
  }

  function OpOf(t: Turn, ops: seq<WeightedOp>): string
    requires ops != []
  {
    ops[SelectFrom(t.roll, ops, 0)].name
  }

  // ---------------------------------------------------------- specification

  /** The window after the turns, the exported counters, and the counter of skips. */
  ghost function Windowed(w: Window, turns: seq<Turn>, ops: seq<WeightedOp>): (r: Window)
    requires ops != [] && forall o :: o in ops ==> o.name in w
    ensures r.Keys == w.Keys
  {
    if turns == [] then w else
      var init, t := Windowed(w, turns[..|turns| - 1], ops), turns[|turns| - 1];
      if IsKept(t) then Observe(init, OpOf(t, ops), OutcomeOf(t)) else init
  }

  ghost function MeteredAll(c: Counters, turns: seq<Turn>, ops: seq<WeightedOp>): Counters
    requires ops != []
  {
    if turns == [] then c else
      var init, t := MeteredAll(c, turns[..|turns| - 1], ops), turns[|turns| - 1];
      if IsKept(t) then Metered(init, OpOf(t, ops), OutcomeOf(t)) else init
  }

  ghost function SkippedAll(m: map<string, nat>, turns: seq<Turn>, ops: seq<WeightedOp>): map<string, nat>
    requires ops != []
  {
    if turns == [] then m else
      var init, t := SkippedAll(m, turns[..|turns| - 1], ops), turns[|turns| - 1];
      if IsSkip(t) then Inc(init, OpOf(t, ops)) else init
  }

  datatype Fate = Kept | Skipped | Dropped

  function FateOf(t: Turn): Fate {
    if IsSkip(t) then Skipped else if IsDropped(t) then Dropped else Kept
  }

  /** How many turns that chose the op met a fate. */
  ghost function Tallied(turns: seq<Turn>, ops: seq<WeightedOp>, op: string, fate: Fate): nat
    requires ops != []
  {
    if turns == [] then 0 else
      var t := turns[|turns| - 1];
      Tallied(turns[..|turns| - 1], ops, op, fate) + if OpOf(t, ops) == op && FateOf(t) == fate then 1 else 0
  }

  ghost function Executed(turns: seq<Turn>, ops: seq<WeightedOp>, op: string): nat
    requires ops != []
  {
    if turns == [] then 0 else
      Executed(turns[..|turns| - 1], ops, op) + if OpOf(turns[|turns| - 1], ops) == op then 1 else 0
  }

  // The same, written out on the fields of a turn.  An error is a skip if it says so; otherwise it is noise if the run
  // was over when it was looked at and it wraps a cancellation or an expired deadline; otherwise it is a failure.

  ghost function Failures(turns: seq<Turn>, ops: seq<WeightedOp>, op: string): nat
    requires ops != []
  {
    if turns == [] then 0 else
      var t := turns[|turns| - 1];
      Failures(turns[..|turns| - 1], ops, op) +
        if OpOf(t, ops) == op && t.result.Error? && !t.result.skipped &&
           !(t.over && (t.result.canceled || t.result.deadline)) then 1 else 0
  }

  ghost function Skips(turns: seq<Turn>, ops: seq<WeightedOp>, op: string): nat
    requires ops != []
  {
    if turns == [] then 0 else
      var t := turns[|turns| - 1];
      Skips(turns[..|turns| - 1], ops, op) +
        if OpOf(t, ops) == op && t.result.Error? && t.result.skipped then 1 else 0
  }

  ghost function Noise(turns: seq<Turn>, ops: seq<WeightedOp>, op: string): nat
    requires ops != []
  {
    if turns == [] then 0 else
      var t := turns[|turns| - 1];
      Noise(turns[..|turns| - 1], ops, op) +
        if OpOf(t, ops) == op && t.result.Error? && !t.result.skipped &&
           t.over && (t.result.canceled || t.result.deadline) then 1 else 0
  }

  /** The latencies of the turns that returned no error. */
  ghost function Successes(turns: seq<Turn>, ops: seq<WeightedOp>, op: string): seq<int>
    requires ops != []
  {
    if turns == [] then [] else
      var t := turns[|turns| - 1];
      Successes(turns[..|turns| - 1], ops, op) +
        if OpOf(t, ops) == op && t.result.Done? then [if t.us < 0 then 0 else t.us] else []
  }

  lemma {:induction false} FatesByFields(turns: seq<Turn>, ops: seq<WeightedOp>, op: string)
    requires ops != []
    ensures Tallied(turns, ops, op, Skipped) == Skips(turns, ops, op)
    ensures Tallied(turns, ops, op, Dropped) == Noise(turns, ops, op)
    ensures Tallied(turns, ops, op, Kept) == Failures(turns, ops, op) + |Successes(turns, ops, op)|
  {
    if turns == [] {
    } else {
      hide SelectFrom;
      FatesByFields(turns[..|turns| - 1], ops, op);
    }
  }

  lemma {:induction false} WindowByFields(turns: seq<Turn>, ops: seq<WeightedOp>, op: string, w: Window)
    requires ops != [] && (forall o :: o in ops ==> o.name in w) && op in w
    ensures var now := Windowed(w, turns, ops)[op];
      && now.errors == w[op].errors + Failures(turns, ops, op)
      && now.obs == w[op].obs + multiset(Successes(turns, ops, op))
  {
    if turns == [] {
    } else {
      var init, t := turns[..|turns| - 1], turns[|turns| - 1];
      WindowByFields(init, ops, op, w);
      TurnByFields(Windowed(w, init, ops), t, OpOf(t, ops), op);
      var us := if t.us < 0 then 0 else t.us;
      assert multiset(Successes(init, ops, op) + [us]) == multiset(Successes(init, ops, op)) + multiset{us};
      hide OpOf;
      hide IsKept;
      hide Observe;
    }
  }

  lemma TurnByFields(w: Window, t: Turn, name: string, op: string)
    requires name in w && op in w
    ensures var now := if IsKept(t) then Observe(w, name, OutcomeOf(t)) else w;
      op in now &&
      if name != op then now[op] == w[op]
      else if t.result.Done? then
        now[op].errors == w[op].errors && now[op].obs == w[op].obs + multiset{if t.us < 0 then 0 else t.us}
      else
        && now[op].obs == w[op].obs
        && now[op].errors == w[op].errors +
          if t.result.skipped || (t.over && (t.result.canceled || t.result.deadline)) then 0 else 1
  {
  }

  /** With weights summing to a hundred, a turn's op is the one in whose share of the hundred its roll lies. */
  lemma {:induction false} OpByWeight(t: Turn, ops: seq<WeightedOp>, k: nat)
    requires NonNegative(ops) && Weights.Sum(ops) == 100 && t.roll < 100
    requires k < |ops| && Weights.Sum(ops[..k]) <= t.roll < Weights.Sum(ops[..k]) + ops[k].weight
    ensures OpOf(t, ops) == ops[k].name
  {
    ChosenByWeight(t.roll, ops, k);
  }

  /** Only the last turn may be dropped. */
  ghost predicate DropsLast(turns: seq<Turn>) {
    forall i :: 0 <= i < |turns| && IsDropped(turns[i]) ==> i == |turns| - 1
  }

  lemma {:induction false} NothingDropped(turns: seq<Turn>, ops: seq<WeightedOp>, op: string)
    requires ops != [] && forall t :: t in turns ==> !IsDropped(t)
    ensures Tallied(turns, ops, op, Dropped) == 0
  {
    if turns == [] {
    } else {
      NothingDropped(turns[..|turns| - 1], ops, op);
      assert turns[|turns| - 1] in turns;
    }
  }

  lemma {:induction false} DroppedOnce(turns: seq<Turn>, ops: seq<WeightedOp>, op: string)
    requires ops != [] && DropsLast(turns)
    ensures Tallied(turns, ops, op, Dropped) <= 1
  {
    if turns != [] {
      var init := turns[..|turns| - 1];
      forall t | t in init ensures !IsDropped(t) {
        var i :| 0 <= i < |init| && init[i] == t;
        assert turns[i] == t;
      }
      NothingDropped(init, ops, op);
    }
  }

  lemma {:induction false} FatesAddUp(turns: seq<Turn>, ops: seq<WeightedOp>, op: string)
    requires ops != []
    ensures Executed(turns, ops, op) ==
      Tallied(turns, ops, op, Kept) + Tallied(turns, ops, op, Skipped) + Tallied(turns, ops, op, Dropped)
  {
    if turns == [] {
    } else {
      FatesAddUp(turns[..|turns| - 1], ops, op);
    }
  }

  lemma {:induction false} WindowBooks(turns: seq<Turn>, ops: seq<WeightedOp>, op: string, w: Window)
    requires ops != [] && (forall o :: o in ops ==> o.name in w) && op in w && Sampled(w[op])
    ensures var now := Windowed(w, turns, ops)[op];
      now.count == w[op].count + Tallied(turns, ops, op, Kept) && Sampled(now)
  {
    if turns == [] {
    } else {
      WindowBooks(turns[..|turns| - 1], ops, op, w);
    }
  }

  lemma {:induction false} SkipBooks(turns: seq<Turn>, ops: seq<WeightedOp>, op: string, m: map<string, nat>)
    requires ops != []
    ensures Count(SkippedAll(m, turns, ops), op) == Count(m, op) + Tallied(turns, ops, op, Skipped)
  {
    if turns == [] {
    } else {
      SkipBooks(turns[..|turns| - 1], ops, op, m);
    }
  }

  /** The exported counters of an op moved from c to k as its accumulator moved from x to y. */
  ghost predicate MovedAlike(c: Counters, k: Counters, op: string, x: Stat, y: Stat) {
    && Count(k.err, op) - Count(c.err, op) == y.errors - x.errors
    && Count(k.ok, op) - Count(c.ok, op) == |y.obs| - |x.obs|
    && Count(k.samples, op) - Count(c.samples, op) == |y.obs| - |x.obs|
  }

  lemma MeteredAlike(c: Counters, k: Counters, op: string, x: Stat, y: Stat, other: string, o: Outcome)
    requires MovedAlike(c, k, op, x, y)
    ensures MovedAlike(c, Metered(k, other, o), op, x, if other == op then Add(y, Unit(o)) else y)
  {
  }

  lemma {:induction false} CounterBooks(turns: seq<Turn>, ops: seq<WeightedOp>, op: string, w: Window, c: Counters)
    requires ops != [] && (forall o :: o in ops ==> o.name in w) && op in w
    ensures MovedAlike(c, MeteredAll(c, turns, ops), op, w[op], Windowed(w, turns, ops)[op])
  {
    if turns == [] {
    } else {
      var init, t := turns[..|turns| - 1], turns[|turns| - 1];
      CounterBooks(init, ops, op, w, c);
      MeteredAlike(c, MeteredAll(c, init, ops), op, w[op], Windowed(w, init, ops)[op], OpOf(t, ops), OutcomeOf(t));
    }
  }

  /** The books of a worker, op by op: everything executed was recorded, skipped or dropped, at most one op was
      dropped; the window counts what was recorded, one latency for each success, and the exported counters moved
      with it. */
  lemma {:induction false} WorkerBooks(
      turns: seq<Turn>, ops: seq<WeightedOp>, op: string, w: Window, c: Counters, m: map<string, nat>)
    requires ops != [] && (forall o :: o in ops ==> o.name in w) && op in w && Sampled(w[op]) && DropsLast(turns)
    ensures Executed(turns, ops, op) ==
      Tallied(turns, ops, op, Kept) + Tallied(turns, ops, op, Skipped) + Tallied(turns, ops, op, Dropped)
    ensures Tallied(turns, ops, op, Dropped) <= 1
    ensures Windowed(w, turns, ops)[op].count == w[op].count + Tallied(turns, ops, op, Kept)
    ensures Sampled(Windowed(w, turns, ops)[op])
    ensures Count(SkippedAll(m, turns, ops), op) == Count(m, op) + Tallied(turns, ops, op, Skipped)
    ensures MovedAlike(c, MeteredAll(c, turns, ops), op, w[op], Windowed(w, turns, ops)[op])
    ensures Executed(turns, ops, op) ==
      |Successes(turns, ops, op)| + Failures(turns, ops, op) + Skips(turns, ops, op) + Noise(turns, ops, op)
    ensures Noise(turns, ops, op) <= 1
    ensures var now := Windowed(w, turns, ops)[op];
      && now.count == w[op].count + |Successes(turns, ops, op)| + Failures(turns, ops, op)
      && now.errors == w[op].errors + Failures(turns, ops, op)
      && now.obs == w[op].obs + multiset(Successes(turns, ops, op))
    ensures var k := MeteredAll(c, turns, ops);
      && Count(k.ok, op) == Count(c.ok, op) + |Successes(turns, ops, op)|
      && Count(k.samples, op) == Count(c.samples, op) + |Successes(turns, ops, op)|
      && Count(k.err, op) == Count(c.err, op) + Failures(turns, ops, op)
    ensures Count(SkippedAll(m, turns, ops), op) == Count(m, op) + Skips(turns, ops, op)
  {
    FatesByFields(turns, ops, op);
    WindowByFields(turns, ops, op, w);
    assert |multiset(Successes(turns, ops, op))| == |Successes(turns, ops, op)|;
    hide SelectFrom;
    FatesAddUp(turns, ops, op);
    DroppedOnce(turns, ops, op);
    WindowBooks(turns, ops, op, w);
    SkipBooks(turns, ops, op, m);
    CounterBooks(turns, ops, op, w, c);
  }

  // ---------------------------------------------------------------- the code

  /** The exported counters as the process holds them. */
  class Meters {
    var ok: map<string, nat>
    var err: map<string, nat>
    var samples: map<string, nat>
    var skipped: map<string, nat>

    ghost function Counters(): Counters
      reads this
    {
      Pipeline.Counters(ok, err, samples)
    }

    constructor ()
      ensures Counters() == Pipeline.Counters(map[], map[], map[]) && skipped == map[]
    {
      ok, err, samples, skipped := map[], map[], map[], map[];
    }

    /** Counts an executed op, and observes its latency if it succeeded. */
    method RecordOp(op: string, o: Outcome)
      modifies this
      ensures Counters() == Metered(old(Counters()), op, o) && skipped == old(skipped)
      ensures o.Failed? ==> ok == old(ok) && samples == old(samples) && Count(err, op) == old(Count(err, op)) + 1
      ensures o.Success? ==>
        err == old(err) && Count(ok, op) == old(Count(ok, op)) + 1 && Count(samples, op) == old(Count(samples, op)) + 1
    {
      if o.Failed? {
        err := Bump(err, op);
        return;
      }
      ok := Bump(ok, op);
      samples := Bump(samples, op);
    }

    method RecordSkip(op: string)
      modifies this`skipped
      ensures skipped == Inc(old(skipped), op) && Count(skipped, op) == old(Count(skipped, op)) + 1
    {
      skipped := Bump(skipped, op);
    }
  }

  function Bump(m: map<string, nat>, op: string): (r: map<string, nat>)
    ensures r == Inc(m, op)
  {
    m[op := (if op in m then m[op] else 0) + 1]
  }

  lemma {:induction false} NoTurns(
      turns: seq<Turn>, ops: seq<WeightedOp>, w: Window, c: Counters, m: map<string, nat>)
    requires ops != [] && forall o :: o in ops ==> o.name in w
    ensures Windowed(w, turns[..0], ops) == w && MeteredAll(c, turns[..0], ops) == c
    ensures SkippedAll(m, turns[..0], ops) == m && DropsLast(turns[..0])
  {
  }

  /** One turn more. */
  lemma {:induction false} TurnNext(
      turns: seq<Turn>, i: nat, ops: seq<WeightedOp>, w: Window, c: Counters, m: map<string, nat>)
    requires i < |turns| && ops != [] && forall o :: o in ops ==> o.name in w
    ensures var t, op := turns[i], ops[SelectFrom(turns[i].roll, ops, 0)].name;
      var v, k, l := Windowed(w, turns[..i], ops), MeteredAll(c, turns[..i], ops), SkippedAll(m, turns[..i], ops);
      && op in w
      && Windowed(w, turns[..i + 1], ops) == (if IsKept(t) then Observe(v, op, OutcomeOf(t)) else v)
      && MeteredAll(c, turns[..i + 1], ops) == (if IsKept(t) then Metered(k, op, OutcomeOf(t)) else k)
      && SkippedAll(m, turns[..i + 1], ops) == (if IsSkip(t) then Inc(l, op) else l)
  {
    assert turns[..i + 1][..i] == turns[..i];
    hide IsKept;
    hide IsSkip;
    hide Metered;
    hide Observe;
    hide SelectFrom;
  }

  /** A turn at whose top the run is not over follows none that was dropped. */
  lemma DropsNext(turns: seq<Turn>, i: nat)
    requires Timely(turns) && i < |turns| && DropsLast(turns[..i]) && !turns[i].stopped
    ensures DropsLast(turns[..i + 1])
  {
  }

  /** The fate of a turn, on its own fields. */
  lemma FateFields(t: Turn)
    ensures IsSkip(t) <==> t.result.Error? && t.result.skipped
    ensures IsDropped(t) <==>
      t.result.Error? && !t.result.skipped && t.over && (t.result.canceled || t.result.deadline)
    ensures IsKept(t) <==>
      t.result.Done? || (!t.result.skipped && !(t.over && (t.result.canceled || t.result.deadline)))
    ensures IsShutdownCancellation(t.over, t.result) <==>
      t.over && t.result.Error? && (t.result.canceled || t.result.deadline)
    ensures OutcomeOf(t) == if t.result.Done? then Success(t.us) else Failed
  {
  }

  /** What is done with an executed op. */
  method Account(t: Turn, op: string, ws: StatsTable, meters: Meters)
    requires ws.Valid() && op in ws.cells
    modifies ws, ws.owned, ws.maps, meters
    ensures ws.Valid() && fresh(ws.maps - old(ws.maps))
    ensures ws.Abs() == if IsKept(t) then Observe(old(ws.Abs()), op, OutcomeOf(t)) else old(ws.Abs())
    ensures meters.Counters() ==
      if IsKept(t) then Metered(old(meters.Counters()), op, OutcomeOf(t)) else old(meters.Counters())
    ensures meters.skipped == if IsSkip(t) then Inc(old(meters.skipped), op) else old(meters.skipped)
    ensures t.result.Done? ==>
      && ws.cells[op].count == old(ws.cells[op].count) + 1 && ws.cells[op].errors == old(ws.cells[op].errors)
      && ws.cells[op].obs == old(ws.cells[op].obs) + multiset{if t.us < 0 then 0 else t.us}
      && Count(meters.ok, op) == old(Count(meters.ok, op)) + 1 && meters.err == old(meters.err)
      && Count(meters.samples, op) == old(Count(meters.samples, op)) + 1 && meters.skipped == old(meters.skipped)
    ensures t.result.Error? && t.result.skipped ==>
      && unchanged(ws.cells[op]) && unchanged(meters`ok) && unchanged(meters`err) && unchanged(meters`samples)
      && Count(meters.skipped, op) == old(Count(meters.skipped, op)) + 1
    ensures t.result.Error? && !t.result.skipped && t.over && (t.result.canceled || t.result.deadline) ==>
      unchanged(ws.cells[op]) && unchanged(meters)
    ensures t.result.Error? && !t.result.skipped && !(t.over && (t.result.canceled || t.result.deadline)) ==>
      && ws.cells[op].count == old(ws.cells[op].count) + 1 && ws.cells[op].obs == old(ws.cells[op].obs)
      && ws.cells[op].errors == old(ws.cells[op].errors) + 1
      && Count(meters.err, op) == old(Count(meters.err, op)) + 1
      && unchanged(meters`ok) && unchanged(meters`samples) && unchanged(meters`skipped)
  {
    hide StatsTable.Valid;
    hide StatsTable.Abs;
    hide Observe;
    hide Metered;
    hide Inc;
    FateFields(t);
    hide IsSkip;
    hide IsKept;
    hide IsDropped;
    hide IsShutdownCancellation;
    hide OutcomeOf;
    ws.AbsOver();
    if IsSkip(t) {
      meters.RecordSkip(op);
      TableKept(ws);
    } else if !IsShutdownCancellation(t.over, t.result) {
      meters.RecordOp(op, OutcomeOf(t));
      TableKept(ws);
      ws.Record(op, OutcomeOf(t));
    }
  }

  /** The worker's loop, for as many turns as the world has to offer.  n is the number of turns it took. */
  method RunWorker(turns: seq<Turn>, ops: seq<WeightedOp>, thinks: bool, ws: StatsTable, meters: Meters)
    returns (n: nat)
    requires Timely(turns) && ops != [] && ws.Valid()
    requires forall o :: o in ops ==> o.name in ws.cells && o.name in ws.Abs()
    modifies ws, ws.owned, ws.maps, meters
    ensures ws.Valid() && n <= |turns| && DropsLast(turns[..n])
    ensures n < |turns| ==> turns[n].stopped || (n > 0 && thinks && turns[n - 1].leaves)
    ensures forall i :: 0 <= i < n ==> !turns[i].stopped && (thinks && turns[i].leaves ==> i == n - 1)
    ensures ws.Abs() == Windowed(old(ws.Abs()), turns[..n], ops)
    ensures meters.Counters() == MeteredAll(old(meters.Counters()), turns[..n], ops)
    ensures meters.skipped == SkippedAll(old(meters.skipped), turns[..n], ops)
  {
    hide *;
    NoTurns(turns, ops, ws.Abs(), meters.Counters(), meters.skipped);
    n := 0;
    while n < |turns|
      invariant n <= |turns| && DropsLast(turns[..n])
      invariant forall i :: 0 <= i < n ==> !turns[i].stopped && !(thinks && turns[i].leaves)
      invariant ws.Valid() && fresh(ws.maps - old(ws.maps))
      invariant ws.Abs() == Windowed(old(ws.Abs()), turns[..n], ops)
      invariant meters.Counters() == MeteredAll(old(meters.Counters()), turns[..n], ops)
      invariant meters.skipped == SkippedAll(old(meters.skipped), turns[..n], ops)
    {
      var t := turns[n];
      if t.stopped {
        return;
      }
      TurnNext(turns, n, ops, old(ws.Abs()), old(meters.Counters()), old(meters.skipped));
      DropsNext(turns, n);
      var op := SelectOp(t.roll, ops);
      Account(t, op, ws, meters);
      n := n + 1;
      if thinks && t.leaves {
        return;
      }
    }
  }

  // -------------------------------------------------- and the transition system

  /** A kept turn is two steps of the machine, the exported counters first. */
  lemma TurnAgrees(s: State, w: nat, op: string, o: Outcome)
    requires Shaped(s) && w < |s.workers| && s.workers[w].Top? && op in s.ops
    ensures Enabled(s, Meter(w, op, o)) && Enabled(Next(s, Meter(w, op, o)), Step.Record(w))
    ensures op in s.windows[w] &&
      Next(Next(s, Meter(w, op, o)), Step.Record(w)) == s.(
        windows := s.windows[w := Observe(s.windows[w], op, o)],
        counters := Metered(s.counters, op, o),
        history := s.history + [Event(w, op, o)])
  {
    assert op in SetOf(s.ops);
    assert s.workers[w := Observed(op, o)][w := Top] == s.workers;
  }
}
