/** Replicas migrating one database: a try-lock, statements run by its holder, and polls by everybody else. */

module Migration {
  import opened Lists
  import opened Options
  import opened Catalogues

  datatype Role = Leader | Follower

  /** Where a replica is.  A leader is about to run the next table or index statement; a follower that found every
      table is about to ask for the sentinel. */
  datatype Phase =
    | Starting
    | Tables(next: nat)
    | Indexes(next: nat)
    | Unlocking(ok: bool)
    | Waiting
    | Asking
    | Returned(ok: bool, role: Role)

  /** `live` says whether the replica's context has not been cancelled, `indexing` how it is configured. */
  datatype Replica = Replica(phase: Phase, live: bool, indexing: bool)

  datatype State = State(
    schema: Schema,
    replicas: seq<Replica>,
    lock: Option<nat>,
    tables: set<string>,
    indexes: set<string>)

  datatype Step =
    | TryLock(r: nat)
    | FailToTry(r: nat)
    | RunTable(r: nat, reply: Reply)
    | TablesDone(r: nat)
    | RunIndex(r: nat, reply: Reply)
    | IndexesDone(r: nat)
    | Unlock(r: nat)
    | Poll(r: nat, rows: Rows)
    | Ask(r: nat, seen: bool)
    | Leave(r: nat)
    | Cancel(r: nat)
    | Exit(r: nat)

  /** Answers are about the catalogue as it is, but may leave things out. */
  ghost predicate Truthful(s: State, rows: Rows) {
    forall t :: Found(rows, t) ==> t in s.tables
  }

  ghost predicate Enabled(s: State, step: Step) {
    step.r < |s.replicas| &&
    var p := s.replicas[step.r].phase;
    match step
    case TryLock(_) => p.Starting?
    case FailToTry(_) => p.Starting?
    case RunTable(_, _) => p.Tables? && p.next < |s.schema.tables|
    case TablesDone(_) => p.Tables? && p.next == |s.schema.tables|
    case RunIndex(_, _) => p.Indexes? && p.next < |s.schema.indexes|
    case IndexesDone(_) => p.Indexes? && p.next == |s.schema.indexes|
    case Unlock(_) => p.Unlocking?
    case Poll(_, rows) => p.Waiting? && Truthful(s, rows)
    case Ask(_, seen) => p.Asking? && (seen ==> s.schema.sentinel in s.indexes)
    case Leave(r) => p.Waiting? && !s.replicas[r].live
    case Cancel(_) => true
    case Exit(_) => p.Returned?
  }

  ghost function To(s: State, r: nat, p: Phase): State
    requires r < |s.replicas|
  {
    s.(replicas := s.replicas[r := s.replicas[r].(phase := p)])
  }

  ghost function Release(s: State, r: nat): State {
    s.(lock := if s.lock == Some(r) then None else s.lock)
  }

  ghost function Put(names: set<string>, name: string, reply: Reply): set<string> {
    if reply.Completed? || reply.tookEffect then names + {name} else names
  }

  ghost function Next(s: State, step: Step): State
    requires Enabled(s, step)
  {
    var r := step.r;
    var me := s.replicas[r];
    match step
    case TryLock(_) => if s.lock.None? then To(s, r, Tables(0)).(lock := Some(r)) else To(s, r, Waiting)
    case FailToTry(_) => To(s, r, Returned(false, Follower))
    case RunTable(_, reply) =>
      To(s, r, if reply.Completed? then Tables(me.phase.next + 1) else Unlocking(false))
        .(tables := Put(s.tables, s.schema.tables[me.phase.next], reply))
    case TablesDone(_) => To(s, r, if me.indexing then Indexes(0) else Unlocking(true))
    case RunIndex(_, reply) =>
      To(s, r, if reply.Completed? then Indexes(me.phase.next + 1) else Unlocking(false))
        .(indexes := Put(s.indexes, s.schema.indexes[me.phase.next], reply))
    case IndexesDone(_) => To(s, r, Unlocking(true))
    case Unlock(_) =>
      // The deferred unlock runs under the replica's own context: cancelled, it does nothing.
      var t := To(s, r, Returned(me.phase.ok, Leader));
      if me.live then Release(t, r) else t
    case Poll(_, rows) =>
      if !NothingMissing(s.schema.tracked, rows) then s
      else if me.indexing && s.schema.sentinel != "" then To(s, r, Asking)
      else To(s, r, Returned(true, Follower))
    case Ask(_, seen) => To(s, r, if seen then Returned(true, Follower) else Waiting)
    case Leave(_) => To(s, r, Returned(false, Follower))
    case Cancel(_) => s.(replicas := s.replicas[r := me.(live := false)])
    case Exit(_) => Release(s, r)
  }

  // -------------------------------------------------------------- invariants

  ghost predicate Running(p: Phase) {
    p.Tables? || p.Indexes? || p.Unlocking?
  }

  /** Running statements takes the lock, and a live replica that has returned does not have it. */
  ghost predicate LockSound(s: State) {
    && (forall r :: 0 <= r < |s.replicas| && Running(s.replicas[r].phase) ==> s.lock == Some(r))
    && (s.lock.Some? ==> s.lock.value < |s.replicas| && OwnerSound(s.replicas[s.lock.value]))
  }

  ghost predicate OwnerSound(me: Replica) {
    Running(me.phase) || (me.phase.Returned? && me.phase.role.Leader? && !me.live)
  }

  /** Names come into being in the order of their statements (a repeated name with its first). */
  ghost predicate Ordered(names: seq<string>, there: set<string>) {
    && there <= SetOf(names)
    && forall j :: 0 <= j < |names| && names[j] in there ==> names[j] in names[..j] || SetOf(names[..j]) <= there
  }

  /** ... and indexes after all tables. */
  ghost predicate CatalogueSound(s: State) {
    && Ordered(s.schema.tables, s.tables) && Ordered(s.schema.indexes, s.indexes)
    && (s.indexes != {} ==> SetOf(s.schema.tables) <= s.tables)
  }

  ghost predicate PhaseSound(s: State, me: Replica) {
    match me.phase
    case Tables(next) => next <= |s.schema.tables| && SetOf(s.schema.tables[..next]) <= s.tables
    case Indexes(next) =>
      && next <= |s.schema.indexes| && SetOf(s.schema.tables) <= s.tables
      && SetOf(s.schema.indexes[..next]) <= s.indexes
    case Unlocking(ok) => ok ==> LeaderDone(s, me)
    case Asking => SetOf(s.schema.tracked) <= s.tables
    case Returned(ok, role) =>
      ok ==> if role.Leader? then LeaderDone(s, me) else FollowerDone(s, me)
    case _ => true
  }

  ghost predicate LeaderDone(s: State, me: Replica) {
    SetOf(s.schema.tables) <= s.tables && (me.indexing ==> SetOf(s.schema.indexes) <= s.indexes)
  }

  ghost predicate FollowerDone(s: State, me: Replica) {
    && SetOf(s.schema.tracked) <= s.tables
    && (me.indexing && s.schema.sentinel != "" ==> s.schema.sentinel in s.indexes)
  }

  ghost predicate Inv(s: State) {
    && LockSound(s) && CatalogueSound(s)
    && forall r :: 0 <= r < |s.replicas| ==> PhaseSound(s, s.replicas[r])
  }

  // -------------------------------------------------------------- preservation

  lemma Prefixes(names: seq<string>, j: nat, k: nat)
    requires j < |names| && k <= |names|
    ensures j < k ==> names[j] in names[..k]
    ensures k <= j ==> SetOf(names[..k]) <= SetOf(names[..j])
  {
    if j < k {
      assert names[..k][j] == names[j];
    } else {
      assert names[..j] == names[..k] + names[k..j];
    }
  }

  lemma OrderedPut(names: seq<string>, there: set<string>, j: nat, reply: Reply)
    requires Ordered(names, there) && j < |names| && SetOf(names[..j]) <= there
    ensures Ordered(names, Put(there, names[j], reply))
  {
    forall k | 0 <= k < |names| && names[k] in Put(there, names[j], reply)
      ensures names[k] in names[..k] || SetOf(names[..k]) <= there
    {
      Prefixes(names, j, k);
    }
  }

  lemma CatalogueStep(s: State, step: Step)
    requires Inv(s) && Enabled(s, step)
    ensures CatalogueSound(Next(s, step))
  {
    var me := s.replicas[step.r];
    assert PhaseSound(s, me);
    match step
    case RunTable(_, reply) => OrderedPut(s.schema.tables, s.tables, me.phase.next, reply);
    case RunIndex(_, reply) => OrderedPut(s.schema.indexes, s.indexes, me.phase.next, reply);
    case _ =>
  }

  lemma LockStep(s: State, step: Step)
    requires LockSound(s) && Enabled(s, step)
    ensures LockSound(Next(s, step))
  {
  }

  /** The catalogue only grows, so what a replica relied on stays true. */
  lemma PhaseKept(s: State, t: State, me: Replica)
    requires PhaseSound(s, me) && t.schema == s.schema && s.tables <= t.tables && s.indexes <= t.indexes
    ensures PhaseSound(t, me)
  {
  }

  lemma TablePhase(s: State, r: nat, reply: Reply)
    requires Enabled(s, RunTable(r, reply)) && PhaseSound(s, s.replicas[r])
    ensures PhaseSound(Next(s, RunTable(r, reply)), Next(s, RunTable(r, reply)).replicas[r])
  {
    PrefixNext(s.schema.tables, s.replicas[r].phase.next);
  }

  lemma IndexPhase(s: State, r: nat, reply: Reply)
    requires Enabled(s, RunIndex(r, reply)) && PhaseSound(s, s.replicas[r])
    ensures PhaseSound(Next(s, RunIndex(r, reply)), Next(s, RunIndex(r, reply)).replicas[r])
  {
    PrefixNext(s.schema.indexes, s.replicas[r].phase.next);
  }

  lemma DonePhase(s: State, step: Step)
    requires Enabled(s, step) && PhaseSound(s, s.replicas[step.r]) && (step.TablesDone? || step.IndexesDone?)
    ensures PhaseSound(Next(s, step), Next(s, step).replicas[step.r])
  {
    WholePrefix(s.schema.tables);
    WholePrefix(s.schema.indexes);
  }

  lemma PollPhase(s: State, r: nat, rows: Rows)
    requires Enabled(s, Step.Poll(r, rows)) && PhaseSound(s, s.replicas[r])
    ensures PhaseSound(Next(s, Step.Poll(r, rows)), Next(s, Step.Poll(r, rows)).replicas[r])
  {
    assert forall t :: t in s.schema.tracked && Found(rows, t) ==> t in s.tables;
  }

  lemma OwnPhase(s: State, step: Step)
    requires Inv(s) && Enabled(s, step)
    ensures PhaseSound(Next(s, step), Next(s, step).replicas[step.r])
  {
    assert PhaseSound(s, s.replicas[step.r]);
    hide CatalogueSound;
    hide LockSound;
    match step
    case RunTable(r, reply) => TablePhase(s, r, reply);
    case TablesDone(_) => DonePhase(s, step);
    case RunIndex(r, reply) => IndexPhase(s, r, reply);
    case IndexesDone(_) => DonePhase(s, step);
    case Poll(r, rows) => PollPhase(s, r, rows);
    case TryLock(_) => WholePrefix(s.schema.tables);
    case _ =>
  }

  lemma InvStep(s: State, step: Step)
    requires Inv(s) && Enabled(s, step)
    ensures Inv(Next(s, step))
  {
    var t := Next(s, step);
    CatalogueStep(s, step);
    LockStep(s, step);
    OwnPhase(s, step);
    assert t.schema == s.schema && s.tables <= t.tables && s.indexes <= t.indexes;
    forall r | 0 <= r < |t.replicas| ensures PhaseSound(t, t.replicas[r]) {
      if r != step.r {
        assert t.replicas[r] == s.replicas[r];
        PhaseKept(s, t, s.replicas[r]);
      }
    }
  }

  // -------------------------------------------------------------------- runs

  ghost function Beginning(schema: Schema, indexing: seq<bool>): (s: State)
    ensures |s.replicas| == |indexing|
    ensures forall r :: 0 <= r < |indexing| ==> s.replicas[r] == Replica(Starting, true, indexing[r])
  {
    State(schema, seq(|indexing|, r requires 0 <= r < |indexing| => Replica(Starting, true, indexing[r])), None, {}, {})
  }

  ghost function After(s: State, steps: seq<Step>): Option<State> {
    if steps == [] then Some(s)
    else
      match After(s, steps[..|steps| - 1])
      case None => None
      case Some(t) =>
        if Enabled(t, steps[|steps| - 1]) then Some(Next(t, steps[|steps| - 1])) else None
  }

  lemma {:induction false} InvAlways(schema: Schema, indexing: seq<bool>, steps: seq<Step>)
    requires After(Beginning(schema, indexing), steps).Some?
    ensures var s := After(Beginning(schema, indexing), steps).value; Inv(s) && s.schema == schema
  {
    if steps == [] {
    } else {
      InvAlways(schema, indexing, steps[..|steps| - 1]);
      InvStep(After(Beginning(schema, indexing), steps[..|steps| - 1]).value, steps[|steps| - 1]);
    }
  }

  /** At most one replica runs statements at a time. */
  lemma {:induction false} OneAtATime(schema: Schema, indexing: seq<bool>, steps: seq<Step>, r: nat, q: nat)
    requires After(Beginning(schema, indexing), steps).Some?
    requires var s := After(Beginning(schema, indexing), steps).value;
      r < |s.replicas| && q < |s.replicas| && Running(s.replicas[r].phase) && Running(s.replicas[q].phase)
    ensures r == q
  {
    InvAlways(schema, indexing, steps);
  }

  /** Returning, on success or on error, gives up the lock exactly when the replica's context is live. */
  lemma UnlockReleases(s: State, r: nat)
    requires Inv(s) && Enabled(s, Unlock(r))
    ensures Next(s, Unlock(r)).replicas[r].phase.Returned?
    ensures Next(s, Unlock(r)).lock != Some(r) <==> s.replicas[r].live
  {
  }

  /** In every run: a replica that has returned and whose context is live does not hold the lock. */
  lemma {:induction false} LockReleased(schema: Schema, indexing: seq<bool>, steps: seq<Step>, r: nat)
    requires After(Beginning(schema, indexing), steps).Some?
    requires var s := After(Beginning(schema, indexing), steps).value;
      r < |s.replicas| && s.replicas[r].phase.Returned? && s.replicas[r].live
    ensures After(Beginning(schema, indexing), steps).value.lock != Some(r)
  {
    InvAlways(schema, indexing, steps);
  }

  /** In every run in which some replica has returned without an error, every tracked table exists if and only if the
      schema creates every table it tracks. */
  lemma {:induction false} NilMeansTables(schema: Schema, indexing: seq<bool>, steps: seq<Step>, r: nat)
    requires After(Beginning(schema, indexing), steps).Some?
    requires var s := After(Beginning(schema, indexing), steps).value;
      r < |s.replicas| && s.replicas[r].phase.Returned? && s.replicas[r].phase.ok
    ensures SetOf(schema.tracked) <= After(Beginning(schema, indexing), steps).value.tables <==>
      SetOf(schema.tracked) <= SetOf(schema.tables)
  {
    InvAlways(schema, indexing, steps);
    var s := After(Beginning(schema, indexing), steps).value;
    assert PhaseSound(s, s.replicas[r]);
  }

  /** In every run: a follower that waited for indexes has returned without an error only if every table exists and
      every index statement up to the sentinel's has taken effect, whatever its polls left out. */
  lemma {:induction false} SentinelMeansIndexes(schema: Schema, indexing: seq<bool>, steps: seq<Step>, r: nat, k: nat)
    requires After(Beginning(schema, indexing), steps).Some?
    requires k < |schema.indexes| && schema.indexes[k] == schema.sentinel != ""
    requires schema.sentinel !in schema.indexes[..k]
    requires var s := After(Beginning(schema, indexing), steps).value;
      r < |s.replicas| && s.replicas[r].phase == Returned(true, Follower) && s.replicas[r].indexing
    ensures var s := After(Beginning(schema, indexing), steps).value;
      SetOf(schema.indexes[..k + 1]) <= s.indexes && SetOf(schema.tables) <= s.tables
  {
    InvAlways(schema, indexing, steps);
    var s := After(Beginning(schema, indexing), steps).value;
    assert PhaseSound(s, s.replicas[r]);
    PrefixNext(schema.indexes, k);
  }

  /** A follower waiting for a sentinel that no statement creates never returns without an error. */
  lemma {:induction false} NoSentinelNoReturn(schema: Schema, indexing: seq<bool>, steps: seq<Step>, r: nat)
    requires After(Beginning(schema, indexing), steps).Some?
    requires schema.sentinel != "" && schema.sentinel !in schema.indexes
    requires var s := After(Beginning(schema, indexing), steps).value; r < |s.replicas| && s.replicas[r].indexing
    ensures After(Beginning(schema, indexing), steps).value.replicas[r].phase != Returned(true, Follower)
  {
    InvAlways(schema, indexing, steps);
    var s := After(Beginning(schema, indexing), steps).value;
    assert PhaseSound(s, s.replicas[r]);
  }

  // -------------------------------------------------- how many replicas lead

  /** A replica that got the lock, whatever became of it. */
  ghost predicate Led(p: Phase) {
    Running(p) || (p.Returned? && p.role.Leader?)
  }

  ghost predicate SomeLed(s: State) {
    exists r :: 0 <= r < |s.replicas| && Led(s.replicas[r].phase)
  }

  ghost predicate OneLedAtMost(s: State) {
    forall r, q :: 0 <= r < |s.replicas| && 0 <= q < |s.replicas| && r != q ==>
      !(Led(s.replicas[r].phase) && Led(s.replicas[q].phase))
  }

  /** A replica tries the lock, finds it free, and another has already had it. */
  ghost predicate Late(s: State, step: Step) {
    step.TryLock? && s.lock.None? && SomeLed(s)
  }

  ghost predicate NoneLate(s: State, steps: seq<Step>) {
    steps == [] ||
    var init := steps[..|steps| - 1];
    NoneLate(s, init) && (After(s, init).Some? ==> !Late(After(s, init).value, steps[|steps| - 1]))
  }

  ghost predicate Tried(steps: seq<Step>) {
    exists i :: 0 <= i < |steps| && steps[i].TryLock?
  }

  lemma LedStep(s: State, step: Step, r: nat)
    requires Inv(s) && Enabled(s, step) && r < |s.replicas|
    ensures Led(Next(s, step).replicas[r].phase) <==>
      Led(s.replicas[r].phase) || (step == TryLock(r) && s.lock.None?)
  {
  }

  lemma LeadersStep(s: State, step: Step)
    requires Inv(s) && Enabled(s, step)
    ensures OneLedAtMost(Next(s, step)) <==> OneLedAtMost(s) && !Late(s, step)
    ensures SomeLed(Next(s, step)) <==> SomeLed(s) || step.TryLock?
  {
    var t := Next(s, step);
    assert |t.replicas| == |s.replicas|;
    forall r | 0 <= r < |s.replicas|
      ensures Led(t.replicas[r].phase) <==> Led(s.replicas[r].phase) || (step == TryLock(r) && s.lock.None?)
    {
      LedStep(s, step, r);
    }
    if step.TryLock? {
      assert !Led(s.replicas[step.r].phase);
      if s.lock.Some? {
        assert Led(s.replicas[s.lock.value].phase) && Led(t.replicas[s.lock.value].phase);
      } else {
        assert Led(t.replicas[step.r].phase);
      }
    }
  }

  lemma TriedSnoc(steps: seq<Step>)
    requires steps != []
    ensures Tried(steps) <==> Tried(steps[..|steps| - 1]) || steps[|steps| - 1].TryLock?
  {
    assert steps == steps[..|steps| - 1] + [steps[|steps| - 1]];
  }

  /** In every run: at most one replica ever gets the lock if and only if none tries it, and finds it free, after
      another has had it; and some replica gets it if and only if one tries. */
  lemma {:induction false} LeadersExactly(schema: Schema, indexing: seq<bool>, steps: seq<Step>)
    requires After(Beginning(schema, indexing), steps).Some?
    ensures var s := After(Beginning(schema, indexing), steps).value;
      && (OneLedAtMost(s) <==> NoneLate(Beginning(schema, indexing), steps))
      && (SomeLed(s) <==> Tried(steps))
  {
    if steps == [] {
    } else {
      var init := steps[..|steps| - 1];
      LeadersExactly(schema, indexing, init);
      InvAlways(schema, indexing, init);
      LeadersStep(After(Beginning(schema, indexing), init).value, steps[|steps| - 1]);
      TriedSnoc(steps);
    }
  }

  // ------------------------------------------------------------- a late replica

  /** The first replica takes the lock and runs j table statements. */
  ghost function LeaderRun(j: nat): seq<Step> {
    if j == 0 then [TryLock(0)] else LeaderRun(j - 1) + [RunTable(0, Completed)]
  }

  ghost function LeadingState(schema: Schema, j: nat): State
    requires j <= |schema.tables|
  {
    var s := Beginning(schema, [false, false]);
    State(schema, [s.replicas[0].(phase := Tables(j)), s.replicas[1]], Some(0), SetOf(schema.tables[..j]), {})
  }

  lemma LeaderStarts(schema: Schema)
    ensures Next(Beginning(schema, [false, false]), TryLock(0)) == LeadingState(schema, 0)
  {
    WholePrefix(schema.tables);
  }

  lemma LeaderGoesOn(schema: Schema, j: nat)
    requires j < |schema.tables|
    ensures Enabled(LeadingState(schema, j), RunTable(0, Completed))
    ensures Next(LeadingState(schema, j), RunTable(0, Completed)) == LeadingState(schema, j + 1)
  {
    PrefixNext(schema.tables, j);
  }

  lemma {:induction false} AfterLeaderRun(schema: Schema, j: nat)
    requires j <= |schema.tables|
    ensures After(Beginning(schema, [false, false]), LeaderRun(j)) == Some(LeadingState(schema, j))
  {
    var s := Beginning(schema, [false, false]);
    if j == 0 {
      LeaderStarts(schema);
      AfterOne(s, [], TryLock(0), s);
      assert [] + [TryLock(0)] == LeaderRun(0);
    } else {
      hide LeadingState;
      AfterLeaderRun(schema, j - 1);
      LeaderGoesOn(schema, j - 1);
      AfterOne(s, LeaderRun(j - 1), RunTable(0, Completed), LeadingState(schema, j - 1));
    }
  }

  /** "Exactly one replica" is not what the lock gives: whatever the schema, one that comes after the leader has
      finished gets the lock and is about to run every statement again. */
  lemma LateReplicaRunsAgain(schema: Schema)
    ensures var steps := LeaderRun(|schema.tables|) + [TablesDone(0)] + [Unlock(0)] + [TryLock(1)];
      var s := After(Beginning(schema, [false, false]), steps);
      && s.Some? && |s.value.replicas| == 2 && SetOf(schema.tables) == s.value.tables
      && s.value.replicas[0].phase == Returned(true, Leader)
      && s.value.replicas[1].phase == Tables(0) && s.value.lock == Some(1)
  {
    var n := |schema.tables|;
    var s, t := Beginning(schema, [false, false]), LeadingState(schema, n);
    AfterLeaderRun(schema, n);
    WholePrefix(schema.tables);
    AfterOne(s, LeaderRun(n), TablesDone(0), t);
    var u := Next(t, TablesDone(0));
    AfterOne(s, LeaderRun(n) + [TablesDone(0)], Unlock(0), u);
    AfterOne(s, LeaderRun(n) + [TablesDone(0)] + [Unlock(0)], TryLock(1), Next(u, Unlock(0)));
  }

  /** Cancelled before the deferred unlock, a leader returns without an error and keeps the lock, whatever the schema:
      nobody who tries after that gets it. */
  lemma CancelledLeaderKeepsLock(schema: Schema)
    ensures var steps := LeaderRun(|schema.tables|) + [TablesDone(0)] + [Cancel(0)] + [Unlock(0)] + [TryLock(1)];
      var s := After(Beginning(schema, [false, false]), steps);
      && s.Some? && |s.value.replicas| == 2 && s.value.lock == Some(0)
      && s.value.replicas[0] == Replica(Returned(true, Leader), false, false)
      && s.value.replicas[1].phase == Waiting
  {
    var n := |schema.tables|;
    var s, t := Beginning(schema, [false, false]), LeadingState(schema, n);
    AfterLeaderRun(schema, n);
    AfterOne(s, LeaderRun(n), TablesDone(0), t);
    var u := Next(t, TablesDone(0));
    AfterOne(s, LeaderRun(n) + [TablesDone(0)], Cancel(0), u);
    var v := Next(u, Cancel(0));
    AfterOne(s, LeaderRun(n) + [TablesDone(0)] + [Cancel(0)], Unlock(0), v);
    AfterOne(s, LeaderRun(n) + [TablesDone(0)] + [Cancel(0)] + [Unlock(0)], TryLock(1), Next(v, Unlock(0)));
  }

  lemma {:induction false} AfterOne(s: State, steps: seq<Step>, step: Step, t: State)
    requires After(s, steps) == Some(t) && Enabled(t, step)
    ensures After(s, steps + [step]) == Some(Next(t, step))
  {
    assert (steps + [step])[..|steps|] == steps;
  }
}
