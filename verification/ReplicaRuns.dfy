/** A replica left alone by the others: the transition system takes it where MigrateWithLock says it goes. */

module ReplicaRuns {
  import opened Lists
  import opened Options
  import opened Catalogues
  import opened Migration

  lemma UpdateTwice(xs: seq<Replica>, r: nat)
    requires r < |xs|
    ensures xs[r := xs[r]] == xs
    ensures forall a, b {:trigger xs[r := a][r := b]} :: xs[r := a][r := b] == xs[r := b]
  {
  }

  lemma {:induction false} AfterBoth(s: State, a: seq<Step>, b: seq<Step>)
    requires After(s, a).Some?
    ensures After(s, a + b) == After(After(s, a).value, b)
  {
    if b == [] {
      assert a + b == a;
    } else {
      AfterBoth(s, a, b[..|b| - 1]);
      assert (a + b)[..|a + b| - 1] == a + b[..|b| - 1];
    }
  }

  lemma {:induction false} AfterStep(s: State, step: Step)
    requires Enabled(s, step)
    ensures After(s, [step]) == Some(Next(s, step))
  {
    assert [step][..0] == [];
  }

  lemma {:induction false} AfterThen(s: State, steps: seq<Step>, step: Step)
    requires After(s, steps).Some? && Enabled(After(s, steps).value, step)
    ensures After(s, steps + [step]) == Some(Next(After(s, steps).value, step))
  {
    AfterOne(s, steps, step, After(s, steps).value);
  }

  // ------------------------------------------------------------------ a follower

  /** The steps of a waiting replica that wakes up: the second query is made only if the first leaves it to decide. */
  ghost function WakeSteps(schema: Schema, indexing: bool, r: nat, w: Wake): seq<Step> {
    match w
    case Cancelled => [Cancel(r), Leave(r)]
    case Poll(rows, seen) =>
      [Step.Poll(r, rows)] +
        if NothingMissing(schema.tracked, rows) && indexing && schema.sentinel != "" then [Ask(r, seen)] else []
  }

  ghost function WaitSteps(schema: Schema, indexing: bool, r: nat, wakes: seq<Wake>): seq<Step> {
    if wakes == [] then [] else
      WaitSteps(schema, indexing, r, wakes[..|wakes| - 1]) + WakeSteps(schema, indexing, r, wakes[|wakes| - 1])
  }

  /** The answers are about the catalogue as it is. */
  ghost predicate Honest(s: State, w: Wake) {
    w.Poll? ==> Truthful(s, w.rows) && (w.sentinelSeen ==> s.schema.sentinel in s.indexes)
  }

  ghost function Leaves(s: State, r: nat, ok: bool, live: bool): State
    requires r < |s.replicas|
  {
    s.(replicas := s.replicas[r := Replica(Returned(ok, Follower), live, s.replicas[r].indexing)])
  }

  /** One wake-up: a cancelled replica leaves with an error; it leaves without one if every tracked table was in the
      rows, and the sentinel was seen if it waits for one; otherwise nothing has changed. */
  lemma {:induction false} WakeAgrees(s: State, r: nat, w: Wake)
    requires r < |s.replicas| && s.replicas[r].phase.Waiting? && Honest(s, w)
    ensures After(s, WakeSteps(s.schema, s.replicas[r].indexing, r, w)) == Some(
      if w.Cancelled? then Leaves(s, r, false, false)
      else if (forall t :: t in s.schema.tracked ==> w.rows.Some? && Some(t) in w.rows.value) &&
              (s.replicas[r].indexing && s.schema.sentinel != "" ==> w.sentinelSeen)
      then Leaves(s, r, true, s.replicas[r].live)
      else s)
  {
    UpdateTwice(s.replicas, r);
    match w
    case Cancelled =>
      AfterStep(s, Cancel(r));
      AfterThen(s, [Cancel(r)], Leave(r));
    case Poll(rows, seen) =>
      assert forall t :: Found(rows, t) <==> rows.Some? && Some(t) in rows.value;
      AfterStep(s, Step.Poll(r, rows));
      if NothingMissing(s.schema.tracked, rows) && s.replicas[r].indexing && s.schema.sentinel != "" {
        AfterThen(s, [Step.Poll(r, rows)], Ask(r, seen));
      } else {
        assert [Step.Poll(r, rows)] + [] == [Step.Poll(r, rows)];
      }
  }

  lemma {:induction false} StillThere(s: State, r: nat, wakes: seq<Wake>)
    requires r < |s.replicas| && s.replicas[r].phase.Waiting?
    requires forall w :: w in wakes ==> w.Poll? && Honest(s, w) && !Passes(s.schema, s.replicas[r].indexing, w)
    ensures After(s, WaitSteps(s.schema, s.replicas[r].indexing, r, wakes)) == Some(s)
  {
    if wakes == [] {
    } else {
      var init, w := wakes[..|wakes| - 1], wakes[|wakes| - 1];
      var indexing := s.replicas[r].indexing;
      StillThere(s, r, init);
      WakeAgrees(s, r, w);
      AfterBoth(s, WaitSteps(s.schema, indexing, r, init), WakeSteps(s.schema, indexing, r, w));
    }
  }

  /** A waiting replica, after n wake-ups that did not end the wait and one more. */
  lemma {:induction false} WaitAgrees(s: State, r: nat, wakes: seq<Wake>, n: nat)
    requires r < |s.replicas| && s.replicas[r].phase.Waiting?
    requires n < |wakes| && forall i :: 0 <= i <= n ==> Honest(s, wakes[i])
    requires forall i :: 0 <= i < n ==> wakes[i].Poll? && !Passes(s.schema, s.replicas[r].indexing, wakes[i])
    ensures var indexing := s.replicas[r].indexing;
      After(s, WaitSteps(s.schema, indexing, r, wakes[..n + 1])) == Some(
        if wakes[n].Cancelled? then Leaves(s, r, false, false)
        else if Passes(s.schema, indexing, wakes[n]) then Leaves(s, r, true, s.replicas[r].live)
        else s)
  {
    var indexing := s.replicas[r].indexing;
    WakeAgrees(s, r, wakes[n]);
    assert wakes[..n + 1][..n] == wakes[..n];
    hide After;
    hide WakeSteps;
    hide Honest;
    StillThere(s, r, wakes[..n]);
    AfterBoth(s, WaitSteps(s.schema, indexing, r, wakes[..n]), WakeSteps(s.schema, indexing, r, wakes[n]));
  }

  lemma WaitBegins(s: State, r: nat, wakes: seq<Wake>, n: nat)
    requires r < |s.replicas| && s.replicas[r].phase.Starting? && s.lock.Some?
    requires n < |wakes| && forall i :: 0 <= i <= n ==> Honest(s, wakes[i])
    ensures Enabled(s, TryLock(r)) && Next(s, TryLock(r)) == To(s, r, Waiting)
    ensures forall i :: 0 <= i <= n ==> Honest(To(s, r, Waiting), wakes[i])
    ensures forall ok, live :: Leaves(To(s, r, Waiting), r, ok, live) == Leaves(s, r, ok, live)
  {
    UpdateTwice(s.replicas, r);
    forall i | 0 <= i <= n ensures Honest(To(s, r, Waiting), wakes[i]) {
      assert Honest(s, wakes[i]);
    }
  }

  /** A replica that finds the lock taken and waits is, after n wake-ups that did not end the wait and one more, where
      WaitForSchema returns: nothing else has changed. */
  lemma {:induction false} FollowerAgrees(s: State, r: nat, wakes: seq<Wake>, n: nat)
    requires r < |s.replicas| && s.replicas[r].phase.Starting? && s.lock.Some?
    requires n < |wakes| && forall i :: 0 <= i <= n ==> Honest(s, wakes[i])
    requires forall i :: 0 <= i < n ==> wakes[i].Poll? && !Passes(s.schema, s.replicas[r].indexing, wakes[i])
    ensures var indexing := s.replicas[r].indexing;
      After(s, [TryLock(r)] + WaitSteps(s.schema, indexing, r, wakes[..n + 1])) == Some(
        if wakes[n].Cancelled? then Leaves(s, r, false, false)
        else if Passes(s.schema, indexing, wakes[n]) then Leaves(s, r, true, s.replicas[r].live)
        else To(s, r, Waiting))
  {
    WaitBegins(s, r, wakes, n);
    hide Honest;
    hide Next;
    hide Enabled;
    hide Passes;
    hide Leaves;
    hide After;
    hide WaitSteps;
    AfterStep(s, TryLock(r));
    WaitAgrees(To(s, r, Waiting), r, wakes, n);
    AfterBoth(s, [TryLock(r)], WaitSteps(s.schema, s.replicas[r].indexing, r, wakes[..n + 1]));
  }

  // ------------------------------------------------------------------- a leader

  ghost function TableSteps(r: nat, replies: seq<Reply>): seq<Step> {
    seq(|replies|, i requires 0 <= i < |replies| => RunTable(r, replies[i]))
  }

  ghost function IndexSteps(r: nat, replies: seq<Reply>): seq<Step> {
    seq(|replies|, i requires 0 <= i < |replies| => RunIndex(r, replies[i]))
  }

  lemma StepsNext(r: nat, replies: seq<Reply>, i: nat)
    requires i < |replies|
    ensures TableSteps(r, replies[..i + 1]) == TableSteps(r, replies[..i]) + [RunTable(r, replies[i])]
    ensures IndexSteps(r, replies[..i + 1]) == IndexSteps(r, replies[..i]) + [RunIndex(r, replies[i])]
  {
  }

  /** How many statements are run: all, or those up to the first that fails. */
  ghost function Attempts(statements: seq<string>, replies: seq<Reply>): (n: nat)
    requires |replies| == |statements|
    ensures n <= |statements|
  {
    var n := Completions(statements, replies);
    if n < |statements| then n + 1 else n
  }

  /** What the statements leave is what those that completed leave, and the failed one if it took effect. */
  lemma {:induction false} CreatedPut(names: set<string>, statements: seq<string>, replies: seq<Reply>)
    requires |replies| == |statements|
    ensures var n := Completions(statements, replies);
      Created(names, statements, replies) ==
        if n < |statements| then Put(names + SetOf(statements[..n]), statements[n], replies[n])
        else names + SetOf(statements[..n])
  {
  }

  lemma PutCompleted(names: set<string>, name: string, reply: Reply)
    requires reply.Completed?
    ensures Put(names, name, reply) == names + {name}
  {
  }

  lemma TableNext(s: State, r: nat, k: nat, there: set<string>, reply: Reply)
    requires r < |s.replicas| && k < |s.schema.tables|
    ensures var t, name := To(s, r, Tables(k)).(tables := there), s.schema.tables[k];
      && Enabled(t, RunTable(r, reply))
      && Next(t, RunTable(r, reply)) ==
        To(s, r, if reply.Completed? then Tables(k + 1) else Unlocking(false)).(tables := Put(there, name, reply))
  {
    UpdateTwice(s.replicas, r);
  }

  lemma {:induction false} TablesRun(s: State, r: nat, replies: seq<Reply>, k: nat)
    requires r < |s.replicas| && s.replicas[r].phase == Tables(0)
    requires |replies| == |s.schema.tables| && k <= Completions(s.schema.tables, replies)
    ensures After(s, TableSteps(r, replies[..k])) ==
      Some(To(s, r, Tables(k)).(tables := s.tables + SetOf(s.schema.tables[..k])))
  {
    if k == 0 {
      UpdateTwice(s.replicas, r);
      assert TableSteps(r, replies[..0]) == [] && s.schema.tables[..0] == [];
      assert s.tables + SetOf([]) == s.tables;
    } else {
      hide *;
      TablesRun(s, r, replies, k - 1);
      PrefixNext(s.schema.tables, k - 1);
      StepsNext(r, replies, k - 1);
      var there := s.tables + SetOf(s.schema.tables[..k - 1]);
      assert there + {s.schema.tables[k - 1]} == s.tables + SetOf(s.schema.tables[..k]);
      TableNext(s, r, k - 1, there, replies[k - 1]);
      PutCompleted(there, s.schema.tables[k - 1], replies[k - 1]);
      AfterThen(s, TableSteps(r, replies[..k - 1]), RunTable(r, replies[k - 1]));
    }
  }

  lemma {:induction false} TablesAttempted(s: State, r: nat, replies: seq<Reply>)
    requires r < |s.replicas| && s.replicas[r].phase == Tables(0) && |replies| == |s.schema.tables|
    ensures var n := Completions(s.schema.tables, replies);
      After(s, TableSteps(r, replies[..Attempts(s.schema.tables, replies)])) == Some(
        To(s, r, if n == |s.schema.tables| then Tables(n) else Unlocking(false))
          .(tables := Created(s.tables, s.schema.tables, replies)))
  {
    UpdateTwice(s.replicas, r);
    var n := Completions(s.schema.tables, replies);
    TablesRun(s, r, replies, n);
    CreatedPut(s.tables, s.schema.tables, replies);
    if n < |s.schema.tables| {
      hide *;
      StepsNext(r, replies, n);
      TableNext(s, r, n, s.tables + SetOf(s.schema.tables[..n]), replies[n]);
      AfterThen(s, TableSteps(r, replies[..n]), RunTable(r, replies[n]));
    }
  }

  lemma IndexNext(s: State, r: nat, k: nat, there: set<string>, reply: Reply)
    requires r < |s.replicas| && k < |s.schema.indexes|
    ensures var t, name := To(s, r, Indexes(k)).(indexes := there), s.schema.indexes[k];
      && Enabled(t, RunIndex(r, reply))
      && Next(t, RunIndex(r, reply)) ==
        To(s, r, if reply.Completed? then Indexes(k + 1) else Unlocking(false)).(indexes := Put(there, name, reply))
  {
    UpdateTwice(s.replicas, r);
  }

  lemma {:induction false} IndexesRun(s: State, r: nat, replies: seq<Reply>, k: nat)
    requires r < |s.replicas| && s.replicas[r].phase == Indexes(0)
    requires |replies| == |s.schema.indexes| && k <= Completions(s.schema.indexes, replies)
    ensures After(s, IndexSteps(r, replies[..k])) ==
      Some(To(s, r, Indexes(k)).(indexes := s.indexes + SetOf(s.schema.indexes[..k])))
  {
    if k == 0 {
      UpdateTwice(s.replicas, r);
      assert IndexSteps(r, replies[..0]) == [] && s.schema.indexes[..0] == [];
      assert s.indexes + SetOf([]) == s.indexes;
    } else {
      hide *;
      IndexesRun(s, r, replies, k - 1);
      PrefixNext(s.schema.indexes, k - 1);
      StepsNext(r, replies, k - 1);
      var there := s.indexes + SetOf(s.schema.indexes[..k - 1]);
      assert there + {s.schema.indexes[k - 1]} == s.indexes + SetOf(s.schema.indexes[..k]);
      IndexNext(s, r, k - 1, there, replies[k - 1]);
      PutCompleted(there, s.schema.indexes[k - 1], replies[k - 1]);
      AfterThen(s, IndexSteps(r, replies[..k - 1]), RunIndex(r, replies[k - 1]));
    }
  }

  lemma {:induction false} IndexesAttempted(s: State, r: nat, replies: seq<Reply>)
    requires r < |s.replicas| && s.replicas[r].phase == Indexes(0) && |replies| == |s.schema.indexes|
    ensures var n := Completions(s.schema.indexes, replies);
      After(s, IndexSteps(r, replies[..Attempts(s.schema.indexes, replies)])) == Some(
        To(s, r, if n == |s.schema.indexes| then Indexes(n) else Unlocking(false))
          .(indexes := Created(s.indexes, s.schema.indexes, replies)))
  {
    UpdateTwice(s.replicas, r);
    var n := Completions(s.schema.indexes, replies);
    IndexesRun(s, r, replies, n);
    CreatedPut(s.indexes, s.schema.indexes, replies);
    if n < |s.schema.indexes| {
      hide *;
      StepsNext(r, replies, n);
      IndexNext(s, r, n, s.indexes + SetOf(s.schema.indexes[..n]), replies[n]);
      AfterThen(s, IndexSteps(r, replies[..n]), RunIndex(r, replies[n]));
    }
  }

  /** The index part of a leader's run, from the point where every table statement has completed. */
  ghost function IndexPart(schema: Schema, indexing: bool, r: nat, replies: seq<Reply>): seq<Step>
    requires |replies| == |schema.indexes|
  {
    if !indexing then [TablesDone(r)] else
      [TablesDone(r)] + (IndexSteps(r, replies[..Attempts(schema.indexes, replies)]) +
        if Completions(schema.indexes, replies) == |schema.indexes| then [IndexesDone(r)] else [])
  }

  lemma {:induction false} IndexPartAgrees(s: State, r: nat, replies: seq<Reply>)
    requires r < |s.replicas| && s.replicas[r].phase == Tables(|s.schema.tables|)
    requires |replies| == |s.schema.indexes|
    ensures var indexing := s.replicas[r].indexing;
      After(s, IndexPart(s.schema, indexing, r, replies)) == Some(
        To(s, r, Unlocking(indexing ==> Completions(s.schema.indexes, replies) == |s.schema.indexes|))
          .(indexes := if indexing then Created(s.indexes, s.schema.indexes, replies) else s.indexes))
  {
    UpdateTwice(s.replicas, r);
    AfterStep(s, TablesDone(r));
    if s.replicas[r].indexing {
      var t := Next(s, TablesDone(r));
      var n := Completions(s.schema.indexes, replies);
      var steps := IndexSteps(r, replies[..Attempts(s.schema.indexes, replies)]);
      IndexesAttempted(t, r, replies);
      hide Created;
      if n == |s.schema.indexes| {
        AfterThen(t, steps, IndexesDone(r));
      } else {
        assert steps + [] == steps;
      }
      AfterBoth(s, [TablesDone(r)], steps + if n == |s.schema.indexes| then [IndexesDone(r)] else []);
    }
  }

  /** The end of a leader's run: the deferred unlock, the context cancelled before it or not. */
  ghost function LastPart(r: nat, live: bool): seq<Step> {
    if live then [Unlock(r)] else [Cancel(r)] + [Unlock(r)]
  }

  lemma {:induction false} LastPartAgrees(s: State, r: nat, live: bool)
    requires r < |s.replicas| && s.replicas[r].phase.Unlocking? && s.lock == Some(r) && s.replicas[r].live
    ensures After(s, LastPart(r, live)) == Some(s.(
      replicas := s.replicas[r := Replica(Returned(s.replicas[r].phase.ok, Leader), live, s.replicas[r].indexing)],
      lock := if live then None else Some(r)))
  {
    UpdateTwice(s.replicas, r);
    if live {
      AfterStep(s, Unlock(r));
    } else {
      AfterStep(s, Cancel(r));
      AfterThen(s, [Cancel(r)], Unlock(r));
    }
  }

  /** What a leader does between taking the lock and the deferred unlock. */
  ghost function WorkPart(
      schema: Schema, indexing: bool, r: nat, tableReplies: seq<Reply>, indexReplies: seq<Reply>): seq<Step>
    requires |tableReplies| == |schema.tables| && |indexReplies| == |schema.indexes|
  {
    TableSteps(r, tableReplies[..Attempts(schema.tables, tableReplies)]) +
      if Completions(schema.tables, tableReplies) == |schema.tables|
      then IndexPart(schema, indexing, r, indexReplies) else []
  }

  lemma {:induction false} WorkPartAgrees(s: State, r: nat, tableReplies: seq<Reply>, indexReplies: seq<Reply>)
    requires r < |s.replicas| && s.replicas[r].phase == Tables(0)
    requires |tableReplies| == |s.schema.tables| && |indexReplies| == |s.schema.indexes|
    ensures var indexing := s.replicas[r].indexing;
      var created := Completions(s.schema.tables, tableReplies) == |s.schema.tables|;
      After(s, WorkPart(s.schema, indexing, r, tableReplies, indexReplies)) == Some(
        To(s, r, Unlocking(
            created && (indexing ==> Completions(s.schema.indexes, indexReplies) == |s.schema.indexes|)))
          .(tables := Created(s.tables, s.schema.tables, tableReplies),
            indexes :=
              if created && indexing then Created(s.indexes, s.schema.indexes, indexReplies) else s.indexes))
  {
    UpdateTwice(s.replicas, r);
    var indexing := s.replicas[r].indexing;
    var steps := TableSteps(r, tableReplies[..Attempts(s.schema.tables, tableReplies)]);
    TablesAttempted(s, r, tableReplies);
    hide Created;
    hide TableSteps;
    hide IndexPart;
    if Completions(s.schema.tables, tableReplies) == |s.schema.tables| {
      IndexPartAgrees(After(s, steps).value, r, indexReplies);
      AfterBoth(s, steps, IndexPart(s.schema, indexing, r, indexReplies));
    } else {
      assert steps + [] == steps;
    }
  }

  /** A replica that finds the lock free, runs its statements with the given replies and is not disturbed leaves
      catalogue, lock and result as MigrateWithLock does. */
  lemma {:induction false} LeaderAgrees(
      s: State, r: nat, indexing: bool, tableReplies: seq<Reply>, indexReplies: seq<Reply>, live: bool)
    requires r < |s.replicas| && s.replicas[r] == Replica(Starting, true, indexing) && s.lock.None?
    requires |tableReplies| == |s.schema.tables| && |indexReplies| == |s.schema.indexes|
    ensures var created := Completions(s.schema.tables, tableReplies) == |s.schema.tables|;
      var ok := created && (indexing ==> Completions(s.schema.indexes, indexReplies) == |s.schema.indexes|);
      After(s, [TryLock(r)] + WorkPart(s.schema, indexing, r, tableReplies, indexReplies) + LastPart(r, live)) ==
        Some(State(
          s.schema, s.replicas[r := Replica(Returned(ok, Leader), live, indexing)],
          if live then None else Some(r),
          Created(s.tables, s.schema.tables, tableReplies),
          if created && indexing then Created(s.indexes, s.schema.indexes, indexReplies) else s.indexes))
  {
    UpdateTwice(s.replicas, r);
    var work := WorkPart(s.schema, indexing, r, tableReplies, indexReplies);
    var t := Next(s, TryLock(r));
    AfterStep(s, TryLock(r));
    WorkPartAgrees(t, r, tableReplies, indexReplies);
    hide Created;
    hide WorkPart;
    hide LastPart;
    AfterBoth(s, [TryLock(r)], work);
    LastPartAgrees(After(t, work).value, r, live);
    AfterBoth(s, [TryLock(r)] + work, LastPart(r, live));
  }
}
