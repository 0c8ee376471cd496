/** The statements of a schema, what a catalogue holds after running them, and what a waiting replica asks of it. */

module Catalogues {
  import opened Lists
  import opened Options

  /** Each table statement creates the table it names if there is none, and so for indexes.  An empty sentinel means
      that followers do not wait for indexes. */
  datatype Schema = Schema(tables: seq<string>, indexes: seq<string>, tracked: seq<string>, sentinel: string)

  /** How a statement ended; one that failed may have taken effect all the same. */
  datatype Reply = Completed | Failed(tookEffect: bool)

  // --------------------------------------------------------- running statements

  /** How many of the statements completed before the first that failed. */
  function Completions(statements: seq<string>, replies: seq<Reply>): (n: nat)
    requires |replies| == |statements|
    ensures n <= |statements| && (forall i :: 0 <= i < n ==> replies[i].Completed?)
    ensures n < |statements| ==> replies[n].Failed?
  {
    if statements == [] || replies[0].Failed? then 0 else 1 + Completions(statements[1..], replies[1..])
  }

  /** What they leave in the catalogue. */
  ghost function Created(names: set<string>, statements: seq<string>, replies: seq<Reply>): set<string>
    requires |replies| == |statements|
  {
    var n := Completions(statements, replies);
    names + SetOf(statements[..n]) + if n < |statements| && replies[n].tookEffect then {statements[n]} else {}
  }

  /** A name is there afterwards if it was before, or if a statement for it took effect, which is run if every one
      before it completed. */
  lemma {:induction false} CreatedMembers(names: set<string>, statements: seq<string>, replies: seq<Reply>)
    requires |replies| == |statements|
    ensures forall name :: name in Created(names, statements, replies) <==>
      || name in names
      || exists i :: 0 <= i < |replies| && statements[i] == name && (replies[i].Failed? ==> replies[i].tookEffect) &&
          forall j :: 0 <= j < i ==> replies[j].Completed?
  {
    var n := Completions(statements, replies);
    forall name
      ensures name in Created(names, statements, replies) <==>
        || name in names
        || exists i :: 0 <= i < |replies| && statements[i] == name && (replies[i].Failed? ==> replies[i].tookEffect) &&
            forall j :: 0 <= j < i ==> replies[j].Completed?
    {
      if name in SetOf(statements[..n]) {
        var i :| 0 <= i < n && statements[..n][i] == name;
        assert statements[i] == name;
      }
      assert forall i :: 0 <= i < n ==> statements[i] in statements[..n] by {
        assert forall i :: 0 <= i < n ==> statements[..n][i] == statements[i];
      }
    }
  }

  // -------------------------------------------------------------------- polling

  /** The answer to the table query: nothing if it failed, else its rows, some of which may not scan. */
  type Rows = Option<seq<Option<string>>>

  ghost predicate Found(rows: Rows, table: string) {
    rows.Some? && Some(table) in rows.value
  }

  ghost predicate NothingMissing(required: seq<string>, rows: Rows) {
    forall t :: t in required ==> Found(rows, t)
  }

  /** The required tables that were not found, in the order in which they are required. */
  ghost function Missing(required: seq<string>, rows: Rows): seq<string> {
    if required == [] then [] else
      var n := |required| - 1;
      if Found(rows, required[n]) then Missing(required[..n], rows) else Missing(required[..n], rows) + [required[n]]
  }

  lemma {:induction false} AllMissing(required: seq<string>, rows: Rows)
    requires rows.None?
    ensures Missing(required, rows) == required
  {
    if required == [] {
    } else {
      var n := |required| - 1;
      AllMissing(required[..n], rows);
      assert required == required[..n] + [required[n]];
    }
  }

  lemma {:induction false} MissingNone(required: seq<string>, rows: Rows)
    ensures Missing(required, rows) == [] <==> NothingMissing(required, rows)
  {
    if required == [] {
    } else {
      var n := |required| - 1;
      MissingNone(required[..n], rows);
      assert required == required[..n] + [required[n]];
    }
  }

  lemma {:induction false} MissingTimes(required: seq<string>, rows: Rows, t: string)
    ensures multiset(Missing(required, rows))[t] ==
      if rows.Some? && Some(t) in rows.value then 0 else multiset(required)[t]
  {
    if required == [] {
    } else {
      var n := |required| - 1;
      MissingTimes(required[..n], rows, t);
      assert required == required[..n] + [required[n]];
    }
  }

  /** The missing tables come in the order in which they are required. */
  lemma {:induction false} MissingInOrder(required: seq<string>, rows: Rows, k: nat)
    requires k <= |required|
    ensures Missing(required[..k], rows) <= Missing(required, rows)
    decreases |required|
  {
    if k == |required| {
      assert required[..k] == required;
    } else {
      var n := |required| - 1;
      MissingInOrder(required[..n], rows, k);
      assert required[..n][..k] == required[..k];
    }
  }

  /** A failed query passes for a poll that found everything exactly if nothing is required. */
  lemma LostPollPasses(required: seq<string>)
    ensures NothingMissing(required, None) <==> required == []
  {
    if required != [] {
      assert required[0] in required;
    }
  }

  method CheckMissingTables(required: seq<string>, rows: Rows) returns (missing: seq<string>)
    ensures missing == Missing(required, rows)
    ensures missing == [] <==> NothingMissing(required, rows)
    ensures forall t ::
      multiset(missing)[t] == if rows.Some? && Some(t) in rows.value then 0 else multiset(required)[t]
  {
    forall t
      ensures multiset(Missing(required, rows))[t] ==
        if rows.Some? && Some(t) in rows.value then 0 else multiset(required)[t]
    {
      MissingTimes(required, rows, t);
    }
    MissingNone(required, rows);
    if rows.None? {
      AllMissing(required, rows);
      return required;
    }
    var found: set<string> := {};
    for i := 0 to |rows.value|
      invariant forall t :: t in found <==> Some(t) in rows.value[..i]
    {
      assert rows.value[..i + 1] == rows.value[..i] + [rows.value[i]];
      if rows.value[i].Some? {
        found := found + {rows.value[i].value};
      }
    }
    assert rows.value[..|rows.value|] == rows.value;
    missing := [];
    for i := 0 to |required|
      invariant missing == Missing(required[..i], rows)
    {
      assert required[..i + 1][..i] == required[..i];
      if required[i] !in found {
        missing := missing + [required[i]];
      }
    }
    assert required[..|required|] == required;
  }

  /** One wake-up of a waiting replica: cancelled, or the answers its queries would get. */
  datatype Wake = Cancelled | Poll(rows: Rows, sentinelSeen: bool)

  ghost predicate Passes(schema: Schema, waitIndexes: bool, w: Wake) {
    w.Poll? && NothingMissing(schema.tracked, w.rows) && (waitIndexes && schema.sentinel != "" ==> w.sentinelSeen)
  }

  lemma PassesPlainly(schema: Schema, waitIndexes: bool, w: Wake)
    requires w.Poll?
    ensures Passes(schema, waitIndexes, w) <==>
      && (forall t :: t in schema.tracked ==> w.rows.Some? && Some(t) in w.rows.value)
      && (waitIndexes && schema.sentinel != "" ==> w.sentinelSeen)
  {
    assert forall t :: Found(w.rows, t) <==> w.rows.Some? && Some(t) in w.rows.value;
  }

  lemma NotYet(schema: Schema, waitIndexes: bool, wakes: seq<Wake>, n: nat)
    requires n <= |wakes| && forall i :: 0 <= i < n ==> wakes[i].Poll? && !Passes(schema, waitIndexes, wakes[i])
    ensures forall w :: w in wakes[..n] ==>
      && w.Poll?
      && ((exists t :: t in schema.tracked && (w.rows.None? || Some(t) !in w.rows.value)) ||
          (waitIndexes && schema.sentinel != "" && !w.sentinelSeen))
  {
    forall w | w in wakes[..n]
      ensures
        && w.Poll?
        && ((exists t :: t in schema.tracked && (w.rows.None? || Some(t) !in w.rows.value)) ||
            (waitIndexes && schema.sentinel != "" && !w.sentinelSeen))
    {
      assert !Passes(schema, waitIndexes, w);
      PassesPlainly(schema, waitIndexes, w);
    }
  }

  /** The replica wakes, uncancelled, until a poll passes at n. */
  ghost predicate FirstPass(schema: Schema, waitIndexes: bool, wakes: seq<Wake>, n: nat) {
    && n < |wakes| && Passes(schema, waitIndexes, wakes[n])
    && forall i :: 0 <= i < n ==> wakes[i].Poll? && !Passes(schema, waitIndexes, wakes[i])
  }

  datatype Waited = Cut | Ready | StillWaiting

  /** Polls until a poll passes or the replica is cancelled, for as many wake-ups as there are. */
  method WaitForSchema(schema: Schema, waitIndexes: bool, wakes: seq<Wake>) returns (r: Waited, n: nat)
    ensures n <= |wakes| && forall i :: 0 <= i < n ==> wakes[i].Poll? && !Passes(schema, waitIndexes, wakes[i])
    ensures r.Ready? ==> FirstPass(schema, waitIndexes, wakes, n)
    ensures r.Cut? ==> n < |wakes| && wakes[n].Cancelled?
    ensures r.StillWaiting? ==> n == |wakes|
    ensures forall w :: w in wakes[..n] ==>
      && w.Poll?
      && ((exists t :: t in schema.tracked && (w.rows.None? || Some(t) !in w.rows.value)) ||
          (waitIndexes && schema.sentinel != "" && !w.sentinelSeen))
    ensures r.Ready? ==>
      n < |wakes| && wakes[n].Poll? &&
      (forall t :: t in schema.tracked ==> wakes[n].rows.Some? && Some(t) in wakes[n].rows.value) &&
      (waitIndexes && schema.sentinel != "" ==> wakes[n].sentinelSeen)
  {
    n := 0;
    while n < |wakes|
      invariant n <= |wakes| && forall i :: 0 <= i < n ==> wakes[i].Poll? && !Passes(schema, waitIndexes, wakes[i])
    {
      if wakes[n].Cancelled? {
        NotYet(schema, waitIndexes, wakes, n);
        return Cut, n;
      }
      PassesPlainly(schema, waitIndexes, wakes[n]);
      var missing := CheckMissingTables(schema.tracked, wakes[n].rows);
      if |missing| > 0 {
        n := n + 1;
        continue;
      }
      if waitIndexes && schema.sentinel != "" && !wakes[n].sentinelSeen {
        n := n + 1;
        continue;
      }
      NotYet(schema, waitIndexes, wakes, n);
      return Ready, n;
    }
    NotYet(schema, waitIndexes, wakes, n);
    r := StillWaiting;
  }

  // ---------------------------------------------------------------- migration

  class Catalogue {
    var tables: set<string>
    var indexes: set<string>
    var holder: Option<nat>

    constructor ()
      ensures tables == {} && indexes == {} && holder == None
    {
      tables, indexes, holder := {}, {}, None;
    }

    /** Runs the table statements in sequence, up to the first that fails. */
    method CreateTables(schema: Schema, replies: seq<Reply>) returns (ok: bool)
      requires |replies| == |schema.tables|
      modifies this`tables
      ensures ok <==> Completions(schema.tables, replies) == |schema.tables|
      ensures tables == Created(old(tables), schema.tables, replies)
      ensures ok <==> forall i :: 0 <= i < |replies| ==> replies[i].Completed?
      ensures forall name :: name in tables <==>
        || name in old(tables)
        || exists i :: 0 <= i < |replies| && schema.tables[i] == name &&
            (replies[i].Failed? ==> replies[i].tookEffect) && forall j :: 0 <= j < i ==> replies[j].Completed?
    {
      var all := schema.tables;
      for i := 0 to |all|
        invariant tables == old(tables) + SetOf(all[..i]) && forall j :: 0 <= j < i ==> replies[j].Completed?
      {
        PrefixNext(all, i);
        if replies[i].Failed? {
          if replies[i].tookEffect {
            tables := tables + {all[i]};
          }
          CreatedMembers(old(tables), all, replies);
          return false;
        }
        tables := tables + {all[i]};
      }
      assert all[..|all|] == all;
      CreatedMembers(old(tables), all, replies);
      return true;
    }

    /** Runs the index statements in sequence, each in a transaction of its own. */
    method CreateIndexes(schema: Schema, replies: seq<Reply>) returns (ok: bool)
      requires |replies| == |schema.indexes|
      modifies this`indexes
      ensures ok <==> Completions(schema.indexes, replies) == |schema.indexes|
      ensures indexes == Created(old(indexes), schema.indexes, replies)
      ensures ok <==> forall i :: 0 <= i < |replies| ==> replies[i].Completed?
      ensures forall name :: name in indexes <==>
        || name in old(indexes)
        || exists i :: 0 <= i < |replies| && schema.indexes[i] == name &&
            (replies[i].Failed? ==> replies[i].tookEffect) && forall j :: 0 <= j < i ==> replies[j].Completed?
    {
      var all := schema.indexes;
      for i := 0 to |all|
        invariant indexes == old(indexes) + SetOf(all[..i]) && forall j :: 0 <= j < i ==> replies[j].Completed?
      {
        PrefixNext(all, i);
        if replies[i].Failed? {
          if replies[i].tookEffect {
            indexes := indexes + {all[i]};
          }
          CreatedMembers(old(indexes), all, replies);
          return false;
        }
        indexes := indexes + {all[i]};
      }
      assert all[..|all|] == all;
      CreatedMembers(old(indexes), all, replies);
      return true;
    }

    /** Runs the statements if the try-lock succeeds, waits for them otherwise.  `live` says whether the replica's
        context is still live at the deferred unlock.  The result is absent while it is still waiting. */
    method MigrateWithLock(me: nat, schema: Schema, indexing: bool, answered: bool, tableReplies: seq<Reply>,
                           indexReplies: seq<Reply>, live: bool, wakes: seq<Wake>) returns (ok: Option<bool>)
      requires |tableReplies| == |schema.tables| && |indexReplies| == |schema.indexes|
      modifies this
      ensures !answered ==> ok == Some(false)
      ensures !answered || old(holder).Some? ==>
        tables == old(tables) && indexes == old(indexes) && holder == old(holder)
      ensures answered && old(holder).None? ==>
        && holder == (if live then None else Some(me))
        && tables == Created(old(tables), schema.tables, tableReplies)
        && indexes == (if indexing && Completions(schema.tables, tableReplies) == |schema.tables|
                       then Created(old(indexes), schema.indexes, indexReplies) else old(indexes))
        && (ok == Some(true) || ok == Some(false))
        && (ok == Some(true) <==>
          && Completions(schema.tables, tableReplies) == |schema.tables|
          && (indexing ==> Completions(schema.indexes, indexReplies) == |schema.indexes|))
      ensures answered && old(holder).Some? ==>
        (ok == Some(true) <==> exists n: nat :: FirstPass(schema, indexing, wakes, n))
      ensures answered && old(holder).Some? ==> (ok == Some(true) <==>
        exists n :: 0 <= n < |wakes| && wakes[n].Poll? &&
          (forall t :: t in schema.tracked ==> wakes[n].rows.Some? && Some(t) in wakes[n].rows.value) &&
          (indexing && schema.sentinel != "" ==> wakes[n].sentinelSeen) &&
          forall i :: 0 <= i < n ==> wakes[i].Poll?)
      ensures answered && old(holder).Some? ==> (ok == Some(false) <==>
        exists n :: 0 <= n < |wakes| && wakes[n].Cancelled? && forall w :: w in wakes[..n] ==>
          && w.Poll?
          && ((exists t :: t in schema.tracked && (w.rows.None? || Some(t) !in w.rows.value)) ||
              (indexing && schema.sentinel != "" && !w.sentinelSeen)))
    {
      if !answered {
        return Some(false);
      }
      if holder.None? {
        holder := Some(me);
        var done := CreateTables(schema, tableReplies);
        if done && indexing {
          done := CreateIndexes(schema, indexReplies);
        }
        if live {
          holder := None;
        }
        return Some(done);
      }
      var r, n := WaitForSchema(schema, indexing, wakes);
      ok := match r case Ready => Some(true) case Cut => Some(false) case StillWaiting => None;
    }
  }
}
