/** Exported counters that follow server statistics across resets. */

module IndexStats {
  // ------------------------------------------- what the server does to one key

  /** The statistic grows, is reset to zero, or is read by the exporter. */
  datatype Tick = Grow(n: nat) | Reset | Read

  ghost function Server(ticks: seq<Tick>): nat {
    if ticks == [] then 0 else
      var before := Server(ticks[..|ticks| - 1]);
      match ticks[|ticks| - 1]
      case Grow(n) => before + n
      case Reset => 0
      case Read => before
  }

  /** The values read. */
  ghost function Readings(ticks: seq<Tick>): seq<nat> {
    if ticks == [] then [] else
      var init := ticks[..|ticks| - 1];
      if ticks[|ticks| - 1].Read? then Readings(init) + [Server(init)] else Readings(init)
  }

  /** How much the statistic truly grew since it was first read. */
  ghost function Activity(ticks: seq<Tick>): nat {
    if ticks == [] then 0 else
      var init := ticks[..|ticks| - 1];
      Activity(init) + if ticks[|ticks| - 1].Grow? && Readings(init) != [] then ticks[|ticks| - 1].n else 0
  }

  /** Was the statistic reset after it was first read? */
  ghost predicate ResetSince(ticks: seq<Tick>) {
    ticks != [] &&
    var init := ticks[..|ticks| - 1];
    ResetSince(init) || (ticks[|ticks| - 1].Reset? && Readings(init) != [])
  }

  // ----------------------------------------------------- what is exported

  function Step(prev: int, current: int): nat {
    if current < prev then 0 else current - prev
  }

  /** The exported counter after a sequence of readings. */
  ghost function Exported(readings: seq<int>): nat {
    if |readings| < 2 then 0
    else Exported(readings[..|readings| - 1]) + Step(readings[|readings| - 2], readings[|readings| - 1])
  }

  lemma {:induction false} ExportedSnoc(readings: seq<int>, current: int)
    ensures Exported(readings + [current]) ==
      Exported(readings) +
        if readings == [] || current < readings[|readings| - 1] then 0 else current - readings[|readings| - 1]
  {
    assert (readings + [current])[..|readings|] == readings;
  }

  /** Nothing is invented, resets or not: the counter, with whatever the next reading would add to it, is within the
      true activity since the first reading. */
  lemma {:induction false} ExportedSound(ticks: seq<Tick>)
    ensures var rs := Readings(ticks); rs != [] ==>
      && Exported(rs) + Step(rs[|rs| - 1], Server(ticks)) <= Activity(ticks)
  {
    if ticks == [] {
    } else {
      var init, t := ticks[..|ticks| - 1], ticks[|ticks| - 1];
      ExportedSound(init);
      if t.Read? {
        ExportedSnoc(Readings(init), Server(init));
      }
    }
  }

  lemma {:induction false} ExportedGrows(rs: seq<int>, more: seq<int>)
    ensures Exported(rs) <= Exported(rs + more)
  {
    if more == [] {
      assert rs + more == rs;
    } else {
      var n := |more| - 1;
      ExportedGrows(rs, more[..n]);
      assert rs + more == (rs + more[..n]) + [more[n]];
      ExportedSnoc(rs + more[..n], more[n]);
    }
  }

  lemma {:induction false} ReadingsGrow(ticks: seq<Tick>, more: seq<Tick>)
    ensures Readings(ticks) <= Readings(ticks + more)
  {
    if more == [] {
      assert ticks + more == ticks;
    } else {
      var n := |more| - 1;
      ReadingsGrow(ticks, more[..n]);
      assert (ticks + more)[..|ticks + more| - 1] == ticks + more[..n];
    }
  }

  /** The exported counter never decreases. */
  lemma {:induction false} ExportedMonotone(ticks: seq<Tick>, more: seq<Tick>)
    ensures Exported(Readings(ticks)) <= Exported(Readings(ticks + more))
  {
    ReadingsGrow(ticks, more);
    var rs, all := Readings(ticks), Readings(ticks + more);
    ExportedGrows(rs, all[|rs|..]);
    assert rs + all[|rs|..] == all;
  }

  /** Without a reset the counter is the last reading minus the first, and what the server has beyond the last
      reading is all that is missing. */
  lemma {:induction false} ExportedExact(ticks: seq<Tick>)
    requires !ResetSince(ticks) && Readings(ticks) != []
    ensures var rs := Readings(ticks); var last := rs[|rs| - 1];
      && Exported(rs) == last - rs[0] && last <= Server(ticks)
      && Activity(ticks) == Server(ticks) - rs[0]
  {
    var init, t := ticks[..|ticks| - 1], ticks[|ticks| - 1];
    if Readings(init) != [] {
      ExportedExact(init);
      if t.Read? {
        ExportedSnoc(Readings(init), Server(init));
      }
    } else {
      NothingReadYet(init);
    }
  }

  lemma {:induction false} NothingReadYet(ticks: seq<Tick>)
    requires Readings(ticks) == []
    ensures Activity(ticks) == 0
  {
    if ticks == [] {
    } else {
      NothingReadYet(ticks[..|ticks| - 1]);
    }
  }

  // ---------------------------------------------------------------- the code

  ghost function Seen(seen: map<string, seq<int>>, key: string): seq<int> {
    if key in seen then seen[key] else []
  }

  ghost function Observe(seen: map<string, seq<int>>, key: string, current: int): map<string, seq<int>> {
    seen[key := Seen(seen, key) + [current]]
  }

  /** The last value read per key.  `seen` is everything read so far. */
  class Tracker {
    var lastSeen: map<string, int>
    ghost var seen: map<string, seq<int>>

    ghost predicate Valid()
      reads this
    {
      && lastSeen.Keys == seen.Keys
      && forall key :: key in seen ==> seen[key] != [] && lastSeen[key] == seen[key][|seen[key]| - 1]
    }

    constructor ()
      ensures Valid() && seen == map[]
    {
      lastSeen, seen := map[], map[];
    }

    /** What to add to the exported counter of a key for it to follow the readings. */
    method Delta(key: string, current: int) returns (d: nat)
      requires Valid()
      modifies this
      ensures Valid() && seen == Observe(old(seen), key, current)
      ensures Exported(Seen(old(seen), key)) + d == Exported(Seen(seen, key))
      ensures d == if key in old(lastSeen) && current > old(lastSeen)[key] then current - old(lastSeen)[key] else 0
      ensures lastSeen == old(lastSeen)[key := current]
    {
      ghost var before := Seen(seen, key);
      ExportedSnoc(before, current);
      d := 0;
      if key in lastSeen && current >= lastSeen[key] {
        d := current - lastSeen[key];
      }
      lastSeen := lastSeen[key := current];
      seen := Observe(seen, key, current);
    }
  }

  // ------------------------------------------------------------------- keys

  const VACUUM: string := ":autovacuum"
  const ANALYZE: string := ":autoanalyze"

  /** The two statistics of all tables have keys of their own. */
  lemma KeysApart(s: string, t: string)
    ensures s + VACUUM == t + VACUUM ==> s == t
    ensures s + ANALYZE == t + ANALYZE ==> s == t
    ensures s + VACUUM != t + ANALYZE
  {
    var v, a := s + VACUUM, t + ANALYZE;
    assert v[|v| - 1] == 'm' && a[|a| - 1] == 'e';
    SuffixCancels(s, t, VACUUM);
    SuffixCancels(s, t, ANALYZE);
  }

  lemma SuffixCancels(s: string, t: string, suffix: string)
    ensures s + suffix == t + suffix ==> s == t
  {
    if s + suffix == t + suffix {
      assert |s| == |t|;
      assert (s + suffix)[..|s|] == s && (t + suffix)[..|t|] == t;
    }
  }

  function Count(m: map<string, nat>, table: string): nat {
    if table in m then m[table] else 0
  }

  /** A row of the table statistics; one that cannot be scanned ends the collection. */
  datatype Row = Row(table: string, vacuums: int, analyzes: int) | Unscannable

  /** The exported counters by table. */
  class TableCounters {
    var vacuums: map<string, nat>
    var analyzes: map<string, nat>

    constructor ()
      ensures Follows(this, map[])
    {
      vacuums, analyzes := map[], map[];
    }
  }

  /** Every counter of one statistic is what its own readings export. */
  ghost predicate Matches(counts: map<string, nat>, seen: map<string, seq<int>>, suffix: string) {
    forall t :: Count(counts, t) == Exported(Seen(seen, t + suffix))
  }

  ghost predicate Follows(c: TableCounters, seen: map<string, seq<int>>)
    reads c
  {
    Matches(c.vacuums, seen, VACUUM) && Matches(c.analyzes, seen, ANALYZE)
  }

  /** Adding a key's delta to its counter keeps every counter of the statistic in step. */
  lemma MatchesAdd(
      counts: map<string, nat>, seen: map<string, seq<int>>, table: string, suffix: string, current: int, d: nat)
    requires Matches(counts, seen, suffix)
    requires Exported(Seen(seen, table + suffix)) + d ==
      Exported(Seen(Observe(seen, table + suffix, current), table + suffix))
    ensures Matches(if d > 0 then counts[table := Count(counts, table) + d] else counts,
                    Observe(seen, table + suffix, current), suffix)
  {
    hide Exported;
    var next := if d > 0 then counts[table := Count(counts, table) + d] else counts;
    var after := Observe(seen, table + suffix, current);
    forall t ensures Count(next, t) == Exported(Seen(after, t + suffix)) {
      SuffixCancels(t, table, suffix);
      assert Count(counts, t) == Exported(Seen(seen, t + suffix));
    }
  }

  /** A reading of one statistic leaves the counters of the other alone. */
  lemma MatchesOther(counts: map<string, nat>, seen: map<string, seq<int>>, suffix: string, key: string, current: int)
    requires Matches(counts, seen, suffix) && forall t :: t + suffix != key
    ensures Matches(counts, Observe(seen, key, current), suffix)
  {
    hide Exported;
    forall t ensures Count(counts, t) == Exported(Seen(Observe(seen, key, current), t + suffix)) {
      assert t + suffix != key;
      assert Count(counts, t) == Exported(Seen(seen, t + suffix));
    }
  }

  ghost function ObserveRow(seen: map<string, seq<int>>, r: Row): map<string, seq<int>>
    requires r.Row?
  {
    Observe(Observe(seen, r.table + VACUUM, r.vacuums), r.table + ANALYZE, r.analyzes)
  }

  ghost function ObserveRows(seen: map<string, seq<int>>, rows: seq<Row>): map<string, seq<int>>
    requires forall r :: r in rows ==> r.Row?
  {
    if rows == [] then seen else ObserveRow(ObserveRows(seen, rows[..|rows| - 1]), rows[|rows| - 1])
  }

  /** A row is a reading of its table's two statistics and of nothing else. */
  lemma RowSeen(seen: map<string, seq<int>>, r: Row)
    requires r.Row?
    ensures var now := ObserveRow(seen, r);
      && Seen(now, r.table + ":autovacuum") == Seen(seen, r.table + ":autovacuum") + [r.vacuums]
      && Seen(now, r.table + ":autoanalyze") == Seen(seen, r.table + ":autoanalyze") + [r.analyzes]
      && forall key :: key != r.table + ":autovacuum" && key != r.table + ":autoanalyze" ==>
        Seen(now, key) == Seen(seen, key)
  {
    KeysApart(r.table, r.table);
  }

  method CollectRow(r: Row, tracker: Tracker, c: TableCounters)
    requires r.Row? && tracker.Valid() && Follows(c, tracker.seen)
    modifies tracker, c
    ensures tracker.Valid() && Follows(c, tracker.seen) && tracker.seen == ObserveRow(old(tracker.seen), r)
  {
    hide Matches;
    hide Exported;
    hide Observe;
    hide Seen;
    forall t ensures t + VACUUM != r.table + ANALYZE && t + ANALYZE != r.table + VACUUM {
      KeysApart(t, r.table);
      KeysApart(r.table, t);
    }
    ghost var seen := tracker.seen;
    var d := tracker.Delta(r.table + VACUUM, r.vacuums);
    MatchesAdd(c.vacuums, seen, r.table, VACUUM, r.vacuums, d);
    MatchesOther(c.analyzes, seen, ANALYZE, r.table + VACUUM, r.vacuums);
    if d > 0 {
      c.vacuums := c.vacuums[r.table := Count(c.vacuums, r.table) + d];
    }
    seen := tracker.seen;
    d := tracker.Delta(r.table + ANALYZE, r.analyzes);
    MatchesAdd(c.analyzes, seen, r.table, ANALYZE, r.analyzes, d);
    MatchesOther(c.vacuums, seen, VACUUM, r.table + ANALYZE, r.analyzes);
    if d > 0 {
      c.analyzes := c.analyzes[r.table := Count(c.analyzes, r.table) + d];
    }
  }

  lemma {:induction false} FollowsEach(c: TableCounters, seen: map<string, seq<int>>)
    requires Follows(c, seen)
    ensures forall t :: Count(c.vacuums, t) == Exported(Seen(seen, t + ":autovacuum"))
    ensures forall t :: Count(c.analyzes, t) == Exported(Seen(seen, t + ":autoanalyze"))
  {
  }

  lemma {:induction false} RowsNext(now: map<string, seq<int>>, seen: map<string, seq<int>>, rows: seq<Row>, i: nat)
    requires i < |rows| && (forall j :: 0 <= j <= i ==> rows[j].Row?) && now == ObserveRows(seen, rows[..i])
    ensures ObserveRows(seen, rows[..i + 1]) == ObserveRow(now, rows[i])
  {
    assert rows[..i + 1][..i] == rows[..i];
  }

  /** One tick of the table statistics: the rows before the first that cannot be scanned, none if the query fails.
      `complete` says whether the rows ended without an error. */
  method CollectTableStats(queried: bool, rows: seq<Row>, complete: bool, tracker: Tracker, c: TableCounters)
    returns (ok: bool, ghost n: nat)
    requires tracker.Valid() && Follows(c, tracker.seen)
    modifies tracker, c
    ensures n <= |rows| && (forall i :: 0 <= i < n ==> rows[i].Row?)
    ensures if queried then n < |rows| ==> rows[n].Unscannable? else n == 0
    ensures ok <==> queried && n == |rows| && complete
    ensures tracker.Valid() && Follows(c, tracker.seen) && tracker.seen == ObserveRows(old(tracker.seen), rows[..n])
    ensures forall t :: Count(c.vacuums, t) == Exported(Seen(tracker.seen, t + ":autovacuum"))
    ensures forall t :: Count(c.analyzes, t) == Exported(Seen(tracker.seen, t + ":autoanalyze"))
  {
    hide Follows;
    hide ObserveRow;
    hide Tracker.Valid;
    assert ObserveRows(tracker.seen, []) == tracker.seen && rows[..0] == [];
    hide ObserveRows;
    n := 0;
    if !queried {
      FollowsEach(c, tracker.seen);
      return false, n;
    }
    for i := 0 to |rows|
      invariant n == i && forall j :: 0 <= j < i ==> rows[j].Row?
      invariant tracker.Valid() && Follows(c, tracker.seen)
      invariant tracker.seen == ObserveRows(old(tracker.seen), rows[..i])
    {
      if rows[i].Unscannable? {
        FollowsEach(c, tracker.seen);
        return false, n;
      }
      RowsNext(tracker.seen, old(tracker.seen), rows, i);
      CollectRow(rows[i], tracker, c);
      n := n + 1;
    }
    FollowsEach(c, tracker.seen);
    ok := complete;
  }

  /** Keys do not interfere: a key's readings are those of its own rows. */
  lemma {:induction false} OwnReadings(seen: map<string, seq<int>>, rows: seq<Row>, t: string)
    requires forall r :: r in rows ==> r.Row?
    ensures Seen(ObserveRows(seen, rows), t + VACUUM) == Seen(seen, t + VACUUM) + ColumnOf(rows, t, true)
    ensures Seen(ObserveRows(seen, rows), t + ANALYZE) == Seen(seen, t + ANALYZE) + ColumnOf(rows, t, false)
  {
    if rows == [] {
    } else {
      hide Observe;
      hide ObserveRow;
      hide Seen;
      var n := |rows| - 1;
      OwnReadings(seen, rows[..n], t);
      RowSeen(ObserveRows(seen, rows[..n]), rows[n]);
      KeysApart(t, rows[n].table);
      KeysApart(rows[n].table, t);
    }
  }

  /** One statistic of one table, row by row. */
  ghost function ColumnOf(rows: seq<Row>, t: string, vacuum: bool): seq<int>
    requires forall r :: r in rows ==> r.Row?
  {
    if rows == [] then [] else
      var n := |rows| - 1;
      var init := ColumnOf(rows[..n], t, vacuum);
      if rows[n].table != t then init else init + [if vacuum then rows[n].vacuums else rows[n].analyzes]
  }
}
