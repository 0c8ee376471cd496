/** Accumulators by op name: a worker's window, a drain's merge, the run total. */

module Tables {
  import opened Lists
  import opened Picks
  import opened Frequency
  import opened Tally
  import opened Intervals
  import opened Pipeline
  import opened Store

  /** Tables that share neither cells nor latency maps. */
  ghost predicate Apart(t: StatsTable, u: StatsTable)
    reads t, u
  {
    t != u && t.owned !! u.owned && t.maps !! u.maps
  }

  /** Nobody wrote to the table. */
  twostate predicate Untouched(t: StatsTable)
    reads t, t.owned, t.maps
  {
    unchanged(t) && unchanged(t.owned) && unchanged(t.maps)
  }

  /** A table nobody wrote to is as it was. */
  twostate lemma TableKept(t: StatsTable)
    requires old(t.Valid()) && Untouched(t)
    ensures t.Valid() && t.Abs() == old(t.Abs())
  {
  }

  /** A map of op names to accumulators.  `maps` holds the latency maps its cells use. */
  class StatsTable {
    const cells: map<string, OpStats>
    ghost const owned: set<OpStats>
    ghost var maps: set<LatencyMap>

    ghost predicate Closed() {
      forall op :: op in cells ==> cells[op] in owned
    }

    ghost predicate Valid()
      reads this, owned, maps
      ensures Valid() ==> Closed()
    {
      && Closed()
      && (forall op :: op in cells && cells[op].latencies != null ==> cells[op].latencies in maps)
      && (forall op :: op in cells ==> cells[op].Sound())
      && (forall a, b :: a in cells && b in cells && a != b ==> cells[a] != cells[b])
      && (forall a, b :: a in cells && b in cells && a != b && cells[a].latencies != null ==>
        cells[a].latencies != cells[b].latencies)
    }

    ghost function Abs(): Window
      reads owned
      requires Closed()
    {
      map op | op in cells :: cells[op].Abs()
    }

    lemma AbsOver()
      requires Closed()
      ensures Abs().Keys == cells.Keys
    {
    }

    lemma CellSound(op: string)
      requires Valid() && op in cells
      ensures cells[op].Sound() && Closed() && op in Abs() && Abs()[op] == cells[op].Abs()
    {
    }

    /** The table's accumulators, read as struct values. */
    function Values(): (vs: map<string, OpValue>)
      reads set op | op in cells :: cells[op]
      ensures vs.Keys == cells.Keys && forall op :: op in cells ==> vs[op] == cells[op].Value()
    {
      map op | op in cells :: cells[op].Value()
    }

    lemma ValuesStand()
      requires Valid()
      ensures forall op :: op in cells ==> Stands(Values()[op], Abs()[op])
      ensures forall op :: op in cells && Values()[op].latencies != null ==> Values()[op].latencies in maps
    {
      forall op | op in cells ensures Stands(Values()[op], Abs()[op]) {
        assert cells[op].Sound();
      }
    }

    /** The struct copies Finalize hands out, made in whatever order the ops come. */
    method CopyOut() returns (out: map<string, OpValue>)
      ensures out == Values()
    {
      out := map[];
      var left := cells.Keys;
      while left != {}
        invariant left <= cells.Keys && out.Keys == cells.Keys - left
        invariant forall op :: op in out ==> out[op] == cells[op].Value()
      {
        var op := Pick(left);
        left := left - {op};
        out := out[op := cells[op].Value()];
      }
    }

    /** A copy handed out earlier, read after the table moved on: its counts are what they were, its latencies are
        the live ones.  So it still stands for what was reported exactly when no latency of the op was added
        since, or the op had no latency map when it was copied. */
    twostate lemma CopyAliases(op: string)
      requires old(Valid()) && Valid() && MapsStay() && op in cells
      ensures var v := old(cells[op].Value());
        && v.count == old(Abs()[op].count) && v.errors == old(Abs()[op].errors)
        && (StatOf(v) == old(Abs()[op]) <==> v.latencies == null || Abs()[op].obs == old(Abs()[op].obs))
    {
      assert cells[op].Sound() && old(cells[op].Sound());
      ObsOfNone();
    }

    constructor (ops: seq<string>)
      ensures Valid() && fresh(owned) && maps == {} && cells.Keys == SetOf(ops) && Abs() == Empty(ops)
    {
      hide OpStats.Sound;
      hide OpStats.Abs;
      hide SetOf;
      var m: map<string, OpStats> := map[];
      ghost var made: set<OpStats> := {};
      WholePrefix(ops);
      for i := 0 to |ops|
        invariant m.Keys == SetOf(ops[..i])
        invariant fresh(made) && forall op :: op in m ==> m[op] in made
        invariant forall op :: op in m ==> m[op].Sound() && m[op].Abs() == ZERO && m[op].latencies == null
        invariant forall a, b :: a in m && b in m && a != b ==> m[a] != m[b]
      {
        var s := new OpStats();
        PrefixNext(ops, i);
        m := m[ops[i] := s];
        made := made + {s};
      }
      cells := m;
      owned := made;
      maps := {};
      new;
      AllEmptied();
    }

    /** Cells hold on to the latency maps they have. */
    twostate predicate MapsStay()
      reads set op | op in cells :: cells[op]
    {
      forall op :: op in cells ==> old(cells[op].latencies) != null ==> cells[op].latencies == old(cells[op].latencies)
    }

    /** A cell nobody wrote to, nor to its map. */
    twostate predicate CellKept(op: string)
      requires op in cells
      reads cells[op], cells[op].latencies
    {
      unchanged(cells[op]) && (cells[op].latencies != null ==> unchanged(cells[op].latencies))
    }

    /** One cell changed, and at most came to a map of its own. */
    twostate lemma CellChanged(op: string)
      requires old(Valid()) && op in cells && cells[op].Sound()
      requires var m := cells[op].latencies;
        && (m == old(cells[op].latencies) || (old(cells[op].latencies) == null && m != null && fresh(m)))
        && maps == old(maps) + if m == null then {} else {m}
      requires forall x :: x in cells && x != op ==> CellKept(x)
      ensures Valid() && fresh(maps - old(maps)) && MapsStay()
      ensures forall x :: x in cells && x != op ==> cells[x].Abs() == old(cells[x].Abs())
    {
      hide OpStats.Sound;
      forall x | x in cells && x != op ensures cells[x].Sound() {
        assert CellKept(x) && old(cells[x].Sound());
      }
    }

    /** Called by the worker after every op it executed. */
    method Record(op: string, o: Outcome)
      requires Valid() && op in cells
      modifies this, owned, maps
      ensures Valid() && fresh(maps - old(maps))
      ensures Abs() == Observe(old(Abs()), op, o)
      ensures cells[op].count == old(cells[op].count) + 1
      ensures cells[op].errors == old(cells[op].errors) + (if o.Failed? then 1 else 0)
      ensures cells[op].obs ==
        old(cells[op].obs) + if o.Failed? then multiset{} else multiset{if o.us < 0 then 0 else o.us}
      ensures cells[op].obs == Obs(Held(cells[op].latencies))
      ensures forall x :: x in cells && x != op ==> unchanged(cells[x])
    {
      hide OpStats.Sound;
      ghost var was := Abs();
      var s := cells[op];
      s.Note(o);
      if s.latencies != null {
        maps := maps + {s.latencies};
      }
      CellChanged(op);
      UpdatedOne(was, Abs(), op, o);
    }

    ghost predicate Emptied(op: string)
      requires op in cells
      reads cells[op], cells[op].latencies
    {
      cells[op].Abs() == ZERO && cells[op].latencies == null && cells[op].Sound()
    }

    /** The loop of Snapshot: every struct copied out and zeroed, in whatever order the ops come. */
    method TakeAll() returns (out: map<string, OpValue>)
      requires forall op :: op in cells ==> cells[op].Sound() && cells[op] in owned
      requires forall a, b :: a in cells && b in cells && a != b ==> cells[a] != cells[b]
      modifies owned
      ensures out.Keys == cells.Keys
      ensures forall op :: op in cells ==> out[op] == old(cells[op].Value()) && Emptied(op)
    {
      hide OpStats.Sound;
      out := map[];
      var left := cells.Keys;
      while left != {}
        invariant left <= cells.Keys && out.Keys == cells.Keys - left
        invariant forall op :: op in left ==> cells[op].Value() == old(cells[op].Value()) && cells[op].Sound()
        invariant forall op :: op in out ==> out[op] == old(cells[op].Value()) && Emptied(op)
      {
        var op := Pick(left);
        left := left - {op};
        var v := cells[op].Take();
        out := out[op := v];
      }
    }

    ghost predicate Distinct() {
      forall a, b :: a in cells && b in cells && a != b ==> cells[a] != cells[b]
    }

    lemma AllEmptied()
      requires Closed() && Distinct() && forall op :: op in cells ==> Emptied(op)
      ensures Valid() && Abs() == Zeros(cells.Keys)
    {
    }

    lemma CellsApart()
      requires Valid()
      ensures Closed() && Distinct() && Abs().Keys == cells.Keys
      ensures forall op :: op in cells ==> cells[op].Sound() && cells[op] in owned && Abs()[op] == cells[op].Abs()
      ensures forall a, b :: a in cells && b in cells && a != b ==> cells[a] != cells[b]
      ensures forall op :: op in cells ==> Values()[op] == cells[op].Value()
    {
      hide OpStats.Sound;
      hide OpStats.Abs;
    }

    /** Hands the window to the caller and starts a new one.  The copies take the latency maps with them: from
        here on the worker has no reference to them. */
    method Snapshot() returns (out: map<string, OpValue>)
      requires Valid()
      modifies this, owned
      ensures Valid() && maps == {} && Abs() == Zeros(cells.Keys)
      ensures out.Keys == cells.Keys
      ensures forall op :: op in out ==> Stands(out[op], old(Abs())[op])
      ensures forall op :: op in out && out[op].latencies != null ==> out[op].latencies in old(maps)
    {
      hide *;
      CellsApart();
      ValuesStand();
      out := TakeAll();
      maps := {};
      forall op | op in cells ensures Stands(out[op], old(Abs())[op]) {
        cells[op].CopyKept(out[op]);
      }
      AllEmptied();
    }

    /** One entry of a fold. */
    method FoldOne(op: string, v: OpValue, ghost s: Stat)
      requires Valid() && op in cells && Stands(v, s) && (v.latencies == null || v.latencies !in maps)
      modifies this, owned, maps
      ensures Valid() && fresh(maps - old(maps)) && MapsStay()
      ensures op in old(Abs()) && Abs() == old(Abs())[op := Add(old(Abs())[op], s)]
    {
      hide OpStats.Sound;
      hide Stands;
      ghost var was := Abs();
      var m := cells[op];
      m.MergeFrom(v, s);
      if m.latencies != null {
        maps := maps + {m.latencies};
      }
      CellChanged(op);
      FoldedOne(was, Abs(), op, s);
    }

    /** Adds a window into this table: its ops in any order, ops the table does not have left out. */
    method Fold(src: map<string, OpValue>, ghost w: Window)
      requires Valid() && w.Keys == src.Keys
      requires forall op :: op in src ==> Stands(src[op], w[op])
      requires forall op :: op in src && src[op].latencies != null ==> src[op].latencies !in maps
      modifies this, owned, maps
      ensures Valid() && fresh(maps - old(maps)) && MapsStay()
      ensures Abs() == Merge(old(Abs()), w)
    {
      hide Valid;
      hide Abs;
      hide OpStats.Sound;
      hide Stands;
      hide Add;
      hide PartlyMerged;
      hide Merge;
      ghost var was := Abs();
      ghost var done: set<string> := {};
      AbsOver();
      PartlyMergedEnds(was, w);
      var left := src.Keys;
      while left != {}
        invariant left <= src.Keys && done == src.Keys - left
        invariant Valid() && fresh(maps - old(maps)) && MapsStay() && Abs() == PartlyMerged(was, w, done)
        invariant forall op :: op in src ==> Stands(src[op], w[op])
        invariant forall op :: op in src && src[op].latencies != null ==> src[op].latencies !in maps
      {
        var op := Pick(left);
        left := left - {op};
        if op in cells {
          PartlyMergedStep(was, w, done, op);
          FoldOne(op, src[op], w[op]);
        } else {
          PartlyMergedSkip(was, w, done, op);
        }
        done := done + {op};
      }
      assert done == w.Keys;
    }
  }

  lemma FoldedOne(was: Window, w: Window, op: string, s: Stat)
    requires op in w && w.Keys == was.Keys && forall x :: x in w && x != op ==> w[x] == was[x]
    requires w[op].count == was[op].count + s.count && w[op].errors == was[op].errors + s.errors
    requires w[op].obs == was[op].obs + s.obs
    ensures w == was[op := Add(was[op], s)]
  {
  }

  lemma UpdatedOne(was: Window, w: Window, op: string, o: Outcome)
    requires op in w && w.Keys == was.Keys && forall x :: x in w && x != op ==> w[x] == was[x]
    requires w[op].count == was[op].count + 1 && w[op].errors == was[op].errors + (if o.Failed? then 1 else 0)
    requires w[op].obs == was[op].obs + Unit(o).obs
    ensures w == Observe(was, op, o)
  {
  }

  /** Lifts src's window into dst and leaves src with an empty one. */
  method Lift(src: StatsTable, dst: StatsTable, ghost w: Window)
    requires src.Valid() && dst.Valid() && Apart(src, dst) && src.Abs() == w
    modifies src, src.owned, dst, dst.owned, dst.maps
    ensures src.Valid() && src.maps == {} && src.Abs() == Zeros(src.cells.Keys)
    ensures dst.Valid() && fresh(dst.maps - old(dst.maps))
    ensures dst.Abs() == Merge(old(dst.Abs()), w)
  {
    hide Stands;
    hide StatsTable.Valid;
    hide StatsTable.Abs;
    hide Zeros;
    hide Merge;
    src.AbsOver();
    var snap := src.Snapshot();
    TableKept(dst);
    label Lifted:
    dst.Fold(snap, w);
    TableKept@Lifted(src);
  }

  /** A window that was handed out stays what it was, however much is recorded in the table afterwards. */
  method RecordAll(t: StatsTable, events: seq<Event>, ghost held: map<string, OpValue>, ghost w: Window)
    requires t.Valid() && forall e :: e in events ==> e.op in t.cells
    requires w.Keys == held.Keys && forall op :: op in held ==> Stands(held[op], w[op])
    requires forall op :: op in held && held[op].latencies != null ==> held[op].latencies !in t.maps
    modifies t, t.owned, t.maps
    ensures t.Valid() && forall op :: op in held ==> Stands(held[op], w[op])
  {
    hide StatsTable.Valid;
    hide StatsTable.Abs;
    for i := 0 to |events|
      invariant t.Valid() && fresh(t.maps - old(t.maps))
      invariant forall op :: op in held ==> Stands(held[op], w[op])
      invariant forall op :: op in held && held[op].latencies != null ==> held[op].latencies !in t.maps
    {
      t.Record(events[i].op, events[i].outcome);
    }
  }
}
