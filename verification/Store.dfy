/** The accumulators as the program holds them: mutable cells with latency maps of their own. */

module Store {
  import opened Picks
  import opened Frequency
  import opened Tally

  /** One more observation of a latency, and n more. */
  function Bumped(m: Freq, us: int, n: nat): Freq {
    m[us := Get(m, us) + n]
  }

  lemma {:induction false} BumpedObs(m: Freq, us: int)
    ensures Obs(Bumped(m, us, 1)) == Obs(m) + multiset{us}
  {
    var left, right := Obs(Bumped(m, us, 1)), Obs(m) + multiset{us};
    assert forall x :: left[x] == right[x];
  }

  lemma {:induction false} ObsAdds(a: Freq, b: Freq, c: Freq)
    requires forall k :: Get(c, k) == Get(a, k) + Get(b, k)
    ensures Obs(c) == Obs(a) + Obs(b)
  {
    var left, right := Obs(c), Obs(a) + Obs(b);
    assert forall x :: left[x] == right[x];
  }

  /** Every key stands for at least one observation. */
  ghost predicate Positive(m: Freq) {
    forall k :: k in m ==> m[k] > 0
  }

  /** A Go map of latencies: a reference, shared by whoever copies it. */
  class LatencyMap {
    var m: Freq

    constructor ()
      ensures m == map[]
    {
      m := map[];
    }

    method Increment(us: int)
      modifies this
      ensures Obs(m) == old(Obs(m)) + multiset{us}
      ensures old(Positive(m)) ==> Positive(m)
    {
      BumpedObs(m, us);
      m := Bumped(m, us, 1);
    }

    /** Every key of another map adds its observations here, in whatever order the keys come. */
    method AddAll(other: LatencyMap)
      requires other != this
      modifies this
      ensures Obs(m) == old(Obs(m)) + Obs(other.m)
      ensures old(Positive(m)) && Positive(other.m) ==> Positive(m)
    {
      var left := other.m.Keys;
      while left != {}
        invariant left <= other.m.Keys
        invariant forall k :: Get(m, k) == Get(old(m), k) + if k in left then 0 else Get(other.m, k)
        invariant forall k :: k in m ==> k in old(m) || k in other.m
      {
        var us := Pick(left);
        left := left - {us};
        m := Bumped(m, us, other.m[us]);
      }
      ObsAdds(old(m), other.m, m);
      assert forall k :: k in m ==> m[k] == Get(m, k);
    }
  }

  /** An accumulator copied by value: the counts are the copy's own, the latency map is not. */
  datatype OpValue = OpValue(count: nat, errors: nat, latencies: LatencyMap?)

  function Held(latencies: LatencyMap?): Freq
    reads latencies
  {
    if latencies == null then map[] else latencies.m
  }

  ghost function StatOf(v: OpValue): Stat
    reads v.latencies
  {
    Stat(v.count, v.errors, Obs(Held(v.latencies)))
  }

  /** A struct copy that stands for s. */
  ghost predicate Stands(v: OpValue, s: Stat)
    reads v.latencies
  {
    StatOf(v) == s && Positive(Held(v.latencies))
  }

  lemma ObsOfNone()
    ensures Obs(map[]) == ZERO.obs
  {
    assert Obs(map[]) == multiset{};
  }

  /** One accumulator.  `obs` is the content of its latency map, and `Sound` says so. */
  class OpStats {
    var count: nat
    var errors: nat
    var latencies: LatencyMap?
    ghost var obs: multiset<int>

    ghost predicate Sound()
      reads this, latencies
    {
      obs == Obs(Held(latencies)) && Positive(Held(latencies))
    }

    ghost function Abs(): Stat
      reads this
    {
      Stat(count, errors, obs)
    }

    constructor ()
      ensures Sound() && Abs() == ZERO && latencies == null
    {
      count, errors, latencies, obs := 0, 0, null, ZERO.obs;
      new;
      ObsOfNone();
    }

    function Value(): OpValue
      reads this
    {
      OpValue(count, errors, latencies)
    }

    /** Counts one op; a failed one is counted as an error and contributes no latency.  The map is allocated with
        the first latency, and a negative duration is pinned to zero. */
    method Note(o: Outcome)
      requires Sound()
      modifies this, latencies
      ensures Sound()
      ensures count == old(count) + 1 && errors == old(errors) + (if o.Failed? then 1 else 0)
      ensures o.Success? ==> obs == old(obs) + multiset{if o.us < 0 then 0 else o.us}
      ensures o.Failed? ==> obs == old(obs)
      ensures obs == Obs(Held(latencies)) && obs == old(obs) + Unit(o).obs
      ensures latencies == old(latencies) || (old(latencies) == null && fresh(latencies))
    {
      hide Obs;
      hide Positive;
      count := count + 1;
      if o.Failed? {
        errors := errors + 1;
        NothingMore(obs);
        return;
      }
      var mine := latencies;
      if mine == null {
        mine := new LatencyMap();
        latencies := mine;
      }
      var us := if o.us < 0 then 0 else o.us;
      mine.Increment(us);
      obs := obs + multiset{us};
    }

    /** A struct copy keeps standing for what the accumulator held, as long as nobody writes to its map. */
    twostate lemma CopyKept(v: OpValue)
      requires old(Sound()) && v == old(Value()) && (v.latencies != null ==> unchanged(v.latencies))
      ensures Stands(v, old(Abs()))
    {
    }

    /** Copies the struct out and zeroes it. */
    method Take() returns (v: OpValue)
      requires Sound()
      modifies this
      ensures v == old(Value()) && Obs(Held(v.latencies)) == old(obs) && Positive(Held(v.latencies))
      ensures Sound() && count == 0 && errors == 0 && obs == ZERO.obs && latencies == null
    {
      v := Value();
      count, errors, latencies, obs := 0, 0, null, ZERO.obs;
      ObsOfNone();
    }

    /** Adds src's counts and observations.  src is only read, so its struct value is passed; the map is allocated
        with the first entry to go into it. */
    method MergeFrom(src: OpValue, ghost s: Stat)
      requires Sound() && Stands(src, s)
      requires src.latencies == null || src.latencies != latencies
      modifies this, latencies
      ensures Sound()
      ensures count == old(count) + s.count && errors == old(errors) + s.errors && obs == old(obs) + s.obs
      ensures latencies == old(latencies) || (old(latencies) == null && fresh(latencies))
    {
      hide Obs;
      hide Positive;
      count := count + src.count;
      errors := errors + src.errors;
      obs := obs + s.obs;
      if src.latencies == null || src.latencies.m.Keys == {} {
        assert Held(src.latencies) == map[];
        ObsOfNone();
        NothingMore(old(obs));
        return;
      }
      var mine := latencies;
      if mine == null {
        mine := new LatencyMap();
        latencies := mine;
      }
      mine.AddAll(src.latencies);
    }
  }

  lemma NothingMore(ms: multiset<int>)
    ensures ms + multiset{} == ms && ms + ZERO.obs == ms
  {
  }
}
