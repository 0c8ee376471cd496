/** What one op's accumulator stands for, and the history it is measured against. */

module Tally {

  /** The outcome of an executed op: a latency in microseconds, or an error. */
  datatype Outcome = Success(us: int) | Failed

  datatype Event = Event(worker: nat, op: string, outcome: Outcome)

  /** The value of one accumulator: `obs` holds the latencies observed, with multiplicity. */
  datatype Stat = Stat(count: nat, errors: nat, obs: multiset<int>)

  ghost predicate IsZero(s: Stat) {
    s.count == 0 && s.errors == 0 && s.obs == multiset{}
  }

  /** Nothing counted.  Chosen rather than written out, so that sums with it are not evaluated eagerly. */
  ghost const ZERO: Stat :=
    assert IsZero(Stat(0, 0, multiset{}));
    var z: Stat :| IsZero(z); z

  /** Counts and observations of several ops, by op name. */
  type Window = map<string, Stat>

  ghost function At(w: Window, op: string): Stat {
    if op in w then w[op] else ZERO
  }

  /** A window in which nothing was counted. */
  ghost function Zeros(ops: set<string>): Window {
    map op | op in ops :: ZERO
  }

  function Pin(us: int): nat {
    if us < 0 then 0 else us
  }

  /** What a single op contributes: failures are counted but carry no latency. */
  ghost function Unit(o: Outcome): Stat {
    match o
    case Success(us) => Stat(1, 0, multiset{Pin(us)})
    case Failed => Stat(1, 1, multiset{})
  }

  ghost function Add(a: Stat, b: Stat): Stat {
    Stat(a.count + b.count, a.errors + b.errors, a.obs + b.obs)
  }

  /** The accumulator's own invariant: one latency for every op that did not fail. */
  ghost predicate Sampled(s: Stat) {
    s.count == s.errors + |s.obs|
  }

  ghost predicate Leq(a: Stat, b: Stat) {
    a.count <= b.count && a.errors <= b.errors && a.obs <= b.obs
  }

  /** The accumulator of an op after a history, computed directly. */
  ghost function TallyOf(h: seq<Event>, op: string): (s: Stat)
    ensures Sampled(s)
  {
    if h == [] then ZERO
    else
      var e := h[|h| - 1];
      var s := TallyOf(h[..|h| - 1], op);
      if e.op == op then Add(s, Unit(e.outcome)) else s
  }

  ghost function SumWindows(ws: seq<Window>, op: string): Stat {
    if ws == [] then ZERO
    else Add(SumWindows(ws[..|ws| - 1], op), At(ws[|ws| - 1], op))
  }

  lemma AddCommutes(a: Stat, b: Stat)
    ensures Add(a, b) == Add(b, a)
  {
  }

  lemma AddZero(a: Stat)
    ensures Add(a, ZERO) == a
  {
  }

  lemma AddAssociates(a: Stat, b: Stat, c: Stat)
    ensures Add(Add(a, b), c) == Add(a, Add(b, c))
    ensures Add(Add(a, b), c) == Add(Add(a, c), b)
  {
    assert (a.obs + b.obs) + c.obs == a.obs + (b.obs + c.obs);
    assert (a.obs + b.obs) + c.obs == (a.obs + c.obs) + b.obs;
  }

  lemma AddMonotone(a: Stat, b: Stat, c: Stat, d: Stat)
    requires Leq(a, b) && Leq(c, d)
    ensures Leq(Add(a, c), Add(b, d))
  {
  }

  lemma LeqOfSum(a: Stat, b: Stat)
    ensures Leq(a, Add(a, b))
  {
  }

  lemma LeqAntisymmetric(a: Stat, b: Stat)
    requires Leq(a, b) && Leq(b, a)
    ensures a == b
  {
    assert a.obs == b.obs;
  }

  /** If the whole is at least t and one part at most u, with t + u the whole of the bound, the rest covers t. */
  lemma LeqOfRemainder(total: Stat, part: Stat, t: Stat, u: Stat)
    requires Add(total, part) == Add(t, u) && Leq(part, u)
    ensures Leq(t, total)
  {
    var d := u.obs - part.obs;
    assert u.obs == part.obs + d;
    assert (t.obs + d) + part.obs == total.obs + part.obs;
    assert t.obs + d == (total.obs + part.obs) - part.obs == total.obs;
  }

  lemma {:induction false} TallyConcat(g: seq<Event>, h: seq<Event>, op: string)
    ensures TallyOf(g + h, op) == Add(TallyOf(g, op), TallyOf(h, op))
  {
    if h == [] {
      assert g + h == g;
    } else {
      var n := |h| - 1;
      TallyConcat(g, h[..n], op);
      assert g + h == (g + h[..n]) + [h[n]];
      AddAssociates(TallyOf(g, op), TallyOf(h[..n], op), Unit(h[n].outcome));
    }
  }

  lemma {:induction false} TallySplit(h: seq<Event>, mark: nat, op: string)
    requires mark <= |h|
    ensures TallyOf(h, op) == Add(TallyOf(h[..mark], op), TallyOf(h[mark..], op))
  {
    TallyConcat(h[..mark], h[mark..], op);
    assert h == h[..mark] + h[mark..];
  }

  lemma {:induction false} TallySnoc(h: seq<Event>, e: Event, op: string)
    ensures TallyOf(h + [e], op) == if e.op == op then Add(TallyOf(h, op), Unit(e.outcome)) else TallyOf(h, op)
  {
    assert (h + [e])[..|h|] == h;
  }

  /** Moving d into or out of one window moves it into or out of the sum, wherever the window stands. */
  lemma {:induction false} SumUpdate(ws: seq<Window>, i: nat, w: Window, op: string, d: Stat)
    requires i < |ws|
    requires At(w, op) == Add(At(ws[i], op), d)
    ensures SumWindows(ws[i := w], op) == Add(SumWindows(ws, op), d)
  {
    var n := |ws| - 1;
    var us := ws[i := w];
    if i == n {
      assert us[..n] == ws[..n];
      AddAssociates(SumWindows(ws[..n], op), At(ws[n], op), d);
    } else {
      SumUpdate(ws[..n], i, w, op, d);
      assert us[..n] == ws[..n][i := w];
      AddAssociates(SumWindows(ws[..n], op), d, At(ws[n], op));
    }
  }

  lemma {:induction false} SumUntouched(ws: seq<Window>, i: nat, w: Window, op: string)
    requires i < |ws| && At(w, op) == At(ws[i], op)
    ensures SumWindows(ws[i := w], op) == SumWindows(ws, op)
  {
    var n := |ws| - 1;
    if i == n {
      assert ws[i := w][..n] == ws[..n];
    } else {
      SumUntouched(ws[..n], i, w, op);
      assert ws[i := w][..n] == ws[..n][i := w];
    }
  }

  lemma SumEmptied(ws: seq<Window>, i: nat, w: Window, op: string)
    requires i < |ws| && At(w, op) == ZERO
    ensures Add(SumWindows(ws[i := w], op), At(ws[i], op)) == SumWindows(ws, op)
  {
    var us, d := ws[i := w], At(ws[i], op);
    assert us[i := ws[i]] == ws;
    AddZero(d);
    AddCommutes(ZERO, d);
    SumUpdate(us, i, ws[i], op, d);
  }

  lemma AddOfZeros(a: Stat, b: Stat)
    requires a == ZERO && b == ZERO
    ensures Add(a, b) == ZERO
  {
    AddZero(ZERO);
  }

  lemma {:induction false} SumOfZeros(ws: seq<Window>, op: string)
    requires forall w :: w in ws ==> At(w, op) == ZERO
    ensures SumWindows(ws, op) == ZERO
  {
    if ws == [] {
    } else {
      var n := |ws| - 1;
      SumOfZeros(ws[..n], op);
      AddOfZeros(SumWindows(ws[..n], op), At(ws[n], op));
    }
  }
}
