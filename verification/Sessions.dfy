/** Inserts and updates of sessions as transactions around the ring, in any interleaving. */

module Sessions {
  import opened Options
  import opened Ring

  datatype Id = Id(number: nat)

  /** Where a worker is in doInsert or doUpdate. */
  datatype Phase =
    | Ready
    | Inserting(id: Id)
    | Pushing(id: Id)
    | Sampled(id: Id)
    | Holding(id: Id)

  /** An update that was skipped: was the ring empty, and if not, was the row then held by a transaction of another
      worker? */
  datatype Skip = Skip(empty: bool, heldByOther: bool)

  /** `pushes` is the ring's history; `drawn` is every session id generated so far, `failed` those whose insert
      returned an error. */
  datatype State = State(
    size: nat,
    phases: seq<Phase>,
    committed: set<Id>,
    pushes: seq<Id>,
    drawn: set<Id>,
    failed: set<Id>,
    skips: seq<Skip>)

  /** A failing commit may have taken effect: the client cannot tell. */
  datatype Step =
    | Begin(w: nat, id: Id)
    | FailInsert(w: nat)
    | FailCommit(w: nat, took: bool)
    | Commit(w: nat)
    | Push(w: nat)
    | Sample(w: nat, draw: nat)
    | Lock(w: nat)
    | FailUpdate(w: nat)
    | Finish(w: nat)

  /** A transaction holds the row of a session between its SELECT FOR UPDATE and its end. */
  ghost predicate Held(s: State, id: Id, v: nat) {
    v < |s.phases| && s.phases[v].Holding? && s.phases[v].id == id
  }

  ghost predicate HeldByOther(s: State, id: Id, w: nat) {
    exists v :: v != w && Held(s, id, v)
  }

  ghost predicate Enabled(s: State, step: Step) {
    step.w < |s.phases| &&
    var p := s.phases[step.w];
    match step
    case Begin(_, id) => p.Ready? && id !in s.drawn
    case FailInsert(_) => p.Inserting?
    case FailCommit(_, _) => p.Inserting?
    case Commit(_) => p.Inserting?
    case Push(_) => p.Pushing?
    case Sample(_, draw) => p.Ready? && (s.pushes == [] || draw < Filled(|s.pushes|, s.size))
    case Lock(_) => p.Sampled?
    case FailUpdate(_) => p.Sampled? || p.Holding?
    case Finish(_) => p.Holding?
  }

  ghost function To(s: State, w: nat, p: Phase): State
    requires w < |s.phases|
  {
    s.(phases := s.phases[w := p])
  }

  ghost function Fail(s: State, w: nat, id: Id): State
    requires w < |s.phases|
  {
    To(s, w, Ready).(failed := s.failed + {id})
  }

  ghost function SkipOp(s: State, w: nat, skip: Skip): State
    requires w < |s.phases|
  {
    To(s, w, Ready).(skips := s.skips + [skip])
  }

  ghost function Next(s: State, step: Step): State
    requires Enabled(s, step)
  {
    var w := step.w;
    var p := s.phases[w];
    match step
    case Begin(_, id) => To(s, w, Inserting(id)).(drawn := s.drawn + {id})
    case FailInsert(_) => Fail(s, w, p.id)
    case FailCommit(_, took) => Fail(s, w, p.id).(committed := if took then s.committed + {p.id} else s.committed)
    case Commit(_) => To(s, w, Pushing(p.id)).(committed := s.committed + {p.id})
    case Push(_) => To(s, w, Ready).(pushes := s.pushes + [p.id])
    case Sample(_, draw) =>
      if s.pushes == [] then SkipOp(s, w, Skip(true, false))
      else To(s, w, Sampled(s.pushes[Latest(|s.pushes|, s.size, draw)]))
    case Lock(_) =>
      // SKIP LOCKED finds no row if the session does not exist or another transaction holds it.
      if p.id in s.committed && !HeldByOther(s, p.id, w) then To(s, w, Holding(p.id))
      else SkipOp(s, w, Skip(false, HeldByOther(s, p.id, w)))
    case FailUpdate(_) => To(s, w, Ready)
    case Finish(_) => To(s, w, Ready)
  }

  ghost function Start(workers: nat, size: nat): State {
    State(size, Readies(workers), {}, [], {}, {}, [])
  }

  ghost function Readies(n: nat): (ps: seq<Phase>)
    ensures |ps| == n && forall w :: 0 <= w < n ==> ps[w] == Ready
  {
    if n == 0 then [] else Readies(n - 1) + [Ready]
  }

  /** The id of an insert that has not ended. */
  ghost predicate Owns(p: Phase, id: Id) {
    (p.Inserting? || p.Pushing?) && p.id == id
  }

  ghost predicate IdsSound(s: State) {
    && s.committed <= s.drawn && s.failed <= s.drawn
    && forall id :: id in s.pushes ==> id in s.committed && id !in s.failed
  }

  ghost predicate PhaseSound(s: State, p: Phase) {
    match p
    case Ready => true
    case Inserting(id) => id in s.drawn && id !in s.committed && id !in s.failed
    case Pushing(id) => id in s.committed && id !in s.failed
    case Sampled(id) => id in s.committed
    case Holding(id) => id in s.committed
  }

  /** No id is inserted twice, and no row is held twice. */
  ghost predicate PhasesApart(p: Phase, q: Phase) {
    && ((p.Inserting? || p.Pushing?) ==> !Owns(q, p.id))
    && (p.Holding? && q.Holding? ==> p.id != q.id)
  }

  ghost predicate PhasesSound(s: State) {
    && (forall w :: 0 <= w < |s.phases| ==> PhaseSound(s, s.phases[w]))
    && (forall w, v :: 0 <= w < |s.phases| && 0 <= v < |s.phases| && w != v ==> PhasesApart(s.phases[w], s.phases[v]))
  }

  ghost predicate SkipsSound(s: State) {
    forall k :: k in s.skips ==> k.empty || k.heldByOther
  }

  ghost predicate Inv(s: State) {
    s.size > 0 && IdsSound(s) && PhasesSound(s) && SkipsSound(s)
  }

  lemma IdsStep(s: State, step: Step)
    requires Inv(s) && Enabled(s, step)
    ensures IdsSound(Next(s, step))
  {
    assert PhaseSound(s, s.phases[step.w]);
  }

  /** What a step does to the other workers' phases and to its own. */
  lemma PhaseStep(s: State, step: Step, v: nat)
    requires Inv(s) && Enabled(s, step) && v < |s.phases|
    ensures PhaseSound(Next(s, step), Next(s, step).phases[v])
  {
    var w := step.w;
    assert PhaseSound(s, s.phases[w]) && PhaseSound(s, s.phases[v]);
    assert v != w ==> PhasesApart(s.phases[w], s.phases[v]);
    if step.Sample? && s.pushes != [] {
      assert s.pushes[Latest(|s.pushes|, s.size, step.draw)] in s.pushes;
    }
  }

  lemma ApartStep(s: State, step: Step, v: nat, u: nat)
    requires Inv(s) && Enabled(s, step) && v < |s.phases| && u < |s.phases| && v != u
    ensures PhasesApart(Next(s, step).phases[v], Next(s, step).phases[u])
  {
    var w := step.w;
    assert PhasesApart(s.phases[v], s.phases[u]) && PhasesApart(s.phases[u], s.phases[v]);
    assert PhaseSound(s, s.phases[v]) && PhaseSound(s, s.phases[u]);
    if step.Lock? && !HeldByOther(s, s.phases[w].id, w) {
      assert v != w ==> !Held(s, s.phases[w].id, v);
      assert u != w ==> !Held(s, s.phases[w].id, u);
    }
  }

  /** A row that is committed can only be missed by SKIP LOCKED because another transaction holds it. */
  lemma SkipStep(s: State, step: Step)
    requires Inv(s) && Enabled(s, step)
    ensures SkipsSound(Next(s, step))
  {
    assert PhaseSound(s, s.phases[step.w]);
  }

  /** SELECT FOR UPDATE SKIP LOCKED finds the row exactly if the session is committed and no other worker holds it;
      otherwise the update is skipped. */
  lemma LockTakes(s: State, w: nat)
    requires Enabled(s, Lock(w))
    ensures var id, t := s.phases[w].id, Next(s, Lock(w));
      if id in s.committed &&
        forall v :: 0 <= v < |s.phases| && v != w ==> !(s.phases[v].Holding? && s.phases[v].id == id)
      then t.phases == s.phases[w := Holding(id)] && t.skips == s.skips
      else t.phases == s.phases[w := Ready] && |t.skips| == |s.skips| + 1
    ensures Next(s, Lock(w)).committed == s.committed && Next(s, Lock(w)).pushes == s.pushes
  {
    var id := s.phases[w].id;
    if v :| 0 <= v < |s.phases| && v != w && s.phases[v].Holding? && s.phases[v].id == id {
      assert Held(s, id, v);
    }
  }

  lemma InvStep(s: State, step: Step)
    requires Inv(s) && Enabled(s, step)
    ensures Inv(Next(s, step))
  {
    var t := Next(s, step);
    IdsStep(s, step);
    SkipStep(s, step);
    assert |t.phases| == |s.phases| && t.size == s.size;
    forall v | 0 <= v < |t.phases| ensures PhaseSound(t, t.phases[v]) {
      PhaseStep(s, step, v);
    }
    forall v, u | 0 <= v < |t.phases| && 0 <= u < |t.phases| && v != u ensures PhasesApart(t.phases[v], t.phases[u]) {
      ApartStep(s, step, v, u);
    }
  }

  ghost function After(s: State, steps: seq<Step>): Option<State> {
    if steps == [] then Some(s)
    else
      match After(s, steps[..|steps| - 1])
      case None => None
      case Some(t) =>
        if Enabled(t, steps[|steps| - 1]) then Some(Next(t, steps[|steps| - 1])) else None
  }

  lemma {:induction false} ThreeSteps(s: State, a: Step, b: Step, c: Step)
    requires Enabled(s, a) && Enabled(Next(s, a), b) && Enabled(Next(Next(s, a), b), c)
    ensures After(s, [a, b, c]) == Some(Next(Next(Next(s, a), b), c))
  {
    assert [a, b, c][..2] == [a, b] && [a, b][..1] == [a] && [a][..0] == [];
    assert After(s, [a]) == Some(Next(s, a));
    assert After(s, [a, b]) == Some(Next(Next(s, a), b));
  }

  /** An insert that nothing disturbs commits its session and then pushes its id; otherwise all is as before. */
  lemma {:induction false} InsertAlone(s: State, w: nat, id: Id)
    requires w < |s.phases| && s.phases[w].Ready? && id !in s.drawn
    ensures After(s, [Begin(w, id), Commit(w), Push(w)]) == Some(s.(
      committed := s.committed + {id}, pushes := s.pushes + [id], drawn := s.drawn + {id}))
  {
    var t := Next(s, Begin(w, id));
    var u := Next(t, Commit(w));
    ThreeSteps(s, Begin(w, id), Commit(w), Push(w));
    assert Next(u, Push(w)).phases == s.phases;
  }

  lemma HeldElsewhere(s: State, t: State, id: Id, w: nat)
    requires w < |s.phases| == |t.phases| && t.phases == s.phases[w := t.phases[w]]
    ensures HeldByOther(t, id, w) <==>
      exists v :: 0 <= v < |s.phases| && v != w && s.phases[v].Holding? && s.phases[v].id == id
  {
    if v :| 0 <= v < |s.phases| && v != w && s.phases[v].Holding? && s.phases[v].id == id {
      assert Held(t, id, v);
    }
  }

  /** An update of a session that is committed and that nobody holds leaves all as before, holding its row in between;
      one of a session that another worker holds is recorded as skipped for that reason. */
  lemma {:induction false} UpdateAlone(s: State, w: nat, draw: nat)
    requires w < |s.phases| && s.phases[w].Ready? && s.pushes != [] && draw < Filled(|s.pushes|, s.size)
    ensures var id := s.pushes[Latest(|s.pushes|, s.size, draw)];
      var t := Next(s, Sample(w, draw));
      && Enabled(t, Lock(w))
      && if id in s.committed &&
           forall v :: 0 <= v < |s.phases| && v != w ==> !(s.phases[v].Holding? && s.phases[v].id == id)
         then
           && Next(t, Lock(w)).phases[w] == Holding(id)
           && After(s, [Sample(w, draw), Lock(w), Finish(w)]) == Some(s)
         else Next(t, Lock(w)) == s.(skips := s.skips + [Skip(false,
           exists v :: 0 <= v < |s.phases| && v != w && s.phases[v].Holding? && s.phases[v].id == id)])
  {
    var id := s.pushes[Latest(|s.pushes|, s.size, draw)];
    var t := Next(s, Sample(w, draw));
    LockTakes(t, w);
    var u := Next(t, Lock(w));
    if u.phases[w] == Holding(id) {
      ThreeSteps(s, Sample(w, draw), Lock(w), Finish(w));
      assert Next(u, Finish(w)).phases == s.phases;
    } else {
      assert u.phases == s.phases;
      assert u == s.(skips := s.skips + [Skip(false, HeldByOther(t, id, w))]);
      HeldElsewhere(s, t, id, w);
    }
  }

  lemma {:induction false} InvAlways(workers: nat, size: nat, steps: seq<Step>)
    requires size > 0 && After(Start(workers, size), steps).Some?
    ensures Inv(After(Start(workers, size), steps).value)
  {
    if steps == [] {
    } else {
      InvAlways(workers, size, steps[..|steps| - 1]);
      InvStep(After(Start(workers, size), steps[..|steps| - 1]).value, steps[|steps| - 1]);
    }
  }

  /** In every interleaving: every id the ring has held, so every id in a slot, names a committed session whose insert
      did not fail, and an update is skipped on a ring that is not empty only because another transaction held the
      row. */
  lemma {:induction false} RingNamesSessions(workers: nat, size: nat, steps: seq<Step>)
    requires size > 0 && After(Start(workers, size), steps).Some?
    ensures var s := After(Start(workers, size), steps).value;
      && (forall id :: id in Slots(s.pushes, size) ==> id in s.committed && id !in s.failed)
      && (forall k :: k in s.skips ==> k.empty || k.heldByOther)
  {
    InvAlways(workers, size, steps);
    var s := After(Start(workers, size), steps).value;
    forall id | id in Slots(s.pushes, size) ensures id in s.pushes {
      var i :| 0 <= i < |Slots(s.pushes, size)| && Slots(s.pushes, size)[i] == id;
    }
  }
}
