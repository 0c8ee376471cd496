/** The two ops that write sessions, one statement at a time, around the ring. */

module Ops {
  import opened Options
  import opened Ring
  import opened Sessions

  /** The committed rows: sessions and whether they are closed, the session of each event, the entity of each audit. */
  datatype Rows = Rows(closed: map<Id, bool>, events: seq<Id>, audits: seq<Id>)

  /** A commit that failed may have taken effect. */
  datatype CommitReply = Committed | Lost(took: bool)

  datatype Executed = Succeeded | Failed | SkippedOp

  ghost function Copies(id: Id, n: nat): seq<Id> {
    if n == 0 then [] else Copies(id, n - 1) + [id]
  }

  lemma {:induction false} CopiesAll(id: Id, n: nat)
    ensures |Copies(id, n)| == n && forall i :: 0 <= i < n ==> Copies(id, n)[i] == id
  {
    if n == 0 {
    } else {
      CopiesAll(id, n - 1);
    }
  }

  ghost function WithInsert(rows: Rows, id: Id, events: nat): Rows {
    Rows(rows.closed[id := false], rows.events + Copies(id, events), rows.audits + [id])
  }

  ghost function WithUpdate(rows: Rows, id: Id): Rows {
    Rows(rows.closed[id := true], rows.events, rows.audits + [id])
  }

  /** `held` is the set of rows that transactions of others hold. */
  class Database {
    var rows: Rows
    var held: set<Id>

    constructor (rows: Rows, held: set<Id>)
      ensures this.rows == rows && this.held == held
    {
      this.rows, this.held := rows, held;
    }

    /** All of a transaction's rows appear, or none. */
    method Commit(staged: Rows, reply: CommitReply) returns (ok: bool)
      modifies this`rows
      ensures ok <==> reply.Committed?
      ensures rows == if reply.Committed? || reply.took then staged else old(rows)
    {
      if reply.Committed? || reply.took {
        rows := staged;
      }
      ok := reply.Committed?;
    }
  }

  /** One session, its events and an audit row in one transaction; the id goes into the ring after the commit, so
      never if anything failed. */
  method DoInsert(id: Id, begun: bool, sessionOk: bool, eventsOk: seq<bool>, auditOk: bool, reply: CommitReply,
                  db: Database, ring: SessionRing<Id>) returns (r: Executed)
    requires ring.Valid()
    modifies db`rows, ring, ring.buf
    ensures ring.Valid() && r != SkippedOp
    ensures r == Succeeded <==> begun && sessionOk && false !in eventsOk && auditOk && reply.Committed?
    ensures r == Succeeded ==>
      ring.pushes == old(ring.pushes) + [id] && db.rows == WithInsert(old(db.rows), id, |eventsOk|)
    ensures r == Failed ==> ring.pushes == old(ring.pushes)
    ensures r == Failed ==>
      (db.rows == old(db.rows) || (reply == Lost(true) && db.rows == WithInsert(old(db.rows), id, |eventsOk|)))
    ensures db.rows != old(db.rows) ==>
      && db.rows.closed == old(db.rows.closed)[id := false] && db.rows.audits == old(db.rows.audits) + [id]
      && |db.rows.events| == |old(db.rows.events)| + |eventsOk| && old(db.rows.events) <= db.rows.events
      && forall i :: |old(db.rows.events)| <= i < |db.rows.events| ==> db.rows.events[i] == id
    ensures r == Succeeded ==> |db.rows.audits| == |old(db.rows.audits)| + 1
  {
    CopiesAll(id, |eventsOk|);
    if !begun || !sessionOk {
      return Failed;
    }
    var staged := db.rows.(closed := db.rows.closed[id := false]);
    for i := 0 to |eventsOk|
      invariant false !in eventsOk[..i]
      invariant staged == Rows(db.rows.closed[id := false], db.rows.events + Copies(id, i), db.rows.audits)
    {
      assert eventsOk[..i + 1] == eventsOk[..i] + [eventsOk[i]];
      if !eventsOk[i] {
        return Failed;
      }
      staged := staged.(events := staged.events + [id]);
    }
    assert eventsOk[..|eventsOk|] == eventsOk;
    if !auditOk {
      return Failed;
    }
    staged := staged.(audits := staged.audits + [id]);
    var ok := db.Commit(staged, reply);
    if !ok {
      return Failed;
    }
    ring.Push(id);
    return Succeeded;
  }

  /** Closes a session drawn from the ring, skipping one whose row is not to be had at once. */
  method DoUpdate(draw: nat, begun: bool, lockAnswered: bool, updateOk: bool, auditOk: bool, reply: CommitReply,
                  db: Database, ring: SessionRing<Id>) returns (r: Executed)
    requires ring.Valid() && (ring.pushes != [] ==> draw < ring.fill)
    modifies db`rows
    ensures ring.pushes == [] ==> r == SkippedOp
    ensures ring.pushes != [] ==>
      var id := ring.pushes[Latest(|ring.pushes|, ring.size, draw)];
      && (r == SkippedOp <==> begun && lockAnswered && (id !in old(db.rows).closed || id in db.held))
      && (r == Succeeded <==>
        && begun && lockAnswered && id in old(db.rows).closed && id !in db.held
        && updateOk && auditOk && reply.Committed?)
      && (r == Succeeded ==> db.rows == WithUpdate(old(db.rows), id))
      && (r == Failed ==> (db.rows == old(db.rows) || (reply == Lost(true) && db.rows == WithUpdate(old(db.rows), id))))
    ensures r == SkippedOp ==> db.rows == old(db.rows)
    ensures db.rows != old(db.rows) ==>
      && ring.pushes != []
      && var id := ring.pushes[Latest(|ring.pushes|, ring.size, draw)];
      && db.rows.closed == old(db.rows.closed)[id := true] && db.rows.audits == old(db.rows.audits) + [id]
      && db.rows.events == old(db.rows.events)
    ensures r == Succeeded ==> |db.rows.audits| == |old(db.rows.audits)| + 1
    ensures ring.pushes == old(ring.pushes) && ring.Valid()
  {
    var sample := ring.Sample(draw);
    if sample.None? {
      return SkippedOp;
    }
    var id := sample.value;
    if !begun || !lockAnswered {
      return Failed;
    }
    if id !in db.rows.closed || id in db.held {
      return SkippedOp;
    }
    if !updateOk || !auditOk {
      return Failed;
    }
    var staged := Rows(db.rows.closed[id := true], db.rows.events, db.rows.audits + [id]);
    var ok := db.Commit(staged, reply);
    r := if ok then Succeeded else Failed;
  }
}
