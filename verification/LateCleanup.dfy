/** The expiry cleanup reads its rows before its write transaction opens. This
    module applies the rows it read at one step of a run to the tables of a later step. */
module LateCleanup {
  import opened Container
  import opened Ledger
  import opened Uploads
  import opened Conservation
  import opened UploadRuns
  import opened UploadTheorems

  /** The expiry cleanup applied to `rows` as they were when it read them. */
  ghost function LateExpire(t: Tables, rows: map<UploadId, Session>): Tables {
    t.(users := Pay(t.users, Reservations(rows), true),
       sessions := t.sessions - rows.Keys, chunks := t.chunks - rows.Keys, parts := t.parts - rows.Keys,
       finals := t.finals - UnlinkedWith(rows, rows.Keys))
  }

  /** What the cleanup reads. */
  function ExpiredRows(t: Tables, now: Time): map<UploadId, Session> {
    map id | id in ExpiredAt(t, now) :: t.sessions[id]
  }

  lemma LateExpireNow(t: Tables, now: Time)
    ensures LateExpire(t, ExpiredRows(t, now)) == Expire(t, now, true)
  {
    var rows := ExpiredRows(t, now);
    assert rows.Keys == ExpiredAt(t, now);
    assert Reservations(rows) == Only(Reservations(t.sessions), rows.Keys);
    assert UnlinkedWith(rows, rows.Keys) == UnlinkedWith(t.sessions, rows.Keys);
  }

  /** In terms of sums: for each user the reservations released are those still held by the sessions deleted, or
      there are more of them but the deleted sessions are all the user holds, so that MAX(0, ...) stops at zero. */
  lemma LateExpireSums(t: Tables, rows: map<UploadId, Session>)
    requires Conserved(t)
    ensures Conserved(LateExpire(t, rows)) <==>
              forall u :: u in t.users ==>
                var released, held := Owed(Reservations(rows), u), Owed(Only(Reservations(t.sessions), rows.Keys), u);
                released == held || (held < released && t.users[u] == held)
  {
    hide Owed, Owes, Only, Reservations, Holdings, UnlinkedWith;
    var d, all := Reservations(rows), Reservations(t.sessions);
    var t' := LateExpire(t, rows);
    ReservationsMinus(t.sessions, rows.Keys);
    OwnersKept(t, rows.Keys);
    forall u | u in t.users
      ensures t'.users[u] == Less(t.users[u], Owed(d, u), true)
      ensures Owed(all, u) == Owed(Only(all, rows.Keys), u) + Owed(all - rows.Keys, u)
    {
      PaidLess(t.users, d, u);
      OwedSplit(all, rows.Keys, u);
    }
  }

  lemma OwnersKept(t: Tables, gone: set<UploadId>)
    requires Conserved(t)
    ensures forall k :: k in Reservations(t.sessions) - gone ==> (Reservations(t.sessions) - gone)[k].owner in t.users
  {
  }

  lemma PaidLess(users: map<UserId, int>, d: map<UploadId, Debt>, u: UserId)
    requires u in users
    ensures Pay(users, d, true)[u] == Less(users[u], Owed(d, u), true) || users[u] < 0
  {
    if !Owes(d, u) {
      OwedNone(d, u);
    }
  }

  // ---------- Rows read at step i, applied at step j ----------

  /** The session still is what the cleanup takes it for: there, and not committed. */
  predicate StillHeld(t: Tables, id: UploadId) {
    id in t.sessions && t.sessions[id].phase != Committed
  }

  /** No session of u that was read as uncommitted has since been committed or deleted. */
  predicate NoneLost(t: Tables, rows: map<UploadId, Session>, u: UserId) {
    forall id :: id in rows && rows[id].owner == u && rows[id].phase != Committed ==> StillHeld(t, id)
  }

  /** What the run guarantees of the rows read: they only lose reservations, and each is positive. */
  ghost predicate RowsFit(t: Tables, rows: map<UploadId, Session>) {
    && (forall id :: id in rows && rows[id].phase != Committed ==> rows[id].reserved > 0)
    && (forall id :: id in rows && StillHeld(t, id) ==>
          rows[id].phase != Committed && rows[id].owner == t.sessions[id].owner && rows[id].reserved == t.sessions[id].reserved)
  }

  lemma SessionFits(sha: Bytes -> Digest, run: seq<Action>, i: nat, j: nat, id: UploadId)
    requires i <= j <= |run| && id in At(sha, false, run, i).t.sessions
    ensures var r := At(sha, false, run, i).t.sessions[id];
            && r.reserved > 0
            && (StillHeld(At(sha, false, run, j).t, id) ==>
                  var r' := At(sha, false, run, j).t.sessions[id];
                  r.phase != Committed && r.owner == r'.owner && r.reserved == r'.reserved)
  {
    hide Step, Conserved, Present;
    InvAt(sha, run, i);
    InvAt(sha, run, j);
    var s, s' := At(sha, false, run, i), At(sha, false, run, j);
    assert SessionOk(s, id, s.t.sessions[id]);
    if StillHeld(s'.t, id) {
      assert SessionOk(s', id, s'.t.sessions[id]);
      DeclKept(sha, run, i, j, id);
      if s.t.sessions[id].phase == Committed {
        CommittedIsFinal(sha, run, i, j, id);
      }
    }
  }

  lemma RunRowsFit(sha: Bytes -> Digest, run: seq<Action>, i: nat, j: nat)
    requires i <= j <= |run|
    ensures RowsFit(At(sha, false, run, j).t, ExpiredRows(At(sha, false, run, i).t, At(sha, false, run, i).now))
  {
    hide At;
    var s := At(sha, false, run, i);
    var rows := ExpiredRows(s.t, s.now);
    forall id | id in rows
      ensures rows[id].reserved > 0
      ensures StillHeld(At(sha, false, run, j).t, id) ==>
                && rows[id].phase != Committed && rows[id].owner == At(sha, false, run, j).t.sessions[id].owner
                && rows[id].reserved == At(sha, false, run, j).t.sessions[id].reserved
    {
      SessionFits(sha, run, i, j, id);
    }
  }

  lemma HeldOfRead(t: Tables, rows: map<UploadId, Session>)
    requires RowsFit(t, rows)
    ensures var d, h := Reservations(rows), Only(Reservations(t.sessions), rows.Keys);
            h == Only(d, h.Keys)
  {
  }

  lemma {:induction false} OwedPositive(d: map<UploadId, Debt>, u: UserId)
    requires Owes(d, u) && forall k :: k in d ==> d[k].amount > 0
    ensures Owed(d, u) > 0
  {
    var k :| k in d && d[k].owner == u;
    OwedRemove(d, k, u);
  }

  /** The released reservations are the held ones exactly when none was lost. */
  lemma LostIsOwed(t: Tables, rows: map<UploadId, Session>, u: UserId)
    requires RowsFit(t, rows)
    ensures var released, held := Owed(Reservations(rows), u), Owed(Only(Reservations(t.sessions), rows.Keys), u);
            held <= released && (held == released <==> NoneLost(t, rows, u))
  {
    var d, h := Reservations(rows), Only(Reservations(t.sessions), rows.Keys);
    HeldOfRead(t, rows);
    OwedSplit(d, h.Keys, u);
    var lost := d - h.Keys;
    if NoneLost(t, rows, u) {
      assert !Owes(lost, u);
      OwedNone(lost, u);
    } else {
      var id :| id in rows && rows[id].owner == u && rows[id].phase != Committed && !StillHeld(t, id);
      assert id in lost && lost[id].owner == u;
      OwedPositive(lost, u);
    }
  }

  /** Exactly when rows read at step i may be cleaned up at step j: for each user, no session read as uncommitted
      has since been committed or deleted, or what the deleted sessions still hold is all of the user's counter. */
  lemma LateExpireExactly(sha: Bytes -> Digest, run: seq<Action>, i: nat, j: nat)
    requires i <= j <= |run|
    ensures var t := At(sha, false, run, j).t;
            var rows := ExpiredRows(At(sha, false, run, i).t, At(sha, false, run, i).now);
            Conserved(LateExpire(t, rows)) <==>
              forall u :: u in t.users ==>
                NoneLost(t, rows, u) || t.users[u] == Owed(Only(Reservations(t.sessions), rows.Keys), u)
  {
    hide Step, Pinned, Present, Conserved, LateExpire, NoneLost, RowsFit;
    var t := At(sha, false, run, j).t;
    var rows := ExpiredRows(At(sha, false, run, i).t, At(sha, false, run, i).now);
    InvAt(sha, run, j);
    RunRowsFit(sha, run, i, j);
    LateExpireSums(t, rows);
    forall u | u in t.users
      ensures var released, held := Owed(Reservations(rows), u), Owed(Only(Reservations(t.sessions), rows.Keys), u);
              held <= released && (held == released <==> NoneLost(t, rows, u))
    {
      LostIsOwed(t, rows, u);
    }
  }
}
