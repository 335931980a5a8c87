/** The read cursor of each (user, peer) pair and the statement that moves it. */
module ReadCursor {
  import opened Wrappers

  type UserId = string
  type Time = int

  const INT64_MAX: int := 0x7FFF_FFFF_FFFF_FFFF
  const INT64_MIN: int := -0x8000_0000_0000_0000

  function Clamp(value: int): int {
    if value > INT64_MAX then INT64_MAX else if value < INT64_MIN then INT64_MIN else value
  }

  /** A rank is stored as the nearest one of 64 bits. */
  lemma ClampExactly(value: int)
    ensures -0x8000_0000_0000_0000 <= Clamp(value) < 0x8000_0000_0000_0000
    ensures -0x8000_0000_0000_0000 <= value < 0x8000_0000_0000_0000 ==> Clamp(value) == value
    ensures value >= 0x8000_0000_0000_0000 ==> Clamp(value) == 0x7FFF_FFFF_FFFF_FFFF
    ensures value < -0x8000_0000_0000_0000 ==> Clamp(value) == -0x8000_0000_0000_0000
  {
  }

  datatype Key = Key(user: UserId, peer: UserId)

  datatype Cursor = Cursor(msgId: string, rank: int, at: Time, device: Option<string>)

  type Cursors = map<Key, Cursor>

  function RowOf(t: Cursors, k: Key): Option<Cursor> {
    if k in t then Some(t[k]) else None
  }

  function Max(a: int, b: int): int {
    if a >= b then a else b
  }

  /** INSERT ... ON CONFLICT DO UPDATE with its CASE expressions. The backfill's
      statement replaces the device in any case (`always`), the live one only
      together with the message. */
  function Merge(row: Option<Cursor>, msgId: string, rank: int, now: Time, device: Option<string>, always: bool): Cursor {
    match row
    case None => Cursor(msgId, rank, now, device)
    case Some(c) =>
      Cursor(if rank >= c.rank then msgId else c.msgId,
             Max(c.rank, rank),
             if rank >= c.rank then now else c.at,
             if rank >= c.rank || always then device else c.device)
  }

  datatype Applied = Applied(advanced: bool, msgId: string, rank: int)

  /** The live upsert: a smaller rank is rejected before the statement runs. */
  function Upsert(t: Cursors, k: Key, msgId: string, rank: int, now: Time, device: Option<string>): (Cursors, Applied) {
    var safe := Clamp(rank);
    if k in t && safe < t[k].rank then
      (t, Applied(false, if t[k].msgId != "" then t[k].msgId else msgId, t[k].rank))
    else
      var row := Merge(RowOf(t, k), msgId, safe, now, device, false);
      (t[k := row], Applied(row.rank >= safe, row.msgId, row.rank))
  }

  /** The branches of the statement that would keep the old message are never taken by the live upsert, and
      the triple it returns describes the row that is stored afterwards. */
  lemma UpsertStores(t: Cursors, k: Key, msgId: string, rank: int, now: Time, device: Option<string>)
    requires k in t ==> t[k].msgId != ""
    ensures var (t', a) := Upsert(t, k, msgId, rank, now, device);
            && k in t' && a.msgId == t'[k].msgId && a.rank == t'[k].rank
            && t'[k].rank == (if k in t then Max(t[k].rank, Clamp(rank)) else Clamp(rank))
            && (a.advanced <==> k !in t || Clamp(rank) >= t[k].rank)
            && t'[k] == (if a.advanced then Cursor(msgId, Clamp(rank), now, device) else t[k])
            && (forall j :: j != k ==> RowOf(t', j) == RowOf(t, j))
  {
  }

  // ---------- Many updates ----------

  datatype Update = Update(key: Key, msgId: string, rank: int, at: Time, device: Option<string>)

  function Replay(t: Cursors, us: seq<Update>): Cursors {
    if us == [] then t
    else
      var u := us[|us| - 1];
      Upsert(Replay(t, us[..|us| - 1]), u.key, u.msgId, u.rank, u.at, u.device).0
  }

  /** Update i reaches the rank r for key k. */
  predicate Reaches(us: seq<Update>, i: nat, k: Key, r: int)
    requires i < |us|
  {
    us[i].key == k && Clamp(us[i].rank) == r
  }

  predicate Touches(us: seq<Update>, i: nat, k: Key)
    requires i < |us|
  {
    us[i].key == k
  }

  /** r is the largest of the initial rank and all submitted ranks of the key. */
  ghost predicate IsTop(t: Cursors, us: seq<Update>, k: Key, r: int) {
    && (k in t ==> t[k].rank <= r)
    && (forall i :: 0 <= i < |us| && Touches(us, i, k) ==> Clamp(us[i].rank) <= r)
    && ((k in t && t[k].rank == r) || exists i :: 0 <= i < |us| && Reaches(us, i, k, r))
  }

  /** The message is that of the last update that reached r, or the initial one if none did. */
  ghost predicate IsLastReaching(t: Cursors, us: seq<Update>, k: Key, r: int, row: Cursor) {
    if exists i :: 0 <= i < |us| && Reaches(us, i, k, r) then
      exists i :: 0 <= i < |us| && Reaches(us, i, k, r)
        && row == Cursor(us[i].msgId, r, us[i].at, us[i].device)
        && forall j :: i < j < |us| ==> !Reaches(us, j, k, r)
    else k in t && row == t[k]
  }

  ghost predicate Known(t: Cursors, us: seq<Update>, k: Key) {
    k in t || exists i :: 0 <= i < |us| && Touches(us, i, k)
  }

  lemma ReplayStep(t: Cursors, us: seq<Update>, u: Update)
    ensures Replay(t, us + [u]) == Upsert(Replay(t, us), u.key, u.msgId, u.rank, u.at, u.device).0
  {
    assert (us + [u])[..|us|] == us;
  }

  lemma TopStep(t: Cursors, us: seq<Update>, u: Update, k: Key, row: Cursor)
    requires IsTop(t, us, k, row.rank) && IsLastReaching(t, us, k, row.rank, row)
    ensures u.key != k || Clamp(u.rank) < row.rank ==> IsTop(t, us + [u], k, row.rank) && IsLastReaching(t, us + [u], k, row.rank, row)
    ensures u.key == k && Clamp(u.rank) >= row.rank ==>
              var row' := Cursor(u.msgId, Clamp(u.rank), u.at, u.device);
              IsTop(t, us + [u], k, row'.rank) && IsLastReaching(t, us + [u], k, row'.rank, row')
  {
    var all, r := us + [u], row.rank;
    assert all[|us|] == u;
    forall i | 0 <= i < |us| ensures all[i] == us[i] && (Touches(all, i, k) <==> Touches(us, i, k)) {
    }
    assert forall i, q :: 0 <= i < |us| ==> (Reaches(all, i, k, q) <==> Reaches(us, i, k, q));
    if u.key == k && Clamp(u.rank) >= r {
      assert Reaches(all, |us|, k, Clamp(u.rank));
    } else {
      assert !Reaches(all, |us|, k, r);
      if exists i :: 0 <= i < |us| && Reaches(us, i, k, r) {
        var i :| 0 <= i < |us| && Reaches(us, i, k, r) && row == Cursor(us[i].msgId, r, us[i].at, us[i].device)
          && forall j :: i < j < |us| ==> !Reaches(us, j, k, r);
        assert Reaches(all, i, k, r);
      }
    }
  }

  lemma FirstTouch(t: Cursors, us: seq<Update>, u: Update, k: Key)
    requires !Known(t, us, k)
    ensures u.key == k ==>
              var row := Cursor(u.msgId, Clamp(u.rank), u.at, u.device);
              IsTop(t, us + [u], k, row.rank) && IsLastReaching(t, us + [u], k, row.rank, row)
    ensures u.key != k ==> !Known(t, us + [u], k)
  {
    var all := us + [u];
    assert all[|us|] == u;
    forall i | 0 <= i < |us| ensures !Touches(all, i, k) {
      assert !Touches(us, i, k);
    }
    if u.key == k {
      assert Reaches(all, |us|, k, Clamp(u.rank));
    }
  }

  /** The cursor over any run of updates: it exists once anything was submitted, its rank is the largest rank
      ever submitted, and its message is that of the last update that reached this rank. */
  lemma {:induction false} CursorFold(t: Cursors, us: seq<Update>, k: Key)
    ensures k in Replay(t, us) <==> Known(t, us, k)
    ensures k in Replay(t, us) ==>
              IsTop(t, us, k, Replay(t, us)[k].rank) && IsLastReaching(t, us, k, Replay(t, us)[k].rank, Replay(t, us)[k])
  {
    hide *;
    if us == [] {
      NothingYet(t, k);
    } else {
      var before, u := us[..|us| - 1], us[|us| - 1];
      assert us == before + [u];
      CursorFold(t, before, k);
      ReplayStep(t, before, u);
      UpsertRow(Replay(t, before), u, k);
      KnownStep(t, before, u, k);
      if Known(t, before, k) {
        TopStep(t, before, u, k, Replay(t, before)[k]);
      } else {
        FirstTouch(t, before, u, k);
      }
    }
  }

  lemma NothingYet(t: Cursors, k: Key)
    ensures Replay(t, []) == t && (k in t <==> Known(t, [], k))
    ensures k in t ==> IsTop(t, [], k, t[k].rank) && IsLastReaching(t, [], k, t[k].rank, t[k])
  {
  }

  lemma UpsertRow(t: Cursors, u: Update, k: Key)
    ensures var t' := Upsert(t, u.key, u.msgId, u.rank, u.at, u.device).0;
            && (k in t' <==> k in t || k == u.key)
            && (k in t' ==> t'[k] == if k != u.key || (k in t && Clamp(u.rank) < t[k].rank) then t[k]
                                     else Cursor(u.msgId, Clamp(u.rank), u.at, u.device))
  {
  }

  lemma KnownStep(t: Cursors, us: seq<Update>, u: Update, k: Key)
    ensures Known(t, us + [u], k) <==> Known(t, us, k) || u.key == k
  {
    var all := us + [u];
    assert all[|us|] == u;
    assert forall i :: 0 <= i < |us| ==> (Touches(all, i, k) <==> Touches(us, i, k));
    if u.key == k {
      assert Touches(all, |us|, k);
    }
  }

  /** Every update of the key in us is also in vs. */
  ghost predicate Within(us: seq<Update>, vs: seq<Update>, k: Key) {
    forall i :: 0 <= i < |us| && Touches(us, i, k) ==> exists j :: 0 <= j < |vs| && Touches(vs, j, k) && vs[j] == us[i]
  }

  lemma SameTouches(us: seq<Update>, vs: seq<Update>, k: Key)
    requires multiset(us) == multiset(vs)
    ensures Within(us, vs, k)
  {
    forall i | 0 <= i < |us| && Touches(us, i, k) ensures exists j :: 0 <= j < |vs| && Touches(vs, j, k) && vs[j] == us[i] {
      assert us[i] in multiset(vs);
      var j :| 0 <= j < |vs| && vs[j] == us[i];
      assert Touches(vs, j, k);
    }
  }

  lemma KnownWithin(t: Cursors, us: seq<Update>, vs: seq<Update>, k: Key)
    requires Within(us, vs, k) && Known(t, us, k)
    ensures Known(t, vs, k)
  {
  }

  lemma TopWithin(t: Cursors, us: seq<Update>, vs: seq<Update>, k: Key, r: int, q: int)
    requires IsTop(t, us, k, r) && IsTop(t, vs, k, q) && Within(us, vs, k)
    ensures r <= q
  {
    if !(k in t && t[k].rank == r) {
      var i :| 0 <= i < |us| && Reaches(us, i, k, r);
      assert Touches(us, i, k);
    }
  }

  /** The order of the updates does not matter for the rank. */
  lemma RankAnyOrder(t: Cursors, us: seq<Update>, vs: seq<Update>, k: Key)
    requires multiset(us) == multiset(vs)
    ensures k in Replay(t, us) <==> k in Replay(t, vs)
    ensures k in Replay(t, us) ==> Replay(t, us)[k].rank == Replay(t, vs)[k].rank
  {
    hide *;
    CursorFold(t, us, k);
    CursorFold(t, vs, k);
    SameTouches(us, vs, k);
    SameTouches(vs, us, k);
    if Known(t, us, k) {
      KnownWithin(t, us, vs, k);
      TopWithin(t, us, vs, k, Replay(t, us)[k].rank, Replay(t, vs)[k].rank);
      TopWithin(t, vs, us, k, Replay(t, vs)[k].rank, Replay(t, us)[k].rank);
    } else if Known(t, vs, k) {
      KnownWithin(t, vs, us, k);
    }
  }

  /** No update ever lowers a rank. */
  lemma RankGrows(t: Cursors, us: seq<Update>, k: Key)
    requires k in t
    ensures k in Replay(t, us) && Replay(t, us)[k].rank >= t[k].rank
  {
    CursorFold(t, us, k);
  }
}
