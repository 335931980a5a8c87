/** The migration that turns queued delivery receipts into read cursors: it
    keeps one best entry per pair and upserts those. */
module Backfill {
  import opened Wrappers
  import opened ReadCursor

  /** A queued payload: `readable` tells that it parses; identifiers are stripped, `rank` and `stamp` are parsed. */
  datatype Receipt = Receipt(readable: bool, kind: string, to: UserId, from: UserId, msgId: string, rank: Option<int>, stamp: Option<int>)

  const DEVICE: Option<string> := Some("migration_delivery_receipt_backfill")

  predicate Usable(r: Receipt) {
    r.readable && r.kind == "delivery_receipt" && r.to != "" && r.from != "" && r.msgId != ""
  }

  /** Any parseable rank counts, even one that is not positive. */
  function ParseRank(r: Receipt, now: int): int {
    if r.rank.Some? then Clamp(r.rank.value)
    else if r.stamp.Some? then Clamp(r.stamp.value)
    else Clamp(now)
  }

  function KeyOf(r: Receipt): Key {
    Key(r.to, r.from)
  }

  datatype Best = Best(msgId: string, rank: int)

  function Better(prev: Option<Best>, b: Best): Best {
    if prev.None? || b.rank >= prev.value.rank then b else prev.value
  }

  function Lookup(best: map<Key, Best>, k: Key): Option<Best> {
    if k in best then Some(best[k]) else None
  }

  function BestOf(r: Receipt, now: int): Best {
    Best(r.msgId, ParseRank(r, now))
  }

  /** One upsert with the migration's statement. */
  function Fill(t: Cursors, k: Key, b: Best, now: Time): Cursors {
    t[k := Merge(RowOf(t, k), b.msgId, b.rank, now, DEVICE, true)]
  }

  /** Upserting every usable receipt in order. */
  function OneByOne(t: Cursors, rs: seq<Receipt>, now: Time): Cursors {
    if rs == [] then t
    else
      var before, r := OneByOne(t, rs[..|rs| - 1], now), rs[|rs| - 1];
      if Usable(r) then Fill(before, KeyOf(r), BestOf(r, now), now) else before
  }

  /** The dictionary the first loop builds. */
  function Compress(rs: seq<Receipt>, now: Time): map<Key, Best> {
    if rs == [] then map[]
    else
      var best, r := Compress(rs[..|rs| - 1], now), rs[|rs| - 1];
      if Usable(r) then best[KeyOf(r) := Better(Lookup(best, KeyOf(r)), BestOf(r, now))] else best
  }

  function FillRow(t: Cursors, best: map<Key, Best>, k: Key, now: Time): Option<Cursor> {
    if k in best then Some(Merge(RowOf(t, k), best[k].msgId, best[k].rank, now, DEVICE, true)) else RowOf(t, k)
  }

  /** Merging twice is merging the better one once. */
  lemma MergeTwice(row: Option<Cursor>, a: Best, b: Best, now: Time)
    ensures var once := Merge(row, a.msgId, a.rank, now, DEVICE, true);
            var better := Better(Some(a), b);
            Merge(Some(once), b.msgId, b.rank, now, DEVICE, true) == Merge(row, better.msgId, better.rank, now, DEVICE, true)
  {
  }

  /** Batch equals replay: from any starting table, every row after one upsert per best entry is the row after
      upserting every receipt in order. */
  lemma {:induction false} BatchIsReplay(t: Cursors, rs: seq<Receipt>, now: Time, k: Key)
    ensures RowOf(OneByOne(t, rs, now), k) == FillRow(t, Compress(rs, now), k, now)
  {
    if rs != [] {
      var before, r := rs[..|rs| - 1], rs[|rs| - 1];
      BatchIsReplay(t, before, now, k);
      var best := Compress(before, now);
      if Usable(r) && k == KeyOf(r) && k in best {
        MergeTwice(RowOf(t, k), best[k], BestOf(r, now), now);
      }
    }
  }

  function UpdatesOf(rs: seq<Receipt>, now: Time): seq<Update> {
    if rs == [] then []
    else
      var r := rs[|rs| - 1];
      UpdatesOf(rs[..|rs| - 1], now) + if Usable(r) then [Update(KeyOf(r), r.msgId, ParseRank(r, now), now, DEVICE)] else []
  }

  function Content(row: Option<Cursor>): Option<(string, int, Time)> {
    if row.Some? then Some((row.value.msgId, row.value.rank, row.value.at)) else None
  }

  /** It is also what the live upsert makes of the same receipts, but for the device of a row that no receipt advanced. */
  lemma {:induction false} BatchIsLive(t: Cursors, rs: seq<Receipt>, now: Time, k: Key)
    ensures Content(RowOf(OneByOne(t, rs, now), k)) == Content(RowOf(Replay(t, UpdatesOf(rs, now)), k))
  {
    if rs != [] {
      var before, r := rs[..|rs| - 1], rs[|rs| - 1];
      BatchIsLive(t, before, now, k);
      if Usable(r) {
        BatchIsLive(t, before, now, KeyOf(r));
        var u := Update(KeyOf(r), r.msgId, ParseRank(r, now), now, DEVICE);
        assert UpdatesOf(rs, now) == UpdatesOf(before, now) + [u];
        ReplayStep(t, UpdatesOf(before, now), u);
        hide Replay, UpdatesOf, Fill, Upsert, ParseRank;
        FillIsUpsert(OneByOne(t, before, now), Replay(t, UpdatesOf(before, now)), r, now, k);
      } else {
        assert UpdatesOf(before, now) + [] == UpdatesOf(before, now);
      }
    }
  }

  lemma FillIsUpsert(t: Cursors, t': Cursors, r: Receipt, now: Time, k: Key)
    requires Content(RowOf(t, k)) == Content(RowOf(t', k)) && Content(RowOf(t, KeyOf(r))) == Content(RowOf(t', KeyOf(r)))
    ensures Content(RowOf(Fill(t, KeyOf(r), BestOf(r, now), now), k))
         == Content(RowOf(Upsert(t', KeyOf(r), r.msgId, ParseRank(r, now), now, DEVICE).0, k))
  {
    ClampTwice(r, now);
  }

  lemma ClampTwice(r: Receipt, now: int)
    ensures Clamp(ParseRank(r, now)) == ParseRank(r, now)
  {
  }

  // ---------- The row, from the receipts' own fields ----------

  /** A readable delivery receipt that u has for a message of the peer. */
  predicate Concerns(r: Receipt, u: UserId, peer: UserId) {
    r.readable && r.kind == "delivery_receipt" && r.to == u && r.from == peer && u != "" && peer != "" && r.msgId != ""
  }

  /** The receipt's rank, or else its time stamp, or else the time of the migration. */
  function Stated(r: Receipt, now: int): int {
    match r.rank
    case Some(rank) => Clamp(rank)
    case None => match r.stamp case Some(stamp) => Clamp(stamp) case None => Clamp(now)
  }

  /** The row comes from receipt i: it is the last of those with the largest rank, and no smaller than what was there before. */
  ghost predicate ComesFrom(t: Cursors, rs: seq<Receipt>, now: Time, k: Key, row: Cursor, i: nat)
    requires i < |rs|
  {
    && Concerns(rs[i], k.user, k.peer)
    && row == Cursor(rs[i].msgId, Stated(rs[i], now), now, Some("migration_delivery_receipt_backfill"))
    && (k in t ==> t[k].rank <= row.rank)
    && (forall j :: 0 <= j < |rs| && Concerns(rs[j], k.user, k.peer) ==>
          if j <= i then Stated(rs[j], now) <= row.rank else Stated(rs[j], now) < row.rank)
  }

  ghost predicate AnyConcerns(rs: seq<Receipt>, k: Key) {
    exists i :: 0 <= i < |rs| && Concerns(rs[i], k.user, k.peer)
  }

  /** The row before the receipts stands, but for the device, because its rank is larger than all of theirs. */
  ghost predicate Stands(t: Cursors, rs: seq<Receipt>, now: Time, k: Key, row: Cursor) {
    && k in t && row == t[k].(device := Some("migration_delivery_receipt_backfill"))
    && forall j :: 0 <= j < |rs| && Concerns(rs[j], k.user, k.peer) ==> Stated(rs[j], now) < row.rank
  }

  ghost predicate ComesFromOne(t: Cursors, rs: seq<Receipt>, now: Time, k: Key, row: Cursor) {
    exists i :: 0 <= i < |rs| && ComesFrom(t, rs, now, k, row, i)
  }

  lemma UsableConcerns(r: Receipt, k: Key)
    ensures Concerns(r, k.user, k.peer) <==> Usable(r) && KeyOf(r) == k
  {
  }

  lemma StatedIs(r: Receipt, now: int)
    ensures ParseRank(r, now) == Stated(r, now)
  {
  }

  lemma ConcernsSnoc(rs: seq<Receipt>, r: Receipt, k: Key)
    ensures AnyConcerns(rs + [r], k) <==> AnyConcerns(rs, k) || Concerns(r, k.user, k.peer)
  {
    var all := rs + [r];
    hide Concerns;
    assert all[|rs|] == r && forall i :: 0 <= i < |rs| ==> all[i] == rs[i];
  }

  lemma ComesSnoc(t: Cursors, rs: seq<Receipt>, r: Receipt, now: Time, k: Key, row: Cursor)
    ensures (Concerns(r, k.user, k.peer) ==> Stated(r, now) < row.rank) ==>
              && (ComesFromOne(t, rs, now, k, row) ==> ComesFromOne(t, rs + [r], now, k, row))
              && (Stands(t, rs, now, k, row) ==> Stands(t, rs + [r], now, k, row))
  {
    var all := rs + [r];
    hide Concerns, Stated;
    assert all[|rs|] == r && forall i :: 0 <= i < |rs| ==> all[i] == rs[i];
    if (Concerns(r, k.user, k.peer) ==> Stated(r, now) < row.rank) && ComesFromOne(t, rs, now, k, row) {
      var i :| 0 <= i < |rs| && ComesFrom(t, rs, now, k, row, i);
      assert ComesFrom(t, all, now, k, row, i);
    }
  }

  lemma ComesLast(t: Cursors, rs: seq<Receipt>, r: Receipt, now: Time, k: Key)
    requires Concerns(r, k.user, k.peer) && (k in t ==> t[k].rank <= Stated(r, now))
    requires forall j :: 0 <= j < |rs| && Concerns(rs[j], k.user, k.peer) ==> Stated(rs[j], now) <= Stated(r, now)
    ensures ComesFromOne(t, rs + [r], now, k, Cursor(r.msgId, Stated(r, now), now, Some("migration_delivery_receipt_backfill")))
  {
    var all := rs + [r];
    hide Concerns, Stated;
    assert all[|rs|] == r && forall i :: 0 <= i < |rs| ==> all[i] == rs[i];
    assert ComesFrom(t, all, now, k, Cursor(r.msgId, Stated(r, now), now, Some("migration_delivery_receipt_backfill")), |rs|);
  }

  /** What the migration makes of a pair, told from the receipts: nothing if none concerns it; otherwise the message and the rank
      of the last one with the largest rank, unless the row that was there has a larger one. */
  lemma {:induction false} BackfillRow(t: Cursors, rs: seq<Receipt>, now: Time, k: Key)
    ensures !AnyConcerns(rs, k) ==> RowOf(OneByOne(t, rs, now), k) == RowOf(t, k)
    ensures AnyConcerns(rs, k) ==>
              var t' := OneByOne(t, rs, now);
              k in t' && (ComesFromOne(t, rs, now, k, t'[k]) || Stands(t, rs, now, k, t'[k]))
  {
    if rs != [] {
      var before, r := rs[..|rs| - 1], rs[|rs| - 1];
      assert rs == before + [r];
      BackfillRow(t, before, now, k);
      RowSnoc(t, before, r, now, k);
    }
  }

  lemma RowSnoc(t: Cursors, before: seq<Receipt>, r: Receipt, now: Time, k: Key)
    requires !AnyConcerns(before, k) ==> RowOf(OneByOne(t, before, now), k) == RowOf(t, k)
    requires AnyConcerns(before, k) ==>
               var t1 := OneByOne(t, before, now);
               k in t1 && (ComesFromOne(t, before, now, k, t1[k]) || Stands(t, before, now, k, t1[k]))
    ensures !AnyConcerns(before + [r], k) ==> RowOf(OneByOne(t, before + [r], now), k) == RowOf(t, k)
    ensures AnyConcerns(before + [r], k) ==>
              var t' := OneByOne(t, before + [r], now);
              k in t' && (ComesFromOne(t, before + [r], now, k, t'[k]) || Stands(t, before + [r], now, k, t'[k]))
  {
    assert (before + [r])[..|before|] == before;
    UsableConcerns(r, k);
    StatedIs(r, now);
    ConcernsSnoc(before, r, k);
    var t1, t' := OneByOne(t, before, now), OneByOne(t, before + [r], now);
    hide Usable, KeyOf, ParseRank, Concerns, Stated;
    if k in t' {
      ComesSnoc(t, before, r, now, k, t'[k]);
    }
    if Concerns(r, k.user, k.peer) && (k in t1 ==> t1[k].rank <= Stated(r, now)) {
      ComesLast(t, before, r, now, k);
    }
  }

  class Migration {
    var cursors: Cursors

    constructor (t: Cursors)
      ensures cursors == t
    {
      cursors := t;
    }

    method BackfillReceipts(rows: seq<Receipt>, now: Time) returns (upserts: nat)
      modifies this
      ensures cursors == OneByOne(old(cursors), rows, now)
      ensures upserts == |Compress(rows, now)|
    {
      ghost var t := cursors;
      var best: map<Key, Best> := map[];
      for i := 0 to |rows|
        invariant best == Compress(rows[..i], now) && cursors == t
      {
        assert rows[..i + 1][..i] == rows[..i];
        var r := rows[i];
        if Usable(r) {
          var k, rank := KeyOf(r), ParseRank(r, now);
          if k !in best || rank >= best[k].rank {
            best := best[k := Best(r.msgId, rank)];
          } else {
            assert best[k := best[k]] == best;
          }
        }
      }
      assert rows[..|rows|] == rows;
      UpsertAll(best, now);
      upserts := |best|;
      forall k ensures RowOf(cursors, k) == RowOf(OneByOne(t, rows, now), k) {
        BatchIsReplay(t, rows, now, k);
      }
      SameRows(cursors, OneByOne(t, rows, now));
    }

    method UpsertAll(best: map<Key, Best>, now: Time)
      modifies this
      ensures forall k :: RowOf(cursors, k) == FillRow(old(cursors), best, k, now)
    {
      var todo := best.Keys;
      while todo != {}
        invariant todo <= best.Keys
        invariant forall k :: RowOf(cursors, k) == if k in todo then RowOf(old(cursors), k) else FillRow(old(cursors), best, k, now)
        decreases todo
      {
        var k :| k in todo;
        var b := best[k];
        cursors := cursors[k := Merge(RowOf(cursors, k), b.msgId, b.rank, now, DEVICE, true)];
        todo := todo - {k};
      }
    }
  }

  lemma SameRows(t: Cursors, t': Cursors)
    requires forall k :: RowOf(t, k) == RowOf(t', k)
    ensures t == t'
  {
    forall k ensures k in t <==> k in t' {
      assert RowOf(t, k) == RowOf(t', k);
    }
    forall k | k in t ensures t[k] == t'[k] {
      assert RowOf(t, k) == RowOf(t', k);
    }
  }
}
