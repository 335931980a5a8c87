/** What a client can rely on when it commits an upload, transaction by transaction. */
module CommitOutcomes {
  import opened Wrappers
  import opened Container
  import opened Ledger
  import opened Uploads
  import opened Replies
  import opened UploadOutcomes
  import opened UploadReports

  // ---------- The checks before the claim ----------

  /** A request's manifest: one entry, well formed, for each of its indices. */
  ghost predicate GoodManifest(entries: seq<Entry>, count: nat) {
    && (forall k :: 0 <= k < |entries| ==>
          0 <= entries[k].index < count && 0 < entries[k].size <= 4194432 && LowerHex(entries[k].digest))
    && (forall k, l :: 0 <= k < l < |entries| ==> entries[k].index != entries[l].index)
  }

  /** Every stored row is an entry of the manifest. */
  ghost predicate RowsListed(rows: map<nat, Meta>, entries: seq<Entry>) {
    forall i :: i in rows ==> exists k :: 0 <= k < |entries| && Lists(entries[k], i, rows[i])
  }

  predicate Lists(e: Entry, i: nat, m: Meta) {
    e.index == i && e.size == m.size && e.digest == m.digest
  }

  /** The sizes of the first n chunks. */
  function SizeUpTo(rows: map<nat, Meta>, n: nat): nat
    requires forall i :: 0 <= i < n ==> i in rows
  {
    if n == 0 then 0 else SizeUpTo(rows, n - 1) + rows[n - 1].size
  }

  /** The manifest lists the entries, and nothing else. */
  ghost predicate ListsAll(entries: seq<Entry>, m: map<nat, Meta>) {
    && (forall k :: 0 <= k < |entries| ==> entries[k].index in m && Lists(entries[k], entries[k].index, m[entries[k].index]))
    && (forall i :: i in m ==> exists k :: 0 <= k < |entries| && Lists(entries[k], i, m[i]))
  }

  lemma GoodSnoc(before: seq<Entry>, last: Entry, count: nat, m: map<nat, Meta>)
    requires GoodManifest(before, count) ==> ListsAll(before, m)
    ensures GoodManifest(before + [last], count) <==> GoodManifest(before, count) && GoodEntry(last, count, m)
  {
    var all := before + [last];
    HexIsLower(last.digest);
    hide HexDigest, LowerHex;
    assert all[|before|] == last && forall k :: 0 <= k < |before| ==> all[k] == before[k];
    if GoodManifest(before, count) {
      Indexed(before, m, last.index);
      hide ListsAll, Lists;
    }
  }

  lemma Indexed(entries: seq<Entry>, m: map<nat, Meta>, index: int)
    requires ListsAll(entries, m)
    ensures index in m <==> exists k :: 0 <= k < |entries| && entries[k].index == index
  {
    if index in m {
      var k :| 0 <= k < |entries| && Lists(entries[k], index, m[index]);
    }
  }

  lemma ListsSnoc(before: seq<Entry>, last: Entry, m: map<nat, Meta>)
    requires ListsAll(before, m) && last.index >= 0 && last.size >= 0 && last.index !in m
    ensures ListsAll(before + [last], m[last.index := Meta(last.size, last.digest)])
  {
    var all, m' := before + [last], m[last.index := Meta(last.size, last.digest)];
    assert all[|before|] == last && forall k :: 0 <= k < |before| ==> all[k] == before[k];
    forall i | i in m' ensures exists k :: 0 <= k < |all| && Lists(all[k], i, m'[i]) {
      if i == last.index {
        assert Lists(all[|before|], i, m'[i]);
      } else {
        var k :| 0 <= k < |before| && Lists(before[k], i, m[i]);
        assert Lists(all[k], i, m'[i]);
      }
    }
  }

  lemma {:induction false} ManifestIs(entries: seq<Entry>, count: nat)
    ensures Manifest(entries, count).Some? <==> GoodManifest(entries, count)
    ensures Manifest(entries, count).Some? ==> ListsAll(entries, Manifest(entries, count).value)
  {
    if entries != [] {
      hide ListsAll, GoodManifest, GoodEntry;
      var before, last := entries[..|entries| - 1], entries[|entries| - 1];
      assert before + [last] == entries;
      ManifestIs(before, count);
      var m := if Manifest(before, count).Some? then Manifest(before, count).value else map[];
      GoodSnoc(before, last, count, m);
      if GoodManifest(entries, count) {
        EntryFits(last, count, m);
        ListsSnoc(before, last, m);
      }
    }
  }

  lemma EntryFits(e: Entry, count: nat, m: map<nat, Meta>)
    requires GoodEntry(e, count, m)
    ensures e.index >= 0 && e.size >= 0 && e.index !in m
  {
  }

  // ---------- The sizes add up, in whatever order the entries come ----------

  ghost function Sizes(m: map<nat, Meta>): map<nat, Debt> {
    map i | i in m :: Debt("", m[i].size)
  }

  lemma NothingOwed()
    ensures Owed(Sizes(map[]), "") == 0
  {
    assert Sizes(map[]) == map[];
  }

  lemma OneMoreSize(m: map<nat, Meta>, i: nat, x: Meta)
    requires i !in m
    ensures Owed(Sizes(m[i := x]), "") == Owed(Sizes(m), "") + x.size
  {
    var d, y := Sizes(m), Debt("", x.size);
    assert i !in d;
    OwedAdd(d, i, y, "");
    assert Part(y, "") == x.size;
    assert Sizes(m[i := x]) == d[i := y];
  }

  lemma {:induction false} EntriesOwed(entries: seq<Entry>, count: nat)
    requires Manifest(entries, count).Some?
    ensures EntrySizes(entries) == Owed(Sizes(Manifest(entries, count).value), "")
  {
    if entries != [] {
      var before, last := entries[..|entries| - 1], entries[|entries| - 1];
      EntriesOwed(before, count);
      OneMoreSize(Manifest(before, count).value, last.index, Meta(last.size, last.digest));
    } else {
      NothingOwed();
    }
  }

  ghost function Below(m: map<nat, Meta>, n: nat): map<nat, Meta> {
    map i | i in m && i < n :: m[i]
  }

  lemma {:induction false} InIndexOrder(m: map<nat, Meta>, n: nat)
    requires forall i :: 0 <= i < n ==> i in m
    ensures Owed(Sizes(Below(m, n)), "") == SizeUpTo(m, n)
  {
    if n > 0 {
      InIndexOrder(m, n - 1);
      assert Below(m, n) == Below(m, n - 1)[n - 1 := m[n - 1]];
      OneMoreSize(Below(m, n - 1), n - 1, m[n - 1]);
    } else {
      assert Below(m, 0) == map[];
      NothingOwed();
    }
  }

  lemma EntriesAddUp(entries: seq<Entry>, count: nat)
    requires Manifest(entries, count).Some? && |entries| == count
    ensures var m := Manifest(entries, count).value;
            && (forall i: nat :: i in m <==> i < count)
            && EntrySizes(entries) == SizeUpTo(m, count)
  {
    var m := Manifest(entries, count).value;
    ManifestKeys(entries, count);
    FullSet(m.Keys, count);
    EntriesOwed(entries, count);
    InIndexOrder(m, count);
    assert Below(m, count) == m;
  }

  /** The stored rows are complete and their sizes add up to the declared one. */
  predicate AddUp(rows: map<nat, Meta>, count: nat, size: int) {
    (forall i :: 0 <= i < count ==> i in rows) && SizeUpTo(rows, count) == size
  }

  function ReplyOf(b: Begin): Reply {
    if b.Refused? then Http(b.code) else Done
  }

  lemma ListedIsMatch(entries: seq<Entry>, count: nat, rows: map<nat, Meta>)
    requires Manifest(entries, count).Some?
    ensures RowsMatch(rows, Manifest(entries, count).value) <==> RowsListed(rows, entries)
  {
    ManifestIs(entries, count);
    hide Manifest, GoodManifest;
    var m := Manifest(entries, count).value;
    if RowsListed(rows, entries) {
      forall i | i in rows ensures i in m && m[i] == rows[i] {
        var k :| 0 <= k < |entries| && Lists(entries[k], i, rows[i]);
        assert entries[k].index in m;
      }
    }
  }

  lemma MatchIsAll(entries: seq<Entry>, count: nat, rows: map<nat, Meta>)
    requires Manifest(entries, count).Some? && |entries| == count && |rows| == count
    requires RowsMatch(rows, Manifest(entries, count).value)
    ensures rows == Manifest(entries, count).value && AddUp(rows, count, EntrySizes(entries))
  {
    EntriesAddUp(entries, count);
    hide Manifest, EntrySizes;
    assert forall i :: i in rows ==> i in Manifest(entries, count).value;
    FullSet(rows.Keys, count);
  }

  /** A commit may go on exactly when these hold, in this order: among them that a commit under way is older than five
      minutes, that the manifest is complete and lists the stored rows, and that their sizes add up. */
  lemma ReadReply(t: Tables, u: UserId, up: UploadId, digest: Digest, entries: seq<Entry>, file: FileId, now: Time)
    requires HasSession(t, u, up) && t.sessions[up].phase != Committed
    ensures var row, rows := t.sessions[up], RowsOf(t.chunks, up);
            Answers(ReplyOf(BeginRead(t, u, up, digest, entries, file, now)),
              [Guard(LowerHex(digest), 400), Guard(now < row.expiresAt, 410), Guard(digest == row.digest, 409),
               Guard(row.phase == Committing ==> row.updatedAt <= now - 300, 409), Guard(|entries| == row.count, 409),
               Guard(GoodManifest(entries, row.count), 400), Guard(|rows| == row.count, 409), Guard(RowsListed(rows, entries), 409),
               Guard(AddUp(rows, row.count, row.size), 409), Guard(row.phase == Committing ==> row.fileId.Some?, 409)])
  {
    var row, rows := t.sessions[up], RowsOf(t.chunks, up);
    var good, listed, whole := GoodManifest(entries, row.count), RowsListed(rows, entries), AddUp(rows, row.count, row.size);
    ReadChecks(t, u, up, digest, entries, file, now);
    hide BeginRead, AddUp, LowerHex, Answers, Checked, GoodManifest, RowsListed, RowsOf;
    var guards :=
      [Guard(LowerHex(digest), 400), Guard(now < row.expiresAt, 410), Guard(digest == row.digest, 409),
       Guard(row.phase == Committing ==> row.updatedAt <= now - 300, 409), Guard(|entries| == row.count, 409),
       Guard(good, 400), Guard(|rows| == row.count, 409), Guard(listed, 409), Guard(whole, 409),
       Guard(row.phase == Committing ==> row.fileId.Some?, 409)];
    InOrder(guards);
    assert ReplyOf(BeginRead(t, u, up, digest, entries, file, now)) == Checked(guards, 0);
  }

  /** The checks on the session, then those on the manifest. */
  lemma ReadChecks(t: Tables, u: UserId, up: UploadId, digest: Digest, entries: seq<Entry>, file: FileId, now: Time)
    requires HasSession(t, u, up) && t.sessions[up].phase != Committed
    ensures var row, rows := t.sessions[up], RowsOf(t.chunks, up);
            ReplyOf(BeginRead(t, u, up, digest, entries, file, now)) ==
              if !LowerHex(digest) then Http(400) else if row.expiresAt <= now then Http(410) else if digest != row.digest then Http(409)
              else if row.phase == Committing && row.updatedAt > now - 300 then Http(409) else if |entries| != row.count then Http(409)
              else if !GoodManifest(entries, row.count) then Http(400)
              else if |rows| != row.count || !RowsListed(rows, entries) || !AddUp(rows, row.count, row.size) then Http(409)
              else if row.phase == Committing && row.fileId == None then Http(409) else Done
  {
    var row, rows := t.sessions[up], RowsOf(t.chunks, up);
    HexIsLower(digest);
    ManifestIs(entries, row.count);
    if Manifest(entries, row.count).Some? {
      ListedIsMatch(entries, row.count, rows);
      if |entries| == row.count && |rows| == row.count && RowsMatch(rows, Manifest(entries, row.count).value) {
        MatchIsAll(entries, row.count, rows);
      }
    }
    hide AddUp, HexDigest, LowerHex, Manifest, GoodManifest, RowsListed, ListsAll, RowsMatch, RowsOf, EntrySizes;
    SameSum(rows, row.count, EntrySizes(entries), row.size);
  }

  lemma SameSum(rows: map<nat, Meta>, count: nat, total: int, size: int)
    ensures AddUp(rows, count, total) ==> (AddUp(rows, count, size) <==> total == size)
  {
  }

  /** Nobody else's upload is ever looked at, a committed one is answered as such, and what the handler carries on with is
      the session, its rows, and the file id chosen by the first attempt. */
  lemma ReadOutcome(t: Tables, u: UserId, up: UploadId, digest: Digest, entries: seq<Entry>, file: FileId, now: Time)
    ensures var b := BeginRead(t, u, up, digest, entries, file, now);
            && (b == AlreadyCommitted <==> LowerHex(digest) && HasSession(t, u, up) && t.sessions[up].phase == Committed)
            && (LowerHex(digest) && !HasSession(t, u, up) ==> b == Refused(404))
            && (!LowerHex(digest) ==> b == Refused(400))
            && (b.Ready? ==>
                  && HasSession(t, u, up) && b.snap.upload == up && b.snap.owner == u && b.snap.row == t.sessions[up]
                  && b.snap.manifest == RowsOf(t.chunks, up)
                  && (b.snap.stale <==> t.sessions[up].phase == Committing)
                  && b.snap.fileId == (if t.sessions[up].fileId == None then file else t.sessions[up].fileId.value))
  {
    HexIsLower(digest);
    if BeginRead(t, u, up, digest, entries, file, now).Ready? {
      ReadyManifest(t, u, up, digest, entries, file, now);
    }
    hide HexDigest, LowerHex, Manifest;
  }

  // ---------- Claim, assembly, finish, reset ----------

  /** The update takes effect exactly if the session is still as it was read: pending, or still under the lease that ran out. */
  lemma ClaimOutcome(t: Tables, c: Snap, now: Time)
    ensures CanClaim(t, c) <==>
              && HasSession(t, c.owner, c.upload)
              && (if c.stale then t.sessions[c.upload].phase == Committing && t.sessions[c.upload].updatedAt == c.row.updatedAt
                  else t.sessions[c.upload].phase == Pending)
    ensures CanClaim(t, c) ==>
              var row := t.sessions[c.upload].(phase := Committing, fileId := Some(c.fileId), updatedAt := now);
              Claim(t, c, now) == t.(sessions := t.sessions[c.upload := row])
  {
  }

  /** The chunk files assemble exactly if they are all there, each as the manifest says, are acceptable chunks of the container
      one after the other, and their join has the declared size and digest. */
  lemma AssemblesExactly(sha: Bytes -> Digest, parts: map<nat, Bytes>, c: Snap)
    requires c.row.count > 0
    ensures Assembles(sha, parts, c) <==>
              && (forall i :: 0 <= i < c.row.count ==>
                    i in parts && i in c.manifest && c.manifest[i] == Meta(|parts[i]|, sha(parts[i])))
              && Accepted(PartList(parts, c.row.count))
              && |Concat(PartList(parts, c.row.count))| == c.row.size && sha(Concat(PartList(parts, c.row.count))) == c.row.digest
  {
    hide Check, Concat;
    if forall i :: 0 <= i < c.row.count ==> i in parts {
      var list := PartList(parts, c.row.count);
      assert |list| == c.row.count && forall i :: 0 <= i < |list| ==> list[i] == parts[i];
      if Assembles(sha, parts, c) {
        forall i | 0 <= i < |list| ensures Check(list[i], i, i == |list| - 1) == None {
          assert Passes(sha, parts[i], i, c);
        }
        forall i | 0 <= i < c.row.count ensures i in parts && i in c.manifest && c.manifest[i] == Meta(|parts[i]|, sha(parts[i])) {
          assert Passes(sha, parts[i], i, c);
        }
        assert Accepted(list);
        assert |Concat(list)| == c.row.size && sha(Concat(list)) == c.row.digest;
      } else if Accepted(list) {
        assert forall i :: 0 <= i < |list| ==> Check(list[i], i, i == |list| - 1) == None;
      }
    } else {
      assert !PartsPass(sha, parts, c, c.row.count);
    }
  }

  /** Linking never changes a file that is there; it succeeds if there is none, or one of the same size and digest. */
  lemma LinkOutcome(sha: Bytes -> Digest, t: Tables, f: FileId, data: Bytes)
    ensures CanLink(sha, t, f, data) <==> f !in t.finals || (|t.finals[f]| == |data| && sha(t.finals[f]) == sha(data))
    ensures Link(t, f, data) == t.(finals := Link(t, f, data).finals) && f in Link(t, f, data).finals
    ensures Link(t, f, data).finals - {f} == t.finals - {f}
    ensures Link(t, f, data).finals[f] == if f in t.finals then t.finals[f] else data
  {
  }

  /** The reply of a commit is Done exactly if afterwards its session is there and committed; the one row a commit can
      add is added in a call that answers Done and commits the session. */
  lemma FinishOutcome(t: Tables, c: Snap, size: nat, now: Time)
    ensures var (t', reply) := Finish(t, c, size, now);
            && (reply == Done <==> HasSession(t', c.owner, c.upload) && t'.sessions[c.upload].phase == Committed)
            && (reply != Done ==> reply == Http(500) && t' == t)
            && (reply == Done ==> t'.users == t.users && t'.chunks == t.chunks && t'.finals == t.finals && t'.parts == t.parts - {c.upload})
            && (t'.registry != t.registry <==>
                  HasSession(t, c.owner, c.upload) && t.sessions[c.upload].phase == Committing && c.fileId !in t.registry)
            && (t'.registry != t.registry ==>
                  && reply == Done
                  && t'.registry == t.registry[c.fileId := FileRow(c.owner, size, true, now, now + 259200, c.row.digest)]
                  && t'.sessions == t.sessions[c.upload :=
                       t.sessions[c.upload].(phase := Committed, updatedAt := now, expiresAt := now + 259200)])
            && (t'.registry == t.registry ==> t'.sessions == t.sessions)
  {
    if Finish(t, c, size, now).0.registry == t.registry && HasSession(t, c.owner, c.upload) && t.sessions[c.upload].phase == Committing {
      assert c.fileId in t.registry;
    }
  }

  /** A reset takes effect exactly on a session of the owner that is being committed: it is pending again, without a file
      id and without any chunk. */
  lemma ResetOutcome(t: Tables, c: Snap, now: Time)
    ensures var t' := Reset(t, c, now);
            if HasSession(t, c.owner, c.upload) && t.sessions[c.upload].phase == Committing then
              && OnlyUpload(t, t', c.upload) && t'.users == t.users
              && t'.sessions == t.sessions[c.upload := t.sessions[c.upload].(phase := Pending, fileId := None, updatedAt := now)]
              && c.upload !in t'.chunks
              && (forall i: nat :: i < c.row.count ==> !HasPart(t', c.upload, i))
            else t' == t
  {
  }
}
