/** The handlers themselves, statement by statement over the tables and the
    disk. Each is proved to make exactly the transition of its function in
    Uploads, whatever order a SELECT without ORDER BY returns its rows in. */
module UploadStore {
  import opened Wrappers
  import opened Container
  import opened Ledger
  import opened Sorting
  import opened Uploads
  import opened Conservation

  /** What the cleanup loops do for one session row. */
  function DropRow(t: Tables, id: UploadId, row: Session, clamp: bool): Tables {
    t.(users := if row.phase == Committed then t.users else Release(t.users, row.owner, row.reserved, clamp),
       finals := if row.phase != Committed && row.fileId.Some? then t.finals - {row.fileId.value} else t.finals,
       chunks := t.chunks - {id},
       sessions := t.sessions - {id},
       parts := t.parts - {id})
  }

  /** What the cleanup loops do for one registry row. */
  function DropFileRow(t: Tables, f: FileId, row: FileRow, clamp: bool): Tables {
    t.(users := Release(t.users, row.owner, row.size, clamp), registry := t.registry - {f}, finals := t.finals - {f})
  }

  lemma ReservationsMore(sessions: map<UploadId, Session>, gone: set<UploadId>, id: UploadId)
    requires id in sessions && id !in gone
    ensures var r := Reservations(sessions);
            Only(r, gone + {id}) == if sessions[id].phase == Committed then Only(r, gone)
                                    else Only(r, gone)[id := Debt(sessions[id].owner, sessions[id].reserved)]
  {
  }

  lemma UnlinkedMore(sessions: map<UploadId, Session>, gone: set<UploadId>, id: UploadId)
    requires id in sessions && id !in gone
    ensures UnlinkedWith(sessions, gone + {id}) == UnlinkedWith(sessions, gone) + UnlinkedWith(sessions, {id})
    ensures UnlinkedWith(sessions, {id})
         == if sessions[id].phase != Committed && sessions[id].fileId.Some? then {sessions[id].fileId.value} else {}
  {
  }

  lemma DropOneMore(t: Tables, gone: set<UploadId>, id: UploadId, clamp: bool)
    requires id in t.sessions && id !in gone
    ensures DropSessions(t, gone + {id}, clamp) == DropRow(DropSessions(t, gone, clamp), id, t.sessions[id], clamp)
  {
    hide Pay, UnlinkedWith, Reservations, Only;
    var row := t.sessions[id];
    var d := Only(Reservations(t.sessions), gone);
    ReservationsMore(t.sessions, gone, id);
    UnlinkedMore(t.sessions, gone, id);
    if row.phase != Committed {
      OnlyOutside(t.sessions, gone, id);
      PayOneMore(t.users, d, id, Debt(row.owner, row.reserved), clamp);
    }
    var t1, t2 := DropSessions(t, gone, clamp), DropSessions(t, gone + {id}, clamp);
    assert t2.sessions == t1.sessions - {id} && t2.chunks == t1.chunks - {id} && t2.parts == t1.parts - {id};
    if row.phase != Committed && row.fileId.Some? {
      assert t2.finals == t1.finals - {row.fileId.value};
    }
  }

  lemma OnlyOutside(sessions: map<UploadId, Session>, gone: set<UploadId>, id: UploadId)
    requires id !in gone
    ensures id !in Only(Reservations(sessions), gone)
  {
  }

  lemma DropNone(t: Tables, clamp: bool)
    ensures DropSessions(t, {}, clamp) == t && DropFiles(t, {}, clamp) == t
  {
    PayNothing(t.users, Only(Reservations(t.sessions), {}), clamp);
    PayNothing(t.users, Only(Holdings(t.registry), {}), clamp);
    assert t.sessions - {} == t.sessions && t.chunks - {} == t.chunks && t.parts - {} == t.parts;
    assert UnlinkedWith(t.sessions, {}) == {} && t.finals - {} == t.finals && t.registry - {} == t.registry;
  }

  lemma DropOneMoreFile(t: Tables, fs: set<FileId>, f: FileId, clamp: bool)
    requires f in t.registry && f !in fs
    ensures DropFiles(t, fs + {f}, clamp)
         == DropFileRow(DropFiles(t, fs, clamp), f, t.registry[f], clamp)
  {
    var row := t.registry[f];
    var h := Holdings(t.registry);
    assert Only(h, fs + {f}) == Only(h, fs)[f := Debt(row.owner, row.size)];
    PayOneMore(t.users, Only(h, fs), f, Debt(row.owner, row.size), clamp);
    MinusMore(t.registry, fs, f);
    MinusMore(t.finals, fs, f);
  }

  lemma MinusMore<K, V>(m: map<K, V>, gone: set<K>, k: K)
    ensures m - (gone + {k}) == m - gone - {k}
  {
  }

  /** A prefix with a bad entry cannot be completed to a manifest. */
  lemma {:induction false} ManifestFails(entries: seq<Entry>, count: nat, k: nat)
    requires k <= |entries| && Manifest(entries[..k], count) == None
    ensures Manifest(entries, count) == None
    decreases |entries| - k
  {
    if k < |entries| {
      assert entries[..k + 1][..k] == entries[..k];
      ManifestFails(entries, count, k + 1);
    } else {
      assert entries[..k] == entries;
    }
  }

  lemma PartListSnoc(parts: map<nat, Bytes>, k: nat)
    requires forall i :: 0 <= i <= k ==> i in parts
    ensures Concat(PartList(parts, k + 1)) == Concat(PartList(parts, k)) + parts[k]
  {
    ConcatSnoc(PartList(parts, k + 1), k);
    assert PartList(parts, k + 1)[..k] == PartList(parts, k);
    assert PartList(parts, k + 1)[..k + 1] == PartList(parts, k + 1);
  }

  class Store {
    var users: map<UserId, int>
    var sessions: map<UploadId, Session>
    var chunks: map<UploadId, map<nat, Meta>>
    var registry: map<FileId, FileRow>
    var parts: map<UploadId, map<nat, Bytes>>
    var finals: map<FileId, Bytes>

    constructor ()
      ensures Contents() == Tables(map[], map[], map[], map[], map[], map[])
    {
      users, sessions, chunks, registry, parts, finals := map[], map[], map[], map[], map[], map[];
    }

    function Contents(): Tables
      reads this
    {
      Tables(users, sessions, chunks, registry, parts, finals)
    }

    // ---------- Sessions ----------

    method DropSessionRow(id: UploadId, row: Session)
      modifies this
      ensures Contents() == DropRow(old(Contents()), id, row, true)
    {
      if row.phase != Committed {
        users := Release(users, row.owner, row.reserved, true);
        if row.fileId.Some? {
          finals := finals - {row.fileId.value};
        }
      }
      chunks := chunks - {id};
      sessions := sessions - {id};
      parts := parts - {id};
    }

    method CleanupExpired(now: Time) returns (removed: nat)
      modifies this
      ensures Contents() == Expire(old(Contents()), now, true)
      ensures removed == |ExpiredAt(old(Contents()), now)|
      ensures old(Conserved(Contents())) ==> Conserved(Contents())
    {
      hide Conserved, DropSessions;
      if Conserved(Contents()) {
        ExpireConserves(Contents(), now);
      }
      var ids := ExpiredAt(Contents(), now);
      DropAll(ids);
      removed := |ids|;
    }

    method DropAll(ids: set<UploadId>)
      requires ids <= sessions.Keys
      modifies this
      ensures Contents() == DropSessions(old(Contents()), ids, true)
    {
      hide DropSessions, DropRow;
      ghost var t := Contents();
      var rows, todo := sessions, ids;
      ghost var gone: set<UploadId> := {};
      DropNone(t, true);
      while todo != {}
        invariant todo <= ids && gone == ids - todo
        invariant Contents() == DropSessions(t, gone, true)
        decreases todo
      {
        var id :| id in todo;
        DropOneMore(t, gone, id, true);
        DropSessionRow(id, rows[id]);
        todo, gone := todo - {id}, gone + {id};
      }
      assert gone == ids;
    }

    method CancelSession(u: UserId, up: UploadId) returns (reply: Reply)
      modifies this
      ensures (Contents(), reply) == Cancel(old(Contents()), u, up, true)
      ensures old(Conserved(Contents())) ==> Conserved(Contents())
    {
      hide Conserved;
      if Conserved(Contents()) {
        CancelConserves(Contents(), u, up, true);
      }
      if up !in sessions || sessions[up].owner != u {
        return Http(404);
      }
      var row := sessions[up];
      if row.phase == Committed {
        return Http(409);
      }
      users := Release(users, u, row.reserved, true);
      chunks := chunks - {up};
      sessions := sessions - {up};
      parts := parts - {up};
      reply := Done;
    }

    /** Returns the row count; the release is one statement, skipped when there is nothing to release. */
    method PurgeUser(u: UserId) returns (count: nat)
      requires Conserved(Contents())
      modifies this
      ensures Contents() == Purge(old(Contents()), u, true)
      ensures count == |OwnedBy(old(Contents()), u)|
      ensures Conserved(Contents())
    {
      PurgeConserves(Contents(), u, true);
      ghost var t := Contents();
      var rows := sessions;
      var ids := OwnedBy(Contents(), u);
      count := |ids|;
      var release := SumReserved(rows, ids, u);
      DeleteOwned(rows, ids);
      if release != 0 {
        users := Release(users, u, release, true);
      }
      ReleaseIsPay(t, u, ids, release);
    }

    static method SumReserved(rows: map<UploadId, Session>, ids: set<UploadId>, u: UserId) returns (release: nat)
      requires ids <= rows.Keys && forall id :: id in ids ==> rows[id].owner == u
      ensures release == Owed(Only(Reservations(rows), ids), u)
    {
      release := 0;
      var todo := ids;
      ghost var seen: set<UploadId> := {};
      assert Only(Reservations(rows), seen) == map[];
      while todo != {}
        invariant todo <= ids && seen == ids - todo
        invariant release == Owed(Only(Reservations(rows), seen), u)
        decreases todo
      {
        hide Owed, Reservations, Only;
        var id :| id in todo;
        ReservationsMore(rows, seen, id);
        OnlyOutside(rows, seen, id);
        if rows[id].phase != Committed {
          OwedAdd(Only(Reservations(rows), seen), id, Debt(u, rows[id].reserved), u);
          release := release + rows[id].reserved;
        }
        todo, seen := todo - {id}, seen + {id};
      }
      assert seen == ids;
    }

    /** Unlinks what the uncommitted sessions left and deletes their chunk rows, then the session rows. */
    method DeleteOwned(rows: map<UploadId, Session>, ids: set<UploadId>)
      requires rows == sessions && ids <= rows.Keys
      modifies this
      ensures users == old(users) && registry == old(registry)
      ensures sessions == old(sessions) - ids && chunks == old(chunks) - ids && parts == old(parts) - ids
      ensures finals == old(finals) - UnlinkedWith(rows, ids)
    {
      var todo := ids;
      ghost var gone: set<UploadId> := {};
      while todo != {}
        invariant todo <= ids && gone == ids - todo
        invariant users == old(users) && registry == old(registry) && sessions == old(sessions)
        invariant chunks == old(chunks) - gone && parts == old(parts) - gone
        invariant finals == old(finals) - UnlinkedWith(rows, gone)
        decreases todo
      {
        hide UnlinkedWith;
        var id :| id in todo;
        UnlinkedMore(rows, gone, id);
        MinusMore(old(parts), gone, id);
        MinusMore(old(chunks), gone, id);
        assert old(finals) - UnlinkedWith(rows, gone + {id})
            == old(finals) - UnlinkedWith(rows, gone) - UnlinkedWith(rows, {id});
        if rows[id].phase != Committed && rows[id].fileId.Some? {
          finals := finals - {rows[id].fileId.value};
        }
        parts := parts - {id};
        chunks := chunks - {id};
        todo, gone := todo - {id}, gone + {id};
      }
      assert gone == ids;
      sessions := sessions - ids;
    }

    method CreateSession(u: UserId, request: string, size: int, count: int, digest: Digest, limit: int, id: UploadId, now: Time)
      returns (reply: Reply)
      requires UniqueRequests(Contents())
      modifies this
      ensures (Contents(), reply) == Create(old(Contents()), u, request, size, count, digest, limit, id, now)
      ensures UniqueRequests(Contents())
      ensures old(Conserved(Contents())) ==> Conserved(Contents())
    {
      hide Conserved;
      if Conserved(Contents()) {
        CreateConserves(Contents(), u, request, size, count, digest, limit, id, now);
      }
      if !HexDigest(digest) {
        return Http(400);
      }
      if size <= 0 || size > MAX_FILE {
        return Http(413);
      }
      if count <= 0 || count > MAX_CHUNKS || count > size {
        return Http(400);
      }
      if u !in users {
        return Http(401);
      }
      var existing := Requested(Contents(), u, request);
      if existing != {} {
        var e :| e in existing;
        assert forall d :: d in existing ==> d == e;
        if !SameManifest(sessions[e], size, count, digest) {
          return Http(409);
        }
        return Done;
      }
      if |Active(Contents(), u, now)| >= MAX_SESSIONS {
        return Http(429);
      }
      if users[u] + size > limit {
        return Http(413);
      }
      if id in sessions {
        return Http(500);
      }
      assert forall d :: d in sessions && sessions[d].owner == u && sessions[d].request == request ==> d in existing;
      sessions := sessions[id := Session(u, request, Pending, size, count, digest, None, size, now, now + SESSION_TTL)];
      users := Charge(users, u, size);
      reply := Done;
    }

    /** `duplicate` tells the client that the chunk file was already there. */
    method PutChunk(sha: Bytes -> Digest, u: UserId, up: UploadId, index: int, data: Bytes, declared: Meta, startedAt: Time, now: Time)
      returns (reply: Reply, duplicate: bool)
      modifies this
      ensures (Contents(), reply) == Put(sha, old(Contents()), u, up, index, data, declared, startedAt, now)
      ensures reply == Done ==> (duplicate <==> index in PartsOf(old(parts), up))
      ensures old(Conserved(Contents())) ==> Conserved(Contents())
    {
      hide Conserved;
      if Conserved(Contents()) {
        PutConserves(sha, Contents(), u, up, index, data, declared, startedAt, now);
      }
      duplicate := false;
      if !HexDigest(declared.digest) {
        return Http(400), duplicate;
      }
      if declared.size <= 0 || declared.size > MAX_CHUNK {
        return Http(413), duplicate;
      }
      if up !in sessions || sessions[up].owner != u {
        return Http(404), duplicate;
      }
      var session := sessions[up];
      if session.phase != Pending {
        return Http(409), duplicate;
      }
      if session.expiresAt <= startedAt {
        return Http(410), duplicate;
      }
      if index < 0 || index >= session.count {
        return Http(400), duplicate;
      }
      if |data| > declared.size {
        return Http(413), duplicate;
      }
      if MetaOf(sha, data) != declared {
        return Http(400), duplicate;
      }
      var there: map<nat, Bytes> := PartsOf(parts, up);
      duplicate := index in there;
      if duplicate && MetaOf(sha, there[index]) != declared {
        return Http(409), duplicate;
      }
      var rows: map<nat, Meta> := RowsOf(chunks, up);
      if index in rows && rows[index] != declared {
        return Http(409), duplicate;
      }
      var i: nat := index;
      if !duplicate {
        there := there[i := data];
      }
      parts := parts[up := there];
      chunks := chunks[up := rows[i := declared]];
      sessions := sessions[up := session.(updatedAt := now)];
      reply := Done;
    }

    /** The received and missing lists of a session report; broken chunks of a pending session are dropped on the way. */
    method SessionPayload(up: UploadId) returns (received: seq<nat>, missing: seq<nat>)
      requires up in sessions
      modifies this
      ensures Contents() == Heal(old(Contents()), up)
      ensures sessions[up].phase == Committed ==> received == [] && missing == []
      ensures sessions[up].phase != Committed ==> Reported(old(Contents()), up, received, missing)
      ensures old(Conserved(Contents())) ==> Conserved(Contents())
    {
      hide Conserved;
      if Conserved(Contents()) {
        HealConserves(Contents(), up);
      }
      received, missing := [], [];
      if sessions[up].phase == Committed {
        return;
      }
      var stored: map<nat, Meta>, there: map<nat, Bytes> := RowsOf(chunks, up), PartsOf(parts, up);
      var healed: set<nat>;
      received, healed := Inspect(stored, there);
      assert healed == Broken(Contents(), up);
      if sessions[up].phase == Pending && healed != {} {
        parts := parts[up := there - healed];
        chunks := chunks[up := stored - healed];
      }
      missing := Absent(sessions[up].count, received);
    }

    /** Splits the stored rows, read in index order, by whether their file is as long as recorded. */
    static method Inspect(stored: map<nat, Meta>, there: map<nat, Bytes>) returns (received: seq<nat>, broken: set<nat>)
      ensures Ascending(received)
      ensures forall i :: i in received <==> i in stored && i in there && |there[i]| == stored[i].size
      ensures broken == set i | i in stored && !(i in there && |there[i]| == stored[i].size)
    {
      received, broken := [], {};
      var todo := stored.Keys;
      while todo != {}
        invariant todo <= stored.Keys
        invariant Ascending(received) && forall k, x :: 0 <= k < |received| && x in todo ==> received[k] < x
        invariant forall i :: i in received <==> i in stored && i !in todo && i in there && |there[i]| == stored[i].size
        invariant broken == set i | i in stored && i !in todo && !(i in there && |there[i]| == stored[i].size)
        decreases todo
      {
        var i := Least(todo);
        if i in there && |there[i]| == stored[i].size {
          received := received + [i];
        } else {
          broken := broken + {i};
        }
        todo := todo - {i};
      }
    }

    static method Absent(count: nat, received: seq<nat>) returns (missing: seq<nat>)
      ensures Ascending(missing) && forall i: nat :: i in missing <==> i < count && i !in received
    {
      missing := [];
      for i := 0 to count
        invariant Ascending(missing) && forall k :: 0 <= k < |missing| ==> missing[k] < i
        invariant forall j: nat :: j in missing <==> j < i && j !in received
      {
        if i !in received {
          missing := missing + [i];
        }
      }
    }

    // ---------- Commit ----------

    static method BuildManifest(entries: seq<Entry>, count: nat) returns (manifest: Option<map<nat, Meta>>)
      ensures manifest == Manifest(entries, count)
    {
      var built: map<nat, Meta> := map[];
      for k := 0 to |entries|
        invariant Manifest(entries[..k], count) == Some(built)
      {
        var e := entries[k];
        assert entries[..k + 1][..k] == entries[..k];
        if !GoodEntry(e, count, built) {
          ManifestFails(entries, count, k + 1);
          return None;
        }
        var i: nat := e.index;
        built := built[i := Meta(e.size, e.digest)];
      }
      assert entries[..|entries|] == entries;
      manifest := Some(built);
    }

    /** Compares the stored rows with the manifest one by one. */
    static method Agree(rows: map<nat, Meta>, manifest: map<nat, Meta>) returns (ok: bool)
      ensures ok <==> RowsMatch(rows, manifest)
    {
      var todo := rows.Keys;
      while todo != {}
        invariant todo <= rows.Keys
        invariant forall i :: i in rows && i !in todo ==> i in manifest && manifest[i] == rows[i]
        decreases todo
      {
        var i: nat :| i in todo;
        if i !in manifest || manifest[i] != rows[i] {
          return false;
        }
        todo := todo - {i};
      }
      ok := true;
    }

    static method TotalSize(entries: seq<Entry>) returns (total: int)
      ensures total == EntrySizes(entries)
    {
      total := 0;
      for k := 0 to |entries|
        invariant total == EntrySizes(entries[..k])
      {
        assert entries[..k + 1][..k] == entries[..k];
        total := total + entries[k].size;
      }
      assert entries[..|entries|] == entries;
    }

    method ReadCommit(u: UserId, up: UploadId, digest: Digest, entries: seq<Entry>, newFile: FileId, now: Time) returns (b: Begin)
      ensures b == BeginRead(Contents(), u, up, digest, entries, newFile, now)
    {
      if !HexDigest(digest) {
        return Refused(400);
      }
      if up !in sessions || sessions[up].owner != u {
        return Refused(404);
      }
      var row := sessions[up];
      if row.phase == Committed {
        return AlreadyCommitted;
      }
      if row.expiresAt <= now {
        return Refused(410);
      }
      if row.digest != digest {
        return Refused(409);
      }
      var stale := false;
      if row.phase == Committing {
        stale := row.updatedAt <= now - COMMIT_LEASE;
        if !stale {
          return Refused(409);
        }
      }
      if |entries| != row.count {
        return Refused(409);
      }
      var built := BuildManifest(entries, row.count);
      if built.None? {
        return Refused(400);
      }
      var manifest, rows := built.value, RowsOf(chunks, up);
      if |rows| != row.count {
        return Refused(409);
      }
      var same := Agree(rows, manifest);
      if !same {
        return Refused(409);
      }
      var total := TotalSize(entries);
      if total != row.size {
        return Refused(409);
      }
      if row.phase == Committing && row.fileId == None {
        return Refused(409);
      }
      b := Ready(Snap(up, u, row, manifest, stale, if row.fileId.Some? then row.fileId.value else newFile));
    }

    /** The conditional UPDATE; `won` is rowcount == 1. */
    method ClaimCommit(c: Snap, now: Time) returns (won: bool)
      modifies this
      ensures won <==> CanClaim(old(Contents()), c)
      ensures Contents() == if won then Claim(old(Contents()), c, now) else old(Contents())
      ensures old(Conserved(Contents())) ==> Conserved(Contents())
    {
      hide Conserved;
      if Conserved(Contents()) && CanClaim(Contents(), c) {
        ClaimConserves(Contents(), c, now);
      }
      if c.upload !in sessions || sessions[c.upload].owner != c.owner {
        return false;
      }
      var row := sessions[c.upload];
      won := if c.stale then row.phase == Committing && row.updatedAt == c.row.updatedAt else row.phase == Pending;
      if won {
        sessions := sessions[c.upload := row.(phase := Committing, fileId := Some(c.fileId), updatedAt := now)];
      }
    }

    /** Appends the chunk files in index order, each checked as it is read; None stands for the 409. */
    method AssembleParts(sha: Bytes -> Digest, c: Snap) returns (whole: Option<Bytes>)
      requires forall i :: 0 <= i < c.row.count ==> i in c.manifest
      ensures whole.Some? <==> Assembles(sha, PartsOf(parts, c.upload), c)
      ensures whole.Some? ==> whole.value == Concat(PartList(PartsOf(parts, c.upload), c.row.count))
    {
      var there := PartsOf(parts, c.upload);
      var assembled: Bytes := [];
      for index := 0 to c.row.count
        invariant PartsPass(sha, there, c, index)
        invariant assembled == Concat(PartList(there, index))
      {
        if index !in there {
          return None;
        }
        if Check(there[index], index, index == c.row.count - 1) != None {
          return None;
        }
        if MetaOf(sha, there[index]) != c.manifest[index] {
          return None;
        }
        PartListSnoc(there, index);
        assembled := assembled + there[index];
      }
      if |assembled| != c.row.size || sha(assembled) != c.row.digest {
        return None;
      }
      whole := Some(assembled);
    }

    /** os.link never replaces: an existing file must already hold the same content. */
    method LinkFinal(sha: Bytes -> Digest, f: FileId, data: Bytes) returns (ok: bool)
      modifies this
      ensures ok <==> CanLink(sha, old(Contents()), f, data)
      ensures Contents() == if ok then Link(old(Contents()), f, data) else old(Contents())
    {
      if f in finals {
        ok := |finals[f]| == |data| && sha(finals[f]) == sha(data);
      } else {
        finals := finals[f := data];
        ok := true;
      }
    }

    method FinishCommit(c: Snap, size: nat, now: Time) returns (reply: Reply)
      modifies this
      ensures (Contents(), reply) == Finish(old(Contents()), c, size, now)
      ensures old(Conserved(Contents())) && old(c.upload in sessions ==> sessions[c.upload].reserved == size) ==> Conserved(Contents())
      ensures SparesCommitted(old(Contents()), Contents())
    {
      hide Conserved, SparesCommitted;
      if Conserved(Contents()) && (c.upload in sessions ==> sessions[c.upload].reserved == size) {
        FinishConserves(Contents(), c, size, now);
      }
      FinishSpares(Contents(), c, size, now);
      if c.upload !in sessions || sessions[c.upload].owner != c.owner || sessions[c.upload].phase == Pending {
        return Http(500);
      }
      var current := sessions[c.upload];
      if current.phase != Committed {
        if c.fileId in registry {
          return Http(500);
        }
        registry := registry[c.fileId := FileRow(c.owner, size, true, now, now + RETENTION, c.row.digest)];
        sessions := sessions[c.upload := current.(phase := Committed, updatedAt := now, expiresAt := now + RETENTION)];
      }
      parts := parts - {c.upload};
      reply := Done;
    }

    method ResetCommit(c: Snap, now: Time)
      modifies this
      ensures Contents() == Reset(old(Contents()), c, now)
      ensures old(Conserved(Contents())) ==> Conserved(Contents())
      ensures SparesCommitted(old(Contents()), Contents())
    {
      hide Conserved, SparesCommitted;
      if Conserved(Contents()) {
        ResetConserves(Contents(), c, now);
      }
      ResetSpares(Contents(), c, now);
      if c.upload !in sessions || sessions[c.upload].owner != c.owner || sessions[c.upload].phase != Committing {
        return;
      }
      sessions := sessions[c.upload := sessions[c.upload].(phase := Pending, fileId := None, updatedAt := now)];
      chunks := chunks - {c.upload};
      var there := PartsOf(parts, c.upload);
      var left := there;
      for index := 0 to c.row.count
        invariant left == there - (set i: nat | i in there && i < index)
      {
        left := left - {index};
      }
      parts := parts[c.upload := left];
    }

    // ---------- One-shot uploads, downloads, deletes, accounts ----------

    method ReserveFile(sha: Bytes -> Digest, u: UserId, f: FileId, data: Bytes, limit: int, now: Time) returns (reply: Reply)
      modifies this
      ensures (Contents(), reply) == Reserve(sha, old(Contents()), u, f, data, limit, now)
      ensures old(Conserved(Contents())) ==> Conserved(Contents())
    {
      hide Conserved;
      if Conserved(Contents()) {
        ReserveStepConserves(sha, Contents(), u, f, data, limit, now);
      }
      if |data| == 0 || |data| > MAX_FILE {
        return Http(413);
      }
      if u !in users {
        return Http(401);
      }
      if users[u] + |data| > limit {
        return Http(413);
      }
      if f in registry {
        return Http(500);
      }
      registry := registry[f := FileRow(u, |data|, false, now, now + RETENTION, sha(data))];
      users := Charge(users, u, |data|);
      reply := Done;
    }

    method PublishFile(f: FileId, data: Bytes) returns (reply: Reply)
      modifies this
      ensures (Contents(), reply) == Publish(old(Contents()), f, data)
      ensures old(Conserved(Contents())) ==> Conserved(Contents())
    {
      hide Conserved;
      if Conserved(Contents()) {
        PublishConserves(Contents(), f, data);
      }
      finals := finals[f := data];
      if f in registry && !registry[f].ready {
        registry := registry[f := registry[f].(ready := true)];
        reply := Done;
      } else {
        assert finals - {f} == old(finals) - {f};
        finals := finals - {f};
        reply := Http(500);
      }
    }

    method RollbackFile(f: FileId, u: UserId, size: nat)
      modifies this
      ensures Contents() == Rollback(old(Contents()), f, u, size, true)
      ensures old(Conserved(Contents())) && old(f in registry ==> registry[f].owner == u && registry[f].size == size)
              ==> Conserved(Contents())
    {
      hide Conserved;
      if Conserved(Contents()) && (f in registry ==> registry[f].owner == u && registry[f].size == size) {
        RollbackConserves(Contents(), f, u, size, true);
      }
      finals := finals - {f};
      if f in registry && !registry[f].ready {
        registry := registry - {f};
        users := Release(users, u, size, true);
      }
    }

    method DropUnreadable(f: FileId)
      requires f in registry
      modifies this
      ensures Contents() == DropFile(old(Contents()), f, true)
    {
      users := Release(users, registry[f].owner, registry[f].size, true);
      registry := registry - {f};
    }

    method DeleteFile(u: UserId, f: FileId) returns (reply: Reply)
      modifies this
      ensures (Contents(), reply) == Delete(old(Contents()), u, f)
      ensures old(Conserved(Contents())) ==> Conserved(Contents())
    {
      hide Conserved;
      if Conserved(Contents()) {
        DeleteConserves(Contents(), u, f);
      }
      if f !in registry || registry[f].owner != u {
        return Http(403);
      }
      finals := finals - {f};
      users := Release(users, u, registry[f].size, false);
      registry := registry - {f};
      reply := Done;
    }

    method TokenDownload(f: FileId, now: Time) returns (reply: Reply)
      modifies this
      ensures (Contents(), reply) == DownloadByToken(old(Contents()), f, now, true)
      ensures old(Conserved(Contents())) ==> Conserved(Contents())
    {
      hide Conserved;
      if Conserved(Contents()) {
        DropStepConserves(Contents(), f, true);
      }
      if f !in registry || !registry[f].ready || registry[f].expiresAt <= now {
        return Http(403);
      }
      if f !in finals {
        DropUnreadable(f);
        return Http(404);
      }
      reply := Done;
    }

    method SessionDownload(u: UserId, f: FileId, now: Time) returns (reply: Reply)
      modifies this
      ensures (Contents(), reply) == DownloadBySession(old(Contents()), u, f, now, true)
      ensures old(Conserved(Contents())) ==> Conserved(Contents())
    {
      hide Conserved;
      if Conserved(Contents()) {
        DropStepConserves(Contents(), f, true);
      }
      if f !in registry || !registry[f].ready {
        return Http(404);
      }
      if registry[f].expiresAt <= now {
        DropUnreadable(f);
        return Http(404);
      }
      if registry[f].owner != u {
        return Http(403);
      }
      if f !in finals {
        DropUnreadable(f);
        return Http(404);
      }
      reply := Done;
    }

    /** One loop of the scheduled cleanup: the selected rows, one at a time. */
    method DropRows(fs: set<FileId>, clamp: bool)
      requires fs <= registry.Keys
      modifies this
      ensures Contents() == DropFiles(old(Contents()), fs, clamp)
    {
      hide DropFiles;
      ghost var t := Contents();
      var rows, todo := registry, fs;
      ghost var gone: set<FileId> := {};
      DropNone(t, clamp);
      while todo != {}
        invariant todo <= fs && gone == fs - todo
        invariant Contents() == DropFiles(t, gone, clamp)
        decreases todo
      {
        var f :| f in todo;
        DropOneMoreFile(t, gone, f, clamp);
        finals := finals - {f};
        users := Release(users, rows[f].owner, rows[f].size, clamp);
        registry := registry - {f};
        todo, gone := todo - {f}, gone + {f};
      }
      assert gone == fs;
    }

    method CleanupFiles(now: Time)
      modifies this
      ensures Contents() == CleanFiles(old(Contents()), now, true)
      ensures old(Conserved(Contents())) ==> Conserved(Contents())
    {
      hide Conserved;
      if Conserved(Contents()) {
        CleanFilesConserves(Contents(), now, true);
      }
      hide DropFiles;
      DropRows(StalePending(Contents(), now), true);
      DropRows(ExpiredFiles(Contents(), now), false);
    }

    /** Account reset. The early return leaves the counter as the purge made it. */
    method RemoveOwnedFiles(u: UserId) returns (removed: nat)
      requires Conserved(Contents())
      modifies this
      ensures Contents() == RemoveUserFiles(old(Contents()), u, true)
      ensures Conserved(Contents()) && (u in users ==> users[u] == 0)
    {
      hide Purge, Conserved;
      AccountResetConserves(Contents(), u);
      var purged := PurgeUser(u);
      removed := DeleteOwnedFiles(u);
    }

    /** What account reset does after the purge. */
    method DeleteOwnedFiles(u: UserId) returns (removed: nat)
      modifies this
      ensures Contents() == RemoveFiles(old(Contents()), u)
      ensures removed == |FilesOf(old(Contents()), u)|
    {
      ghost var t := Contents();
      var fs := FilesOf(Contents(), u);
      removed := |fs|;
      if fs == {} {
        return;
      }
      var todo := fs;
      while todo != {}
        invariant todo <= fs
        invariant finals == t.finals - (fs - todo)
        invariant users == t.users && sessions == t.sessions && chunks == t.chunks && parts == t.parts && registry == t.registry
        decreases todo
      {
        hide *;
        var f :| f in todo;
        finals := finals - {f};
        todo := todo - {f};
      }
      registry := registry - fs;
      if u in users {
        users := users[u := 0];
      }
    }

    method DeregisterUser(u: UserId)
      requires Conserved(Contents())
      modifies this
      ensures Contents() == Deregister(old(Contents()), u, true)
      ensures Conserved(Contents()) && u !in users
    {
      DeregisterConserves(Contents(), u, true);
      hide Purge, Conserved;
      if u !in users {
        return;
      }
      var purged := PurgeUser(u);
      var fs := FilesOf(Contents(), u);
      registry, finals := registry - fs, finals - fs;
      users := users - {u};
    }

    method RegisterUser(u: UserId)
      modifies this
      ensures Contents() == Register(old(Contents()), u)
    {
      if u !in users {
        users := users[u := 0];
      }
    }
  }

  lemma ReleaseIsPay(t: Tables, u: UserId, ids: set<UploadId>, release: nat)
    requires Conserved(t) && ids == OwnedBy(t, u)
    requires release == Owed(Only(Reservations(t.sessions), ids), u)
    ensures Purge(t, u, true).users == if release != 0 then Release(t.users, u, release, true) else t.users
  {
    var d := Only(Reservations(t.sessions), ids);
    forall v | v in t.users ensures Pay(t.users, d, true)[v] == if v == u then Less(t.users[u], release, true) else t.users[v] {
      if v != u {
        assert !Owes(d, v);
      } else if !Owes(d, u) {
        OwedNone(d, u);
      }
    }
  }
}
