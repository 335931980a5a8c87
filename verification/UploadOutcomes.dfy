/** What a client can rely on when it opens, fills, inspects and gives up an
    upload: which reply it gets, and which rows and files are there afterwards,
    in terms of the tables before. */
module UploadOutcomes {
  import opened Wrappers
  import opened Container
  import opened Ledger
  import opened Sorting
  import opened Uploads
  import opened Replies

  /** No row and no file of another upload changes, and no registered file. */
  predicate OnlyUpload(t: Tables, t': Tables, up: UploadId) {
    && t'.sessions - {up} == t.sessions - {up} && t'.chunks - {up} == t.chunks - {up} && t'.parts - {up} == t.parts - {up}
    && t'.registry == t.registry && t'.finals == t.finals && t'.users.Keys == t.users.Keys
  }

  predicate HasSession(t: Tables, u: UserId, up: UploadId) {
    up in t.sessions && t.sessions[up].owner == u
  }

  // ---------- Opening ----------

  ghost predicate NoneAsked(t: Tables, u: UserId, request: string) {
    forall e :: e in t.sessions ==> t.sessions[e].owner != u || t.sessions[e].request != request
  }

  predicate WellDeclared(size: int, count: int, digest: Digest) {
    LowerHex(digest) && 0 < size <= 2147483648 && 0 < count <= 8192 && count <= size
  }

  function Running(t: Tables, u: UserId, now: Time): set<UploadId> {
    set e | e in t.sessions && t.sessions[e].owner == u && t.sessions[e].phase in {Pending, Committing} && now < t.sessions[e].expiresAt
  }

  lemma AskedNone(t: Tables, u: UserId, request: string)
    ensures NoneAsked(t, u, request) <==> Uploads.Requested(t, u, request) == {}
  {
    var asked := Uploads.Requested(t, u, request);
    forall e | e in t.sessions && t.sessions[e].owner == u && t.sessions[e].request == request ensures e in asked {
    }
  }

  /** Every session of the request declares the same. */
  ghost predicate AllDeclare(t: Tables, u: UserId, request: string, size: int, count: int, digest: Digest) {
    forall e :: e in t.sessions && t.sessions[e].owner == u && t.sessions[e].request == request ==>
      t.sessions[e].size == size && t.sessions[e].count == count && t.sessions[e].digest == digest
  }

  /** A create adds at most the session asked for, and never beyond the limit; it is accepted exactly when the request,
      of a known user and well declared, has a session afterwards and every such session declares the same. */
  lemma CreateOutcome(t: Tables, u: UserId, request: string, size: int, count: int, digest: Digest,
                      limit: int, id: UploadId, now: Time)
    ensures var (t', reply) := Create(t, u, request, size, count, digest, limit, id, now);
            && (reply == Done <==>
                  && WellDeclared(size, count, digest) && u in t.users
                  && !NoneAsked(t', u, request) && AllDeclare(t', u, request, size, count, digest))
            && (t' != t ==>
                  && reply == Done && u in t.users && size > 0 && count > 0 && id !in t.sessions
                  && t' == t.(sessions := t.sessions[id := Session(u, request, Pending, size, count, digest, None, size, now, now + 86400)],
                              users := t.users[u := t.users[u] + size])
                  && t'.users[u] <= limit)
  {
    var (t', reply) := Create(t, u, request, size, count, digest, limit, id, now);
    HexIsLower(digest);
    AskedNone(t, u, request);
    AskedNone(t', u, request);
    hide HexDigest, LowerHex;
    if t' != t {
      assert t'.sessions[id].owner == u && t'.sessions[id].request == request;
    } else {
      assert AllDeclare(t, u, request, size, count, digest) <==>
             forall e :: e in Uploads.Requested(t, u, request) ==> SameManifest(t.sessions[e], size, count, digest);
    }
  }

  /** A request that was not made before goes through exactly if these hold, in this order: among them that the user has
      fewer than eight uploads running, and that the counter with the new size stays within the limit. */
  lemma CreateReply(t: Tables, u: UserId, request: string, size: int, count: int, digest: Digest,
                    limit: int, id: UploadId, now: Time)
    requires NoneAsked(t, u, request)
    ensures Answers(Create(t, u, request, size, count, digest, limit, id, now).1,
              [Guard(LowerHex(digest), 400), Guard(0 < size <= 2147483648, 413), Guard(0 < count <= 8192, 400),
               Guard(count <= size, 400), Guard(u in t.users, 401), Guard(|Running(t, u, now)| < 8, 429),
               Guard(u in t.users && t.users[u] + size <= limit, 413), Guard(id !in t.sessions, 500)])
  {
    HexIsLower(digest);
    AskedNone(t, u, request);
    assert Running(t, u, now) == Active(t, u, now);
    hide HexDigest, LowerHex, Running, Active;
    var guards := [Guard(LowerHex(digest), 400), Guard(0 < size <= 2147483648, 413), Guard(0 < count <= 8192, 400),
                   Guard(count <= size, 400), Guard(u in t.users, 401), Guard(|Running(t, u, now)| < 8, 429),
                   Guard(u in t.users && t.users[u] + size <= limit, 413), Guard(id !in t.sessions, 500)];
    hide Answers, Checked;
    InOrder(guards);
    assert guards[0].code == 400 && guards[1].code == 413;
    assert Create(t, u, request, size, count, digest, limit, id, now).1 == Checked(guards, 0);
  }

  /** A request made before goes through exactly if it declares the same again; no limit is asked for. */
  lemma CreateAgain(t: Tables, u: UserId, request: string, size: int, count: int, digest: Digest,
                    limit: int, id: UploadId, now: Time)
    requires !NoneAsked(t, u, request)
    ensures Create(t, u, request, size, count, digest, limit, id, now).0 == t
    ensures Answers(Create(t, u, request, size, count, digest, limit, id, now).1,
              [Guard(LowerHex(digest), 400), Guard(0 < size <= 2147483648, 413), Guard(0 < count <= 8192, 400),
               Guard(count <= size, 400), Guard(u in t.users, 401), Guard(AllDeclare(t, u, request, size, count, digest), 409)])
  {
    HexIsLower(digest);
    AskedNone(t, u, request);
    assert AllDeclare(t, u, request, size, count, digest) <==>
           forall e :: e in Uploads.Requested(t, u, request) ==> SameManifest(t.sessions[e], size, count, digest);
    hide HexDigest, LowerHex, Answers, Checked, AllDeclare, NoneAsked, Uploads.Requested, SameManifest;
    var guards := [Guard(LowerHex(digest), 400), Guard(0 < size <= 2147483648, 413), Guard(0 < count <= 8192, 400),
                   Guard(count <= size, 400), Guard(u in t.users, 401), Guard(AllDeclare(t, u, request, size, count, digest), 409)];
    InOrder(guards);
    assert Create(t, u, request, size, count, digest, limit, id, now).1 == Checked(guards, 0);
  }

  // ---------- Chunks ----------

  /** What is stored for a chunk, if anything, is of the size and digest declared now. */
  predicate PartAgrees(sha: Bytes -> Digest, t: Tables, up: UploadId, index: int, declared: Meta) {
    up in t.parts && index in t.parts[up] ==> |t.parts[up][index]| == declared.size && sha(t.parts[up][index]) == declared.digest
  }

  predicate RowAgrees(t: Tables, up: UploadId, index: int, declared: Meta) {
    up in t.chunks && index in t.chunks[up] ==> t.chunks[up][index] == declared
  }

  /** A chunk is stored exactly when these hold, in this order. */
  lemma PutReply(sha: Bytes -> Digest, t: Tables, u: UserId, up: UploadId, index: int, data: Bytes,
                 declared: Meta, startedAt: Time, now: Time)
    ensures Answers(Put(sha, t, u, up, index, data, declared, startedAt, now).1,
              [Guard(LowerHex(declared.digest), 400), Guard(0 < declared.size <= 4194432, 413), Guard(HasSession(t, u, up), 404),
               Guard(HasSession(t, u, up) && t.sessions[up].phase == Pending, 409),
               Guard(HasSession(t, u, up) && startedAt < t.sessions[up].expiresAt, 410),
               Guard(HasSession(t, u, up) && 0 <= index < t.sessions[up].count, 400),
               Guard(|data| <= declared.size, 413), Guard(|data| == declared.size && sha(data) == declared.digest, 400),
               Guard(PartAgrees(sha, t, up, index, declared), 409), Guard(RowAgrees(t, up, index, declared), 409)])
  {
    HexIsLower(declared.digest);
    hide HexDigest, LowerHex, Answers, Checked;
    var guards :=
      [Guard(LowerHex(declared.digest), 400), Guard(0 < declared.size <= 4194432, 413), Guard(HasSession(t, u, up), 404),
       Guard(HasSession(t, u, up) && t.sessions[up].phase == Pending, 409),
       Guard(HasSession(t, u, up) && startedAt < t.sessions[up].expiresAt, 410),
       Guard(HasSession(t, u, up) && 0 <= index < t.sessions[up].count, 400),
       Guard(|data| <= declared.size, 413), Guard(|data| == declared.size && sha(data) == declared.digest, 400),
       Guard(PartAgrees(sha, t, up, index, declared), 409), Guard(RowAgrees(t, up, index, declared), 409)];
    InOrder(guards);
    assert Put(sha, t, u, up, index, data, declared, startedAt, now).1 == Checked(guards, 0);
  }

  /** The chunk has its row and its file, which is the data sent unless a file was there already, of the same size and
      digest; no other chunk changes. */
  predicate Stored(sha: Bytes -> Digest, t: Tables, t': Tables, up: UploadId, i: nat, data: Bytes, declared: Meta) {
    && up in t'.chunks && up in t'.parts && i in t'.chunks[up] && i in t'.parts[up]
    && t'.chunks[up][i] == declared && |t'.parts[up][i]| == declared.size && sha(t'.parts[up][i]) == declared.digest
    && t'.parts[up][i] == (if up in t.parts && i in t.parts[up] then t.parts[up][i] else data)
    && t'.chunks[up] - {i} == (if up in t.chunks then t.chunks[up] - {i} else map[])
    && t'.parts[up] - {i} == (if up in t.parts then t.parts[up] - {i} else map[])
  }

  /** An accepted chunk is stored and nothing else changes; a refused one leaves everything as it was. */
  lemma PutOutcome(sha: Bytes -> Digest, t: Tables, u: UserId, up: UploadId, index: int, data: Bytes,
                   declared: Meta, startedAt: Time, now: Time)
    ensures var (t', reply) := Put(sha, t, u, up, index, data, declared, startedAt, now);
            && (reply != Done ==> t' == t)
            && (reply == Done ==>
                  && OnlyUpload(t, t', up) && t'.users == t.users && index >= 0 && up in t.sessions
                  && t'.sessions == t.sessions[up := t.sessions[up].(updatedAt := now)]
                  && Stored(sha, t, t', up, index, data, declared))
  {
    var (t', reply) := Put(sha, t, u, up, index, data, declared, startedAt, now);
    PutTouches(sha, t, u, up, index, data, declared, startedAt, now);
    hide *;
    if reply == Done {
      PutStores(sha, t, u, up, index, data, declared, startedAt, now);
    }
  }

  lemma PutTouches(sha: Bytes -> Digest, t: Tables, u: UserId, up: UploadId, index: int, data: Bytes,
                   declared: Meta, startedAt: Time, now: Time)
    ensures var (t', reply) := Put(sha, t, u, up, index, data, declared, startedAt, now);
            if reply == Done then
              && OnlyUpload(t, t', up) && t'.users == t.users && up in t.sessions
              && t'.sessions == t.sessions[up := t.sessions[up].(updatedAt := now)]
            else t' == t
  {
    hide HexDigest, MetaOf, PartsOf, RowsOf;
  }

  lemma PutStores(sha: Bytes -> Digest, t: Tables, u: UserId, up: UploadId, index: int, data: Bytes,
                  declared: Meta, startedAt: Time, now: Time)
    requires Put(sha, t, u, up, index, data, declared, startedAt, now).1 == Done
    ensures index >= 0 && Stored(sha, t, Put(sha, t, u, up, index, data, declared, startedAt, now).0, up, index, data, declared)
  {
    hide HexDigest;
  }

  /** The chunk is there as its row says: the row, and a file as long as recorded. */
  predicate Whole(t: Tables, up: UploadId, i: nat) {
    up in t.chunks && i in t.chunks[up] && up in t.parts && i in t.parts[up] && |t.parts[up][i]| == t.chunks[up][i].size
  }

  predicate HasRow(t: Tables, up: UploadId, i: nat) {
    up in t.chunks && i in t.chunks[up]
  }

  predicate HasPart(t: Tables, up: UploadId, i: nat) {
    up in t.parts && i in t.parts[up]
  }

  /** A report lists as received exactly the chunks that are there as their rows say, and as missing all other indices. */
  lemma ReportedExactly(t: Tables, up: UploadId, received: seq<nat>, missing: seq<nat>)
    requires up in t.sessions && Reported(t, up, received, missing)
    ensures forall i :: i in received <==> Whole(t, up, i)
    ensures forall i: nat :: i in missing <==> i < t.sessions[up].count && !Whole(t, up, i)
  {
    BrokenIs(t, up);
    hide Broken, Whole;
  }

  /** Of this chunk exactly the row and the file stay that a report on a pending session must leave. */
  predicate HealedAt(t: Tables, t': Tables, up: UploadId, i: nat) {
    && (HasRow(t', up, i) <==> Whole(t, up, i)) && (HasRow(t', up, i) ==> t'.chunks[up][i] == t.chunks[up][i])
    && (HasPart(t', up, i) <==> HasPart(t, up, i) && (HasRow(t, up, i) ==> Whole(t, up, i)))
    && (HasPart(t', up, i) ==> t'.parts[up][i] == t.parts[up][i])
  }

  /** Reporting on a pending session keeps exactly the rows whose chunk is there, drops the files of the others, and
      touches nothing else; reporting on any other session changes nothing. */
  lemma HealOutcome(t: Tables, up: UploadId, i: nat)
    ensures var t' := Heal(t, up);
            if up in t.sessions && t.sessions[up].phase == Pending then
              OnlyUpload(t, t', up) && t'.sessions == t.sessions && t'.users == t.users && HealedAt(t, t', up, i)
            else t' == t
  {
    HealsAt(t, up, i);
    hide HealedAt, Broken;
  }

  lemma HealsAt(t: Tables, up: UploadId, i: nat)
    ensures up in t.sessions && t.sessions[up].phase == Pending ==> HealedAt(t, Heal(t, up), up, i)
  {
    BrokenIs(t, up);
    hide Broken, Whole;
    if up in t.sessions && t.sessions[up].phase == Pending && Broken(t, up) == {} {
      assert HasRow(t, up, i) ==> Whole(t, up, i);
    }
  }

  lemma BrokenIs(t: Tables, up: UploadId)
    ensures forall j :: j in Broken(t, up) <==> HasRow(t, up, j) && !Whole(t, up, j)
    ensures forall j :: Whole(t, up, j) ==> HasRow(t, up, j)
  {
  }

  // ---------- Giving up ----------

  /** Every session but the ones in `gone` stays, with its rows and chunk files; of the finished files only those
      go that an uncommitted session in `gone` was about to register. */
  ghost predicate Dropped(t: Tables, t': Tables, gone: set<UploadId>) {
    && t'.sessions == t.sessions - gone && t'.chunks == t.chunks - gone && t'.parts == t.parts - gone
    && t'.registry == t.registry && t'.users.Keys == t.users.Keys
    && (forall f :: f in t'.finals ==> f in t.finals && t'.finals[f] == t.finals[f])
    && (forall f :: f in t.finals ==>
          (f !in t'.finals <==>
             exists e :: e in t.sessions && e in gone && t.sessions[e].phase != Committed && t.sessions[e].fileId == Some(f)))
  }

  lemma DropsExactly(t: Tables, gone: set<UploadId>, clamp: bool)
    ensures Dropped(t, DropSessions(t, gone, clamp), gone)
  {
    forall f | f in t.finals
      ensures f in UnlinkedWith(t.sessions, gone) <==>
                exists e :: e in t.sessions && e in gone && t.sessions[e].phase != Committed && t.sessions[e].fileId == Some(f)
    {
    }
  }

  /** The expiry takes exactly the sessions that are due. */
  lemma ExpireOutcome(t: Tables, now: Time, clamp: bool)
    ensures Dropped(t, Expire(t, now, clamp), set e | e in t.sessions && t.sessions[e].expiresAt <= now)
  {
    hide Dropped, DropSessions;
    DropsExactly(t, ExpiredAt(t, now), clamp);
    assert ExpiredAt(t, now) == set e | e in t.sessions && t.sessions[e].expiresAt <= now;
  }

  /** A purge takes exactly the sessions of the user. */
  lemma PurgeOutcome(t: Tables, u: UserId, clamp: bool)
    ensures Dropped(t, Purge(t, u, clamp), set e | e in t.sessions && t.sessions[e].owner == u)
  {
    hide Dropped, DropSessions;
    DropsExactly(t, OwnedBy(t, u), clamp);
    assert OwnedBy(t, u) == set e | e in t.sessions && t.sessions[e].owner == u;
  }

  /** Only the owner can cancel, and only until the commit; a cancelled session is gone with its chunks. */
  lemma CancelOutcome(t: Tables, u: UserId, up: UploadId, clamp: bool)
    ensures var (t', reply) := Cancel(t, u, up, clamp);
            && reply == (if !HasSession(t, u, up) then Http(404) else if t.sessions[up].phase == Committed then Http(409) else Done)
            && (reply != Done ==> t' == t)
            && (reply == Done ==> OnlyUpload(t, t', up) && up !in t'.sessions && up !in t'.chunks && up !in t'.parts)
            && (forall v :: v in t.users && v != u ==> t'.users[v] == t.users[v])
  {
  }
}
