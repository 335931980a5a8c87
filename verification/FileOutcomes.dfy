/** What a client can rely on for one-shot uploads, downloads, deletes, the
    scheduled cleanup and its account: replies, and which files stay. */
module FileOutcomes {
  import opened Wrappers
  import opened Container
  import opened Ledger
  import opened Uploads
  import opened Replies
  import opened UploadOutcomes

  /** No session, chunk row or chunk file changes, and no row or finished file but those of f. */
  predicate OnlyFile(t: Tables, t': Tables, f: FileId) {
    && t'.sessions == t.sessions && t'.chunks == t.chunks && t'.parts == t.parts && t'.users.Keys == t.users.Keys
    && t'.registry - {f} == t.registry - {f} && t'.finals - {f} == t.finals - {f}
  }

  // ---------- One-shot uploads ----------

  /** A one-shot upload is accepted exactly when these hold, in this order. */
  lemma ReserveReply(sha: Bytes -> Digest, t: Tables, u: UserId, f: FileId, data: Bytes, limit: int, now: Time)
    ensures Answers(Reserve(sha, t, u, f, data, limit, now).1,
              [Guard(0 < |data| <= 2147483648, 413), Guard(u in t.users, 401),
               Guard(u in t.users && t.users[u] + |data| <= limit, 413), Guard(f !in t.registry, 500)])
  {
    hide Answers, Checked;
    var guards := [Guard(0 < |data| <= 2147483648, 413), Guard(u in t.users, 401),
                   Guard(u in t.users && t.users[u] + |data| <= limit, 413), Guard(f !in t.registry, 500)];
    InOrder(guards);
    assert Reserve(sha, t, u, f, data, limit, now).1 == Checked(guards, 0);
  }

  /** It then has one pending row that describes the data, and the counter has grown by its size, within the limit. */
  lemma ReserveOutcome(sha: Bytes -> Digest, t: Tables, u: UserId, f: FileId, data: Bytes, limit: int, now: Time)
    ensures var (t', reply) := Reserve(sha, t, u, f, data, limit, now);
            && (reply != Done ==> t' == t)
            && (reply == Done ==>
                  && OnlyFile(t, t', f) && t'.finals == t.finals && f !in t.registry && f in t'.registry
                  && t'.registry[f] == FileRow(u, |data|, false, now, now + 259200, sha(data))
                  && t'.users == t.users[u := t'.users[u]] && t'.users[u] == t.users[u] + |data| <= limit)
  {
  }

  /** The reply is Done exactly if the row is there and ready afterwards because of this call; then the file holds the data,
      otherwise there is no file. */
  lemma PublishOutcome(t: Tables, f: FileId, data: Bytes)
    ensures var (t', reply) := Publish(t, f, data);
            && OnlyFile(t, t', f) && t'.users == t.users && t'.registry.Keys == t.registry.Keys
            && (reply == Done <==> f in t.registry && !t.registry[f].ready)
            && (reply == Done <==> f in t'.finals)
            && (reply == Done ==> t'.finals[f] == data && t'.registry[f] == t.registry[f].(ready := true))
            && (reply != Done ==> reply == Http(500) && t'.registry == t.registry)
  {
  }

  /** A rollback leaves no file, and takes the row exactly if it is still pending. */
  lemma RollbackOutcome(t: Tables, f: FileId, u: UserId, size: nat, clamp: bool)
    ensures var t' := Rollback(t, f, u, size, clamp);
            && OnlyFile(t, t', f) && f !in t'.finals
            && (f in t'.registry <==> f in t.registry && t.registry[f].ready)
            && (f in t'.registry ==> t'.registry[f] == t.registry[f])
            && (t'.users != t.users ==> f in t.registry && !t.registry[f].ready)
  {
  }

  // ---------- Deletes and downloads ----------

  /** Only the owner can delete a file; then its row and its bytes are gone. */
  lemma DeleteOutcome(t: Tables, u: UserId, f: FileId)
    ensures var (t', reply) := Delete(t, u, f);
            && (reply == Done <==> f in t.registry && t.registry[f].owner == u)
            && (reply != Done ==> reply == Http(403) && t' == t)
            && (reply == Done ==> OnlyFile(t, t', f) && f !in t'.registry && f !in t'.finals)
  {
  }

  /** The file can be given to whoever asks rightly at this time: a finished row that is not over, and the bytes. */
  predicate Readable(t: Tables, f: FileId, now: Time) {
    f in t.registry && t.registry[f].ready && now < t.registry[f].expiresAt && f in t.finals
  }

  /** A token gets a readable file; a row whose bytes are missing is dropped, and nothing else changes. */
  lemma TokenOutcome(t: Tables, f: FileId, now: Time, clamp: bool)
    ensures var (t', reply) := DownloadByToken(t, f, now, clamp);
            && (reply == Done <==> Readable(t, f, now))
            && (reply == Http(404) <==> f in t.registry && t.registry[f].ready && now < t.registry[f].expiresAt && f !in t.finals)
            && (reply in {Done, Http(403), Http(404)})
            && (reply != Http(404) ==> t' == t)
            && (reply == Http(404) ==> OnlyFile(t, t', f) && f !in t'.registry && t'.finals == t.finals)
  {
  }

  /** A session gets its own readable files and nobody else's; a row that is over or without bytes is dropped. */
  lemma SessionOutcome(t: Tables, u: UserId, f: FileId, now: Time, clamp: bool)
    ensures var (t', reply) := DownloadBySession(t, u, f, now, clamp);
            && (reply == Done <==> Readable(t, f, now) && t.registry[f].owner == u)
            && (reply == Http(403) <==>
                  f in t.registry && t.registry[f].ready && now < t.registry[f].expiresAt && t.registry[f].owner != u)
            && (reply in {Done, Http(403), Http(404)})
            && t'.finals == t.finals
            && if f in t.registry && t.registry[f].ready
                  && (t.registry[f].expiresAt <= now || (t.registry[f].owner == u && f !in t.finals)) then
                 OnlyFile(t, t', f) && f !in t'.registry
               else t' == t
  {
  }

  // ---------- Cleanup and accounts ----------

  /** A row the scheduled cleanup must leave: not over, and if still pending, not older than six hours. */
  predicate Fresh(r: FileRow, now: Time) {
    now <= r.expiresAt && (r.ready || now - 21600 <= r.uploadedAt)
  }

  /** Files with a row outside `gone`, or without a row, stay as they are. */
  ghost predicate FilesDropped(t: Tables, t': Tables, gone: set<FileId>) {
    && t'.registry == t.registry - gone && t'.finals == t.finals - gone && t'.users.Keys == t.users.Keys
    && t'.sessions == t.sessions && t'.chunks == t.chunks && t'.parts == t.parts
  }

  lemma PayKeys<K(!new)>(users: map<UserId, int>, d: map<K, Debt>, clamp: bool)
    ensures Pay(users, d, clamp).Keys == users.Keys
  {
  }

  /** The cleanup takes exactly the rows that are over or long pending, with their bytes. */
  lemma CleanFilesOutcome(t: Tables, now: Time, clamp: bool)
    ensures FilesDropped(t, CleanFiles(t, now, clamp), set f | f in t.registry && !Fresh(t.registry[f], now))
  {
    PayKeys(t.users, Only(Holdings(t.registry), StalePending(t, now)), clamp);
    var stale, gone := StalePending(t, now), set f | f in t.registry && !Fresh(t.registry[f], now);
    var t1 := DropFiles(t, stale, clamp);
    PayKeys(t1.users, Only(Holdings(t1.registry), ExpiredFiles(t1, now)), false);
    hide Pay, Holdings;
    assert stale + ExpiredFiles(t1, now) == gone;
    assert t.registry - stale - ExpiredFiles(t1, now) == t.registry - gone;
    assert t.finals - stale - ExpiredFiles(t1, now) == t.finals - gone;
  }

  /** Of the files, exactly those of the user go. */
  ghost predicate OwnFilesGone(t: Tables, t': Tables, u: UserId) {
    && (forall f :: f in t'.registry <==> f in t.registry && t.registry[f].owner != u)
    && (forall f :: f in t'.registry ==> t'.registry[f] == t.registry[f])
    && (forall f :: f in t.registry && t.registry[f].owner == u ==> f !in t'.finals)
    && (forall f :: f in t'.finals ==> f in t.finals && t'.finals[f] == t.finals[f])
  }

  /** Of the sessions, exactly those of the user go, with all their chunks. */
  ghost predicate OwnSessionsGone(t: Tables, t': Tables, u: UserId) {
    && (forall e :: e in t'.sessions <==> e in t.sessions && t.sessions[e].owner != u)
    && (forall e :: e in t'.sessions ==> t'.sessions[e] == t.sessions[e])
    && (forall e :: e in t.sessions && t.sessions[e].owner == u ==> e !in t'.chunks && e !in t'.parts)
    && (forall e :: !(e in t.sessions && t.sessions[e].owner == u) ==>
          && (e in t'.chunks <==> e in t.chunks) && (e in t.chunks ==> t'.chunks[e] == t.chunks[e])
          && (e in t'.parts <==> e in t.parts) && (e in t.parts ==> t'.parts[e] == t.parts[e]))
  }

  /** What a user leaves behind is gone; a finished file goes only with its owner's row or session. */
  ghost predicate Leaves(t: Tables, t': Tables, u: UserId) {
    OwnFilesGone(t, t', u) && OwnSessionsGone(t, t', u) && OnlyOwnFilesGo(t, t', u)
  }

  ghost predicate OnlyOwnFilesGo(t: Tables, t': Tables, u: UserId) {
    forall f :: f in t.finals && f !in t'.finals ==>
      (f in t.registry && t.registry[f].owner == u) || AboutToRegister(t, u, f)
  }

  ghost predicate AboutToRegister(t: Tables, u: UserId, f: FileId) {
    exists e :: e in t.sessions && t.sessions[e].owner == u && t.sessions[e].phase != Committed && t.sessions[e].fileId == Some(f)
  }

  lemma PurgeLeaves(t: Tables, u: UserId, clamp: bool)
    ensures var t' := Purge(t, u, clamp);
            && OwnSessionsGone(t, t', u) && t'.registry == t.registry && t'.users.Keys == t.users.Keys
            && (forall f :: f in t'.finals ==> f in t.finals && t'.finals[f] == t.finals[f])
            && (forall f :: f in t.finals && f !in t'.finals ==> AboutToRegister(t, u, f))
  {
    PurgeOutcome(t, u, clamp);
    hide Purge;
  }

  /** Taking a set of files away from what the purge left. */
  lemma RestLeaves(t: Tables, t1: Tables, t': Tables, u: UserId)
    requires OwnSessionsGone(t, t1, u) && t1.registry == t.registry
    requires forall f :: f in t1.finals ==> f in t.finals && t1.finals[f] == t.finals[f]
    requires forall f :: f in t.finals && f !in t1.finals ==> AboutToRegister(t, u, f)
    requires t'.sessions == t1.sessions && t'.chunks == t1.chunks && t'.parts == t1.parts
    requires t'.registry == t1.registry - FilesOf(t1, u) && t'.finals == t1.finals - FilesOf(t1, u)
    ensures Leaves(t, t', u)
  {
    hide AboutToRegister, OwnSessionsGone, FilesOf, OwnFilesGone, OnlyOwnFilesGo;
    SameSessionsGone(t, t1, t', u);
    RestFiles(t, t1, t', u);
    RestOnly(t, t1, t', u);
  }

  lemma RestFiles(t: Tables, t1: Tables, t': Tables, u: UserId)
    requires t1.registry == t.registry && forall f :: f in t1.finals ==> f in t.finals && t1.finals[f] == t.finals[f]
    requires t'.registry == t1.registry - FilesOf(t1, u) && t'.finals == t1.finals - FilesOf(t1, u)
    ensures OwnFilesGone(t, t', u)
  {
    assert forall f :: f in FilesOf(t1, u) <==> f in t.registry && t.registry[f].owner == u;
    hide FilesOf;
  }

  lemma RestOnly(t: Tables, t1: Tables, t': Tables, u: UserId)
    requires t1.registry == t.registry && forall f :: f in t.finals && f !in t1.finals ==> AboutToRegister(t, u, f)
    requires t'.finals == t1.finals - FilesOf(t1, u)
    ensures OnlyOwnFilesGo(t, t', u)
  {
    hide AboutToRegister;
  }

  lemma SameSessionsGone(t: Tables, t1: Tables, t': Tables, u: UserId)
    requires OwnSessionsGone(t, t1, u)
    requires t'.sessions == t1.sessions && t'.chunks == t1.chunks && t'.parts == t1.parts
    ensures OwnSessionsGone(t, t', u)
  {
  }

  lemma NoFiles(t: Tables, u: UserId)
    requires FilesOf(t, u) == {}
    ensures t.registry - FilesOf(t, u) == t.registry && t.finals - FilesOf(t, u) == t.finals
  {
  }

  /** After an account reset nothing of the user is left but the account, with a counter of zero if the user had files. */
  lemma ResetAccountOutcome(t: Tables, u: UserId, clamp: bool)
    ensures var t' := RemoveUserFiles(t, u, clamp);
            && Leaves(t, t', u) && t'.users.Keys == t.users.Keys
            && (u in t.users && (exists f :: f in t.registry && t.registry[f].owner == u) ==> t'.users[u] == 0)
  {
    PurgeLeaves(t, u, clamp);
    hide Purge, OwnSessionsGone, Leaves, AboutToRegister;
    var t1 := Purge(t, u, clamp);
    if FilesOf(t1, u) == {} {
      NoFiles(t1, u);
    }
    RestLeaves(t, t1, RemoveFiles(t1, u), u);
  }

  /** After deregistration the account is gone too, and no other account. */
  lemma DeregisterOutcome(t: Tables, u: UserId, clamp: bool)
    ensures var t' := Deregister(t, u, clamp);
            if u in t.users then Leaves(t, t', u) && t'.users.Keys == t.users.Keys - {u} else t' == t
  {
    PurgeLeaves(t, u, clamp);
    hide Purge, OwnSessionsGone, Leaves, AboutToRegister;
    var t1 := Purge(t, u, clamp);
    RestLeaves(t, t1, DropUser(t1, u), u);
  }
}
