/** How long things live, over whole runs: a finished file until it is due or
    its owner gives it up, a session likewise, a received chunk until a reset. */
module UploadLifetimes {
  import opened Wrappers
  import opened Container
  import opened Ledger
  import opened Uploads
  import opened UploadRuns
  import opened UploadTheorems
  import opened UploadOutcomes
  import opened CommitOutcomes
  import opened FileOutcomes

  // ---------- Files ----------

  /** The only reasons for which the row of a file may go. */
  predicate MayGo(s: State, a: Action, f: FileId)
    requires f in s.t.registry
  {
    var r := s.t.registry[f];
    match a
    case File(DeleteFile(u, g)) => g == f && u == r.owner
    case File(RollbackFile(g)) => g == f && !r.ready
    case File(GetFile(u, g)) => g == f && r.ready && (r.expiresAt <= s.now || (u == r.owner && f !in s.t.finals))
    case File(GetFileByToken(g)) => g == f && r.ready && s.now < r.expiresAt && f !in s.t.finals
    case File(CleanUp) => r.expiresAt < s.now || (!r.ready && r.uploadedAt < s.now - 21600)
    case Account(SignOff(u)) => u == r.owner
    case Account(ResetAccount(u)) => u == r.owner
    case _ => false
  }

  /** The row stays as it is, or is published. */
  predicate RowStays(t: Tables, t': Tables, f: FileId)
    requires f in t.registry
  {
    f in t'.registry && (t'.registry[f] == t.registry[f] || (!t.registry[f].ready && t'.registry[f] == t.registry[f].(ready := true)))
  }

  lemma AccountRows(s: State, b: AccountAction, f: FileId)
    requires f in s.t.registry
    ensures RowStays(s.t, AccountStep(false, s, b).t, f) || MayGo(s, Account(b), f)
  {
    match b
    case SignUp(u) =>
    case SignOff(u) => DeregisterOutcome(s.t, u, false); hide Deregister;
    case ResetAccount(u) => ResetAccountOutcome(s.t, u, false); hide RemoveUserFiles;
  }

  lemma UploadRows(sha: Bytes -> Digest, s: State, b: UploadAction)
    ensures UploadStep(sha, false, s, b).t.registry == s.t.registry
  {
    hide Pay, MetaOf, Charge, Release;
  }

  lemma CommitRows(sha: Bytes -> Digest, s: State, b: CommitAction, f: FileId)
    requires f in s.t.registry
    ensures RowStays(s.t, CommitStep(sha, s, b).t, f)
  {
    hide BeginRead, CanClaim, Passes, MetaOf, Concat, CanLink;
  }

  lemma FileRows(sha: Bytes -> Digest, s: State, b: FileAction, f: FileId)
    requires f in s.t.registry
    ensures RowStays(s.t, FileStep(sha, false, s, b).t, f) || MayGo(s, Action.File(b), f)
  {
    match b
    case ReserveFile(u, g, data, limit) => ReserveOutcome(sha, s.t, u, g, data, limit, s.now); hide Reserve;
    case PublishFile(g) =>
      if g in s.oneshots {
        PublishOutcome(s.t, g, s.oneshots[g].data);
      }
      hide Publish;
    case RollbackFile(g) =>
      if g in s.oneshots {
        RollbackOutcome(s.t, g, s.oneshots[g].owner, |s.oneshots[g].data|, false);
      }
      hide Rollback;
    case DeleteFile(u, g) => DeleteOutcome(s.t, u, g); hide Delete;
    case GetFile(u, g) => SessionOutcome(s.t, u, g, s.now, false); hide DownloadBySession;
    case GetFileByToken(g) => TokenOutcome(s.t, g, s.now, false); hide DownloadByToken;
    case CleanUp => CleanFilesOutcome(s.t, s.now, false); hide CleanFiles;
  }

  /** A step keeps the row of a file, or has one of the reasons to take it. */
  lemma StepRows(sha: Bytes -> Digest, s: State, a: Action, f: FileId)
    requires f in s.t.registry
    ensures RowStays(s.t, Step(sha, false, s, a).t, f) || MayGo(s, a, f)
  {
    hide AccountStep, UploadStep, CommitStep, FileStep;
    match a
    case Account(b) => AccountRows(s, b, f);
    case Upload(b) => UploadRows(sha, s, b);
    case Commit(b) => CommitRows(sha, s, b, f);
    case File(b) => FileRows(sha, s, b, f);
    case _ =>
  }

  /** The owner takes the file back at this step, or all files with it. */
  predicate GivesUp(a: Action, u: UserId, f: FileId) {
    a == Action.File(DeleteFile(u, f)) || a == Account(SignOff(u)) || a == Account(ResetAccount(u))
  }

  lemma StepKeepsReadable(sha: Bytes -> Digest, run: seq<Action>, n: nat, f: FileId)
    requires n < |run| && f in At(sha, false, run, n).t.registry && At(sha, false, run, n).t.registry[f].ready
    requires !GivesUp(run[n], At(sha, false, run, n).t.registry[f].owner, f)
    requires At(sha, false, run, n).now < At(sha, false, run, n).t.registry[f].expiresAt && f !in At(sha, false, run, n).lost
    ensures f in At(sha, false, run, n + 1).t.registry
    ensures At(sha, false, run, n + 1).t.registry[f] == At(sha, false, run, n).t.registry[f]
  {
    hide Step, Conserved, Pinned;
    InvAt(sha, run, n);
    StepRows(sha, At(sha, false, run, n), run[n], f);
    Next(sha, run, n);
  }

  lemma LostStays(sha: Bytes -> Digest, s: State, a: Action)
    ensures s.lost <= Step(sha, false, s, a).lost
  {
    hide AccountStep, UploadStep, CommitStep, FileStep;
    match a
    case Account(b) => AccountLost(s, b);
    case Upload(b) => UploadLost(sha, s, b);
    case Commit(b) => CommitLost(sha, s, b);
    case File(b) => FileLost(sha, s, b);
    case _ =>
  }

  lemma AccountLost(s: State, b: AccountAction)
    ensures AccountStep(false, s, b).lost == s.lost
  {
    hide Register, Deregister, RemoveUserFiles;
  }

  lemma UploadLost(sha: Bytes -> Digest, s: State, b: UploadAction)
    ensures UploadStep(sha, false, s, b).lost == s.lost
  {
    hide Create, Put, Heal, Cancel, Expire;
  }

  lemma CommitLost(sha: Bytes -> Digest, s: State, b: CommitAction)
    ensures CommitStep(sha, s, b).lost == s.lost
  {
    hide BeginRead, CanClaim, Claim, Passes, MetaOf, Concat, CanLink, Link, Finish, Reset;
  }

  lemma FileLost(sha: Bytes -> Digest, s: State, b: FileAction)
    ensures FileStep(sha, false, s, b).lost == s.lost
  {
    hide Reserve, Publish, Rollback, Delete, DownloadBySession, DownloadByToken, CleanFiles;
  }

  /** A finished file stays: until it is due or its owner gives it up, and unless the disk loses it, its row is unchanged and
      the owner, like the holder of a token, can download it, whatever everybody else does. */
  lemma {:induction false} StaysReadable(sha: Bytes -> Digest, run: seq<Action>, i: nat, n: nat, f: FileId)
    requires i <= n <= |run| && f in At(sha, false, run, i).t.registry && At(sha, false, run, i).t.registry[f].ready
    requires At(sha, false, run, n).now < At(sha, false, run, i).t.registry[f].expiresAt && f !in At(sha, false, run, n).lost
    requires forall k :: i <= k < n ==> !GivesUp(run[k], At(sha, false, run, i).t.registry[f].owner, f)
    ensures var r, s := At(sha, false, run, i).t.registry[f], At(sha, false, run, n);
            && f in s.t.registry && s.t.registry[f] == r && f in s.t.finals
            && DownloadBySession(s.t, r.owner, f, s.now, true) == (s.t, Done)
            && DownloadByToken(s.t, f, s.now, true) == (s.t, Done)
    decreases n
  {
    hide Step, Conserved, Pinned;
    if i < n {
      StepDeclares(sha, At(sha, false, run, n - 1), run[n - 1]);
      LostStays(sha, At(sha, false, run, n - 1), run[n - 1]);
      StaysReadable(sha, run, i, n - 1, f);
      StepKeepsReadable(sha, run, n - 1, f);
    }
    InvAt(sha, run, n);
    var s := At(sha, false, run, n);
    SessionOutcome(s.t, s.t.registry[f].owner, f, s.now, true);
    TokenOutcome(s.t, f, s.now, true);
  }

  // ---------- Sessions ----------

  /** The only reasons for which a session may go. */
  predicate SessionMayGo(s: State, a: Action, up: UploadId)
    requires up in s.t.sessions
  {
    var r := s.t.sessions[up];
    match a
    case Upload(CancelUpload(u, id)) => id == up && u == r.owner && r.phase != Committed
    case Upload(ExpireUploads) => r.expiresAt <= s.now
    case Account(SignOff(u)) => u == r.owner
    case Account(ResetAccount(u)) => u == r.owner
    case _ => false
  }

  lemma AccountSessions(s: State, b: AccountAction, up: UploadId)
    requires up in s.t.sessions
    ensures up in AccountStep(false, s, b).t.sessions || SessionMayGo(s, Account(b), up)
  {
    match b
    case SignUp(u) =>
    case SignOff(u) => DeregisterOutcome(s.t, u, false); hide Deregister;
    case ResetAccount(u) => ResetAccountOutcome(s.t, u, false); hide RemoveUserFiles;
  }

  lemma UploadSessions(sha: Bytes -> Digest, s: State, b: UploadAction, up: UploadId)
    requires up in s.t.sessions
    ensures up in UploadStep(sha, false, s, b).t.sessions || SessionMayGo(s, Upload(b), up)
  {
    match b
    case OpenUpload(u, request, size, count, digest, limit, id) =>
      CreateOutcome(s.t, u, request, size, count, digest, limit, id, s.now); hide Create;
    case PutChunk(u, id, index, data, meta, startedAt) =>
      PutOutcome(sha, s.t, u, id, index, data, meta, startedAt, s.now); hide Put;
    case Inspect(id) =>
    case CancelUpload(u, id) => CancelOutcome(s.t, u, id, false); hide Cancel;
    case ExpireUploads => ExpireOutcome(s.t, s.now, false); hide Expire;
  }

  lemma CommitSessions(sha: Bytes -> Digest, s: State, b: CommitAction)
    ensures s.t.sessions.Keys <= CommitStep(sha, s, b).t.sessions.Keys
  {
    hide BeginRead, CanClaim, Passes, MetaOf, Concat, CanLink;
  }

  /** A session goes only when its owner cancels it before the commit or leaves, or when it is due. */
  lemma StepSessions(sha: Bytes -> Digest, s: State, a: Action, up: UploadId)
    requires up in s.t.sessions
    ensures up in Step(sha, false, s, a).t.sessions || SessionMayGo(s, a, up)
  {
    hide AccountStep, UploadStep, CommitStep, FileStep;
    match a
    case Account(b) => AccountSessions(s, b, up);
    case Upload(b) => UploadSessions(sha, s, b, up);
    case Commit(b) => CommitSessions(sha, s, b);
    case File(b) => FileMoves(sha, s, b);
    case _ =>
  }

  // ---------- Received chunks ----------

  /** The reset after a failed commit of the upload. */
  predicate Resets(s: State, a: Action, up: UploadId) {
    a.Commit? && a.commit.ResetCommit? && a.commit.c in s.commits && s.commits[a.commit.c].snap.upload == up
  }

  /** The row and the file of the chunk are as they were. */
  predicate SameChunk(t: Tables, t': Tables, up: UploadId, i: nat)
    requires Whole(t, up, i)
  {
    HasRow(t', up, i) && HasPart(t', up, i) && t'.chunks[up][i] == t.chunks[up][i] && t'.parts[up][i] == t.parts[up][i]
  }

  predicate Uncommitted(t: Tables, up: UploadId) {
    up in t.sessions && t.sessions[up].phase != Committed
  }

  lemma AccountChunk(s: State, b: AccountAction, up: UploadId, i: nat)
    requires Whole(s.t, up, i) && up in AccountStep(false, s, b).t.sessions
    ensures SameChunk(s.t, AccountStep(false, s, b).t, up, i)
  {
    match b
    case SignUp(u) =>
    case SignOff(u) => DeregisterOutcome(s.t, u, false); hide Deregister;
    case ResetAccount(u) => ResetAccountOutcome(s.t, u, false); hide RemoveUserFiles;
  }

  lemma UploadChunk(sha: Bytes -> Digest, s: State, b: UploadAction, up: UploadId, i: nat)
    requires Whole(s.t, up, i) && up in UploadStep(sha, false, s, b).t.sessions
    ensures SameChunk(s.t, UploadStep(sha, false, s, b).t, up, i)
  {
    match b
    case OpenUpload(u, request, size, count, digest, limit, id) => hide HexDigest;
    case PutChunk(u, id, index, data, meta, startedAt) => PutKeeps(sha, s, b, up, i); hide Put;
    case Inspect(id) => HealOutcome(s.t, id, i); hide Heal;
    case CancelUpload(u, id) => CancelOutcome(s.t, u, id, false); hide Cancel;
    case ExpireUploads => ExpireOutcome(s.t, s.now, false); hide Expire;
  }

  lemma PutKeeps(sha: Bytes -> Digest, s: State, b: UploadAction, up: UploadId, i: nat)
    requires b.PutChunk? && Whole(s.t, up, i)
    ensures SameChunk(s.t, UploadStep(sha, false, s, b).t, up, i)
  {
    PutOutcome(sha, s.t, b.u, b.up, b.index, b.data, b.meta, b.startedAt, s.now);
    hide Put;
    var t' := UploadStep(sha, false, s, b).t;
    if t' != s.t && up != b.up {
      assert up in s.t.chunks - {b.up} && up in s.t.parts - {b.up};
      assert t'.chunks[up] == (t'.chunks - {b.up})[up] && t'.parts[up] == (t'.parts - {b.up})[up];
    } else if t' != s.t && i != b.index {
      assert i in s.t.chunks[up] - {b.index} && i in s.t.parts[up] - {b.index};
      assert t'.chunks[up][i] == (t'.chunks[up] - {b.index})[i] && t'.parts[up][i] == (t'.parts[up] - {b.index})[i];
    }
  }

  lemma CommitChunk(sha: Bytes -> Digest, s: State, b: CommitAction, up: UploadId, i: nat)
    requires Whole(s.t, up, i) && Uncommitted(CommitStep(sha, s, b).t, up) && !Resets(s, Commit(b), up)
    ensures SameChunk(s.t, CommitStep(sha, s, b).t, up, i)
  {
    hide Read, Take, ReadPart, LinkUp, Concat, Finish, Reset, SameChunk, Whole;
    SamePlace(s.t, CommitStep(sha, s, b).t, up, i);
    match b
    case ReadCommit(c, u, id, digest, entries, file) => ReadChunks(s, c, u, id, digest, entries, file);
    case ClaimCommit(c) => TakeChunks(s, c);
    case ReadChunk(c) => ReadPartKeeps(sha, s, c);
    case LinkCommit(c) => LinkUpChunks(sha, s, c);
    case FinishCommit(c) =>
      if c in s.commits && s.commits[c].Linked? {
        FinishKeeps(s.t, s.commits[c].snap, |Concat(s.commits[c].chunks)|, s.now, up, i);
      }
    case ResetCommit(c) =>
      if c in s.commits && s.commits[c].Failing? {
        ResetKeeps(s.t, s.commits[c].snap, s.now, up, i);
      }
    case DropCommit(c) =>
  }

  lemma SamePlace(t: Tables, t': Tables, up: UploadId, i: nat)
    requires Whole(t, up, i)
    ensures t'.chunks == t.chunks && t'.parts == t.parts ==> SameChunk(t, t', up, i)
  {
  }

  lemma FinishKeeps(t: Tables, k: Snap, size: nat, now: Time, up: UploadId, i: nat)
    requires Whole(t, up, i) && Uncommitted(Finish(t, k, size, now).0, up)
    ensures SameChunk(t, Finish(t, k, size, now).0, up, i)
  {
    FinishOutcome(t, k, size, now);
    hide Finish;
  }

  lemma ResetKeeps(t: Tables, k: Snap, now: Time, up: UploadId, i: nat)
    requires Whole(t, up, i) && k.upload != up
    ensures SameChunk(t, Reset(t, k, now), up, i)
  {
    ResetOutcome(t, k, now);
    hide Reset;
    var t' := Reset(t, k, now);
    assert up in t.chunks - {k.upload} && up in t.parts - {k.upload};
    assert t'.chunks[up] == (t'.chunks - {k.upload})[up] && t'.parts[up] == (t'.parts - {k.upload})[up];
  }

  lemma DiskKeeps(s: State, b: DiskAction, up: UploadId, i: nat)
    requires Whole(s.t, up, i) && b != LosePart(up, i)
    ensures SameChunk(s.t, DiskStep(s, b).t, up, i)
  {
  }

  /** No step but a reset, or the disk, takes a received chunk from a session that is still uncommitted. */
  lemma StepChunk(sha: Bytes -> Digest, s: State, a: Action, up: UploadId, i: nat)
    requires Whole(s.t, up, i) && Uncommitted(Step(sha, false, s, a).t, up)
    requires !Resets(s, a, up) && a != Disk(LosePart(up, i))
    ensures SameChunk(s.t, Step(sha, false, s, a).t, up, i)
  {
    hide AccountStep, UploadStep, CommitStep, FileStep, DiskStep, SameChunk, Whole;
    SamePlace(s.t, Step(sha, false, s, a).t, up, i);
    match a
    case Tick(d) =>
    case Account(b) => AccountChunk(s, b, up, i);
    case Upload(b) => UploadChunk(sha, s, b, up, i);
    case Commit(b) => CommitChunk(sha, s, b, up, i);
    case File(b) => FileMoves(sha, s, b);
    case Disk(b) => DiskKeeps(s, b, up, i);
  }

  /** Resuming works: a chunk once received is received, with the same bytes, at every later time at which its session is
      still uncommitted, unless a failed commit was reset in between or the disk lost it. */
  lemma {:induction false} StaysReceived(sha: Bytes -> Digest, run: seq<Action>, i: nat, n: nat, up: UploadId, index: nat)
    requires i <= n <= |run| && Whole(At(sha, false, run, i).t, up, index)
    requires up in At(sha, false, run, i).t.sessions && Uncommitted(At(sha, false, run, n).t, up)
    requires forall k :: i <= k < n ==> !Resets(At(sha, false, run, k), run[k], up) && run[k] != Disk(LosePart(up, index))
    ensures Whole(At(sha, false, run, n).t, up, index)
    ensures SameChunk(At(sha, false, run, i).t, At(sha, false, run, n).t, up, index)
    decreases n
  {
    if i < n {
      hide *;
      UncommittedBefore(sha, run, i, n, up);
      StaysReceived(sha, run, i, n - 1, up, index);
      StepChunk(sha, At(sha, false, run, n - 1), run[n - 1], up, index);
      Next(sha, run, n - 1);
      SameTwice(At(sha, false, run, i).t, At(sha, false, run, n - 1).t, At(sha, false, run, n).t, up, index);
    } else {
      SameAsItself(At(sha, false, run, i).t, up, index);
    }
  }

  lemma SameAsItself(t: Tables, up: UploadId, i: nat)
    requires Whole(t, up, i)
    ensures SameChunk(t, t, up, i)
  {
  }

  lemma SameTwice(t: Tables, t1: Tables, t2: Tables, up: UploadId, i: nat)
    requires Whole(t, up, i) && Whole(t1, up, i) && SameChunk(t, t1, up, i) && SameChunk(t1, t2, up, i)
    ensures Whole(t2, up, i) && SameChunk(t, t2, up, i)
  {
  }

  /** A session that is there and uncommitted was so all the time since it was there. */
  lemma UncommittedBefore(sha: Bytes -> Digest, run: seq<Action>, i: nat, n: nat, up: UploadId)
    requires i < n <= |run| && up in At(sha, false, run, i).t.sessions && Uncommitted(At(sha, false, run, n).t, up)
    ensures Uncommitted(At(sha, false, run, n - 1).t, up)
  {
    hide Step, Conserved, Pinned, Present;
    InvAt(sha, run, n - 1);
    StepMoves(sha, At(sha, false, run, n - 1), run[n - 1]);
    DeclaredStays(sha, run, i, n - 1, up);
  }

  // ---------- What a commit answers ----------

  /** The handler that adds the row of its upload answers Done, and any handler that answers Done leaves the session
      committed; one that answers anything else has changed nothing. */
  lemma CommitAnswers(sha: Bytes -> Digest, run: seq<Action>, k: nat)
    requires k < |run| && run[k].Commit? && run[k].commit.FinishCommit? && run[k].commit.c in At(sha, false, run, k).commits
    requires At(sha, false, run, k).commits[run[k].commit.c].Linked?
    ensures var s, s', g := At(sha, false, run, k), At(sha, false, run, k + 1), At(sha, false, run, k).commits[run[k].commit.c];
            var reply := Finish(s.t, g.snap, |Concat(g.chunks)|, s.now).1;
            && (Inserts(sha, run, k, g.snap.upload) ==> reply == Done)
            && (reply == Done <==> HasSession(s'.t, g.snap.owner, g.snap.upload) && s'.t.sessions[g.snap.upload].phase == Committed)
            && (reply != Done ==> s'.t == s.t)
  {
    Next(sha, run, k);
    hide At, Finish, Concat;
    var s, g := At(sha, false, run, k), At(sha, false, run, k).commits[run[k].commit.c];
    FinishOutcome(s.t, g.snap, |Concat(g.chunks)|, s.now);
  }
}
