/** What holds over whole runs of the upload handlers, in every interleaving. */
module UploadTheorems {
  import opened Wrappers
  import opened Container
  import opened Ledger
  import opened Uploads
  import opened UploadRuns
  import opened UploadInvariant

  lemma {:induction false} InvAt(sha: Bytes -> Digest, run: seq<Action>, n: nat)
    requires n <= |run|
    ensures Inv(sha, At(sha, false, run, n))
  {
    if n == 0 {
      EmptyInv(sha);
    } else {
      hide Conserved, Pinned, Present, Step;
      InvAt(sha, run, n - 1);
      var s := At(sha, false, run, n - 1);
      StepConserves(sha, false, s, run[n - 1]);
      StepPinned(sha, s, run[n - 1]);
      StepPresent(sha, s, run[n - 1]);
    }
  }

  lemma EmptyInv(sha: Bytes -> Digest)
    ensures Inv(sha, EMPTY)
  {
  }

  lemma InvHolds(sha: Bytes -> Digest, run: seq<Action>, n: nat)
    requires n <= |run|
    ensures Conserved(At(sha, false, run, n).t) && Pinned(sha, At(sha, false, run, n))
  {
    hide Conserved, Pinned, Present, Step;
    InvAt(sha, run, n);
  }

  /** The MAX(0, ...) in the release statements never changes any state that can be reached. */
  lemma {:induction false} ClampsNeverMatter(sha: Bytes -> Digest, run: seq<Action>, n: nat)
    requires n <= |run|
    ensures At(sha, true, run, n) == At(sha, false, run, n)
  {
    if n > 0 {
      hide Inv, Conserved, Pinned, Step;
      ClampsNeverMatter(sha, run, n - 1);
      InvHolds(sha, run, n - 1);
      StepConserves(sha, true, At(sha, false, run, n - 1), run[n - 1]);
    }
  }

  /** Exact storage conservation: in every reachable state the counter of every user is the
      sum of what their uncommitted sessions reserve and what their registry rows hold. */
  lemma StorageConserved(sha: Bytes -> Digest, clamp: bool, run: seq<Action>, n: nat)
    requires n <= |run|
    ensures var t := At(sha, clamp, run, n).t;
            && (forall u :: u in t.users ==> t.users[u] == Owed(Reservations(t.sessions), u) + Owed(Holdings(t.registry), u))
            && (forall u :: u in t.users ==> t.users[u] >= 0)
            && (forall f :: f in t.registry ==> t.registry[f].owner in t.users)
  {
    ClampsNeverMatter(sha, run, n);
    InvAt(sha, run, n);
    var t := At(sha, clamp, run, n).t;
    forall f | f in t.registry ensures t.registry[f].owner in t.users {
      assert Holdings(t.registry)[f].owner in t.users;
    }
  }

  /** Every row that a commit made has its file, unless the disk lost it, and the file has the
      size and digest declared when the session was opened and parses into the declared number of frames. */
  lemma CommittedDeclared(sha: Bytes -> Digest, clamp: bool, run: seq<Action>, n: nat, f: FileId, up: UploadId)
    requires n <= |run|
    requires f in At(sha, clamp, run, n).t.registry && MintedFor(At(sha, clamp, run, n), f, up)
    ensures var s := At(sha, clamp, run, n);
            && up in s.declared
            && s.t.registry[f].owner == s.declared[up].owner
            && s.t.registry[f].size == s.declared[up].size
            && s.t.registry[f].digest == s.declared[up].digest
            && (f in s.t.finals || f in s.lost)
            && (f in s.t.finals ==> Good(sha, s.t.finals[f], s.declared[up]))
  {
    ClampsNeverMatter(sha, run, n);
    InvAt(sha, run, n);
    var s := At(sha, clamp, run, n);
    assert RowOk(s, f, s.t.registry[f]);
    assert f in s.t.finals ==> FinalOk(sha, s, f);
  }

  /** The declared size alone fixes how many frames such a file has and where each begins. */
  lemma CommittedLayout(sha: Bytes -> Digest, data: Bytes, d: Decl)
    requires Good(sha, data, d)
    ensures d.size > HEADER && d.count == CountOf(d.size)
    ensures exists chunks: seq<Bytes> :: Accepted(chunks) && |chunks| == d.count && Concat(chunks) == data
              && forall i :: 0 <= i < d.count ==> Placed(chunks, data, i)
  {
    var f := Parse(data).value;
    ConcatOfParse(data);
    FileOfChunks(f);
    SizeFixesLayout(Chunks(f));
    var chunks := Chunks(f);
    assert Accepted(chunks) && |chunks| == d.count && Concat(chunks) == data;
  }

  // ---------- How a session may change in one step ----------

  ghost predicate Moves(s: State, a: Action, s': State, up: UploadId)
    requires up in s'.t.sessions
  {
    var r' := s'.t.sessions[up];
    if up !in s.t.sessions then up !in s.declared && r'.phase == Pending
    else
      var r := s.t.sessions[up];
      && DeclOf(r') == DeclOf(r) && r.updatedAt <= r'.updatedAt
      && (r.phase == Committed ==> r' == r)
      && (r.phase == Pending ==> r'.phase != Committed)
      && (r.phase == Committing && r'.phase == Pending ==> a.Commit? && a.commit.ResetCommit?)
  }

  lemma SameMoves(sha: Bytes -> Digest, s: State, a: Action, s': State)
    requires Sub(s'.t.sessions, s.t.sessions)
    ensures forall up :: up in s'.t.sessions ==> Moves(s, a, s', up)
  {
  }

  lemma UploadMoves(sha: Bytes -> Digest, s: State, b: UploadAction)
    requires Pinned(sha, s)
    ensures var s' := UploadStep(sha, false, s, b);
            forall up :: up in s'.t.sessions ==> Moves(s, Upload(b), s', up)
  {
    hide StagesOk, RowsOk, FinalsOk, OneShotsOk, Moves;
    match b
    case OpenUpload(_, _, _, _, _, _, _) => OpenMoves(sha, s, b);
    case PutChunk(_, _, _, _, _, _) => PutMoves(sha, s, b);
    case _ =>
      FewerSessions(sha, s, b);
      SameMoves(sha, s, Upload(b), UploadStep(sha, false, s, b));
  }

  lemma FewerSessions(sha: Bytes -> Digest, s: State, b: UploadAction)
    requires b.Inspect? || b.CancelUpload? || b.ExpireUploads?
    ensures Sub(UploadStep(sha, false, s, b).t.sessions, s.t.sessions)
  {
    hide Pay, Release;
  }

  lemma OpenMoves(sha: Bytes -> Digest, s: State, b: UploadAction)
    requires SessionsOk(s) && b.OpenUpload?
    ensures var s' := UploadStep(sha, false, s, b);
            forall up :: up in s'.t.sessions ==> Moves(s, Upload(b), s', up)
  {
    hide Charge;
  }

  lemma PutMoves(sha: Bytes -> Digest, s: State, b: UploadAction)
    requires SessionsOk(s) && b.PutChunk?
    ensures var s' := UploadStep(sha, false, s, b);
            forall up :: up in s'.t.sessions ==> Moves(s, Upload(b), s', up)
  {
    hide MetaOf, StagesOk, RowsOk, FinalsOk, OneShotsOk;
    var s' := UploadStep(sha, false, s, b);
    if s'.t.sessions != s.t.sessions {
      assert SessionOk(s, b.up, s.t.sessions[b.up]);
      OneMoves(s, Upload(b), s', b.up);
    }
  }

  lemma CommitMoves(sha: Bytes -> Digest, s: State, b: CommitAction)
    requires Pinned(sha, s)
    ensures var s' := CommitStep(sha, s, b);
            forall up :: up in s'.t.sessions ==> Moves(s, Commit(b), s', up)
  {
    hide Pinned, Moves, Read, Take, ReadPart, LinkUp;
    match b
    case ReadCommit(c, u, up, digest, entries, newFile) =>
      ReadChunks(s, c, u, up, digest, entries, newFile);
      SameMoves(sha, s, Commit(b), CommitStep(sha, s, b));
    case ReadChunk(c) =>
      ReadPartKeeps(sha, s, c);
      SameMoves(sha, s, Commit(b), CommitStep(sha, s, b));
    case LinkCommit(c) =>
      LinkUpChunks(sha, s, c);
      SameMoves(sha, s, Commit(b), CommitStep(sha, s, b));
    case DropCommit(c) => SameMoves(sha, s, Commit(b), CommitStep(sha, s, b));
    case ClaimCommit(c) => TakeMoves(sha, s, c);
    case FinishCommit(c) => FinishMoves(sha, s, c);
    case ResetCommit(c) => ResetMoves(sha, s, c);
  }

  /** One session row was rewritten. */
  lemma OneMoves(s: State, a: Action, s': State, id: UploadId)
    requires id in s.t.sessions && id in s'.t.sessions && Moves(s, a, s', id)
    requires s'.t.sessions == s.t.sessions[id := s'.t.sessions[id]]
    ensures forall up :: up in s'.t.sessions ==> Moves(s, a, s', up)
  {
  }

  lemma TakeMoves(sha: Bytes -> Digest, s: State, c: nat)
    requires Pinned(sha, s)
    ensures var a, s' := ClaimCommit(c), CommitStep(sha, s, ClaimCommit(c));
            forall up :: up in s'.t.sessions ==> Moves(s, Commit(a), s', up)
  {
    hide StagesOk, RowsOk, FinalsOk, OneShotsOk;
    if Take(s, c).t != s.t {
      var k := s.commits[c].snap;
      assert SessionOk(s, k.upload, s.t.sessions[k.upload]);
      OneMoves(s, Commit(ClaimCommit(c)), Take(s, c), k.upload);
    }
  }

  lemma FinishMoves(sha: Bytes -> Digest, s: State, c: nat)
    requires Pinned(sha, s)
    ensures var a, s' := FinishCommit(c), CommitStep(sha, s, FinishCommit(c));
            forall up :: up in s'.t.sessions ==> Moves(s, Commit(a), s', up)
  {
    hide StagesOk, RowsOk, FinalsOk, OneShotsOk;
    var s' := CommitStep(sha, s, FinishCommit(c));
    if s'.t.sessions != s.t.sessions {
      var k := s.commits[c].snap;
      assert SessionOk(s, k.upload, s.t.sessions[k.upload]);
      OneMoves(s, Commit(FinishCommit(c)), s', k.upload);
    }
  }

  lemma ResetMoves(sha: Bytes -> Digest, s: State, c: nat)
    requires Pinned(sha, s)
    ensures var a, s' := ResetCommit(c), CommitStep(sha, s, ResetCommit(c));
            forall up :: up in s'.t.sessions ==> Moves(s, Commit(a), s', up)
  {
    hide StagesOk, RowsOk, FinalsOk, OneShotsOk;
    var s' := CommitStep(sha, s, ResetCommit(c));
    if s'.t.sessions != s.t.sessions {
      var k := s.commits[c].snap;
      assert SessionOk(s, k.upload, s.t.sessions[k.upload]);
      OneMoves(s, Commit(ResetCommit(c)), s', k.upload);
    }
  }

  lemma AccountSub(s: State, b: AccountAction)
    ensures Sub(AccountStep(false, s, b).t.sessions, s.t.sessions)
  {
    hide Pay;
  }

  ghost predicate OnlyFilesMove(t: Tables, t': Tables) {
    t'.sessions == t.sessions && t'.chunks == t.chunks && t'.parts == t.parts
  }

  lemma OneShotMoves(sha: Bytes -> Digest, t: Tables, u: UserId, f: FileId, data: Bytes, n: int, size: nat, now: Time)
    ensures OnlyFilesMove(t, Reserve(sha, t, u, f, data, n, now).0)
    ensures OnlyFilesMove(t, Publish(t, f, data).0)
    ensures OnlyFilesMove(t, Rollback(t, f, u, size, false))
  {
    hide Release, Charge;
  }

  lemma RemovedFileMoves(t: Tables, u: UserId, f: FileId, now: Time)
    ensures OnlyFilesMove(t, Delete(t, u, f).0)
    ensures OnlyFilesMove(t, CleanFiles(t, now, false))
  {
    hide Release, Pay;
  }

  lemma ReadFileMoves(t: Tables, u: UserId, f: FileId, now: Time)
    ensures OnlyFilesMove(t, DownloadBySession(t, u, f, now, false).0)
    ensures OnlyFilesMove(t, DownloadByToken(t, f, now, false).0)
  {
    hide Release;
  }

  lemma FileMoves(sha: Bytes -> Digest, s: State, b: FileAction)
    ensures OnlyFilesMove(s.t, FileStep(sha, false, s, b).t)
  {
    hide Reserve, Publish, Rollback, Delete, DownloadBySession, DownloadByToken, CleanFiles;
    match b
    case ReserveFile(u, f, data, limit) => OneShotMoves(sha, s.t, u, f, data, limit, 0, s.now);
    case PublishFile(f) =>
      if f in s.oneshots {
        OneShotMoves(sha, s.t, "", f, s.oneshots[f].data, 0, 0, s.now);
      }
    case RollbackFile(f) =>
      if f in s.oneshots {
        OneShotMoves(sha, s.t, s.oneshots[f].owner, f, [], 0, |s.oneshots[f].data|, s.now);
      }
    case DeleteFile(u, f) => RemovedFileMoves(s.t, u, f, s.now);
    case GetFile(u, f) => ReadFileMoves(s.t, u, f, s.now);
    case GetFileByToken(f) => ReadFileMoves(s.t, "", f, s.now);
    case CleanUp => RemovedFileMoves(s.t, "", "", s.now);
  }

  /** Every action but those of a commit, a put or an opening. */
  lemma RestFewer(sha: Bytes -> Digest, s: State, a: Action)
    requires !a.Commit? && !(a.Upload? && (a.upload.PutChunk? || a.upload.OpenUpload?))
    ensures var s' := Step(sha, false, s, a);
            && Sub(s'.t.sessions, s.t.sessions) && s.now <= s'.now && Sub(s.minted, s'.minted) && s'.commits == s.commits
            && s'.declared == s.declared
  {
    hide AccountStep, UploadStep, FileStep;
    match a
    case Account(b) => AccountFewer(s, b);
    case Upload(b) => UploadFewer(sha, s, b);
    case File(b) => FileFewer(sha, s, b);
    case _ =>
  }

  lemma AccountFewer(s: State, b: AccountAction)
    ensures var s' := AccountStep(false, s, b);
            Sub(s'.t.sessions, s.t.sessions) && s' == s.(t := s'.t)
  {
    hide Pay;
  }

  lemma UploadFewer(sha: Bytes -> Digest, s: State, b: UploadAction)
    requires !b.PutChunk? && !b.OpenUpload?
    ensures var s' := UploadStep(sha, false, s, b);
            Sub(s'.t.sessions, s.t.sessions) && s' == s.(t := s'.t)
  {
    hide Pay, Release;
  }

  lemma FileFewer(sha: Bytes -> Digest, s: State, b: FileAction)
    ensures var s' := FileStep(sha, false, s, b);
            && s'.t.sessions == s.t.sessions && s'.now == s.now && s'.declared == s.declared && s'.commits == s.commits
            && Sub(s.minted, s'.minted)
  {
    FileMoves(sha, s, b);
    hide Reserve, Publish, Rollback, Delete, DownloadBySession, DownloadByToken, CleanFiles;
  }

  lemma StepMoves(sha: Bytes -> Digest, s: State, a: Action)
    requires Pinned(sha, s)
    ensures var s' := Step(sha, false, s, a);
            && (forall up :: up in s'.t.sessions ==> Moves(s, a, s', up))
            && (forall up :: up in s.declared ==> up in s'.declared)
  {
    StepDeclares(sha, s, a);
    hide Pinned, Moves, AccountStep, UploadStep, CommitStep, FileStep, DiskStep;
    match a
    case Upload(b) => UploadMoves(sha, s, b);
    case Commit(b) => CommitMoves(sha, s, b);
    case _ =>
      RestFewer(sha, s, a);
      SameMoves(sha, s, a, Step(sha, false, s, a));
  }

  lemma UploadDeclares(sha: Bytes -> Digest, s: State, b: UploadAction)
    ensures Sub(s.declared, UploadStep(sha, false, s, b).declared) && UploadStep(sha, false, s, b).now == s.now
  {
    hide Create, Put, Heal, Cancel, Expire;
  }

  lemma CommitDeclares(sha: Bytes -> Digest, s: State, b: CommitAction)
    ensures CommitStep(sha, s, b).declared == s.declared && CommitStep(sha, s, b).now == s.now
  {
    hide BeginRead, CanClaim, Claim, Passes, MetaOf, Concat, CanLink, Link, Finish, Reset;
  }

  lemma FileDeclares(sha: Bytes -> Digest, s: State, b: FileAction)
    ensures FileStep(sha, false, s, b).declared == s.declared && FileStep(sha, false, s, b).now == s.now
  {
    hide Reserve, Publish, Rollback, Delete, DownloadBySession, DownloadByToken, CleanFiles;
  }

  lemma StepDeclares(sha: Bytes -> Digest, s: State, a: Action)
    ensures Sub(s.declared, Step(sha, false, s, a).declared)
    ensures s.now <= Step(sha, false, s, a).now
  {
    hide UploadStep, CommitStep, FileStep, Register, Deregister, RemoveUserFiles;
    match a
    case Upload(b) => UploadDeclares(sha, s, b);
    case Commit(b) => CommitDeclares(sha, s, b);
    case File(b) => FileDeclares(sha, s, b);
    case _ =>
  }

  // ---------- The commit protocol over runs ----------

  ghost predicate IsCommitted(s: State, up: UploadId) {
    up in s.t.sessions && s.t.sessions[up].phase == Committed
  }

  /** Once declared and committed or gone: no handler can insert a row for it any more. */
  ghost predicate Settled(s: State, up: UploadId) {
    up in s.declared && (up in s.t.sessions ==> IsCommitted(s, up))
  }

  /** A committed session never leaves that state, and never changes, except by being deleted for good. */
  lemma {:induction false} CommittedIsFinal(sha: Bytes -> Digest, run: seq<Action>, i: nat, j: nat, up: UploadId)
    requires i <= j <= |run|
    requires Settled(At(sha, false, run, i), up)
    ensures var s, s' := At(sha, false, run, i), At(sha, false, run, j);
            && Settled(s', up)
            && (up in s'.t.sessions ==> up in s.t.sessions && s'.t.sessions[up] == s.t.sessions[up])
    decreases j
  {
    if i < j {
      hide Step, Conserved, Pinned, Present;
      CommittedIsFinal(sha, run, i, j - 1, up);
      InvAt(sha, run, j - 1);
      StepMoves(sha, At(sha, false, run, j - 1), run[j - 1]);
      var s' := At(sha, false, run, j);
      assert up in s'.t.sessions ==> Moves(At(sha, false, run, j - 1), run[j - 1], s', up);
    }
  }

  /** Step k of the run is a commit handler of `up` adding its file to the registry. */
  ghost predicate Inserts(sha: Bytes -> Digest, run: seq<Action>, k: nat, up: UploadId)
    requires k < |run|
  {
    var s, s' := At(sha, false, run, k), At(sha, false, run, k + 1);
    && run[k].Commit? && run[k].commit.FinishCommit?
    && run[k].commit.c in s.commits && s.commits[run[k].commit.c].snap.upload == up
    && s.t.registry != s'.t.registry
  }

  lemma InsertSettles(sha: Bytes -> Digest, run: seq<Action>, k: nat, up: UploadId)
    requires k < |run| && Inserts(sha, run, k, up)
    ensures var s, s' := At(sha, false, run, k), At(sha, false, run, k + 1);
            && up in s.t.sessions && s.t.sessions[up].phase == Committing && Settled(s', up)
            && exists f :: f !in s.t.registry && s'.t.registry.Keys == s.t.registry.Keys + {f}
                 && s'.t.registry[f].size == s.t.sessions[up].reserved
                 && s'.t.registry[f].owner == s.t.sessions[up].owner
                 && s'.t.registry[f].digest == s.t.sessions[up].digest
  {
    hide Conserved, Present, Parse, MetaOf, Concat, Step, Good, Passed;
    InvAt(sha, run, k);
    Next(sha, run, k);
    var s, c := At(sha, false, run, k), run[k].commit.c;
    LinkedNow(sha, run, k, up);
    FinishInserts(sha, s, c);
    var g := s.commits[c];
    assert StageOk(sha, s, g);
    assert SessionOk(s, up, s.t.sessions[up]);
    GoodSize(sha, Concat(g.chunks), s.declared[up]);
    assert g.snap.fileId !in s.t.registry;
  }

  lemma Next(sha: Bytes -> Digest, run: seq<Action>, n: nat)
    requires n < |run|
    ensures At(sha, false, run, n + 1) == Step(sha, false, At(sha, false, run, n), run[n])
  {
  }

  lemma LinkedNow(sha: Bytes -> Digest, run: seq<Action>, k: nat, up: UploadId)
    requires k < |run| && Inserts(sha, run, k, up)
    ensures var s, c := At(sha, false, run, k), run[k].commit.c;
            && c in s.commits && s.commits[c].Linked?
            && CommitStep(sha, s, FinishCommit(c)).t.registry != s.t.registry
            && At(sha, false, run, k + 1) == CommitStep(sha, s, FinishCommit(c))
  {
  }

  /** What a finish that adds a row does. */
  lemma FinishInserts(sha: Bytes -> Digest, s: State, c: nat)
    requires c in s.commits && s.commits[c].Linked?
    requires CommitStep(sha, s, FinishCommit(c)).t.registry != s.t.registry
    ensures var k, s' := s.commits[c].snap, CommitStep(sha, s, FinishCommit(c));
            && Owns(s.t, k.owner, k.upload) && s.t.sessions[k.upload].phase == Committing && k.fileId !in s.t.registry
            && k.upload in s'.t.sessions && s'.t.sessions[k.upload].phase == Committed
            && s'.t.sessions[k.upload].fileId == s.t.sessions[k.upload].fileId
            && s'.t.registry == s.t.registry[k.fileId :=
                 FileRow(k.owner, |Concat(s.commits[c].chunks)|, true, s.now, s.now + RETENTION, k.row.digest)]
            && s'.declared == s.declared
  {
    hide Concat;
  }

  /** Each session adds at most one registry row over its whole life. */
  lemma OneRowPerSession(sha: Bytes -> Digest, run: seq<Action>, i: nat, j: nat, up: UploadId)
    requires i < |run| && j < |run|
    requires Inserts(sha, run, i, up) && Inserts(sha, run, j, up)
    ensures i == j
  {
    hide Step;
    InsertSettles(sha, run, i, up);
    InsertSettles(sha, run, j, up);
    if i < j {
      CommittedIsFinal(sha, run, i + 1, j, up);
    } else if j < i {
      CommittedIsFinal(sha, run, j + 1, i, up);
    }
  }

  /** The declaration of a session never changes. */
  lemma {:induction false} DeclKept(sha: Bytes -> Digest, run: seq<Action>, k: nat, n: nat, up: UploadId)
    requires k <= n <= |run| && up in At(sha, false, run, k).declared
    ensures up in At(sha, false, run, n).declared && At(sha, false, run, n).declared[up] == At(sha, false, run, k).declared[up]
    decreases n
  {
    if k < n {
      hide Step;
      DeclKept(sha, run, k, n - 1, up);
      StepDeclares(sha, At(sha, false, run, n - 1), run[n - 1]);
    }
  }

  /** While a session exists, its updated_at never goes back. */
  lemma {:induction false} UpdatedAtGrows(sha: Bytes -> Digest, run: seq<Action>, i: nat, j: nat, up: UploadId)
    requires i <= j <= |run|
    requires up in At(sha, false, run, i).t.sessions && up in At(sha, false, run, j).t.sessions
    ensures At(sha, false, run, i).t.sessions[up].updatedAt <= At(sha, false, run, j).t.sessions[up].updatedAt
    decreases j
  {
    hide *;
    if i < j {
      DeclaredStays(sha, run, i, j - 1, up);
      MovesAt(sha, run, j - 1, up);
      UpdatedAtGrows(sha, run, i, j - 1, up);
    }
  }

  lemma MovesAt(sha: Bytes -> Digest, run: seq<Action>, k: nat, up: UploadId)
    requires k < |run| && up in At(sha, false, run, k).declared && up in At(sha, false, run, k + 1).t.sessions
    ensures up in At(sha, false, run, k).t.sessions
    ensures At(sha, false, run, k).t.sessions[up].updatedAt <= At(sha, false, run, k + 1).t.sessions[up].updatedAt
  {
    hide Step, Conserved, Pinned, Present;
    InvAt(sha, run, k);
    StepMoves(sha, At(sha, false, run, k), run[k]);
    assert Moves(At(sha, false, run, k), run[k], At(sha, false, run, k + 1), up);
  }

  lemma {:induction false} DeclaredStays(sha: Bytes -> Digest, run: seq<Action>, i: nat, j: nat, up: UploadId)
    requires i <= j <= |run|
    requires up in At(sha, false, run, i).t.sessions
    ensures up in At(sha, false, run, j).declared
    decreases j
  {
    hide Step, Conserved, Present;
    if i < j {
      DeclaredStays(sha, run, i, j - 1, up);
      StepDeclares(sha, At(sha, false, run, j - 1), run[j - 1]);
    } else {
      InvAt(sha, run, i);
      assert SessionOk(At(sha, false, run, i), up, At(sha, false, run, i).t.sessions[up]);
    }
  }

  /** Step k is a handler winning the compare-and-set on `up`; `stale` tells a takeover from a first claim. */
  ghost predicate Wins(sha: Bytes -> Digest, run: seq<Action>, k: nat, up: UploadId, stale: bool)
    requires k < |run|
  {
    var s := At(sha, false, run, k);
    && run[k].Commit? && run[k].commit.ClaimCommit?
    && run[k].commit.c in s.commits && s.commits[run[k].commit.c].Reading?
    && var snap := s.commits[run[k].commit.c].snap;
       snap.upload == up && snap.stale == stale && CanClaim(s.t, snap)
  }

  function LeaseOf(s: State, a: Action): Time
    requires a.Commit? && a.commit.ClaimCommit? && a.commit.c in s.commits
  {
    s.commits[a.commit.c].snap.row.updatedAt
  }

  /** At most one handler wins each takeover: two takeovers of one session end two different
      leases, the second one begun after the first takeover. */
  lemma TakeoverOnce(sha: Bytes -> Digest, run: seq<Action>, i: nat, j: nat, up: UploadId)
    requires i < j < |run|
    requires Wins(sha, run, i, up, true) && Wins(sha, run, j, up, true)
    ensures LeaseOf(At(sha, false, run, i), run[i]) + COMMIT_LEASE <= At(sha, false, run, i).now
    ensures At(sha, false, run, i).now <= LeaseOf(At(sha, false, run, j), run[j])
  {
    hide AccountStep, UploadStep, FileStep, DiskStep, Conserved, Present, Good, FinalsOk, RowsOk, OneShotsOk, ReadPart, LinkUp, Read;
    InvAt(sha, run, i);
    var s := At(sha, false, run, i);
    assert StageOk(sha, s, s.commits[run[i].commit.c]);
    assert At(sha, false, run, i + 1).t.sessions[up].updatedAt == s.now;
    UpdatedAtGrows(sha, run, i + 1, j, up);
  }

  /** Two first claims of one session are separated by a reset of it after a 409. */
  lemma ClaimsSeparated(sha: Bytes -> Digest, run: seq<Action>, i: nat, j: nat, up: UploadId)
    requires i < j < |run|
    requires Wins(sha, run, i, up, false) && Wins(sha, run, j, up, false)
    ensures exists k :: i < k < j && ResetAt(sha, run, k, up)
  {
    assert At(sha, false, run, i + 1).t.sessions[up].phase == Committing;
    hide Step;
    LeavesCommitting(sha, run, i + 1, j, up);
  }

  ghost predicate ResetAt(sha: Bytes -> Digest, run: seq<Action>, k: nat, up: UploadId)
    requires k < |run|
  {
    var s, s' := At(sha, false, run, k), At(sha, false, run, k + 1);
    && run[k].Commit? && run[k].commit.ResetCommit?
    && up in s.t.sessions && s.t.sessions[up].phase == Committing
    && up in s'.t.sessions && s'.t.sessions[up].phase == Pending
  }

  lemma {:induction false} LeavesCommitting(sha: Bytes -> Digest, run: seq<Action>, i: nat, j: nat, up: UploadId)
    requires i <= j <= |run|
    requires up in At(sha, false, run, i).t.sessions && At(sha, false, run, i).t.sessions[up].phase == Committing
    requires up in At(sha, false, run, j).t.sessions && At(sha, false, run, j).t.sessions[up].phase == Pending
    ensures exists k :: i <= k < j && ResetAt(sha, run, k, up)
    decreases j
  {
    hide Step, Conserved, Pinned, Present;
    InvAt(sha, run, j - 1);
    DeclaredStays(sha, run, i, j - 1, up);
    var s, s' := At(sha, false, run, j - 1), At(sha, false, run, j);
    StepMoves(sha, s, run[j - 1]);
    assert Moves(s, run[j - 1], s', up);
    if s.t.sessions[up].phase == Committing {
      assert ResetAt(sha, run, j - 1, up);
    } else {
      LeavesCommitting(sha, run, i, j - 1, up);
    }
  }

  // ---------- Stored chunks ----------

  /** Step k is a put of chunk i of `up` that was answered with success. */
  ghost predicate Accepts(sha: Bytes -> Digest, run: seq<Action>, k: nat, up: UploadId, i: nat)
    requires k < |run|
  {
    var s := At(sha, false, run, k);
    && run[k].Upload? && run[k].upload.PutChunk? && run[k].upload.up == up && run[k].upload.index == i
    && var p := run[k].upload;
       Put(sha, s.t, p.u, up, i, p.data, p.meta, p.startedAt, s.now).1 == Done
  }

  /** One step keeps, drops or adds a stored chunk row; it never rewrites one. The same holds of the chunk files. */
  lemma ChunkRowsMove(sha: Bytes -> Digest, s: State, a: Action, up: UploadId, i: nat)
    ensures var t, t' := s.t, Step(sha, false, s, a).t;
            && (i in RowsOf(t.chunks, up) && i in RowsOf(t'.chunks, up) ==> RowsOf(t'.chunks, up)[i] == RowsOf(t.chunks, up)[i])
            && (i in PartsOf(t.parts, up) && i in PartsOf(t'.parts, up) ==> PartsOf(t'.parts, up)[i] == PartsOf(t.parts, up)[i])
  {
    hide AccountStep, UploadStep, CommitStep, FileStep, DiskStep;
    match a
    case Tick(_) =>
    case Account(b) => AccountChunks(s, b, up, i);
    case Upload(b) => UploadChunks(sha, s, b, up, i);
    case Commit(b) => CommitChunks(sha, s, b, up, i);
    case File(b) => FileMoves(sha, s, b);
    case Disk(b) => DiskChunks(s, b, up, i);
  }

  lemma DiskChunks(s: State, b: DiskAction, up: UploadId, i: nat)
    ensures var t, t' := s.t, DiskStep(s, b).t;
            && t'.chunks == t.chunks
            && (i in PartsOf(t.parts, up) && i in PartsOf(t'.parts, up) ==> PartsOf(t'.parts, up)[i] == PartsOf(t.parts, up)[i])
  {
  }

  lemma AccountChunks(s: State, b: AccountAction, up: UploadId, i: nat)
    ensures var t, t' := s.t, AccountStep(false, s, b).t;
            && Sub(t'.chunks, t.chunks) && Sub(t'.parts, t.parts)
  {
    hide Pay;
  }

  lemma UploadChunks(sha: Bytes -> Digest, s: State, b: UploadAction, up: UploadId, i: nat)
    ensures var t, t' := s.t, UploadStep(sha, false, s, b).t;
            && (i in RowsOf(t.chunks, up) && i in RowsOf(t'.chunks, up) ==> RowsOf(t'.chunks, up)[i] == RowsOf(t.chunks, up)[i])
            && (i in PartsOf(t.parts, up) && i in PartsOf(t'.parts, up) ==> PartsOf(t'.parts, up)[i] == PartsOf(t.parts, up)[i])
  {
    match b
    case PutChunk(_, _, _, _, _, _) => PutChunks(sha, s, b, up, i);
    case _ => OtherChunks(sha, s, b, up, i);
  }

  lemma PutChunks(sha: Bytes -> Digest, s: State, b: UploadAction, up: UploadId, i: nat)
    requires b.PutChunk?
    ensures var t, t' := s.t, UploadStep(sha, false, s, b).t;
            && (i in RowsOf(t.chunks, up) && i in RowsOf(t'.chunks, up) ==> RowsOf(t'.chunks, up)[i] == RowsOf(t.chunks, up)[i])
            && (i in PartsOf(t.parts, up) && i in PartsOf(t'.parts, up) ==> PartsOf(t'.parts, up)[i] == PartsOf(t.parts, up)[i])
  {
    hide MetaOf;
  }

  lemma OtherChunks(sha: Bytes -> Digest, s: State, b: UploadAction, up: UploadId, i: nat)
    requires !b.PutChunk?
    ensures var t, t' := s.t, UploadStep(sha, false, s, b).t;
            && (i in RowsOf(t.chunks, up) && i in RowsOf(t'.chunks, up) ==> RowsOf(t'.chunks, up)[i] == RowsOf(t.chunks, up)[i])
            && (i in PartsOf(t.parts, up) && i in PartsOf(t'.parts, up) ==> PartsOf(t'.parts, up)[i] == PartsOf(t.parts, up)[i])
  {
    hide Pay, MetaOf, Charge, Release;
  }

  lemma CommitChunks(sha: Bytes -> Digest, s: State, b: CommitAction, up: UploadId, i: nat)
    ensures var t, t' := s.t, CommitStep(sha, s, b).t;
            && Sub(t'.chunks, t.chunks)
            && (i in PartsOf(t'.parts, up) ==> i in PartsOf(t.parts, up) && PartsOf(t'.parts, up)[i] == PartsOf(t.parts, up)[i])
  {
    hide Read, Take, ReadPart, LinkUp, Finish, Reset;
    match b
    case ReadCommit(c, u, x, digest, entries, newFile) => ReadChunks(s, c, u, x, digest, entries, newFile);
    case ClaimCommit(c) => TakeChunks(s, c);
    case ReadChunk(c) => ReadPartKeeps(sha, s, c);
    case LinkCommit(c) => LinkUpChunks(sha, s, c);
    case FinishCommit(c) =>
      if c in s.commits && s.commits[c].Linked? {
        FinishChunks(s.t, s.commits[c].snap, |Concat(s.commits[c].chunks)|, s.now);
      }
    case ResetCommit(c) =>
      if c in s.commits && s.commits[c].Failing? {
        ResetChunks(s.t, s.commits[c].snap, s.now, up, i);
      }
    case DropCommit(c) =>
  }

  lemma FinishChunks(t: Tables, k: Snap, size: nat, now: Time)
    ensures Finish(t, k, size, now).0.chunks == t.chunks && Sub(Finish(t, k, size, now).0.parts, t.parts)
  {
  }

  lemma ResetChunks(t: Tables, k: Snap, now: Time, up: UploadId, i: nat)
    ensures Sub(Reset(t, k, now).chunks, t.chunks)
    ensures i in PartsOf(Reset(t, k, now).parts, up) ==>
              i in PartsOf(t.parts, up) && PartsOf(Reset(t, k, now).parts, up)[i] == PartsOf(t.parts, up)[i]
  {
  }

  lemma ReadChunks(s: State, c: nat, u: UserId, up: UploadId, digest: Digest, entries: seq<Entry>, file: FileId)
    ensures Read(s, c, u, up, digest, entries, file).t == s.t
  {
    hide BeginRead;
  }

  lemma TakeChunks(s: State, c: nat)
    ensures Take(s, c).t.chunks == s.t.chunks && Take(s, c).t.parts == s.t.parts
  {
  }

  lemma LinkUpChunks(sha: Bytes -> Digest, s: State, c: nat)
    ensures OnlyFilesMove(s.t, LinkUp(sha, s, c).t)
  {
    hide MetaOf, Concat, CanLink;
  }

  lemma {:induction false} RowKept(sha: Bytes -> Digest, run: seq<Action>, i: nat, j: nat, up: UploadId, index: nat)
    requires i <= j <= |run|
    requires forall k :: i <= k <= j ==> index in RowsOf(At(sha, false, run, k).t.chunks, up)
    ensures RowsOf(At(sha, false, run, j).t.chunks, up)[index] == RowsOf(At(sha, false, run, i).t.chunks, up)[index]
    decreases j
  {
    if i < j {
      hide Step;
      RowKept(sha, run, i, j - 1, up, index);
      ChunkRowsMove(sha, At(sha, false, run, j - 1), run[j - 1], up, index);
    }
  }

  lemma AcceptRecords(sha: Bytes -> Digest, s: State, p: UploadAction)
    requires p.PutChunk? && Put(sha, s.t, p.u, p.up, p.index, p.data, p.meta, p.startedAt, s.now).1 == Done
    ensures p.index >= 0
    ensures p.index in RowsOf(UploadStep(sha, false, s, p).t.chunks, p.up)
    ensures RowsOf(UploadStep(sha, false, s, p).t.chunks, p.up)[p.index] == MetaOf(sha, p.data)
    ensures p.index in RowsOf(s.t.chunks, p.up) ==> RowsOf(s.t.chunks, p.up)[p.index] == MetaOf(sha, p.data)
  {
  }

  /** As long as the row of a chunk is neither reset, healed nor deleted, every put that is accepted
      for that index carries the same size and digest, and so the same bytes if the digest has no collision. */
  lemma AcceptedPutsAgree(sha: Bytes -> Digest, run: seq<Action>, i: nat, j: nat, up: UploadId, index: nat)
    requires i < j < |run|
    requires Accepts(sha, run, i, up, index) && Accepts(sha, run, j, up, index)
    requires forall k :: i < k <= j ==> index in RowsOf(At(sha, false, run, k).t.chunks, up)
    ensures MetaOf(sha, run[i].upload.data) == MetaOf(sha, run[j].upload.data)
    ensures (forall x: Bytes, y: Bytes :: sha(x) == sha(y) ==> x == y) ==> run[i].upload.data == run[j].upload.data
  {
    hide UploadStep, Put;
    AcceptRecords(sha, At(sha, false, run, i), run[i].upload);
    AcceptRecords(sha, At(sha, false, run, j), run[j].upload);
    RowKept(sha, run, i + 1, j, up, index);
  }
}
