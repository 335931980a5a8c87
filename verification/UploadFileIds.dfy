/** Which file id a committed session names. The finishing transaction checks
    the session's state but not its file id, so after a reset that overlaps with
    a slower handler the session may name a file that was never registered. */
module UploadFileIds {
  import opened Wrappers
  import opened Container
  import opened Ledger
  import opened Uploads
  import opened UploadRuns
  import opened UploadInvariant
  import opened UploadTheorems

  // ---------- File ids of sessions and of handlers that have not claimed yet ----------

  ghost predicate PendingBare(s: State) {
    forall up :: up in s.t.sessions && s.t.sessions[up].phase == Pending ==> s.t.sessions[up].fileId == None
  }

  /** A takeover that can still win takes over the file id too. */
  ghost predicate StaleOk(s: State, k: Snap) {
    && k.row.updatedAt + COMMIT_LEASE <= s.now
    && (k.upload in s.t.sessions && s.t.sessions[k.upload].phase == Committing && s.t.sessions[k.upload].updatedAt == k.row.updatedAt ==>
          s.t.sessions[k.upload].fileId == Some(k.fileId))
  }

  /** The file id a first claim will bring is known to nobody else. */
  ghost predicate NewOk(s: State, c: nat, k: Snap) {
    && k.fileId in s.minted
    && (forall up :: up in s.t.sessions ==> s.t.sessions[up].fileId != Some(k.fileId))
    && (forall d :: d in s.commits && d != c ==> s.commits[d].snap.fileId != k.fileId)
  }

  ghost predicate ReaderOk(s: State, c: nat)
    requires c in s.commits
  {
    s.commits[c].Reading? ==> if s.commits[c].snap.stale then StaleOk(s, s.commits[c].snap) else NewOk(s, c, s.commits[c].snap)
  }

  ghost predicate Named(s: State) {
    PendingBare(s) && forall c :: c in s.commits ==> ReaderOk(s, c)
  }

  /** Handler d remembers what it remembered, and does not go back to reading. */
  ghost predicate StageKept(s: State, s': State, d: nat)
    requires d in s'.commits
  {
    d in s.commits && s'.commits[d].snap == s.commits[d].snap && (s'.commits[d].Reading? ==> s.commits[d].Reading?)
  }

  ghost predicate StagesKept(s: State, s': State) {
    forall d :: d in s'.commits ==> StageKept(s, s', d)
  }

  /** Sessions and handlers only disappear, or handlers move past their claim. */
  lemma FewerNamed(s: State, s': State)
    requires Named(s) && Sub(s'.t.sessions, s.t.sessions) && s.now <= s'.now && Sub(s.minted, s'.minted)
    requires StagesKept(s, s')
    ensures Named(s')
  {
    forall c | c in s'.commits ensures ReaderOk(s', c) {
      assert StageKept(s, s', c) && ReaderOk(s, c);
    }
  }

  /** One session row is new or rewritten now, without a file id or after its commit. */
  lemma RewriteNamed(s: State, s': State, id: UploadId)
    requires Named(s) && id in s'.t.sessions && s'.t.sessions == s.t.sessions[id := s'.t.sessions[id]]
    requires s'.now == s.now && s'.minted == s.minted && Sub(s'.commits, s.commits)
    requires var r := s'.t.sessions[id];
             && (r.phase == Pending ==> r.fileId == None) && r.phase != Committing
             && (r.fileId.Some? ==> id in s.t.sessions && s.t.sessions[id].fileId == r.fileId)
    ensures Named(s')
  {
    forall c | c in s'.commits ensures ReaderOk(s', c) {
      assert ReaderOk(s, c);
    }
  }

  lemma PutNamed(sha: Bytes -> Digest, s: State, b: UploadAction)
    requires Named(s) && (b.PutChunk? || b.OpenUpload?)
    ensures Named(UploadStep(sha, false, s, b))
  {
    hide Named, MetaOf, Charge;
    var s' := UploadStep(sha, false, s, b);
    var id := if b.PutChunk? then b.up else b.id;
    if s'.t.sessions == s.t.sessions {
      FewerNamed(s, s');
    } else {
      assert PendingBare(s) by {
        BareOf(s);
      }
      RewriteNamed(s, s', id);
    }
  }

  lemma BareOf(s: State)
    requires Named(s)
    ensures PendingBare(s)
  {
  }

  lemma ReadNamed(sha: Bytes -> Digest, s: State, c: nat, u: UserId, up: UploadId, digest: Digest, entries: seq<Entry>, file: FileId)
    requires Named(s) && SessionsOk(s) && StagesOk(sha, s)
    ensures Named(Read(s, c, u, up, digest, entries, file))
  {
    hide BeginRead;
    var s' := Read(s, c, u, up, digest, entries, file);
    if s' != s {
      var k := s'.commits[c].snap;
      ReadySnap(s.t, u, up, digest, entries, file, s.now);
      assert SessionOk(s, up, s.t.sessions[up]);
      if !k.stale {
        FreshNamed(sha, s, file);
      }
      forall d | d in s'.commits ensures ReaderOk(s', d) {
        assert d in s.commits ==> ReaderOk(s, d);
      }
    }
  }

  lemma ReadySnap(t: Tables, u: UserId, up: UploadId, digest: Digest, entries: seq<Entry>, file: FileId, now: Time)
    requires BeginRead(t, u, up, digest, entries, file, now).Ready?
    ensures var k := BeginRead(t, u, up, digest, entries, file, now).snap;
            && up in t.sessions && k.upload == up && k.row == t.sessions[up]
            && k.fileId == (if k.row.fileId.Some? then k.row.fileId.value else file)
            && (if k.stale then k.row.phase == Committing && k.row.updatedAt <= now - COMMIT_LEASE && k.row.fileId.Some?
                else k.row.phase == Pending)
  {
    hide Manifest, RowsMatch, EntrySizes, HexDigest, RowsOf;
  }

  /** An id that was never drawn is nowhere in use. */
  lemma FreshNamed(sha: Bytes -> Digest, s: State, file: FileId)
    requires SessionsOk(s) && StagesOk(sha, s) && file !in s.minted
    ensures forall up :: up in s.t.sessions ==> s.t.sessions[up].fileId != Some(file)
    ensures forall d :: d in s.commits ==> s.commits[d].snap.fileId != file
  {
    forall up | up in s.t.sessions ensures s.t.sessions[up].fileId != Some(file) {
      assert SessionOk(s, up, s.t.sessions[up]);
    }
    forall d | d in s.commits ensures s.commits[d].snap.fileId != file {
      assert StageOk(sha, s, s.commits[d]);
    }
  }

  lemma TakeNamed(s: State, c: nat)
    requires Named(s)
    ensures Named(Take(s, c))
  {
    var s' := Take(s, c);
    if s'.t == s.t {
      FewerNamed(s, s');
    } else {
      forall d | d in s'.commits ensures ReaderOk(s', d) {
        TakeReader(s, c, d);
      }
    }
  }

  lemma TakeReader(s: State, c: nat, d: nat)
    requires c in s.commits && s.commits[c].Reading? && ReaderOk(s, c) && CanClaim(s.t, s.commits[c].snap)
    requires d in s.commits && ReaderOk(s, d)
    ensures ReaderOk(Take(s, c), d)
  {
  }

  lemma FinishNamed(sha: Bytes -> Digest, s: State, c: nat)
    requires Named(s)
    ensures Named(CommitStep(sha, s, FinishCommit(c)))
  {
    hide Named;
    var f := CommitStep(sha, s, FinishCommit(c));
    if f.t.sessions == s.t.sessions {
      FewerNamed(s, f);
    } else {
      RewriteNamed(s, f, s.commits[c].snap.upload);
    }
  }

  lemma ResetNamed(sha: Bytes -> Digest, s: State, c: nat)
    requires Named(s)
    ensures Named(CommitStep(sha, s, ResetCommit(c)))
  {
    hide Named;
    var r := CommitStep(sha, s, ResetCommit(c));
    if r.t.sessions == s.t.sessions {
      FewerNamed(s, r);
    } else {
      RewriteNamed(s, r, s.commits[c].snap.upload);
    }
  }

  lemma ReadPartStages(sha: Bytes -> Digest, s: State, c: nat)
    ensures var s' := ReadPart(sha, s, c);
            s' == s.(commits := s'.commits) && StagesKept(s, s')
  {
    hide Passes, StagesKept;
    var s' := ReadPart(sha, s, c);
    if s' != s {
      StageMoves(s, c, s'.commits[c], s.t);
    } else {
      NoStageMoves(s);
    }
  }

  lemma LinkUpStages(sha: Bytes -> Digest, s: State, c: nat)
    ensures var s' := LinkUp(sha, s, c);
            && s'.t.sessions == s.t.sessions && s'.now == s.now && s'.minted == s.minted && s'.declared == s.declared
            && StagesKept(s, s')
  {
    hide CanLink, Link, MetaOf, Concat, StagesKept;
    if c in s.commits && s.commits[c].Owning? {
      var k, chunks := s.commits[c].snap, s.commits[c].chunks;
      LinkSessions(s.t, k.fileId, Concat(chunks));
      StageMoves(s, c, Failing(k), s.t);
      StageMoves(s, c, Linked(k, chunks), Link(s.t, k.fileId, Concat(chunks)));
    }
    NoStageMoves(s);
  }

  lemma LinkSessions(t: Tables, f: FileId, data: Bytes)
    ensures Link(t, f, data).sessions == t.sessions
  {
  }

  lemma NoStageMoves(s: State)
    ensures StagesKept(s, s)
  {
  }

  lemma StageMoves(s: State, c: nat, g: Stage, t: Tables)
    requires c in s.commits && g.snap == s.commits[c].snap && !g.Reading?
    ensures StagesKept(s, s.(commits := s.commits[c := g], t := t))
    ensures StagesKept(s, s.(commits := s.commits - {c}))
  {
  }

  lemma CommitNamed(sha: Bytes -> Digest, s: State, b: CommitAction)
    requires Named(s) && SessionsOk(s) && StagesOk(sha, s)
    ensures Named(CommitStep(sha, s, b))
  {
    hide Named, SessionsOk, StagesOk, Read, Take, ReadPart, LinkUp, Finish, Reset;
    match b
    case ReadCommit(c, u, up, digest, entries, newFile) => ReadNamed(sha, s, c, u, up, digest, entries, newFile);
    case ClaimCommit(c) => TakeNamed(s, c);
    case ReadChunk(c) =>
      ReadPartStages(sha, s, c);
      FewerNamed(s, ReadPart(sha, s, c));
    case LinkCommit(c) =>
      LinkUpStages(sha, s, c);
      FewerNamed(s, LinkUp(sha, s, c));
    case FinishCommit(c) => FinishNamed(sha, s, c);
    case ResetCommit(c) => ResetNamed(sha, s, c);
    case DropCommit(c) => FewerNamed(s, s.(commits := s.commits - {c}));
  }

  lemma StepNamed(sha: Bytes -> Digest, s: State, a: Action)
    requires Named(s) && SessionsOk(s) && StagesOk(sha, s)
    ensures Named(Step(sha, false, s, a))
  {
    hide Named, SessionsOk, StagesOk, AccountStep, UploadStep, CommitStep, FileStep;
    if a.Commit? {
      CommitNamed(sha, s, a.commit);
    } else if a.Upload? && (a.upload.PutChunk? || a.upload.OpenUpload?) {
      PutNamed(sha, s, a.upload);
    } else {
      RestFewer(sha, s, a);
      FewerNamed(s, Step(sha, false, s, a));
    }
  }

  lemma OkAt(sha: Bytes -> Digest, run: seq<Action>, n: nat)
    requires n <= |run|
    ensures SessionsOk(At(sha, false, run, n)) && StagesOk(sha, At(sha, false, run, n))
  {
    hide Step, Conserved, Present;
    InvAt(sha, run, n);
  }

  lemma {:induction false} NamedAt(sha: Bytes -> Digest, run: seq<Action>, n: nat)
    requires n <= |run|
    ensures Named(At(sha, false, run, n))
  {
    if n > 0 {
      hide Step, Named, SessionsOk, StagesOk;
      NamedAt(sha, run, n - 1);
      OkAt(sha, run, n - 1);
      StepNamed(sha, At(sha, false, run, n - 1), run[n - 1]);
    }
  }

  // ---------- From the claim to the finish ----------

  /** The session, while it exists, names f. */
  ghost predicate Names(s: State, up: UploadId, f: FileId) {
    && up in s.declared
    && (up in s.t.sessions ==> s.t.sessions[up].phase != Pending && s.t.sessions[up].fileId == Some(f))
  }

  ghost predicate NamesOther(s: State, up: UploadId, f: FileId) {
    up in s.declared && (up in s.t.sessions ==> s.t.sessions[up].fileId != Some(f))
  }

  /** Handler c has claimed `up` for the file f and is still at work. */
  ghost predicate Works(s: State, c: nat, up: UploadId, f: FileId) {
    c in s.commits && !s.commits[c].Reading? && s.commits[c].snap.upload == up && s.commits[c].snap.fileId == f
  }

  lemma CommitStages(sha: Bytes -> Digest, s: State, b: CommitAction, c: nat)
    requires c in s.commits && c in CommitStep(sha, s, b).commits
    ensures CommitStep(sha, s, b).commits[c].snap == s.commits[c].snap
    ensures CommitStep(sha, s, b).commits[c].Reading? ==> s.commits[c].Reading?
  {
    hide BeginRead, Finish, Reset, CanClaim, ReadPart, LinkUp;
    if b.ReadChunk? {
      ReadPartStages(sha, s, b.c);
      assert StageKept(s, ReadPart(sha, s, b.c), c);
    } else if b.LinkCommit? {
      LinkUpStages(sha, s, b.c);
      assert StageKept(s, LinkUp(sha, s, b.c), c);
    }
  }

  lemma StepWorks(sha: Bytes -> Digest, s: State, a: Action, c: nat, up: UploadId, f: FileId)
    requires Works(s, c, up, f) && c in Step(sha, false, s, a).commits
    ensures Works(Step(sha, false, s, a), c, up, f)
  {
    hide AccountStep, UploadStep, CommitStep, FileStep;
    if a.Commit? {
      CommitStages(sha, s, a.commit, c);
    } else if a.Upload? && (a.upload.PutChunk? || a.upload.OpenUpload?) {
      UploadCommits(sha, s, a.upload);
    } else {
      RestFewer(sha, s, a);
    }
  }

  lemma UploadCommits(sha: Bytes -> Digest, s: State, b: UploadAction)
    ensures UploadStep(sha, false, s, b).commits == s.commits
  {
    hide Create, Put, Heal, Cancel, Expire;
  }

  /** How the file id of one session can change in one step. */
  lemma TakeFileId(s: State, c: nat, up: UploadId, f: FileId)
    requires Named(s)
    ensures Names(s, up, f) ==> Names(Take(s, c), up, f)
    ensures (exists d :: Works(s, d, up, f)) && NamesOther(s, up, f) ==> NamesOther(Take(s, c), up, f)
  {
    if c in s.commits && s.commits[c].Reading? {
      assert ReaderOk(s, c);
    }
  }

  lemma FinishFileId(sha: Bytes -> Digest, s: State, c: nat, up: UploadId, f: FileId)
    ensures Names(s, up, f) ==> Names(CommitStep(sha, s, FinishCommit(c)), up, f)
    ensures NamesOther(s, up, f) ==> NamesOther(CommitStep(sha, s, FinishCommit(c)), up, f)
  {
  }

  lemma ResetFileId(sha: Bytes -> Digest, s: State, c: nat, up: UploadId, f: FileId)
    ensures var s' := CommitStep(sha, s, ResetCommit(c));
            && (Names(s, up, f) && !(up in s'.t.sessions && s'.t.sessions[up].phase == Pending) ==> Names(s', up, f))
            && (NamesOther(s, up, f) ==> NamesOther(s', up, f))
  {
  }

  lemma ReadTables(s: State, c: nat, u: UserId, up: UploadId, digest: Digest, entries: seq<Entry>, file: FileId)
    ensures Read(s, c, u, up, digest, entries, file).t == s.t && Read(s, c, u, up, digest, entries, file).declared == s.declared
  {
    hide BeginRead;
  }

  lemma CommitFileId(sha: Bytes -> Digest, s: State, b: CommitAction, up: UploadId, f: FileId)
    requires Named(s)
    ensures var s' := CommitStep(sha, s, b);
            && (Names(s, up, f) && !(b.ResetCommit? && up in s'.t.sessions && s'.t.sessions[up].phase == Pending) ==> Names(s', up, f))
            && ((exists d :: Works(s, d, up, f)) && NamesOther(s, up, f) ==> NamesOther(s', up, f))
  {
    hide Named, Works, Read, Take, ReadPart, LinkUp, Finish, Reset;
    match b
    case ReadCommit(c, u, x, digest, entries, newFile) => ReadTables(s, c, u, x, digest, entries, newFile);
    case ClaimCommit(c) => TakeFileId(s, c, up, f);
    case ReadChunk(c) => ReadPartStages(sha, s, c);
    case LinkCommit(c) => LinkUpStages(sha, s, c);
    case FinishCommit(c) => FinishFileId(sha, s, c, up, f);
    case ResetCommit(c) => ResetFileId(sha, s, c, up, f);
    case DropCommit(c) =>
  }

  lemma PutFileId(sha: Bytes -> Digest, s: State, b: UploadAction, up: UploadId, f: FileId)
    requires b.PutChunk? || b.OpenUpload?
    ensures Names(s, up, f) ==> Names(UploadStep(sha, false, s, b), up, f)
    ensures NamesOther(s, up, f) ==> NamesOther(UploadStep(sha, false, s, b), up, f)
  {
    hide MetaOf, Charge;
  }

  /** Without a reset of the session it goes on naming the file; once it names another, it does so as long as the handler works. */
  lemma StepFileId(sha: Bytes -> Digest, s: State, a: Action, up: UploadId, f: FileId)
    requires Named(s)
    ensures var s' := Step(sha, false, s, a);
            && (Names(s, up, f) && !(a.Commit? && a.commit.ResetCommit? && up in s'.t.sessions && s'.t.sessions[up].phase == Pending)
                ==> Names(s', up, f))
            && ((exists d :: Works(s, d, up, f)) && NamesOther(s, up, f) ==> NamesOther(s', up, f))
  {
    hide Named, Works, AccountStep, UploadStep, CommitStep, FileStep;
    if a.Commit? {
      CommitFileId(sha, s, a.commit, up, f);
    } else if a.Upload? && (a.upload.PutChunk? || a.upload.OpenUpload?) {
      PutFileId(sha, s, a.upload, up, f);
    } else {
      RestFewer(sha, s, a);
    }
  }

  lemma {:induction false} WorksOn(sha: Bytes -> Digest, run: seq<Action>, i: nat, j: nat, c: nat, up: UploadId, f: FileId)
    requires i <= j <= |run| && Works(At(sha, false, run, i), c, up, f)
    requires forall m :: i <= m <= j ==> c in At(sha, false, run, m).commits
    ensures Works(At(sha, false, run, j), c, up, f)
    decreases j
  {
    if i < j {
      hide Step, Works;
      WorksOn(sha, run, i, j - 1, c, up, f);
      assert c in At(sha, false, run, j).commits;
      StepWorks(sha, At(sha, false, run, j - 1), run[j - 1], c, up, f);
    }
  }

  lemma NoReset(sha: Bytes -> Digest, run: seq<Action>, k: nat, up: UploadId, f: FileId)
    requires k < |run| && !ResetAt(sha, run, k, up) && Names(At(sha, false, run, k), up, f)
    ensures Names(At(sha, false, run, k + 1), up, f)
  {
    hide AccountStep, UploadStep, CommitStep, FileStep, DiskStep, Named;
    var s, s' := At(sha, false, run, k), At(sha, false, run, k + 1);
    NamedAt(sha, run, k);
    StepFileId(sha, s, run[k], up, f);
    if run[k].Commit? && run[k].commit.ResetCommit? && up in s'.t.sessions && s'.t.sessions[up].phase == Pending {
      ResetFromCommitting(sha, s, run[k].commit.c, up);
    }
  }

  lemma ResetFromCommitting(sha: Bytes -> Digest, s: State, c: nat, up: UploadId)
    requires var s' := CommitStep(sha, s, ResetCommit(c));
             up in s'.t.sessions && s'.t.sessions[up].phase == Pending
    ensures up in s.t.sessions && s.t.sessions[up].phase in {Committing, Pending}
  {
  }

  lemma {:induction false} KeepsNaming(sha: Bytes -> Digest, run: seq<Action>, i: nat, j: nat, up: UploadId, f: FileId)
    requires i <= j <= |run| && Names(At(sha, false, run, i), up, f)
    requires forall r :: i <= r < j ==> !ResetAt(sha, run, r, up)
    ensures Names(At(sha, false, run, j), up, f)
    decreases j
  {
    if i < j {
      hide At, Names, ResetAt;
      KeepsNaming(sha, run, i, j - 1, up, f);
      NoReset(sha, run, j - 1, up, f);
    }
  }

  lemma {:induction false} KeepsOther(sha: Bytes -> Digest, run: seq<Action>, i: nat, j: nat, c: nat, up: UploadId, f: FileId)
    requires i <= j <= |run| && NamesOther(At(sha, false, run, i), up, f)
    requires Works(At(sha, false, run, i), c, up, f)
    requires forall m :: i <= m <= j ==> c in At(sha, false, run, m).commits
    ensures NamesOther(At(sha, false, run, j), up, f)
    decreases j
  {
    if i < j {
      hide Step, Named, NamesOther, Works;
      KeepsOther(sha, run, i, j - 1, c, up, f);
      WorksOn(sha, run, i, j - 1, c, up, f);
      NamedAt(sha, run, j - 1);
      StepFileId(sha, At(sha, false, run, j - 1), run[j - 1], up, f);
    }
  }

  lemma AfterClaim(sha: Bytes -> Digest, run: seq<Action>, i: nat, c: nat, up: UploadId, stale: bool)
    requires i < |run| && run[i] == Commit(ClaimCommit(c)) && Wins(sha, run, i, up, stale)
    ensures var f := At(sha, false, run, i).commits[c].snap.fileId;
            Works(At(sha, false, run, i + 1), c, up, f) && Names(At(sha, false, run, i + 1), up, f)
  {
    hide AccountStep, UploadStep, FileStep, DiskStep, Read, ReadPart, LinkUp, Finish, Reset;
    OkAt(sha, run, i);
    var s := At(sha, false, run, i);
    assert SessionOk(s, up, s.t.sessions[up]);
  }

  lemma AfterReset(sha: Bytes -> Digest, run: seq<Action>, r: nat, up: UploadId, f: FileId)
    requires r < |run| && ResetAt(sha, run, r, up)
    ensures NamesOther(At(sha, false, run, r + 1), up, f)
  {
    hide Step;
    NamedAt(sha, run, r + 1);
    OkAt(sha, run, r + 1);
    var s := At(sha, false, run, r + 1);
    assert SessionOk(s, up, s.t.sessions[up]);
  }

  /** The session that handler c commits names the file f that it registers exactly when no other handler
      reset the session between c's claim and its finish. */
  lemma NamesItsRow(sha: Bytes -> Digest, run: seq<Action>, i: nat, k: nat, c: nat, up: UploadId, stale: bool, f: FileId)
    requires i < k < |run| && run[i] == Commit(ClaimCommit(c)) && Wins(sha, run, i, up, stale)
    requires run[k] == Commit(FinishCommit(c)) && Inserts(sha, run, k, up)
    requires forall m :: i <= m <= k ==> c in At(sha, false, run, m).commits
    requires f == At(sha, false, run, i).commits[c].snap.fileId
    ensures var s, s' := At(sha, false, run, k), At(sha, false, run, k + 1);
            && f !in s.t.registry && s'.t.registry.Keys == s.t.registry.Keys + {f}
            && up in s'.t.sessions && s'.t.sessions[up].phase == Committed
            && (s'.t.sessions[up].fileId == Some(f) <==> forall r :: i < r < k ==> !ResetAt(sha, run, r, up))
  {
    hide *;
    AfterClaim(sha, run, i, c, up, stale);
    WorksOn(sha, run, i + 1, k, c, up, f);
    FinishRow(sha, run, k, c, up, f);
    if r: nat :| i < r < k && ResetAt(sha, run, r, up) {
      AfterReset(sha, run, r, up, f);
      WorksOn(sha, run, i + 1, r + 1, c, up, f);
      KeepsOther(sha, run, r + 1, k, c, up, f);
      OtherName(At(sha, false, run, k), up, f);
    } else {
      KeepsNaming(sha, run, i + 1, k, up, f);
      SameName(At(sha, false, run, k), up, f);
    }
  }

  lemma OtherName(s: State, up: UploadId, f: FileId)
    requires NamesOther(s, up, f) && up in s.t.sessions
    ensures s.t.sessions[up].fileId != Some(f)
  {
  }

  lemma SameName(s: State, up: UploadId, f: FileId)
    requires Names(s, up, f) && up in s.t.sessions
    ensures s.t.sessions[up].fileId == Some(f)
  {
  }

  lemma FinishRow(sha: Bytes -> Digest, run: seq<Action>, k: nat, c: nat, up: UploadId, f: FileId)
    requires k < |run| && run[k] == Commit(FinishCommit(c)) && Inserts(sha, run, k, up) && Works(At(sha, false, run, k), c, up, f)
    ensures var s, s' := At(sha, false, run, k), At(sha, false, run, k + 1);
            && f !in s.t.registry && s'.t.registry.Keys == s.t.registry.Keys + {f}
            && up in s.t.sessions && up in s'.t.sessions && s'.t.sessions[up].phase == Committed
            && s'.t.sessions[up].fileId == s.t.sessions[up].fileId
  {
    hide Step, Concat;
    LinkedNow(sha, run, k, up);
    hide CommitStep;
    FinishInserts(sha, At(sha, false, run, k), c);
  }

  // ---------- It does happen ----------

  /** Two handlers share a session of one chunk: `a` has linked its file, `b` has taken the session over and
      failed. The owner's retry `c` has not started. */
  ghost predicate Overlap(sha: Bytes -> Digest, s: State, a: nat, b: nat, c: nat, up: UploadId, data: Bytes, file: FileId) {
    && a in s.commits && b in s.commits && a != b && c !in s.commits
    && s.commits[a].Linked? && s.commits[b].Failing?
    && up in s.t.sessions && s.t.sessions[up].phase == Committing && s.t.sessions[up].expiresAt > s.now
    && s.commits[a].snap.upload == up && s.commits[b].snap.upload == up
    && s.commits[a].snap.owner == s.t.sessions[up].owner && s.commits[b].snap.owner == s.t.sessions[up].owner
    && s.t.sessions[up].count == 1 && s.commits[b].snap.row.count == 1
    && s.t.sessions[up].size == |data| && s.t.sessions[up].digest == sha(data)
    && 0 < |data| <= MAX_CHUNK && HexDigest(sha(data))
    && file !in s.minted && file !in s.t.registry && s.commits[a].snap.fileId !in s.t.registry && file != s.commits[a].snap.fileId
  }

  ghost function Retry(sha: Bytes -> Digest, s: State, b: nat, up: UploadId, data: Bytes): State
    requires up in s.t.sessions
  {
    var u := s.t.sessions[up].owner;
    UploadStep(sha, false, CommitStep(sha, s, ResetCommit(b)), PutChunk(u, up, 0, data, MetaOf(sha, data), s.now))
  }

  ghost function Reclaim(sha: Bytes -> Digest, s: State, u: UserId, c: nat, up: UploadId, data: Bytes, file: FileId): State {
    CommitStep(sha, CommitStep(sha, s, ReadCommit(c, u, up, sha(data), [Entry(0, |data|, sha(data))], file)), ClaimCommit(c))
  }

  lemma RetryPuts(sha: Bytes -> Digest, s: State, a: nat, b: nat, c: nat, up: UploadId, data: Bytes, file: FileId)
    requires Overlap(sha, s, a, b, c, up, data, file)
    ensures var s' := Retry(sha, s, b, up, data);
            && up in s'.t.sessions
            && s'.t.sessions[up] == s.t.sessions[up].(phase := Pending, fileId := None, updatedAt := s.now)
            && RowsOf(s'.t.chunks, up) == map[0 := MetaOf(sha, data)]
            && s'.t.registry == s.t.registry && s'.minted == s.minted && s'.now == s.now && s'.commits == s.commits - {b}
  {
    var s1 := CommitStep(sha, s, ResetCommit(b));
    assert s1.t.sessions[up].phase == Pending && RowsOf(s1.t.chunks, up) == map[] && 0 !in PartsOf(s1.t.parts, up);
  }

  lemma ReclaimTakes(sha: Bytes -> Digest, s: State, u: UserId, c: nat, up: UploadId, data: Bytes, file: FileId)
    requires c !in s.commits && file !in s.minted
    requires up in s.t.sessions && s.t.sessions[up].owner == u && s.t.sessions[up].phase == Pending && s.t.sessions[up].expiresAt > s.now
    requires s.t.sessions[up].count == 1 && s.t.sessions[up].size == |data| && s.t.sessions[up].digest == sha(data)
    requires s.t.sessions[up].fileId == None && RowsOf(s.t.chunks, up) == map[0 := MetaOf(sha, data)]
    requires 0 < |data| <= MAX_CHUNK && HexDigest(sha(data))
    ensures var s' := Reclaim(sha, s, u, c, up, data, file);
            && up in s'.t.sessions
            && s'.t.sessions[up] == s.t.sessions[up].(phase := Committing, fileId := Some(file), updatedAt := s.now)
            && s'.t.registry == s.t.registry && s'.now == s.now
            && forall d :: d in s.commits ==> d in s'.commits && s'.commits[d] == s.commits[d]
  {
    var e := Entry(0, |data|, sha(data));
    assert [e][..0] == [];
    assert Manifest([], 1) == Some(map[]) && EntrySizes([]) == 0;
    assert GoodEntry(e, 1, map[]);
    assert Manifest([e], 1) == Some(map[0 := MetaOf(sha, data)]) && EntrySizes([e]) == |data|;
    hide Manifest, EntrySizes, GoodEntry, HexDigest, RowsOf;
    var k := Snap(up, u, s.t.sessions[up], map[0 := MetaOf(sha, data)], false, file);
    assert BeginRead(s.t, u, up, sha(data), [e], file, s.now) == Ready(k);
    hide BeginRead;
    var s1 := s.(commits := s.commits[c := Reading(k)], minted := s.minted[file := Some(up)]);
    assert CommitStep(sha, s, ReadCommit(c, u, up, sha(data), [e], file)) == s1;
    hide Read;
  }

  /** After reset, retry and a new claim the slow handler's finish still goes through: the session ends up committed
      under a file id that has no registry row, while the row it made has another. */
  lemma NamesUnregistered(sha: Bytes -> Digest, s: State, a: nat, b: nat, c: nat, up: UploadId, data: Bytes, file: FileId)
    requires Overlap(sha, s, a, b, c, up, data, file)
    ensures var s' := CommitStep(sha, Reclaim(sha, Retry(sha, s, b, up, data), s.t.sessions[up].owner, c, up, data, file), FinishCommit(a));
            && up in s'.t.sessions && s'.t.sessions[up].phase == Committed && s'.t.sessions[up].fileId == Some(file)
            && file !in s'.t.registry && s.commits[a].snap.fileId in s'.t.registry
  {
    hide Retry, Reclaim;
    var s2 := Retry(sha, s, b, up, data);
    RetryPuts(sha, s, a, b, c, up, data, file);
    ReclaimTakes(sha, s2, s.t.sessions[up].owner, c, up, data, file);
  }
}
