/** All interleavings of the upload handlers: the tables, the handlers that are
    between two of their transactions, and the clock. Identifiers drawn at
    random are new whenever they are drawn. The fields `declared`, `minted` and
    `lost` record history for the statements below; no step reads them except
    to reject an identifier that is not new. */
module UploadRuns {
  import opened Wrappers
  import opened Container
  import opened Ledger
  import opened Uploads
  import opened Conservation

  /** Where a commit handler stands: it has read the session; it has won the compare-and-set and
      has read some chunk files; it has linked their join as the final file; or it is about to reset. */
  datatype Stage =
    | Reading(snap: Snap)
    | Owning(snap: Snap, chunks: seq<Bytes>)
    | Linked(snap: Snap, chunks: seq<Bytes>)
    | Failing(snap: Snap)

  datatype OneShot = OneShot(owner: UserId, data: Bytes)

  datatype Decl = Decl(owner: UserId, size: nat, count: nat, digest: Digest)

  function DeclOf(r: Session): Decl {
    Decl(r.owner, r.size, r.count, r.digest)
  }

  datatype State = State(
    t: Tables, now: Time, commits: map<nat, Stage>, oneshots: map<FileId, OneShot>,
    declared: map<UploadId, Decl>, minted: map<FileId, Option<UploadId>>, lost: set<FileId>)

  datatype Action =
    | Tick(d: nat)
    | Account(account: AccountAction)
    | Upload(upload: UploadAction)
    | Commit(commit: CommitAction)
    | File(file: FileAction)
    | Disk(disk: DiskAction)

  datatype AccountAction = SignUp(u: UserId) | SignOff(u: UserId) | ResetAccount(u: UserId)

  datatype UploadAction =
    | OpenUpload(u: UserId, request: string, size: int, count: int, digest: Digest, limit: int, id: UploadId)
    | PutChunk(u: UserId, up: UploadId, index: int, data: Bytes, meta: Meta, startedAt: Time)
    | Inspect(up: UploadId)
    | CancelUpload(u: UserId, up: UploadId)
    | ExpireUploads

  /** The steps of the commit handler number c. */
  datatype CommitAction =
    | ReadCommit(c: nat, u: UserId, up: UploadId, digest: Digest, entries: seq<Entry>, newFile: FileId)
    | ClaimCommit(c: nat)
    | ReadChunk(c: nat)
    | LinkCommit(c: nat)
    | FinishCommit(c: nat)
    | ResetCommit(c: nat)
    | DropCommit(c: nat)

  datatype FileAction =
    | ReserveFile(u: UserId, f: FileId, data: Bytes, limit: int)
    | PublishFile(f: FileId)
    | RollbackFile(f: FileId)
    | DeleteFile(u: UserId, f: FileId)
    | GetFile(u: UserId, f: FileId)
    | GetFileByToken(f: FileId)
    | CleanUp

  datatype DiskAction = LosePart(up: UploadId, index: nat) | LoseFile(f: FileId)

  /** One round of the assembly loop. */
  function ReadPart(sha: Bytes -> Digest, s: State, c: nat): State {
    if c in s.commits && s.commits[c].Owning? && |s.commits[c].chunks| < s.commits[c].snap.row.count then
      var k, chunks := s.commits[c].snap, s.commits[c].chunks;
      var parts := PartsOf(s.t.parts, k.upload);
      if |chunks| in parts && Passes(sha, parts[|chunks|], |chunks|, k) then
        s.(commits := s.commits[c := Owning(k, chunks + [parts[|chunks|]])])
      else s.(commits := s.commits[c := Failing(k)])
    else s
  }

  /** After the loop: the check of the whole, and os.link. */
  function LinkUp(sha: Bytes -> Digest, s: State, c: nat): State {
    if c in s.commits && s.commits[c].Owning? && |s.commits[c].chunks| == s.commits[c].snap.row.count then
      var k, chunks := s.commits[c].snap, s.commits[c].chunks;
      if MetaOf(sha, Concat(chunks)) != Meta(k.row.size, k.row.digest) then s.(commits := s.commits[c := Failing(k)])
      else if CanLink(sha, s.t, k.fileId, Concat(chunks)) then
        s.(t := Link(s.t, k.fileId, Concat(chunks)), commits := s.commits[c := Linked(k, chunks)])
      else s.(commits := s.commits - {c})
    else s
  }

  function Read(s: State, c: nat, u: UserId, up: UploadId, digest: Digest, entries: seq<Entry>, file: FileId): State {
    if c in s.commits || file in s.minted then s
    else
      match BeginRead(s.t, u, up, digest, entries, file, s.now)
      case Ready(k) =>
        s.(commits := s.commits[c := Reading(k)],
           minted := if k.fileId == file then s.minted[file := Some(up)] else s.minted)
      case _ => s
  }

  function Take(s: State, c: nat): State {
    if c in s.commits && s.commits[c].Reading? then
      var k := s.commits[c].snap;
      if CanClaim(s.t, k) then s.(t := Claim(s.t, k, s.now), commits := s.commits[c := Owning(k, [])])
      else s.(commits := s.commits - {c})
    else s
  }

  ghost function AccountStep(clamp: bool, s: State, a: AccountAction): State {
    match a
    case SignUp(u) => s.(t := Register(s.t, u))
    case SignOff(u) => s.(t := Deregister(s.t, u, clamp))
    case ResetAccount(u) => s.(t := RemoveUserFiles(s.t, u, clamp))
  }

  ghost function UploadStep(sha: Bytes -> Digest, clamp: bool, s: State, a: UploadAction): State {
    match a
    case OpenUpload(u, request, size, count, digest, limit, id) =>
      if id in s.declared then s
      else
        var t' := Create(s.t, u, request, size, count, digest, limit, id, s.now).0;
        s.(t := t', declared := if id in t'.sessions && id !in s.t.sessions then s.declared[id := DeclOf(t'.sessions[id])] else s.declared)
    case PutChunk(u, up, index, data, meta, startedAt) => s.(t := Put(sha, s.t, u, up, index, data, meta, startedAt, s.now).0)
    case Inspect(up) => s.(t := Heal(s.t, up))
    case CancelUpload(u, up) => s.(t := Cancel(s.t, u, up, clamp).0)
    case ExpireUploads => s.(t := Expire(s.t, s.now, clamp))
  }

  ghost function CommitStep(sha: Bytes -> Digest, s: State, a: CommitAction): State {
    match a
    case ReadCommit(c, u, up, digest, entries, newFile) => Read(s, c, u, up, digest, entries, newFile)
    case ClaimCommit(c) => Take(s, c)
    case ReadChunk(c) => ReadPart(sha, s, c)
    case LinkCommit(c) => LinkUp(sha, s, c)
    case FinishCommit(c) =>
      if c in s.commits && s.commits[c].Linked? then
        s.(t := Finish(s.t, s.commits[c].snap, |Concat(s.commits[c].chunks)|, s.now).0, commits := s.commits - {c})
      else s
    case ResetCommit(c) =>
      if c in s.commits && s.commits[c].Failing? then
        s.(t := Reset(s.t, s.commits[c].snap, s.now), commits := s.commits - {c})
      else s
    case DropCommit(c) => s.(commits := s.commits - {c})
  }

  ghost function FileStep(sha: Bytes -> Digest, clamp: bool, s: State, a: FileAction): State {
    match a
    case ReserveFile(u, f, data, limit) =>
      if f in s.minted then s
      else
        var r := Reserve(sha, s.t, u, f, data, limit, s.now);
        if r.1 == Done then s.(t := r.0, oneshots := s.oneshots[f := OneShot(u, data)], minted := s.minted[f := None]) else s
    case PublishFile(f) =>
      if f in s.oneshots then s.(t := Publish(s.t, f, s.oneshots[f].data).0, oneshots := s.oneshots - {f}) else s
    case RollbackFile(f) =>
      if f in s.oneshots then
        s.(t := Rollback(s.t, f, s.oneshots[f].owner, |s.oneshots[f].data|, clamp), oneshots := s.oneshots - {f})
      else s
    case DeleteFile(u, f) => s.(t := Delete(s.t, u, f).0)
    case GetFile(u, f) => s.(t := DownloadBySession(s.t, u, f, s.now, clamp).0)
    case GetFileByToken(f) => s.(t := DownloadByToken(s.t, f, s.now, clamp).0)
    case CleanUp => s.(t := CleanFiles(s.t, s.now, clamp))
  }

  function DiskStep(s: State, a: DiskAction): State {
    match a
    case LosePart(up, index) =>
      if up in s.t.parts then s.(t := s.t.(parts := s.t.parts[up := s.t.parts[up] - {index}])) else s
    case LoseFile(f) => s.(t := s.t.(finals := s.t.finals - {f}), lost := s.lost + {f})
  }

  ghost function Step(sha: Bytes -> Digest, clamp: bool, s: State, a: Action): State {
    match a
    case Tick(d) => s.(now := s.now + d)
    case Account(b) => AccountStep(clamp, s, b)
    case Upload(b) => UploadStep(sha, clamp, s, b)
    case Commit(b) => CommitStep(sha, s, b)
    case File(b) => FileStep(sha, clamp, s, b)
    case Disk(b) => DiskStep(s, b)
  }

  const EMPTY: State := State(Tables(map[], map[], map[], map[], map[], map[]), 0, map[], map[], map[], map[], {})

  /** The state after the first n actions of a run of the empty server. */
  ghost function At(sha: Bytes -> Digest, clamp: bool, run: seq<Action>, n: nat): State
    requires n <= |run|
  {
    if n == 0 then EMPTY else Step(sha, clamp, At(sha, clamp, run, n - 1), run[n - 1])
  }

  // ---------- The invariant ----------

  /** A file of the declared size and digest that parses into the declared number of frames. */
  predicate Good(sha: Bytes -> Digest, data: Bytes, d: Decl) {
    && MetaOf(sha, data) == Meta(d.size, d.digest)
    && Parse(data).Some? && |Parse(data).value.frames| == d.count
  }

  ghost predicate MintedFor(s: State, f: FileId, up: UploadId) {
    f in s.minted && s.minted[f] == Some(up)
  }

  ghost predicate SessionOk(s: State, up: UploadId, r: Session) {
    && up in s.declared && r.count > 0 && r.size > 0 && DeclOf(r) == s.declared[up] && r.reserved == r.size && r.updatedAt <= s.now
    && (r.fileId.Some? ==> MintedFor(s, r.fileId.value, up))
  }

  ghost predicate SnapOk(s: State, k: Snap) {
    && SessionOk(s, k.upload, k.row) && k.owner == k.row.owner
    && MintedFor(s, k.fileId, k.upload)
    && (k.stale ==> k.row.updatedAt <= s.now - COMMIT_LEASE)
  }

  ghost predicate StageOk(sha: Bytes -> Digest, s: State, g: Stage) {
    && SnapOk(s, g.snap)
    && (g.Owning? || g.Linked? ==> Passed(sha, g.chunks, g.snap))
    && (g.Linked? ==> |g.chunks| == g.snap.row.count && Good(sha, Concat(g.chunks), s.declared[g.snap.upload]))
  }

  /** A row made by a commit is what the session declared, and its session, if still there, is committed. */
  ghost predicate RowOk(s: State, f: FileId, r: FileRow) {
    && f in s.minted
    && (s.minted[f].Some? ==>
          var up := s.minted[f].value;
          && up in s.declared && r.ready
          && r.owner == s.declared[up].owner && r.size == s.declared[up].size && r.digest == s.declared[up].digest
          && (up in s.t.sessions ==> s.t.sessions[up].phase == Committed))
  }

  ghost predicate FinalOk(sha: Bytes -> Digest, s: State, f: FileId)
    requires f in s.t.finals
  {
    && f in s.minted
    && (s.minted[f].Some? ==> s.minted[f].value in s.declared && Good(sha, s.t.finals[f], s.declared[s.minted[f].value]))
    && (s.minted[f] == None ==> f in s.t.registry ==>
          MetaOf(sha, s.t.finals[f]) == Meta(s.t.registry[f].size, s.t.registry[f].digest))
  }

  ghost predicate OneShotOk(sha: Bytes -> Digest, s: State, f: FileId, o: OneShot) {
    && f in s.minted && s.minted[f] == None
    && (f in s.t.registry ==>
          && !s.t.registry[f].ready && s.t.registry[f].owner == o.owner
          && Meta(s.t.registry[f].size, s.t.registry[f].digest) == MetaOf(sha, o.data))
  }

  ghost predicate SessionsOk(s: State) {
    forall up :: up in s.t.sessions ==> SessionOk(s, up, s.t.sessions[up])
  }

  ghost predicate StagesOk(sha: Bytes -> Digest, s: State) {
    forall c :: c in s.commits ==> StageOk(sha, s, s.commits[c])
  }

  ghost predicate RowsOk(s: State) {
    forall f :: f in s.t.registry ==> RowOk(s, f, s.t.registry[f])
  }

  ghost predicate FinalsOk(sha: Bytes -> Digest, s: State) {
    forall f :: f in s.t.finals ==> FinalOk(sha, s, f)
  }

  ghost predicate OneShotsOk(sha: Bytes -> Digest, s: State) {
    forall f :: f in s.oneshots ==> OneShotOk(sha, s, f, s.oneshots[f])
  }

  ghost predicate Pinned(sha: Bytes -> Digest, s: State) {
    SessionsOk(s) && StagesOk(sha, s) && RowsOk(s) && FinalsOk(sha, s) && OneShotsOk(sha, s)
  }

  /** The file of every ready row is on disk unless the disk lost it, and so is the file of a commit about to finish. */
  ghost predicate Present(s: State) {
    && (forall f :: f in s.t.registry && s.t.registry[f].ready ==> f in s.t.finals || f in s.lost)
    && (forall c :: c in s.commits && s.commits[c].Linked? ==>
          var k := s.commits[c].snap;
          k.upload in s.t.sessions && s.t.sessions[k.upload].phase != Committed ==> k.fileId in s.t.finals || k.fileId in s.lost)
  }

  ghost predicate Inv(sha: Bytes -> Digest, s: State) {
    Conserved(s.t) && Pinned(sha, s) && Present(s)
  }

  // ---------- Conservation, step by step ----------

  lemma AccountConserves(clamp: bool, s: State, a: AccountAction)
    requires Conserved(s.t)
    ensures Conserved(AccountStep(clamp, s, a).t) && AccountStep(clamp, s, a) == AccountStep(false, s, a)
  {
    match a
    case SignUp(u) => RegisterConserves(s.t, u);
    case SignOff(u) => DeregisterConserves(s.t, u, clamp);
    case ResetAccount(u) => RemoveUserFilesConserves(s.t, u, clamp);
  }

  lemma UploadConserves(sha: Bytes -> Digest, clamp: bool, s: State, a: UploadAction)
    requires Conserved(s.t)
    ensures Conserved(UploadStep(sha, clamp, s, a).t) && UploadStep(sha, clamp, s, a) == UploadStep(sha, false, s, a)
  {
    match a
    case OpenUpload(u, request, size, count, digest, limit, id) =>
      CreateConserves(s.t, u, request, size, count, digest, limit, id, s.now);
    case PutChunk(u, up, index, data, meta, startedAt) =>
      PutConserves(sha, s.t, u, up, index, data, meta, startedAt, s.now);
    case Inspect(up) => HealConserves(s.t, up);
    case CancelUpload(u, up) => CancelConserves(s.t, u, up, clamp);
    case ExpireUploads => DropSessionsConserves(s.t, ExpiredAt(s.t, s.now), clamp);
  }

  lemma TakeConserves(s: State, c: nat)
    requires Conserved(s.t)
    ensures Conserved(Take(s, c).t)
  {
    hide Conserved;
    if c in s.commits && CanClaim(s.t, s.commits[c].snap) {
      ClaimConserves(s.t, s.commits[c].snap, s.now);
    }
  }

  lemma ReadPartKeeps(sha: Bytes -> Digest, s: State, c: nat)
    ensures ReadPart(sha, s, c).t == s.t
  {
    hide Passes;
  }

  lemma LinkUpConserves(sha: Bytes -> Digest, s: State, c: nat)
    requires Conserved(s.t)
    ensures Conserved(LinkUp(sha, s, c).t)
  {
    hide Conserved, CanLink, Link, MetaOf, Concat;
    if LinkUp(sha, s, c).t != s.t {
      LinkConserves(s.t, s.commits[c].snap.fileId, Concat(s.commits[c].chunks));
    }
  }

  lemma CommitConserves(sha: Bytes -> Digest, s: State, a: CommitAction)
    requires Conserved(s.t) && Pinned(sha, s)
    ensures Conserved(CommitStep(sha, s, a).t)
  {
    hide Pinned, Conserved, Take, ReadPart, LinkUp, Finish, Reset;
    match a
    case ReadCommit(c, u, up, digest, entries, newFile) =>
    case ClaimCommit(c) => TakeConserves(s, c);
    case ReadChunk(c) => ReadPartKeeps(sha, s, c);
    case LinkCommit(c) => LinkUpConserves(sha, s, c);
    case FinishCommit(c) => FinishStepConserves(sha, s, c);
    case ResetCommit(c) =>
      if c in s.commits {
        ResetConserves(s.t, s.commits[c].snap, s.now);
      }
    case DropCommit(c) =>
  }

  lemma FileConserves(sha: Bytes -> Digest, clamp: bool, s: State, a: FileAction)
    requires Conserved(s.t) && Pinned(sha, s)
    ensures Conserved(FileStep(sha, clamp, s, a).t) && FileStep(sha, clamp, s, a) == FileStep(sha, false, s, a)
  {
    hide Pinned, Conserved;
    match a
    case ReserveFile(u, f, data, limit) => ReserveStepConserves(sha, s.t, u, f, data, limit, s.now);
    case PublishFile(f) =>
      if f in s.oneshots {
        PublishConserves(s.t, f, s.oneshots[f].data);
      }
    case RollbackFile(f) => RollbackStepConserves(sha, s, f, clamp);
    case DeleteFile(u, f) => DeleteConserves(s.t, u, f);
    case GetFile(u, f) => DropStepConserves(s.t, f, clamp);
    case GetFileByToken(f) => DropStepConserves(s.t, f, clamp);
    case CleanUp => CleanFilesConserves(s.t, s.now, clamp);
  }

  lemma StepConserves(sha: Bytes -> Digest, clamp: bool, s: State, a: Action)
    requires Conserved(s.t) && Pinned(sha, s)
    ensures Conserved(Step(sha, clamp, s, a).t)
    ensures Step(sha, clamp, s, a) == Step(sha, false, s, a)
  {
    hide AccountStep, UploadStep, CommitStep, FileStep, DiskStep, Pinned, Conserved;
    match a
    case Tick(d) =>
    case Account(b) => AccountConserves(clamp, s, b);
    case Upload(b) => UploadConserves(sha, clamp, s, b);
    case Commit(b) => CommitConserves(sha, s, b);
    case File(b) => FileConserves(sha, clamp, s, b);
    case Disk(b) => DiskConserves(s, b);
  }

  lemma DiskConserves(s: State, a: DiskAction)
    requires Conserved(s.t)
    ensures Conserved(DiskStep(s, a).t)
  {
  }

  lemma RollbackStepConserves(sha: Bytes -> Digest, s: State, f: FileId, clamp: bool)
    requires Conserved(s.t) && Pinned(sha, s)
    ensures f in s.oneshots ==>
              var o := s.oneshots[f];
              && Conserved(Rollback(s.t, f, o.owner, |o.data|, clamp))
              && Rollback(s.t, f, o.owner, |o.data|, clamp) == Rollback(s.t, f, o.owner, |o.data|, false)
  {
    if f in s.oneshots {
      assert OneShotOk(sha, s, f, s.oneshots[f]);
      RollbackConserves(s.t, f, s.oneshots[f].owner, |s.oneshots[f].data|, clamp);
    }
  }

  lemma FinishStepConserves(sha: Bytes -> Digest, s: State, c: nat)
    requires Conserved(s.t) && Pinned(sha, s)
    ensures c in s.commits && s.commits[c].Linked? ==>
              Conserved(Finish(s.t, s.commits[c].snap, |Concat(s.commits[c].chunks)|, s.now).0)
  {
    if c in s.commits && s.commits[c].Linked? {
      assert StageOk(sha, s, s.commits[c]);
      FinishConserves(s.t, s.commits[c].snap, |Concat(s.commits[c].chunks)|, s.now);
    }
  }
}
