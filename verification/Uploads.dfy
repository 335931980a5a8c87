/** The upload tables and, one function per committed transaction, what each
    handler does to them. A file is its bytes; the SHA-256 digest is the
    function parameter `sha`, about which nothing is assumed here. */
module Uploads {
  import opened Wrappers
  import opened Container
  import opened Ledger
  import opened Sorting

  type UploadId = string
  type FileId = string
  type Digest = string
  type Time = int

  const MAX_FILE: nat := 2 * 1024 * 1024 * 1024
  const MAX_CHUNKS: nat := 8192
  const MAX_SESSIONS: nat := 8
  const SESSION_TTL: nat := 24 * 3600
  const COMMIT_LEASE: nat := 5 * 60
  const RETENTION: nat := 3 * 24 * 3600
  const PENDING_MAX_AGE: nat := 6 * 3600

  datatype Phase = Pending | Committing | Committed

  datatype Meta = Meta(size: nat, digest: Digest)

  datatype Session = Session(
    owner: UserId, request: string, phase: Phase, size: nat, count: nat, digest: Digest,
    fileId: Option<FileId>, reserved: nat, updatedAt: Time, expiresAt: Time)

  datatype FileRow = FileRow(
    owner: UserId, size: nat, ready: bool, uploadedAt: Time, expiresAt: Time, digest: Digest)

  /** The users, session, chunk and registry tables, the chunk files of each
      session directory, and the finished files. */
  datatype Tables = Tables(
    users: map<UserId, int>,
    sessions: map<UploadId, Session>,
    chunks: map<UploadId, map<nat, Meta>>,
    registry: map<FileId, FileRow>,
    parts: map<UploadId, map<nat, Bytes>>,
    finals: map<FileId, Bytes>)

  datatype Reply = Done | Http(code: int)

  function RowsOf(chunks: map<UploadId, map<nat, Meta>>, up: UploadId): map<nat, Meta> {
    if up in chunks then chunks[up] else map[]
  }

  function PartsOf(parts: map<UploadId, map<nat, Bytes>>, up: UploadId): map<nat, Bytes> {
    if up in parts then parts[up] else map[]
  }

  function MetaOf(sha: Bytes -> Digest, data: Bytes): Meta {
    Meta(|data|, sha(data))
  }

  ghost function Reservations(sessions: map<UploadId, Session>): map<UploadId, Debt> {
    map id | id in sessions && sessions[id].phase != Committed :: Debt(sessions[id].owner, sessions[id].reserved)
  }

  ghost function Holdings(registry: map<FileId, FileRow>): map<FileId, Debt> {
    map f | f in registry :: Debt(registry[f].owner, registry[f].size)
  }

  /** Exact storage conservation: every counter is the sum of its owner's rows. */
  ghost predicate Conserved(t: Tables) {
    Balanced(t.users, Reservations(t.sessions), Holdings(t.registry))
  }

  predicate HexDigest(d: Digest) {
    |d| == 64 && forall i :: 0 <= i < |d| ==> '0' <= d[i] <= '9' || 'a' <= d[i] <= 'f'
  }

  predicate Owns(t: Tables, u: UserId, up: UploadId) {
    up in t.sessions && t.sessions[up].owner == u
  }

  /** The UNIQUE(owner_id, client_request_id) constraint. */
  predicate UniqueRequests(t: Tables) {
    forall a, b :: a in t.sessions && b in t.sessions && a != b ==>
      t.sessions[a].owner != t.sessions[b].owner || t.sessions[a].request != t.sessions[b].request
  }

  // ---------- Sessions ----------

  function Requested(t: Tables, u: UserId, request: string): set<UploadId> {
    set id | id in t.sessions && t.sessions[id].owner == u && t.sessions[id].request == request
  }

  function Active(t: Tables, u: UserId, now: Time): set<UploadId> {
    set id | id in t.sessions && t.sessions[id].owner == u && t.sessions[id].phase != Committed && t.sessions[id].expiresAt > now
  }

  predicate SameManifest(s: Session, size: int, count: int, digest: Digest) {
    s.size == size && s.count == count && s.digest == digest
  }

  function Create(t: Tables, u: UserId, request: string, size: int, count: int, digest: Digest,
                  limit: int, id: UploadId, now: Time): (Tables, Reply) {
    if !HexDigest(digest) then (t, Http(400))
    else if size <= 0 || size > MAX_FILE then (t, Http(413))
    else if count <= 0 || count > MAX_CHUNKS then (t, Http(400))
    else if count > size then (t, Http(400))
    else if u !in t.users then (t, Http(401))
    else if Requested(t, u, request) != {} then
      if forall e :: e in Requested(t, u, request) ==> SameManifest(t.sessions[e], size, count, digest) then (t, Done)
      else (t, Http(409))
    else if |Active(t, u, now)| >= MAX_SESSIONS then (t, Http(429))
    else if t.users[u] + size > limit then (t, Http(413))
    else if id in t.sessions then (t, Http(500))
    else
      var row := Session(u, request, Pending, size, count, digest, None, size, now, now + SESSION_TTL);
      (t.(sessions := t.sessions[id := row], users := Charge(t.users, u, size)), Done)
  }

  function Put(sha: Bytes -> Digest, t: Tables, u: UserId, up: UploadId, index: int, data: Bytes,
               declared: Meta, startedAt: Time, now: Time): (Tables, Reply) {
    if !HexDigest(declared.digest) then (t, Http(400))
    else if declared.size <= 0 || declared.size > MAX_CHUNK then (t, Http(413))
    else if !Owns(t, u, up) then (t, Http(404))
    else if t.sessions[up].phase != Pending then (t, Http(409))
    else if t.sessions[up].expiresAt <= startedAt then (t, Http(410))
    else if index < 0 || index >= t.sessions[up].count then (t, Http(400))
    else if |data| > declared.size then (t, Http(413))
    else if MetaOf(sha, data) != declared then (t, Http(400))
    else
      var parts, rows := PartsOf(t.parts, up), RowsOf(t.chunks, up);
      if index in parts && MetaOf(sha, parts[index]) != declared then (t, Http(409))
      else if index in rows && rows[index] != declared then (t, Http(409))
      else
        (t.(parts := t.parts[up := if index in parts then parts else parts[index := data]],
            chunks := t.chunks[up := rows[index := declared]],
            sessions := t.sessions[up := t.sessions[up].(updatedAt := now)]),
         Done)
  }

  /** Rows whose chunk file is missing or has another size. */
  function Broken(t: Tables, up: UploadId): set<nat> {
    set i | i in RowsOf(t.chunks, up)
            && !(i in PartsOf(t.parts, up) && |PartsOf(t.parts, up)[i]| == RowsOf(t.chunks, up)[i].size)
  }

  /** The two lists of a report, as the report makes them. */
  ghost predicate Reported(t: Tables, up: UploadId, received: seq<nat>, missing: seq<nat>)
    requires up in t.sessions
  {
    && Ascending(received) && Ascending(missing)
    && (forall i :: i in received <==> i in RowsOf(t.chunks, up) && i !in Broken(t, up))
    && (forall i: nat :: i in missing <==> i < t.sessions[up].count && i !in received)
  }

  /** Reporting on a pending session drops its broken rows and what is left of their files. */
  function Heal(t: Tables, up: UploadId): Tables {
    if up !in t.sessions || t.sessions[up].phase != Pending || Broken(t, up) == {} then t
    else
      t.(chunks := t.chunks[up := RowsOf(t.chunks, up) - Broken(t, up)],
         parts := t.parts[up := PartsOf(t.parts, up) - Broken(t, up)])
  }

  ghost function UnlinkedWith(sessions: map<UploadId, Session>, gone: set<UploadId>): set<FileId> {
    set id | id in sessions && id in gone && sessions[id].phase != Committed && sessions[id].fileId.Some? :: sessions[id].fileId.value
  }

  ghost function DropSessions(t: Tables, gone: set<UploadId>, clamp: bool): Tables {
    t.(users := Pay(t.users, Only(Reservations(t.sessions), gone), clamp),
       sessions := t.sessions - gone,
       chunks := t.chunks - gone,
       parts := t.parts - gone,
       finals := t.finals - UnlinkedWith(t.sessions, gone))
  }

  function ExpiredAt(t: Tables, now: Time): set<UploadId> {
    set id | id in t.sessions && t.sessions[id].expiresAt <= now
  }

  function OwnedBy(t: Tables, u: UserId): set<UploadId> {
    set id | id in t.sessions && t.sessions[id].owner == u
  }

  ghost function Expire(t: Tables, now: Time, clamp: bool): Tables {
    DropSessions(t, ExpiredAt(t, now), clamp)
  }

  ghost function Purge(t: Tables, u: UserId, clamp: bool): Tables {
    DropSessions(t, OwnedBy(t, u), clamp)
  }

  function Cancel(t: Tables, u: UserId, up: UploadId, clamp: bool): (Tables, Reply) {
    if !Owns(t, u, up) then (t, Http(404))
    else if t.sessions[up].phase == Committed then (t, Http(409))
    else
      (t.(users := Release(t.users, u, t.sessions[up].reserved, clamp),
          sessions := t.sessions - {up},
          chunks := t.chunks - {up},
          parts := t.parts - {up}),
       Done)
  }

  // ---------- Commit ----------

  datatype Entry = Entry(index: int, size: int, digest: Digest)

  predicate GoodEntry(e: Entry, count: nat, seen: map<nat, Meta>) {
    0 <= e.index < count && e.index !in seen && 0 < e.size <= MAX_CHUNK && HexDigest(e.digest)
  }

  /** The manifest dictionary built from the request, or None for a 400. */
  function Manifest(entries: seq<Entry>, count: nat): Option<map<nat, Meta>> {
    if entries == [] then Some(map[])
    else
      var last := entries[|entries| - 1];
      match Manifest(entries[..|entries| - 1], count)
      case None => None
      case Some(m) => if GoodEntry(last, count, m) then Some(m[last.index := Meta(last.size, last.digest)]) else None
  }

  function EntrySizes(entries: seq<Entry>): int {
    if entries == [] then 0 else EntrySizes(entries[..|entries| - 1]) + entries[|entries| - 1].size
  }

  /** What a commit handler remembers between its transactions. */
  datatype Snap = Snap(upload: UploadId, owner: UserId, row: Session, manifest: map<nat, Meta>, stale: bool, fileId: FileId)

  datatype Begin = Refused(code: int) | AlreadyCommitted | Ready(snap: Snap)

  predicate RowsMatch(rows: map<nat, Meta>, manifest: map<nat, Meta>) {
    forall i :: i in rows ==> i in manifest && manifest[i] == rows[i]
  }

  function BeginRead(t: Tables, u: UserId, up: UploadId, digest: Digest, entries: seq<Entry>, newFile: FileId, now: Time): Begin {
    if !HexDigest(digest) then Refused(400)
    else if !Owns(t, u, up) then Refused(404)
    else
      var row, rows := t.sessions[up], RowsOf(t.chunks, up);
      var stale := row.phase == Committing && row.updatedAt <= now - COMMIT_LEASE;
      if row.phase == Committed then AlreadyCommitted
      else if row.expiresAt <= now then Refused(410)
      else if row.digest != digest then Refused(409)
      else if row.phase == Committing && !stale then Refused(409)
      else if |entries| != row.count then Refused(409)
      else
        match Manifest(entries, row.count)
        case None => Refused(400)
        case Some(manifest) =>
          if |rows| != row.count then Refused(409)
          else if !RowsMatch(rows, manifest) then Refused(409)
          else if EntrySizes(entries) != row.size then Refused(409)
          else if row.phase == Committing && row.fileId == None then Refused(409)
          else Ready(Snap(up, u, row, manifest, stale, if row.fileId.Some? then row.fileId.value else newFile))
  }

  /** The compare-and-set that makes one handler the committer. */
  predicate CanClaim(t: Tables, c: Snap) {
    && Owns(t, c.owner, c.upload)
    && if c.stale then t.sessions[c.upload].phase == Committing && t.sessions[c.upload].updatedAt == c.row.updatedAt
       else t.sessions[c.upload].phase == Pending
  }

  function Claim(t: Tables, c: Snap, now: Time): Tables
    requires CanClaim(t, c)
  {
    t.(sessions := t.sessions[c.upload := t.sessions[c.upload].(phase := Committing, fileId := Some(c.fileId), updatedAt := now)])
  }

  /** The chunk files in index order. */
  function PartList(parts: map<nat, Bytes>, count: nat): seq<Bytes>
    requires forall i :: 0 <= i < count ==> i in parts
  {
    seq(count, i requires 0 <= i < count => parts[i])
  }

  /** What the assembly loop demands of the chunk file number i. */
  predicate Passes(sha: Bytes -> Digest, data: Bytes, i: nat, c: Snap) {
    Check(data, i, i == c.row.count - 1) == None && i in c.manifest && MetaOf(sha, data) == c.manifest[i]
  }

  /** The chunks the loop has read so far. */
  predicate Passed(sha: Bytes -> Digest, chunks: seq<Bytes>, c: Snap) {
    |chunks| <= c.row.count && forall i :: 0 <= i < |chunks| ==> Passes(sha, chunks[i], i, c)
  }

  predicate PartsPass(sha: Bytes -> Digest, parts: map<nat, Bytes>, c: Snap, upTo: nat) {
    forall i :: 0 <= i < upTo ==> i in parts && Passes(sha, parts[i], i, c)
  }

  /** Assembly succeeds exactly when every chunk file is present, well framed
      and as the manifest says, and the whole is what was declared. */
  ghost predicate Assembles(sha: Bytes -> Digest, parts: map<nat, Bytes>, c: Snap) {
    && PartsPass(sha, parts, c, c.row.count)
    && MetaOf(sha, Concat(PartList(parts, c.row.count))) == Meta(c.row.size, c.row.digest)
  }

  predicate CanLink(sha: Bytes -> Digest, t: Tables, f: FileId, data: Bytes) {
    f in t.finals ==> MetaOf(sha, t.finals[f]) == MetaOf(sha, data)
  }

  function Link(t: Tables, f: FileId, data: Bytes): Tables {
    if f in t.finals then t else t.(finals := t.finals[f := data])
  }

  function Finish(t: Tables, c: Snap, size: nat, now: Time): (Tables, Reply) {
    if !Owns(t, c.owner, c.upload) || t.sessions[c.upload].phase == Pending then (t, Http(500))
    else if t.sessions[c.upload].phase == Committed then (t.(parts := t.parts - {c.upload}), Done)
    else if c.fileId in t.registry then (t, Http(500))
    else
      (t.(registry := t.registry[c.fileId := FileRow(c.owner, size, true, now, now + RETENTION, c.row.digest)],
          sessions := t.sessions[c.upload := t.sessions[c.upload].(phase := Committed, updatedAt := now, expiresAt := now + RETENTION)],
          parts := t.parts - {c.upload}),
       Done)
  }

  /** After a 409: back to pending, forget the file id and every stored chunk. */
  function Reset(t: Tables, c: Snap, now: Time): Tables {
    if Owns(t, c.owner, c.upload) && t.sessions[c.upload].phase == Committing then
      t.(sessions := t.sessions[c.upload := t.sessions[c.upload].(phase := Pending, fileId := None, updatedAt := now)],
         chunks := t.chunks - {c.upload},
         parts := t.parts[c.upload := PartsOf(t.parts, c.upload) - (set i: nat | i in PartsOf(t.parts, c.upload) && i < c.row.count)])
    else t
  }

  // ---------- One-shot uploads, downloads, deletes, accounts ----------

  function Reserve(sha: Bytes -> Digest, t: Tables, u: UserId, f: FileId, data: Bytes, limit: int, now: Time): (Tables, Reply) {
    if |data| == 0 || |data| > MAX_FILE then (t, Http(413))
    else if u !in t.users then (t, Http(401))
    else if t.users[u] + |data| > limit then (t, Http(413))
    else if f in t.registry then (t, Http(500))
    else
      (t.(registry := t.registry[f := FileRow(u, |data|, false, now, now + RETENTION, sha(data))],
          users := Charge(t.users, u, |data|)),
       Done)
  }

  /** Moves the file into place and marks the row; if the row is gone, takes the file away again. */
  function Publish(t: Tables, f: FileId, data: Bytes): (Tables, Reply) {
    if f in t.registry && !t.registry[f].ready then
      (t.(finals := t.finals[f := data], registry := t.registry[f := t.registry[f].(ready := true)]), Done)
    else (t.(finals := t.finals - {f}), Http(500))
  }

  function Rollback(t: Tables, f: FileId, u: UserId, size: nat, clamp: bool): Tables {
    var t' := t.(finals := t.finals - {f});
    if f in t.registry && !t.registry[f].ready then
      t'.(registry := t.registry - {f}, users := Release(t.users, u, size, clamp))
    else t'
  }

  function DropFile(t: Tables, f: FileId, clamp: bool): Tables
    requires f in t.registry
  {
    t.(users := Release(t.users, t.registry[f].owner, t.registry[f].size, clamp), registry := t.registry - {f})
  }

  function Delete(t: Tables, u: UserId, f: FileId): (Tables, Reply) {
    if f !in t.registry || t.registry[f].owner != u then (t, Http(403))
    else (DropFile(t.(finals := t.finals - {f}), f, false), Done)
  }

  function DownloadByToken(t: Tables, f: FileId, now: Time, clamp: bool): (Tables, Reply) {
    if f !in t.registry || !t.registry[f].ready || t.registry[f].expiresAt <= now then (t, Http(403))
    else if f !in t.finals then (DropFile(t, f, clamp), Http(404))
    else (t, Done)
  }

  function DownloadBySession(t: Tables, u: UserId, f: FileId, now: Time, clamp: bool): (Tables, Reply) {
    if f !in t.registry || !t.registry[f].ready then (t, Http(404))
    else if t.registry[f].expiresAt <= now then (DropFile(t, f, clamp), Http(404))
    else if t.registry[f].owner != u then (t, Http(403))
    else if f !in t.finals then (DropFile(t, f, clamp), Http(404))
    else (t, Done)
  }

  ghost function DropFiles(t: Tables, fs: set<FileId>, clamp: bool): Tables {
    t.(users := Pay(t.users, Only(Holdings(t.registry), fs), clamp),
       registry := t.registry - fs,
       finals := t.finals - fs)
  }

  function StalePending(t: Tables, now: Time): set<FileId> {
    set f | f in t.registry && !t.registry[f].ready && t.registry[f].uploadedAt < now - PENDING_MAX_AGE
  }

  function ExpiredFiles(t: Tables, now: Time): set<FileId> {
    set f | f in t.registry && t.registry[f].expiresAt < now
  }

  /** The file part of the scheduled cleanup; its second loop has no MAX(0, ...). */
  ghost function CleanFiles(t: Tables, now: Time, clamp: bool): Tables {
    var t1 := DropFiles(t, StalePending(t, now), clamp);
    DropFiles(t1, ExpiredFiles(t1, now), false)
  }

  function FilesOf(t: Tables, u: UserId): set<FileId> {
    set f | f in t.registry && t.registry[f].owner == u
  }

  /** Account reset, after the purge: a user without files keeps the counter the purge left. */
  function RemoveFiles(t: Tables, u: UserId): Tables {
    var fs := FilesOf(t, u);
    if fs == {} then t
    else
      t.(registry := t.registry - fs,
         finals := t.finals - fs,
         users := if u in t.users then t.users[u := 0] else t.users)
  }

  ghost function RemoveUserFiles(t: Tables, u: UserId, clamp: bool): Tables {
    RemoveFiles(Purge(t, u, clamp), u)
  }

  function DropUser(t: Tables, u: UserId): Tables {
    t.(users := t.users - {u}, registry := t.registry - FilesOf(t, u), finals := t.finals - FilesOf(t, u))
  }

  ghost function Deregister(t: Tables, u: UserId, clamp: bool): Tables {
    if u !in t.users then t else DropUser(Purge(t, u, clamp), u)
  }

  function Register(t: Tables, u: UserId): Tables {
    if u in t.users then t else t.(users := t.users[u := 0])
  }
}
