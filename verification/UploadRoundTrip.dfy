/** The whole way of a file through the server: opened, its chunks put in any
    order, some of them more than once, committed, downloaded. */
module UploadRoundTrip {
  import opened Wrappers
  import opened Container
  import opened Ledger
  import opened Sorting
  import opened Uploads
  import opened UploadRuns
  import opened UploadInvariant
  import opened UploadTheorems
  import opened UploadReports
  import opened UploadContent
  import opened Replies
  import opened UploadOutcomes
  import opened CommitOutcomes
  import opened FileOutcomes

  /** What the client sends: to which upload, and the file's chunks. */
  datatype Plan = Plan(u: UserId, request: string, up: UploadId, chunks: seq<Bytes>, file: FileId, c: nat)

  function WholeSize(p: Plan): nat {
    |Concat(p.chunks)|
  }

  ghost function Opening(sha: Bytes -> Digest, p: Plan, limit: int): UploadAction {
    OpenUpload(p.u, p.request, WholeSize(p), |p.chunks|, sha(Concat(p.chunks)), limit, p.up)
  }

  ghost function Putting(sha: Bytes -> Digest, p: Plan, i: nat, now: Time): UploadAction
    requires i < |p.chunks|
  {
    PutChunk(p.u, p.up, i, p.chunks[i], MetaOf(sha, p.chunks[i]), now)
  }

  ghost function EntriesOf(sha: Bytes -> Digest, chunks: seq<Bytes>): seq<Entry> {
    seq(|chunks|, i requires 0 <= i < |chunks| => Entry(i, |chunks[i]|, sha(chunks[i])))
  }

  ghost function CommitOf(sha: Bytes -> Digest, p: Plan): CommitAction {
    ReadCommit(p.c, p.u, p.up, sha(Concat(p.chunks)), EntriesOf(sha, p.chunks), p.file)
  }

  /** The chunks with these indices, put one after the other. */
  ghost function PutAll(sha: Bytes -> Digest, s: State, p: Plan, order: seq<nat>): State
    requires forall k :: 0 <= k < |order| ==> order[k] < |p.chunks|
  {
    if order == [] then s
    else
      var before := PutAll(sha, s, p, order[..|order| - 1]);
      UploadStep(sha, false, before, Putting(sha, p, order[|order| - 1], before.now))
  }

  /** The state when all is done. */
  ghost function Through(sha: Bytes -> Digest, s: State, p: Plan, limit: int, order: seq<nat>): State
    requires forall k :: 0 <= k < |order| ==> order[k] < |p.chunks|
  {
    var s1 := UploadStep(sha, false, s, Opening(sha, p, limit));
    Undisturbed(sha, CommitStep(sha, PutAll(sha, s1, p, order), CommitOf(sha, p)), p.c, |p.chunks|)
  }

  /** The user has room for the file and another upload, and the identifiers drawn are new. */
  ghost predicate Room(s: State, p: Plan, limit: int) {
    && p.u in s.t.users && s.t.users[p.u] + WholeSize(p) <= limit && WholeSize(p) <= 2147483648 && |p.chunks| <= 8192
    && NoneAsked(s.t, p.u, p.request) && |Running(s.t, p.u, s.now)| < 8
    && p.up !in s.declared && p.up !in s.t.sessions && p.up !in s.t.chunks && p.up !in s.t.parts
    && p.file !in s.minted && p.c !in s.commits
  }

  // ---------- The upload while it is filled ----------

  /** The session as it was opened, with exactly these chunks stored. */
  ghost predicate Filled(sha: Bytes -> Digest, s: State, s': State, p: Plan, got: set<nat>) {
    && s'.now == s.now && s'.minted == s.minted && s'.commits == s.commits && s'.t.registry == s.t.registry
    && p.up in s'.t.sessions
    && s'.t.sessions[p.up] == Session(p.u, p.request, Pending, WholeSize(p), |p.chunks|, sha(Concat(p.chunks)), None, WholeSize(p),
                                      s.now, s.now + 86400)
    && (forall i :: i in got ==> i < |p.chunks|)
    && RowsOf(s'.t.chunks, p.up) == RowsFor(sha, p.chunks, got) && PartsOf(s'.t.parts, p.up) == PartsFor(p.chunks, got)
  }

  ghost function RowsFor(sha: Bytes -> Digest, chunks: seq<Bytes>, got: set<nat>): map<nat, Meta>
    requires forall i :: i in got ==> i < |chunks|
  {
    map i | i in got :: MetaOf(sha, chunks[i])
  }

  ghost function PartsFor(chunks: seq<Bytes>, got: set<nat>): map<nat, Bytes>
    requires forall i :: i in got ==> i < |chunks|
  {
    map i | i in got :: chunks[i]
  }

  predicate HexDigests(sha: Bytes -> Digest, p: Plan) {
    LowerHex(sha(Concat(p.chunks))) && forall i :: 0 <= i < |p.chunks| ==> LowerHex(sha(p.chunks[i]))
  }

  lemma OpensEmpty(sha: Bytes -> Digest, s: State, p: Plan, limit: int)
    requires Room(s, p, limit) && HexDigests(sha, p) && 0 < |p.chunks| <= WholeSize(p)
    ensures var s1 := UploadStep(sha, false, s, Opening(sha, p, limit));
            Filled(sha, s, s1, p, {})
  {
    AskedNone(s.t, p.u, p.request);
    HexIsLower(sha(Concat(p.chunks)));
    assert Running(s.t, p.u, s.now) == Active(s.t, p.u, s.now);
    hide HexDigest, LowerHex, Running, Active, NoneAsked, Uploads.Requested, Charge, WholeSize;
  }

  lemma StoresChunk(sha: Bytes -> Digest, t: Tables, u: UserId, up: UploadId, i: nat, data: Bytes, now: Time)
    requires HasSession(t, u, up) && t.sessions[up].phase == Pending && now < t.sessions[up].expiresAt && i < t.sessions[up].count
    requires LowerHex(sha(data)) && 0 < |data| <= 4194432
    requires i in PartsOf(t.parts, up) ==> PartsOf(t.parts, up)[i] == data
    requires i in RowsOf(t.chunks, up) ==> RowsOf(t.chunks, up)[i] == MetaOf(sha, data)
    ensures Put(sha, t, u, up, i, data, MetaOf(sha, data), now, now).0 ==
              t.(parts := t.parts[up := PartsOf(t.parts, up)[i := data]],
                 chunks := t.chunks[up := RowsOf(t.chunks, up)[i := MetaOf(sha, data)]],
                 sessions := t.sessions[up := t.sessions[up].(updatedAt := now)])
  {
    HexIsLower(sha(data));
    hide HexDigest, LowerHex;
    if i in PartsOf(t.parts, up) {
      assert PartsOf(t.parts, up)[i := data] == PartsOf(t.parts, up);
    }
  }

  lemma PutStepIs(sha: Bytes -> Digest, s: State, p: Plan, i: nat)
    requires i < |p.chunks|
    ensures UploadStep(sha, false, s, Putting(sha, p, i, s.now)) ==
              s.(t := Put(sha, s.t, p.u, p.up, i, p.chunks[i], MetaOf(sha, p.chunks[i]), s.now, s.now).0)
  {
    hide Put, MetaOf;
  }

  lemma PutFills(sha: Bytes -> Digest, s: State, s': State, p: Plan, got: set<nat>, i: nat)
    requires Filled(sha, s, s', p, got) && i < |p.chunks| && HexDigests(sha, p) && 0 < |p.chunks[i]| <= 4194432
    ensures Filled(sha, s, UploadStep(sha, false, s', Putting(sha, p, i, s'.now)), p, got + {i})
  {
    StoresChunk(sha, s'.t, p.u, p.up, i, p.chunks[i], s'.now);
    PutStepIs(sha, s', p, i);
    hide UploadStep;
    assert RowsFor(sha, p.chunks, got + {i}) == RowsFor(sha, p.chunks, got)[i := MetaOf(sha, p.chunks[i])];
    assert PartsFor(p.chunks, got + {i}) == PartsFor(p.chunks, got)[i := p.chunks[i]];
    hide LowerHex, WholeSize, Concat, Put, MetaOf, RowsFor, PartsFor;
  }

  lemma {:induction false} AllFilled(sha: Bytes -> Digest, s: State, s1: State, p: Plan, order: seq<nat>)
    requires forall k :: 0 <= k < |order| ==> order[k] < |p.chunks|
    requires Filled(sha, s, s1, p, {}) && Pinned(sha, s1) && HexDigests(sha, p) && Accepted(p.chunks)
    ensures Filled(sha, s, PutAll(sha, s1, p, order), p, Members(order))
    ensures Pinned(sha, PutAll(sha, s1, p, order))
  {
    hide Pinned, UploadStep, Filled, Accepted, HexDigests, MetaOf;
    if order == [] {
      assert Members(order) == {} && PutAll(sha, s1, p, order) == s1;
    } else {
      var before, i := order[..|order| - 1], order[|order| - 1];
      AllFilled(sha, s, s1, p, before);
      var s2 := PutAll(sha, s1, p, before);
      AcceptedSize(p.chunks, i);
      PutFills(sha, s, s2, p, Members(before), i);
      UploadPinned(sha, s2, Putting(sha, p, i, s2.now));
      assert order == before + [i];
      MembersSnoc(before, i);
      assert PutAll(sha, s1, p, order) == UploadStep(sha, false, s2, Putting(sha, p, i, s2.now));
    }
  }

  // ---------- The commit ----------

  lemma EntriesGood(sha: Bytes -> Digest, p: Plan)
    requires Accepted(p.chunks) && HexDigests(sha, p)
    ensures GoodManifest(EntriesOf(sha, p.chunks), |p.chunks|)
  {
    forall i | 0 <= i < |p.chunks| ensures 0 < |p.chunks[i]| <= 4194432 {
      AcceptedSize(p.chunks, i);
    }
    hide Accepted, LowerHex;
  }

  lemma RowsAreListed(sha: Bytes -> Digest, chunks: seq<Bytes>, rows: map<nat, Meta>)
    requires (forall i :: i in rows ==> i < |chunks|) && forall i :: i in rows ==> rows[i] == MetaOf(sha, chunks[i])
    ensures RowsListed(rows, EntriesOf(sha, chunks))
  {
    var entries := EntriesOf(sha, chunks);
    forall i | i in rows ensures exists k :: 0 <= k < |entries| && Lists(entries[k], i, rows[i]) {
      assert Lists(entries[i], i, rows[i]);
    }
  }

  lemma {:induction false} SizesJoin(sha: Bytes -> Digest, chunks: seq<Bytes>, rows: map<nat, Meta>, n: nat)
    requires n <= |chunks| && forall i :: 0 <= i < n ==> i in rows && rows[i] == MetaOf(sha, chunks[i])
    ensures SizeUpTo(rows, n) == |Concat(chunks[..n])|
  {
    if n > 0 {
      SizesJoin(sha, chunks, rows, n - 1);
      ConcatSnoc(chunks, n - 1);
    }
  }

  lemma AllIndices(order: seq<nat>, n: nat)
    requires (forall k :: 0 <= k < |order| ==> order[k] < n) && forall i: nat :: i < n ==> i in order
    ensures Members(order) == Upto(n)
  {
  }

  lemma RowsComplete(sha: Bytes -> Digest, chunks: seq<Bytes>, rows: map<nat, Meta>)
    requires rows == RowsFor(sha, chunks, Upto(|chunks|))
    ensures |rows| == |chunks| && AddUp(rows, |chunks|, |Concat(chunks)|) && RowsListed(rows, EntriesOf(sha, chunks))
  {
    assert rows.Keys == Upto(|chunks|);
    assert |rows| == |rows.Keys|;
    hide Concat, MetaOf;
    RowsAreListed(sha, chunks, rows);
    SizesJoin(sha, chunks, rows, |chunks|);
    assert chunks[..|chunks|] == chunks;
  }

  lemma PartsComplete(chunks: seq<Bytes>, parts: map<nat, Bytes>)
    requires parts == PartsFor(chunks, Upto(|chunks|))
    ensures forall i :: 0 <= i < |chunks| ==> i in parts && parts[i] == chunks[i]
    ensures PartList(parts, |chunks|) == chunks
  {
  }

  /** The filled upload is ready to be committed. */
  lemma ReadsReady(sha: Bytes -> Digest, s: State, s2: State, p: Plan)
    requires Filled(sha, s, s2, p, Upto(|p.chunks|)) && Accepted(p.chunks) && HexDigests(sha, p)
    ensures var b := BeginRead(s2.t, p.u, p.up, sha(Concat(p.chunks)), EntriesOf(sha, p.chunks), p.file, s2.now);
            b.Ready? && b.snap == Snap(p.up, p.u, s2.t.sessions[p.up], RowsOf(s2.t.chunks, p.up), false, p.file)
  {
    RowsComplete(sha, p.chunks, RowsOf(s2.t.chunks, p.up));
    EntriesGood(sha, p);
    ReadChecks(s2.t, p.u, p.up, sha(Concat(p.chunks)), EntriesOf(sha, p.chunks), p.file, s2.now);
    ReadOutcome(s2.t, p.u, p.up, sha(Concat(p.chunks)), EntriesOf(sha, p.chunks), p.file, s2.now);
    hide BeginRead, LowerHex, Concat, RowsOf, PartsOf, GoodManifest, RowsListed, AddUp, Accepted;
  }

  lemma ReadStep(sha: Bytes -> Digest, s: State, p: Plan, k: Snap)
    requires p.c !in s.commits && p.file !in s.minted && k.fileId == p.file
    requires BeginRead(s.t, p.u, p.up, sha(Concat(p.chunks)), EntriesOf(sha, p.chunks), p.file, s.now) == Ready(k)
    ensures CommitStep(sha, s, CommitOf(sha, p)) ==
              s.(commits := s.commits[p.c := Reading(k)], minted := s.minted[p.file := Some(p.up)])
  {
    hide BeginRead, Concat;
  }

  lemma ChunksAssemble(sha: Bytes -> Digest, s: State, s2: State, p: Plan, k: Snap)
    requires Filled(sha, s, s2, p, Upto(|p.chunks|)) && Accepted(p.chunks)
    requires k == Snap(p.up, p.u, s2.t.sessions[p.up], RowsOf(s2.t.chunks, p.up), false, p.file)
    ensures Assembles(sha, PartsOf(s2.t.parts, p.up), k)
    ensures PartList(PartsOf(s2.t.parts, p.up), |p.chunks|) == p.chunks
  {
    var parts := PartsOf(s2.t.parts, p.up);
    PartsComplete(p.chunks, parts);
    assert forall i :: 0 <= i < |p.chunks| ==> i in k.manifest && k.manifest[i] == MetaOf(sha, p.chunks[i]);
    hide Accepted, Concat, Filled;
    AssemblesExactly(sha, parts, k);
  }

  lemma FreshFile(sha: Bytes -> Digest, s: State, f: FileId)
    requires Pinned(sha, s) && f !in s.minted
    ensures f !in s.t.finals
  {
    assert f in s.t.finals ==> FinalOk(sha, s, f);
  }

  /** The handler stands ready to claim, and the chunks it will find assemble. */
  ghost predicate Poised(sha: Bytes -> Digest, s: State, p: Plan, k: Snap, now: Time) {
    && Pinned(sha, s) && s.now == now && p.c in s.commits && s.commits[p.c] == Reading(k) && CanClaim(s.t, k)
    && k.upload == p.up && k.owner == p.u && k.fileId == p.file && p.file !in s.t.finals
    && k.row.size == WholeSize(p) && k.row.count == |p.chunks| && k.row.digest == sha(Concat(p.chunks))
    && Assembles(sha, PartsOf(s.t.parts, p.up), k) && PartList(PartsOf(s.t.parts, p.up), |p.chunks|) == p.chunks
  }

  lemma GetsPoised(sha: Bytes -> Digest, s: State, s2: State, p: Plan)
    requires Filled(sha, s, s2, p, Upto(|p.chunks|)) && Pinned(sha, s2) && Accepted(p.chunks) && HexDigests(sha, p)
    requires p.c !in s2.commits && p.file !in s2.minted
    ensures Poised(sha, CommitStep(sha, s2, CommitOf(sha, p)), p,
              Snap(p.up, p.u, s2.t.sessions[p.up], RowsOf(s2.t.chunks, p.up), false, p.file), s.now)
  {
    var k := Snap(p.up, p.u, s2.t.sessions[p.up], RowsOf(s2.t.chunks, p.up), false, p.file);
    ReadsReady(sha, s, s2, p);
    ReadStep(sha, s2, p, k);
    CommitPinned(sha, s2, CommitOf(sha, p));
    ChunksAssemble(sha, s, s2, p, k);
    FreshFile(sha, s2, p.file);
    hide Pinned, CommitStep, Assembles, PartList, Concat, Accepted, HexDigests, RowsOf, PartsOf, BeginRead, CommitOf;
  }

  /** The commit of the filled upload registers the file. */
  lemma Commits(sha: Bytes -> Digest, s: State, p: Plan, k: Snap, now: Time)
    requires Poised(sha, s, p, k, now)
    ensures var s' := Undisturbed(sha, s, p.c, |p.chunks|);
            && p.up in s'.t.sessions && s'.t.sessions[p.up].phase == Committed
            && p.file in s'.t.registry && p.file in s'.t.finals && s'.t.finals[p.file] == Concat(p.chunks)
            && s'.t.registry[p.file] == FileRow(p.u, WholeSize(p), true, now, now + 259200, sha(Concat(p.chunks)))
  {
    hide Pinned, Undisturbed, Assembles, PartList, Concat, PartsOf, NoCollision, CanClaim, MetaOf;
    CommitOutcome(sha, s, p.c);
  }

  lemma StillNew(sha: Bytes -> Digest, s: State, s2: State, p: Plan, limit: int, got: set<nat>)
    requires Room(s, p, limit) && Filled(sha, s, s2, p, got)
    ensures p.c !in s2.commits && p.file !in s2.minted && p.up in s2.t.sessions
  {
  }

  lemma ThroughIs(sha: Bytes -> Digest, s: State, p: Plan, limit: int, order: seq<nat>, s1: State, s2: State)
    requires forall k :: 0 <= k < |order| ==> order[k] < |p.chunks|
    requires s1 == UploadStep(sha, false, s, Opening(sha, p, limit)) && s2 == PutAll(sha, s1, p, order)
    ensures Through(sha, s, p, limit, order) == Undisturbed(sha, CommitStep(sha, s2, CommitOf(sha, p)), p.c, |p.chunks|)
  {
    hide UploadStep, PutAll, Undisturbed, CommitStep;
  }

  lemma InvPinned(sha: Bytes -> Digest, s: State)
    requires Inv(sha, s)
    ensures Pinned(sha, s)
  {
  }

  /** Opened, filled and committed, the chunks are registered as one file. */
  lemma Registered(sha: Bytes -> Digest, s: State, p: Plan, limit: int, order: seq<nat>)
    requires Inv(sha, s) && Accepted(p.chunks) && Room(s, p, limit) && HexDigests(sha, p)
    requires forall k :: 0 <= k < |order| ==> order[k] < |p.chunks|
    requires forall i: nat :: i < |p.chunks| ==> i in order
    ensures var s' := Through(sha, s, p, limit, order);
            && p.up in s'.t.sessions && s'.t.sessions[p.up].phase == Committed
            && p.file in s'.t.registry && p.file in s'.t.finals && s'.t.finals[p.file] == Concat(p.chunks)
            && s'.t.registry[p.file] == FileRow(p.u, WholeSize(p), true, s.now, s.now + 259200, sha(Concat(p.chunks)))
  {
    hide *;
    var s1 := UploadStep(sha, false, s, Opening(sha, p, limit));
    InvPinned(sha, s);
    Sized(p);
    OpensEmpty(sha, s, p, limit);
    UploadPinned(sha, s, Opening(sha, p, limit));
    AllFilled(sha, s, s1, p, order);
    AllIndices(order, |p.chunks|);
    var s2 := PutAll(sha, s1, p, order);
    StillNew(sha, s, s2, p, limit, Upto(|p.chunks|));
    GetsPoised(sha, s, s2, p);
    ThroughIs(sha, s, p, limit, order, s1, s2);
    var k := Snap(p.up, p.u, s2.t.sessions[p.up], RowsOf(s2.t.chunks, p.up), false, p.file);
    Commits(sha, CommitStep(sha, s2, CommitOf(sha, p)), p, k, s.now);
  }

  lemma Sized(p: Plan)
    requires Accepted(p.chunks)
    ensures 0 < |p.chunks| <= WholeSize(p)
  {
    SizeFixesLayout(p.chunks);
    hide Concat;
  }

  /** The round trip. Whoever has room for a legal file, opens an upload for it, puts its chunks in any order, some of them
      perhaps again, and commits, finds it registered with its size and digest, downloads the bytes that were split, and reads
      from them exactly the file. */
  lemma RoundTrip(sha: Bytes -> Digest, s: State, p: Plan, f: Container.File, limit: int, order: seq<nat>)
    requires Inv(sha, s) && Legal(f) && p.chunks == Chunks(f) && Room(s, p, limit) && HexDigests(sha, p)
    requires forall k :: 0 <= k < |order| ==> order[k] < |p.chunks|
    requires forall i: nat :: i < |p.chunks| ==> i in order
    ensures var s' := Through(sha, s, p, limit, order);
            && p.file in s'.t.registry
            && s'.t.registry[p.file] == FileRow(p.u, WholeSize(p), true, s.now, s.now + 259200, sha(Concat(p.chunks)))
            && DownloadBySession(s'.t, p.u, p.file, s.now, true) == (s'.t, Done)
            && p.file in s'.t.finals && Parse(s'.t.finals[p.file]) == Some(f)
  {
    FileOfChunks(f);
    ParseOfConcat(f);
    hide Room, Legal, Inv, Parse, Through, Concat, Chunks, HexDigests, Accepted, DownloadBySession;
    Registered(sha, s, p, limit, order);
    var s' := Through(sha, s, p, limit, order);
    SessionOutcome(s'.t, p.u, p.file, s.now, true);
  }
}
