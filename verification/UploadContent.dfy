/** What is in a committed file. A commit handler reads the chunk files one by one, while other handlers go on;
    still, every file it registers is the join, in index order, of bytes that were put and accepted. */
module UploadContent {
  import opened Wrappers
  import opened Container
  import opened Ledger
  import opened Uploads
  import opened UploadRuns
  import opened UploadInvariant
  import opened UploadTheorems
  import opened UploadReports
  import opened UploadFileIds

  // ---------- Chunk files and their rows ----------

  /** A chunk row or chunk file that a step adds is that of a put it accepts. */
  ghost predicate PutsAt(sha: Bytes -> Digest, s: State, a: Action, up: UploadId, i: nat) {
    && a.Upload? && a.upload.PutChunk? && a.upload.up == up && a.upload.index == i
    && Put(sha, s.t, a.upload.u, up, i, a.upload.data, a.upload.meta, a.upload.startedAt, s.now).1 == Done
  }

  lemma UploadAdds(sha: Bytes -> Digest, s: State, b: UploadAction, up: UploadId, i: nat)
    ensures var t, t' := s.t, UploadStep(sha, false, s, b).t;
            (i in RowsOf(t'.chunks, up) && i !in RowsOf(t.chunks, up)) || (i in PartsOf(t'.parts, up) && i !in PartsOf(t.parts, up)) ==>
              PutsAt(sha, s, Upload(b), up, i)
  {
    hide Pay, MetaOf, Charge, Release;
  }

  lemma Adds(sha: Bytes -> Digest, s: State, a: Action, up: UploadId, i: nat)
    ensures var t, t' := s.t, Step(sha, false, s, a).t;
            (i in RowsOf(t'.chunks, up) && i !in RowsOf(t.chunks, up)) || (i in PartsOf(t'.parts, up) && i !in PartsOf(t.parts, up)) ==>
              PutsAt(sha, s, a, up, i)
  {
    hide PutsAt, AccountStep, UploadStep, CommitStep, FileStep;
    match a
    case Account(b) => AccountChunks(s, b, up, i);
    case Upload(b) => UploadAdds(sha, s, b, up, i);
    case Commit(b) => CommitAdds(sha, s, b, up, i);
    case File(b) => FileMoves(sha, s, b);
    case _ =>
  }

  lemma CommitAdds(sha: Bytes -> Digest, s: State, b: CommitAction, up: UploadId, i: nat)
    ensures var t, t' := s.t, CommitStep(sha, s, b).t;
            && (i in RowsOf(t'.chunks, up) ==> i in RowsOf(t.chunks, up))
            && (i in PartsOf(t'.parts, up) ==> i in PartsOf(t.parts, up))
  {
    hide CommitStep;
    CommitChunks(sha, s, b, up, i);
  }

  lemma PutFits(sha: Bytes -> Digest, s: State, a: Action, up: UploadId, i: nat)
    requires PutsAt(sha, s, a, up, i)
    ensures var t, t' := s.t, Step(sha, false, s, a).t;
            && i in RowsOf(t'.chunks, up) && i in PartsOf(t'.parts, up)
            && MetaOf(sha, PartsOf(t'.parts, up)[i]) == RowsOf(t'.chunks, up)[i]
            && (i !in PartsOf(t.parts, up) ==> PartsOf(t'.parts, up)[i] == a.upload.data)
  {
  }

  ghost predicate PartFits(sha: Bytes -> Digest, t: Tables, up: UploadId, i: nat) {
    i in RowsOf(t.chunks, up) && i in PartsOf(t.parts, up) ==> MetaOf(sha, PartsOf(t.parts, up)[i]) == RowsOf(t.chunks, up)[i]
  }

  /** In every reachable state a chunk file has the size and digest of its row. */
  lemma {:induction false} PartFitsAt(sha: Bytes -> Digest, run: seq<Action>, n: nat, up: UploadId, i: nat)
    requires n <= |run|
    ensures PartFits(sha, At(sha, false, run, n).t, up, i)
  {
    if n > 0 {
      PartFitsAt(sha, run, n - 1, up, i);
      hide Step, MetaOf, PutsAt, RowsOf, PartsOf;
      var s, a := At(sha, false, run, n - 1), run[n - 1];
      Adds(sha, s, a, up, i);
      ChunkRowsMove(sha, s, a, up, i);
      if PutsAt(sha, s, a, up, i) {
        PutFits(sha, s, a, up, i);
      }
    }
  }

  /** The bytes were put for this index by an accepted put before step k. */
  ghost predicate FromPut(sha: Bytes -> Digest, run: seq<Action>, k: nat, up: UploadId, i: nat, data: Bytes)
    requires k <= |run|
  {
    exists j :: 0 <= j < k && Accepts(sha, run, j, up, i) && run[j].upload.data == data
  }

  lemma FromPutLater(sha: Bytes -> Digest, run: seq<Action>, j: nat, k: nat, up: UploadId, i: nat, data: Bytes)
    requires j <= k <= |run| && FromPut(sha, run, j, up, i, data)
    ensures FromPut(sha, run, k, up, i, data)
  {
    hide Accepts;
  }

  lemma {:induction false} PartFromPut(sha: Bytes -> Digest, run: seq<Action>, n: nat, up: UploadId, i: nat)
    requires n <= |run| && i in PartsOf(At(sha, false, run, n).t.parts, up)
    ensures FromPut(sha, run, n, up, i, PartsOf(At(sha, false, run, n).t.parts, up)[i])
  {
    if n > 0 {
      hide Step, PutsAt, PartsOf;
      var s, a := At(sha, false, run, n - 1), run[n - 1];
      Adds(sha, s, a, up, i);
      ChunkRowsMove(sha, s, a, up, i);
      if i in PartsOf(s.t.parts, up) {
        PartFromPut(sha, run, n - 1, up, i);
        FromPutLater(sha, run, n - 1, n, up, i, PartsOf(s.t.parts, up)[i]);
      } else {
        PutFits(sha, s, a, up, i);
        PutAccepts(sha, run, n - 1, up, i);
      }
    }
  }

  lemma PutAccepts(sha: Bytes -> Digest, run: seq<Action>, k: nat, up: UploadId, i: nat)
    requires k < |run| && PutsAt(sha, At(sha, false, run, k), run[k], up, i)
    ensures Accepts(sha, run, k, up, i)
  {
  }

  // ---------- What a handler has read ----------

  /** Handler c read its session at step q and has been under way ever since, up to step n. */
  ghost predicate Begun(sha: Bytes -> Digest, run: seq<Action>, q: nat, n: nat, c: nat)
    requires q < n <= |run|
  {
    && run[q].Commit? && run[q].commit.ReadCommit? && run[q].commit.c == c && c !in At(sha, false, run, q).commits
    && (forall m :: q < m <= n ==> c in At(sha, false, run, m).commits)
    && At(sha, false, run, n).commits[c].snap == At(sha, false, run, q + 1).commits[c].snap
  }

  lemma StepStage(sha: Bytes -> Digest, s: State, a: Action, c: nat)
    requires c in Step(sha, false, s, a).commits
    ensures c in s.commits ==> StageKept(s, Step(sha, false, s, a), c)
    ensures c !in s.commits ==> a.Commit? && a.commit.ReadCommit? && a.commit.c == c
  {
    hide AccountStep, UploadStep, CommitStep, FileStep;
    if a.Commit? {
      if c in s.commits {
        CommitStages(sha, s, a.commit, c);
      } else {
        CommitNew(sha, s, a.commit, c);
      }
    } else if a.Upload? && (a.upload.PutChunk? || a.upload.OpenUpload?) {
      UploadCommits(sha, s, a.upload);
    } else {
      RestFewer(sha, s, a);
    }
  }

  lemma CommitNew(sha: Bytes -> Digest, s: State, b: CommitAction, c: nat)
    requires c !in s.commits && c in CommitStep(sha, s, b).commits
    ensures b.ReadCommit? && b.c == c
  {
    hide BeginRead, Finish, Reset, CanClaim, Claim, Passes, MetaOf, Concat, CanLink, Link;
  }

  lemma {:induction false} HasBegun(sha: Bytes -> Digest, run: seq<Action>, n: nat, c: nat)
    requires n <= |run| && c in At(sha, false, run, n).commits
    ensures exists q :: 0 <= q < n && Begun(sha, run, q, n, c)
  {
    if n > 0 {
      hide Step;
      StepStage(sha, At(sha, false, run, n - 1), run[n - 1], c);
      if c in At(sha, false, run, n - 1).commits {
        HasBegun(sha, run, n - 1, c);
        var q :| 0 <= q < n - 1 && Begun(sha, run, q, n - 1, c);
        assert Begun(sha, run, q, n, c);
      } else {
        assert Begun(sha, run, n - 1, n, c);
      }
    }
  }

  /** The manifest a handler remembers is exactly what was stored when it read the session. */
  lemma BegunManifest(sha: Bytes -> Digest, run: seq<Action>, q: nat, n: nat, c: nat)
    requires q < n <= |run| && Begun(sha, run, q, n, c)
    ensures var k := At(sha, false, run, n).commits[c].snap;
            k.manifest == RowsOf(At(sha, false, run, q).t.chunks, k.upload)
  {
    assert c in At(sha, false, run, q + 1).commits;
    var s, b := At(sha, false, run, q), run[q].commit;
    hide BeginRead;
    ReadyManifest(s.t, b.u, b.up, b.digest, b.entries, b.newFile, s.now);
    ReadyUpload(s.t, b.u, b.up, b.digest, b.entries, b.newFile, s.now);
  }

  lemma ReadyUpload(t: Tables, u: UserId, up: UploadId, digest: Digest, entries: seq<Entry>, file: FileId, now: Time)
    requires BeginRead(t, u, up, digest, entries, file, now).Ready?
    ensures BeginRead(t, u, up, digest, entries, file, now).snap.upload == up
  {
  }

  /** At step m handler c reads these bytes as chunk i. */
  ghost predicate ReadsAt(sha: Bytes -> Digest, run: seq<Action>, m: nat, c: nat, up: UploadId, i: nat, data: Bytes)
    requires m < |run|
  {
    && run[m] == Commit(ReadChunk(c))
    && i in PartsOf(At(sha, false, run, m).t.parts, up) && PartsOf(At(sha, false, run, m).t.parts, up)[i] == data
  }

  predicate HasChunks(g: Stage) {
    g.Owning? || g.Linked?
  }

  lemma StepChunkList(sha: Bytes -> Digest, s: State, a: Action, c: nat)
    requires c in s.commits && c in Step(sha, false, s, a).commits && HasChunks(Step(sha, false, s, a).commits[c])
    ensures var g, g' := s.commits[c], Step(sha, false, s, a).commits[c];
            || g'.chunks == []
            || (HasChunks(g) && g'.chunks == g.chunks)
            || (&& HasChunks(g) && a == Commit(ReadChunk(c)) && |g.chunks| in PartsOf(s.t.parts, g.snap.upload)
                && g'.chunks == g.chunks + [PartsOf(s.t.parts, g.snap.upload)[|g.chunks|]])
  {
    hide AccountStep, UploadStep, CommitStep, FileStep;
    if a.Commit? {
      CommitChunkList(sha, s, a.commit, c);
    } else if a.Upload? && (a.upload.PutChunk? || a.upload.OpenUpload?) {
      UploadCommits(sha, s, a.upload);
    } else {
      RestFewer(sha, s, a);
    }
  }

  lemma CommitChunkList(sha: Bytes -> Digest, s: State, b: CommitAction, c: nat)
    requires c in s.commits && c in CommitStep(sha, s, b).commits && HasChunks(CommitStep(sha, s, b).commits[c])
    ensures var g, g' := s.commits[c], CommitStep(sha, s, b).commits[c];
            || g'.chunks == []
            || (HasChunks(g) && g'.chunks == g.chunks)
            || (&& HasChunks(g) && b == ReadChunk(c) && |g.chunks| in PartsOf(s.t.parts, g.snap.upload)
                && g'.chunks == g.chunks + [PartsOf(s.t.parts, g.snap.upload)[|g.chunks|]])
  {
    hide BeginRead, Finish, Reset, CanClaim, Claim, Passes, MetaOf, Concat, CanLink, Link, PartsOf;
  }

  ghost predicate HoldsChunk(sha: Bytes -> Digest, run: seq<Action>, n: nat, c: nat, up: UploadId, i: nat, data: Bytes)
    requires n <= |run|
  {
    && c in At(sha, false, run, n).commits
    && var g := At(sha, false, run, n).commits[c];
       HasChunks(g) && g.snap.upload == up && i < |g.chunks| && g.chunks[i] == data
  }

  /** Every chunk a handler holds was read by one of its own steps, after it read the session. */
  lemma {:induction false} ChunksRead(sha: Bytes -> Digest, run: seq<Action>, q: nat, n: nat, c: nat, up: UploadId, i: nat, data: Bytes)
    requires q < n <= |run| && Begun(sha, run, q, n, c) && HoldsChunk(sha, run, n, c, up, i, data)
    ensures exists m :: q < m < n && ReadsAt(sha, run, m, c, up, i, data)
    decreases n
  {
    hide *;
    if n == q + 1 {
      FirstStage(sha, run, q, c, up, i, data);
    } else {
      ChunkStep(sha, run, q, n, c, up, i, data);
      if HoldsChunk(sha, run, n - 1, c, up, i, data) {
        ChunksRead(sha, run, q, n - 1, c, up, i, data);
        var m :| q < m < n - 1 && ReadsAt(sha, run, m, c, up, i, data);
        assert q < m < n;
      } else {
        assert q < n - 1 < n;
      }
    }
  }

  /** The chunk was there one step earlier, or this step read it. */
  lemma ChunkStep(sha: Bytes -> Digest, run: seq<Action>, q: nat, n: nat, c: nat, up: UploadId, i: nat, data: Bytes)
    requires q < n - 1 && n <= |run| && Begun(sha, run, q, n, c) && HoldsChunk(sha, run, n, c, up, i, data)
    ensures Begun(sha, run, q, n - 1, c)
    ensures ReadsAt(sha, run, n - 1, c, up, i, data) || HoldsChunk(sha, run, n - 1, c, up, i, data)
  {
    BegunBefore(sha, run, q, n, c);
    var s := At(sha, false, run, n - 1);
    assert c in s.commits && c in At(sha, false, run, n).commits;
    hide Step, Begun;
    StepChunkList(sha, s, run[n - 1], c);
  }

  lemma FirstStage(sha: Bytes -> Digest, run: seq<Action>, q: nat, c: nat, up: UploadId, i: nat, data: Bytes)
    requires q < |run| && Begun(sha, run, q, q + 1, c)
    ensures !HoldsChunk(sha, run, q + 1, c, up, i, data)
  {
    hide BeginRead;
    assert c in At(sha, false, run, q + 1).commits;
  }

  lemma BegunBefore(sha: Bytes -> Digest, run: seq<Action>, q: nat, n: nat, c: nat)
    requires q < n - 1 && n <= |run| && Begun(sha, run, q, n, c)
    ensures Begun(sha, run, q, n - 1, c)
    ensures At(sha, false, run, n - 1).commits[c].snap == At(sha, false, run, n).commits[c].snap
  {
    hide Step;
    assert c in At(sha, false, run, n - 1).commits && c in At(sha, false, run, n).commits;
    StepStage(sha, At(sha, false, run, n - 1), run[n - 1], c);
  }

  // ---------- The content of a committed file ----------

  /** What a session declares is the join of `chunks`, each the bytes of a put accepted for its index before step k. */
  ghost predicate MadeOf(sha: Bytes -> Digest, run: seq<Action>, k: nat, up: UploadId, chunks: seq<Bytes>)
    requires k <= |run|
  {
    var s := At(sha, false, run, k);
    && up in s.declared && |chunks| == s.declared[up].count && Accepted(chunks)
    && MetaOf(sha, Concat(chunks)) == Meta(s.declared[up].size, s.declared[up].digest)
    && forall i: nat :: i < |chunks| ==> FromPut(sha, run, k, up, i, chunks[i])
  }

  /** The rows stored at step q are those of the chunks, and each was read between q and k. */
  ghost predicate ReadFor(sha: Bytes -> Digest, run: seq<Action>, q: nat, k: nat, c: nat, up: UploadId, chunks: seq<Bytes>)
    requires q < k <= |run|
  {
    forall i: nat :: i < |chunks| ==> ReadOnceFor(sha, run, q, k, c, up, i, chunks[i])
  }

  ghost predicate ReadOnceFor(sha: Bytes -> Digest, run: seq<Action>, q: nat, k: nat, c: nat, up: UploadId, i: nat, data: Bytes)
    requires q < k <= |run|
  {
    && i in RowsOf(At(sha, false, run, q).t.chunks, up)
    && RowsOf(At(sha, false, run, q).t.chunks, up)[i] == MetaOf(sha, data)
    && exists m :: q < m < k && ReadsAt(sha, run, m, c, up, i, data)
  }

  lemma LinkedChunks(sha: Bytes -> Digest, s: State, c: nat)
    requires Pinned(sha, s) && c in s.commits && s.commits[c].Linked?
    ensures var g := s.commits[c];
            && g.snap.upload in s.declared && |g.chunks| == s.declared[g.snap.upload].count && Accepted(g.chunks)
            && Passed(sha, g.chunks, g.snap)
            && MetaOf(sha, Concat(g.chunks)) == Meta(s.declared[g.snap.upload].size, s.declared[g.snap.upload].digest)
  {
    hide Parse, Concat, Check;
    assert StageOk(sha, s, s.commits[c]);
    PassedAccepted(sha, s.commits[c].chunks, s.commits[c].snap);
  }

  lemma PassedAccepted(sha: Bytes -> Digest, chunks: seq<Bytes>, k: Snap)
    requires Passed(sha, chunks, k) && |chunks| == k.row.count > 0
    ensures Accepted(chunks)
  {
    assert forall i :: 0 <= i < |chunks| ==> Passes(sha, chunks[i], i, k);
  }

  lemma ChunkFacts(sha: Bytes -> Digest, run: seq<Action>, q: nat, k: nat, c: nat, i: nat)
    requires q < k <= |run| && Begun(sha, run, q, k, c)
    requires At(sha, false, run, k).commits[c].Linked? && i < |At(sha, false, run, k).commits[c].chunks|
    requires Passed(sha, At(sha, false, run, k).commits[c].chunks, At(sha, false, run, k).commits[c].snap)
    ensures var g := At(sha, false, run, k).commits[c];
            && ReadOnceFor(sha, run, q, k, c, g.snap.upload, i, g.chunks[i])
            && FromPut(sha, run, k, g.snap.upload, i, g.chunks[i])
  {
    assert c in At(sha, false, run, k).commits;
    hide Step, Check, PartsOf, RowsOf, FromPut, Begun;
    BegunManifest(sha, run, q, k, c);
    ChunksRead(sha, run, q, k, c, At(sha, false, run, k).commits[c].snap.upload, i, At(sha, false, run, k).commits[c].chunks[i]);
    var g := At(sha, false, run, k).commits[c];
    assert Passes(sha, g.chunks[i], i, g.snap);
    var m :| q < m < k && ReadsAt(sha, run, m, c, g.snap.upload, i, g.chunks[i]);
    PartFromPut(sha, run, m, g.snap.upload, i);
    FromPutLater(sha, run, m, k, g.snap.upload, i, g.chunks[i]);
  }

  /** A commit registers the in-order join of accepted puts, in every interleaving: when a handler adds its row, it
      has read each chunk in a step of its own after it read the session, each is as its row said then, and each is
      the bytes of a put that was accepted for its index. */
  lemma CommitMadeOf(sha: Bytes -> Digest, run: seq<Action>, k: nat, up: UploadId)
    requires k < |run| && Inserts(sha, run, k, up)
    ensures var c := run[k].commit.c;
            var g := At(sha, false, run, k).commits[c];
            && g.Linked? && MadeOf(sha, run, k, up, g.chunks)
            && exists q :: 0 <= q < k && Begun(sha, run, q, k, c) && ReadFor(sha, run, q, k, c, up, g.chunks)
  {
    var c := run[k].commit.c;
    InsertsLinked(sha, run, k, up);
    hide *;
    LinkedChunks(sha, At(sha, false, run, k), c);
    HasBegun(sha, run, k, c);
    var q :| 0 <= q < k && Begun(sha, run, q, k, c);
    ReadForAll(sha, run, q, k, c);
    JoinMadeOf(sha, run, k, up, At(sha, false, run, k).commits[c].chunks);
  }

  lemma JoinMadeOf(sha: Bytes -> Digest, run: seq<Action>, k: nat, up: UploadId, chunks: seq<Bytes>)
    requires k <= |run| && up in At(sha, false, run, k).declared
    requires |chunks| == At(sha, false, run, k).declared[up].count && Accepted(chunks)
    requires MetaOf(sha, Concat(chunks)) == Meta(At(sha, false, run, k).declared[up].size, At(sha, false, run, k).declared[up].digest)
    requires forall i: nat :: i < |chunks| ==> FromPut(sha, run, k, up, i, chunks[i])
    ensures MadeOf(sha, run, k, up, chunks)
  {
  }

  lemma InsertsLinked(sha: Bytes -> Digest, run: seq<Action>, k: nat, up: UploadId)
    requires k < |run| && Inserts(sha, run, k, up)
    ensures run[k].Commit? && run[k].commit.FinishCommit? && run[k].commit.c in At(sha, false, run, k).commits
    ensures At(sha, false, run, k).commits[run[k].commit.c].Linked?
    ensures At(sha, false, run, k).commits[run[k].commit.c].snap.upload == up
    ensures Pinned(sha, At(sha, false, run, k))
  {
    hide Conserved, Present, Pinned;
    InvAt(sha, run, k);
  }

  lemma ReadForAll(sha: Bytes -> Digest, run: seq<Action>, q: nat, k: nat, c: nat)
    requires q < k <= |run| && Begun(sha, run, q, k, c)
    requires c in At(sha, false, run, k).commits && At(sha, false, run, k).commits[c].Linked?
    requires Passed(sha, At(sha, false, run, k).commits[c].chunks, At(sha, false, run, k).commits[c].snap)
    ensures var g := At(sha, false, run, k).commits[c];
            && ReadFor(sha, run, q, k, c, g.snap.upload, g.chunks)
            && forall i: nat :: i < |g.chunks| ==> FromPut(sha, run, k, g.snap.upload, i, g.chunks[i])
  {
    hide At, Begun, Passed, FromPut, ReadOnceFor;
    var g := At(sha, false, run, k).commits[c];
    forall i: nat | i < |g.chunks|
      ensures ReadOnceFor(sha, run, q, k, c, g.snap.upload, i, g.chunks[i]) && FromPut(sha, run, k, g.snap.upload, i, g.chunks[i])
    {
      ChunkFacts(sha, run, q, k, c, i);
    }
  }

  // ---------- Every row of a commit, at every later time ----------

  lemma UploadMints(sha: Bytes -> Digest, s: State, b: UploadAction)
    ensures UploadStep(sha, false, s, b).minted == s.minted && UploadStep(sha, false, s, b).t.registry == s.t.registry
  {
    hide Pay, MetaOf, Charge, Release;
  }

  lemma AccountMints(s: State, b: AccountAction)
    ensures AccountStep(false, s, b).minted == s.minted && Sub(AccountStep(false, s, b).t.registry, s.t.registry)
  {
    hide Pay;
  }

  lemma FileKeepsMints(sha: Bytes -> Digest, s: State, b: FileAction)
    ensures forall f :: f in s.minted ==>
              f in FileStep(sha, false, s, b).minted && FileStep(sha, false, s, b).minted[f] == s.minted[f]
  {
    hide Reserve, Publish, Rollback, Delete, DownloadBySession, DownloadByToken, CleanFiles;
  }

  lemma ReserveMints(sha: Bytes -> Digest, s: State, u: UserId, f: FileId, data: Bytes, limit: int)
    ensures var s' := FileStep(sha, false, s, ReserveFile(u, f, data, limit));
            s'.t.registry.Keys <= s.t.registry.Keys
            || (s'.t.registry.Keys == s.t.registry.Keys + {f} && f in s'.minted && s'.minted[f] == None)
  {
    hide Charge;
  }

  lemma OtherFileRows(sha: Bytes -> Digest, s: State, b: FileAction)
    requires !b.ReserveFile?
    ensures FileStep(sha, false, s, b).t.registry.Keys <= s.t.registry.Keys
  {
    hide Pay, Release, Only, Holdings, StalePending, ExpiredFiles;
  }

  lemma FileFewerRows(sha: Bytes -> Digest, s: State, b: FileAction, f: FileId)
    ensures f in FileStep(sha, false, s, b).t.registry && f !in s.t.registry ==>
              f in FileStep(sha, false, s, b).minted && FileStep(sha, false, s, b).minted[f] == None
  {
    hide *;
    if b.ReserveFile? {
      ReserveMints(sha, s, b.u, b.f, b.data, b.limit);
    } else {
      OtherFileRows(sha, s, b);
    }
  }

  lemma FileMints(sha: Bytes -> Digest, s: State, b: FileAction, f: FileId)
    ensures var s' := FileStep(sha, false, s, b);
            && (f in s.minted ==> f in s'.minted && s'.minted[f] == s.minted[f])
            && (f in s'.t.registry && f !in s.t.registry ==> f in s'.minted && s'.minted[f] == None)
  {
    hide *;
    FileKeepsMints(sha, s, b);
    FileFewerRows(sha, s, b, f);
  }

  lemma CommitMints(sha: Bytes -> Digest, s: State, b: CommitAction, f: FileId)
    ensures var s' := CommitStep(sha, s, b);
            && (f in s.minted ==> f in s'.minted && s'.minted[f] == s.minted[f])
            && (f in s'.t.registry && f !in s.t.registry ==>
                  b.FinishCommit? && b.c in s.commits && s.commits[b.c].Linked? && s.commits[b.c].snap.fileId == f)
  {
    hide BeginRead, CanClaim, Passes, MetaOf, Concat, CanLink;
  }

  lemma RowMinted(sha: Bytes -> Digest, s: State, f: FileId)
    requires Pinned(sha, s) && f in s.t.registry
    ensures f in s.minted
  {
    assert RowOk(s, f, s.t.registry[f]);
  }

  lemma StageMinted(sha: Bytes -> Digest, s: State, c: nat)
    requires Pinned(sha, s) && c in s.commits
    ensures MintedFor(s, s.commits[c].snap.fileId, s.commits[c].snap.upload)
  {
    assert StageOk(sha, s, s.commits[c]);
  }

  /** A row with a file id drawn for a session was there before, or a commit handler of the session adds it now. */
  lemma RowMints(sha: Bytes -> Digest, s: State, a: Action, f: FileId, up: UploadId)
    requires Pinned(sha, s)
    requires var s' := Step(sha, false, s, a);
             f in s'.t.registry && MintedFor(s', f, up)
    ensures f in s.t.registry ==> MintedFor(s, f, up)
    ensures f !in s.t.registry ==>
              && a.Commit? && a.commit.FinishCommit? && a.commit.c in s.commits && s.commits[a.commit.c].Linked?
              && s.commits[a.commit.c].snap.fileId == f && s.commits[a.commit.c].snap.upload == up
  {
    hide AccountStep, UploadStep, CommitStep, FileStep, DiskStep, Pinned;
    if f in s.t.registry {
      RowMinted(sha, s, f);
    }
    if a.Commit? && a.commit.FinishCommit? && a.commit.c in s.commits {
      StageMinted(sha, s, a.commit.c);
    }
    match a
    case Account(b) => AccountMints(s, b);
    case Upload(b) => UploadMints(sha, s, b);
    case Commit(b) => CommitMints(sha, s, b, f);
    case File(b) => FileMints(sha, s, b, f);
    case Disk(b) => DiskMints(s, b);
    case Tick(_) =>
  }

  lemma DiskMints(s: State, b: DiskAction)
    ensures DiskStep(s, b).minted == s.minted && DiskStep(s, b).t.registry == s.t.registry
  {
  }

  ghost predicate Registers(sha: Bytes -> Digest, run: seq<Action>, k: nat, up: UploadId, f: FileId)
    requires k < |run|
  {
    && Inserts(sha, run, k, up)
    && run[k].commit.c in At(sha, false, run, k).commits && At(sha, false, run, k).commits[run[k].commit.c].snap.fileId == f
  }

  ghost predicate RowFor(sha: Bytes -> Digest, run: seq<Action>, n: nat, up: UploadId, f: FileId)
    requires n <= |run|
  {
    f in At(sha, false, run, n).t.registry && MintedFor(At(sha, false, run, n), f, up)
  }

  lemma RowStep(sha: Bytes -> Digest, run: seq<Action>, k: nat, up: UploadId, f: FileId)
    requires k < |run| && RowFor(sha, run, k + 1, up, f)
    ensures RowFor(sha, run, k, up, f) || Registers(sha, run, k, up, f)
  {
    hide Step, Conserved, Present;
    InvAt(sha, run, k);
    RowMints(sha, At(sha, false, run, k), run[k], f, up);
  }

  lemma NoRowYet(sha: Bytes -> Digest, run: seq<Action>, up: UploadId, f: FileId)
    ensures !RowFor(sha, run, 0, up, f)
  {
  }

  lemma {:induction false} RowRegistered(sha: Bytes -> Digest, run: seq<Action>, n: nat, up: UploadId, f: FileId)
    requires n <= |run| && RowFor(sha, run, n, up, f)
    ensures exists k :: 0 <= k < n && Registers(sha, run, k, up, f)
    decreases n
  {
    hide *;
    if n == 0 {
      NoRowYet(sha, run, up, f);
    } else {
      RowStep(sha, run, n - 1, up, f);
      if RowFor(sha, run, n - 1, up, f) {
        RowRegistered(sha, run, n - 1, up, f);
        var k :| 0 <= k < n - 1 && Registers(sha, run, k, up, f);
        assert 0 <= k < n;
      } else {
        assert 0 <= n - 1 < n;
      }
    }
  }

  ghost predicate NoCollision(sha: Bytes -> Digest) {
    forall x: Bytes, y: Bytes :: sha(x) == sha(y) ==> x == y
  }

  /** `data` has the size and digest of the join, and is the join if the digest has no collision. */
  ghost predicate Joins(sha: Bytes -> Digest, data: Bytes, chunks: seq<Bytes>) {
    MetaOf(sha, data) == MetaOf(sha, Concat(chunks)) && (NoCollision(sha) ==> data == Concat(chunks))
  }

  /** Committed content: in every reachable state every row made by a commit has the owner, size and digest that its
      session declared, and its file, unless the disk lost it, is the join in index order of bytes that puts
      for these indices were accepted with, and that pass the chunk check. */
  lemma CommittedContent(sha: Bytes -> Digest, clamp: bool, run: seq<Action>, n: nat, f: FileId, up: UploadId)
    requires n <= |run|
    requires f in At(sha, clamp, run, n).t.registry && MintedFor(At(sha, clamp, run, n), f, up)
    ensures var s := At(sha, clamp, run, n);
            && up in s.declared
            && s.t.registry[f].owner == s.declared[up].owner
            && s.t.registry[f].size == s.declared[up].size && s.t.registry[f].digest == s.declared[up].digest
            && (f in s.t.finals || f in s.lost)
            && exists k, chunks :: 0 <= k < n && Registers(sha, run, k, up, f) && MadeOf(sha, run, k, up, chunks)
                 && s.t.registry[f].size == |Concat(chunks)| && s.t.registry[f].digest == sha(Concat(chunks))
                 && (f in s.t.finals ==> Joins(sha, s.t.finals[f], chunks))
  {
    hide Step, Concat, Accepted;
    ClampsNeverMatter(sha, run, n);
    CommittedDeclared(sha, clamp, run, n, f, up);
    RowRegistered(sha, run, n, up, f);
    var k :| 0 <= k < n && Registers(sha, run, k, up, f);
    CommitMadeOf(sha, run, k, up);
    var chunks := At(sha, false, run, k).commits[run[k].commit.c].chunks;
    DeclKept(sha, run, k, n, up);
    var s := At(sha, clamp, run, n);
    if f in s.t.finals {
      GoodMeta(sha, s.t.finals[f], s.declared[up]);
      SameMeta(sha, s.t.finals[f], Concat(chunks));
    }
    assert Registers(sha, run, k, up, f) && MadeOf(sha, run, k, up, chunks);
  }

  lemma GoodMeta(sha: Bytes -> Digest, data: Bytes, d: Decl)
    requires Good(sha, data, d)
    ensures MetaOf(sha, data) == Meta(d.size, d.digest)
  {
  }

  lemma SameMeta(sha: Bytes -> Digest, x: Bytes, y: Bytes)
    requires MetaOf(sha, x) == MetaOf(sha, y)
    ensures NoCollision(sha) ==> x == y
  {
  }

  // ---------- When assembly succeeds ----------

  /** Where a handler stands tells what the chunk files were like. */
  ghost predicate Reflects(sha: Bytes -> Digest, g: Stage, parts: map<nat, Bytes>) {
    match g
    case Reading(_) => true
    case Owning(k, chunks) => |chunks| <= k.row.count && PartsPass(sha, parts, k, |chunks|) && chunks == PartList(parts, |chunks|)
    case Linked(k, chunks) => Assembles(sha, parts, k) && chunks == PartList(parts, k.row.count)
    case Failing(k) => !Assembles(sha, parts, k)
  }

  lemma ReadReflects(sha: Bytes -> Digest, s: State, c: nat)
    requires c in s.commits && Reflects(sha, s.commits[c], PartsOf(s.t.parts, s.commits[c].snap.upload))
    ensures var s' := ReadPart(sha, s, c);
            c in s'.commits && Reflects(sha, s'.commits[c], PartsOf(s.t.parts, s.commits[c].snap.upload))
  {
    hide Passes, Concat, MetaOf;
    var parts := PartsOf(s.t.parts, s.commits[c].snap.upload);
    if s.commits[c].Owning? && |s.commits[c].chunks| < s.commits[c].snap.row.count && |s.commits[c].chunks| in parts {
      var n := |s.commits[c].chunks|;
      assert PartList(parts, n) + [parts[n]] == PartList(parts, n + 1);
    }
  }

  lemma LinkReflects(sha: Bytes -> Digest, s: State, c: nat)
    requires c in s.commits && Reflects(sha, s.commits[c], PartsOf(s.t.parts, s.commits[c].snap.upload))
    ensures var s' := LinkUp(sha, s, c);
            c in s'.commits ==> Reflects(sha, s'.commits[c], PartsOf(s.t.parts, s.commits[c].snap.upload))
  {
    hide Passes, Concat, MetaOf, CanLink, Link;
  }

  lemma StepReflects(sha: Bytes -> Digest, s: State, a: Action, c: nat)
    requires c in s.commits && c in Step(sha, false, s, a).commits
    requires Reflects(sha, s.commits[c], PartsOf(s.t.parts, s.commits[c].snap.upload))
    ensures Reflects(sha, Step(sha, false, s, a).commits[c], PartsOf(s.t.parts, s.commits[c].snap.upload))
  {
    hide AccountStep, UploadStep, CommitStep, FileStep, Reflects;
    if a.Commit? {
      CommitReflects(sha, s, a.commit, c);
    } else if a.Upload? && (a.upload.PutChunk? || a.upload.OpenUpload?) {
      UploadCommits(sha, s, a.upload);
    } else {
      RestFewer(sha, s, a);
    }
  }

  lemma CommitReflects(sha: Bytes -> Digest, s: State, b: CommitAction, c: nat)
    requires c in s.commits && c in CommitStep(sha, s, b).commits
    requires Reflects(sha, s.commits[c], PartsOf(s.t.parts, s.commits[c].snap.upload))
    ensures Reflects(sha, CommitStep(sha, s, b).commits[c], PartsOf(s.t.parts, s.commits[c].snap.upload))
  {
    if b == ReadChunk(c) {
      ReadReflects(sha, s, c);
    } else if b == LinkCommit(c) {
      LinkReflects(sha, s, c);
    } else {
      OtherStages(sha, s, b, c);
      hide CommitStep, Reflects;
      NothingRead(sha, s.commits[c].snap, PartsOf(s.t.parts, s.commits[c].snap.upload));
    }
  }

  /** Reading and linking apart, a step leaves the stage of c or makes it the owner. */
  lemma OtherStages(sha: Bytes -> Digest, s: State, b: CommitAction, c: nat)
    requires c in s.commits && c in CommitStep(sha, s, b).commits && b != ReadChunk(c) && b != LinkCommit(c)
    ensures CommitStep(sha, s, b).commits[c] in {s.commits[c], Owning(s.commits[c].snap, [])}
  {
    hide BeginRead, Finish, Reset, CanClaim, Claim, Passes, MetaOf, Concat, CanLink, Link, PartsOf;
  }

  lemma NothingRead(sha: Bytes -> Digest, k: Snap, parts: map<nat, Bytes>)
    ensures Reflects(sha, Owning(k, []), parts)
  {
  }

  ghost predicate StageReflects(sha: Bytes -> Digest, run: seq<Action>, n: nat, c: nat, k: Snap, parts: map<nat, Bytes>)
    requires n <= |run|
  {
    && c in At(sha, false, run, n).commits && At(sha, false, run, n).commits[c].snap == k
    && Reflects(sha, At(sha, false, run, n).commits[c], parts)
  }

  /** The handler is under way from i to n, and nobody touches the chunk files of its session. */
  ghost predicate Untouched(sha: Bytes -> Digest, run: seq<Action>, i: nat, n: nat, c: nat, up: UploadId, parts: map<nat, Bytes>)
    requires i <= n <= |run|
  {
    forall m :: i <= m <= n ==> c in At(sha, false, run, m).commits && (m < n ==> PartsOf(At(sha, false, run, m).t.parts, up) == parts)
  }

  lemma NextReflects(sha: Bytes -> Digest, run: seq<Action>, n: nat, c: nat, k: Snap, parts: map<nat, Bytes>)
    requires n < |run| && StageReflects(sha, run, n, c, k, parts) && c in At(sha, false, run, n + 1).commits
    requires PartsOf(At(sha, false, run, n).t.parts, k.upload) == parts
    ensures StageReflects(sha, run, n + 1, c, k, parts)
  {
    hide Step, Reflects, PartsOf;
    StepReflects(sha, At(sha, false, run, n), run[n], c);
    StepStage(sha, At(sha, false, run, n), run[n], c);
  }

  lemma {:induction false} RunReflects(sha: Bytes -> Digest, run: seq<Action>, i: nat, n: nat, c: nat, k: Snap, parts: map<nat, Bytes>)
    requires i <= n <= |run| && StageReflects(sha, run, i, c, k, parts) && Untouched(sha, run, i, n, c, k.upload, parts)
    ensures StageReflects(sha, run, n, c, k, parts)
    decreases n
  {
    if i < n {
      assert c in At(sha, false, run, n).commits && PartsOf(At(sha, false, run, n - 1).t.parts, k.upload) == parts;
      assert Untouched(sha, run, i, n - 1, c, k.upload, parts);
      hide *;
      RunReflects(sha, run, i, n - 1, c, k, parts);
      NextReflects(sha, run, n - 1, c, k, parts);
    }
  }

  /** Whatever else goes on, a handler that has claimed the session ends its assembly with a linked file if
      the chunk files assemble to the declaration, and with a reset otherwise. */
  lemma AssemblyOutcome(sha: Bytes -> Digest, run: seq<Action>, i: nat, n: nat, c: nat, parts: map<nat, Bytes>)
    requires i <= n <= |run| && c in At(sha, false, run, i).commits
    requires var g := At(sha, false, run, i).commits[c];
             g.Reading? || g == Owning(g.snap, [])
    requires Untouched(sha, run, i, n, c, At(sha, false, run, i).commits[c].snap.upload, parts)
    ensures var k := At(sha, false, run, i).commits[c].snap;
            && c in At(sha, false, run, n).commits
            && var g := At(sha, false, run, n).commits[c];
               && g.snap == k
               && (g.Linked? ==> Assembles(sha, parts, k) && Concat(g.chunks) == Concat(PartList(parts, k.row.count)))
               && (g.Failing? ==> !Assembles(sha, parts, k))
  {
    var k := At(sha, false, run, i).commits[c].snap;
    assert StageReflects(sha, run, i, c, k, parts) by {
      NothingRead(sha, k, parts);
    }
    hide Step, Assembles, PartsPass, Untouched;
    RunReflects(sha, run, i, n, c, k, parts);
  }

  // ---------- A commit from claim to end ----------

  ghost function ReadAll(sha: Bytes -> Digest, s: State, c: nat, n: nat): State {
    if n == 0 then s else ReadPart(sha, ReadAll(sha, s, c, n - 1), c)
  }

  /** Linking, finishing and, after a 409, resetting. */
  ghost function Conclude(sha: Bytes -> Digest, s: State, c: nat): State {
    CommitStep(sha, CommitStep(sha, CommitStep(sha, s, LinkCommit(c)), FinishCommit(c)), ResetCommit(c))
  }

  /** The steps of a handler that nobody disturbs. */
  ghost function Undisturbed(sha: Bytes -> Digest, s: State, c: nat, count: nat): State {
    Conclude(sha, ReadAll(sha, CommitStep(sha, s, ClaimCommit(c)), c, count), c)
  }

  ghost function StageAfter(sha: Bytes -> Digest, parts: map<nat, Bytes>, k: Snap, n: nat): Stage {
    if PartsPass(sha, parts, k, n) then Owning(k, PartList(parts, n)) else Failing(k)
  }

  lemma ReadOne(sha: Bytes -> Digest, s: State, c: nat, k: Snap, n: nat)
    requires c in s.commits && n < k.row.count
    requires s.commits[c] == StageAfter(sha, PartsOf(s.t.parts, k.upload), k, n)
    ensures ReadPart(sha, s, c) == s.(commits := s.commits[c := StageAfter(sha, PartsOf(s.t.parts, k.upload), k, n + 1)])
  {
    hide Passes;
    var parts := PartsOf(s.t.parts, k.upload);
    assert PartsPass(sha, parts, k, n + 1) ==> PartsPass(sha, parts, k, n);
    if PartsPass(sha, parts, k, n + 1) {
      assert PartList(parts, n) + [parts[n]] == PartList(parts, n + 1);
    } else if PartsPass(sha, parts, k, n) {
      assert !(n in parts && Passes(sha, parts[n], n, k));
    } else {
      assert s.commits[c := s.commits[c]] == s.commits;
    }
  }

  lemma NextStage(sha: Bytes -> Digest, s: State, s': State, c: nat, k: Snap, n: nat)
    requires c in s.commits && n < k.row.count
    requires s' == s.(commits := s.commits[c := StageAfter(sha, PartsOf(s.t.parts, k.upload), k, n)])
    ensures ReadPart(sha, s', c) == s.(commits := s.commits[c := StageAfter(sha, PartsOf(s.t.parts, k.upload), k, n + 1)])
  {
    hide ReadPart, StageAfter, PartsOf;
    ReadOne(sha, s', c, k, n);
  }

  lemma NoStage(sha: Bytes -> Digest, s: State, c: nat, k: Snap)
    requires c in s.commits && s.commits[c] == Owning(k, [])
    ensures ReadAll(sha, s, c, 0) == s.(commits := s.commits[c := StageAfter(sha, PartsOf(s.t.parts, k.upload), k, 0)])
  {
    assert PartList(PartsOf(s.t.parts, k.upload), 0) == [];
    assert s.commits[c := s.commits[c]] == s.commits;
  }

  lemma OneMoreRead(sha: Bytes -> Digest, s: State, c: nat, n: nat)
    ensures ReadAll(sha, s, c, n + 1) == ReadPart(sha, ReadAll(sha, s, c, n), c)
  {
  }

  lemma {:induction false} ReadAllOutcome(sha: Bytes -> Digest, s: State, c: nat, k: Snap, n: nat)
    requires c in s.commits && s.commits[c] == Owning(k, []) && n <= k.row.count
    ensures ReadAll(sha, s, c, n) == s.(commits := s.commits[c := StageAfter(sha, PartsOf(s.t.parts, k.upload), k, n)])
  {
    hide *;
    if n == 0 {
      NoStage(sha, s, c, k);
    } else {
      ReadAllOutcome(sha, s, c, k, n - 1);
      NextStage(sha, s, ReadAll(sha, s, c, n - 1), c, k, n - 1);
      OneMoreRead(sha, s, c, n - 1);
    }
  }

  lemma ClaimStage(s: State, c: nat)
    requires c in s.commits && s.commits[c].Reading? && CanClaim(s.t, s.commits[c].snap)
    ensures var k := s.commits[c].snap;
            Take(s, c) == s.(t := Claim(s.t, k, s.now), commits := s.commits[c := Owning(k, [])])
  {
  }

  /** The file the commit would link is either not there yet or already has the declared content. */
  lemma LinkFits(sha: Bytes -> Digest, s: State, k: Snap, data: Bytes)
    requires Pinned(sha, s) && SnapOk(s, k) && MetaOf(sha, data) == Meta(k.row.size, k.row.digest)
    ensures CanLink(sha, s.t, k.fileId, data)
  {
    hide Good;
    if k.fileId in s.t.finals {
      assert FinalOk(sha, s, k.fileId);
      GoodMeta(sha, s.t.finals[k.fileId], s.declared[k.upload]);
    }
  }

  lemma NotRegistered(sha: Bytes -> Digest, s: State, k: Snap)
    requires Pinned(sha, s) && SnapOk(s, k) && k.upload in s.t.sessions && s.t.sessions[k.upload].phase != Committed
    ensures k.fileId !in s.t.registry
  {
    assert k.fileId in s.t.registry ==> RowOk(s, k.fileId, s.t.registry[k.fileId]);
  }

  lemma SnapOfStage(sha: Bytes -> Digest, s: State, c: nat)
    requires Pinned(sha, s) && c in s.commits
    ensures SnapOk(s, s.commits[c].snap)
  {
    assert StageOk(sha, s, s.commits[c]);
  }

  lemma JoinMeta(sha: Bytes -> Digest, parts: map<nat, Bytes>, k: Snap)
    requires Assembles(sha, parts, k)
    ensures forall i :: 0 <= i < k.row.count ==> i in parts
    ensures MetaOf(sha, Concat(PartList(parts, k.row.count))) == Meta(k.row.size, k.row.digest)
  {
    hide Passes, Concat;
  }

  lemma LinkedFile(sha: Bytes -> Digest, t: Tables, f: FileId, data: Bytes)
    requires CanLink(sha, t, f, data)
    ensures f in Link(t, f, data).finals && MetaOf(sha, Link(t, f, data).finals[f]) == MetaOf(sha, data)
    ensures f !in t.finals || NoCollision(sha) ==> Link(t, f, data).finals[f] == data
  {
  }

  /** A commit handler that nobody disturbs ends with the session committed and the chunk files, joined in index
      order, registered if they assemble to what was declared; otherwise with the session pending again,
      without a file id and without chunks. A file that was there before is known by its size and digest, so its
      bytes are the same if the digest has no collision. */
  lemma CommitOutcome(sha: Bytes -> Digest, s: State, c: nat)
    requires Pinned(sha, s) && c in s.commits && s.commits[c].Reading? && CanClaim(s.t, s.commits[c].snap)
    ensures var k, s' := s.commits[c].snap, Undisturbed(sha, s, c, s.commits[c].snap.row.count);
            var parts := PartsOf(s.t.parts, k.upload);
            && k.upload in s'.t.sessions
            && (Assembles(sha, parts, k) ==>
                  && s'.t.sessions[k.upload].phase == Committed && k.fileId in s'.t.registry
                  && s'.t.registry[k.fileId] == FileRow(k.owner, k.row.size, true, s.now, s.now + RETENTION, k.row.digest)
                  && k.fileId in s'.t.finals && MetaOf(sha, s'.t.finals[k.fileId]) == Meta(k.row.size, k.row.digest)
                  && (k.fileId !in s.t.finals || NoCollision(sha) ==> s'.t.finals[k.fileId] == Concat(PartList(parts, k.row.count))))
            && (!Assembles(sha, parts, k) ==>
                  && s'.t.sessions[k.upload].phase == Pending && s'.t.sessions[k.upload].fileId == None
                  && k.upload !in s'.t.chunks && s'.t.registry == s.t.registry && s'.t.users == s.t.users)
  {
    var k := s.commits[c].snap;
    var parts, s1 := PartsOf(s.t.parts, k.upload), Take(s, c);
    ClaimStage(s, c);
    hide CanLink, Pinned, Read, ReadPart, Conclude, Concat, PartList, NoCollision, PartsPass, SnapOk, Passes;
    SnapOfStage(sha, s, c);
    ReadAllOutcome(sha, s1, c, k, k.row.count);
    var s2 := ReadAll(sha, s1, c, k.row.count);
    if Assembles(sha, parts, k) {
      JoinMeta(sha, parts, k);
      NotRegistered(sha, s, k);
      var chunks := PartList(parts, k.row.count);
      LinkFits(sha, s, k, Concat(chunks));
      SameFinals(sha, s.t, s2.t, k.fileId, Concat(chunks));
      LinkedFile(sha, s2.t, k.fileId, Concat(chunks));
      Succeeds(sha, s2, c, k, chunks);
    } else {
      Fails(sha, s2, c, k);
    }
  }

  lemma Succeeds(sha: Bytes -> Digest, s: State, c: nat, k: Snap, chunks: seq<Bytes>)
    requires c in s.commits && s.commits[c] == Owning(k, chunks) && |chunks| == k.row.count
    requires MetaOf(sha, Concat(chunks)) == Meta(k.row.size, k.row.digest) && CanLink(sha, s.t, k.fileId, Concat(chunks))
    requires Owns(s.t, k.owner, k.upload) && s.t.sessions[k.upload].phase == Committing && k.fileId !in s.t.registry
    ensures var s' := Conclude(sha, s, c);
            && k.upload in s'.t.sessions && s'.t.sessions[k.upload].phase == Committed && k.fileId in s'.t.registry
            && s'.t.registry[k.fileId] == FileRow(k.owner, k.row.size, true, s.now, s.now + RETENTION, k.row.digest)
            && s'.t.finals == Link(s.t, k.fileId, Concat(chunks)).finals
  {
    hide Concat, CanLink, Reset;
    var s1 := s.(t := Link(s.t, k.fileId, Concat(chunks)), commits := s.commits[c := Linked(k, chunks)]);
    assert LinkUp(sha, s, c) == s1;
    LinkTables(s.t, k.fileId, Concat(chunks));
    hide LinkUp, Link;
    var s2 := CommitStep(sha, s1, FinishCommit(c));
    assert c !in s2.commits;
    assert CommitStep(sha, s2, ResetCommit(c)) == s2;
  }

  lemma LinkTables(t: Tables, f: FileId, data: Bytes)
    ensures Link(t, f, data).(finals := t.finals) == t
  {
  }

  lemma Fails(sha: Bytes -> Digest, s: State, c: nat, k: Snap)
    requires c in s.commits && Owns(s.t, k.owner, k.upload) && s.t.sessions[k.upload].phase == Committing
    requires s.commits[c] == Failing(k)
             || (s.commits[c].Owning? && s.commits[c].snap == k && |s.commits[c].chunks| == k.row.count
                 && MetaOf(sha, Concat(s.commits[c].chunks)) != Meta(k.row.size, k.row.digest))
    ensures var s' := Conclude(sha, s, c);
            && k.upload in s'.t.sessions && s'.t.sessions[k.upload].phase == Pending && s'.t.sessions[k.upload].fileId == None
            && k.upload !in s'.t.chunks && s'.t.registry == s.t.registry && s'.t.users == s.t.users
  {
    hide Concat, MetaOf, CanLink;
  }

  lemma SameFinals(sha: Bytes -> Digest, t: Tables, t': Tables, f: FileId, data: Bytes)
    requires CanLink(sha, t, f, data) && t'.finals == t.finals
    ensures CanLink(sha, t', f, data)
  {
  }
}
