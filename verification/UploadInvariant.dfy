/** Every step keeps the invariant that ties rows, files and handlers to what was declared. */
module UploadInvariant {
  import opened Wrappers
  import opened Container
  import opened Ledger
  import opened Uploads
  import opened UploadRuns

  // ---------- What was declared stays true of rows, files and handlers ----------

  ghost predicate Sub<K(!new), V(!new)>(m: map<K, V>, m': map<K, V>) {
    forall k :: k in m ==> k in m' && m'[k] == m[k]
  }

  ghost predicate Extends(s: State, s': State) {
    s.now <= s'.now && Sub(s.declared, s'.declared) && Sub(s.minted, s'.minted)
  }

  ghost predicate TablesShrink(t: Tables, t': Tables) {
    Sub(t'.sessions, t.sessions) && Sub(t'.registry, t.registry) && Sub(t'.finals, t.finals)
  }

  /** Rows, files and handlers only disappear. */
  ghost predicate Shrinks(s: State, s': State) {
    && Extends(s, s') && TablesShrink(s.t, s'.t)
    && Sub(s'.commits, s.commits) && Sub(s'.oneshots, s.oneshots)
  }

  lemma ShrinkPinned(sha: Bytes -> Digest, s: State, s': State)
    requires Pinned(sha, s) && Shrinks(s, s')
    ensures Pinned(sha, s')
  {
    hide Parse, MetaOf;
    assert SessionsOk(s');
    assert StagesOk(sha, s') by {
      forall c | c in s'.commits ensures StageOk(sha, s', s'.commits[c]) {
        assert StageOk(sha, s, s.commits[c]);
      }
    }
    assert RowsOk(s') by {
      forall f | f in s'.t.registry ensures RowOk(s', f, s'.t.registry[f]) {
        assert RowOk(s, f, s.t.registry[f]);
      }
    }
    assert FinalsOk(sha, s') by {
      forall f | f in s'.t.finals ensures FinalOk(sha, s', f) {
        assert FinalOk(sha, s, f);
      }
    }
    assert OneShotsOk(sha, s') by {
      forall f | f in s'.oneshots ensures OneShotOk(sha, s', f, s'.oneshots[f]) {
        assert OneShotOk(sha, s, f, s.oneshots[f]);
      }
    }
  }

  // ---------- Steps that add or change a row ----------

  /** Replacing one session row, with history that only grows. */
  lemma SessionPinned(sha: Bytes -> Digest, s: State, s': State, up: UploadId)
    requires Pinned(sha, s) && Extends(s, s')
    requires up in s'.t.sessions && s'.t.sessions == s.t.sessions[up := s'.t.sessions[up]]
    requires SessionOk(s', up, s'.t.sessions[up])
    requires up !in s.t.sessions ==> up !in s.declared
    requires up in s.t.sessions && s.t.sessions[up].phase == Committed ==> s'.t.sessions[up].phase == Committed
    requires s'.t.registry == s.t.registry && Sub(s'.t.finals, s.t.finals)
    requires s'.commits == s.commits && s'.oneshots == s.oneshots
    ensures Pinned(sha, s')
  {
    hide Parse, MetaOf;
    assert StagesOk(sha, s') by {
      forall c | c in s'.commits ensures StageOk(sha, s', s'.commits[c]) {
        assert StageOk(sha, s, s.commits[c]);
      }
    }
    assert RowsOk(s') by {
      forall f | f in s'.t.registry ensures RowOk(s', f, s'.t.registry[f]) {
        assert RowOk(s, f, s.t.registry[f]);
      }
    }
    assert FinalsOk(sha, s') by {
      forall f | f in s'.t.finals ensures FinalOk(sha, s', f) {
        assert FinalOk(sha, s, f);
      }
    }
    assert OneShotsOk(sha, s') by {
      forall f | f in s'.oneshots ensures OneShotOk(sha, s', f, s'.oneshots[f]) {
        assert OneShotOk(sha, s, f, s.oneshots[f]);
      }
    }
  }

  /** Changing which handlers are under way, and where they stand. */
  lemma StagePinned(sha: Bytes -> Digest, s: State, s': State, c: nat)
    requires Pinned(sha, s) && Extends(s, s')
    requires s'.t == s.t && s'.oneshots == s.oneshots
    requires c in s'.commits && s'.commits == s.commits[c := s'.commits[c]]
    requires StageOk(sha, s', s'.commits[c])
    ensures Pinned(sha, s')
  {
    hide Parse, MetaOf;
    ShrinkPinned(sha, s, s'.(commits := s.commits));
    assert StagesOk(sha, s') by {
      forall d | d in s'.commits && d != c ensures StageOk(sha, s', s'.commits[d]) {
        assert StageOk(sha, s, s.commits[d]);
      }
    }
    assert RowsOk(s') by {
      forall f | f in s'.t.registry ensures RowOk(s', f, s'.t.registry[f]) {
        assert RowOk(s'.(commits := s.commits), f, s.t.registry[f]);
      }
    }
    assert FinalsOk(sha, s') by {
      forall f | f in s'.t.finals ensures FinalOk(sha, s', f) {
        assert FinalOk(sha, s'.(commits := s.commits), f);
      }
    }
    assert OneShotsOk(sha, s') by {
      forall f | f in s'.oneshots ensures OneShotOk(sha, s', f, s'.oneshots[f]) {
        assert OneShotOk(sha, s'.(commits := s.commits), f, s.oneshots[f]);
      }
    }
  }

  lemma OpenPinned(sha: Bytes -> Digest, s: State, a: UploadAction)
    requires Pinned(sha, s) && a.OpenUpload?
    ensures Pinned(sha, UploadStep(sha, false, s, a))
  {
    hide Pinned, Parse, MetaOf, HexDigest, Charge;
    var s' := UploadStep(sha, false, s, a);
    if a.id !in s.declared {
      var t' := Create(s.t, a.u, a.request, a.size, a.count, a.digest, a.limit, a.id, s.now).0;
      if a.id in t'.sessions && a.id !in s.t.sessions {
        SessionPinned(sha, s, s', a.id);
      } else {
        ShrinkPinned(sha, s, s');
      }
    }
  }

  lemma RowPinned(sha: Bytes -> Digest, s: State, s': State, f: FileId)
    requires Pinned(sha, s) && f in s'.t.registry
    requires s' == s.(t := s.t.(registry := s.t.registry[f := s'.t.registry[f]]))
    requires RowOk(s', f, s'.t.registry[f])
    requires f in s.t.finals ==> FinalOk(sha, s', f)
    requires f in s.oneshots ==> OneShotOk(sha, s', f, s.oneshots[f])
    ensures Pinned(sha, s')
  {
    hide Parse, MetaOf;
    assert StagesOk(sha, s') by {
      forall c | c in s'.commits ensures StageOk(sha, s', s'.commits[c]) {
        assert StageOk(sha, s, s.commits[c]);
      }
    }
    assert RowsOk(s') by {
      forall g | g in s'.t.registry && g != f ensures RowOk(s', g, s'.t.registry[g]) {
        assert RowOk(s, g, s.t.registry[g]);
      }
    }
    assert FinalsOk(sha, s') by {
      forall g | g in s'.t.finals && g != f ensures FinalOk(sha, s', g) {
        assert FinalOk(sha, s, g);
      }
    }
    assert OneShotsOk(sha, s') by {
      forall g | g in s'.oneshots && g != f ensures OneShotOk(sha, s', g, s'.oneshots[g]) {
        assert OneShotOk(sha, s, g, s.oneshots[g]);
      }
    }
  }

  lemma FinalPinned(sha: Bytes -> Digest, s: State, s': State, f: FileId)
    requires Pinned(sha, s) && f in s'.t.finals
    requires s' == s.(t := s.t.(finals := s.t.finals[f := s'.t.finals[f]]))
    requires FinalOk(sha, s', f)
    ensures Pinned(sha, s')
  {
    hide Parse, MetaOf;
    assert StagesOk(sha, s') by {
      forall c | c in s'.commits ensures StageOk(sha, s', s'.commits[c]) {
        assert StageOk(sha, s, s.commits[c]);
      }
    }
    assert RowsOk(s') by {
      forall g | g in s'.t.registry ensures RowOk(s', g, s'.t.registry[g]) {
        assert RowOk(s, g, s.t.registry[g]);
      }
    }
    assert FinalsOk(sha, s') by {
      forall g | g in s'.t.finals && g != f ensures FinalOk(sha, s', g) {
        assert FinalOk(sha, s, g);
      }
    }
    assert OneShotsOk(sha, s') by {
      forall g | g in s'.oneshots ensures OneShotOk(sha, s', g, s'.oneshots[g]) {
        assert OneShotOk(sha, s, g, s.oneshots[g]);
      }
    }
  }

  lemma PutPinned(sha: Bytes -> Digest, s: State, u: UserId, up: UploadId, index: int, data: Bytes, meta: Meta, startedAt: Time)
    requires Pinned(sha, s)
    ensures Pinned(sha, s.(t := Put(sha, s.t, u, up, index, data, meta, startedAt, s.now).0))
  {
    hide Parse, MetaOf, HexDigest, StagesOk, RowsOk, FinalsOk, OneShotsOk;
    var t' := Put(sha, s.t, u, up, index, data, meta, startedAt, s.now).0;
    var s' := s.(t := t');
    if t' != s.t {
      assert SessionOk(s, up, s.t.sessions[up]);
      SessionPinned(sha, s, s', up);
    }
  }

  lemma ReadPinned(sha: Bytes -> Digest, s: State, c: nat, u: UserId, up: UploadId, digest: Digest, entries: seq<Entry>, file: FileId)
    requires Pinned(sha, s)
    ensures Pinned(sha, Read(s, c, u, up, digest, entries, file))
  {
    hide Parse, MetaOf, HexDigest, Manifest, RowsMatch, EntrySizes, StagesOk, RowsOk, FinalsOk, OneShotsOk;
    var s' := Read(s, c, u, up, digest, entries, file);
    if s' != s {
      var k := BeginRead(s.t, u, up, digest, entries, file, s.now).snap;
      assert SessionOk(s, up, s.t.sessions[up]);
      StagePinned(sha, s, s', c);
    }
  }

  lemma TakePinned(sha: Bytes -> Digest, s: State, c: nat)
    requires Pinned(sha, s)
    ensures Pinned(sha, Take(s, c))
  {
    hide Parse, MetaOf, RowsOk, FinalsOk, OneShotsOk;
    var s' := Take(s, c);
    if c in s.commits && s.commits[c].Reading? {
      var k := s.commits[c].snap;
      assert StageOk(sha, s, s.commits[c]);
      if CanClaim(s.t, k) {
        assert SessionOk(s, k.upload, s.t.sessions[k.upload]);
        var s1 := s.(t := Claim(s.t, k, s.now));
        SessionPinned(sha, s, s1, k.upload);
        StagePinned(sha, s1, s', c);
      } else {
        ShrinkPinned(sha, s, s');
      }
    }
  }

  /** What the assembly check buys: the whole file parses, into as many frames as chunks. */
  lemma PassedGood(sha: Bytes -> Digest, chunks: seq<Bytes>, k: Snap)
    requires Passed(sha, chunks, k) && |chunks| == k.row.count > 0
    requires MetaOf(sha, Concat(chunks)) == Meta(k.row.size, k.row.digest)
    ensures Accepted(chunks) && Good(sha, Concat(chunks), DeclOf(k.row))
  {
    assert forall i :: 0 <= i < |chunks| ==> Passes(sha, chunks[i], i, k);
    assert Accepted(chunks);
    AcceptedParses(chunks);
  }

  lemma PassedMore(sha: Bytes -> Digest, chunks: seq<Bytes>, data: Bytes, k: Snap)
    requires Passed(sha, chunks, k) && |chunks| < k.row.count && Passes(sha, data, |chunks|, k)
    ensures Passed(sha, chunks + [data], k)
  {
    hide Passes;
  }

  lemma ReadPartPinned(sha: Bytes -> Digest, s: State, c: nat)
    requires Pinned(sha, s)
    ensures Pinned(sha, ReadPart(sha, s, c))
  {
    hide Good, Parse, MetaOf, Passes, Passed, SessionsOk, RowsOk, FinalsOk, OneShotsOk;
    var s' := ReadPart(sha, s, c);
    if s' != s {
      var k, chunks := s.commits[c].snap, s.commits[c].chunks;
      assert StageOk(sha, s, s.commits[c]);
      if s'.commits[c].Owning? {
        PassedMore(sha, chunks, PartsOf(s.t.parts, k.upload)[|chunks|], k);
      }
      StagePinned(sha, s, s', c);
    }
  }

  lemma LinkUpPinned(sha: Bytes -> Digest, s: State, c: nat)
    requires Pinned(sha, s)
    ensures Pinned(sha, LinkUp(sha, s, c))
  {
    hide Good, Parse, MetaOf, Concat, Passed, SessionsOk, RowsOk, FinalsOk, OneShotsOk;
    var s' := LinkUp(sha, s, c);
    if s' != s {
      var k, chunks := s.commits[c].snap, s.commits[c].chunks;
      assert StageOk(sha, s, s.commits[c]);
      if c !in s'.commits {
        ShrinkPinned(sha, s, s');
      } else if s'.commits[c].Linked? {
        PassedGood(sha, chunks, k);
        var s1 := s.(t := Link(s.t, k.fileId, Concat(chunks)));
        if k.fileId !in s.t.finals {
          FinalPinned(sha, s, s1, k.fileId);
        }
        StagePinned(sha, s1, s', c);
      } else {
        StagePinned(sha, s, s', c);
      }
    }
  }

  lemma FinishPinned(sha: Bytes -> Digest, s: State, c: nat)
    requires Pinned(sha, s) && c in s.commits && s.commits[c].Linked?
    ensures Pinned(sha, s.(t := Finish(s.t, s.commits[c].snap, |Concat(s.commits[c].chunks)|, s.now).0, commits := s.commits - {c}))
  {
    hide Parse, MetaOf, StagesOk, RowsOk, FinalsOk;
    var k, data := s.commits[c].snap, Concat(s.commits[c].chunks);
    var t' := Finish(s.t, k, |data|, s.now).0;
    var s2 := s.(t := t');
    assert StageOk(sha, s, s.commits[c]) by {
      LookStage(sha, s, c);
    }
    if k.fileId in t'.registry && k.fileId !in s.t.registry {
      assert SessionOk(s, k.upload, s.t.sessions[k.upload]);
      var s1 := s2.(t := t'.(registry := s.t.registry));
      SessionPinned(sha, s, s1, k.upload);
      GoodSize(sha, data, s.declared[k.upload]);
      if k.fileId in s.t.finals {
        LookFinal(sha, s1, k.fileId);
      }
      assert k.fileId in s.oneshots ==> OneShotOk(sha, s, k.fileId, s.oneshots[k.fileId]);
      RowPinned(sha, s1, s2, k.fileId);
    } else {
      ShrinkPinned(sha, s, s2);
    }
    ShrinkPinned(sha, s2, s2.(commits := s.commits - {c}));
  }

  lemma LookStage(sha: Bytes -> Digest, s: State, c: nat)
    requires StagesOk(sha, s) && c in s.commits
    ensures StageOk(sha, s, s.commits[c])
  {
  }

  lemma LookFinal(sha: Bytes -> Digest, s: State, f: FileId)
    requires FinalsOk(sha, s) && f in s.t.finals
    ensures FinalOk(sha, s, f)
  {
  }

  lemma GoodSize(sha: Bytes -> Digest, data: Bytes, d: Decl)
    requires Good(sha, data, d)
    ensures |data| == d.size
  {
  }

  lemma ResetPinned(sha: Bytes -> Digest, s: State, c: nat)
    requires Pinned(sha, s) && c in s.commits
    ensures Pinned(sha, s.(t := Reset(s.t, s.commits[c].snap, s.now), commits := s.commits - {c}))
  {
    hide Parse, MetaOf, StagesOk, RowsOk, FinalsOk, OneShotsOk;
    var k := s.commits[c].snap;
    var s1 := s.(t := Reset(s.t, k, s.now));
    if s1.t != s.t {
      assert SessionOk(s, k.upload, s.t.sessions[k.upload]);
      SessionPinned(sha, s, s1, k.upload);
    }
    ShrinkPinned(sha, s1, s1.(commits := s.commits - {c}));
  }

  lemma ReservePinned(sha: Bytes -> Digest, s: State, u: UserId, f: FileId, data: Bytes, limit: int)
    requires Pinned(sha, s)
    ensures Pinned(sha, FileStep(sha, false, s, ReserveFile(u, f, data, limit)))
  {
    hide Parse, Charge, SessionsOk, StagesOk, RowsOk;
    var s' := FileStep(sha, false, s, ReserveFile(u, f, data, limit));
    if s' != s {
      var s1 := s.(minted := s.minted[f := None], t := s.t.(users := s'.t.users));
      ShrinkPinned(sha, s, s1);
      assert f !in s.t.finals && f !in s.oneshots;
      var s2 := s1.(t := s'.t);
      RowPinned(sha, s1, s2, f);
      assert OneShotsOk(sha, s') by {
        forall g | g in s'.oneshots && g != f ensures OneShotOk(sha, s', g, s'.oneshots[g]) {
          assert OneShotOk(sha, s2, g, s2.oneshots[g]);
        }
      }
      OneShotFree(sha, s2, s');
    }
  }

  lemma OneShotFree(sha: Bytes -> Digest, s: State, s': State)
    requires Pinned(sha, s) && s' == s.(oneshots := s'.oneshots) && OneShotsOk(sha, s')
    ensures Pinned(sha, s')
  {
    hide Parse, MetaOf;
    assert forall c :: c in s'.commits ==> StageOk(sha, s, s.commits[c]) && StageOk(sha, s', s'.commits[c]);
    assert forall f :: f in s'.t.registry ==> RowOk(s, f, s.t.registry[f]) && RowOk(s', f, s'.t.registry[f]);
    assert forall f :: f in s'.t.finals ==> FinalOk(sha, s, f) && FinalOk(sha, s', f);
  }

  lemma PublishPinned(sha: Bytes -> Digest, s: State, f: FileId)
    requires Pinned(sha, s) && f in s.oneshots
    ensures Pinned(sha, s.(t := Publish(s.t, f, s.oneshots[f].data).0, oneshots := s.oneshots - {f}))
  {
    hide Parse, SessionsOk, StagesOk, RowsOk, FinalsOk;
    var data := s.oneshots[f].data;
    var t' := Publish(s.t, f, data).0;
    var s1 := s.(oneshots := s.oneshots - {f});
    assert OneShotOk(sha, s, f, s.oneshots[f]);
    ShrinkPinned(sha, s, s1);
    if f in s.t.registry && !s.t.registry[f].ready {
      var s2 := s1.(t := s1.t.(finals := s1.t.finals[f := data]));
      FinalPinned(sha, s1, s2, f);
      RowPinned(sha, s2, s2.(t := t'), f);
    } else {
      ShrinkPinned(sha, s1, s1.(t := t'));
    }
  }

  lemma AccountPinned(sha: Bytes -> Digest, s: State, a: AccountAction)
    requires Pinned(sha, s)
    ensures Pinned(sha, AccountStep(false, s, a))
  {
    hide Pinned, Pay;
    ShrinkPinned(sha, s, AccountStep(false, s, a));
  }

  lemma UploadPinned(sha: Bytes -> Digest, s: State, a: UploadAction)
    requires Pinned(sha, s)
    ensures Pinned(sha, UploadStep(sha, false, s, a))
  {
    hide Pinned, Pay, Create, Put;
    match a
    case OpenUpload(u, request, size, count, digest, limit, id) => OpenPinned(sha, s, a);
    case PutChunk(u, up, index, data, meta, startedAt) => PutPinned(sha, s, u, up, index, data, meta, startedAt);
    case Inspect(up) => ShrinkPinned(sha, s, s.(t := Heal(s.t, up)));
    case CancelUpload(u, up) => ShrinkPinned(sha, s, s.(t := Cancel(s.t, u, up, false).0));
    case ExpireUploads => ShrinkPinned(sha, s, s.(t := Expire(s.t, s.now, false)));
  }

  lemma CommitPinned(sha: Bytes -> Digest, s: State, a: CommitAction)
    requires Pinned(sha, s)
    ensures Pinned(sha, CommitStep(sha, s, a))
  {
    hide Pinned, Read, Take, ReadPart, LinkUp, Finish, Reset;
    match a
    case ReadCommit(c, u, up, digest, entries, newFile) => ReadPinned(sha, s, c, u, up, digest, entries, newFile);
    case ClaimCommit(c) => TakePinned(sha, s, c);
    case ReadChunk(c) => ReadPartPinned(sha, s, c);
    case LinkCommit(c) => LinkUpPinned(sha, s, c);
    case FinishCommit(c) =>
      if c in s.commits && s.commits[c].Linked? {
        FinishPinned(sha, s, c);
      }
    case ResetCommit(c) =>
      if c in s.commits {
        ResetPinned(sha, s, c);
      }
    case DropCommit(c) => ShrinkPinned(sha, s, s.(commits := s.commits - {c}));
  }

  lemma FilePinned(sha: Bytes -> Digest, s: State, a: FileAction)
    requires Pinned(sha, s)
    ensures Pinned(sha, FileStep(sha, false, s, a))
  {
    hide Pinned, Shrinks, Reserve, Publish, Rollback, Delete, DownloadBySession, DownloadByToken, CleanFiles;
    match a
    case ReserveFile(u, f, data, limit) => ReservePinned(sha, s, u, f, data, limit);
    case PublishFile(f) =>
      if f in s.oneshots {
        PublishPinned(sha, s, f);
      }
    case _ =>
      FileShrinks(sha, s, a);
      ShrinkPinned(sha, s, FileStep(sha, false, s, a));
  }

  lemma CleanFilesShrinks(t: Tables, now: Time)
    ensures TablesShrink(t, CleanFiles(t, now, false))
  {
    hide Pay;
  }

  lemma RemovalsShrink(t: Tables, f: FileId, u: UserId, size: nat)
    ensures TablesShrink(t, Rollback(t, f, u, size, false))
    ensures TablesShrink(t, Delete(t, u, f).0)
  {
    hide Release;
  }

  lemma DownloadsShrink(t: Tables, f: FileId, u: UserId, now: Time)
    ensures TablesShrink(t, DownloadBySession(t, u, f, now, false).0)
    ensures TablesShrink(t, DownloadByToken(t, f, now, false).0)
  {
    hide Release;
  }

  lemma FileShrinks(sha: Bytes -> Digest, s: State, a: FileAction)
    requires !a.ReserveFile? && !a.PublishFile?
    ensures Shrinks(s, FileStep(sha, false, s, a))
  {
    hide TablesShrink, Rollback, Delete, DownloadBySession, DownloadByToken, CleanFiles;
    match a
    case RollbackFile(f) =>
      if f in s.oneshots {
        RemovalsShrink(s.t, f, s.oneshots[f].owner, |s.oneshots[f].data|);
      } else {
        SameShrinks(s.t);
      }
    case DeleteFile(u, f) => RemovalsShrink(s.t, f, u, 0);
    case GetFile(u, f) => DownloadsShrink(s.t, f, u, s.now);
    case GetFileByToken(f) => DownloadsShrink(s.t, f, "", s.now);
    case CleanUp => CleanFilesShrinks(s.t, s.now);
  }

  lemma SameShrinks(t: Tables)
    ensures TablesShrink(t, t)
  {
  }

  lemma StepPinned(sha: Bytes -> Digest, s: State, a: Action)
    requires Pinned(sha, s)
    ensures Pinned(sha, Step(sha, false, s, a))
  {
    hide Pinned, AccountStep, UploadStep, CommitStep, FileStep;
    match a
    case Tick(d) => ShrinkPinned(sha, s, s.(now := s.now + d));
    case Account(b) => AccountPinned(sha, s, b);
    case Upload(b) => UploadPinned(sha, s, b);
    case Commit(b) => CommitPinned(sha, s, b);
    case File(b) => FilePinned(sha, s, b);
    case Disk(b) => ShrinkPinned(sha, s, DiskStep(s, b));
  }

  // ---------- No step takes away a file that a row still needs ----------

  /** Row f is ready, or a handler is about to make it so. */
  ghost predicate Needs(s: State, f: FileId) {
    || (f in s.t.registry && s.t.registry[f].ready)
    || (exists c :: c in s.commits && Finishing(s, s.commits[c]) && s.commits[c].snap.fileId == f)
  }

  ghost predicate Finishing(s: State, g: Stage) {
    g.Linked? && g.snap.upload in s.t.sessions && s.t.sessions[g.snap.upload].phase != Committed
  }

  lemma PresentMeansNeeds(s: State)
    ensures Present(s) <==> forall f :: Needs(s, f) ==> f in s.t.finals || f in s.lost
  {
    if Present(s) {
      forall f | Needs(s, f) ensures f in s.t.finals || f in s.lost {
      }
    }
    if forall f :: Needs(s, f) ==> f in s.t.finals || f in s.lost {
      forall c | c in s.commits && Finishing(s, s.commits[c])
        ensures s.commits[c].snap.fileId in s.t.finals || s.commits[c].snap.fileId in s.lost
      {
        assert Needs(s, s.commits[c].snap.fileId);
      }
      forall f | f in s.t.registry && s.t.registry[f].ready ensures f in s.t.finals || f in s.lost {
        assert Needs(s, f);
      }
    }
  }

  /** A step keeps files present if whatever is needed after it was needed before or was just
      written, and no needed file is removed. */
  lemma PresentAfter(s: State, s': State, added: set<FileId>, cut: set<FileId>)
    requires Present(s)
    requires forall f :: Needs(s', f) ==> (Needs(s, f) || f in added) && f !in cut
    requires forall f :: f in s.t.finals && f !in cut ==> f in s'.t.finals || f in s'.lost
    requires forall f :: f in added ==> f in s'.t.finals
    requires s.lost <= s'.lost
    ensures Present(s')
  {
    PresentMeansNeeds(s);
    PresentMeansNeeds(s');
  }

  lemma NeedsOnlyShrinks(s: State, s': State, f: FileId)
    requires Shrinks(s, s') && Needs(s', f)
    ensures Needs(s, f)
  {
    if !(f in s'.t.registry && s'.t.registry[f].ready) {
      var c :| c in s'.commits && Finishing(s', s'.commits[c]) && s'.commits[c].snap.fileId == f;
      assert c in s.commits && Finishing(s, s.commits[c]);
    }
  }

  /** Cutting the files of dropped sessions: they belong to no row and to no other session. */
  lemma UnlinkedNotNeeded(sha: Bytes -> Digest, s: State, s': State, gone: set<UploadId>, f: FileId)
    requires Pinned(sha, s) && Shrinks(s, s') && f in UnlinkedWith(s.t.sessions, gone)
    requires forall id :: id in gone ==> id !in s'.t.sessions
    ensures !Needs(s', f)
  {
    var id :| id in s.t.sessions && id in gone && s.t.sessions[id].phase != Committed && s.t.sessions[id].fileId == Some(f);
    assert SessionOk(s, id, s.t.sessions[id]);
    assert f in s.t.registry ==> RowOk(s, f, s.t.registry[f]);
    forall c | c in s'.commits && Finishing(s', s'.commits[c]) ensures s'.commits[c].snap.fileId != f {
      assert StageOk(sha, s, s.commits[c]);
    }
  }

  /** Cutting the file of a row that goes with it: no uncommitted session has that file. */
  lemma DroppedRowNotNeeded(sha: Bytes -> Digest, s: State, s': State, f: FileId)
    requires Pinned(sha, s) && Shrinks(s, s') && f in s.t.registry && f !in s'.t.registry
    ensures !Needs(s', f)
  {
    assert RowOk(s, f, s.t.registry[f]);
    forall c | c in s'.commits && Finishing(s', s'.commits[c]) ensures s'.commits[c].snap.fileId != f {
      assert StageOk(sha, s, s.commits[c]);
    }
  }

  lemma OneShotNotNeeded(sha: Bytes -> Digest, s: State, s': State, f: FileId)
    requires Pinned(sha, s) && Shrinks(s, s') && f in s.oneshots
    ensures !Needs(s', f)
  {
    assert OneShotOk(sha, s, f, s.oneshots[f]);
    forall c | c in s'.commits && Finishing(s', s'.commits[c]) ensures s'.commits[c].snap.fileId != f {
      assert StageOk(sha, s, s.commits[c]);
    }
  }

  lemma ShrinkPresent(s: State, s': State, cut: set<FileId>)
    requires Present(s) && Shrinks(s, s') && s.lost == s'.lost
    requires forall f :: f in cut ==> !Needs(s', f)
    requires forall f :: f in s.t.finals && f !in cut ==> f in s'.t.finals
    ensures Present(s')
  {
    forall f | Needs(s', f) ensures Needs(s, f) && f !in cut {
      NeedsOnlyShrinks(s, s', f);
    }
    PresentAfter(s, s', {}, cut);
  }

  lemma SessionsGonePresent(sha: Bytes -> Digest, s: State, gone: set<UploadId>)
    requires Pinned(sha, s) && Present(s)
    ensures Present(s.(t := DropSessions(s.t, gone, false)))
  {
    hide Pinned, Pay, Needs, Present;
    var s' := s.(t := DropSessions(s.t, gone, false));
    forall f | f in UnlinkedWith(s.t.sessions, gone) ensures !Needs(s', f) {
      UnlinkedNotNeeded(sha, s, s', gone, f);
    }
    ShrinkPresent(s, s', UnlinkedWith(s.t.sessions, gone));
  }

  lemma RowsGonePresent(sha: Bytes -> Digest, s: State, s': State, fs: set<FileId>)
    requires Pinned(sha, s) && Present(s) && fs <= s.t.registry.Keys
    requires s' == s.(t := s'.t) && s'.t.sessions == s.t.sessions
    requires s'.t.registry == s.t.registry - fs && s'.t.finals == s.t.finals - fs
    ensures Present(s')
  {
    hide Pinned, Needs, Present;
    forall f | f in fs ensures !Needs(s', f) {
      DroppedRowNotNeeded(sha, s, s', f);
    }
    ShrinkPresent(s, s', fs);
  }

  lemma AccountPresent(sha: Bytes -> Digest, s: State, a: AccountAction)
    requires Pinned(sha, s) && Present(s)
    ensures Present(AccountStep(false, s, a))
  {
    hide Pinned, Present, DropSessions;
    var s' := AccountStep(false, s, a);
    match a
    case SignUp(u) => ShrinkPresent(s, s', {});
    case SignOff(u) =>
      if u in s.t.users {
        PurgedPresent(sha, s, u);
        var s1 := s.(t := Purge(s.t, u, false));
        RowsGonePresent(sha, s1, s', FilesOf(s1.t, u));
      }
    case ResetAccount(u) =>
      PurgedPresent(sha, s, u);
      var s1 := s.(t := Purge(s.t, u, false));
      if FilesOf(s1.t, u) != {} {
        RowsGonePresent(sha, s1, s', FilesOf(s1.t, u));
      }
  }

  lemma PurgedPresent(sha: Bytes -> Digest, s: State, u: UserId)
    requires Pinned(sha, s) && Present(s)
    ensures Present(s.(t := Purge(s.t, u, false))) && Pinned(sha, s.(t := Purge(s.t, u, false)))
  {
    hide Pinned, Present, Pay;
    SessionsGonePresent(sha, s, OwnedBy(s.t, u));
    ShrinkPinned(sha, s, s.(t := Purge(s.t, u, false)));
  }

  /** Steps on sessions that leave committed ones committed and uncommitted ones uncommitted. */
  lemma TouchPresent(s: State, s': State)
    requires Present(s) && s.lost == s'.lost
    requires s'.t.registry == s.t.registry && s'.t.finals == s.t.finals && Sub(s'.commits, s.commits)
    requires forall up :: up in s'.t.sessions && s'.t.sessions[up].phase != Committed ==>
               (up in s.t.sessions && s.t.sessions[up].phase != Committed)
               || (forall c :: c in s.commits ==> s.commits[c].snap.upload != up)
    ensures Present(s')
  {
  }

  lemma UploadPresent(sha: Bytes -> Digest, s: State, a: UploadAction)
    requires Pinned(sha, s) && Present(s)
    ensures Present(UploadStep(sha, false, s, a))
  {
    hide Pinned, Present, DropSessions, Pay, Release, Charge, MetaOf;
    var s' := UploadStep(sha, false, s, a);
    match a
    case OpenUpload(u, request, size, count, digest, limit, id) =>
      if id !in s.declared {
        NotUnderWay(sha, s, id);
        TouchPresent(s, s');
      }
    case PutChunk(u, up, index, data, meta, startedAt) => TouchPresent(s, s');
    case Inspect(up) => TouchPresent(s, s');
    case CancelUpload(u, up) => TouchPresent(s, s');
    case ExpireUploads => SessionsGonePresent(sha, s, ExpiredAt(s.t, s.now));
  }

  lemma NotUnderWay(sha: Bytes -> Digest, s: State, id: UploadId)
    requires Pinned(sha, s) && id !in s.declared
    ensures forall c :: c in s.commits ==> s.commits[c].snap.upload != id
  {
    assert forall c :: c in s.commits ==> StageOk(sha, s, s.commits[c]);
  }

  lemma ReadPresent(s: State, c: nat, u: UserId, up: UploadId, digest: Digest, entries: seq<Entry>, file: FileId)
    requires Present(s)
    ensures Present(Read(s, c, u, up, digest, entries, file))
  {
    hide BeginRead;
  }

  lemma TakePresent(s: State, c: nat)
    requires Present(s)
    ensures Present(Take(s, c))
  {
  }

  lemma ReadPartPresent(sha: Bytes -> Digest, s: State, c: nat)
    requires Present(s)
    ensures Present(ReadPart(sha, s, c))
  {
    hide Present, Passes;
    StagePresent(s, ReadPart(sha, s, c), c);
  }

  lemma LinkUpPresent(sha: Bytes -> Digest, s: State, c: nat)
    requires Present(s)
    ensures Present(LinkUp(sha, s, c))
  {
    hide Present, CanLink, Link, MetaOf, Concat;
    if c in s.commits && s.commits[c].Owning? {
      var k, chunks := s.commits[c].snap, s.commits[c].chunks;
      LinkPresent(s, k, chunks, c);
      StagePresent(s, s.(commits := s.commits - {c}), c);
      StagePresent(s, s.(commits := s.commits[c := Failing(k)]), c);
    }
  }

  lemma LinkPresent(s: State, k: Snap, chunks: seq<Bytes>, c: nat)
    requires Present(s)
    ensures Present(s.(t := Link(s.t, k.fileId, Concat(chunks)), commits := s.commits[c := Linked(k, chunks)]))
  {
    hide Concat;
  }

  /** Only the handler c moved, and not to the stage that needs its file. */
  lemma StagePresent(s: State, s': State, c: nat)
    requires Present(s) && s'.t == s.t && s'.lost == s.lost
    requires forall d :: d in s'.commits && s'.commits[d].Linked? ==> d in s.commits && s'.commits[d] == s.commits[d]
    ensures Present(s')
  {
  }

  lemma CommitPresent(sha: Bytes -> Digest, s: State, a: CommitAction)
    requires Present(s)
    ensures Present(CommitStep(sha, s, a))
  {
    hide Present, Read, Take, ReadPart, LinkUp, Finish, Reset;
    match a
    case ReadCommit(c, u, up, digest, entries, newFile) => ReadPresent(s, c, u, up, digest, entries, newFile);
    case ClaimCommit(c) => TakePresent(s, c);
    case ReadChunk(c) => ReadPartPresent(sha, s, c);
    case LinkCommit(c) => LinkUpPresent(sha, s, c);
    case FinishCommit(c) => FinishPresent(s, c);
    case ResetCommit(c) => ResetPresent(s, c);
    case DropCommit(c) => StagePresent(s, s.(commits := s.commits - {c}), c);
  }

  lemma FinishPresent(s: State, c: nat)
    requires Present(s)
    ensures c in s.commits && s.commits[c].Linked? ==>
              Present(s.(t := Finish(s.t, s.commits[c].snap, |Concat(s.commits[c].chunks)|, s.now).0, commits := s.commits - {c}))
  {
  }

  lemma ResetPresent(s: State, c: nat)
    requires Present(s)
    ensures c in s.commits && s.commits[c].Failing? ==>
              Present(s.(t := Reset(s.t, s.commits[c].snap, s.now), commits := s.commits - {c}))
  {
  }

  lemma PublishPresent(sha: Bytes -> Digest, s: State, f: FileId)
    requires Pinned(sha, s) && Present(s) && f in s.oneshots
    ensures Present(s.(t := Publish(s.t, f, s.oneshots[f].data).0, oneshots := s.oneshots - {f}))
  {
    hide Pinned, Present, Needs;
    var s' := s.(t := Publish(s.t, f, s.oneshots[f].data).0, oneshots := s.oneshots - {f});
    if f in s.t.registry && !s.t.registry[f].ready {
      forall g | Needs(s', g) && g != f ensures Needs(s, g) {
        NeedsSameRow(s, s', g);
      }
      PresentAfter(s, s', {f}, {});
    } else {
      OneShotNotNeeded(sha, s, s', f);
      ShrinkPresent(s, s', {f});
    }
  }

  lemma NeedsSameRow(s: State, s': State, g: FileId)
    requires Needs(s', g) && s'.commits == s.commits && s'.t.sessions == s.t.sessions
    requires g in s'.t.registry ==> g in s.t.registry && s'.t.registry[g] == s.t.registry[g]
    ensures Needs(s, g)
  {
    if !(g in s'.t.registry && s'.t.registry[g].ready) {
      var c :| c in s'.commits && Finishing(s', s'.commits[c]) && s'.commits[c].snap.fileId == g;
      assert c in s.commits && Finishing(s, s.commits[c]);
    }
  }

  lemma ReservePresent(sha: Bytes -> Digest, s: State, a: FileAction)
    requires Present(s) && a.ReserveFile?
    ensures Present(FileStep(sha, false, s, a))
  {
    hide Charge;
  }

  lemma CleanPresent(sha: Bytes -> Digest, s: State)
    requires Pinned(sha, s) && Present(s)
    ensures Present(s.(t := CleanFiles(s.t, s.now, false)))
  {
    hide Pinned, Present, Pay;
    var s1 := s.(t := DropFiles(s.t, StalePending(s.t, s.now), false));
    RowsGonePresent(sha, s, s1, StalePending(s.t, s.now));
    ShrinkPinned(sha, s, s1);
    RowsGonePresent(sha, s1, s.(t := CleanFiles(s.t, s.now, false)), ExpiredFiles(s1.t, s.now));
  }

  lemma FilePresent(sha: Bytes -> Digest, s: State, a: FileAction)
    requires Pinned(sha, s) && Present(s)
    ensures Present(FileStep(sha, false, s, a))
  {
    hide Pinned, Present, Needs, Release, Reserve, Publish, CleanFiles, Shrinks;
    var s' := FileStep(sha, false, s, a);
    match a
    case ReserveFile(u, f, data, limit) => ReservePresent(sha, s, a);
    case PublishFile(f) =>
      if f in s.oneshots {
        PublishPresent(sha, s, f);
      }
    case RollbackFile(f) =>
      if f in s.oneshots {
        FileShrinks(sha, s, a);
        OneShotNotNeeded(sha, s, s', f);
        ShrinkPresent(s, s', {f});
      }
    case DeleteFile(u, f) =>
      if s' != s {
        RowsGonePresent(sha, s, s', {f});
      }
    case GetFile(u, f) =>
      FileShrinks(sha, s, a);
      ShrinkPresent(s, s', {});
    case GetFileByToken(f) =>
      FileShrinks(sha, s, a);
      ShrinkPresent(s, s', {});
    case CleanUp => CleanPresent(sha, s);
  }

  lemma StepPresent(sha: Bytes -> Digest, s: State, a: Action)
    requires Pinned(sha, s) && Present(s)
    ensures Present(Step(sha, false, s, a))
  {
    hide Pinned, AccountStep, UploadStep, CommitStep, FileStep;
    match a
    case Tick(d) =>
    case Account(b) => AccountPresent(sha, s, b);
    case Upload(b) => UploadPresent(sha, s, b);
    case Commit(b) => CommitPresent(sha, s, b);
    case File(b) => FilePresent(sha, s, b);
    case Disk(b) =>
  }
}
