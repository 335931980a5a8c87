/** What a session report and an undisturbed commit mean in a reachable state,
    and when the expiry cleanup may read its rows ahead of its transaction. */
module UploadReports {
  import opened Wrappers
  import opened Container
  import opened Ledger
  import opened Sorting
  import opened Uploads
  import opened Conservation
  import opened UploadRuns
  import opened UploadInvariant
  import opened UploadTheorems

  /** Repeating an accepted create, later and with any limit or fresh id, finds the session and changes nothing. */
  lemma CreateTwice(t: Tables, u: UserId, request: string, size: int, count: int, digest: Digest,
                    limit: int, id: UploadId, now: Time, limit': int, id': UploadId, later: Time)
    requires UniqueRequests(t) && Create(t, u, request, size, count, digest, limit, id, now).1 == Done
    ensures var t' := Create(t, u, request, size, count, digest, limit, id, now).0;
            && UniqueRequests(t')
            && |Requested(t', u, request)| == 1
            && Create(t', u, request, size, count, digest, limit', id', later) == (t', Done)
  {
    var t' := Create(t, u, request, size, count, digest, limit, id, now).0;
    var e :| e in if Requested(t, u, request) == {} then {id} else Requested(t, u, request);
    assert forall d :: d in t.sessions && t.sessions[d].owner == u && t.sessions[d].request == request ==> d in Requested(t, u, request);
    assert Requested(t', u, request) == {e};
  }

  /** Sessions keep their owner and request. */
  ghost predicate SameRequests(t: Tables, t': Tables) {
    forall id :: id in t'.sessions ==>
      id in t.sessions && t'.sessions[id].owner == t.sessions[id].owner && t'.sessions[id].request == t.sessions[id].request
  }

  lemma SameUnique(t: Tables, t': Tables)
    requires UniqueRequests(t) && SameRequests(t, t')
    ensures UniqueRequests(t')
  {
  }

  lemma CommitSame(sha: Bytes -> Digest, s: State, b: CommitAction)
    ensures SameRequests(s.t, CommitStep(sha, s, b).t)
  {
    hide SameRequests, Read, Take, ReadPart, LinkUp, Finish, Reset;
    NothingSame(s.t, CommitStep(sha, s, b).t);
    match b
    case ReadCommit(c, u, up, digest, entries, newFile) => ReadChunks(s, c, u, up, digest, entries, newFile);
    case ClaimCommit(c) => TakeSame(s, c);
    case ReadChunk(c) => ReadPartKeeps(sha, s, c);
    case LinkCommit(c) => LinkUpChunks(sha, s, c);
    case FinishCommit(c) =>
      if c in s.commits && s.commits[c].Linked? {
        FinishSame(s.t, s.commits[c].snap, |Concat(s.commits[c].chunks)|, s.now);
      }
    case ResetCommit(c) =>
      if c in s.commits && s.commits[c].Failing? {
        ResetSame(s.t, s.commits[c].snap, s.now);
      }
    case DropCommit(c) =>
  }

  lemma NothingSame(t: Tables, t': Tables)
    ensures t'.sessions == t.sessions ==> SameRequests(t, t')
  {
  }

  lemma TakeSame(s: State, c: nat)
    ensures SameRequests(s.t, Take(s, c).t)
  {
  }

  lemma FinishSame(t: Tables, k: Snap, size: nat, now: Time)
    ensures SameRequests(t, Finish(t, k, size, now).0)
  {
  }

  lemma ResetSame(t: Tables, k: Snap, now: Time)
    ensures SameRequests(t, Reset(t, k, now))
  {
  }

  lemma PutSame(sha: Bytes -> Digest, s: State, b: UploadAction)
    requires b.PutChunk?
    ensures SameRequests(s.t, UploadStep(sha, false, s, b).t)
  {
    hide MetaOf;
  }

  lemma OpenUnique(t: Tables, u: UserId, request: string, size: int, count: int, digest: Digest, limit: int, id: UploadId, now: Time)
    requires UniqueRequests(t)
    ensures UniqueRequests(Create(t, u, request, size, count, digest, limit, id, now).0)
  {
    hide Charge;
    assert forall d :: d in t.sessions && t.sessions[d].owner == u && t.sessions[d].request == request ==> d in Requested(t, u, request);
  }

  lemma StepUnique(sha: Bytes -> Digest, s: State, a: Action)
    requires UniqueRequests(s.t)
    ensures UniqueRequests(Step(sha, false, s, a).t)
  {
    hide UniqueRequests, AccountStep, CommitStep, FileStep, Create, Put, Heal, Cancel, Expire;
    var s' := Step(sha, false, s, a);
    match a
    case Commit(b) =>
      CommitSame(sha, s, b);
      SameUnique(s.t, s'.t);
    case Upload(OpenUpload(u, request, size, count, digest, limit, id)) =>
      OpenUnique(s.t, u, request, size, count, digest, limit, id, s.now);
    case Upload(PutChunk(_, _, _, _, _, _)) =>
      PutSame(sha, s, a.upload);
      SameUnique(s.t, s'.t);
    case _ =>
      RestFewer(sha, s, a);
      SameUnique(s.t, s'.t);
  }

  /** An owner's requests are unique in every reachable state. */
  lemma {:induction false} UniqueAt(sha: Bytes -> Digest, run: seq<Action>, n: nat)
    requires n <= |run|
    ensures UniqueRequests(At(sha, false, run, n).t)
  {
    if n > 0 {
      hide Step, UniqueRequests;
      UniqueAt(sha, run, n - 1);
      StepUnique(sha, At(sha, false, run, n - 1), run[n - 1]);
    }
  }

  // ---------- Received and missing ----------

  ghost predicate InRange(s: State) {
    forall up, i :: up in s.t.chunks && i in s.t.chunks[up] ==> up in s.declared && i < s.declared[up].count
  }

  lemma UploadInRange(sha: Bytes -> Digest, s: State, b: UploadAction)
    requires InRange(s) && SessionsOk(s)
    ensures InRange(UploadStep(sha, false, s, b))
  {
    hide Pay, MetaOf, Charge, Release;
    if b.PutChunk? && b.up in s.t.sessions {
      assert SessionOk(s, b.up, s.t.sessions[b.up]);
    }
  }

  lemma FewerChunks(s: State, s': State)
    requires InRange(s) && Sub(s'.t.chunks, s.t.chunks) && Sub(s.declared, s'.declared)
    ensures InRange(s')
  {
  }

  lemma SameChunks(s: State, s': State)
    requires InRange(s) && s'.t.chunks == s.t.chunks && Sub(s.declared, s'.declared)
    ensures InRange(s')
  {
  }

  lemma StepInRange(sha: Bytes -> Digest, s: State, a: Action)
    requires InRange(s) && SessionsOk(s)
    ensures InRange(Step(sha, false, s, a))
  {
    hide InRange, SessionsOk, AccountStep, UploadStep, CommitStep, FileStep, DiskStep, Sub;
    StepDeclares(sha, s, a);
    match a
    case Upload(b) => UploadInRange(sha, s, b);
    case Account(b) =>
      AccountChunks(s, b, "", 0);
      FewerChunks(s, Step(sha, false, s, a));
    case Commit(b) =>
      CommitChunks(sha, s, b, "", 0);
      FewerChunks(s, Step(sha, false, s, a));
    case File(b) =>
      FileMoves(sha, s, b);
      SameChunks(s, Step(sha, false, s, a));
    case Tick(_) => SameChunks(s, Step(sha, false, s, a));
    case Disk(b) =>
      DiskTables(s, b);
      SameChunks(s, Step(sha, false, s, a));
  }

  lemma DiskTables(s: State, b: DiskAction)
    ensures DiskStep(s, b).t.sessions == s.t.sessions && DiskStep(s, b).t.chunks == s.t.chunks
  {
  }

  lemma SessionsOkAt(sha: Bytes -> Digest, run: seq<Action>, n: nat)
    requires n <= |run|
    ensures SessionsOk(At(sha, false, run, n))
  {
    hide Step, Conserved, Present;
    InvAt(sha, run, n);
  }

  lemma {:induction false} InRangeAt(sha: Bytes -> Digest, run: seq<Action>, n: nat)
    requires n <= |run|
    ensures InRange(At(sha, false, run, n))
  {
    if n > 0 {
      hide *;
      InRangeAt(sha, run, n - 1);
      SessionsOkAt(sha, run, n - 1);
      StepInRange(sha, At(sha, false, run, n - 1), run[n - 1]);
      Next(sha, run, n - 1);
    }
  }

  /** In every reachable state the two lists divide 0 .. count - 1 between them, and a chunk is received
      exactly when its row and a file of the recorded size are both there. */
  lemma ReportPartitions(sha: Bytes -> Digest, run: seq<Action>, n: nat, up: UploadId, received: seq<nat>, missing: seq<nat>)
    requires n <= |run| && up in At(sha, false, run, n).t.sessions
    requires Reported(At(sha, false, run, n).t, up, received, missing)
    ensures forall i: nat :: i < At(sha, false, run, n).t.sessions[up].count <==> i in received || i in missing
    ensures forall i: nat :: !(i in received && i in missing)
    ensures |received| + |missing| == At(sha, false, run, n).t.sessions[up].count
  {
    hide At, Conserved, Present;
    InRangeAt(sha, run, n);
    SessionsOkAt(sha, run, n);
    var s := At(sha, false, run, n);
    assert SessionOk(s, up, s.t.sessions[up]);
    AscendingSize(received);
    AscendingSize(missing);
    assert Members(received) + Members(missing) == Upto(s.t.sessions[up].count);
    assert |Members(received) + Members(missing)| == |Members(received)| + |Members(missing)| by {
      assert Members(received) !! Members(missing);
    }
  }

  function Upto(n: nat): (s: set<nat>)
    ensures |s| == n && forall i: nat :: i in s <==> i < n
  {
    if n == 0 then {} else Upto(n - 1) + {n - 1}
  }

  // ---------- The manifest of a commit ----------

  lemma {:induction false} ManifestKeys(entries: seq<Entry>, count: nat)
    requires Manifest(entries, count).Some?
    ensures |Manifest(entries, count).value| == |entries|
    ensures forall i :: i in Manifest(entries, count).value ==> i < count
  {
    if entries != [] {
      ManifestKeys(entries[..|entries| - 1], count);
    }
  }

  lemma FullSet(s: set<nat>, n: nat)
    requires |s| == n && forall i :: i in s ==> i < n
    ensures s == Upto(n)
  {
    assert s <= Upto(n);
    assert |Upto(n) - s| == |Upto(n)| - |s|;
    assert Upto(n) == (Upto(n) - s) + s;
  }

  /** The checks of a commit compare counts and one direction only; together they force the manifest to be
      the stored rows, one for every index below the count. */
  lemma ReadyManifest(t: Tables, u: UserId, up: UploadId, digest: Digest, entries: seq<Entry>, file: FileId, now: Time)
    requires BeginRead(t, u, up, digest, entries, file, now).Ready?
    ensures var k := BeginRead(t, u, up, digest, entries, file, now).snap;
            && k.manifest == RowsOf(t.chunks, up)
            && forall i: nat :: i in k.manifest <==> i < k.row.count
  {
    hide Manifest;
    var k, rows := BeginRead(t, u, up, digest, entries, file, now).snap, RowsOf(t.chunks, up);
    ManifestKeys(entries, k.row.count);
    FullSet(k.manifest.Keys, k.row.count);
    assert forall i :: i in rows ==> i in k.manifest;
    FullSet(rows.Keys, k.row.count);
  }
}
