/** Two runs of the empty server, for any digest function whose values are
    well-formed digests, in which the handlers go wrong: the expiry cleanup that
    reads its rows too early, and the commit that names an unregistered file. */
module UploadExamples {
  import opened Wrappers
  import opened Container
  import opened Ledger
  import opened Uploads
  import opened Conservation
  import opened UploadRuns
  import opened UploadTheorems
  import opened UploadFileIds
  import opened LateCleanup

  // ---------- A smallest upload: one empty final frame ----------

  function Zeros(n: nat): (z: Bytes)
    ensures |z| == n
  {
    if n == 0 then [] else Zeros(n - 1) + [0]
  }

  function TinyHeader(): Bytes {
    MAGIC + [2, 1, 0, 0] + ToBe32(PLAIN) + Zeros(32)
  }

  function Tiny(): Bytes {
    TinyHeader() + EncodeFrame(Frame([], Zeros(TAG)))
  }

  lemma TinyPasses()
    ensures |Tiny()| == 68 && Check(Tiny(), 0, true) == None
  {
    var h := TinyHeader();
    Be32OfTo(PLAIN);
    assert h[..8] == MAGIC && h[8] == 2 && h[9] == 1 && h[10..12] == [0, 0] && h[12..16] == ToBe32(PLAIN);
    CheckComplete(h, Frame([], Zeros(TAG)), 0, true);
  }

  lemma TinyAlone()
    ensures Concat([Tiny()]) == Tiny()
  {
    assert [Tiny()][1..] == [];
    assert Tiny() + [] == Tiny();
  }

  // ---------- Open, put, read and claim ----------

  function SessionRow(sha: Bytes -> Digest, phase: Phase, file: Option<FileId>, updatedAt: Time): Session {
    Session("u", "request", phase, 68, 1, sha(Tiny()), file, 68, updatedAt, SESSION_TTL)
  }

  function SnapAt(sha: Bytes -> Digest, phase: Phase, file: Option<FileId>, stale: bool): Snap {
    Snap("s", "u", SessionRow(sha, phase, file, 0), map[0 := MetaOf(sha, Tiny())], stale, "a")
  }

  function EntryOf(sha: Bytes -> Digest): Entry {
    Entry(0, 68, sha(Tiny()))
  }

  function Opening(sha: Bytes -> Digest): seq<Action> {
    [Account(SignUp("u")),
     Upload(OpenUpload("u", "request", 68, 1, sha(Tiny()), 68, "s")),
     Upload(PutChunk("u", "s", 0, Tiny(), MetaOf(sha, Tiny()), 0)),
     Commit(ReadCommit(0, "u", "s", sha(Tiny()), [EntryOf(sha)], "a")),
     Commit(ClaimCommit(0))]
  }

  /** The server with that one session: its row, the chunk if it is still there, the handlers and the drawn file ids. */
  function One(sha: Bytes -> Digest, row: Session, now: Time, there: bool, finals: map<FileId, Bytes>,
               registry: map<FileId, FileRow>, commits: map<nat, Stage>): State {
    State(
      Tables(map["u" := 68], map["s" := row], map["s" := map[0 := MetaOf(sha, Tiny())]], registry,
             map["s" := if there then map[0 := Tiny()] else map[]], finals),
      now, commits, map[], map["s" := Decl("u", 68, 1, sha(Tiny()))], map["a" := Some("s")], {})
  }

  function Claimed(sha: Bytes -> Digest): State {
    One(sha, SessionRow(sha, Committing, Some("a"), 0), 0, true, map[], map[], map[0 := Owning(SnapAt(sha, Pending, None, false), [])])
  }

  lemma Continues(sha: Bytes -> Digest, run: seq<Action>, n: nat, a: Action)
    requires n < |run| && run[n] == a
    ensures At(sha, false, run, n + 1) == Step(sha, false, At(sha, false, run, n), a)
  {
  }

  lemma ManifestOfOne(sha: Bytes -> Digest)
    requires HexDigest(sha(Tiny()))
    ensures Manifest([EntryOf(sha)], 1) == Some(map[0 := MetaOf(sha, Tiny())]) && EntrySizes([EntryOf(sha)]) == 68
  {
    TinyPasses();
    var e := EntryOf(sha);
    assert [e][..0] == [];
    assert Manifest([], 1) == Some(map[]) && EntrySizes([]) == 0;
    assert GoodEntry(e, 1, map[]);
  }

  function Signed(): State {
    EMPTY.(t := EMPTY.t.(users := map["u" := 0]))
  }

  function Opened(sha: Bytes -> Digest): State {
    State(
      Tables(map["u" := 68], map["s" := SessionRow(sha, Pending, None, 0)], map[], map[], map[], map[]),
      0, map[], map[], map["s" := Decl("u", 68, 1, sha(Tiny()))], map[], {})
  }

  function Stored(sha: Bytes -> Digest): State {
    One(sha, SessionRow(sha, Pending, None, 0), 0, true, map[], map[], map[]).(minted := map[])
  }

  function ReadOnce(sha: Bytes -> Digest): State {
    One(sha, SessionRow(sha, Pending, None, 0), 0, true, map[], map[], map[0 := Reading(SnapAt(sha, Pending, None, false))])
  }

  lemma SignStep(sha: Bytes -> Digest)
    ensures Step(sha, false, EMPTY, Opening(sha)[0]) == Signed()
  {
  }

  lemma OpenStep(sha: Bytes -> Digest)
    requires HexDigest(sha(Tiny()))
    ensures Step(sha, false, Signed(), Opening(sha)[1]) == Opened(sha)
  {
    assert Requested(Signed().t, "u", "request") == {} && Active(Signed().t, "u", 0) == {};
  }

  lemma PutStep(sha: Bytes -> Digest)
    requires HexDigest(sha(Tiny()))
    ensures Step(sha, false, Opened(sha), Opening(sha)[2]) == Stored(sha)
  {
    TinyPasses();
    hide Tiny, HexDigest;
  }

  lemma ReadStep(sha: Bytes -> Digest)
    requires HexDigest(sha(Tiny()))
    ensures Step(sha, false, Stored(sha), Opening(sha)[3]) == ReadOnce(sha)
  {
    ManifestOfOne(sha);
    hide Tiny, HexDigest, Manifest, EntrySizes;
  }

  lemma ClaimStep(sha: Bytes -> Digest)
    ensures Step(sha, false, ReadOnce(sha), Opening(sha)[4]) == Claimed(sha)
  {
    hide Tiny, HexDigest;
  }

  lemma OpeningRuns(sha: Bytes -> Digest, run: seq<Action>)
    requires HexDigest(sha(Tiny())) && Opening(sha) <= run
    ensures At(sha, false, run, 5) == Claimed(sha)
  {
    assert forall i :: 0 <= i < 5 ==> run[i] == Opening(sha)[i];
    assert At(sha, false, run, 0) == EMPTY;
    hide Step, Claimed, ReadOnce, Stored, Opened, Signed, HexDigest, Tiny;
    Continues(sha, run, 0, Opening(sha)[0]);
    SignStep(sha);
    Continues(sha, run, 1, Opening(sha)[1]);
    OpenStep(sha);
    Continues(sha, run, 2, Opening(sha)[2]);
    PutStep(sha);
    Continues(sha, run, 3, Opening(sha)[3]);
    ReadStep(sha);
    Continues(sha, run, 4, Opening(sha)[4]);
    ClaimStep(sha);
  }

  // ---------- The cleanup that reads too early ----------

  function LateRun(sha: Bytes -> Digest): seq<Action> {
    Opening(sha) + [Tick(SESSION_TTL), Commit(ReadChunk(0)), Commit(LinkCommit(0)), Commit(FinishCommit(0))]
  }

  function Late(sha: Bytes -> Digest, chunks: seq<Bytes>): State {
    One(sha, SessionRow(sha, Committing, Some("a"), 0), SESSION_TTL, true, map[], map[],
        map[0 := Owning(SnapAt(sha, Pending, None, false), chunks)])
  }

  function LateLinked(sha: Bytes -> Digest): State {
    One(sha, SessionRow(sha, Committing, Some("a"), 0), SESSION_TTL, true, map["a" := Tiny()], map[],
        map[0 := Linked(SnapAt(sha, Pending, None, false), [Tiny()])])
  }

  function LateDone(sha: Bytes -> Digest): State {
    var row := SessionRow(sha, Committed, Some("a"), SESSION_TTL).(expiresAt := SESSION_TTL + RETENTION);
    var file := FileRow("u", 68, true, SESSION_TTL, SESSION_TTL + RETENTION, sha(Tiny()));
    var s := One(sha, row, SESSION_TTL, true, map["a" := Tiny()], map["a" := file], map[]);
    s.(t := s.t.(parts := map[]))
  }

  lemma LateReads(sha: Bytes -> Digest)
    ensures Step(sha, false, Late(sha, []), Commit(ReadChunk(0))) == Late(sha, [Tiny()])
  {
    TinyPasses();
    hide Tiny, Check;
    var k := SnapAt(sha, Pending, None, false);
    assert Passes(sha, Tiny(), 0, k);
    assert [] + [Tiny()] == [Tiny()];
  }

  lemma LateLinks(sha: Bytes -> Digest)
    ensures Step(sha, false, Late(sha, [Tiny()]), Commit(LinkCommit(0))) == LateLinked(sha)
  {
    TinyPasses();
    TinyAlone();
    hide Tiny, Check, Concat;
  }

  lemma LateFinishes(sha: Bytes -> Digest)
    ensures Step(sha, false, LateLinked(sha), Commit(FinishCommit(0))) == LateDone(sha)
  {
    TinyPasses();
    TinyAlone();
    hide Tiny, Check, Concat;
  }

  lemma LateStates(sha: Bytes -> Digest)
    requires HexDigest(sha(Tiny()))
    ensures At(sha, false, LateRun(sha), 6) == Late(sha, [])
    ensures At(sha, false, LateRun(sha), 9) == LateDone(sha)
  {
    var run := LateRun(sha);
    assert run[5] == Tick(SESSION_TTL) && run[6] == Commit(ReadChunk(0));
    assert run[7] == Commit(LinkCommit(0)) && run[8] == Commit(FinishCommit(0));
    assert Step(sha, false, Claimed(sha), Tick(SESSION_TTL)) == Late(sha, []);
    hide *;
    LateOpens(sha);
    Continues(sha, run, 5, Tick(SESSION_TTL));
    Continues(sha, run, 6, Commit(ReadChunk(0)));
    LateReads(sha);
    Continues(sha, run, 7, Commit(LinkCommit(0)));
    LateLinks(sha);
    Continues(sha, run, 8, Commit(FinishCommit(0)));
    LateFinishes(sha);
  }

  lemma LateOpens(sha: Bytes -> Digest)
    requires HexDigest(sha(Tiny()))
    ensures |LateRun(sha)| == 9 && At(sha, false, LateRun(sha), 5) == Claimed(sha)
  {
    hide Claimed, HexDigest, Tiny;
    OpeningRuns(sha, LateRun(sha));
  }

  lemma LateRows(sha: Bytes -> Digest)
    ensures ExpiredRows(Late(sha, []).t, SESSION_TTL) == map["s" := SessionRow(sha, Committing, Some("a"), 0)]
  {
    hide Tiny;
  }

  lemma LateOwes(sha: Bytes -> Digest)
    ensures Reservations(map["s" := SessionRow(sha, Committing, Some("a"), 0)]) == map["s" := Debt("u", 68)]
    ensures Reservations(LateDone(sha).t.sessions) == map[]
    ensures Owed(map["s" := Debt("u", 68)], "u") == 68 && Owes(map["s" := Debt("u", 68)], "u")
  {
    hide Tiny;
    var none: map<UploadId, Debt> := map[];
    var d := none["s" := Debt("u", 68)];
    OwedAdd(none, "s", Debt("u", 68), "u");
    assert d == map["s" := Debt("u", 68)];
    assert "s" in d && d["s"].owner == "u";
  }

  /** The cleanup reads the session when it has just expired; the commit under way still finishes; then the cleanup
      writes. The counter is zero and the file is registered. */
  lemma CleanupLosesCounter(sha: Bytes -> Digest)
    requires HexDigest(sha(Tiny()))
    ensures var run := LateRun(sha);
            var rows := ExpiredRows(At(sha, false, run, 6).t, At(sha, false, run, 6).now);
            var t := LateExpire(At(sha, false, run, 9).t, rows);
            !Conserved(t) && t.users == map["u" := 0] && "a" in t.registry && t.registry["a"].size == 68
  {
    var run, rows := LateRun(sha), map["s" := SessionRow(sha, Committing, Some("a"), 0)];
    var t := LateDone(sha).t;
    assert LateExpire(t, rows).users == map["u" := 0] by {
      hide Tiny, Owed, Owes, Reservations;
      LateOwes(sha);
    }
    assert !NoneLost(t, rows, "u") by {
      hide Tiny;
      assert "s" in rows && rows["s"].owner == "u" && !StillHeld(t, "s");
    }
    assert t.users["u"] == 68 && "u" in t.users && Owed(Only(Reservations(t.sessions), rows.Keys), "u") == 0 by {
      hide Tiny;
      LateOwes(sha);
      assert Only(Reservations(t.sessions), rows.Keys) == map[];
    }
    assert "a" in LateExpire(t, rows).registry && LateExpire(t, rows).registry["a"].size == 68 by {
      hide Tiny;
    }
    hide *;
    LateStates(sha);
    LateRows(sha);
    LateNow(sha);
    LateExpireExactly(sha, run, 6, 9);
  }

  lemma LateNow(sha: Bytes -> Digest)
    ensures Late(sha, []).now == SESSION_TTL && |LateRun(sha)| == 9
  {
  }

  // ---------- The commit that names an unregistered file ----------

  function Takeover(sha: Bytes -> Digest): seq<Action> {
    [Tick(COMMIT_LEASE),
     Commit(ReadCommit(1, "u", "s", sha(Tiny()), [EntryOf(sha)], "b")),
     Commit(ClaimCommit(1)),
     Commit(ReadChunk(0)),
     Commit(LinkCommit(0)),
     Disk(LosePart("s", 0)),
     Commit(ReadChunk(1))]
  }

  function Ending(sha: Bytes -> Digest): seq<Action> {
    [Commit(ResetCommit(1)),
     Upload(PutChunk("u", "s", 0, Tiny(), MetaOf(sha, Tiny()), COMMIT_LEASE)),
     Commit(ReadCommit(2, "u", "s", sha(Tiny()), [Entry(0, |Tiny()|, sha(Tiny()))], "c")),
     Commit(ClaimCommit(2)),
     Commit(FinishCommit(0))]
  }

  function NameRun(sha: Bytes -> Digest): seq<Action> {
    Opening(sha) + Takeover(sha) + Ending(sha)
  }

  /** Two handlers of the session, five minutes after it was opened. */
  function Two(sha: Bytes -> Digest, updatedAt: Time, there: bool, finals: map<FileId, Bytes>, first: Stage, second: Option<Stage>): State {
    One(sha, SessionRow(sha, Committing, Some("a"), updatedAt), COMMIT_LEASE, there, finals, map[],
        if second.Some? then map[0 := first, 1 := second.value] else map[0 := first])
  }

  function FirstSnap(sha: Bytes -> Digest): Snap {
    SnapAt(sha, Pending, None, false)
  }

  function SecondSnap(sha: Bytes -> Digest): Snap {
    SnapAt(sha, Committing, Some("a"), true)
  }

  function TakeoverState(sha: Bytes -> Digest, n: nat): State
    requires n <= 7
  {
    var a0, a1, a2 := Owning(FirstSnap(sha), []), Owning(FirstSnap(sha), [Tiny()]), Linked(FirstSnap(sha), [Tiny()]);
    var b0, b1, b2 := Reading(SecondSnap(sha)), Owning(SecondSnap(sha), []), Failing(SecondSnap(sha));
    if n == 0 then Claimed(sha)
    else if n == 1 then Two(sha, 0, true, map[], a0, None)
    else if n == 2 then Two(sha, 0, true, map[], a0, Some(b0))
    else if n == 3 then Two(sha, COMMIT_LEASE, true, map[], a0, Some(b1))
    else if n == 4 then Two(sha, COMMIT_LEASE, true, map[], a1, Some(b1))
    else if n == 5 then Two(sha, COMMIT_LEASE, true, map["a" := Tiny()], a2, Some(b1))
    else if n == 6 then Two(sha, COMMIT_LEASE, false, map["a" := Tiny()], a2, Some(b1))
    else Two(sha, COMMIT_LEASE, false, map["a" := Tiny()], a2, Some(b2))
  }

  lemma TakeoverSnap(sha: Bytes -> Digest)
    requires HexDigest(sha(Tiny()))
    ensures BeginRead(TakeoverState(sha, 1).t, "u", "s", sha(Tiny()), [EntryOf(sha)], "b", COMMIT_LEASE) == Ready(SecondSnap(sha))
  {
    ManifestOfOne(sha);
    hide Tiny, HexDigest, Manifest, EntrySizes;
  }

  lemma TakeoverReads(sha: Bytes -> Digest)
    requires HexDigest(sha(Tiny()))
    ensures Step(sha, false, TakeoverState(sha, 1), Takeover(sha)[1]) == TakeoverState(sha, 2)
  {
    TakeoverSnap(sha);
    hide Tiny, HexDigest, BeginRead;
  }

  lemma TakeoverTicks(sha: Bytes -> Digest)
    ensures Step(sha, false, TakeoverState(sha, 0), Takeover(sha)[0]) == TakeoverState(sha, 1)
  {
    hide Tiny;
  }

  lemma TakeoverClaims(sha: Bytes -> Digest)
    ensures Step(sha, false, TakeoverState(sha, 2), Takeover(sha)[2]) == TakeoverState(sha, 3)
  {
    hide Tiny;
  }

  lemma TakeoverChunk(sha: Bytes -> Digest)
    ensures Step(sha, false, TakeoverState(sha, 3), Takeover(sha)[3]) == TakeoverState(sha, 4)
  {
    TinyPasses();
    hide Tiny, Check;
    assert Passes(sha, Tiny(), 0, FirstSnap(sha));
    assert [] + [Tiny()] == [Tiny()];
  }

  lemma TakeoverLinks(sha: Bytes -> Digest)
    ensures Step(sha, false, TakeoverState(sha, 4), Takeover(sha)[4]) == TakeoverState(sha, 5)
  {
    TinyPasses();
    TinyAlone();
    hide Tiny, Check, Concat;
  }

  lemma TakeoverLoses(sha: Bytes -> Digest)
    ensures Step(sha, false, TakeoverState(sha, 5), Takeover(sha)[5]) == TakeoverState(sha, 6)
  {
    hide Tiny;
  }

  lemma TakeoverFails(sha: Bytes -> Digest)
    ensures Step(sha, false, TakeoverState(sha, 6), Takeover(sha)[6]) == TakeoverState(sha, 7)
  {
    hide Tiny, Passes;
  }

  lemma NameRunIs(sha: Bytes -> Digest)
    ensures |NameRun(sha)| == 17 && Opening(sha) <= NameRun(sha)
    ensures forall i :: 0 <= i < 7 ==> NameRun(sha)[5 + i] == Takeover(sha)[i]
    ensures forall i :: 0 <= i < 5 ==> NameRun(sha)[12 + i] == Ending(sha)[i]
  {
    hide Tiny;
  }

  lemma {:induction false} TakeoverRuns(sha: Bytes -> Digest, n: nat)
    requires HexDigest(sha(Tiny())) && n <= 7
    ensures |NameRun(sha)| == 17 && At(sha, false, NameRun(sha), 5 + n) == TakeoverState(sha, n)
  {
    NameRunIs(sha);
    if n == 0 {
      ClaimedFirst(sha);
      hide *;
      OpeningRuns(sha, NameRun(sha));
    } else {
      assert |Takeover(sha)| == 7;
      hide *;
      TakeoverRuns(sha, n - 1);
      assert NameRun(sha)[5 + (n - 1)] == Takeover(sha)[n - 1];
      Continues(sha, NameRun(sha), 5 + (n - 1), Takeover(sha)[n - 1]);
      TakeoverTicks(sha);
      TakeoverReads(sha);
      TakeoverClaims(sha);
      TakeoverChunk(sha);
      TakeoverLinks(sha);
      TakeoverLoses(sha);
      TakeoverFails(sha);
      assert n - 1 == 0 || n - 1 == 1 || n - 1 == 2 || n - 1 == 3 || n - 1 == 4 || n - 1 == 5 || n - 1 == 6;
    }
  }

  lemma ClaimedFirst(sha: Bytes -> Digest)
    ensures TakeoverState(sha, 0) == Claimed(sha)
  {
    hide Claimed;
  }

  /** The overlap is reached. */
  lemma OverlapReached(sha: Bytes -> Digest)
    requires HexDigest(sha(Tiny()))
    ensures |NameRun(sha)| == 17 && Overlap(sha, At(sha, false, NameRun(sha), 12), 0, 1, 2, "s", Tiny(), "c")
    ensures At(sha, false, NameRun(sha), 12).commits[0].snap.fileId == "a"
    ensures At(sha, false, NameRun(sha), 12).t.sessions["s"].owner == "u" && At(sha, false, NameRun(sha), 12).now == COMMIT_LEASE
  {
    TinyPasses();
    hide Tiny, HexDigest, At, Check;
    TakeoverRuns(sha, 7);
  }

  lemma EndingRuns(sha: Bytes -> Digest, s: State, run: seq<Action>)
    requires |run| == 17 && s == At(sha, false, run, 12) && forall i :: 0 <= i < 5 ==> run[12 + i] == Ending(sha)[i]
    requires "s" in s.t.sessions && s.t.sessions["s"].owner == "u" && s.now == COMMIT_LEASE
    ensures At(sha, false, run, 17)
         == CommitStep(sha, Reclaim(sha, Retry(sha, s, 1, "s", Tiny()), "u", 2, "s", Tiny(), "c"), FinishCommit(0))
  {
    hide At, Tiny, CommitStep, UploadStep;
    SameClock(sha, s);
    var e := Ending(sha);
    assert run[12] == e[0] && run[13] == e[1] && run[14] == e[2] && run[15] == e[3] && run[16] == e[4];
    Continues(sha, run, 12, e[0]);
    Continues(sha, run, 13, e[1]);
    Continues(sha, run, 14, e[2]);
    Continues(sha, run, 15, e[3]);
    Continues(sha, run, 16, e[4]);
  }

  lemma SameClock(sha: Bytes -> Digest, s: State)
    ensures CommitStep(sha, s, ResetCommit(1)).now == s.now
  {
    hide Reset;
  }

  /** The session ends committed under the file id c, which has no row; the row that was made is that of a. It takes a
      chunk file that vanishes after the first handler has read it and before the second one has. */
  lemma NamesUnregisteredFile(sha: Bytes -> Digest)
    requires HexDigest(sha(Tiny()))
    ensures |NameRun(sha)| == 17
    ensures var t := At(sha, false, NameRun(sha), 17).t;
            && "s" in t.sessions && t.sessions["s"].phase == Committed && t.sessions["s"].fileId == Some("c")
            && "c" !in t.registry && "a" in t.registry
  {
    NameRunIs(sha);
    hide *;
    var s := At(sha, false, NameRun(sha), 12);
    OverlapReached(sha);
    OverlapSession(sha, s);
    NamesUnregistered(sha, s, 0, 1, 2, "s", Tiny(), "c");
    EndingRuns(sha, s, NameRun(sha));
  }

  lemma OverlapSession(sha: Bytes -> Digest, s: State)
    requires Overlap(sha, s, 0, 1, 2, "s", Tiny(), "c")
    ensures "s" in s.t.sessions
  {
  }
}
