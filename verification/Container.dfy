/** The attachment container: a 48-byte header followed by frames, each a
    4-byte big-endian length, a body of that length and a 16-byte tag. The
    server checks it one transport chunk at a time; a reader of the finished
    file parses it from the front. The lemmas connect the two views. */
module Container {
  import opened Wrappers

  type Byte = x: int | 0 <= x < 256
  type Bytes = seq<Byte>

  const HEADER: nat := 48
  const PLAIN: nat := 4 * 1024 * 1024
  const TAG: nat := 16
  /** Size of every chunk but the first and the last. */
  const FULL: nat := 4 + PLAIN + TAG
  /** The default of MAX_UPLOAD_CHUNK_BYTES. */
  const MAX_CHUNK: nat := 4 * 1024 * 1024 + 128
  const MAGIC: Bytes := [77, 73, 82, 65, 73, 65, 84, 50]

  function Be32(b: Bytes): nat
    requires |b| == 4
  {
    ((b[0] as int * 256 + b[1]) * 256 + b[2]) * 256 + b[3]
  }

  function ToBe32(n: nat): (b: Bytes)
    requires n < 0x1_0000_0000
    ensures |b| == 4
  {
    [n / 0x100_0000, n / 0x1_0000 % 256, n / 0x100 % 256, n % 256]
  }

  lemma Be32OfTo(n: nat)
    requires n < 0x1_0000_0000
    ensures Be32(ToBe32(n)) == n
  {
    var n1, n2, n3 := n / 0x100, n / 0x1_0000, n / 0x100_0000;
    assert n1 / 256 == n2 && n2 / 256 == n3;
    assert n == n1 * 256 + n % 256 && n1 == n2 * 256 + n1 % 256 && n2 == n3 * 256 + n2 % 256;
  }

  lemma ToOfBe32(b: Bytes)
    requires |b| == 4
    ensures Be32(b) < 0x1_0000_0000 && ToBe32(Be32(b)) == b
  {
    var n := Be32(b);
    var n2 := b[0] as int * 256 + b[1];
    var n1 := n2 * 256 + b[2];
    assert n == n1 * 256 + b[3] && n1 == n2 * 256 + b[2];
    assert n / 0x100 == n1 && n / 0x1_0000 == n2 && n / 0x100_0000 == b[0];
  }

  datatype Fault = BadHeader | BadFrame | BadFrameSize | UnexpectedEmpty | ShortFrame | BoundaryMismatch

  predicate HeaderOk(h: Bytes) {
    && |h| == HEADER
    && h[..8] == MAGIC
    && h[8] == 2
    && h[9] == 1
    && h[10..12] == [0, 0]
    && Be32(h[12..16]) == PLAIN
  }

  function FrameStart(index: nat): nat {
    if index == 0 then HEADER else 0
  }

  /** The check made on chunk `index` before it is copied into the file. */
  function Check(data: Bytes, index: nat, isFinal: bool): Option<Fault> {
    var start := FrameStart(index);
    if index == 0 && (|data| < HEADER || !HeaderOk(data[..HEADER])) then Some(BadHeader)
    else if |data| < start + 4 then Some(BadFrame)
    else
      var n := Be32(data[start..start + 4]);
      if n > PLAIN then Some(BadFrameSize)
      else if n == 0 && !(index == 0 && isFinal) then Some(UnexpectedEmpty)
      else if !isFinal && n != PLAIN then Some(ShortFrame)
      else if |data| != start + 4 + n + TAG then Some(BoundaryMismatch)
      else None
  }

  predicate Accepted(chunks: seq<Bytes>) {
    |chunks| > 0 && forall i :: 0 <= i < |chunks| ==> Check(chunks[i], i, i == |chunks| - 1) == None
  }

  function Concat(chunks: seq<Bytes>): Bytes {
    if chunks == [] then [] else chunks[0] + Concat(chunks[1..])
  }

  // ---------- Frames, and the encoder ----------

  datatype Frame = Frame(body: Bytes, tag: Bytes)
  datatype File = File(header: Bytes, frames: seq<Frame>)

  /** What the format allows of one frame, by its place in the file. */
  predicate LegalFrame(f: Frame, isFirst: bool, isFinal: bool) {
    && |f.tag| == TAG
    && |f.body| <= PLAIN
    && (|f.body| == 0 ==> isFirst && isFinal)
    && (!isFinal ==> |f.body| == PLAIN)
  }

  predicate LegalFrom(frames: seq<Frame>, isFirst: bool) {
    && frames != []
    && (forall i :: 0 <= i < |frames| ==> LegalFrame(frames[i], isFirst && i == 0, i == |frames| - 1))
  }

  predicate Legal(f: File) {
    HeaderOk(f.header) && LegalFrom(f.frames, true)
  }

  function EncodeFrame(f: Frame): Bytes
    requires |f.body| <= PLAIN
  {
    ToBe32(|f.body|) + f.body + f.tag
  }

  function ChunkOf(f: File, i: nat): Bytes
    requires Legal(f) && i < |f.frames|
  {
    (if i == 0 then f.header else []) + EncodeFrame(f.frames[i])
  }

  function Chunks(f: File): (cs: seq<Bytes>)
    requires Legal(f)
  {
    seq(|f.frames|, i requires 0 <= i < |f.frames| => ChunkOf(f, i))
  }

  function FrameOf(data: Bytes, index: nat): Frame
    requires |data| >= FrameStart(index) + 4 + TAG
  {
    var start := FrameStart(index);
    Frame(data[start + 4..|data| - TAG], data[|data| - TAG..])
  }

  /** The check accepts exactly the encodings of legal frames. */
  lemma CheckSound(data: Bytes, index: nat, isFinal: bool)
    requires Check(data, index, isFinal) == None
    ensures |data| >= FrameStart(index) + 4 + TAG
    ensures index == 0 ==> HeaderOk(data[..HEADER])
    ensures LegalFrame(FrameOf(data, index), index == 0, isFinal)
    ensures data == data[..FrameStart(index)] + EncodeFrame(FrameOf(data, index))
  {
    var start := FrameStart(index);
    ToOfBe32(data[start..start + 4]);
    assert data == data[..start] + (data[start..start + 4] + data[start + 4..|data| - TAG] + data[|data| - TAG..]);
  }

  lemma Pieces(head: Bytes, length: Bytes, body: Bytes, rest: Bytes)
    requires |length| == 4
    ensures var data := head + (length + body + rest);
            && data[..|head|] == head
            && data[|head|..|head| + 4] == length
            && data[|head| + 4..|data| - |rest|] == body
            && data[|data| - |rest|..] == rest
  {
  }

  lemma CheckComplete(header: Bytes, f: Frame, index: nat, isFinal: bool)
    requires index == 0 ==> HeaderOk(header)
    requires LegalFrame(f, index == 0, isFinal)
    ensures var data := (if index == 0 then header else []) + EncodeFrame(f);
            && Check(data, index, isFinal) == None && FrameOf(data, index) == f
            && data[..FrameStart(index)] == if index == 0 then header else []
  {
    var head := if index == 0 then header else [];
    var data := head + EncodeFrame(f);
    Pieces(head, ToBe32(|f.body|), f.body, f.tag);
    assert data == head + (ToBe32(|f.body|) + f.body + f.tag);
    Be32OfTo(|f.body|);
  }

  /** The first 16 bytes of a header are fixed, the other 32 free. */
  lemma HeaderExactly(h: Bytes)
    ensures HeaderOk(h) <==> |h| == 48 && h[..16] == [77, 73, 82, 65, 73, 65, 84, 50, 2, 1, 0, 0, 0, 64, 0, 0]
  {
    if |h| == 48 {
      assert h[..16] == h[..8] + [h[8], h[9]] + h[10..12] + h[12..16];
      assert h[12..16] == [h[12], h[13], h[14], h[15]];
      if Be32(h[12..16]) == PLAIN {
        ToOfBe32(h[12..16]);
      }
    }
  }

  /** What the check reads of a chunk: the frame begins after the header, if there is one, and its body is what the chunk's
      size leaves for it, which the four length bytes must say. */
  predicate FramedAs(data: Bytes, start: nat, body: int) {
    && |data| == start + 4 + body + 16 && body >= 0
    && data[start] as int * 16777216 + data[start + 1] as int * 65536 + data[start + 2] as int * 256 + data[start + 3] as int == body
  }

  lemma Be32Exactly(b: Bytes)
    requires |b| == 4
    ensures Be32(b) == b[0] as int * 16777216 + b[1] as int * 65536 + b[2] as int * 256 + b[3] as int
  {
  }

  /** Byte for byte: a list of chunks is accepted exactly if the first one begins with a header, every chunk holds one frame of the
      length it says, every frame but the last is full, and the last one is not longer, and empty only if it is alone. */
  lemma AcceptedExactly(chunks: seq<Bytes>)
    ensures Accepted(chunks) <==>
              && |chunks| > 0 && |chunks[0]| >= 48 && HeaderOk(chunks[0][..48])
              && forall i :: 0 <= i < |chunks| ==>
                   var start := if i == 0 then 48 else 0;
                   var body := |chunks[i]| - start - 20;
                   && FramedAs(chunks[i], start, body) && body <= 4194304
                   && (i < |chunks| - 1 ==> body == 4194304) && (body == 0 ==> |chunks| == 1)
  {
    hide HeaderOk;
    forall i | 0 <= i < |chunks|
      ensures Check(chunks[i], i, i == |chunks| - 1) == None <==>
                var start := if i == 0 then 48 else 0;
                var body := |chunks[i]| - start - 20;
                && (i == 0 ==> |chunks[0]| >= 48 && HeaderOk(chunks[0][..48]))
                && FramedAs(chunks[i], start, body) && body <= 4194304
                && (i < |chunks| - 1 ==> body == 4194304) && (body == 0 ==> |chunks| == 1)
    {
      ChunkExactly(chunks[i], i, i == |chunks| - 1);
    }
  }

  lemma ChunkExactly(data: Bytes, index: nat, isFinal: bool)
    ensures Check(data, index, isFinal) == None <==>
              var start := if index == 0 then 48 else 0;
              var body := |data| - start - 20;
              && (index == 0 ==> |data| >= 48 && HeaderOk(data[..48]))
              && FramedAs(data, start, body) && body <= 4194304
              && (!isFinal ==> body == 4194304) && (body == 0 ==> index == 0 && isFinal)
  {
    hide HeaderOk;
    var start := FrameStart(index);
    if |data| >= start + 4 {
      Be32Exactly(data[start..start + 4]);
    }
  }

  /** The fault that is reported is the first there is, from the header through the length to the size of the chunk. */
  lemma FaultIsFirst(data: Bytes, index: nat, isFinal: bool)
    ensures var start, fault := FrameStart(index), Check(data, index, isFinal);
            && (fault == Some(BadHeader) <==> index == 0 && (|data| < 48 || !HeaderOk(data[..48])))
            && (fault == Some(BadFrame) ==> |data| < start + 4)
            && (fault in {Some(BadFrameSize), Some(UnexpectedEmpty), Some(ShortFrame), Some(BoundaryMismatch)} ==>
                  |data| >= start + 4
                  && var n := Be32(data[start..start + 4]);
                     && (fault == Some(BadFrameSize) <==> n > 4194304)
                     && (fault == Some(UnexpectedEmpty) <==> n == 0 && !(index == 0 && isFinal))
                     && (fault == Some(ShortFrame) <==> 0 < n < 4194304 && !isFinal)
                     && (fault == Some(BoundaryMismatch) ==> |data| != start + 20 + n))
  {
  }

  function FileOf(chunks: seq<Bytes>): File
    requires Accepted(chunks)
  {
    AcceptedSizes(chunks);
    File(chunks[0][..HEADER], seq(|chunks|, i requires 0 <= i < |chunks| => FrameOf(chunks[i], i)))
  }

  lemma AcceptedSizes(chunks: seq<Bytes>)
    requires Accepted(chunks)
    ensures forall i :: 0 <= i < |chunks| ==> |chunks[i]| >= FrameStart(i) + 4 + TAG
  {
    forall i | 0 <= i < |chunks| ensures |chunks[i]| >= FrameStart(i) + 4 + TAG {
      CheckSound(chunks[i], i, i == |chunks| - 1);
    }
  }

  /** Decoding accepted chunks gives a legal file, and encoding it returns the chunks. */
  lemma ChunksOfFileOf(chunks: seq<Bytes>)
    requires Accepted(chunks)
    ensures Legal(FileOf(chunks)) && Chunks(FileOf(chunks)) == chunks
  {
    AcceptedSizes(chunks);
    var f := FileOf(chunks);
    forall i | 0 <= i < |chunks|
      ensures LegalFrame(f.frames[i], i == 0, i == |chunks| - 1)
      ensures chunks[i] == (if i == 0 then f.header else []) + EncodeFrame(f.frames[i])
    {
      CheckSound(chunks[i], i, i == |chunks| - 1);
    }
    CheckSound(chunks[0], 0, 0 == |chunks| - 1);
  }

  /** Encoding a legal file gives chunks that are all accepted, and decoding them returns the file. */
  lemma FileOfChunks(f: File)
    requires Legal(f)
    ensures Accepted(Chunks(f)) && FileOf(Chunks(f)) == f
  {
    var cs := Chunks(f);
    forall i | 0 <= i < |cs|
      ensures Check(cs[i], i, i == |cs| - 1) == None
      ensures |cs[i]| >= FrameStart(i) + 4 + TAG && FrameOf(cs[i], i) == f.frames[i]
      ensures i == 0 ==> cs[i][..HEADER] == f.header
    {
      CheckComplete(f.header, f.frames[i], i, i == |cs| - 1);
    }
  }

  // ---------- The whole-file parser ----------

  function ParseFrames(b: Bytes, isFirst: bool): Option<seq<Frame>>
    decreases |b|
  {
    if |b| < 4 then None
    else
      var n := Be32(b[..4]);
      if n > PLAIN || |b| < 4 + n + TAG then None
      else
        var f := Frame(b[4..4 + n], b[4 + n..4 + n + TAG]);
        var rest := b[4 + n + TAG..];
        if rest == [] then
          if n == 0 && !isFirst then None else Some([f])
        else if n != PLAIN then None
        else
          match ParseFrames(rest, false)
          case None => None
          case Some(fs) => Some([f] + fs)
  }

  function Parse(b: Bytes): Option<File> {
    if |b| < HEADER || !HeaderOk(b[..HEADER]) then None
    else
      match ParseFrames(b[HEADER..], true)
      case None => None
      case Some(fs) => Some(File(b[..HEADER], fs))
  }

  function EncodeFrames(frames: seq<Frame>, isFirst: bool): (b: Bytes)
    requires LegalFrom(frames, isFirst)
    ensures |b| >= 4 + TAG
    decreases |frames|
  {
    EncodeFrame(frames[0]) + if |frames| == 1 then [] else EncodeFrames(Tail(frames, isFirst), false)
  }

  function Tail(frames: seq<Frame>, isFirst: bool): (t: seq<Frame>)
    requires LegalFrom(frames, isFirst) && |frames| > 1
    ensures LegalFrom(t, false) && |t| == |frames| - 1
  {
    assert forall i :: 0 <= i < |frames| - 1 ==> frames[1..][i] == frames[i + 1];
    assert forall i :: 1 <= i < |frames| ==> LegalFrame(frames[i], isFirst && i == 0, i == |frames| - 1);
    frames[1..]
  }

  lemma ParseStep(f: Frame, rest: Bytes, isFirst: bool)
    requires LegalFrame(f, isFirst, rest == [])
    ensures ParseFrames(EncodeFrame(f) + rest, isFirst)
         == if rest == [] then Some([f])
            else match ParseFrames(rest, false)
              case None => None
              case Some(fs) => Some([f] + fs)
  {
    var n := |f.body|;
    var b := EncodeFrame(f) + rest;
    Be32OfTo(n);
    assert b == ToBe32(n) + (f.body + (f.tag + rest));
    assert b[..4] == ToBe32(n);
    assert b[4..] == f.body + (f.tag + rest);
    assert b[4..4 + n] == f.body;
    assert b[4 + n..] == f.tag + rest;
    assert b[4 + n..4 + n + TAG] == f.tag;
    assert b[4 + n + TAG..] == rest;
  }

  lemma {:induction false} ParseOfEncode(frames: seq<Frame>, isFirst: bool)
    requires LegalFrom(frames, isFirst)
    ensures ParseFrames(EncodeFrames(frames, isFirst), isFirst) == Some(frames)
    decreases |frames|
  {
    hide *;
    EncodeFirst(frames, isFirst);
    var f := frames[0];
    if |frames| == 1 {
      ParseStep(f, [], isFirst);
      assert [f] == frames;
    } else {
      ParseOfEncode(Tail(frames, isFirst), false);
      ParseStep(f, EncodeFrames(Tail(frames, isFirst), false), isFirst);
      assert [f] + frames[1..] == frames;
    }
  }

  lemma EncodeFirst(frames: seq<Frame>, isFirst: bool)
    requires LegalFrom(frames, isFirst)
    ensures |frames| > 0 && LegalFrame(frames[0], isFirst, |frames| == 1)
    ensures |frames| == 1 ==> EncodeFrames(frames, isFirst) == EncodeFrame(frames[0]) + []
    ensures |frames| > 1 ==>
              && Tail(frames, isFirst) == frames[1..]
              && EncodeFrames(frames, isFirst) == EncodeFrame(frames[0]) + EncodeFrames(Tail(frames, isFirst), false)
  {
    assert LegalFrame(frames[0], isFirst && 0 == 0, 0 == |frames| - 1);
  }

  lemma {:induction false} EncodeOfParse(b: Bytes, isFirst: bool)
    requires ParseFrames(b, isFirst).Some?
    ensures LegalFrom(ParseFrames(b, isFirst).value, isFirst)
    ensures EncodeFrames(ParseFrames(b, isFirst).value, isFirst) == b
    decreases |b|
  {
    var n := Be32(b[..4]);
    ToOfBe32(b[..4]);
    var f := Frame(b[4..4 + n], b[4 + n..4 + n + TAG]);
    var rest := b[4 + n + TAG..];
    assert b == EncodeFrame(f) + rest;
    if rest != [] {
      EncodeOfParse(rest, false);
      LegalCons(f, ParseFrames(rest, false).value, isFirst);
    }
  }

  lemma LegalCons(f: Frame, fs: seq<Frame>, isFirst: bool)
    requires LegalFrame(f, isFirst, false) && LegalFrom(fs, false)
    ensures LegalFrom([f] + fs, isFirst) && Tail([f] + fs, isFirst) == fs
  {
    var all := [f] + fs;
    assert all[1..] == fs;
    forall i | 0 <= i < |all| ensures LegalFrame(all[i], isFirst && i == 0, i == |all| - 1) {
      if i > 0 {
        assert LegalFrame(fs[i - 1], false && i - 1 == 0, i - 1 == |fs| - 1);
      }
    }
  }

  lemma LegalRest(f: File, k: nat)
    requires Legal(f) && k < |f.frames|
    ensures LegalFrom(f.frames[k..], k == 0)
    ensures k + 1 < |f.frames| ==> Tail(f.frames[k..], k == 0) == f.frames[k + 1..]
  {
    var fs := f.frames[k..];
    forall i | 0 <= i < |fs| ensures LegalFrame(fs[i], k == 0 && i == 0, i == |fs| - 1) {
      assert fs[i] == f.frames[k + i];
      assert LegalFrame(f.frames[k + i], true && k + i == 0, k + i == |f.frames| - 1);
    }
  }

  lemma ConcatFirst(chunks: seq<Bytes>, k: nat)
    requires k < |chunks|
    ensures Concat(chunks[k..]) == chunks[k] + Concat(chunks[k + 1..])
    ensures k + 1 == |chunks| ==> Concat(chunks[k + 1..]) == []
  {
    assert chunks[k..][1..] == chunks[k + 1..];
  }

  lemma {:induction false} ConcatOfChunks(f: File, k: nat)
    requires Legal(f) && k < |f.frames|
    ensures LegalFrom(f.frames[k..], k == 0)
    ensures Concat(Chunks(f)[k..]) == (if k == 0 then f.header else []) + EncodeFrames(f.frames[k..], k == 0)
    decreases |f.frames| - k
  {
    hide *;
    LegalRest(f, k);
    EncodeFirst(f.frames[k..], k == 0);
    ChunkAt(f, k);
    ConcatFirst(Chunks(f), k);
    var head, frame, rest := if k == 0 then f.header else [], EncodeFrame(f.frames[k]), Concat(Chunks(f)[k + 1..]);
    if k + 1 < |f.frames| {
      ConcatOfChunks(f, k + 1);
    }
    Regroup(head, frame, rest);
  }

  lemma ChunkAt(f: File, k: nat)
    requires Legal(f) && k < |f.frames|
    ensures |Chunks(f)| == |f.frames| && |f.frames[k].body| <= PLAIN
    ensures Chunks(f)[k] == (if k == 0 then f.header else []) + EncodeFrame(f.frames[k])
  {
    assert LegalFrame(f.frames[k], true && k == 0, k == |f.frames| - 1);
  }

  lemma Regroup(a: Bytes, b: Bytes, c: Bytes)
    ensures a + b + c == a + (b + c) && [] + c == c
  {
  }

  /** Round trip: the concatenation of a legal file's chunks parses back to the file. */
  lemma ParseOfConcat(f: File)
    requires Legal(f)
    ensures Parse(Concat(Chunks(f))) == Some(f)
  {
    ConcatOfChunks(f, 0);
    var cs := Chunks(f);
    assert cs[0..] == cs && f.frames[0..] == f.frames;
    var b := Concat(cs);
    assert b[..HEADER] == f.header && b[HEADER..] == EncodeFrames(f.frames, true);
    ParseOfEncode(f.frames, true);
  }

  /** Round trip the other way: whatever parses is the concatenation of its own chunks. */
  lemma ConcatOfParse(b: Bytes)
    requires Parse(b).Some?
    ensures Legal(Parse(b).value) && Concat(Chunks(Parse(b).value)) == b
  {
    var f := Parse(b).value;
    EncodeOfParse(b[HEADER..], true);
    ConcatOfChunks(f, 0);
    var cs := Chunks(f);
    assert cs[0..] == cs && f.frames[0..] == f.frames;
    assert b == b[..HEADER] + b[HEADER..];
  }

  // ---------- The main results ----------

  /** Chunk-by-chunk acceptance means that the assembled file parses, to exactly the accepted frames. */
  lemma AcceptedParses(chunks: seq<Bytes>)
    requires Accepted(chunks)
    ensures Parse(Concat(chunks)) == Some(FileOf(chunks))
  {
    ChunksOfFileOf(chunks);
    ParseOfConcat(FileOf(chunks));
  }

  /** A byte string is the concatenation of some accepted chunk list if and only if it parses. */
  lemma ParsesExactlyAccepted(b: Bytes)
    ensures Parse(b).Some? <==> exists chunks :: Accepted(chunks) && Concat(chunks) == b
  {
    if Parse(b).Some? {
      ConcatOfParse(b);
      FileOfChunks(Parse(b).value);
      var cs := Chunks(Parse(b).value);
      assert Accepted(cs) && Concat(cs) == b;
    }
    forall chunks | Accepted(chunks) && Concat(chunks) == b ensures Parse(b).Some? {
      AcceptedParses(chunks);
    }
  }

  /** Unique decoding: the file determines the chunks it was cut into. */
  lemma UniqueSplit(a: seq<Bytes>, b: seq<Bytes>)
    requires Accepted(a) && Accepted(b) && Concat(a) == Concat(b)
    ensures a == b
  {
    AcceptedParses(a);
    AcceptedParses(b);
    ChunksOfFileOf(a);
    ChunksOfFileOf(b);
  }

  /** Where chunk i of a file of `size` bytes begins. */
  function Boundary(size: nat, i: nat): nat {
    if i == 0 then 0 else Min(size, HEADER + i * FULL)
  }

  function Min(a: nat, b: nat): nat {
    if a < b then a else b
  }

  function CountOf(size: nat): nat
    requires size >= HEADER
  {
    (size - HEADER + FULL - 1) / FULL
  }

  lemma ConcatSplit(a: seq<Bytes>, b: seq<Bytes>)
    ensures Concat(a + b) == Concat(a) + Concat(b)
  {
    if a == [] {
      assert a + b == b;
    } else {
      assert (a + b)[1..] == a[1..] + b;
      ConcatSplit(a[1..], b);
    }
  }

  lemma ConcatSnoc(chunks: seq<Bytes>, i: nat)
    requires i < |chunks|
    ensures Concat(chunks[..i + 1]) == Concat(chunks[..i]) + chunks[i]
  {
    assert chunks[..i + 1] == chunks[..i] + [chunks[i]];
    ConcatSplit(chunks[..i], [chunks[i]]);
    var one: seq<Bytes> := [chunks[i]];
    assert Concat(one) == one[0] + Concat(one[1..]);
  }

  /** Every frame but the last is full, and none exceeds the default chunk limit. */
  lemma AcceptedSize(chunks: seq<Bytes>, i: nat)
    requires Accepted(chunks) && i < |chunks|
    ensures i < |chunks| - 1 ==> |chunks[i]| == FrameStart(i) + FULL
    ensures FrameStart(i) + 4 + TAG <= |chunks[i]| <= FrameStart(i) + FULL <= MAX_CHUNK
  {
    CheckSound(chunks[i], i, i == |chunks| - 1);
  }

  lemma {:induction false} PrefixSize(chunks: seq<Bytes>, i: nat)
    requires Accepted(chunks) && i < |chunks|
    ensures |Concat(chunks[..i])| == if i == 0 then 0 else HEADER + i * FULL
  {
    if i > 0 {
      PrefixSize(chunks, i - 1);
      AcceptedSize(chunks, i - 1);
      ConcatSnoc(chunks, i - 1);
    }
  }

  /** Chunk i is the slice of the file between the i-th boundary and the next. */
  predicate Placed(chunks: seq<Bytes>, whole: Bytes, i: nat)
    requires i < |chunks|
  {
    && Boundary(|whole|, i) <= Boundary(|whole|, i + 1) <= |whole|
    && chunks[i] == whole[Boundary(|whole|, i)..Boundary(|whole|, i + 1)]
  }

  /** The size of an accepted upload fixes how many chunks it has and where
      each of them begins and ends, and every chunk fits the default limit. */
  lemma SizeFixesLayout(chunks: seq<Bytes>)
    requires Accepted(chunks)
    ensures |Concat(chunks)| > HEADER
    ensures |chunks| == CountOf(|Concat(chunks)|)
    ensures forall i :: 0 <= i < |chunks| ==> Placed(chunks, Concat(chunks), i)
    ensures forall i :: 0 <= i < |chunks| ==> |chunks[i]| <= MAX_CHUNK
  {
    var whole := Concat(chunks);
    var k := |chunks|;
    SizeOfWhole(chunks);
    assert k == CountOf(|whole|) by {
      var rem := |whole| - HEADER - (k - 1) * FULL;
      assert |whole| - HEADER + FULL - 1 == k * FULL + (rem - 1);
      DivUnique(|whole| - HEADER + FULL - 1, k, rem - 1);
    }
    forall i | 0 <= i < k ensures Placed(chunks, whole, i) && |chunks[i]| <= MAX_CHUNK {
      ChunkPlace(chunks, i);
      AcceptedSize(chunks, i);
    }
  }

  lemma DivUnique(x: nat, q: nat, r: nat)
    requires x == q * FULL + r && r < FULL
    ensures x / FULL == q
  {
  }

  lemma SizeOfWhole(chunks: seq<Bytes>)
    requires Accepted(chunks)
    ensures HEADER + (|chunks| - 1) * FULL + 4 + TAG <= |Concat(chunks)| <= HEADER + |chunks| * FULL
  {
    var k := |chunks| - 1;
    PrefixSize(chunks, k);
    AcceptedSize(chunks, k);
    ConcatSnoc(chunks, k);
    assert chunks[..k + 1] == chunks;
    hide *;
    FullMore(k);
  }

  lemma FullMore(k: nat)
    ensures (k + 1) * FULL == k * FULL + FULL && 0 * FULL == 0
  {
  }

  lemma ChunkPlace(chunks: seq<Bytes>, i: nat)
    requires Accepted(chunks) && i < |chunks|
    ensures Placed(chunks, Concat(chunks), i)
  {
    ConcatSnoc(chunks, i);
    Prefixes(chunks, i);
    Prefixes(chunks, i + 1);
    SliceBetween(Concat(chunks[..i]), chunks[i], Concat(chunks[..i + 1]), Concat(chunks));
  }

  lemma SliceBetween(before: Bytes, part: Bytes, upTo: Bytes, whole: Bytes)
    requires upTo == before + part && upTo <= whole
    ensures |before| <= |upTo| <= |whole| && whole[|before|..|upTo|] == part
  {
    assert whole[..|upTo|] == upTo;
    assert whole[|before|..|upTo|] == whole[..|upTo|][|before|..];
  }

  /** The first i chunks are the file up to the i-th boundary. */
  lemma Prefixes(chunks: seq<Bytes>, i: nat)
    requires Accepted(chunks) && i <= |chunks|
    ensures Concat(chunks[..i]) <= Concat(chunks)
    ensures |Concat(chunks[..i])| == Boundary(|Concat(chunks)|, i)
  {
    assert chunks == chunks[..i] + chunks[i..];
    ConcatSplit(chunks[..i], chunks[i..]);
    SizeOfWhole(chunks);
    if i < |chunks| {
      PrefixSize(chunks, i);
    } else {
      assert chunks[..i] == chunks;
    }
  }
}
