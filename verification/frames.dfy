/** The recording file: one frame per message, and what a reader makes of the file or of any prefix of it. */
module Frames {
  import opened ByteStrings

  const MIN_FRAME := 16
  const MAX_FRAME := 2048

  datatype Frame = Frame(at: nat, bytes: Bytes)

  predicate Recordable(b: Bytes) {
    MIN_FRAME <= |b| <= MAX_FRAME
  }

  /** 32-bit timestamp, 32-bit length, message. */
  function FrameBytes(f: Frame): (b: Bytes)
    ensures |b| == 8 + |f.bytes|
  {
    Le(f.at, 4) + Le(|f.bytes|, 4) + f.bytes
  }

  function FileOf(fs: seq<Frame>): Bytes {
    if fs == [] then [] else FrameBytes(fs[0]) + FileOf(fs[1..])
  }

  /** The length of the message in the first frame, when the whole frame is there and its length is acceptable. */
  predicate WholeFrame(file: Bytes) {
    |file| >= 8 && MIN_FRAME <= Field(file, 4, 4) <= MAX_FRAME && 8 + Field(file, 4, 4) <= |file|
  }

  function FirstFrame(file: Bytes): Frame
    requires WholeFrame(file)
  {
    Frame(Field(file, 0, 4), file[8..8 + Field(file, 4, 4)])
  }

  /** The frames a reader accepts: it stops at the first incomplete or ill-sized one. */
  function ReadAll(file: Bytes): seq<Frame> {
    if WholeFrame(file) then [FirstFrame(file)] + ReadAll(file[8 + Field(file, 4, 4)..]) else []
  }

  /** A frame as it is read back: the timestamp is cut to 32 bits. */
  function Stored(f: Frame): Frame {
    f.(at := f.at % 0x1_0000_0000)
  }

  function AllStored(fs: seq<Frame>): seq<Frame> {
    seq(|fs|, i requires 0 <= i < |fs| => Stored(fs[i]))
  }

  predicate AllRecordable(fs: seq<Frame>) {
    forall f :: f in fs ==> Recordable(f.bytes)
  }

  /** How many leading frames lie within the first `n` bytes of the file. */
  function WhollyWithin(fs: seq<Frame>, n: nat): (m: nat)
    ensures m <= |fs|
  {
    if fs == [] || |FrameBytes(fs[0])| > n then 0
    else 1 + WhollyWithin(fs[1..], n - |FrameBytes(fs[0])|)
  }

  /** It is the largest number of leading frames that fit. */
  lemma {:induction false} WhollyWithinIsMaximal(fs: seq<Frame>, n: nat)
    ensures var m := WhollyWithin(fs, n);
            |FileOf(fs[..m])| <= n && (m < |fs| ==> |FileOf(fs[..m + 1])| > n)
    decreases |fs|
  {
    if fs == [] || |FrameBytes(fs[0])| > n {
      assert fs != [] ==> fs[..1][1..] == [];
    } else {
      var m := WhollyWithin(fs[1..], n - |FrameBytes(fs[0])|);
      WhollyWithinIsMaximal(fs[1..], n - |FrameBytes(fs[0])|);
      assert fs[..m + 1][1..] == fs[1..][..m];
      assert m + 1 < |fs| ==> fs[..m + 2][1..] == fs[1..][..m + 1];
    }
  }

  lemma FrameHeader(f: Frame, rest: Bytes)
    requires |f.bytes| < 0x1_0000_0000
    ensures Field(FrameBytes(f) + rest, 0, 4) == f.at % 0x1_0000_0000
    ensures Field(FrameBytes(f) + rest, 4, 4) == |f.bytes|
  {
    Pow256Values();
    var b := FrameBytes(f) + rest;
    assert b == [] + Le(f.at, 4) + (Le(|f.bytes|, 4) + f.bytes + rest);
    FieldOfLe([], f.at, 4, Le(|f.bytes|, 4) + f.bytes + rest);
    assert b == Le(f.at, 4) + Le(|f.bytes|, 4) + (f.bytes + rest);
    FieldOfLe(Le(f.at, 4), |f.bytes|, 4, f.bytes + rest);
  }

  lemma {:induction false} PrefixField(file: Bytes, n: nat, off: nat, w: nat)
    requires off + w <= n <= |file|
    ensures Field(file[..n], off, w) == Field(file, off, w)
    decreases w
  {
    if w > 0 {
      PrefixField(file, n, off + 1, w - 1);
    }
  }

  /** A cut behind the first frame leaves it readable. */
  lemma CutBehind(f: Frame, rest: Bytes, n: nat)
    requires Recordable(f.bytes)
    requires 8 + |f.bytes| <= n <= 8 + |f.bytes| + |rest|
    ensures ReadAll((FrameBytes(f) + rest)[..n]) == [Stored(f)] + ReadAll(rest[..n - 8 - |f.bytes|])
  {
    var file := FrameBytes(f) + rest;
    FrameHeader(f, rest);
    PrefixField(file, n, 0, 4);
    PrefixField(file, n, 4, 4);
    assert file[..n][8..8 + |f.bytes|] == f.bytes;
    assert file[..n][8 + |f.bytes|..] == rest[..n - 8 - |f.bytes|];
  }

  /** A cut inside the first frame leaves nothing readable. */
  lemma CutInside(f: Frame, rest: Bytes, n: nat)
    requires Recordable(f.bytes)
    requires n < 8 + |f.bytes|
    ensures ReadAll((FrameBytes(f) + rest)[..n]) == []
  {
    if n >= 8 {
      FrameHeader(f, rest);
      PrefixField(FrameBytes(f) + rest, n, 4, 4);
    }
  }

  /** Cutting a recording anywhere leaves exactly the frames wholly before the cut. */
  lemma {:induction false} TruncatedRecording(fs: seq<Frame>, n: nat)
    requires AllRecordable(fs)
    requires n <= |FileOf(fs)|
    ensures ReadAll(FileOf(fs)[..n]) == AllStored(fs[..WhollyWithin(fs, n)])
    decreases |fs|
  {
    if fs != [] {
      var f, rest := fs[0], FileOf(fs[1..]);
      if n < 8 + |f.bytes| {
        CutInside(f, rest, n);
      } else {
        var left := n - 8 - |f.bytes|;
        CutBehind(f, rest, n);
        TruncatedRecording(fs[1..], left);
        StoredPrefix(fs, WhollyWithin(fs[1..], left));
      }
    }
  }

  lemma StoredPrefix(fs: seq<Frame>, m: nat)
    requires m < |fs|
    ensures AllStored(fs[..m + 1]) == [Stored(fs[0])] + AllStored(fs[1..][..m])
  {
    assert fs[..m + 1] == [fs[0]] + fs[1..][..m];
  }

  /** A whole recording reads back in full. */
  lemma RecordingRoundTrip(fs: seq<Frame>)
    requires AllRecordable(fs)
    ensures ReadAll(FileOf(fs)) == AllStored(fs)
  {
    var n := |FileOf(fs)|;
    var m := WhollyWithin(fs, n);
    TruncatedRecording(fs, n);
    WhollyWithinIsMaximal(fs, n);
    assert FileOf(fs)[..n] == FileOf(fs);
    if m < |fs| {
      FileMonotone(fs, m + 1);
    }
    assert fs[..m] == fs;
  }

  lemma {:induction false} FileMonotone(fs: seq<Frame>, m: nat)
    requires m <= |fs|
    ensures |FileOf(fs[..m])| <= |FileOf(fs)|
    decreases m
  {
    if m > 0 {
      assert fs[..m][1..] == fs[1..][..m - 1];
      FileMonotone(fs[1..], m - 1);
    }
  }

  lemma {:induction false} FileAppend(fs: seq<Frame>, f: Frame)
    ensures FileOf(fs + [f]) == FileOf(fs) + FrameBytes(f)
  {
    if fs == [] {
      assert (fs + [f])[1..] == [];
    } else {
      assert (fs + [f])[1..] == fs[1..] + [f];
      FileAppend(fs[1..], f);
    }
  }

  lemma ReadFirst(f: Frame, rest: Bytes)
    requires |f.bytes| < 0x1_0000_0000
    ensures ReadAll(FrameBytes(f) + rest) == if 16 <= |f.bytes| <= 2048 then [Stored(f)] + ReadAll(rest) else []
  {
    var file := FrameBytes(f) + rest;
    FrameHeader(f, rest);
    hide Field, Le;
    assert file[8..8 + |f.bytes|] == f.bytes && file[8 + |f.bytes|..] == rest;
  }

  lemma FirstOfFile(fs: seq<Frame>, tail: Bytes)
    requires AllRecordable(fs) && fs != []
    ensures ReadAll(FileOf(fs) + tail) == [Stored(fs[0])] + ReadAll(FileOf(fs[1..]) + tail)
    ensures AllStored(fs) == [Stored(fs[0])] + AllStored(fs[1..]) && AllRecordable(fs[1..])
  {
    hide ReadAll, FrameBytes, Stored;
    assert fs[0] in fs && Recordable(fs[0].bytes);
    ReadFirst(fs[0], FileOf(fs[1..]) + tail);
    assert FileOf(fs) + tail == FrameBytes(fs[0]) + (FileOf(fs[1..]) + tail);
  }

  /** A reader takes the frames one by one while their messages are between 16 and 2048 bytes long, and stops for good
      at the first that is not. */
  lemma {:induction false} ReaderStopsAtIllSizedFrame(fs: seq<Frame>, f: Frame, rest: Bytes)
    requires AllRecordable(fs) && |f.bytes| < 0x1_0000_0000
    ensures ReadAll(FileOf(fs) + (FrameBytes(f) + rest)) ==
            AllStored(fs) + if 16 <= |f.bytes| <= 2048 then [Stored(f)] + ReadAll(rest) else []
    decreases |fs|
  {
    hide ReadAll, FrameBytes, Stored, Recordable;
    var tail := FrameBytes(f) + rest;
    if fs == [] {
      assert FileOf(fs) + tail == tail;
      ReadFirst(f, rest);
      assert AllStored(fs) == [];
    } else {
      FirstOfFile(fs, tail);
      ReaderStopsAtIllSizedFrame(fs[1..], f, rest);
    }
  }
}
