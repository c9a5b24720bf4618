/**
 The wire frames: a little-endian length, type, flags, sequence number and payload. The bridge and the
 console hold the same encoder and streaming decoder; this is the model of both.
 */
module FrameCodec {
  import opened Wrappers

  newtype byte = b: int | 0 <= b < 256

  datatype Frame = Frame(kind: byte, flags: byte, seqNo: nat, payload: seq<byte>)

  const MIN_LENGTH: nat := 4
  const MAX_LENGTH: nat := 64 * 1024
  const MAX_PAYLOAD: nat := MAX_LENGTH - 4
  const U32 := 0x1_0000_0000
  const U16 := 0x1_0000

  predicate ValidFrame(f: Frame) {
    f.seqNo < U16 && |f.payload| <= MAX_PAYLOAD
  }

  // ----- little-endian numbers -----

  function ByteOf(n: nat): byte {
    (n % 256) as byte
  }

  function Le32(n: nat): seq<byte> {
    [ByteOf(n), ByteOf(n / 256), ByteOf(n / 65536), ByteOf(n / 16777216)]
  }

  function Le16(n: nat): seq<byte> {
    [ByteOf(n), ByteOf(n / 256)]
  }

  function Read32(b: seq<byte>): nat
    requires |b| >= 4
  {
    b[0] as nat + 256 * b[1] as nat + 65536 * b[2] as nat + 16777216 * b[3] as nat
  }

  function Read16(b: seq<byte>): nat
    requires |b| >= 2
  {
    b[0] as nat + 256 * b[1] as nat
  }

  lemma Le32RoundTrip(n: nat)
    requires n < U32
    ensures Read32(Le32(n)) == n
  {
    assert n / 65536 == (n / 256) / 256;
    assert n / 16777216 == (n / 65536) / 256;
  }

  lemma Le16RoundTrip(n: nat)
    requires n < U16
    ensures Read16(Le16(n)) == n
  {
  }

  // ----- encoding -----

  /** The length field is 32 bits wide and wraps. */
  function Length(f: Frame): nat {
    (4 + |f.payload|) % U32
  }

  function Encode(f: Frame): (b: seq<byte>)
    ensures |b| == 8 + |f.payload|
  {
    Le32(Length(f)) + [f.kind, f.flags] + Le16(f.seqNo) + f.payload
  }

  method EncodeFrame(kind: byte, flags: byte, seqNo: nat, payload: seq<byte>) returns (out: seq<byte>)
    requires seqNo < U16
    ensures out == Encode(Frame(kind, flags, seqNo, payload))
  {
    var length := (4 + |payload|) % U32;
    out := [];
    out := out + [ByteOf(length)];
    out := out + [ByteOf(length / 256)];
    out := out + [ByteOf(length / 65536)];
    out := out + [ByteOf(length / 16777216)];
    out := out + [kind];
    out := out + [flags];
    out := out + [ByteOf(seqNo)];
    out := out + [ByteOf(seqNo / 256)];
    out := out + payload;
  }

  /** The bytes on the wire: length of what follows it, type, flags, number, payload; numbers low byte first. */
  lemma FrameLayout(f: Frame)
    requires f.seqNo < 65536 && |f.payload| <= 65532
    ensures var e, n := Encode(f), |f.payload| + 4;
            && |e| == |f.payload| + 8 && e[8..] == f.payload
            && e[0] as int == n % 256 && e[1] as int == n / 256 % 256 && e[2] as int == n / 65536 && e[3] == 0
            && e[4] == f.kind && e[5] == f.flags
            && e[6] as int == f.seqNo % 256 && e[7] as int == f.seqNo / 256
  {
    var n := |f.payload| + 4;
    assert n < 16777216 && n / 65536 < 256;
  }

  /** A header announces a frame of 4 to 65536 bytes, or nothing that can be taken. */
  lemma Announces(b: seq<byte>)
    requires |b| >= 4
    ensures var n := b[0] as int + 256 * b[1] as int + 65536 * b[2] as int + 16777216 * b[3] as int;
            && (Corrupt(b) <==> n < 4 || n > 65536)
            && (Ready(b) <==> 4 <= n <= 65536 && |b| >= n + 4)
  {
  }

  // ----- decoding -----

  predicate GoodLength(n: nat) {
    MIN_LENGTH <= n <= MAX_LENGTH
  }

  /** The header is complete and its length is out of range. */
  predicate Corrupt(b: seq<byte>) {
    |b| >= 4 && !GoodLength(Read32(b))
  }

  /** A whole frame is at the front of the buffer. */
  predicate Ready(b: seq<byte>) {
    |b| >= 4 && GoodLength(Read32(b)) && |b| >= 4 + Read32(b)
  }

  function Head(b: seq<byte>): Frame
    requires Ready(b)
  {
    Frame(b[4], b[5], Read16(b[6..8]), b[8..4 + Read32(b)])
  }

  function Rest(b: seq<byte>): seq<byte>
    requires Ready(b)
  {
    b[4 + Read32(b)..]
  }

  /** One call of `next`: a frame if one is complete, and the buffer left; a bad length drops everything. */
  function Next(b: seq<byte>): (r: (Option<Frame>, seq<byte>)) {
    if Ready(b) then (Some(Head(b)), Rest(b))
    else if Corrupt(b) then (None, [])
    else (None, b)
  }

  /** Calling `next` until it fails. */
  function Drain(b: seq<byte>): (r: (seq<Frame>, seq<byte>))
    decreases |b|
  {
    if Ready(b) then
      var r := Drain(Rest(b));
      ([Head(b)] + r.0, r.1)
    else ([], Next(b).1)
  }

  lemma Collected(batch: seq<Frame>, frame: Frame, b: seq<byte>)
    ensures batch + ([frame] + Drain(b).0) ==
            if Ready(b) then (batch + [frame]) + ([Head(b)] + Drain(Rest(b)).0) else batch + [frame]
  {
    if !Ready(b) {
      assert [frame] + [] == [frame];
    }
  }

  class FrameDecoder {
    var buf: seq<byte>

    constructor ()
      ensures buf == []
    {
      buf := [];
    }

    method Append(data: seq<byte>)
      modifies this
      ensures buf == old(buf) + data
    {
      if |data| == 0 {
        return;
      }
      buf := buf + data;
    }

    method NextFrame() returns (ok: bool, out: Frame)
      modifies this
      ensures buf == Next(old(buf)).1
      ensures ok == Next(old(buf)).0.Some?
      ensures ok ==> Next(old(buf)).0 == Some(out)
    {
      out := Frame(0, 0, 0, []);
      if |buf| < 4 {
        return false, out;
      }
      var length := buf[0] as nat + 256 * buf[1] as nat + 65536 * buf[2] as nat + 16777216 * buf[3] as nat;
      if length < MIN_LENGTH || length > MAX_LENGTH {
        buf := [];
        return false, out;
      }
      if |buf| < 4 + length {
        return false, out;
      }
      out := Frame(buf[4], buf[5], buf[6] as nat + 256 * buf[7] as nat, buf[8..4 + length]);
      buf := buf[4 + length..];
      ok := true;
    }

    /** The receive loop's inner loop: append one read and take every complete frame. */
    method Feed(data: seq<byte>) returns (batch: seq<Frame>)
      modifies this
      ensures (batch, buf) == Drain(old(buf) + data)
    {
      Append(data);
      batch := [];
      ghost var whole := buf;
      var ok, frame := NextFrame();
      assert ok ==> [] + ([frame] + Drain(buf).0) == [frame] + Drain(buf).0;
      while ok
        invariant ok ==> Drain(whole) == (batch + ([frame] + Drain(buf).0), Drain(buf).1)
        invariant !ok ==> Drain(whole) == (batch, buf)
        decreases if ok then |buf| + 1 else 0
      {
        Collected(batch, frame, buf);
        batch := batch + [frame];
        ok, frame := NextFrame();
      }
    }

    method Clear()
      modifies this
      ensures buf == []
    {
      buf := [];
    }
  }

  // ----- one frame -----

  lemma EncodedHeader(f: Frame, tail: seq<byte>)
    requires f.seqNo < U16
    ensures var b := Encode(f) + tail;
            && Read32(b) == Length(f) && b[4] == f.kind && b[5] == f.flags && Read16(b[6..8]) == f.seqNo
            && b[8..8 + |f.payload|] == f.payload && b[8 + |f.payload|..] == tail
  {
    var b := Encode(f) + tail;
    Le32RoundTrip(Length(f));
    Le16RoundTrip(f.seqNo);
    assert b[..4] == Le32(Length(f));
    assert b[6..8] == Le16(f.seqNo);
  }

  /** A valid frame in front of anything is taken whole, and nothing else is touched. */
  lemma DecodeFirst(f: Frame, tail: seq<byte>)
    requires ValidFrame(f)
    ensures Ready(Encode(f) + tail) && Head(Encode(f) + tail) == f && Rest(Encode(f) + tail) == tail
  {
    EncodedHeader(f, tail);
  }

  /** Encoding one frame and decoding it gives it back exactly when the payload fits 65532 bytes; longer
      payloads, even where the 32-bit length wraps back into range, do not survive. */
  lemma FrameRoundTripIff(f: Frame)
    requires f.seqNo < U16
    ensures Next(Encode(f)) == (Some(f), []) <==> |f.payload| <= 65532
  {
    EncodedHeader(f, []);
    assert Encode(f) + [] == Encode(f);
    if |f.payload| <= 65532 {
      DecodeFirst(f, []);
    } else if Ready(Encode(f)) {
      assert |Head(Encode(f)).payload| == Length(f) - 4;
    }
  }

  // ----- streams -----

  function EncodeAll(fs: seq<Frame>): seq<byte> {
    if fs == [] then [] else Encode(fs[0]) + EncodeAll(fs[1..])
  }

  ghost predicate AllValid(fs: seq<Frame>) {
    forall f :: f in fs ==> ValidFrame(f)
  }

  /** The bytes `rest` are the beginning of what comes after k frames, and not yet another frame. */
  ghost predicate Unfinished(fs: seq<Frame>, k: nat, rest: seq<byte>) {
    && k <= |fs|
    && rest <= EncodeAll(fs[k..])
    && (k < |fs| ==> |rest| < |Encode(fs[k])|)
  }

  lemma PartialFrame(f: Frame, b: seq<byte>)
    requires ValidFrame(f) && b <= Encode(f) && |b| < |Encode(f)|
    ensures !Ready(b) && !Corrupt(b)
  {
    if |b| >= 4 {
      EncodedHeader(f, []);
      assert Encode(f) + [] == Encode(f);
      SameLength(b, Encode(f));
    }
  }

  lemma SameLength(a: seq<byte>, b: seq<byte>)
    requires 4 <= |a| && a <= b
    ensures Read32(a) == Read32(b)
  {
    assert a[..4] == b[..4];
  }

  /** Draining a prefix of a well-formed stream yields the frames that are complete and holds the rest. */
  lemma {:induction false} DrainPrefix(fs: seq<Frame>, b: seq<byte>)
    requires AllValid(fs) && b <= EncodeAll(fs)
    ensures var (out, rest) := Drain(b);
            && |out| <= |fs| && out == fs[..|out|]
            && Unfinished(fs, |out|, rest)
            && EncodeAll(out) + rest == b
    decreases |fs|
  {
    if fs == [] {
      assert b == [];
    } else {
      var e := Encode(fs[0]);
      if |b| < |e| {
        assert b == EncodeAll(fs)[..|b|] == e[..|b|];
        PartialFrame(fs[0], b);
        assert Drain(b) == ([], b);
        assert fs[0..] == fs;
      } else {
        var tail := b[|e|..];
        assert b[..|e|] == EncodeAll(fs)[..|e|] == e;
        assert b == e + tail;
        assert tail == EncodeAll(fs)[|e|..|b|] == EncodeAll(fs[1..])[..|tail|];
        DecodeFirst(fs[0], tail);
        DrainPrefix(fs[1..], tail);
        var (out, rest) := Drain(tail);
        DrainStep(fs, out, rest, tail);
      }
    }
  }

  lemma DrainStep(fs: seq<Frame>, out: seq<Frame>, rest: seq<byte>, tail: seq<byte>)
    requires fs != []
    requires |out| <= |fs[1..]| && out == fs[1..][..|out|] && Unfinished(fs[1..], |out|, rest)
    requires EncodeAll(out) + rest == tail
    ensures var o := [fs[0]] + out;
            |o| <= |fs| && o == fs[..|o|] && Unfinished(fs, |o|, rest) && EncodeAll(o) + rest == Encode(fs[0]) + tail
  {
    assert ([fs[0]] + out)[1..] == out;
    assert fs[1..][|out|..] == fs[|out| + 1..];
    assert Encode(fs[0]) + EncodeAll(out) + rest == Encode(fs[0]) + (EncodeAll(out) + rest);
  }

  // ----- chunks -----

  function Concat(chunks: seq<seq<byte>>): seq<byte> {
    if chunks == [] then [] else chunks[0] + Concat(chunks[1..])
  }

  /** Feeding the chunks one after another from buffer `buf`. */
  function FeedAll(buf: seq<byte>, chunks: seq<seq<byte>>): (seq<Frame>, seq<byte>)
    decreases |chunks|
  {
    if chunks == [] then ([], buf)
    else
      var r := Drain(buf + chunks[0]);
      var q := FeedAll(r.1, chunks[1..]);
      (r.0 + q.0, q.1)
  }

  /** The stream hits a bad length with at least one byte behind that header. */
  predicate Derails(b: seq<byte>)
    decreases |b|
  {
    if Ready(b) then Derails(Rest(b)) else Corrupt(b) && |b| > 4
  }

  lemma ReadyExtends(a: seq<byte>, c: seq<byte>)
    requires |a| >= 4
    ensures Read32(a + c) == Read32(a)
    ensures Ready(a) ==> Ready(a + c) && Head(a + c) == Head(a) && Rest(a + c) == Rest(a) + c
  {
    if Ready(a) {
      var n := 4 + Read32(a);
      assert (a + c)[6..8] == a[6..8];
      assert (a + c)[8..n] == a[8..n];
    }
  }

  lemma NoFrames()
    ensures var none: seq<Frame> := []; none + none == none
  {
  }

  lemma Regroup(h: Frame, x: seq<Frame>, y: seq<Frame>)
    ensures [h] + (x + y) == ([h] + x) + y
  {
  }

  lemma DrainReady(b: seq<byte>)
    requires Ready(b)
    ensures Drain(b) == ([Head(b)] + Drain(Rest(b)).0, Drain(Rest(b)).1)
  {
  }

  lemma DrainHeld(a: seq<byte>, c: seq<byte>)
    requires !Ready(a) && !Derails(a + c)
    ensures Drain(a).0 == [] && Drain(Drain(a).1 + c) == Drain(a + c) && !Derails(Drain(a).1 + c)
  {
    if Corrupt(a) {
      ReadyExtends(a, c);
      assert c == [] && a + c == a;
    }
  }

  /** Draining early loses nothing while the stream stays on the rails. */
  lemma {:induction false} DrainSplit(a: seq<byte>, c: seq<byte>)
    requires !Derails(a + c)
    ensures Drain(a + c) == (Drain(a).0 + Drain(Drain(a).1 + c).0, Drain(Drain(a).1 + c).1)
    ensures !Derails(Drain(a).1 + c)
    decreases |a|
  {
    if Ready(a) {
      ReadyExtends(a, c);
      DrainSplit(Rest(a), c);
      DrainReady(a);
      DrainReady(a + c);
      Regroup(Head(a), Drain(Rest(a)).0, Drain(Drain(a).1 + c).0);
    } else {
      DrainHeld(a, c);
      assert [] + Drain(a + c).0 == Drain(a + c).0;
    }
  }

  /** On such streams the frames and the held bytes do not depend on how the bytes were cut. */
  lemma {:induction false} FeedIsDrain(buf: seq<byte>, chunks: seq<seq<byte>>)
    requires !Derails(buf + Concat(chunks))
    requires Drain(buf) == ([], buf)
    ensures FeedAll(buf, chunks) == Drain(buf + Concat(chunks))
    decreases |chunks|
  {
    if chunks == [] {
      assert buf + [] == buf;
    } else {
      var a, rest := buf + chunks[0], Concat(chunks[1..]);
      assert buf + Concat(chunks) == a + rest;
      DrainSplit(a, rest);
      DrainStable(a);
      FeedIsDrain(Drain(a).1, chunks[1..]);
    }
  }

  lemma {:induction false} DrainStable(b: seq<byte>)
    ensures Drain(Drain(b).1) == ([], Drain(b).1)
    decreases |b|
  {
    if !Ready(b) {
    } else {
      DrainStable(Rest(b));
    }
  }

  /** A drained derailed stream holds nothing. */
  lemma {:induction false} DerailedHoldsNothing(b: seq<byte>)
    requires Derails(b)
    ensures Drain(b).1 == []
    decreases |b|
  {
    if !Ready(b) {
    } else {
      DerailedHoldsNothing(Rest(b));
    }
  }

  lemma {:induction false} DerailedPrefix(b: seq<byte>)
    requires Derails(b)
    ensures Drain(b[..|b| - 1]).1 == []
    decreases |b|
  {
    var a := b[..|b| - 1];
    assert a + [b[|b| - 1]] == b;
    if Ready(b) {
      DerailsLong(Rest(b));
      assert |a| >= 4 + Read32(b);
      ReadyExtends(a, [b[|b| - 1]]);
      assert Rest(a) == Rest(b)[..|Rest(b)| - 1];
      DerailedPrefix(Rest(b));
    } else {
      ReadyExtends(a, [b[|b| - 1]]);
    }
  }

  lemma {:induction false} DerailsLong(b: seq<byte>)
    requires Derails(b)
    ensures |b| > 4
    decreases |b|
  {
    if !Ready(b) {
    } else {
      DerailsLong(Rest(b));
    }
  }

  ghost predicate ChunkIndependent(b: seq<byte>) {
    forall chunks :: Concat(chunks) == b ==> FeedAll([], chunks) == Drain(b)
  }

  /** Decoding is independent of the chunking exactly when no bad length has bytes behind it. */
  lemma ChunkIndependentIff(b: seq<byte>)
    ensures ChunkIndependent(b) <==> !Derails(b)
  {
    assert [] + b == b;
    if !Derails(b) {
      forall chunks | Concat(chunks) == b ensures FeedAll([], chunks) == Drain(b) {
        FeedIsDrain([], chunks);
      }
    } else {
      DerailedHoldsNothing(b);
      var cut := LateCut(b);
      assert FeedAll([], cut) != Drain(b);
    }
  }

  /** Holding the last byte back leaves it in the buffer, where the whole read leaves nothing. */
  lemma LateCut(b: seq<byte>) returns (chunks: seq<seq<byte>>)
    requires Derails(b)
    ensures Concat(chunks) == b && FeedAll([], chunks).1 != []
  {
    DerailedPrefix(b);
    DerailsLong(b);
    var a, z := b[..|b| - 1], [b[|b| - 1]];
    chunks := [a, z];
    assert chunks[1..] == [z] && [z][1..] == [];
    assert Concat([z]) == z + [];
    assert Concat(chunks) == a + (z + []) == b;
    assert [] + a == a && [] + z == z;
    assert Drain(z) == ([], z);
    assert FeedAll(z, []) == ([], z);
    NoFrames();
    assert FeedAll([], [z]) == ([], z);
    assert FeedAll([], chunks).1 == z;
  }

  lemma {:induction false} ValidStreamStaysOnRails(fs: seq<Frame>, b: seq<byte>)
    requires AllValid(fs) && b <= EncodeAll(fs)
    ensures !Derails(b)
    decreases |fs|
  {
    if fs == [] {
    } else {
      var e := Encode(fs[0]);
      if |b| < |e| {
        assert b == EncodeAll(fs)[..|b|] == e[..|b|];
        PartialFrame(fs[0], b);
      } else {
        var tail := b[|e|..];
        assert b[..|e|] == EncodeAll(fs)[..|e|] == e;
        assert b == e + tail;
        assert tail == EncodeAll(fs)[|e|..|b|] == EncodeAll(fs[1..])[..|tail|];
        DecodeFirst(fs[0], tail);
        ValidStreamStaysOnRails(fs[1..], tail);
      }
    }
  }

  /** Streaming decode inverts encode: however the bytes of valid frames arrive, the frames completed
      so far come out in order and the buffer holds exactly the unfinished suffix. */
  lemma StreamRoundTrip(fs: seq<Frame>, chunks: seq<seq<byte>>)
    requires AllValid(fs) && Concat(chunks) <= EncodeAll(fs)
    ensures var (out, rest) := FeedAll([], chunks);
            && |out| <= |fs| && out == fs[..|out|]
            && Unfinished(fs, |out|, rest)
            && EncodeAll(out) + rest == Concat(chunks)
    ensures Concat(chunks) == EncodeAll(fs) ==> FeedAll([], chunks) == (fs, [])
  {
    var b := Concat(chunks);
    assert [] + b == b;
    ValidStreamStaysOnRails(fs, b);
    FeedIsDrain([], chunks);
    DrainPrefix(fs, b);
    if b == EncodeAll(fs) {
      DrainWhole(fs);
    }
  }

  lemma {:induction false} DrainWhole(fs: seq<Frame>)
    requires AllValid(fs)
    ensures Drain(EncodeAll(fs)) == (fs, [])
  {
    if fs == [] {
    } else {
      DecodeFirst(fs[0], EncodeAll(fs[1..]));
      DrainWhole(fs[1..]);
      assert [fs[0]] + fs[1..] == fs;
    }
  }

  // ----- bounded memory -----

  const MAX_HELD: nat := 65539
  const READ_CHUNK: nat := 4096

  /** After a drain the buffer holds less than one largest frame, whatever arrived. */
  lemma {:induction false} HeldBound(b: seq<byte>)
    ensures |Drain(b).1| <= 65539
    decreases |b|
  {
    if !Ready(b) {
    } else {
      HeldBound(Rest(b));
    }
  }

  /** So with reads of at most 4096 bytes it never exceeds 69635, at any point of any stream. */
  lemma {:induction false} PeakBound(buf: seq<byte>, chunks: seq<seq<byte>>, k: nat)
    requires |buf| <= 65539 && k < |chunks|
    requires forall c :: c in chunks ==> |c| <= 4096
    ensures |FeedAll(buf, chunks[..k]).1 + chunks[k]| <= 69635
    decreases k
  {
    if k == 0 {
    } else {
      HeldBound(buf + chunks[0]);
      PeakBound(Drain(buf + chunks[0]).1, chunks[1..], k - 1);
      assert chunks[1..][..k - 1] == chunks[..k][1..];
    }
  }
}
