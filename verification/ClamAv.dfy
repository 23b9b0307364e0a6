/** The INSTREAM framing of the ClamAV scanner, and a decoder of the protocol that knows nothing of
    how the stream was cut. */
module ClamAv {
  import opened Bytes
  import opened Wrappers

  const CHUNK_SIZE := 65536

  /** "zINSTREAM" and a zero byte. */
  const HANDSHAKE: seq<Byte> := [0x7a, 0x49, 0x4e, 0x53, 0x54, 0x52, 0x45, 0x41, 0x4d, 0x00]

  /** A 32-bit number, highest byte first. */
  function BigEndian(n: nat): (s: seq<Byte>)
    requires n < 0x1_0000_0000
    ensures |s| == 4
  {
    [n / 0x100_0000, n / 0x1_0000 % 256, n / 256 % 256, n % 256]
  }

  function Number(s: seq<Byte>): nat
    requires |s| == 4
  {
    var a: nat, b: nat, c: nat, d: nat := s[0], s[1], s[2], s[3];
    ((a * 256 + b) * 256 + c) * 256 + d
  }

  lemma NumberOf(n: nat)
    requires n < 0x1_0000_0000
    ensures Number(BigEndian(n)) == n
  {
    var q, r := n / 256, n / 0x1_0000;
    assert n == q * 256 + n % 256 && q == r * 256 + q % 256 && r == r / 256 * 256 + r % 256;
    assert q / 256 == r && r / 256 == n / 0x100_0000;
  }

  /** Length-prefixed frames. */
  function Framed(frames: seq<seq<Byte>>): seq<Byte>
    requires forall f <- frames :: |f| < 0x1_0000_0000
  {
    if frames == [] then []
    else Framed(frames[..|frames| - 1]) + BigEndian(|frames[|frames| - 1]|) + frames[|frames| - 1]
  }

  // ---------------------------------------------------------------------------------
  // The decoder

  /** What a frame reader makes of the stream: the data and the rest after the zero-length frame, or
      nothing where the stream ends before that. */
  function Decode(s: seq<Byte>): Option<(seq<Byte>, seq<Byte>)>
    decreases |s|
  {
    if |s| < 4 then None
    else
      var n := Number(s[..4]);
      if n == 0 then Some(([], s[4..]))
      else if |s| < 4 + n then None
      else
        var r := Decode(s[4 + n..]);
        if r.None? then None else Some((s[4..4 + n] + r.value.0, r.value.1))
  }

  /** Decoding a frame and whatever follows it. */
  lemma DecodeFrame(f: seq<Byte>, rest: seq<Byte>, s: seq<Byte>)
    requires 1 <= |f| < 0x1_0000_0000 && s == BigEndian(|f|) + f + rest
    ensures Decode(s) == match Decode(rest) case None => None case Some((data, tail)) => Some((f + data, tail))
  {
    NumberOf(|f|);
    assert s[..4] == BigEndian(|f|) && s[4..4 + |f|] == f && s[4 + |f|..] == rest;
  }

  lemma {:induction false} DecodeFramed(frames: seq<seq<Byte>>, rest: seq<Byte>, s: seq<Byte>)
    requires (forall f <- frames :: 1 <= |f| < 0x1_0000_0000) && s == Framed(frames) + rest
    ensures Decode(s) == match Decode(rest)
              case None => None
              case Some((data, tail)) => Some((Concat(frames) + data, tail))
    decreases |frames|
  {
    if frames == [] {
      assert s == rest;
      var r := Decode(rest);
      if r.Some? { assert Concat(frames) + r.value.0 == r.value.0; }
    } else {
      var n := |frames| - 1;
      var f := frames[n];
      var mid := BigEndian(|f|) + f + rest;
      assert s == Framed(frames[..n]) + mid;
      DecodeFramed(frames[..n], mid, s);
      DecodeFrame(f, rest, mid);
      var r := Decode(rest);
      if r.Some? { assert Concat(frames[..n]) + (f + r.value.0) == Concat(frames) + r.value.0; }
    }
  }

  /** Every sequence of non-empty frames is decoded to its data, and the decoder stops at the
      terminator and not before. */
  lemma DecodeStream(frames: seq<seq<Byte>>)
    requires forall f <- frames :: 1 <= |f| <= CHUNK_SIZE
    ensures Decode(Framed(frames) + BigEndian(0)) == Some((Concat(frames), []))
    ensures Decode(Framed(frames)) == None
  {
    NumberOf(0);
    assert BigEndian(0)[..4] == BigEndian(0) && BigEndian(0)[4..] == [];
    DecodeFramed(frames, BigEndian(0), Framed(frames) + BigEndian(0));
    assert Framed(frames) + [] == Framed(frames);
    DecodeFramed(frames, [], Framed(frames));
    assert Concat(frames) + [] == Concat(frames);
  }

  // ---------------------------------------------------------------------------------
  // The scanner's side

  method WriteLength(n: nat) returns (b: array<Byte>)
    requires n < 0x1_0000_0000
    ensures fresh(b) && b[..] == BigEndian(n)
  {
    b := new Byte[4](_ => 0);
    b[0], b[1], b[2], b[3] := n / 0x100_0000, n / 0x1_0000 % 256, n / 256 % 256, n % 256;
  }

  /** The wire carries the handshake and the frames, none of them empty or too long. */
  ghost predicate Sent(wire: seq<Byte>, frames: seq<seq<Byte>>) {
    (forall f <- frames :: 1 <= |f| <= CHUNK_SIZE) && wire == HANDSHAKE + Framed(frames)
  }

  lemma SentNext(wire: seq<Byte>, frames: seq<seq<Byte>>, f: seq<Byte>)
    requires Sent(wire, frames) && 1 <= |f| <= CHUNK_SIZE
    ensures Sent(wire + BigEndian(|f|) + f, frames + [f]) && Concat(frames + [f]) == Concat(frames) + f
  {
    assert (frames + [f])[..|frames|] == frames;
    ConcatSnoc(frames, f);
    assert wire + BigEndian(|f|) + f == HANDSHAKE + (Framed(frames) + BigEndian(|f|) + f);
  }

  lemma SentAll(wire: seq<Byte>, frames: seq<seq<Byte>>, wire': seq<Byte>)
    requires Sent(wire, frames) && wire' == wire + BigEndian(0)
    ensures wire' == HANDSHAKE + Framed(frames) + BigEndian(0)
    ensures Decode(wire'[|HANDSHAKE|..]) == Some((Concat(frames), []))
  {
    DecodeStream(frames);
    assert wire'[|HANDSHAKE|..] == Framed(frames) + BigEndian(0);
  }

  lemma SentSoFar(wire: seq<Byte>, frames: seq<seq<Byte>>)
    requires Sent(wire, frames)
    ensures wire == HANDSHAKE + Framed(frames) + [] && Decode(wire[|HANDSHAKE|..]) == None
  {
    DecodeStream(frames);
    assert wire[|HANDSHAKE|..] == Framed(frames);
  }

  /** The scanner has answered: `limit` frames were enough for it. */
  predicate Settled(limit: Option<nat>, count: nat) {
    limit.Some? && count >= limit.value
  }

  /** Cuts one chunk into frames of at most `CHUNK_SIZE` bytes and writes them, until the scanner answers. */
  method SendChunk(buf: seq<Byte>, wire: seq<Byte>, count: nat, limit: Option<nat>, ghost frames: seq<seq<Byte>>)
    returns (wire': seq<Byte>, count': nat, scanned: nat, ghost frames': seq<seq<Byte>>)
    requires Sent(wire, frames) && count == |frames|
    ensures Sent(wire', frames') && count' == |frames'|
    ensures scanned <= |buf| && Concat(frames') == Concat(frames) + buf[..scanned]
    ensures !Settled(limit, count') ==> scanned == |buf|
  {
    var offset := 0;
    wire', count', scanned, frames' := wire, count, 0, frames;
    while offset < |buf|
      invariant offset <= |buf| && scanned == offset && Sent(wire', frames') && count' == |frames'|
      invariant Concat(frames') == Concat(frames) + buf[..offset]
    {
      if Settled(limit, count') {
        break;
      }
      var sliceLen := if CHUNK_SIZE < |buf| - offset then CHUNK_SIZE else |buf| - offset;
      var slice := buf[offset..offset + sliceLen];
      assert buf[..offset] + slice == buf[..offset + sliceLen];
      offset := offset + sliceLen;
      SentNext(wire', frames', slice);
      frames' := frames' + [slice];
      var lenBuf := WriteLength(|slice|);
      wire' := wire' + lenBuf[..];
      wire' := wire' + slice;
      scanned, count' := scanned + |slice|, count' + 1;
    }
  }

  lemma {:induction false} ConcatPrefix(chunks: seq<seq<Byte>>, k: nat, n: nat)
    requires k < |chunks| && n <= |chunks[k]|
    ensures Concat(chunks[..k]) + chunks[k][..n] <= Concat(chunks)
    decreases |chunks|
  {
    var m := |chunks| - 1;
    if k < m {
      ConcatPrefix(chunks[..m], k, n);
      assert chunks[..m][..k] == chunks[..k];
    }
  }

  /** Streams the chunks. Unless the scanner answers early, the decoder recovers exactly their bytes and
      stops at the terminator; otherwise no terminator is sent, and what was sent is a prefix. Every
      frame has between 1 and 65536 bytes. */
  method ScanStream(chunks: seq<seq<Byte>>, limit: Option<nat>)
    returns (wire: seq<Byte>, scanned: nat, ended: bool, ghost frames: seq<seq<Byte>>)
    ensures (forall f <- frames :: 1 <= |f| <= CHUNK_SIZE) && scanned == |Concat(frames)|
    ensures wire == HANDSHAKE + Framed(frames) + if ended then BigEndian(0) else []
    ensures ended <==> !Settled(limit, |frames|)
    ensures ended ==> scanned == |Concat(chunks)|
    ensures ended ==> Concat(frames) == Concat(chunks) && Decode(wire[|HANDSHAKE|..]) == Some((Concat(chunks), []))
    ensures !ended ==> Concat(frames) <= Concat(chunks) && Decode(wire[|HANDSHAKE|..]) == None
  {
    wire, scanned, frames := HANDSHAKE, 0, [];
    var k, count := 0, 0;
    while k < |chunks|
      invariant k <= |chunks| && Sent(wire, frames) && count == |frames|
      invariant Concat(frames) == Concat(chunks[..k]) && scanned == |Concat(frames)|
    {
      if Settled(limit, count) {
        ConcatPrefix(chunks, k, 0);
        break;
      }
      assert chunks[..k + 1][..k] == chunks[..k];
      var n;
      wire, count, n, frames := SendChunk(chunks[k], wire, count, limit, frames);
      scanned := scanned + n;
      if Settled(limit, count) {
        ConcatPrefix(chunks, k, n);
        break;
      }
      assert chunks[k][..n] == chunks[k];
      k := k + 1;
    }
    assert k == |chunks| ==> chunks[..k] == chunks;
    ended := !Settled(limit, count);
    if ended {
      var end := WriteLength(0);
      SentAll(wire, frames, wire + end[..]);
      wire := wire + end[..];
    } else {
      SentSoFar(wire, frames);
    }
  }
}
