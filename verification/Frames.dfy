/**
 The framing shared by the output stream and by cold segments,
 [offset:8][length:4][data], and the input datagram [offset:8][data].
 */
module Frames {
  import opened Bytes

  const MAX_FRAME: nat := 16 * 1024 * 1024
  const MAX_OFFSET: nat := 0x1_0000_0000_0000_0000

  /** One output chunk as the transport sees it: its session offset and its bytes. */
  datatype Frame = Frame(offset: nat, data: seq<byte>)

  /** The offsets are from, from + 1 and so on. */
  predicate InSequence(fs: seq<Frame>, from: nat) {
    forall i :: 0 <= i < |fs| ==> fs[i].offset == from + i
  }

  /** What one framed read of a byte stream yields. */
  datatype ReadResult = Read(frame: Frame, rest: seq<byte>) | Eof | Corrupt

  datatype Decoded = Decoded(frames: seq<Frame>, clean: bool)

  predicate Encodable(f: Frame) {
    f.offset < MAX_OFFSET && |f.data| <= MAX_FRAME
  }

  predicate AllEncodable(fs: seq<Frame>) {
    forall i :: 0 <= i < |fs| ==> Encodable(fs[i])
  }

  function EncodeFrame(f: Frame): (b: seq<byte>)
    ensures |b| == 12 + |f.data|
  {
    PutUint(f.offset, 8) + PutUint(|f.data|, 4) + f.data
  }

  function EncodeFrames(fs: seq<Frame>): seq<byte> {
    if fs == [] then [] else EncodeFrame(fs[0]) + EncodeFrames(fs[1..])
  }

  /** A header that ends early or a length over the limit is an error; no byte at all is a clean end. */
  function ReadFrame(b: seq<byte>): (r: ReadResult)
    ensures r.Read? ==> |r.rest| < |b|
  {
    if b == [] then Eof
    else if |b| < 12 then Corrupt
    else
      var n := GetUint(b[8..12]);
      if n > MAX_FRAME || 12 + n > |b| then Corrupt
      else Read(Frame(GetUint(b[..8]), b[12..12 + n]), b[12 + n..])
  }

  /** Everything a reader gets from a stream before its end or its first error. */
  function DecodeAll(b: seq<byte>): (d: Decoded)
    decreases |b|
  {
    match ReadFrame(b)
    case Eof => Decoded([], true)
    case Corrupt => Decoded([], false)
    case Read(f, rest) =>
      var d := DecodeAll(rest);
      Decoded([f] + d.frames, d.clean)
  }

  lemma Layout(offset: seq<byte>, length: seq<byte>, data: seq<byte>, rest: seq<byte>)
    requires |offset| == 8 && |length| == 4
    ensures var b := offset + length + data + rest;
            && b[..8] == offset && b[8..12] == length
            && b[12..12 + |data|] == data && b[12 + |data|..] == rest
  {
  }

  lemma ReadEncoded(f: Frame, rest: seq<byte>)
    requires Encodable(f)
    ensures ReadFrame(EncodeFrame(f) + rest) == Read(f, rest)
  {
    Pow256Values();
    UintRoundTrip(f.offset, 8);
    UintRoundTrip(|f.data|, 4);
    hide PutUint, GetUint;
    Layout(PutUint(f.offset, 8), PutUint(|f.data|, 4), f.data, rest);
  }

  lemma CutJoined(head: seq<byte>, rest: seq<byte>, k: nat)
    requires k <= |head + rest|
    ensures (head + rest)[..k] == if k < |head| then head[..k] else head + rest[..k - |head|]
  {
  }

  /** A frame cut short is an error. */
  lemma CutFrame(f: Frame, k: nat)
    requires Encodable(f) && 0 < k < |EncodeFrame(f)|
    ensures ReadFrame(EncodeFrame(f)[..k]) == Corrupt
  {
    Pow256Values();
    UintRoundTrip(|f.data|, 4);
    hide PutUint, GetUint, Pow256;
    Layout(PutUint(f.offset, 8), PutUint(|f.data|, 4), f.data, []);
    assert EncodeFrame(f) == EncodeFrame(f) + [];
    if k >= 12 {
      assert EncodeFrame(f)[..k][8..12] == EncodeFrame(f)[8..12];
    }
  }

  /** A frame is read exactly when the bytes start with its encoding and it is within the limits. */
  lemma ReadIsExact(b: seq<byte>, f: Frame, rest: seq<byte>)
    ensures ReadFrame(b) == Read(f, rest) <==>
            f.offset < 0x1_0000_0000_0000_0000 && |f.data| <= 16 * 1024 * 1024 && b == EncodeFrame(f) + rest
  {
    if ReadFrame(b) == Read(f, rest) {
      UintBound(b[..8]);
      Pow256Values();
      PutOfGet(b[..8]);
      PutOfGet(b[8..12]);
      hide PutUint, GetUint, Pow256;
      assert b == b[..8] + b[8..12] + b[12..12 + |f.data|] + b[12 + |f.data|..];
    } else if f.offset < 0x1_0000_0000_0000_0000 && |f.data| <= 16 * 1024 * 1024 && b == EncodeFrame(f) + rest {
      ReadEncoded(f, rest);
    }
  }

  /** Any concatenation of frames within the limits decodes to the same frames. */
  lemma {:induction false} FramesRoundTrip(fs: seq<Frame>)
    requires AllEncodable(fs)
    ensures DecodeAll(EncodeFrames(fs)) == Decoded(fs, true)
  {
    if fs == [] {
    } else {
      ReadEncoded(fs[0], EncodeFrames(fs[1..]));
      FramesRoundTrip(fs[1..]);
    }
  }

  /** A stream cut at any byte decodes to a prefix of what was written. */
  lemma {:induction false} CutStreamDecodesToPrefix(fs: seq<Frame>, k: nat)
    requires AllEncodable(fs)
    requires k <= |EncodeFrames(fs)|
    ensures DecodeAll(EncodeFrames(fs)[..k]).frames <= fs
  {
    hide EncodeFrame, EncodeFrames, ReadFrame, DecodeAll, AllEncodable;
    EncodeCons(fs);
    if fs == [] || k == 0 {
      NoFrames(EncodeFrames(fs)[..k]);
    } else {
      var head, rest := EncodeFrame(fs[0]), EncodeFrames(fs[1..]);
      var cut := EncodeFrames(fs)[..k];
      CutJoined(head, rest, k);
      if k < |head| {
        CutFrame(fs[0], k);
        DecodeFirst(cut);
      } else {
        ReadEncoded(fs[0], rest[..k - |head|]);
        DecodeFirst(cut);
        CutStreamDecodesToPrefix(fs[1..], k - |head|);
        assert [fs[0]] + fs[1..] == fs;
      }
    }
  }

  lemma EncodeCons(fs: seq<Frame>)
    ensures fs == [] ==> EncodeFrames(fs) == []
    ensures fs != [] ==> EncodeFrames(fs) == EncodeFrame(fs[0]) + EncodeFrames(fs[1..])
    ensures fs != [] && AllEncodable(fs) ==> Encodable(fs[0]) && AllEncodable(fs[1..])
  {
    hide EncodeFrame, Encodable;
  }

  lemma NoFrames(b: seq<byte>)
    requires b == []
    ensures DecodeAll(b).frames == []
  {
  }

  lemma DecodeFirst(b: seq<byte>)
    ensures ReadFrame(b).Corrupt? ==> DecodeAll(b).frames == []
    ensures ReadFrame(b).Read? ==> DecodeAll(b).frames == [ReadFrame(b).frame] + DecodeAll(ReadFrame(b).rest).frames
  {
    hide ReadFrame;
  }

  lemma {:induction false} EncodeFramesAppend(fs: seq<Frame>, f: Frame)
    ensures EncodeFrames(fs + [f]) == EncodeFrames(fs) + EncodeFrame(f)
  {
    if fs == [] {
      assert fs + [f] == [f];
      assert EncodeFrames([f]) == EncodeFrame(f) + EncodeFrames([]);
    } else {
      assert (fs + [f])[1..] == fs[1..] + [f];
      EncodeFramesAppend(fs[1..], f);
    }
  }

  // Input datagrams.

  function EncodeDatagram(offset: nat, data: seq<byte>): (b: seq<byte>) {
    PutUint(offset, 8) + data
  }

  function DecodeDatagram(b: seq<byte>): (r: Option<(nat, seq<byte>)>) {
    if |b| < 8 then None else Some((GetUint(b[..8]), b[8..]))
  }

  lemma DatagramRoundTrip(offset: nat, data: seq<byte>)
    requires offset < MAX_OFFSET
    ensures DecodeDatagram(EncodeDatagram(offset, data)) == Some((offset, data))
  {
    var b := EncodeDatagram(offset, data);
    Pow256Values();
    UintRoundTrip(offset, 8);
    assert b[..8] == PutUint(offset, 8);
    assert b[8..] == data;
  }

  /** Anything of eight bytes or more is a datagram, and says where its bytes belong. */
  lemma DatagramIsExact(b: seq<byte>, offset: nat, data: seq<byte>)
    ensures DecodeDatagram(b) == Some((offset, data)) <==> offset < MAX_OFFSET && b == EncodeDatagram(offset, data)
    ensures DecodeDatagram(b).None? <==> |b| < 8
  {
    if DecodeDatagram(b) == Some((offset, data)) {
      UintBound(b[..8]);
      Pow256Values();
      PutOfGet(b[..8]);
      assert b == b[..8] + b[8..];
    }
    if offset < MAX_OFFSET && b == EncodeDatagram(offset, data) {
      DatagramRoundTrip(offset, data);
    }
  }

  // Ordered frame lists.

  predicate Ascending(fs: seq<Frame>) {
    forall i, j :: 0 <= i < j < |fs| ==> fs[i].offset < fs[j].offset
  }

  /** The frames at offset `from` or later, in order. */
  function From(fs: seq<Frame>, from: nat): (r: seq<Frame>) {
    if fs == [] then []
    else if fs[0].offset >= from then [fs[0]] + From(fs[1..], from)
    else From(fs[1..], from)
  }

  lemma {:induction false} FromMember(fs: seq<Frame>, from: nat, f: Frame)
    ensures f in From(fs, from) <==> f in fs && f.offset >= from
  {
    if fs == [] {
    } else {
      assert fs == [fs[0]] + fs[1..];
      FromMember(fs[1..], from, f);
    }
  }

  lemma {:induction false} FromConcat(a: seq<Frame>, b: seq<Frame>, from: nat)
    ensures From(a + b, from) == From(a, from) + From(b, from)
  {
    if a == [] {
      assert a + b == b;
    } else {
      assert (a + b)[1..] == a[1..] + b;
      FromConcat(a[1..], b, from);
    }
  }

  lemma {:induction false} FromAll(fs: seq<Frame>, from: nat)
    requires forall i :: 0 <= i < |fs| ==> fs[i].offset >= from
    ensures From(fs, from) == fs
  {
    if fs == [] {
    } else {
      FromAll(fs[1..], from);
    }
  }

  /** In an ascending list, selecting by offset is cutting a prefix off. */
  lemma {:induction false} FromIsSuffix(fs: seq<Frame>, from: nat) returns (k: nat)
    requires Ascending(fs)
    ensures k <= |fs| && From(fs, from) == fs[k..]
    ensures forall i :: 0 <= i < |fs| ==> (fs[i].offset >= from <==> i >= k)
  {
    if fs == [] {
      k := 0;
    } else if fs[0].offset >= from {
      FromAll(fs, from);
      k := 0;
    } else {
      var tail := fs[1..];
      var j := FromIsSuffix(tail, from);
      k := j + 1;
      assert forall i :: 1 <= i < |fs| ==> fs[i] == tail[i - 1];
    }
  }
}
