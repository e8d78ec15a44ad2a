/**
 Cold segments of the output ring buffer (internal/session/coldbuffer.go): a
 run of chunks framed and compressed as one immutable unit. Compression is an
 invertible codec handed in by the caller.
 */
module ColdBuffer {
  import opened Bytes
  import opened Frames

  /** A chunk of PTY output: its sequence number, bytes and append time in nanoseconds. */
  datatype Chunk = Chunk(seqNo: nat, data: seq<byte>, time: int)

  datatype Segment = Segment(
    startSeq: nat, endSeq: nat, rawBytes: nat, data: seq<byte>, oldestTime: int, newestTime: int)

  datatype Codec = Codec(deflate: seq<byte> -> seq<byte>, inflate: seq<byte> -> Option<seq<byte>>)

  ghost predicate Invertible(c: Codec) {
    forall b :: c.inflate(c.deflate(b)) == Some(b)
  }

  function Item(ch: Chunk): Frame { Frame(ch.seqNo, ch.data) }

  function Items(chs: seq<Chunk>): (fs: seq<Frame>)
    ensures |fs| == |chs|
    ensures forall i :: 0 <= i < |chs| ==> fs[i] == Item(chs[i])
  {
    seq(|chs|, i requires 0 <= i < |chs| => Item(chs[i]))
  }

  function RawBytes(chs: seq<Chunk>): (n: nat) {
    if chs == [] then 0 else |chs[0].data| + RawBytes(chs[1..])
  }

  lemma {:induction false} RawBytesConcat(a: seq<Chunk>, b: seq<Chunk>)
    ensures RawBytes(a + b) == RawBytes(a) + RawBytes(b)
  {
    if a == [] {
      assert a + b == b;
    } else {
      assert (a + b)[1..] == a[1..] + b;
      RawBytesConcat(a[1..], b);
    }
  }

  /** The segment that holds exactly `chs`. */
  function SegmentOf(c: Codec, chs: seq<Chunk>): Segment
    requires chs != []
  {
    Segment(chs[0].seqNo, chs[|chs| - 1].seqNo, RawBytes(chs), c.deflate(EncodeFrames(Items(chs))),
            chs[0].time, chs[|chs| - 1].time)
  }

  /** The frames inside a segment, or None when it does not decode. */
  function SegmentFrames(c: Codec, seg: Segment): Option<seq<Frame>> {
    match c.inflate(seg.data)
    case None => None
    case Some(raw) => var d := DecodeAll(raw); if d.clean then Some(d.frames) else None
  }

  method CompressChunks(c: Codec, chunks: seq<Chunk>) returns (r: Option<Segment>)
    ensures r == if chunks == [] then None else Some(SegmentOf(c, chunks))
  {
    if |chunks| == 0 {
      return None;
    }
    var buf: seq<byte> := [];
    var raw := 0;
    for i := 0 to |chunks|
      invariant buf == EncodeFrames(Items(chunks[..i]))
      invariant raw == RawBytes(chunks[..i])
    {
      assert chunks[..i + 1] == chunks[..i] + [chunks[i]];
      assert Items(chunks[..i + 1]) == Items(chunks[..i]) + [Item(chunks[i])];
      EncodeFramesAppend(Items(chunks[..i]), Item(chunks[i]));
      RawBytesConcat(chunks[..i], [chunks[i]]);
      buf := buf + PutUint(chunks[i].seqNo, 8) + PutUint(|chunks[i].data|, 4) + chunks[i].data;
      raw := raw + |chunks[i].data|;
    }
    assert chunks[..|chunks|] == chunks;
    r := Some(Segment(chunks[0].seqNo, chunks[|chunks| - 1].seqNo, raw, c.deflate(buf),
                      chunks[0].time, chunks[|chunks| - 1].time));
  }

  /** chunksFrom: what a resync from `from` takes out of a segment. */
  method ChunksFrom(c: Codec, seg: Segment, from: nat) returns (r: Option<seq<Frame>>)
    ensures SegmentFrames(c, seg).None? ==> r.None?
    ensures SegmentFrames(c, seg).Some? ==> r == Some(From(SegmentFrames(c, seg).value, from))
  {
    hide ReadFrame, DecodeAll, From;
    NothingFromNothing(from);
    var inflated := c.inflate(seg.data);
    if inflated.None? {
      return None;
    }
    var rest := inflated.value;
    ghost var whole := DecodeAll(rest);
    var out: seq<Frame> := [];
    var step := ReadFrame(rest);
    while step.Read?
      invariant step == ReadFrame(rest)
      invariant whole.clean == DecodeAll(rest).clean
      invariant From(whole.frames, from) == out + From(DecodeAll(rest).frames, from)
      decreases |rest|
    {
      DecodeStep(rest, from);
      JoinThree(out, if step.frame.offset >= from then [step.frame] else [], From(DecodeAll(step.rest).frames, from));
      if step.frame.offset >= from {
        out := out + [step.frame];
      }
      rest := step.rest;
      step := ReadFrame(rest);
    }
    DecodeStep(rest, from);
    assert out + [] == out;
    r := if step.Eof? then Some(out) else None;
  }

  lemma NothingFromNothing(from: nat)
    ensures From([], from) == []
  {
  }

  lemma JoinThree(a: seq<Frame>, b: seq<Frame>, c: seq<Frame>)
    ensures a + (b + c) == (a + b) + c
    ensures b == [] ==> a + b == a
  {
  }

  lemma DecodeStep(b: seq<byte>, from: nat)
    ensures !ReadFrame(b).Read? ==> DecodeAll(b) == Decoded([], ReadFrame(b).Eof?)
    ensures ReadFrame(b).Read? ==>
              && DecodeAll(b).clean == DecodeAll(ReadFrame(b).rest).clean
              && From(DecodeAll(b).frames, from)
                 == (if ReadFrame(b).frame.offset >= from then [ReadFrame(b).frame] else [])
                    + From(DecodeAll(ReadFrame(b).rest).frames, from)
  {
    if ReadFrame(b).Read? {
      FromConcat([ReadFrame(b).frame], DecodeAll(ReadFrame(b).rest).frames, from);
    }
  }

  /** Decompressing gives back exactly the chunks compressed, so nothing is lost in the cold tier. */
  lemma SegmentRoundTrip(c: Codec, chs: seq<Chunk>)
    requires Invertible(c) && chs != [] && AllEncodable(Items(chs))
    ensures SegmentFrames(c, SegmentOf(c, chs)) == Some(Items(chs))
  {
    var raw := EncodeFrames(Items(chs));
    assert c.inflate(c.deflate(raw)) == Some(raw);
    FramesRoundTrip(Items(chs));
  }
}
