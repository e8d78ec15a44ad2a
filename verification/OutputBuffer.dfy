/**
 The two-tier output ring buffer of a session (internal/session/session.go).
 New chunks enter the hot tier; overflow moves to a pending queue, which is
 compressed outside the lock into cold segments; every tier is evicted by age
 and the hot and cold tiers also by size. Each locked region is one function
 on `Buffer` and one method of `OutputRing`.
 */
module OutputBuffer {
  import opened Bytes
  import opened Frames
  import opened ColdBuffer

  const MAX_HOT_BYTES: nat := 4 * 1024 * 1024
  const MAX_HOT_CHUNKS: nat := 8192
  const MAX_COLD_BYTES: nat := 32 * 1024 * 1024
  const SEGMENT_RAW_TARGET: nat := 1024 * 1024
  const MAX_BATCH_BYTES: nat := 4 * 1024 * 1024
  const MAX_AGE: int := 72 * 3600 * 1_000_000_000
  const PENDING_FLUSH_AGE: int := 120 * 1_000_000_000

  /** The buffer fields of Session; `last` is the sequence number of the newest chunk. */
  datatype Buffer = Buffer(
    last: nat, hot: seq<Chunk>, hotBytes: int, pending: seq<Chunk>, pendingBytes: int,
    segments: seq<Segment>, coldBytes: int, coldRawBytes: int, flushing: bool)

  const EMPTY := Buffer(0, [], 0, [], 0, [], 0, 0, false)

  predicate Aged(time: int, now: int) { now - time > MAX_AGE }

  predicate HotOver(b: Buffer) { |b.hot| > MAX_HOT_CHUNKS || b.hotBytes > MAX_HOT_BYTES }

  function DropHot(b: Buffer): Buffer
    requires b.hot != []
  {
    b.(hot := b.hot[1..], hotBytes := b.hotBytes - |b.hot[0].data|)
  }

  function MoveHot(b: Buffer): Buffer
    requires b.hot != []
  {
    DropHot(b).(pending := b.pending + [b.hot[0]], pendingBytes := b.pendingBytes + |b.hot[0].data|)
  }

  function DropPending(b: Buffer): Buffer
    requires b.pending != []
  {
    b.(pending := b.pending[1..], pendingBytes := b.pendingBytes - |b.pending[0].data|)
  }

  function DropSegment(b: Buffer): Buffer
    requires b.segments != []
  {
    b.(segments := b.segments[1..],
    coldBytes := b.coldBytes - |b.segments[0].data|,
    coldRawBytes := b.coldRawBytes - b.segments[0].rawBytes)
  }

  function EvictHot(b: Buffer, now: int): Buffer
    decreases |b.hot|
  {
    if b.hot == [] then b
    else if Aged(b.hot[0].time, now) then EvictHot(DropHot(b), now)
    else if HotOver(b) then EvictHot(MoveHot(b), now)
    else b
  }

  function EvictAgedPending(b: Buffer, now: int): Buffer
    decreases |b.pending|
  {
    if b.pending != [] && Aged(b.pending[0].time, now) then EvictAgedPending(DropPending(b), now) else b
  }

  /** While a compression is in flight the front of the queue belongs to it and is left alone. */
  function EvictPending(b: Buffer, now: int): Buffer {
    if b.flushing then b else EvictAgedPending(b, now)
  }

  predicate SegmentDue(b: Buffer, now: int)
    requires b.segments != []
  {
    Aged(b.segments[0].newestTime, now) || b.coldBytes > MAX_COLD_BYTES
  }

  function EvictCold(b: Buffer, now: int): Buffer
    decreases |b.segments|
  {
    if b.segments != [] && SegmentDue(b, now) then EvictCold(DropSegment(b), now) else b
  }

  function EvictAll(b: Buffer, now: int): Buffer {
    EvictCold(EvictPending(EvictHot(b, now), now), now)
  }

  function AppendChunk(b: Buffer, data: seq<byte>, time: int): Buffer {
    b.(last := b.last + 1, hot := b.hot + [Chunk(b.last + 1, data, time)], hotBytes := b.hotBytes + |data|)
  }

  predicate CanFlush(b: Buffer) { !b.flushing && b.pending != [] }

  function FinishFlush(c: Codec, b: Buffer, batch: seq<Chunk>, ok: bool): Buffer
    requires batch != [] && |batch| <= |b.pending|
  {
    var b' := b.(pending := b.pending[|batch|..], pendingBytes := b.pendingBytes - RawBytes(batch), flushing := false);
    if !ok then b'
    else
      var seg := SegmentOf(c, batch);
      b'.(segments := b.segments + [seg], coldBytes := b.coldBytes + |seg.data|,
      coldRawBytes := b.coldRawBytes + seg.rawBytes)
  }

  // Reading the buffer back.

  function FramesOf(c: Codec, seg: Segment): seq<Frame> {
    var fs := SegmentFrames(c, seg);
    if fs.Some? then fs.value else []
  }

  function ColdFrames(c: Codec, segs: seq<Segment>): seq<Frame> {
    if segs == [] then [] else FramesOf(c, segs[0]) + ColdFrames(c, segs[1..])
  }

  /** Every chunk the buffer holds, oldest first. */
  function Contents(c: Codec, b: Buffer): seq<Frame> {
    ColdFrames(c, b.segments) + Items(b.pending + b.hot)
  }

  function DataBytes(fs: seq<Frame>): nat {
    if fs == [] then 0 else |fs[0].data| + DataBytes(fs[1..])
  }

  /** Whole segments are taken until the batch limit is reached; then raw chunks up to the limit. */
  function TakeSegments(c: Codec, segs: seq<Segment>, from: nat, raw: seq<Frame>, total: nat): seq<Frame>
    decreases |segs|
  {
    if segs == [] then TakeRaw(raw, total)
    else if total >= MAX_BATCH_BYTES then []
    else
      var fs := From(FramesOf(c, segs[0]), from);
      fs + TakeSegments(c, segs[1..], from, raw, total + DataBytes(fs))
  }

  function TakeRaw(raw: seq<Frame>, total: nat): seq<Frame> {
    if raw == [] || total >= MAX_BATCH_BYTES then []
    else [raw[0]] + TakeRaw(raw[1..], total + |raw[0].data|)
  }

  function SegmentsFrom(segs: seq<Segment>, from: nat): seq<Segment> {
    if segs == [] then []
    else if segs[0].endSeq >= from then [segs[0]] + SegmentsFrom(segs[1..], from)
    else SegmentsFrom(segs[1..], from)
  }

  /** One resync batch; the cold tier is only replayed to clients that already had output. */
  function ResyncBatch(c: Codec, b: Buffer, from: nat): seq<Frame> {
    TakeSegments(c, if from > 1 then SegmentsFrom(b.segments, from) else [], from,
                 From(Items(b.pending + b.hot), from), 0)
  }

  function OldestRetained(b: Buffer): Option<nat> {
    if b.segments != [] then Some(b.segments[0].startSeq)
    else if b.pending != [] then Some(b.pending[0].seqNo)
    else if b.hot != [] then Some(b.hot[0].seqNo)
    else None
  }

  predicate DroppedNotice(b: Buffer, from: nat) {
    from > 1 && OldestRetained(b).Some? && OldestRetained(b).value > from
  }

  /** The buffer part of Session. Methods run under the session lock. */
  class OutputRing {
    var seqNo: nat
    var outputChunks: seq<Chunk>
    var outputBufferBytes: int
    var coldPending: seq<Chunk>
    var coldPendingBytes: int
    var coldSegments: seq<Segment>
    var coldBytes: int
    var coldRawBytes: int
    var coldFlushing: bool

    constructor ()
      ensures View() == EMPTY
    {
      seqNo, outputChunks, outputBufferBytes := 0, [], 0;
      coldPending, coldPendingBytes := [], 0;
      coldSegments, coldBytes, coldRawBytes, coldFlushing := [], 0, 0, false;
    }

    function View(): Buffer
      reads this
    {
      Buffer(seqNo, outputChunks, outputBufferBytes, coldPending, coldPendingBytes,
             coldSegments, coldBytes, coldRawBytes, coldFlushing)
    }

    method EvictHotLocked(now: int)
      modifies this
      ensures View() == EvictHot(old(View()), now)
    {
      while |outputChunks| > 0
        invariant EvictHot(View(), now) == EvictHot(old(View()), now)
        decreases |outputChunks|
      {
        var oldest := outputChunks[0];
        var tooOld := now - oldest.time > MAX_AGE;
        var overLimit := |outputChunks| > MAX_HOT_CHUNKS || outputBufferBytes > MAX_HOT_BYTES;
        if !tooOld && !overLimit {
          break;
        }
        outputChunks := outputChunks[1..];
        outputBufferBytes := outputBufferBytes - |oldest.data|;
        if !tooOld {
          coldPending := coldPending + [oldest];
          coldPendingBytes := coldPendingBytes + |oldest.data|;
        }
      }
    }

    method EvictColdPendingLocked(now: int)
      modifies this
      ensures View() == EvictPending(old(View()), now)
    {
      if coldFlushing {
        return;
      }
      while |coldPending| > 0 && now - coldPending[0].time > MAX_AGE
        invariant EvictAgedPending(View(), now) == EvictAgedPending(old(View()), now)
        decreases |coldPending|
      {
        coldPendingBytes := coldPendingBytes - |coldPending[0].data|;
        coldPending := coldPending[1..];
      }
    }

    method EvictColdLocked(now: int)
      modifies this
      ensures View() == EvictCold(old(View()), now)
    {
      while |coldSegments| > 0
        invariant EvictCold(View(), now) == EvictCold(old(View()), now)
        decreases |coldSegments|
      {
        var oldest := coldSegments[0];
        var tooOld := now - oldest.newestTime > MAX_AGE;
        var overLimit := coldBytes > MAX_COLD_BYTES;
        if !tooOld && !overLimit {
          break;
        }
        coldSegments := coldSegments[1..];
        coldBytes := coldBytes - |oldest.data|;
        coldRawBytes := coldRawBytes - oldest.rawBytes;
      }
    }

    /** The result asks the caller to compress the queue once the lock is released. */
    method EvictOutputChunksLocked(now: int) returns (needColdFlush: bool)
      modifies this
      ensures View() == EvictAll(old(View()), now)
      ensures needColdFlush == (coldPendingBytes >= SEGMENT_RAW_TARGET && !coldFlushing)
    {
      EvictHotLocked(now);
      EvictColdPendingLocked(now);
      needColdFlush := coldPendingBytes >= SEGMENT_RAW_TARGET && !coldFlushing;
      EvictColdKeepsRaw(View(), now);
      EvictColdLocked(now);
    }

    /** The append part of handlePTYOutput; an empty read changes nothing. */
    method HandlePTYOutput(data: seq<byte>, time: int, now: int) returns (needColdFlush: bool)
      modifies this
      ensures View() == if data == [] then old(View()) else EvictAll(AppendChunk(old(View()), data, time), now)
      ensures needColdFlush == (data != [] && coldPendingBytes >= 1024 * 1024 && !coldFlushing)
    {
      if |data| == 0 {
        return false;
      }
      seqNo := seqNo + 1;
      outputChunks := outputChunks + [Chunk(seqNo, data, time)];
      outputBufferBytes := outputBufferBytes + |data|;
      needColdFlush := EvictOutputChunksLocked(now);
    }

    /** The periodic cleanup; a queue that has lingered is compressed as well. */
    method EvictStaleOutput(now: int) returns (needFlush: bool)
      modifies this
      ensures View() == EvictAll(old(View()), now)
      ensures needFlush <==> !coldFlushing &&
                             (coldPendingBytes >= 1024 * 1024 ||
                              (coldPending != [] && now - coldPending[0].time > 120 * 1_000_000_000))
    {
      needFlush := EvictOutputChunksLocked(now);
      if !coldFlushing && |coldPending| > 0 && now - coldPending[0].time > PENDING_FLUSH_AGE {
        needFlush := true;
      }
    }

    /** First locked region of flushColdPending: claim the queue, leaving it in place. */
    method FlushBegin() returns (batch: Option<seq<Chunk>>)
      modifies this
      ensures batch == if CanFlush(old(View())) then Some(old(coldPending)) else None
      ensures View() == old(View()).(flushing := old(coldFlushing) || batch.Some?)
    {
      if coldFlushing || |coldPending| == 0 {
        return None;
      }
      coldFlushing := true;
      batch := Some(coldPending);
    }

    /** Compression of the batch and second locked region; `ok` is false when compression failed. */
    method FlushEnd(c: Codec, batch: seq<Chunk>, ok: bool)
      requires batch != [] && |batch| <= |coldPending|
      modifies this
      ensures View() == FinishFlush(c, old(View()), batch, ok)
    {
      var seg := CompressChunks(c, batch);
      var batchBytes := 0;
      for i := 0 to |batch|
        invariant batchBytes == RawBytes(batch[..i])
        invariant View() == old(View())
      {
        assert batch[..i + 1] == batch[..i] + [batch[i]];
        RawBytesConcat(batch[..i], [batch[i]]);
        batchBytes := batchBytes + |batch[i].data|;
      }
      assert batch[..|batch|] == batch;
      coldPending := coldPending[|batch|..];
      coldPendingBytes := coldPendingBytes - batchBytes;
      if ok {
        coldSegments := coldSegments + [seg.value];
        coldBytes := coldBytes + |seg.value.data|;
        coldRawBytes := coldRawBytes + seg.value.rawBytes;
      }
      coldFlushing := false;
    }

    /** The reconnect callback: one batch of output from `from`, and whether output was dropped. */
    method OutputFromOffset(c: Codec, from: nat) returns (notice: bool, out: seq<Frame>)
      ensures notice == DroppedNotice(View(), from)
      ensures out == ResyncBatch(c, View(), from)
    {
      var segs := [];
      if from > 1 {
        segs := SelectSegments(coldSegments, from);
      }
      var raw := RawFrom(coldPending + outputChunks, from);
      var oldest := OldestRetained(View());
      notice := from > 1 && oldest.Some? && oldest.value > from;
      out := FillBatch(c, segs, from, raw);
    }
  }

  method SelectSegments(segments: seq<Segment>, from: nat) returns (segs: seq<Segment>)
    ensures segs == SegmentsFrom(segments, from)
  {
    segs := [];
    for i := 0 to |segments|
      invariant segs == SegmentsFrom(segments[..i], from)
    {
      SegmentsFromAppend(segments[..i], segments[i], from);
      assert segments[..i + 1] == segments[..i] + [segments[i]];
      if segments[i].endSeq >= from {
        segs := segs + [segments[i]];
      }
    }
    assert segments[..|segments|] == segments;
  }

  /** The decoding half of outputFromOffset, outside the lock. */
  method FillBatch(c: Codec, segs: seq<Segment>, from: nat, raw: seq<Frame>) returns (out: seq<Frame>)
    ensures out == TakeSegments(c, segs, from, raw, 0)
  {
    hide FramesOf, From, DataBytes, TakeRaw;
    out := [];
    var total: nat := 0;
    ghost var want := TakeSegments(c, segs, from, raw, 0);
    for i := 0 to |segs|
      invariant out + TakeSegments(c, segs[i..], from, raw, total) == want
    {
      if total >= MAX_BATCH_BYTES {
        assert out + [] == out;
        return;
      }
      var fs, n := DecodeSegment(c, segs[i], from);
      ghost var rest := TakeSegments(c, segs[i + 1..], from, raw, total + n);
      assert TakeSegments(c, segs[i..], from, raw, total) == fs + rest by {
        assert segs[i..][1..] == segs[i + 1..];
      }
      assert out + (fs + rest) == (out + fs) + rest;
      total := total + n;
      out := out + fs;
    }
    var tail := TakeRawBatch(raw, total);
    out := out + tail;
  }

  /** A segment that does not decode is skipped. */
  method DecodeSegment(c: Codec, seg: Segment, from: nat) returns (fs: seq<Frame>, n: nat)
    ensures fs == From(FramesOf(c, seg), from)
    ensures n == DataBytes(fs)
  {
    var chunks := ChunksFrom(c, seg, from);
    fs := if chunks.None? then [] else chunks.value;
    n := SumBytes(fs);
  }

  method TakeRawBatch(raw: seq<Frame>, already: nat) returns (out: seq<Frame>)
    ensures out == TakeRaw(raw, already)
  {
    out := [];
    var total: nat := already;
    for i := 0 to |raw|
      invariant out + TakeRaw(raw[i..], total) == TakeRaw(raw, already)
    {
      if total >= MAX_BATCH_BYTES {
        assert out + [] == out;
        return;
      }
      ghost var rest := TakeRaw(raw[i + 1..], total + |raw[i].data|);
      assert TakeRaw(raw[i..], total) == [raw[i]] + rest by {
        assert raw[i..][1..] == raw[i + 1..];
      }
      assert out + ([raw[i]] + rest) == (out + [raw[i]]) + rest;
      total := total + |raw[i].data|;
      out := out + [raw[i]];
    }
    assert out + [] == out;
  }

  /** The raw chunks at or after `from`. */
  method RawFrom(chunks: seq<Chunk>, from: nat) returns (raw: seq<Frame>)
    ensures raw == From(Items(chunks), from)
  {
    raw := [];
    for i := 0 to |chunks|
      invariant raw == From(Items(chunks[..i]), from)
    {
      assert Items(chunks[..i + 1]) == Items(chunks[..i]) + [Item(chunks[i])];
      FromConcat(Items(chunks[..i]), [Item(chunks[i])], from);
      if chunks[i].seqNo >= from {
        raw := raw + [Item(chunks[i])];
      }
    }
    assert chunks[..|chunks|] == chunks;
  }

  lemma {:induction false} EvictColdKeepsRaw(b: Buffer, now: int)
    ensures EvictCold(b, now) == b.(segments := EvictCold(b, now).segments,
                                    coldBytes := EvictCold(b, now).coldBytes,
                                    coldRawBytes := EvictCold(b, now).coldRawBytes)
    decreases |b.segments|
  {
    if b.segments == [] || !SegmentDue(b, now) {
    } else {
      EvictColdKeepsRaw(DropSegment(b), now);
    }
  }

  lemma {:induction false} SegmentsFromAppend(segs: seq<Segment>, seg: Segment, from: nat)
    ensures SegmentsFrom(segs + [seg], from)
         == SegmentsFrom(segs, from) + if seg.endSeq >= from then [seg] else []
  {
    if segs == [] {
      assert segs + [seg] == [seg];
    } else {
      assert (segs + [seg])[1..] == segs[1..] + [seg];
      SegmentsFromAppend(segs[1..], seg, from);
    }
  }

  method SumBytes(fs: seq<Frame>) returns (n: nat)
    ensures n == DataBytes(fs)
  {
    n := 0;
    for i := 0 to |fs|
      invariant n + DataBytes(fs[i..]) == DataBytes(fs)
    {
      assert fs[i..][1..] == fs[i + 1..];
      n := n + |fs[i].data|;
    }
  }
}
