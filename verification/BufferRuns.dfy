/**
 Runs of the output buffer: appends, eviction passes and the two halves of a
 compression, in any interleaving. `log` records every chunk ever appended, so
 that what the buffer holds can be compared with what the session produced.
 */
module BufferRuns {
  import opened Bytes
  import opened Frames
  import opened ColdBuffer
  import opened OutputBuffer

  datatype Event =
    | Append(data: seq<byte>, time: int, now: int)
    | Evict(now: int)
    | FlushBegin
    | FlushEnd(ok: bool)

  /** The buffer, the batch held by the compressing goroutine, and everything appended so far. */
  datatype Sys = Sys(buf: Buffer, batch: seq<Chunk>, log: seq<Chunk>)

  const START := Sys(EMPTY, [], [])

  function Appended(s: Sys, data: seq<byte>, time: int): Sys {
    Sys(AppendChunk(s.buf, data, time), s.batch, s.log + [Chunk(s.buf.last + 1, data, time)])
  }

  function Step(c: Codec, s: Sys, e: Event): Sys
    requires s.buf.flushing ==> s.batch != [] && s.batch <= s.buf.pending
  {
    match e
    case Append(data, time, now) =>
      if data == [] then s
      else var s1 := Appended(s, data, time); s1.(buf := EvictAll(s1.buf, now))
    case Evict(now) => s.(buf := EvictAll(s.buf, now))
    case FlushBegin => if CanFlush(s.buf) then s.(buf := s.buf.(flushing := true), batch := s.buf.pending) else s
    case FlushEnd(ok) =>
      if s.buf.flushing then s.(buf := FinishFlush(c, s.buf, s.batch, ok), batch := []) else s
  }

  // What holds of every reachable state.

  ghost predicate Has(fs: seq<Frame>, n: nat) {
    exists i :: 0 <= i < |fs| && fs[i].offset == n
  }

  ghost predicate Retained(c: Codec, s: Sys, n: nat) { Has(Contents(c, s.buf), n) }

  ghost predicate LogOk(log: seq<Chunk>) {
    && |log| < MAX_OFFSET
    && forall i :: 0 <= i < |log| ==> log[i].seqNo == i + 1 && 0 < |log[i].data| <= MAX_FRAME
  }

  ghost predicate Logged(log: seq<Chunk>, f: Frame) {
    1 <= f.offset <= |log| && f == Item(log[f.offset - 1])
  }

  ghost predicate RawOk(log: seq<Chunk>, chs: seq<Chunk>) {
    forall i :: 0 <= i < |chs| ==> 1 <= chs[i].seqNo <= |log| && chs[i] == log[chs[i].seqNo - 1]
  }

  /** A segment decodes to logged chunks and its header tells their range and newest time. */
  ghost predicate SegmentOk(c: Codec, log: seq<Chunk>, seg: Segment) {
    var fs := FramesOf(c, seg);
    && fs != []
    && (forall i :: 0 <= i < |fs| ==> Logged(log, fs[i]))
    && seg.startSeq == fs[0].offset
    && seg.endSeq == fs[|fs| - 1].offset
    && seg.oldestTime == log[seg.startSeq - 1].time
    && seg.newestTime == log[seg.endSeq - 1].time
    && seg.rawBytes == DataBytes(fs)
  }

  ghost predicate ColdOk(c: Codec, log: seq<Chunk>, segs: seq<Segment>) {
    forall i :: 0 <= i < |segs| ==> SegmentOk(c, log, segs[i])
  }

  function PackedBytes(segs: seq<Segment>): nat {
    if segs == [] then 0 else |segs[0].data| + PackedBytes(segs[1..])
  }

  function UnpackedBytes(segs: seq<Segment>): nat {
    if segs == [] then 0 else segs[0].rawBytes + UnpackedBytes(segs[1..])
  }

  lemma {:induction false} SumsAppend(segs: seq<Segment>, seg: Segment)
    ensures PackedBytes(segs + [seg]) == PackedBytes(segs) + |seg.data|
    ensures UnpackedBytes(segs + [seg]) == UnpackedBytes(segs) + seg.rawBytes
  {
    if segs == [] {
      assert segs + [seg] == [seg];
    } else {
      assert (segs + [seg])[1..] == segs[1..] + [seg];
      SumsAppend(segs[1..], seg);
    }
  }

  ghost predicate Counted(b: Buffer) {
    && b.hotBytes == RawBytes(b.hot)
    && b.pendingBytes == RawBytes(b.pending)
    && b.coldBytes == PackedBytes(b.segments)
    && b.coldRawBytes == UnpackedBytes(b.segments)
  }

  ghost predicate InFlight(s: Sys) {
    if s.buf.flushing then s.batch != [] && s.batch <= s.buf.pending else s.batch == []
  }

  /**
   The inductive invariant: the counters are the true sums, the in-flight batch
   is the front of the queue, and the tiers together hold logged chunks in
   strictly increasing order.
   */
  ghost predicate Inv(c: Codec, s: Sys) {
    && LogOk(s.log) && |s.log| == s.buf.last
    && Counted(s.buf)
    && InFlight(s)
    && RawOk(s.log, s.buf.pending) && RawOk(s.log, s.buf.hot)
    && ColdOk(c, s.log, s.buf.segments)
    && Ascending(Contents(c, s.buf))
  }

  // Cutting frames out of the contents.

  lemma HasConcat(a: seq<Frame>, b: seq<Frame>, n: nat)
    ensures Has(a + b, n) <==> Has(a, n) || Has(b, n)
  {
    if Has(a, n) {
      var i :| 0 <= i < |a| && a[i].offset == n;
      assert (a + b)[i].offset == n;
    }
    if Has(b, n) {
      var i :| 0 <= i < |b| && b[i].offset == n;
      assert (a + b)[|a| + i].offset == n;
    }
  }

  /** All offsets from lo up to, but not including, hi. */
  ghost predicate HasAll(fs: seq<Frame>, lo: nat, hi: nat) {
    forall n: nat :: lo <= n < hi ==> Has(fs, n)
  }

  lemma HasOne(f: Frame, n: nat)
    ensures Has([f], n) <==> n == f.offset
  {
    assert [f][0] == f;
  }

  lemma NothingAbove(fs: seq<Frame>, n: nat)
    requires Ascending(fs) && fs != [] && n > fs[|fs| - 1].offset
    ensures !Has(fs, n)
  {
  }

  /** An ordered list has no gap exactly when it has every offset in its range. */
  lemma {:induction false} InSequenceIffAll(d: seq<Frame>)
    requires Ascending(d) && d != []
    ensures InSequence(d, d[0].offset) <==> HasAll(d, d[0].offset, d[|d| - 1].offset + 1)
  {
    var first, init, f := d[0].offset, d[..|d| - 1], d[|d| - 1];
    if |d| == 1 {
      assert Has(d, first);
    } else {
      InSequenceIffAll(init);
      assert d == init + [f];
      forall n: nat ensures Has(d, n) <==> Has(init, n) || n == f.offset {
        HasConcat(init, [f], n);
        HasOne(f, n);
      }
      var m := init[|init| - 1].offset;
      assert m == d[|d| - 2].offset < f.offset;
      if InSequence(d, first) {
        assert forall i :: 0 <= i < |init| ==> init[i] == d[i];
        assert f.offset == m + 1;
      }
      if HasAll(d, first, f.offset + 1) {
        assert forall n: nat :: first <= n < m + 1 ==> Has(init, n);
        NothingAbove(init, m + 1);
        assert Has(d, m + 1);
      }
    }
  }

  /** Cutting m out of a + m + z keeps the order, and exactly the offsets of m go. */
  lemma Cut(a: seq<Frame>, m: seq<Frame>, z: seq<Frame>)
    requires Ascending(a + m + z)
    ensures Ascending(a + z)
    ensures forall n: nat :: Has(a + m + z, n) <==> Has(a + z, n) || Has(m, n)
    ensures forall n: nat :: Has(m, n) ==> !Has(a + z, n)
  {
    var whole := a + m + z;
    assert forall i :: 0 <= i < |a| ==> (a + z)[i] == whole[i];
    assert forall i :: |a| <= i < |a + z| ==> (a + z)[i] == whole[i + |m|];
    assert forall i :: 0 <= i < |m| ==> m[i] == whole[i + |a|];
    forall n: nat
      ensures Has(whole, n) <==> Has(a + z, n) || Has(m, n)
    {
      HasConcat(a + m, z, n);
      HasConcat(a, m, n);
      HasConcat(a, z, n);
    }
    forall n: nat | Has(m, n)
      ensures !Has(a + z, n)
    {
      var i :| 0 <= i < |m| && m[i].offset == n;
      assert whole[i + |a|].offset == n;
    }
  }

  /** b' holds nothing b did not, and whatever is missing from b' was older than the age limit. */
  ghost predicate LosesOnlyAged(c: Codec, log: seq<Chunk>, b: Buffer, b': Buffer, now: int) {
    && (forall n: nat :: Has(Contents(c, b'), n) ==> Has(Contents(c, b), n))
    && (forall n: nat :: Has(Contents(c, b), n) && !Has(Contents(c, b'), n) ==>
                           1 <= n <= |log| && Aged(log[n - 1].time, now))
  }

  lemma CutLosesOnlyAged(
    c: Codec, log: seq<Chunk>, b: Buffer, b': Buffer, a: seq<Frame>, ch: Chunk, z: seq<Frame>, now: int)
    requires Contents(c, b) == a + [Item(ch)] + z && Contents(c, b') == a + z
    requires Ascending(Contents(c, b))
    requires 1 <= ch.seqNo <= |log| && ch == log[ch.seqNo - 1] && Aged(ch.time, now)
    ensures Ascending(Contents(c, b'))
    ensures LosesOnlyAged(c, log, b, b', now)
  {
    Cut(a, [Item(ch)], z);
  }

  /** Dropping one raw chunk cuts one frame out of the contents. */
  lemma RawSplit(cold: seq<Frame>, a: seq<Chunk>, ch: Chunk, z: seq<Chunk>)
    ensures cold + Items(a + [ch] + z) == cold + Items(a) + [Item(ch)] + Items(z)
    ensures cold + Items(a + z) == cold + Items(a) + Items(z)
  {
    assert Items(a + [ch] + z) == Items(a) + [Item(ch)] + Items(z);
    assert Items(a + z) == Items(a) + Items(z);
  }

  lemma DropRawStep(c: Codec, log: seq<Chunk>, b: Buffer, b': Buffer, a: seq<Chunk>, ch: Chunk, z: seq<Chunk>, now: int)
    requires b.pending + b.hot == a + [ch] + z && b'.pending + b'.hot == a + z
    requires b.segments == b'.segments && Ascending(Contents(c, b))
    requires 1 <= ch.seqNo <= |log| && ch == log[ch.seqNo - 1] && Aged(ch.time, now)
    ensures Ascending(Contents(c, b'))
    ensures LosesOnlyAged(c, log, b, b', now)
  {
    RawSplit(ColdFrames(c, b.segments), a, ch, z);
    CutLosesOnlyAged(c, log, b, b', ColdFrames(c, b.segments) + Items(a), ch, Items(z), now);
  }

  lemma DropHotStep(c: Codec, s: Sys, now: int)
    requires Inv(c, s) && s.buf.hot != [] && Aged(s.buf.hot[0].time, now)
    ensures Inv(c, s.(buf := DropHot(s.buf)))
    ensures LosesOnlyAged(c, s.log, s.buf, DropHot(s.buf), now)
  {
    hide Contents, Ascending, LosesOnlyAged, ColdOk, LogOk;
    var b := s.buf;
    assert b.pending + b.hot == b.pending + [b.hot[0]] + b.hot[1..];
    DropRawStep(c, s.log, b, DropHot(b), b.pending, b.hot[0], b.hot[1..], now);
  }

  lemma MoveHotStep(c: Codec, s: Sys)
    requires Inv(c, s) && s.buf.hot != []
    ensures Inv(c, s.(buf := MoveHot(s.buf)))
    ensures Contents(c, MoveHot(s.buf)) == Contents(c, s.buf)
  {
    hide Ascending, ColdOk, LogOk, ColdFrames;
    var b, b' := s.buf, MoveHot(s.buf);
    assert b'.pending + b'.hot == b.pending + b.hot;
    RawBytesConcat(b.pending, [b.hot[0]]);
  }

  lemma DropPendingStep(c: Codec, s: Sys, now: int)
    requires Inv(c, s) && !s.buf.flushing && s.buf.pending != [] && Aged(s.buf.pending[0].time, now)
    ensures Inv(c, s.(buf := DropPending(s.buf)))
    ensures LosesOnlyAged(c, s.log, s.buf, DropPending(s.buf), now)
  {
    hide Contents, Ascending, LosesOnlyAged, ColdOk, LogOk;
    var b := s.buf;
    PendingSplit(b.pending, b.hot);
    DropRawStep(c, s.log, b, DropPending(b), [], b.pending[0], b.pending[1..] + b.hot, now);
  }

  lemma PendingSplit(pending: seq<Chunk>, hot: seq<Chunk>)
    requires pending != []
    ensures pending + hot == [] + [pending[0]] + (pending[1..] + hot)
    ensures pending[1..] + hot == [] + (pending[1..] + hot)
  {
  }

  lemma {:induction false} EvictHotRun(c: Codec, s: Sys, now: int)
    requires Inv(c, s)
    ensures var b' := EvictHot(s.buf, now);
            Inv(c, s.(buf := b')) && LosesOnlyAged(c, s.log, s.buf, b', now) && !HotOver(b')
            && b'.segments == s.buf.segments && b'.flushing == s.buf.flushing
            && (b'.hot == [] || !Aged(b'.hot[0].time, now))
    decreases |s.buf.hot|
  {
    if s.buf.hot == [] {
    } else if Aged(s.buf.hot[0].time, now) {
      DropHotStep(c, s, now);
      EvictHotRun(c, s.(buf := DropHot(s.buf)), now);
    } else if HotOver(s.buf) {
      MoveHotStep(c, s);
      EvictHotRun(c, s.(buf := MoveHot(s.buf)), now);
    }
  }

  lemma {:induction false} EvictAgedPendingRun(c: Codec, s: Sys, now: int)
    requires Inv(c, s) && !s.buf.flushing
    ensures var b' := EvictAgedPending(s.buf, now);
            Inv(c, s.(buf := b')) && LosesOnlyAged(c, s.log, s.buf, b', now)
            && b' == s.buf.(pending := b'.pending, pendingBytes := b'.pendingBytes)
            && (b'.pending == [] || !Aged(b'.pending[0].time, now))
    decreases |s.buf.pending|
  {
    if s.buf.pending == [] || !Aged(s.buf.pending[0].time, now) {
    } else {
      DropPendingStep(c, s, now);
      EvictAgedPendingRun(c, s.(buf := DropPending(s.buf)), now);
    }
  }

  /** Segment i was dropped because its newest chunk was too old, or the cold tier from it on was too big. */
  ghost predicate SegmentLost(c: Codec, segs: seq<Segment>, i: nat, now: int, n: nat)
    requires i < |segs|
  {
    && Has(FramesOf(c, segs[i]), n)
    && (Aged(segs[i].newestTime, now) || PackedBytes(segs[i..]) > MAX_COLD_BYTES)
  }

  ghost predicate ColdExcuse(c: Codec, segs: seq<Segment>, now: int, n: nat) {
    exists i :: 0 <= i < |segs| && SegmentLost(c, segs, i, now, n)
  }

  /** Cold eviction drops whole segments from the old end, each for a reason. */
  ghost predicate LosesColdFront(c: Codec, b: Buffer, b': Buffer, now: int) {
    && (forall n: nat :: Has(Contents(c, b'), n) ==> Has(Contents(c, b), n))
    && (forall n: nat :: Has(Contents(c, b), n) && !Has(Contents(c, b'), n) ==>
                           && ColdExcuse(c, b.segments, now, n)
                           && forall m: nat :: Has(Contents(c, b'), m) ==> n < m)
  }

  lemma FrontComesFirst(m: seq<Frame>, z: seq<Frame>)
    requires Ascending(m + z)
    ensures Ascending(z)
    ensures forall n: nat :: Has(m + z, n) <==> Has(m, n) || Has(z, n)
    ensures forall n: nat, k: nat :: Has(m, n) && Has(z, k) ==> n < k
  {
    assert [] + m + z == m + z && [] + z == z;
    Cut([], m, z);
    forall n: nat, k: nat | Has(m, n) && Has(z, k) ensures n < k {
      var i :| 0 <= i < |m| && m[i].offset == n;
      var j :| 0 <= j < |z| && z[j].offset == k;
      assert (m + z)[i].offset < (m + z)[|m| + j].offset;
    }
  }

  lemma DropSegmentStep(c: Codec, s: Sys, now: int)
    requires Inv(c, s) && s.buf.segments != [] && SegmentDue(s.buf, now)
    ensures Inv(c, s.(buf := DropSegment(s.buf)))
    ensures LosesColdFront(c, s.buf, DropSegment(s.buf), now)
  {
    hide Ascending, RawOk, LogOk, FramesOf, Items, RawBytes;
    var b, b' := s.buf, DropSegment(s.buf);
    var m, z := FramesOf(c, b.segments[0]), Contents(c, b');
    assert Contents(c, b) == m + z;
    FrontComesFirst(m, z);
    assert b.segments[0..] == b.segments;
    assert forall n: nat :: Has(m, n) ==> SegmentLost(c, b.segments, 0, now, n);
    assert ColdOk(c, s.log, b'.segments);
  }

  lemma ColdExcuseTail(c: Codec, segs: seq<Segment>, now: int, n: nat)
    requires segs != [] && ColdExcuse(c, segs[1..], now, n)
    ensures ColdExcuse(c, segs, now, n)
  {
    var i :| 0 <= i < |segs[1..]| && SegmentLost(c, segs[1..], i, now, n);
    assert segs[1..][i..] == segs[i + 1..];
    assert SegmentLost(c, segs, i + 1, now, n);
  }

  lemma {:induction false} EvictColdRun(c: Codec, s: Sys, now: int)
    requires Inv(c, s)
    ensures var b' := EvictCold(s.buf, now);
            && Inv(c, s.(buf := b')) && LosesColdFront(c, s.buf, b', now)
            && b' == s.buf.(segments := b'.segments, coldBytes := b'.coldBytes, coldRawBytes := b'.coldRawBytes)
            && b'.coldBytes <= MAX_COLD_BYTES
            && (b'.segments == [] || !Aged(b'.segments[0].newestTime, now))
    decreases |s.buf.segments|
  {
    if s.buf.segments == [] || !SegmentDue(s.buf, now) {
    } else {
      DropSegmentStep(c, s, now);
      var b1 := DropSegment(s.buf);
      EvictColdRun(c, s.(buf := b1), now);
      forall n: nat | ColdExcuse(c, b1.segments, now, n)
        ensures ColdExcuse(c, s.buf.segments, now, n)
      {
        ColdExcuseTail(c, s.buf.segments, now, n);
      }
    }
  }

  /** Why an eviction pass may drop chunk n. */
  ghost predicate PassExcuse(c: Codec, s: Sys, now: int, n: nat) {
    (1 <= n <= |s.log| && Aged(s.log[n - 1].time, now)) || ColdExcuse(c, s.buf.segments, now, n)
  }

  /** One eviction pass: the invariant, the limits, and a reason for every chunk dropped. */
  lemma EvictionPass(c: Codec, s: Sys, now: int)
    requires Inv(c, s)
    ensures var s' := s.(buf := EvictAll(s.buf, now));
            && Inv(c, s')
            && s'.buf.last == s.buf.last && s'.buf.flushing == s.buf.flushing
            && |s'.buf.hot| <= 8192 && s'.buf.hotBytes <= 4 * 1024 * 1024 && s'.buf.coldBytes <= 32 * 1024 * 1024
            && (forall n: nat :: Retained(c, s', n) ==> Retained(c, s, n))
            && (forall n: nat :: Retained(c, s, n) && !Retained(c, s', n) ==>
                                   PassExcuse(c, s, now, n) &&
                                   (now - s.log[n - 1].time > 72 * 3600 * 1_000_000_000 || forall m: nat :: Retained(c, s', m) ==> n < m))
  {
    hide Contents, Ascending, ColdOk, RawOk, Counted, EvictHot, EvictAgedPending, EvictCold, ColdExcuse;
    EvictHotRun(c, s, now);
    var s1 := s.(buf := EvictHot(s.buf, now));
    if !s1.buf.flushing {
      EvictAgedPendingRun(c, s1, now);
    }
    var s2 := s.(buf := EvictPending(s1.buf, now));
    EvictColdRun(c, s2, now);
    forall n: nat | Retained(c, s, n) ensures 1 <= n <= |s.log| {
      RetainedIsLogged(c, s, n);
    }
  }

  lemma RetainedIsLogged(c: Codec, s: Sys, n: nat)
    requires Inv(c, s) && Retained(c, s, n)
    ensures 1 <= n <= |s.log|
    ensures Item(s.log[n - 1]) in Contents(c, s.buf)
  {
    ContentsLogged(c, s);
    hide Contents, Inv;
    var all := Contents(c, s.buf);
    var i :| 0 <= i < |all| && all[i].offset == n;
    assert Logged(s.log, all[i]);
  }

  lemma {:induction false} ColdLogged(c: Codec, log: seq<Chunk>, segs: seq<Segment>)
    requires ColdOk(c, log, segs)
    ensures forall f :: f in ColdFrames(c, segs) ==> Logged(log, f)
  {
    if segs == [] {
    } else {
      ColdLogged(c, log, segs[1..]);
      assert SegmentOk(c, log, segs[0]);
    }
  }

  /** The bytes held under an offset are the bytes that were appended under it. */
  lemma ContentsLogged(c: Codec, s: Sys)
    requires Inv(c, s)
    ensures forall f :: f in Contents(c, s.buf) ==> Logged(s.log, f)
  {
    ColdLogged(c, s.log, s.buf.segments);
    RawLogged(s.log, s.buf.pending + s.buf.hot);
    hide ColdFrames, Items, Logged, Ascending, ColdOk, LogOk;
  }

  lemma RawLogged(log: seq<Chunk>, chs: seq<Chunk>)
    ensures RawOk(log, chs) ==> forall f :: f in Items(chs) ==> Logged(log, f)
  {
    if RawOk(log, chs) {
      forall f | f in Items(chs) ensures Logged(log, f) {
        var i :| 0 <= i < |chs| && Items(chs)[i] == f;
        assert chs[i] == log[chs[i].seqNo - 1];
      }
    }
  }
}
