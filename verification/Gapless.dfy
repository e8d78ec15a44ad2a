/**
 When the retained output is gapless. With a monotone clock and no failed
 compression, a hole can only open behind chunks that are past the age limit
 while a compression holds the queue. An eviction pass with no compression in
 flight closes every hole except those sealed inside a segment.
 */
module Gapless {
  import opened Bytes
  import opened Frames
  import opened ColdBuffer
  import opened OutputBuffer
  import opened BufferRuns
  import opened Conservation

  /** Everything from the oldest retained chunk to the newest appended one is retained. */
  ghost predicate GaplessSuffix(c: Codec, s: Sys) {
    forall m: nat, n: nat :: Retained(c, s, m) && m < n <= s.buf.last ==> Retained(c, s, n)
  }

  ghost predicate SegmentGapless(c: Codec, seg: Segment) {
    forall n: nat :: seg.startSeq <= n <= seg.endSeq ==> Has(FramesOf(c, seg), n)
  }

  ghost predicate SegmentsGapless(c: Codec, segs: seq<Segment>) {
    forall seg :: seg in segs ==> SegmentGapless(c, seg)
  }

  // Clocks.

  function Clock(start: int, es: seq<Event>): int {
    if es == [] then start
    else
      match es[|es| - 1]
      case Append(_, _, now) => now
      case Evict(now) => now
      case FlushBegin => Clock(start, es[..|es| - 1])
      case FlushEnd(_) => Clock(start, es[..|es| - 1])
  }

  predicate OnTime(t: int, e: Event) {
    match e
    case Append(_, time, now) => t <= time <= now
    case Evict(now) => t <= now
    case FlushBegin => true
    case FlushEnd(_) => true
  }

  /** No clock reading is earlier than the ones before it, and no compression fails. */
  predicate Orderly(start: int, es: seq<Event>) {
    es == [] ||
    (var init, e := es[..|es| - 1], es[|es| - 1];
     Orderly(start, init) && OnTime(Clock(start, init), e) && (e.FlushEnd? ==> e.ok))
  }

  ghost predicate TimesOk(log: seq<Chunk>, t: int) {
    && (forall i, j :: 0 <= i < j < |log| ==> log[i].time <= log[j].time)
    && (forall i :: 0 <= i < |log| ==> log[i].time <= t)
  }

  /** A chunk retained in front of a hole is past the age limit. */
  ghost predicate HolesAged(c: Codec, s: Sys, t: int)
    requires Inv(c, s)
  {
    forall m: nat, n: nat :: Retained(c, s, m) && m < n <= s.buf.last && !Retained(c, s, n) ==>
                               1 <= m <= |s.log| && Aged(s.log[m - 1].time, t)
  }

  lemma PassKeepsHolesAged(c: Codec, s: Sys, t: int, now: int)
    requires Inv(c, s) && TimesOk(s.log, t) && t <= now && HolesAged(c, s, t)
    ensures Inv(c, s.(buf := EvictAll(s.buf, now)))
    ensures HolesAged(c, s.(buf := EvictAll(s.buf, now)), now)
  {
    var s' := s.(buf := EvictAll(s.buf, now));
    EvictionPass(c, s, now);
    forall m: nat, n: nat | Retained(c, s', m) && m < n <= s'.buf.last && !Retained(c, s', n)
      ensures 1 <= m <= |s.log| && Aged(s.log[m - 1].time, now)
    {
      RetainedIsLogged(c, s', m);
      if Retained(c, s, n) {
        assert Aged(s.log[n - 1].time, now);
      }
    }
  }

  lemma AppendKeepsHolesAged(c: Codec, s: Sys, t: int, data: seq<byte>, time: int)
    requires Inv(c, s) && Inv(c, Appended(s, data, time))
    requires TimesOk(s.log, t) && t <= time && HolesAged(c, s, t)
    ensures TimesOk(Appended(s, data, time).log, time)
    ensures HolesAged(c, Appended(s, data, time), time)
  {
    hide Contents, Ascending, ColdOk, RawOk, LogOk, Counted;
    var s' := Appended(s, data, time);
    AppendContents(c, s, data, time);
    var added := [Frame(s.buf.last + 1, data)];
    forall m: nat, n: nat | Retained(c, s', m) && m < n <= s'.buf.last && !Retained(c, s', n)
      ensures 1 <= m <= |s'.log| && Aged(s'.log[m - 1].time, time)
    {
      HasConcat(Contents(c, s.buf), added, m);
      HasConcat(Contents(c, s.buf), added, n);
      assert Has(added, s.buf.last + 1) by { assert added[0].offset == s.buf.last + 1; }
      assert Retained(c, s, m);
      RetainedIsLogged(c, s, m);
      assert n <= s.buf.last && !Retained(c, s, n);
      assert s'.log[m - 1] == s.log[m - 1];
    }
  }

  lemma StepKeepsHolesAged(c: Codec, s: Sys, t: int, e: Event)
    requires Invertible(c) && Inv(c, s) && EventOk(e) && s.buf.last + 1 < MAX_OFFSET
    requires TimesOk(s.log, t) && HolesAged(c, s, t) && OnTime(t, e) && (e.FlushEnd? ==> e.ok)
    ensures Inv(c, Step(c, s, e))
    ensures TimesOk(Step(c, s, e).log, EventClock(t, e)) && HolesAged(c, Step(c, s, e), EventClock(t, e))
  {
    hide Ascending, ColdOk, LogOk, RawOk, Counted, HolesAged, TimesOk, EvictAll, ColdFrames, Items;
    StepKeepsInv(c, s, e);
    match e
    case Append(data, time, now) =>
      if data != [] {
        AppendKeepsInv(c, s, data, time);
        AppendKeepsHolesAged(c, s, t, data, time);
        PassKeepsHolesAged(c, Appended(s, data, time), time, now);
        LaterClock(c, Appended(s, data, time), time, now);
      }
      LaterClock(c, s, t, now);
    case Evict(now) =>
      PassKeepsHolesAged(c, s, t, now);
      LaterClock(c, s, t, now);
    case FlushBegin => SameContentsSameHoles(c, s, Step(c, s, e), t);
    case FlushEnd(ok) =>
      if s.buf.flushing {
        FlushKeepsContents(c, s);
        SameContentsSameHoles(c, s, Step(c, s, e), t);
      }
  }

  lemma LaterClock(c: Codec, s: Sys, t: int, t': int)
    requires Inv(c, s) && TimesOk(s.log, t) && HolesAged(c, s, t) && t <= t'
    ensures TimesOk(s.log, t') && HolesAged(c, s, t')
  {
    hide Inv, Contents;
  }

  lemma SameContentsSameHoles(c: Codec, s: Sys, s': Sys, t: int)
    requires Inv(c, s) && HolesAged(c, s, t) && Inv(c, s')
    requires s'.log == s.log && s'.buf.last == s.buf.last && Contents(c, s'.buf) == Contents(c, s.buf)
    ensures HolesAged(c, s', t)
  {
    hide Inv, Contents;
    forall m: nat, n: nat | Retained(c, s', m) && m < n <= s'.buf.last && !Retained(c, s', n)
      ensures 1 <= m <= |s'.log| && Aged(s'.log[m - 1].time, t)
    {
      assert Retained(c, s, m) && !Retained(c, s, n);
    }
  }

  function EventClock(t: int, e: Event): int {
    if e.Append? || e.Evict? then e.now else t
  }

  lemma {:induction false} RunKeepsHolesAged(c: Codec, start: int, es: seq<Event>)
    requires Invertible(c) && EventsOk(es) && Orderly(start, es)
    ensures TimesOk(Run(c, es).log, Clock(start, es)) && HolesAged(c, Run(c, es), Clock(start, es))
  {
    if es == [] {
    } else {
      var init, e := es[..|es| - 1], es[|es| - 1];
      RunKeepsHolesAged(c, start, init);
      StepKeepsHolesAged(c, Run(c, init), Clock(start, init), e);
    }
  }

  // What a pass with no compression in flight leaves behind.

  lemma {:induction false} FindSegment(c: Codec, segs: seq<Segment>, n: nat) returns (i: nat)
    requires Has(ColdFrames(c, segs), n)
    ensures i < |segs| && Has(FramesOf(c, segs[i]), n)
  {
    HasConcat(FramesOf(c, segs[0]), ColdFrames(c, segs[1..]), n);
    if Has(FramesOf(c, segs[0]), n) {
      i := 0;
    } else {
      var j := FindSegment(c, segs[1..], n);
      i := j + 1;
    }
  }

  /** The frames of one segment are a block of the contents: smaller offsets before it, larger after it. */
  lemma {:induction false} SegmentBlock(c: Codec, segs: seq<Segment>, i: nat, rest: seq<Frame>, n: nat)
    requires i < |segs| && FramesOf(c, segs[i]) != []
    requires Ascending(ColdFrames(c, segs) + rest)
    ensures Has(FramesOf(c, segs[i]), n) ==> Has(ColdFrames(c, segs) + rest, n)
    ensures var fs := FramesOf(c, segs[i]);
            Has(ColdFrames(c, segs) + rest, n) && fs[0].offset <= n <= fs[|fs| - 1].offset ==> Has(fs, n)
  {
    hide FramesOf, Ascending;
    var first, later := FramesOf(c, segs[0]), ColdFrames(c, segs[1..]) + rest;
    assert ColdFrames(c, segs) + rest == first + later;
    FrontComesFirst(first, later);
    var fs := FramesOf(c, segs[i]);
    assert Has(fs, fs[0].offset) && Has(fs, fs[|fs| - 1].offset);
    if i == 0 {
    } else {
      SegmentBlock(c, segs[1..], i - 1, rest, n);
      SegmentBlock(c, segs[1..], i - 1, rest, fs[0].offset);
    }
  }

  lemma SegmentRetained(c: Codec, s: Sys, i: nat, n: nat)
    requires Inv(c, s) && i < |s.buf.segments|
    ensures var seg := s.buf.segments[i];
            && FramesOf(c, seg) != [] && seg.startSeq <= seg.endSeq
            && (Has(FramesOf(c, seg), n) ==> Retained(c, s, n) && seg.startSeq <= n <= seg.endSeq)
            && (Retained(c, s, n) && seg.startSeq <= n <= seg.endSeq ==> Has(FramesOf(c, seg), n))
            && Has(FramesOf(c, seg), seg.startSeq) && Has(FramesOf(c, seg), seg.endSeq)
            && 1 <= seg.endSeq <= |s.log| && seg.newestTime == s.log[seg.endSeq - 1].time
  {
    hide FramesOf, RawOk, LogOk, Counted, InFlight, ColdFrames;
    var seg := s.buf.segments[i];
    assert SegmentOk(c, s.log, seg);
    var fs := FramesOf(c, seg);
    SegmentBlock(c, s.buf.segments, i, Items(s.buf.pending + s.buf.hot), n);
    assert Has(fs, fs[0].offset) && Has(fs, fs[|fs| - 1].offset);
    SegmentAscending(c, s.buf.segments, i, Items(s.buf.pending + s.buf.hot));
  }

  lemma {:induction false} SegmentAscending(c: Codec, segs: seq<Segment>, i: nat, rest: seq<Frame>)
    requires i < |segs| && Ascending(ColdFrames(c, segs) + rest)
    ensures Ascending(FramesOf(c, segs[i]))
  {
    hide FramesOf;
    var first, later := FramesOf(c, segs[0]), ColdFrames(c, segs[1..]) + rest;
    assert ColdFrames(c, segs) + rest == first + later;
    FrontComesFirst(first, later);
    if i > 0 {
      SegmentAscending(c, segs[1..], i - 1, rest);
    } else {
      assert forall j :: 0 <= j < |first| ==> first[j] == (first + later)[j];
    }
  }

  /** Nothing retained by a quiet pass is aged, except inside a segment whose newest chunk is not. */
  ghost predicate Young(c: Codec, s: Sys, now: int) {
    && (s.buf.hot == [] || !Aged(s.buf.hot[0].time, now))
    && (s.buf.pending == [] || !Aged(s.buf.pending[0].time, now))
    && (s.buf.segments == [] || !Aged(s.buf.segments[0].newestTime, now))
  }

  lemma QuietPassIsYoung(c: Codec, s: Sys, now: int)
    requires Inv(c, s) && !s.buf.flushing
    ensures Young(c, s.(buf := EvictAll(s.buf, now)), now)
  {
    EvictHotRun(c, s, now);
    var s1 := s.(buf := EvictHot(s.buf, now));
    EvictAgedPendingRun(c, s1, now);
    EvictColdRun(c, s.(buf := EvictPending(s1.buf, now)), now);
  }

  lemma YoungRaw(c: Codec, s: Sys, now: int, t: int, n: nat)
    requires Inv(c, s) && TimesOk(s.log, t) && Young(c, s, now)
    requires Has(Items(s.buf.pending + s.buf.hot), n)
    ensures 1 <= n <= |s.log| && !Aged(s.log[n - 1].time, now)
  {
    hide ColdFrames, ColdOk, LogOk, Counted, InFlight;
    var b, raw, cold := s.buf, s.buf.pending + s.buf.hot, ColdFrames(c, s.buf.segments);
    var i :| 0 <= i < |raw| && Items(raw)[i].offset == n;
    assert raw[i] == s.log[n - 1];
    var j := if i < |b.pending| then 0 else |b.pending|;
    var front := raw[j];
    assert front == s.log[front.seqNo - 1];
    if j < i {
      assert Contents(c, b)[|cold| + j].offset < Contents(c, b)[|cold| + i].offset;
      assert Contents(c, b)[|cold| + j] == Item(front) && Contents(c, b)[|cold| + i] == Item(raw[i]);
    }
  }

  lemma SegmentEndsAscend(c: Codec, s: Sys, i: nat)
    requires Inv(c, s) && 0 < i < |s.buf.segments|
    ensures s.buf.segments[0].endSeq < s.buf.segments[i].endSeq
  {
    hide Ascending, FramesOf, RawOk, ColdOk, LogOk, Counted;
    var segs, rest := s.buf.segments, Items(s.buf.pending + s.buf.hot);
    SegmentRetained(c, s, i, segs[i].endSeq);
    SegmentRetained(c, s, 0, segs[0].endSeq);
    var first, later := FramesOf(c, segs[0]), ColdFrames(c, segs[1..]) + rest;
    assert Contents(c, s.buf) == first + later;
    FrontComesFirst(first, later);
    SegmentBlock(c, segs[1..], i - 1, rest, segs[i].endSeq);
  }

  lemma YoungSegment(c: Codec, s: Sys, now: int, t: int, i: nat)
    requires Inv(c, s) && TimesOk(s.log, t) && Young(c, s, now) && i < |s.buf.segments|
    ensures !Aged(s.buf.segments[i].newestTime, now)
  {
    SegmentRetained(c, s, i, 0);
    SegmentRetained(c, s, 0, 0);
    if i > 0 {
      SegmentEndsAscend(c, s, i);
    }
  }

  /** A hole left by a quiet pass lies inside a retained segment. */
  lemma HoleIsInsideSegment(c: Codec, s: Sys, now: int, m: nat, n: nat) returns (i: nat)
    requires Inv(c, s) && TimesOk(s.log, now) && HolesAged(c, s, now) && Young(c, s, now)
    requires Retained(c, s, m) && m < n <= s.buf.last && !Retained(c, s, n)
    ensures i < |s.buf.segments| && !SegmentGapless(c, s.buf.segments[i])
  {
    hide Inv, FramesOf, ColdFrames, Items, Young;
    var cold, raw := ColdFrames(c, s.buf.segments), Items(s.buf.pending + s.buf.hot);
    HasConcat(cold, raw, m);
    if Has(raw, m) {
      YoungRaw(c, s, now, now, m);
    }
    i := FindSegment(c, s.buf.segments, m);
    var seg := s.buf.segments[i];
    SegmentRetained(c, s, i, m);
    SegmentRetained(c, s, i, seg.endSeq);
    SegmentRetained(c, s, i, n);
    YoungSegment(c, s, now, now, i);
    assert seg.startSeq <= n <= seg.endSeq;
  }

  /**
   After an eviction pass with no compression in flight, the retained output is
   gapless up to the newest chunk if and only if no retained segment was cut
   around a hole.
   */
  lemma QuietPassGapless(c: Codec, s: Sys, now: int)
    requires Inv(c, s) && TimesOk(s.log, now) && HolesAged(c, s, now) && Young(c, s, now)
    ensures GaplessSuffix(c, s) <==> SegmentsGapless(c, s.buf.segments)
  {
    hide Inv, TimesOk, Young, HolesAged, Retained, SegmentGapless;
    if SegmentsGapless(c, s.buf.segments) {
      forall m: nat, n: nat | Retained(c, s, m) && m < n <= s.buf.last
        ensures Retained(c, s, n)
      {
        if !Retained(c, s, n) {
          var i := HoleIsInsideSegment(c, s, now, m, n);
        }
      }
    }
    if GaplessSuffix(c, s) {
      forall seg | seg in s.buf.segments ensures SegmentGapless(c, seg) {
        var i :| 0 <= i < |s.buf.segments| && s.buf.segments[i] == seg;
        SuffixFillsSegment(c, s, i);
      }
    }
  }

  lemma SuffixFillsSegment(c: Codec, s: Sys, i: nat)
    requires Inv(c, s) && GaplessSuffix(c, s) && i < |s.buf.segments|
    ensures SegmentGapless(c, s.buf.segments[i])
  {
    assert |s.log| == s.buf.last;
    hide Inv, Retained, FramesOf, Has;
    var seg := s.buf.segments[i];
    forall n: nat | seg.startSeq <= n <= seg.endSeq ensures Has(FramesOf(c, seg), n) {
      SegmentRetained(c, s, i, seg.startSeq);
      SegmentRetained(c, s, i, n);
    }
  }

  // One pass.

  predicate IsPass(e: Event) { e.Evict? || (e.Append? && e.data != []) }

  lemma PassLimits(c: Codec, s: Sys, now: int)
    requires Inv(c, s)
    ensures var b := EvictAll(s.buf, now);
            && b.flushing == s.buf.flushing
            && |b.hot| <= MAX_HOT_CHUNKS && RawBytes(b.hot) <= MAX_HOT_BYTES && PackedBytes(b.segments) <= MAX_COLD_BYTES
  {
    hide Ascending, ColdOk, RawOk, EvictAll, Contents, RawBytes, PackedBytes;
    EvictionPass(c, s, now);
  }

  /** What a pass leaves behind, in any state whose holes are aged. */
  lemma PassLeaves(c: Codec, p: Sys, t: int, e: Event)
    requires Invertible(c) && Inv(c, p) && EventOk(e) && p.buf.last + 1 < MAX_OFFSET
    requires TimesOk(p.log, t) && HolesAged(c, p, t) && OnTime(t, e) && IsPass(e) && !Step(c, p, e).buf.flushing
    ensures var b := Step(c, p, e).buf;
            |b.hot| <= MAX_HOT_CHUNKS && RawBytes(b.hot) <= MAX_HOT_BYTES && PackedBytes(b.segments) <= MAX_COLD_BYTES
    ensures GaplessSuffix(c, Step(c, p, e)) <==> SegmentsGapless(c, Step(c, p, e).buf.segments)
  {
    hide Ascending, ColdOk, RawOk, LogOk, Counted, EvictAll, Contents, TimesOk, HolesAged, RawBytes, PackedBytes;
    hide SegmentsGapless, GaplessSuffix;
    StepKeepsHolesAged(c, p, t, e);
    var s0 := p;
    if e.Append? {
      AppendKeepsInv(c, p, e.data, e.time);
      s0 := Appended(p, e.data, e.time);
    }
    PassLimits(c, s0, e.now);
    QuietPassIsYoung(c, s0, e.now);
    QuietPassGapless(c, Step(c, p, e), e.now);
  }

  // Which compression made a segment.

  predicate Consecutive(chs: seq<Chunk>) { chs == [] || InSequence(Items(chs), chs[0].seqNo) }

  /** A segment has a hole exactly when the queue it was compressed from had one. */
  lemma SegmentGaplessIff(c: Codec, log: seq<Chunk>, batch: seq<Chunk>)
    requires Invertible(c) && LogOk(log) && RawOk(log, batch) && batch != [] && Ascending(Items(batch))
    ensures SegmentGapless(c, SegmentOf(c, batch)) <==> Consecutive(batch)
  {
    BatchBecomesSegment(c, log, batch);
    InSequenceIffAll(Items(batch));
    hide FramesOf, InSequence, Ascending, RawOk, LogOk, Has;
  }

  lemma PendingAscends(c: Codec, s: Sys)
    requires Inv(c, s)
    ensures Ascending(Items(s.buf.pending)) && RawOk(s.log, s.buf.pending) && LogOk(s.log)
  {
    hide ColdFrames, ColdOk, Counted;
    var cold, all := ColdFrames(c, s.buf.segments), Items(s.buf.pending + s.buf.hot);
    assert forall i :: 0 <= i < |s.buf.pending| ==> Contents(c, s.buf)[|cold| + i] == Items(s.buf.pending)[i];
  }

  // Histories: the states of a run, one after each event.

  /** A segment that appears is the compression of the batch; a batch that appears is the queue as it was. */
  ghost predicate Moves(c: Codec, p: Sys, s: Sys) {
    && (forall seg :: seg in s.buf.segments ==> seg in p.buf.segments || (p.batch != [] && seg == SegmentOf(c, p.batch)))
    && (s.batch != [] ==> s.batch == p.batch || (p.batch == [] && s.batch == p.buf.pending))
  }

  ghost predicate History(c: Codec, ss: seq<Sys>) {
    && ss != [] && ss[0] == START
    && (forall i :: 0 <= i < |ss| ==> Inv(c, ss[i]))
    && (forall i :: 0 <= i < |ss| - 1 ==> Moves(c, ss[i], ss[i + 1]))
  }

  /** A compression claims the pending queue of state j. */
  predicate Claims(ss: seq<Sys>, j: nat) {
    j + 1 < |ss| && ss[j].batch == [] && ss[j + 1].batch != []
  }

  predicate ClaimedSegment(c: Codec, ss: seq<Sys>, j: nat, seg: Segment) {
    Claims(ss, j) && ss[j].buf.pending != [] && seg == SegmentOf(c, ss[j].buf.pending)
  }

  predicate ClaimedBatch(ss: seq<Sys>, j: nat, batch: seq<Chunk>) {
    Claims(ss, j) && batch == ss[j].buf.pending
  }

  /** No segment still held came from a compression that claimed a queue with a hole. */
  ghost predicate HeldClaimsClean(c: Codec, ss: seq<Sys>)
    requires ss != []
  {
    forall j: nat, seg :: seg in ss[|ss| - 1].buf.segments && ClaimedSegment(c, ss, j, seg) ==>
                            Consecutive(ss[j].buf.pending)
  }

  lemma HistoryInit(c: Codec, ss: seq<Sys>)
    requires History(c, ss) && |ss| > 1
    ensures History(c, ss[..|ss| - 1])
  {
    hide Inv, Moves, SegmentOf;
    var init := ss[..|ss| - 1];
    assert forall i :: 0 <= i < |init| ==> init[i] == ss[i];
    forall i | 0 <= i < |init| - 1 ensures Moves(c, init[i], init[i + 1]) {
      assert Moves(c, ss[i], ss[i + 1]);
    }
  }

  ghost predicate SomeClaim(c: Codec, ss: seq<Sys>, seg: Segment) {
    exists j: nat :: ClaimedSegment(c, ss, j, seg)
  }

  ghost predicate SomeBatch(ss: seq<Sys>, batch: seq<Chunk>) {
    exists j: nat :: ClaimedBatch(ss, j, batch)
  }

  lemma LastMove(c: Codec, ss: seq<Sys>)
    requires History(c, ss) && |ss| > 1
    ensures Moves(c, ss[|ss| - 2], ss[|ss| - 1])
    ensures ss[..|ss| - 1][|ss| - 2] == ss[|ss| - 2]
  {
    assert Moves(c, ss[|ss| - 2], ss[|ss| - 2 + 1]);
  }

  lemma BatchStays(ss: seq<Sys>, batch: seq<Chunk>)
    requires ss != [] && SomeBatch(ss[..|ss| - 1], batch)
    ensures SomeBatch(ss, batch)
  {
    var j: nat :| ClaimedBatch(ss[..|ss| - 1], j, batch);
    assert ClaimedBatch(ss, j, batch);
  }

  lemma ClaimStays(c: Codec, ss: seq<Sys>, seg: Segment)
    requires ss != [] && SomeClaim(c, ss[..|ss| - 1], seg)
    ensures SomeClaim(c, ss, seg)
  {
    hide SegmentOf;
    var j: nat :| ClaimedSegment(c, ss[..|ss| - 1], j, seg);
    assert ClaimedSegment(c, ss, j, seg);
  }

  lemma BatchGives(c: Codec, ss: seq<Sys>, batch: seq<Chunk>)
    requires SomeBatch(ss, batch) && batch != []
    ensures SomeClaim(c, ss, SegmentOf(c, batch))
  {
    hide SegmentOf;
    var j: nat :| ClaimedBatch(ss, j, batch);
    assert ClaimedSegment(c, ss, j, SegmentOf(c, batch));
  }

  /** A batch was claimed earlier, or is claimed by the last move. */
  lemma BatchClaimed(c: Codec, ss: seq<Sys>)
    requires |ss| > 1 && Moves(c, ss[|ss| - 2], ss[|ss| - 1]) && ss[|ss| - 1].batch != []
    requires ss[|ss| - 2].batch != [] ==> SomeBatch(ss[..|ss| - 1], ss[|ss| - 2].batch)
    ensures SomeBatch(ss, ss[|ss| - 1].batch)
  {
    if ss[|ss| - 2].batch != [] {
      BatchStays(ss, ss[|ss| - 2].batch);
    } else {
      assert ClaimedBatch(ss, |ss| - 2, ss[|ss| - 1].batch);
    }
  }

  lemma SegmentClaimed(c: Codec, ss: seq<Sys>, seg: Segment)
    requires |ss| > 1 && Moves(c, ss[|ss| - 2], ss[|ss| - 1]) && seg in ss[|ss| - 1].buf.segments
    requires ss[|ss| - 2].batch != [] ==> SomeBatch(ss[..|ss| - 1], ss[|ss| - 2].batch)
    requires seg in ss[|ss| - 2].buf.segments ==> SomeClaim(c, ss[..|ss| - 1], seg)
    ensures SomeClaim(c, ss, seg)
  {
    hide SomeClaim, SomeBatch, SegmentOf;
    if seg !in ss[|ss| - 2].buf.segments {
      BatchGives(c, ss[..|ss| - 1], ss[|ss| - 2].batch);
    }
    ClaimStays(c, ss, seg);
  }

  /** Every segment, and the batch in flight, goes back to a claim. */
  lemma {:induction false} SegmentsWereClaimed(c: Codec, ss: seq<Sys>)
    requires History(c, ss)
    ensures forall seg :: seg in ss[|ss| - 1].buf.segments ==> SomeClaim(c, ss, seg)
    ensures ss[|ss| - 1].batch != [] ==> SomeBatch(ss, ss[|ss| - 1].batch)
  {
    hide SomeClaim, SomeBatch, Inv, Moves;
    if |ss| == 1 {
    } else {
      HistoryInit(c, ss);
      LastMove(c, ss);
      SegmentsWereClaimed(c, ss[..|ss| - 1]);
      forall seg | seg in ss[|ss| - 1].buf.segments ensures SomeClaim(c, ss, seg) { SegmentClaimed(c, ss, seg); }
      if ss[|ss| - 1].batch != [] {
        BatchClaimed(c, ss);
      }
    }
  }

  lemma ClaimedQueue(c: Codec, ss: seq<Sys>, j: nat, seg: Segment)
    requires Invertible(c) && History(c, ss) && ClaimedSegment(c, ss, j, seg)
    ensures SegmentGapless(c, seg) <==> Consecutive(ss[j].buf.pending)
  {
    assert Inv(c, ss[j]);
    PendingAscends(c, ss[j]);
    hide Inv, Ascending, RawOk, LogOk;
    SegmentGaplessIff(c, ss[j].log, ss[j].buf.pending);
  }

  lemma SegmentsGaplessIffClean(c: Codec, ss: seq<Sys>)
    requires Invertible(c) && History(c, ss)
    ensures SegmentsGapless(c, ss[|ss| - 1].buf.segments) <==> HeldClaimsClean(c, ss)
  {
    SegmentsWereClaimed(c, ss);
    hide History, SegmentGapless, Consecutive, ClaimedSegment;
    forall j: nat, seg | seg in ss[|ss| - 1].buf.segments && ClaimedSegment(c, ss, j, seg)
      ensures SegmentGapless(c, seg) <==> Consecutive(ss[j].buf.pending)
    {
      ClaimedQueue(c, ss, j, seg);
    }
    if HeldClaimsClean(c, ss) {
      forall seg | seg in ss[|ss| - 1].buf.segments ensures SegmentGapless(c, seg) {
        assert SomeClaim(c, ss, seg);
        var j: nat :| ClaimedSegment(c, ss, j, seg);
      }
    }
  }

  lemma StepMoves(c: Codec, p: Sys, e: Event)
    requires Invertible(c) && Inv(c, p) && EventOk(e) && p.buf.last + 1 < MAX_OFFSET
    ensures Moves(c, p, Step(c, p, e))
  {
    hide Ascending, ColdOk, RawOk, LogOk, Counted, EvictAll, Contents;
    match e
    case Append(data, time, now) =>
      if data != [] {
        AppendKeepsInv(c, p, data, time);
        EvictAllOnlyDrops(c, Appended(p, data, time), now);
      }
    case Evict(now) => EvictAllOnlyDrops(c, p, now);
    case FlushBegin =>
    case FlushEnd(ok) =>
  }

  lemma HistoryGrows(c: Codec, ss: seq<Sys>, s: Sys)
    requires History(c, ss) && Inv(c, s) && Moves(c, ss[|ss| - 1], s)
    ensures History(c, ss + [s])
  {
    hide Inv, Moves;
    var all := ss + [s];
    forall i | 0 <= i < |all| - 1 ensures Moves(c, all[i], all[i + 1]) {
      if i < |ss| - 1 {
        assert Moves(c, ss[i], ss[i + 1]);
      }
    }
  }

  lemma StartHistory(c: Codec)
    ensures History(c, [START])
  {
  }

  // Whole runs.

  ghost function States(c: Codec, es: seq<Event>): (ss: seq<Sys>)
    requires Invertible(c) && EventsOk(es)
    ensures |ss| == |es| + 1 && ss[|es|] == Run(c, es)
  {
    if es == [] then [Run(c, es)] else States(c, es[..|es| - 1]) + [Run(c, es)]
  }

  lemma RunStep(c: Codec, es: seq<Event>)
    requires Invertible(c) && EventsOk(es) && es != []
    ensures var p := Run(c, es[..|es| - 1]);
            && Inv(c, p) && p.buf.last + 1 < MAX_OFFSET && EventOk(es[|es| - 1])
            && Run(c, es) == Step(c, p, es[|es| - 1])
  {
    hide Inv, Step;
  }

  lemma {:induction false} StatesAreHistory(c: Codec, es: seq<Event>)
    requires Invertible(c) && EventsOk(es)
    ensures History(c, States(c, es))
  {
    hide Inv, Step, Moves, History, Run;
    if es == [] {
      StartHistory(c);
      NoEvents(c);
    } else {
      var init := es[..|es| - 1];
      StatesAreHistory(c, init);
      RunStep(c, es);
      StepMoves(c, Run(c, init), es[|es| - 1]);
      HistoryGrows(c, States(c, init), Run(c, es));
    }
  }

  lemma NoEvents(c: Codec)
    requires Invertible(c)
    ensures EventsOk([]) && Run(c, []) == START
  {
  }

  lemma {:induction false} StateAt(c: Codec, es: seq<Event>, j: nat)
    requires Invertible(c) && EventsOk(es) && j <= |es|
    ensures States(c, es)[j] == Run(c, es[..j])
  {
    hide Run;
    if j == |es| {
      assert es[..j] == es;
    } else {
      StateAt(c, es[..|es| - 1], j);
      assert es[..|es| - 1][..j] == es[..j];
    }
  }

  lemma StepClaims(c: Codec, p: Sys, e: Event)
    requires Inv(c, p)
    ensures p.batch == [] && Step(c, p, e).batch != [] <==> e.FlushBegin? && CanFlush(p.buf)
  {
    hide Contents, Ascending, ColdOk, RawOk, LogOk, Counted, EvictAll, FinishFlush;
  }

  /** The claims of a run are its compressions that begin. */
  lemma ClaimsAreFlushBegins(c: Codec, es: seq<Event>, j: nat)
    requires Invertible(c) && EventsOk(es)
    ensures Claims(States(c, es), j) <==> j < |es| && es[j].FlushBegin? && CanFlush(Run(c, es[..j]).buf)
  {
    hide Run, Step, States, Inv;
    if j < |es| {
      assert es[..j + 1][..j] == es[..j];
      StateAt(c, es, j);
      StateAt(c, es, j + 1);
      RunStep(c, es[..j + 1]);
      StepClaims(c, Run(c, es[..j]), es[j]);
    }
  }

  /**
   In every run with a monotone clock and no failed compression, an eviction
   pass that ends with no compression in flight leaves the hot and cold tiers
   within their limits, and leaves a gapless suffix exactly when no segment
   still held came from a compression that claimed a queue with a hole.
   */
  lemma PassEndsRun(c: Codec, start: int, es: seq<Event>)
    requires Invertible(c) && EventsOk(es) && Orderly(start, es)
    requires es != [] && IsPass(es[|es| - 1]) && !Run(c, es).buf.flushing
    ensures var b := Run(c, es).buf;
            |b.hot| <= MAX_HOT_CHUNKS && RawBytes(b.hot) <= MAX_HOT_BYTES && PackedBytes(b.segments) <= MAX_COLD_BYTES
    ensures GaplessSuffix(c, Run(c, es)) <==> HeldClaimsClean(c, States(c, es))
  {
    hide Inv, Step, TimesOk, HolesAged, RawBytes, PackedBytes, SegmentsGapless, GaplessSuffix, HeldClaimsClean, History, States;
    var init, e := es[..|es| - 1], es[|es| - 1];
    RunKeepsHolesAged(c, start, init);
    PassLeaves(c, Run(c, init), Clock(start, init), e);
    StatesAreHistory(c, es);
    SegmentsGaplessIffClean(c, States(c, es));
  }

  /** If compressions start on hole-free queues, a quiet pass always leaves a gapless suffix. */
  lemma CleanRunIsGapless(c: Codec, start: int, es: seq<Event>)
    requires Invertible(c) && EventsOk(es) && Orderly(start, es)
    requires forall j :: 0 <= j < |es| && es[j].FlushBegin? && CanFlush(Run(c, es[..j]).buf) ==>
                           Consecutive(Run(c, es[..j]).buf.pending)
    requires es != [] && IsPass(es[|es| - 1]) && !Run(c, es).buf.flushing
    ensures GaplessSuffix(c, Run(c, es))
  {
    hide Run, GaplessSuffix, Consecutive, States, History, CanFlush, Orderly;
    PassEndsRun(c, start, es);
    var ss := States(c, es);
    forall j: nat, seg | seg in ss[|ss| - 1].buf.segments && ClaimedSegment(c, ss, j, seg)
      ensures Consecutive(ss[j].buf.pending)
    {
      ClaimsAreFlushBegins(c, es, j);
      StateAt(c, es, j);
    }
  }

  lemma {:induction false} EvictColdOnlyDrops(b: Buffer, now: int)
    ensures forall seg :: seg in EvictCold(b, now).segments ==> seg in b.segments
    decreases |b.segments|
  {
    if b.segments == [] || !SegmentDue(b, now) {
    } else {
      EvictColdOnlyDrops(DropSegment(b), now);
    }
  }

  lemma EvictAllOnlyDrops(c: Codec, s: Sys, now: int)
    requires Inv(c, s)
    ensures forall seg :: seg in EvictAll(s.buf, now).segments ==> seg in s.buf.segments
  {
    hide Ascending, ColdOk, RawOk, LogOk, Counted, Contents, LosesOnlyAged;
    EvictHotRun(c, s, now);
    var s1 := s.(buf := EvictHot(s.buf, now));
    if !s1.buf.flushing {
      EvictAgedPendingRun(c, s1, now);
    }
    EvictColdOnlyDrops(EvictPending(s1.buf, now), now);
  }
}
