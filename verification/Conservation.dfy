/**
 Whole-run theorems about the output buffer: nothing is lost without a reason,
 nothing is duplicated or reordered, and when the retained output has no hole.
 */
module Conservation {
  import opened Bytes
  import opened Frames
  import opened ColdBuffer
  import opened OutputBuffer
  import opened BufferRuns

  // The two ends of a compression.

  lemma {:induction false} ColdFramesAppend(c: Codec, segs: seq<Segment>, seg: Segment)
    ensures ColdFrames(c, segs + [seg]) == ColdFrames(c, segs) + FramesOf(c, seg)
  {
    if segs == [] {
      assert segs + [seg] == [seg];
      assert FramesOf(c, seg) + [] == FramesOf(c, seg);
    } else {
      assert (segs + [seg])[1..] == segs[1..] + [seg];
      ColdFramesAppend(c, segs[1..], seg);
    }
  }

  lemma {:induction false} ItemBytes(chs: seq<Chunk>)
    ensures DataBytes(Items(chs)) == RawBytes(chs)
  {
    if chs == [] {
    } else {
      assert Items(chs)[1..] == Items(chs[1..]);
      ItemBytes(chs[1..]);
    }
  }

  /** A fresh segment decodes to its batch and carries a truthful header. */
  lemma BatchBecomesSegment(c: Codec, log: seq<Chunk>, batch: seq<Chunk>)
    requires Invertible(c) && LogOk(log) && RawOk(log, batch) && batch != []
    ensures FramesOf(c, SegmentOf(c, batch)) == Items(batch)
    ensures SegmentOk(c, log, SegmentOf(c, batch))
  {
    forall i | 0 <= i < |batch| ensures Logged(log, Items(batch)[i]) && Encodable(Items(batch)[i]) {
      assert batch[i] == log[batch[i].seqNo - 1];
    }
    SegmentRoundTrip(c, batch);
    ItemBytes(batch);
  }

  /** The raw tiers of a buffer with a compression in flight, split at the end of the batch. */
  lemma FlushSplit(s: Sys) returns (tail: seq<Chunk>)
    requires s.buf.flushing && InFlight(s) && RawOk(s.log, s.buf.pending)
    ensures tail == s.buf.pending[|s.batch|..]
    ensures Items(s.buf.pending + s.buf.hot) == Items(s.batch) + Items(tail + s.buf.hot)
    ensures RawBytes(s.buf.pending) == RawBytes(s.batch) + RawBytes(tail)
    ensures RawOk(s.log, s.batch) && RawOk(s.log, tail)
  {
    tail := s.buf.pending[|s.batch|..];
    assert s.buf.pending == s.batch + tail;
    RawBytesConcat(s.batch, tail);
    assert s.buf.pending + s.buf.hot == s.batch + (tail + s.buf.hot);
    ItemsConcat(s.batch, tail + s.buf.hot);
  }

  lemma ItemsConcat(a: seq<Chunk>, z: seq<Chunk>)
    ensures Items(a + z) == Items(a) + Items(z)
  {
  }

  lemma SegmentTakesOver(c: Codec, segs: seq<Segment>, seg: Segment, batch: seq<Chunk>, rest: seq<Frame>)
    requires FramesOf(c, seg) == Items(batch)
    ensures ColdFrames(c, segs + [seg]) + rest == ColdFrames(c, segs) + (Items(batch) + rest)
  {
    ColdFramesAppend(c, segs, seg);
  }

  lemma FlushContents(c: Codec, s: Sys)
    requires Invertible(c) && Inv(c, s) && s.buf.flushing
    ensures Contents(c, FinishFlush(c, s.buf, s.batch, true)) == Contents(c, s.buf)
    ensures SegmentOk(c, s.log, SegmentOf(c, s.batch))
  {
    var tail := FlushSplit(s);
    BatchBecomesSegment(c, s.log, s.batch);
    SegmentTakesOver(c, s.buf.segments, SegmentOf(c, s.batch), s.batch, Items(tail + s.buf.hot));
  }

  lemma ColdOkAppend(c: Codec, log: seq<Chunk>, segs: seq<Segment>, seg: Segment)
    requires ColdOk(c, log, segs) && SegmentOk(c, log, seg)
    ensures ColdOk(c, log, segs + [seg])
  {
  }

  /** Moving the batch into a segment changes nothing a reader can see. */
  lemma FlushKeepsContents(c: Codec, s: Sys)
    requires Invertible(c) && Inv(c, s) && s.buf.flushing
    ensures Inv(c, Step(c, s, FlushEnd(true)))
    ensures Contents(c, Step(c, s, FlushEnd(true)).buf) == Contents(c, s.buf)
  {
    hide Contents, Ascending, LogOk, SegmentOk;
    FlushContents(c, s);
    var tail := FlushSplit(s);
    SumsAppend(s.buf.segments, SegmentOf(c, s.batch));
    ColdOkAppend(c, s.log, s.buf.segments, SegmentOf(c, s.batch));
  }

  /** A failed compression gives up exactly its batch. */
  lemma FailedFlushLosesBatch(c: Codec, s: Sys)
    requires Inv(c, s) && s.buf.flushing
    ensures var s' := Step(c, s, FlushEnd(false));
            && Inv(c, s')
            && forall n: nat :: Retained(c, s, n) <==> Retained(c, s', n) || Has(Items(s.batch), n)
  {
    var cold := ColdFrames(c, s.buf.segments);
    var tail := FlushSplit(s);
    assert Contents(c, s.buf) == cold + Items(s.batch) + Items(tail + s.buf.hot);
    Cut(cold, Items(s.batch), Items(tail + s.buf.hot));
  }

  lemma AppendContents(c: Codec, s: Sys, data: seq<byte>, time: int)
    requires Inv(c, s)
    ensures Contents(c, Appended(s, data, time).buf) == Contents(c, s.buf) + [Frame(s.buf.last + 1, data)]
    ensures Ascending(Contents(c, Appended(s, data, time).buf))
  {
    AppendFrames(c, s.buf, Chunk(s.buf.last + 1, data, time));
    ContentsLogged(c, s);
    hide Contents, Counted, ColdOk, RawOk, InFlight, LogOk;
    AppendAscends(s.log, Contents(c, s.buf), Frame(s.buf.last + 1, data));
  }

  lemma AppendFrames(c: Codec, b: Buffer, ch: Chunk)
    ensures Contents(c, AppendChunk(b, ch.data, ch.time)) == Contents(c, b) + [Frame(b.last + 1, ch.data)]
  {
    var ch' := Chunk(b.last + 1, ch.data, ch.time);
    assert b.pending + (b.hot + [ch']) == b.pending + b.hot + [ch'];
    hide ColdFrames;
    assert Items(b.pending + b.hot + [ch']) == Items(b.pending + b.hot) + [Item(ch')];
  }

  lemma AppendAscends(log: seq<Chunk>, fs: seq<Frame>, f: Frame)
    requires Ascending(fs) && f.offset > |log| && forall g :: g in fs ==> Logged(log, g)
    ensures Ascending(fs + [f])
  {
    forall i | 0 <= i < |fs| ensures fs[i].offset < f.offset {
      assert Logged(log, fs[i]);
    }
  }

  lemma LogGrows(c: Codec, log: seq<Chunk>, ch: Chunk, segs: seq<Segment>)
    requires ColdOk(c, log, segs)
    ensures ColdOk(c, log + [ch], segs)
  {
    forall i | 0 <= i < |segs| ensures SegmentOk(c, log + [ch], segs[i]) {
      assert SegmentOk(c, log, segs[i]);
      assert forall f :: Logged(log, f) ==> Logged(log + [ch], f);
    }
  }

  lemma AppendKeepsInv(c: Codec, s: Sys, data: seq<byte>, time: int)
    requires Inv(c, s) && 0 < |data| <= MAX_FRAME && s.buf.last + 1 < MAX_OFFSET
    ensures Inv(c, Appended(s, data, time))
  {
    hide Contents, Ascending, ColdOk, PackedBytes, UnpackedBytes;
    var b, ch := s.buf, Chunk(s.buf.last + 1, data, time);
    AppendContents(c, s, data, time);
    LogGrows(c, s.log, ch, b.segments);
    RawBytesConcat(b.hot, [ch]);
  }

  // Steps.

  ghost predicate EventOk(e: Event) { e.Append? ==> |e.data| <= MAX_FRAME }

  /** Chunk n is held before the step, or the step appends it. */
  ghost predicate Present(c: Codec, s: Sys, e: Event, n: nat) {
    Retained(c, s, n) || (e.Append? && e.data != [] && n == s.buf.last + 1)
  }

  /** The reasons for which step e may drop chunk n: age, the cold size limit, or a failed compression. */
  ghost predicate Excuse(c: Codec, s: Sys, e: Event, n: nat) {
    match e
    case Append(data, time, now) => data != [] && PassExcuse(c, Appended(s, data, time), now, n)
    case Evict(now) => PassExcuse(c, s, now, n)
    case FlushBegin => false
    case FlushEnd(ok) => !ok && Has(Items(s.batch), n)
  }

  lemma StepKeepsInv(c: Codec, s: Sys, e: Event)
    requires Invertible(c) && Inv(c, s) && EventOk(e) && s.buf.last + 1 < MAX_OFFSET
    ensures Inv(c, Step(c, s, e))
    ensures forall n: nat :: Retained(c, Step(c, s, e), n) ==> Present(c, s, e, n)
    ensures forall n: nat :: Present(c, s, e, n) && !Retained(c, Step(c, s, e), n) ==> Excuse(c, s, e, n)
  {
    hide Ascending, ColdOk, RawOk, LogOk, EvictAll, ColdFrames, ColdExcuse, RawBytes, PackedBytes, UnpackedBytes;
    match e
    case Append(data, time, now) =>
      if data != [] {
        AppendKeepsInv(c, s, data, time);
        AppendContents(c, s, data, time);
        var s1 := Appended(s, data, time);
        forall n: nat ensures Retained(c, s1, n) <==> Present(c, s, e, n) {
          HasConcat(Contents(c, s.buf), [Frame(s.buf.last + 1, data)], n);
          assert Has([Frame(s.buf.last + 1, data)], s.buf.last + 1) by {
            assert [Frame(s.buf.last + 1, data)][0].offset == s.buf.last + 1;
          }
        }
        EvictionPass(c, s1, now);
      }
    case Evict(now) => EvictionPass(c, s, now);
    case FlushBegin =>
    case FlushEnd(ok) =>
      if s.buf.flushing {
        if ok { FlushKeepsContents(c, s); } else { FailedFlushLosesBatch(c, s); }
      }
  }

  // Runs.

  ghost predicate EventsOk(es: seq<Event>) {
    |es| < MAX_OFFSET && forall i :: 0 <= i < |es| ==> EventOk(es[i])
  }

  /** The state after the events es, from an empty buffer. */
  ghost function Run(c: Codec, es: seq<Event>): (s: Sys)
    requires Invertible(c) && EventsOk(es)
    ensures Inv(c, s) && s.buf.last <= |es|
  {
    if es == [] then START
    else
      var s := Run(c, es[..|es| - 1]);
      StepKeepsInv(c, s, es[|es| - 1]);
      StepLast(c, s, es[|es| - 1]);
      Step(c, s, es[|es| - 1])
  }

  lemma StepLast(c: Codec, s: Sys, e: Event)
    requires Invertible(c) && Inv(c, s) && EventOk(e) && s.buf.last + 1 < MAX_OFFSET
    ensures Step(c, s, e).buf.last == s.buf.last + if e.Append? && e.data != [] then 1 else 0
    ensures Step(c, s, e).log ==
            s.log + if e.Append? && e.data != [] then [Chunk(s.buf.last + 1, e.data, e.time)] else []
  {
    StepKeepsInv(c, s, e);
  }

  /** Step e drops chunk n, and has a reason to. */
  ghost predicate Drops(c: Codec, s: Sys, e: Event, n: nat)
    requires Inv(c, s)
  {
    Present(c, s, e, n) && !Retained(c, Step(c, s, e), n) && Excuse(c, s, e, n)
  }

  /** Some step of the run dropped chunk n. */
  ghost predicate LostInRun(c: Codec, es: seq<Event>, n: nat)
    requires Invertible(c) && EventsOk(es)
  {
    es != [] && (LostInRun(c, es[..|es| - 1], n) || Drops(c, Run(c, es[..|es| - 1]), es[|es| - 1], n))
  }

  lemma {:induction false} LostIsLogged(c: Codec, es: seq<Event>, n: nat)
    requires Invertible(c) && EventsOk(es) && LostInRun(c, es, n)
    ensures 1 <= n <= Run(c, es).buf.last
  {
    var init, e := es[..|es| - 1], es[|es| - 1];
    var p := Run(c, init);
    StepLast(c, p, e);
    if LostInRun(c, init, n) {
      LostIsLogged(c, init, n);
    } else if Retained(c, p, n) {
      RetainedIsLogged(c, p, n);
    }
  }

  lemma StepConserves(c: Codec, s: Sys, e: Event, n: nat)
    requires Invertible(c) && Inv(c, s) && EventOk(e) && s.buf.last + 1 < MAX_OFFSET
    requires 1 <= n <= Step(c, s, e).buf.last
    ensures n <= s.buf.last ==> (Retained(c, s, n) <==> Retained(c, Step(c, s, e), n) || Drops(c, s, e, n))
    ensures n > s.buf.last ==> !Retained(c, s, n) && (Retained(c, Step(c, s, e), n) <==> !Drops(c, s, e, n))
    ensures !(Retained(c, Step(c, s, e), n) && Drops(c, s, e, n))
  {
    hide Contents, Ascending, ColdOk, RawOk, LogOk, Counted, Excuse, EvictAll;
    StepKeepsInv(c, s, e);
    StepLast(c, s, e);
    if Retained(c, s, n) {
      RetainedIsLogged(c, s, n);
    }
  }

  /**
   Conservation. In every run, every chunk ever appended is either still held
   or was dropped by a step that had a reason: never both, never neither.
   Held chunks carry the bytes that were appended and are strictly ordered, so
   each is held exactly once.
   */
  lemma {:induction false} Conservation(c: Codec, es: seq<Event>, n: nat)
    requires Invertible(c) && EventsOk(es)
    requires 1 <= n <= Run(c, es).buf.last
    ensures Retained(c, Run(c, es), n) <==> !LostInRun(c, es, n)
    ensures Retained(c, Run(c, es), n) ==> Item(Run(c, es).log[n - 1]) in Contents(c, Run(c, es).buf)
    ensures Ascending(Contents(c, Run(c, es).buf))
  {
    hide Contents, Ascending, ColdOk, RawOk, LogOk, Counted, Excuse, Step;
    var init, e := es[..|es| - 1], es[|es| - 1];
    var p := Run(c, init);
    StepLast(c, p, e);
    StepConserves(c, p, e, n);
    if n <= p.buf.last {
      Conservation(c, init, n);
    } else if LostInRun(c, init, n) {
      LostIsLogged(c, init, n);
    }
    if Retained(c, Run(c, es), n) {
      RetainedIsLogged(c, Run(c, es), n);
    }
  }
}
