/**
 A run of the output buffer that a session can go through and that leaves a
 hole for good: 64 KiB reads, a monotone clock, compressions that start only
 when an eviction pass has asked for one, and none that fails.
 */
module HoleRun {
  import opened Bytes
  import opened Frames
  import opened ColdBuffer
  import opened OutputBuffer
  import opened BufferRuns
  import opened Conservation
  import opened Gapless

  /** The size of the PTY reader's buffer. */
  const READ: nat := 64 * 1024
  const HOT: nat := 64

  function Zeros(n: nat): (r: seq<byte>)
    ensures |r| == n
  {
    seq(n, i => 0)
  }

  // When flushColdPending is called.

  /** The pass of this event asks for a compression; the goroutine that does it may run at any later time. */
  predicate Asks(b: Buffer, e: Event) {
    && IsPass(e) && !b.flushing
    && (b.pendingBytes >= SEGMENT_RAW_TARGET ||
        (e.Evict? && b.pending != [] && e.now - b.pending[0].time > PENDING_FLUSH_AGE))
  }

  /** Compressions asked for and not yet begun. */
  ghost function Outstanding(c: Codec, es: seq<Event>): int
    requires Invertible(c) && EventsOk(es)
  {
    if es == [] then 0
    else
      var e := es[|es| - 1];
      Outstanding(c, es[..|es| - 1]) + (if Asks(Run(c, es).buf, e) then 1 else 0) - (if e.FlushBegin? then 1 else 0)
  }

  /** Every compression of the run was asked for. */
  ghost predicate Prompted(c: Codec, es: seq<Event>)
    requires Invertible(c) && EventsOk(es)
  {
    es == [] ||
    (Prompted(c, es[..|es| - 1]) && (es[|es| - 1].FlushBegin? ==> Outstanding(c, es[..|es| - 1]) > 0))
  }

  /** Appends are reads of the PTY. */
  predicate Reads(es: seq<Event>) {
    forall i :: 0 <= i < |es| && es[i].Append? ==> |es[i].data| <= READ
  }

  /** The run es is one the session can go through; it ends in s at time t with at least `asked` requests open. */
  ghost predicate Reached(c: Codec, es: seq<Event>, s: Sys, t: int, asked: int)
    requires Invertible(c)
  {
    && EventsOk(es) && |es| < 1000 && Reads(es)
    && Orderly(0, es) && Clock(0, es) == t
    && Run(c, es) == s
    && Prompted(c, es) && Outstanding(c, es) >= asked
  }

  lemma RunSnoc(c: Codec, es: seq<Event>, e: Event)
    requires Invertible(c) && EventsOk(es) && EventOk(e) && |es| < 999
    ensures (es + [e])[..|es|] == es && EventsOk(es + [e]) && Inv(c, Run(c, es))
    ensures Run(c, es + [e]) == Step(c, Run(c, es), e)
  {
    assert (es + [e])[..|es + [e]| - 1] == es;
  }

  lemma Extend(c: Codec, es: seq<Event>, s: Sys, t: int, asked: int, e: Event, s': Sys)
    requires Invertible(c) && Reached(c, es, s, t, asked) && |es| < 999
    requires EventOk(e) && OnTime(t, e) && (e.Append? ==> |e.data| <= READ)
    requires (e.FlushBegin? ==> asked > 0) && (e.FlushEnd? ==> e.ok)
    requires InFlight(s) && Step(c, s, e) == s'
    ensures Reached(c, es + [e], s', EventClock(t, e),
                    asked + (if Asks(s'.buf, e) then 1 else 0) - (if e.FlushBegin? then 1 else 0))
  {
    hide Step, Inv, Asks;
    RunSnoc(c, es, e);
    var all := es + [e];
    assert all[|all| - 1] == e && all[..|all| - 1] == es;
    assert forall i :: 0 <= i < |es| ==> all[i] == es[i];
  }

  // The chunks.

  function Time(i: nat): int { if i <= 64 then 0 else if i <= 82 then MAX_AGE else MAX_AGE + 1 }

  function Ch(i: nat): Chunk { Chunk(i, Zeros(READ), Time(i)) }

  /** Chunks a to b - 1. */
  function Chs(a: nat, b: nat): (s: seq<Chunk>)
    requires a <= b
    ensures |s| == b - a && forall k :: 0 <= k < |s| ==> s[k] == Ch(a + k)
  {
    seq(b - a, k requires 0 <= k < b - a => Ch(a + k))
  }

  lemma {:induction false} ReadBytes(chs: seq<Chunk>)
    requires forall k :: 0 <= k < |chs| ==> |chs[k].data| == READ
    ensures RawBytes(chs) == READ * |chs|
  {
    if chs == [] {
      assert RawBytes(chs) == 0;
    } else {
      ReadBytes(chs[1..]);
    }
  }

  lemma ChsEnds(a: nat, b: nat)
    requires a < b
    ensures Chs(a, b)[0] == Ch(a) && Chs(a, b)[1..] == Chs(a + 1, b)
    ensures Chs(a, b) + [Ch(b)] == Chs(a, b + 1)
  {
    assert forall k :: 0 <= k < b - a - 1 ==> Chs(a, b)[1..][k] == Ch(a + 1 + k);
  }

  lemma ChsSnoc(a: nat, b: nat)
    requires a <= b
    ensures Chs(a, b) + [Ch(b)] == Chs(a, b + 1)
  {
  }

  /** Chunks lo..last in the hot tier, `pend` in the queue, nothing compressed yet. */
  function At(lo: nat, last: nat, pend: seq<Chunk>, batch: seq<Chunk>): Sys
    requires 1 <= lo <= last + 1
  {
    Sys(Buffer(last, Chs(lo, last + 1), READ * (last + 1 - lo), pend, READ * |pend|, [], 0, 0, batch != []),
        batch, Chs(1, last + 1))
  }

  // Steps.

  function Push(i: nat): Event { Append(Zeros(READ), Time(i), Time(i)) }

  predicate FrontYoung(pend: seq<Chunk>, batch: seq<Chunk>, now: int) {
    batch != [] || pend == [] || !Aged(pend[0].time, now)
  }

  lemma PassRest(b: Buffer, now: int)
    requires b.segments == [] && (b.flushing || b.pending == [] || !Aged(b.pending[0].time, now))
    ensures EvictCold(EvictPending(b, now), now) == b
  {
  }

  /** The hot tier has room. */
  lemma PushFits(c: Codec, lo: nat, last: nat, pend: seq<Chunk>, batch: seq<Chunk>)
    requires 1 <= lo <= last + 1 && last + 2 - lo <= HOT && batch <= pend
    requires !Aged(Time(lo), Time(last + 1)) && FrontYoung(pend, batch, Time(last + 1))
    ensures Step(c, At(lo, last, pend, batch), Push(last + 1)) == At(lo, last + 1, pend, batch)
  {
    var s, now := At(lo, last, pend, batch), Time(last + 1);
    ChsSnoc(lo, last + 1);
    ChsSnoc(1, last + 1);
    hide Chs, Time, Zeros;
    var b := AppendChunk(s.buf, Zeros(READ), now);
    assert b.hot == Chs(lo, last + 2) && b.hot[0] == Ch(lo);
    assert !HotOver(b);
    assert EvictHot(b, now) == b;
    PassRest(b, now);
  }

  /** The hot tier is full: its oldest chunk moves to the queue. */
  lemma PushMoves(c: Codec, lo: nat, last: nat, pend: seq<Chunk>, batch: seq<Chunk>)
    requires 1 <= lo <= last + 1 && last + 2 - lo == HOT + 1 && batch <= pend
    requires !Aged(Time(lo), Time(last + 1)) && !Aged(Time(lo + 1), Time(last + 1))
    requires FrontYoung(pend + [Ch(lo)], batch, Time(last + 1))
    ensures Step(c, At(lo, last, pend, batch), Push(last + 1)) == At(lo + 1, last + 1, pend + [Ch(lo)], batch)
  {
    var s, now := At(lo, last, pend, batch), Time(last + 1);
    ChsSnoc(lo, last + 1);
    ChsSnoc(1, last + 1);
    ChsEnds(lo, last + 2);
    ChsEnds(lo + 1, last + 2);
    hide Chs, Time, Zeros;
    var b := AppendChunk(s.buf, Zeros(READ), now);
    assert b.hot == Chs(lo, last + 2) && b.hot[0] == Ch(lo);
    assert HotOver(b);
    var b1 := MoveHot(b);
    assert b1.hot == Chs(lo + 1, last + 2) && b1.hot[0] == Ch(lo + 1);
    assert !HotOver(b1);
    assert EvictHot(b1, now) == b1;
    assert EvictHot(b, now) == b1;
    PassRest(b1, now);
  }

  /** A pass drops the aged front of the hot tier. */
  lemma {:induction false} AgedFrontGoes(lo: nat, hi: nat, b: Buffer, now: int)
    requires lo <= 65 <= hi && b.hot == Chs(lo, hi) && b.hotBytes == READ * (hi - lo) && now == MAX_AGE + 1
    requires hi - 65 <= HOT
    ensures EvictHot(b, now) == b.(hot := Chs(65, hi), hotBytes := READ * (hi - 65))
    decreases 65 - lo
  {
    if lo == 65 {
      if lo < hi {
        assert b.hot[0] == Ch(65);
      }
      hide Chs;
      assert !HotOver(b);
    } else {
      ChsEnds(lo, hi);
      assert Aged(Ch(lo).time, now);
      var b1 := DropHot(b);
      AgedFrontGoes(lo + 1, hi, b1, now);
      hide Chs;
      assert EvictHot(b, now) == EvictHot(b1, now);
    }
  }

  // The run.

  /** The hot tier holds the last 64 chunks, the rest is in the queue. */
  function Filled(n: nat): Sys {
    if n <= HOT then At(1, n, [], []) else At(n - 63, n, Chs(1, n - 63), [])
  }

  function Pushes(n: nat): seq<Event> { if n == 0 then [] else Pushes(n - 1) + [Push(n)] }

  lemma FillStep(c: Codec, n: nat)
    requires n < 81
    ensures Step(c, Filled(n), Push(n + 1)) == Filled(n + 1)
  {
    if n < HOT {
      PushFits(c, 1, n, [], []);
    } else {
      if n == HOT {
        assert Chs(1, 1) == [] && Chs(1, 2) == [Ch(1)];
      } else {
        ChsSnoc(1, n - 63);
      }
      var lo := n - 63;
      var pend := if n == HOT then [] else Chs(1, lo);
      assert (pend + [Ch(lo)])[0] == Ch(1);
      PushMoves(c, lo, n, pend, []);
    }
  }

  /** Requests open after n reads. */
  function Asked(n: nat): int { if n == 81 then 2 else if n == 80 then 1 else 0 }

  lemma FillAsks(n: nat)
    requires 0 < n <= 81
    ensures InFlight(Filled(n - 1)) && IsPass(Push(n)) && |Zeros(READ)| == READ
    ensures Asked(n) <= Asked(n - 1) + if Asks(Filled(n).buf, Push(n)) then 1 else 0
  {
    hide Chs, Zeros;
  }

  lemma FillStart(c: Codec)
    requires Invertible(c)
    ensures Reached(c, [], Filled(0), 0, 0)
  {
    assert Chs(1, 1) == [];
  }

  /** 64 reads at time 0, and a burst when they are as old as they may get: two passes ask for a compression. */
  lemma {:induction false} Fill(c: Codec, n: nat)
    requires Invertible(c) && n <= 81
    ensures |Pushes(n)| == n && Reached(c, Pushes(n), Filled(n), if n == 0 then 0 else Time(n), Asked(n))
  {
    hide Reached, Step, Filled, InFlight, Asks, Zeros;
    if n == 0 {
      FillStart(c);
    } else {
      Fill(c, n - 1);
      FillStep(c, n - 1);
      FillAsks(n);
      Extend(c, Pushes(n - 1), Filled(n - 1), if n == 1 then 0 else Time(n - 1), Asked(n - 1), Push(n), Filled(n));
      Weaken(c, Pushes(n), Filled(n), Time(n), Asked(n - 1) + (if Asks(Filled(n).buf, Push(n)) then 1 else 0), Asked(n));
    }
  }

  lemma Weaken(c: Codec, es: seq<Event>, s: Sys, t: int, asked: int, less: int)
    requires Invertible(c) && Reached(c, es, s, t, asked) && less <= asked
    ensures Reached(c, es, s, t, less)
  {
  }

  /** The compression begins, one more chunk is queued behind its batch, and the old chunks age out. */
  function Held(n: nat): Sys
    requires n >= 82
  {
    if n <= 128 then At(65, n, Chs(1, 19), Chs(1, 18)) else At(n - 63, n, Chs(1, 19) + Chs(65, n - 63), Chs(1, 18))
  }

  lemma BeginStep(c: Codec)
    ensures Step(c, Filled(81), FlushBegin) == At(18, 81, Chs(1, 18), Chs(1, 18))
  {
  }

  lemma QueueStep(c: Codec)
    ensures Chs(1, 18) <= Chs(1, 19)
    ensures Step(c, At(18, 81, Chs(1, 18), Chs(1, 18)), Push(82)) == At(19, 82, Chs(1, 19), Chs(1, 18))
  {
    PushMoves(c, 18, 81, Chs(1, 18), Chs(1, 18));
    ChsSnoc(1, 18);
  }

  lemma AgeStep(c: Codec)
    ensures InFlight(At(19, 82, Chs(1, 19), Chs(1, 18)))
    ensures Step(c, At(19, 82, Chs(1, 19), Chs(1, 18)), Evict(MAX_AGE + 1)) == Held(82)
  {
    var s := At(19, 82, Chs(1, 19), Chs(1, 18));
    ChsSnoc(1, 18);
    AgedFrontGoes(19, 83, s.buf, MAX_AGE + 1);
    hide Chs, EvictHot;
    PassRest(EvictHot(s.buf, MAX_AGE + 1), MAX_AGE + 1);
  }

  lemma HeldStep(c: Codec, n: nat)
    requires 82 <= n < 129
    ensures InFlight(Held(n)) && Step(c, Held(n), Push(n + 1)) == Held(n + 1)
  {
    ChsSnoc(1, 18);
    if n < 128 {
      PushFits(c, 65, n, Chs(1, 19), Chs(1, 18));
    } else {
      PushMoves(c, 65, 128, Chs(1, 19), Chs(1, 18));
      assert Chs(65, 66) == [Ch(65)];
    }
  }

  function Middle(n: nat): seq<Event>
    requires n >= 82
  {
    if n == 82 then Pushes(81) + [FlushBegin] + [Push(82)] + [Evict(MAX_AGE + 1)] else Middle(n - 1) + [Push(n)]
  }

  lemma MiddleStart(c: Codec)
    requires Invertible(c)
    ensures |Middle(82)| == 84 && Reached(c, Middle(82), Held(82), MAX_AGE + 1, 1)
  {
    Fill(c, 81);
    BeginStep(c);
    QueueStep(c);
    AgeStep(c);
    var e1, s1 := Pushes(81), At(18, 81, Chs(1, 18), Chs(1, 18));
    var e2, s2 := e1 + [FlushBegin], At(19, 82, Chs(1, 19), Chs(1, 18));
    hide Reached, Step, Chs;
    Extend(c, e1, Filled(81), MAX_AGE, 2, FlushBegin, s1);
    Extend(c, e2, s1, MAX_AGE, 1, Push(82), s2);
    Extend(c, e2 + [Push(82)], s2, MAX_AGE, 1, Evict(MAX_AGE + 1), Held(82));
  }

  lemma {:induction false} MiddleRun(c: Codec, n: nat)
    requires Invertible(c) && 82 <= n <= 129
    ensures |Middle(n)| == n + 2 && Reached(c, Middle(n), Held(n), MAX_AGE + 1, 1)
  {
    if n == 82 {
      MiddleStart(c);
    } else {
      MiddleRun(c, n - 1);
      HeldStep(c, n - 1);
      hide Reached, Step, Chs;
      Extend(c, Middle(n - 1), Held(n - 1), MAX_AGE + 1, 1, Push(n), Held(n));
    }
  }

  /** The chunks on both sides of the hole, sealed into one segment. */
  function Sealed(): seq<Chunk> { [Ch(18), Ch(65)] }

  /** The states after the first compression has ended, the second has begun, has ended, and a last pass. */
  function Final(c: Codec, k: nat): Sys
    requires k <= 3
  {
    var hot, log := Chs(66, 130), Chs(1, 130);
    var a, z := SegmentOf(c, Chs(1, 18)), SegmentOf(c, Sealed());
    if k == 0 then Sys(Buffer(129, hot, READ * 64, Sealed(), READ * 2, [a], |a.data|, READ * 17, false), [], log)
    else if k == 1 then Sys(Buffer(129, hot, READ * 64, Sealed(), READ * 2, [a], |a.data|, READ * 17, true), Sealed(), log)
    else if k == 2 then Sys(Buffer(129, hot, READ * 64, [], 0, [a, z], |a.data| + |z.data|, READ * 19, false), [], log)
    else Sys(Buffer(129, hot, READ * 64, [], 0, [z], |z.data|, READ * 2, false), [], log)
  }

  lemma FirstEnds(c: Codec)
    ensures InFlight(Held(129)) && Step(c, Held(129), FlushEnd(true)) == Final(c, 0)
  {
    HeldFront();
    var s, a := Held(129), SegmentOf(c, Chs(1, 18));
    ReadBytes(Chs(1, 18));
    assert a.rawBytes == READ * 17;
    hide Chs, Ch, RawBytes, SegmentOf, Held, Sealed;
    assert [] + [a] == [a];
    assert s.batch <= s.buf.pending && s.buf.pending[17..] == Sealed();
  }

  lemma HeldFront()
    ensures Held(129) == At(66, 129, Chs(1, 18) + Sealed(), Chs(1, 18))
  {
    ChsSnoc(1, 18);
    assert Chs(65, 66) == [Ch(65)];
    assert Chs(1, 18) + [Ch(18)] + [Ch(65)] == Chs(1, 18) + Sealed();
  }

  lemma SecondEnds(c: Codec)
    ensures InFlight(Final(c, 0)) && Step(c, Final(c, 0), FlushBegin) == Final(c, 1)
    ensures InFlight(Final(c, 1)) && Step(c, Final(c, 1), FlushEnd(true)) == Final(c, 2)
  {
    var a, z := SegmentOf(c, Chs(1, 18)), SegmentOf(c, Sealed());
    assert RawBytes(Sealed()) == READ * 2 by { ReadBytes(Sealed()); }
    hide Chs, Ch, RawBytes;
    assert [a] + [z] == [a, z];
    assert Sealed()[2..] == [];
  }

  lemma LastPass(c: Codec)
    requires |SegmentOf(c, Sealed()).data| <= MAX_COLD_BYTES
    ensures Step(c, Final(c, 2), Evict(MAX_AGE + 1)) == Final(c, 3)
  {
    var b, now := Final(c, 2).buf, MAX_AGE + 1;
    ReadBytes(Chs(1, 18));
    ReadBytes(Sealed());
    assert b.hot[0] == Ch(66);
    assert EvictHot(b, now) == b;
    hide RawBytes, EvictHot;
    assert b.segments[1..] == [SegmentOf(c, Sealed())];
    assert EvictCold(DropSegment(b), now) == DropSegment(b);
    assert EvictCold(b, now) == DropSegment(b);
  }

  function WholeRun(): seq<Event> {
    Middle(129) + [FlushEnd(true)] + [FlushBegin] + [FlushEnd(true)] + [Evict(MAX_AGE + 1)]
  }

  lemma RunEnds(c: Codec)
    requires Invertible(c) && |SegmentOf(c, Sealed()).data| <= MAX_COLD_BYTES
    ensures Reached(c, WholeRun(), Final(c, 3), MAX_AGE + 1, 0)
  {
    MiddleRun(c, 129);
    FirstEnds(c);
    SecondEnds(c);
    LastPass(c);
    var e1 := Middle(129);
    var e2 := e1 + [FlushEnd(true)];
    var e3 := e2 + [FlushBegin];
    var e4 := e3 + [FlushEnd(true)];
    hide Reached, Step, Final, Middle, Held, Asks;
    var t := MAX_AGE + 1;
    Extend(c, e1, Held(129), t, 1, FlushEnd(true), Final(c, 0));
    Extend(c, e2, Final(c, 0), t, 1, FlushBegin, Final(c, 1));
    Extend(c, e3, Final(c, 1), t, 0, FlushEnd(true), Final(c, 2));
    Settled(c);
    Extend(c, e4, Final(c, 2), t, 0, Evict(t), Final(c, 3));
  }

  lemma Settled(c: Codec)
    ensures InFlight(Final(c, 2))
  {
  }

  lemma FinalContents(c: Codec)
    requires Invertible(c)
    ensures Contents(c, Final(c, 3).buf) == Items(Sealed()) + Items(Chs(66, 130))
  {
    var z := SegmentOf(c, Sealed());
    SegmentRoundTrip(c, Sealed());
    hide SegmentOf, SegmentFrames, Chs;
    assert ColdFrames(c, [z]) == FramesOf(c, z) + ColdFrames(c, []);
    assert FramesOf(c, z) + [] == FramesOf(c, z);
    assert [] + Chs(66, 130) == Chs(66, 130);
  }

  /**
   Every compression was asked for, none failed or is in flight, the clock is
   monotone and the reads are 64 KiB, yet after the last pass chunk 18 is held
   and chunk 19 is not.
   */
  lemma HoleSurvivesQuietPass(c: Codec)
    requires Invertible(c) && |SegmentOf(c, Sealed()).data| <= MAX_COLD_BYTES
    ensures var es := WholeRun();
            && EventsOk(es) && Reads(es) && Orderly(0, es) && Prompted(c, es)
            && es != [] && IsPass(es[|es| - 1]) && !Run(c, es).buf.flushing
            && Retained(c, Run(c, es), 18) && !Retained(c, Run(c, es), 19)
            && !GaplessSuffix(c, Run(c, es))
  {
    RunEnds(c);
    FinalHole(c);
    hide Contents, Orderly, Prompted, Run, Middle, Retained, Final;
  }

  lemma FinalHole(c: Codec)
    requires Invertible(c)
    ensures Final(c, 3).buf.last == 129 && !Final(c, 3).buf.flushing
    ensures Retained(c, Final(c, 3), 18) && !Retained(c, Final(c, 3), 19)
  {
    FinalContents(c);
    var held := Items(Sealed()) + Items(Chs(66, 130));
    assert held[0].offset == 18;
    assert held[1].offset == 65;
    assert forall i :: 2 <= i < |held| ==> held[i].offset == 64 + i;
    hide Contents, Chs;
  }
}
