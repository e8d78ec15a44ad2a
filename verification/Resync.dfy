/**
 Resync: the batches a reconnecting client is served (session.go,
 outputFromOffset) and the loop that drains them (qtransport/server.go).
 */
module Resync {
  import opened Bytes
  import opened Frames
  import opened ColdBuffer
  import opened OutputBuffer
  import opened BufferRuns
  import opened Gapless

  /** What a call with this offset may draw on: a fresh client is not given the cold tier. */
  function Visible(c: Codec, b: Buffer, from: nat): seq<Frame> {
    if from > 1 then Contents(c, b) else Items(b.pending + b.hot)
  }

  lemma {:induction false} TakeRawIsPrefix(raw: seq<Frame>, total: nat)
    ensures TakeRaw(raw, total) <= raw
    ensures TakeRaw(raw, total) == [] <==> raw == [] || total >= MAX_BATCH_BYTES
  {
    if raw == [] || total >= MAX_BATCH_BYTES {
    } else {
      TakeRawIsPrefix(raw[1..], total + |raw[0].data|);
    }
  }

  lemma ColdFromStep(c: Codec, segs: seq<Segment>, from: nat)
    ensures segs == [] ==> From(ColdFrames(c, segs), from) == []
    ensures segs != [] ==>
              From(ColdFrames(c, segs), from)
              == From(FramesOf(c, segs[0]), from) + From(ColdFrames(c, segs[1..]), from)
  {
    hide FramesOf;
    if segs != [] {
      FromConcat(FramesOf(c, segs[0]), ColdFrames(c, segs[1..]), from);
    }
  }

  lemma EndIsServed(c: Codec, log: seq<Chunk>, seg: Segment, from: nat)
    requires SegmentOk(c, log, seg) && seg.endSeq >= from
    ensures From(FramesOf(c, seg), from) != []
  {
    var all := FramesOf(c, seg);
    hide FramesOf;
    FromMember(all, from, all[|all| - 1]);
  }

  lemma {:induction false} TakeSegmentsIsPrefix(
    c: Codec, log: seq<Chunk>, segs: seq<Segment>, from: nat, raw: seq<Frame>, total: nat)
    requires forall seg :: seg in segs ==> SegmentOk(c, log, seg) && seg.endSeq >= from
    ensures TakeSegments(c, segs, from, raw, total) <= From(ColdFrames(c, segs), from) + raw
    ensures TakeSegments(c, segs, from, raw, total) == [] <==> (segs == [] && raw == []) || total >= MAX_BATCH_BYTES
  {
    hide FramesOf, DataBytes, TakeRaw, ColdFrames, From, SegmentOk;
    ColdFromStep(c, segs, from);
    if segs == [] {
      TakeRawIsPrefix(raw, total);
      assert [] + raw == raw;
    } else if total < MAX_BATCH_BYTES {
      var fs := From(FramesOf(c, segs[0]), from);
      EndIsServed(c, log, segs[0], from);
      TakeSegmentsIsPrefix(c, log, segs[1..], from, raw, total + DataBytes(fs));
      var rest := From(ColdFrames(c, segs[1..]), from);
      assert (fs + rest) + raw == fs + (rest + raw);
    }
  }

  lemma {:induction false} NothingFrom(fs: seq<Frame>, from: nat)
    requires forall i :: 0 <= i < |fs| ==> fs[i].offset < from
    ensures From(fs, from) == []
  {
    if fs == [] {
    } else {
      NothingFrom(fs[1..], from);
    }
  }

  lemma FirstSegment(c: Codec, log: seq<Chunk>, segs: seq<Segment>)
    requires segs != [] && ColdOk(c, log, segs) && Ascending(ColdFrames(c, segs))
    ensures Ascending(ColdFrames(c, segs[1..]))
    ensures var first := FramesOf(c, segs[0]);
            forall i :: 0 <= i < |first| ==> first[i].offset <= segs[0].endSeq
  {
    var first, later := FramesOf(c, segs[0]), ColdFrames(c, segs[1..]);
    assert SegmentOk(c, log, segs[0]);
    assert ColdFrames(c, segs) == first + later;
    assert segs[0].endSeq == first[|first| - 1].offset;
    hide FramesOf, ColdFrames, ColdOk, SegmentOk;
    LastIsLargest(first, later);
  }

  lemma LastIsLargest(a: seq<Frame>, b: seq<Frame>)
    requires Ascending(a + b) && a != []
    ensures Ascending(b) && forall i :: 0 <= i < |a| ==> a[i].offset <= a[|a| - 1].offset
  {
    assert forall i :: 0 <= i < |a| ==> a[i] == (a + b)[i];
    FrontComesFirst(a, b);
    hide Has;
  }

  /** Segments that end before the requested offset hold nothing the client needs. */
  lemma {:induction false} SelectionLosesNothing(c: Codec, log: seq<Chunk>, segs: seq<Segment>, from: nat)
    requires ColdOk(c, log, segs) && Ascending(ColdFrames(c, segs))
    ensures From(ColdFrames(c, SegmentsFrom(segs, from)), from) == From(ColdFrames(c, segs), from)
    ensures forall seg :: seg in SegmentsFrom(segs, from) ==> SegmentOk(c, log, seg) && seg.endSeq >= from
  {
    hide FramesOf, ColdFrames, From, Ascending, SegmentOk;
    if segs == [] {
    } else {
      FirstSegment(c, log, segs);
      SelectionLosesNothing(c, log, segs[1..], from);
      ColdFromStep(c, segs, from);
      var chosen := SegmentsFrom(segs[1..], from);
      if segs[0].endSeq >= from {
        assert ([segs[0]] + chosen)[1..] == chosen;
        ColdFromStep(c, [segs[0]] + chosen, from);
      } else {
        NothingFrom(FramesOf(c, segs[0]), from);
      }
    }
  }

  lemma ColdAscending(c: Codec, s: Sys)
    requires Inv(c, s)
    ensures Ascending(ColdFrames(c, s.buf.segments)) && Ascending(Items(s.buf.pending + s.buf.hot))
  {
    hide ColdFrames, Items;
    var cold, raw := ColdFrames(c, s.buf.segments), Items(s.buf.pending + s.buf.hot);
    assert forall i :: 0 <= i < |cold| ==> cold[i] == (cold + raw)[i];
    assert forall i :: 0 <= i < |raw| ==> raw[i] == (cold + raw)[|cold| + i];
  }

  /** A batch is the front of what is visible from the offset on, and is empty only when that is. */
  lemma BatchIsPrefix(c: Codec, s: Sys, from: nat)
    requires Inv(c, s)
    ensures ResyncBatch(c, s.buf, from) <= From(Visible(c, s.buf, from), from)
    ensures ResyncBatch(c, s.buf, from) == [] <==> From(Visible(c, s.buf, from), from) == []
  {
    hide Ascending, ColdFrames, Items, TakeSegments, SegmentOk;
    var cold, raw := ColdFrames(c, s.buf.segments), Items(s.buf.pending + s.buf.hot);
    var segs := if from > 1 then SegmentsFrom(s.buf.segments, from) else [];
    ColdAscending(c, s);
    SelectionLosesNothing(c, s.log, s.buf.segments, from);
    TakeSegmentsIsPrefix(c, s.log, segs, from, From(raw, from), 0);
    if from > 1 {
      FromConcat(cold, raw, from);
      if segs != [] {
        EndIsServed(c, s.log, segs[0], from);
        ColdFromStep(c, segs, from);
      }
    }
    ColdFromStep(c, [], from);
    assert [] + From(raw, from) == From(raw, from);
  }

  // How much one batch holds.

  lemma {:induction false} DataBytesConcat(a: seq<Frame>, b: seq<Frame>)
    ensures DataBytes(a + b) == DataBytes(a) + DataBytes(b)
  {
    if a == [] {
      assert a + b == b;
    } else {
      assert (a + b)[1..] == a[1..] + b;
      DataBytesConcat(a[1..], b);
    }
  }

  /** The last piece of a batch: one raw chunk, or what one segment gives. */
  ghost predicate Piece(c: Codec, segs: seq<Segment>, from: nat, p: seq<Frame>) {
    |p| == 1 || exists seg :: seg in segs && p == From(FramesOf(c, seg), from)
  }

  /** Without its last piece the batch, after `total` bytes, is below 4 MiB. */
  ghost predicate Bounded(c: Codec, segs: seq<Segment>, from: nat, out: seq<Frame>, total: nat) {
    exists k: nat :: k <= |out| && total + DataBytes(out[..k]) < 4 * 1024 * 1024 && Piece(c, segs, from, out[k..])
  }

  lemma {:induction false} TakeRawFills(c: Codec, segs: seq<Segment>, from: nat, raw: seq<Frame>, total: nat)
    ensures var out := TakeRaw(raw, total);
            && (out == raw || total + DataBytes(out) >= 4 * 1024 * 1024)
            && (out != [] ==> Bounded(c, segs, from, out, total))
  {
    hide FramesOf;
    var out := TakeRaw(raw, total);
    if raw == [] || total >= MAX_BATCH_BYTES {
    } else {
      var rest := TakeRaw(raw[1..], total + |raw[0].data|);
      TakeRawFills(c, segs, from, raw[1..], total + |raw[0].data|);
      assert out == [raw[0]] + rest && raw == [raw[0]] + raw[1..];
      if rest == [] {
        assert out[..0] == [] && out[0..] == out;
        assert Piece(c, segs, from, out[0..]);
      } else {
        BoundedCons(c, segs, from, [raw[0]], rest, total);
      }
    }
  }

  lemma BoundedCons(c: Codec, segs: seq<Segment>, from: nat, first: seq<Frame>, rest: seq<Frame>, total: nat)
    requires Bounded(c, segs, from, rest, total + DataBytes(first))
    ensures Bounded(c, segs, from, first + rest, total)
  {
    hide Piece;
    var k: nat :| k <= |rest| && total + DataBytes(first) + DataBytes(rest[..k]) < 4 * 1024 * 1024 && Piece(c, segs, from, rest[k..]);
    var out, j := first + rest, |first| + k;
    assert out[..j] == first + rest[..k] && out[j..] == rest[k..];
    DataBytesConcat(first, rest[..k]);
  }

  lemma BoundedMore(c: Codec, segs: seq<Segment>, from: nat, out: seq<Frame>, total: nat)
    requires segs != [] && Bounded(c, segs[1..], from, out, total)
    ensures Bounded(c, segs, from, out, total)
  {
    hide FramesOf;
    var k: nat :| k <= |out| && total + DataBytes(out[..k]) < 4 * 1024 * 1024 && Piece(c, segs[1..], from, out[k..]);
    assert forall seg :: seg in segs[1..] ==> seg in segs;
    assert Piece(c, segs, from, out[k..]);
  }

  lemma {:induction false} TakeSegmentsFills(c: Codec, segs: seq<Segment>, from: nat, raw: seq<Frame>, total: nat)
    ensures var out := TakeSegments(c, segs, from, raw, total);
            && (out == From(ColdFrames(c, segs), from) + raw || total + DataBytes(out) >= 4 * 1024 * 1024)
            && (out != [] ==> Bounded(c, segs, from, out, total))
  {
    hide FramesOf, TakeRaw, From, Bounded;
    ColdFromStep(c, segs, from);
    var out := TakeSegments(c, segs, from, raw, total);
    if segs == [] {
      TakeRawFills(c, segs, from, raw, total);
      assert [] + raw == raw;
    } else if total >= MAX_BATCH_BYTES {
    } else {
      var fs := From(FramesOf(c, segs[0]), from);
      var rest := TakeSegments(c, segs[1..], from, raw, total + DataBytes(fs));
      TakeSegmentsFills(c, segs[1..], from, raw, total + DataBytes(fs));
      DataBytesConcat(fs, rest);
      var later := From(ColdFrames(c, segs[1..]), from);
      assert (fs + later) + raw == fs + (later + raw);
      if rest == [] {
        OnePiece(c, segs, from, fs, total);
        assert fs + [] == fs;
      } else {
        BoundedMore(c, segs, from, rest, total + DataBytes(fs));
        BoundedCons(c, segs, from, fs, rest, total);
      }
    }
  }

  lemma OnePiece(c: Codec, segs: seq<Segment>, from: nat, fs: seq<Frame>, total: nat)
    requires segs != [] && fs == From(FramesOf(c, segs[0]), from) && total < 4 * 1024 * 1024
    ensures Bounded(c, segs, from, fs, total)
  {
    hide FramesOf;
    assert fs[..0] == [] && fs[0..] == fs;
    assert segs[0] in segs && Piece(c, segs, from, fs[0..]);
  }

  /**
   A batch is everything visible from the offset on, or at least 4 MiB; and
   without its last piece, one raw chunk or one segment's share, it is less.
   */
  lemma BatchIsLimited(c: Codec, s: Sys, from: nat)
    requires Inv(c, s)
    ensures var out := ResyncBatch(c, s.buf, from);
            && (out == From(Visible(c, s.buf, from), from) || DataBytes(out) >= 4 * 1024 * 1024)
            && (out != [] ==> Bounded(c, s.buf.segments, from, out, 0))
  {
    hide Ascending, ColdFrames, Items, TakeSegments, SegmentOk, Counted, From, DataBytes;
    var cold, raw := ColdFrames(c, s.buf.segments), Items(s.buf.pending + s.buf.hot);
    var segs := if from > 1 then SegmentsFrom(s.buf.segments, from) else [];
    ColdAscending(c, s);
    SelectionLosesNothing(c, s.log, s.buf.segments, from);
    TakeSegmentsFills(c, segs, from, From(raw, from), 0);
    ColdFromStep(c, [], from);
    assert [] + From(raw, from) == From(raw, from);
    if from > 1 {
      FromConcat(cold, raw, from);
      SelectedAreHeld(s.buf.segments, from);
    }
    hide Inv, Visible;
    if ResyncBatch(c, s.buf, from) != [] {
      BoundedIn(c, segs, s.buf.segments, from, ResyncBatch(c, s.buf, from));
    }
  }

  lemma {:induction false} SelectedAreHeld(segs: seq<Segment>, from: nat)
    ensures forall seg :: seg in SegmentsFrom(segs, from) ==> seg in segs
  {
    if segs == [] {
    } else {
      SelectedAreHeld(segs[1..], from);
    }
  }

  lemma BoundedIn(c: Codec, a: seq<Segment>, b: seq<Segment>, from: nat, out: seq<Frame>)
    requires Bounded(c, a, from, out, 0) && forall seg :: seg in a ==> seg in b
    ensures Bounded(c, b, from, out, 0)
  {
    hide FramesOf, DataBytes;
    var k: nat :| k <= |out| && 0 + DataBytes(out[..k]) < 4 * 1024 * 1024 && Piece(c, a, from, out[k..]);
    assert Piece(c, b, from, out[k..]);
  }

  /** What one fetch at `from` returns, in terms of offsets. */
  lemma FetchFacts(c: Codec, s: Sys, from: nat)
    requires Inv(c, s)
    ensures var out, seen := ResyncBatch(c, s.buf, from), Visible(c, s.buf, from);
            && Ascending(out)
            && (forall i :: 0 <= i < |out| ==> out[i].offset >= from && Logged(s.log, out[i]))
            && (out == [] ==> forall n: nat :: n >= from ==> !Has(seen, n))
            && (out != [] ==> forall n: nat :: from <= n <= out[|out| - 1].offset && Has(seen, n) ==> Has(out, n))
  {
    hide ResyncBatch, Contents, Items;
    var out, seen := ResyncBatch(c, s.buf, from), Visible(c, s.buf, from);
    BatchIsPrefix(c, s, from);
    VisibleFacts(c, s, from);
    hide Inv, Visible;
    FrontOfRest(s.log, seen, out, from);
  }

  /** The front of what is left from an offset on. */
  lemma FrontOfRest(log: seq<Chunk>, seen: seq<Frame>, out: seq<Frame>, from: nat)
    requires Ascending(seen) && out <= From(seen, from) && (out == [] ==> From(seen, from) == [])
    requires forall i :: 0 <= i < |seen| ==> Logged(log, seen[i])
    ensures Ascending(out) && forall i :: 0 <= i < |out| ==> out[i].offset >= from && Logged(log, out[i])
    ensures out == [] ==> forall n: nat :: n >= from ==> !Has(seen, n)
    ensures out != [] ==> forall n: nat :: from <= n <= out[|out| - 1].offset && Has(seen, n) ==> Has(out, n)
  {
    var k := FromIsSuffix(seen, from);
    hide From, Logged;
    assert forall i :: 0 <= i < |out| ==> out[i] == seen[k..][i] == seen[k + i];
    if out != [] {
      forall n: nat | from <= n <= out[|out| - 1].offset && Has(seen, n) ensures Has(out, n) {
        var i :| 0 <= i < |seen| && seen[i].offset == n;
        assert i >= k && i - k < |out|;
        assert out[i - k] == seen[i];
      }
    }
  }

  lemma VisibleFacts(c: Codec, s: Sys, from: nat)
    requires Inv(c, s)
    ensures Ascending(Visible(c, s.buf, from))
    ensures forall i :: 0 <= i < |Visible(c, s.buf, from)| ==> Logged(s.log, Visible(c, s.buf, from)[i])
    ensures forall n: nat :: Has(Visible(c, s.buf, from), n) ==> Retained(c, s, n)
  {
    hide Ascending, ColdFrames, Items, Logged, ColdOk, RawOk, LogOk, Counted;
    ColdAscending(c, s);
    ContentsLogged(c, s);
    var cold, raw := ColdFrames(c, s.buf.segments), Items(s.buf.pending + s.buf.hot);
    forall i | 0 <= i < |raw| ensures Logged(s.log, raw[i]) { assert raw[i] in cold + raw; }
    forall n: nat | Has(raw, n) ensures Retained(c, s, n) { HasConcat(cold, raw, n); }
  }

  // The loop on a quiescent buffer.

  lemma SplitAfter(seen: seq<Frame>, from: nat, m: nat)
    requires Ascending(seen) && 0 < m <= |From(seen, from)|
    ensures From(seen, from) == From(seen, from)[..m] + From(seen, From(seen, from)[m - 1].offset + 1)
  {
    var k := FromIsSuffix(seen, from);
    var next := From(seen, from)[m - 1].offset + 1;
    var j := FromIsSuffix(seen, next);
    hide From;
    assert seen[k..][m - 1] == seen[k + m - 1];
    assert k + m < |seen| ==> seen[k + m - 1].offset < seen[k + m].offset;
    assert seen[k + m - 1].offset < next;
    hide Ascending;
    assert j == k + m;
    SplitTail(seen, k, m);
  }

  lemma SplitTail(seen: seq<Frame>, k: nat, m: nat)
    requires k + m <= |seen|
    ensures seen[k..] == seen[k..][..m] + seen[k + m..]
  {
  }

  lemma OldestIsFirst(c: Codec, s: Sys)
    requires Inv(c, s)
    ensures OldestRetained(s.buf) ==
            if Contents(c, s.buf) == [] then None else Some(Contents(c, s.buf)[0].offset)
  {
    var b := s.buf;
    if b.segments != [] {
      assert SegmentOk(c, s.log, b.segments[0]);
      hide FramesOf, Ascending;
      assert ColdFrames(c, b.segments)[0] == FramesOf(c, b.segments[0])[0];
    } else {
      hide Ascending;
      if b.pending != [] {
        assert (b.pending + b.hot)[0] == b.pending[0];
      } else {
        assert b.pending + b.hot == b.hot;
      }
    }
  }

  lemma ColdBeforeRaw(c: Codec, s: Sys, next: nat)
    requires Inv(c, s)
    requires exists n: nat :: n < next && Has(Items(s.buf.pending + s.buf.hot), n)
    ensures From(Contents(c, s.buf), next) == From(Items(s.buf.pending + s.buf.hot), next)
  {
    var cold, raw := ColdFrames(c, s.buf.segments), Items(s.buf.pending + s.buf.hot);
    hide Items, ColdFrames, From, SegmentOk;
    var n: nat :| n < next && Has(raw, n);
    FrontComesFirst(cold, raw);
    forall i | 0 <= i < |cold| ensures cold[i].offset < next { assert Has(cold, cold[i].offset); }
    FromConcat(cold, raw, next);
    NothingFrom(cold, next);
    assert [] + From(raw, next) == From(raw, next);
  }

  /** After a batch, the rest of the request is what a call at the next offset sees, and no notice is due. */
  lemma NextBatch(c: Codec, s: Sys, from: nat)
    requires Inv(c, s) && ResyncBatch(c, s.buf, from) != []
    ensures var out := ResyncBatch(c, s.buf, from);
            var next := out[|out| - 1].offset + 1;
            && from < next && 1 < next <= s.buf.last + 1
            && From(Visible(c, s.buf, from), from) == out + From(Visible(c, s.buf, next), next)
            && !DroppedNotice(s.buf, next)
  {
    hide ResyncBatch, Items, ColdFrames, From, SegmentOk, RawOk, Counted;
    var out, seen := ResyncBatch(c, s.buf, from), Visible(c, s.buf, from);
    var next := out[|out| - 1].offset + 1;
    BatchIsPrefix(c, s, from);
    FetchFacts(c, s, from);
    VisibleFacts(c, s, from);
    SplitAfter(seen, from, |out|);
    assert Logged(s.log, out[|out| - 1]);
    FromMember(seen, from, out[|out| - 1]);
    assert Has(seen, next - 1);
    if from <= 1 {
      ColdBeforeRaw(c, s, next);
    }
    OldestIsFirst(c, s);
    assert Retained(c, s, next - 1);
  }

  /** The resync loop of handleConn on a buffer nobody else is changing. */
  method DrainResync(c: Codec, ring: OutputRing, ghost s: Sys, lastOffset: nat)
    returns (sent: seq<Frame>, notices: nat)
    requires Inv(c, s) && s.buf == ring.View()
    ensures sent == From(Visible(c, s.buf, lastOffset + 1), lastOffset + 1)
    ensures notices == if DroppedNotice(s.buf, lastOffset + 1) then 1 else 0
  {
    hide *;
    sent, notices := [], 0;
    var next := lastOffset + 1;
    var notice, chunks := ring.OutputFromOffset(c, next);
    assert [] + From(Visible(c, s.buf, next), next) == From(Visible(c, s.buf, next), next);
    while |chunks| > 0
      invariant chunks == ResyncBatch(c, s.buf, next) && notice == DroppedNotice(s.buf, next)
      invariant sent + From(Visible(c, s.buf, next), next) == From(Visible(c, s.buf, lastOffset + 1), lastOffset + 1)
      invariant notices + (if notice then 1 else 0) == if DroppedNotice(s.buf, lastOffset + 1) then 1 else 0
      decreases s.buf.last + 1 - next
    {
      NextBatch(c, s, next);
      ghost var rest := From(Visible(c, s.buf, chunks[|chunks| - 1].offset + 1), chunks[|chunks| - 1].offset + 1);
      assert sent + (chunks + rest) == (sent + chunks) + rest;
      notices := notices + if notice then 1 else 0;
      sent := sent + chunks;
      next := chunks[|chunks| - 1].offset + 1;
      notice, chunks := ring.OutputFromOffset(c, next);
    }
    BatchIsPrefix(c, s, next);
    assert sent + [] == sent;
    notices := notices + if notice then 1 else 0;
  }

  // The dropped-output notice.

  ghost predicate AllLogged(log: seq<Chunk>, fs: seq<Frame>) {
    forall f :: f in fs ==> Logged(log, f)
  }

  lemma TailOffsets(a: seq<Frame>, n: nat)
    requires Ascending(a) && a != []
    ensures Has(a[1..], n) <==> Has(a, n) && n != a[0].offset
    ensures Has(a, n) ==> a[0].offset <= n
  {
    assert [a[0]] + a[1..] == a;
    HasConcat([a[0]], a[1..], n);
    if Has([a[0]], n) {
      assert [a[0]][0].offset == n;
    }
    assert [a[0]][0].offset == a[0].offset;
  }

  /** Two ordered lists of logged chunks with the same offsets are the same list. */
  lemma {:induction false} SameOffsetsSameFrames(log: seq<Chunk>, a: seq<Frame>, b: seq<Frame>)
    requires Ascending(a) && Ascending(b)
    requires AllLogged(log, a) && AllLogged(log, b)
    requires forall n: nat :: Has(a, n) <==> Has(b, n)
    ensures a == b
  {
    if a != [] && b != [] {
      assert Logged(log, a[0]) && Logged(log, b[0]);
      assert Has(a, a[0].offset) && Has(b, b[0].offset);
      TailOffsets(a, b[0].offset);
      TailOffsets(b, a[0].offset);
      forall n: nat ensures Has(a[1..], n) <==> Has(b[1..], n) {
        TailOffsets(a, n);
        TailOffsets(b, n);
      }
      SameOffsetsSameFrames(log, a[1..], b[1..]);
    } else if a != [] {
      assert Has(a, a[0].offset);
    } else if b != [] {
      assert Has(b, b[0].offset);
    }
  }

  lemma LogTail(log: seq<Chunk>, from: nat, n: nat)
    requires LogOk(log) && 1 <= from <= |log| + 1
    ensures Ascending(Items(log[from - 1..]))
    ensures AllLogged(log, Items(log[from - 1..]))
    ensures Has(Items(log[from - 1..]), n) <==> from <= n <= |log|
  {
    var tail := Items(log[from - 1..]);
    assert forall i :: 0 <= i < |tail| ==> tail[i].offset == from + i;
    if from <= n <= |log| {
      assert tail[n - from].offset == n;
    }
  }

  lemma FromHas(fs: seq<Frame>, from: nat, n: nat)
    ensures Has(From(fs, from), n) <==> Has(fs, n) && n >= from
  {
    hide From;
    if Has(From(fs, from), n) {
      var i :| 0 <= i < |From(fs, from)| && From(fs, from)[i].offset == n;
      FromMember(fs, from, From(fs, from)[i]);
      assert From(fs, from)[i] in fs;
    }
    if Has(fs, n) && n >= from {
      var i :| 0 <= i < |fs| && fs[i].offset == n;
      FromMember(fs, from, fs[i]);
      assert fs[i] in From(fs, from);
    }
  }

  lemma KeptIsServed(c: Codec, s: Sys, from: nat)
    requires Inv(c, s) && 1 < from <= s.buf.last + 1
    requires forall n: nat :: from <= n <= s.buf.last ==> Retained(c, s, n)
    ensures From(Contents(c, s.buf), from) == Items(s.log[from - 1..])
  {
    var seen, tail := Contents(c, s.buf), Items(s.log[from - 1..]);
    hide Contents, Items, Counted, ColdOk, RawOk, From;
    forall n: nat ensures Has(From(seen, from), n) <==> Has(tail, n) {
      LogTail(s.log, from, n);
      FromHas(seen, from, n);
      if Retained(c, s, n) {
        RetainedIsLogged(c, s, n);
      }
    }
    LogTail(s.log, from, 0);
    var k := FromIsSuffix(seen, from);
    assert Ascending(seen[k..]);
    ContentsLogged(c, s);
    hide LogOk, Ascending;
    SameOffsetsSameFrames(s.log, From(seen, from), tail);
  }

  /** A reconnecting client gets every byte after its position exactly when the session kept them all. */
  lemma ServedExactlyIffKept(c: Codec, s: Sys, from: nat)
    requires Inv(c, s) && 1 < from <= s.buf.last + 1
    ensures From(Contents(c, s.buf), from) == Items(s.log[from - 1..])
            <==> forall n: nat :: from <= n <= s.buf.last ==> Retained(c, s, n)
  {
    hide Contents, Items, Counted, ColdOk, RawOk, From, Ascending;
    if From(Contents(c, s.buf), from) == Items(s.log[from - 1..]) {
      forall n: nat | from <= n <= s.buf.last ensures Retained(c, s, n) {
        LogTail(s.log, from, n);
        FromHas(Contents(c, s.buf), from, n);
      }
    }
    if forall n: nat :: from <= n <= s.buf.last ==> Retained(c, s, n) {
      KeptIsServed(c, s, from);
    }
  }

  /** The client is sent exactly from..seq. */
  ghost predicate Served(c: Codec, s: Sys, from: nat)
    requires Inv(c, s) && 1 < from <= s.buf.last + 1
  {
    From(Contents(c, s.buf), from) == Items(s.log[from - 1..])
  }

  /** On any buffer, a dropped-output notice means that output was dropped. */
  lemma NoticeIsTrue(c: Codec, s: Sys, from: nat)
    requires Inv(c, s) && 1 < from <= s.buf.last + 1 && DroppedNotice(s.buf, from)
    ensures !Served(c, s, from)
  {
    hide Items, Contents, Ascending, Counted, ColdOk, RawOk;
    OldestIsFirst(c, s);
    ServedExactlyIffKept(c, s, from);
    VisibleFacts(c, s, from);
    assert Logged(s.log, Visible(c, s.buf, from)[0]);
    if Retained(c, s, from) {
      NothingBeforeFirst(Contents(c, s.buf), from);
    }
  }

  lemma SilenceIsTrue(c: Codec, s: Sys, from: nat)
    requires Inv(c, s) && GaplessSuffix(c, s) && Contents(c, s.buf) != []
    requires 1 < from <= s.buf.last + 1 && !DroppedNotice(s.buf, from)
    ensures Served(c, s, from)
  {
    hide Items, Contents, Ascending, Counted, ColdOk, RawOk;
    var oldest := Contents(c, s.buf)[0].offset;
    OldestIsFirst(c, s);
    ServedExactlyIffKept(c, s, from);
    assert Retained(c, s, oldest);
    forall n: nat | from <= n <= s.buf.last ensures Retained(c, s, n) { }
  }

  /** When everything has aged out, a client that is behind gets neither output nor a notice. */
  lemma EmptyBufferIsSilent(c: Codec, s: Sys, from: nat)
    requires Inv(c, s) && Contents(c, s.buf) == [] && 1 < from <= s.buf.last + 1
    ensures !DroppedNotice(s.buf, from)
    ensures From(Contents(c, s.buf), from) == []
    ensures Served(c, s, from) <==> from == s.buf.last + 1
  {
    hide Ascending, Counted, ColdOk, RawOk;
    OldestIsFirst(c, s);
    assert |Items(s.log[from - 1..])| == s.buf.last + 1 - from;
  }

  /**
   On a gapless, quiescent buffer the dropped-output notice is sent exactly
   when the client is not sent from..seq, if and only if the buffer is not
   empty or there is nothing to send.
   */
  lemma NoticeIsExact(c: Codec, s: Sys, from: nat)
    requires Inv(c, s) && GaplessSuffix(c, s) && 1 < from <= s.buf.last + 1
    ensures (DroppedNotice(s.buf, from) <==> !Served(c, s, from))
            <==> Contents(c, s.buf) != [] || from == s.buf.last + 1
  {
    hide Served, Contents, Inv, DroppedNotice, GaplessSuffix;
    if Contents(c, s.buf) == [] {
      EmptyBufferIsSilent(c, s, from);
    } else if DroppedNotice(s.buf, from) {
      NoticeIsTrue(c, s, from);
    } else {
      SilenceIsTrue(c, s, from);
    }
  }

  lemma NothingBeforeFirst(fs: seq<Frame>, n: nat)
    requires Ascending(fs) && fs != [] && Has(fs, n)
    ensures fs[0].offset <= n
  {
  }
}
