/**
 One client connection: registration, the resync loop and the live fan-out of
 the PTY reader write to the same output stream in any interleaving
 (qtransport/server.go), while the session's buffer keeps changing; the client
 drops offsets it already has (qtransport/client.go, pumpOutput).
 */
module Wire {
  import opened Bytes
  import opened Frames
  import opened ColdBuffer
  import opened OutputBuffer
  import opened BufferRuns
  import opened Conservation
  import opened Resync

  /** Where handleConn is: not in the client table yet, draining batches, or past the resync. */
  datatype Phase = Unregistered | Resyncing(queue: seq<Frame>, next: nat) | Done(upto: nat)

  /** Where the PTY reader is with its newest chunk: SendOutput looks the client up, then writes. */
  datatype LiveSend = Idle | Lookup(frame: Frame, fan: bool) | Writing(frame: Frame)

  /**
   `from` is the offset requested in Hello. `resent` and `liveSent` are the
   frames written by the resync and by the live path, `wire` is both in stream
   order. `gone` collects the offsets a fetch asked for that the buffer no longer
   held, `withheld` those it held in the cold tier and kept from a fresh client,
   `fanned` the offsets whose fan-out list named this client.
   */
  datatype World = World(
    sys: Sys, from: nat, phase: Phase, live: LiveSend,
    resent: seq<Frame>, liveSent: seq<Frame>, wire: seq<Frame>,
    fanned: set<nat>, gone: set<nat>, withheld: set<nat>, fetches: nat)

  datatype Act =
    | Buffering(e: Event)
    | Output(data: seq<byte>, time: int, now: int, fan: bool)
    | LookupClient
    | WriteLive
    | Register
    | Fetch
    | WriteQueued

  /** A connection to a session in any reachable state, restored ones included. */
  ghost function Start(sys: Sys, from: nat): World {
    World(sys, from, Unregistered, Idle, [], [], [], {}, {}, {}, 0)
  }

  /** Offsets at or after `next` that the buffer no longer holds. */
  ghost function Evicted(c: Codec, b: Buffer, next: nat): set<nat> {
    set n: nat | next <= n <= b.last && !Has(Contents(c, b), n)
  }

  /** Offsets at or after `next` that the buffer holds but does not serve at `next`. */
  ghost function Unserved(c: Codec, b: Buffer, next: nat): set<nat> {
    set n: nat | next <= n <= b.last && Has(Contents(c, b), n) && !Has(Visible(c, b, next), n)
  }

  ghost function Next(c: Codec, w: World, a: Act): World
    requires Inv(c, w.sys)
  {
    match a
    case Buffering(e) => if e.Append? then w else w.(sys := Step(c, w.sys, e))
    case Output(data, time, now, fan) =>
      if w.live != Idle || data == [] then w
      else
        var n := w.sys.buf.last + 1;
        w.(sys := Step(c, w.sys, Append(data, time, now)), live := Lookup(Frame(n, data), fan),
        fanned := if fan then w.fanned + {n} else w.fanned)
    case LookupClient =>
      if !w.live.Lookup? then w
      else w.(live := if w.live.fan && w.phase != Unregistered then Writing(w.live.frame) else Idle)
    case WriteLive =>
      if !w.live.Writing? then w
      else w.(live := Idle, liveSent := w.liveSent + [w.live.frame], wire := w.wire + [w.live.frame])
    case Register => if w.phase == Unregistered then w.(phase := Resyncing([], w.from)) else w
    case Fetch =>
      if !(w.phase.Resyncing? && w.phase.queue == []) then w
      else
        var next := w.phase.next;
        var out := ResyncBatch(c, w.sys.buf, next);
        var w' := w.(gone := w.gone + Evicted(c, w.sys.buf, next), withheld := w.withheld + Unserved(c, w.sys.buf, next));
        if out == [] then w'.(phase := Done(w.sys.buf.last))
        else w'.(phase := Resyncing(out, next), fetches := w.fetches + 1)
    case WriteQueued =>
      if !(w.phase.Resyncing? && w.phase.queue != []) then w
      else
        var f := w.phase.queue[0];
        w.(phase := Resyncing(w.phase.queue[1..], f.offset + 1),
        resent := w.resent + [f], wire := w.wire + [f])
  }

  // The invariant.

  /** Everything the resync has taken out of the buffer, written or not. */
  ghost function Fetched(w: World): seq<Frame> {
    w.resent + if w.phase.Resyncing? then w.phase.queue else []
  }

  /** The offset after the last one the resync has taken out. */
  ghost function Frontier(w: World): nat {
    match w.phase
    case Unregistered => w.from
    case Resyncing(q, next) => if q == [] then next else q[|q| - 1].offset + 1
    case Done(upto) => if upto + 1 > w.from then upto + 1 else w.from
  }

  ghost predicate Within(fs: seq<Frame>, lo: nat, hi: nat) {
    forall i :: 0 <= i < |fs| ==> lo <= fs[i].offset < hi
  }

  ghost predicate ResyncOk(w: World) {
    && 1 <= w.from <= Frontier(w)
    && (Frontier(w) <= w.sys.buf.last + 1 || Frontier(w) == w.from)
    && (w.phase == Unregistered ==> w.resent == [])
    && (w.phase.Done? ==> w.phase.upto <= w.sys.buf.last)
    && Ascending(Fetched(w)) && AllLogged(w.sys.log, Fetched(w))
    && Within(Fetched(w), w.from, Frontier(w))
    && w.fetches <= Frontier(w) - w.from
  }

  /** Below the frontier, every offset was taken out of the buffer, was gone from it, or was withheld. */
  ghost predicate Covered(w: World) {
    forall n: nat :: w.from <= n < Frontier(w) ==> Has(Fetched(w), n) || n in w.gone || n in w.withheld
  }

  /** What was gone stays gone. */
  ghost predicate GoneOk(c: Codec, w: World) {
    forall n: nat :: n in w.gone ==> n <= w.sys.buf.last && !Retained(c, w.sys, n)
  }

  /** Only a fresh client is refused the cold tier, and only below everything it is sent. */
  ghost predicate WithheldOk(w: World) {
    && (w.from > 1 ==> w.withheld == {})
    && forall n: nat :: n in w.withheld ==> w.from <= n < Frontier(w) && BelowAll(n, Fetched(w))
  }

  ghost predicate BelowAll(n: nat, fs: seq<Frame>) {
    forall i :: 0 <= i < |fs| ==> n < fs[i].offset
  }

  ghost predicate LiveOk(w: World) {
    && Ascending(w.liveSent) && AllLogged(w.sys.log, w.liveSent)
    && Within(w.liveSent, 1, if w.live == Idle then w.sys.buf.last + 1 else w.sys.buf.last)
    && (w.live != Idle ==> w.live.frame.offset == w.sys.buf.last && Logged(w.sys.log, w.live.frame))
  }

  /** After the resync, a fanned-out offset is on the wire or in the PTY reader's hands. */
  ghost predicate LiveCovers(w: World) {
    && (forall n: nat :: n in w.fanned ==> 1 <= n <= w.sys.buf.last)
    && (w.phase.Done? ==> forall n: nat :: n in w.fanned && n > w.phase.upto ==> Has(w.liveSent, n) || Carries(w, n))
  }

  ghost predicate Carries(w: World, n: nat) {
    w.live != Idle && w.live.frame.offset == n && (w.live.Lookup? ==> w.live.fan)
  }

  ghost predicate WireOk(w: World) {
    && AllLogged(w.sys.log, w.wire)
    && forall n: nat :: Has(w.wire, n) <==> Has(w.resent, n) || Has(w.liveSent, n)
  }

  /** Only a resent frame can come after a frame with a larger offset: a live frame is the newest when it is written. */
  ghost predicate LiveInOrder(w: World) {
    forall i, j :: 0 <= i < j < |w.wire| && w.wire[j].offset < w.wire[i].offset ==> Has(w.resent, w.wire[j].offset)
  }

  ghost predicate WInv(c: Codec, w: World) {
    && Inv(c, w.sys)
    && ResyncOk(w) && Covered(w)
    && GoneOk(c, w) && WithheldOk(w)
    && LiveOk(w) && LiveCovers(w)
    && WireOk(w) && LiveInOrder(w)
  }

  // Preservation, action by action.

  lemma LogGrowsOnly(c: Codec, s: Sys, e: Event)
    requires Invertible(c) && Inv(c, s) && EventOk(e) && s.buf.last + 1 < MAX_OFFSET
    ensures var s' := Step(c, s, e);
            && Inv(c, s') && s.buf.last <= s'.buf.last
            && (!e.Append? ==> s'.buf.last == s.buf.last)
            && (e.Append? && e.data != [] ==> s'.buf.last == s.buf.last + 1 && Logged(s'.log, Frame(s'.buf.last, e.data)))
            && (forall f :: Logged(s.log, f) ==> Logged(s'.log, f))
            && (forall n: nat :: n <= s.buf.last && Retained(c, s', n) ==> Retained(c, s, n))
  {
    StepKeepsInv(c, s, e);
    StepLast(c, s, e);
    hide Step, Contents, Ascending, ColdOk, RawOk, Counted;
  }

  lemma KeepLogged(log: seq<Chunk>, log': seq<Chunk>, fs: seq<Frame>)
    requires AllLogged(log, fs) && forall f :: Logged(log, f) ==> Logged(log', f)
    ensures AllLogged(log', fs)
  {
  }

  lemma BufferingStep(c: Codec, w: World, e: Event)
    requires Invertible(c) && WInv(c, w) && EventOk(e) && w.sys.buf.last + 1 < MAX_OFFSET
    ensures WInv(c, Next(c, w, Buffering(e)))
  {
    hide Contents, Counted, RawOk, ColdOk, LogOk, Ascending, Within, Has, Logged, Step, AllLogged, Retained, BelowAll;
    LogGrowsOnly(c, w.sys, e);
    var w' := Next(c, w, Buffering(e));
    var log, log' := w.sys.log, Step(c, w.sys, e).log;
    KeepLogged(log, log', Fetched(w));
    KeepLogged(log, log', w.liveSent);
    KeepLogged(log, log', w.wire);
    if w' != w {
      assert Fetched(w') == Fetched(w) && Frontier(w') == Frontier(w);
      assert ResyncOk(w');
      assert Covered(w');
      assert GoneOk(c, w');
      assert WithheldOk(w');
      assert LiveOk(w');
      assert LiveCovers(w');
      assert WireOk(w');
    }
  }

  lemma OutputStep(c: Codec, w: World, a: Act)
    requires Invertible(c) && WInv(c, w) && a.Output? && |a.data| <= MAX_FRAME && w.sys.buf.last + 1 < MAX_OFFSET
    ensures WInv(c, Next(c, w, a))
  {
    hide Contents, Counted, RawOk, ColdOk, LogOk, Ascending, Has, Logged, Step, AllLogged, Retained, BelowAll;
    var w' := Next(c, w, a);
    var e := Append(a.data, a.time, a.now);
    LogGrowsOnly(c, w.sys, e);
    var log, log' := w.sys.log, Step(c, w.sys, e).log;
    KeepLogged(log, log', Fetched(w));
    KeepLogged(log, log', w.liveSent);
    KeepLogged(log, log', w.wire);
    if w' != w {
      assert Fetched(w') == Fetched(w) && Frontier(w') == Frontier(w);
      assert ResyncOk(w');
      assert Covered(w');
      assert GoneOk(c, w');
      assert WithheldOk(w');
      assert LiveOk(w');
      assert LiveCovers(w');
      assert WireOk(w');
    }
  }

  lemma SnocFacts(log: seq<Chunk>, fs: seq<Frame>, f: Frame)
    requires AllLogged(log, fs) && Logged(log, f)
    ensures AllLogged(log, fs + [f])
    ensures forall n: nat :: Has(fs + [f], n) <==> Has(fs, n) || n == f.offset
  {
    forall n: nat ensures Has(fs + [f], n) <==> Has(fs, n) || n == f.offset {
      HasConcat(fs, [f], n);
      assert [f][0].offset == f.offset;
    }
  }

  lemma LookupStep(c: Codec, w: World)
    requires WInv(c, w)
    ensures WInv(c, Next(c, w, LookupClient))
  {
    hide Inv, Has, Logged, AllLogged, Ascending;
    var w' := Next(c, w, LookupClient);
    assert Fetched(w') == Fetched(w) && Frontier(w') == Frontier(w);
    assert LiveOk(w');
    assert LiveCovers(w');
  }

  lemma WriteLiveStep(c: Codec, w: World)
    requires WInv(c, w)
    ensures WInv(c, Next(c, w, WriteLive))
  {
    hide Inv, Has, Logged, AllLogged, LiveInOrder;
    if w.live.Writing? {
      var w' := Next(c, w, WriteLive);
      LoggedBound(c, w.sys, w.live.frame);
      SnocFacts(w.sys.log, w.liveSent, w.live.frame);
      SnocFacts(w.sys.log, w.wire, w.live.frame);
      assert Fetched(w') == Fetched(w) && Frontier(w') == Frontier(w);
      assert ResyncOk(w');
      assert Covered(w');
      assert GoneOk(c, w');
      assert WithheldOk(w');
      assert LiveOk(w');
      assert LiveCovers(w');
      assert WireOk(w');
      LiveOrderKept(c, w);
    }
  }

  lemma WriteQueuedStep(c: Codec, w: World)
    requires WInv(c, w)
    ensures WInv(c, Next(c, w, WriteQueued))
  {
    hide Inv, Has, Logged, AllLogged, LiveInOrder;
    if w.phase.Resyncing? && w.phase.queue != [] {
      var q := w.phase.queue;
      var w' := Next(c, w, WriteQueued);
      assert w.resent + q == (w.resent + [q[0]]) + q[1..];
      assert Fetched(w') == Fetched(w);
      assert q[0] == Fetched(w)[|w.resent|];
      FirstIsLogged(w.sys.log, w.resent, q);
      SnocFacts(w.sys.log, w.resent, q[0]);
      SnocFacts(w.sys.log, w.wire, q[0]);
      assert ResyncOk(w');
      assert Covered(w');
      assert GoneOk(c, w');
      assert WithheldOk(w');
      assert LiveOk(w');
      assert LiveCovers(w');
      assert WireOk(w');
      QueuedOrderKept(c, w);
    }
  }

  lemma LiveOrderKept(c: Codec, w: World)
    requires WInv(c, w) && w.live.Writing?
    ensures LiveInOrder(Next(c, w, WriteLive))
  {
    hide Has, ResyncOk, Covered, GoneOk, WithheldOk, LiveCovers, Inv;
    forall i | 0 <= i < |w.wire| ensures w.wire[i].offset <= w.live.frame.offset {
      assert w.wire[i] in w.wire;
      assert Logged(w.sys.log, w.wire[i]);
      LoggedBound(c, w.sys, w.wire[i]);
    }
  }

  lemma QueuedOrderKept(c: Codec, w: World)
    requires WInv(c, w) && w.phase.Resyncing? && w.phase.queue != []
    ensures LiveInOrder(Next(c, w, WriteQueued))
  {
    hide Has, Inv, ResyncOk, Covered, GoneOk, WithheldOk, LiveCovers, LiveOk, WireOk;
    var f, w' := w.phase.queue[0], Next(c, w, WriteQueued);
    forall n: nat ensures Has(w'.resent, n) <==> Has(w.resent, n) || n == f.offset {
      HasConcat(w.resent, [f], n);
      HasOne(f, n);
    }
  }

  lemma FirstIsLogged(log: seq<Chunk>, a: seq<Frame>, q: seq<Frame>)
    requires AllLogged(log, a + q) && q != []
    ensures Logged(log, q[0]) && AllLogged(log, a)
  {
    assert q[0] in a + q;
  }

  /** One fetch: what it does not return is gone or withheld, and the latter lies below what it returns. */
  lemma FetchSplit(c: Codec, s: Sys, next: nat)
    requires Inv(c, s)
    ensures var out := ResyncBatch(c, s.buf, next);
            && (forall n: nat :: next <= n <= s.buf.last && !Has(Visible(c, s.buf, next), n) ==>
                                   n in Evicted(c, s.buf, next) || n in Unserved(c, s.buf, next))
            && (next > 1 ==> Unserved(c, s.buf, next) == {})
            && (forall n: nat :: n in Unserved(c, s.buf, next) ==> BelowAll(n, out))
            && (forall n: nat :: n in Evicted(c, s.buf, next) ==> n <= s.buf.last && !Retained(c, s, n))
  {
    var cold, raw, out := ColdFrames(c, s.buf.segments), Items(s.buf.pending + s.buf.hot), ResyncBatch(c, s.buf, next);
    BatchIsPrefix(c, s, next);
    hide ColdFrames, Items, Has, ResyncBatch, From, ColdOk, RawOk, LogOk, Counted;
    forall n: nat | n in Unserved(c, s.buf, next) ensures BelowAll(n, out) {
      HasConcat(cold, raw, n);
      forall i | 0 <= i < |out| ensures n < out[i].offset {
        FromMember(raw, next, From(raw, next)[i]);
        MemberHas(raw, out[i]);
        FrontComesFirst(cold, raw);
      }
    }
  }

  /** A fetch withholds exactly the cold tier, and only when the client asks from the beginning. */
  lemma WithholdsColdFromFresh(c: Codec, s: Sys, next: nat, n: nat)
    requires Inv(c, s)
    ensures n in Unserved(c, s.buf, next) <==> next <= 1 && next <= n && Has(ColdFrames(c, s.buf.segments), n)
  {
    var cold, raw := ColdFrames(c, s.buf.segments), Items(s.buf.pending + s.buf.hot);
    hide ColdFrames, Items, ColdOk, RawOk, Counted, Has;
    HasConcat(cold, raw, n);
    FrontComesFirst(cold, raw);
    if Has(cold, n) {
      RetainedIsLogged(c, s, n);
    }
  }

  lemma MemberHas(fs: seq<Frame>, f: Frame)
    requires f in fs
    ensures Has(fs, f.offset)
  {
  }

  lemma FetchCovers(c: Codec, w: World)
    requires WInv(c, w) && w.phase.Resyncing? && w.phase.queue == []
    ensures var w' := Next(c, w, Fetch); ResyncOk(w') && Covered(w')
  {
    hide Inv, Logged, ResyncBatch, Visible, Has, Contents, Evicted, Unserved, BelowAll;
    var next, b := w.phase.next, w.sys.buf;
    var out := ResyncBatch(c, b, next);
    FetchFacts(c, w.sys, next);
    FetchSplit(c, w.sys, next);
    assert w.resent + [] == w.resent;
    if out != [] {
      assert Logged(w.sys.log, out[|out| - 1]);
      LoggedBound(c, w.sys, out[|out| - 1]);
      forall n: nat ensures Has(w.resent + out, n) <==> Has(w.resent, n) || Has(out, n) {
        HasConcat(w.resent, out, n);
      }
    }
  }

  lemma SomeWithin(fs: seq<Frame>, lo: nat, hi: nat)
    requires Within(fs, lo, hi) && fs != []
    ensures lo < hi
  {
    assert lo <= fs[0].offset < hi;
  }

  lemma FetchWithholds(c: Codec, w: World)
    requires WInv(c, w) && w.phase.Resyncing? && w.phase.queue == []
    ensures var w' := Next(c, w, Fetch); GoneOk(c, w') && WithheldOk(w')
  {
    hide Inv, Logged, ResyncBatch, Visible, Has, Contents, Ascending, AllLogged, Retained, Covered, LiveOk, LiveCovers, WireOk;
    var next, b := w.phase.next, w.sys.buf;
    var out := ResyncBatch(c, b, next);
    FetchFacts(c, w.sys, next);
    FetchSplit(c, w.sys, next);
    hide Evicted;
    assert w.resent + [] == w.resent;
    var w' := Next(c, w, Fetch);
    forall n: nat | n in w'.withheld ensures w.from <= n < Frontier(w') && BelowAll(n, Fetched(w')) {
      if n in w.withheld {
        assert BelowAll(n, w.resent);
        assert BelowAll(n, out);
      } else {
        assert BelowAll(n, out);
        assert next <= 1;
        if w.resent != [] {
          SomeWithin(Fetched(w), w.from, Frontier(w));
        }
      }
    }
  }

  lemma FetchStep(c: Codec, w: World)
    requires WInv(c, w)
    ensures WInv(c, Next(c, w, Fetch))
  {
    hide Inv, ResyncOk, Covered, GoneOk, WithheldOk, LiveOk, LiveCovers, WireOk, ResyncBatch, Evicted, Unserved;
    if w.phase.Resyncing? && w.phase.queue == [] {
      FetchCovers(c, w);
      FetchWithholds(c, w);
      FetchKeepsLive(c, w);
    }
  }

  lemma FetchKeepsLive(c: Codec, w: World)
    requires WInv(c, w) && w.phase.Resyncing? && w.phase.queue == []
    ensures var w' := Next(c, w, Fetch); LiveOk(w') && LiveCovers(w') && WireOk(w') && w'.sys == w.sys
  {
    hide Inv, ResyncOk, Covered, GoneOk, WithheldOk, ResyncBatch, Evicted, Unserved, Has, Ascending, AllLogged, Within;
  }

  lemma LoggedBound(c: Codec, s: Sys, f: Frame)
    requires Inv(c, s) && Logged(s.log, f)
    ensures 1 <= f.offset <= s.buf.last
  {
  }

  ghost predicate ActOk(a: Act) {
    && (a.Output? ==> |a.data| <= MAX_FRAME)
    && (a.Buffering? ==> EventOk(a.e))
  }

  lemma NextKeepsInv(c: Codec, w: World, a: Act)
    requires Invertible(c) && WInv(c, w) && ActOk(a) && w.sys.buf.last + 1 < MAX_OFFSET
    ensures WInv(c, Next(c, w, a))
    ensures Next(c, w, a).sys.buf.last <= w.sys.buf.last + 1
    ensures Next(c, w, a).from == w.from
  {
    hide Inv, Step, ResyncBatch, Evicted, Unserved, AllLogged, Has, Ascending, Logged, Within, Retained, BelowAll;
    match a
    case Buffering(e) => BufferingStep(c, w, e); SysLast(c, w.sys, e);
    case Output(data, time, now, fan) => OutputStep(c, w, a); SysLast(c, w.sys, Append(data, time, now));
    case LookupClient => LookupStep(c, w);
    case WriteLive => WriteLiveStep(c, w);
    case Register =>
      if w.phase == Unregistered {
        assert w.resent + [] == w.resent;
      }
    case Fetch => FetchStep(c, w);
    case WriteQueued => WriteQueuedStep(c, w);
  }

  lemma SysLast(c: Codec, s: Sys, e: Event)
    requires Invertible(c) && Inv(c, s) && EventOk(e) && s.buf.last + 1 < MAX_OFFSET
    ensures Step(c, s, e).buf.last <= s.buf.last + 1
  {
    hide *;
    StepLast(c, s, e);
  }

  // Runs.

  /** Acts on a session in state sys, whose offsets do not wrap. */
  ghost predicate ActsOk(c: Codec, sys: Sys, from: nat, acts: seq<Act>) {
    && Invertible(c) && Inv(c, sys) && from >= 1
    && sys.buf.last + |acts| < MAX_OFFSET && forall i :: 0 <= i < |acts| ==> ActOk(acts[i])
  }

  lemma StartOk(c: Codec, sys: Sys, from: nat)
    requires Inv(c, sys) && from >= 1
    ensures WInv(c, Start(sys, from))
  {
    NothingLogged(sys.log);
    hide Inv, Retained, Ascending, AllLogged, Logged, Has;
    var w := Start(sys, from);
    StartResync(w, sys, from);
    StartLive(c, w, sys, from);
    hide ResyncOk, Covered, GoneOk, WithheldOk, LiveOk, LiveCovers, WireOk, LiveInOrder, Start;
  }

  lemma StartResync(w: World, sys: Sys, from: nat)
    requires w == Start(sys, from) && from >= 1 && Ascending([]) && AllLogged(sys.log, [])
    ensures ResyncOk(w) && Covered(w) && WithheldOk(w)
  {
    hide Ascending, AllLogged, Has;
    assert Fetched(w) == [] && Frontier(w) == from;
  }

  lemma StartLive(c: Codec, w: World, sys: Sys, from: nat)
    requires w == Start(sys, from) && Ascending([]) && AllLogged(sys.log, []) && forall n: nat :: !Has([], n)
    ensures GoneOk(c, w) && LiveOk(w) && LiveCovers(w) && WireOk(w) && LiveInOrder(w) && w.sys == sys
  {
    hide Ascending, AllLogged, Has, Retained;
  }

  lemma NothingLogged(log: seq<Chunk>)
    ensures Ascending([]) && AllLogged(log, []) && forall n: nat :: !Has([], n)
  {
  }

  ghost function Play(c: Codec, sys: Sys, from: nat, acts: seq<Act>): (w: World)
    requires ActsOk(c, sys, from, acts)
    ensures WInv(c, w) && w.sys.buf.last <= sys.buf.last + |acts| && w.from == from
  {
    if acts == [] then
      StartOk(c, sys, from);
      Start(sys, from)
    else
      var w := Play(c, sys, from, acts[..|acts| - 1]);
      NextKeepsInv(c, w, acts[|acts| - 1]);
      Next(c, w, acts[|acts| - 1])
  }

  /**
   Wire coverage. In every interleaving of output, registration, resync and
   live sends, once the resync is over and no live send is under way, every
   offset fanned out to the client from the requested one on is on the wire,
   unless a fetch found it evicted or withheld it from a fresh client. So a
   client that asks for more than offset 1 gets everything the buffer holds.
   Every frame carries the bytes appended under its offset.
   */
  lemma WireCoverage(c: Codec, sys: Sys, from: nat, acts: seq<Act>, n: nat)
    requires ActsOk(c, sys, from, acts)
    requires var w := Play(c, sys, from, acts); w.phase.Done? && w.live == Idle && n in w.fanned && n >= from
    ensures var w := Play(c, sys, from, acts);
            && (Has(w.wire, n) || n in w.gone || n in w.withheld)
            && (n in w.gone ==> !Retained(c, w.sys, n))
            && (from > 1 && Retained(c, w.sys, n) ==> Has(w.wire, n))
            && AllLogged(w.sys.log, w.wire)
  {
    hide Inv, LiveInOrder, Has, AllLogged, Play, Retained;
    var w := Play(c, sys, from, acts);
    assert w.resent + [] == w.resent == Fetched(w);
  }

  /** A chunk is withheld only from a client that asks from offset 1, and only below all it is resent. */
  lemma WithheldIsOlder(c: Codec, sys: Sys, from: nat, acts: seq<Act>, n: nat, i: nat)
    requires ActsOk(c, sys, from, acts) && n in Play(c, sys, from, acts).withheld
    ensures from == 1
    ensures i < |Play(c, sys, from, acts).resent| ==> n < Play(c, sys, from, acts).resent[i].offset
  {
    hide Inv, LiveInOrder, Play;
    var w := Play(c, sys, from, acts);
    assert i < |w.resent| ==> w.resent[i] == Fetched(w)[i];
  }

  /** The number of non-empty fetches never exceeds the number of offsets appended from the request on. */
  lemma ResyncTerminates(c: Codec, sys: Sys, from: nat, acts: seq<Act>)
    requires ActsOk(c, sys, from, acts)
    ensures var w := Play(c, sys, from, acts);
            w.fetches <= if w.sys.buf.last + 1 >= from then w.sys.buf.last + 1 - from else 0
  {
    hide Inv, LiveInOrder, Has, AllLogged, Play;
  }

  /**
   What the resync writes is strictly ordered, and from its first frame on it
   skips an offset only if that was evicted; below its first frame also if it
   was withheld from a fresh client.
   */
  lemma ResyncSkipsOnlyEvicted(c: Codec, sys: Sys, from: nat, acts: seq<Act>, i: nat, n: nat)
    requires ActsOk(c, sys, from, acts)
    requires i < |Play(c, sys, from, acts).resent| && from <= n <= Play(c, sys, from, acts).resent[i].offset
    ensures var w := Play(c, sys, from, acts);
            && Ascending(w.resent)
            && (Has(w.resent[..i + 1], n) || n in w.gone || (from == 1 && n in w.withheld && n < w.resent[0].offset))
            && (n in w.gone ==> !Retained(c, w.sys, n))
  {
    hide Inv, LiveInOrder, AllLogged, Play, Retained;
    var w := Play(c, sys, from, acts);
    var all := Fetched(w);
    assert forall j :: 0 <= j < |w.resent| ==> w.resent[j] == all[j];
    assert n < Frontier(w);
    if n !in w.gone && n !in w.withheld {
      var j :| 0 <= j < |all| && all[j].offset == n;
      assert j <= i;
      assert w.resent[..i + 1][j].offset == n;
    }
  }

  // The client.

  /** What pumpOutput hands on: frames beyond everything handed on before. */
  function Pump(last: nat, wire: seq<Frame>): seq<Frame> {
    if wire == [] then []
    else
      var d, f := Pump(last, wire[..|wire| - 1]), wire[|wire| - 1];
      if f.offset <= PumpEnd(last, d) then d else d + [f]
  }

  function PumpEnd(last: nat, delivered: seq<Frame>): nat {
    if delivered == [] then last else delivered[|delivered| - 1].offset
  }

  class QuicClient {
    var lastOffset: nat

    /** pumpOutput over one connection's output stream, until its end or first bad frame. */
    method PumpOutput(stream: seq<byte>) returns (out: seq<Frame>)
      modifies this
      ensures out == Pump(old(lastOffset), DecodeAll(stream).frames)
      ensures lastOffset == PumpEnd(old(lastOffset), out)
    {
      out := [];
      ghost var all := DecodeAll(stream).frames;
      ghost var start := lastOffset;
      var rest := stream;
      var step := ReadFrame(rest);
      ghost var k := 0;
      while step.Read?
        invariant step == ReadFrame(rest) && 0 <= k <= |all| && DecodeAll(rest).frames == all[k..]
        invariant out == Pump(start, all[..k]) && lastOffset == PumpEnd(start, out)
        decreases |rest|
      {
        FramesAdvance(all, k, step.frame, DecodeAll(step.rest).frames, rest);
        hide ReadFrame, DecodeAll;
        assert all[..k + 1][..k] == all[..k];
        if step.frame.offset > lastOffset {
          lastOffset := step.frame.offset;
          out := out + [step.frame];
        }
        rest := step.rest;
        step := ReadFrame(rest);
        k := k + 1;
      }
      assert all[..k] == all;
    }
  }

  lemma FramesAdvance(all: seq<Frame>, k: nat, f: Frame, tail: seq<Frame>, rest: seq<byte>)
    requires k <= |all| && DecodeAll(rest).frames == all[k..]
    requires ReadFrame(rest).Read? && f == ReadFrame(rest).frame && tail == DecodeAll(ReadFrame(rest).rest).frames
    ensures k < |all| && all[k] == f && all[k + 1..] == tail
  {
    assert DecodeAll(rest).frames == [f] + tail;
    hide ReadFrame, DecodeAll;
    assert |all[k..]| == |tail| + 1;
    assert all[k..][0] == f;
    assert all[k..][1..] == tail;
  }

  /** Delivery is strictly increasing from the client's last offset, and delivers only what was on the wire. */
  lemma {:induction false} PumpOrder(last: nat, wire: seq<Frame>)
    ensures InOrder(last, Pump(last, wire), wire)
  {
    if wire == [] {
    } else {
      var init, f := wire[..|wire| - 1], wire[|wire| - 1];
      var d := Pump(last, init);
      assert Pump(last, wire) == if f.offset <= PumpEnd(last, d) then d else d + [f];
      assert wire == init + [f];
      hide Pump, PumpEnd, InOrder;
      PumpOrder(last, init);
      PumpOneMore(last, init, d, f);
    }
  }

  /** d ascends from `last`, comes from the wire, and ends at the largest offset on it. */
  ghost predicate InOrder(last: nat, d: seq<Frame>, wire: seq<Frame>) {
    && Ascending(d) && last <= PumpEnd(last, d)
    && (forall i :: 0 <= i < |d| ==> last < d[i].offset <= PumpEnd(last, d) && d[i] in wire)
    && (forall i :: 0 <= i < |wire| ==> wire[i].offset <= PumpEnd(last, d))
  }

  /** d is what was handed on of `init`; one more frame follows. */
  lemma PumpOneMore(last: nat, init: seq<Frame>, d: seq<Frame>, f: Frame)
    requires InOrder(last, d, init)
    ensures InOrder(last, if f.offset <= PumpEnd(last, d) then d else d + [f], init + [f])
  {
    var wire := init + [f];
    assert f in wire && forall g :: g in init ==> g in wire;
    if f.offset > PumpEnd(last, d) {
      var all := d + [f];
      assert PumpEnd(last, all) == f.offset;
      assert forall i :: 0 <= i < |all| ==> all[i] == if i < |d| then d[i] else f;
    }
  }

  /** Every frame on the wire comes after all the offsets below it. */
  ghost predicate Settled(from: nat, wire: seq<Frame>) {
    forall i :: 0 <= i < |wire| ==> HasAll(wire[..i], from, wire[i].offset)
  }

  lemma SettledSnoc(from: nat, wire: seq<Frame>)
    requires wire != []
    ensures Settled(from, wire) <==>
            Settled(from, wire[..|wire| - 1]) && HasAll(wire[..|wire| - 1], from, wire[|wire| - 1].offset)
  {
    var init := wire[..|wire| - 1];
    hide HasAll;
    forall i | 0 <= i < |init|
      ensures HasAll(init[..i], from, init[i].offset) <==> HasAll(wire[..i], from, wire[i].offset)
    {
      assert init[..i] == wire[..i];
    }
  }

  lemma InSequenceHas(fs: seq<Frame>, wire: seq<Frame>, from: nat, n: nat)
    requires InSequence(fs, from) && (forall i :: 0 <= i < |fs| ==> fs[i] in wire) && from <= n < from + |fs|
    ensures Has(wire, n)
  {
    assert fs[n - from] in wire;
  }

  /** The client sees no gap exactly when no frame overtook a smaller offset on the wire. */
  lemma {:induction false} GapFreeIffSettled(from: nat, wire: seq<Frame>)
    requires from >= 1
    ensures InSequence(Pump(from - 1, wire), from) <==> Settled(from, wire)
  {
    if wire == [] {
    } else {
      var init, f := wire[..|wire| - 1], wire[|wire| - 1];
      GapFreeIffSettled(from, init);
      SettledSnoc(from, wire);
      PumpOrder(from - 1, init);
      var d := Pump(from - 1, init);
      var m := PumpEnd(from - 1, d);
      if InSequence(Pump(from - 1, wire), from) {
        assert forall i :: 0 <= i < |d| ==> d[i] == Pump(from - 1, wire)[i];
        assert m == from - 1 + |d|;
        if f.offset > m {
          assert Pump(from - 1, wire)[|d|] == f;
        }
        forall n: nat | from <= n < f.offset ensures Has(init, n) { InSequenceHas(d, init, from, n); }
      }
      if Settled(from, wire) {
        assert m == from - 1 + |d|;
        if f.offset > from {
          assert Has(init, f.offset - 1);
        }
      }
    }
  }

  // Live frames after the resync.

  /** The live frames follow the resync frames, and every chunk the resync did not see is fanned out to the client. */
  ghost predicate ResyncFirst(w: World) {
    && w.wire == w.resent + w.liveSent
    && (w.liveSent != [] ==> w.phase.Done?)
    && (w.phase.Done? ==> forall k: nat :: w.phase.upto < k <= w.sys.buf.last ==> k in w.fanned)
  }

  /** The resync could not give offset n to the client: it was evicted, or withheld from a fresh client. */
  ghost predicate Lost(w: World, n: nat) { n in w.gone || n in w.withheld }

  lemma HasBefore(fs: seq<Frame>, i: nat, n: nat)
    requires Ascending(fs) && i < |fs| && n < fs[i].offset && Has(fs, n)
    ensures Has(fs[..i], n)
  {
    var j :| 0 <= j < |fs| && fs[j].offset == n;
    assert j < i;
    assert fs[..i][j].offset == n;
  }

  /** The resync took out everything up to its frontier that was not lost, and the live path sent the rest. */
  lemma NothingMissing(c: Codec, w: World, n: nat)
    requires WInv(c, w) && ResyncFirst(w) && n >= w.from && !Lost(w, n)
    ensures n < Frontier(w) ==> Has(Fetched(w), n)
    ensures w.phase.Done? && Frontier(w) <= n <= w.sys.buf.last ==>
              Has(w.liveSent, n) || (w.live != Idle && n == w.sys.buf.last)
  {
    hide Inv, Has, AllLogged, Ascending, Retained, LiveInOrder;
  }

  /** A frame on the wire comes after every smaller offset that was not lost. */
  lemma SmallerComesFirst(c: Codec, w: World, i: nat, n: nat)
    requires WInv(c, w) && ResyncFirst(w)
    requires i < |w.wire| && w.from <= n < w.wire[i].offset && !Lost(w, n)
    ensures Has(w.wire[..i], n)
  {
    hide Inv, Has, AllLogged, Ascending, Covered, GoneOk, WithheldOk, LiveInOrder, LiveCovers;
    if i < |w.resent| {
      SmallerResent(c, w, i, n);
    } else {
      SmallerLive(c, w, i, n);
    }
  }

  lemma SmallerResent(c: Codec, w: World, i: nat, n: nat)
    requires WInv(c, w) && ResyncFirst(w)
    requires i < |w.resent| && w.from <= n < w.wire[i].offset && !Lost(w, n)
    ensures Has(w.wire[..i], n)
  {
    hide Inv, Has, AllLogged, Ascending, Covered, GoneOk, WithheldOk, LiveInOrder, LiveOk, LiveCovers, WireOk, Lost;
    var all := Fetched(w);
    assert all[i] == w.resent[i] == w.wire[i];
    assert w.wire[..i] == all[..i];
    NothingMissing(c, w, n);
    HasBefore(all, i, n);
  }

  lemma SmallerLive(c: Codec, w: World, i: nat, n: nat)
    requires WInv(c, w) && ResyncFirst(w)
    requires |w.resent| <= i < |w.wire| && w.from <= n < w.wire[i].offset && !Lost(w, n)
    ensures Has(w.wire[..i], n)
  {
    LiveBound(c, w, i);
    NothingMissing(c, w, n);
    hide Inv, Has, AllLogged, Ascending, Covered, GoneOk, WithheldOk, LiveInOrder, LiveCovers, WireOk, Lost, ResyncOk;
    var r := |w.resent|;
    assert w.resent + [] == w.resent == Fetched(w);
    assert w.wire[i] == w.liveSent[i - r];
    assert w.wire[..i] == w.resent + w.liveSent[..i - r];
    HasConcat(w.resent, w.liveSent[..i - r], n);
    if n >= Frontier(w) {
      HasBefore(w.liveSent, i - r, n);
    }
  }

  /** While the PTY reader has a chunk in hand, nothing on the wire is newer. */
  lemma LiveBound(c: Codec, w: World, i: nat)
    requires WInv(c, w) && i < |w.wire|
    ensures w.wire[i].offset <= w.sys.buf.last
  {
    hide Inv, Covered, GoneOk, WithheldOk, LiveInOrder, LiveOk, LiveCovers, ResyncOk, Has;
    assert w.wire[i] in w.wire;
    assert Logged(w.sys.log, w.wire[i]);
    LoggedBound(c, w.sys, w.wire[i]);
  }

  lemma {:induction false} FirstIndex(fs: seq<Frame>, n: nat) returns (j: nat)
    requires Has(fs, n)
    ensures j < |fs| && fs[j].offset == n && !Has(fs[..j], n)
  {
    var init := fs[..|fs| - 1];
    if Has(init, n) {
      j := FirstIndex(init, n);
      assert init[..j] == fs[..j];
    } else {
      j := |fs| - 1;
      assert fs == init + [fs[j]];
      HasConcat(init, [fs[j]], n);
      HasOne(fs[j], n);
    }
  }

  /** A frame larger than everything before it is handed on. */
  lemma {:induction false} RecordIsDelivered(last: nat, wire: seq<Frame>, j: nat)
    requires j < |wire| && wire[j].offset > last && forall i :: 0 <= i < j ==> wire[i].offset < wire[j].offset
    ensures Has(Pump(last, wire), wire[j].offset)
  {
    var init, f := wire[..|wire| - 1], wire[|wire| - 1];
    var d := Pump(last, init);
    PumpOrder(last, init);
    if j == |init| {
      assert PumpEnd(last, d) < f.offset by { PumpBelow(last, init, f.offset); }
      HasConcat(d, [f], f.offset);
      HasOne(f, f.offset);
    } else {
      RecordIsDelivered(last, init, j);
      HasConcat(d, [f], wire[j].offset);
    }
  }

  lemma PumpBelow(last: nat, wire: seq<Frame>, n: nat)
    requires last < n && forall i :: 0 <= i < |wire| ==> wire[i].offset < n
    ensures PumpEnd(last, Pump(last, wire)) < n
  {
    PumpOrder(last, wire);
    hide Pump;
    var d := Pump(last, wire);
    if d != [] {
      assert d[|d| - 1] in wire;
    }
  }

  lemma DeliveredIsOnWire(last: nat, wire: seq<Frame>, n: nat)
    requires Has(Pump(last, wire), n)
    ensures Has(wire, n) && last < n <= PumpEnd(last, Pump(last, wire))
  {
    PumpOrder(last, wire);
    hide Pump, Ascending;
    var d := Pump(last, wire);
    var i :| 0 <= i < |d| && d[i].offset == n;
    assert d[i] in wire;
  }

  /** No frame of these connections is overtaken: what is on the wire beyond the client's offset is handed on. */
  lemma OnWireIsDelivered(c: Codec, w: World, k: nat, last: nat, n: nat)
    requires WInv(c, w) && ResyncFirst(w) && k <= |w.wire| && n > last
    ensures Has(Pump(last, w.wire[..k]), n) <==> Has(w.wire[..k], n)
  {
    hide WInv, ResyncFirst, Pump;
    var part := w.wire[..k];
    if Has(Pump(last, part), n) {
      DeliveredIsOnWire(last, part, n);
    }
    if Has(part, n) {
      var j := FirstIndex(part, n);
      forall i | 0 <= i < j ensures part[i].offset < n {
        assert part[..j] == w.wire[..j] && part[..j][i] == part[i];
        NotOvertaken(c, w, i, j);
      }
      RecordIsDelivered(last, part, j);
    }
  }

  lemma NotOvertaken(c: Codec, w: World, i: nat, j: nat)
    requires WInv(c, w) && ResyncFirst(w) && i < j < |w.wire| && !Has(w.wire[..j], w.wire[j].offset)
    ensures w.wire[i].offset <= w.wire[j].offset
  {
    hide Inv, Covered, GoneOk, WithheldOk, LiveOk, LiveCovers, WireOk, AllLogged, Has;
    if Has(w.resent, w.wire[j].offset) {
      ResentInOrder(c, w, i, j);
    }
  }

  lemma ResentInOrder(c: Codec, w: World, i: nat, j: nat)
    requires WInv(c, w) && ResyncFirst(w) && i < j < |w.wire| && !Has(w.wire[..j], w.wire[j].offset)
    requires Has(w.resent, w.wire[j].offset)
    ensures w.wire[i].offset <= w.wire[j].offset
  {
    hide Inv, Covered, GoneOk, WithheldOk, LiveOk, LiveCovers, WireOk, AllLogged;
    var r :| 0 <= r < |w.resent| && w.resent[r].offset == w.wire[j].offset;
    assert w.wire[r] == w.resent[r] == Fetched(w)[r];
    PrefixHas(w.wire, r, j);
    assert i < r;
    assert w.wire[i] == w.resent[i] == Fetched(w)[i];
  }

  lemma PrefixHas(fs: seq<Frame>, r: nat, j: nat)
    requires r < |fs| && j <= |fs|
    ensures r < j ==> Has(fs[..j], fs[r].offset)
  {
    if r < j {
      assert fs[..j][r] == fs[r];
    }
  }

  /** What the client has when the first k frames of the wire have reached it. */
  function Got(w: World, k: nat): seq<Frame>
    requires k <= |w.wire| && w.from >= 1
  {
    Pump(w.from - 1, w.wire[..k])
  }

  /** Up to where the client has got, it has every offset on the wire and every offset that was not lost. */
  lemma GotCovers(c: Codec, w: World, k: nat, last: nat, n: nat)
    requires WInv(c, w) && ResyncFirst(w) && k <= |w.wire| && w.from <= last + 1
    requires last < n <= PumpEnd(last, Pump(last, w.wire[..k])) && !Lost(w, n)
    ensures Has(Pump(last, w.wire[..k]), n)
  {
    hide WInv, ResyncFirst, Lost, Pump, Has;
    var part := w.wire[..k];
    OnWireIsDelivered(c, w, k, last, n);
    var i := EndOnWire(last, part);
    if n == part[i].offset {
      HasAt(part, i);
    } else {
      SmallerComesFirst(c, w, i, n);
      assert part == w.wire[..i] + w.wire[i..k];
      HasConcat(w.wire[..i], w.wire[i..k], n);
    }
  }

  lemma HasAt(fs: seq<Frame>, i: nat)
    requires i < |fs|
    ensures Has(fs, fs[i].offset)
  {
  }

  /** Where the client has got is the offset of a frame on the wire, once it has got anywhere. */
  lemma EndOnWire(last: nat, wire: seq<Frame>) returns (i: nat)
    requires PumpEnd(last, Pump(last, wire)) > last
    ensures i < |wire| && wire[i].offset == PumpEnd(last, Pump(last, wire))
  {
    PumpOrder(last, wire);
    hide Pump, Ascending;
    var d := Pump(last, wire);
    i :| 0 <= i < |wire| && wire[i] == d[|d| - 1];
  }

  /** If an ordered list has everything in its range but for the lost, it has a gap exactly where a lost offset is missing. */
  lemma GapFreeIffLostSent(d: seq<Frame>, lost: iset<nat>)
    requires Ascending(d) && d != []
    requires forall n: nat :: d[0].offset <= n <= d[|d| - 1].offset ==> Has(d, n) || n in lost
    ensures InSequence(d, d[0].offset) <==>
            forall n: nat :: n in lost && d[0].offset <= n <= d[|d| - 1].offset ==> Has(d, n)
  {
    InSequenceIffAll(d);
    hide Ascending, Has, InSequence;
  }

  /**
   If the live frames follow the resync frames, then at every moment what the
   client has got is free of gaps after its first frame if and only if every
   lost offset in between is on the wire all the same, sent live before it was
   lost; and it starts where the client asked if that offset was not lost.
   */
  lemma GapIffLost(c: Codec, w: World, k: nat)
    requires WInv(c, w) && ResyncFirst(w) && k <= |w.wire|
    ensures w.from >= 1
    ensures var d := Got(w, k);
            && Ascending(d)
            && (d != [] ==>
                  && (InSequence(d, d[0].offset) <==>
                      forall n: nat :: Lost(w, n) && d[0].offset <= n <= d[|d| - 1].offset ==> Has(w.wire[..k], n))
                  && (d[0].offset == w.from <==> !Lost(w, w.from) || Has(w.wire[..k], w.from)))
  {
    WireFacts(c, w);
    GotRange(c, w, k);
    hide *;
    var d, lost := Got(w, k), LostOn(w);
    if d != [] {
      GapFreeIffLostSent(d, lost);
      FirstIsLeast(d, w.from);
      assert forall n: nat :: n in lost <==> Lost(w, n);
    }
  }

  ghost function LostOn(w: World): (lost: iset<nat>)
    ensures forall n: nat :: n in lost <==> Lost(w, n)
  {
    iset n: nat | Lost(w, n)
  }

  lemma GotRange(c: Codec, w: World, k: nat)
    requires WInv(c, w) && ResyncFirst(w) && k <= |w.wire| && w.from >= 1
    ensures var d := Got(w, k);
            && Ascending(d)
            && (d != [] ==>
                  && w.from <= d[0].offset <= d[|d| - 1].offset
                  && forall n: nat :: w.from <= n <= d[|d| - 1].offset ==>
                                        && (Has(d, n) <==> Has(w.wire[..k], n))
                                        && (Has(d, n) || Lost(w, n)))
  {
    var d, last := Got(w, k), w.from - 1;
    PumpOrder(last, w.wire[..k]);
    hide WInv, ResyncFirst, Lost, Pump, Has, Ascending;
    if d != [] {
      assert d[0].offset <= PumpEnd(last, d) == d[|d| - 1].offset;
      forall n: nat | w.from <= n <= d[|d| - 1].offset
        ensures Has(d, n) <==> Has(w.wire[..k], n)
        ensures Has(d, n) || Lost(w, n)
      {
        OnWireIsDelivered(c, w, k, last, n);
        if !Lost(w, n) {
          GotCovers(c, w, k, last, n);
        }
      }
    }
  }

  lemma FirstIsLeast(d: seq<Frame>, n: nat)
    requires Ascending(d) && d != [] && n <= d[0].offset
    ensures d[0].offset == n <==> Has(d, n)
    ensures n <= d[|d| - 1].offset
  {
  }

  lemma WireFacts(c: Codec, w: World)
    requires WInv(c, w)
    ensures Inv(c, w.sys) && AllLogged(w.sys.log, w.wire) && w.from >= 1
  {
    hide Inv, AllLogged, Covered, GoneOk, WithheldOk, LiveOk, LiveCovers, Has, Ascending, LiveInOrder;
  }

  /** Once the resync is over and the PTY reader is idle, every offset from the requested one on is on the wire or was lost. */
  lemma EverythingSent(c: Codec, w: World, n: nat)
    requires WInv(c, w) && ResyncFirst(w) && w.phase.Done? && w.live == Idle && w.from <= n <= w.sys.buf.last
    ensures Has(w.wire, n) || Lost(w, n)
  {
    if !Lost(w, n) {
      NothingMissing(c, w, n);
      hide Inv, Has, Covered, GoneOk, WithheldOk, LiveOk, LiveCovers, ResyncOk, LiveInOrder;
      assert w.resent + [] == w.resent == Fetched(w);
    }
  }

  /**
   Then the client has exactly the session's output from `base` on if and only
   if nothing before `base` was sent and every lost offset from `base` on was
   sent live before it was lost. With base = from: it has all it asked for
   exactly when no offset was lost without having been sent.
   */
  lemma DeliversFromBase(c: Codec, w: World, base: nat)
    requires WInv(c, w) && ResyncFirst(w) && w.phase.Done? && w.live == Idle
    requires w.from <= base <= w.sys.buf.last + 1
    ensures w.from >= 1
    ensures Got(w, |w.wire|) == Items(w.sys.log[base - 1..]) <==>
            (forall n: nat :: w.from <= n < base ==> !Has(w.wire, n)) &&
            (forall n: nat :: Lost(w, n) && base <= n <= w.sys.buf.last ==> Has(w.wire, n))
  {
    WireFacts(c, w);
    var d, last := Got(w, |w.wire|), w.sys.buf.last;
    assert w.wire[..|w.wire|] == w.wire;
    GotIsLogged(c, w, |w.wire|);
    forall n: nat ensures Has(d, n) <==> Has(w.wire, n) && w.from <= n <= last {
      GotBound(c, w, n);
    }
    forall n: nat | w.from <= n <= last ensures Has(w.wire, n) || Lost(w, n) {
      EverythingSent(c, w, n);
    }
    hide WInv, ResyncFirst, Lost, Got, Has, Ascending;
    SameAsTail(c, w.sys, d, base);
  }

  lemma GotBound(c: Codec, w: World, n: nat)
    requires WInv(c, w) && ResyncFirst(w)
    ensures w.from >= 1
    ensures Has(Got(w, |w.wire|), n) <==> Has(w.wire, n) && w.from <= n <= w.sys.buf.last
  {
    hide Inv, WInv, ResyncFirst, Pump, PumpEnd, AllLogged, Has, Ascending;
    WireFacts(c, w);
    assert w.wire[..|w.wire|] == w.wire;
    if Has(Got(w, |w.wire|), n) {
      DeliveredIsOnWire(w.from - 1, w.wire, n);
    }
    if Has(w.wire, n) {
      HasBound(c, w.sys, w.wire, n);
      if n >= w.from {
        OnWireIsDelivered(c, w, |w.wire|, w.from - 1, n);
      }
    }
  }

  lemma HasBound(c: Codec, s: Sys, fs: seq<Frame>, n: nat)
    requires Inv(c, s) && AllLogged(s.log, fs) && Has(fs, n)
    ensures 1 <= n <= s.buf.last
  {
    hide Contents, Counted, ColdOk, RawOk;
    var i :| 0 <= i < |fs| && fs[i].offset == n;
    assert fs[i] in fs;
  }

  lemma GotIsLogged(c: Codec, w: World, k: nat)
    requires WInv(c, w) && k <= |w.wire|
    ensures w.from >= 1 && Ascending(Got(w, k)) && AllLogged(w.sys.log, Got(w, k))
  {
    hide Inv, WInv, Pump, PumpEnd, Ascending, Logged;
    WireFacts(c, w);
    PumpOrder(w.from - 1, w.wire[..k]);
    forall f | f in Got(w, k) ensures Logged(w.sys.log, f) {
      assert f in w.wire[..k];
      assert f in w.wire;
    }
  }

  /** Ordered logged frames are the tail of the log exactly when they have its offsets. */
  lemma SameAsTail(c: Codec, s: Sys, d: seq<Frame>, base: nat)
    requires Inv(c, s) && 1 <= base <= s.buf.last + 1 && Ascending(d) && AllLogged(s.log, d)
    ensures d == Items(s.log[base - 1..]) <==> forall n: nat :: Has(d, n) <==> base <= n <= s.buf.last
  {
    var tail := Items(s.log[base - 1..]);
    hide Contents, Counted, ColdOk, RawOk, Items, Has, Ascending;
    forall n: nat ensures Has(tail, n) <==> base <= n <= s.buf.last { LogTail(s.log, base, n); }
    LogTail(s.log, base, 0);
    hide LogOk, AllLogged;
    if forall n: nat :: Has(d, n) <==> base <= n <= s.buf.last {
      SameOffsetsSameFrames(s.log, d, tail);
    }
  }

  // One client over many connections.

  /** A connection and the bytes of its output stream that reached the client before it was lost. */
  datatype Link = Link(world: World, received: seq<byte>)

  function LinkFrames(l: Link): seq<Frame> { DecodeAll(l.received).frames }

  /** What the client hands on over all its connections; pumpOutput keeps its offset from one to the next. */
  function Handed(last: nat, links: seq<Link>): seq<Frame> {
    if links == [] then []
    else
      var d := Handed(last, links[..|links| - 1]);
      d + Pump(PumpEnd(last, d), LinkFrames(links[|links| - 1]))
  }

  /** The connection was cut at some byte of its stream, and its session has written `log` in the end. */
  ghost predicate LinkOk(c: Codec, l: Link, log: seq<Chunk>) {
    && WInv(c, l.world) && ResyncFirst(l.world)
    && l.world.sys.log <= log
    && l.received <= EncodeFrames(l.world.wire)
  }

  /**
   Each connection asks for no more than what comes after everything handed on:
   its Hello may have been written before the connection it replaces delivered
   its last frames.
   */
  ghost predicate ChainOk(c: Codec, last: nat, links: seq<Link>, log: seq<Chunk>) {
    links == [] ||
    (var init, l := links[..|links| - 1], links[|links| - 1];
     ChainOk(c, last, init, log) && LinkOk(c, l, log) && l.world.from <= PumpEnd(last, Handed(last, init)) + 1)
  }

  /** Some connection could not give offset n to the client. */
  ghost predicate LostOnAny(links: seq<Link>, n: nat) {
    exists i :: 0 <= i < |links| && Lost(links[i].world, n)
  }

  lemma LoggedEncodable(c: Codec, s: Sys, fs: seq<Frame>)
    requires Inv(c, s) && AllLogged(s.log, fs)
    ensures AllEncodable(fs)
  {
    hide Contents, Counted, ColdOk, RawOk;
    forall i | 0 <= i < |fs| ensures Encodable(fs[i]) {
      assert Logged(s.log, fs[i]);
    }
  }

  lemma LinkPrefix(c: Codec, l: Link, log: seq<Chunk>) returns (k: nat)
    requires LinkOk(c, l, log)
    ensures k <= |l.world.wire| && LinkFrames(l) == l.world.wire[..k]
    ensures AllLogged(log, LinkFrames(l))
  {
    var w := l.world;
    WireFacts(c, w);
    hide Inv, WInv, ResyncFirst, EncodeFrames, DecodeAll, AllEncodable;
    LoggedEncodable(c, w.sys, w.wire);
    CutStreamDecodesToPrefix(w.wire, |l.received|);
    assert l.received == EncodeFrames(w.wire)[..|l.received|];
    k := |LinkFrames(l)|;
    forall f | f in LinkFrames(l) ensures Logged(log, f) {
      assert f in w.wire;
      assert Logged(w.sys.log, f);
    }
  }

  /** One more connection: it continues what was handed on, in order, and skips only what it lost. */
  lemma LinkContinues(c: Codec, l: Link, log: seq<Chunk>, last: nat)
    requires LinkOk(c, l, log) && l.world.from <= last + 1
    ensures var d := Pump(last, LinkFrames(l));
            && Ascending(d) && AllLogged(log, d) && Within(d, last + 1, PumpEnd(last, d) + 1)
            && last <= PumpEnd(last, d)
            && forall n: nat :: last < n <= PumpEnd(last, d) ==> Has(d, n) || Lost(l.world, n)
  {
    hide Pump, PumpEnd, WInv, ResyncFirst, LinkFrames, Lost, Has, Ascending, AllLogged, EncodeFrames, Within;
    var k := LinkPrefix(c, l, log);
    var d := Pump(last, LinkFrames(l));
    PumpFacts(log, last, LinkFrames(l));
    forall n: nat | last < n <= PumpEnd(last, d) ensures Has(d, n) || Lost(l.world, n) {
      if !Lost(l.world, n) {
        GotCovers(c, l.world, k, last, n);
      }
    }
  }

  lemma PumpFacts(log: seq<Chunk>, last: nat, wire: seq<Frame>)
    requires AllLogged(log, wire)
    ensures var d := Pump(last, wire);
            && Ascending(d) && AllLogged(log, d) && Within(d, last + 1, PumpEnd(last, d) + 1) && last <= PumpEnd(last, d)
  {
    PumpOrder(last, wire);
    hide Pump, Ascending, Logged;
    forall f | f in Pump(last, wire) ensures Logged(log, f) { assert f in wire; }
  }

  lemma AscendingJoin(a: seq<Frame>, b: seq<Frame>, last: nat)
    requires Ascending(a) && Ascending(b) && Within(a, last + 1, PumpEnd(last, a) + 1)
    requires Within(b, PumpEnd(last, a) + 1, PumpEnd(PumpEnd(last, a), b) + 1)
    requires last <= PumpEnd(last, a) <= PumpEnd(PumpEnd(last, a), b)
    ensures Ascending(a + b) && PumpEnd(last, a + b) == PumpEnd(PumpEnd(last, a), b)
    ensures Within(a + b, last + 1, PumpEnd(last, a + b) + 1)
  {
  }

  /**
   Over any number of connections, each cut at any byte of its stream and each
   with its live frames after its resync, the client hands on the session's
   output in order, without repeating a chunk, and skips an offset only if some
   connection found it evicted or withheld it from a fresh client.
   */
  lemma {:induction false} ManyConnections(c: Codec, last: nat, links: seq<Link>, log: seq<Chunk>)
    requires ChainOk(c, last, links, log)
    ensures var d := Handed(last, links);
            && Ascending(d) && AllLogged(log, d) && Within(d, last + 1, PumpEnd(last, d) + 1)
            && last <= PumpEnd(last, d)
            && forall n: nat :: last < n <= PumpEnd(last, d) ==> Has(d, n) || LostOnAny(links, n)
  {
    hide LinkOk, Pump, Lost, Has, Ascending, Logged, LinkFrames, Within;
    if links == [] {
      NothingHanded(log, last);
    } else {
      var init, l := links[..|links| - 1], links[|links| - 1];
      ManyConnections(c, last, init, log);
      var d := Handed(last, init);
      var mid := PumpEnd(last, d);
      LinkContinues(c, l, log, mid);
      var e := Pump(mid, LinkFrames(l));
      hide Handed, ChainOk;
      AscendingJoin(d, e, last);
      forall n: nat | last < n <= PumpEnd(last, d + e) ensures Has(d + e, n) || LostOnAny(links, n) {
        HasConcat(d, e, n);
        LostGrows(links, n);
      }
    }
  }

  lemma NothingHanded(log: seq<Chunk>, last: nat)
    ensures Ascending([]) && AllLogged(log, []) && Within([], last + 1, last + 1)
  {
  }

  lemma LostGrows(links: seq<Link>, n: nat)
    requires links != []
    ensures LostOnAny(links, n) <==> LostOnAny(links[..|links| - 1], n) || Lost(links[|links| - 1].world, n)
  {
    hide Lost;
    var init := links[..|links| - 1];
    if LostOnAny(init, n) {
      var i :| 0 <= i < |init| && Lost(init[i].world, n);
      assert Lost(links[i].world, n);
    }
  }

  /** fs is the output of the session from offset `base` on, without a gap. */
  ghost predicate Stretch(log: seq<Chunk>, base: nat, fs: seq<Frame>) {
    1 <= base && base - 1 + |fs| <= |log| && fs == Items(log[base - 1..base - 1 + |fs|])
  }

  /** So it is one gapless stretch of the output if and only if every offset lost in between was handed on all the same. */
  lemma OneStretchIffNothingLost(c: Codec, last: nat, links: seq<Link>, log: seq<Chunk>)
    requires ChainOk(c, last, links, log) && LogOk(log) && Handed(last, links) != []
    ensures var d := Handed(last, links);
            var first := d[0].offset;
            && (Stretch(log, first, d)
                <==> forall n: nat :: LostOnAny(links, n) && first <= n <= d[|d| - 1].offset ==> Has(d, n))
            && (!LostOnAny(links, last + 1) ==> first == last + 1)
  {
    hide *;
    ManyConnections(c, last, links, log);
    var d, lost := Handed(last, links), LostOnChain(links);
    HandedFirst(d, last);
    GapFreeIffLostSent(d, lost);
    StretchIsSequence(log, d);
    FirstIsLeast(d, last + 1);
  }

  ghost function LostOnChain(links: seq<Link>): (lost: iset<nat>)
    ensures forall n: nat :: n in lost <==> LostOnAny(links, n)
  {
    iset n: nat | LostOnAny(links, n)
  }

  lemma HandedFirst(d: seq<Frame>, last: nat)
    requires d != [] && Within(d, last + 1, PumpEnd(last, d) + 1)
    ensures last + 1 <= d[0].offset && PumpEnd(last, d) == d[|d| - 1].offset
  {
  }

  lemma StretchIsSequence(log: seq<Chunk>, d: seq<Frame>)
    requires LogOk(log) && AllLogged(log, d) && d != []
    ensures var first := d[0].offset;
            Stretch(log, first, d) <==> InSequence(d, first)
  {
    var first := d[0].offset;
    assert Logged(log, d[0]) && Logged(log, d[|d| - 1]);
    if InSequence(d, first) {
      forall i | 0 <= i < |d| ensures d[i] == Items(log[first - 1..first - 1 + |d|])[i] {
        assert Logged(log, d[i]);
      }
    }
  }

  // A live frame that overtakes the resync.

  lemma PlaySnoc(c: Codec, sys: Sys, from: nat, acts: seq<Act>, a: Act)
    requires ActsOk(c, sys, from, acts) && ActOk(a) && sys.buf.last + |acts| + 1 < MAX_OFFSET
    ensures ActsOk(c, sys, from, acts + [a])
    ensures Play(c, sys, from, acts + [a]) == Next(c, Play(c, sys, from, acts), a)
  {
    assert (acts + [a])[..|acts|] == acts;
    hide Next, WInv;
  }

  lemma {:induction false} OvertakenOffset(last: nat, wire: seq<Frame>, k: nat, n: nat)
    requires k < |wire| && n < wire[k].offset && !Has(wire[..k], n)
    ensures forall d :: d in Pump(last, wire) ==> d.offset != n
  {
    var init := wire[..|wire| - 1];
    PumpOrder(last, init);
    if k == |init| {
      forall d | d in Pump(last, init) ensures d.offset != n {
        var i :| 0 <= i < |Pump(last, init)| && Pump(last, init)[i] == d;
        var j :| 0 <= j < |init| && init[j] == d;
        assert wire[..k] == init;
      }
    } else {
      assert init[..k] == wire[..k] && init[k] == wire[k];
      OvertakenOffset(last, init, k, n);
    }
  }

  /** If a live frame overtakes offset n, no continuation of the stream delivers n. */
  lemma OvertakenIsDropped(c: Codec, w: World, n: nat, later: seq<Frame>)
    requires WInv(c, w) && w.live.Writing? && w.from <= n < w.live.frame.offset && !Has(w.wire, n)
    ensures forall d :: d in Pump(w.from - 1, Next(c, w, WriteLive).wire + later) ==> d.offset != n
  {
    hide Inv, Covered, LiveOk, LiveCovers, WireOk, Has, Pump;
    var wire := w.wire + [w.live.frame] + later;
    assert wire[..|w.wire|] == w.wire;
    OvertakenOffset(w.from - 1, wire, |w.wire|, n);
  }

  /** The part of a world that the run below follows. */
  ghost predicate Seems(w: World, phase: Phase, last: nat) {
    w.phase == phase && w.sys.buf.last == last && w.from == 1 && w.wire == []
  }

  lemma ViewStart(c: Codec)
    requires Invertible(c)
    ensures ActsOk(c, START, 1, []) && WInv(c, Play(c, START, 1, []))
    ensures Seems(Play(c, START, 1, []), Unregistered, 0) && Play(c, START, 1, []).live == Idle
  {
    assert Play(c, START, 1, []) == Start(START, 1);
  }

  lemma ViewOutput(c: Codec, w: World, a: Act, phase: Phase, last: nat)
    requires Invertible(c) && WInv(c, w) && w.live == Idle && Seems(w, phase, last) && last < 100
    requires a.Output? && a.fan && 0 < |a.data| <= MAX_FRAME
    ensures Seems(Next(c, w, a), phase, last + 1)
    ensures Next(c, w, a).live == Lookup(Frame(last + 1, a.data), true)
  {
    hide Inv, Step;
    StepLast(c, w.sys, Append(a.data, a.time, a.now));
  }

  lemma ViewLookup(c: Codec, w: World, phase: Phase, last: nat)
    requires WInv(c, w) && Seems(w, phase, last) && w.live.Lookup? && w.live.fan
    ensures Seems(Next(c, w, LookupClient), phase, last)
    ensures Next(c, w, LookupClient).live == if phase == Unregistered then Idle else Writing(w.live.frame)
  {
    hide Inv;
  }

  lemma ViewRegister(c: Codec, w: World, last: nat)
    requires WInv(c, w) && Seems(w, Unregistered, last)
    ensures Seems(Next(c, w, Register), Resyncing([], 1), last) && Next(c, w, Register).live == w.live
  {
    hide Inv;
  }

  /**
   A run in which that happens: chunk 1 is output while the client is unknown,
   the client registers, and chunk 2 is looked up before the resync starts.
   */
  lemma LiveFrameCanOvertake(c: Codec, first: Act, second: Act) returns (acts: seq<Act>)
    requires Invertible(c) && first.Output? && second.Output? && first.fan && second.fan
    requires 0 < |first.data| <= MAX_FRAME && 0 < |second.data| <= MAX_FRAME
    ensures ActsOk(c, START, 1, acts)
    ensures var w := Play(c, START, 1, acts);
            w.live.Writing? && w.live.frame.offset == 2 && w.from == 1 && !Has(w.wire, 1)
  {
    hide *;
    ViewStart(c);
    acts := [];
    var w := Play(c, START, 1, acts);
    ViewOutput(c, w, first, Unregistered, 0);
    acts, w := Advance(c, acts, first, w);
    ViewLookup(c, w, Unregistered, 1);
    acts, w := Advance(c, acts, LookupClient, w);
    ViewRegister(c, w, 1);
    acts, w := Advance(c, acts, Register, w);
    ViewOutput(c, w, second, Resyncing([], 1), 1);
    acts, w := Advance(c, acts, second, w);
    ViewLookup(c, w, Resyncing([], 1), 2);
    acts, w := Advance(c, acts, LookupClient, w);
    NothingOnWire(w, Resyncing([], 1), 2);
  }

  lemma NothingOnWire(w: World, phase: Phase, last: nat)
    requires Seems(w, phase, last)
    ensures w.from == 1 && !Has(w.wire, 1)
  {
  }

  lemma Advance(c: Codec, acts: seq<Act>, a: Act, w: World) returns (acts': seq<Act>, w': World)
    requires ActsOk(c, START, 1, acts) && |acts| < 100 && Play(c, START, 1, acts) == w
    requires a.Output? ==> |a.data| <= MAX_FRAME
    requires !a.Buffering?
    ensures |acts'| == |acts| + 1 && ActsOk(c, START, 1, acts') && Inv(c, w.sys) && Play(c, START, 1, acts') == w' == Next(c, w, a)
    ensures WInv(c, w')
  {
    hide Next, ResyncOk, Covered, LiveOk, LiveCovers, WireOk, Inv;
    PlaySnoc(c, START, 1, acts, a);
    acts', w' := acts + [a], Next(c, w, a);
  }
}
