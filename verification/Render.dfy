/**
 Rendering at the client (cmd/tezzer/client.go): chunks arrive over the local
 socket and over QUIC in any order of batches, and one frontier decides what is
 drawn; the alternate-screen tracker follows what is drawn.
 */
module Render {
  import opened Bytes
  import opened Frames
  import opened AltScreen
  import opened TerminalOutput

  /** The rendering state of the client; `quic` says that a QUIC transport is set. */
  datatype Client = Client(rendered: nat, stopped: bool, quic: bool, tracker: Option<Alternate>, out: seq<byte>)

  /** The local state of one renderOutput call: frontier, tracker and the chunks drawn so far. */
  datatype Drawing = Drawing(frontier: nat, tracker: Option<Alternate>, drawn: seq<Frame>)

  function Track(t: Option<Alternate>, offset: nat, frontier: nat, data: seq<byte>): Option<Alternate> {
    if t.None? then None
    else if offset == 1 then Some(AltFold(New(Main), data))
    else if offset != frontier + 1 then Some(AltFold(Reset(t.value), data))
    else Some(AltFold(t.value, data))
  }

  function DrawOne(d: Drawing, ch: Frame, fromQuic: bool, quic: bool): Drawing {
    if ch.offset <= d.frontier then d
    else if ch.offset == d.frontier + 1 || fromQuic || !quic then
      Drawing(ch.offset, Track(d.tracker, ch.offset, d.frontier, ch.data), d.drawn + [ch])
    else d
  }

  function DrawAll(d: Drawing, chunks: seq<Frame>, fromQuic: bool, quic: bool): Drawing {
    if chunks == [] then d
    else DrawOne(DrawAll(d, chunks[..|chunks| - 1], fromQuic, quic), chunks[|chunks| - 1], fromQuic, quic)
  }

  function Flat(fs: seq<Frame>): seq<byte> {
    if fs == [] then [] else Flat(fs[..|fs| - 1]) + fs[|fs| - 1].data
  }

  /** renderOutput: the frontier is stored only when there is something to write. */
  function Rendered(v: Client, chunks: seq<Frame>, fromQuic: bool): Client {
    if v.stopped then v
    else
      var d := DrawAll(Drawing(v.rendered, v.tracker, []), chunks, fromQuic, v.quic);
      if Flat(d.drawn) == [] then v.(tracker := d.tracker)
      else v.(rendered := d.frontier, tracker := d.tracker, out := v.out + Flat(d.drawn))
  }

  class Terminal {
    var renderedSeq: nat
    var outputStopped: bool
    var quic: bool
    var altScreen: AltScreenTracker?
    var out: seq<byte>

    function View(): Client
      reads this, altScreen
    {
      Client(renderedSeq, outputStopped, quic, Tracker(), out)
    }

    function Tracker(): Option<Alternate>
      reads this, altScreen
    {
      if altScreen == null then None else Some(altScreen.View())
    }

    method TrackScreen(offset: nat, frontier: nat, data: seq<byte>)
      modifies this`altScreen, altScreen
      ensures Tracker() == Track(old(Tracker()), offset, frontier, data)
      ensures altScreen == old(altScreen) || fresh(altScreen)
    {
      if altScreen == null {
        return;
      }
      if offset == 1 {
        altScreen := new AltScreenTracker(Main);
      } else if offset != frontier + 1 {
        altScreen.ResetState();
      }
      var after := altScreen.Scan(data);
    }

    method RenderOutput(chunks: seq<Frame>, fromQuic: bool)
      modifies this, altScreen
      ensures View() == Rendered(old(View()), chunks, fromQuic)
    {
      if outputStopped {
        return;
      }
      var frontier := renderedSeq;
      var buf: seq<byte> := [];
      ghost var start := Drawing(renderedSeq, Tracker(), []);
      ghost var d := start;
      for i := 0 to |chunks|
        invariant View().(tracker := None) == old(View()).(tracker := None)
        invariant altScreen == old(altScreen) || fresh(altScreen)
        invariant d == DrawAll(start, chunks[..i], fromQuic, quic)
        invariant d.frontier == frontier && d.tracker == Tracker() && Flat(d.drawn) == buf
      {
        var ch := chunks[i];
        assert chunks[..i + 1][..i] == chunks[..i];
        if ch.offset <= frontier {
        } else if ch.offset == frontier + 1 || fromQuic || !quic {
          TrackScreen(ch.offset, frontier, ch.data);
          buf := buf + ch.data;
          assert (d.drawn + [ch])[..|d.drawn|] == d.drawn;
          frontier := ch.offset;
        }
        d := DrawOne(d, ch, fromQuic, quic);
      }
      assert chunks[..|chunks|] == chunks;
      if |buf| == 0 {
        return;
      }
      renderedSeq := frontier;
      out := out + buf;
    }
  }

  // Runs: batches from both paths in any order. `session` is everything the
  // session ever output; chunk n of it is session[n - 1].

  datatype Event = Deliver(chunks: seq<Frame>, fromQuic: bool) | ConnectQuic | Stop

  /** The client together with every chunk it has drawn. */
  datatype Show = Show(client: Client, drawn: seq<Frame>)

  function After(v: Show, e: Event): Show {
    match e
    case Deliver(chunks, fromQuic) =>
      var c := v.client;
      var d := DrawAll(Drawing(c.rendered, c.tracker, []), chunks, fromQuic, c.quic);
      Show(Rendered(c, chunks, fromQuic), v.drawn + if c.stopped then [] else d.drawn)
    case ConnectQuic => v.(client := v.client.(quic := true))
    case Stop => v.(client := v.client.(stopped := true))
  }

  function AfterAll(v: Show, es: seq<Event>): Show {
    if es == [] then v else After(AfterAll(v, es[..|es| - 1]), es[|es| - 1])
  }

  predicate Genuine(session: seq<seq<byte>>, f: Frame) {
    1 <= f.offset <= |session| && f.data == session[f.offset - 1] && f.data != []
  }

  predicate AllGenuine(session: seq<seq<byte>>, fs: seq<Frame>) {
    forall f :: f in fs ==> Genuine(session, f)
  }

  predicate EventGenuine(session: seq<seq<byte>>, e: Event) {
    e.Deliver? ==> AllGenuine(session, e.chunks)
  }

  function LastOffset(fs: seq<Frame>): nat {
    if fs == [] then 0 else fs[|fs| - 1].offset
  }

  /** A tracker that has been fed the complete output of the first n chunks. */
  function Ideal(session: seq<seq<byte>>, n: nat): Alternate
    requires n <= |session|
  {
    if n == 0 then New(Main) else AltFold(Ideal(session, n - 1), session[n - 1])
  }

  ghost predicate Sound(session: seq<seq<byte>>, t: Option<Alternate>, n: nat) {
    t.Some? && 1 <= n <= |session| ==> InStep(t.value, Ideal(session, n))
  }

  ghost predicate DrawingOk(session: seq<seq<byte>>, base: seq<Frame>, d: Drawing) {
    && Ascending(base + d.drawn) && AllGenuine(session, base + d.drawn)
    && d.frontier == LastOffset(base + d.drawn)
    && Sound(session, d.tracker, d.frontier)
  }

  lemma TrackIsSound(session: seq<seq<byte>>, t: Option<Alternate>, o: nat, frontier: nat)
    requires Sound(session, t, frontier) && frontier < o <= |session|
    ensures Sound(session, Track(t, o, frontier, session[o - 1]), o)
  {
    if t.Some? {
      var before := if o == 1 then New(Main) else if o != frontier + 1 then Reset(t.value) else t.value;
      assert InStep(before, Ideal(session, o - 1));
      InStepScan(before, Ideal(session, o - 1), session[o - 1]);
    }
  }

  /**
   What the tracker knows after a chunk: the first chunk of the session starts
   it on the main screen, a gap makes it forget, and then the last piece of the
   chunk that speaks of the screen decides.
   */
  lemma TrackMeaning(t: Alternate, o: nat, frontier: nat, ks: seq<Token>)
    requires Splits(ks) && (o == frontier + 1 && o != 1 ==> t.scan.Ground? || t.scan.Ignore?)
    ensures Track(Some(t), o, frontier, Output(ks)).value.state ==
            LastScreen(ks, if o == 1 then Main else if o != frontier + 1 then Unknown else t.state)
  {
    hide Output, Splits, LastScreen;
    ScreenMeaning(if o == 1 then New(Main) else if o != frontier + 1 then Reset(t) else t, ks);
  }

  lemma DrawOneKeeps(session: seq<seq<byte>>, base: seq<Frame>, d: Drawing, ch: Frame, fromQuic: bool, quic: bool)
    requires DrawingOk(session, base, d) && Genuine(session, ch)
    ensures DrawingOk(session, base, DrawOne(d, ch, fromQuic, quic))
  {
    hide Sound, Track;
    var all := base + d.drawn;
    if ch.offset > d.frontier {
      assert base + (d.drawn + [ch]) == all + [ch];
      TrackIsSound(session, d.tracker, ch.offset, d.frontier);
    }
  }

  lemma {:induction false} DrawAllKeeps(
    session: seq<seq<byte>>, base: seq<Frame>, d: Drawing, chunks: seq<Frame>, fromQuic: bool, quic: bool)
    requires DrawingOk(session, base, d) && AllGenuine(session, chunks)
    ensures DrawingOk(session, base, DrawAll(d, chunks, fromQuic, quic))
  {
    hide DrawingOk, DrawOne;
    if chunks == [] {
    } else {
      DrawAllKeeps(session, base, d, chunks[..|chunks| - 1], fromQuic, quic);
      DrawOneKeeps(session, base, DrawAll(d, chunks[..|chunks| - 1], fromQuic, quic), chunks[|chunks| - 1], fromQuic, quic);
    }
  }

  lemma {:induction false} FlatConcat(a: seq<Frame>, b: seq<Frame>)
    ensures Flat(a + b) == Flat(a) + Flat(b)
  {
    if b == [] {
      assert a + b == a;
    } else {
      var init, last := b[..|b| - 1], b[|b| - 1];
      FlatConcat(a, init);
      assert (a + b)[..|a + b| - 1] == a + init && (a + b)[|a + b| - 1] == last;
      assert Flat(a + b) == Flat(a + init) + last.data;
      hide Flat;
      assert (Flat(a) + Flat(init)) + last.data == Flat(a) + (Flat(init) + last.data);
    }
  }

  lemma FlatOfNonEmpty(fs: seq<Frame>)
    requires fs != [] && fs[|fs| - 1].data != []
    ensures Flat(fs) != []
  {
  }

  /** What every reachable state satisfies. */
  ghost predicate ShowOk(session: seq<seq<byte>>, v: Show) {
    && Ascending(v.drawn) && AllGenuine(session, v.drawn)
    && v.client.rendered == LastOffset(v.drawn)
    && v.client.out == Flat(v.drawn)
    && Sound(session, v.client.tracker, v.client.rendered)
  }

  lemma AfterKeeps(session: seq<seq<byte>>, v: Show, e: Event)
    requires ShowOk(session, v) && EventGenuine(session, e)
    ensures ShowOk(session, After(v, e))
    ensures v.drawn <= After(v, e).drawn
  {
    hide Sound, Ascending, Flat, DrawAll;
    if e.Deliver? && !v.client.stopped {
      var c := v.client;
      var d0 := Drawing(c.rendered, c.tracker, []);
      assert v.drawn + [] == v.drawn;
      DrawAllKeeps(session, v.drawn, d0, e.chunks, e.fromQuic, c.quic);
      var d := DrawAll(d0, e.chunks, e.fromQuic, c.quic);
      FlatConcat(v.drawn, d.drawn);
      if d.drawn != [] {
        assert Genuine(session, (v.drawn + d.drawn)[|v.drawn + d.drawn| - 1]);
        FlatOfNonEmpty(d.drawn);
      } else {
        assert Flat([]) == [] by { FlatEmpty(); }
      }
    }
  }

  lemma FlatEmpty()
    ensures Flat([]) == []
  {
  }

  /**
   In every interleaving of batches from the two paths, drawn offsets are
   strictly increasing, so none is drawn twice; the bytes written are the
   session's bytes of those chunks; and whenever the tracker says main or alt,
   it is what a tracker fed the complete output would say, whatever was skipped.
   */
  lemma {:induction false} RenderingIsSound(session: seq<seq<byte>>, quic: bool, tracker: Option<Alternate>, es: seq<Event>)
    requires forall i :: 0 <= i < |es| ==> EventGenuine(session, es[i])
    ensures var v := AfterAll(Show(Client(0, false, quic, tracker, []), []), es);
            && ShowOk(session, v)
            && (v.client.tracker.Some? && v.drawn != [] && v.client.tracker.value.state != Unknown ==>
                  LastOffset(v.drawn) <= |session| &&
                  v.client.tracker.value.state == Ideal(session, LastOffset(v.drawn)).state)
  {
    if es == [] {
    } else {
      RenderingIsSound(session, quic, tracker, es[..|es| - 1]);
      AfterKeeps(session, AfterAll(Show(Client(0, false, quic, tracker, []), []), es[..|es| - 1]), es[|es| - 1]);
    }
    var v := AfterAll(Show(Client(0, false, quic, tracker, []), []), es);
    hide After, AfterAll, Ideal;
    if v.drawn != [] {
      assert Genuine(session, v.drawn[|v.drawn| - 1]);
    }
  }

  // What is drawn.

  /** A batch that may jump gaps leaves nothing of it above the frontier. */
  lemma {:induction false} DrawAllReaches(d: Drawing, chunks: seq<Frame>, fromQuic: bool, quic: bool)
    requires fromQuic || !quic
    ensures d.frontier <= DrawAll(d, chunks, fromQuic, quic).frontier
    ensures forall ch :: ch in chunks ==> ch.offset <= DrawAll(d, chunks, fromQuic, quic).frontier
  {
    if chunks == [] {
    } else {
      DrawAllReaches(d, chunks[..|chunks| - 1], fromQuic, quic);
      assert chunks == chunks[..|chunks| - 1] + [chunks[|chunks| - 1]];
    }
  }

  /** An ordered batch that may jump gaps is drawn from the frontier on, whatever it skips. */
  lemma {:induction false} DrawAllTakes(d: Drawing, chunks: seq<Frame>, fromQuic: bool, quic: bool)
    requires (fromQuic || !quic) && Ascending(chunks)
    ensures var d' := DrawAll(d, chunks, fromQuic, quic);
            && d'.drawn == d.drawn + From(chunks, d.frontier + 1)
            && d'.frontier == if chunks == [] || LastOffset(chunks) < d.frontier then d.frontier else LastOffset(chunks)
  {
    if chunks == [] {
      assert d.drawn + [] == d.drawn;
    } else {
      var init, ch := chunks[..|chunks| - 1], chunks[|chunks| - 1];
      OrderedInit(chunks);
      assert DrawAll(d, chunks, fromQuic, quic) == DrawOne(DrawAll(d, init, fromQuic, quic), ch, fromQuic, quic);
      hide Track, Ascending, From, DrawAll;
      DrawAllTakes(d, init, fromQuic, quic);
      assert chunks == init + [ch];
      FromSnoc(d.drawn, init, ch, d.frontier + 1);
    }
  }

  lemma OrderedInit(chunks: seq<Frame>)
    requires Ascending(chunks) && chunks != []
    ensures Ascending(chunks[..|chunks| - 1])
    ensures |chunks| == 1 || LastOffset(chunks[..|chunks| - 1]) < chunks[|chunks| - 1].offset
  {
  }

  lemma FromSnoc(drawn: seq<Frame>, init: seq<Frame>, ch: Frame, from: nat)
    ensures drawn + From(init + [ch], from) ==
            if ch.offset >= from then drawn + From(init, from) + [ch] else drawn + From(init, from)
  {
    FromConcat(init, [ch], from);
    assert From([ch], from) == if ch.offset >= from then [ch] else [];
    hide From;
    assert (drawn + From(init, from)) + [ch] == drawn + (From(init, from) + [ch]);
    assert From(init, from) + [] == From(init, from);
  }

  /**
   A batch over QUIC, or over the local socket while there is no QUIC: nothing
   of it stays above the frontier, and if it is ordered then exactly its chunks
   above the old frontier are drawn, however many are missing in between.
   */
  lemma BatchIsDrawn(session: seq<seq<byte>>, v: Show, chunks: seq<Frame>, fromQuic: bool)
    requires ShowOk(session, v) && AllGenuine(session, chunks) && !v.client.stopped && (fromQuic || !v.client.quic)
    ensures var v' := After(v, Deliver(chunks, fromQuic));
            && (forall ch :: ch in chunks ==> ch.offset <= v'.client.rendered)
            && (Ascending(chunks) ==> v'.drawn == v.drawn + From(chunks, v.client.rendered + 1))
  {
    hide DrawAll, Flat, Sound, AllGenuine, From, Ascending, Rendered, LastOffset;
    var d0 := Drawing(v.client.rendered, v.client.tracker, []);
    DrawAllReaches(d0, chunks, fromQuic, v.client.quic);
    FrontierKept(session, v, chunks, fromQuic);
    if Ascending(chunks) {
      DrawAllTakes(d0, chunks, fromQuic, v.client.quic);
      assert [] + From(chunks, v.client.rendered + 1) == From(chunks, v.client.rendered + 1);
    }
  }

  /** The frontier of a batch of genuine chunks is stored. */
  lemma FrontierKept(session: seq<seq<byte>>, v: Show, chunks: seq<Frame>, fromQuic: bool)
    requires ShowOk(session, v) && AllGenuine(session, chunks) && !v.client.stopped
    ensures var d := DrawAll(Drawing(v.client.rendered, v.client.tracker, []), chunks, fromQuic, v.client.quic);
            After(v, Deliver(chunks, fromQuic)).client.rendered == d.frontier
  {
    var d0 := Drawing(v.client.rendered, v.client.tracker, []);
    var d := DrawAll(d0, chunks, fromQuic, v.client.quic);
    assert v.drawn + [] == v.drawn;
    DrawAllKeeps(session, v.drawn, d0, chunks, fromQuic, v.client.quic);
    hide DrawAll, Sound, Ascending;
    if d.drawn == [] {
      assert v.drawn + d.drawn == v.drawn;
    } else {
      var all := v.drawn + d.drawn;
      assert all[|all| - 1] in all && all[|all| - 1] == d.drawn[|d.drawn| - 1];
      FlatOfNonEmpty(d.drawn);
    }
  }

  lemma {:induction false} DrawAllContiguous(d: Drawing, chunks: seq<Frame>, fromQuic: bool, quic: bool)
    requires InSequence(chunks, d.frontier + 1)
    ensures DrawAll(d, chunks, fromQuic, quic).drawn == d.drawn + chunks
    ensures DrawAll(d, chunks, fromQuic, quic).frontier == d.frontier + |chunks|
  {
    if chunks == [] {
      assert d.drawn + [] == d.drawn;
    } else {
      var init, ch := chunks[..|chunks| - 1], chunks[|chunks| - 1];
      DrawAllContiguous(d, init, fromQuic, quic);
      assert d.drawn + chunks == (d.drawn + init) + [ch];
    }
  }

  /** Chunks that continue the frontier are drawn whichever path brings them; nothing is drawn once drawing is stopped. */
  lemma ContiguousIsDrawn(v: Show, chunks: seq<Frame>, fromQuic: bool)
    requires InSequence(chunks, v.client.rendered + 1)
    ensures After(v, Deliver(chunks, fromQuic)).drawn == v.drawn + if v.client.stopped then [] else chunks
    ensures v.client.stopped ==> After(v, Deliver(chunks, fromQuic)).client == v.client
  {
    var d0 := Drawing(v.client.rendered, v.client.tracker, []);
    DrawAllContiguous(d0, chunks, fromQuic, v.client.quic);
    assert [] + chunks == chunks;
    hide DrawAll, Flat;
  }

  lemma {:induction false} DrawnStays(session: seq<seq<byte>>, v: Show, es: seq<Event>, i: nat)
    requires ShowOk(session, v) && i <= |es| && forall j :: 0 <= j < |es| ==> EventGenuine(session, es[j])
    ensures ShowOk(session, AfterAll(v, es[..i])) && AfterAll(v, es[..i]).drawn <= AfterAll(v, es).drawn
    ensures ShowOk(session, AfterAll(v, es))
    decreases |es|
  {
    hide ShowOk, EventGenuine, After;
    if i == |es| {
      assert es[..i] == es;
      if es != [] {
        DrawnStays(session, v, es[..|es| - 1], |es| - 1);
        assert es[..|es| - 1][..|es| - 1] == es[..|es| - 1];
        AfterKeeps(session, AfterAll(v, es[..|es| - 1]), es[|es| - 1]);
      }
    } else {
      DrawnStays(session, v, es[..|es| - 1], i);
      assert es[..|es| - 1][..i] == es[..i];
      AfterKeeps(session, AfterAll(v, es[..|es| - 1]), es[|es| - 1]);
    }
  }

  /**
   In every run, every chunk of an ordered batch that arrives above the frontier
   over QUIC, or over the local socket before QUIC is set, while drawing is not
   stopped, is drawn and stays drawn.
   */
  lemma NewChunksAreDrawn(session: seq<seq<byte>>, v: Show, es: seq<Event>, i: nat, ch: Frame)
    requires ShowOk(session, v) && forall j :: 0 <= j < |es| ==> EventGenuine(session, es[j])
    requires i < |es| && es[i].Deliver? && Ascending(es[i].chunks) && ch in es[i].chunks
    requires var c := AfterAll(v, es[..i]).client;
             !c.stopped && (es[i].fromQuic || !c.quic) && ch.offset > c.rendered
    ensures ch in AfterAll(v, es).drawn
  {
    hide ShowOk, After, Ascending;
    DrawnStays(session, v, es, i);
    DrawnStays(session, v, es, i + 1);
    assert es[..i + 1][..i] == es[..i];
    var p := AfterAll(v, es[..i]);
    assert EventGenuine(session, es[i]);
    BatchIsDrawn(session, p, es[i].chunks, es[i].fromQuic);
    FromMember(es[i].chunks, p.client.rendered + 1, ch);
  }

  // Once QUIC is set.

  /** How far QUIC has delivered after the events, having delivered up to q before. */
  function QuicEnd(q: nat, es: seq<Event>): nat {
    if es == [] then q
    else
      var r, e := QuicEnd(q, es[..|es| - 1]), es[|es| - 1];
      if e.Deliver? && e.fromQuic then r + |e.chunks| else r
  }

  /** QUIC delivers q+1, q+2, ... in order; the other path delivers anything; drawing is not stopped. */
  predicate QuicInOrder(q: nat, es: seq<Event>) {
    es == [] ||
    (var e := es[|es| - 1];
     QuicInOrder(q, es[..|es| - 1]) && !e.Stop? &&
     (e.Deliver? && e.fromQuic ==> InSequence(e.chunks, QuicEnd(q, es[..|es| - 1]) + 1)))
  }

  lemma {:induction false} DrawAllInOrder(d: Drawing, chunks: seq<Frame>, fromQuic: bool, q: nat)
    requires q <= d.frontier && (fromQuic ==> InSequence(chunks, q + 1)) && d.drawn == []
    ensures var d' := DrawAll(d, chunks, fromQuic, true);
            && InSequence(d'.drawn, d.frontier + 1) && d'.frontier == d.frontier + |d'.drawn|
            && (fromQuic ==> q + |chunks| <= d'.frontier)
  {
    if chunks == [] {
    } else {
      DrawAllInOrder(d, chunks[..|chunks| - 1], fromQuic, q);
    }
  }

  /**
   Once QUIC is set, if QUIC delivers q+1..n in order then what is drawn from
   frontier f on is f+1, f+2, ... without a gap, and reaches at least n,
   whatever the other path drops, repeats or reorders.
   */
  lemma {:induction false} CrossPathIsGapless(session: seq<seq<byte>>, v: Show, q: nat, es: seq<Event>)
    requires ShowOk(session, v) && v.client.quic && !v.client.stopped && q <= v.client.rendered
    requires QuicInOrder(q, es) && forall i :: 0 <= i < |es| ==> EventGenuine(session, es[i])
    ensures var v' := AfterAll(v, es);
            && ShowOk(session, v') && v'.client.quic && !v'.client.stopped
            && v.drawn <= v'.drawn
            && InSequence(v'.drawn[|v.drawn|..], v.client.rendered + 1)
            && v'.client.rendered == v.client.rendered + |v'.drawn| - |v.drawn|
            && QuicEnd(q, es) <= v'.client.rendered
  {
    hide ShowOk;
    if es == [] {
    } else {
      var init, e := es[..|es| - 1], es[|es| - 1];
      CrossPathIsGapless(session, v, q, init);
      var p := AfterAll(v, init);
      AfterKeeps(session, p, e);
      CrossPathStep(session, p, e, QuicEnd(q, init));
      assert After(p, e).drawn[|v.drawn|..] == p.drawn[|v.drawn|..] + After(p, e).drawn[|p.drawn|..];
    }
  }

  lemma CrossPathStep(session: seq<seq<byte>>, p: Show, e: Event, q: nat)
    requires ShowOk(session, p) && p.client.quic && !p.client.stopped && q <= p.client.rendered
    requires EventGenuine(session, e) && !e.Stop? && (e.Deliver? && e.fromQuic ==> InSequence(e.chunks, q + 1))
    ensures var p' := After(p, e);
            && p.drawn <= p'.drawn && p'.client.quic && !p'.client.stopped
            && InSequence(p'.drawn[|p.drawn|..], p.client.rendered + 1)
            && p'.client.rendered == p.client.rendered + |p'.drawn| - |p.drawn|
            && (if e.Deliver? && e.fromQuic then q + |e.chunks| else q) <= p'.client.rendered
  {
    AfterKeeps(session, p, e);
    if e.Deliver? {
      var d0 := Drawing(p.client.rendered, p.client.tracker, []);
      DrawAllInOrder(d0, e.chunks, e.fromQuic, q);
      hide DrawAll, Flat, Ascending, AllGenuine, Sound;
      var p' := After(p, e);
      var d := DrawAll(d0, e.chunks, e.fromQuic, true);
      assert p'.drawn[|p.drawn|..] == d.drawn;
      if d.drawn == [] {
        assert p'.drawn == p.drawn;
      } else {
        assert LastOffset(p'.drawn) == d.drawn[|d.drawn| - 1].offset;
      }
    }
  }
}
