/**
 Restarting the server in place (internal/session/handover.go): the state of
 every session is written with all session locks held, the process replaces
 itself, and the new process rebuilds the sessions from what was written.
 */
module Handover {
  import opened Bytes
  import opened Frames
  import opened ColdBuffer
  import opened OutputBuffer
  import opened BufferRuns
  import opened Conservation
  import opened Gapless
  import ModeTracker

  type Fd = nat
  type SessionId = string

  datatype HandoverChunk = HandoverChunk(s: nat, t: int, d: seq<byte>)

  datatype HandoverSegment = HandoverSegment(ss: nat, es: nat, rb: nat, d: seq<byte>, o: int, n: int)

  datatype HandoverSession = HandoverSession(
    id: SessionId, seqNo: nat, ptyFd: Fd, quicFd: Option<Fd>, termModes: seq<byte>,
    hot: seq<HandoverChunk>, coldPending: seq<HandoverChunk>, cold: seq<HandoverSegment>)

  datatype HandoverState = HandoverState(sharedQuicFd: Option<Fd>, sessions: seq<HandoverSession>)

  /** A transport of its own: whether its socket can be duplicated, and the kernel's answer. */
  datatype Socket = NoSocket | Socket(supported: bool, dup: Option<Fd>)

  /** A session as WriteHandover finds it under its lock; `alive` means it has a PTY and a child. */
  datatype Session = Session(
    id: SessionId, alive: bool, buf: Buffer, modes: ModeTracker.State, ptyDup: Option<Fd>, socket: Socket)

  // Chunks and segments.

  function PackChunk(ch: Chunk): HandoverChunk { HandoverChunk(ch.seqNo, ch.time, ch.data) }

  function PackChunks(chs: seq<Chunk>): (out: seq<HandoverChunk>)
    ensures |out| == |chs| && forall i :: 0 <= i < |chs| ==> out[i] == PackChunk(chs[i])
  {
    seq(|chs|, i requires 0 <= i < |chs| => PackChunk(chs[i]))
  }

  function PackSegment(seg: Segment): HandoverSegment {
    HandoverSegment(seg.startSeq, seg.endSeq, seg.rawBytes, seg.data, seg.oldestTime, seg.newestTime)
  }

  function PackSegments(segs: seq<Segment>): (out: seq<HandoverSegment>)
    ensures |out| == |segs| && forall i :: 0 <= i < |segs| ==> out[i] == PackSegment(segs[i])
  {
    seq(|segs|, i requires 0 <= i < |segs| => PackSegment(segs[i]))
  }

  function Pack(s: Session): HandoverSession
    requires s.ptyDup.Some?
  {
    HandoverSession(s.id, s.buf.last, s.ptyDup.value, SocketFd(s.socket), ModeTracker.RestoreBytes(s.modes.diff),
                    PackChunks(s.buf.hot), PackChunks(s.buf.pending), PackSegments(s.buf.segments))
  }

  method ChunksToHandover(chunks: seq<Chunk>) returns (out: seq<HandoverChunk>)
    ensures out == PackChunks(chunks)
  {
    var filled := new HandoverChunk[|chunks|];
    for i := 0 to |chunks|
      invariant forall j :: 0 <= j < i ==> filled[j] == PackChunk(chunks[j])
    {
      filled[i] := HandoverChunk(chunks[i].seqNo, chunks[i].time, chunks[i].data);
    }
    out := filled[..];
  }

  /** The chunks that were packed, with their byte count taken afresh. */
  method ChunksFromHandover(hcs: seq<HandoverChunk>) returns (out: seq<Chunk>, bytes: nat)
    ensures PackChunks(out) == hcs && bytes == RawBytes(out)
  {
    var filled := new Chunk[|hcs|];
    bytes := 0;
    for i := 0 to |hcs|
      invariant PackChunks(filled[..i]) == hcs[..i]
      invariant bytes == RawBytes(filled[..i])
    {
      ghost var before := filled[..i];
      filled[i] := Chunk(hcs[i].s, hcs[i].d, hcs[i].t);
      bytes := bytes + |hcs[i].d|;
      assert filled[..i + 1] == before + [filled[i]];
      RawBytesConcat(before, [filled[i]]);
    }
    assert filled[..|hcs|] == filled[..];
    out := filled[..];
  }

  /** The segments that were packed, with both byte counters taken afresh. */
  method SegmentsFromHandover(hcs: seq<HandoverSegment>) returns (segs: seq<Segment>, packed: nat, unpacked: nat)
    ensures PackSegments(segs) == hcs && packed == PackedBytes(segs) && unpacked == UnpackedBytes(segs)
  {
    segs, packed, unpacked := [], 0, 0;
    for i := 0 to |hcs|
      invariant PackSegments(segs) == hcs[..i] && packed == PackedBytes(segs) && unpacked == UnpackedBytes(segs)
    {
      var hc := hcs[i];
      var seg := Segment(hc.ss, hc.es, hc.rb, hc.d, hc.o, hc.n);
      SumsAppend(segs, seg);
      segs := segs + [seg];
      packed := packed + |hc.d|;
      unpacked := unpacked + hc.rb;
    }
  }

  // Restoring a session.

  /** b is what the written form describes: its tiers, true counters, no compression in flight. */
  ghost predicate Restores(hs: HandoverSession, b: Buffer) {
    && b.last == hs.seqNo && !b.flushing && Counted(b)
    && PackChunks(b.hot) == hs.hot && PackChunks(b.pending) == hs.coldPending && PackSegments(b.segments) == hs.cold
  }

  /** restoreSession, buffer and modes: the session's state rebuilt from its written form alone. */
  method RestoreSession(hs: HandoverSession) returns (ring: OutputRing, modes: ModeTracker.Tracker)
    ensures Restores(hs, ring.View())
    ensures modes.View() == ModeTracker.Fold(ModeTracker.FRESH, hs.termModes)
  {
    hide ModeTracker.Fold, ModeTracker.Step, RawBytes, PackedBytes, UnpackedBytes, PackChunks, PackSegments;
    var hot, hotBytes := ChunksFromHandover(hs.hot);
    var pending, pendingBytes := ChunksFromHandover(hs.coldPending);
    var segments, packed, unpacked := SegmentsFromHandover(hs.cold);
    ring := new OutputRing();
    ring.seqNo := hs.seqNo;
    ring.outputChunks, ring.outputBufferBytes := hot, hotBytes;
    ring.coldPending, ring.coldPendingBytes := pending, pendingBytes;
    ring.coldSegments, ring.coldBytes, ring.coldRawBytes := segments, packed, unpacked;
    modes := new ModeTracker.Tracker();
    modes.Scan(hs.termModes);
  }

  /** The same tiers with true counters and no compression in flight. */
  function Reborn(b: Buffer): Buffer {
    Buffer(b.last, b.hot, RawBytes(b.hot), b.pending, RawBytes(b.pending),
           b.segments, PackedBytes(b.segments), UnpackedBytes(b.segments), false)
  }

  lemma ChunksUnpack(a: seq<Chunk>, b: seq<Chunk>)
    requires PackChunks(a) == PackChunks(b)
    ensures a == b
  {
    assert forall i :: 0 <= i < |a| ==> PackChunks(a)[i] == PackChunks(b)[i];
    assert forall i :: 0 <= i < |a| ==> PackChunk(a[i]) == PackChunk(b[i]);
  }

  lemma SegmentsUnpack(a: seq<Segment>, b: seq<Segment>)
    requires PackSegments(a) == PackSegments(b)
    ensures a == b
  {
    assert forall i :: 0 <= i < |a| ==> PackSegments(a)[i] == PackSegments(b)[i];
    assert forall i :: 0 <= i < |a| ==> PackSegment(a[i]) == PackSegment(b[i]);
  }

  /** The written form determines the buffer: a restored session can only be the one that was written. */
  lemma WrittenFormIsFaithful(s: Session, b: Buffer)
    requires s.ptyDup.Some?
    ensures Restores(Pack(s), b) <==> b == Reborn(s.buf)
  {
    if Restores(Pack(s), b) {
      ChunksUnpack(b.hot, s.buf.hot);
      ChunksUnpack(b.pending, s.buf.pending);
      SegmentsUnpack(b.segments, s.buf.segments);
    }
  }

  /** The state of a session after a handover: the compressing goroutine is gone. */
  function AfterHandover(s: Sys): Sys { Sys(Reborn(s.buf), [], s.log) }

  /**
   A handover at any step, even with a compression in flight, gives a session
   that satisfies every buffer invariant, differs from the original in nothing
   but the flag, and answers every resync the same.
   */
  lemma HandoverFidelity(c: Codec, s: Sys, from: nat)
    requires Inv(c, s)
    ensures Inv(c, AfterHandover(s))
    ensures AfterHandover(s).buf == s.buf.(flushing := false)
    ensures Contents(c, AfterHandover(s).buf) == Contents(c, s.buf)
    ensures ResyncBatch(c, AfterHandover(s).buf, from) == ResyncBatch(c, s.buf, from)
    ensures DroppedNotice(AfterHandover(s).buf, from) <==> DroppedNotice(s.buf, from)
  {
    hide LogOk, RawOk, ColdOk, Ascending, ColdFrames, Items, RawBytes, PackedBytes, UnpackedBytes, TakeSegments,
         SegmentsFrom, From;
  }

  // Runs with handovers.

  datatype Turn = Do(e: Event) | Handover

  ghost predicate TurnsOk(ts: seq<Turn>) {
    |ts| < MAX_OFFSET && forall i :: 0 <= i < |ts| && ts[i].Do? ==> EventOk(ts[i].e)
  }

  /** The state after a run in which the server restarts any number of times, at any points. */
  ghost function TurnRun(c: Codec, ts: seq<Turn>): (s: Sys)
    requires Invertible(c) && TurnsOk(ts)
    ensures Inv(c, s) && s.buf.last <= |ts|
  {
    if ts == [] then START
    else
      var s := TurnRun(c, ts[..|ts| - 1]);
      match ts[|ts| - 1]
      case Do(e) => StepKeepsInv(c, s, e); StepLast(c, s, e); Step(c, s, e)
      case Handover => HandoverFidelity(c, s, 0); AfterHandover(s)
  }

  /** Some step between restarts dropped chunk n, with a reason. */
  ghost predicate LostInTurns(c: Codec, ts: seq<Turn>, n: nat)
    requires Invertible(c) && TurnsOk(ts)
  {
    ts != [] &&
    (LostInTurns(c, ts[..|ts| - 1], n) ||
     (ts[|ts| - 1].Do? && Drops(c, TurnRun(c, ts[..|ts| - 1]), ts[|ts| - 1].e, n)))
  }

  lemma {:induction false} LostWasLogged(c: Codec, ts: seq<Turn>, n: nat)
    requires Invertible(c) && TurnsOk(ts) && LostInTurns(c, ts, n)
    ensures 1 <= n <= TurnRun(c, ts).buf.last
  {
    hide Contents, Ascending, ColdOk, RawOk, LogOk, Counted, Excuse, Step;
    var init, t := ts[..|ts| - 1], ts[|ts| - 1];
    var p := TurnRun(c, init);
    if t.Do? {
      StepLast(c, p, t.e);
    }
    if LostInTurns(c, init, n) {
      LostWasLogged(c, init, n);
    } else if Retained(c, p, n) {
      RetainedIsLogged(c, p, n);
    }
  }

  /** Conservation across restarts: a handover itself never loses, repeats or reorders a chunk. */
  lemma {:induction false} ConservationAcrossRestarts(c: Codec, ts: seq<Turn>, n: nat)
    requires Invertible(c) && TurnsOk(ts)
    requires 1 <= n <= TurnRun(c, ts).buf.last
    ensures Retained(c, TurnRun(c, ts), n) <==> !LostInTurns(c, ts, n)
    ensures Retained(c, TurnRun(c, ts), n) ==> Item(TurnRun(c, ts).log[n - 1]) in Contents(c, TurnRun(c, ts).buf)
    ensures Ascending(Contents(c, TurnRun(c, ts).buf))
  {
    hide Contents, Ascending, ColdOk, RawOk, LogOk, Counted, Excuse, Step;
    var init, t := ts[..|ts| - 1], ts[|ts| - 1];
    var p := TurnRun(c, init);
    match t {
      case Do(e) =>
        StepLast(c, p, e);
        StepConserves(c, p, e, n);
        if n <= p.buf.last {
          ConservationAcrossRestarts(c, init, n);
        } else if LostInTurns(c, init, n) {
          LostWasLogged(c, init, n);
        }
      case Handover =>
        ConservationAcrossRestarts(c, init, n);
        HandoverFidelity(c, p, 0);
    }
    if Retained(c, TurnRun(c, ts), n) {
      RetainedIsLogged(c, TurnRun(c, ts), n);
    }
  }

  predicate TurnPass(t: Turn) { t.Do? && IsPass(t.e) }

  function TurnClock(start: int, ts: seq<Turn>): int {
    if ts == [] then start
    else
      var t := TurnClock(start, ts[..|ts| - 1]);
      if ts[|ts| - 1].Do? then EventClock(t, ts[|ts| - 1].e) else t
  }

  /** The clock is monotone across restarts and no compression fails. */
  predicate OrderlyTurns(start: int, ts: seq<Turn>) {
    ts == [] ||
    (var init, t := ts[..|ts| - 1], ts[|ts| - 1];
     && OrderlyTurns(start, init)
     && (t.Do? ==> OnTime(TurnClock(start, init), t.e) && (t.e.FlushEnd? ==> t.e.ok)))
  }

  lemma {:induction false} TurnsKeepHolesAged(c: Codec, start: int, ts: seq<Turn>)
    requires Invertible(c) && TurnsOk(ts) && OrderlyTurns(start, ts)
    ensures TimesOk(TurnRun(c, ts).log, TurnClock(start, ts)) && HolesAged(c, TurnRun(c, ts), TurnClock(start, ts))
  {
    if ts == [] {
      assert TurnRun(c, ts) == START;
    } else {
      var init, t := ts[..|ts| - 1], ts[|ts| - 1];
      TurnsKeepHolesAged(c, start, init);
      var p := TurnRun(c, init);
      hide Inv, Step, TimesOk, HolesAged, Contents;
      match t
      case Do(e) => StepKeepsHolesAged(c, p, TurnClock(start, init), e);
      case Handover =>
        HandoverFidelity(c, p, 0);
        SameContentsSameHoles(c, p, AfterHandover(p), TurnClock(start, init));
    }
  }

  ghost function TurnStates(c: Codec, ts: seq<Turn>): (ss: seq<Sys>)
    requires Invertible(c) && TurnsOk(ts)
    ensures |ss| == |ts| + 1 && ss[|ts|] == TurnRun(c, ts)
  {
    if ts == [] then [TurnRun(c, ts)] else TurnStates(c, ts[..|ts| - 1]) + [TurnRun(c, ts)]
  }

  lemma TurnMoves(c: Codec, ts: seq<Turn>)
    requires Invertible(c) && TurnsOk(ts) && ts != []
    ensures Moves(c, TurnRun(c, ts[..|ts| - 1]), TurnRun(c, ts)) && Inv(c, TurnRun(c, ts))
  {
    hide Inv, Step;
    var p, t := TurnRun(c, ts[..|ts| - 1]), ts[|ts| - 1];
    if t.Do? {
      StepMoves(c, p, t.e);
    }
  }

  lemma NoTurns(c: Codec)
    requires Invertible(c)
    ensures TurnsOk([]) && TurnRun(c, []) == START
  {
  }

  lemma {:induction false} TurnStatesAreHistory(c: Codec, ts: seq<Turn>)
    requires Invertible(c) && TurnsOk(ts)
    ensures History(c, TurnStates(c, ts))
  {
    hide Inv, Moves, History, TurnRun;
    if ts == [] {
      StartHistory(c);
      NoTurns(c);
    } else {
      TurnStatesAreHistory(c, ts[..|ts| - 1]);
      TurnMoves(c, ts);
      HistoryGrows(c, TurnStates(c, ts[..|ts| - 1]), TurnRun(c, ts));
    }
  }

  /**
   Restarts open no hole: after a quiet pass the same limits and the same exact
   condition on the compressions that made the held segments apply.
   */
  lemma PassEndsTurns(c: Codec, start: int, ts: seq<Turn>)
    requires Invertible(c) && TurnsOk(ts) && OrderlyTurns(start, ts)
    requires ts != [] && TurnPass(ts[|ts| - 1]) && !TurnRun(c, ts).buf.flushing
    ensures var b := TurnRun(c, ts).buf;
            |b.hot| <= MAX_HOT_CHUNKS && RawBytes(b.hot) <= MAX_HOT_BYTES && PackedBytes(b.segments) <= MAX_COLD_BYTES
    ensures GaplessSuffix(c, TurnRun(c, ts)) <==> HeldClaimsClean(c, TurnStates(c, ts))
  {
    hide Inv, Step, TimesOk, HolesAged, RawBytes, PackedBytes, SegmentsGapless, GaplessSuffix, HeldClaimsClean, History,
         TurnStates;
    var init, t := ts[..|ts| - 1], ts[|ts| - 1];
    TurnsKeepHolesAged(c, start, init);
    PassLeaves(c, TurnRun(c, init), TurnClock(start, init), t.e);
    TurnStatesAreHistory(c, ts);
    SegmentsGaplessIffClean(c, TurnStates(c, ts));
  }

  // Terminal modes.

  /** The scanner is in text, or in a private sequence it has already given up on. */
  predicate Quiet(t: ModeTracker.State) { t.scan.Ground? || (t.scan.Private? && t.invalid) }

  predicate Alike(a: ModeTracker.State, b: ModeTracker.State)
    requires ModeTracker.Valid(a) && ModeTracker.Valid(b)
  {
    && a.diff == b.diff && (Quiet(a) <==> Quiet(b))
    && (!Quiet(a) ==> a.scan == b.scan)
    && (!Quiet(a) && a.scan.Private? ==> a.nparams == b.nparams && a.params[..a.nparams] == b.params[..b.nparams])
  }

  lemma AlikeStep(a: ModeTracker.State, b: ModeTracker.State, x: byte)
    requires ModeTracker.Valid(a) && ModeTracker.Valid(b) && Alike(a, b)
    ensures Alike(ModeTracker.Step(a, x), ModeTracker.Step(b, x))
  {
    hide ModeTracker.SetModes;
    if !Quiet(a) && a.scan.Private? {
      AlikePrivate(a, b, x);
    }
  }

  lemma AlikePrivate(a: ModeTracker.State, b: ModeTracker.State, x: byte)
    requires ModeTracker.Valid(a) && ModeTracker.Valid(b) && Alike(a, b) && !Quiet(a) && a.scan.Private?
    ensures Alike(ModeTracker.StepPrivate(a, x), ModeTracker.StepPrivate(b, x))
  {
    hide ModeTracker.SetModes;
    var n := a.nparams;
    assert a.params[..n][n - 1] == b.params[..n][n - 1];
    var a', b' := ModeTracker.StepPrivate(a, x), ModeTracker.StepPrivate(b, x);
    assert forall i :: 0 <= i < n ==> a.params[..n][i] == a.params[i] && b.params[..n][i] == b.params[i];
    assert forall i :: 0 <= i < n ==> a.params[i] == b.params[i];
    assert a'.params[..a'.nparams] == b'.params[..b'.nparams];
  }

  lemma {:induction false} AlikeFold(a: ModeTracker.State, b: ModeTracker.State, p: seq<byte>)
    requires ModeTracker.Valid(a) && ModeTracker.Valid(b) && Alike(a, b)
    ensures Alike(ModeTracker.Fold(a, p), ModeTracker.Fold(b, p))
    decreases |p|
  {
    hide Alike, ModeTracker.Step;
    if p == [] {
    } else {
      AlikeStep(a, b, p[0]);
      AlikeFold(ModeTracker.Step(a, p[0]), ModeTracker.Step(b, p[0]), p[1..]);
    }
  }

  /** The tracker of the restored session. */
  function RestoredModes(t: ModeTracker.State): (r: ModeTracker.State)
    requires ModeTracker.Valid(t)
    ensures ModeTracker.Valid(r)
  {
    ModeTracker.Fold(ModeTracker.FRESH, ModeTracker.RestoreBytes(t.diff))
  }

  /** Later output that sets or resets application cursor keys from inside an unfinished sequence. */
  function Completion(t: ModeTracker.State): seq<byte> {
    if t.scan.Esc? then [if ModeTracker.KEYPAD in t.diff then 0x3e else 0x3d]
    else (if t.scan.Csi? then [ModeTracker.QUESTION] else [ModeTracker.SEMICOLON])
         + [0x31, if 11 in t.diff then ModeTracker.RESET else ModeTracker.SET]
  }

  lemma {:induction false} NoEscNoChange(t: ModeTracker.State, p: seq<byte>)
    requires ModeTracker.Valid(t) && t.scan.Ground? && forall i :: 0 <= i < |p| ==> p[i] != ModeTracker.ESC
    ensures ModeTracker.Fold(t, p) == t
    decreases |p|
  {
    if p == [] {
    } else {
      NoEscNoChange(t, p[1..]);
    }
  }

  lemma ThreeBytes(t: ModeTracker.State, p: seq<byte>)
    requires ModeTracker.Valid(t) && |p| == 3
    ensures ModeTracker.Fold(t, p) == ModeTracker.Step(ModeTracker.Step(ModeTracker.Step(t, p[0]), p[1]), p[2])
  {
    hide ModeTracker.Step;
    var t1 := ModeTracker.Step(t, p[0]);
    var t2 := ModeTracker.Step(t1, p[1]);
    assert ModeTracker.Fold(t, p) == ModeTracker.Fold(t1, p[1..]);
    assert ModeTracker.Fold(t1, p[1..]) == ModeTracker.Fold(t2, p[1..][1..]);
    assert p[1..][1..][1..] == [];
    assert ModeTracker.Fold(t2, p[1..][1..]) == ModeTracker.Fold(ModeTracker.Step(t2, p[2]), []);
  }

  lemma FinalFlips(t: ModeTracker.State, on: bool)
    requires ModeTracker.Valid(t) && t.scan.Private? && !t.invalid && t.params[t.nparams - 1] == 1
    ensures 11 in ModeTracker.Step(t, if on then ModeTracker.SET else ModeTracker.RESET).diff <==> on
  {
    var nums := t.params[..t.nparams];
    assert nums[t.nparams - 1] in nums;
    ModeTracker.SetModesMeaning(t.diff, nums, on, 11);
    hide ModeTracker.SetModes;
  }

  /** Inside an unfinished sequence, some continuation changes the original's modes. */
  lemma CompletionCounts(t: ModeTracker.State)
    requires ModeTracker.Valid(t) && !Quiet(t)
    ensures ModeTracker.Fold(t, Completion(t)).diff != t.diff
  {
    var p := Completion(t);
    if t.scan.Esc? {
      assert ModeTracker.Fold(t, p) == ModeTracker.Fold(ModeTracker.Step(t, p[0]), []);
    } else {
      ThreeBytes(t, p);
      var t1 := ModeTracker.Step(t, p[0]);
      assert t1.scan.Private? && !t1.invalid && t1.params[t1.nparams - 1] == 0 && t1.diff == t.diff;
      var t2 := ModeTracker.Step(t1, 0x31);
      assert t2.scan.Private? && !t2.invalid && t2.params[t2.nparams - 1] == 1 && t2.diff == t.diff;
      FinalFlips(t2, 11 !in t.diff);
    }
  }

  /**
   The tracked modes cross a handover exactly. What does not cross is an
   unfinished escape sequence: the restored session follows the original on
   every later output if and only if the cut fell in no such sequence.
   */
  lemma ModesCross(t: ModeTracker.State)
    requires ModeTracker.Valid(t)
    ensures RestoredModes(t).diff == t.diff
    ensures Quiet(t) <==> forall p :: ModeTracker.Fold(RestoredModes(t), p).diff == ModeTracker.Fold(t, p).diff
  {
    ModeTracker.RestoreRoundTrip(t);
    var r := RestoredModes(t);
    hide RestoredModes, Completion, ModeTracker.Fold;
    if Quiet(t) {
      forall p ensures ModeTracker.Fold(r, p).diff == ModeTracker.Fold(t, p).diff { AlikeFold(r, t, p); }
    } else {
      CompletionCounts(t);
      CompletionHasNoEsc(t);
      NoEscNoChange(r, Completion(t));
    }
  }

  lemma CompletionHasNoEsc(t: ModeTracker.State)
    ensures forall i :: 0 <= i < |Completion(t)| ==> Completion(t)[i] != ModeTracker.ESC
  {
  }

  // Writing: locks and descriptors.

  datatype Lock = ManagerLock | SessionLock(id: SessionId)

  /** What WriteHandover hands back on success: the state written and what abort must undo. */
  datatype Written = Written(state: HandoverState, dupFds: seq<Fd>, locked: seq<SessionId>)

  function SocketFd(s: Socket): Option<Fd> { if s.Socket? && s.supported then s.dup else None }

  predicate SocketWritable(s: Socket) { s.Socket? ==> s.supported && s.dup.Some? }

  predicate SessionWritable(s: Session) { s.alive ==> s.ptyDup.Some? && SocketWritable(s.socket) }

  /** Nothing refuses to be duplicated. */
  predicate Writable(shared: Socket, sessions: seq<Session>) {
    SocketWritable(shared) && forall i :: 0 <= i < |sessions| ==> SessionWritable(sessions[i])
  }

  function FdList(fd: Option<Fd>): seq<Fd> { if fd.Some? then [fd.value] else [] }

  function SessionFds(s: Session): seq<Fd> {
    if !s.alive || s.ptyDup.None? then [] else [s.ptyDup.value] + FdList(SocketFd(s.socket))
  }

  /** The descriptors duplicated up to and including these sessions, in order. */
  function DupFds(shared: Socket, sessions: seq<Session>): seq<Fd> {
    if sessions == [] then FdList(SocketFd(shared))
    else DupFds(shared, sessions[..|sessions| - 1]) + SessionFds(sessions[|sessions| - 1])
  }

  function PackAll(sessions: seq<Session>): seq<HandoverSession>
    requires forall i :: 0 <= i < |sessions| ==> SessionWritable(sessions[i])
  {
    if sessions == [] then []
    else
      var s := sessions[|sessions| - 1];
      assert SessionWritable(s);
      PackAll(sessions[..|sessions| - 1]) + if s.alive then [Pack(s)] else []
  }

  /** The sessions that have a PTY and a child, in order. */
  function Living(sessions: seq<Session>): seq<Session> {
    if sessions == [] then []
    else Living(sessions[..|sessions| - 1]) + if sessions[|sessions| - 1].alive then [sessions[|sessions| - 1]] else []
  }

  /**
   The entry of session s: its id, a buffer that can only be restored as the
   tiers of s, and terminal modes that give a fresh tracker the modes of s.
   */
  ghost predicate Describes(hs: HandoverSession, s: Session) {
    && hs.id == s.id
    && (forall b :: Restores(hs, b) <==> b == Reborn(s.buf))
    && ModeTracker.Fold(ModeTracker.FRESH, hs.termModes).diff == s.modes.diff
    && ModeTracker.Fold(ModeTracker.FRESH, hs.termModes).scan.Ground?
  }

  ghost predicate ModesOk(sessions: seq<Session>) {
    forall i :: 0 <= i < |sessions| ==> ModeTracker.Valid(sessions[i].modes)
  }

  ghost predicate DescribesAll(hss: seq<HandoverSession>, live: seq<Session>) {
    |hss| == |live| && forall i :: 0 <= i < |live| ==> Describes(hss[i], live[i])
  }

  lemma EntryDescribes(s: Session)
    requires s.ptyDup.Some? && ModeTracker.Valid(s.modes)
    ensures Describes(Pack(s), s)
  {
    ModeTracker.RestoreRoundTrip(s.modes);
    hide ModeTracker.RestoreBytes, ModeTracker.Fold, Restores, Reborn;
    forall b ensures Restores(Pack(s), b) <==> b == Reborn(s.buf) { WrittenFormIsFaithful(s, b); }
  }

  /** A written state has one entry for each living session, in order, and each describes its session. */
  lemma {:induction false} StateDescribes(sessions: seq<Session>)
    requires (forall i :: 0 <= i < |sessions| ==> SessionWritable(sessions[i])) && ModesOk(sessions)
    ensures DescribesAll(PackAll(sessions), Living(sessions))
  {
    if sessions == [] {
    } else {
      var init, s := sessions[..|sessions| - 1], sessions[|sessions| - 1];
      StateDescribes(init);
      assert SessionWritable(s);
      if s.alive {
        EntryDescribes(s);
      }
      hide Describes, Pack;
    }
  }

  function StateFds(st: HandoverState): seq<Fd> { FdList(st.sharedQuicFd) + AllFds(st.sessions) }

  function AllFds(hss: seq<HandoverSession>): seq<Fd> {
    if hss == [] then []
    else AllFds(hss[..|hss| - 1]) + [hss[|hss| - 1].ptyFd] + FdList(hss[|hss| - 1].quicFd)
  }

  function Elements<T>(xs: seq<T>): set<T> { set x | x in xs }

  function Ids(sessions: seq<Session>): (ids: seq<SessionId>)
    ensures |ids| == |sessions| && forall i :: 0 <= i < |sessions| ==> ids[i] == sessions[i].id
  {
    seq(|sessions|, i requires 0 <= i < |sessions| => sessions[i].id)
  }

  lemma {:induction false} DupFdsPrefix(shared: Socket, sessions: seq<Session>, i: nat)
    requires i <= |sessions|
    ensures DupFds(shared, sessions[..i]) <= DupFds(shared, sessions)
    decreases |sessions| - i
  {
    if i == |sessions| {
      assert sessions[..i] == sessions;
    } else {
      DupFdsPrefix(shared, sessions, i + 1);
      assert sessions[..i + 1][..i] == sessions[..i];
    }
  }

  lemma DupFdsStep(shared: Socket, sessions: seq<Session>, i: nat)
    requires i < |sessions|
    ensures DupFds(shared, sessions[..i + 1]) == DupFds(shared, sessions[..i]) + SessionFds(sessions[i])
  {
    assert sessions[..i + 1][..i] == sessions[..i];
  }

  lemma AppendedFds(shared: seq<Fd>, before: seq<Fd>, s: Session)
    requires s.alive && s.ptyDup.Some?
    ensures shared + (before + [s.ptyDup.value] + FdList(SocketFd(s.socket))) == shared + before + SessionFds(s)
  {
  }

  /** The next duplicated descriptor is not open yet. */
  lemma NextFd(done: seq<Fd>, more: seq<Fd>, all: seq<Fd>)
    requires done + more <= all && Distinct(all) && more != []
    ensures more[0] !in Elements(done) && Distinct(done)
    ensures Distinct(done + [more[0]]) && done + [more[0]] <= all
    ensures Elements(done + [more[0]]) == Elements(done) + {more[0]} <= Elements(all)
  {
    assert all[|done|] == (done + more)[|done|] == more[0];
    assert forall i :: 0 <= i < |done| ==> all[i] == (done + more)[i] == done[i];
  }

  lemma FdsOrder(done: seq<Fd>, s: Session)
    requires s.alive && s.ptyDup.Some?
    ensures done + [s.ptyDup.value] + FdList(SocketFd(s.socket)) == done + SessionFds(s)
    ensures SessionFds(s)[0] == s.ptyDup.value
  {
  }

  lemma ReleaseFacts(dupFds: seq<Fd>, all: seq<Fd>, was: set<Fd>)
    requires dupFds <= all && Distinct(all) && Elements(all) !! was
    ensures Distinct(dupFds) && Elements(dupFds) !! was
    ensures was + Elements(dupFds) - Elements(dupFds) == was
  {
    assert forall i :: 0 <= i < |dupFds| ==> dupFds[i] == all[i];
    assert forall x :: x in dupFds ==> x in all;
  }

  lemma PrefixDistinct(ids: seq<SessionId>, k: nat)
    requires Distinct(ids) && k <= |ids|
    ensures Distinct(ids[..k])
  {
  }

  /** The first i sessions have been written. */
  ghost predicate Progress(shared: Socket, sessions: seq<Session>, i: nat, dupFds: seq<Fd>, locked: seq<SessionId>,
                           out: seq<HandoverSession>) {
    && i <= |sessions| && Writable(shared, sessions[..i])
    && dupFds == DupFds(shared, sessions[..i])
    && locked == Ids(sessions)[..i]
    && out == PackAll(sessions[..i])
  }

  /** After the shared socket, before the first session. */
  lemma ProgressStart(shared: Socket, sessions: seq<Session>)
    ensures Elements<Fd>([]) == {} && HeldBy([]) == {ManagerLock} && Ids(sessions)[..0] == []
    ensures [] + FdList(SocketFd(shared)) <= DupFds(shared, sessions)
    ensures if SocketWritable(shared) then Progress(shared, sessions, 0, [] + FdList(SocketFd(shared)), [], [])
            else !Writable(shared, sessions)
  {
    DupFdsPrefix(shared, sessions, 0);
    assert sessions[..0] == [];
    assert [] + FdList(SocketFd(shared)) == FdList(SocketFd(shared));
  }

  lemma WritableStep(shared: Socket, sessions: seq<Session>, i: nat)
    requires i < |sessions|
    ensures Writable(shared, sessions[..i + 1]) <==> Writable(shared, sessions[..i]) && SessionWritable(sessions[i])
  {
    hide SessionWritable;
    assert sessions[..i + 1] == sessions[..i] + [sessions[i]];
    assert sessions[..i + 1][i] == sessions[i];
  }

  lemma Refused(shared: Socket, sessions: seq<Session>, i: nat)
    requires i < |sessions| && !SessionWritable(sessions[i])
    ensures !Writable(shared, sessions)
  {
  }

  lemma ProgressStep(shared: Socket, sessions: seq<Session>, i: nat, dupFds: seq<Fd>, locked: seq<SessionId>,
                     out: seq<HandoverSession>)
    requires i < |sessions| && Progress(shared, sessions, i, dupFds, locked, out) && Distinct(Ids(sessions))
    ensures var id := sessions[i].id;
            && dupFds + SessionFds(sessions[i]) <= DupFds(shared, sessions)
            && SessionLock(id) !in HeldBy(locked) && HeldBy(locked + [id]) == HeldBy(locked) + {SessionLock(id)}
            && locked + [id] == Ids(sessions)[..i + 1] && |locked| == i
            && (SessionWritable(sessions[i]) ==>
                  Progress(shared, sessions, i + 1, dupFds + SessionFds(sessions[i]), locked + [id],
                           out + if sessions[i].alive then assert sessions[i].ptyDup.Some?; [Pack(sessions[i])] else []))
  {
    hide DupFds, SessionFds, HeldBy, Distinct, SessionWritable, PackAll, Pack, Writable, Ids;
    DupFdsStep(shared, sessions, i);
    DupFdsPrefix(shared, sessions, i + 1);
    WritableStep(shared, sessions, i);
    LockStep(sessions, i);
    if SessionWritable(sessions[i]) {
      WrittenBefore(shared, sessions, i);
      PackAllStep(sessions, i);
    }
  }

  lemma WrittenBefore(shared: Socket, sessions: seq<Session>, i: nat)
    requires i < |sessions| && Writable(shared, sessions[..i]) && SessionWritable(sessions[i])
    ensures forall j :: 0 <= j < i ==> SessionWritable(sessions[..i][j])
    ensures sessions[i].alive ==> sessions[i].ptyDup.Some?
  {
  }

  lemma LockStep(sessions: seq<Session>, i: nat)
    requires i < |sessions| && Distinct(Ids(sessions))
    ensures var id, locked := sessions[i].id, Ids(sessions)[..i];
            && locked + [id] == Ids(sessions)[..i + 1] && |locked| == i
            && SessionLock(id) !in HeldBy(locked) && HeldBy(locked + [id]) == HeldBy(locked) + {SessionLock(id)}
  {
    HeldStep(Ids(sessions), i);
    hide HeldBy, Distinct;
    assert Ids(sessions)[..i + 1] == Ids(sessions)[..i] + [sessions[i].id];
  }

  lemma ProgressEnd(shared: Socket, sessions: seq<Session>, dupFds: seq<Fd>, locked: seq<SessionId>,
                    out: seq<HandoverSession>)
    requires Progress(shared, sessions, |sessions|, dupFds, locked, out)
    ensures Writable(shared, sessions) && dupFds == DupFds(shared, sessions)
    ensures locked == Ids(sessions) && out == PackAll(sessions)
  {
    assert sessions[..|sessions|] == sessions;
  }

  lemma PackAllStep(sessions: seq<Session>, i: nat)
    requires i < |sessions| && (forall j :: 0 <= j < i ==> SessionWritable(sessions[..i][j])) && SessionWritable(sessions[i])
    ensures PackAll(sessions[..i + 1]) == PackAll(sessions[..i]) + if sessions[i].alive then [Pack(sessions[i])] else []
  {
    assert sessions[..i + 1][..i] == sessions[..i];
    assert sessions[..i + 1][i] == sessions[i];
  }

  /** The written state names exactly the duplicated descriptors. */
  lemma {:induction false} StateNamesFds(shared: Socket, sessions: seq<Session>)
    requires Writable(shared, sessions)
    ensures StateFds(HandoverState(SocketFd(shared), PackAll(sessions))) == DupFds(shared, sessions)
  {
    if sessions == [] {
    } else {
      var init, s := sessions[..|sessions| - 1], sessions[|sessions| - 1];
      StateNamesFds(shared, init);
      assert SessionWritable(s);
      var hss, before := PackAll(sessions), PackAll(init);
      if s.alive {
        assert hss[..|hss| - 1] == before;
        AppendedFds(FdList(SocketFd(shared)), AllFds(before), s);
      } else {
        assert before + [] == before;
      }
    }
  }

  /** The locks one goroutine holds and the descriptors the process has open. */
  class Process {
    var held: set<Lock>
    var openFds: set<Fd>

    /** Locking a mutex one already holds would deadlock. */
    method Acquire(l: Lock)
      requires l !in held
      modifies this
      ensures held == old(held) + {l} && openFds == old(openFds)
    {
      held := held + {l};
    }

    /** Unlocking a mutex that is not locked is fatal. */
    method Unlock(l: Lock)
      requires l in held
      modifies this
      ensures held == old(held) - {l} && openFds == old(openFds)
    {
      held := held - {l};
    }

    /** The kernel answers with a descriptor that is not in use. */
    method Dup(fd: Fd)
      requires fd !in openFds
      modifies this
      ensures openFds == old(openFds) + {fd} && held == old(held)
    {
      openFds := openFds + {fd};
    }

    method CloseFd(fd: Fd)
      requires fd in openFds
      modifies this
      ensures openFds == old(openFds) - {fd} && held == old(held)
    {
      openFds := openFds - {fd};
    }

    /** release, which is also the abort handed to the caller: every descriptor, then every lock, newest first. */
    method Release(dupFds: seq<Fd>, locked: seq<SessionId>)
      requires Distinct(dupFds) && Elements(dupFds) <= openFds
      requires Distinct(locked) && held == HeldBy(locked)
      modifies this
      ensures openFds == old(openFds) - Elements(dupFds)
      ensures held == {}
    {
      for i := 0 to |dupFds|
        invariant held == old(held)
        invariant forall j :: i <= j < |dupFds| ==> dupFds[j] in openFds
        invariant openFds == old(openFds) - Elements(dupFds[..i])
      {
        CloseFd(dupFds[i]);
        assert Elements(dupFds[..i + 1]) == Elements(dupFds[..i]) + {dupFds[i]};
      }
      assert dupFds[..|dupFds|] == dupFds;
      assert locked[..|locked|] == locked;
      for i := |locked| downto 0
        invariant openFds == old(openFds) - Elements(dupFds)
        invariant held == HeldBy(locked[..i])
      {
        HeldStep(locked, i);
        Unlock(SessionLock(locked[i]));
      }
      Unlock(ManagerLock);
    }

    /**
     The handover is written if and only if nothing refuses to be duplicated
     and the encoder succeeds. On failure no lock is held and no descriptor is
     left open; on success every lock is held and exactly the descriptors the
     written state names are open in addition.
     */
    method WriteHandover(shared: Socket, sessions: seq<Session>, encodes: bool) returns (r: Option<Written>)
      requires held == {} && Distinct(Ids(sessions))
      requires Distinct(DupFds(shared, sessions)) && Elements(DupFds(shared, sessions)) !! openFds
      modifies this
      ensures r.Some? <==> Writable(shared, sessions) && encodes
      ensures r.None? ==> held == {} && openFds == old(openFds)
      ensures r.Some? ==>
                && r.value.state == HandoverState(SocketFd(shared), PackAll(sessions))
                && (ModesOk(sessions) ==> DescribesAll(r.value.state.sessions, Living(sessions)))
                && r.value.dupFds == StateFds(r.value.state) && r.value.locked == Ids(sessions)
                && held == HeldBy(r.value.locked)
                && openFds == old(openFds) + Elements(r.value.dupFds)
    {
      hide SessionWritable, SocketWritable, Pack, PackAll, DupFds, HeldBy, Elements, Distinct, DescribesAll, Living, ModesOk;
      ghost var all, was := DupFds(shared, sessions), openFds;
      var ok, dupFds, locked, out := WriteAll(shared, sessions);
      if !ok || !encodes {
        ReleaseFacts(dupFds, all, was);
        PrefixDistinct(Ids(sessions), |locked|);
        Release(dupFds, locked);
        return None;
      }
      StateNamesFds(shared, sessions);
      if ModesOk(sessions) {
        StateDescribes(sessions);
      }
      r := Some(Written(HandoverState(SocketFd(shared), out), dupFds, locked));
    }

    /** The body of WriteHandover up to the encoder; a refusal leaves it early, to be released by the caller. */
    method WriteAll(shared: Socket, sessions: seq<Session>)
      returns (ok: bool, dupFds: seq<Fd>, locked: seq<SessionId>, out: seq<HandoverSession>)
      requires held == {} && Distinct(Ids(sessions))
      requires Distinct(DupFds(shared, sessions)) && Elements(DupFds(shared, sessions)) !! openFds
      modifies this
      ensures ok == Writable(shared, sessions)
      ensures |locked| <= |sessions| && locked == Ids(sessions)[..|locked|] && held == HeldBy(locked)
      ensures dupFds <= DupFds(shared, sessions) && openFds == old(openFds) + Elements(dupFds)
      ensures ok ==> dupFds == DupFds(shared, sessions) && locked == Ids(sessions) && out == PackAll(sessions)
    {
      hide *;
      ghost var all, was := DupFds(shared, sessions), openFds;
      ProgressStart(shared, sessions);
      Acquire(ManagerLock);
      ok, dupFds := DupSocket(shared, [], all, was);
      locked, out := [], [];
      if !ok {
        return;
      }
      for i := 0 to |sessions|
        invariant Progress(shared, sessions, i, dupFds, locked, out)
        invariant openFds == was + Elements(dupFds) && held == HeldBy(locked)
      {
        ProgressStep(shared, sessions, i, dupFds, locked, out);
        Acquire(SessionLock(sessions[i].id));
        locked := locked + [sessions[i].id];
        var hs;
        ok, dupFds, hs := WriteSession(sessions[i], dupFds, all, was);
        if !ok {
          Refused(shared, sessions, i);
          return;
        }
        out := out + hs;
      }
      ProgressEnd(shared, sessions, dupFds, locked, out);
      ok := true;
    }

    /** Duplicate a transport's socket, if there is one; `was` is what was open before the handover. */
    method DupSocket(socket: Socket, done: seq<Fd>, ghost all: seq<Fd>, ghost was: set<Fd>)
      returns (ok: bool, dupFds: seq<Fd>)
      requires done + FdList(SocketFd(socket)) <= all && Distinct(all) && Elements(all) !! was
      requires openFds == was + Elements(done)
      modifies this
      ensures ok == SocketWritable(socket) && held == old(held)
      ensures dupFds == done + FdList(SocketFd(socket))
      ensures openFds == was + Elements(dupFds)
    {
      dupFds := done;
      if socket.NoSocket? {
        return true, done;
      }
      if !socket.supported || socket.dup.None? {
        return false, done;
      }
      NextFd(done, [socket.dup.value], all);
      Dup(socket.dup.value);
      ok, dupFds := true, done + [socket.dup.value];
    }

    /** The part of the loop between taking a session's lock and the next session. */
    method WriteSession(s: Session, done: seq<Fd>, ghost all: seq<Fd>, ghost was: set<Fd>)
      returns (ok: bool, dupFds: seq<Fd>, out: seq<HandoverSession>)
      requires done + SessionFds(s) <= all && Distinct(all) && Elements(all) !! was
      requires openFds == was + Elements(done)
      modifies this
      ensures ok == SessionWritable(s) && held == old(held)
      ensures dupFds == done + SessionFds(s)
      ensures openFds == was + Elements(dupFds)
      ensures ok ==> out == if s.alive then [Pack(s)] else []
    {
      dupFds, out := done, [];
      if !s.alive {
        return true, done, [];
      }
      if s.ptyDup.None? {
        return false, done, [];
      }
      NextFd(done, SessionFds(s), all);
      FdsOrder(done, s);
      Dup(s.ptyDup.value);
      dupFds := done + [s.ptyDup.value];
      var hot := ChunksToHandover(s.buf.hot);
      var pending := ChunksToHandover(s.buf.pending);
      var cold := SegmentsToHandover(s.buf.segments);
      ok, dupFds := DupSocket(s.socket, dupFds, all, was);
      var quicFd := if s.socket.Socket? then s.socket.dup else None;
      out := [HandoverSession(s.id, s.buf.last, s.ptyDup.value, quicFd,
                              ModeTracker.RestoreBytes(s.modes.diff), hot, pending, cold)];
    }

    /**
     restoreSession, descriptors: the PTY and the session's own socket were
     inherited. The answers are whether the child exists, the agent listener
     that could be opened, the duplicate made of the socket, and whether a
     transport could be built and started on it. Every failing path closes what
     was inherited and what was made of it, but a failing transport leaves the
     agent listener open.
     */
    method RestoreDescriptors(ptyFd: Fd, quicFd: Option<Fd>, shared: bool, child: bool,
                              agent: Option<Fd>, conn: Option<Fd>, built: bool, started: bool) returns (ok: bool)
      requires ptyFd in openFds && (quicFd.Some? ==> quicFd.value in openFds && quicFd.value != ptyFd)
      requires (conn.Some? ==> conn.value !in openFds) && (agent.Some? ==> agent.value !in openFds && agent != conn)
      modifies this
      ensures held == old(held)
      ensures ok <==> child && (shared || quicFd.None? || (conn.Some? && built && started))
      ensures var ln := if child then Elements(FdList(agent)) else {};
              openFds == ln + if ok then RestoredFds(old(openFds), quicFd, shared, conn)
                              else old(openFds) - {ptyFd} - Elements(FdList(quicFd))
      ensures ok ==> ptyFd in openFds && (quicFd.Some? && quicFd.value in openFds <==> quicFd.Some? && shared)
    {
      if !child {
        CloseFd(ptyFd);
        if quicFd.Some? {
          CloseFd(quicFd.value);
        }
        return false;
      }
      if agent.Some? {
        Dup(agent.value);
      }
      if shared || quicFd.None? {
        return true;
      }
      if conn.Some? {
        Dup(conn.value);
      }
      CloseFd(quicFd.value);
      if conn.None? {
        CloseFd(ptyFd);
        return false;
      }
      if !built || !started {
        CloseFd(conn.value);
        CloseFd(ptyFd);
        return false;
      }
      ok := true;
    }

    /** When the exec fails, abort leaves the process as it was before the handover. */
    method FailedExec(shared: Socket, sessions: seq<Session>, encodes: bool)
      requires held == {} && Distinct(Ids(sessions))
      requires Distinct(DupFds(shared, sessions)) && Elements(DupFds(shared, sessions)) !! openFds
      modifies this
      ensures held == {} && openFds == old(openFds)
    {
      var r := WriteHandover(shared, sessions, encodes);
      if r.Some? {
        StateNamesFds(shared, sessions);
        Release(r.value.dupFds, r.value.locked);
      }
    }
  }

  /** What is open once a session is restored: its socket is replaced by the duplicate its transport uses. */
  function RestoredFds(before: set<Fd>, quicFd: Option<Fd>, shared: bool, conn: Option<Fd>): set<Fd> {
    if shared || quicFd.None? then before
    else before - {quicFd.value} + Elements(FdList(conn))
  }

  method SegmentsToHandover(segs: seq<Segment>) returns (out: seq<HandoverSegment>)
    ensures out == PackSegments(segs)
  {
    out := [];
    for i := 0 to |segs|
      invariant out == PackSegments(segs[..i])
    {
      var seg := segs[i];
      out := out + [HandoverSegment(seg.startSeq, seg.endSeq, seg.rawBytes, seg.data, seg.oldestTime, seg.newestTime)];
    }
    assert segs[..|segs|] == segs;
  }

  /** The manager lock and the locks of these sessions. */
  function HeldBy(ids: seq<SessionId>): set<Lock> {
    {ManagerLock} + set id | id in ids :: SessionLock(id)
  }

  lemma HeldStep(ids: seq<SessionId>, i: nat)
    requires i < |ids| && Distinct(ids)
    ensures HeldBy(ids[..i + 1]) == HeldBy(ids[..i]) + {SessionLock(ids[i])}
    ensures SessionLock(ids[i]) !in HeldBy(ids[..i])
  {
    assert ids[..i + 1] == ids[..i] + [ids[i]];
  }
}
