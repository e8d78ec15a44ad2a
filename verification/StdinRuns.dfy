/**
 Whole runs of the stdin machine: for every division of the input into reads
 and every timer firing, when what is sent and what is still buffered is the
 typed input in order, and when every packet is made of whole characters.
 */
module StdinRuns {
  import opened Bytes
  import opened Stdin

  // What should reach the server: the bytes typed, without the escape key's commands.

  datatype Pay = Pay(pressed: bool, bytes: seq<byte>, ended: bool)

  function PayStep(c: Config, p: Pay, b: byte): Pay {
    if p.ended then p
    else if p.pressed then
      if b == 0x2e || (b == 0x71 && !c.readOnly) then p.(pressed := false, ended := true)
      else if b == c.escapeByte then p.(pressed := false, bytes := p.bytes + [b])
      else p.(pressed := false)
    else if b == c.escapeByte then p.(pressed := true)
    else p.(bytes := p.bytes + [b])
  }

  function PayAll(c: Config, p: Pay, data: seq<byte>): Pay
    decreases |data|
  {
    if data == [] then p else PayAll(c, PayStep(c, p, data[0]), data[1..])
  }

  // UTF-8, as far as lead bytes announce continuation bytes.

  /** `got` bytes of a character were read and `need` are still to come; both are zero between characters. */
  datatype Utf8 = Utf8(need: nat, got: nat) | Malformed

  function UtfStep(u: Utf8, b: byte): Utf8 {
    if u.Malformed? then u
    else if u.need == 0 then
      if b < 0x80 then Utf8(0, 0) else if b >= 0xc0 then Utf8(Expect(b) - 1, 1) else Malformed
    else if 0x80 <= b < 0xc0 then (if u.need == 1 then Utf8(0, 0) else Utf8(u.need - 1, u.got + 1))
    else Malformed
  }

  function UtfAll(u: Utf8, data: seq<byte>): Utf8
    decreases |data|
  {
    if data == [] then u else UtfAll(UtfStep(u, data[0]), data[1..])
  }

  lemma {:induction false} MalformedStays(data: seq<byte>)
    ensures UtfAll(Malformed, data) == Malformed
  {
    if data == [] {
    } else {
      MalformedStays(data[1..]);
    }
  }

  lemma {:induction false} UtfConcat(u: Utf8, a: seq<byte>, b: seq<byte>)
    ensures UtfAll(u, a + b) == UtfAll(UtfAll(u, a), b)
    decreases |a|
  {
    if a == [] {
      assert a + b == b;
    } else {
      assert (a + b)[1..] == a[1..] + b;
      UtfConcat(UtfStep(u, a[0]), a[1..], b);
    }
  }

  // The hold-back agrees with UTF-8.

  lemma TrailSpec(buf: seq<byte>)
    ensures var t := Trail(buf);
            t > 0 ==> buf[|buf| - t] >= 0xc0 && t < Expect(buf[|buf| - t])
                      && forall k :: |buf| - t < k < |buf| ==> 0x80 <= buf[k] < 0xc0
  {
    assert Trail(buf) == TrailFrom(buf, 1);
    if |buf| >= 2 {
      assert TrailFrom(buf, 2) == TrailFrom(buf, 2);
    }
    if |buf| >= 3 {
      assert TrailFrom(buf, 3) == TrailFrom(buf, 3);
      assert TrailFrom(buf, 4) == 0;
    }
  }

  lemma {:induction false} TrailFromShift(buf: seq<byte>, b: byte, i: nat)
    requires i >= 1
    ensures TrailFrom(buf + [b], i + 1) ==
            if TrailFrom(buf, i) == 0 || TrailFrom(buf, i) + 1 > 3 ||
               TrailFrom(buf, i) + 1 >= Expect(buf[|buf| - TrailFrom(buf, i)]) then 0
            else TrailFrom(buf, i) + 1
    decreases 4 - i
  {
    if i > 3 || i > |buf| {
    } else {
      assert (buf + [b])[|buf + [b]| - (i + 1)] == buf[|buf| - i];
      if 0x80 <= buf[|buf| - i] < 0xc0 {
        TrailFromShift(buf, b, i + 1);
      }
    }
  }

  /** How the hold-back changes as bytes arrive. */
  lemma TrailPush(buf: seq<byte>, b: byte)
    ensures b < 0x80 ==> Trail(buf + [b]) == 0
    ensures b >= 0xc0 ==> Trail(buf + [b]) == 1
    ensures 0x80 <= b < 0xc0 ==>
              Trail(buf + [b]) == if Trail(buf) == 0 || Trail(buf) + 1 >= Expect(buf[|buf| - Trail(buf)]) then 0 else Trail(buf) + 1
  {
    assert (buf + [b])[|buf + [b]| - 1] == b;
    TrailFromShift(buf, b, 1);
    TrailSpec(buf);
  }

  /** What is held back is still an unfinished character on its own. */
  lemma TrailHold(buf: seq<byte>)
    ensures Trail(buf[|buf| - Trail(buf)..]) == Trail(buf)
  {
    var t := Trail(buf);
    var held := buf[|buf| - t..];
    TrailSpec(buf);
    if t > 0 {
      assert forall k :: 0 <= k < t ==> held[k] == buf[|buf| - t + k];
      TrailIs(held, t, 1);
    }
  }

  lemma {:induction false} TrailIs(held: seq<byte>, t: nat, i: nat)
    requires 1 <= i <= t == |held| <= 3 && held[0] >= 0xc0 && t < Expect(held[0])
    requires forall k :: 0 < k <= t - i ==> 0x80 <= held[k] < 0xc0
    ensures TrailFrom(held, i) == t
    decreases t - i
  {
    if i == t {
    } else {
      assert 0x80 <= held[t - i] < 0xc0;
      TrailIs(held, t, i + 1);
    }
  }

  /** The buffer ends in the character being read, or its hold-back is empty. */
  ghost predicate Tuned(buf: seq<byte>, u: Utf8) {
    || Trail(buf) == 0
    || (u.Utf8? && u.need > 0 && Trail(buf) == u.got && Expect(buf[|buf| - u.got]) == u.need + u.got)
  }

  lemma TunedPush(buf: seq<byte>, u: Utf8, b: byte)
    requires Tuned(buf, u) && UtfStep(u, b).Utf8?
    ensures Tuned(buf + [b], UtfStep(u, b))
  {
    TrailPush(buf, b);
    TrailSpec(buf);
    if Trail(buf) > 0 && 0x80 <= b < 0xc0 {
      assert (buf + [b])[|buf + [b]| - (u.got + 1)] == buf[|buf| - u.got];
    }
    if b >= 0xc0 {
      assert (buf + [b])[|buf + [b]| - 1] == b;
    }
  }

  lemma {:induction false} TunedRun(buf: seq<byte>, u: Utf8, run: seq<byte>)
    requires Tuned(buf, u) && UtfAll(u, run).Utf8?
    ensures Tuned(buf + run, UtfAll(u, run))
    decreases |run|
  {
    if run == [] {
      assert buf + run == buf;
    } else {
      if UtfStep(u, run[0]).Malformed? {
        MalformedStays(run[1..]);
      }
      TunedPush(buf, u, run[0]);
      assert buf + run == (buf + [run[0]]) + run[1..];
      TunedRun(buf + [run[0]], UtfStep(u, run[0]), run[1..]);
    }
  }

  // Steps, runs and guards.

  /** The byte is handled on its own rather than as part of a run. */
  predicate Single(c: Config, s: State, b: byte) {
    s.pressed || b == c.escapeByte || b == ESC || s.escActive
  }

  function ByteStep(c: Config, s: State, b: byte): State
    requires Single(c, s, b)
  {
    if s.pressed then Command(c, s, b)
    else if b == c.escapeByte then s.(pressed := true)
    else if b == ESC then BeginEsc(s)
    else ExtendEsc(s, b)
  }

  /** A doubled escape key that is sent past bytes still waiting in a buffer. */
  predicate Overtakes(c: Config, s: State, b: byte) {
    s.pressed && b == c.escapeByte && s.escBuf + s.inBuf != []
  }

  /** An ESC that starts a batch of its own while the start of a character is held back. */
  predicate Strands(c: Config, s: State, b: byte) {
    !s.pressed && b == ESC && b != c.escapeByte && FlushInput(FlushEsc(s)).inBuf != []
  }

  /** What a run may have to avoid: bytes out of order, overtaking keys alone, or lead bytes taken as commands. */
  datatype Guard = NoReordering | NoOvertaking | NoEatenLead

  predicate Allowed(g: Guard, c: Config, s: State, b: byte) {
    match g
    case NoReordering => !Overtakes(c, s, b) && !Strands(c, s, b)
    case NoOvertaking => !Overtakes(c, s, b)
    case NoEatenLead => s.pressed ==> b < 0xc0
  }

  /** The rest of this read meets nothing the guard excludes. */
  predicate AllowedFrom(g: Guard, c: Config, s: State, data: seq<byte>, i: nat)
    requires i <= |data|
    decreases |data| - i
  {
    i == |data| || s.ended ||
    if Single(c, s, data[i]) then Allowed(g, c, s, data[i]) && AllowedFrom(g, c, ByteStep(c, s, data[i]), data, i + 1)
    else
      var j := RunEnd(c, data, i + 1);
      AllowedFrom(g, c, Type(s, data[i..j]), data, j)
  }

  datatype Event = Read(data: seq<byte>) | Timer

  /** After detach or kill the machine has returned and takes no further event. */
  function Next(c: Config, s: State, e: Event): State {
    if s.ended then s
    else
      match e
      case Read(data) => HandleRead(c, s, data)
      case Timer => HandleTimer(s)
  }

  function Run(c: Config, es: seq<Event>): State {
    if es == [] then START else Next(c, Run(c, es[..|es| - 1]), es[|es| - 1])
  }

  function EventBytes(e: Event): seq<byte> { if e.Read? then e.data else [] }

  /** Everything read from stdin. */
  function Typed(es: seq<Event>): seq<byte> {
    if es == [] then [] else Typed(es[..|es| - 1]) + EventBytes(es[|es| - 1])
  }

  predicate AllowedRun(g: Guard, c: Config, es: seq<Event>) {
    es == [] ||
    (AllowedRun(g, c, es[..|es| - 1]) && AllowedFrom(g, c, Run(c, es[..|es| - 1]), EventBytes(es[|es| - 1]), 0))
  }

  const NOTHING := Pay(false, [], false)
  const BETWEEN := Utf8(0, 0)

  lemma ReadSingle(c: Config, s: State, data: seq<byte>, i: nat)
    requires i < |data| && !s.ended && Single(c, s, data[i])
    ensures ReadFrom(c, s, data, i) == ReadFrom(c, ByteStep(c, s, data[i]), data, i + 1)
  {
    hide Command, BeginEsc, ExtendEsc;
  }

  lemma ReadRun(c: Config, s: State, data: seq<byte>, i: nat)
    requires i < |data| && !s.ended && !Single(c, s, data[i])
    ensures var j := RunEnd(c, data, i + 1);
            && ReadFrom(c, s, data, i) == ReadFrom(c, Type(s, data[i..j]), data, j)
            && data[i..] == data[i..j] + data[j..]
            && forall b :: b in data[i..j] ==> b != ESC && b != c.escapeByte
  {
    hide Type;
  }

  lemma Rest(data: seq<byte>, i: nat)
    requires i < |data|
    ensures data[i..] != [] && data[i..][0] == data[i] && data[i..][1..] == data[i + 1..]
  {
  }

  // Order.

  function Flat(ps: seq<seq<byte>>): seq<byte> {
    if ps == [] then [] else Flat(ps[..|ps| - 1]) + ps[|ps| - 1]
  }

  lemma FlatSnoc(ps: seq<seq<byte>>, p: seq<byte>)
    ensures Flat(ps + [p]) == Flat(ps) + p
  {
    assert (ps + [p])[..|ps|] == ps;
  }

  /** Everything sent, then everything buffered. */
  function Kept(s: State): seq<byte> { Flat(s.sent) + s.escBuf + s.inBuf }

  /** The escape key is a control character (cmd/tezzer/main.go, parseEscapeKey). */
  predicate ConfigOk(c: Config) { c.escapeByte <= 0x1f || c.escapeByte == 0x7f }

  /** While an ESC batch is open, the other buffer holds at most the start of a character. */
  ghost predicate Shape(c: Config, s: State, p: Pay) {
    && s.pressed == p.pressed && s.ended == p.ended
    && (s.escActive <==> s.escBuf != [])
    && (s.escActive ==> s.escBuf[0] == ESC && Trail(s.inBuf) == |s.inBuf|)
    && |s.escBuf| < MAX_ESC
    && c.escapeByte !in s.escBuf && c.escapeByte !in s.inBuf
  }

  ghost predicate InStep(s: State, p: Pay) {
    Kept(s) == p.bytes && (s.escBuf == [] || s.inBuf == [])
  }

  /** What was sent differs from what was typed at some position, for good. */
  ghost predicate Broken(s: State, p: Pay) {
    exists k :: 0 <= k < |Flat(s.sent)| && k < |p.bytes| && Flat(s.sent)[k] != p.bytes[k]
  }

  /** The next byte to be sent is not the next byte typed. */
  ghost predicate AboutToBreak(s: State, p: Pay) {
    && s.escActive && s.inBuf != []
    && |Flat(s.sent)| < |p.bytes| && p.bytes[|Flat(s.sent)|] >= 0x80
  }

  ghost predicate Doomed(s: State, p: Pay) { Broken(s, p) || AboutToBreak(s, p) }

  ghost predicate Grows(s: State, p: Pay, s': State, p': Pay) {
    Flat(s.sent) <= Flat(s'.sent) && p.bytes <= p'.bytes
  }

  /** One step kept everything in order, or put it out of order for good. */
  ghost predicate Verdict(s: State, p: Pay, s': State, p': Pay, clean: bool) {
    && Grows(s, p, s', p')
    && (InStep(s, p) && clean ==> InStep(s', p'))
    && (InStep(s, p) && !clean ==> Doomed(s', p'))
    && (Doomed(s, p) ==> Doomed(s', p'))
  }

  lemma VerdictCompose(s: State, p: Pay, s1: State, p1: Pay, s2: State, p2: Pay, clean1: bool, clean2: bool)
    requires Verdict(s, p, s1, p1, clean1) && Verdict(s1, p1, s2, p2, clean2)
    ensures Verdict(s, p, s2, p2, clean1 && clean2)
  {
    hide Doomed, InStep, Flat;
  }

  lemma BrokenStays(s: State, p: Pay, s': State, p': Pay)
    requires Broken(s, p) && Grows(s, p, s', p')
    ensures Broken(s', p')
  {
    hide Flat;
    var k :| 0 <= k < |Flat(s.sent)| && k < |p.bytes| && Flat(s.sent)[k] != p.bytes[k];
    assert Flat(s'.sent)[k] == Flat(s.sent)[k] && p'.bytes[k] == p.bytes[k];
  }

  lemma DoomedIsDifferent(c: Config, s: State, p: Pay)
    requires Shape(c, s, p) && Doomed(s, p)
    ensures Kept(s) != p.bytes
  {
    hide Flat, Trail;
    if Broken(s, p) {
      var k :| 0 <= k < |Flat(s.sent)| && k < |p.bytes| && Flat(s.sent)[k] != p.bytes[k];
      assert Kept(s)[k] == Flat(s.sent)[k];
    } else {
      assert Kept(s)[|Flat(s.sent)|] == s.escBuf[0];
    }
  }

  /** A byte below 0x80 sent at a position where a larger one was typed. */
  lemma Breaks(s: State, p: Pay, s': State, p': Pay, packet: seq<byte>)
    requires AboutToBreak(s, p) && p.bytes <= p'.bytes
    requires s'.sent == s.sent + [packet] && packet != [] && packet[0] < 0x80
    ensures Broken(s', p')
  {
    FlatSnoc(s.sent, packet);
    hide Flat;
    var k := |Flat(s.sent)|;
    assert Flat(s'.sent)[k] == packet[0];
    assert p'.bytes[k] == p.bytes[k];
  }

  lemma FlushEscKeeps(c: Config, s: State, p: Pay)
    requires Shape(c, s, p)
    ensures Shape(c, FlushEsc(s), p) && Verdict(s, p, FlushEsc(s), p, true)
    ensures !FlushEsc(s).escActive && FlushEsc(s).escBuf == [] && FlushEsc(s).inBuf == s.inBuf
  {
    hide Flat, Trail;
    var s' := FlushEsc(s);
    if s.escActive {
      FlatSnoc(s.sent, s.escBuf);
      assert Flat(s.sent) + s.escBuf + s.inBuf == (Flat(s.sent) + s.escBuf) + [] + s.inBuf;
      hide Kept, Broken;
      if Broken(s, p) {
        BrokenStays(s, p, s', p);
      } else if AboutToBreak(s, p) {
        Breaks(s, p, s', p, s.escBuf);
      }
    }
  }

  lemma CutInTwo(sent: seq<byte>, buf: seq<byte>, cut: nat)
    requires cut <= |buf|
    ensures sent + [] + buf == (sent + buf[..cut]) + [] + buf[cut..]
    ensures cut == 0 ==> buf[cut..] == buf
    ensures cut == |buf| ==> buf[cut..] == []
    ensures forall b :: b in buf[cut..] ==> b in buf
  {
  }

  lemma FlushInputKeeps(c: Config, s: State, p: Pay)
    requires Shape(c, s, p)
    ensures Shape(c, FlushInput(s), p) && Verdict(s, p, FlushInput(s), p, true)
    ensures s.escActive ==> FlushInput(s) == s
  {
    hide Trail, Flat;
    var s' := FlushInput(s);
    if s.inBuf != [] {
      var cut := |s.inBuf| - Trail(s.inBuf);
      CutInTwo(Flat(s.sent), s.inBuf, cut);
      if !s.escActive {
        FlatSnoc(s.sent, s.inBuf[..cut]);
        hide Kept, Broken;
        if Broken(s, p) {
          BrokenStays(s, p, s', p);
        }
      }
    }
  }

  lemma CommandKeeps(c: Config, s: State, p: Pay, b: byte)
    requires ConfigOk(c) && Shape(c, s, p) && s.pressed && !s.ended
    ensures var s', p' := Command(c, s, b), PayStep(c, p, b);
            Shape(c, s', p') && Verdict(s, p, s', p', !Overtakes(c, s, b))
  {
    hide Flat, Trail;
    var s', p' := Command(c, s, b), PayStep(c, p, b);
    if b == c.escapeByte {
      FlatSnoc(s.sent, [b]);
      if Broken(s, p) {
        BrokenStays(s, p, s', p');
      } else if AboutToBreak(s, p) {
        Breaks(s, p, s', p', [b]);
      }
      if Overtakes(c, s, b) {
        PushedIn(Flat(s.sent), s.escBuf, s.inBuf, b);
      } else {
        assert s.escBuf == [] && s.inBuf == [];
        assert Flat(s.sent) + [b] + [] + [] == Flat(s.sent) + [] + [] + [b];
      }
    }
  }

  /** A byte sent ahead of others stands where the first of them should. */
  lemma PushedIn(sent: seq<byte>, escBuf: seq<byte>, inBuf: seq<byte>, b: byte)
    requires escBuf + inBuf != [] && b !in escBuf && b !in inBuf
    ensures var typed := sent + escBuf + inBuf + [b];
            |sent| < |typed| && (sent + [b])[|sent|] != typed[|sent|]
  {
    var waiting := escBuf + inBuf;
    assert waiting[0] in waiting;
    assert (sent + escBuf + inBuf + [b])[|sent|] == waiting[0];
  }

  lemma ShiftLast(sent: seq<byte>, buf: seq<byte>, b: byte)
    ensures sent + (buf + [b]) + [] == sent + buf + [] + [b]
    ensures sent + (buf + [b]) == sent + (buf + [b]) + [] + []
    ensures [] + [b] == [b]
  {
  }

  /** What FlushInput leaves behind is the start of a character. */
  lemma FlushLeavesHeld(s: State)
    ensures var held := FlushInput(s).inBuf;
            Trail(held) == |held| && (held != [] ==> held[0] >= 0xc0)
  {
    TrailHold(s.inBuf);
    TrailSpec(s.inBuf);
    hide Trail;
    if s.inBuf != [] {
      var cut := |s.inBuf| - Trail(s.inBuf);
      assert cut < |s.inBuf| ==> s.inBuf[cut..][0] == s.inBuf[cut];
    } else {
      EmptyTrail();
    }
  }

  lemma EmptyTrail()
    ensures Trail([]) == 0
  {
  }

  /** The new batch opens behind both flushes; a held character is left behind it. */
  lemma OpenEsc(c: Config, s2: State, p: Pay)
    requires Shape(c, s2, p) && !s2.escActive && !s2.pressed && !s2.ended && ESC != c.escapeByte
    requires Trail(s2.inBuf) == |s2.inBuf| && (s2.inBuf != [] ==> s2.inBuf[0] >= 0xc0)
    ensures var s', p' := s2.(escActive := true, escBuf := [ESC]), PayStep(c, p, ESC);
            Shape(c, s', p') && Verdict(s2, p, s', p', s2.inBuf == [])
  {
    hide Flat, Trail;
    var s', p' := s2.(escActive := true, escBuf := [ESC]), PayStep(c, p, ESC);
    ShiftLast(Flat(s2.sent), [], ESC);
    if Broken(s2, p) {
      BrokenStays(s2, p, s', p');
    }
    if InStep(s2, p) && s2.inBuf != [] {
      assert p.bytes == Flat(s2.sent) + s2.inBuf;
      assert p'.bytes[|Flat(s2.sent)|] == s2.inBuf[0];
    }
  }

  lemma BeginEscKeeps(c: Config, s: State, p: Pay)
    requires Shape(c, s, p) && !s.pressed && !s.ended && ESC != c.escapeByte
    ensures var s', p' := BeginEsc(s), PayStep(c, p, ESC);
            Shape(c, s', p') && Verdict(s, p, s', p', !Strands(c, s, ESC))
  {
    hide Flat, Trail, Verdict, FlushEsc, FlushInput;
    FlushEscKeeps(c, s, p);
    var s1 := FlushEsc(s);
    FlushInputKeeps(c, s1, p);
    FlushLeavesHeld(s1);
    var s2 := FlushInput(s1);
    FlushFrame(s1);
    OpenEsc(c, s2, p);
    var s', p' := BeginEsc(s), PayStep(c, p, ESC);
    hide Shape, PayStep;
    VerdictCompose(s, p, s1, p, s2, p, true, true);
    VerdictCompose(s, p, s2, p, s', p', true, s2.inBuf == []);
  }

  lemma FlushFrame(s: State)
    ensures var s' := FlushInput(s); s' == s.(sent := s'.sent, inBuf := s'.inBuf)
  {
  }

  lemma FullEscIsFlushed(buf: seq<byte>)
    requires !ShouldFlushEsc(buf)
    ensures |buf| < MAX_ESC
  {
  }

  lemma ExtendEscKeeps(c: Config, s: State, p: Pay, b: byte)
    requires Shape(c, s, p) && !s.pressed && !s.ended && s.escActive && b != c.escapeByte && b != ESC
    ensures var s', p' := ExtendEsc(s, b), PayStep(c, p, b);
            Shape(c, s', p') && Verdict(s, p, s', p', true)
  {
    hide ShouldFlushEsc, Flat, Trail;
    var s', p' := ExtendEsc(s, b), PayStep(c, p, b);
    var grown := s.escBuf + [b];
    ShiftLast(Flat(s.sent), s.escBuf, b);
    FlatSnoc(s.sent, grown);
    if !ShouldFlushEsc(grown) {
      FullEscIsFlushed(grown);
    }
    if Broken(s, p) {
      BrokenStays(s, p, s', p');
    } else if AboutToBreak(s, p) && ShouldFlushEsc(grown) {
      Breaks(s, p, s', p', grown);
    }
  }

  lemma {:induction false} PayRun(c: Config, p: Pay, run: seq<byte>)
    requires !p.pressed && !p.ended && c.escapeByte !in run
    ensures PayAll(c, p, run) == p.(bytes := p.bytes + run)
    decreases |run|
  {
    if run == [] {
      assert p.bytes + run == p.bytes;
    } else {
      assert (p.bytes + [run[0]]) + run[1..] == p.bytes + run;
      PayRun(c, p.(bytes := p.bytes + [run[0]]), run[1..]);
    }
  }

  lemma TypeKeeps(c: Config, s: State, p: Pay, run: seq<byte>)
    requires Shape(c, s, p) && !s.pressed && !s.ended && !s.escActive && c.escapeByte !in run
    ensures var s', p' := Type(s, run), PayAll(c, p, run);
            Shape(c, s', p') && Verdict(s, p, s', p', true)
  {
    PayRun(c, p, run);
    hide PayAll, FlushInput, Flat, Trail;
    var s1, p' := s.(inBuf := s.inBuf + run), p.(bytes := p.bytes + run);
    assert Flat(s.sent) + s.escBuf + (s.inBuf + run) == Flat(s.sent) + s.escBuf + s.inBuf + run;
    if Broken(s, p) {
      BrokenStays(s, p, s1, p');
    }
    assert Shape(c, s1, p') && Verdict(s, p, s1, p', true);
    hide Verdict, Shape;
    FlushInputKeeps(c, s1, p');
    VerdictCompose(s, p, s1, p', FlushInput(s1), p', true, true);
  }

  lemma {:induction false} PayEnded(c: Config, p: Pay, data: seq<byte>)
    requires p.ended
    ensures PayAll(c, p, data) == p
  {
    if data == [] {
    } else {
      PayEnded(c, p, data[1..]);
    }
  }

  lemma {:induction false} PayConcat(c: Config, p: Pay, a: seq<byte>, b: seq<byte>)
    ensures PayAll(c, p, a + b) == PayAll(c, PayAll(c, p, a), b)
    decreases |a|
  {
    if a == [] {
      assert a + b == b;
    } else {
      assert (a + b)[1..] == a[1..] + b;
      PayConcat(c, PayStep(c, p, a[0]), a[1..], b);
    }
  }

  lemma SingleKeeps(c: Config, s: State, p: Pay, b: byte)
    requires ConfigOk(c) && Shape(c, s, p) && !s.ended && Single(c, s, b)
    ensures var s', p' := ByteStep(c, s, b), PayStep(c, p, b);
            Shape(c, s', p') && Verdict(s, p, s', p', Allowed(NoReordering, c, s, b))
  {
    hide Command, BeginEsc, ExtendEsc, FlushInput, FlushEsc, Trail;
    if s.pressed {
      CommandKeeps(c, s, p, b);
    } else if b == c.escapeByte {
      hide Flat;
    } else if b == ESC {
      BeginEscKeeps(c, s, p);
    } else {
      ExtendEscKeeps(c, s, p, b);
    }
  }

  lemma SameVerdict(s: State, p: Pay)
    ensures Verdict(s, p, s, p, true)
  {
    hide Flat;
  }

  lemma {:induction false} ReadKeeps(c: Config, s: State, p: Pay, data: seq<byte>, i: nat)
    requires ConfigOk(c) && Shape(c, s, p) && i <= |data|
    ensures var s', p' := ReadFrom(c, s, data, i), PayAll(c, p, data[i..]);
            Shape(c, s', p') && Verdict(s, p, s', p', AllowedFrom(NoReordering, c, s, data, i))
    decreases |data| - i
  {
    hide Verdict, Allowed, ByteStep, Type, PayStep;
    if i == |data| {
      SameVerdict(s, p);
    } else if s.ended {
      PayEnded(c, p, data[i..]);
      SameVerdict(s, p);
    } else {
      var b := data[i];
      Rest(data, i);
      if Single(c, s, b) {
        SingleKeeps(c, s, p, b);
        ReadSingle(c, s, data, i);
        var s1, p1 := ByteStep(c, s, b), PayStep(c, p, b);
        ReadKeeps(c, s1, p1, data, i + 1);
        hide Shape, ReadFrom;
        VerdictCompose(s, p, s1, p1, ReadFrom(c, s1, data, i + 1), PayAll(c, p1, data[i + 1..]),
                       Allowed(NoReordering, c, s, b), AllowedFrom(NoReordering, c, s1, data, i + 1));
      } else {
        ReadRun(c, s, data, i);
        var j := RunEnd(c, data, i + 1);
        var run := data[i..j];
        TypeKeeps(c, s, p, run);
        PayConcat(c, p, run, data[j..]);
        var s1, p1 := Type(s, run), PayAll(c, p, run);
        ReadKeeps(c, s1, p1, data, j);
        hide Shape, ReadFrom, PayAll;
        VerdictCompose(s, p, s1, p1, ReadFrom(c, s1, data, j), PayAll(c, p1, data[j..]),
                       true, AllowedFrom(NoReordering, c, s1, data, j));
      }
    }
  }

  lemma NextKeeps(c: Config, s: State, p: Pay, e: Event)
    requires ConfigOk(c) && Shape(c, s, p)
    ensures var s', p' := Next(c, s, e), PayAll(c, p, EventBytes(e));
            Shape(c, s', p') && Verdict(s, p, s', p', AllowedFrom(NoReordering, c, s, EventBytes(e), 0))
  {
    var data := EventBytes(e);
    assert data[0..] == data;
    ReadKeeps(c, s, p, data, 0);
    if s.ended {
      assert ReadFrom(c, s, data, 0) == s;
    } else if e.Timer? {
      assert PayAll(c, p, []) == p;
      hide Verdict, Shape, FlushEsc, FlushInput;
      FlushEscKeeps(c, s, p);
      FlushInputKeeps(c, FlushEsc(s), p);
      VerdictCompose(s, p, FlushEsc(s), p, FlushInput(FlushEsc(s)), p, true, true);
    } else {
      hide ReadFrom, AllowedFrom, PayAll, Verdict, FlushInput;
      var s1, p1 := ReadFrom(c, s, data, 0), PayAll(c, p, data);
      FlushInputKeeps(c, s1, p1);
      hide Shape;
      VerdictCompose(s, p, s1, p1, FlushInput(s1), p1, AllowedFrom(NoReordering, c, s, data, 0), true);
    }
  }

  lemma {:induction false} RunKeeps(c: Config, es: seq<Event>)
    requires ConfigOk(c)
    ensures var s, p := Run(c, es), PayAll(c, NOTHING, Typed(es));
            Shape(c, s, p) && Verdict(START, NOTHING, s, p, AllowedRun(NoReordering, c, es))
  {
    if es == [] {
      SameVerdict(START, NOTHING);
    } else {
      var init, e := es[..|es| - 1], es[|es| - 1];
      PayConcat(c, NOTHING, Typed(init), EventBytes(e));
      RunKeeps(c, init);
      hide Shape, Verdict, PayAll, AllowedFrom, Next;
      var s, p := Run(c, init), PayAll(c, NOTHING, Typed(init));
      NextKeeps(c, s, p, e);
      VerdictCompose(START, NOTHING, s, p, Next(c, s, e), PayAll(c, p, EventBytes(e)),
                     AllowedRun(NoReordering, c, init), AllowedFrom(NoReordering, c, s, EventBytes(e), 0));
    }
  }

  /**
   For all input, every division of it into reads and every timer firing: what
   was sent followed by what is buffered is the typed input in order, if and
   only if no doubled escape key arrived while bytes were waiting and no ESC
   while the start of a character was held back. In order, the two buffers are
   never both in use; the ESC buffer always stays under its limit.
   */
  lemma InOrderIffClean(c: Config, es: seq<Event>)
    requires ConfigOk(c)
    ensures var s := Run(c, es);
            && (Flat(s.sent) + s.escBuf + s.inBuf == PayAll(c, NOTHING, Typed(es)).bytes
                <==> AllowedRun(NoReordering, c, es))
            && (AllowedRun(NoReordering, c, es) ==> s.escBuf == [] || s.inBuf == [])
            && |s.escBuf| < MAX_ESC
  {
    RunKeeps(c, es);
    var s, p := Run(c, es), PayAll(c, NOTHING, Typed(es));
    hide PayAll, Run, AllowedRun, Flat, Trail;
    assert InStep(START, NOTHING) by { NothingSent(); }
    if Doomed(s, p) {
      DoomedIsDifferent(c, s, p);
    }
  }

  lemma NothingSent()
    ensures Kept(START) == []
  {
  }

  // UTF-8 input.

  lemma TunedHold(buf: seq<byte>, u: Utf8)
    requires Tuned(buf, u)
    ensures Tuned(buf[|buf| - Trail(buf)..], u)
    ensures u.Utf8? && u.need == 0 ==> Trail(buf) == 0
  {
    TrailHold(buf);
    TrailSpec(buf);
    hide Trail;
    if Trail(buf) > 0 {
      assert buf[|buf| - Trail(buf)..][0] == buf[|buf| - Trail(buf)];
    }
  }

  lemma TunedAtRest(buf: seq<byte>, u: Utf8, u': Utf8)
    requires Tuned(buf, u) && u.Utf8? && u.need == 0
    ensures Tuned(buf, u')
  {
  }

  lemma NothingTuned(u: Utf8)
    ensures Tuned([], u)
  {
  }

  /** In UTF-8 input what is held back is the character being read, and the buffers are never both in use. */
  ghost predicate Proper(s: State, u: Utf8) {
    && (s.escActive ==> s.inBuf == [])
    && (!s.ended ==> u.Utf8? && Tuned(s.inBuf, u) && (s.pressed ==> u.need == 0))
  }

  lemma FlushProper(s: State, u: Utf8)
    requires Proper(s, u)
    ensures Proper(FlushInput(s), u) && Proper(FlushEsc(s), u)
    ensures !s.ended && u.need == 0 ==> FlushInput(s).inBuf == []
  {
    hide Trail, Tuned;
    if s.inBuf != [] && !s.ended {
      TunedHold(s.inBuf, u);
      CutInTwo([], s.inBuf, |s.inBuf| - Trail(s.inBuf));
    }
  }

  /** At an ESC in UTF-8 input nothing is held back, so only overtaking keys can put bytes out of order. */
  lemma SingleProper(c: Config, s: State, u: Utf8, b: byte)
    requires ConfigOk(c) && Proper(s, u) && !s.ended && Single(c, s, b) && UtfStep(u, b).Utf8?
    ensures Proper(ByteStep(c, s, b), UtfStep(u, b))
    ensures Allowed(NoReordering, c, s, b) <==> Allowed(NoOvertaking, c, s, b)
  {
    hide Trail, Tuned;
    if u.need == 0 {
      TunedAtRest(s.inBuf, u, UtfStep(u, b));
    }
    NothingTuned(UtfStep(u, b));
    FlushProper(s, u);
    FlushProper(FlushEsc(s), u);
    if s.pressed || b == c.escapeByte {
      hide FlushEsc, FlushInput, UtfStep;
    }
  }

  lemma TypeProper(c: Config, s: State, u: Utf8, run: seq<byte>)
    requires Proper(s, u) && !s.ended && !s.pressed && !s.escActive && UtfAll(u, run).Utf8?
    ensures Proper(Type(s, run), UtfAll(u, run))
  {
    TunedRun(s.inBuf, u, run);
    hide Tuned, UtfAll, FlushInput;
    FlushProper(s.(inBuf := s.inBuf + run), UtfAll(u, run));
  }

  lemma Utf8Head(u: Utf8, data: seq<byte>, tail: seq<byte>)
    requires UtfAll(u, data + tail).Utf8?
    ensures UtfAll(u, data).Utf8? && UtfAll(u, data + tail) == UtfAll(UtfAll(u, data), tail)
  {
    UtfConcat(u, data, tail);
    if UtfAll(u, data).Malformed? {
      MalformedStays(tail);
    }
  }

  lemma Utf8Cons(u: Utf8, data: seq<byte>, i: nat)
    requires i < |data| && UtfAll(u, data[i..]).Utf8?
    ensures UtfStep(u, data[i]).Utf8? && UtfAll(u, data[i..]) == UtfAll(UtfStep(u, data[i]), data[i + 1..])
  {
    Rest(data, i);
    if UtfStep(u, data[i]).Malformed? {
      MalformedStays(data[i + 1..]);
    }
  }

  lemma {:induction false} ReadProper(c: Config, s: State, u: Utf8, data: seq<byte>, i: nat)
    requires ConfigOk(c) && Proper(s, u) && i <= |data| && (!s.ended ==> UtfAll(u, data[i..]).Utf8?)
    ensures Proper(ReadFrom(c, s, data, i), UtfAll(u, data[i..]))
    ensures AllowedFrom(NoReordering, c, s, data, i) <==> AllowedFrom(NoOvertaking, c, s, data, i)
    decreases |data| - i
  {
    hide Allowed, ByteStep, Type, UtfStep;
    if i == |data| {
      assert data[i..] == [];
    } else if s.ended {
      assert ReadFrom(c, s, data, i) == s;
    } else if Single(c, s, data[i]) {
      Utf8Cons(u, data, i);
      SingleProper(c, s, u, data[i]);
      ReadSingle(c, s, data, i);
      ReadProper(c, ByteStep(c, s, data[i]), UtfStep(u, data[i]), data, i + 1);
    } else {
      ReadRun(c, s, data, i);
      var j := RunEnd(c, data, i + 1);
      Utf8Head(u, data[i..j], data[j..]);
      TypeProper(c, s, u, data[i..j]);
      ReadProper(c, Type(s, data[i..j]), UtfAll(u, data[i..j]), data, j);
    }
  }

  lemma NextProper(c: Config, s: State, u: Utf8, e: Event)
    requires ConfigOk(c) && Proper(s, u) && (!s.ended ==> UtfAll(u, EventBytes(e)).Utf8?)
    ensures Proper(Next(c, s, e), UtfAll(u, EventBytes(e)))
    ensures AllowedFrom(NoReordering, c, s, EventBytes(e), 0) <==> AllowedFrom(NoOvertaking, c, s, EventBytes(e), 0)
  {
    var data := EventBytes(e);
    assert data[0..] == data;
    ReadProper(c, s, u, data, 0);
    hide Proper, UtfAll, AllowedFrom, FlushInput, FlushEsc, ReadFrom;
    if s.ended {
      EndedProper(s, u, UtfAll(u, data));
    } else if e.Timer? {
      UtfNothing(u);
      FlushProper(s, u);
      FlushProper(FlushEsc(s), u);
    } else {
      FlushProper(ReadFrom(c, s, data, 0), UtfAll(u, data));
    }
  }

  lemma {:induction false} RunProper(c: Config, es: seq<Event>)
    requires ConfigOk(c) && UtfAll(BETWEEN, Typed(es)).Utf8?
    ensures Proper(Run(c, es), UtfAll(BETWEEN, Typed(es)))
    ensures AllowedRun(NoReordering, c, es) <==> AllowedRun(NoOvertaking, c, es)
  {
    if es == [] {
      NothingTuned(BETWEEN);
    } else {
      var init, e := es[..|es| - 1], es[|es| - 1];
      hide Proper, UtfAll, AllowedFrom, Next;
      Utf8Head(BETWEEN, Typed(init), EventBytes(e));
      RunProper(c, init);
      NextProper(c, Run(c, init), UtfAll(BETWEEN, Typed(init)), e);
    }
  }

  lemma EndedProper(s: State, u: Utf8, u': Utf8)
    requires Proper(s, u) && s.ended
    ensures Proper(s, u')
  {
  }

  lemma UtfNothing(u: Utf8)
    ensures UtfAll(u, []) == u
  {
  }

  /** For UTF-8 input only a doubled escape key on a pending batch breaks the order, and the buffers are never both in use. */
  lemma InOrderForUtf8(c: Config, es: seq<Event>)
    requires ConfigOk(c) && UtfAll(BETWEEN, Typed(es)).Utf8?
    ensures var s := Run(c, es);
            && (Flat(s.sent) + s.escBuf + s.inBuf == PayAll(c, NOTHING, Typed(es)).bytes
                <==> AllowedRun(NoOvertaking, c, es))
            && (s.escBuf == [] || s.inBuf == [])
  {
    hide Flat, AllowedRun, Run, PayAll, UtfAll, Trail;
    InOrderIffClean(c, es);
    RunProper(c, es);
    RunKeeps(c, es);
  }

  /** The steps of one read of a letter and a doubled escape key. */
  lemma DoubledKeySteps(c: Config, x: byte, s1: State, s2: State, s3: State)
    requires ConfigOk(c) && x < 0x80 && x != c.escapeByte && x != ESC
    requires s1 == START.(inBuf := [x]) && s2 == s1.(pressed := true) && s3 == s1.(sent := [[c.escapeByte]])
    ensures Type(START, [x]) == s1 && Command(c, s2, c.escapeByte) == s3 && Overtakes(c, s2, c.escapeByte)
    ensures FlushInput(s3) == s3.(sent := [[c.escapeByte], [x]], inBuf := [])
  {
    assert [] + [x] == [x];
    assert [[c.escapeByte]] + [[x]] == [[c.escapeByte], [x]] && [x][..1] == [x] && [x][1..] == [];
    TrailPush([], x);
  }

  /** A doubled escape key after a letter: the key is sent ahead of the letter. */
  lemma DoubledKeyOvertakes(c: Config, x: byte, data: seq<byte>)
    requires ConfigOk(c) && x < 0x80 && x != c.escapeByte && x != ESC && data == [x, c.escapeByte, c.escapeByte]
    ensures var s := HandleRead(c, START, data);
            s.sent == [[c.escapeByte], [x]] && s.escBuf == [] && s.inBuf == []
    ensures PayAll(c, NOTHING, data).bytes == [x, c.escapeByte]
    ensures UtfAll(BETWEEN, data) == BETWEEN && !AllowedFrom(NoReordering, c, START, data, 0)
  {
    var k, s1 := c.escapeByte, START.(inBuf := [x]);
    var s2, s3 := s1.(pressed := true), s1.(sent := [[k]]);
    PayExample(c, x, data);
    DoubledKeySteps(c, x, s1, s2, s3);
    assert RunEnd(c, data, 1) == 1 && data[0..1] == [x];
    hide Type, Command, FlushInput, RunEnd, Trail, PayAll, UtfAll, Overtakes;
    assert ReadFrom(c, s3, data, 3) == s3;
    assert ReadFrom(c, s2, data, 2) == s3 && !AllowedFrom(NoReordering, c, s2, data, 2);
    assert ReadFrom(c, s1, data, 1) == s3 && !AllowedFrom(NoReordering, c, s1, data, 1);
    assert ReadFrom(c, START, data, 0) == s3 && !AllowedFrom(NoReordering, c, START, data, 0);
  }

  lemma PayExample(c: Config, x: byte, data: seq<byte>)
    requires ConfigOk(c) && x < 0x80 && x != c.escapeByte && data == [x, c.escapeByte, c.escapeByte]
    ensures PayAll(c, NOTHING, data).bytes == [x, c.escapeByte] && UtfAll(BETWEEN, data) == BETWEEN
  {
    var k := c.escapeByte;
    var p1 := NOTHING.(bytes := [] + [x]);
    assert data[1..] == [k, k] && [k, k][1..] == [k] && [k][1..] == [];
    assert PayAll(c, NOTHING, data) == PayAll(c, p1, [k, k]);
    assert PayAll(c, p1, [k, k]) == PayAll(c, p1.(pressed := true), [k]);
    assert PayAll(c, p1.(pressed := true), [k]) == PayAll(c, p1.(bytes := p1.bytes + [k]), []);
    assert UtfAll(BETWEEN, data) == UtfAll(BETWEEN, [k, k]);
    assert UtfAll(BETWEEN, [k, k]) == UtfAll(BETWEEN, [k]);
    assert UtfAll(BETWEEN, [k]) == UtfAll(BETWEEN, []);
  }

  /** Input that is not UTF-8: a lead byte is held back while the ESC typed after it is sent. */
  lemma MalformedInputReorders(c: Config, x: byte, data: seq<byte>)
    requires ConfigOk(c) && x >= 0xc0 && c.escapeByte != ESC && data == [x, ESC]
    ensures var s := HandleRead(c, START, data); s.escBuf == [ESC] && s.inBuf == [x] && s.sent == []
    ensures HandleTimer(HandleRead(c, START, data)).sent == [[ESC]]
  {
    var s1 := START.(inBuf := [x]);
    var s2 := s1.(escActive := true, escBuf := [ESC]);
    assert data[0..1] == [x] && [] + [x] == [x];
    TrailPush([], x);
    assert Trail([x]) == 1;
    assert [x][0..] == [x];
    hide Trail;
    assert FlushInput(s1) == s1 && FlushInput(s2) == s2;
    assert Type(START, [x]) == s1 && BeginEsc(s1) == s2;
    assert RunEnd(c, data, 1) == 1;
    assert FlushInput(FlushEsc(s2)).sent == [] + [[ESC]] == [[ESC]];
    hide Type, BeginEsc, FlushInput, FlushEsc, RunEnd;
    assert ReadFrom(c, s1, data, 1) == ReadFrom(c, s2, data, 2) == s2;
    assert ReadFrom(c, START, data, 0) == ReadFrom(c, s1, data, 1);
  }

  // Packets.

  /** The hold-back is exactly the character being read. */
  ghost predicate Exact(buf: seq<byte>, u: Utf8) {
    && u.Utf8? && (u.need == 0 <==> u.got == 0)
    && Trail(buf) == u.got
    && (u.got > 0 ==> Expect(buf[|buf| - u.got]) == u.need + u.got)
  }

  lemma {:induction false} ExactRun(buf: seq<byte>, u: Utf8, run: seq<byte>)
    requires Exact(buf, u) && UtfAll(u, run).Utf8?
    ensures Exact(buf + run, UtfAll(u, run))
    decreases |run|
  {
    if run == [] {
      assert buf + run == buf;
    } else {
      var b := run[0];
      if UtfStep(u, b).Malformed? {
        MalformedStays(run[1..]);
      }
      TrailPush(buf, b);
      TrailSpec(buf);
      if u.got > 0 {
        assert (buf + [b])[|buf + [b]| - (u.got + 1)] == buf[|buf| - u.got];
      }
      assert (buf + [b])[|buf + [b]| - 1] == b;
      assert buf + run == (buf + [b]) + run[1..];
      ExactRun(buf + [b], UtfStep(u, b), run[1..]);
    }
  }

  /** Dropping the unfinished character leaves a boundary. */
  lemma {:induction false} BoundaryBefore(raw: seq<byte>)
    requires UtfAll(BETWEEN, raw).Utf8?
    ensures var u := UtfAll(BETWEEN, raw);
            && u.got <= |raw| && (u.need == 0 <==> u.got == 0)
            && UtfAll(BETWEEN, raw[..|raw| - u.got]) == BETWEEN
  {
    if raw == [] {
    } else {
      var init, b := raw[..|raw| - 1], raw[|raw| - 1];
      assert raw == init + [b];
      UtfConcat(BETWEEN, init, [b]);
      assert UtfAll(UtfAll(BETWEEN, init), [b]) == UtfAll(UtfStep(UtfAll(BETWEEN, init), b), []);
      BoundaryBefore(init);
      var u, v := UtfAll(BETWEEN, raw), UtfAll(BETWEEN, init);
      hide UtfAll;
      if u.got == 0 {
        assert raw[..|raw|] == raw;
      } else if u.got == 1 {
        assert raw[..|raw| - 1] == init[..|init|] == init;
      } else {
        assert raw[..|raw| - u.got] == init[..|init| - v.got];
      }
    }
  }

  /** Every packet is made of whole characters. */
  ghost predicate AllWhole(sent: seq<seq<byte>>) {
    forall i :: 0 <= i < |sent| ==> UtfAll(BETWEEN, sent[i]) == BETWEEN
  }

  /** Everything sent is whole and the batch is whole up to a character not yet finished. */
  ghost predicate Intact(s: State) { AllWhole(s.sent) && UtfAll(BETWEEN, s.inBuf).Utf8? }

  /** Up to three bytes that are held back are the start of a character. */
  lemma HeldIsUtf8(buf: seq<byte>)
    ensures UtfAll(BETWEEN, buf[|buf| - Trail(buf)..]).Utf8?
  {
    var t := Trail(buf);
    var held := buf[|buf| - t..];
    TrailSpec(buf);
    hide Trail, TrailFrom;
    assert forall k :: 0 <= k < t ==> held[k] == buf[|buf| - t + k];
    if t > 0 {
      var u1 := Utf8(Expect(held[0]) - 1, 1);
      assert UtfAll(BETWEEN, held) == UtfAll(u1, held[1..]);
      HeldRest(u1, held[1..]);
    }
  }

  lemma {:induction false} HeldRest(u: Utf8, rest: seq<byte>)
    requires u.Utf8? && |rest| < u.need && forall k :: 0 <= k < |rest| ==> 0x80 <= rest[k] < 0xc0
    ensures UtfAll(u, rest).Utf8?
    decreases |rest|
  {
    if rest == [] {
    } else {
      HeldRest(UtfStep(u, rest[0]), rest[1..]);
    }
  }

  lemma WholeSnoc(sent: seq<seq<byte>>, p: seq<byte>)
    ensures AllWhole(sent + [p]) <==> AllWhole(sent) && UtfAll(BETWEEN, p) == BETWEEN
  {
    hide UtfAll;
    var all := sent + [p];
    assert all[|sent|] == p;
    assert forall i :: 0 <= i < |sent| ==> all[i] == sent[i];
  }

  /** A flush sends whole characters exactly when the batch was whole up to its unfinished end. */
  lemma FlushIntact(s: State)
    ensures var s' := FlushInput(s);
            && (Intact(s') <==> Intact(s))
            && UtfAll(BETWEEN, s'.inBuf).Utf8?
            && (UtfAll(BETWEEN, s.inBuf).Utf8? ==> UtfAll(BETWEEN, s'.inBuf) == UtfAll(BETWEEN, s.inBuf))
  {
    if s.inBuf == [] {
      UtfNothing(BETWEEN);
    } else {
      var buf, cut := s.inBuf, |s.inBuf| - Trail(s.inBuf);
      HeldIsUtf8(buf);
      WholeSnoc(s.sent, buf[..cut]);
      assert buf == buf[..cut] + buf[cut..];
      UtfConcat(BETWEEN, buf[..cut], buf[cut..]);
      UtfNothing(BETWEEN);
      if UtfAll(BETWEEN, buf).Utf8? {
        CutIsBoundary(buf);
      }
      hide UtfAll, Trail, AllWhole;
      assert cut == 0 ==> buf[..cut] == [] && buf[cut..] == buf;
    }
  }

  lemma CutIsBoundary(buf: seq<byte>)
    requires UtfAll(BETWEEN, buf).Utf8?
    ensures UtfAll(BETWEEN, buf[..|buf| - Trail(buf)]) == BETWEEN
  {
    EmptyTrail();
    ExactRun([], BETWEEN, buf);
    assert [] + buf == buf;
    BoundaryBefore(buf);
    hide UtfAll, Trail;
  }

  /**
   The machine on input without ESC. `kept` is false from the moment a lead
   byte is taken as a command. Until then the batch ends in the character being
   read; right after, it ends on a boundary inside that character; once a
   continuation byte has come, some packet or the batch is not whole.
   */
  ghost predicate Stage(s: State, u: Utf8, kept: bool) {
    && !s.escActive && s.escBuf == []
    && (!s.ended ==> u.Utf8? && (s.pressed ==> u.need == 0))
    && (kept ==> Intact(s) && (!s.ended ==> UtfAll(BETWEEN, s.inBuf) == u))
    && (!kept ==> !Intact(s) || (!s.ended && !s.pressed && u.need > 0 && UtfAll(BETWEEN, s.inBuf) == BETWEEN))
  }

  lemma StageFlush(s: State, u: Utf8, kept: bool)
    requires Stage(s, u, kept)
    ensures Stage(FlushInput(s), u, kept) && Stage(FlushEsc(s), u, kept)
    ensures UtfAll(BETWEEN, FlushInput(s).inBuf).Utf8?
  {
    FlushIntact(s);
    FlushFrame(s);
    hide Intact, UtfAll, FlushInput;
  }

  lemma StageSingle(c: Config, s: State, u: Utf8, b: byte, kept: bool)
    requires ConfigOk(c) && Stage(s, u, kept) && !s.ended && Single(c, s, b) && b != ESC && UtfStep(u, b).Utf8?
    ensures Stage(ByteStep(c, s, b), UtfStep(u, b), kept && Allowed(NoEatenLead, c, s, b))
  {
    UtfNothing(BETWEEN);
    WholeSnoc(s.sent, [b]);
    assert UtfAll(BETWEEN, [b]) == UtfAll(UtfStep(BETWEEN, b), []);
    UtfNothing(UtfStep(BETWEEN, b));
    if kept {
      BoundaryBefore(s.inBuf);
    }
    hide UtfAll, AllWhole, FlushInput, FlushEsc;
  }

  /** A run of ordinary bytes; after an eaten lead byte it starts with a continuation byte. */
  lemma StageType(s: State, u: Utf8, run: seq<byte>, kept: bool)
    requires Stage(s, u, kept) && !s.ended && !s.pressed && run != [] && UtfAll(u, run).Utf8?
    ensures Stage(Type(s, run), UtfAll(u, run), kept)
  {
    var s1 := s.(inBuf := s.inBuf + run);
    UtfConcat(BETWEEN, s.inBuf, run);
    MalformedStays(run);
    MalformedStays(run[1..]);
    assert Stage(s1, UtfAll(u, run), kept);
    StageFlush(s1, UtfAll(u, run), kept);
    hide Stage, FlushInput;
  }

  lemma {:induction false} StageRead(c: Config, s: State, u: Utf8, data: seq<byte>, i: nat, kept: bool)
    requires ConfigOk(c) && Stage(s, u, kept) && i <= |data| && ESC !in data[i..]
    requires !s.ended ==> UtfAll(u, data[i..]).Utf8?
    ensures Stage(ReadFrom(c, s, data, i), UtfAll(u, data[i..]), kept && AllowedFrom(NoEatenLead, c, s, data, i))
    decreases |data| - i
  {
    hide Allowed, ByteStep, Type, UtfStep, Intact;
    if i == |data| {
      assert data[i..] == [];
    } else if s.ended {
      assert ReadFrom(c, s, data, i) == s;
    } else {
      Rest(data, i);
      assert data[i] in data[i..] && forall b :: b in data[i + 1..] ==> b in data[i..];
      if Single(c, s, data[i]) {
        Utf8Cons(u, data, i);
        StageSingle(c, s, u, data[i], kept);
        ReadSingle(c, s, data, i);
        hide Stage;
        StageRead(c, ByteStep(c, s, data[i]), UtfStep(u, data[i]), data, i + 1, kept && Allowed(NoEatenLead, c, s, data[i]));
      } else {
        ReadRun(c, s, data, i);
        var j := RunEnd(c, data, i + 1);
        Utf8Head(u, data[i..j], data[j..]);
        StageType(s, u, data[i..j], kept);
        hide Stage;
        StageRead(c, Type(s, data[i..j]), UtfAll(u, data[i..j]), data, j, kept);
      }
    }
  }

  lemma StageNext(c: Config, s: State, u: Utf8, e: Event, kept: bool)
    requires ConfigOk(c) && Stage(s, u, kept) && ESC !in EventBytes(e) && (!s.ended ==> UtfAll(u, EventBytes(e)).Utf8?)
    requires !s.ended ==> UtfAll(BETWEEN, s.inBuf).Utf8?
    ensures var s' := Next(c, s, e);
            && Stage(s', UtfAll(u, EventBytes(e)), kept && AllowedFrom(NoEatenLead, c, s, EventBytes(e), 0))
            && (!s'.ended ==> UtfAll(BETWEEN, s'.inBuf).Utf8?)
  {
    var data := EventBytes(e);
    assert data[0..] == data;
    StageRead(c, s, u, data, 0, kept);
    var kept' := kept && AllowedFrom(NoEatenLead, c, s, data, 0);
    if s.ended {
      assert ReadFrom(c, s, data, 0) == s;
    } else {
      UtfNothing(u);
      hide Stage, UtfAll, AllowedFrom, FlushInput, FlushEsc, ReadFrom;
      StageFlush(ReadFrom(c, s, data, 0), UtfAll(u, data), kept');
      StageFlush(s, u, kept);
      StageFlush(FlushEsc(s), u, kept);
    }
  }

  lemma {:induction false} StageRun(c: Config, es: seq<Event>)
    requires ConfigOk(c) && UtfAll(BETWEEN, Typed(es)).Utf8? && ESC !in Typed(es)
    ensures var s := Run(c, es);
            && Stage(s, UtfAll(BETWEEN, Typed(es)), AllowedRun(NoEatenLead, c, es))
            && (!s.ended ==> UtfAll(BETWEEN, s.inBuf).Utf8?)
  {
    if es == [] {
      UtfNothing(BETWEEN);
    } else {
      var init, e := es[..|es| - 1], es[|es| - 1];
      hide Stage, UtfAll, AllowedFrom, Next;
      Utf8Head(BETWEEN, Typed(init), EventBytes(e));
      StageRun(c, init);
      StageNext(c, Run(c, init), UtfAll(BETWEEN, Typed(init)), e, AllowedRun(NoEatenLead, c, init));
    }
  }

  /**
   UTF-8 input without ESC: as long as no byte that follows the escape key is
   the lead byte of a character, every packet is made of whole characters. Once
   the last character typed is complete the converse holds too, counting what
   detaching left in the batch as a packet.
   */
  lemma PacketsAreWholeIffLeadsKept(c: Config, es: seq<Event>)
    requires ConfigOk(c) && UtfAll(BETWEEN, Typed(es)).Utf8? && ESC !in Typed(es)
    ensures AllowedRun(NoEatenLead, c, es) ==> Intact(Run(c, es))
    ensures UtfAll(BETWEEN, Typed(es)).need == 0 ==> (Intact(Run(c, es)) <==> AllowedRun(NoEatenLead, c, es))
    ensures !Run(c, es).ended ==> (Intact(Run(c, es)) <==> AllWhole(Run(c, es).sent))
  {
    hide AllowedRun, Run, UtfAll, AllWhole;
    StageRun(c, es);
  }

  /** The escape key, a lead byte and a continuation byte: the lead byte is eaten and half a character is sent. */
  lemma EatenLeadSplitsCharacter(c: Config, x: byte, y: byte, data: seq<byte>)
    requires ConfigOk(c) && c.escapeByte != ESC && x >= 0xc0 && 0x80 <= y < 0xc0 && data == [c.escapeByte, x, y]
    ensures HandleRead(c, START, data).sent == [[y]] && !AllWhole([[y]])
    ensures UtfAll(BETWEEN, data).Utf8? && ESC !in data && !AllowedFrom(NoEatenLead, c, START, data, 0)
  {
    var k, s1 := c.escapeByte, START.(pressed := true);
    var s3 := START.(inBuf := [y]);
    assert [] + [y] == [y] && data[2..3] == [y];
    TrailPush([], y);
    EmptyTrail();
    assert Type(START, [y]) == s3 && [y][..1] == [y] && [y][1..] == [];
    assert FlushInput(s3) == START.(sent := [[y]]) by { assert [] + [[y]] == [[y]]; }
    assert RunEnd(c, data, 3) == 3;
    assert [[y]][0] == [y] && UtfAll(BETWEEN, [y]) == UtfAll(Malformed, []);
    assert data[1..] == [x, y] && [x, y][1..] == [y] && [y][1..] == [];
    assert UtfAll(BETWEEN, data) == UtfAll(BETWEEN, [x, y]);
    assert UtfAll(BETWEEN, [x, y]) == UtfAll(UtfStep(BETWEEN, x), [y]);
    assert UtfAll(UtfStep(BETWEEN, x), [y]) == UtfAll(UtfStep(UtfStep(BETWEEN, x), y), []);
    hide Type, FlushInput, RunEnd, Trail, UtfAll;
    assert Command(c, s1, x) == START;
    assert ReadFrom(c, s3, data, 3) == s3;
    assert ReadFrom(c, START, data, 2) == s3;
    assert ReadFrom(c, s1, data, 1) == s3 && !AllowedFrom(NoEatenLead, c, s1, data, 1);
    assert ReadFrom(c, START, data, 0) == s3 && !AllowedFrom(NoEatenLead, c, START, data, 0);
  }
}
