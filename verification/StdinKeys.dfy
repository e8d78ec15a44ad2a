/**
 Escape sequences typed on the keyboard leave the stdin machine in one packet:
 ESC [ parameters final, and ESC O A to D for the arrow keys, are kept together
 however the reads divide them, and leave with their last byte.
 */
module StdinKeys {
  import opened Bytes
  import opened Stdin
  import opened StdinRuns

  /** A letter or ~ ends a control sequence. */
  predicate Final(b: byte) { b == 0x7e || 0x41 <= b <= 0x5a || 0x61 <= b <= 0x7a }

  /** ESC [ parameters final. */
  predicate ControlSequence(x: seq<byte>) {
    && |x| >= 3 && x[0] == 0x1b && x[1] == 0x5b && Final(x[|x| - 1])
    && forall i :: 2 <= i < |x| - 1 ==> !Final(x[i])
  }

  /** ESC O A to ESC O D. */
  predicate ArrowKey(x: seq<byte>) { |x| == 3 && x[0] == 0x1b && x[1] == 0x4f && 0x41 <= x[2] <= 0x44 }

  predicate KeySequence(x: seq<byte>) { ControlSequence(x) || ArrowKey(x) }

  /** The start of an ESC batch: no sequence is complete yet. */
  ghost predicate Open(e: seq<byte>) {
    0 < |e| < 32 && e[0] == 0x1b && forall k :: 0 <= k <= |e| ==> !KeySequence(e[..k])
  }

  /** A batch is full, or its last byte completes a sequence; nothing else makes it leave. */
  lemma FlushIffComplete(e: seq<byte>, b: byte)
    requires Open(e)
    ensures ShouldFlushEsc(e + [b]) <==> KeySequence(e + [b]) || |e| + 1 >= 32
  {
    var x := e + [b];
    if |e| >= 3 && e[1] == 0x5b {
      forall i | 2 <= i < |e| ensures !Final(e[i]) { NoFinalYet(e, i); }
      assert forall i :: 0 <= i < |e| ==> x[i] == e[i];
    }
    if |e| >= 3 {
      assert e[..3][0] == e[0] && e[..3][1] == e[1] && e[..3][2] == e[2];
      assert !ArrowKey(e[..3]);
    }
  }

  lemma {:induction false} NoFinalYet(e: seq<byte>, i: nat)
    requires Open(e) && |e| >= 3 && e[1] == 0x5b && 2 <= i < |e|
    ensures !Final(e[i])
    decreases i
  {
    forall j | 2 <= j < i ensures !Final(e[j]) { NoFinalYet(e, j); }
    var x := e[..i + 1];
    assert x[0] == e[0] && x[1] == e[1] && x[i] == e[i];
    assert forall j :: 2 <= j < i ==> x[j] == e[j];
    assert !KeySequence(x);
  }

  lemma OpenSnoc(e: seq<byte>, b: byte)
    requires Open(e) && !KeySequence(e + [b]) && |e| + 1 < 32
    ensures Open(e + [b])
  {
    var x := e + [b];
    forall k | 0 <= k <= |x| ensures !KeySequence(x[..k]) {
      if k <= |e| {
        assert x[..k] == e[..k];
      } else {
        assert x[..k] == x;
      }
    }
  }

  lemma EscOpens()
    ensures Open([ESC])
  {
  }

  // Every way a batch can leave.

  ghost predicate BatchOk(s: State) {
    && (s.escActive <==> s.escBuf != [])
    && (s.escActive ==> Open(s.escBuf))
  }

  /**
   One byte while an ESC batch e is open: the escape key and what follows it
   leave the batch alone; a new ESC sends it and opens another; any other byte
   joins it, and sends it if and only if that completes a sequence or fills it.
   */
  lemma BatchLeaves(c: Config, s: State, b: byte)
    requires BatchOk(s) && s.escActive && !s.ended
    ensures var s' := ByteStep(c, s, b);
            var x := s.escBuf + [b];
            && BatchOk(s')
            && (s.pressed || b == c.escapeByte ==> s'.escBuf == s.escBuf)
            && (!s.pressed && b != c.escapeByte && b == ESC ==>
                  s'.escBuf == [ESC] && s.sent + [s.escBuf] <= s'.sent)
            && (!s.pressed && b != c.escapeByte && b != ESC ==>
                  if KeySequence(x) || |x| >= 32 then s' == s.(sent := s.sent + [x], escActive := false, escBuf := [])
                  else s' == s.(escBuf := x))
  {
    hide ShouldFlushEsc, Trail;
    FlushIffComplete(s.escBuf, b);
    EscOpens();
    if !s.pressed && b != c.escapeByte && b != ESC && !KeySequence(s.escBuf + [b]) && |s.escBuf| + 1 < 32 {
      OpenSnoc(s.escBuf, b);
    }
    hide Open, KeySequence;
  }

  /** With no batch open, a byte opens one only if it is an ESC. */
  lemma BatchOpens(c: Config, s: State, b: byte)
    requires BatchOk(s) && !s.escActive && !s.ended && Single(c, s, b)
    ensures BatchOk(ByteStep(c, s, b))
    ensures ByteStep(c, s, b).escActive <==> !s.pressed && b != c.escapeByte && b == ESC
  {
    EscOpens();
    hide Open, Trail;
  }

  lemma {:induction false} BatchRead(c: Config, s: State, data: seq<byte>, i: nat)
    requires BatchOk(s) && i <= |data|
    ensures BatchOk(ReadFrom(c, s, data, i))
    decreases |data| - i
  {
    hide BatchOk, ByteStep, Type;
    if i == |data| || s.ended {
    } else if Single(c, s, data[i]) {
      ReadSingle(c, s, data, i);
      if s.escActive {
        BatchLeaves(c, s, data[i]);
      } else {
        BatchOpens(c, s, data[i]);
      }
      BatchRead(c, ByteStep(c, s, data[i]), data, i + 1);
    } else {
      ReadRun(c, s, data, i);
      var j := RunEnd(c, data, i + 1);
      TypeKeepsBatch(s, data[i..j]);
      BatchRead(c, Type(s, data[i..j]), data, j);
    }
  }

  lemma TypeKeepsBatch(s: State, run: seq<byte>)
    requires BatchOk(s)
    ensures BatchOk(Type(s, run)) && BatchOk(FlushInput(s))
    ensures FlushInput(s).escBuf == s.escBuf && Type(s, run).escBuf == s.escBuf
  {
    hide Trail, Open;
  }

  /** In every run the open batch is the start of a sequence, under its limit; and a timer sends it, and all that is not held back. */
  lemma {:induction false} BatchInRuns(c: Config, es: seq<Event>)
    ensures BatchOk(Run(c, es))
    ensures !Run(c, es).ended ==> HandleTimer(Run(c, es)).escBuf == [] && |HandleTimer(Run(c, es)).inBuf| <= 3
    ensures es != [] && es[|es| - 1].Read? && !Run(c, es).ended ==> |Run(c, es).inBuf| <= 3
  {
    if es == [] {
    } else {
      var s, e := Run(c, es[..|es| - 1]), es[|es| - 1];
      BatchInRuns(c, es[..|es| - 1]);
      hide BatchOk, FlushInput, Run, ReadFrom;
      if !s.ended {
        match e
        case Read(data) =>
          BatchRead(c, s, data, 0);
          TypeKeepsBatch(ReadFrom(c, s, data, 0), []);
          FlushKeepsLittle(ReadFrom(c, s, data, 0));
        case Timer =>
          TimerEmpties(s);
      }
    }
    TimerEmpties(Run(c, es));
  }

  lemma FlushKeepsLittle(s: State)
    ensures |FlushInput(s).inBuf| <= 3
  {
    hide TrailFrom;
  }

  lemma TimerEmpties(s: State)
    requires BatchOk(s)
    ensures BatchOk(HandleTimer(s))
    ensures !s.ended ==> HandleTimer(s).escBuf == [] && |HandleTimer(s).inBuf| <= 3
  {
    FlushKeepsLittle(FlushEsc(s));
    hide Open, Trail;
  }

  // Plain input.

  /** A batch never grows to 512 bytes without being sent. */
  lemma BatchStaysSmall(s: State, run: seq<byte>)
    ensures |Type(s, run).inBuf| < 512
  {
    FlushKeepsLittle(s.(inBuf := s.inBuf + run));
    hide FlushInput;
  }

  lemma {:induction false} RunIsWhole(c: Config, data: seq<byte>, j: nat)
    requires j <= |data| && ESC !in data && c.escapeByte !in data
    ensures RunEnd(c, data, j) == |data|
    decreases |data| - j
  {
    if j == |data| {
    } else {
      RunIsWhole(c, data, j + 1);
    }
  }

  /** A read without ESC or escape key, a paste for instance, leaves as one packet, but for a character not yet complete. */
  lemma PasteIsOnePacket(c: Config, s: State, data: seq<byte>)
    requires !s.pressed && !s.ended && !s.escActive && s.inBuf == []
    requires data != [] && ESC !in data && c.escapeByte !in data
    ensures var cut, s' := |data| - Trail(data), HandleRead(c, s, data);
            && s'.inBuf == data[cut..]
            && s'.sent == s.sent + if cut == 0 then [] else [data[..cut]]
  {
    var s0 := s.(inBuf := data);
    hide HandleRead, Trail, Type, FlushInput;
    PlainRead(c, s, data);
    FlushTwice(s0);
    FlushSends(s0);
  }

  lemma FlushSends(s: State)
    requires s.inBuf != []
    ensures var cut, s' := |s.inBuf| - Trail(s.inBuf), FlushInput(s);
            && s'.inBuf == s.inBuf[cut..]
            && s'.sent == s.sent + if cut == 0 then [] else [s.inBuf[..cut]]
  {
    hide Trail;
    assert s.sent + [] == s.sent;
  }

  lemma PlainRead(c: Config, s: State, data: seq<byte>)
    requires !s.pressed && !s.ended && !s.escActive && s.inBuf == []
    requires data != [] && ESC !in data && c.escapeByte !in data
    ensures HandleRead(c, s, data) == FlushInput(Type(s, data))
    ensures var s0 := s.(inBuf := data); Type(s, data) == s0 || Type(s, data) == FlushInput(s0)
  {
    assert [] + data == data && data[0] in data;
    RunIsWhole(c, data, 1);
    assert data[0..|data|] == data;
    hide Trail, RunEnd, FlushInput;
    var s1 := Type(s, data);
    TypeStaysOpen(s, data);
    assert ReadFrom(c, s1, data, |data|) == s1;
    hide Type;
    ReadRun(c, s, data, 0);
  }

  lemma TypeStaysOpen(s: State, run: seq<byte>)
    ensures Type(s, run).ended == s.ended
  {
    hide Trail;
  }

  /** What a flush leaves behind, another flush leaves too. */
  lemma FlushTwice(s: State)
    ensures FlushInput(FlushInput(s)) == FlushInput(s)
  {
    TrailHold(s.inBuf);
    hide Trail;
    var s' := FlushInput(s);
    if s'.inBuf != [] {
      assert s'.inBuf[0..] == s'.inBuf;
    }
  }

  // Whole sequences.

  /** A sequence that fits a batch and in which the escape key does not occur. */
  predicate Typable(c: Config, x: seq<byte>) {
    KeySequence(x) && |x| <= 32 && c.escapeByte !in x && forall i :: 0 < i < |x| ==> x[i] != ESC
  }

  /** The state when k bytes of the sequence x have been read in state s. */
  function Partway(s: State, x: seq<byte>, k: nat): State
    requires k <= |x|
  {
    if k == 0 then s
    else if k < |x| then FlushInput(s).(escActive := true, escBuf := x[..k])
    else FlushInput(s).(sent := FlushInput(s).sent + [x])
  }

  /** No command is under way, no batch open, and nothing would be held back. */
  predicate Rested(s: State) {
    !s.pressed && !s.ended && !s.escActive && s.escBuf == [] && Trail(s.inBuf) == 0
  }

  lemma RestedFlush(s: State)
    requires Rested(s)
    ensures var s' := FlushInput(s);
            && Rested(s') && s'.inBuf == [] && FlushInput(s') == s'
            && s'.sent == s.sent + if s.inBuf == [] then [] else [s.inBuf]
  {
    EmptyTrail();
    hide Trail;
    assert s.inBuf[..|s.inBuf|] == s.inBuf;
    assert s.sent + [] == s.sent;
  }

  lemma {:induction false} PrefixOpen(x: seq<byte>, k: nat)
    requires KeySequence(x) && |x| <= 32 && 0 < k < |x|
    ensures Open(x[..k])
  {
    var e := x[..k];
    forall j | 0 <= j <= k ensures !KeySequence(e[..j]) {
      if j >= 3 {
        assert e[..j][j - 1] == x[j - 1] && e[..j][0] == x[0] && e[..j][1] == x[1] && e[..j][2] == x[2];
      }
    }
  }

  /** One byte of the sequence. */
  lemma PartwayStep(c: Config, s: State, x: seq<byte>, k: nat)
    requires Rested(s) && Typable(c, x) && k < |x|
    ensures Single(c, Partway(s, x, k), x[k]) && !Partway(s, x, k).ended
    ensures ByteStep(c, Partway(s, x, k), x[k]) == Partway(s, x, k + 1)
  {
    RestedFlush(s);
    assert x[k] in x;
    if k == 0 {
      hide FlushInput;
      assert x[..1] == [ESC];
      assert FlushEsc(s) == s;
    } else {
      PrefixOpen(x, k);
      FlushIffComplete(x[..k], x[k]);
      assert x[..k] + [x[k]] == x[..k + 1];
      if k + 1 == |x| {
        assert x[..k + 1] == x;
      } else {
        PrefixOpen(x, k + 1);
        assert x[..k + 1][..k + 1] == x[..k + 1];
      }
      hide FlushInput, ShouldFlushEsc, KeySequence;
    }
  }

  /** Bytes k to m of the sequence, anywhere in a read. */
  lemma {:induction false} SequenceInRead(c: Config, s: State, x: seq<byte>, k: nat, m: nat, data: seq<byte>, i: nat)
    requires Rested(s) && Typable(c, x) && k <= m <= |x| && i + (m - k) <= |data| && data[i..i + (m - k)] == x[k..m]
    ensures ReadFrom(c, Partway(s, x, k), data, i) == ReadFrom(c, Partway(s, x, m), data, i + (m - k))
    decreases m - k
  {
    hide Rested, Typable, Partway, ByteStep, ReadFrom;
    if k == m {
    } else {
      PartwayStep(c, s, x, k);
      assert data[i] == data[i..i + (m - k)][0] == x[k..m][0] == x[k];
      ReadSingle(c, Partway(s, x, k), data, i);
      assert data[i + 1..i + 1 + (m - (k + 1))] == data[i..i + (m - k)][1..] == x[k..m][1..] == x[k + 1..m];
      SequenceInRead(c, s, x, k + 1, m, data, i + 1);
    }
  }

  function ReadAll(c: Config, s: State, parts: seq<seq<byte>>): State {
    if parts == [] then s else HandleRead(c, ReadAll(c, s, parts[..|parts| - 1]), parts[|parts| - 1])
  }

  lemma PartwayFlush(s: State, x: seq<byte>, k: nat)
    requires Rested(s) && 0 < k <= |x|
    ensures FlushInput(Partway(s, x, k)) == Partway(s, x, k) && !Partway(s, x, k).ended
  {
    RestedFlush(s);
  }

  /** One read that takes the sequence from byte k to byte m. */
  lemma ReadPart(c: Config, s: State, x: seq<byte>, k: nat, m: nat)
    requires Rested(s) && Typable(c, x) && k <= m <= |x| && 0 < m
    ensures HandleRead(c, Partway(s, x, k), x[k..m]) == Partway(s, x, m)
  {
    var data := x[k..m];
    assert data[0..0 + (m - k)] == data;
    SequenceInRead(c, s, x, k, m, data, 0);
    PartwayFlush(s, x, m);
    hide Partway, FlushInput, Typable, Rested;
    assert ReadFrom(c, Partway(s, x, m), data, |data|) == Partway(s, x, m);
  }

  /** Reads without a byte only flush what was waiting before the sequence. */
  lemma {:induction false} EmptyReads(c: Config, s: State, parts: seq<seq<byte>>)
    requires Rested(s) && Flat(parts) == []
    ensures ReadAll(c, s, parts) == if parts == [] then s else FlushInput(s)
  {
    if parts == [] {
    } else {
      EmptyReads(c, s, parts[..|parts| - 1]);
      RestedFlush(s);
      hide FlushInput, Trail;
      assert parts[|parts| - 1] == [];
    }
  }

  /**
   Whatever reads deliver the first k bytes of a sequence, the packets sent are
   what was waiting before it and, with the last byte and not earlier, the
   whole sequence as one packet.
   */
  lemma {:induction false} SequencesStayTogether(c: Config, s: State, x: seq<byte>, parts: seq<seq<byte>>)
    requires Rested(s) && Typable(c, x) && Flat(parts) != [] && Flat(parts) <= x
    ensures var s' := ReadAll(c, s, parts);
            && s'.sent == s.sent + (if s.inBuf == [] then [] else [s.inBuf]) + (if Flat(parts) == x then [x] else [])
            && s'.escBuf == (if Flat(parts) == x then [] else Flat(parts)) && s'.inBuf == []
    ensures ReadAll(c, s, parts) == Partway(s, x, |Flat(parts)|)
  {
    var init, last := parts[..|parts| - 1], parts[|parts| - 1];
    var k, m := |Flat(init)|, |Flat(parts)|;
    assert Flat(parts) == Flat(init) + last && x[..m] == Flat(parts);
    assert x[..k] == Flat(init) && x[k..m] == last;
    if k == 0 {
      EmptyReads(c, s, init);
      FlushedPart(c, s, x, m);
      ReadPart(c, s, x, 0, m);
    } else {
      SequencesStayTogether(c, s, x, init);
      ReadPart(c, s, x, k, m);
    }
    RestedFlush(s);
    hide HandleRead, FlushInput, Trail, Typable;
  }

  lemma FlushedPart(c: Config, s: State, x: seq<byte>, m: nat)
    requires Rested(s) && Typable(c, x) && 0 < m <= |x|
    ensures HandleRead(c, FlushInput(s), x[..m]) == Partway(s, x, m)
  {
    RestedFlush(s);
    hide HandleRead;
    ReadPart(c, FlushInput(s), x, 0, m);
    assert x[0..m] == x[..m];
  }
}
