/**
 The stdin batching machine (cmd/tezzer/input.go): ESC sequences are kept
 together, ordinary input is sent in batches cut at UTF-8 boundaries, and the
 escape key introduces client commands.
 */
module Stdin {
  import opened Bytes

  const ESC: byte := 0x1b
  const MAX_ESC: nat := 32
  const BATCH: nat := 512

  /** The client options the machine depends on. */
  datatype Config = Config(escapeByte: byte, readOnly: bool)

  /** `sent` lists the packets handed to sendInputBytes; `ended` is set by detach and kill. */
  datatype State = State(
    pressed: bool, escActive: bool, escBuf: seq<byte>, inBuf: seq<byte>, sent: seq<seq<byte>>, ended: bool)

  const START := State(false, false, [], [], [], false)

  // UTF-8 hold-back.

  /** The length of the character that a lead byte announces. */
  function Expect(b: byte): nat {
    if b < 0xe0 then 2 else if b < 0xf0 then 3 else 4
  }

  function TrailFrom(buf: seq<byte>, i: nat): (t: nat)
    requires i >= 1
    ensures t <= |buf| && t <= 3
    decreases 4 - i
  {
    if i > 3 || i > |buf| then 0
    else
      var b := buf[|buf| - i];
      if b < 0x80 then 0
      else if b >= 0xc0 then (if i < Expect(b) then i else 0)
      else TrailFrom(buf, i + 1)
  }

  /** The number of bytes of an unfinished character at the end of buf. */
  function Trail(buf: seq<byte>): (t: nat)
    ensures t <= |buf| && t <= 3
  {
    TrailFrom(buf, 1)
  }

  // The flushes.

  function FlushEsc(s: State): State {
    if !s.escActive || s.escBuf == [] then s
    else s.(sent := s.sent + [s.escBuf], escActive := false, escBuf := [])
  }

  function FlushInput(s: State): State {
    if s.inBuf == [] then s
    else
      var cut := |s.inBuf| - Trail(s.inBuf);
      s.(sent := if cut == 0 then s.sent else s.sent + [s.inBuf[..cut]], inBuf := s.inBuf[cut..])
  }

  predicate IsCsiFinal(b: byte) {
    b == 0x7e || 0x41 <= b <= 0x5a || 0x61 <= b <= 0x7a
  }

  predicate ShouldFlushEsc(buf: seq<byte>) {
    if |buf| >= MAX_ESC then true
    else if |buf| < 3 || buf[0] != ESC then false
    else if buf[1] == 0x4f then 0x41 <= buf[2] <= 0x44
    else if buf[1] == 0x5b then (|buf| == 3 && 0x41 <= buf[2] <= 0x44) || IsCsiFinal(buf[|buf| - 1])
    else false
  }

  // One iteration of the byte loop.

  /** The byte after the escape key. */
  function Command(c: Config, s: State, b: byte): State {
    var s' := s.(pressed := false);
    if b == 0x2e || (b == 0x71 && !c.readOnly) then s'.(ended := true)
    else if b == c.escapeByte && b !in {0x69, 0x68, 0x73, 0x64, 0x71, 0x72, 0x66} then s'.(sent := s.sent + [[b]])
    else s'
  }

  function BeginEsc(s: State): State {
    FlushInput(FlushEsc(s)).(escActive := true, escBuf := [ESC])
  }

  function ExtendEsc(s: State, b: byte): State {
    var s' := s.(escBuf := s.escBuf + [b]);
    if ShouldFlushEsc(s'.escBuf) then FlushEsc(s') else s'
  }

  function Type(s: State, run: seq<byte>): State {
    var s' := s.(inBuf := s.inBuf + run);
    if |s'.inBuf| >= BATCH then FlushInput(s') else s'
  }

  /** The end of the run of ordinary bytes that starts at i. */
  function RunEnd(c: Config, data: seq<byte>, j: nat): (r: nat)
    requires j <= |data|
    ensures j <= r <= |data|
    ensures forall k :: j <= k < r ==> data[k] != ESC && data[k] != c.escapeByte
    decreases |data| - j
  {
    if j < |data| && data[j] != ESC && data[j] != c.escapeByte then RunEnd(c, data, j + 1) else j
  }

  function ReadFrom(c: Config, s: State, data: seq<byte>, i: nat): State
    requires i <= |data|
    decreases |data| - i
  {
    if i == |data| || s.ended then s
    else
      var b := data[i];
      if s.pressed then ReadFrom(c, Command(c, s, b), data, i + 1)
      else if b == c.escapeByte then ReadFrom(c, s.(pressed := true), data, i + 1)
      else if b == ESC then ReadFrom(c, BeginEsc(s), data, i + 1)
      else if s.escActive then ReadFrom(c, ExtendEsc(s, b), data, i + 1)
      else
        var j := RunEnd(c, data, i + 1);
        ReadFrom(c, Type(s, data[i..j]), data, j)
  }

  /** One read of stdin; what is left in the batch is flushed at its end. */
  function HandleRead(c: Config, s: State, data: seq<byte>): State {
    var s' := ReadFrom(c, s, data, 0);
    if s'.ended then s' else FlushInput(s')
  }

  function HandleTimer(s: State): State {
    if s.ended then s else FlushInput(FlushEsc(s))
  }

  class Batcher {
    const config: Config
    var escapePressed: bool
    var escBatchActive: bool
    var escBatchBuf: seq<byte>
    var inputBatchBuf: seq<byte>
    var sent: seq<seq<byte>>
    var ended: bool

    constructor (config: Config)
      ensures View() == START && this.config == config
    {
      this.config := config;
      escapePressed, escBatchActive, escBatchBuf, inputBatchBuf, sent, ended := false, false, [], [], [], false;
    }

    function View(): State
      reads this
    {
      State(escapePressed, escBatchActive, escBatchBuf, inputBatchBuf, sent, ended)
    }

    method FlushEscBatch()
      modifies this
      ensures View() == FlushEsc(old(View()))
    {
      if !escBatchActive || |escBatchBuf| == 0 {
        return;
      }
      sent := sent + [escBatchBuf];
      escBatchActive := false;
      escBatchBuf := [];
    }

    method Utf8IncompleteTrail(data: seq<byte>) returns (n: nat)
      ensures n == Trail(data)
    {
      var limit := if |data| < 3 then |data| else 3;
      var i := 1;
      while i <= limit
        invariant 1 <= i <= limit + 1 && TrailFrom(data, i) == Trail(data)
      {
        var b := data[|data| - i];
        if b < 0x80 {
          return 0;
        }
        if b >= 0xc0 {
          var expected := if b < 0xe0 then 2 else if b < 0xf0 then 3 else 4;
          if i < expected {
            return i;
          }
          return 0;
        }
        i := i + 1;
      }
      n := 0;
    }

    method FlushInputBatch()
      modifies this
      ensures View() == FlushInput(old(View()))
    {
      if |inputBatchBuf| == 0 {
        return;
      }
      var trail := Utf8IncompleteTrail(inputBatchBuf);
      var cut := |inputBatchBuf| - trail;
      if cut > 0 {
        sent := sent + [inputBatchBuf[..cut]];
      }
      inputBatchBuf := inputBatchBuf[cut..];
    }

    method RunCommand(b: byte)
      modifies this
      ensures View() == Command(config, old(View()), b)
    {
      escapePressed := false;
      if b == 0x2e {
        ended := true;
        return;
      }
      if b == 0x69 || b == 0x68 || b == 0x73 || b == 0x64 {
        return;
      }
      if b == 0x71 {
        ended := ended || !config.readOnly;
        return;
      }
      if b == 0x72 || b == 0x66 {
        return;
      }
      if b == config.escapeByte {
        sent := sent + [[b]];
      }
    }

    method BeginEscBatch()
      modifies this
      ensures View() == BeginEsc(old(View()))
    {
      if escBatchActive {
        FlushEscBatch();
      }
      if |inputBatchBuf| > 0 {
        FlushInputBatch();
      }
      escBatchActive := true;
      escBatchBuf := [ESC];
    }

    method ExtendEscBatch(b: byte)
      modifies this
      ensures View() == ExtendEsc(old(View()), b)
    {
      escBatchBuf := escBatchBuf + [b];
      if ShouldFlushEsc(escBatchBuf) {
        FlushEscBatch();
      }
    }

    method TypeRun(run: seq<byte>)
      modifies this
      ensures View() == Type(old(View()), run)
    {
      inputBatchBuf := inputBatchBuf + run;
      if |inputBatchBuf| >= BATCH {
        FlushInputBatch();
      }
    }

    /** The read branch of handleStdin's loop. */
    method Read(data: seq<byte>)
      requires !ended
      modifies this
      ensures View() == HandleRead(config, old(View()), data)
    {
      hide Command, BeginEsc, ExtendEsc, Type;
      ghost var want := ReadFrom(config, View(), data, 0);
      var i := 0;
      while i < |data| && !ended
        invariant 0 <= i <= |data| && ReadFrom(config, View(), data, i) == want
        decreases |data| - i
      {
        var b := data[i];
        if escapePressed {
          RunCommand(b);
        } else if b == config.escapeByte {
          escapePressed := true;
        } else if b == ESC {
          BeginEscBatch();
        } else if escBatchActive {
          ExtendEscBatch(b);
        } else {
          var j := EndOfRun(data, i + 1);
          TypeRun(data[i..j]);
          i := j - 1;
        }
        i := i + 1;
      }
      if !ended && |inputBatchBuf| > 0 {
        FlushInputBatch();
      }
    }

    method EndOfRun(data: seq<byte>, start: nat) returns (j: nat)
      requires start <= |data|
      ensures j == RunEnd(config, data, start)
    {
      j := start;
      while j < |data| && data[j] != ESC && data[j] != config.escapeByte
        invariant start <= j <= |data| && RunEnd(config, data, j) == RunEnd(config, data, start)
      {
        j := j + 1;
      }
    }

    /** The timer branch. */
    method Timer()
      requires !ended
      modifies this
      ensures View() == HandleTimer(old(View()))
    {
      if escBatchActive {
        FlushEscBatch();
      }
      if |inputBatchBuf| > 0 {
        FlushInputBatch();
      }
    }
  }
}
