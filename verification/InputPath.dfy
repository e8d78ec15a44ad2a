/**
 Input from client to PTY: every byte goes over an ordered stream, and small
 inputs also as datagrams that may be lost, repeated, delayed or reordered
 (qtransport/client.go, SendInput); the server forwards each byte once
 (qtransport/input_dedup.go).
 */
module InputPath {
  import opened Bytes
  import opened Frames

  const MAX_DUP_INPUT: nat := 512

  /** `streamPos` bytes were read from the stream, `applied` bytes forwarded to the PTY. */
  datatype Dedup = Dedup(streamPos: nat, applied: nat)

  /** What a read of the stream adds to the forwarded bytes. */
  function StreamFresh(d: Dedup, data: seq<byte>): seq<byte> {
    if d.streamPos >= d.applied then data
    else if d.streamPos + |data| <= d.applied then []
    else data[d.applied - d.streamPos..]
  }

  function AfterStream(d: Dedup, data: seq<byte>): Dedup {
    var pos := d.streamPos + |data|;
    Dedup(pos, if d.streamPos >= d.applied || pos > d.applied then pos else d.applied)
  }

  function DatagramFresh(d: Dedup, offset: nat, data: seq<byte>): seq<byte> {
    if offset != d.applied then [] else data
  }

  class InputDeduper {
    var streamPos: nat
    var applied: nat

    function View(): Dedup
      reads this
    {
      Dedup(streamPos, applied)
    }

    method FromStream(data: seq<byte>) returns (out: seq<byte>)
      modifies this
      ensures out == StreamFresh(old(View()), data)
      ensures View() == AfterStream(old(View()), data)
    {
      var start := streamPos;
      streamPos := streamPos + |data|;
      if start >= applied {
        applied := streamPos;
        return data;
      }
      if streamPos <= applied {
        return [];
      }
      var skip := applied - start;
      applied := streamPos;
      out := data[skip..];
    }

    method FromDatagram(offset: nat, data: seq<byte>) returns (out: seq<byte>)
      modifies this
      ensures out == DatagramFresh(old(View()), offset, data)
      ensures View() == old(View()).(applied := old(applied) + |out|)
    {
      if offset != applied || |data| == 0 {
        return [];
      }
      applied := applied + |data|;
      out := data;
    }
  }

  /** The sending half: the offset of a datagram is the number of bytes written to the stream before it. */
  class InputSender {
    var inOffset: nat
    var written: seq<byte>
    var datagrams: set<seq<byte>>

    /** `writes` is the answer of the stream; after a failed write the connection is dead and nothing else is sent on it. */
    method SendInput(data: seq<byte>, datagramsOk: bool, writes: bool) returns (ok: bool)
      requires inOffset == |written|
      modifies this
      ensures ok == writes && inOffset == |written|
      ensures ok ==> written == old(written) + data
                     && datagrams == old(datagrams) + Duplicates(old(written), data, datagramsOk)
      ensures !ok ==> written == old(written) && datagrams == old(datagrams)
    {
      var offset := inOffset;
      if !writes {
        return false;
      }
      written := written + data;
      inOffset := inOffset + |data|;
      if |data| <= MAX_DUP_INPUT && datagramsOk {
        datagrams := datagrams + {EncodeDatagram(offset, data)};
      }
      ok := true;
    }
  }

  function Duplicates(sent: seq<byte>, data: seq<byte>, datagramsOk: bool): set<seq<byte>> {
    if |data| <= MAX_DUP_INPUT && datagramsOk then {EncodeDatagram(|sent|, data)} else {}
  }

  // Runs.

  /** Everything sent, the datagrams ever put on the network, the receiver, and the bytes forwarded. */
  datatype Net = Net(sent: seq<byte>, datagrams: set<seq<byte>>, dedup: Dedup, forwarded: seq<byte>)

  datatype Event = Send(data: seq<byte>, datagramsOk: bool) | Read(n: nat) | Arrive(datagram: seq<byte>)

  /** A read returns the next n stream bytes; any datagram ever sent may arrive at any time, any number of times. */
  function Next(s: Net, e: Event): Net {
    match e
    case Send(data, ok) =>
      s.(sent := s.sent + data, datagrams := s.datagrams + Duplicates(s.sent, data, ok))
    case Read(n) =>
      var pos := s.dedup.streamPos;
      if pos + n > |s.sent| then s
      else
        var data := s.sent[pos..pos + n];
        s.(dedup := AfterStream(s.dedup, data), forwarded := s.forwarded + StreamFresh(s.dedup, data))
    case Arrive(g) =>
      if g !in s.datagrams || DecodeDatagram(g).None? then s
      else
        var (offset, data) := DecodeDatagram(g).value;
        var added := DatagramFresh(s.dedup, offset, data);
        s.(dedup := s.dedup.(applied := s.dedup.applied + |added|), forwarded := s.forwarded + added)
  }

  function Run(es: seq<Event>): Net {
    if es == [] then Net([], {}, Dedup(0, 0), []) else Next(Run(es[..|es| - 1]), es[|es| - 1])
  }

  /** A datagram carries bytes of the stream together with their position. */
  ghost predicate Faithful(sent: seq<byte>, g: seq<byte>) {
    && DecodeDatagram(g).Some?
    && var (offset, data) := DecodeDatagram(g).value;
       offset + |data| <= |sent| && data == sent[offset..offset + |data|]
  }

  ghost predicate Inv(s: Net) {
    && s.dedup.streamPos <= s.dedup.applied <= |s.sent|
    && s.forwarded == s.sent[..s.dedup.applied]
    && forall g :: g in s.datagrams ==> Faithful(s.sent, g)
  }

  lemma FaithfulGrows(sent: seq<byte>, data: seq<byte>, g: seq<byte>)
    requires Faithful(sent, g)
    ensures Faithful(sent + data, g)
  {
    var (offset, d) := DecodeDatagram(g).value;
    assert (sent + data)[offset..offset + |d|] == sent[offset..offset + |d|];
  }

  lemma SendStep(s: Net, data: seq<byte>, ok: bool)
    requires Inv(s) && |s.sent| < MAX_OFFSET
    ensures Inv(Next(s, Send(data, ok)))
  {
    assert (s.sent + data)[..s.dedup.applied] == s.sent[..s.dedup.applied];
    forall g | g in s.datagrams ensures Faithful(s.sent + data, g) { FaithfulGrows(s.sent, data, g); }
    DatagramRoundTrip(|s.sent|, data);
    hide EncodeDatagram, DecodeDatagram;
    assert (s.sent + data)[|s.sent|..|s.sent| + |data|] == data;
  }

  lemma ReadStep(s: Net, n: nat)
    requires Inv(s)
    ensures Inv(Next(s, Event.Read(n)))
  {
    hide Faithful;
    var pos, applied := s.dedup.streamPos, s.dedup.applied;
    if pos + n <= |s.sent| && pos + n > applied {
      assert s.sent[pos..pos + n][applied - pos..] == s.sent[applied..pos + n];
      assert s.sent[..applied] + s.sent[applied..pos + n] == s.sent[..pos + n];
    }
  }

  lemma ArriveStep(s: Net, g: seq<byte>)
    requires Inv(s)
    ensures Inv(Next(s, Arrive(g)))
  {
    hide DecodeDatagram;
    if g in s.datagrams {
      assert Faithful(s.sent, g);
      var (offset, data) := DecodeDatagram(g).value;
      if offset == s.dedup.applied {
        assert s.sent[..offset] + s.sent[offset..offset + |data|] == s.sent[..offset + |data|];
      } else {
        assert s.forwarded + [] == s.forwarded;
      }
    }
  }

  lemma NextKeepsInv(s: Net, e: Event)
    requires Inv(s) && |s.sent| < MAX_OFFSET
    ensures Inv(Next(s, e))
  {
    hide Inv, Next;
    match e
    case Send(data, ok) => SendStep(s, data, ok);
    case Read(n) => ReadStep(s, n);
    case Arrive(g) => ArriveStep(s, g);
  }

  /** A datagram that starts where forwarding has got to is forwarded whole when it arrives. */
  lemma DatagramIsForwarded(s: Net, g: seq<byte>, data: seq<byte>)
    requires Inv(s) && g in s.datagrams && DecodeDatagram(g) == Some((s.dedup.applied, data))
    ensures var s' := Next(s, Arrive(g));
            s'.forwarded == s.forwarded + data && s'.dedup.applied == s.dedup.applied + |data|
  {
    hide Inv, DecodeDatagram;
  }

  /**
   A keystroke does not wait for the stream: once everything before it has been
   forwarded, an input of at most 512 bytes is forwarded by the arrival of its
   datagram alone, with no read of the stream.
   */
  lemma ShortInputNeedsNoStream(s: Net, data: seq<byte>) returns (g: seq<byte>)
    requires Inv(s) && s.dedup.applied == |s.sent| < MAX_OFFSET && |data| <= 512
    ensures g in Next(s, Send(data, true)).datagrams
    ensures Next(Next(s, Send(data, true)), Arrive(g)).forwarded == s.sent + data
  {
    g := EncodeDatagram(|s.sent|, data);
    DatagramRoundTrip(|s.sent|, data);
    var s1 := Next(s, Send(data, true));
    SendStep(s, data, true);
    DatagramIsForwarded(s1, g, data);
    assert s.sent[..|s.sent|] == s.sent;
  }

  /** The bytes sent over a whole run. */
  function SentBytes(es: seq<Event>): nat {
    if es == [] then 0
    else SentBytes(es[..|es| - 1]) + if es[|es| - 1].Send? then |es[|es| - 1].data| else 0
  }

  /**
   Exactly once. For every splitting of the stream into reads and every loss,
   repetition, delay or reordering of datagrams, the bytes forwarded are the
   first `applied` bytes sent, `applied` never falls behind the stream, and
   once the stream is read every byte has been forwarded, once and in order.
   */
  lemma {:induction false} ExactlyOnce(es: seq<Event>)
    requires SentBytes(es) < MAX_OFFSET
    ensures var s := Run(es);
            && Inv(s) && |s.sent| == SentBytes(es)
            && s.dedup.streamPos <= s.dedup.applied <= |s.sent|
            && s.forwarded == s.sent[..s.dedup.applied]
            && (s.dedup.streamPos == |s.sent| ==> s.forwarded == s.sent)
  {
    if es == [] {
    } else {
      ExactlyOnce(es[..|es| - 1]);
      NextKeepsInv(Run(es[..|es| - 1]), es[|es| - 1]);
    }
  }
}
