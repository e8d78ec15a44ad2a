# Verified model of the tezzer transport

tezzer carries a terminal over QUIC and promises that no byte is lost, repeated
or reordered across reconnects, roaming, two delivery paths, a bounded replay
buffer and in-place server restarts. This project models the code behind that
promise in Dafny and proves it for every input, every interleaving of locked
regions and every run. Where the code meets a promise only under a condition,
the exact condition is proved, together with a concrete run in which it fails.

Each locked region of the Go code is one atomic step. Code that updates fields
is a class whose methods are proved against a function on values; the theorems
are about runs of those functions.

| file | component |
|---|---|
| `Bytes.dfy`, `Frames.dfy` | big-endian integers; output frames and input datagrams |
| `ColdBuffer.dfy`, `OutputBuffer.dfy` | compressed segments; the two-tier replay buffer of a session |
| `BufferRuns.dfy`, `Conservation.dfy`, `Gapless.dfy`, `HoleRun.dfy` | every run of appends, evictions and two-phase compressions |
| `Resync.dfy`, `Wire.dfy` | the resync loop; server, wire and client together |
| `ModeTracker.dfy`, `AltScreen.dfy`, `TerminalOutput.dfy`, `Render.dfy` | terminal-mode and alternate-screen scanners and what output means to them; rendering two paths |
| `InputPath.dfy` | keystrokes over a stream duplicated as datagrams |
| `Stdin.dfy`, `StdinRuns.dfy`, `StdinKeys.dfy` | the stdin batching machine |
| `Registry.dfy`, `RegistryTable.dfy` | ownership of -R ports |
| `Clients.dfy`, `ClientTable.dfy`, `Transports.dfy` | client identity; reconnect superseding; UDP transports of a client |
| `Handover.dfy` | in-place restart |
| `Stun.dfy` | STUN request and response |

`dafny verify dfyconfig.toml` checks everything.

Promises that hold under an exact condition:

- An eviction pass with no compression in flight leaves a gapless suffix if and
  only if no segment still held came from a compression that claimed a queue
  with a hole (`Gapless.PassEndsRun`). It need not
  be: hot chunks can age out while the pending queue is frozen by a compression,
  later chunks queue up behind the hole, and a second compression, asked for
  before the first began, seals the hole into one segment, which is kept as long
  as its newest chunk is young. `HoleRun.HoleSurvivesQuietPass` is such a run of
  64 KiB reads: a burst of output 72 hours after the previous one.
- A client is registered before its resync runs, so a live frame can overtake
  resync frames and the client then drops the smaller offsets
  (`Wire.LiveFrameCanOvertake`, `Wire.OvertakenIsDropped`). Delivery is free of
  gaps if and only if every frame on the wire comes after all smaller offsets
  (`Wire.GapFreeIffSettled`). When live frames follow the resync, delivery has a
  gap after its first frame if and only if an offset in between was evicted
  before the resync reached it, or withheld from a fresh client, and was not sent
  live either (`Wire.GapIffLost`).
- What a client asks for is on the wire unless it was evicted, except that a
  fetch at offset 1 withholds the cold tier, and nothing else
  (`Wire.WireCoverage`, `Wire.WithholdsColdFromFresh`); the withheld chunks are
  older than everything the client is resent (`Wire.WithheldIsOlder`).
- The dropped-output notice is exact on a gapless buffer if and only if the
  buffer is not empty or nothing is due: when everything has aged out, a client
  that is behind gets neither output nor a notice (`Resync.NoticeIsExact`,
  `Resync.EmptyBufferIsSilent`).
- Typed bytes of any kind reach the server in order if and only if no doubled
  escape key arrives while a batch is pending and no ESC while the start of a
  character is held back (`StdinRuns.InOrderIffClean`). The first is
  `StdinRuns.DoubledKeyOvertakes`; the second, `StdinRuns.MalformedInputReorders`,
  cannot happen in UTF-8 (`StdinRuns.InOrderForUtf8`).
- In UTF-8 without ESC every packet is made of whole characters if and only if
  no byte typed after the escape key is the lead byte of a character: such a byte
  is swallowed as an unknown command and the rest of its character is sent
  (`StdinRuns.PacketsAreWholeIffLeadsKept`, `StdinRuns.EatenLeadSplitsCharacter`).
- A session has an agent provider exactly when a connected client offers one, as
  long as no client reconnects with its -A flag withdrawn
  (`ClientTable.ProviderStep`, `ClientTable.ChangedFlagLeavesStaleProvider`).
- The tracked terminal modes cross a restart exactly, and stay equal to those of
  the uninterrupted session on every later output if and only if the cut fell
  inside no live escape sequence (`Handover.ModesCross`).

## Model

| member | source | states |
|---|---|---|
| Frames.FramesRoundTrip | internal/qtransport/frame.go:105-129 | any concatenation of output frames within the size limit decodes to the same frame sequence and ends cleanly |
| Frames.CutStreamDecodesToPrefix | internal/qtransport/frame.go:105-129 | a stream of frames cut at any byte decodes to a prefix of the frames, never to a wrong frame |
| Frames.DatagramRoundTrip | internal/qtransport/frame.go:134-147 | an input datagram decodes to the offset and bytes it was made from |
| Frames.ReadIsExact | internal/qtransport/frame.go:114-129 | a frame is read exactly when the bytes start with its encoding and its data is at most 16 MiB |
| Frames.DatagramIsExact | internal/qtransport/frame.go:141-147 | a datagram decodes only to what encodes to it, and is refused exactly when it is shorter than eight bytes |
| ColdBuffer.CompressChunks | internal/session/coldbuffer.go:39-74 | the write loop builds the segment of exactly these chunks, with a truthful header, and refuses an empty list |
| ColdBuffer.ChunksFrom | internal/session/coldbuffer.go:77-102 | the read loop returns exactly the stored frames at or after the requested offset, and fails on any segment that does not decode cleanly |
| ColdBuffer.SegmentRoundTrip | internal/session/coldbuffer.go:39-102 | what is read out of a compressed segment is what was put in |
| OutputBuffer.OutputRing.EvictHotLocked | internal/session/session.go:715-735 | the hot tier sheds aged chunks and moves overflow to the pending queue |
| OutputBuffer.OutputRing.EvictColdPendingLocked | internal/session/session.go:737-749 | aged pending chunks go, except while a compression holds the front of the queue |
| OutputBuffer.OutputRing.EvictColdLocked | internal/session/session.go:753-770 | whole segments go by the age of their newest chunk or by the cold limit |
| OutputBuffer.OutputRing.EvictOutputChunksLocked | internal/session/session.go:705-713 | one pass over the three tiers, and whether a compression is due |
| OutputBuffer.OutputRing.HandlePTYOutput | internal/session/session.go:866-916 | a non-empty read is appended under the next number and a pass follows, with a compression asked for exactly when the queue has reached its target and none is in flight; an empty read changes nothing |
| OutputBuffer.OutputRing.EvictStaleOutput | internal/session/session.go:818-830 | the periodic pass, and when it asks for a compression |
| OutputBuffer.OutputRing.FlushBegin | internal/session/session.go:775-789 | the queue is claimed as a batch but stays in place; a second compression is refused |
| OutputBuffer.OutputRing.FlushEnd | internal/session/session.go:789-812 | the batch leaves the queue and, if compression succeeded, becomes the newest segment, with all counters adjusted |
| OutputBuffer.OutputRing.OutputFromOffset | internal/session/session.go:472-537 | one resync batch from the tiers, and whether a dropped-output notice is due |
| OutputBuffer.FillBatch | internal/session/session.go:505-537 | the decoding loop takes whole segments, then raw chunks, up to the batch limit |
| BufferRuns.EvictionPass | internal/session/session.go:705-770 | a pass keeps the invariant (true counters, in-flight batch a prefix of the queue, strictly increasing logged chunks), brings hot and cold tiers within limits, and drops chunks only for age or, from the oldest end, for cold size |
| Conservation.FlushKeepsContents | internal/session/session.go:775-812 | moving the batch into a segment changes nothing a reader sees, whatever happened since it was claimed |
| Conservation.FailedFlushLosesBatch | internal/session/session.go:789-812 | a failed compression loses exactly its batch |
| Conservation.StepKeepsInv | internal/session/session.go:705-812 | every step keeps the invariant, holds nothing it did not have, and drops only with a reason |
| Conservation.Conservation | internal/session/session.go:705-812 | in every run each appended chunk is either held, once, in order and with its bytes, or was dropped by a step with a reason: never both, never neither |
| Gapless.PassEndsRun | internal/session/session.go:705-812 | after a pass with no compression in flight the buffer is within its limits, and is a gapless suffix if and only if no segment still held came from a compression that claimed a queue with a hole |
| Gapless.ClaimsAreFlushBegins | internal/session/session.go:775-789 | the claims in that condition are exactly the begun compressions of the run |
| Gapless.SegmentGaplessIff | internal/session/coldbuffer.go:39-74 | a segment has a hole exactly when the chunks it was made from are not consecutive |
| Gapless.SegmentsWereClaimed | internal/session/session.go:775-812 | every held segment, and the batch in flight, is the pending queue of some earlier claim |
| Gapless.QuietPassGapless | internal/session/session.go:715-770 | in any state whose holes are aged chunks, the suffix is gapless exactly when every held segment is |
| Gapless.CleanRunIsGapless | internal/session/session.go:705-812 | runs whose compressions start on hole-free queues end gapless |
| HoleRun.HoleSurvivesQuietPass | internal/session/session.go:705-830 | a run of 64 KiB reads with a monotone clock, in which every compression was asked for by a pass and none failed, after which a quiet pass holds chunk 18 and not chunk 19 |
| Resync.BatchIsPrefix | internal/session/session.go:472-537 | a batch is the front of everything visible from the offset on, and is empty only when that is empty |
| Resync.BatchIsLimited | internal/session/session.go:505-537 | a batch is everything visible or at least 4 MiB, and without its last raw chunk or segment it is less than 4 MiB |
| Resync.FetchFacts | internal/session/session.go:472-537 | a batch ascends, has true data, and skips no held chunk up to its last offset |
| Resync.NextBatch | internal/qtransport/server.go:272-290 | asking again at last+1 continues exactly where the batch ended, with no second notice, also for a fresh client whose first call skipped the cold tier |
| Resync.DrainResync | internal/qtransport/server.go:272-290 | the loop terminates, sends exactly what was visible from the client's offset on, and notifies at most once |
| Resync.ServedExactlyIffKept | internal/session/session.go:472-537 | a client gets exactly from..seq if and only if all of it was kept |
| Resync.NoticeIsExact | internal/session/session.go:472-550 | on a gapless quiescent buffer the dropped-output notice is sent exactly when the client is not sent from..seq, if and only if the buffer is not empty or there is nothing to send |
| Resync.NoticeIsTrue | internal/session/session.go:472-550 | on any buffer a notice means that the client is not sent from..seq |
| Resync.EmptyBufferIsSilent | internal/session/session.go:495-503 | when everything has aged out, a client that is behind gets neither output nor a notice |
| Wire.NextKeepsInv | internal/qtransport/server.go:235-290 | the invariant of appends, evictions, registration, resync fetches and writes, and live sends, in any interleaving |
| Wire.WireCoverage | internal/qtransport/server.go:483-507 | every fanned-out offset at or above the requested one is on the wire with its true data, for a connection to a session in any reachable state, unless a fetch found it evicted (and it stays so) or withheld it from a fresh client; a client that asks for more than offset 1 has everything the buffer still holds |
| Wire.WithholdsColdFromFresh | internal/session/session.go:472-494 | a fetch withholds exactly the chunks of the cold tier, and only when it asks from offset 1 |
| Wire.WithheldIsOlder | internal/session/session.go:472-494 | withheld chunks exist only for a client that asks from offset 1 and are older than everything it is resent |
| Wire.ResyncTerminates | internal/qtransport/server.go:272-290 | resync makes at most one fetch per offset produced, however appends interleave |
| Wire.ResyncSkipsOnlyEvicted | internal/qtransport/server.go:272-290 | resent chunks ascend without repeats and from the first one on skip only evicted offsets |
| Wire.QuicClient.PumpOutput | internal/qtransport/client.go:625-646 | on any byte stream the client delivers the frames that advance its offset, and remembers the last |
| Wire.PumpOrder | internal/qtransport/client.go:625-646 | delivery is strictly increasing, from the wire, and ends at the largest offset seen |
| Wire.GapFreeIffSettled | internal/qtransport/client.go:625-646 | delivery has no gap if and only if every frame on the wire follows all smaller wanted offsets |
| Wire.GapIffLost | internal/qtransport/server.go:235-290 | when live frames follow the resync, at every moment what the client has is free of gaps after its first frame if and only if every offset in between that was evicted or withheld is on the wire all the same; and it starts at the requested offset unless that one was lost and not sent |
| Wire.EverythingSent | internal/qtransport/server.go:235-290 | once the resync is over and no live send is under way, every offset from the requested one on is on the wire, or was evicted or withheld |
| Wire.DeliversFromBase | internal/qtransport/client.go:625-646 | then the client has exactly the session's output from a given offset on if and only if nothing before it was sent and every later offset that was lost had been sent live |
| Wire.ManyConnections | internal/qtransport/client.go:625-646 | over any number of connections, each cut at any byte and each asking for no more than what comes after everything handed on, the client hands on true output in strictly increasing order and skips an offset only if some connection found it evicted or withheld it |
| Wire.OneStretchIffNothingLost | internal/qtransport/client.go:464-513 | that is one gapless stretch of the session's output if and only if every offset lost in between was handed on by another connection, and it starts right after the client's offset unless that one was lost |
| Wire.OvertakenIsDropped | internal/qtransport/client.go:625-646 | an offset overtaken by a live frame is never delivered on that connection |
| Wire.LiveFrameCanOvertake | internal/qtransport/server.go:235-290 | a schedule in which chunk 2 is written live before the resync has written chunk 1 |
| ModeTracker.Tracker.Scan | internal/termui/modes.go:93-173 | the scanner with its fast paths equals folding a one-byte step; `nparams` stays within 1..16 inside a private sequence |
| ModeTracker.FoldConcat | internal/termui/modes.go:93-173 | any splitting of the output gives the same state |
| ModeTracker.CsiSkipIsInvisible | internal/termui/modes.go:128-145 | dropping out of an unrelated CSI early tracks the same modes as reading it to its final byte |
| ModeTracker.SequenceMeaning | internal/termui/modes.go:75-173 | from text, `ESC [ ? p1;..;pk h/l` with at most 16 decimal parameters sets or resets exactly the tracked modes listed and returns to text |
| ModeTracker.Tracker.Restore | internal/termui/modes.go:52-72 | the printer writes one sequence per mode that differs, in table order |
| ModeTracker.RestoreRoundTrip | internal/termui/modes.go:52-173 | scanning what `Restore` prints, in a fresh tracker, reproduces the modes of any reachable tracker and ends in text |
| TerminalOutput.EveryOutputSplits | internal/termui/modes.go:93-173 | every output is a sequence of text, escape sequences and sequences cut off by the next ESC |
| TerminalOutput.OutputMeaning | internal/termui/modes.go:93-173 | after any output each mode is what the last piece that speaks of it says: a reset of all, ESC = and ESC > of the keypad, a private set or reset without intermediate bytes of the modes in its slots |
| TerminalOutput.ResetClears | internal/termui/modes.go:128-129 | from every state ESC c leaves no tracked mode set |
| AltScreen.AltScreenTracker.Scan | internal/termui/altscreen.go:71-146 | the index loop that can step back terminates and equals folding a one-byte step |
| AltScreen.AltFoldConcat | internal/termui/altscreen.go:71-146 | any splitting of the output gives the same state |
| AltScreen.IgnoreStateIsInvisible | internal/termui/altscreen.go:71-146 | the ignore state changes no answer |
| AltScreen.AltSequenceMeaning | internal/termui/altscreen.go:98-146 | a private sequence switches screens exactly when it names 47, 1047 or 1049 |
| TerminalOutput.ScreenMeaning | internal/termui/altscreen.go:71-146 | after any output the screen is what the last reset, or the last set or reset of 47, 1047 or 1049, says |
| AltScreen.InStepScan | internal/termui/altscreen.go:63-146 | a tracker that lost its place never contradicts one that saw everything |
| AltScreen.ResynchronisesAtEsc | internal/termui/altscreen.go:63-146 | after a gap it has the ideal tracker's place again at the first ESC |
| Render.Terminal.TrackScreen | cmd/tezzer/client.go:483-499 | the first chunk of the session starts a new tracker on the main screen, a gap resets it to unknown, and the chunk is then scanned |
| Render.Terminal.RenderOutput | cmd/tezzer/client.go:452-477 | the batch loop renders the chunks beyond the frontier and ignores the local socket's gaps once QUIC is set |
| Render.RenderingIsSound | cmd/tezzer/client.go:452-499 | for every interleaving and every loss, rendered offsets strictly increase with their true data, and whenever the tracker says main or alternate an ideal tracker fed everything says the same |
| Render.CrossPathIsGapless | cmd/tezzer/client.go:452-477 | once QUIC is set and delivers in order, rendering is gapless from the frontier whatever the local socket drops, repeats or reorders |
| Render.BatchIsDrawn | cmd/tezzer/client.go:452-477 | of a batch over QUIC, or over the local socket without QUIC, nothing stays above the frontier, and an ordered one is drawn from the frontier on, however many chunks are missing |
| Render.NewChunksAreDrawn | cmd/tezzer/client.go:452-477 | in every run each chunk of such a batch that arrives above the frontier is drawn and stays drawn |
| Render.ContiguousIsDrawn | cmd/tezzer/client.go:452-477 | chunks that continue the frontier are drawn whichever path brings them, unless drawing is stopped |
| Render.TrackMeaning | cmd/tezzer/client.go:483-499 | after a chunk the tracker knows what its last piece about the screen says, from main at the start of the session and from unknown after a gap |
| InputPath.InputDeduper.FromStream | internal/qtransport/input_dedup.go:20-36 | the part of a stream read that no datagram brought earlier is forwarded |
| InputPath.InputDeduper.FromDatagram | internal/qtransport/input_dedup.go:40-46 | a datagram is forwarded only when it starts exactly at the applied position |
| InputPath.InputSender.SendInput | internal/qtransport/client.go:648-678 | input goes to the stream and, when short enough and datagrams are supported, also as one datagram labelled with the offset of its first byte; a failed write moves no offset and sends no datagram |
| InputPath.ExactlyOnce | internal/qtransport/server.go:357-416 | for every splitting into reads and every loss, repetition, delay or reordering of datagrams, the PTY has received exactly the first `applied` sent bytes, and all of them once the stream is read |
| InputPath.DatagramIsForwarded | internal/qtransport/input_dedup.go:40-46 | the arrival of a datagram that starts at the applied position forwards its bytes |
| InputPath.ShortInputNeedsNoStream | internal/qtransport/client.go:648-678 | an input of at most 512 bytes is forwarded by its datagram alone once everything before it has been |
| Stdin.Batcher.FlushEscBatch | cmd/tezzer/input.go:76-94 | the escape batch is sent whole |
| Stdin.Batcher.Utf8IncompleteTrail | cmd/tezzer/input.go:99-136 | the length of an unfinished character at the end |
| Stdin.Batcher.FlushInputBatch | cmd/tezzer/input.go:141-178 | everything but an unfinished character is sent |
| Stdin.Batcher.Read | cmd/tezzer/input.go:331-462 | one read, byte by byte: prefix key, commands, escape sequences, plain runs |
| Stdin.Batcher.Timer | cmd/tezzer/input.go:308-317 | a timer firing flushes the escape batch, then the input batch |
| StdinRuns.TrailPush | cmd/tezzer/input.go:99-136 | how the unfinished tail changes with each byte |
| StdinRuns.TrailHold | cmd/tezzer/input.go:99-136 | the tail held back is itself unfinished, whole |
| StdinRuns.InOrderIffClean | cmd/tezzer/input.go:308-463 | for all bytes, every division into reads and every timer firing, sent packets plus both buffers equal the typed bytes in order if and only if no doubled escape key arrived on a pending batch and no ESC on a held-back lead byte; then the buffers are never both non-empty; the escape buffer stays under 32 |
| StdinRuns.InOrderForUtf8 | cmd/tezzer/input.go:308-463 | for valid UTF-8 only the doubled escape key matters, and the buffers are never both non-empty |
| StdinRuns.PacketsAreWholeIffLeadsKept | cmd/tezzer/input.go:99-178 | in valid UTF-8 without ESC every packet consists of whole characters if no byte after the escape key is a lead byte, and once the last character typed is complete only if (what detaching leaves unsent counted as a packet) |
| StdinRuns.EatenLeadSplitsCharacter | cmd/tezzer/input.go:337-405 | the escape key, a lead byte and a continuation byte send the continuation byte alone |
| StdinRuns.DoubledKeyOvertakes | cmd/tezzer/input.go:393-401 | a key typed before a doubled escape key is sent after it |
| StdinRuns.MalformedInputReorders | cmd/tezzer/input.go:141-178 | a lead byte followed by ESC leaves both buffers non-empty and ESC is sent first |
| StdinKeys.FlushIffComplete | cmd/tezzer/input.go:196-239 | an open batch is due exactly when its last byte completes a key sequence or fills 32 bytes |
| StdinKeys.BatchLeaves | cmd/tezzer/input.go:405-437 | what each byte does to an open batch: it leaves only when complete, full or followed by a new ESC |
| StdinKeys.SequencesStayTogether | cmd/tezzer/input.go:405-437 | a control sequence or arrow key is sent as one packet with its last byte, however reads divide it |
| StdinKeys.SequenceInRead | cmd/tezzer/input.go:405-437 | the same for a part of the sequence anywhere inside a read |
| StdinKeys.BatchInRuns | cmd/tezzer/input.go:308-462 | in every run an open batch is the start of a key sequence under 32 bytes; a timer sends it, and a read or a timer leaves at most three bytes held back |
| StdinKeys.PasteIsOnePacket | cmd/tezzer/input.go:438-462 | a read without ESC or escape key leaves as one packet, but for an unfinished character |
| Registry.ReconcileRestores | internal/session/rforward.go:232-286 | reconcile turns any edited port into one that satisfies the port invariant, and unregisters it exactly when nothing unexpired is left |
| Registry.VisitKeeps | internal/session/rforward.go:114-300 | each port visited by an event keeps the registry invariant |
| Registry.RegistryInvariant | internal/session/rforward.go:114-300 | after every run: a port has a registration; owner iff listeners iff a registration of the owner's device; dormant ones are the owner's and unexpired at the last reconcile; unowned means the last bind failed; every live notice is current; a client holds at most 16 ports; listeners are held once or closed once |
| Registry.NoStealing | internal/session/rforward.go:159-286 | an owner that still has any registration on a port after an event keeps the port and the same listeners |
| Registry.Takeover | internal/session/rforward.go:232-286 | when the owner's last registration goes, the old listeners close and a successful bind gives the port to the latest live hello; a failed one records its error; with nobody live the port goes |
| Registry.TakeoverInEvent | internal/session/rforward.go:159-286 | the same, within the one event that removed the owner |
| Registry.ListenerFlow | internal/session/rforward.go:213-286 | listeners are kept, closed or replaced as a whole |
| Registry.HelloRegisters | internal/session/rforward.go:114-156 | after a hello the client is registered on exactly the non-zero ports among the first 16 it asked for |
| Registry.PortLimitKept | internal/session/rforward.go:114-156 | no event takes any client past 16 ports |
| Registry.RegistrationAfter | internal/session/rforward.go:114-286 | what every event does to one client's registration on one port, and that otherwise only 24 hours of dormancy end it |
| Registry.DormancyBegins | internal/session/rforward.go:159-179 | a connection that ends without saying so leaves its device's port dormant on the same listeners |
| Registry.PortSurvivesDisconnect | internal/session/rforward.go:159-286 | through any run of events that spare the client, the port keeps owner and listeners for 24 hours |
| Registry.DormancyEnds | internal/session/rforward.go:202-211 | the first tick after that removes the registration |
| Registry.NoticeTells | internal/session/rforward.go:289-300 | what a live client was last told is true: its device has the port, another has, or the bind failed and why |
| RegistryTable.Table.HelloClient | internal/session/rforward.go:114-156 | the method is one turn of the verified state machine for some iteration order and bind answers |
| RegistryTable.Table.GoneClient | internal/session/rforward.go:159-179 | likewise for a connection that ended, explicitly or not |
| RegistryTable.Table.DropSessionClients | internal/session/rforward.go:182-199 | likewise for a session that ended |
| RegistryTable.Table.TickAll | internal/session/rforward.go:202-211 | likewise for the periodic check |
| RegistryTable.Table.CloseAll | internal/session/rforward.go:213-230 | afterwards every listener ever opened has been closed exactly once |
| RegistryTable.Table.ReconcileLocked | internal/session/rforward.go:232-286 | the method settles one port as the function says, choosing a latest live client |
| RegistryTable.LatestLive | internal/session/rforward.go:313-325 | a live registration with the newest hello, or none exactly when none is live |
| RegistryTable.NotifyLive | internal/session/rforward.go:270-300 | notices go to exactly the live clients whose state changed, and all are current afterwards |
| RegistryTable.Table.Targets | internal/session/rforward.go:354-371 | relay targets are exactly the live clients of the owner, newest hello first |
| ClientTable.Server.Connect | internal/qtransport/server.go:235-245 | a hello replaces the client's entry, and claims the session's agent if it offers one |
| ClientTable.Server.Disconnect | internal/qtransport/server.go:299-315 | only the registered connection removes the entry, and the agent passes to another client of the session that offers one, if any |
| ClientTable.ReconnectSupersedes | internal/qtransport/server.go:235-315 | after any order of hellos and ends the table maps a client to its latest hello's connection if and only if that one has not ended |
| ClientTable.ProviderStep | internal/qtransport/server.go:235-315 | a step keeps the provider table exact if and only if it does not withdraw the flag of the current provider |
| ClientTable.ProviderIsExact | internal/qtransport/server.go:235-315 | a session has a provider if and only if a connected client offers one, and the provider is such a client |
| ClientTable.FixedFlagsNeverStrand | internal/qtransport/server.go:235-315 | a client whose flag is fixed never causes the exception |
| ClientTable.LastHelloProvides | internal/qtransport/server.go:235-245 | the last hello that offers an agent provides it, until that client's connection ends or another such hello comes |
| ClientTable.FixedFlagsKeepProviders | internal/qtransport/server.go:235-315 | in every run in which each client's flag is the same in all its hellos, the provider table is exact |
| ClientTable.ChangedFlagLeavesStaleProvider | internal/qtransport/server.go:235-245 | a reconnect without the flag leaves a provider nobody offers |
| Transports.DialParallel | internal/qtransport/client.go:770-823 | for any result order the first success is kept and every other opened transport is closed |
| Transports.QuicClient.Migrate | internal/qtransport/client.go:519-565 | where the new transport goes on each outcome, and the limit of two extra transports |
| Transports.QuicClient.Reconnect | internal/qtransport/client.go:406-513 | the winner is adopted and the old transports retire, or it is closed and nothing changes |
| Transports.QuicClient.CloseClient | internal/qtransport/client.go:900-921 | all transports in use are closed |
| Transports.RunAccounted | internal/qtransport/client.go:464-611 | in every run each opened transport is in exactly one place: in use, retired or closed; the live connection is registered on exactly those in use |
| Transports.TransportLifetime | internal/qtransport/client.go:464-611 | a transport is closed at most once and never while the live connection is registered on it; at most two extra ones are held; after Close and the retirements all are closed exactly once |
| Handover.ChunksToHandover | internal/session/handover.go:112-118 | every chunk is written with its number, time and bytes |
| Handover.ChunksFromHandover | internal/session/handover.go:120-128 | the chunks read back pack to what was written, and the byte count is theirs |
| Handover.RestoreSession | internal/session/handover.go:330-379 | the tiers are those written, all four counters are true sums, nothing is in flight, and the modes are scanned from what was printed |
| Handover.WrittenFormIsFaithful | internal/session/handover.go:112-379 | the written form determines the restored buffer: it is the original's tiers and nothing else |
| Handover.StateDescribes | internal/session/handover.go:157-240 | a written state has one entry per living session, in order, with its id, a buffer that can only be restored as its tiers, and modes that a fresh tracker reads back as its modes |
| Handover.HandoverFidelity | internal/session/handover.go:112-379 | a restart at any step, even with a compression in flight, keeps every invariant and answers every resync and notice as the original would |
| Handover.ConservationAcrossRestarts | internal/session/handover.go:112-379 | in every run with any number of restarts each appended chunk is held once or was dropped by a step with a reason; a restart itself drops nothing |
| Handover.PassEndsTurns | internal/session/handover.go:112-379 | in every run with restarts a quiet pass leaves the same limits, and a gapless suffix under the same exact condition on the compressions that made the held segments |
| Handover.ModesCross | internal/session/handover.go:330-361 | the modes cross exactly, and follow the uninterrupted session on all later output if and only if the cut fell inside no live escape sequence |
| Handover.Process.Release | internal/session/handover.go:139-148 | every duplicated descriptor is closed once and every lock released once |
| Handover.Process.WriteHandover | internal/session/handover.go:135-262 | it succeeds if and only if nothing refuses to be duplicated and the encoder succeeds; on failure no lock is held and no descriptor left open; on success all locks are held and exactly the descriptors named in the state are open in addition; each entry of the state describes its living session |
| Handover.Process.FailedExec | internal/session/handover.go:130-148 | abort after a failed exec leaves locks and descriptors as before |
| Handover.Process.RestoreDescriptors | internal/session/handover.go:316-428 | every failing path of a restore closes the inherited PTY and socket and the descriptor made of the socket, but not the agent listener opened before the transport failed; after a success the inherited socket is left open, unused, exactly when the session had its own and the server now shares one |
| Handover.StateNamesFds | internal/session/handover.go:150-240 | the written state names exactly the duplicated descriptors, in order |
| Stun.XorBits | internal/stun/stun.go:285-346 | the arithmetic exclusive or used by the model is the bitwise one |
| Stun.XorV6 | internal/stun/stun.go:313-336 | the two byte loops compute the 128-bit exclusive or with cookie and transaction ID |
| Stun.ParseXorMappedAddress | internal/stun/stun.go:285-346 | address and port by the numeric definition of section 15.2 of RFC 5389, with each error case |
| Stun.AddressRoundTrip | internal/stun/stun.go:285-346 | every IPv4 or IPv6 address and port is read back as it was encoded |
| Stun.AddressIsExact | internal/stun/stun.go:285-346 | an address is read only from a value that encodes it |
| Stun.ParseBindingResponse | internal/stun/stun.go:217-282 | on any bytes the header checks come in order and the attribute loop stays in bounds and terminates |
| Stun.ParseIsExact | internal/stun/stun.go:246-282 | after a good header the answer is that of the first XOR-MAPPED-ADDRESS after well-formed other attributes, and the no-address error means there is none |
| Stun.HeaderOutcome | internal/stun/stun.go:217-244 | a message is refused for its type, then for its transaction ID, and otherwise passes |
| Stun.AcceptedIsResponse | internal/stun/stun.go:217-244 | the header is accepted exactly when the data is a Binding Response with the cookie, this transaction ID and its whole body |
| Stun.ResponseRoundTrip | internal/stun/stun.go:217-346 | a well-formed response with any padded attributes before the address, any bytes after it and any trailing bytes gives the encoded address and port |
| Stun.MakeBindingRequest | internal/stun/stun.go:197-213 | the request is the 20-byte header of sections 6 and 15 with the transaction ID |

## Left out

- QUIC, TLS, flate and msgpack are taken as ordered streams, lossy datagrams and invertible codecs; a cold segment that does not decode is skipped, as in the source, but the whole-run theorems assume the codec inverse.
- Sequence numbers do not wrap: runs are shorter than 2^64 appends, and chunks fit the 16 MiB frame limit (a PTY read is at most 64 KiB).
- Wire.ManyConnections: lets the pump of a replaced connection end before the next one begins. In the source a frame the old pump has already read may still be handed on beside the new pump, and its check and store of the offset are two steps.
- Sharing of backing arrays between slices: lists are values, so the model says nothing about memory retained by a resliced array.
- Write errors on the output stream, which end the connection and lead to a resync, and bytes of a failed input write that had already left.
- The end of stdin, which ends the client whatever is still buffered.
- Handing input to the transport is the end of the stdin model: the suppression of input in -peek mode and failed sends are not modelled.
- The order in which hello and gone reach the port registry relative to the connection table; the registry theorems take the order in which the registry sees them.
- The transport object stored with a registration, the admission limit on relayed connections and the second target tried after a failed open in `handleConn` of the registry.
- Migrations and reconnects that race with Close of the client; events follow the order of `migrateMu`.
- In a handover, session fields other than buffer, modes and descriptors (name, size, arguments, process, agent socket).
- The set of tracked modes is a set of table indices rather than a bit mask; UTF-8 validity is the shape of lead and continuation bytes of section 4 of RFC 3629, which admits more than the standard does, so the stdin theorems cover all valid input.
- The `screenState` mirror of the alternate-screen tracker, which can lag behind it.
- The receive loop around the STUN parser, which skips packets that do not parse, and the NAT diagnosis.
- PTY, processes, signals, raw mode, status line, logs, statistics, flags, configuration, candidate building, and the byte pipes of -L, -A and -R.
- Backoff, stall and liveness timers: time appears only as timestamps where eviction and dormancy use it.
