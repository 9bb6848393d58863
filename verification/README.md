# SoundSync, verified

A Dafny model of the protocols inside SoundSync, the daemon that captures Bluetooth audio through PipeWire, shapes it
and sends it to browsers, sound cards, AirPlay receivers and Chromecasts. Each component is a small protocol over an
environment it cannot trust: a `pactl` server whose commands fail with or without effect, a byte stream cut anywhere,
a bus that drops, clocks, other tasks. The model makes that environment explicit and states what every run keeps.

## How it is built

One module per component.

| file | component |
|---|---|
| `CastProto.dfy`, `CastWire.dfy`, `CastReader.dfy` | CASTV2 codec, its wire form byte by byte, frame reassembly |
| `CastSession.dfy`, `CastBranches.dfy`, `CastTrace.dfy`, `SilentCast.dfy` | the session task, its branches one by one, what every run keeps, and the bound on a silent device across session and controller |
| `Outputs.dfy`, `OutputController.dfy`, `Discovery.dfy`, `SinkDiscovery.dfy` | output devices, the controller against a module server, the listings it works from, what is offered for the sinks of a server |
| `PcmFrames.dfy`, `RtpPump.dfy` | capture bytes to frames, frames over the lossy bus to stamped packets |
| `ArtworkCache.dfy`, `PlayerSelection.dfy` | the AVRCP manager: concurrent artwork cache, choice of player |
| `NullSink.dfy`, `SinkBringUp.dfy`, `SinkListing.dfy`, `ModuleTables.dfy`, `NodeToken.dfy`, `Reconcile.dfy` | the capture sink: bring-up and sweep, its attempts and outcomes, its live-node check, the two parsers, the token search, the reconcile loop |
| `PairingWindow.dfy`, `EqController.dfy`, `Supervisor.dfy` | timed and ordered controllers |
| `Text.dfy`, `Wrappers.dfy` | the parts of string handling that the parsers rely on, shared vocabulary |

A task that loops over `select!` is a method over a script: the list of branches that completed, with their times and
with the environment's answers. The method (a loop over the fields or variables the program has) is proved equal to a
specification `Run(script)`, a fold of `Step`; the promises are lemmas about `Run` for every script. Where the program
awaits in the middle of a command, the specification keeps every intermediate state (`EqController`) or gives each
lock region a step of its own (`ArtworkCache`). Clocks are integers; `Timely`, `Admits` and `WellTimed` say which
scripts a biased `select!` and timers that fire when due can produce. Under each theorem about all runs stands one that
says, with literal bytes, names and numbers, what a single branch, turn or line comes to (`BranchTaken`, `PollTaken`,
`CommandTakesEffect`, `EncodedMessageBytes`, `NodesAreOffered`).

Where the code does not keep what its comments say, the code is modelled, and lemmas give the input and the
condition:

- `decode_frame` is documented to return `None` when more bytes are needed; it also does for a complete payload that
  does not decode, and then the session is deaf for good (`UndecodableFrameStalls`, `StalledSessionIsDeaf`), without
  being declared lost as long as the peer sends (`StalledPeerIsNeitherAnsweredNorLost`). The length prefix is cut to 32
  bits, so the frame round trip holds if and only if the payload is under 2^32 bytes (`FrameRoundTrip`).
- The cap on a lag is meant to keep the timeline aligned; `CappedSkipInStep` gives the lags for which it does.
- The artwork guard is meant to keep what is published; between its read and its write a publish or a clear can fall.
  An old track, an old status of the same track, or a cleared state can come back (`StaleTrackCanReturn`,
  `StaleStatusCanReturn`, `ClearCanBeUndone`). The write is harmless if and only if what is published then is still,
  artwork aside, what the task read (`LateWriteIsHarmlessIff`).
- The token search skips overlapping occurrences; `TokenSearchIsExact` gives the names for which that is right.
- The sweep is meant to leave exactly the canonical capture sink, and the verbose parser matches the name anywhere in the
  argument: if the first null sink that mentions it is another one, startup reports that one and the sweep unloads every
  real capture sink (`StrayMentionLosesTheSink`). `ParsersAgree`, `LiveSinkIsReused`, `EnsureReports` and
  `StartupLeavesOneSink` have the exact condition; a stray after a first sink that is reused does no harm.
- The live-node check looks for the sink's name anywhere in the sink listing: a node with a longer name hides that the
  sink's own is gone (`LookalikeHidesDeadSink`). `StaleCheckIsRightIff` says when the check is right.
- raop-discover is meant to be gone after exit; `RaopIsLeftBehindIff` says when it is not.
- The pairing adapter is meant never to get wedged open, and can stay discoverable after a failed close
  (`FailedCloseLeavesItOn`): a flag agrees with the published state if and only if the last call for it that took
  effect set it so (`AdapterFollows`), a close turns it off if and only if its call takes effect or it was off
  (`CloseTurnsOffIff`). A call can report failure after taking effect: making the adapter discoverable is two writes.
  `AgreementIsAssuredIff` has the condition in terms of what the calls return.
- The backoff starts uncapped: the schedule is capped doubling if and only if `initial <= max`
  (`ScheduleIsCappedDoubling`).
- A NaN gain passes the clamp (`ClampEqGain`). This concerns the function: gains come as JSON over HTTP
  (`src/web/eq.rs:42-52`), which has no NaN, so none reaches the controller.

The wire form follows the sections "Base 128 Varints" and "Message Structure" of the Protocol Buffers encoding
specification; timestamps follow section 5.1 of RFC 3550 and section 4.1 of RFC 7587.

## Model

| member | source | states |
|---|---|---|
| CastProto.VarintRoundTrip | src/cast/proto.rs:29-61 | any 64-bit value, followed by any bytes, decodes from its varint to itself and exactly those bytes |
| CastProto.SignRoundTrip | src/cast/proto.rs:35-36 | every i32 enum value, negative ones as ten-byte varints, survives the trip through 64 bits |
| CastProto.EncodeFrame | src/cast/proto.rs:67-75 | the buffer filled step by step is the length prefix (cut to 32 bits) followed by the payload; it decodes to its message and its length if and only if the payload is under 2^32 bytes |
| CastProto.DecodeFrame | src/cast/proto.rs:84-96 | a decoded frame consumes at least its four-byte prefix and no more than the buffer |
| CastProto.MessageRoundTrip | src/cast/proto.rs:29-61 | decoding the encoding of any message gives that message: fields absent, empty, or present and zero |
| CastProto.FrameRoundTrip | src/cast/proto.rs:67-96 | a frame followed by any bytes decodes to its message and its exact length if and only if the payload is under 2^32 bytes |
| CastProto.StrictPrefixIsIncomplete | src/cast/proto.rs:84-93 | no strict prefix of a frame decodes |
| CastProto.DecodeFrameIgnoresSuffix | src/cast/proto.rs:84-96 | what decodes at the front does not depend on the bytes after it |
| CastProto.DecodeFrameOfPrefix | src/cast/proto.rs:84-96 | cutting the buffer anywhere after the first frame does not change that frame |
| CastProto.RequiredEnumsAreOnTheWire | src/cast/proto.rs:31-61 | messages the session sends carry both required enums although their values are zero: the encoding starts 08 00 and is four bytes longer than without them |
| CastWire.EncodedVarint | src/cast/proto.rs:29-61 | a number is written with seven bits a byte, least significant first, the top bit set in all but the last byte, and no superfluous byte |
| CastWire.VarintIsRead | src/cast/proto.rs:84-96 | bytes of that form, minimal or not, are read as that number exactly if they are at most ten and it fits 64 bits |
| CastWire.EncodedMessageBytes | src/cast/proto.rs:29-61 | the bytes of an encoded message, field by field: keys 08, 12, 1A, 22, 28, 32, 3A, negative numbers in 64 bits, texts as length and bytes; absent fields and empty plain texts not at all |
| CastWire.FieldsAreDecoded | src/cast/proto.rs:29-61 | bytes made of such fields in any order, with unknown ones of every wire type in between, decode to the message with the last of each set |
| CastWire.UnknownIsMerged | src/cast/proto.rs:29-61 | an unknown field is stepped over exactly if its groups are nested at most 100 deep |
| CastWire.WrongWireType | src/cast/proto.rs:29-61 | a known field under another wire type does not decode |
| CastWire.BadKey | src/cast/proto.rs:29-61 | a key with tag 0, wire type 6 or 7, or more than 32 bits does not decode |
| CastWire.BadContent | src/cast/proto.rs:29-61 | a text that is not UTF-8, or a field shorter than its length, does not decode |
| CastWire.BadForeign | src/cast/proto.rs:29-61 | an unknown field cut short, or a group ended by another tag, does not decode |
| CastWire.FrameBytes | src/cast/proto.rs:67-75 | a frame is the payload's length, most significant byte first, and the payload |
| CastWire.FieldsFrameIsRead | src/cast/proto.rs:84-96 | a frame of any fields, whatever follows it, gives the message with these set and the frame's length; a part of it gives nothing |
| CastWire.StringMessageBytes | src/cast/proto.rs:98-115 | the session's messages: version 0, sender-0, destination, namespace, type 0 and the text, on the wire in that order |
| CastWire.ValidUtf8Iff | src/cast/proto.rs:36-56 | valid UTF-8 is exactly the bytes of a sequence of Unicode scalar values |
| CastReader.FrameReader.Receive | src/cast/client.rs:367-420 | one read appends its bytes and delivers every complete frame in order; no complete frame stays in the buffer; the loop ends |
| CastReader.ReceiveAll | src/cast/client.rs:341-422 | the reader over any list of chunks computes the specified deliveries and remainder |
| CastReader.DrainLeavesTail | src/cast/client.rs:372-420 | a drain leaves the untouched tail of the buffer, with no complete frame in it, and takes at least four bytes per frame |
| CastReader.DrainTakesWholeFrames | src/cast/client.rs:372-420 | the bytes a drain takes are whole frames that decode to exactly the delivered messages |
| CastReader.DrainInTwoSteps | src/cast/client.rs:367-420 | for any bytes, draining early and again after more bytes equals draining once |
| CastReader.ChunkingDoesNotMatter | src/cast/client.rs:357-420 | for any bytes and any chunking, chunk-wise reading equals draining the whole |
| CastReader.ReceivedConservesBytes | src/cast/client.rs:370-420 | at every point, all bytes received are the delivered frames' bytes followed by the buffer |
| CastReader.DrainOfStream | src/cast/client.rs:372-420 | a stream of frames and an incomplete one drains to its messages and that tail |
| CastReader.StreamReassembly | src/cast/client.rs:370-420 | however the frames of a list of messages are cut into chunks, exactly those messages are delivered in order and nothing is left |
| CastReader.PartialStreamReassembly | src/cast/client.rs:370-420 | in the middle of a frame all messages before it are delivered and exactly the cut frame waits |
| CastReader.UndecodableFrameStalls | src/cast/client.rs:373-376 | a complete frame that does not decode blocks everything after it for good, and is the only way to get stuck |
| CastReader.StalledBufferExists | src/cast/proto.rs:94 | five bytes that are such a frame |
| CastSession.CastTask.Start | src/cast/client.rs:309-339 | the handshake writes CONNECT and LAUNCH and initialises the session's variables |
| CastSession.CastTask.WriteAll | src/cast/client.rs:310-324 | a write appends its message to the trace, or fails and leaves the trace |
| CastSession.CastTask.HandleMessage | src/cast/client.rs:377-417 | the dispatch of one message, by the method on the session's variables, is the specified one |
| CastSession.CastTask.HandleChunk | src/cast/client.rs:367-420 | the read branch with its drain loop, ended early by a failed write, is the specified step |
| CastSession.CastTask.HandleTick | src/cast/client.rs:426-443 | the heartbeat branch writes a PING and then judges the silence |
| CastSession.CastTask.RunSession | src/cast/client.rs:309-446 | the whole session refines the specification of a run, for every script of completed select branches |
| CastSession.EndedRunStays | src/cast/client.rs:341-445 | nothing happens after the session has returned |
| CastTrace.RunKeepsInv | src/cast/client.rs:309-446 | the invariant behind the session's order holds after every completed branch |
| CastTrace.SessionOrder | src/cast/client.rs:309-446 | in every run the trace is CONNECT, LAUNCH, then heartbeats with one CONNECT and LOAD pair to the first transport a RECEIVER_STATUS named, PONGs match PINGs in order, CLOSE only last; only a failed write leaves a suffix out |
| CastTrace.EveryTickBeats | src/cast/client.rs:343-431 | every tick taken while the session runs sends one PING, the tick that finds the link lost included, unless that write fails; CLOSE is only said by a stopped session, and by each unless that write failed |
| CastBranches.OpeningTaken | src/cast/client.rs:309-339 | the session starts with CONNECT and LAUNCH number 1 to receiver-0, up to a write that fails |
| CastBranches.BranchTaken | src/cast/client.rs:341-445 | what each branch adds to any running session: a stop says CLOSE to receiver-0, unless that write fails, and ends it; end of stream and read error end it without a word; a tick sends one PING and then finds the link lost after more than 15 s of silence; a nudge does nothing; bytes are drained |
| CastBranches.MessageTaken | src/cast/client.rs:370-417 | a message's own frame is dispatched at once: PONG to the sender of a PING, CONNECT and LOAD number 2 to the first transport, nothing else |
| CastTrace.PumpIsDrain | src/cast/client.rs:372-420 | the drain with dispatch takes the same frames as the drain alone, as long as writes succeed |
| CastTrace.SessionReadsStream | src/cast/client.rs:356-422 | what the session dispatched is what the received bytes decode to, all of it while it runs |
| CastTrace.PeerIsAnswered | src/cast/client.rs:370-417 | end to end: a peer's messages, cut into chunks in any way, get one PONG per PING to its sender and one LOAD on the first transport |
| CastTrace.StalledSessionIsDeaf | src/cast/client.rs:367-376 | once an undecodable frame is at the head of the buffer, no message is ever dispatched or answered again, whatever arrives; only heartbeats and a goodbye are sent |
| SilentCast.NeverGivenUpEarly | src/cast/client.rs:243-249 | without I/O errors a run ends if and only if a tick finds the last inbound more than 15 s ago |
| SilentCast.TicksAreOnTime | src/cast/client.rs:333-339 | ticks come every five seconds from the start on |
| SilentCast.RunningIsNotSilent | src/cast/client.rs:333-339 | while a session runs its next tick is at most 20 s after the last inbound |
| SilentCast.GivenUpInTime | src/cast/client.rs:426-442 | 20 s after the last inbound the session has ended as lost |
| SilentCast.ChatteringPeerIsKept | src/cast/client.rs:367-370 | a peer whose bytes come at most 15 s before every tick is never given up |
| SilentCast.StalledPeerIsNeitherAnsweredNorLost | src/cast/client.rs:367-376 | a peer that has sent an undecodable frame and goes on sending is never answered again and never declared lost |
| SilentCast.SilentChromecastIsDropped | src/output/controller.rs:341-372 | 30 s after the last inbound the controller, refreshing every ten seconds on a schedule of its own, shows no active output and health Lost: two components, two clocks |
| Outputs.FoundDevice | src/output/controller.rs:49-56 | a device found under a kind and an id has that kind and that id |
| Outputs.FindDeviceIsFirst | src/output/controller.rs:49-56 | the device found is the first listed under its kind with that id, and none is found exactly if none has it |
| OutputController.Pactl.LoadModule | src/output/controller.rs:461-470 | the server's load with each way it can fail, with or without effect |
| OutputController.Pactl.UnloadModule | src/output/controller.rs:539-545 | the server's unload with each way it can fail |
| OutputController.PeakIsMaximum | src/output/controller.rs:448-560 | the recorded peak is the most loopbacks live after any load or unload |
| OutputController.OutputTask.Start | src/output/controller.rs:85-201 | startup loads raop-discover, or adopts the id parsed from the listing, and publishes the first state |
| OutputController.OutputTask.TeardownLoopback | src/output/controller.rs:535-560 | the tracked loopback is given up, whatever the server answers |
| OutputController.OutputTask.Teardown | src/output/controller.rs:417-432 | session and loopback are both given up |
| OutputController.OutputTask.RouteToSink | src/output/controller.rs:448-529 | routing to a sink: whatever is tracked is torn down, then the device on success, nothing on any failure |
| OutputController.OutputTask.StartCast | src/output/controller.rs:287-330 | casting: the device if it is listed with an address and this machine's address is known |
| OutputController.OutputTask.HandleCommand | src/output/controller.rs:219-339 | one command with its publication |
| OutputController.OutputTask.HandleRefresh | src/output/controller.rs:341-372 | one refresh, clearing a finished session |
| OutputController.OutputTask.ShutDown | src/output/controller.rs:376-411 | the teardown on exit, raop-discover included |
| OutputController.OutputTask.RunController | src/output/controller.rs:75-411 | the whole loop refines the specification of a run, for every script of branches and server answers |
| OutputController.SingleActiveAlways | src/output/controller.rs:207-374 | at every published state a device is active iff exactly one of loopback and session is held, its kind and its sink or address match, health is Connecting iff a session is held, Lost implies nothing active |
| OutputController.SingleActiveOnProbes | src/output/controller.rs:341-346 | the same for device lists as discovery really produces them, from any output of avahi and pactl |
| OutputController.CommandTakesEffect | src/output/controller.rs:223-337 | what each command leads to: a session on the first Chromecast listed with that id, at its address and port or 8009, with the literal stream url, if both addresses are known; a loopback from soundsync-capture.monitor to the sink, shown as listed or under its id, if it is loaded and answered; otherwise nothing; never the output before it |
| OutputController.FirstPublication | src/output/controller.rs:186-201 | startup shows the devices found and no output |
| OutputController.RefreshReapsOnlyDeadSessions | src/output/controller.rs:342-372 | a refresh ends an output if and only if it is a session that has finished, and reports that lost; loopback and modules stay, and a device no longer listed stays active |
| OutputController.ModuleConservation | src/output/controller.rs:376-560 | in every run, live loopbacks are the tracked one and orphans, exactly as many as there were before plus failed unloads plus loads whose id was lost; modules that are neither loopbacks nor raop-discover are untouched |
| OutputController.HonestServerHoldsOne | src/output/controller.rs:417-560 | with an honest server at most one loopback is ever live, even in the middle of a switch, and none after exit |
| OutputController.ExitedHoldsNothing | src/output/controller.rs:376-411 | after exit nothing is tracked any more |
| OutputController.AdoptsRaopDiscover | src/output/controller.rs:107-125 | of any truthful listing the module adopted is raop-discover, and one that is there is found |
| OutputController.RaopIsRemoved | src/output/controller.rs:381-410 | loaded, or found in the listing and adopted, raop-discover is gone after exit if the server is honest |
| OutputController.RaopAccounting | src/output/controller.rs:85-411 | in every run, the live raop-discover modules are those there before and the one startup loaded, less the tracked one once it is unloaded at exit |
| OutputController.RaopIsLeftBehindIff | src/output/controller.rs:85-411 | with at most one on the server, exit leaves raop-discover behind if and only if the unload kept it or startup never learned its id: a load answered without one, or refused with the modules not listed |
| PcmFrames.SplitFrames | src/audio/frame.rs:21-32 | as many frames as fit into the bytes |
| PcmFrames.SplitFramesAt | src/audio/frame.rs:21-32 | frame i is decoded from bytes 7680 i up to 7680 (i + 1) |
| PcmFrames.SampleAt | src/audio/frame.rs:21-32 | sample j of frame i is the little-endian 32-bit pattern of the four bytes from 7680 i + 4 j on; there are as many frames as full 7680 bytes, of 1920 samples |
| PcmFrames.SplitFramesPrefix | src/audio/frame.rs:21-32 | more bytes never change the frames before them |
| PcmFrames.ByteReader.ReadInto | src/audio/capture.rs:34 | one read takes bytes off the front of the stream; none only at its end |
| PcmFrames.ReadExact | src/audio/capture.rs:34 | the buffer is filled with the next bytes, or the stream has too few |
| PcmFrames.PumpOne | src/audio/capture.rs:32-41 | one turn of the loop sends the next full frame, or finds that there is none |
| PcmFrames.PumpFrames | src/audio/capture.rs:28-46 | however the stream is chunked, exactly split_frames of its bytes reaches the bus in order; the result tells a clean end from an error |
| RtpPump.RtpTimeline.NextPacket | src/web/webrtc/rtp.rs:20-25 | the timeline at a position gives that position's timestamp and sequence number and moves on by one |
| RtpPump.RtpTimeline.Skip | src/web/webrtc/rtp.rs:31-36 | skipping n moves on by exactly n positions in spite of 32- and 16-bit words |
| RtpPump.SkipIsWrapping | src/web/webrtc/rtp.rs:31-36 | multiplying and adding in wrapping words is adding positions |
| RtpPump.CappedSkipInStep | src/web/webrtc/pump.rs:61-64 | capping the lag keeps timestamp and sequence in step if and only if the lag is below 2^32 or one short of a multiple of 2^26 |
| RtpPump.OpusPump.PollOnce | src/web/webrtc/pump.rs:33-66 | one turn of the receive loop, on the lossy bus |
| RtpPump.RunOpusPump | src/web/webrtc/pump.rs:26-68 | the pump, interleaved with the capture side in any way, refines the specification of a run |
| RtpPump.RunKeepsInv | src/web/webrtc/pump.rs:26-68 | the alignment invariant holds at every point of every run |
| RtpPump.StartsAtEnd | src/web/webrtc/pump.rs:26-33 | a pump starts running, at the end of the bus, with nothing sent |
| RtpPump.PollTaken | src/web/webrtc/pump.rs:33-66 | each turn of a running pump: more than 256 items behind it skips to the last 256 and moves the timeline on; otherwise it sends the next item with 960 per slot mod 2^32 and 1 per slot mod 2^16, drops it, or ends |
| RtpPump.OtherTaken | src/web/webrtc/pump.rs:26-68 | frames come in until the source is gone, a shutdown ends the pump, an ended pump sends nothing |
| RtpPump.PacketsCarryFrames | src/web/webrtc/pump.rs:26-68 | every packet carries frame i with timestamp 960 (i - start - failures) mod 2^32 and that count mod 2^16 as sequence, in order and at most once, through any number of lags; every item is sent, failed or missed |
| RtpPump.BytesToPackets | src/audio/capture.rs:28-46 | the capture loop on a byte stream chunked in any way and a pump subscribing after its first turns, interleaved in any way: the packets carry split_frames of exactly those bytes, after what was on the bus before, in the sense of PacketsCarryFrames |
| RtpPump.TurnsAre | src/audio/capture.rs:32-41 | what the interleaving's turns come to, one by one |
| RtpPump.KeptUpIsGapless | src/web/webrtc/pump.rs:33-60 | a pump that keeps up sends every frame, with a timeline without gaps |
| ArtworkCache.Manager.ReadCache | src/bluetooth/media.rs:288-303 | the decision taken under the cache lock |
| ArtworkCache.Manager.ContinuePublish | src/bluetooth/media.rs:305-333 | the publisher's later lock regions: stamp, cache, announce, spawn |
| ArtworkCache.Manager.FinishFetch | src/bluetooth/media.rs:334-340 | a fetch returns a url or nothing |
| ArtworkCache.Manager.ContinueFetch | src/bluetooth/media.rs:342-378 | the fetch task's lock regions: cache guard, state guard, write |
| ArtworkCache.Manager.RunActions | src/bluetooth/media.rs:274-379 | the shared state under any interleaving of those regions |
| ArtworkCache.RunKeepsInv | src/bluetooth/media.rs:274-379 | the invariant of the shared state holds over every interleaving |
| ArtworkCache.ArtBelongsToTrack | src/bluetooth/media.rs:274-379 | over every interleaving, published artwork came from a fetch for the same title and artist, and fetches spawned equal changes of the non-empty key |
| ArtworkCache.PublishTaken | src/bluetooth/media.rs:274-333 | an uninterrupted publish: a track without title and artist is looked up nowhere, the cached track is shown with its artwork, any other takes the cache over and has one fetch started |
| ArtworkCache.FetchTaken | src/bluetooth/media.rs:334-378 | what each step of a fetch does: nothing without artwork, dropped for another cached track, cached only for another published one |
| ArtworkCache.ClearTaken | src/bluetooth/media.rs:421 | a clear hides the track and keeps the cache |
| ArtworkCache.CachedArtIsKept | src/bluetooth/media.rs:288-353 | cached artwork never reverts to none while its key lasts, reconnects included |
| ArtworkCache.RepublishedTrackHasArt | src/bluetooth/media.rs:306-310 | a later publish of a cached track carries the cached artwork, whatever was published meanwhile |
| ArtworkCache.StaleTrackCanReturn | src/bluetooth/media.rs:357-377 | a run in which the published track goes back from B to A |
| ArtworkCache.StaleStatusCanReturn | src/bluetooth/media.rs:357-377 | a run in which an old status of the same track comes back |
| ArtworkCache.ClearCanBeUndone | src/bluetooth/media.rs:357-377 | a run in which a reconnect's clear is undone, although a task that reads nothing writes nothing |
| ArtworkCache.WriterHoldsItsSnapshot | src/bluetooth/media.rs:357-373 | in every run a task about to write holds what was published when it read, with the artwork put in |
| ArtworkCache.LateWriteIsHarmlessIff | src/bluetooth/media.rs:357-377 | in every run a task's write changes nothing but the artwork if and only if what is published is, artwork aside, what the task read |
| ArtworkCache.UninterruptedWriteIsHarmless | src/bluetooth/media.rs:357-377 | so it is when no publish, clear or other task's write has landed since the read |
| ArtworkCache.UndisturbedFetchIsShown | src/bluetooth/media.rs:340-378 | a fetch that returns while its track is cached and published, and is not interrupted, is cached and shown and changes nothing else |
| ArtworkCache.LateWriteKeepsTrackIff | src/bluetooth/media.rs:357-377 | a task's write shows the track it fetched for, the one published at its read; it keeps the published track if and only if that is the track published at the write, whatever was published in between |
| PlayerSelection.SelectionIsRight | src/bluetooth/media.rs:110-138 | someone whenever there is anyone, in the best non-empty tier; the current player if it is in that tier, otherwise the least path |
| PlayerSelection.BestPathIs | src/bluetooth/media.rs:119-128 | the best tier: an active transport if any has one, else playing or paused if any is, else anyone |
| PlayerSelection.PathLeIs | src/bluetooth/media.rs:114 | paths are ordered by the first character in which they differ, a prefix first |
| PlayerSelection.RightChoiceIsUnique | src/bluetooth/media.rs:96-138 | that description admits one answer only, the same for every listing of the same candidates |
| PlayerSelection.SelectionIgnoresOrder | src/bluetooth/media.rs:102-114 | the order in which candidates are listed does not matter |
| PlayerSelection.RepollNeverSwitches | src/bluetooth/media.rs:591-605 | polling the same players again never switches |
| PlayerSelection.SwitchesOnlyWhenBeaten | src/bluetooth/media.rs:130-137 | a poll moves off the current player if and only if it has dropped out of the best tier |
| PlayerSelection.ReconnectBindsThePolledPlayer | src/bluetooth/media.rs:446-459 | the reconnect after a switch, asking with no current player, binds the player the poll chose |
| PlayerSelection.DevicePrefix | src/bluetooth/media.rs:66-85 | a path is cut after its first dev_ segment; None iff it has none |
| NodeToken.LineContainsNodeToken | src/audio/pw/parse.rs:64-76 | the search loop ends for non-empty names and computes the specified search |
| NodeToken.SearchIsSound | src/audio/pw/parse.rs:64-76 | whatever is found is an occurrence not flanked by name characters |
| NodeToken.GuardedSearchFinds | src/audio/pw/parse.rs:64-76 | with guarded overlaps every such occurrence is found, skipping over overlapping ones |
| NodeToken.UnguardedSearchMisses | src/audio/pw/parse.rs:73 | for any name with an unguarded overlap, a line with a token that the search misses |
| NodeToken.GuardedSearchIsExact | src/audio/pw/parse.rs:62-76 | with guarded overlaps the search finds a token exactly when there is one |
| NodeToken.TokenSearchIsExact | src/audio/pw/parse.rs:62-76 | the search is right on every line if and only if every self-overlap of the name starts right after a name character |
| NodeToken.PlainNameIsGuarded | src/audio/pw/parse.rs:81-85 | names made of name characters only, like those looked up in wpctl status, are guarded |
| NodeToken.SinkArgumentIsGuarded | src/audio/pw/parse.rs:33 | sink_name=NAME is safe to search for exactly when NAME is not a prefix of it |
| NodeToken.CaptureArgumentIsGuarded | src/audio/pw/parse.rs:33 | sink_name=soundsync-capture is safe to search for |
| ModuleTables.ParseNullSinkModuleId | src/audio/pw/parse.rs:5-20 | the loop over the verbose listing computes the specified scan |
| ModuleTables.ParseShortLine | src/audio/pw/parse.rs:36-50 | one line of the short listing |
| ModuleTables.ParseAllNullSinkModuleIds | src/audio/pw/parse.rs:32-53 | the loop over the short listing collects the ids of all its lines |
| ModuleTables.VerboseParserIsRight | src/audio/pw/parse.rs:5-20 | on the verbose rendering of any table: the first null sink whose argument mentions the name anywhere |
| ModuleTables.VerboseParserTakesFirstHit | src/audio/pw/parse.rs:5-20 | on any text at all: the first Argument line that mentions the name, with a Name line of a null sink before it in its module, gives what the last Module # line says; without one, nothing |
| ModuleTables.ShortParserIsRight | src/audio/pw/parse.rs:32-53 | on the short rendering of any table: every null sink whose argument has the sink name as a whole token, in order, if the name's overlaps are guarded |
| ModuleTables.ShortLineIsParsed | src/audio/pw/parse.rs:36-50 | any line of the short form: an id exactly if the second field is module-null-sink, the third is searched with success, and the first is a number |
| ModuleTables.ShortParserIsExact | src/audio/pw/parse.rs:32-53 | it is so on every table if and only if they are |
| ModuleTables.SinkIsMentioned | src/audio/pw/parse.rs:15 | a sink of that name mentions it, so the verbose parser never overlooks one |
| ModuleTables.ParsersAgree | src/audio/pw/parse.rs:22-31 | on renderings of one table the verbose parser gives the head of what the short one gives if and only if the first null sink that mentions the name is a sink of that name, or none mentions it |
| ModuleTables.LookalikeIsStray | src/audio/pw/parse.rs:15 | a null sink whose name only begins with the name mentions it and is no sink of that name |
| NullSink.FindExistingModule | src/audio/pw/null_sink.rs:18-24 | the module the verbose listing mentions; none if it is not given |
| NullSink.LoadWithRetry | src/audio/pw/null_sink.rs:89-106 | the retry loop gives up at once on a dead server and after ten attempts otherwise; failed attempts may have taken effect |
| NullSink.CreateNullSink | src/audio/pw/null_sink.rs:83-133 | create, verify, and recover the id from a second listing |
| NullSink.EnsureNullSink | src/audio/pw/null_sink.rs:34-133 | reuse, replace a stale module, or create, as specified for all server answers |
| NullSink.SweepDuplicateNullSinks | src/audio/pw/null_sink.rs:146-184 | the sweep unloads all ids of the short listing but the canonical one and counts them |
| NullSink.StartCaptureSink | src/daemon.rs:115-127 | ensure, then sweep if the module is known, with or without the sweep's listing |
| NullSink.WaitsAtMost35Seconds | src/audio/pw/null_sink.rs:99-106 | the pauses between attempts add up to 35 s at most |
| NullSink.NewRowIsSink | src/audio/pw/null_sink.rs:83-95 | the module as it is asked for is a sink of the name |
| NullSink.LoadsKeep | src/audio/pw/null_sink.rs:89-106 | however many attempts take effect, they add sinks at the end and change nothing else |
| NullSink.RemoveSink | src/audio/pw/null_sink.rs:59 | unloading one sink takes out its id and leaves every other module |
| NullSink.SweepIsExact | src/audio/pw/null_sink.rs:146-184 | of the listed sinks exactly the canonical one and those that do not unload are left; the count is that of the confirmed unloads |
| NullSink.EnsureReports | src/audio/pw/null_sink.rs:34-133 | whatever the server answers, the module reported is a sink of the name if and only if it does not come from a listing whose first mention is a stray; other modules are untouched if and only if no stray was unloaded as stale |
| NullSink.LiveSinkIsReused | src/audio/pw/null_sink.rs:39-80 | if the sink listing mentions the name, or is not given, the record found is reused without any change; it is the first sink if and only if that is the first mention |
| NullSink.StaleSinkIsReplaced | src/audio/pw/null_sink.rs:55-60 | the first sink is unloaded and replaced if the sink listing does not mention the name |
| NullSink.StartupLeavesOneSink | src/daemon.rs:115-127 | for every table and all server answers: with the module known and the sweep listed, the sinks left are that module, if and only if its lookup was sound, and those that do not unload; all other modules are as they were, if and only if no stray was unloaded |
| NullSink.StartupLeavesOneCaptureSink | src/daemon.rs:115-127 | that, without further conditions on the name, for soundsync-capture |
| NullSink.StrayMentionLosesTheSink | src/audio/pw/null_sink.rs:136-140 | a table on which startup reports a stray and unloads the real capture sink |
| NullSink.WorkingServerIsReady | src/audio/pw/null_sink.rs:108-121 | startup does know its module when load and listing work |
| SinkBringUp.AttemptsAre | src/audio/pw/null_sink.rs:89-106 | the last attempt is the first not answered not-ready, or the tenth, and its answer counts; the pauses before it were 1, 2, 3, 4, 5, 5, ... seconds |
| SinkBringUp.AttemptsAppend | src/audio/pw/null_sink.rs:83-106 | the attempts that took effect, failed ones included, add module-null-sink with sink_name and device.description at the end, in order |
| SinkBringUp.CreateReportsWhatHappened | src/audio/pw/null_sink.rs:83-133 | each outcome of creating the sink, with the id reported, from the last answer, the verification and the second listing |
| SinkBringUp.EnsureReportsWhatHappened | src/audio/pw/null_sink.rs:34-80 | what is mentioned first is reused as it is unless the sinks are listed without the name; then it is unloaded, and the sink created, as when nothing is mentioned |
| SinkListing.CheckFindsShown | src/audio/pw/null_sink.rs:46 | in the rendering of any nodes a name without line feeds is found exactly if some node's line has it |
| SinkListing.ShownInNameOrLater | src/audio/pw/null_sink.rs:46 | a name without tabs is in a line exactly if it is part of the index, of the node's name or of a later field |
| SinkListing.StaleCheckIsRightIff | src/audio/pw/null_sink.rs:39-80 | a record is unloaded as stale exactly if no node's line shows the name, and reused otherwise; stale means that the node is gone if and only if the node is live or no other node's line shows the name |
| SinkListing.ReadySinkIsShown | src/audio/pw/null_sink.rs:39-133 | bring-up reports ready exactly if a record was found and the name shows before the loads, or it was not cut short and the name shows after them; without lookalikes, exactly if the node is live then |
| SinkListing.LookalikeHidesDeadSink | src/audio/pw/null_sink.rs:46 | a listed node whose name only begins with the sink's makes a dead sink read as live: the record is reused and no sink is made |
| Reconcile.DrainWindow | src/daemon.rs:283-296 | the debounce loop ends at its deadline, with the source, or on shutdown |
| Reconcile.AwaitBringUp | src/daemon.rs:298-311 | a bring-up raced against shutdown |
| Reconcile.ReconcileLoop | src/daemon.rs:263-314 | the nested loops refine the specification of a run, for every script of select outcomes |
| Reconcile.RunKeepsInv | src/daemon.rs:263-314 | the discipline of the log holds at every point of every run |
| Reconcile.OutcomeTaken | src/daemon.rs:263-314 | what each outcome does in each phase of any run: windows of 200 ms, bring-ups with the current route, and when the loop stops |
| Reconcile.EveryEventIsServed | src/daemon.rs:281-311 | every dequeued event is followed by a bring-up within 200 ms, however many more come; it is only missing before that time is over or after a shutdown |
| Reconcile.StartsAreApart | src/daemon.rs:281-296 | while the source lives bring-ups are at least 200 ms apart; the one after its end is the last |
| Reconcile.BringUpUsesCurrentRoute | src/daemon.rs:298-303 | a bring-up gets the route set last before it starts |
| Reconcile.ClosedSourceIsServed | src/daemon.rs:291-311 | a source that closes in mid-window causes one more bring-up with the current route; whatever else happens, short of a shutdown, no other is started, and the loop ends exactly when that one is done and the queue is asked again |
| PairingWindow.Adapter.SetDiscoverable | src/bluetooth/bluer_control.rs:67-81 | an adapter call succeeds, fails without effect, or, as when only its second write fails, fails after taking effect |
| PairingWindow.PairingTask.WhileClosed | src/bluetooth/pairing.rs:36-47 | the wait for an Open ignores Close and ends on shutdown or without senders |
| PairingWindow.PairingTask.WhileOpen | src/bluetooth/pairing.rs:56-76 | the open window, re-armed and re-asserted by every Open |
| PairingWindow.PairingTask.RunPairingWindow | src/bluetooth/pairing.rs:23-79 | adapter and published state follow the specification of a run, with adapter calls that fail with or without effect |
| PairingWindow.RunKeepsInv | src/bluetooth/pairing.rs:23-79 | published open means open; a flag whose last call took effect agrees with it |
| PairingWindow.OpenIffNotUp | src/bluetooth/pairing.rs:49-76 | at any time, open if and only if the last command is an Open whose time is not up |
| PairingWindow.OpenForAnHourAtMost | src/web/pairing.rs:23-31 | opened from the web: half a minute at least, an hour at most, after the last Open |
| PairingWindow.OpenCommandIs | src/web/pairing.rs:23-31 | the seconds asked for, at least 30 and at most 3600, and 300 if none are given |
| PairingWindow.OutcomeTaken | src/bluetooth/pairing.rs:29-79 | what each outcome does in each phase of any run, to the phase, the published state and both flags |
| PairingWindow.AdapterFollows | src/bluetooth/pairing.rs:30-67 | with calls failing with or without effect: open is what the last calls asked for, and each flag agrees with it if and only if the last call for it that took effect, or its value at the start, set it so |
| PairingWindow.RepliesDoNotSteer | src/bluetooth/pairing.rs:30-67 | what calls return, and whether failed ones took effect, changes neither the window nor the calls made |
| PairingWindow.AgreementIsAssuredIff | src/bluetooth/pairing.rs:30-67 | from the calls' returns alone: for every way the failed calls may have gone a flag agrees with the published state, if and only if some call succeeded in setting it so, or it was so at the start, and every call since, failed ones included, asked for the same |
| PairingWindow.CloseTurnsOffIff | src/bluetooth/pairing.rs:57-74 | a close turns a flag off if and only if its call takes effect or the flag was off |
| PairingWindow.WorkingAdapterFollows | src/bluetooth/pairing.rs:15-22 | with succeeding calls discoverable = pairable = open at every wait, and all off after a return |
| PairingWindow.FailedCloseLeavesItOn | src/bluetooth/pairing.rs:30-33 | for any request from the web, an admissible run in which a failed close leaves the adapter discoverable; also one in which no call to make it so ever succeeded |
| EqController.ClampEqGain | src/audio/eq_controller.rs:265-267 | below -12 dB becomes -12, above 12 becomes 12, gains in range are kept; in range iff not NaN |
| EqController.GainsToBands | src/audio/eq_controller.rs:223-229 | the default bands with the gains written in, by the loop over the copied array |
| EqController.EqTask.HandleEnable | src/audio/eq_controller.rs:108-167 | enabling, with its roll-back |
| EqController.EqTask.HandleDisable | src/audio/eq_controller.rs:169-186 | disabling, the route first |
| EqController.EqTask.HandleUpdateGains | src/audio/eq_controller.rs:188-216 | an update clamps in place and is published regardless |
| EqController.EqTask.RunEqController | src/audio/eq_controller.rs:97-219 | the whole loop refines the specification of a run |
| EqController.RouteFollowsFilterChain | src/audio/eq_controller.rs:97-219 | after every single action of every run the route is the EQ sink only while exactly one filter chain is supervised; between commands route, supervisor and published state agree |
| EqController.GainsAreTheLastClamped | src/audio/eq_controller.rs:188-192 | stored and published gains are those of the last update, clamped, through any enabling and disabling; in range iff not NaN |
| EqController.BandsAre | src/audio/eq_controller.rs:223-229 | in every run the ten published bands have their frequencies, qualities and filter types, and the stored gains |
| EqController.CommandTaken | src/audio/eq_controller.rs:97-219 | in every run each command does exactly these actions in this order, and the state after each is on record |
| EqController.AppliedGainsAreTheLastSent | src/audio/eq_controller.rs:155-215 | in every run a filter chain is supervised exactly if the commands say so; the gains that arrived at a node last are the clamped ones of the last update up to that send; while no update was missed, the node in use has been given the stored gains |
| EqController.FailedEnableRollsBack | src/audio/eq_controller.rs:131-148 | a node that does not show up leaves everything as it was |
| Discovery.ParseModuleIdByName | src/output/discovery.rs:249-269 | the loop over the short module listing |
| Discovery.ModuleIdIsFound | src/output/discovery.rs:239-269 | on the short rendering of any table the first module of that name is found, although lines are trimmed first |
| Text.LinesAre | src/output/discovery.rs:250 | the lines of any text: a carriage return before a line feed is dropped, the last piece is a line unless it is empty |
| Text.TrimIs | src/output/discovery.rs:251 | trimming takes off white space at both ends, and all of it |
| Text.SpaceIs | src/output/discovery.rs:251 | white space, code point by code point |
| Text.ParseUnsignedIs | src/output/discovery.rs:265 | digits, or a plus sign and digits, are a number if it is in range; nothing else is |
| Discovery.BadIdEndsSearch | src/output/discovery.rs:264-266 | a line with the name whose id is no number ends the search without one |
| Discovery.DedupBy | src/output/discovery.rs:31-41 | the filter with its seen-set computes first-wins deduplication |
| Discovery.DedupKeepsFirsts | src/output/discovery.rs:22-41 | for every key the first device is kept and no second one |
| Discovery.SplitNOfJoin | src/output/discovery.rs:100-101 | the tenth piece keeps all its separators |
| Discovery.TxtOfTokens | src/output/discovery.rs:51-63 | of quoted tokens the first key=value gives the value |
| Discovery.ResolvedLineIsParsed | src/output/discovery.rs:96-131 | a resolved service as avahi-browse prints it parses to its device and protocol |
| Discovery.AvahiLineIsParsed | src/output/discovery.rs:96-131 | a line of ten fields gives a device exactly if it is resolved, has a port number, and fn and id values that are not empty |
| Discovery.ShortLineIsSkipped | src/output/discovery.rs:101-104 | a line of fewer fields gives nothing |
| Discovery.FriendlyNameRoundTrip | src/output/discovery.rs:176-184 | a RAOP sink's name gives the receiver's name back |
| Discovery.StableSortIsUnique | src/output/discovery.rs:133-136 | the order used is the only stable sort by protocol |
| Discovery.CollectLines | src/output/discovery.rs:94-131 | the line loop collects what each line parses to, in order |
| Discovery.ProbeOutputs | src/output/discovery.rs:287-317 | the probe aggregates what the commands printed, an absent one giving an empty list |
| Discovery.ChromecastsPreferIpv4 | src/output/discovery.rs:84-139 | for any listing, each id of a resolved line is shown once, as its first IPv4 line or else its first line |
| Discovery.ProbedIsWellKinded | src/output/discovery.rs:287-317 | devices are listed under their kind and none twice, sound cards and AirPlay sinks are told apart, own sinks are never offered |
| SinkDiscovery.NodesAreOffered | src/output/discovery.rs:160-234 | on the listing of any sink nodes: the sound cards are exactly the distinct names that begin with neither soundsync nor raop_sink., contain no effect_ and do not end with .monitor, in order; the AirPlay devices exactly the names that begin with raop_sink., the first per friendly name |
| SinkDiscovery.FriendlyNameIs | src/output/discovery.rs:176-184 | the friendly name is what stands between raop_sink. and the last .local, or all of the rest |
| Supervisor.NextBackoff | src/sys/supervisor.rs:35-37 | saturation never shows below the cap |
| Supervisor.Supervise | src/sys/supervisor.rs:58-110 | the loop refines the specification of a run |
| Supervisor.TurnTaken | src/sys/supervisor.rs:58-110 | what each turn does: when the run starts, which backoff is slept, and how it is doubled, capped and set back |
| Supervisor.SleepsFollowSchedule | src/sys/supervisor.rs:90-107 | every sleep is the backoff for the restarts since the last stable run |
| Supervisor.ScheduleIsCappedDoubling | src/sys/supervisor.rs:35-37 | that is min(initial 2^r, max) for every r if and only if initial <= max |
| Supervisor.StartsWaitForSleeps | src/sys/supervisor.rs:80-107 | the n-th run starts no earlier than the sum of the sleeps before it |
| Supervisor.RestartsAreCounted | src/sys/supervisor.rs:72-109 | reported restarts are the runs, or one less, and which of the two |

## Left out

- TLS, TCP, D-Bus, BlueZ and process spawning appear only as steps and answers of the environment; connecting is not
  modelled, a session starts connected.
- JSON: a payload's type and transport id are an arbitrary function of the payload (`Classifier`); the JSON texts that
  the session sends are abstract bodies, so the trace is of messages, not of bytes.
- The protobuf library is not part of the repository: its decoding of unknown fields, nested groups and wrong wire
  types follows the encoding specification, with a nesting limit of 100.
- Opus: the encoder is "packet, nothing, or panic". Floats are bit patterns (samples) or reals with NaN and infinities
  (gains); no rounding is involved.
- Characters: which non-ASCII characters are alphanumeric is a parameter (`NameClass`); strings are sequences of
  characters, so byte offsets into UTF-8 text do not show.
- Overflow of the 32-bit counters `restarts` and `req_id`, and of clocks, is not modelled; counters are unbounded.
- CastSession.CastTask.WriteAll: the trace has the messages whose write succeeded; a failed write ends the session, and
  how much of it reached the peer is not modelled.
- Time: timers fire when due and handlers take no time; in `SilentCast` commands to the controller while a device is
  silent are left out, as they replace the device anyway.
- A dropped shutdown sender, which makes the select loops of the output controller spin, is not modelled.
- OutputController.ModuleConservation: only this controller loads and unloads loopbacks and raop-discover; changes by
  other programs in between are not modelled.
- PairingWindow.AdapterFollows: the adapter changes only through these calls; resets and changes by other programs are
  not modelled.
- NullSink.StartupLeavesOneSink: modules change only through these commands, and ids of live modules are distinct.
- OutputController.AdoptsRaopDiscover: a listing, when given, is the short form of the modules that are live.
- SinkListing.StaleCheckIsRightIff: the sink listing, when given, is the tab-separated rendering of the live nodes.
- NodeToken.LineContainsNodeToken: requires a non-empty name; for an empty one the loop does not move on, and no caller
  passes one.
- Setting the default sink (`set_default_sink`, `find_wpctl_node_id`), the capture tool, and the daemon's event source
  are left out; a bring-up in `Reconcile` is an instant with a duration, not its commands.
- The AVRCP manager's reconnect loop, its health counter and its commands are D-Bus plumbing; the cache and the choice of
  player are modelled, the loop is only the publisher's and the poller's caller.
- Whether the actual default sink equals the desired route, and whether a respawned filter chain has the stored gains,
  is not promised by the program: a reconcile works on a copy of the route, and a respawn reuses the bands of the
  moment it was enabled.
- `EqController`: the desired-route channel has a receiver; a send without one would leave the route as it was.
- HTTP handlers, WebSocket, web UI, packaging, doctor and install scripts, the Bluetooth device life cycle, the webrtc
  bindings and `server_lan_ip` are left out: glue, or easy members only.
