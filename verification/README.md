# A verified model of the vehicle adapter pipeline

This project models, in Dafny, the parts of a vehicle diagnostics program whose correctness is hard to see:
how an emulated ELM327 adapter prints what a vehicle's modules answer and how the adapter side reads it back;
how the adapter object recovers from a failing link; how recorded conversations are replayed; and several
protocols that hold over whole runs. `dafny verify dfyconfig.toml` checks all of it.

| file | what it holds |
|---|---|
| `Text`, `Hex`, `Can`, `Wrappers`, `Protocols`, `EcuReplies` | strings, hexadecimal, identifiers, protocol numbers |
| `IsoTp`, `Peers` | ISO-TP (ISO 15765-2) sender and receiver as objects, and two peers exchanging a message |
| `Response`, `Verdicts`, `FrameText`, `Assemble`, `Interleaving`, `WireRoundTrip`, `Conversation`, `Partial` | replies printed, parsed, classified and reassembled; what each text means; the round trip; interleaving; lost frames |
| `Legacy`, `LegacyRoundTrip`, `LegacyConversation` | the same for the K-line |
| `EndToEnd` | one request through emulator, adapter, parser and assembly |
| `Elm`, `Headers`, `Transports`, `Commands`, `ResponseWindow`, `Reactions`, `Adapter`, `Runs` | the emulator, the link and the adapter object; header cache, recovery and learned window over every run |
| `Settings` | what the commands of a connection set on the device, and what the adapter learns of it |
| `Transcripts`, `Replay` | transcripts as text, and answering from them |
| `EventStream` | backlog, subscription and lag of the flight-recorder stream |
| `Calendar`, `RateLimiter` | dates and the counters of the report endpoint |
| `Vehicle`, `Masks` | configuration and fault memory of the simulated vehicle; supported-identifier masks and the walks over them |
| `Redaction` | replacing names in reports |
| `BusyMarker` | the service lock and the busy marker |

Objects whose methods update them are classes here (`IsoTpReceiver`, `IsoTpSender`, `ElmEmulator`, `Transport`,
`Elm327Adapter`, `ReplayTransport`, `Socket`, `Counters`, `VirtualVehicle`, `AppState`); loops are methods with
invariants, each proved against a function about which the lemmas speak. A link between adapter and emulator is
a script that says, for every exchange, whether it is answered, fails before or after the device carried the
command out, or is answered too late; faults are finite in number but arbitrary in place.

## What the proofs found

- Losing a run of frames whose length is a multiple of sixteen, short of the end, goes unnoticed by the
  sequence number: the bytes after the gap are joined on (`Partial.LostFrames`).
- The receiver's eight-bit count of frames since the last flow control overflows for messages over 1798 bytes
  (`Partial.CounterOverflowsExactly`); a build that checks arithmetic stops there, one that does not is unharmed.
- On the K-line a service 09 reply of one frame keeps the frame's number as data, and one of more than 255 frames
  is read as nothing (`LegacyRoundTrip.WholeExactly`).
- A payload over 4095 bytes prints a first frame the adapter refuses (`Conversation.RoundTripExactly`).
- A refused or late `ATSH` leaves the header cache in place, so a reply lost after the device moved makes the cache
  wrong (`Runs.LateReplyStalesCache`), and nothing else does (`Runs.EveryRun`).
- The restoration after a warm start ignores its failures: if they never reach the device the adapter stays usable
  and goes on taking the device to print headers (`Runs.FailedRestorationExample`, `Runs.PrintingExactly`).
- A comment in core/adapter/src/elm327.rs says the protocol survives a warm start; the emulator resets it with
  everything else. The model follows the emulator.
- Reopening a replay starts the recording over but keeps the header context (`Replay.ReopenedExactly`).
- Event numbers are allocated under the database lock and published after it, so an event published late is
  skipped without a report (`EventStream.DeliveredExactly`); so is one beyond the backlog's limit
  (`EventStream.KeepingUpExactly`).
- The report endpoint reads day and time before it takes the lock, so a day's limit is kept for certain only if the
  requests come to that day once (`RateLimiter.PerDayExactly`).
- A monitor numbered E0 is asked for a mask and its results are read as one (`Masks.EnumerateSupportedMids`).
- Deleting a name can put another occurrence of it together (`Redaction.DeletedExactly`).
- Two connects can overlap (`BusyMarker.ConnectsOverlap`), and only such an overlap replaces a usable service
  (`BusyMarker.ReplacesExactly`).

## Model

| member | source | states |
|---|---|---|
| Response.HexLineIsNoFailure | core/adapter/src/response.rs:196-247 | no line of hex tokens squashes into any error banner or into `OK`, so data is never taken for an error |
| Response.HexLinesAreData | core/adapter/src/response.rs:152-230 | a terminated reply of nothing but hex lines is data, however many modules answered |
| Response.AnyFailureFails | core/adapter/src/response.rs:152-230 | one failing line anywhere makes the whole reply a failure, whatever else it holds |
| Response.KeepLines | core/adapter/src/response.rs:127-150 | the loop keeps exactly the pieces that are neither blank, nor the echo, nor search progress, in order, and reports whether progress was seen |
| Response.ScanHexLine | core/adapter/src/response.rs:237-247 | the token scan with its early return decides exactly whether every token is hexadecimal and there is one |
| Response.ClassifyLines | core/adapter/src/response.rs:152-230 | the scan with its early returns computes the classification about which the lemmas above and those of `Verdicts` speak |
| Response.Parse | core/adapter/src/response.rs:127-150 | splitting, keeping and classifying together; the inverse of printing by `Conversation.ParsePrinted`, and for what the device prints the class it means by `Verdicts` |
| Verdicts.BannerMeans | core/adapter/src/response.rs:152-230 | a line whose letters spell a banner is that banner's failure and no other: `NODATA` silence, `STOPPED` an interruption, and so on through the table |
| Verdicts.MarksMean | core/adapter/src/response.rs:152-230 | a line of question marks is a command not understood |
| Verdicts.FirstFailureDecides | core/adapter/src/response.rs:152-230 | of several lines the first failing one decides the class |
| Verdicts.OneLineReads | core/adapter/src/response.rs:127-230 | one printed line, with or without echo, line feeds or a search before it, comes to its own class, unless it reads as the command and is dropped as the echo |
| Verdicts.SilenceReads | simulator/src/elm.rs:370-460 | `NO DATA`, `UNABLE TO CONNECT` and `CAN ERROR` as the device prints them read as no data, no connection and a bus error |
| Verdicts.FaultReads | simulator/src/elm.rs:160-169 | every injected fault reads as exactly its own class, and silence as a timeout, whatever the echo and line feeds |
| Verdicts.MarkReads | simulator/src/elm.rs:200-368 | a refusal reads as not understood |
| Verdicts.OkReads | core/adapter/src/response.rs:152-230 | `OK` reads as exactly that |
| Verdicts.BannerIsInfo | core/adapter/src/response.rs:152-230 | a readable banner reads as information |
| Can.ParseHexToHex | core/protocols/src/can.rs:49-71 | a printed identifier of either width parses back to itself |
| Can.ToHexInjective | core/protocols/src/can.rs:49-71 | different identifiers print differently, so an address string names one module |
| IsoTp.IsoTpReceiver.FeedFrame | core/protocols/src/isotp.rs:301-376 | each frame moves the receiver exactly as the reassembly function says: completed, started, continued, asking for more, or refused and reset |
| IsoTp.IsoTpSender.NextFrame | core/protocols/src/isotp.rs:466-500 | single, first and consecutive frames by position; none when finished or out of credit; the sequence number counts modulo sixteen |
| IsoTp.IsoTpSender.ApplyFlowControl | core/protocols/src/isotp.rs:438-463 | permission, wait and overflow change the credit and nothing else |
| IsoTp.Segment | simulator/src/elm.rs:592-613 | the emulator emits exactly the frames of the message, in order |
| IsoTp.WireFrame | core/protocols/src/isotp.rs:97-209 | every frame of a message of at most 4095 bytes encodes to eight bytes that parse back to it, up to padding |
| IsoTp.OversizeFirstFrame | core/protocols/src/isotp.rs:172-209 | a longer message makes a first frame of twelve bytes, which no CAN frame holds |
| IsoTp.FeedNext | core/protocols/src/isotp.rs:329-366 | each consecutive frame in turn moves the receiver on, and the last completes exactly the payload, padding dropped |
| Peers.Exchange | core/protocols/src/isotp.rs:507-533 | a sender and a receiver with any block size exchange any message of 1 to 4095 bytes over the wire encoding: the message arrives whole, the sender never runs dry, and flow control is given once plus once for each full block before the last frame |
| Peers.NextReceived | core/protocols/src/isotp.rs:301-376 | frame by frame: which frame completes the message, which asks for permission, which only counts |
| FrameText.FormatFrame | simulator/src/elm.rs:510-535 | one printed line: header in the width and spacing of the identifier, then the data bytes |
| FrameText.ReadTokens | core/adapter/src/elm327.rs:1912-2000 | the token loop of the spaced form reads header and data as its specification says |
| FrameText.ExtendedHeader | simulator/src/elm.rs:510-535 | a 29-bit header means the same printed whole and printed in bytes |
| FrameText.DecodeLine | core/adapter/src/elm327.rs:1912-2000 | a printed line decodes to the identifier and bytes it was printed from, whether or not the adapter is right about the spacing |
| Assemble.AssembleCanWith | core/adapter/src/elm327.rs:2027-2134 | the loop over four tables computes the per-module streams and lists them sorted by address, or the first error |
| Assemble.TakeLine | core/adapter/src/elm327.rs:2041-2090 | one line in the tables is one step of one module's stream, and no other module's |
| Assemble.TakeFrame | core/adapter/src/elm327.rs:2053-2089 | one decoded frame in the tables is one step of its module's stream |
| Assemble.Finish | core/adapter/src/elm327.rs:2091-2134 | an open stream is an error in the strict form and a cut-off message in the other, and a cut-off stream takes the place of what its module finished |
| Assemble.List | core/adapter/src/elm327.rs:2107-2134 | the message list is sorted by address and holds each table entry once |
| Assemble.ListingUnique | core/adapter/src/elm327.rs:2107-2134 | the sorted list of a table is unique, so equal tables mean equal output |
| Interleaving.Projection | core/adapter/src/elm327.rs:2027-2134 | what assembly holds for a module is what that module's own lines give |
| Interleaving.InterleavingIndependence | core/adapter/src/elm327.rs:2027-2134 | two interleavings of the same per-module lines assemble to the same messages, in the strict form and in the one that keeps partial messages |
| Interleaving.AssembledAlone | core/adapter/src/elm327.rs:2027-2134 | assembling one module's lines alone gives that module's message of the whole and nothing else |
| Interleaving.FormsAgree | core/adapter/src/elm327.rs:2091-2134 | when the strict form succeeds so does the other, and the two agree exactly when no module left a message open |
| WireRoundTrip.PrintReplies | simulator/src/elm.rs:488-502 | the printing loop prints one line a frame, module after module |
| WireRoundTrip.PrintedRepliesAssemble | core/adapter/src/elm327.rs:2007-2134 | printed replies, in the order printed or interleaved in any other, assemble to exactly the payloads, one message per address, none cut off |
| Conversation.Finish | simulator/src/elm.rs:189-198 | the reply text: every line terminated, then a blank line and the prompt |
| Conversation.ParsePrinted | core/adapter/src/response.rs:127-150 | parsing any printed reply gives back exactly its lines, without echo and progress, and whether a search was reported |
| Conversation.FullRoundTrip | core/adapter/src/elm327.rs:2007-2134 | any replies with distinct identifiers and 1 to 4095 bytes, on 11- or 29-bit CAN, spaces, echo, line feeds and search on or off: the printed text classifies as data and reassembles to exactly those replies |
| Conversation.RoundTripExactly | core/adapter/src/elm327.rs:2007-2134 | that round trip holds if and only if something replied, every payload has 1 to 4095 bytes and no printed line reads as the command |
| Partial.LostFrames | core/adapter/src/elm327.rs:2042-2134 | with any run of frames after the first lost, the form that keeps partial messages marks the message cut off with a smaller received length, and holds exactly the bytes before the loss if and only if the run reaches the end or its length is not a multiple of sixteen |
| Partial.LostFramesInReply | core/adapter/src/elm327.rs:2042-2134 | the same inside a whole reply, beside any other modules |
| Partial.LostFirstFrame | core/adapter/src/elm327.rs:2042-2134 | a reply in which one module's first frame was lost is refused whole in both forms, whatever the other modules sent and however interleaved |
| Partial.CounterOverflowsExactly | core/protocols/src/isotp.rs:352-353 | the eight-bit frame count overflows exactly for messages over 1798 bytes |
| Legacy.PrintLegacy | simulator/src/elm.rs:474-508 | the K-line branch prints one framed, checksummed line for each frame, reply after reply |
| Legacy.Checksummed | simulator/src/elm.rs:474-485 | a printed K-line frame is the tester's header, the source, the frame, and last the sum of all of it modulo 256 |
| Legacy.AssembleNonCan | core/adapter/src/elm327.rs:2168-2200 | one message per source, its own frames joined, sorted by address, no source left out |
| Legacy.JoinLegacyFrames | core/adapter/src/elm327.rs:2208-2241 | the loops over sorted frames compute the joined payload of the lemmas below |
| LegacyRoundTrip.DecodeLegacyLine | core/adapter/src/elm327.rs:2168-2200 | a printed K-line line gives back source and frame, header and checksum gone |
| LegacyRoundTrip.OwnPrinted | core/adapter/src/elm327.rs:2168-2200 | a source's printed lines are its own and no other source's |
| LegacyRoundTrip.FaultJoined | core/adapter/src/elm327.rs:2208-2241 | fault frames in any order with any missing: the service byte once and the codes of each, in the order they came |
| LegacyRoundTrip.NumberedFrames | core/adapter/src/elm327.rs:2208-2241 | service 09 frames in any order with any missing give service, item and exactly the data before the first gap |
| LegacyRoundTrip.JoinedIsReturned | core/adapter/src/elm327.rs:2208-2241 | for every kind of reply, joining whichever frames arrived in whatever order gives exactly what `Returned` says, a lone numbered frame and a wrapped number included |
| LegacyRoundTrip.WholeExactly | simulator/src/elm.rs:546-585 | with every frame there a service 09 reply comes back whole, in any order, if and only if it took 2 to 255 frames; a fault list in the order sent, any other reply always |
| LegacyRoundTrip.PrintedLegacyAssembles | core/adapter/src/elm327.rs:2168-2241 | printed K-line replies of distinct sources, each source's lines in any order with any missing, interleaved in any way and with noise between: exactly one message for each source, holding what its lines come to |
| LegacyConversation.LegacyReplyRoundTrip | core/adapter/src/elm327.rs:2168-2241 | the K-line text of any replies classifies as data, and joining it gives one message for each, holding its reply in the form of this bus if and only if a numbered reply has 2 to 255 frames |
| Elm.ElmEmulator.HandleLine | simulator/src/elm.rs:148-187 | one command line in: injected fault or answer, new settings and reply text exactly as specified; what each setting sets is proved in `Settings`, what moves the header in `Headers` |
| Headers.TurnAnswer | simulator/src/elm.rs:270-302 | `ATE`, `ATL`, `ATS` and `ATH` turn exactly what their letter stands for off with 0 and on with 1, or are refused and change nothing |
| Settings.SelectAnswer | simulator/src/elm.rs:230-248 | `ATSP` with a digit selects that protocol or the automatic choice, on the primary bus |
| Settings.Configured | core/adapter/src/elm327.rs:334-392 | from any device state the commands of a connection leave echo and line feeds off, the spaces as configured, headers on and the configured protocol selected; what the device does not take is at rest |
| Settings.Restored | core/adapter/src/elm327.rs:1124-1135 | from any device state a warm start and what is sent again leave echo and line feeds off and spaces and headers as recorded; header and protocol are at rest |
| Settings.NumberLearned | core/adapter/src/elm327.rs:1889-1897 | what the device says of its protocol, with or without the A, is the protocol the adapter learns; while it has none the adapter learns none |
| Settings.ProtocolFound | simulator/src/elm.rs:446-470 | on the automatic choice the first answered request makes the device find the vehicle's own protocol, and the adapter learns that one |
| Settings.WrongExactly | simulator/src/elm.rs:398-420 | a selected protocol reaches nothing if and only if it is of the other family than the vehicle's, or on CAN of the other width |
| Settings.SecondBusAnswer | simulator/src/elm.rs:343-366 | `STP53` and `STPBR` put better firmware on the second bus and set its rate |
| Settings.SecondBusReached | simulator/src/elm.rs:424-456 | there a request is answered if and only if the bus is fitted, the rate right and some module answers |
| Settings.BroadcastHeader | core/types/src/capability.rs:115-130 | a CAN protocol's own header puts the device on 7DF, or on 18DB33F1 |
| Headers.HarmlessKeepsHeader | simulator/src/elm.rs:200-368 | only `ATSH`, `ATCP`, `ATZ` and `ATWS` touch the request header or its priority, whatever else is asked |
| Headers.SkipIsSend | simulator/src/elm.rs:210-250 | sending a header the device is on is accepted and changes nothing, so leaving it out is the same |
| Headers.FaultIsFailure | simulator/src/elm.rs:148-187 | no injected fault is ever read as success |
| Headers.RefusalIsFailure | core/adapter/src/response.rs:152-230 | no refusal is ever read as success |
| Headers.OkIsSuccess | core/adapter/src/response.rs:152-230 | every `OK` is read as success |
| Transports.CarriedOut | simulator/src/elm.rs:148-270 | a command carried out puts the header where it says and switches what it says or leaves both, and for the commands that can the reply is read as success exactly when it did |
| Transports.AstrayExactly | core/adapter/src/elm327.rs:899-922 | the device is elsewhere than the adapter was last told if and only if the last command that moved the header went unconfirmed and selected another one |
| Transports.Transport.Open | core/adapter/src/elm327.rs:217-240 | opening goes as the script says, and a failure uses up one of the faults to come |
| Transports.Transport.Exchange | core/adapter/src/elm327.rs:261-319 | one exchange over a link that can fail anywhere: fault budget used up, the histories of the header and of what is printed extended exactly by a command that moved or switched it, confirmed exactly when its reply was read as success; a device that answers is heard |
| ResponseWindow.EasingShrinks | core/adapter/src/elm327.rs:1483-1505 | one success leaves three quarters of the gap, rounded down |
| ResponseWindow.EasingReaches | core/adapter/src/elm327.rs:1483-1505 | from any window the adapter can have, 21 successes reach the proven one |
| Reactions.WindowLineReads | core/adapter/src/elm327.rs:1507-1514 | the number written for a window is the window in fours, in hexadecimal |
| Adapter.Elm327Adapter.ApplyResponseWindow | core/adapter/src/elm327.rs:1507-1514 | the count written is the window over four, never clamped; accepted exactly when the device took it |
| Adapter.Elm327Adapter.WidenResponseWindow | core/adapter/src/elm327.rs:1464-1481 | the window moves to the next wider one, stays within 200 to 1000 ms, and exactly then is written; moved exactly when the device took it |
| Adapter.Elm327Adapter.WidenToCeiling | core/adapter/src/elm327.rs:1455-1462 | the window moves to the ceiling, once; moved exactly when the device took it |
| Adapter.Elm327Adapter.RecordWindowSuccess | core/adapter/src/elm327.rs:1483-1505 | the first success proves the current window; later ones close a quarter of the gap to the proven one, in numbers, and never change that |
| Adapter.Elm327Adapter.RestoreWorkingConfiguration | core/adapter/src/elm327.rs:1124-1144 | after a warm start exactly the recorded settings and the window are sent again and the header is forgotten; what is printed stays what the adapter may trust |
| Adapter.Elm327Adapter.RecoverAdapter | core/adapter/src/elm327.rs:1089-1117 | one recovery command, the restoration after `ATWS` only, and no `ATPC` for an adapter command; recovered exactly when the device took the command |
| Adapter.Elm327Adapter.FollowUp | core/adapter/src/elm327.rs:1000-1075 | for each class of reply exactly what is required: which lines are written, whether the command goes out again, which reply is returned, what window is then in effect and what is proven, all decided by whether the device took the remedy |
| Adapter.Elm327Adapter.SendWithRecovery | core/adapter/src/elm327.rs:975-1075 | everything written is the command and exactly what its first reply calls for, with the lines of a link rebuilt, reset and configured again between only after a link fault; the reply returned, the window and the proven one are as that reply requires; header cache and printing stay right; an error only if an exchange was not answered |
| Adapter.ForeignWritten | core/adapter/src/elm327.rs:975-1075 | so a vehicle's command goes out at most twice without a link fault and three times with one |
| Adapter.Elm327Adapter.SendHeader | core/adapter/src/elm327.rs:860-872 | accepted means the device is on the header and the adapter was told so; not accepted that a part of it was heard refused; anything else leaves the cache as right as it was, and without a link fault or a warm start as it was |
| Adapter.Elm327Adapter.ApplyFunctionalHeader | core/adapter/src/elm327.rs:874-897 | a protocol's own header is cached, or none and then it was heard refused; one already cached sends nothing |
| Adapter.Elm327Adapter.SetHeader | core/adapter/src/elm327.rs:899-922 | success caches the target's header, and the device is on it if and only if it has not gone astray; it fails only if the header was heard refused or an exchange was not answered, and without a link fault that keeps the cached header, or forgets it after a warm start; a late reply keeps it although the device has moved |
| Adapter.Elm327Adapter.Initialize | core/adapter/src/elm327.rs:334-392 | a successful initialization sent exactly reset, echo off and the configured settings, nothing is cached, and what is printed is as told; it fails only if reset or echo was not taken or an exchange not answered |
| Adapter.Elm327Adapter.ConfigureReplies | core/adapter/src/elm327.rs:355-392 | exactly the configured settings, in order |
| Adapter.Elm327Adapter.Identify | core/adapter/src/elm327.rs:394-480 | the identification commands in order, recognised exactly by the reply to `ATI`, better firmware exactly by the one to `STI`, the voltage only as measured |
| Adapter.Elm327Adapter.SweepProtocols | core/adapter/src/elm327.rs:618-680 | without a link fault the protocols selected are exactly the first of the sweep order, remembered one first, then automatic choice if none answered, and then no probe brought data; an answer it returns is data read in reply to the probe |
| Adapter.SweepExactly | core/adapter/src/elm327.rs:618-650 | every protocol is tried once: the remembered one first, the others in the standing order |
| Adapter.Elm327Adapter.NegotiateProtocol | core/adapter/src/elm327.rs:682-820 | the vehicle is said to answer only if a reply to the probe says so, and silent only if one does; an answer proves a window and, without a link fault, the protocol is the one the device named in answer to `ATDPN`; silence then means that no probe brought data and every protocol was tried, or there is no power |
| Adapter.Elm327Adapter.MeasureLongMessageSupport | core/adapter/src/elm327.rs:1150-1222 | long messages are supported exactly if the long probe, or on confirmed firmware the other form of it, was answered by anything but a question mark; unanswered, nothing changes |
| Adapter.Elm327Adapter.Reconnect | core/adapter/src/elm327.rs:938-970 | the mutually recursive recovery ends: attempts 1, 2 and on to at most the limit, announced in this order and each opening the port; the last starts with reset, echo off and the configuration, and ends ready only if a reply to the probe was a success, degraded only if one was a failure, and without a further link fault with the protocol learned, or with no probe answered and the whole sweep tried |
| Adapter.Elm327Adapter.Attempt | core/adapter/src/elm327.rs:938-970 | one attempt, announced, with the same said of its outcome |
| Adapter.Elm327Adapter.Reopen | core/adapter/src/elm327.rs:938-970 | close, open, configure, negotiate; it fails only if the port did not open, the reset or a header was not taken, or an exchange was not answered |
| Adapter.Elm327Adapter.SetState | core/adapter/src/elm327.rs:204-215 | a state is announced exactly when it differs from the last |
| Adapter.Elm327Adapter.SendRaw | core/adapter/src/elm327.rs:242-319 | one command, one reply: the next one read, or an error and the exchange was not answered; a failing reply is an answer, a link fault an error that uses up one of the faults to come |
| Adapter.Elm327Adapter.FindAnswer | core/adapter/src/elm327.rs:682-780 | an answer it returns was read in reply to the probe; silence is reported only after a probe that failed, and without a link fault means no data to any probe and no power, or that the whole sweep order and automatic choice were tried |
| Adapter.Elm327Adapter.ProbeAtCeiling | core/adapter/src/elm327.rs:740-800 | only once the window can still widen and the device took it, and only data counts, which proves the window |
| Adapter.Elm327Adapter.OpenTransport | core/adapter/src/elm327.rs:217-240 | success exactly when the link is open; one opening, or two over Bluetooth when the first fails |
| Adapter.Elm327Adapter.BringUp | core/adapter/src/elm327.rs:1563-1612 | success sent reset, configuration and identification first, in order, recognised the device, leaves header cache and printing right, and says of the vehicle what the replies to the probe say |
| Adapter.Elm327Adapter.ReadBatteryVoltage | core/adapter/src/elm327.rs:1634-1639 | an unusable adapter is not touched; the measured voltage exactly when the device took the question and the measurement reads as one |
| Runs.Step | core/adapter/src/elm327.rs:1563-1790 | every operation a caller has keeps the session invariant and loses no reply the link does not lose |
| Adapter.Elm327Adapter.Connect | core/adapter/src/elm327.rs:1563-1612 | ends usable exactly on success, ready only if the vehicle answered and degraded only if it was silent, as in a reconnection; failed otherwise, and then the port did not open, the device did not take the reset, the echo or a header, was not recognised, or left an exchange unanswered |
| Adapter.Elm327Adapter.Disconnect | core/adapter/src/elm327.rs:1614-1632 | closes the protocol, resets the device, forgets header and protocol, closes the link |
| Adapter.Elm327Adapter.Request | core/adapter/src/elm327.rs:1641-1661 | the reply returned was read in this call in answer to this request, which was written at most twice without a link fault and three times with one; a request in place put to a device that answers gets what the device says; an error only for a refused header or an unanswered exchange; an unusable adapter is not touched |
| Adapter.Elm327Adapter.RequestPdu | core/adapter/src/elm327.rs:1663-1685 | the same however long the request: without a link fault one of more than seven bytes goes out in the form measured to work, and not at all if none was |
| EndToEnd.AskCan | simulator/src/elm.rs:148-502 | one request put to the emulator, its text parsed and assembled: exactly the modules' answers, one message for each, in address order, on CAN |
| EndToEnd.AskKLine | simulator/src/elm.rs:148-502 | the same on the K-line, in the form of that bus |
| EndToEnd.AskConnected | core/adapter/src/elm327.rs:1641-1661 | a connected adapter whose exchanges were all answered: a request put to modules that answer comes back as exactly their answers, read the way the adapter believes the device prints |
| EndToEnd.AskConnectedKLine | core/adapter/src/elm327.rs:1641-1661 | the same on the K-line |
| EndToEnd.NobodyHeard | simulator/src/elm.rs:370-456 | a request nobody answers, or in the wrong protocol, reads as silence, or as no connection while the protocol is still to be found |
| Runs.EveryRun | core/adapter/src/elm327.rs:860-1135 | after every run of operations, through warm starts and reconnections, a usable adapter's cached header is the device's if and only if the last command that moved the header was not one whose reply was lost and that selected another, and what it takes to be printed is what is printed if and only if it is mistaken about neither headers nor spaces; always if no such reply was lost, or every exchange answered |
| Runs.PrintingExactly | core/adapter/src/elm327.rs:1124-1135 | a usable adapter is right about headers if and only if both or neither hold: the device prints them otherwise than it last told, and a warm start has the last word on them; the same for spaces; while every exchange has been answered it is right about both |
| Runs.LateReplyStalesCache | core/adapter/src/elm327.rs:899-922 | every request of a usable adapter to another header whose `ATSH` is carried out and answered late leaves it usable with the old header cached and the device on the new one |
| Runs.LateReplyExample | core/adapter/src/elm327.rs:899-922 | one such adapter, on 7E0 and asked to go to 7E2 |
| Runs.FailedRestorationExample | core/adapter/src/elm327.rs:1124-1135 | an adapter, usable on a link that loses no reply, that takes the device to print headers although it does not: the warm start was taken and what followed never arrived |
| Runs.WarmStartDropsPriority | simulator/src/elm.rs:252-264 | after a warm start the rest of a 29-bit header lands where it would have before if and only if the device's priority was 18 |
| Runs.WarmStartDropsTarget | core/adapter/src/elm327.rs:1045-1061 | after a warm start the device is on the target's header if and only if the target is the default |
| Transcripts.Parse | simulator/src/replay.rs:47-91 | the line loop computes the transcript or the first error |
| Transcripts.Render | simulator/src/replay.rs:106-124 | the printing loops compute the transcript's text |
| Transcripts.RoundTripExactly | simulator/src/replay.rs:47-124 | a transcript comes back from its own text if and only if its strings are trimmed and unbroken |
| Transcripts.ParsedIsKept | simulator/src/replay.rs:47-91 | every parsed transcript is of that kind |
| Transcripts.NormalForm | simulator/src/replay.rs:47-124 | printing what was parsed is an idempotent normal form |
| Replay.ReplayTransport.constructor | simulator/src/replay.rs:213-235 | the contexts kept are those each exchange was recorded under |
| Replay.ReplayTransport.Find | simulator/src/replay.rs:276-303 | the search by kept contexts finds the first match: same bus and rate and then anywhere for adapter commands, same context for the rest |
| Replay.ReplayTransport.Answer | simulator/src/replay.rs:249-314 | strict order or lookup, and every miss recorded |
| Replay.ReplayTransport.WriteAll | simulator/src/replay.rs:353-383 | bytes written become commands at each break, answered and queued in order; an error ends the write |
| Replay.ReplayTransport.Open | simulator/src/replay.rs:331-340 | opening starts the recording over, keeps misses and context, and does nothing to an open transport |
| Replay.FollowedExactly | simulator/src/replay.rs:183-205 | following commands one by one keeps what is in effect: the header of the last `ATSH` since a reset, the bus and the rate of the last command that set or cleared each |
| Replay.StrictFidelity | simulator/src/replay.rs:249-314 | sending the recorded commands to a fresh strict replay returns exactly the recorded lines and ends exhausted with nothing missed |
| Replay.LookupFidelity | simulator/src/replay.rs:272-314 | in lookup mode the live context equals the recorded one after every command, so nothing is missed, also on a reopened transport if the recording begins with a reset |
| Replay.LookupSafety | simulator/src/replay.rs:272-314 | whatever is sent, a vehicle command is answered only by an exchange that stands in the recording under the very header, bus and rate in effect, and missed exactly when there is none; an adapter command from the same bus and rate where there is one |
| Replay.ReopenedExactly | simulator/src/replay.rs:331-340 | on a reopened transport a recording that begins with a vehicle command is missed at once unless that command stands in it under the header, bus and rate in effect at its end |
| EventStream.RunEventStream | apps/api/src/ws.rs:152-237 | backlog, greeting, then live events and lag reports, as far as the socket takes them |
| EventStream.SendBacklog | apps/api/src/ws.rs:170-182 | the backlog goes out in order and the last number is remembered, or the first failed send ends it |
| EventStream.FollowLive | apps/api/src/ws.rs:203-236 | the select loop sends exactly the newer events of the session and a report for each lag |
| EventStream.LossesReported | apps/api/src/ws.rs:203-236 | every loss is reported with its own count, once and in order |
| EventStream.StreamRises | apps/api/src/ws.rs:152-237 | whatever the channel delivers, sent numbers strictly rise above the requested one |
| EventStream.NothingLost | apps/api/src/ws.rs:158-237 | once an event is sent, every earlier wanted event was sent or a lag report names a number below it from which reading again returns it, at every point of every run |
| EventStream.KeepingUpExactly | apps/api/src/ws.rs:158-186 | a client that keeps up is sent everything if and only if the backlog of at most 5000 reaches as far as the subscription |
| EventStream.DeliveredExactly | core/session/src/store.rs:395-428 | the live part sends every delivered event if and only if they are published in rising order, which publishing outside the lock does not ensure |
| Calendar.CivilNext | apps/report-endpoint/src/lib.rs:128-140 | every day number gives a real date and the next number the next Gregorian date |
| Calendar.CivilEpoch | apps/report-endpoint/src/lib.rs:128-140 | day zero is 1970-01-01 |
| Calendar.CivilExactly | apps/report-endpoint/src/lib.rs:128-140 | a day number gives a date if and only if counting years, months and days gives that number: one to one with the real dates from 1970 |
| Calendar.CivilOrdered | apps/report-endpoint/src/lib.rs:128-140 | later days have later dates |
| Calendar.FoldersDiffer | apps/report-endpoint/src/lib.rs:128-140 | different days have different folder names |
| RateLimiter.Counters.Admit | apps/report-endpoint/src/lib.rs:210-237 | day change, daily limit, forgetting, address limit and counting, exactly as specified |
| RateLimiter.NumbersRise | apps/report-endpoint/src/lib.rs:210-237 | numbers of admitted reports strictly rise, so none is used twice |
| RateLimiter.ReferencesDiffer | apps/report-endpoint/src/lib.rs:239-239 | no two admitted reports share a reference, whatever the clock said |
| RateLimiter.PerDay | apps/report-endpoint/src/lib.rs:210-221 | when days come in order no day takes more than its limit |
| RateLimiter.PerDayAndVisit | apps/report-endpoint/src/lib.rs:210-221 | in any order a day takes no more than its limit for each time the requests come to it |
| RateLimiter.PerDayExactly | apps/report-endpoint/src/lib.rs:207-221 | for a sequence of days, every list of requests on those days keeps every daily limit for a day if and only if the sequence comes to that day once at most |
| RateLimiter.PerAddress | apps/report-endpoint/src/lib.rs:222-235 | when times come in order no window-long interval admits twice a positive limit from one address, and none is admitted at limit zero |
| RateLimiter.PerAddressReached | apps/report-endpoint/src/lib.rs:222-235 | an interval can admit one less than twice the limit, for every limit and window of more than a moment |
| RateLimiter.PerAddressExactly | apps/report-endpoint/src/lib.rs:222-235 | some requests reach that bound if and only if a day has room for one and the window is two at least, or one with a limit of one |
| Vehicle.VirtualVehicle.HandleOnBus | simulator/src/vehicle.rs:669-675 | the list taken out, answered and put back is the specified new state and replies, on the one bus only |
| Vehicle.VirtualVehicle.AnswerFrom | simulator/src/vehicle.rs:677-732 | the loop over addressed modules answers and changes each exactly once, in order |
| Vehicle.ModuleAfter | simulator/src/vehicle.rs:704-718 | one request leaves a module who it was, replaces exactly the record an accepted write names by the bytes written, empties the fault memory exactly by a well-formed clear, and changes nothing else |
| Vehicle.HandleEcu | simulator/src/vehicle.rs:669-675 | a request changes the modules of its own bus one by one and none of the other bus |
| Vehicle.ShapeKept | simulator/src/vehicle.rs:677-732 | over every sequence of requests no module is added, re-addressed, gains or loses an identifier or a fault memory, and no record changes length |
| Vehicle.RecordsAfter | simulator/src/vehicle.rs:704-712 | every record holds the last accepted write to it |
| Vehicle.ReadReturnsLastWritten | simulator/src/vehicle.rs:910-927 | after any requests, reading an identifier returns the last accepted value |
| Vehicle.OnlyAcceptChanges | simulator/src/vehicle.rs:704-712 | a module that refuses, or agrees and ignores, keeps every original value |
| Vehicle.PositiveIsNotProof | simulator/src/vehicle.rs:933-958 | a positively answered write is read back exactly when the module accepts or already held the value |
| Vehicle.FaultsAfter | simulator/src/vehicle.rs:713-718 | a fault memory is emptied exactly by a well-formed clear its module hears, and none is ever gained |
| Vehicle.FaultsReadBack | simulator/src/vehicle.rs:880-896 | after any requests reading a fault memory gives the faults it started with, or none once it heard a well-formed clear |
| Vehicle.ClearedExactly | simulator/src/vehicle.rs:724-731 | the cleared flag is set by exactly the service 04 requests some reporting module hears, and never reverts |
| Masks.EncodeSupportedPids | core/protocols/src/obd2.rs:482-491 | a bit is set exactly for each listed identifier in the 32 above the base |
| Masks.DecodeSupportedPids | core/protocols/src/obd2.rs:463-478 | the identifiers of the set bits, in rising order; too few bytes is an error |
| Masks.MaskRoundTrip | core/protocols/src/obd2.rs:463-491 | reading a mask back gives exactly the listed identifiers in its range |
| Masks.AnswerMonitors | simulator/src/vehicle.rs:788-821 | when service 06 answers a mask, which bits it sets, and which monitors answer with results |
| Masks.RecordsReadBack | simulator/src/vehicle.rs:806-821 | the results of a monitor read back as exactly its tests: identifiers, value and limits, in order |
| Masks.EnumerateSupportedMids | core/diagnostics/src/service.rs:2943-2986 | the walk lists exactly the monitors that answer if and only if every monitor is below E0 |
| Masks.AnswerCurrentData | simulator/src/vehicle.rs:737-757 | when service 01 answers a mask and which bits it sets, and which PIDs answer with a reading |
| Masks.AdvertisedIsAnswered | simulator/src/vehicle.rs:737-757 | every advertised PID answers if and only if every declared one within reach of the masks has a reading |
| Masks.ToyotaAdvertisesTooMuch | simulator/src/vehicle.rs:537-540 | the simulated Toyota advertises 0E and 13 and answers neither |
| Masks.EnumerateSupported | core/diagnostics/src/service.rs:5405-5440 | the walk fails exactly without a first mask, finds declared PIDs only, and all of them if and only if the boundaries below them are declared |
| Redaction.ReplaceIgnoringCase | apps/api/src/support.rs:351-367 | the loop computes leftmost non-overlapping replacement ignoring case, all other text kept in order |
| Redaction.NoneLeft | apps/api/src/support.rs:351-367 | a replacement the needle cannot meet leaves no occurrence in any text |
| Redaction.SharesNothing | apps/api/src/support.rs:351-367 | a replacement without a letter of the needle is such a one |
| Redaction.Bracketed | apps/api/src/support.rs:308-309 | so is one whose first and last letters the needle lacks and that does not hold it whole, as `<home>` for a path |
| Redaction.DeletedExactly | apps/api/src/support.rs:351-367 | replacing by nothing leaves no occurrence in any text if and only if the needle repeats one letter |
| BusyMarker.AppState.WithServiceNamed | apps/api/src/state.rs:300-327 | afterwards marker and lock are free, the lock is poisoned exactly when the operation panicked, and the result says which; alone it takes the very turns its task takes among others |
| BusyMarker.AppState.PeekService | apps/api/src/state.rs:365-383 | waits for the lock, reads the service, leaves it and the marker alone, and poisons the lock exactly when the reading panicked; it takes its task's turns |
| BusyMarker.AppState.PeekServiceNow | apps/api/src/state.rs:344-362 | while another has the lock it answers busy and touches nothing; otherwise it reads the service and gives the lock back; it takes its task's turns |
| BusyMarker.AppState.ConnectService | apps/api/src/state.rs:385-457 | alone, a usable service is kept and the caller refused; a failed connect changes nothing; a successful one stores its service; it takes its task's turns |
| BusyMarker.AppState.RemoveService | apps/api/src/state.rs:461-473 | afterwards there is no service, unless the lock is poisoned, which leaves everything as it was |
| BusyMarker.EveryRun | apps/api/src/state.rs:300-472 | in every interleaving one task at most holds the lock and the marker says what it is doing |
| BusyMarker.MarkerExactly | apps/api/src/state.rs:300-327 | the marker is set exactly while a named operation is inside the lock, and names that one |
| BusyMarker.ClearedBeforeRelease | apps/api/src/state.rs:183-192 | the marker is cleared before the lock is given back, after a panic as well |
| BusyMarker.PeekNowNeverWaits | apps/api/src/state.rs:344-362 | `peek_service_now` can always take its next step, and while another has the lock that step is its answer |
| BusyMarker.NoDeadlock | apps/api/src/state.rs:300-472 | some unfinished task can always go on |
| BusyMarker.PoisonedForGood | apps/api/src/state.rs:306-316 | after a panic nobody gets the lock again, the marker stays clear and the service as it was |
| BusyMarker.ConnectsOverlap | apps/api/src/state.rs:385-457 | two connects that both looked before either stored both succeed, and the second replaces a usable service |
| BusyMarker.ReplacesExactly | apps/api/src/state.rs:385-457 | in every run a connect that stores replaces a usable service if and only if since it looked some other task left the service usable and nobody undid that |
| BusyMarker.AloneNeverReplaces | apps/api/src/state.rs:385-457 | so a connect during which no other task makes the service usable never replaces a usable one |

## Left out

- `Conversation.FullRoundTrip`: payloads of more than 4095 bytes are outside it because their printed first frame does not decode; `Conversation.RoundTripExactly` proves that this is exactly so.
- `Interleaving.InterleavingIndependence`: in the strict form both interleavings must consist of decodable lines; a line that does not decode belongs to no module and its error ends the strict form wherever it stands.
- `EndToEnd.AskConnected`: asks that every exchange so far was answered in time and the request's header is in place; when the first fails `Runs.PrintingExactly` says when the adapter is still right.
- `Runs.EveryRun`: covers connect, disconnect, requests, voltage reading and protocol preference; 29-bit headers are of priority 18, and `raw_command` and `select_bus` are not among the operations.
- `Adapter.Elm327Adapter.Reconnect`: an attempt of the same number as the one around it is not announced again, because `SetState` says nothing when the state stays the same; the contract therefore counts the state at the start as announced.
- `Adapter.Elm327Adapter.RequestPdu`: returns the reply before assembly; assembling its lines is `Assemble.AssembleCanWith`, and both together are `EndToEnd.AskCan`. A retry after a warm start goes out on the default header, so no claim is made that every retry reaches its target; `Runs.WarmStartDropsTarget` says exactly when it does.
- `Adapter.Elm327Adapter.NegotiateProtocol`: after a link fault in the middle of it the protocol is what the rebuilt session learned, of which nothing is said.
- `Adapter.Elm327Adapter.SweepProtocols`: with a link fault no list of selections is given, because rebuilding the link inside a header change selects protocols of its own.
- `LegacyRoundTrip.PrintedLegacyAssembles`: of a reply of more than 255 numbered frames the 256th, the first whose number wraps, is taken to have arrived.
- `EventStream.NothingLost`: assumes that numbers rise in the order events are published and that the backlog reaches the subscription; `EventStream.DeliveredExactly` and `EventStream.KeepingUpExactly` say exactly what fails otherwise.
- `RateLimiter.PerAddress`: assumes requests reach the lock in the order of their times, although the time is read before the lock is taken.
- `RateLimiter.NumbersRise`: the 64-bit sequence counter does not wrap in the model.
- `Calendar.CivilExactly`: day numbers are unbounded naturals; the code's 64-bit arithmetic agrees on every number its clock can give.
- `Vehicle.ShapeKept`: time is the tick clock; the wall clock changes no module.
- `Masks.EnumerateSupportedMids`: the masks of one walk are read in one go; the per-session cache and link errors in the middle of a walk are not modelled.
- `BusyMarker.NoDeadlock`: says that a step is always possible, not that the scheduler takes it.
- Serial, Bluetooth, HTTP, WebSocket, database and file-system calls: a link is a script of outcomes, a subscription a list of wake-ups, a socket a number of messages it takes.
- Readings, scenario formulas and voltage parsing: the answers of the read-only legislated services and the measured voltage are parameters.
- Error texts, caveats, health counters, throughput estimates and latency statistics: error values are reduced to their codes.
- `raw_command`, `select_bus` and listening: an escape hatch and a cache the code does not keep coherent; of the second bus only the device's side is modelled.
- `assemble_headerless`, `probe_pdu`, `request_pdu_keeping_partial`: entry points that share the modelled paths.
- Upper-casing outside ASCII: `normalize` in core/adapter/src/response.rs is modelled for ASCII letters.
- Receivers inside `assemble_can_with` are values in a table; the receiver object itself is `IsoTp.IsoTpReceiver`.
- Frames of a K-line reply with an empty payload: the emulator never prints one.
- Report bodies, labels, client addresses behind a proxy and writing the file: checks before and after the counters.
- Host, origin and URL allow-lists, credential stores, prompts, the user interface: access checks and wiring.
