# Verified model of the audio bridge's core

The repository streams telephone audio over WebSockets: a FreeSWITCH module with its own WebSocket client engine,
and a Go bridge that records calls, runs the speech cascade and plays replies back. This project models the parts
where the logic is: the client engine (frame parser, UTF-8 automaton, encoder, upgrade, connection and close
protocol), the hash and the base64 of the opening handshake, the playback buffers, streamed resampling, turn taking,
the stereo recording and the retention sweep. `dafny verify dfyconfig.toml` checks all of it.

## How it is put together

Code that works on values is modelled by functions. Code that changes objects step by step is modelled by classes and
loops with the same fields and the same order of checks; each method is proved equal to a function of the old state,
and the theorems are about those functions, over every input, every way of cutting a stream and every run.

* **Receiver** (`Utf8`, `Framing`, `Receiver`, `Chunking`, `Reassembly`, `Handshake`). `Framing` and the encoding
  relation in `Utf8` are independent readings of RFC 6455, section 5.2, and RFC 3629, section 3. The receive loop of
  `WebSocketReceiver` is the function `Drain`. Main results: `Chunking.ChunkingIndependence`,
  `Handshake.HandshakeChunking`, `Reassembly.Reassembled`, `Utf8.AcceptsIffValid`.
* **Encoder** (`Sender`): `Sender.RoundTrip` and `Framing.WrittenIsShortest`.
* **Connection** (`Connection`, `Protocol`, `Delivery`, `Shutdown`, `Answer`, `Engine`, `Callbacks`, `Context`).
  `Connection` has one function per callback of `WebSocketContext`. `Protocol` turns them into a machine whose steps are
  those callbacks, pushes and stop requests of other threads, with a flush taken apart into one step per entry, so that
  other threads run in between. Main results, over every run of that machine: `CloseIsLast`, `StateOnlyMovesForward`,
  `QueueConserved`, `QueuedBeforeOpen`, `Delivery.DeliveredIff`, `Shutdown.CloseNotForgotten`,
  `Answer.PeerCloseAnsweredIff`. `Engine` joins the ends: what the receive loop reports is always a step the connection
  can take, and the octets it writes are what its peer reads. `Context` has the object itself, with its receiver, input
  and output buffers: it carries its history as a run of the machine, so every theorem about runs holds of the object,
  and its output is at all times the octets of the frames sent (`PeerReadsOutput`, `QueueOfObject`). What each callback
  means for those who know nothing of its code is `Callbacks.Means`, one clause per callback.
* **Handshake digest** (`Sha1`, `Sha1Stream`, `Sha1Sample`, `Base64`, `Accept`): the unrolled compression over a
  circular schedule with rotating registers is the block function of FIPS 180-4, section 6.1.2, and any series of
  updates is the hash of the whole message, with the example of the standard carried out round by round; every character of an encoding is
  that of its six bits, and base64 in all its line-broken forms decodes back.
* **Audio** (`Playback`, `Resample`, `Tts`, `Wav`, `Sweep`, `Cascade`): two bounded buffers that are one queue, streamed
  resampling against whole-signal resampling, the interleaved recording, the shortest prefix of recordings to delete,
  and at most one live turn.

Conventions. Octets are integers below 256 (`Bytes.byte`), so shifts and masks of the source appear as `/` and `%`;
SHA-1 uses bit vectors, whose arithmetic wraps as the source's does. `Option` and `Result` values stand for the
source's error returns and exceptions. Histories that the source does not store (`Conn.wire`, `Conn.accepted`, ticket
numbers, `SHA1.message`, `Call.turns`, the `run` of an object) are carried along to state what a run did.

## Where the code and its comments part

Each of these is proved, with the exact condition under which the code does what is said of it.

* The recorder's comment has a short read of the agent track leave silence (`bridge/recorder.go:278`). The buffer keeps
  the previous chunk instead. `Wav.PaddedIff` and `Wav.PaddedForAllIff` say for which tracks the result is right.
* The speech stream is said to flush its remainder at the end (`providers/openai_tts.go:97`). A read that reports the
  end without data loses the octets beyond the last whole block: `Tts.FlushedIff`.
* The peer's close frame is not answered when the send queue is full as it arrives: `Answer.PeerCloseAnsweredIff`, with
  `Answer.CloseUnanswered` for a run from the start in which that happens.
* `flushSendQueue` throws application messages away unless the state is CONNECTED
  (`module/libs/libwsc/src/WebSocketContext.cpp:765-780`), before the upgrade and while closing, and a failing transport
  clears the queue before the upgrade (lines 512-515, 534-537 and 557-560). `Delivery.DeliveredIff` counts the messages
  lost in every run and says exactly when there are none; `Delivery.AcceptedAndLost` and `Delivery.AcceptedAndDropped`
  are runs that lose one, before the upgrade and on a connection that was up.
* The RIFF size of a recording wraps at 2^32 before its data length does: for the last nine even caller lengths below
  2^31 the header announces a wrong size (`bridge/recorder.go:303`), `Wav.HeaderAnnouncesIff`.
* The octets a second in that header are multiplied out in 32 bits and wrap from 2^27 Hz on (`bridge/recorder.go:298`):
  `Wav.HeaderFormat`.
* An audio chunk larger than the play buffer empties it and is itself lost, `Playback.DropOldest`; and audio is lost
  between the two playback buffers unless the stash has room for a frame and 4095 octets: `Playback.NeverLosesIff`.
* Two branches can never run: the close callback for an error while DISCONNECTING (`WebSocketContext.cpp:517-519`; that
  case has returned at line 476), which `Context.WebSocketContext.HandleFailure` refutes where it stands, and the cut of
  a close reason to 123 octets in the receiver (`WebSocketReceiver.cpp:583`), whose length
  `Receiver.WebSocketReceiver.HandleCloseFrame` bounds there.

## Model

| member | source | states |
|---|---|---|
| Utf8.AcceptsIffValid | module/libs/libwsc/src/Utf8Validator.cpp:50-117 | the automaton, run to the end, accepts exactly the encodings of sequences of Unicode scalar values (RFC 3629, section 3) |
| Utf8.AcceptsFirst | module/libs/libwsc/src/Utf8Validator.cpp:53-98 | acceptance read off the first character: length, continuation octets, the E0/ED/F0/F4 limits, and acceptance of the rest |
| Utf8.FeedOkIffViable | module/libs/libwsc/src/Utf8Validator.cpp:50-102 | a chunk is refused exactly at the first octet after which no continuation can be valid UTF-8 |
| Utf8.FeedConcat | module/libs/libwsc/src/Utf8Validator.cpp:50-102 | the state kept between calls makes two chunks the same as their concatenation |
| Utf8.FeedChunksIsFeed | module/libs/libwsc/src/Utf8Validator.cpp:50-102 | the same for any number of chunks |
| Utf8.FeedReachable | module/libs/libwsc/src/Utf8Validator.cpp:50-102 | what the counter and the four flags can be after acceptable octets; with nothing pending all flags are clear |
| Utf8.Utf8Validator.ValidateChunk | module/libs/libwsc/src/Utf8Validator.cpp:50-102 | verdict and new fields are those of the automaton run from the old fields |
| Utf8.Utf8Validator.ValidateFinal | module/libs/libwsc/src/Utf8Validator.cpp:115-117 | true exactly when no continuation octet is pending |
| Utf8.Utf8Validator.Reset | module/libs/libwsc/src/Utf8Validator.cpp:127-130 | back to the start state |
| Utf8.ValidateText | module/libs/libwsc/src/Utf8Validator.cpp:50-117 | a fresh validator fed any chunks and asked for the end says yes exactly to valid UTF-8 |
| Utf8.IsValidUtf8 | module/libs/libwsc/src/WebSocketReceiver.cpp:612-673 | the look-ahead checker says yes exactly to valid UTF-8, hence agrees with the streaming validator on every input |
| Framing.ReadFramesOfWritten | module/libs/libwsc/src/WebSocketContext.cpp:1012-1085 | the section 5.2 reader of RFC 6455 recovers any list of well-formed frames from their octets, nothing left over |
| Framing.WrittenIsShortest | module/libs/libwsc/src/WebSocketContext.cpp:1023-1046 | no octets that read as the same frame are fewer: lengths are in their shortest form |
| Framing.MaskedTwice | module/libs/libwsc/src/WebSocketContext.cpp:1079-1082 | masking with octet i modulo 4 of the key undoes itself (RFC 6455, section 5.3) |
| Bytes.XorIsXor | module/libs/libwsc/src/WebSocketContext.cpp:1081 | bit i of the exclusive or of two octets is one exactly when bits i of the two differ |
| Framing.MaskedUnderKey | module/libs/libwsc/src/WebSocketContext.cpp:1079-1082 | each octet of a masked payload differs from the payload in exactly the bits of its octet of the key |
| Sender.Send | module/libs/libwsc/src/WebSocketContext.cpp:993-1086 | appends the one final masked frame, drawn octet by octet: FIN, RSV1 when compressed, opcode, mask bit and length in one, three or nine octets, key, payload under the key; nothing for a control payload over 125 |
| Sender.MaskPayload | module/libs/libwsc/src/WebSocketContext.cpp:1075-1082 | the octets returned differ from the payload in exactly the bits of octet i modulo 4 of the key (RFC 6455, section 5.3) |
| Sender.WrittenOnWire | module/libs/libwsc/src/WebSocketContext.cpp:993-1086 | the frame layout of Send, for every call that is not dropped |
| Sender.SendAll | module/libs/libwsc/src/WebSocketContext.cpp:993-1086 | a run of calls appends what each writes, in order |
| Sender.WrittenAllIsFrames | module/libs/libwsc/src/WebSocketContext.cpp:993-1086 | the octets of a run of calls are the octets of one frame per call not dropped |
| Sender.RoundTrip | module/libs/libwsc/src/WebSocketContext.cpp:993-1086 | whatever is sent reads back, nothing left over, as one frame per call not dropped, and the frames carry the messages in order, given an inverse of the compressor |
| Sender.NothingDropped | module/libs/libwsc/src/WebSocketContext.cpp:996-999 | with control payloads of at most 125 octets every message is among those read back |
| Receiver.HandleClose | module/libs/libwsc/src/WebSocketReceiver.cpp:551-599 | whatever the payload, the close reported has a code that may legally be sent and a reason of at most 123 octets of UTF-8 |
| Receiver.CloseIsReported | module/libs/libwsc/src/WebSocketReceiver.cpp:551-599 | own code, the first two octets, and own reason exactly when the code is one of those a close frame may carry and the reason is valid UTF-8; 1000 for an empty payload; 1002 without reason otherwise |
| Receiver.WebSocketReceiver.ReadHead | module/libs/libwsc/src/WebSocketReceiver.cpp:313-374 | the checks of a pass in their order give the parse of the buffer: wait, which error, or a whole frame |
| Receiver.WebSocketReceiver.HandleContinuationFrame | module/libs/libwsc/src/WebSocketReceiver.cpp:403-480 | new fields and the event, if any, are the function HandleContinuation of the old fields |
| Receiver.WebSocketReceiver.HandleDataFrame | module/libs/libwsc/src/WebSocketReceiver.cpp:482-549 | new fields and the event, if any, are the function HandleData of the old fields |
| Receiver.WebSocketReceiver.HandleCloseFrame | module/libs/libwsc/src/WebSocketReceiver.cpp:551-599 | exactly one close event, the one Receiver.CloseIsReported describes |
| Receiver.WebSocketReceiver.HandlePingFrame | module/libs/libwsc/src/WebSocketReceiver.cpp:601-610 | a ping with the payload, or a protocol error over 125 octets |
| Receiver.WebSocketReceiver.HandleFrame | module/libs/libwsc/src/WebSocketReceiver.cpp:376-397 | each opcode goes to its handler; an unknown one is an error and is not drained |
| Receiver.WebSocketReceiver.OnData | module/libs/libwsc/src/WebSocketReceiver.cpp:308-401 | the loop leaves receiver, buffer and events as the recursive function Drain of the old ones |
| Receiver.Pass | module/libs/libwsc/src/WebSocketReceiver.cpp:308-400 | every pass that does something ends the receiver or drains at least two octets |
| Receiver.WebSocketReceiver.DecompressMessage | module/libs/libwsc/src/WebSocketReceiver.cpp:223-306 | the inflater sees the message in its context, and the context is dropped after it when no takeover was negotiated |
| Chunking.ParseStable | module/libs/libwsc/src/WebSocketReceiver.cpp:313-374 | a verdict on the head of the buffer does not change when more octets arrive |
| Chunking.PassStable | module/libs/libwsc/src/WebSocketReceiver.cpp:308-400 | a pass over more octets is the pass, then the octets |
| Chunking.DrainTwice | module/libs/libwsc/src/WebSocketReceiver.cpp:308-401 | draining, receiving more and draining is receiving all and draining |
| Chunking.ChunkingIndependence | module/libs/libwsc/src/WebSocketReceiver.cpp:308-401 | any series of reads gives the events, receiver state, unread octets and stop flag of one read of the whole stream |
| Chunking.SameStreamSameResult | module/libs/libwsc/src/WebSocketReceiver.cpp:308-401 | two ways of cutting the same stream cannot be told apart |
| Chunking.ReceiveAll | module/libs/libwsc/src/WebSocketReceiver.cpp:308-401 | the receiver object under any series of reads behaves as under one |
| Reassembly.ParseReadsFrames | module/libs/libwsc/src/WebSocketReceiver.cpp:320-374 | the loop has a frame to dispatch exactly when the section 5.2 reader finds one a client accepts, and it is the same frame |
| Reassembly.DrainFrames | module/libs/libwsc/src/WebSocketReceiver.cpp:308-401 | draining the octets of frames is running the frames, and goes on with what follows |
| Reassembly.StepData | module/libs/libwsc/src/WebSocketReceiver.cpp:403-549 | the reassembly invariant: `fragmented_message` is the payload so far and the validator has been fed it; the last fragment gives the one outcome of the message |
| Reassembly.RunMessage | module/libs/libwsc/src/WebSocketReceiver.cpp:403-549 | a fragmented message with control frames between its fragments gives exactly its specified events |
| Reassembly.RunMessages | module/libs/libwsc/src/WebSocketReceiver.cpp:403-549 | so does any list of messages up to the first that fails, and the receiver is idle again after it |
| Reassembly.SoundMessageEvents | module/libs/libwsc/src/WebSocketReceiver.cpp:403-549 | the events of a message that does not fail are its pings in order and then the whole payload, once |
| Reassembly.FailedMessageEvents | module/libs/libwsc/src/WebSocketReceiver.cpp:403-549 | the events of a message that fails are pings and then one protocol error |
| Reassembly.TextDeliveredIffValid | module/libs/libwsc/src/WebSocketReceiver.cpp:414-422 | an uncompressed text is handed over exactly when its whole payload is valid UTF-8 |
| Reassembly.Reassembled | module/libs/libwsc/src/WebSocketReceiver.cpp:308-549 | for all messages, fragmentations, control frames in between, following octets and cuts of the stream: exactly the events of the messages (RFC 6455, section 5.4) |
| Reassembly.ReassembledAndClosed | module/libs/libwsc/src/WebSocketReceiver.cpp:308-599 | the same up to the end of the conversation: a close frame behind the messages is reported last, with its own code and reason if it may carry them, and nothing after it is heard |
| Reassembly.CloseEndsStream | module/libs/libwsc/src/WebSocketReceiver.cpp:384-386 | from any receiver state a close frame is reported as it should be and stops the loop, the following octets unread |
| Reassembly.CloseComesThrough | module/libs/libwsc/src/WebSocketReceiver.cpp:566-598 | a code a close frame may carry and a UTF-8 reason of at most 123 octets are reported as they were put in |
| Reassembly.MalformedIff | module/libs/libwsc/src/WebSocketReceiver.cpp:326-360 | a head is refused exactly for reserved bits not negotiated, a fragmented or long control frame, or a mask, and at once: before the length or the payload has arrived if the first two octets say so |
| Reassembly.MalformedEndsStream | module/libs/libwsc/src/WebSocketReceiver.cpp:326-360 | such a head ends the stream with one 1002 error, whatever follows |
| Reassembly.OutOfPlaceEndsStream | module/libs/libwsc/src/WebSocketReceiver.cpp:376-549 | a continuation of nothing, a message inside another and an opcode without meaning end the stream with one 1002 error |
| Handshake.HeaderStable | module/libs/libwsc/src/WebSocketContext.cpp:626-635 | the end of the response headers, once found, stays where it is |
| Handshake.ReadTwice | module/libs/libwsc/src/WebSocketContext.cpp:617-756 | two read callbacks are one with all the data, across the switch from headers to frames |
| Handshake.HandshakeChunking | module/libs/libwsc/src/WebSocketContext.cpp:617-756 | from the first header octet on, the cuts of the network are invisible in events, receiver and stop flag; in everything unless the upgrade is refused |
| Handshake.HeaderBytesIff | module/libs/libwsc/src/WebSocketContext.cpp:621-635 | the headers end behind the first CR LF CR LF, and are incomplete exactly if there is none |
| Connection.ClosePayload | module/libs/libwsc/src/WebSocketContext.cpp:867-875 | never too long to be sent |
| Connection.ClosePayloadSays | module/libs/libwsc/src/WebSocketContext.cpp:867-875 | the first two octets are the code in network byte order, modulo 2^16, the rest is the reason, cut to its first 123 octets |
| Callbacks.EffectIsRun | module/libs/libwsc/src/WebSocketContext.cpp:310-1227 | every callback, run without interruption, is a run of the machine from between callbacks to between callbacks, so all theorems about runs hold of callbacks |
| Callbacks.GoesOn | module/libs/libwsc/src/WebSocketContext.cpp:310-1227 | a history that ends between callbacks goes on with a callback: it stays a run, takes nothing back, and the callback did what `Means` says it is for, in the codes, reasons and frames of the wire |
| Callbacks.FlushMeans | module/libs/libwsc/src/WebSocketContext.cpp:758-796 | a flush between callbacks empties the queue; while connected all its messages go out in order, while disconnecting the CLOSE in it goes out wherever it stands, otherwise nothing |
| Callbacks.RxCloseMeans | module/libs/libwsc/src/WebSocketContext.cpp:1186-1200 | the whole callback: answered exactly if the queue had room, by a last frame with the peer's own code and reason, nothing else written, the application told once |
| Callbacks.SendDataMeans | module/libs/libwsc/src/WebSocketContext.cpp:895-978 | `sendData` takes a message exactly if the queue has room (other threads, and everyone while connecting) or the connection is up (event thread); what it leaves behind either way, the flush request included |
| Context.WebSocketContext.constructor | module/libs/libwsc/src/WebSocketContext.cpp:17-20 | a fresh object is the start of the machine and has written nothing |
| Context.WebSocketContext.Send | module/libs/libwsc/src/WebSocketContext.cpp:993-1086 | the output stays exactly the octets of the frames sent |
| Context.WebSocketContext.Close | module/libs/libwsc/src/WebSocketContext.cpp:844-889 | closing afterwards and nothing written; a connection that was up has one CLOSE with the code and the first 123 octets of the reason queued last and a flush requested, or a loop exit when the queue is full |
| Context.WebSocketContext.FlushSendQueue | module/libs/libwsc/src/WebSocketContext.cpp:758-796 | the loop over the swapped queue is the recursive flush, and the output gets the octets of the frames |
| Context.WebSocketContext.SendData | module/libs/libwsc/src/WebSocketContext.cpp:895-956 | taken exactly when there is room (other threads, and everyone while connecting) or the connection is up (event thread); refused without a trace; queued last with a flush coming on a connection that is not being set up; or on the wire at once |
| Context.WebSocketContext.SendCallback | module/libs/libwsc/src/WebSocketContext.cpp:381-389 | nothing happens without an event loop; else the queue is empty, what could go out went out in order, the pending flag is clear, and a queued CLOSE is on the wire |
| Context.WebSocketContext.WakeupCallback | module/libs/libwsc/src/WebSocketContext.cpp:352-363 | after a stop request the connection is closing with its CLOSE sent, queued with a flush coming, or its loop exiting, and nothing else written; on a connection that was up with room in the queue that CLOSE says 1000, "Normal closure"; without a stop request the queue has been flushed |
| Context.WebSocketContext.TimeoutCallback | module/libs/libwsc/src/WebSocketContext.cpp:330-345 | the loop exits unless the connection was closing; wire, queue and state stay |
| Context.WebSocketContext.SendPing | module/libs/libwsc/src/WebSocketContext.cpp:1088-1092 | one ping on the wire exactly when connected |
| Context.WebSocketContext.CloseTimerCb | module/libs/libwsc/src/WebSocketContext.cpp:365-379 | nothing if the peer has closed; else disconnected, the loop exiting, the application told exactly once, and the wire ends with the CLOSE |
| Context.WebSocketContext.HandleEvent | module/libs/libwsc/src/WebSocketContext.cpp:464-577 | nothing is written; any failure exits the loop; which state and which queue an error, a timeout and the end of the stream leave; the application hears of the close when the stream ends after a close frame of either side |
| Context.WebSocketContext.RxPing | module/libs/libwsc/src/WebSocketContext.cpp:1176-1184 | a ping of at most 125 octets is answered by a pong with the same payload, and nothing else changes |
| Context.WebSocketContext.RxClose | module/libs/libwsc/src/WebSocketContext.cpp:1186-1200 | answered exactly if the queue had room, by a last frame that says the peer's own code and reason; disconnecting, and the application told once |
| Context.WebSocketContext.RxProtocolError | module/libs/libwsc/src/WebSocketContext.cpp:1202-1227 | disconnecting, nothing written yet, and the loop exiting, or a CLOSE queued last that says the code and text of the error, with a flush coming |
| Context.WebSocketContext.UpgradeAccepted | module/libs/libwsc/src/WebSocketContext.cpp:719-727 | connected, the queue empty, and the wire consists of the messages queued before the upgrade, in order |
| Context.WebSocketContext.UpgradeRefused | module/libs/libwsc/src/WebSocketContext.cpp:642-651 | the loop exits and nothing was ever written |
| Context.WebSocketContext.Deliver | module/libs/libwsc/src/WebSocketReceiver.cpp:376-397 | one event of the receiver answered as RFC 6455, sections 5.5.1 to 5.5.3, want it, a close with its own code and reason, an error with its code and text; the connection terminates exactly on a terminal one |
| Context.WebSocketContext.Receive | module/libs/libwsc/src/WebSocketReceiver.cpp:308-401 | the receive loop with the connection as its owner: receiver and buffer are those of the loop, the wire gains one pong per ping and the answer to a close if the queue had room, and the loop has stopped exactly if the connection is terminating |
| Context.WebSocketContext.HandleRead | module/libs/libwsc/src/WebSocketContext.cpp:617-756 | headers split off, leftover octets kept and handed on; at the upgrade the queued messages go out before any answer; a refusal discards what has arrived |
| Context.WebSocketContext.ReadAll | module/libs/libwsc/src/WebSocketContext.cpp:617-756 | however the network cuts the stream, from the first header octet on, the object reports the same events and its receiver is in the same state |
| Context.PeerReadsOutput | module/libs/libwsc/src/WebSocketContext.cpp:758-1086 | whatever has been done with the object, its output octets read back as exactly the frames sent, masked and final, carrying their messages, compressed or not; at most one CLOSE, legal, last, and there exactly when `close_sent` says so |
| Context.QueueOfObject | module/libs/libwsc/src/WebSocketContext.cpp:464-956 | whatever has been done with the object: queue bounded, at most one CLOSE in it, the close under way while closing, and as many accepted messages missing as the steps of its history lost, none if and only if those lost none |
| Protocol.StepKeepsInv | module/libs/libwsc/src/WebSocketContext.cpp:310-1250 | every callback, push and stop request keeps the invariant: one CLOSE at most and last, flags agree with the wire, tickets ascend, queue bounded |
| Protocol.RunKeepsInv | module/libs/libwsc/src/WebSocketContext.cpp:310-1250 | so does every run |
| Protocol.CloseIsLast | module/libs/libwsc/src/WebSocketContext.cpp:758-796 | over every interleaving at most one CLOSE is written, nothing is written after it, and `close_sent` holds exactly when it is on the wire (RFC 6455, section 5.5.1) |
| Protocol.ClosesAreLegal | module/libs/libwsc/src/WebSocketContext.cpp:844-889 | every CLOSE on the wire carries a code an endpoint may send and a reason in UTF-8, also where the reason is cut (RFC 6455, sections 5.5.1 and 7.4) |
| Protocol.OnlyOneClose | module/libs/libwsc/src/WebSocketContext.cpp:758-889 | wire, batch and queue together never hold more than one CLOSE, and none waits before the connection is closing |
| Protocol.StateOnlyMovesForward | module/libs/libwsc/src/WebSocketContext.cpp:310-379 | from the upgrade on only CONNECTED, DISCONNECTING, DISCONNECTED, the last only after a CLOSE; the close callback runs at most once |
| Protocol.QueueConserved | module/libs/libwsc/src/WebSocketContext.cpp:895-956 | at most 1024 entries; frames written off the queue are accepted messages, unchanged, without duplicates, in order of acceptance |
| Protocol.QueuedBeforeOpen | module/libs/libwsc/src/WebSocketContext.cpp:719-736 | when the open callback runs, the messages queued at the upgrade are the first frames on the wire, in order |
| Protocol.FlushInSteps | module/libs/libwsc/src/WebSocketContext.cpp:758-796 | a flush nobody interrupts is the flush of the callback, so the machine contains it |
| Protocol.WholeFlush | module/libs/libwsc/src/WebSocketContext.cpp:758-796 | the same including the swap of the queue and what follows the flush |
| Protocol.RunIsForward | module/libs/libwsc/src/WebSocketContext.cpp:310-1250 | no step takes back what was written or accepted, and none writes once a CLOSE is out |
| Answer.PeerCloseAnsweredIff | module/libs/libwsc/src/WebSocketContext.cpp:1186-1200 | whatever other threads do between the arrival of the peer's close and the end of its callback: answered exactly when the queue was not full on arrival, by a last frame that says the peer's own code and reason, and nothing else |
| Answer.PeerReadsAnswer | module/libs/libwsc/src/WebSocketContext.cpp:1186-1200 | whoever reads that answer as close frames are read here hears the code and reason that were sent first |
| Answer.StaysInFlight | module/libs/libwsc/src/WebSocketContext.cpp:758-796 | the invariant of that flush: the answer is in the queue, the batch or on the wire, once, and nothing else goes out |
| Answer.CloseUnanswered | module/libs/libwsc/src/WebSocketContext.cpp:877-885 | a run in which other threads fill the queue of an open connection and the peer's close, with any code and reason the receiver reports, is taken note of and never answered |
| Delivery.DeliveredIff | module/libs/libwsc/src/WebSocketContext.cpp:464-956 | after every run, closing or not: as many accepted messages are missing as its steps lost; all are on the wire or waiting, once and in order, if and only if no flush came to a message while the connection was not up and no failing transport gave up a queue with messages before the upgrade |
| Delivery.StepCounts | module/libs/libwsc/src/WebSocketContext.cpp:464-956 | every step, closing or not, changes the number of missing messages by what it loses: one where a flush drops a message, the queue where a transport clears it |
| Delivery.EarlyFlushDrops | module/libs/libwsc/src/WebSocketContext.cpp:765-780 | a flush before the upgrade writes nothing and empties the queue |
| Delivery.AcceptedAndLost | module/libs/libwsc/src/WebSocketContext.cpp:931-955 | a run in which a message is accepted, dropped by a flush before the upgrade, and missing when the connection is open |
| Delivery.AcceptedAndDropped | module/libs/libwsc/src/WebSocketContext.cpp:765-780 | a run in which a message is accepted on a connection that is up and dropped because the peer closes before the flush comes to it |
| Shutdown.CloseNotForgotten | module/libs/libwsc/src/WebSocketContext.cpp:310-379 | after every run, also after a stop request: a closing connection has its CLOSE on the wire, or in a batch or in a queue with a flush coming that will write it, or its loop has been told to exit; a sent CLOSE has its timer; after the timer the application heard of the close exactly once |
| Shutdown.StepBound | module/libs/libwsc/src/WebSocketContext.cpp:310-1250 | every step keeps that |
| Shutdown.FlushSendsClose | module/libs/libwsc/src/WebSocketContext.cpp:782-793 | a flush of a closing connection writes the CLOSE in its batch, wherever it stands |
| Engine.TerminalEventsTerminate | module/libs/libwsc/src/WebSocketContext.cpp:1186-1250 | after a close or protocol error `rxIsTerminating` is true, after anything else it stays false |
| Engine.OwnTexts | module/libs/libwsc/src/WebSocketContext.h:126 | what is sent as ping and as reason of a normal close spells "ping" and "Normal closure" |
| Engine.ReceiverDrivesConnection | module/libs/libwsc/src/WebSocketReceiver.cpp:308-401 | whatever the receive loop reports is, event by event, a step the connection can take; the loop stops exactly when the connection is terminating; and every ping is answered by one pong with its payload, in order, and by nothing else (RFC 6455, section 5.5.3) |
| Engine.PassesDriveConnection | module/libs/libwsc/src/WebSocketReceiver.cpp:308-401 | the same after any number of passes; a stop request of another thread between two passes terminates the connection there, and what is unread is what the loop would have gone on with |
| Engine.PassEvent | module/libs/libwsc/src/WebSocketReceiver.cpp:326-397 | one pass reports at most one event and stops exactly on a terminal one; it passes on no ping over 125 octets, so the encoder never drops a pong, and no close or error with a code that may not be sent |
| Engine.PeerReadsWire | module/libs/libwsc/src/WebSocketContext.cpp:993-1086 | after every run, for any mask keys and any compression the peer can undo, the octets written read as exactly the frames of the wire, masked and final, carrying their messages, a close frame only last |
| Sha1.NextScheduleWord | module/libs/libwsc/src/sha1.hpp:75-78 | `blk` over the circular array is the next word of the 80-word schedule |
| Sha1.CircularNext | module/libs/libwsc/src/sha1.hpp:92-121 | writing it in place keeps the last sixteen words of the schedule in the array |
| Sha1.RoundStep | module/libs/libwsc/src/sha1.hpp:85-121 | the update of two registers under rotated names is one round of FIPS 180-4, section 6.1.2 |
| Sha1.ChFast | module/libs/libwsc/src/sha1.hpp:87 | the three-operation form is the choice function |
| Sha1.MajFast | module/libs/libwsc/src/sha1.hpp:111 | the source's form is the majority function |
| Sha1.R0 | module/libs/libwsc/src/sha1.hpp:85-89 | the registers after a round on an original word |
| Sha1.R1 | module/libs/libwsc/src/sha1.hpp:92-97 | schedule word and registers after a round of the first kind |
| Sha1.R2 | module/libs/libwsc/src/sha1.hpp:100-105 | the same for parity, second constant |
| Sha1.R3 | module/libs/libwsc/src/sha1.hpp:108-113 | the same for majority, third constant |
| Sha1.R4 | module/libs/libwsc/src/sha1.hpp:116-121 | the same for parity, fourth constant |
| Sha1.FirstTwenty | module/libs/libwsc/src/sha1.hpp:138-157 | registers and array after rounds 0 to 19 |
| Sha1.SecondTwenty | module/libs/libwsc/src/sha1.hpp:158-177 | after rounds 20 to 39 |
| Sha1.ThirdTwenty | module/libs/libwsc/src/sha1.hpp:178-197 | after rounds 40 to 59 |
| Sha1.FourthTwenty | module/libs/libwsc/src/sha1.hpp:198-217 | after rounds 60 to 79 |
| Sha1.Transform | module/libs/libwsc/src/sha1.hpp:128-228 | the new digest is the FIPS 180-4 block function of the old digest and the block |
| Sha1Stream.BufferToBlock | module/libs/libwsc/src/sha1.hpp:231-241 | 64 octets as sixteen words, most significant octet first |
| Sha1Stream.HashInTwo | module/libs/libwsc/src/sha1.hpp:257-273 | hashing whole blocks can stop and resume anywhere between blocks |
| Sha1Stream.FinishIsPadding | module/libs/libwsc/src/sha1.hpp:280-308 | the one or two blocks built at the end hash to what the padding of FIPS 180-4, section 5.1.1, prescribes, for every tail of 0 to 63 octets |
| Sha1Stream.HashIsFinish | module/libs/libwsc/src/sha1.hpp:280-308 | the hash of a message from its whole blocks and its tail |
| Sha1Stream.SHA1.Update | module/libs/libwsc/src/sha1.hpp:250-273 | the message so far grows by the argument and the object stays ready, however the octets straddle blocks |
| Sha1Stream.SHA1.FinishBlocks | module/libs/libwsc/src/sha1.hpp:282-308 | leaves the FIPS 180-4 hash of the whole message in the digest |
| Sha1Stream.SHA1.Final | module/libs/libwsc/src/sha1.hpp:280-322 | returns the hash in hexadecimal and starts afresh |
| Sha1Stream.HashInPieces | module/libs/libwsc/src/sha1.hpp:250-322 | any series of updates and a final give the hash of the concatenation |
| Sha1Sample.AbcDigest | module/libs/libwsc/src/sha1.hpp:54-322 | the digest of "abc", the one-block example of FIPS 180, is a9993e364706816aba3e25717850c26c9cd0d89d |
| Sha1Stream.HexReadsBack | module/libs/libwsc/src/WebSocketContext.cpp:1118-1132 | pairs of digits of the hexadecimal digest are the octets of the digest |
| Sha1Stream.HexToBytes | module/libs/libwsc/src/WebSocketContext.cpp:1125-1132 | succeeds exactly on forty hexadecimal digits, and then octet by octet |
| Accept.HexDetour | module/libs/libwsc/src/WebSocketContext.cpp:1152-1155 | the hexadecimal detour between hash and octets changes nothing and never fails |
| Accept.ComputeAccept | module/libs/libwsc/src/WebSocketContext.cpp:1142-1158 | the base64 form of the SHA-1 of key and fixed string, from which the digest can be decoded again |
| Base64.RoundTrip | module/libs/libwsc/src/base64.cpp:111-241 | decoding undoes encoding for every octet string and both alphabets |
| Base64.EncodeInjective | module/libs/libwsc/src/base64.cpp:111-160 | different octet strings have different encodings, across alphabets too |
| Base64.GroupRoundTrip | module/libs/libwsc/src/base64.cpp:133-238 | the same for one group of one, two or three octets, padding included |
| Base64.CharRoundTrip | module/libs/libwsc/src/base64.cpp:44-71 | `pos_of_char` undoes both alphabets, and no alphabet character is padding or a line break |
| Base64.Encode | module/libs/libwsc/src/base64.cpp:113-160 | four characters for every three octets begun, the length the source reserves |
| Base64.EncodeOne | module/libs/libwsc/src/base64.cpp:134-153 | one pass of the loop emits the four characters of its group |
| Base64.Base64Encode | module/libs/libwsc/src/base64.cpp:111-160 | the loop computes the encoding: every character is the entry of its six bits in the table of RFC 4648, section 4, or section 5 for `url`, and behind them stands '=', or '.' for `url` |
| Base64.EncodesBits | module/libs/libwsc/src/base64.cpp:44-53 | character i of an encoding is entry v of the literal table, v being bits 6i to 6i + 5 of the octets; padding behind the last |
| Base64.PosIffInTable | module/libs/libwsc/src/base64.cpp:55-71 | `pos_of_char` knows exactly the characters of the two tables, at their places |
| Base64.GroupDecodes | module/libs/libwsc/src/base64.cpp:207-235 | a lone character is out of range; otherwise decoding succeeds exactly if the characters that carry bits are in a table, padded or just short |
| Base64.GroupDecodesBits | module/libs/libwsc/src/base64.cpp:207-235 | the octets have the bits of the positions, but for those of the last that fill no octet |
| Base64.DecodeOne | module/libs/libwsc/src/base64.cpp:207-235 | one pass emits the octets of its group or throws, out of range before invalid |
| Base64.Base64Decode | module/libs/libwsc/src/base64.cpp:163-241 | the loop computes the decoding, after removing line breaks when asked, including both exceptions |
| Base64.InsertLinebreaks | module/libs/libwsc/src/base64.cpp:73-89 | terminates though the string grows, and breaks it behind every full line that is followed by something |
| Base64.LinesRoundTrip | module/libs/libwsc/src/base64.cpp:73-89 | removing the line breaks restores the string |
| Base64.LinesHaveWidth | module/libs/libwsc/src/base64.cpp:73-89 | line breaks stand exactly at every multiple of the width plus one |
| Base64.EncodePem | module/libs/libwsc/src/base64.cpp:96-99 | lines of 64 columns |
| Base64.EncodeMime | module/libs/libwsc/src/base64.cpp:101-104 | lines of 76 columns |
| Base64.WrappedRoundTrip | module/libs/libwsc/src/base64.cpp:91-178 | decoding with line-break removal undoes the line-broken forms of any width |
| Playback.DropOldest | module/ws_bridge_glue.cpp:151-160 | the buffer becomes a suffix of the old contents and the whole chunk; at most 4095 octets more than needed go, an even number of them for even lengths; a chunk over the capacity is lost |
| Playback.TopUpKeepsQueue | module/ws_bridge_glue.cpp:879-918 | with room for a frame and a chunk, topping up loses nothing and stops short of a frame only when nothing is left |
| Playback.TopUpKeepsOldest | module/ws_bridge_glue.cpp:906-915 | whatever the sizes, the stash gets the oldest audio, and none is lost while it has room |
| Playback.FrameTakesOldest | module/ws_bridge_glue.cpp:879-926 | a frame is replaced exactly when stash and play buffer hold a full one, by the oldest audio |
| Playback.Residue | module/ws_bridge_glue.cpp:879-926 | for a fixed frame size, over every run with arrivals, overflow, clears, rate changes and resampled frames, the stash keeps less than a frame, 4096 octets, or the most the resampler makes of a chunk |
| Playback.ResidueCopied | module/ws_bridge_glue.cpp:879-926 | without resampled frames, from an empty stash on, less than a frame or 4096 octets |
| Playback.NeverLosesIff | module/ws_bridge_glue.cpp:907-915 | no contents of the buffers lose audio exactly when frame size and 4095 fit the stash |
| Playback.PlayedIsPrefix | module/ws_bridge_glue.cpp:145-926 | in runs without clear or overflow, played and queued audio is, in order, what was received |
| Playback.NothingFromBeforeClear | module/ws_bridge_glue.cpp:166-174 | after a clear, over the whole rest of any run, overflow, further clears, rate changes and resampled frames included, everything played, queued and fed is what it would be had nothing been received before |
| Playback.PlayedInOrder | module/ws_bridge_glue.cpp:145-926 | after a clear, in a run without resampled frames, everything played arrived after it, at most once and in order |
| Playback.FedAfterClear | module/ws_bridge_glue.cpp:145-926 | after a clear, over any run, the resampler is fed only audio that arrived after it, at most once and in order |
| Playback.RunFeedsInOrder | module/ws_bridge_glue.cpp:145-926 | what the resampler was fed since it started afresh and what is still to come are in stream order, whatever overflows |
| Playback.RunInOrder | module/ws_bridge_glue.cpp:145-926 | audio that is not resampled is never played out of order or twice, over any run with any number of clears and rate changes |
| Playback.RunMaps | module/ws_bridge_glue.cpp:145-926 | the run does not depend on the samples but through the resampler, so the order theorems hold for octets |
| Playback.SwitchBuffer.Read | module/ws_bridge_glue.cpp:155-156 | takes the oldest octets, as many as asked for or there are |
| Playback.SwitchBuffer.Write | module/ws_bridge_glue.cpp:158-160 | appends all or nothing within the capacity |
| Playback.PlaybackState.OnBinary | module/ws_bridge_glue.cpp:145-163 | the object makes the Arrive step of the runs, or nothing after cleanup |
| Playback.PlaybackState.ClearPlayback | module/ws_bridge_glue.cpp:166-174 | the object makes the Clear step: both buffers empty and the resampler as if it had seen nothing |
| Playback.PlaybackState.TopUpStash | module/ws_bridge_glue.cpp:879-918 | the loop is the function TopUp |
| Playback.PlaybackState.TopUpResampled | module/ws_bridge_glue.cpp:879-918 | the loop through the resampler is the function TopUpThrough |
| Playback.ThroughKeepsAll | module/ws_bridge_glue.cpp:888-906 | the resampler is fed the audio in order, and with room for a frame and the output of one chunk the stash gets all of its output, in order |
| Playback.ResampledFrame | module/ws_bridge_glue.cpp:888-926 | a resampled frame is replaced by the front of the stash and of what came out for the oldest audio, exactly if that is enough, and the rest stays |
| Playback.PlaybackState.StreamPlaybackFrame | module/ws_bridge_glue.cpp:838-932 | at any rate the object makes the Retune step if the rate changed and then the step of the frame, resampled or not, and the counters say whether it played; copied audio with room for it: the frame is replaced by the oldest of what waits exactly if that is enough, and a change of the rate discards the stash |
| Resample.LeftInRange | providers/resample.go:29-37 | the left neighbour of every output sample is an input sample |
| Resample.SampleInterpolated | providers/resample.go:29-38 | output sample i is s[j] (to - p) + s[j + 1] p over to, rounded towards zero, for j and p quotient and remainder of i from by to; the last input sample where there is no right neighbour |
| Resample.StaysBetween | providers/resample.go:38 | interpolated values lie between their neighbours |
| Resample.OrderKept | providers/resample.go:29-38 | ordered input gives ordered output |
| Resample.Gcd | providers/resample.go:57-62 | the loop computes the greatest common divisor function |
| Resample.GcdDivides | providers/resample.go:57-62 | it divides both arguments |
| Resample.GcdIsGreatest | providers/resample.go:57-62 | and every common divisor divides it |
| Resample.ResampleBlockBytes | providers/resample.go:49-55 | a positive even block of whole samples that become a whole number of samples; 2 for rates that are not positive |
| Resample.BlockBoundary | providers/resample.go:45-48 | output positions behind whole blocks are those of the rest shifted by the blocks |
| Resample.BlockCount | providers/resample.go:23 | the number of output samples adds up over whole blocks |
| Resample.StreamAgrees | providers/resample.go:3-55 | blockwise resampling has the length of whole-signal resampling and the same samples, except those whose right neighbour lies beyond their chunk, which repeat the left one |
| Tts.SignalIsInt16 | providers/resample.go:38 | resampled values fit 16 bits, so the conversion never wraps |
| Tts.PcmCarriesSignal | providers/resample.go:7-43 | the octets returned, read as samples, are the resampled signal |
| Tts.ResamplePcm16 | providers/resample.go:7-43 | the samples read back from the octets are interpolated as Resample.SampleInterpolated says, n to / from of them; an odd last octet is ignored, and equal or unusable rates copy the whole samples |
| Tts.Emit | providers/openai_tts.go:100-113 | one chunk resampled and sent, an empty result skipped |
| Tts.Synthesize | providers/openai_tts.go:93-137 | the read loop sends the chunks its carry rule cuts, each resampled, and its block suits both rates |
| Tts.ChunksAreTheStream | providers/openai_tts.go:115-134 | when the last octets come with the end, the chunks are the whole stream and all but the last are whole blocks |
| Tts.StreamedSpeech | providers/openai_tts.go:93-137 | then, however the stream is cut, the speech sent is the body itself at 24000 Hz; at any other rate it has floor(samples * rate / 24000) samples and equals whole-signal resampling wherever the right neighbour lies in the chunk, elsewhere repeating the left one; a rate that cannot be copies the whole samples |
| Tts.FlushedIff | providers/openai_tts.go:117-134 | the remainder is flushed exactly when the end comes with data or there is none |
| Tts.BareEnd | providers/openai_tts.go:117-134 | an end without data sends exactly the whole blocks |
| Wav.HeaderFields | bridge/recorder.go:294-317 | sizes and rate stand where a reader of the format looks for them |
| Wav.HeaderFormat | bridge/recorder.go:295-317 | the four tags, the sizes, PCM, two channels, block align 4, 16 bits; the octets a second are right exactly for rates below 2^27, whose 32-bit product does not wrap |
| Wav.HeaderAnnouncesIff | bridge/recorder.go:256-314 | both size fields of the file announce as many octets as follow them exactly for even caller lengths whose recording with its 36 further header octets stays below 2^32 |
| Wav.LittleEndianRoundTrip | bridge/recorder.go:319-322 | the octets written carry the value |
| Wav.LittleEndianAt | bridge/recorder.go:319-322 | octet i of a field is v / 256^i modulo 256 |
| Wav.PutU16 | bridge/recorder.go:319 | two octets, least significant first, nothing else changed |
| Wav.PutU32 | bridge/recorder.go:320-322 | four octets, least significant first, nothing else changed |
| Wav.WriteHeader | bridge/recorder.go:295-317 | the 44 octets of the header, 36 + length modulo 2^32 and the byte rate in 32-bit steps |
| Wav.ChannelsAt | bridge/recorder.go:280-285 | sample i of the interleaved track is sample i of the left and of the right track |
| Wav.InterleaveConcat | bridge/recorder.go:265-290 | interleaving chunk by chunk is interleaving the whole tracks |
| Wav.InterleaveChunk | bridge/recorder.go:280-285 | the sample loop interleaves both buffers |
| Wav.ReadAndInterleave | bridge/recorder.go:275-285 | one chunk is the caller track against what the agent buffer then holds, old octets included |
| Wav.FinalizeWav | bridge/recorder.go:238-292 | fails exactly when the caller track is short; else header and whole-track interleaving with the right channel the code produces |
| Wav.RightIsStale | bridge/recorder.go:261-279 | an octet of the right channel beyond the agent track repeats one of its last 65536 octets, or is silence if no chunk has filled the place |
| Wav.PaddedIff | bridge/recorder.go:236-279 | the right channel is the agent track padded with silence exactly when the octets that would be repeated are silent |
| Wav.PaddedForAllIff | bridge/recorder.go:236-279 | for all agent tracks of a length exactly when the recording is at most 65536 octets a channel, the agent track is at least as long, or empty |
| Sweep.Sweep | bridge/recorder.go:409-422 | the total always equals what remains; without failures exactly the shortest prefix that takes everything aged and meets the limit goes; with failures nothing removable stays that should go |
| Sweep.ShortestFrom | bridge/recorder.go:407-422 | there is exactly one such prefix |
| Sweep.TotalSize | bridge/recorder.go:387-406 | the starting total is the sum of the sizes |
| Cascade.Supersession | pipeline/cascade.go:120-192 | in every interleaving at most one turn is neither cancelled nor finished, it is the newest and `cancel` is its own; a cancelled turn sends at most one more frame; each turn asks about a prefix of the history that ends with its own words |
| Cascade.StepKeepsInv | pipeline/cascade.go:120-192 | each critical section and each point between them keeps that, and the history only grows |
| Cascade.RunKeepsInv | pipeline/cascade.go:120-192 | so does every run |
| Cascade.CallState.BargeIn | pipeline/cascade.go:120-126 | no turn is live afterwards, whatever the goroutines did before |
| Cascade.CallState.OnEnd | pipeline/cascade.go:81-91 | no turn is live afterwards |
| Cascade.CallState.BeginRespond | pipeline/cascade.go:136-146 | the new turn is the only live one and owns `cancel`; it asks about everything said so far, its own words last |
| Cascade.CallState.AddReply | pipeline/cascade.go:168-170 | the reply is appended to what everybody has said so far |
| Cascade.CallState.MayGoOn | pipeline/cascade.go:184-187 | a turn may send only if it is live, and then it is the newest and `cancel` is its own |
| Cascade.CallState.SendChunk | pipeline/cascade.go:188-190 | a turn that was cancelled has now sent exactly one frame since |
| Cascade.CallState.EndRespond | pipeline/cascade.go:148-155 | the call goes on speaking exactly if a newer turn has not ended, and a superseded turn changes nothing for it |
| Cascade.SupersessionOfObject | pipeline/cascade.go:120-192 | Supersession for the object the goroutines share, whatever they have done with it |

## Left out

Not modelled:

* The event library, sockets, DNS, TLS, thread start and join: the event loop is an arbitrary choice of the next
  callback, reads are arbitrary cuts of a stream, and allocation failures (a failing pull-up of the frame) do not occur.
* Each step of the machine is atomic. In particular `requestSendFlush` sets the flag and activates the event in one
  step, and an activated event is taken to run some time; that every accepted message is eventually flushed is not
  claimed, and the source does not ensure it (`WebSocketContext.cpp:386-388`).
* Application callbacks are steps of their own between the engine's steps, not calls in the middle of one.
* A stop request that arrives before the event loop has its wake-up event: nothing wakes the loop for it.
* The compression library: `inflate` is any partial function of the messages inflated since its last reset, and the
  compressor any function it undoes. After a failed inflate the context is not described further, the connection is
  closing by then.
* The wrap of a header length plus a 64-bit payload length beyond 2^64: lengths with the top bit set, which RFC 6455,
  section 5.2, forbids, are waited for like any other length that has not arrived.
* How the response headers are judged (status line, header names, extension parameters): a function of the header
  octets. The source does not compare `Sec-WebSocket-Accept` with the value `computeAccept` gives it.
* The generator of mask keys: the key of each frame is a parameter.
* Log output, real durations of timers, metrics, error callbacks.
* The speex resampler is any function of the chunks fed to it since its reset; channel counts that change between frames
  of one rate, and the uplink.
* Rounding of floating-point positions in the Go resampler: positions are exact rationals. Integer widths of sample
  counts are unbounded there.
* The `unsigned int` position of the base64 encoder, which wraps for inputs of 4 GiB.
* Cancellation of the context while the speech loop waits to emit a chunk, and the HTTP request before it.
* The directory walk before the sweep and the sort itself: the sweep starts from a list in ascending order of time.
* File errors other than a short caller track in the recorder; what a failed recording leaves behind.
* The messages a barge-in sends to the module to clear its buffers: `Playback` has the clear, `Cascade` the turns.
* URL parsing, the FreeSWITCH API glue, the control and agent servers, the event bus, the session queue, log shipping
  and the other providers.

Weaker than one might expect:

- Sender.RoundTrip: compression is undone only for compressors with an inverse, because the library is not modelled.
- Receiver.WebSocketReceiver.DecompressMessage: the inflate loop is the library's, so it is any partial function of the messages since the last reset.
- Shutdown.CloseNotForgotten: promises a flush that writes the CLOSE, not that the event loop gets to run it.
- Context.WebSocketContext.HandleRead: on the object a stop request of another thread takes effect after the receive loop; Engine.PassesDriveConnection has the loop left between two passes.
- Playback.PlayedIsPrefix: is about runs without clear, overflow, rate change or resampled frames; Playback.NothingFromBeforeClear and Playback.FedAfterClear cover the others.
- Playback.RunInOrder: is about audio that is copied; samples a resampler makes have no place in the received stream, and Playback.RunFeedsInOrder orders what they are made from.
- Playback.ThroughKeepsAll: is about resamplers whose output for a chunk fits beside a frame; what a larger output would do is in the function only.
- Sweep.Sweep: with failing deletions it says only what may stay, not which bundles go.
