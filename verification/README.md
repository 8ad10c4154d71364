# Emerald Rogue Assistant: a verified model

The Assistant connects a running ROM to a desktop app. A Lua script inside mGBA opens a TCP connection to the app and
executes the app's memory requests; on top of that bridge the app keeps boxes in a Home Box file and links several
players. This project models the four parts that carry the app's guarantees, and two smaller ones, and proves what
those guarantees are.

**The bridge.** `Frames` has the wire format and the typed payloads, `FrameDecoding` a byte-at-a-time decoder and the
two real decoders (the app's bulk-copying one and the script's), `FrameWriting` the send queue and a link from writer to
decoder, `GameMemory` the two range checks and the aligned-write loop. `LuaScript` and `LuaBridge` are the script: the
first as functions on a state value, the second as the state that its functions update. `TransportRules` and
`TcpLuaTransport` are the app's end in the same two forms, `GameSession` the request IDs, completions and `Stop`, and
`ConnectionManager` the hand-over of one transport from session to session. `BridgeHistory` says what a sequence of
memory requests means, `BridgeLink` is one direction of the connection, `BridgeApp` and `BridgeScript` are what each end
makes of the frames that it hears, and `BridgeSystem`, `BridgeSteps` and `BridgeRun` put both ends together over two byte
streams that deliver in arbitrary pieces. The result, `BridgeRun.BridgeIsSequential`, holds for every run of one
connection, through refused requests, full queues, overflowing decoders, failing memory calls and lost connections: the
successful results are the answers to the first requests, in the order of submission and each with memory as all earlier
writes left it; every other request fails once or is still pending; and memory is what a part of the requests, in their
order, made of it. For callers that keep to the limits of the script's queue `BridgeRun.CalmBridge` says that nothing is
refused and nobody closes, and `BridgeLimits` that those limits are exact.

**The Home Box transfer.** `HomeBoxTransfer` has the rules of a transfer on values and `HomeBoxBehaviour` the state
machine with the game beside it. The result, `HomeBoxBehaviour.HomeBoxBehaviour.Play`, is conservation: in any run, cut
anywhere, at each attempt to save a file the boxes in the game's slots and in the file's records together are a
permutation of the boxes that were loaded, each still with its own metadata.

**Home Box storage.** `HomeBoxFile` has the file format, `HomeBoxCodec` the loops that encode and decode it, and
`HomeBoxDisk` loading and saving over a primary file and a backup, where a save may be stopped at any step.

**Multiplayer.** `MultiplayerRules` and `MultiplayerBehaviour` are the peer state machine for a host and for a client,
driven by arbitrary network events; `MultiplayerHistory` traces every player ID to the ROM that gave it and every byte
that is written to the peer that sent it.

**Two smaller parts.** `Utf8` proves the validating loop against section 4 of RFC 3629, and `SessionWorker` runs the
worker thread and its callers in every interleaving. `Bytes`, `Bags` and `Permutations` hold what the others share.

A class of the source is a class here, and its methods are proved against functions on values; the lemmas are about
those functions. Ghost parameters and results such as `order` or `tickets` say what the implementation chose or what
the books say, and carry no data. The order in which a hash table is walked, the texts of diagnostics, what a socket
accepts or delivers, which file operations fail, and when timeouts fire are all arbitrary.

## Findings

- A caller can make the bridge close by itself. The session lets 256 requests be outstanding, whatever their sizes, but
  the script's operation queue also holds at most 4 MiB. Requests that the app accepts can be refused, without any
  overflow, failing call or lost connection, if and only if all of them together do not fit that queue
  (`BridgeLimits.RefusedIffUnaffordable`): five reads of the largest size can, four cannot
  (`BridgeLimits.FiveLargeReads`). The refusal is an error on which the app closes, so that all that is pending fails.
- The checks of the app and of the script agree on every request that can reach the wire except one kind: a read of zero
  bytes is an invalid size to the app and an invalid address to the script (`GameMemory.ChecksAgree`). The app never
  sends such a read.
- Reads of 1048569 to 1048576 bytes of ROM are valid to the app but fit no frame, so the transport answers them with an invalid
  size; there are no other such requests (`GameMemory.ValidButTooLarge`).
- The record checksum is a plain byte sum. It finds every change of one byte and every change of length
  (`HomeBoxFile.DamageIsDetected`), but a record's data may be replaced by any other data with the same sum
  (`HomeBoxFile.SameSumPasses`, exactly those), for example by two bytes changing places (`HomeBoxFile.SwapPasses`).
- The multiplayer code replaces what it knows of a peer whenever ENet reports that peer as connected. This keeps the
  invariant unless it is a second connect of the very peer whose handshake is pending, and its greeting can be sent: then
  a handshake is pending for a peer that is not compatible. `MultiplayerRules.EventIsValid` says that exactly these events
  break it. Whether ENet reports one is not part of this model.

## Model

| member | source | states |
|---|---|---|
| BridgeRun.BridgeIsSequential | RogueAssistantCpp/Src/Bridge/TcpLuaTransport.cpp:63-127 | the main result, for every run of one connection: some first requests are answered in submission order, each read as left by all earlier writes; every other request fails exactly once or is pending exactly once; what was executed is a subsequence of the requests, the answered ones first and as a whole, and memory is its effect |
| BridgeRun.CalmBridge | RogueAssistantCpp/Assets/RogueAssistant_mGBA.lua:308-416 | for callers that keep to the limits of the operation queue, with a script whose decoder does not overflow and whose memory calls work, and a connection that is not lost: nothing is refused, nobody closes, every result is the answer to the next request, and once all is delivered every request is answered and memory has all writes |
| BridgeRun.RunIsExplained | RogueAssistantCpp/Src/Bridge/TcpLuaTransport.cpp:110-127 | every run keeps the invariant that ties both ends and both byte streams together |
| BridgeRun.DrainedBridge | RogueAssistantCpp/Assets/RogueAssistant_mGBA.lua:487-564 | once all bytes are delivered and all jobs done, every request is answered, nothing is pending, and memory is the result of all writes |
| BridgeSteps.NextExplains | RogueAssistantCpp/Assets/RogueAssistant_mGBA.lua:308-430 | every step of either program or of the network, however it ends, has a history again; a step within the limits leaves the system open |
| BridgeSteps.TidyAppHasRoom | RogueAssistantCpp/Src/Bridge/TcpLuaTransport.cpp:206-240 | with at most 256 requests unanswered, no received chunk overflows the app's decoder |
| BridgeLimits.RefusedIffUnaffordable | RogueAssistantCpp/Assets/RogueAssistant_mGBA.lua:276-285 | distinct requests that the app accepts can be refused, with no overflow, failing call or lost connection, if and only if together they exceed the limits of the operation queue |
| BridgeLimits.UnaffordableIsRefused | RogueAssistantCpp/Assets/RogueAssistant_mGBA.lua:276-285 | the run that does it, from the connect on: every request is accepted and delivered, one is refused, and the app closes |
| BridgeLimits.AffordableIsNotRefused | RogueAssistantCpp/Assets/RogueAssistant_mGBA.lua:276-285 | requests within the limits are never refused in such a run |
| BridgeLimits.FiveLargeReads | RogueAssistantCpp/Assets/RogueAssistant_mGBA.lua:276-285 | five reads of the largest size can be refused, four cannot |
| BridgeApp.AppHearsAll | RogueAssistantCpp/Src/Bridge/TcpLuaTransport.cpp:242-347 | the app takes the script's greeting and answers in order, each for the next pending request; the first error or close ends it, with one failure for every pending request |
| BridgeApp.BreakCloses | RogueAssistantCpp/Src/Bridge/TcpLuaTransport.cpp:320-347 | an error or a close, whatever it says, closes the app; at most one pending request has a status of its own, all others fail too |
| BridgeApp.AccountsAbandon | RogueAssistantCpp/Src/Bridge/TcpLuaTransport.cpp:492-500 | when the pending requests are failed, in any order, every request has exactly one result |
| BridgeScript.ScriptHearsAll | RogueAssistantCpp/Assets/RogueAssistant_mGBA.lua:308-416 | the script takes the app's greeting and requests in order, accepting or refusing each, until a close; for a caller that keeps to the limits it accepts them all |
| BridgeScript.WorkAll | RogueAssistantCpp/Assets/RogueAssistant_mGBA.lua:487-535 | a whole call of `processOperations`, with any pattern of failing memory calls: jobs advance in order, memory follows their writes, and until the first failure or refusal each answer is that of the next request |
| BridgeScript.RoomForNext | RogueAssistantCpp/Assets/RogueAssistant_mGBA.lua:276-285 | if all unanswered requests fit the operation queue, each fits when it arrives |
| BridgeScript.CloserLeaves | RogueAssistantCpp/Assets/RogueAssistant_mGBA.lua:308-340 | a close or a connection error makes a script in any phase leave its work for good; a script that is leaving says only errors and closes |
| BridgeLink.ChunkFits | RogueAssistantCpp/Src/Bridge/BridgeProtocol.cpp:434-476 | one chunk of 64 KiB does not overflow a decoder while at most 256 frames are on their way |
| BridgeHistory.ChunkKeepsJob | RogueAssistantCpp/Assets/RogueAssistant_mGBA.lua:503-531 | a job done in pieces stays a correct part of its request: what is read is a part of memory, what is written is a prefix of the data, also when a call fails halfway |
| BridgeHistory.FinishedJob | RogueAssistantCpp/Assets/RogueAssistant_mGBA.lua:472-485 | a job that finishes without a failure has the memory and the answer that the whole request has when it is applied at once |
| BridgeHistory.WholeEffect | RogueAssistantCpp/Assets/RogueAssistant_mGBA.lua:503-531 | requests that were executed as a whole have the effect that requests have by definition |
| BridgeHistory.AnswersStay | RogueAssistantCpp/Src/Bridge/TcpLuaTransport.cpp:63-108 | submitting one more request changes no earlier answer |
| BridgeHistory.RequestIsAccepted | RogueAssistantCpp/Assets/RogueAssistant_mGBA.lua:352-413 | a request that passes the app's validation is a valid frame that the script accepts with the same address, size and data |
| Frames.EncodedFrameParses | RogueAssistantCpp/Src/Bridge/BridgeProtocol.cpp:108-159 | an encoded frame is a complete wire image with no header error, and parses to the frame |
| Frames.ParsedFrameEncodes | RogueAssistantCpp/Src/Bridge/BridgeProtocol.cpp:434-476 | a wire image that is accepted is the encoding of the frame it parses to, which is valid: with the row above, a bijection |
| Frames.EncodersAgree | RogueAssistantCpp/Assets/RogueAssistant_mGBA.lua:89-101 | the script's encoder, which has fewer checks, agrees with the app's on frames without flags |
| Frames.StreamDecomposition | RogueAssistantCpp/Src/Bridge/BridgeProtocol.cpp:434-476 | no stream of frames can be read as two different sequences of frames |
| Frames.ClientHelloBijection | RogueAssistantCpp/Src/Bridge/BridgeProtocol.cpp:161-185 | a frame decodes to a ClientHello if and only if it is that hello's encoding |
| Frames.ServerHelloBijection | RogueAssistantCpp/Src/Bridge/BridgeProtocol.cpp:187-223 | the same for ServerHello, with its status and its reserved byte |
| Frames.ReadRequestBijection | RogueAssistantCpp/Src/Bridge/BridgeProtocol.cpp:225-247 | the same for a read request |
| Frames.WriteRequestBijection | RogueAssistantCpp/Src/Bridge/BridgeProtocol.cpp:249-284 | the same for a write request; too much data has no encoding |
| Frames.ErrorMessageBijection | RogueAssistantCpp/Src/Bridge/BridgeProtocol.cpp:286-339 | the same for an error: the codes that exist, at most 1024 bytes of text, and valid UTF-8 only |
| Frames.EncodeErrorMessage | RogueAssistantCpp/Src/Bridge/BridgeProtocol.cpp:286-306 | the encoder, which runs the UTF-8 loop, computes the specified partial encoding |
| Frames.ReadErrorMessage | RogueAssistantCpp/Src/Bridge/BridgeProtocol.cpp:308-339 | the decoder, which runs the UTF-8 loop, computes the specified partial decoding |
| FrameDecoding.FeedConcat | RogueAssistantCpp/Src/Bridge/BridgeProtocol.cpp:348-376 | decoding does not depend on how a stream is cut: feeding two pieces one after the other ends in the same frames, buffer and error as feeding both at once |
| FrameDecoding.AcceptedStreams | RogueAssistantCpp/Src/Bridge/BridgeProtocol.cpp:348-484 | which streams a fresh decoder turns into which frames: exactly the encodings of valid frames within the limits |
| FrameDecoding.FeedConsumes | RogueAssistantCpp/Src/Bridge/BridgeProtocol.cpp:348-484 | as long as there is no error, the bytes consumed are the encodings of the frames held and the partial frame buffered |
| FrameDecoding.FeedAccepts | RogueAssistantCpp/Src/Bridge/BridgeProtocol.cpp:434-476 | on a prefix of valid frames a decoder can only fail for want of room |
| FrameDecoding.FrameDecoder.Append | RogueAssistantCpp/Src/Bridge/BridgeProtocol.cpp:348-376 | the app's decoder, which copies runs of bytes, ends in the state of the byte-at-a-time decoder, error kind included |
| FrameDecoding.FrameDecoder.CopyRun | RogueAssistantCpp/Src/Bridge/BridgeProtocol.cpp:356-374 | one copied run ends in the state of feeding its bytes one at a time, and consumes at least one byte |
| FrameDecoding.FrameDecoder.ReadExpectedSize | RogueAssistantCpp/Src/Bridge/BridgeProtocol.cpp:416-432 | four buffered bytes become the expected size, or the error for a length that is too small or too large |
| FrameDecoding.FrameDecoder.DecodeBufferedFrame | RogueAssistantCpp/Src/Bridge/BridgeProtocol.cpp:434-476 | a full buffer becomes the frame it encodes, or the first header error, or a queue overflow |
| FrameDecoding.FrameDecoder.PollFrames | RogueAssistantCpp/Src/Bridge/BridgeProtocol.cpp:378-389 | hands out all frames and leaves the counters at the true size, zero |
| FrameDecoding.ScriptDecoder.FeedDecoder | RogueAssistantCpp/Assets/RogueAssistant_mGBA.lua:132-177 | the script's decoder, which appends and then splits, has the same frames as the app's and fails on exactly the same streams |
| FrameDecoding.ScriptDecoder.PollDecoder | RogueAssistantCpp/Assets/RogueAssistant_mGBA.lua:179-184 | hands out the same frames as the app's `PollFrames` |
| FrameWriting.FrameWriter.Queue | RogueAssistantCpp/Src/Bridge/BridgeProtocol.cpp:486-499 | a frame is appended to the unsent bytes if and only if it is valid and there is room; the counters stay exact and within 256 frames and 4 MiB |
| FrameWriting.FrameWriter.PendingBytes | RogueAssistantCpp/Src/Bridge/BridgeProtocol.cpp:501-506 | the bytes offered to the socket are a prefix of the unsent bytes, empty only if there is nothing to send |
| FrameWriting.FrameWriter.ConsumeSent | RogueAssistantCpp/Src/Bridge/BridgeProtocol.cpp:508-522 | consumed bytes leave the front of the unsent bytes, and a count that is too large changes nothing |
| FrameWriting.QueuedUnsent | RogueAssistantCpp/Src/Bridge/BridgeProtocol.cpp:486-499 | queueing appends exactly the frame's encoding to the unsent bytes, and keeps the counters exact |
| FrameWriting.ConsumedUnsent | RogueAssistantCpp/Src/Bridge/BridgeProtocol.cpp:508-522 | consuming takes exactly those bytes off the front, and keeps the counters exact |
| FrameWriting.FlushLosesNothing | RogueAssistantCpp/Src/Bridge/TcpLuaTransport.cpp:349-371 | a sending loop loses and repeats no byte, and ends only with an empty queue, at its limit, or at an attempt that takes nothing |
| FrameWriting.WhatIsTakenIsSent | RogueAssistantCpp/Src/Bridge/TcpLuaTransport.cpp:354-367 | as many bytes as the socket says it took are sent, and the next attempt goes on behind them |
| FrameWriting.FlushingIsDetermined | RogueAssistantCpp/Src/Bridge/TcpLuaTransport.cpp:349-371 | what is sent follows from what the socket takes |
| FrameWriting.SendPending | RogueAssistantCpp/Src/Bridge/TcpLuaTransport.cpp:354-367 | the loop does that |
| FrameWriting.LinkIsFifo | RogueAssistantCpp/Src/Bridge/BridgeProtocol.cpp:348-522 | for any steps of queueing, partial sending, partial delivery and polling, the frames polled are a prefix of the frames queued, and all of them once the link is drained |
| FrameWriting.LinkNextInvariant | RogueAssistantCpp/Src/Bridge/BridgeProtocol.cpp:348-522 | each of those steps accounts for every byte between the two queues |
| GameMemory.ChecksAgree | RogueAssistantCpp/Src/Bridge/GameMemoryTransport.cpp:26-60 | the app's validation and the script's own checks give the same verdict on every request that can be framed, except for reads of zero bytes, where they never do |
| GameMemory.ValidIffPermitted | RogueAssistantCpp/Src/Bridge/GameMemoryTransport.cpp:26-60 | a request of a permitted size is valid if and only if each of its bytes lies in a permitted range |
| GameMemory.ValidButTooLarge | RogueAssistantCpp/Src/Bridge/TcpLuaTransport.cpp:71-98 | a valid request fits no frame exactly if it is a read of 1048569 to 1048576 bytes |
| GameMemory.Emulator.WriteAligned | RogueAssistantCpp/Assets/RogueAssistant_mGBA.lua:449-470 | memory is as if the bytes were written one by one; every access is aligned (the access methods require it); at most count/4 + 4 accesses |
| GameMemory.Emulator.WriteNext | RogueAssistantCpp/Assets/RogueAssistant_mGBA.lua:452-468 | one access of the widest aligned kind that fits, which brings the bound on the remaining accesses down |
| Bytes.LittleRoundTrip | RogueAssistantCpp/Inc/Endian.h:17-92 | a value that fits its width survives writing and reading |
| Bytes.LittleCanonical | RogueAssistantCpp/Inc/Endian.h:17-92 | bytes survive reading and writing |
| Bytes.ReadLittle | RogueAssistantCpp/Inc/Endian.h:17-42 | the loop of shifts reads the little-endian value at the offset, and refuses exactly the spans that are too short |
| Bytes.WriteLittle | RogueAssistantCpp/Inc/Endian.h:68-92 | the loop writes the little-endian bytes in place, touches nothing else, and refuses exactly the spans that are too short |
| Utf8.IsValidUtf8 | RogueAssistantCpp/Src/Platform/Utf8.cpp:7-64 | true if and only if the text is a concatenation of the sequences of section 4 of RFC 3629 |
| Utf8.ReadCharacter | RogueAssistantCpp/Src/Platform/Utf8.cpp:15-61 | the length of the one well-formed character at the index, or nothing if there is none |
| Utf8.BoundsMatchGrammar | RogueAssistantCpp/Src/Platform/Utf8.cpp:55-59 | the checks for overlong forms, surrogates and the upper bound are exactly the restrictions of the grammar |
| Utf8.OctetsAreScalarSequences | RogueAssistantCpp/Src/Platform/Utf8.cpp:7-64 | equivalently, the text is the encoding of a sequence of Unicode scalar values |
| LuaBridge.Bridge.constructor | RogueAssistantCpp/Assets/RogueAssistant_mGBA.lua:186-199 | a new connection has queued its greeting and waits for the app's |
| LuaBridge.Bridge.QueueFrame | RogueAssistantCpp/Assets/RogueAssistant_mGBA.lua:201-217 | a frame is queued if and only if it can be encoded and there is room, and nothing else changes |
| LuaBridge.Bridge.BeginProtocolClose | RogueAssistantCpp/Assets/RogueAssistant_mGBA.lua:264-274 | an error and a close are queued, both or the connection fails |
| LuaBridge.Bridge.EnqueueOperation | RogueAssistantCpp/Assets/RogueAssistant_mGBA.lua:276-285 | an operation is queued, or an error in its place, or the connection fails |
| LuaBridge.Bridge.ProcessServerHello | RogueAssistantCpp/Assets/RogueAssistant_mGBA.lua:287-306 | the script goes online for an accepting greeting of the right version only |
| LuaBridge.Bridge.ProcessIncomingFrame | RogueAssistantCpp/Assets/RogueAssistant_mGBA.lua:308-416 | for every frame in every phase, the branches make the state that the rules on values give |
| LuaBridge.Bridge.ProcessReceivedBytes | RogueAssistantCpp/Assets/RogueAssistant_mGBA.lua:418-430 | received bytes are decoded and their frames processed in order until the connection is gone; the state stays well formed |
| LuaBridge.Bridge.ProcessOperations | RogueAssistantCpp/Assets/RogueAssistant_mGBA.lua:487-535 | terminates, answers at most 64 operations and touches at most 256 KiB, and leaves the state and memory of the loop on values; does nothing unless online |
| LuaBridge.Bridge.SendResponse | RogueAssistantCpp/Assets/RogueAssistant_mGBA.lua:495-501 | a finished operation leaves its queue exactly when its answer fits the send queue |
| LuaBridge.Bridge.FlushOutgoing | RogueAssistantCpp/Assets/RogueAssistant_mGBA.lua:537-564 | what the socket takes is sent from the front of the queue, attempt by attempt, at most 256 KiB, and the rest stays; the connection fails exactly if an attempt does |
| LuaScript.FrameArrivesIsValid | RogueAssistantCpp/Assets/RogueAssistant_mGBA.lua:308-416 | no frame breaks the limits and counters of the script's two queues or the shape of a job |
| LuaScript.BytesArriveIsValid | RogueAssistantCpp/Assets/RogueAssistant_mGBA.lua:418-430 | nor do any bytes |
| LuaScript.WorkNext | RogueAssistantCpp/Assets/RogueAssistant_mGBA.lua:493-534 | each turn of the operations loop keeps the state well formed and does at least one operation or one byte |
| LuaScript.RunJobs | RogueAssistantCpp/Assets/RogueAssistant_mGBA.lua:487-535 | the loop ends, with the state well formed and nothing left that may be done in this call |
| TransportRules.FrameArrivesIsSound | RogueAssistantCpp/Src/Bridge/TcpLuaTransport.cpp:252-347 | after any frame: connected if and only if there is a client that is greeted and not closing, and nothing is pending otherwise |
| TransportRules.BytesArriveIsSound | RogueAssistantCpp/Src/Bridge/TcpLuaTransport.cpp:206-250 | the same after any received chunk |
| TransportRules.SubmittedIsValid | RogueAssistantCpp/Src/Bridge/TcpLuaTransport.cpp:63-108 | the same after any accepted request |
| TransportRules.SubmittedConserves | RogueAssistantCpp/Src/Bridge/TcpLuaTransport.cpp:63-108 | an accepted request is owed one answer, or has it already if it did not reach the wire |
| TransportRules.AnsweredConserves | RogueAssistantCpp/Src/Bridge/TcpLuaTransport.cpp:295-339 | an answer moves one pending request to the results, with data of the size that was asked for |
| TransportRules.SettledConserves | RogueAssistantCpp/Src/Bridge/TcpLuaTransport.cpp:492-500 | closing answers every pending request once, in whatever order the hash table has |
| TransportRules.HandedOutConserves | RogueAssistantCpp/Src/Bridge/TcpLuaTransport.cpp:110-127 | handing out the results settles exactly the requests they are for |
| TransportRules.ReceivingIsDetermined | RogueAssistantCpp/Src/Bridge/TcpLuaTransport.cpp:206-240 | what a poll receives, and whether the peer is found to be gone, follows from what the socket offers |
| TransportRules.ConnectsIffGreeting | RogueAssistantCpp/Src/Bridge/TcpLuaTransport.cpp:252-288 | exactly one frame connects a client: the greeting of protocol 1.0 and script version 1, with room for the reply |
| TransportRules.FirstPollConnects | RogueAssistantCpp/Src/Bridge/TcpLuaTransport.cpp:110-288 | a script that connects and has sent its greeting is connected by the first poll |
| TcpLuaTransport.TcpLuaTransport.constructor | RogueAssistantCpp/Src/Bridge/TcpLuaTransport.cpp:44-56 | a new transport listens, with nothing pending and its books empty |
| TcpLuaTransport.TcpLuaTransport.Submit | RogueAssistantCpp/Src/Bridge/TcpLuaTransport.cpp:63-108 | when it returns true and the state then; a refusal changes nothing; the books grow by that request |
| TcpLuaTransport.TcpLuaTransport.PollResults | RogueAssistantCpp/Src/Bridge/TcpLuaTransport.cpp:110-127 | accepts, receives and sends all that it meets, in that order (what is received and sent is determined by what the socket offers: `ReceivesAll`, `FlushEffect`); hands out every result and keeps none; each result settles one accepted request of its ID and kind |
| TcpLuaTransport.TcpLuaTransport.Stop | RogueAssistantCpp/Src/Bridge/TcpLuaTransport.cpp:134-168 | every pending request is answered as disconnected, the client is gone, and at most a prefix of one close frame is sent, and only to an open client |
| TcpLuaTransport.TcpLuaTransport.AcceptClients | RogueAssistantCpp/Src/Bridge/TcpLuaTransport.cpp:180-204 | the first arrival becomes the client if there is none; nothing else changes |
| TcpLuaTransport.TcpLuaTransport.ReceiveClient | RogueAssistantCpp/Src/Bridge/TcpLuaTransport.cpp:206-240 | takes in order, in chunks, all that the socket yields: it ends only when the connection closes, after 256 KiB, or at an attempt that yields nothing, and no attempt is passed over; each chunk is decoded and processed; a peer that is gone is dropped |
| TcpLuaTransport.TcpLuaTransport.ProcessFrames | RogueAssistantCpp/Src/Bridge/TcpLuaTransport.cpp:242-250 | frames take effect in order until the connection closes, and the books balance |
| TcpLuaTransport.TcpLuaTransport.ProcessFrame | RogueAssistantCpp/Src/Bridge/TcpLuaTransport.cpp:252-347 | for every frame, the branches make the state that the rules on values give |
| TcpLuaTransport.TcpLuaTransport.FlushClient | RogueAssistantCpp/Src/Bridge/TcpLuaTransport.cpp:349-371 | what the socket takes is sent from the front of the queue, attempt by attempt, until one takes nothing, the queue is empty, or 256 KiB are sent; the client is dropped if sending fails, or if it is closing and its queue is empty |
| TcpLuaTransport.TcpLuaTransport.BeginProtocolClose | RogueAssistantCpp/Src/Bridge/TcpLuaTransport.cpp:452-465 | error and close are queued or the client is dropped; all pending requests fail |
| TcpLuaTransport.TcpLuaTransport.BeginOrderlyClose | RogueAssistantCpp/Src/Bridge/TcpLuaTransport.cpp:467-478 | a close is queued or the client is dropped; all pending requests are disconnected |
| TcpLuaTransport.TcpLuaTransport.CloseClient | RogueAssistantCpp/Src/Bridge/TcpLuaTransport.cpp:480-490 | the client is gone and every pending request has its answer |
| TcpLuaTransport.TcpLuaTransport.CompletePending | RogueAssistantCpp/Src/Bridge/TcpLuaTransport.cpp:492-500 | one result for each pending request, and none left |
| GameSession.GameSession.Submit | RogueAssistantCpp/Src/Bridge/GameSession.cpp:36-63 | true exactly if the session and its transport can take it: the request is then pending under a new ID with its completion, and with the transport; invalid: the completion runs at once and the request is refused; any other refusal changes at most the counter |
| GameSession.GameSession.AllocateRequestId | RogueAssistantCpp/Src/Bridge/GameSession.cpp:65-75 | the ID is nonzero and not pending, the first such candidate from the counter on, and found within one try more than there are pending requests, across the wrap at 2^32 |
| GameSession.CandidateIs | RogueAssistantCpp/Src/Bridge/GameSession.cpp:65-75 | the k-th value of the wrapping counter that skips zero, in closed form |
| GameSession.CandidatesCount | RogueAssistantCpp/Src/Bridge/GameSession.cpp:65-75 | the counter does not repeat within 2^32 - 1 steps |
| GameSession.GameSession.Poll | RogueAssistantCpp/Src/Bridge/GameSession.cpp:77-107 | all results of one poll of the transport are used in order: each runs the completion of the request it answers, once and with the result as it came, until a completion stops the session, after which they are only counted; every submission that a completion has to make is made, once; what the transport still holds are refusals of requests that no frame can carry |
| GameSession.GameSession.HandleResult | RogueAssistantCpp/Src/Bridge/GameSession.cpp:83-105 | while the session runs, a result is for a pending request, and its completion is the next to run, with the result as it came |
| GameSession.HandledAsIs | RogueAssistantCpp/Src/Bridge/GameSession.cpp:93-104 | over this transport no result has the wrong shape: the branch that turns one into a protocol error is never taken |
| GameSession.GameSession.Stop | RogueAssistantCpp/Src/Bridge/GameSession.cpp:109-119 | exactly-once completion: when it returns, the completions that ran are those of all accepted requests, once each, those of the pending ones with a disconnect, even if completions submit or stop again |
| GameSession.GameSession.RunCalls | RogueAssistantCpp/Src/Bridge/GameSession.cpp:18-34 | the calls are made, each once: every submission among them, and a stop if there is one; while the session runs they leave all pending requests alone, and nothing gets through to the transport once it is stopped |
| GameSession.CompleteIsValid | RogueAssistantCpp/Src/Bridge/GameSession.cpp:83-105 | taking one pending request off and running its completion keeps submitted = pending + completed |
| GameSession.StopOneIsValid | RogueAssistantCpp/Src/Bridge/GameSession.cpp:109-119 | the same for the requests that are cancelled by a stop |
| ConnectionManager.GameConnectionManager.AcceptConnection | RogueAssistantCpp/Src/GameConnectionManager.cpp:254-266 | session isolation: a new connection starts with request IDs from 1 while the transport has nothing pending, no undelivered result and owes nothing, and it is the only one |
| ConnectionManager.GameConnectionManager.BeginConnection | RogueAssistantCpp/Src/GameConnectionManager.cpp:241-268 | exactly if the poll connects, a connection starts, and then as above |
| ConnectionManager.GameConnectionManager.UpdateConnections | RogueAssistantCpp/Src/GameConnectionManager.cpp:241-288 | without a connection one poll, and a new session exactly if that connects; then the turn of the connection, which is removed exactly if its session has stopped; at most one connection, which owns all that the transport owes |
| ConnectionManager.GameConnectionManager.ChangeBridgePort | RogueAssistantCpp/Src/GameConnectionManager.cpp:199-234 | for another valid port that can be opened a new transport takes over with nothing pending and no connection; for any other nothing changes |
| ConnectionManager.GameConnectionManager.DisconnectConnections | RogueAssistantCpp/Src/GameConnectionManager.cpp:290-300 | the connection's session has stopped, so every completion has run, and none is left |
| ConnectionManager.GameConnectionManager.UpdateGame | RogueAssistantCpp/Src/GameConnection.cpp:34-108 | a tick of a connection: the results of the poll are used, a session whose transport is gone stops, and one that still runs makes its calls; its requests and those of the transport stay the same |
| ConnectionManager.GameConnectionManager.Stop | RogueAssistantCpp/Src/GameConnectionManager.cpp:166-179 | the transport is stopped and no connection is left |
| HomeBoxBehaviour.HomeBoxBehaviour.Play | RogueAssistantCpp/Src/Behaviours/HomeBoxBehaviour.cpp:140-279 | the main result: in any run, at each attempt to save, the order is a permutation, the records are those of the order, and the boxes in the game's slots and in the records together, metadata and contents, are a permutation of the boxes at the start, each local one with the metadata that the game showed for it; each attempt takes effect unless a file call fails or is stopped; what can be loaded afterwards is what the last attempt that took effect has written |
| HomeBoxBehaviour.FaithfulConserves | RogueAssistantCpp/Src/Behaviours/HomeBoxBehaviour.cpp:355-385 | at such an attempt local slot i holds the box that the order names for it, and no box is lost, duplicated or given the metadata of another |
| HomeBoxBehaviour.FilesFollowAttempts | RogueAssistantCpp/Src/Behaviours/HomeBoxBehaviour.cpp:347-385 | what can be loaded after a run is what the last save that took effect wrote, or what there was before |
| HomeBoxBehaviour.AttemptsTakeEffect | RogueAssistantCpp/Src/Behaviours/HomeBoxBehaviour.cpp:122-128 | since transfers start only over a primary that may be replaced, every attempt to save takes effect unless a file call fails or is stopped |
| HomeBoxBehaviour.HomeBoxBehaviour.constructor | RogueAssistantCpp/Src/Behaviours/HomeBoxBehaviour.cpp:16-32 | attaching starts a run with nothing queued, nothing saved and nothing in flight |
| HomeBoxBehaviour.HomeBoxBehaviour.OnDetach | RogueAssistantCpp/Src/Behaviours/HomeBoxBehaviour.cpp:34-49 | detaching with an unconfirmed or unsent chunk leaves the files exactly as they are, and otherwise a pending save is attempted; game memory is never touched |
| HomeBoxBehaviour.HomeBoxBehaviour.PopAllFinished | RogueAssistantCpp/Src/Behaviours/HomeBoxBehaviour.cpp:36-44 | the queue becomes empty if and only if every chunk was sent and confirmed |
| HomeBoxBehaviour.HomeBoxBehaviour.ValidateIndexOrder | RogueAssistantCpp/Src/Behaviours/HomeBoxBehaviour.cpp:69-81 | the loop accepts exactly the permutations of the box indices |
| HomeBoxBehaviour.HomeBoxBehaviour.LoadOfflineData | RogueAssistantCpp/Src/Behaviours/HomeBoxBehaviour.cpp:83-138 | the behaviour detaches exactly if the load does not permit transfers; if it goes on, the stored boxes are those of the loaded file or empty ones, and a save may replace the primary |
| HomeBoxBehaviour.HomeBoxBehaviour.ReadLocalBox | RogueAssistantCpp/Src/Behaviours/HomeBoxBehaviour.cpp:281-289 | a local box is read with its own contents and its own metadata |
| HomeBoxBehaviour.HomeBoxBehaviour.OnUpdate | RogueAssistantCpp/Src/Behaviours/HomeBoxBehaviour.cpp:140-279 | the phases before transfers follow each other as requests are taken and the game is ready; a save that is due is attempted; with nothing left to rewrite the order that the game shows is taken over, or, if it is not a permutation, ends the session |
| HomeBoxBehaviour.HomeBoxBehaviour.TakeOrder | RogueAssistantCpp/Src/Behaviours/HomeBoxBehaviour.cpp:249-277 | the order is taken over with a request to rewrite each local slot that changes, and a save is requested if it differs |
| HomeBoxBehaviour.LoadedFits | RogueAssistantCpp/Src/Behaviours/HomeBoxBehaviour.cpp:100-134 | whatever is loaded has a record of the right size for each stored box |
| HomeBoxBehaviour.HomeBoxBehaviour.PumpWriteMonBox | RogueAssistantCpp/Src/Behaviours/HomeBoxBehaviour.cpp:313-345 | with a slot queued and the last chunk confirmed, sends the next chunk or drops the finished slot; otherwise waits |
| HomeBoxBehaviour.HomeBoxBehaviour.SendChunk | RogueAssistantCpp/Src/Behaviours/HomeBoxBehaviour.cpp:320-343 | a chunk that is taken is the next one of the first slot; a refused one changes nothing and is sent again; no file changes, unless the refusal detaches, and then none either |
| HomeBoxBehaviour.HomeBoxBehaviour.WriteChunk | RogueAssistantCpp/Src/Behaviours/HomeBoxBehaviour.cpp:323-335 | the bytes of the chunk go to their place in the slot, and offset and remainder move by its size |
| HomeBoxBehaviour.HomeBoxBehaviour.SaveFile | RogueAssistantCpp/Src/Behaviours/HomeBoxBehaviour.cpp:347-385 | a save happens only with an empty queue and nothing in flight, and is recorded with the state at that time |
| HomeBoxBehaviour.HomeBoxBehaviour.CollectRecords | RogueAssistantCpp/Src/Behaviours/HomeBoxBehaviour.cpp:360-372 | record j is box order[L + j] |
| HomeBoxBehaviour.HomeBoxBehaviour.HandlePendingFileWrite | RogueAssistantCpp/Src/Behaviours/HomeBoxBehaviour.cpp:347-385 | nothing is saved while a slot is queued or nothing is due; a save that is due with an empty queue is attempted, with the records of the current order |
| HomeBoxTransfer.NothingIsLost | RogueAssistantCpp/Src/Behaviours/HomeBoxBehaviour.cpp:313-385 | with an empty queue every local slot holds its box, and slots and records together hold every box once |
| HomeBoxTransfer.ArrangedIsSame | RogueAssistantCpp/Src/Behaviours/HomeBoxBehaviour.cpp:69-81 | arranging the boxes by a permutation loses and duplicates nothing |
| HomeBoxTransfer.ReorderedKeeps | RogueAssistantCpp/Src/Behaviours/HomeBoxBehaviour.cpp:236-276 | taking over a new order, with a request for each changed local slot, keeps the invariant of the transfer |
| HomeBoxTransfer.LaunchedKeeps | RogueAssistantCpp/Src/Behaviours/HomeBoxBehaviour.cpp:313-345 | so does sending a chunk |
| HomeBoxTransfer.AppliedKeeps | RogueAssistantCpp/Src/GameConnection.cpp:209-229 | so does the game's write, which changes the one slot and extends what is right in it |
| HomeBoxTransfer.AcknowledgedKeeps | RogueAssistantCpp/Src/GameConnection.cpp:184-207 | so does the confirmation of a write that was applied |
| HomeBoxTransfer.PoppedKeeps | RogueAssistantCpp/Src/Behaviours/HomeBoxBehaviour.cpp:313-345 | so does dropping a slot that was sent and confirmed: it then holds its box |
| HomeBoxTransfer.CoveredOnce | RogueAssistantCpp/Src/Behaviours/HomeBoxBehaviour.cpp:323-335 | the chunks of a slot cover each of its bytes exactly once |
| HomeBoxFile.HomeBoxBijection | RogueAssistantCpp/Src/Storage/HomeBoxFile.cpp:127-301 | bytes decode to a Home Box if and only if it is in index order and they are its encoding |
| HomeBoxFile.RoundTrip | RogueAssistantCpp/Src/Storage/HomeBoxFile.cpp:229-301 | decoding what was encoded gives the same records in index order |
| HomeBoxFile.EncodeIgnoresOrder | RogueAssistantCpp/Src/Storage/HomeBoxFile.cpp:229-276 | the order of the records makes no difference to the encoding |
| HomeBoxFile.EveryIndexIsFound | RogueAssistantCpp/Src/Storage/HomeBoxFile.cpp:236-268 | in a valid Home Box every index below the count has its record, and only one |
| HomeBoxFile.ChecksumIsExact | RogueAssistantCpp/Src/Storage/HomeBoxFile.cpp:117-125 | within the permitted sizes the 32-bit sum never wraps |
| HomeBoxFile.DamageIsDetected | RogueAssistantCpp/Src/Storage/HomeBoxFile.cpp:127-186 | changing one byte anywhere in an encoded file, or its length, makes decoding fail |
| HomeBoxFile.AcceptedFilesDifferTwice | RogueAssistantCpp/Src/Storage/HomeBoxFile.cpp:127-186 | two accepted files never differ in exactly one byte |
| HomeBoxFile.SameSumPasses | RogueAssistantCpp/Src/Storage/HomeBoxFile.cpp:117-186 | replacing a record's data under its old checksum is accepted if and only if the byte sums are equal |
| HomeBoxFile.SwapPasses | RogueAssistantCpp/Src/Storage/HomeBoxFile.cpp:117-186 | two different bytes of a record that change places give another file that is accepted |
| HomeBoxCodec.EncodeHomeBox | RogueAssistantCpp/Src/Storage/HomeBoxFile.cpp:229-276 | the loops over records and slots compute the specified image, or refuse exactly the invalid Home Boxes |
| HomeBoxCodec.DecodeHomeBox | RogueAssistantCpp/Src/Storage/HomeBoxFile.cpp:278-301 | the cursor over the bytes computes the specified decoding, and refuses exactly the files that are not accepted |
| HomeBoxCodec.DecodeRecords | RogueAssistantCpp/Src/Storage/HomeBoxFile.cpp:127-186 | header, records and footer are read in turn, and the result is the specified one |
| HomeBoxCodec.SortRecords | RogueAssistantCpp/Src/Storage/HomeBoxFile.cpp:236-262 | the table from index to record is filled if and only if the records are valid, and then has a record at every index |
| HomeBoxCodec.RecordChecksum | RogueAssistantCpp/Src/Storage/HomeBoxFile.cpp:117-125 | the 32-bit loop computes the checksum |
| HomeBoxDisk.HomeBoxStore.LoadHomeBoxFile | RogueAssistantCpp/Src/Storage/HomeBoxFile.cpp:310-387 | primary, then backup, with every failing call; the result names its source and says exactly what was wrong with either file |
| HomeBoxDisk.LoadTells | RogueAssistantCpp/Src/Storage/HomeBoxFile.cpp:310-387 | each flag of the result means what it says of the two files, and the result is the only one of which all of that is true |
| HomeBoxDisk.PermitsWhen | RogueAssistantCpp/Src/Behaviours/HomeBoxBehaviour.cpp:103-134 | a load permits transfers exactly if the primary is good, or missing with nothing or something good as its backup; then a save may replace the primary |
| HomeBoxDisk.HomeBoxStore.SaveHomeBoxFile | RogueAssistantCpp/Src/Storage/HomeBoxFile.cpp:389-424 | the files after a save that works, fails or is stopped at any of its effects, and what it reports |
| HomeBoxDisk.SaveIsAtomic | RogueAssistantCpp/Src/Storage/HomeBoxFile.cpp:389-424 | crash consistency, first saves included: whatever a save does, loading then gives what it gave before, or the new data in index order exactly when the primary was replaced |
| HomeBoxDisk.SavesAreAtomic | RogueAssistantCpp/Src/Storage/HomeBoxFile.cpp:310-424 | the same for any number of saves: what is loaded is the data of the last one that took effect |
| HomeBoxDisk.SavesTakeEffect | RogueAssistantCpp/Src/Storage/HomeBoxFile.cpp:389-424 | over a primary that may be replaced, each of any number of saves of valid data takes effect and reports success, if its own calls work, whatever became of those before it |
| HomeBoxDisk.SavedKeepsPrevious | RogueAssistantCpp/Src/Storage/HomeBoxFile.cpp:399-424 | a completed save over a primary leaves the backup byte-equal to it, and that primary was valid |
| HomeBoxDisk.InvalidPrimaryIsKept | RogueAssistantCpp/Src/Storage/HomeBoxFile.cpp:399-412 | an invalid primary and the backup beside it are never changed, and the save is refused |
| HomeBoxDisk.DamageIsRecoverable | RogueAssistantCpp/Src/Storage/HomeBoxFile.cpp:310-424 | if the primary is damaged or lost after a save, the data from before that save is loaded |
| MultiplayerRules.MultiplayerIsSafe | RogueAssistantCpp/Src/Behaviours/MultiplayerBehaviour.cpp:369-521 | the main result, for host and client and all events but the one above: a pending handshake is that of a known, compatible, not yet connected peer; connected peers are compatible with an ID in range; every write is of a legal kind, from a peer that may cause it, with that player's bytes in that player's slot, and inside the multiplayer state; the connection only moves forward |
| MultiplayerRules.EventIsValid | RogueAssistantCpp/Src/Behaviours/MultiplayerBehaviour.cpp:689-741 | a network event keeps the invariant if and only if it is not a second connect, with a greeting that is sent, of the peer whose handshake is pending; no event takes anything back |
| MultiplayerRules.MessageArrivesIsValid | RogueAssistantCpp/Src/Behaviours/MultiplayerBehaviour.cpp:942-1056 | every message keeps the invariant, in every state of its sender |
| MultiplayerRules.UpdatedIsValid | RogueAssistantCpp/Src/Behaviours/MultiplayerBehaviour.cpp:369-521 | every update whose events keep the invariant keeps it, whatever the ROM shows and whichever calls are refused |
| MultiplayerRules.EitherOrder | RogueAssistantCpp/Src/Behaviours/MultiplayerBehaviour.cpp:296-337 | hello and ROM handshake lead to the same state in either order, on a host, a busy host and a client |
| MultiplayerRules.LegalWritesFit | RogueAssistantCpp/Src/Behaviours/MultiplayerBehaviour.cpp:91-167 | with a layout that passes validation, a legal write stays inside the multiplayer state |
| MultiplayerRules.SlotsAreDisjoint | RogueAssistantCpp/Src/Behaviours/MultiplayerBehaviour.cpp:1002-1052 | the slots of two players do not overlap, so a write of one slot leaves all others alone |
| MultiplayerRules.ReconnectBreaksPending | RogueAssistantCpp/Src/Behaviours/MultiplayerBehaviour.cpp:700-715 | the one event that breaks the invariant: a second connect of the peer whose handshake is pending leaves a pending peer that is not compatible |
| MultiplayerHistory.IdIsAssigned | RogueAssistantCpp/Src/Behaviours/MultiplayerBehaviour.cpp:429-470 | on a host, a peer has an ID after an update exactly if it was connected with that ID and still is, or if its handshake was pending and still is and the ROM shows that it gives it that ID, in range, and the peer can be told |
| MultiplayerHistory.RunAssigns | RogueAssistantCpp/Src/Behaviours/MultiplayerBehaviour.cpp:369-521 | in any run of a host, whoever is connected has the ID that the ROM gave it, and so had the sender of every player state that was written |
| MultiplayerHistory.HostIsAccounted | RogueAssistantCpp/Src/Behaviours/MultiplayerBehaviour.cpp:369-521 | from the opening of the host on: every player state is in the slot of the ID that the ROM gave its sender, and everything written was sent by the peer it is put down to, on the channel for it |
| MultiplayerHistory.ClientIsAccounted | RogueAssistantCpp/Src/Behaviours/MultiplayerBehaviour.cpp:898-922 | a client's ID is the one in a handshake that its host has sent, and everything written was sent by the peer it is put down to, on the channel for it |
| MultiplayerHistory.AnswerConnects | RogueAssistantCpp/Src/Behaviours/MultiplayerBehaviour.cpp:852-922 | the answer of its host connects a client that waits for it, under the ID in the answer |
| MultiplayerHistory.ClientCanConnect | RogueAssistantCpp/Src/Behaviours/MultiplayerBehaviour.cpp:369-521 | a client that is greeted, sends its handshake and gets an answer connects with the ID in it |
| MultiplayerHistory.HostCanConnect | RogueAssistantCpp/Src/Behaviours/MultiplayerBehaviour.cpp:369-521 | on a host, a peer that is greeted and sends its handshake connects with the ID that the ROM answers |
| MultiplayerHistory.WaitingIsWritten | RogueAssistantCpp/Src/Behaviours/MultiplayerBehaviour.cpp:420-427 | a handshake that waits is written at the next update at which the session takes it |
| MultiplayerHistory.StateIsWritten | RogueAssistantCpp/Src/Behaviours/MultiplayerBehaviour.cpp:1015-1033 | a host writes a connected peer's state into the slot of its ID |
| MultiplayerHistory.StatesAreWritten | RogueAssistantCpp/Src/Behaviours/MultiplayerBehaviour.cpp:1035-1050 | a client writes each other player's part of what its host has sent into that player's slot |
| MultiplayerBehaviour.MultiplayerBehaviour.Play | RogueAssistantCpp/Src/Behaviours/MultiplayerBehaviour.cpp:369-741 | a whole attachment of the object, as a host or as a client, ends in the state that the rules give for all its updates, safe in the sense of `MultiplayerIsSafe`, with the connection only moved forward, and accounted for as in the rows above |
| MultiplayerBehaviour.MultiplayerBehaviour.OnUpdate | RogueAssistantCpp/Src/Behaviours/MultiplayerBehaviour.cpp:369-521 | retries, polling, expiry and the connection's progress, in the source's order, keep the invariant, take back no write and no progress, end in the state that the rules give, and on a host give IDs only as the ROM does |
| MultiplayerBehaviour.MultiplayerBehaviour.PollConnection | RogueAssistantCpp/Src/Behaviours/MultiplayerBehaviour.cpp:689-741 | all events and then all expired peers are handled in order, each keeping the invariant |
| MultiplayerBehaviour.MultiplayerBehaviour.HandleIncomingMessage | RogueAssistantCpp/Src/Behaviours/MultiplayerBehaviour.cpp:942-1056 | a message on any channel, from a peer in any state, keeps the invariant: gameplay data is written only for connected peers, in the right direction and size |
| MultiplayerBehaviour.MultiplayerBehaviour.HandleCompatibilityHello | RogueAssistantCpp/Src/Behaviours/MultiplayerBehaviour.cpp:296-337 | a first compatible hello is noted and an early handshake then processed, any other hello rejects the peer, and the invariant is kept |
| MultiplayerBehaviour.MultiplayerBehaviour.HandleRomHandshake | RogueAssistantCpp/Src/Behaviours/MultiplayerBehaviour.cpp:826-879 | size and sender are checked, a host takes one handshake at a time, a client only the one it waits for, and the invariant is kept |
| MultiplayerBehaviour.MultiplayerBehaviour.RejectPeer | RogueAssistantCpp/Src/Behaviours/MultiplayerBehaviour.cpp:275-294 | afterwards the peer is unknown and has no handshake pending, every other peer and every write is as before, a client gives up, and a valid state stays valid |
| MultiplayerBehaviour.MultiplayerBehaviour.HandlePeerDisconnect | RogueAssistantCpp/Src/Behaviours/MultiplayerBehaviour.cpp:339-358 | the same for a peer that leaves, except that a client gives up if and only if it knew the peer |
| MultiplayerBehaviour.MultiplayerBehaviour.HandlePlayerState | RogueAssistantCpp/Src/Behaviours/MultiplayerBehaviour.cpp:1015-1050 | a host writes a client's state into that client's slot, a client the host's states into the slots of the others and never into its own |
| MultiplayerBehaviour.MultiplayerBehaviour.TrySubmitHostHandshake | RogueAssistantCpp/Src/Behaviours/MultiplayerBehaviour.cpp:881-896 | a stored handshake is kept until the session takes it and is then written exactly once, legally, for a pending peer that is known; the invariant is kept |
| MultiplayerBehaviour.MultiplayerBehaviour.TrySubmitClientHandshake | RogueAssistantCpp/Src/Behaviours/MultiplayerBehaviour.cpp:898-922 | likewise, and exactly then the client is confirmed under a player ID that the layout allows |
| MultiplayerBehaviour.MultiplayerBehaviour.TrySubmitClientPlayerProfiles | RogueAssistantCpp/Src/Behaviours/MultiplayerBehaviour.cpp:924-940 | likewise for the profiles, which are those that a connected peer has sent |
| SessionWorker.WorkerIsSafe | RogueAssistantCpp/Src/Application/SessionWorker.cpp:25-131 | over all interleavings: handled commands are a prefix of the accepted ones, at most 256 wait, revisions increase strictly, the runtime is stopped exactly once and last, and the last state is Stopped or Failed |
| SessionWorker.NothingAcceptedAfterwards | RogueAssistantCpp/Src/Application/SessionWorker.cpp:25-55 | once the flag is cleared no command is accepted |
| SessionWorker.NothingHandledAfterwards | RogueAssistantCpp/Src/Application/SessionWorker.cpp:87-120 | once the thread winds down no command is handled |
| SessionWorker.LastStateIsRight | RogueAssistantCpp/Src/Application/SessionWorker.cpp:57-120 | what is published is Running, then Stopping, then one last state, which is Failed if and only if a call into the runtime threw |
| SessionWorker.StopIsReached | RogueAssistantCpp/Src/Application/SessionWorker.cpp:48-120 | after a request to stop, the thread's remaining steps decrease to its end, and no caller can add to them |
| SessionWorker.NextIsValid | RogueAssistantCpp/Src/Application/SessionWorker.cpp:25-131 | every step of a caller or of the thread keeps the invariant |
| SessionWorker.SessionWorker.TestFlag | RogueAssistantCpp/Src/Application/SessionWorker.cpp:25-28 | the first half of `Submit`, before the lock |
| SessionWorker.SessionWorker.PushLocked | RogueAssistantCpp/Src/Application/SessionWorker.cpp:29-40 | the second half, under the lock: accepted if and only if the flag still stands and the queue has room |
| SessionWorker.SessionWorker.Advance | RogueAssistantCpp/Src/Application/SessionWorker.cpp:57-120 | the thread's code makes exactly the steps of the model |

## Left out

- BridgeRun.BridgeIsSequential: requests that the transport answers at once, because they fail its validation, are not part of these runs; `TcpLuaTransport.TcpLuaTransport.Submit` and `GameSession.GameSession.Submit` cover them.
- BridgeRun.CalmBridge: the script's decoder is assumed not to overflow; its queue of 256 frames can overflow when the greeting and 256 requests arrive in one chunk, after which the main result still holds.
- TcpLuaTransport.TcpLuaTransport.constructor: a listener that cannot be opened, which is an exception in the source, is not modelled here but in `ChangeBridgePort`.
- TcpLuaTransport.TcpLuaTransport.AcceptClients: what further arrivals are told, that the app is busy, is not modelled.
- ConnectionManager.GameConnectionManager.UpdateGame: behaviours are a list of calls; attaching and detaching them and the update timer are not modelled.
- MultiplayerBehaviour.MultiplayerBehaviour.HandleCompatibilityHello: whether a hello decodes and is compatible is a parameter.
- MultiplayerBehaviour.MultiplayerBehaviour.OnUpdate: the attempt to open a connection is a step of its own, and the broadcasts of a connected peer, which change none of these fields, are not modelled.
- TcpLuaTransport.TcpLuaTransport.Stop: sends at most a prefix of a close frame; that the script decodes it is not claimed, because a frame that was partly sent before is cut off.
- TcpLuaTransport.TcpLuaTransport.ReceiveClient: the result depends on the chunks, because on a malformed frame the good frames before it in the same chunk are not processed; independence of the chunks is proved for the decoders.
- MultiplayerRules.MultiplayerIsSafe: excludes the one event that `EventIsValid` names; that player IDs of different peers differ is up to the ROM, and that the ROM's handshake state is fresh when the host reads it is not assumed.
- HomeBoxBehaviour.HomeBoxBehaviour.Play: the layout and the storage pointer are fixed, the game changes only the order table, and a write is acknowledged only after it was applied.
- HomeBoxBehaviour.HomeBoxBehaviour.SendInitialData: the metadata of the minimal boxes and the request flag that are written to the ROM are not modelled; only whether those writes are taken is.
- HomeBoxDisk.HomeBoxStore.SaveHomeBoxFile: replacing one file is atomic; the temporary file and the flushing behind that are not modelled.
- SessionWorker.WorkerIsSafe: steps are sequentially consistent, and revisions do not wrap at 2^64.
- A game connection is its session: it is disconnected exactly when the session is stopped.
- Completions are finite trees of calls into the session; a completion that depends on data other than whether its request worked is outside the model.
- In multiplayer a write that is refused because the connection is lost is a refused write, followed by the disconnect as an event of its own.
- Peers that are told that the app is busy, or that are closing after they were replaced, are not modelled: no request concerns them.
- Clocks: deadlines, retry intervals and the 50 ms flush are arbitrary choices of the environment.
- The compatibility hello's own codec, address and port parsing, ENet channels, broadcasts to peers and the player's name are not modelled; a hello is compatible or not.
- The script's `receiveAvailable` and `onFrame`, which call what `LuaBridge` has: bytes arrive in pieces of any size, and turns in any order.
- Sockets, mGBA's callbacks, the reconnect timer, logging, file paths, settings, the user interface and the import of older saves are not part of this model.
