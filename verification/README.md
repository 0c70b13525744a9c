# A verified model of the HTTP tracer

The tracer captures the bytes of socket calls in the kernel, hands them to user space as events,
and puts HTTP conversations together from them. These Dafny modules model its state machines
and prove what the rest of the system relies on:

- **Reassembly of one session** (`HttpTokens`, `HttpParsing`, `Drain`, `Session`, `Reassembly`, `Emitted`,
  `BodyLimit`, `Routing`, `Accounting`, `Provenance`, `SessionKeys`, `World`, `Worker`). Chunks are routed to
  two byte buffers, the buffers are resynchronised on method and status tokens, parsed, and paired first in
  first out. The central result is that the pairs depend on the two byte streams only, not on chunks
  or interleaving (`Reassembly.Confluence`); `Routing` says for which bytes as written that is enough.
  `Worker` holds the objects whose fields the source
  updates in place; its methods are proved against the value model the other theorems speak about.
- **The capture binary's variant** (`Http2`, `Capture`, `TlsSwitch`, `H2Sessions`,
  `CaptureReassembly`, `Cuts`, `HeldRuns`, `HeldBack`, `HeldFronts`, `ModeChange`, `CaptureEmitted`,
  `CaptureWorker`): the one-way switch to TLS plaintext, HTTP/2 by re-parsing growing buffers, and the
  hold-off while a buffer may still become the HTTP/2 preface, with the exact streams on which it changes what is said.
- **Kernel bookkeeping** (`Kernel`, `Handlers`, `LateReads`, `Chunks`): generations, sequence numbers,
  socket tuples and calls in flight as a state machine with one step a handler, what each handler writes
  and lets through, and the arithmetic that splits a buffer into events.
- **Delivery** (`Base64`, `DiskSpool`, `Delivery`, `Reports`, `Producer`): the bounded queue with its four
  modes, the circuit breaker, the spool file down to its bytes, replay and the shutdown drain.
  `Delivery` is the protocol over all interleavings, `Producer` and `DiskSpool` the objects; every method
  of the producer is proved to be a run of the protocol.
- **Two fast structures against a simple form** (`ProcessTree`, `FlowFilter`): the two process-tree
  discoverers, the refresh of the kernel's target map, and the flow decision cache.

What the code calls and the model does not contain is a parameter. `HttpParsing.Library` is the HTTP
message parser. The theorems about runs on two streams assume `Reassembly.KeepsStreams` of it: a message
that the loops recognise in a part of these streams begins with a token and is recognised the same once the
bytes after that part are there. Nothing is assumed on other bytes, so a parser may have a body limit or
accept methods that are not listed; what counts is that these streams hold no such message. `BodyLimit` shows
for the source's limited reader that this is exactly where chunks begin to matter: a body over the limit is
reported complete before it has arrived, and how much of it is swallowed depends on the chunks.
`Http2.Codec` accepts frames, strips padding and decompresses headers; `DiskSpool.Json` writes and
reads a record. For the first and the last a small concrete stand-in shows that the contract can be met.
Clocks, file-system outcomes, ring-buffer space and the order of map iteration are inputs. `Wrappers`
and `Words` hold the few shared types.

Where the code does not do what one might expect, the model follows the code and says exactly when:

- `Routing.NothingStraysIff`, `Routing.WholeStreamStaysIff`: routing looks at each chunk alone, so chunk
  independence holds of the bytes as written exactly when no token of the other side stands in them and
  no eight of them look like a counter; `Routing.RoutingDependsOnChunks` is an instance.
- `HeldBack.DecidedIff`, `HeldBack.ClosedDecidedIff`: while the request buffer may become the HTTP/2
  preface nothing is answered, not even when the session is closed, so captures of the same streams can
  differ; the theorems give the streams on which they do, and `HeldBack.OneByteHoldsBack` two such captures,
  one byte apart: the P of the next POST is enough.
- `TlsSwitch.LossSurvivesSwitch`, `TlsSwitch.IgnoredCiphertextIsAGap`: the switch to plaintext resets
  buffers but not the loss record, and ciphertext passed over later looks like lost events.
- `LateReads.LateEventsWereCutShort`: a read that is in flight when its descriptor is closed is stamped with
  the old generation but a number of the new one, so its stamp can repeat (`LateReads.LateReadRepeatsStamp`).
- `BodyLimit.ChunksAgreeIffWithin`: a request body over the limit makes the outcome depend on the chunks.
- `ModeChange.ModeIff`, `ModeChange.ModeDependsOnChunks`: a preface in the middle of a request stream changes
  the mode only in those chunkings that leave it at the front of the buffer.
- `HeldFronts.PhantomRequest`: the last 16 of the first 18 bytes of the preface read "I * HTTP/2.0" and a blank
  line, which net/http takes for a request. The loop trims to just these bytes when they come in one chunk with the
  request before them, and then waits for a response to a request that nobody sent.
- `Chunks.PlanWrite`, `Chunks.PlanWritev`: lengths of 2^32 and more are narrowed before anything is
  compared, so such a write can look whole.
- `DiskSpool.ReadJoin`: one record too long for the scanner blocks every replay of the spool.
- `DiskSpool.Spool.DrainAll`: a file holding only empty values is not emptied.
- `ProcessTree.DiscoverersAgreeIffNear`: beyond 1023 hops the walk depends on the map's order.
- `ProcessTree.TargetManager.Refresh`: a pid put before a failed put, or whose delete failed, is unknown
  to the manager and is never taken out of the kernel's map again unless it becomes a target.

The repository's README speaks of up to four payload chunks per system call; a vectored call emits up
to six events (`bpf/tracer.bpf.c`, `MAX_IOVEC_SEGMENTS`), and an event carries at most 4095 bytes. The
model follows the code.

`dafny verify dfyconfig.toml` checks everything.

## Model

| member | source | states |
|---|---|---|
| HttpTokens.EarliestMethodIndex | cmd/worker/processing.go:197-206 | the least hit over nine separate searches is the first position where any method token stands |
| HttpTokens.Sync | cmd/worker/processing.go:208-240 | what is kept is a suffix of the buffer, and the count is exactly what was cut off its front |
| HttpTokens.MethodsAreSyncSafe | cmd/worker/processing.go:185-195 | no method token ends strictly inside another and each fits the probe window of 16 bytes |
| HttpTokens.SyncHomomorphism | cmd/worker/processing.go:208-240 | resynchronising early and again after more bytes leaves the bytes of resynchronising once at the end, and the dropped counts add up |
| HttpTokens.SyncIdempotent | cmd/worker/processing.go:208-240 | a resynchronised buffer is left alone |
| HttpTokens.SyncIs | cmd/worker/processing.go:208-240 | a buffer that holds a token is cut to its first one, wherever that stands; of one that holds none the last 16 bytes stay |
| HttpTokens.ClassifyIs | cmd/worker/processing.go:171-183 | a chunk is a request exactly when a method token stands in it with no status token before it or at the same place, whatever bytes come first; a response exactly when a status token stands in it with no method token before it; of unknown kind exactly when it holds no token |
| HttpTokens.TokensAreSpelled | cmd/worker/processing.go:185-195 | the tokens, as text |
| HttpParsing.ParseOneRequest | cmd/worker/processing.go:315-338 | a request that is recognised consumes at least one byte and at most the buffer, whatever the library says |
| HttpParsing.ParseOneResponse | cmd/worker/processing.go:340-370 | the same for responses, whether or not the connection has ended |
| HttpParsing.RequestsAreRead | cmd/worker/processing.go:315-338 | a request is recognised exactly when the library read it to the end of its body and used up at least one byte, which is what is consumed |
| HttpParsing.ResponsesWaitForTheirEnd | cmd/worker/processing.go:340-412 | a response is recognised exactly when the library read it so and, while the connection is open, it answers a HEAD, has status 1xx, 204 or 304, has a length or is chunked; any other waits for the close |
| HttpParsing.HeadersOnlyIsStable | cmd/worker/processing.go:315-370 | the prefix stability asked of the library is met by a concrete framing, so the theorems that assume it are not empty |
| Drain.Loop | cmd/worker/processing.go:245-272 | the request loop ends, and every byte is trimmed, consumed or kept |
| Drain.AnswerLoopCounts | cmd/worker/processing.go:274-295 | the response loop loses no byte and answers a prefix of the waiting requests, leaving the others in order |
| Drain.LoopInOrder | cmd/worker/processing.go:245-272 | the request loop reads its messages one after another: each is what a turn finds where the one before it has ended, until a turn finds none |
| Drain.AnswersInOrder | cmd/worker/processing.go:274-295 | the response loop does the same, the k-th as the answer to the k-th request that waits, until no request waits or a turn finds none |
| Drain.LoopComposes | cmd/worker/processing.go:245-272 | draining now and the rest with later bytes is draining all of them once, when every turn on the early bytes finds again with the later ones what it has found |
| Drain.AnswerLoopComposes | cmd/worker/processing.go:274-295 | the same for answers, with more bytes and more waiting requests arriving in between |
| Reassembly.EngineOfIsStable | cmd/worker/processing.go:208-240 | the loops of the source find again what they have found, wherever two streams are cut, when the library keeps what it has recognised in the buffers the loops hand it from those streams; nothing is asked of it on other bytes |
| Reassembly.StableKeeps | cmd/worker/processing.go:315-370 | a library that keeps what it has recognised in any buffer meets that on any streams |
| BodyLimit.LimitMeetsCondition | cmd/worker/processing.go:414-445 | with the source's limited reader, streams in which no request goes over the body limit meet it |
| BodyLimit.ChunksAgreeIffWithin | cmd/worker/processing.go:414-445 | the exact condition for that reader: all captures of every part of a stream leave the same buffer and waiting requests exactly when no request in it is over the limit by two bytes or more that are there |
| Reassembly.RunIsDrainOfStreams | cmd/worker/processing.go:242-298 | a run without overflow leaves exactly the buffers and waiting requests, and has emitted exactly the pairs, of draining the two routed streams once, for loops that are stable on these two streams |
| Reassembly.Confluence | cmd/worker/processing.go:242-298 | two runs that route the same bytes, in any chunks and any interleaving, emit the same pairs, leave the same buffers and waiting requests, and agree on the flush at close |
| Reassembly.SourceConfluence | cmd/worker/processing.go:242-298 | the same for the source's own tokens and parse rules around any library that keeps, in these streams, what it has recognised |
| Reassembly.SecondDrainDoesNothing | cmd/worker/processing.go:242-298 | draining again with the same flag changes no buffer, no waiting request and no output |
| Reassembly.SourceSecondDrain | cmd/worker/processing.go:242-298 | the same for the source's tokens and parse rules around any library at all |
| Emitted.EmittedWasRead | cmd/worker/processing.go:242-298 | over any run around any library, overflow included: both messages of every conversation were read to their ends from a piece of the bytes routed to their side, and before the closing flush the end of every response could be told without the close |
| Emitted.CloseDelimitedWaits | cmd/worker/processing.go:274-298 | a response that only the end of the connection delimits is left in its buffer by every drain, and emitted whole, to the request that waits, by the drain of the closing flush |
| Emitted.CloseSaysIt | cmd/worker/processing.go:134-151 | so the close event of its session, or its expiry, says it and forgets the session |
| Routing.NothingStraysIff | cmd/worker/processing.go:79-88 | of a stream as written no byte is ever taken for a request, in any chunks, exactly when no method token stands anywhere in it; of a stream as read none for a response exactly when no status token does |
| Routing.WholeStreamStaysIff | cmd/worker/processing.go:41-88 | the whole stream reaches its own side in every chunking exactly when, besides, no eight bytes of it look like a counter |
| Routing.RoutingDependsOnChunks | cmd/worker/processing.go:79-88 | an instance: a body that starts with a method token goes to the response side with its head, and to the request side as a chunk of its own |
| Accounting.LedgerBalances | cmd/worker/processing.go:90-132 | over any run and any parser: routed bytes are trimmed, consumed, cleared or buffered on each side, the drop counters count the trimmed ones, parsed requests are emitted, waiting or cleared |
| Accounting.BuffersStayBounded | cmd/worker/processing.go:90-108 | both buffers stay within the limit after every event |
| Accounting.ShortStreamsDoNotOverflow | cmd/worker/processing.go:90-108 | streams within the limit overflow nothing |
| Accounting.AnswersGoInOrder | cmd/worker/processing.go:274-295 | since the waiting list was last cleared the k-th response parsed went to the k-th request parsed |
| Accounting.FlushAnswersInOrder | cmd/worker/processing.go:134-151 | the closing flush continues that order: nothing answered twice or out of turn |
| Accounting.GapFlagMeansJump | cmd/worker/processing.go:60-77 | LastSeq is the largest number taken in, and the gap flag is up exactly when some number jumped over the successor of the largest before it |
| Accounting.GapFlagMeansMissing | cmd/worker/processing.go:60-77 | for increasing numbers the flag is up exactly when one between the first and the last is missing |
| Accounting.GapFlagIsNeverCleared | cmd/worker/processing.go:60-77 | once up, the gap flag stays up |
| Provenance.GapRecordIsTheLastJump | cmd/worker/processing.go:62-67 | what the record of a gap names is the number that was expected at the last jump, and the one that came instead |
| Provenance.EmittedLossIsTheSessions | cmd/worker/processing.go:289-313 | whatever was merged, a conversation states exactly the loss its session knew of when it was emitted |
| Provenance.TruncationIsTheLast | cmd/worker/processing.go:68-73 | the truncation stated is that of the last truncated event, and there is none without such an event |
| Provenance.MetadataIsTheFirst | cmd/worker/processing.go:153-169 | connection and process are, whole, those of the first event that names them |
| Provenance.ContainerIsTheFirst | cmd/worker/processing.go:166-168 | the container is that of the first event naming one |
| Provenance.CaptureIsTheFirst | cmd/worker/processing.go:154-159 | so are capture source and capture mode, each by itself |
| Provenance.MetadataIsTheRequests | cmd/worker/processing.go:259-269 | a conversation names what its session knew when its request was found, not what it learnt before the answer came |
| SessionKeys.PidFdKeysAreDistinct | cmd/worker/processing.go:18-26 | distinct pid, descriptor and generation give distinct keys |
| SessionKeys.ConnKeysAreDistinct | cmd/worker/processing.go:22-24 | connection keys are injective when the protocol has no colon and the source address no hyphen, whatever the ports, negative ones included |
| SessionKeys.KeyNamesIdentity | cmd/worker/processing.go:18-26 | two events share a key exactly when they mean the same descriptor or the same connection |
| SessionKeys.HyphenMakesKeysCollide | cmd/worker/processing.go:22-24 | without that condition two different connections share a key |
| SessionKeys.ByDescriptorIff | cmd/worker/processing.go:18-26 | the key is by descriptor exactly when the event is from the kernel's probes and has one, or its connection is not known in full |
| SessionKeys.DescriptorKeepsItsSession | cmd/worker/processing.go:18-26 | events of one descriptor share a session exactly within a generation, also when their connection becomes known half-way |
| SessionKeys.PidFdKeyIsSpelled | cmd/worker/processing.go:19-21 | the text of a key by descriptor |
| SessionKeys.ConnKeyIsSpelled | cmd/worker/processing.go:22-24 | the text of a key by connection |
| World.SessionsAreIsolated | cmd/worker/processing.go:54-58 | the session under a key and everything said under it are decided by that key's own events, over any run of arrivals, closes and expiries |
| World.FinishAllSessions | cmd/worker/store.go:40-63 | finishing some sessions leaves all others as they are |
| Worker.StreamState.ParseRequests | cmd/worker/processing.go:245-272 | the request loop on the session's fields is the loop function |
| Worker.StreamState.ParseResponses | cmd/worker/processing.go:274-295 | the response loop on the session's fields answers the oldest waiting requests with the loop function's messages |
| Worker.StreamState.DrainParsedConversations | cmd/worker/processing.go:242-298 | buffers, waiting requests, counters and conversations become what the value model says |
| Worker.StreamState.TrackSequence | cmd/worker/processing.go:62-77 | gap, truncation and LastSeq become what the value model says |
| Worker.StreamState.AppendPayload | cmd/worker/processing.go:90-108 | append, or on overflow drop that buffer and the waiting requests |
| Worker.StreamState.ProcessPayload | cmd/worker/processing.go:60-132 | one data event on a session is one step of the value model |
| Worker.SessionStore.GetOrCreate | cmd/worker/store.go:12-23 | an existing session unchanged, or a fresh one filed under the key; a new one counts as active now, and no other is replaced |
| Worker.SessionStore.HandleClose | cmd/worker/processing.go:134-151 | a close flushes an existing session once, forgets it and counts it |
| Worker.SessionStore.CleanupExpired | cmd/worker/store.go:40-63 | exactly the idle sessions are forgotten and each flushed once, in some order; the others stay |
| Worker.SessionStore.ProcessEvent | cmd/worker/processing.go:28-132 | the store and the output after an event are the value model's; a session that takes something in is active at that moment and no other becomes so, and what is dropped is counted by its reason |
| Session.PayloadIsFront | cmd/worker/processing.go:45-49 | what is taken of an event is the front of its payload, as long as its size says or as there is |
| Session.NoiseIsACounter | cmd/worker/output.go:227-240 | only a little-endian 1 or 2 of eight bytes, alone in its chunk, is dropped as a counter |
| Session.TakenInIff | cmd/worker/processing.go:34-53 | events are taken in exactly when they are data, bring bytes and are no counter |
| Http2.FramesOfWire | cmd/karaxys-capture/h2.go:65-80 | the reader gives back the frames a sender wrote (section 4.1 of RFC 9113), whatever part of a frame follows |
| Http2.FrameIsItsBytes | cmd/karaxys-capture/h2.go:65-80 | a header frame from its bytes: length, type, flags, reserved bit and stream, highest byte first (section 4.1 of RFC 9113) |
| Http2.LongFrameEndsReading | cmd/karaxys-capture/h2.go:67-67 | a frame of more than 2^20 bytes ends the reading |
| Http2.EndStreamIsItsFlag | cmd/karaxys-capture/h2.go:113-140 | of the flags of HEADERS and DATA only END_STREAM ends a stream, whichever others are set (sections 6.1 and 6.2 of RFC 9113) |
| Http2.FramesGrow | cmd/karaxys-capture/h2.go:65-80 | frames parsed from a prefix are a prefix of the frames parsed later |
| Http2.SideIsOwnFrames | cmd/karaxys-capture/h2.go:95-141 | a stream's side is the fields of its decodable HEADERS and the bytes of its DATA in order, done exactly when one of them ended it |
| Http2.DoneStaysDone | cmd/karaxys-capture/h2.go:113-140 | a side that is done stays done, and in well-formed frames its content is final |
| Http2.CompleteGrows | cmd/karaxys-capture/h2.go:39-51 | complete streams stay complete as bytes arrive, and on well-formed streams keep their contents |
| Http2.CompleteIsOwnFrames | cmd/karaxys-capture/h2.go:39-62 | a stream is complete exactly when a frame of each buffer ends it; its request is then the fields and bytes its frames of the request buffer carry, and its response those of the response buffer |
| Http2.ExchangeOnTheWire | cmd/karaxys-capture/h2.go:65-149 | an instance from the bytes: a request in one HEADERS frame, its response in HEADERS and two DATA frames, complete with the last and not before |
| Http2.DecoderRemembers | cmd/karaxys-capture/h2.go:69-100 | the header decoder is one for the whole buffer, and the fields of a stream's header blocks follow each other |
| Http2.UndecodedChangesNothing | cmd/karaxys-capture/h2.go:96-100 | a header block that does not decode leaves its stream as it was, even when its frame ends it |
| Http2.LateDataChangesContent | cmd/karaxys-capture/h2.go:129-141 | without well-formedness DATA after the end changes the content of a complete stream |
| Http2.ParseFrames | cmd/karaxys-capture/h2.go:65-149 | one pass over a buffer updates one side of the streams map to what the frame functions say |
| Capture.ProcessIsOnContents | cmd/karaxys-capture/process.go:33-150 | what a session holds and emits does not depend on metadata, sequence numbers or loss |
| Capture.CandidateIff | cmd/karaxys-capture/process.go:165-173 | a buffer may still become the preface exactly when it is a start of it, the empty one left aside, or begins with it |
| Capture.PrefaceIsSpelled | cmd/karaxys-capture/h2.go:15-15 | the preface, as text (section 3.4 of RFC 9113) |
| CaptureEmitted.CapturedWasRead | cmd/karaxys-capture/process.go:152-192 | as for the worker, both messages of every HTTP/1 pair were read to their ends from a piece of their side's stream, with the responses that wait for the close |
| CaptureEmitted.ProcessSaysMore | cmd/karaxys-capture/h2.go:143-190 | every HTTP/2 batch states the metadata and the loss its session has at that moment, and what was said earlier stays |
| CaptureEmitted.ParsedIsSaid | cmd/karaxys-capture/process.go:146-150 | what counts as parsed is the HTTP/1 pairs and the HTTP/2 streams said |
| TlsSwitch.OnlyPlaintextAfterSwitch | cmd/karaxys-capture/process.go:66-80 | from the first plaintext event on the flag stays up, and buffers, waiting requests, HTTP/2 state and all output since are those of a run on the plaintext events alone, also at close |
| TlsSwitch.RunIsCounted | cmd/karaxys-capture/process.go:66-80 | any session is a session of one kind of chunks, those that count, after what was said before its switch |
| TlsSwitch.SslMeansPlaintextSeen | cmd/karaxys-capture/process.go:69-77 | the flag is up exactly when a plaintext event has been taken in |
| TlsSwitch.LossSurvivesSwitch | cmd/karaxys-capture/process.go:88-93 | the loss record is not reset: truncated exactly when some event not ignored was, ciphertext before the switch included |
| TlsSwitch.CaptureGapMeansJump | cmd/karaxys-capture/process.go:78-97 | the gap flag is up exactly when a number looked at jumped over the successor of the largest looked at before; ignored events are not looked at |
| TlsSwitch.IgnoredCiphertextIsAGap | cmd/karaxys-capture/process.go:78-97 | for increasing numbers the flag is up exactly when one between the first and last looked at is missing among them; with no number of the connection missing, exactly when an ignored event lies in between |
| H2Sessions.SessionPreface | cmd/karaxys-capture/process.go:130-173 | in any session, ciphertext or not, however the preface of the request side is split: nothing is trimmed before the mode changes, and it changes with the event that brings the 24th byte |
| ModeChange.ResponsePrefaceSplits | cmd/karaxys-capture/process.go:130-134 | the same for a preface on the response side while the request side holds no request |
| ModeChange.PrefaceChangesMode | cmd/karaxys-capture/process.go:130-134 | a preface inside the request stream: whenever some part of that stream can be drained so that the preface is left in front, some capture changes to HTTP/2, whatever the responses are; of the library it is asked only that it keeps what it has recognised in that part |
| ModeChange.UpgradeChangesMode | cmd/karaxys-capture/process.go:130-134 | an upgrade: requests that the loop takes out to their last byte, then the preface, then anything |
| ModeChange.NoPrefaceNoChange | cmd/karaxys-capture/process.go:130-134 | without the preface in the bytes that count no session changes its mode, whatever the loops, with overflow and the switch to plaintext included |
| ModeChange.ModeIff | cmd/karaxys-capture/process.go:130-134 | exactly when such a part exists some capture changes its mode, for a library that keeps what it has recognised in the part before a preface, or, where there is none, in the two streams |
| ModeChange.ModeDependsOnChunks | cmd/karaxys-capture/process.go:130-134 | an instance: a request and then the preface change the mode as two chunks and do not as one |
| H2Sessions.NoStreamTwice | cmd/karaxys-capture/h2.go:47-62 | in any session at all no stream is emitted twice before the switch to plaintext, nor twice after it |
| H2Sessions.EmittedIsComplete | cmd/karaxys-capture/h2.go:31-63 | in HTTP/2 mode, entered by either side, at the first byte or after HTTP/1 traffic: what has been emitted is exactly what is complete in the buffers, with its content |
| H2Sessions.SessionEmitsComplete | cmd/karaxys-capture/h2.go:31-63 | the same for what any session has emitted since its switch |
| H2Sessions.ContinuationsAgree | cmd/karaxys-capture/h2.go:31-149 | from any state in HTTP/2 mode, two continuations with the same two streams end with the same buffers and have emitted the same streams with the same contents, each once |
| H2Sessions.SessionChunksDoNotMatter | cmd/karaxys-capture/h2.go:31-149 | two sessions whose counting events bring the same two streams, preface first, emit the same streams with the same contents, whatever the chunks and the ciphertext |
| CaptureReassembly.DrainNowComposes | cmd/karaxys-capture/process.go:272-331 | draining now and again after more bytes is draining once, also when some drains are skipped |
| CaptureReassembly.Http1RunIsDrainOfStreams | cmd/karaxys-capture/process.go:152-173 | what an HTTP/1 session holds, drained once more, is the drain of the two whole streams, and it is drained already unless the request buffer could still become the preface |
| Cuts.SourceIsGood | cmd/karaxys-capture/process.go:242-255 | in every start of the preface that some cut of a stream leaves, the source's request loop finds nothing and keeps the last 16 bytes, when the library keeps what it has recognised in that stream |
| Cuts.NowhereMeansNever | cmd/karaxys-capture/process.go:130-134 | two streams without the preface anywhere have no cut that leaves it in front |
| Cuts.CanBeHeldIff | cmd/karaxys-capture/process.go:165-173 | a request stream can be held back exactly when draining it leaves the start of a preface, up to 16 bytes, or did so up to seven bytes before its end and those bytes only continue the preface |
| HeldBack.HeldIff | cmd/karaxys-capture/process.go:152-173 | some capture of two streams ends held back exactly when the request stream can be; every capture does exactly when the stream is the start of a preface or leaves one |
| HeldBack.UnheldStreamsAgree | cmd/karaxys-capture/process.go:152-173 | confluence: a request stream that cannot be held back leaves and says in every capture what draining the two whole streams once does, and the same on the flush at close |
| HeldBack.DecidedIff | cmd/karaxys-capture/process.go:152-173 | all captures of the same two streams say the same pairs exactly when the request stream cannot be held back, or no answer is due |
| HeldBack.ClosedDecidedIff | cmd/karaxys-capture/process.go:175-192 | after the flush at close they say the same exactly when the stream cannot be held back, or no answer is due before the close and, unless it is held back always, none at the close |
| HeldFronts.HeldWhateverFollows | cmd/karaxys-capture/process.go:152-173 | if a part of the request stream can be drained so that only the start of the preface is left behind it, some capture ends held back, with nothing said, not even at close; of the library it is asked only that it keeps what it has recognised in that part |
| HeldFronts.AnsweredFrontIsUndecided | cmd/karaxys-capture/process.go:152-192 | if an answer is due in that part, captures of the same two streams differ in what they say, before the close and after it, whatever the library makes of the start of the preface |
| HeldFronts.PhantomIsNotKept | cmd/karaxys-capture/process.go:242-255 | a library that reads the last 16 of the first 18 bytes of the preface as a request keeps no stream of which some part leaves the first 16 bytes and at least two more follow |
| HeldFronts.PhantomRequest | cmd/karaxys-capture/process.go:152-173 | an instance: a request and 18 bytes of the preface leave two waiting requests as one chunk, the second sent by nobody; as two chunks they leave one, and the 18 bytes are held back |
| HeldBack.OneByteHoldsBack | cmd/karaxys-capture/process.go:152-173 | a request, one byte P of the next, and the response say nothing, not even at close; without that byte the pair is said |
| HeldBack.SaidAcrossSwitch | cmd/karaxys-capture/process.go:66-80 | any session says what was said before its switch and then what its counting events say, so these conditions decide every session |
| CaptureWorker.CaptureState.EmitComplete | cmd/karaxys-capture/h2.go:47-62 | the loop over the streams map, in any order, emits each newly complete stream once, its request from the request side and its response from the response side |
| CaptureWorker.CaptureState.DrainStreams | cmd/karaxys-capture/h2.go:31-63 | drainH2 on the session's fields is the value model's drain; what is sent is exactly the streams ended on both sides and not sent before, each with what the request buffer carries as its request and the response buffer as its response |
| CaptureWorker.CaptureState.DrainStream | cmd/karaxys-capture/process.go:152-163 | the three-way drain on the session's fields is the value model's |
| CaptureWorker.CaptureState.ProcessPayload | cmd/karaxys-capture/process.go:63-150 | one data event on a capture session is one step of the value model |
| Kernel.FdKey | bpf/tracer.bpf.c:563-565 | the packed key gives back pid and descriptor |
| Kernel.StampsNeverRepeat | bpf/tracer.bpf.c:567-599 | over any interleaving, stamps of events with the then-current generation increase strictly on every descriptor, and only a read is ever stamped with an older one |
| LateReads.LateEventsWereCutShort | bpf/tracer.bpf.c:994-1029 | every event with an older generation is of a read that its own thread entered in that generation, and that was still in flight when a traced close of exactly that descriptor ended it |
| LateReads.StampsAreUnique | bpf/tracer.bpf.c:567-599 | on a descriptor that no traced close has caught with a read in flight all stamps are distinct and increase |
| Kernel.CloseStartsAfresh | bpf/tracer.bpf.c:1409-1431 | a traced close starts a generation at number 0, newer than every event and tuple there is, so without a tuple |
| Kernel.TuplesAreNotAhead | bpf/tracer.bpf.c:482-518 | with user-space writes too, no tuple is filed under a generation that has not begun |
| Kernel.KernelTuplesAreCurrent | bpf/tracer.bpf.c:1049-1175 | kernel steps alone keep tuples of present generations only |
| Kernel.AcceptedSocketIsDescribed | bpf/tracer.bpf.c:1144-1175 | an accepted socket gets the listener's local port and the peer's port under its own generation, and no other tuple changes |
| Handlers.KeptOutChangesNothing | bpf/tracer.bpf.c:294-362 | a call of a process that is not traced, on a standard stream that is not captured, in a direction switched off, or with an address that cannot be read leaves no trace |
| Handlers.BindSaysLocal | bpf/tracer.bpf.c:1049-1073 | a bind files the socket's own port and the role inbound, leaves the remote half and every other tuple, and says nothing |
| Handlers.ConnectSaysPeer | bpf/tracer.bpf.c:1075-1099 | a connect files the peer's port as the remote one and the role outbound, leaves the local half and every other tuple, and says one event when there is room |
| Handlers.AcceptSaysBoth | bpf/tracer.bpf.c:1505-1525 | an accept describes its socket from what is known, the listener's port as the local one and the peer's as the remote one, leaves the rest, and says one event when there is room; a failed accept only forgets its call |
| Handlers.EntersAreRemembered | bpf/tracer.bpf.c:1101-1108 | the begin of an accept or of a TLS call is remembered for its thread and says nothing |
| Handlers.WriteSays | bpf/tracer.bpf.c:632-697 | a write says its chunks on its own descriptor under the present generation, if writes are on and its ports are allowed; each chunk with room takes the next number, so one that is lost after that leaves a hole |
| Handlers.ReadEnterSays | bpf/tracer.bpf.c:1294-1318 | a read is remembered with its descriptor and the generation of the moment exactly when its ports are allowed |
| Handlers.ReadExitSays | bpf/tracer.bpf.c:994-1029 | the end of a read says its chunks on the descriptor and under the generation it was entered with, nothing when it failed or reads are off, and forgets it |
| Handlers.CloseSays | bpf/tracer.bpf.c:1409-1431 | a close says so once, if there is room and its ports are allowed, under the generation it ends, and takes exactly that tuple away |
| Handlers.SslExitSays | bpf/tracer.bpf.c:1563-1598 | the end of a TLS call says its chunks on the descriptor its thread used last, under the present generation |
| Handlers.OthersLeaveIt | bpf/tracer.bpf.c:454-457 | what is remembered for a thread is changed by its own calls only |
| Handlers.PlaintextFollowsItsThread | bpf/tracer.bpf.c:1549-1598 | plaintext is filed under the descriptor that its thread has written to or begun to read from last, whatever other threads and user space do in between |
| Handlers.UserSpaceWrites | cmd/agent/main.go:487-517 | user space writes back the tuple of exactly the descriptor and generation of an event |
| Handlers.LoggedWasLetThrough | bpf/tracer.bpf.c:294-480 | over every run, each event was said in a call of its own thread that every filter let through at that moment: process traced, descriptor captured, direction on, and no ignored port nor, with both ends known, a missing target port |
| LateReads.LateReadRepeatsStamp | bpf/tracer.bpf.c:994-1029 | such a read can repeat the stamp of an earlier event |
| Chunks.EffectiveMax | bpf/tracer.bpf.c:333-339 | the limit is positive, at most four chunks, and the setting whenever that is in range; one chunk without a setting, and all four for zero and for anything larger |
| Chunks.Clamp | bpf/tracer.bpf.c:625-630 | an event carries the lesser of its length and 4095 bytes |
| Chunks.PlanChunks | bpf/tracer.bpf.c:699-749 | at most four pieces tile the captured part without gap or overlap, numbered from 0 and counted |
| Chunks.UnmarkedIsWhole | cmd/agent/main.go:1002-1011 | an event is marked exactly when it carries less than the call moved; one without the mark is the only one of its call and holds all of it |
| Chunks.PlanWrite | bpf/tracer.bpf.c:751-753 | the 64-bit length of a write is narrowed: an unmarked event holds the whole buffer exactly when the length is below 2^32 |
| Chunks.PlanRead | bpf/tracer.bpf.c:1006-1025 | a read's events cover the copied part and are marked exactly when they carry less than was read |
| Chunks.SpreadSum | bpf/tracer.bpf.c:926-947 | segment lengths add up to the bytes read, as far as the usable entries reach |
| Chunks.SpreadFillsInOrder | bpf/tracer.bpf.c:926-947 | what is read fills the usable entries in order, each whole but the last |
| Chunks.Capped | bpf/tracer.bpf.c:920-925 | the entries looked at are the first six, or all if there are fewer |
| Chunks.UsableIff | bpf/tracer.bpf.c:755-771 | an entry gives an event exactly when it can be read, has a base and is not empty |
| Chunks.PlanReadv | bpf/tracer.bpf.c:920-992 | both passes agree: indices 0 to count less one, lengths that spread the bytes read, and no narrowing that loses a bit |
| Chunks.PlanWritev | bpf/tracer.bpf.c:800-861 | one event a usable entry, in order; here a length of 2^32 or more loses bits |
| Base64.RoundTrip | cmd/agent/producer.go:335-336 | decoding undoes encoding for all bytes (section 4 of RFC 4648) |
| Base64.EncodedShape | cmd/agent/producer.go:335-336 | encoded text has no line end and four letters for every three bytes begun |
| Base64.DecodesIff | cmd/agent/producer.go:404-408 | decoding fails exactly on texts that are no groups of four letters, the last perhaps padded |
| Base64.LettersAreTheAlphabet | cmd/agent/producer.go:335-336 | the letters are those of table 1 of RFC 4648 |
| Base64.VectorsOfTheStandard | cmd/agent/producer.go:335-336 | four of the vectors of section 10 of RFC 4648 |
| DiskSpool.SpoolRoundTrip | cmd/agent/producer.go:322-415 | a file of written messages, each line fitting the scanner, reads back as those with a value, in order, byte for byte |
| DiskSpool.ReadJoin | cmd/agent/producer.go:382-415 | reading fails exactly when one line is too long for the scanner, and then yields nothing |
| DiskSpool.DamagedLineIsPassedOver | cmd/agent/producer.go:399-410 | a line that cannot be read costs its own message only: those before and behind it are read as if it were not there |
| DiskSpool.TwoFieldsIsFaithful | cmd/agent/producer.go:338-341 | the contract asked of the JSON library is met by a concrete codec |
| DiskSpool.Spool.EnforceLimit | cmd/agent/producer.go:442-454 | a file at the limit is emptied, below it nothing happens, and which operations can fail it |
| DiskSpool.Spool.Write | cmd/agent/producer.go:322-351 | a successful write adds the record to what the limit left, and the file is then at most the limit less one and this record long |
| DiskSpool.Spool.ReadAll | cmd/agent/producer.go:382-415 | the scanner loop is the reading function |
| DiskSpool.Spool.DrainAll | cmd/agent/producer.go:362-380 | the messages with a value, and the file emptied if there is one; a line too long or a failed operation leaves everything |
| Delivery.MessagesAreConserved | cmd/agent/producer.go:90-292 | over every interleaving each message submitted, or found in the spool at the start, is, as often as submitted, in exactly one of queue, a running call, Kafka, spool, delivered and lost |
| Delivery.RunsAreOrderly | cmd/agent/producer.go:90-141 | the queue is first in first out and within capacity, enqueued sends are its length plus removals, and every loss has one of the known causes |
| Delivery.WorkingSpoolKeepsMessages | cmd/agent/producer.go:247-261 | without drop-oldest and with a spool that works no message with a value is ever lost |
| Reports.OnlyReportsDeliver | cmd/agent/main.go:848-868 | in every run a message counts as delivered exactly as often as the library confirmed it, so at most once a report of success; and what was handed over is with Kafka, confirmed or refused |
| Reports.SpooledForCause | cmd/agent/producer.go:90-196 | a message goes to the spool exactly for one of five causes: a full queue, a broker known to be down or a refusal by the library, a shutdown out of time, or a failure reported by Kafka |
| Reports.CauseEndsInSpool | cmd/agent/producer.go:247-261 | and then, whatever comes after, is still to be offered to the spool or was offered: it was its last record, or lost because there is no spool or the write failed |
| Reports.FailureEndsInSpool | cmd/agent/main.go:852-862 | a message reported as failed goes that way when it has a value, is lost as empty when it has none, and is never counted as delivered |
| Reports.RecoveredAreTheReadable | cmd/agent/producer.go:399-410 | what a replay recovers is, in order, exactly the records that can be read and have a value |
| Reports.ReplayTakesOrLeaves | cmd/agent/producer.go:263-280 | a replay takes these and leaves the spool empty, or changes nothing when the file cannot be read or emptied or holds nothing to recover |
| Producer.QueuedProducer.EveryMessageIsSomewhere | cmd/agent/producer.go:90-292 | whatever calls were made on the object, each a run of the protocol: every message submitted is in the queue, in hand, with the library, in the spool or lost, as often as submitted |
| Producer.QueuedProducer.Submit | cmd/agent/producer.go:90-124 | with room every mode appends; without it drop-oldest trades the head for the new message and the others try the spool |
| Producer.QueuedProducer.Produce | cmd/agent/producer.go:170-196 | to the library exactly when the circuit is closed and it accepts, otherwise to the spool; a spooled message states which of the two reasons it was spooled for |
| Producer.QueuedProducer.Drain | cmd/agent/producer.go:143-168 | shutdown ends with an empty queue; every message was handed over, spooled or refused, in order, and none after the deadline went to the library |
| Producer.QueuedProducer.ReplaySpool | cmd/agent/producer.go:263-292 | spooled messages enter the queue in order while there is room and the rest go back; no message is lost unless a write fails or empties the file |
| Producer.QueuedProducer.MarkBrokerUnavailable | cmd/agent/producer.go:203-224 | against any writes in between, the loop ends with a deadline no earlier than its own and never brings a later one forward; the circuit is then open until that deadline, and undisturbed not longer than it or an earlier one said |
| Producer.ReasonsAreSpelled | cmd/agent/producer.go:90-292 | the reasons, as text |
| ProcessTree.SortedPids | cmd/agent/target.go:250-250 | increasing, so each once, and exactly the set |
| ProcessTree.DiscoverBreadthFirst | cmd/agent/target.go:230-251 | exactly the root and its descendants, sorted, each once, for any parent map, cycles included |
| ProcessTree.DiscoverByAncestry | cmd/karaxys-capture/target.go:174-194 | the two nested loops are the walk function in the map's order |
| ProcessTree.AncestryIsSound | cmd/karaxys-capture/target.go:180-194 | only seeds and their descendants are found, in any order and for any parent map |
| ProcessTree.AncestryIsComplete | cmd/karaxys-capture/target.go:180-194 | a process with a seed at most 1023 hops up is found in any order |
| ProcessTree.DiscoverersAgreeIffNear | cmd/karaxys-capture/target.go:153-196 | the walk gives the breadth-first tree in every order exactly when every process of the tree has the root at most 1023 hops up |
| ProcessTree.TargetManager.Refresh | cmd/agent/target.go:79-101 | a failed put leaves what was put before it; failing deletes are passed over; of any manager the program can make, a successful refresh makes the kernel's map the target set exactly when every pid unknown to the manager is wanted and no delete it asks for fails |
| FlowFilter.AnswersFollowPolicy | cmd/agent/metadata.go:179-204 | every answer is the present policy's word on this event or on one of the same flow no older than the time to live, with no update since; denials from the cache are rejections by the policy |
| FlowFilter.CachedCameFrom | cmd/agent/metadata.go:179-204 | over any run, whatever is cached came from a call on that flow with no policy update since: it is what the present policy says of what that call saw, so an event that decided nothing is never cached |
| FlowFilter.SwitchesAreSeparate | cmd/agent/metadata.go:217-222 | a direction switched off denies its connections, and neither switch matters to connections of the other direction or of none |
| FlowFilter.IgnoredPortsDeny | cmd/agent/metadata.go:214-216 | a connection on an ignored port, at either end, is denied whatever else holds |
| FlowFilter.TargetPortsDecide | cmd/agent/metadata.go:223-226 | with both directions on and nothing ignored, all connections are accepted without target ports, and with some exactly those with one at either end |
| FlowFilter.WiderPolicyAcceptsMore | cmd/agent/metadata.go:206-227 | a wider policy denies nothing that a narrower one accepts |
| FlowFilter.UnresolvedNeedsHttp | cmd/agent/metadata.go:125-138 | without a known connection only a data event is accepted, and exactly when it shows a method or a status line whole within its first 64 bytes |
| FlowFilter.DecisionsAreRemembered | cmd/agent/metadata.go:242-263 | a decision is given again to every event of its flow up to the last moment of its time to live, and after it the event is judged afresh; what could not be decided is not remembered |
| FlowFilter.FlowsAreSeparate | cmd/agent/metadata.go:242-263 | asking about one flow changes no answer of another |
| FlowFilter.Filter.Cleanup | cmd/agent/metadata.go:265-274 | below 65536 entries nothing goes, and from there on exactly the expired ones |
| FlowFilter.Filter.Lookup | cmd/agent/metadata.go:242-256 | the answer of a cache that is never cleaned |
| FlowFilter.Filter.Allow | cmd/agent/metadata.go:179-204 | this answer and all later ones are those of the filter whose cache is never cleaned |
| FlowFilter.Filter.ConnectionAllowed | cmd/agent/metadata.go:206-227 | the tests in the source's order accept exactly what the policy accepts |
| FlowFilter.Filter.UpdatePolicy | cmd/agent/metadata.go:229-240 | a new policy starts with nothing cached |

## Left out

- Reassembly.RunIsDrainOfStreams: speaks of runs in which no buffer overflows, because an overflow drops bytes and waiting requests on purpose; `Accounting.LedgerBalances` covers runs with overflow.
- Reassembly.SourceConfluence: for streams in which the library does not keep what it has recognised the claim is false; `BodyLimit.ChunksAgreeIffWithin` gives the exact condition for a body limit on a small framing, not for every way the HTTP library can fail to keep a message.
- H2Sessions.EmittedIsComplete: from the change of mode on, no event overflows a buffer or brings another preface to its front, because every drain strips a preface it finds there; `H2Sessions.NoStreamTwice` needs neither. What is complete is compared on well-formed streams, because `Http2.LateDataChangesContent` shows that contents are not final in others; the same holds for `H2Sessions.SessionEmitsComplete`, `H2Sessions.ContinuationsAgree` and `H2Sessions.SessionChunksDoNotMatter`.
- H2Sessions.SessionPreface: that no preface stands on the response side at the same time and the streams fit; `ModeChange.ResponsePrefaceSplits` is the other side, and asks that no request is recognised before the preface is complete.
- HeldBack.DecidedIff: speaks of streams within the limit of which no cut leaves the preface in front, because in others some capture changes to HTTP/2, as `ModeChange.ModeIff` shows, and without the 18 to 23 bytes named below; the first holds for `HeldBack.HeldIff`, `HeldBack.ClosedDecidedIff` and `HeldBack.UnheldStreamsAgree`.
- Cuts.CanBeHeldIff: for a library that reads "I * HTTP/2.0" and a blank line as a request, as net/http does, the condition covers only starts of up to 17 bytes behind other requests (`HeldFronts.PhantomIsNotKept`); from 18 bytes on chunks matter before the hold-off does (`HeldFronts.PhantomRequest`).
- Cuts.SourceIsGood: the same 18 to 23 bytes are not in its streams for such a library.
- HeldBack.HeldIff: the same 18 to 23 bytes are not in its streams for such a library; for them `HeldFronts.HeldWhateverFollows` gives the held capture, and `HeldFronts.PhantomRequest` is a stream of which another is not held; that the second is so of all of them is not stated.
- HeldBack.ClosedDecidedIff: the same 18 to 23 bytes, here and in `HeldBack.DecidedIff`; `HeldFronts.AnsweredFrontIsUndecided` decides both when an answer is due in the part before the start of the preface, and leaves them open when none is.
- ModeChange.ModeIff: says nothing of streams that hold the preface where no cut leaves it, in a body say, and in which the library does not keep what it has recognised; nor of a preface that some cut of the response stream leaves while none of the request stream does.
- TlsSwitch.CaptureGapMeansJump: numbers reach at most 2^32 - 2, since the successor of the last one wraps to 0 in the source.
- Kernel.StampsNeverRepeat: handlers are atomic, counters do not wrap at 32 bits and maps never reach their size limits; interleavings inside a handler are not modelled.
- Kernel.AcceptedSocketIsDescribed: the listener is bound and the call entered with no other step in between; that other steps keep a tuple is not restated.
- Handlers.UserSpaceWrites: the agent leaves out a write of a tuple it has written before; its own copy of what it wrote is not modelled.
- Chunks.PlanWritev: user memory does not change between the two passes; the same holds for `Chunks.PlanReadv`.
- DiskSpool.Spool.Write: a write that fails leaves the file as it was; a partly written line is not modelled, nor is recovery after a crash.
- DiskSpool.Spool.ReadAll: a key that is no base64 is read as empty, where the library gives what it decoded before the error; the program writes no such record.
- Delivery.MessagesAreConserved: how the spool's file operations turn out is an input of the step; `DiskSpool` says when the file is full.
- Producer.QueuedProducer.EveryMessageIsSomewhere: the calls on one object follow each other; delivery reports and calls running alongside are steps of `Delivery` only. The spool found at the start holds messages this program wrote.
- Producer.QueuedProducer.Submit: a strict call is modelled from the moment there is room; how long it waits is not.
- Producer.QueuedProducer.Drain: no submit runs alongside; with other calls running, `Delivery` applies.
- FlowFilter.Filter.Allow: allow and update are atomic; in the source a decision taken under the old policy can be remembered after an update.
- World.SessionsAreIsolated: one event is processed at a time; the locks of the store and of a session are not modelled.
- Kernel handlers and HTTP/2 streams are values, not objects: the kernel's maps as one state, the streams of one drain as a map of records. Update in place and aliasing of these are not captured.
- The capture binary's session store: the same code as the worker's, so `Worker.SessionStore` stands for both; its sessions are modelled one at a time.
- HTTP message parsing, header decompression, JSON indentation, UTF-8 checks and output records: library code or formatting.
- Counters other than those of messages, conversations, trimmed bytes and queue traffic.
- Timestamps and the age of sessions beyond the comparison that expires them.
- Kafka client, HTTP sinks, control-plane polling, health endpoints and logging: plumbing.
- Reading `/proc`, Docker, Kubernetes and cgroups: the parent map and the connection are inputs; the liveness filter after the ancestry walk is not part of this model.
- Conversions between connection metadata and kernel tuples, and the cgroup half of the refresh: only easy members.
- Loading and attaching probes, ring-buffer shards, and `bpf/tls_plaintext_prototype.bpf.c`, which is not built.
