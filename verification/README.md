# Verified models of the NUGU SDK core

Dafny models of the stateful parts of the NUGU client SDK, with proofs of what they guarantee over whole
runs. `dafny verify dfyconfig.toml` checks everything.

Each component has a value model (datatypes and functions that take the branches the code takes) and, where the
code updates things in place, a class whose methods are proved against those functions. The main results are
lemmas about runs: sequences of calls, of received bytes, or of atomic steps of several threads.

| files | component | main results |
|---|---|---|
| `RingBuffer`, `RingBufferRuns` | item-granular ring buffer | the buffer is a queue of items exactly while every push is a good one; FIFO; indices in bounds |
| `ByteBuffer` | growable byte buffer | a byte sequence, with bounded capacity and amortised cost |
| `MultipartParser`, `MultipartChunks`, `MultipartHead`, `MultipartBody`, `MultipartRoundTrip` | streaming multipart parser | chunking independence, body search, round trip, each as an if and only if; delimiters and header blocks read as a reference reads them, on any bytes |
| `V1Directives`, `Attachments`, `WireFormat` | header splitter and body dispatch | the splitter inverts its printer; the latest headers decide; documents, audio and other parts, in any mixture, arrive as the octets sent say |
| `Focus`, `FocusOwnership`, `FocusGrants`, `FocusPolicies`, `FocusOrder` | focus arbiter | one owner per resource exactly while no call grants it a second time; the owner at the head of a sorted list exactly while rejections are safe; the speaker keeps the promise, the microphone does not; who waits is served in the order of the kinds |
| `PlaySync`, `PlaySyncRuns`, `PlaySyncTimer` | play context manager | stack and map agree exactly while removals are known; one service per capability; one live renderer; the timer takes away just what has nothing left to play, exactly on quiet runs |
| `Wakeup` | push-then-signal queue | no lost wakeup, order kept, the consumer catches up |
| `DirectiveQueue`, `AttachmentDelivery`, `DataCallbacks`, `EndToEnd` | directives, sequencer and drain | in-order delivery in every interleaving, complete exactly when nothing came while an older directive of the id stood; exactly the data callbacks due are made, in order; from the wire to the agent |
| `Http2Requests`, `Http2References`, `Http2Order` | request queue and reference counts | the reference count accounted for exactly on every run; from that, exactly which removals are safe; items are processed in the order queued |
| `Uuid` | identifiers | base16 and time round trips |

Several laws that the code is meant to keep fail on some runs. For each of these the project proves for which
inputs the law holds, as an equivalence, and shows a run on which it fails:

- Ring buffer: after filling the storage and emptying it again, the next push makes the count too large by the
  capacity (`CountTooLarge`), and overflowing a buffer that is not full loses items that still had room
  (`LosesMoreThanNeeded`); `GoodPush` is the exact condition. After an odd push, one as large as the storage moves the
  read index behind the storage (`ReadsBehindStorage`); `Overruns` is the exact condition.
- Multipart parser: a chunk that ends inside a partly matched boundary loses the delimiter (`CutThroughBoundary`),
  and a terminator right behind CR LF CR is missed (`MissedTerminator`).
- Focus: the header promises one owner at a time (`include/core/nugu_focus.h:30-32`). With the policies the agents
  ship with, the microphone can have two (`MicHasTwoOwners`). `SecondGrant` is the exact condition
  (`OneOwnerOverRuns`); that owners are the head of a sorted list is lost earlier, exactly at an unsafe rejection
  (`SafeReject`, `RefusalAloneIsHarmless`).
- Play contexts: removing an unknown service while speech is expected leaves it in the map and off the stack
  (`UnknownServiceLingers`), until its timer or an immediate removal takes it out (`StrayUntilRetrieved`). The one
  timer is set anew by every removal of a last capability, so that a service that waits for it can be left without
  one (`SecondRemovalMovesTimer`) or one that plays be taken away (`TimerTakesPlaying`). `QuietOp` is the exact
  condition. A service off the stack can share a capability with another one (`TwoServicesOneCapability`); `Exclusive`
  is the exact condition.
- Attachments: the second of two directives with one message id gets no data until the first one is gone
  (`SecondOfItsIdStarves`). `WholeUnlessMissed` says exactly who has everything.
- Requests: a transfer that completes before its removal is processed is destroyed while still held
  (`RemoveAfterComplete`), or, when the caller has given up, before the network thread looks at it
  (`RemoveAfterDestruction`). `SafeRemoval` is the exact condition.
- Identifiers: from the second 1761049165 (21 October 2025) on, the tenths of a second no longer fit the signed int
  they are read into (`TimeOverflows`); that they fit is the exact condition.

## Model

| member | source | states |
|---|---|---|
| RingBuffer.RingBuffer.constructor | src/nugu_ringbuffer.c:52-70 | a new buffer is empty and zeroed |
| RingBuffer.RingBuffer.Resize | src/nugu_ringbuffer.c:81-105 | the same dimensions change nothing, valid new ones make a fresh empty buffer, invalid ones are refused |
| RingBuffer.RingBuffer.CalculateCount | src/nugu_ringbuffer.c:38-50 | the in-place count is the one of the value model |
| RingBuffer.RingBuffer.PushData | src/nugu_ringbuffer.c:107-177 | one push in place is one push of the value model, refusals included |
| RingBuffer.RingBuffer.ReadItem | src/nugu_ringbuffer.c:179-204 | one read in place is one read of the value model |
| RingBuffer.RingBuffer.ClearItems | src/nugu_ringbuffer.c:224-235 | indices and count are reset, the dimensions stay |
| RingBufferRuns.WriteItemsCeiling | src/nugu_ringbuffer.c:124-133 | the three remainders compute the number of items that the partial item and the data touch together |
| RingBufferRuns.WrittenAt | src/nugu_ringbuffer.c:158-168 | every byte lands at the write offset plus its position, wrapped once, and no other byte changes |
| RingBufferRuns.PendingShape | src/nugu_ringbuffer.c:28-36 | the pending bytes are count whole items and the partial item at the write offset |
| RingBufferRuns.FittingCount | src/nugu_ringbuffer.c:38-50 | for a push that fits the count is that of the whole items pending, or too large by exactly the maximum in one state |
| RingBufferRuns.PushStep | src/nugu_ringbuffer.c:107-177 | a push leaves the newest items, in order and rightly counted, if and only if it is a good one |
| RingBufferRuns.ReadStep | src/nugu_ringbuffer.c:179-204 | a read hands out the oldest item and leaves the rest, or nothing when no item is whole |
| RingBufferRuns.RunRefinesQueue | src/nugu_ringbuffer.c:81-235 | on every run of push, read, clear and resize the buffer acts as the item queue at every step if and only if all pushes are good |
| RingBufferRuns.FifoStream | src/nugu_ringbuffer.c:107-204 | items read followed by pending bytes are the concatenated pushes |
| RingBufferRuns.Fifo | src/nugu_ringbuffer.c:38-50 | from a fresh buffer the count is whole items pushed less items read, and the i-th item read is the i-th item of the stream |
| RingBufferRuns.PushesKeepNewest | src/nugu_ringbuffer.c:119-174 | a run of good pushes leaves exactly the newest bytes that fit |
| RingBufferRuns.IndexStep | src/nugu_ringbuffer.c:144-156 | after any push, fitting or not, the indices are in bounds again if and only if it does not overrun |
| RingBufferRuns.RunInBounds | src/nugu_ringbuffer.c:107-204 | on every run the indices stay in bounds if and only if no push overruns |
| RingBufferRuns.CountTooLarge | src/nugu_ringbuffer.c:48-49 | a run after which the count exceeds the capacity |
| RingBufferRuns.LosesMoreThanNeeded | src/nugu_ringbuffer.c:144-156 | a run on which an overflow drops an item that had room |
| RingBufferRuns.ReadsBehindStorage | src/nugu_ringbuffer.c:144-156 | a run after which the next read starts behind the storage |
| ByteBuffer.AddKeepsOk | src/nugu_buffer.c:82-120 | one reallocation always makes room, and the bounds on capacity and copying survive it |
| ByteBuffer.RoomBehind | src/nugu_buffer.c:108-114 | a buffer that grows at least doubles, and has room for as much again behind an addition larger than it was |
| ByteBuffer.GrowthOverRuns | src/nugu_buffer.c:82-120 | over every run the capacity is at most the larger of the initial one and three times the peak length, and all bytes ever moved are fewer than the final capacity |
| ByteBuffer.Buffer.constructor | src/nugu_buffer.c:34-58 | a new buffer is empty, size 0 standing for the default size |
| ByteBuffer.Buffer.Resize | src/nugu_buffer.c:82-102 | the old storage is the front of the new one |
| ByteBuffer.Buffer.Add | src/nugu_buffer.c:104-120 | addition appends; nothing to add is refused |
| ByteBuffer.Buffer.FindByte | src/nugu_buffer.c:143-161 | the first position of the byte, or that it does not occur |
| ByteBuffer.Buffer.Clear | src/nugu_buffer.c:173-182 | the contents are empty and the storage is zeroed |
| ByteBuffer.Buffer.ClearFrom | src/nugu_buffer.c:184-194 | truncation; a position past the end is refused |
| ByteBuffer.Buffer.ShiftLeft | src/nugu_buffer.c:196-223 | the two pointer loops drop a prefix and zero the room behind |
| ByteBuffer.Buffer.Pop | src/nugu_buffer.c:225-245 | what is taken followed by what is left is what was there |
| MultipartParser.MultipartParser.constructor | src/http2/multipart_parser.c:56-71 | a new parser is ready and empty |
| MultipartParser.MultipartParser.SetBoundary | src/http2/multipart_parser.c:99-119 | only the boundary changes |
| MultipartParser.MultipartParser.ConsumeByte | src/http2/multipart_parser.c:137-304 | one turn of the loop in place is one step of the automaton |
| MultipartParser.MultipartParser.ParseChunk | src/http2/multipart_parser.c:121-307 | one call on two growable buffers is the automaton run over the whole chunk, early exit included |
| MultipartParser.FinishIsFinal | src/http2/multipart_parser.c:298-303 | after the closing delimiter all later bytes are ignored, in this call and the next |
| MultipartParser.EventsGrow | src/http2/multipart_parser.c:244-294 | callbacks once made stay the front of all later ones |
| MultipartHead.SearchFinds | src/http2/multipart_parser.c:138-166 | on any bytes the parser finds the delimiter where a reference search that looks ahead finds it, and nowhere without one |
| MultipartHead.SearchStands | src/http2/multipart_parser.c:155-166 | a delimiter is found only where two hyphens and the boundary stand |
| MultipartHead.SearchFirst | src/http2/multipart_parser.c:138-166 | and it is the first one found |
| MultipartHead.LineIsRead | src/http2/multipart_parser.c:168-217 | behind a delimiter a line break begins a part, the closing line ends the message, and anything else resumes the search, all on any bytes |
| MultipartHead.HeadIsRead | src/http2/multipart_parser.c:219-249 | on any bytes the header reported is the block a reference reader takes off; without its end nothing is reported |
| MultipartChunks.CursorForgotten | src/http2/multipart_parser.c:133-135 | outside a partly matched boundary the cursor reset at the start of a call changes nothing |
| MultipartChunks.SafeCutsAgree | src/http2/multipart_parser.c:121-307 | chunks without a cut through a boundary act as the whole stream |
| MultipartChunks.ChunkingIndependence | src/http2/multipart_parser.c:121-307 | two such ways of cutting a stream give the same callbacks and the same final parser |
| MultipartChunks.CutIsHarmless | src/http2/multipart_parser.c:127-166 | a cut is harmless for every continuation if and only if it is not inside a partly matched boundary |
| MultipartChunks.CutThroughBoundary | src/http2/multipart_parser.c:155-166 | a stream on which a cut loses the delimiter |
| MultipartBody.BodySteps | src/http2/multipart_parser.c:251-283 | the four body steps remember exactly which visible prefix of the terminator the last bytes are |
| MultipartBody.BodySearch | src/http2/multipart_parser.c:251-296 | the body reported is everything up to the first visible CR LF CR LF; without one nothing is reported and nothing lost |
| MultipartBody.FirstEndIsFirstSubstring | src/http2/multipart_parser.c:258-283 | on text without CR LF CR CR that is the first CR LF CR LF |
| MultipartBody.MissedTerminator | src/http2/multipart_parser.c:278-284 | a terminator that the automaton misses |
| MultipartBody.ConsumeReachable | src/http2/multipart_parser.c:278-296 | in reachable states the length cut off never exceeds the body, and what was collected is the reported body followed by the terminator |
| MultipartBody.FeedReachable | src/http2/multipart_parser.c:121-307 | every state a stream leads to is one of these |
| MultipartRoundTrip.FeedHead | src/http2/multipart_parser.c:139-249 | a printed delimiter line, text in front and padding included, and header block are reported as that header text |
| MultipartRoundTrip.FeedPart | src/http2/multipart_parser.c:137-304 | a printed part is reported as its header and body, and the parser is ready for the next |
| MultipartRoundTrip.MisreadPart | src/http2/multipart_parser.c:251-296 | a body that cannot be told from its terminator is not reported as it was printed, whatever follows |
| MultipartRoundTrip.RoundTrip | src/http2/multipart_parser.c:137-304 | a printed message with any bytes behind it is reported part by part and leaves the parser finished, if and only if all bodies are delimited |
| MultipartRoundTrip.RoundTripInChunks | src/http2/multipart_parser.c:121-307 | the same in any safe chunks |
| MultipartRoundTrip.PlainBodyDelimited | src/http2/multipart_parser.c:251-296 | a sufficient condition on the body in plain substrings |
| V1Directives.V1Directives.OnParsingHeader | src/http2/v1_directives.cc:61-129 | the in-place scan applies every pair of the block in order; what a pair means is WireFormat |
| V1Directives.V1Directives.OnParsingBody | src/http2/v1_directives.cc:222-230 | a body goes where the remembered type says, with the remembered parent and end flag |
| V1Directives.V1Directives.OnBody | src/http2/v1_directives.cc:233-240 | a received chunk is parsed and its callbacks take effect in order |
| V1Directives.V1Directives.OnResponse | src/http2/v1_directives.cc:233-240 | over all chunks of a response the state and the deliveries are those of all callbacks of the parser, in order |
| V1Directives.HandleAppend | src/http2/v1_directives.cc:222-240 | callbacks of successive chunks compose |
| Attachments.SplitInvertsPrint | src/http2/v1_directives.cc:75-128 | every printed list of pairs is recovered in order, empty values included |
| Attachments.BareLineFeed | src/http2/v1_directives.cc:92-99 | a line that ends in LF alone gives its key with no value |
| Attachments.CStringStops | src/http2/v1_directives.cc:114-117 | a parent id is cut at its first NUL |
| Attachments.LatestHeaderWins | src/http2/v1_directives.cc:102-123 | type, parent id and end flag are those of the last header naming each, over the whole history |
| Attachments.DeliveriesAppend | src/http2/v1_directives.cc:222-230 | what follows some parts is dispatched from the headers up to them on |
| Attachments.MessageDelivered | src/http2/v1_directives.cc:222-240 | a printed message in safe chunks is dispatched body by body by the latest headers up to it |
| Attachments.AttachmentsArrive | src/http2/v1_directives.cc:197-230 | attachments arrive with the parent id, end flag and data they were printed with, in order |
| WireFormat.TypesTold | src/http2/v1_directives.cc:102-110 | a part is a document exactly when its type begins with application/json and audio exactly when with audio/opus, octet by octet |
| WireFormat.EndTold | src/http2/v1_directives.cc:118-123 | the end flag is up exactly when the file name has the three letters of end in a row |
| WireFormat.MessagePrinted | src/http2/multipart_parser.c:137-304 | the octets of a message, written out literally, are those of its printed parts |
| WireFormat.SentArrive | src/http2/v1_directives.cc:61-240 | of any mixture of parts sent, documents arrive as documents, audio with its own parent id and end flag, parts of other types not at all, in order and whole, in any safe chunks |
| Focus.FocusStacks.FindItem | src/nugu_focus.c:78-90 | an item of the focus, or that there is none |
| Focus.FocusStacks.RemoveItemsByFocus | src/nugu_focus.c:92-104 | the removal loop removes every item of the focus and keeps the rest in order |
| Focus.FocusStacks.RequestFocus | src/nugu_focus.c:220-289 | a request in place is that of the value model and leaves the other resource alone |
| Focus.FocusStacks.ReleaseFocus | src/nugu_focus.c:291-341 | a release in place is that of the value model and leaves the other resource alone |
| Focus.FocusStacks.FreeFocus | src/nugu_focus.c:125-133 | freeing removes the focus from both resources |
| FocusOwnership.InsertShape | src/nugu_focus.c:212-218 | insertion is in front of the first item of the same or a lower priority |
| FocusOwnership.RequestStep | src/nugu_focus.c:220-289 | for any answers a request keeps ownership if and only if it is not an unsafe rejection |
| FocusOwnership.ReleaseStep | src/nugu_focus.c:291-341 | a release always keeps ownership |
| FocusOwnership.RequestOwners | src/nugu_focus.c:234-288 | after a request the owner is the requester, nobody, or whoever it was, as the callbacks answer |
| FocusOwnership.ReleaseOwners | src/nugu_focus.c:304-340 | after a release the owner is the next in line, if it takes the resource and is not the releaser |
| FocusOwnership.FreeStep | src/nugu_focus.c:125-133 | freeing always keeps ownership |
| FocusOwnership.OwnershipOverRuns | src/nugu_focus.c:220-341 | over every run any owner is the head of a duplicate-free list, sorted behind it, throughout if and only if every rejection is safe |
| FocusOwnership.SingleOwner | include/core/nugu_focus.h:30-32 | at most one owner, who is the head, when holders reject only strictly lower priorities |
| FocusGrants.OwnersStep | src/nugu_focus.c:220-341 | after any call in any state the owners are those before, less whom it unfocuses or frees, and whom it grants |
| FocusGrants.OneOwnerStep | src/nugu_focus.c:234-340 | a call makes a second owner if and only if it grants the resource while an owner is left whom it neither unfocuses nor grants |
| FocusGrants.OneOwnerOverRuns | include/core/nugu_focus.h:30-32 | over every run, whatever is answered, there is at most one owner throughout if and only if no call is such a second grant |
| FocusGrants.SafeMeansOneOwner | src/nugu_focus.c:244-284 | runs whose rejections are all safe have none |
| FocusOwnership.OwnerOnTop | src/nugu_focus.c:140-153 | after any run of safe rejections, whoever owns the resource is the focus that peek_top returns |
| FocusOwnership.RequestConserves | src/nugu_focus.c:249-288 | a request neither loses nor reorders any item but the requester's and the old head's |
| FocusOwnership.ReleaseConserves | src/nugu_focus.c:308-331 | nor does a release |
| FocusOwnership.HeadLostOnlyByUnfocus | src/nugu_focus.c:252-262 | the old head leaves a duplicate-free list exactly when it is unfocused without asking to be paused |
| FocusOwnership.DistinctOverRuns | src/nugu_focus.c:92-104 | on every run, for any answers, a focus occurs at most once in the list |
| FocusOwnership.WaitingItemsStay | src/nugu_focus.c:220-341 | so after any run a call loses and reorders no waiting item, and loses the old head only as said |
| FocusPolicies.SpeakerStep | service/capability/tts_agent.cc:181-196 | with the shipped policies only expect speech and audio ever wait, so even a self-rejection is safe |
| FocusPolicies.SpeakerKeepsPromise | service/capability/audio_player_agent.cc:63-99 | on every such run the speaker has at most one owner |
| FocusPolicies.SpeakerFromTheStart | service/capability/asr_agent.cc:79-142 | from an empty speaker the owner, if any, is one and the head of the list |
| FocusPolicies.MicHasTwoOwners | service/wakeup_handler.cc:62-96 | six calls, answered as shipped, with a detection reported after ASR has stolen the microphone, give it two owners |
| FocusPolicies.MicHasSecondGrant | service/wakeup_handler.cc:62-96 | that run has a second grant |
| FocusPolicies.RefusalAloneIsHarmless | service/capability/asr_agent.cc:95-101 | a shipped run whose rejection is not safe and on which there is one owner all the same |
| FocusOrder.WaitingInOrder | include/core/nugu_focus.h:50-62 | after any run of safe rejections those behind the holder wait in the order in which the header lists their kinds |
| FocusOrder.ReleaseOffersNext | src/nugu_focus.c:291-341 | after such a run a release offers the resource to one of the earliest kind waiting, unless nobody waits or a holder that asks to be paused stays in front |
| FocusOrder.ExpectBeforeMusic | include/core/nugu_focus.h:58-59 | with the shipped policies, when expect speech and the audio player both wait, expect speech is granted the speaker and the player is not |
| FocusOrder.RequestOutcome | src/nugu_focus.c:234-288 | which callbacks a request makes, in which order, and where its focus and event are then |
| FocusOrder.WhoGivesWay | service/capability/tts_agent.cc:181-196 | on the speaker TTS gives way to ASR alone and everybody else to whoever asks |
| FocusOrder.WhoGivesWayOnMic | service/wakeup_handler.cc:62-96 | on the microphone ASR gives way to nobody, and the wakeup word to everybody but itself |
| FocusOrder.MusicResumes | service/capability/audio_player_agent.cc:63-99 | music that asks to be paused for TTS waits behind it and is offered the speaker afterwards; otherwise it is gone |
| PlaySync.PlaySyncManager.RemoveContext | service/playsync_manager.cc:132-170 | removal in place is that of the value model |
| PlaySync.PlaySyncManager.AddRenderer | service/playsync_manager.cc:210-221 | all previous renderers are released before the new one is synced |
| PlaySync.PlaySyncManager.AddContext | service/playsync_manager.cc:93-130 | addition in place is that of the value model, loop over the other services included |
| PlaySync.PlaySyncManager.GetPlayStackItem | service/playsync_manager.cc:179-189 | a service that has the capability, or that none has, in whatever order the map is searched |
| PlaySync.PlaySyncManager.RemoveFromOthers | service/playsync_manager.cc:109-115 | the loop takes the capability from every other service of the stack |
| PlaySync.PlaySyncManager.SetExpectSpeech | service/playsync_manager.cc:245-248 | only the flag changes |
| PlaySync.PlaySyncManager.OnMicOn | service/playsync_manager.cc:250-253 | only the timer stops |
| PlaySync.PlaySyncManager.OnTimer | service/playsync_manager.cc:140-149 | the timer fires once, for the service it was last started for |
| PlaySync.PlaySyncManager.OnASRError | service/playsync_manager.cc:255-261 | the top service loses its TTS at once |
| PlaySyncRuns.RemoveStep | service/playsync_manager.cc:132-170 | any removal keeps the stack duplicate-free and in the map, and agreement if and only if its service is known or it takes effect at once |
| PlaySyncRuns.AddStep | service/playsync_manager.cc:93-130 | any addition keeps that, and agreement, and one service per capability |
| PlaySyncRuns.ASRErrorStep | service/playsync_manager.cc:255-261 | so does an ASR error |
| PlaySyncRuns.RemovalOutcome | service/playsync_manager.cc:132-170 | other capabilities stay; after the last one, with no speech expected, the service goes at once exactly when asked or when it has no renderer and the stack two services or more, and otherwise stays in map, stack and renderers with the timer armed for it; expected speech spares it |
| PlaySyncRuns.ASRErrorOutcome | service/playsync_manager.cc:255-261 | TTS leaves the top service at once even if speech was expected; without other capabilities the service is gone |
| PlaySyncRuns.ExpectSpeechSparesOnce | service/playsync_manager.cc:132-170 | expected speech spares a service that loses its last capability once and only once |
| PlaySyncRuns.AdditionOutcome | service/playsync_manager.cc:109-126 | the service has what it had and the capability, on top when new, and every other one exactly what it had without it |
| PlaySyncRuns.AgreementOverRuns | service/playsync_manager.cc:93-170 | stack and map agree throughout a run if and only if every removal is a good one |
| PlaySyncRuns.StackOverRuns | service/playsync_manager.cc:93-261 | on every run the stack is duplicate-free and inside the map |
| PlaySyncRuns.CapabilityOverRuns | service/playsync_manager.cc:109-126 | on good runs each capability is listed under at most one service |
| PlaySyncRuns.CapabilityExactly | service/playsync_manager.cc:88-170 | on every run it is throughout, if and only if no addition leaves the capability with another service off the stack |
| PlaySyncRuns.TwoServicesOneCapability | service/playsync_manager.cc:109-126 | a run on which it is not |
| PlaySyncRuns.LookupIsUnambiguous | service/playsync_manager.cc:179-189 | so the lookup does not depend on the order of the map |
| PlaySyncRuns.RendererOverRuns | service/playsync_manager.cc:210-229 | on every run at most one renderer, the live one, and syncs less releases are their number |
| PlaySyncRuns.RendererOutcome | service/playsync_manager.cc:93-130 | a renderer is taken, the one before it released first, unless its service has one for another capability; then nothing is released or synced |
| PlaySyncRuns.StrayUntilRetrieved | service/playsync_manager.cc:117-169 | a service in the map and off the stack stays so, even when added anew, exactly until its timer or an immediate last removal of it |
| PlaySyncRuns.UnknownServiceLingers | service/playsync_manager.cc:139-169 | a run that makes one |
| PlaySyncTimer.TimerClears | service/playsync_manager.cc:140-149 | the timer takes away exactly the services with nothing left to play if and only if the state is settled |
| PlaySyncTimer.RemoveSettles | service/playsync_manager.cc:139-169 | a removal keeps the state settled if and only if its service keeps something to play, or no other one is due, or, when speech is expected, it is the one due |
| PlaySyncTimer.AddSettles | service/playsync_manager.cc:109-126 | an addition keeps the state settled if and only if it spares no undue service, and neither leaves the timer set for the service added nor takes it from one off the stack |
| PlaySyncTimer.SettledOverRuns | service/playsync_manager.cc:93-261 | throughout any run the timer is set for whatever has nothing left to play, and for nothing else, if and only if every operation is a quiet one |
| PlaySyncTimer.TimerOverRuns | service/playsync_manager.cc:140-169 | after such a run the timer takes just the services with nothing left to play from map and stack |
| PlaySyncTimer.SecondRemovalMovesTimer | service/playsync_manager.cc:151 | a run on which the timer forgets a service and its renderer |
| PlaySyncTimer.TimerTakesPlaying | service/playsync_manager.cc:117-119 | a run on which the timer takes away a service that plays |
| Wakeup.StepKeeps | src/nugu_network_manager.c:125-131 | each atomic step keeps every waiting item heard and the order |
| Wakeup.NoLostWakeup | src/nugu_network_manager.c:170-184 | in every interleaving of any number of producers a waiting item has a readable eventfd or a write on its way |
| Wakeup.QuietMeansDone | src/nugu_network_manager.c:114-168 | when nothing is left to happen all items have been taken out in the order pushed |
| Wakeup.ConsumerCatchesUp | src/http2/http2_network.c:184-212 | once all producers have written, the consumer alone empties the queue in order and then has nothing left to do |
| Wakeup.WakesNeedSignals | src/nugu_network_manager.c:125-131 | on every run the consumer wakes no more often than producers write |
| DirectiveQueue.Find | src/nugu_directive_sequencer.c:151-169 | the first directive with the id; an empty id finds nothing |
| DirectiveQueue.Directive.AddData | src/nugu_directive.c:191-221 | data is appended, and the callback is due when the directive is active and has one |
| DirectiveQueue.Directive.GetData | src/nugu_directive.c:239-258 | everything buffered is handed out and then gone |
| DirectiveQueue.Directive.Receive | src/nugu_network_manager.c:144-151 | the end flag is set before the data arrives and the callback runs |
| DirectiveQueue.NetworkManager.Push | src/nugu_network_manager.c:186-236 | an item goes to the end of the queue and nothing else changes |
| DirectiveQueue.NetworkManager.FindByMsgid | src/nugu_directive_sequencer.c:151-169 | the search loop finds the first directive with the id |
| DirectiveQueue.NetworkManager.ProcessDirective | src/nugu_directive_sequencer.c:109-125 | a directive comes on the list active, and leaves it again when an agent asks |
| DirectiveQueue.NetworkManager.ProcessAttachment | src/nugu_network_manager.c:140-159 | an attachment goes to the directive found, other directives are untouched |
| DirectiveQueue.NetworkManager.RemoveDirective | src/nugu_directive_sequencer.c:127-144 | completion takes one directive off the list and keeps the others in order |
| DirectiveQueue.NetworkManager.Drain | src/nugu_network_manager.c:131-165 | the drain processes every queued item in order |
| AttachmentDelivery.ProcessStep | src/nugu_network_manager.c:131-165 | processing any item, whatever callbacks do, keeps delivery complete and in order |
| AttachmentDelivery.ActStep | src/nugu_directive.c:114-122 | so does anything an agent does in between |
| AttachmentDelivery.HeardWhenFirst | src/nugu_directive_sequencer.c:127-144 | a directive is heard from the removal on that makes it the first of its id |
| AttachmentDelivery.AttachmentsDeliveredInOrder | src/nugu_network_manager.c:114-184 | in every reachable state the first directive of an id has, taken or buffered, the payloads for it since it became that, in order, any other has nothing, and a callback that sees the end flag has the last chunk |
| AttachmentDelivery.WholeUnlessMissed | src/nugu_directive_sequencer.c:151-169 | a directive has everything for its id since it came on the list if and only if nothing for it was processed while an older one of that id stood |
| AttachmentDelivery.NothingLeftBehind | src/nugu_network_manager.c:114-184 | at rest the same of everything ever pushed |
| AttachmentDelivery.DrainIsPops | src/nugu_network_manager.c:131-165 | a drain is that many pops of the hand-over in a row |
| AttachmentDelivery.SecondOfItsIdStarves | src/nugu_directive_sequencer.c:159-161 | a run on which a second directive of one id gets nothing until the first one is gone |
| DataCallbacks.AttachmentOutcome | src/nugu_network_manager.c:140-159 | an attachment whose directive is active with a callback makes exactly one call, which sees all data so far, the media type and the end flag; taken data is gone, a completed directive is off the list; otherwise nobody is called and the data waits |
| DataCallbacks.NobodyOutcome | src/nugu_directive_sequencer.c:151-169 | an attachment for nobody on the list changes nothing there and makes no call |
| DataCallbacks.DirectiveOutcome | src/nugu_directive_sequencer.c:109-125 | a directive comes to the end of the list, active and empty, unless an agent has it removed |
| DataCallbacks.AgentOutcome | src/nugu_directive.c:223-258 | outside callbacks taking takes all there is, completing takes the directive off the list, and no data callback is made |
| DataCallbacks.CallbacksMade | src/nugu_directive.c:191-221 | over every interleaving the data callbacks made are, one for one and in order, those that the attachments taken out call for |
| EndToEnd.FromWireToAgent | src/http2/v1_directives.cc:131-240 | from a printed stream of documents and attachments to the agent: what it takes and what waits for it are the bodies sent to its id behind its document, if and only if none came while an older directive of that id stood |
| EndToEnd.OneProducer | src/http2/v1_directives.cc:176-220 | what one network thread queues behind a directive has the attachments delivered behind its document |
| EndToEnd.SentChunks | src/http2/v1_directives.cc:114-128 | for attachments that name their parent these bodies are the data under that id |
| EndToEnd.FromSentToAgent | src/http2/v1_directives.cc:61-240 | the same from the parts sent: the agent gets the audio sent to its id behind its document, in order, with the end flag of its file names, if and only if none came while an older directive of that id stood |
| Http2Requests.Http2Network.CompleteAll | src/http2/http2_network.c:139-164 | the completion loop is one completion step for each reported transfer |
| Http2Requests.Http2Network.Drain | src/http2/http2_network.c:194-212 | the drain is one take step for each queued item, in order |
| Http2Requests.Http2Network.Cleanup | src/http2/http2_network.c:216-236 | the cleanup loop is the shutdown step |
| Http2Requests.Http2Network.AddRequest | src/http2/http2_network.c:352-387 | an add takes a reference and puts its item at the end of the queue |
| Http2Requests.Http2Network.PushRemoval | src/http2/http2_network.c:389-412 | a removal goes to the end of the queue without a reference |
| Http2Order.QueueOrder | src/http2/http2_network.c:194-212 | on every run the items processed followed by those still queued are those queued, in order |
| Http2Order.AddBeforeRemoval | src/http2/http2_network.c:352-442 | when a removal queued behind an add of its request comes up, that add has been processed, and the request is in flight unless curl refused it or it has left flight since |
| Http2Order.FinishedPerCompletion | src/http2/http2_network.c:142-164 | on every run the finish callback runs exactly once per completion |
| Http2Order.NothingAfterShutdown | src/http2/http2_network.c:216-236 | after shutdown nothing is in flight, and nothing is added, processed or finished any more |
| Http2References.Accounting | src/http2/http2_request.c:246-274 | on every run the count is what somebody relies on, plus refused adds and abandoned removals, less removals that came too late; finishes and pending adds never exceed adds |
| Http2References.HeldIsAlive | src/http2/http2_request.c:246-274 | while late removals are covered, a request somebody relies on is alive |
| Http2References.OtherStep | src/http2/http2_network.c:112-241 | every step but a removal, completion and shutdown included, keeps every reference covered and touches only live requests |
| Http2References.RemoveStep | src/http2/http2_network.c:92-110 | a processed removal finds a live request and keeps every reference covered if and only if its request is in flight, or more was left over than dropped, or its caller has given up and somebody else relies on it |
| Http2References.CoveredOverRuns | src/http2/http2_network.c:72-442 | over every interleaving references stay covered and no step touches a destroyed request if and only if every removal is such a one |
| Http2References.PlainRuns | src/http2/http2_network.c:389-442 | without refusals and timeouts, if and only if every removal finds its request in flight |
| Http2References.NeverFreedWhileHeld | src/http2/http2_network.c:352-442 | with removals of requests in flight, whatever is refused or times out, no request is destroyed while relied on or touched once destroyed, and it finishes at most once per add |
| Http2References.RemoveAfterComplete | src/http2/http2_network.c:389-442 | a run on which a held request is destroyed |
| Http2References.RemoveAfterDestruction | src/http2/http2_network.c:92-98 | a run on which an abandoned removal names a destroyed request |
| Uuid.ConvertBase16 | src/nugu_uuid.c:31-55 | the loop writes the base16 form and its terminator |
| Uuid.ConvertBytes | src/nugu_uuid.c:57-85 | the loop writes the decoded bytes |
| Uuid.EncodedDigits | src/nugu_uuid.c:31-55 | every byte is written as its two hexadecimal digits, the upper one first, in small letters |
| Uuid.OtherCharacters | src/nugu_uuid.c:57-85 | characters in front of the capitals are taken for digits, and wrap around below 0 |
| Uuid.Base16RoundTrip | src/nugu_uuid.c:31-85 | decoding the base16 form of any bytes gives them back |
| Uuid.TenthsShape | src/nugu_uuid.c:130-136 | the tenths carry into the next second exactly from the last half millisecond on |
| Uuid.TenthsExactly | src/nugu_uuid.c:130-136 | the tenths in whole numbers: the milliseconds are rounded first and then cut |
| Uuid.FieldRoundTrip | src/nugu_uuid.c:138-141 | the four bytes read back as the tenths in a signed 32-bit int |
| Uuid.TimeRoundTrip | src/nugu_uuid.c:162-172 | an identifier dumps the second of its making, or the next one from its last half millisecond on, if and only if its tenths are below 2^31 |
| Uuid.TimeOverflows | src/nugu_uuid.c:138-172 | an identifier of the first second whose tenths do not fit dumps a time before the base timestamp |

## Left out

- Allocation failure, null handles, logging, and the overflow of `int` and `size_t` sizes: sizes are unbounded integers.
- Locks: the mutex of the ring buffer and the locks of requests only make the modelled steps atomic.
- RingBuffer.RingBuffer.constructor: dimensions must be positive; the C code returns null for others.
- RingBuffer.RingBuffer.ReadItem: when there is an item to read the read index must be in bounds, because the C code copies from outside the storage otherwise; RunInBounds says on which runs it is.
- PlaySync.PlaySyncManager.AddRenderer: at most one renderer is assumed, which RendererOverRuns proves for every run.
- MultipartParser.MultipartParser.ParseChunk: while no boundary is set, bytes that lead to comparing with it are excluded, because the C code dereferences null there.
- MultipartParser.MultipartParser.ConsumeByte: likewise.
- V1Directives.V1Directives.OnResponse: likewise.
- `multipart_parser_reset`: it clears the buffers and not the step, and nothing calls it.
- V1Directives.V1Directives.OnBody: likewise; callbacks run after the chunk is parsed rather than during it, as neither side looks at the other's state.
- `Content-Length` in part headers: it is stored and never read.
- V1Directives.V1Directives.OnParsingBody: documents are recorded, not read; an attachment without a parent id is delivered with none, where the C code would duplicate a null string.
- JSON documents: reading them needs the JSON library, which is not part of this model; in EndToEnd a document is read into arbitrary directives.
- Focus callbacks do not call back into the arbiter; agents that request or release inside a callback are not modelled.
- Focus.FocusStacks.FreeFocus: freeing ends the ownership of a focus, since the object is gone and no callback is made.
- DirectiveQueue.Directive.AddData: the buffer of a directive is its contents, as ByteBuffer proves a growable buffer to be; the buffer object inside the directive is not modelled.
- DirectiveQueue.NetworkManager.Drain: nothing is pushed during this method; interleaved pushes are steps of AttachmentDelivery, of which DrainIsPops says that the drain is some.
- Http2Requests.Http2Network.Drain: requests are values in a map rather than objects, and nothing interleaves with these loops; Http2References has the interleavings.
- The memory of a removal item whose caller has given up, and of items still queued at shutdown; a request whose add is still queued then keeps its reference.
- curl, eventfd, GLib, pthreads and OpenSSL: only their effect as atomic steps (curl may refuse an add and never a removal), and the random and device bytes of identifiers as arbitrary bytes.
- The hold duration of play contexts: the timer fires at an arbitrary moment.
- Driver registries, plugins, the media player, speech and wakeup threads, events and configuration.
