# DDBOT-AI outbound path: a Dafny model and its proofs

The bot turns a rendered notice into messages, cuts them into chunks, sends the chunks over one
WebSocket, queues what was not sent, and matches answers to requests. Around that path stand a
markup printer and parser, a round-robin queue, hooks asked before a send, a delivery ledger, a
projection check and a configuration redactor. This project models those parts and proves what
their comments promise: no duplicate sends, nothing stranded, limits respected, order kept.

Run `dafny verify dfyconfig.toml` to check everything.

## How it is organised

| file | part of the bot |
|---|---|
| `Common.dfy`, `Decimal.dfy`, `Spaces.dfy` | integer widths, decimal text, white space |
| `Segments.dfy` | message elements, wire segments, and the way back |
| `TextSplit.dfy`, `Chunker.dfy`, `ChunkContent.dfy`, `ChunkGroups.dfy`, `ChunkBreaks.dfy` | splitting a text, packing chunks, what packing keeps, when it cuts, and where |
| `Outcomes.dfy`, `OfflineQueue.dfy` | the error classes and statuses, the queue and its sequential operations |
| `DeliveryRuns.dfy`, `DeliverySafety.dfy`, `FlushOrder.dfy`, `EndingSteps.dfy`, `Endings.dfy`, `WakeUps.dfy`, `FlushProgress.dfy`, `OutsideEvents.dfy`, `ChunkOrder.dfy`, `AloneRuns.dfy`, `WireLimits.dfy` | every interleaving of sends, timers, flushes and outside events |
| `WsClient.dfy`, `WsRuns.dfy`, `WsAnswers.dfy` | the pending requests of one connection, every interleaving of them, and which answer each caller gets |
| `SatoriMarkup.dfy`, `SatoriRoundTrip.dfy`, `SatoriReading.dfy`, `SatoriQuotes.dfy` | the Satori printer and parser, parsing what was printed, what the scanners match, and quotes with a body |
| `EmitQueue.dfy` | the round-robin queue |
| `DeliveryLedger.dfy` | the durable rows of the delivery hook |
| `SendPipeline.dfy`, `PipelineGuarantees.dfy`, `SendResults.dfy`, `SendReports.dfy`, `PreSendHooks.dfy`, `LedgerOfSends.dfy`, `ForwardSends.dfy` | the hooks around a send, what it returns and reports, the rows of many sends at once, and forward messages |
| `ProjectionSync.dfy` | the reconciliation check |
| `ConfigRedaction.dfy` | the redactor and the validator |

Code that changes fields or runs loops is a class or a method, proved equal to a function of the old
state; the lemmas are about those functions. Concurrency is a state machine: a state, the small atomic
steps goroutines and the environment take, and theorems about every run from the initial state. Sockets, timers,
clocks and repositories are inputs of those steps: a write ends in any outcome the error classes
allow, time only moves forward, a repository call succeeds or fails as it likes. One link between the parts is
proved rather than assumed: `WsRuns.OutcomesFitFrames` shows which outcomes can go with a written frame,
and the delivery state machine allows exactly those.

## Where the code does less than its comments say

Each of these is the code as it is, with an input that shows it and the exact condition.

- A text can make the packer loop for ever: two leading newlines and 4499 further characters without punctuation
  (`Chunker.LeadingNewlinesNeverEnd`). A message is not packed exactly when one of its texts, at its start or behind
  a hard cut, meets an empty chunk with a blocked window (`Chunker.MessageNeverEndsIffBlocked`); a message without
  two newlines in a row is always packed.
- The packer charges ten for a face where the estimate counts five. A text of 4400 runes and eleven faces is within the
  limits by the estimate, 4455 of 4500, yet goes out as two chunks (`ChunkGroups.FacesSplitMessage`). Nothing but
  stand-alone segments cuts a message exactly if every group between them fits by what the packer charges
  (`ChunkGroups.UncutIffGroupsFit`), which is five more than the estimate for every face
  (`ChunkGroups.FaceSurcharge`).
- A timer callback reads the connection twice. If the reads disagree while nothing else covers the queue, the
  queued messages are stranded (`WakeUps.FlickerStrands`), exactly then (`WakeUps.WakeUpIsLostIffStranded`). They
  can be taken again after a reconnect or a send that has something to send, and after no other step
  (`FlushProgress.RecoversIff`); while no connection is lost between a callback's reads nothing is stranded
  (`OutsideEvents.QuietRunsLoseNothing`).
- A face keeps its id only if that is 0 (`Segments.FaceIdIsLost`, `Segments.WireFidelity`).
- A message queued whole while offline is never packed and later sent in one piece: 21 pictures, or a text of 4501
  characters that the packer would never finish (`WireLimits.OfflinePicturesExceed`,
  `WireLimits.OfflineBlankLineExceeds`). An attempt exceeds a limit exactly if its unit was queued whole and is no
  legal chunk itself (`WireLimits.AttemptExceedsIff`).
- Satori attribute values come back escaped, so a picture address with `&` changes
  (`SatoriRoundTrip.QueryAddressChanges`); `SatoriRoundTrip.RoundTripIffCanonical` says which messages survive.
- The retry after a panic sends again what was already sent if the panic came after the Messenger call
  (`PipelineGuarantees.RecorderPanicResends`), exactly then (`PipelineGuarantees.SentTwiceIff`).
- A delivery row can stay in sending: after a panic inside the Messenger, of the closing hook call alone, or of the
  message printer (`LedgerOfSends.MessengerPanicStrandsRow`, `HookPanicStrandsRow`, `BrokenMessageStrandsRow`). One
  send leaves a row there exactly if an attempt opens one and closes none, unless the retry closes it in place of one
  it could not open (`LedgerOfSends.SendLeavesRowIff`); sends that overlap, and whose openings work, leave one exactly
  if one of them is not clean (`LedgerOfSends.OverlappingSendsLeaveNoneIff`); for any calls at all see
  `DeliveryLedger.RowLeftIff`.
- Two overlapping sends of one route can exchange their results (`DeliveryLedger.OverlapExchangesResults`). Each row
  gets the result of its own send exactly if on its route sends end in the order they began
  (`LedgerOfSends.OwnResultIffInOrder`).
- A snapshot that repeats a key hides a surplus projection (`ProjectionSync.DuplicateHidesExtra`). It repeats one when
  two database keys differ by a leading zero (`ProjectionSync.SnapshotRepeatsRow`); the bot's own writers print numbers
  without one, so only a database edited by hand holds such keys. What is kept is the same map
  exactly if both sides have equally many distinct keys (`ProjectionSync.KeptIsSameMapIff`).
- Keys can collide (`ProjectionSync.StoredKeysCollide`), though not for the sites and types that come with the bot,
  which hold no colon: it takes a third-party concern or an edited database. On rows without colons the comparison is
  exact if the rows differ (`ProjectionSync.PlainSnapshotIsExact`). A stored key is its row's own exactly if neither site nor
  types hold a colon (`ProjectionSync.StoredKeyIsOwnIff`), a derived key its record's own exactly if no separator
  stands inside the fields (`ProjectionSync.DerivedKeyIsOwnIff`).
- Validation does not look into arrays inside arrays (`ConfigRedaction.NestedArrayIsMissed`); it agrees with
  redaction exactly when those are clean (`ConfigRedaction.AcceptedUnchangedIff`).

## Model

| member | source | states |
|---|---|---|
| Decimal.ParseAfterFormat | adapter/messenger.go:483-491 | every 64-bit target survives being printed and parsed, and never prints as "all" |
| Decimal.ParsesIff | adapter/messenger.go:803-811 | exactly digits behind an optional sign whose value fits 64 bits are parsed, as that value |
| Segments.BuildMessageSegments | adapter/messenger.go:473-554 | the loop yields, in order, the segment of every element that has one |
| Segments.ParseChunkToElements | adapter/messenger.go:789-868 | the loop yields one element per segment, in order |
| Segments.RewireRoundTrip | adapter/messenger.go:473-554 | segments turned into elements and back are the same, but every face has id 0 |
| Segments.WireFidelity | adapter/messenger.go:813-824 | they are exactly the same if and only if no face has a non-zero id |
| Segments.FaceIdIsLost | adapter/messenger.go:492-496 | face 14 goes out as face 0 |
| Segments.ElementsSurvive | adapter/messenger.go:789-868 | every element that has a segment comes back as it was, but for the id of a face and the missing file name of a picture |
| Segments.EverybodyIff | adapter/messenger.go:482-491 | a mention is of everybody exactly if its target is 0, and otherwise names it in digits |
| Segments.AnyMention | adapter/messenger.go:800-812 | a mention of any text is of the number it is, and of everybody if it is none |
| TextSplit.SplitTextSmartWithLimit | adapter/messenger.go:613-688 | the searching loops compute the specified cut |
| TextSplit.FindPunctuation | adapter/messenger.go:649-668 | the three nested loops find the furthest end of any punctuation mark inside the window |
| TextSplit.SplitterSpecification | adapter/messenger.go:611-688 | a prefix within the limit; a newline close to the limit wins, else the furthest of last newline and last punctuation; hard exactly when neither exists |
| TextSplit.EmptyPartIffBlocked | adapter/messenger.go:645-687 | the part is empty exactly when the window opens with two or more newlines, has no later one, and no punctuation is preferred |
| TextSplit.PunctuationByRune | adapter/messenger.go:628-668 | a position ends a punctuation mark exactly if one of fifteen runes or two dashes stand before it |
| TextSplit.WholeIffFits | adapter/messenger.go:614-624 | the whole text comes back exactly if it fits, and then not as a hard cut |
| TextSplit.SkippedIffSoft | adapter/messenger.go:757-763 | newlines behind a cut are skipped exactly if the cut is soft |
| Chunker.Packer.Flush | adapter/messenger.go:704-711 | a non-empty current chunk is moved to the chunks and the counters are reset |
| Chunker.Packer.PlaceText | adapter/messenger.go:725-765 | one pass of the text loop: flush, place, or split, with the remainder stripped of newlines after a soft cut |
| Chunker.Packer.AddText | adapter/messenger.go:722-765 | the loop ends with the packed text, or answers false where the original would repeat the same state for ever |
| Chunker.Packer.AddSegment | adapter/messenger.go:713-782 | one segment: alone, packed text, image with its budget, mark with its length, or dropped |
| Chunker.BuildMessageChunks | adapter/messenger.go:696-786 | the chunks of a message from its elements |
| Chunker.NoneIffNeverEnds | adapter/messenger.go:725-765 | "no result" means exactly that no number of passes places the whole text |
| Chunker.NeverEndsIffBlocked | adapter/messenger.go:743-748 | the loop never ends exactly when some remainder it reaches meets an empty chunk and a blocked window |
| Chunker.StuckAtStartOrHardCut | adapter/messenger.go:757-763 | only the start of a text or the place behind a hard cut can block: a soft cut strips the newlines that would |
| Chunker.MessageNeverEndsIffBlocked | adapter/messenger.go:713-782 | a message is not packed exactly when one of its texts, from where the segments before it left the packer, meets an empty chunk and a blocked window at such a place |
| Chunker.SingleNewlinesAlwaysPack | adapter/messenger.go:725-765 | a text without two newlines in a row is always packed |
| Chunker.MessagesWithoutBlankLinesPack | adapter/messenger.go:696-786 | so is a message of such texts |
| Chunker.LeadingNewlinesNeverEnd | adapter/messenger.go:743-748 | two newlines and 4499 or more letters are never packed |
| Chunker.ChunksRespectLimits | adapter/messenger.go:690-786 | every chunk is non-empty, has at most 20 images and 4500 characters, both by the estimate and by what the packer charges, and a video, file, record or forward is alone |
| ChunkBreaks.ChunksBreakWhereTheyMust | adapter/messenger.go:713-782 | two neighbouring chunks are separated only by a stand-alone segment, before an image or mark that is one too many, before a text of which the splitter finds no part for the room left, or inside a text, where the splitter ends its part for the room left; inside a chunk texts are whole |
| ChunkContent.ChunksAreFaithful | adapter/messenger.go:696-786 | flattened, the chunks are the message in order: texts cut at runs of newlines, json dropped, all else unchanged |
| ChunkContent.ChunksKeepEveryVisibleRune | adapter/messenger.go:683-687 | no rune but newlines is lost, repeated or moved |
| ChunkGroups.UncutIffGroupsFit | adapter/messenger.go:690-695 | any message is cut at nothing but stand-alone segments exactly if every group of segments between them is within both budgets, a face counting ten |
| ChunkGroups.FittingMessageIsOneChunk | adapter/messenger.go:774-781 | combinable segments become exactly one chunk, or none if nothing is left, exactly if they are within both budgets, where a face counts ten |
| ChunkGroups.FaceSurcharge | adapter/messenger.go:571-590 | what the packer charges is the estimate and five more for every face |
| ChunkGroups.FacesSplitMessage | adapter/messenger.go:774-781 | a text of 4400 runes and eleven faces is 4455 by the estimate and becomes two chunks, the last face alone |
| ChunkContent.ChunksGoOutAsPacked | adapter/messenger.go:451-457 | a chunk rebuilt from its elements is the packed one exactly when it has no face with a non-zero id |
| OfflineQueue.Messenger.SaveOfflineMsg | adapter/messenger.go:1795-1803 | appends, dropping the oldest entry of a full queue |
| OfflineQueue.Messenger.TakeOfflineMsgs | adapter/messenger.go:1813-1819 | hands over the whole queue and leaves it empty |
| OfflineQueue.Messenger.QueueUnsentChunks | adapter/messenger.go:451-457 | the failed chunk and the ones after it are saved in order, no earlier one |
| OfflineQueue.Messenger.SendChunks | adapter/messenger.go:300-372 | offline: queued whole, nothing attempted; else attempts stop at the first failure, and only "not sent" queues the rest |
| OfflineQueue.Messenger.FlushOfflineQueue | adapter/messenger.go:1845-1912 | while others go on saving, each entry taken gets one fate in order, and the queue is afterwards the newest 100 of what was saved meanwhile, the entries not sent among it; a flush is scheduled iff there are any |
| OfflineQueue.AloneSavesRequeued | adapter/messenger.go:1869-1900 | if nobody else saves, what is saved during a flush are the entries put back, in order |
| OfflineQueue.SavedAllIsNewest | adapter/messenger.go:1795-1803 | after any saves the queue is the newest 100 of everything appended |
| OfflineQueue.RequeuedExactlyNotSent | adapter/messenger.go:1869-1900 | an entry comes back exactly if its attempt was "not sent" |
| DeliverySafety.ReachableInv | adapter/messenger.go:1795-1912 | every run of sends, timers, flushes, reconnects and Stop keeps the invariant |
| DeliverySafety.AtMostOnce | adapter/messenger.go:323-369 | in every interleaving an attempt followed by another of the same unit was "not sent" and wrote nothing, so at most one attempt of a unit writes a frame; all its attempts say the same |
| DeliverySafety.EveryUnitIsSomewhereOnce | adapter/messenger.go:1853-1911 | every unit is at any time exactly once with a goroutine, in the queue, or finished |
| Endings.EveryEndHasOneReason | adapter/messenger.go:323-369 | over every run each unit that is never attempted again has exactly one reason: an attempt that gave it up, such an attempt of an earlier chunk of its own send (and it was never attempted), the flush that took it began after it had expired, or a full queue |
| Endings.AnswerEndsIff | adapter/messenger.go:1869-1900 | an attempt is its unit's end exactly if the answer was not "not sent", or there was no queue for it |
| Endings.BehindIff | adapter/messenger.go:323-369 | a unit ends behind an attempt exactly if that was a direct attempt that failed without queueing and the unit is a later chunk of the same send |
| Endings.TooOldIff | adapter/messenger.go:1859-1865 | a unit ends as expired by a flush exactly if that flush took this save of it, began later after its first save than entries are kept, and no goroutine holds it any more |
| Endings.UnansweredIsUnwritten | adapter/messenger.go:1859-1909 | a unit that ended for any other reason never had a frame written |
| Endings.PushedOutIff | adapter/messenger.go:1795-1819 | a saved entry is pushed out exactly if a hundred more are saved before a flush takes the queue |
| DeliverySafety.QueueHoldsNewest | adapter/messenger.go:1795-1819 | the queue is always the newest at most 100 entries saved since it was last taken |
| DeliverySafety.ExpiredUnitsAreNotAttempted | adapter/messenger.go:1859-1865 | no flush attempts a unit whose first save lies further back than the expiry time, also after requeues |
| DeliverySafety.FlushesExclude | adapter/messenger.go:1849-1850 | never two goroutines inside the flush |
| FlushOrder.FlushesKeepOrder | adapter/messenger.go:1855-1911 | over every run flushes attempt entries strictly in the order in which they were saved or put back, each save at most once, and the queue is in that order |
| DeliverySafety.OneTimer | adapter/messenger.go:1825-1829 | at most one timer armed, and only while the flag is set |
| WakeUps.NoLostWakeUp | adapter/messenger.go:1825-1858 | in every run whose timer callbacks read the connection consistently, a waiting queue has an armed timer or a goroutine at a place from which, while the connection is up, it comes to take the queue |
| WakeUps.WakeUpIsLostIffStranded | adapter/messenger.go:1836-1854 | a step loses the wake-up exactly if it is a callback whose two reads disagree while nothing else covers the queue |
| WakeUps.FlickerStrands | adapter/messenger.go:1836-1854 | a run that ends with a queued message, a connection, and nobody responsible |
| WakeUps.StrandedUntilNextEvent | adapter/messenger.go:1825-1842 | from a stranded state nothing but a send or a reconnect attempts anything or changes the queue, whatever runs and however long |
| FlushProgress.EveryScheduleTakes | adapter/messenger.go:1825-1855 | while the connection is up and a timer or such a goroutine is there, then in whatever order timers and goroutines go on and whatever the adapter answers, the queue is taken within a bound computed from the state, and until then somebody can go on |
| FlushProgress.CoveredQueueIsTaken | adapter/messenger.go:1825-1855 | so from every reachable covered waiting state with a connection there are steps of timers and goroutines alone after which the queue is taken |
| FlushProgress.AttendedIff | adapter/messenger.go:1825-1855 | exactly if a timer is armed or a goroutine attends to the queue, no schedule gets stuck before it is taken |
| FlushProgress.ReconnectRecovers | adapter/messenger.go:246-264 | after a reconnect a queue that is ready is attended from every reachable state, stranded or not, and can be taken |
| FlushProgress.RecoversIff | adapter/messenger.go:246-264 | one step lets a stranded queue be taken exactly if it is a reconnect or a send with something to send |
| OutsideEvents.QuietRunsLoseNothing | adapter/messenger.go:1825-1842 | on every run without a loss of the connection between a callback's two reads a waiting queue has somebody responsible |
| OutsideEvents.StopEndsTimers | adapter/messenger.go:1831-1835 | after Stop no timer callback that has not looked yet reaches the queue, on any run |
| OutsideEvents.NothingFlushesAfterStop | adapter/messenger.go:1831-1835 | a timer that fires after Stop never becomes a flush |
| OutsideEvents.AttemptedIffNotExpired | adapter/messenger.go:1859-1865 | a message that waited this long is attempted by the flush exactly if that is within the expiry time, and otherwise given up |
| ChunkOrder.ChunksGoInOrder | adapter/messenger.go:323-369 | over every run a chunk is tried directly only after all chunks before it in its message were sent directly, and queued only after each of them was sent directly or queued |
| AloneRuns.FlushAloneIsSequential | adapter/messenger.go:1845-1912 | a flush that nobody disturbs does in its small steps what the sequential flush does: same queue, same attempts in order, same decision to schedule |
| AloneRuns.SendAloneIsSequential | adapter/messenger.go:323-372 | so does a send: the chunks up to the first failure in order, and the same queue |
| WireLimits.LegalIffGoodRun | adapter/messenger.go:302-307 | in every interleaving, whatever is sent while offline, all units are legal chunks exactly if every message queued whole is one |
| WireLimits.AttemptExceedsIff | adapter/messenger.go:690-786 | an attempt, direct or by a flush, is no legal chunk exactly if its unit was queued whole and is none |
| WireLimits.AttemptsRespectLimits | adapter/messenger.go:690-786 | so every attempt of a run is a legal chunk if the messages queued whole are |
| WireLimits.OfflineMessageGoesOutWhole | adapter/messenger.go:302-307 | any message sent while offline can go out as one piece, also one that the packer never finishes |
| WireLimits.OfflineBlankLineExceeds | adapter/messenger.go:302-307 | such a message: two newlines and 4499 letters make an attempt with 4501 characters |
| WireLimits.OfflinePicturesExceed | adapter/messenger.go:302-307 | 21 pictures sent while offline make an attempt with more than 20 |
| WsClient.Client.Stop | adapter/wsclient.go:158-187 | forgets the connection and closes exactly the pending channels |
| WsClient.Client.CloseResponseChannels | adapter/wsclient.go:314-317 | the loop over a changing map closes every pending channel once and no other |
| WsClient.Client.Connect | adapter/wsclient.go:278-289 | the new connection replaces the old one |
| WsClient.Client.EndConnection | adapter/wsclient.go:305-321 | cleans up only if the ended connection is the current one |
| WsClient.Client.Register | adapter/wsclient.go:558-566 | a fresh channel is pending under the tag |
| WsClient.Client.TakeResponse | adapter/wsclient.go:430-447 | a known tag leaves the map with its channel; an unknown one changes nothing |
| WsClient.Client.EndRequest | adapter/wsclient.go:576-589 | closes the channel only if the entry is still pending |
| WsClient.CountersTellUses | adapter/wsclient.go:427-447 | for any uses of a channel, the first value fills its slot and is never overwritten, and every other use is counted as a closing, a send after closing or a send that found it full |
| WsRuns.ChannelsAreSafe | adapter/wsclient.go:557-617 | in every interleaving a channel is closed at most once, gets at most one value, never both, is never sent to after closing and never found full |
| WsRuns.CallersGetTheirOwnAnswer | adapter/wsclient.go:427-447 | a caller only gets the answer bearing its own tag |
| WsRuns.OutcomesFitFrames | adapter/wsclient.go:590-637 | "not sent" only if nothing was written, success only after exactly one frame, never two frames |
| WsAnswers.AnswerTellsWhatHappened | adapter/wsclient.go:587-616 | over every run a caller gets sent, rejected, not sent or unknown exactly by what happened to its request: an accepting or refusing answer of its own, a request never encoded, no connection when it was read, a write tried and no answer; the response it gets is the one received, and a frame is counted exactly if a write reached the wire |
| WsAnswers.AnswerIsTakenOnce | adapter/wsclient.go:587-603 | over every run each answer put into a channel is still in it or was taken by its caller, once |
| WsAnswers.RequestIsWritten | adapter/wsclient.go:557-587 | a new request on a new connection can be written to it and then awaits the answer under its tag |
| WsAnswers.AwaitedAnswerArrives | adapter/wsclient.go:427-447 | from every reachable state the answer to an awaited request can be looked up, delivered, received and returned |
| WsAnswers.EndWakesCallers | adapter/wsclient.go:305-321 | the end of the current connection and Stop close every pending channel and wake its caller with an unknown result |
| WsAnswers.EntryLeavesClosed | adapter/wsclient.go:569-587 | an entry that leaves the map without its answer has its channel closed, once |
| WsRuns.TakenAnswersAreDelivered | adapter/wsclient.go:435-446 | an answer taken from the map always reaches its waiting channel |
| WsRuns.PendingRequestsAreOpen | adapter/wsclient.go:576-589 | a pending entry belongs to the one request with its tag, not yet returned |
| WsRuns.NothingStaysPending | adapter/wsclient.go:576-589 | when all requests have returned nothing is pending |
| WsRuns.EntryLeavesExactly | adapter/wsclient.go:158-171 | an entry leaves exactly by its answer, its own cleanup, Stop, or the end of the current connection |
| WsRuns.ConnectedIffConnection | adapter/wsclient.go:162-182 | the flag is set exactly when there is a connection |
| WsRuns.CurrentConnectionStays | adapter/wsclient.go:305-321 | late cleanups of any older connections leave the current one in place |
| SatoriMarkup.RenderMessageContent | adapter/satori/adapter.go:1667-1728 | the loop prints each segment in order |
| SatoriMarkup.ParseSatoriContentWithMap | adapter/satori/adapter.go:1570-1665 | the loop over the tags, with its index, quote end and id maps, reads the specified result |
| SatoriMarkup.Parser.ReadOneTag | adapter/satori/adapter.go:1578-1657 | one tag: pending text, the tag's segment, and the new index |
| SatoriMarkup.Parser.ReadQuote | adapter/satori/adapter.go:1587-1606 | a numeric quote is remembered under its 32-bit id, and the index jumps behind the closing tag |
| SatoriRoundTrip.UnescapeAfterEscape | adapter/satori/adapter.go:1749-1757 | unescaping undoes escaping on every text |
| SatoriRoundTrip.EscapedHasNoMarkup | adapter/satori/adapter.go:1749-1752 | escaped text holds no bracket and no quotation mark |
| SatoriRoundTrip.EscapeIsIdentityIffPlain | adapter/satori/adapter.go:1749-1752 | escaping changes a text exactly if it holds one of the four characters |
| SatoriRoundTrip.TagReadsBack | adapter/satori/adapter.go:1606-1652 | a printed at, img, audio, video or file tag is read as its segment with escaped values |
| SatoriRoundTrip.ParseAfterRender | adapter/satori/adapter.go:1570-1665 | parsing what was printed yields the normal form, for every message and whatever the maps hold, and the maps then remember exactly the quotes read |
| SatoriRoundTrip.NormalIffCanonical | adapter/satori/adapter.go:1739-1744 | a message is its own normal form exactly if no two texts are neighbours and every segment comes back as itself |
| SatoriRoundTrip.RoundTripIffCanonical | adapter/satori/adapter.go:1570-1728 | parsing after printing returns exactly those messages unchanged |
| SatoriRoundTrip.QueryAddressChanges | adapter/satori/adapter.go:1731-1737 | a picture address with `&` comes back with `&amp;` |
| SatoriQuotes.QuotedWordsAreSkipped | adapter/satori/adapter.go:1586-1606 | for any text, quote tag with a numeric id, body up to its closing tag and printed message behind it: the text, the reply, the tags of the body without its words, and the message; the id is remembered, and the channel exactly if there is one |
| SatoriQuotes.NoTextInTags | adapter/satori/adapter.go:1607-1655 | what the tags of a body add is never text |
| SatoriQuotes.QuoteCloseIff | adapter/satori/adapter.go:1600-1606 | the closing tag that ends a quote is the first one behind it |
| SatoriReading.TagAtIff | adapter/satori/adapter.go:39-39 | a match of the tag pattern is a bracket, a longest name, anything without a closing bracket, and one |
| SatoriReading.AttrAtIff | adapter/satori/adapter.go:40-40 | a match of the attribute pattern is a name, an equals sign and a value in quotes |
| SatoriReading.AttributesRead | adapter/satori/adapter.go:1730-1736 | any printed list of attributes is read as it was printed, escaped; of equal names the last wins |
| SatoriReading.TagIsReadIff | adapter/satori/adapter.go:1607-1650 | a tag is read as one segment of its kind exactly if it has what the kind needs, under either name of it |
| SatoriReading.PrintsNothingIff | adapter/satori/adapter.go:1667-1728 | a segment prints nothing exactly if it holds nothing that its kind is printed for |
| SatoriReading.QuoteIdComesBack | adapter/satori/adapter.go:1711-1723 | a reply to a quote that has been read is printed with the id as it came |
| EmitQueue.EmitQueue.Add | utils/emitQueue.go:38-63 | merges the kinds of a known id, appends a new one, and puts the cursor on a single element |
| EmitQueue.EmitQueue.Update | utils/emitQueue.go:65-79 | replaces the kind of the entry with the id |
| EmitQueue.EmitQueue.Delete | utils/emitQueue.go:81-101 | removes the entry and moves a cursor that stood on it to the next |
| EmitQueue.EmitQueue.EmitNext | utils/emitQueue.go:118-134 | emits the element at the cursor, from the front if it is nil, and moves on |
| EmitQueue.AlwaysValid | utils/emitQueue.go:38-101 | ids stay unique and the cursor nil or in the list, over every sequence of operations |
| EmitQueue.KindsAreMerged | utils/emitQueue.go:38-66 | over every run, what is known of an id neither updated nor deleted is all that was ever added for it |
| EmitQueue.EmittedKindIsCurrent | utils/emitQueue.go:118-131 | a queue that is not empty emits, and what it emits carries what is known of its id at that moment |
| EmitQueue.Fairness | utils/emitQueue.go:118-131 | an element never deleted is emitted within as many emissions as are ahead of it plus the additions |
| EmitQueue.EmittedWithinListLength | utils/emitQueue.go:118-131 | which is at most the list's length plus the additions |
| EmitQueue.EqualShares | utils/emitQueue.go:118-131 | over every run two elements that are never deleted are emitted equally often, up to one |
| DeliveryLedger.DeliveryHook.OnDelivery | admin/server.go:656-706 | one hook call: a row opened and queued, a skipped row, or the oldest queued row closed, for any failing writes |
| DeliveryLedger.DeliveryHook.TransitionDelivery | internal/platformdb/phase5_repository.go:729-806 | a row changes status only along the repository's allowed transitions |
| DeliveryLedger.WhatMayFollow | internal/platformdb/phase5_repository.go:788-806 | a result is never rewritten, every open row can still fail, only a row in sending can have been sent, and where every other status comes from |
| DeliveryLedger.BooksAreKept | admin/server.go:648-706 | over every interleaving, with any failing writes, each route's rows are closed in the order they were opened and the rest wait in its queue |
| DeliveryLedger.QueuedIdsDistinct | admin/server.go:671-705 | no id waits twice, in one queue or in two |
| DeliveryLedger.OnlySendingRowsChange | admin/server.go:649-706 | over any calls a row that is not in sending keeps its status |
| DeliveryLedger.EveryRowHasItsCall | admin/server.go:656-680 | every row is some call's, numbered in order |
| DeliveryLedger.UnqueuedRowStays | admin/server.go:656-680 | a skipped message leaves a row that says so for ever, a row whose second write fails stays planned for ever, and neither waits for a closing |
| DeliveryLedger.NoEmptyQueues | admin/server.go:685-703 | no empty queue is kept for a route |
| DeliveryLedger.SendingIffWaiting | admin/server.go:649-655 | if closing writes succeed, the rows in sending are exactly the queued ones |
| DeliveryLedger.RowLeftIff | admin/server.go:649-655 | for any calls with any failing writes a row is left in sending exactly if one waits in a queue or was taken out of it unwritten |
| DeliveryLedger.QueueLength | admin/server.go:671-705 | if closings never run ahead, a route's queue is as long as its openings minus its closings, and a closing not carried out always leaves a row |
| DeliveryLedger.EvenRunLeavesNoneIff | admin/server.go:649-655 | then no row is left in sending exactly if all is closed and every closing is carried out |
| DeliveryLedger.SettledRunLeavesNoneSending | admin/server.go:649-655 | however openings fail, if every opening is followed by a closing and all closings are carried out no row is left in sending |
| DeliveryLedger.OverlapExchangesResults | admin/server.go:696-704 | two overlapping sends of a route that end the other way round get each other's result |
| SendPipeline.Sender.SendGroupMessageObserved | lsp/module.go:1307-1423 | the ordered effects and the result of a send with its one retry after a panic, or the panic that escapes when the message cannot be printed |
| SendPipeline.Sender.Attempt | lsp/module.go:1331-1423 | one attempt: the checks, the hooks in order, and the Messenger call |
| SendPipeline.Sender.CallEnforceHook | lsp/module.go:1425-1437 | a panic of the enforce hook is a failed hook |
| SendPipeline.Sender.DropNil | lsp/module.go:1346-1348 | the filter keeps the non-nil elements in order |
| SendPipeline.Sender.SendPrivateMessage | lsp/module.go:1271-1300 | a private message passes no hook and its panics escape |
| SendPipeline.Sender.SendForward | lsp/module.go:1492-1563 | a forward passes the enforce, hold and delivery hooks in order, once, and its panics escape |
| SendPipeline.Sender.SendMsgObserved | lsp/module.go:1172-1253 | for both kinds of target: one failure for no message, one result for forward nodes, else message after message, in order, until one fails or panics |
| SendResults.SendReturnsMessengersMessage | lsp/module.go:1408-1423 | a send that goes through, at once or on the retry, returns the Messenger's message, or id -1 with what was sent if there is none |
| SendResults.SendSaysIff | lsp/module.go:1307-1423 | exactly when a send panics, answers id -1, says it was dropped, and says it was held, over both attempts |
| SendResults.TwoPanicsAnswer | lsp/module.go:1308-1330 | if both attempts panic the answer is id -1 with the message as it was left: without nil elements exactly if one attempt came past the check for muting |
| SendResults.AttemptAnswers | lsp/module.go:1331-1423 | the answer of an attempt, case by case, told from what the hooks and the Messenger answer |
| SendResults.PrivateReturns | lsp/module.go:1271-1300 | a private send calls the Messenger once or not at all, and its answer |
| SendResults.EveryMessageIsSent | lsp/module.go:1235-1247 | if every message goes through and none is answered with id -1, each is sent once and the results are the Messenger's, in order |
| SendResults.EveryPrivateMessageIsSent | lsp/module.go:1235-1247 | the same for private messages, with exactly what is sent |
| SendResults.ForwardAnswers | lsp/module.go:1492-1563 | the answer of a forward, case by case |
| SendResults.NoticeIsForwardedIff | lsp/module.go:1172-1234 | a notice is forwarded exactly if it has forward nodes, and then nothing of it is sent as a message; no notice is one failure |
| SendResults.NoticeSendsEveryMessage | lsp/module.go:1172-1253 | a notice without forward nodes is sent message by message, and one without messages is one failure |
| SendReports.AttemptReports | lsp/module.go:1360-1406 | with a trace and the hook, an attempt that the Messenger answers asks the hooks, reports the opening, sends the message, and tells hook and observer the same result |
| SendReports.UnsentReports | lsp/module.go:1346-1380 | a held message is reported as held and an empty one as skipped; a dropped one and one whose hold fails are not reported |
| SendReports.UntracedIsNotReported | lsp/module.go:1381-1406 | without a trace no send and no forward is reported at all |
| SendReports.ForwardReports | lsp/module.go:1524-1563 | the same for forwards, with the result told from the error alone |
| ForwardSends.ForwardFailsOpenIff | lsp/module.go:1506-1513 | a forward does the same as without the enforce and delivery hooks exactly if enforce did not drop it |
| ForwardSends.ForwardSentOnce | lsp/module.go:1492-1550 | it reaches the Messenger once, or never if the bot is missing or a hook stands in its way, also after a panic |
| ForwardSends.ForwardMakesCalls | lsp/module.go:1524-1535 | its hook calls are an opening and, if the Messenger returns, a closing |
| ForwardSends.ForwardLeavesRowIff | lsp/module.go:1524-1535 | it leaves a row in sending exactly if it opens one and the Messenger or the closing call panics or the closing write fails |
| PipelineGuarantees.AttemptFailsOpenIff | lsp/module.go:1360-1367 | an attempt does the same as without the enforce and delivery hooks exactly if enforce did not drop it |
| PipelineGuarantees.FailOpen | lsp/module.go:1307-1423 | whatever the two hooks do short of a drop, panics included, Messenger calls and result of the whole send are those without them |
| PipelineGuarantees.AttemptSends | lsp/module.go:1331-1385 | an attempt calls the Messenger once if nothing stands in its way and the message can be printed, else never |
| PipelineGuarantees.SentTwiceIff | lsp/module.go:1308-1330 | at most two Messenger calls, and two exactly if the first attempt panics after its call and the retry gets through |
| PipelineGuarantees.HoldFailsClosed | lsp/module.go:1368-1380 | a migration hook that holds, fails or panics keeps the Messenger from being called, also on the retry |
| PipelineGuarantees.RecorderPanicResends | lsp/module.go:1394-1406 | a recorder panic after a successful call sends the message again |
| PipelineGuarantees.PayloadKept | lsp/module.go:1346-1385 | every Messenger call carries exactly the non-nil elements |
| PipelineGuarantees.StopsAtFirstFailure | lsp/module.go:1165-1253 | at least one result unless a panic escapes, only the last can be id -1, and it is if a message was left unsent |
| PipelineGuarantees.NothingAfterFailure | lsp/module.go:1235-1247 | messages after the first failure or escaping panic have no effect at all |
| LedgerOfSends.StatusIsEvidence | lsp/module.go:1447-1466 | the status always may follow sending; it is sent only with a message id, no error and no queueing; and exactly when it is queued, not sent or rejected |
| LedgerOfSends.SendMakesCalls | lsp/module.go:1381-1393 | the hook calls of a send, each ended as its attempt's hook returned or panicked |
| LedgerOfSends.SendIsClean | lsp/module.go:1381-1393 | a clean send closes what it opens and its closings are carried out; if its openings work, only a clean one does |
| LedgerOfSends.SendLeavesRowIff | lsp/module.go:1308-1393 | exactly when a send on its own leaves a row in sending, over all panics of hooks, printer and Messenger and all failing writes |
| LedgerOfSends.InterleavingKeeps | admin/server.go:649-655 | that closings never run ahead, or that every opening is followed by a closing, holds of an interleaving if it holds of each thread |
| LedgerOfSends.OverlappingSendsLeaveNoneSending | admin/server.go:649-655 | clean sends on any routes, interleaved in any way and whatever openings fail, leave no row in sending |
| LedgerOfSends.OverlappingSendsLeaveNoneIff | admin/server.go:649-655 | if their openings work they leave none exactly if all are clean |
| LedgerOfSends.MessengerPanicStrandsRow | lsp/module.go:1381-1393 | a panic inside the Messenger followed by a successful retry leaves a row in sending |
| LedgerOfSends.HookPanicStrandsRow | lsp/module.go:1439-1445 | so does a panic of the closing hook call alone |
| LedgerOfSends.BrokenMessageStrandsRow | lsp/module.go:1384-1385 | and a message the printer panics on, which is never sent |
| LedgerOfSends.OwnResultIffInOrder | admin/server.go:696-704 | every closing call reaches a row its own send opened exactly if on the route sends end in the order they began |
| PreSendHooks.TargetForLegacyGroup | admin/phase5_integration.go:35-56 | a target is found exactly if precisely one resolved group target has the id |
| PreSendHooks.MatchesIff | admin/phase5_integration.go:43-52 | a target matches exactly if it is a resolved group whose id is the wanted one but for spaces around them |
| PreSendHooks.EvaluateEnforceRoute | admin/phase5_integration.go:109-175 | a drop needs an unambiguous route, enforce mode, and a single suppressing result already persisted; every other outcome names its reason |
| PreSendHooks.NoDropNoDifference | admin/phase5_integration.go:109-112 | unless an attempt's facts are that, the whole send is the one without the two hooks |
| PreSendHooks.DroppedIffFacts | admin/phase5_integration.go:109-112 | a reached attempt is dropped exactly if its facts are that and the hook does not panic |
| PreSendHooks.CurrentMigration | admin/migration_hold.go:34-80 | affected exactly if a committing migration maps the target away and the trace is valid; unreadable state fails |
| PreSendHooks.HoldMessage | admin/migration_hold.go:89-154 | the decisions over the up to three moments at which the hook looks |
| PreSendHooks.HoldSaysIff | admin/migration_hold.go:89-154 | exactly when a message passes, is held, and fails |
| PreSendHooks.PassNeedsAMoment | admin/migration_hold.go:130-154 | a group message passes only at a moment that surely does not own it or with the coordinator's consent |
| PreSendHooks.UnownedPasses | admin/migration_hold.go:134-141 | a target no migration owns is never touched |
| PreSendHooks.OwnedIsNeverSent | admin/migration_hold.go:71-78 | while a committing migration may own the target the Messenger is not called, not even on the retry, also if the hook panics |
| ProjectionSync.ReconcileProjection | internal/adminapi/domain.go:1250-1282 | the loops keep the projections exactly if counts agree and every record finds its equal |
| ProjectionSync.KeptIffMirrored | internal/adminapi/domain.go:1259-1281 | that means equal counts, no record contradicting another, and every record mirrored |
| ProjectionSync.KeptIsSameMapIff | internal/adminapi/domain.go:1259-1281 | what is kept is the same map exactly if both sides have equally many distinct keys |
| ProjectionSync.SameMapIsKeptIff | internal/adminapi/domain.go:1259-1281 | the same map is kept exactly if counts agree and no record contradicts another |
| ProjectionSync.UniqueRecordsAreExact | internal/adminapi/domain.go:1259-1281 | unique record keys are enough for the check to be exact, whatever the projections |
| ProjectionSync.SnapshotRepeatsRow | lsp/buntdb/key.go:334-348 | two database keys that differ by a leading zero are read as one row |
| ProjectionSync.RowReadsBack | lsp/buntdb/key.go:334-348 | the numbers the bot itself writes are read back as the row they were written for |
| ProjectionSync.DuplicateHidesExtra | lsp/subscription/service.go:266-272 | a snapshot that repeats a row keeps a surplus projection |
| ProjectionSync.DerivedKeyIsOwnIff | internal/adminapi/domain.go:1284-1289 | no record with other fields shares a derived key exactly if no colon stands in any field and no bar in the two types |
| ProjectionSync.StoredKeyIsOwnIff | lsp/subscription/service.go:266-272 | no other row of a snapshot shares a stored key exactly if neither its site nor its types hold a colon |
| ProjectionSync.PlainSnapshotIsExact | lsp/subscription/service.go:266-272 | rows without colons have unique keys exactly if they differ, and then kept means equal counts and equal maps |
| ProjectionSync.StoredKeysCollide | lsp/subscription/service.go:266-272 | two rows of different sites with one stored key |
| ConfigRedaction.RedactConfig | internal/adminapi/domain.go:213-234 | the loops redact the whole tree |
| ConfigRedaction.ValidateConfigObject | internal/adminapi/domain.go:246-267 | the loops accept exactly the objects without a sensitive key where they look |
| ConfigRedaction.SensitiveIff | internal/adminapi/domain.go:236-244 | a key is sensitive exactly if one of the names stands somewhere in it, in any case and with underscores, hyphens or blanks |
| ConfigRedaction.RedactionIsClean | internal/adminapi/domain.go:213-234 | after redaction every sensitive key at any depth holds the marker |
| ConfigRedaction.UnchangedIffClean | internal/adminapi/domain.go:213-234 | redaction leaves a tree unchanged exactly if that was so before |
| ConfigRedaction.RedactTwice | internal/adminapi/domain.go:213-234 | redacting twice is redacting once |
| ConfigRedaction.OpenPlacesStay | internal/adminapi/domain.go:213-234 | on every path without a sensitive key the same place exists, with the same keys, lengths and scalars |
| ConfigRedaction.SecretsAreGone | internal/adminapi/domain.go:218-221 | on every path through a sensitive key there is the marker and nothing below |
| ConfigRedaction.AcceptedUnchangedIff | internal/adminapi/domain.go:246-267 | an accepted configuration is not changed by redaction exactly if its arrays inside arrays are clean |
| ConfigRedaction.AcceptedWithoutInnerArraysUnchanged | internal/adminapi/domain.go:246-267 | without an array directly inside an array, whatever is accepted is unchanged by redaction |
| ConfigRedaction.NestedArrayIsMissed | internal/adminapi/domain.go:256-263 | an accepted configuration with a secret that redaction removes |

## Left out

- WakeUps.NoLostWakeUp: assumes the two connectivity reads of one timer firing agree, because the code strands messages when they do not; the exact step condition is `WakeUps.WakeUpIsLostIffStranded`.
- DeliverySafety.AtMostOnce: counts attempts per unit and takes the adapter's outcome as one of those `WsRuns.OutcomesFitFrames` allows; it does not follow one request through both state machines in a single run.
- WsRuns.ChannelsAreSafe: assumes distinct request tags; the code makes them from the action and the clock.
- LedgerOfSends.OverlappingSendsLeaveNoneIff: assumes the openings of all sends work; when some fail, whether a row is left depends on which closing calls come when, and `DeliveryLedger.RowLeftIff` decides it from the calls in their order.
- LedgerOfSends.SendMakesCalls: a write during which the store panics is taken as not done, and the message is not changed by hooks.
- FlushOrder.FlushesKeepOrder: the order is that of saves; an entry put back counts as saved anew, behind what was saved meanwhile, so it can be delivered after entries that followed it.
- LedgerOfSends.OverlappingSendsLeaveNoneSending: overlapping sends are group messages; a forward is covered on its own by `ForwardSends.ForwardLeavesRowIff`.
- PreSendHooks.EvaluateEnforceRoute: takes the repositories', the policy layers' and the runtime's answers as given.
- ProjectionSync.ReconcileProjection: takes the canonical JSON text as a function of the stored text, and does not model the rebuild itself.
- ProjectionSync.StoredKeyIsOwnIff: rows whose id holds a colon are left out, because ids come out of a database key split into exactly three parts.
- EmitQueue.EmitQueue.Delete: the linked list is a sequence and the cursor a place in it, so a removal shifts the places behind it.
- SatoriMarkup.ParseSatoriContentWithMap: the two regular expressions are written as scanners, and the id maps are values handed in and out.
- Hooks are taken not to change the message; the messages a notice is cut into for its target, and the contents of forward nodes, are taken as given.
- The connection state of the messenger is read in one step; the adapter's own online flag is not told apart from the socket's.
- At and face ids that arrive as floating-point numbers: segments built by the messenger never hold them.
- Texts are sequences of runes; invalid UTF-8 is not modelled.
- Offline entries whose target type is neither group nor private, which no caller creates.
- The enabled flag and the expiry time of the queue are fixed during a run.
- `nextInterval` of the emit queue, its condition variable and its channel: timing only.
- The OneBot adapter, which passes the error classes through unchanged, and the Satori adapter's own HTTP sends.
- Sockets, ping and pong, deadlines, sleeps, real clocks, logging and counters.
- Command handlers, templates, list replies, group and friend caches, image processing and proxies.
