# Verified model of the PresenceKit protocols

This project models the self-contained protocols and transformations of the chat
backend and proves what they promise, for every input and over every run. One module
stands for one concern:

- `OwnerTurns`, `OwnerTurnSafety`, `OwnerTurnOutcomes`, `OwnerTurnListing`,
  `OwnerTurnListed`, `OwnerTurnService`: idempotent owner turns -- at-most-once execution
  with durable receipts, what receipts say and answer, crash recovery, retention, keyset
  pagination. The store is a state machine whose steps are the stretches of code between
  two suspensions; the class `Service` performs the same steps in place.
- `ConfigMerge`, `ConfigMergeProofs`, `ConfigControl`: the three-way merge behind
  configuration edits.
- `DeviceQueue`, `DeviceProgress`, `DeviceWs`: the bounded coalescing queue and its
  single writer.
- `LeakFilter`, `ChatStream`: the online leak filter with its 64-character window,
  behind the think buffer.
- `MobileQueue`, `MobileNumbers`, `MobileClient`, `MobileDelivery`, `MobileChannel`: the
  durable sequenced polling queue, when a number returns, a client that polls it, and that
  what is sent arrives.
- `PerceiveGate`: the deduplication gate.
- `Protocol`, `ProtocolText`, `Pairing`, `Replies`, `RepliesMeaning`, `ToolLoop`,
  `ToolLoopHistory`, `ToolLoopProofs`, `ToolLoopWire`: the tool loop, its message history,
  the translation to two wire formats and the normalisation of replies.
- `DiaryMirror`, `DiaryVerdicts`: the revisioned mirror.
- `Backup`, `BackupSelection`: snapshot, verification, restore.
- `NarrativeParser`, `NarrativeRoundTrip`, `NarrativeSegments`: the XML path of the segment parser.
- `UiPush`: blocks and pacing of the typewriter replay.
- `McpRegistry`: ownership in the dynamic tool registry.
- `SafeWrite`, `Ordering`, `Sequences`: what an atomic write can do to a file; the order
  of strings; concatenation.

Where the code updates state in place, a class or a loop does so here and is proved
against a specification function; the properties are lemmas about that function.
Nothing outside (file system, clock, network, model, random draws) is fixed: outcomes of
writes and reads, times, replies and cancellations are parameters of each step, so that
a statement over all runs covers every way they can turn out.

Where the code does less than its comments say, the model follows the code, shows an
input and states exactly when the comment holds:

- the 512-byte limit of a device frame: `DeviceQueue.LimitWithoutMerges`, `LimitWithMerges`;
- a listing without the in-flight test: `OwnerTurnSafety.UnprobedListKeepsOwnership`;
- thinking that is shown: `ChatStream.HiddenIff`;
- a number given twice: `MobileNumbers.NumberReturnsIff`;
- the skipped relay reply and a timeout inside a step: `ToolLoopProofs.RequestsArePaired`,
  `LeftOpenAtTheEnd`; relay calls on the Anthropic wire: `ToolLoopWire.AnthropicRequestsArePaired`;
- revisions that go back: `DiaryMirror.AppliedRisesIff`, `GoesBackIff`;
- a batch that changes rows when sent again: `DiaryMirror.ReplayPairIff` for two items; for
  longer batches `ReplayWithoutOvertakes` is sufficient only;
- a reconnect overlapping a reload: `McpRegistry.AlwaysExactIff`;
- a snapshot that cannot be restored: `Backup.CreatedIsRestorable`.

The perceive gate pops a blocked call's key without looking whose it is. With the guard
as it is, nothing suspends between reserving and popping, so `PerceiveGate.WholeCallsKeepWindow`
holds without a time limit. The lemmas over interleaved calls, among them
`BlockBreaksWindowIff` and its instance `SlowCallBreaksWindow`, concern a guard that suspends.

`safe_write_json` moves the old file to
its backup name before the new one takes its place, so a failure can leave no file where
its log message says the original was kept; the outcome `LostOld` stands for that.

## Model

| member | source | states |
|---|---|---|
| OwnerTurnSafety.RunInv | core/owner_turn_service.py:132-242 | in every run of submits, starts, finishes, crashes, reads, listings and prunings, tasks, log and receipts stay accounted for |
| OwnerTurnSafety.AtMostOncePerReceipt | core/owner_turn_service.py:148-194 | in every run the executor starts for one (caller, client turn id) at most once more than receipts of it were removed by retention or lost to a failing read or write |
| OwnerTurnSafety.AtMostOnceWhileRetained | core/owner_turn_service.py:148-194 | while the receipt is retained and readable there was at most one start, and only with the request hash the receipt records |
| OwnerTurnSafety.SubmitDecides | core/owner_turn_service.py:132-197 | a submit creates a task exactly when the request is valid, no readable receipt is left after retention and the running receipt could be written; another hash under the id conflicts and changes nothing |
| OwnerTurnSafety.RunOwned | core/owner_turn_service.py:23-26 | when every pass uses the in-flight test, an unfinished task has its running receipt on disk and is the one in flight |
| OwnerTurnSafety.LiveReceiptProtected | core/owner_turn_receipts.py:309-351 | so the receipt of a live task is neither pruned nor marked interrupted |
| OwnerTurnSafety.TerminalIsFinal | core/owner_turn_receipts.py:130-153 | a terminal receipt stays byte for byte the same through every step until retention removes it or a file is lost |
| OwnerTurnSafety.StaysTerminal | core/owner_turn_receipts.py:130-153 | over any further run a terminal receipt neither removed nor lost is found unchanged |
| OwnerTurnSafety.CrashIsReportedUnknown | core/owner_turn_receipts.py:143-153 | after a crash, reading a running receipt reports and saves an unknown outcome |
| OwnerTurnSafety.CrashedTurnIsNotRepeated | core/owner_turn_service.py:132-197 | from then on, after any further steps, a later submit of that request that still finds the receipt gets that answer and starts nothing |
| OwnerTurnSafety.MarkPassRetains | core/owner_turn_receipts.py:326-339 | the first pruning pass spares exactly the running receipts with a live task or an unwritable recovery |
| OwnerTurnSafety.PruneBoundsDirectory | core/owner_turn_receipts.py:309-351 | after pruning, at most 1000 receipts beyond the spared ones remain and none is older than 30 days |
| OwnerTurnSafety.PruneKeepsYoung | core/owner_turn_receipts.py:309-351 | one of the first 1000 receipts listed that is not older than 30 days survives, unchanged or marked interrupted |
| OwnerTurnSafety.UnprobedSweepEffect | core/owner_turn_receipts.py:251-262 | a listing without the in-flight test interrupts exactly the readable, writable running receipts it lists |
| OwnerTurnSafety.UnprobedListKeepsOwnership | core/owner_turn_receipts.py:251-262 | it is harmless for a turn if and only if no live task of that turn has such a receipt |
| OwnerTurnSafety.UnprobedListLosesFinality | core/owner_turn_receipts.py:251-262 | otherwise a terminal status is overwritten: interrupted, then completed |
| OwnerTurnSafety.ExecutingIsReachable | core/owner_turn_service.py:132-197 | one submit and one task step reach that situation |
| OwnerTurnOutcomes.EndingLeaves | core/owner_turn_service.py:200-242 | the receipt each ending leaves: failed with the code raised; completed with the turn id; failed RuntimeError for an empty id; failed OSError if the completed one cannot be written; cancelled: the disk as it was; hash and creation time are the task's |
| OwnerTurnOutcomes.ReceiptsTellWhatHappened | core/owner_turn_service.py:132-242 | in every run a receipt is completed with an id, or failed with a code, only if an execution of that request under that key ended so; else such a request was accepted and runs, or its outcome is reported unknown |
| OwnerTurnOutcomes.EndedTurnIsAnswered | core/owner_turn_service.py:148-176 | a recorded ending decides every later answer to that request: the stored failure, or completed, through any further steps, and nothing starts |
| OwnerTurnOutcomes.SubmitAnswers | core/owner_turn_service.py:148-176 | the answer to a submit that finds a receipt, from the row on disk: conflict, replay or expired, stored, in flight, or unknown and saved so |
| OwnerTurnOutcomes.ReadReports | core/owner_turn_service.py:315-328 | what reading a receipt reports and leaves: nothing, the row, or the row as interrupted |
| OwnerTurnOutcomes.ExecutingWasStarted | core/owner_turn_service.py:200-218 | in every run an executing task stands in the executor log, once |
| OwnerTurnOutcomes.ForgettingIsSilent | core/owner_turn_service.py:190-194 | the done callback ends its own entry and changes the answer of no in-flight test |
| OwnerTurnListing.SortIncreasing | core/owner_turn_receipts.py:205-211 | sorting by the key gives a strictly increasing list when keys are distinct |
| OwnerTurnListing.EverythingIsExact | core/owner_turn_receipts.py:214-287 | on a stable store the unpaged listing is exactly the matching receipts, in sort order |
| OwnerTurnListing.PageAfter | core/owner_turn_receipts.py:214-287 | asking with the key of the i-th receipt gives exactly what follows it |
| OwnerTurnListing.StableStoreServes | core/owner_turn_receipts.py:214-287 | every cursor on the list is served its slice, for every page limit |
| OwnerTurnListing.WalkProgress | core/owner_turn_receipts.py:164-202 | a client following the next cursor has listed a prefix, and at least one receipt a page |
| OwnerTurnListing.WalkComplete | core/owner_turn_receipts.py:214-287 | a walk with no further cursor has listed everything, within as many pages as receipts plus one |
| OwnerTurnListing.WalkListsEachOnce | core/owner_turn_receipts.py:214-287 | on a stable store a walk lists each matching receipt exactly once, in order, for every limit |
| OwnerTurnListed.ListingShows | core/owner_turn_receipts.py:214-287 | every page, on any store: of the readable receipts, a dead running one as interrupted, those of the caller, status and times asked for and beyond the cursor, newest first, the first up to the limit, with a cursor if and only if some are left; limits outside 1 to 100 and bad cursors are refused |
| OwnerTurnListed.PassLeaves | core/owner_turn_receipts.py:248-262 | on disk a listing changes exactly the dead running receipts of the caller asked for |
| OwnerTurnService.NextCursorAdvances | core/owner_turn_receipts.py:290-306 | on any store, stable or not, the next cursor leaves strictly fewer receipts ahead, so walking ends |
| OwnerTurnService.Tally | core/owner_turn_receipts.py:290-306 | counting the rows of a page by status |
| OwnerTurnService.Service.Write | core/owner_turn_receipts.py:76-102 | one receipt write with its three outcomes |
| OwnerTurnService.Service.Remove | core/owner_turn_receipts.py:341-351 | unlinking one receipt, which may fail |
| OwnerTurnService.Service.PruneDirectory | core/owner_turn_receipts.py:309-351 | the two pruning loops over one caller directory compute `PruneDir` |
| OwnerTurnService.Service.PruneAll | core/owner_turn_receipts.py:309-351 | the loop over caller directories computes `Prune` |
| OwnerTurnService.Service.RecoverIfInterrupted | core/owner_turn_receipts.py:143-153 | recovery of one receipt computes `Recover` |
| OwnerTurnService.Service.ExecuteIdempotentOwnerTurn | core/owner_turn_service.py:132-197 | a submit in place computes `Submit`: store, in-flight table, tasks and reply |
| OwnerTurnService.Service.Start | core/owner_turn_service.py:211-218 | the first step of an execution |
| OwnerTurnService.Service.Record | core/owner_turn_service.py:200-242 | recording the end of an execution computes `FinishTask` and leaves the receipt of `EndingLeaves` |
| OwnerTurnService.Service.Forget | core/owner_turn_service.py:132-197 | the done callback drops the in-flight entry only if it is still its own |
| OwnerTurnService.Service.ReadOwnerTurnReceipt | core/owner_turn_service.py:315-328 | reading computes `ReadReceipt` |
| OwnerTurnService.Service.List | core/owner_turn_receipts.py:214-287 | the listing loop computes `ListReceipts`, recovery and errors included |
| OwnerTurnService.Service.FetchPage | core/owner_turn_receipts.py:290-306 | one page of a summary |
| OwnerTurnService.Service.Summary | core/owner_turn_receipts.py:290-306 | ends on every store; on a stable one total and counts are those of all receipts, each once |
| ConfigMerge.ChangedPathsExact | admin/config_control.py:43-55 | the changed paths are exactly those described one key at a time |
| ConfigMerge.ChangedPrefixFree | admin/config_control.py:43-55 | no changed path is a prefix of another |
| ConfigMergeProofs.AssignEffect | admin/config_control.py:67-83 | one edit sets what lies at and below its path, makes the way there mappings, leaves the rest |
| ConfigMergeProofs.ApplyAllEffect | admin/config_control.py:92-98 | the effect of independent edits at every path |
| ConfigMergeProofs.OrderIrrelevant | admin/config_control.py:92-98 | independent edits give the same tree in any order |
| ConfigMergeProofs.EditsExact | admin/config_control.py:58-64 | the edits are the changed paths with the editor's values |
| ConfigMergeProofs.EditsIndependent | admin/config_control.py:43-55 | the edits of a diff of mappings are non-empty and pairwise incomparable |
| ConfigMergeProofs.MergeEffect | admin/config_control.py:86-115 | each changed path ends with the editor's value or absence; each path beside all of them keeps what the file holds by now |
| ConfigMergeProofs.RoundTrip | admin/config_control.py:43-83 | diff then apply on the baseline gives exactly the edited document, for all trees |
| ConfigMergeProofs.UneditedChangesNothing | admin/config_control.py:43-55 | there are no changed paths if and only if the document was not edited, and then the file is left alone |
| ConfigMergeProofs.DisjointEditorsAgree | admin/config_control.py:86-115 | two editors with disjoint edits from one baseline reach the same file whoever writes first |
| ConfigMergeProofs.LaterWriterWins | admin/config_control.py:86-115 | where edits overlap the later writer's value stands |
| ConfigControl.ConfigFile.Read | admin/config_control.py:27-40 | reading gives a document equal to its baseline, or fails |
| ConfigControl.ConfigFile.MergeInto | admin/config_control.py:92-98 | the loop over changed paths computes `Merge` |
| ConfigControl.ConfigFile.WriteDocument | admin/config_control.py:86-115 | what is written, when it succeeds, and that a failure leaves the document's edits |
| ConfigControl.ConfigFile.WritePlain | admin/config_control.py:86-115 | a plain mapping replaces the whole content; each of the outcomes mapping refused, file unreadable and persisted has its exact condition |
| ConfigControl.MergeStaysMapping | admin/config_control.py:86-115 | the merged top level is a mapping |
| DeviceQueue.EnqueueKeepsEvents | channels/device_ws.py:68-93 | merging into the tail keeps the stream of (message, character) events and the bound of 64 |
| DeviceQueue.AggregateKeepsEvents | channels/device_ws.py:96-127 | the writer's aggregation keeps the events |
| DeviceQueue.NothingLostOrReordered | channels/device_ws.py:68-127 | in every run sent, then the frame in hand, then the queue mean exactly what the queue accepted, in order; one writer, at most 64 frames |
| DeviceQueue.DrainedMeansDelivered | channels/device_ws.py:96-127 | an empty queue and hand mean everything accepted was sent |
| DeviceProgress.WriterTakesHead | channels/device_ws.py:102-108 | in every run a waiting writer takes the head of a non-empty queue, whatever frame it is, and leaves the rest |
| DeviceProgress.AggregateExact | channels/device_ws.py:109-120 | aggregation absorbs frames up to the first point where the queue is empty, another frame follows or the text has 512 bytes; the last gives the time |
| DeviceProgress.WriterAbsorbs | channels/device_ws.py:109-121 | after its pause the writer sends exactly that and leaves the rest queued |
| DeviceProgress.MergeExact | channels/device_ws.py:80-91 | an accepted frame is the new tail, or lengthens the tail of a full queue and gives it its time |
| DeviceProgress.WriterDrains | channels/device_ws.py:96-127 | from every reachable state with a connection and a live writer at most three steps a frame, with successful sends, empty queue and hand: everything accepted was sent |
| DeviceProgress.ConnectBegins | channels/device_ws.py:258-290 | a new connection begins with an empty queue, one waiting writer and a new name |
| DeviceProgress.DisconnectEnds | channels/device_ws.py:305-317 | the end of the current connection stops the writer and refuses offers; that of a replaced one changes nothing |
| DeviceQueue.AggregateSize | channels/device_ws.py:111-120 | absorbing queued deltas of at most b bytes gives at most the size in hand plus b for each, and at most 511 + b |
| DeviceQueue.SizeWithoutMerges | channels/device_ws.py:68-127 | in every run without a tail merge whose offered deltas have at most b bytes, no sent delta exceeds the smaller of 65 b and 511 + b |
| DeviceQueue.LimitWithoutMerges | channels/device_ws.py:100-120 | so the stated 512-byte limit holds in all those runs if and only if b is at most seven |
| DeviceQueue.LimitWithMerges | channels/device_ws.py:83-120 | once a full queue merges offers into its tail, it holds in all runs if and only if deltas are empty |
| DeviceWs.Manager.EnqueueJson | channels/device_ws.py:68-93 | enqueueing in place computes `Offer` |
| DeviceWs.Manager.WriterTake | channels/device_ws.py:102-108 | the writer's pop computes `Pop`: the head of a non-empty queue goes to the hand |
| DeviceWs.Manager.WriterAggregate | channels/device_ws.py:109-120 | the aggregation loop computes `Wake` |
| DeviceWs.Manager.WriterSent | channels/device_ws.py:121-127 | the end of a send computes `Sent` |
| DeviceWs.Manager.HandleConnection | channels/device_ws.py:258-290 | a new connection replaces queue and writer |
| DeviceWs.Manager.EndConnection | channels/device_ws.py:305-317 | the end of a connection clears only its own state |
| LeakFilter.OutputIsPrefix | core/llm_client.py:620-657 | for every chunking the output is a prefix of the text, all of it or up to a bar |
| LeakFilter.ClosePairStops | core/llm_client.py:620-657 | for every chunking, with two bars at most 64 characters apart nothing from the first on is shown |
| LeakFilter.CleanTextPasses | core/llm_client.py:434-446 | text with fewer than two bars passes unchanged however it is cut |
| LeakFilter.StopsExactlyAtFirstBar | core/llm_client.py:620-657 | when the first two bars are that close the output does not depend on the chunking |
| LeakFilter.LeakNeedsPair | core/llm_client.py:620-657 | pieces of at most n characters see a leak only where two bars lie at most 63 + n apart |
| LeakFilter.OneByOneExact | core/llm_client.py:620-657 | fed character by character the filter stops if and only if two bars lie at most 64 apart |
| ChatStream.Stream | core/llm_client.py:558-704 | the generator yields what the filter shows of the fed texts, and no empty text |
| ChatStream.Emit | core/llm_client.py:623-649 | one scan inside the generator |
| ChatStream.PlainStreamIsFed | core/llm_client.py:660-704 | a stream without an opening tag is fed unchanged |
| ChatStream.ThinkingIsHidden | core/llm_client.py:660-704 | when the buffer first closes, exactly what follows the closing tag is fed |
| ChatStream.UnclosedThinkingIsFed | core/llm_client.py:690-704 | a stream that never closes is fed without its opening tag |
| ChatStream.ExpiredThinkingIsFed | core/llm_client.py:677-684 | a stream whose deadline passes in the buffer is fed all but its opening tag |
| ChatStream.SinglePieceEscapes | core/llm_client.py:660-704 | a whole think block arriving as one piece is fed |
| ChatStream.OpenedStreamIs | core/llm_client.py:660-704 | an opened stream feeds what follows the closing tag if it closes in time, else what follows the opening tag |
| ChatStream.HiddenIff | core/llm_client.py:660-704 | thinking in an opened stream is hidden if and only if a second piece arrives and the buffer closes before the deadline |
| ChatStream.PlainStreamIsFiltered | core/llm_client.py:558-704 | what a client sees of a plain stream |
| ChatStream.ThinkingStreamIsFiltered | core/llm_client.py:558-704 | what a client sees behind a closed think block |
| ChatStream.UnhiddenStreamIsFiltered | core/llm_client.py:558-704 | and of an opened stream that does not close in time, unclosed or expired |
| MobileQueue.RenumberWorks | channels/mobile.py:225-246 | the repair loop gives distinct positive numbers, new ones from the next number up, contents unchanged |
| MobileQueue.EnsureWorks | channels/mobile.py:225-259 | after repair and sorting the queue ascends strictly below the stored next number |
| MobileQueue.LoadWorks | channels/mobile.py:204-223 | so does every loaded queue, from any files at all |
| MobileQueue.SendNumbers | channels/mobile.py:151-196 | a sent item's number is above the whole queue; the invariant holds after if and only if the sequence file was written |
| MobileQueue.NeverIssuedTwice | channels/mobile.py:151-259 | over any run in which sequence writes succeed numbers ascend strictly |
| MobileQueue.LoadedQueueAscends | channels/mobile.py:204-223 | and each loaded queue ascends strictly below the next number |
| MobileQueue.PruneExact | channels/mobile.py:275-282 | pruning keeps only retained items, at most 500, and all of them when the queue has no more |
| MobileQueue.PruneKeepsNewest | channels/mobile.py:275-282 | in an ascending queue a retained item is dropped if and only if 500 newer ones are kept |
| MobileDelivery.LoadKeepsMessages | channels/mobile.py:204-259 | from any list of at most 500 elements loading keeps every message that is not a day old as often as it is there, and nothing else |
| MobileDelivery.SendStores | channels/mobile.py:151-189 | a send whose queue write succeeds leaves a file that ends with the item, its number, time and body, after all that was loaded but for the oldest of 500 |
| MobileDelivery.AckLeaves | channels/mobile.py:139-149 | an acknowledgement leaves exactly the young items above the number and returns how many |
| MobileDelivery.PollReturns | channels/mobile.py:112-202 | a look returns in order the first items above the cursor, at least one and at most 50 as the limit says, if there are any |
| MobileQueue.FailedSeqWriteReissues | channels/mobile.py:248-259 | with a failing sequence write a number is given twice |
| MobileNumbers.NumberReturnsIff | channels/mobile.py:151-259 | after a send that could not write the sequence file, any polls and acknowledgements, the next number is not new if and only if no load found the item and wrote the sequence file, and the next send no longer loads it |
| MobileNumbers.FairRunIsPast | channels/mobile.py:151-259 | every run with successful sequence writes ends where that applies |
| MobileClient.LoadPrunes | channels/mobile.py:204-223 | loading a file this code wrote only prunes |
| MobileClient.RunInv | channels/mobile.py:112-149 | in every run with sequence writes succeeding, whatever lies behind the client's cursor was received or has expired |
| MobileClient.EachSurvivorOnceInOrder | channels/mobile.py:112-137 | a polling client sees each message that survives acknowledgement and pruning once and in order |
| MobileDelivery.SentStays | channels/mobile.py:112-202 | a sent item stays in every loaded queue, through any sends, polls and acknowledgements, until it is a day old, acknowledged, has 500 newer ones or a write loses the queue file |
| MobileDelivery.SentIsReceived | channels/mobile.py:112-137 | so a client that goes on polling receives it: at the latest with the 500th delivered poll, whatever the limits |
| MobileChannel.Channel.Repair | channels/mobile.py:225-246 | the repair loop computes `Renumber` |
| MobileChannel.Channel.LoadQueue | channels/mobile.py:204-246 | loading in place computes `Load` |
| MobileChannel.Channel.WriteToQueue | channels/mobile.py:151-196 | sending in place computes `Send`; if the queue is written, the file ends with the item |
| MobileChannel.Channel.ReadFromQueue | channels/mobile.py:198-202 | one look of a poll computes `Poll` |
| MobileChannel.Channel.Acknowledge | channels/mobile.py:139-149 | acknowledging in place computes `Ack` |
| PerceiveGate.RunInv | core/perceive_event.py:215-288 | in every run, calls interleaved at will, whose blocked calls pop no key with another reservation inside its 90 s, reservations of one key, pending or accepted, lie more than 90 s apart |
| PerceiveGate.BlockKeepsInvIff | core/perceive_event.py:242-288 | a blocked call keeps that if and only if every other reservation of its key is more than 90 s old |
| PerceiveGate.BlockBreaksWindowIff | core/perceive_event.py:215-288 | if one is not, an event arriving next is accepted beside it; otherwise nothing that follows breaks the window until another call blocks |
| PerceiveGate.WholeCallsKeepWindow | core/perceive_event.py:216-288 | for calls that run from reservation to end without suspending, as they do with this guard, accepted events with one key lie more than 90 s apart however slow they are |
| PerceiveGate.TimelyRunsKeepWindow | core/perceive_event.py:215-288 | and for interleaved calls that each settle within 90 s |
| PerceiveGate.AcceptedOncePerWindow | core/perceive_event.py:215-288 | in every run of the first kind two accepted events with one key lie more than 90 s apart |
| PerceiveGate.DuplicateIff | core/perceive_event.py:215-237 | an event is turned away if and only if one with its key, pending or accepted, reserved in the last 90 s, and is told which |
| PerceiveGate.RetryAfterBlock | core/perceive_event.py:242-288 | after a blocked call a retry is not a duplicate of it, at once and after any further steps |
| PerceiveGate.PendingCallExcludes | core/perceive_event.py:215-237 | a pending call keeps its key for 90 s |
| PerceiveGate.ReleaseTakesOwnSlot | core/perceive_event.py:242-288 | popping by key takes the caller's own slot whenever the call was timely |
| PerceiveGate.Gate.EvictExpired | core/perceive_event.py:139-143 | the two eviction loops compute `Evict` |
| PerceiveGate.Gate.TryReserve | core/perceive_event.py:215-237 | the first critical section computes `Reserve` |
| PerceiveGate.Gate.Release | core/perceive_event.py:242-288 | after giving a key back its next event is reserved, every event with another key is answered as before, and the registry is that of a blocked call |
| Protocol.ResponsesKeepsMeaning | core/llm_protocol.py:190-257 | Responses input says exactly the texts, questions and answers of the history, in order |
| Protocol.AnthropicOnlyRegroups | core/llm_protocol.py:279-326 | Anthropic input taken apart gives back the non-system messages in order, one result block for each tool message; groups never adjoin |
| ProtocolText.TurnsAre | core/llm_protocol.py:299-325 | the messages of the Anthropic form, groups taken apart, are those of the conversation one for one, with speaker and content, tool messages with ids and texts |
| ProtocolText.SystemTextIs | core/llm_protocol.py:303-326 | the system text is all non-empty system and developer texts in order, each in its place, an empty line between neighbours, nothing else |
| ProtocolText.SystemAddsNoTurns | core/llm_protocol.py:300-307 | without system and developer messages the turns come out the same, groups included |
| ProtocolText.AnthropicAccepts | core/llm_protocol.py:299-325 | a history is accepted if and only if each message can be carried and one is for the conversation |
| ProtocolText.ResponsesAccepts | core/llm_protocol.py:190-257 | a history translates to Responses input if and only if each message can be carried |
| Protocol.AppendCalls | core/llm_protocol.py:233-245 | the inner loop over an assistant message's calls |
| Protocol.AppendResponses | core/llm_protocol.py:193-256 | one message of the translation loop, errors included |
| Protocol.TranslateResponses | core/llm_protocol.py:190-257 | the loop computes `ResponsesInput` |
| Protocol.TranslateAnthropic | core/llm_protocol.py:279-326 | the loop with its flushes computes `AnthropicInput`, which `SystemTextIs`, `TurnsAre` and `AnthropicAccepts` describe |
| Pairing.PairsUp | core/pipeline.py:1412-1439 | a history the ledger accepts asks exactly the ids it answers, in order, followed by those pending |
| Replies.ResponsesCarries | core/llm_protocol.py:489-561 | the continuation items say the reply's text and ask exactly its calls, in order |
| Replies.ResponsesRoundTrip | core/llm_protocol.py:501-560 | sending the continuation items back is the identity if and only if every call carried its arguments as text; otherwise it is refused |
| Replies.AnthropicCarries | core/llm_protocol.py:425-476 | the same for an Anthropic reply |
| Replies.ChatCarries | core/llm_protocol.py:150-181 | a chat reply carries over if and only if its calls were taken up or there were none |
| Replies.TurnIsFaithful | core/llm_client.py:512-552 | stripping thoughts leaves the questions of a turn alone |
| RepliesMeaning.ResponsesReplySays | core/llm_protocol.py:489-561 | a reply is accepted if and only if it is completed, each item can be read and one consumed; then history items, text and calls say exactly what it says, reasoning left out |
| RepliesMeaning.AnthropicReplySays | core/llm_protocol.py:425-476 | the same for an Anthropic reply, thinking left out |
| RepliesMeaning.ChatReplySays | core/llm_protocol.py:150-181 | when a chat reply is refused, its text, which calls are taken up, and that the message is carried whole |
| RepliesMeaning.TurnHands | core/llm_client.py:512-552 | the loop is handed the text and items without thoughts and the calls; of a leaked reply without calls no text |
| RepliesMeaning.LeakedIsDropped | core/llm_client.py:527-543 | nothing of such a reply reaches the history |
| Replies.ReadParts | core/llm_protocol.py:511-519 | the loop over content parts |
| Replies.ReadResponses | core/llm_protocol.py:489-561 | the loop over output items computes `NormalizeResponses` |
| Replies.ReadAnthropic | core/llm_protocol.py:425-476 | the loop over blocks computes `NormalizeAnthropic` |
| ToolLoop.RunSteps | core/pipeline.py:1327-1447 | the nested loops with their early returns compute `Run` |
| ToolLoop.ExecuteCalls | core/pipeline.py:1378-1439 | the execution loop computes `Execute`; what it writes is stated by `RunWrites` |
| ToolLoopProofs.UnansweredIs | core/pipeline.py:1417-1447 | a timeout in call j leaves the calls from j on unanswered, a confirmation those after it, else none |
| ToolLoopProofs.AdvanceRequests | core/pipeline.py:1329-1332 | each iteration sends the history as it stands, once |
| ToolLoopHistory.RunWrites | core/pipeline.py:1269-1439 | the whole conversation of a run: each step adds the reply's items, or the shown text with the relay's calls, then for each answered call in order its confirmation text, else its framed result, else the no-result text; when tool use and success are noted |
| ToolLoopHistory.RunReports | core/pipeline.py:1327-1447 | what a run reports is what its last step reports: the text, nothing, the confirmation of the call that asked, exhausted at a timeout or after all steps |
| ToolLoopProofs.StepBalance | core/pipeline.py:1329-1439 | a step from a paired history leaves exactly its unanswered ids open, and stays paired if and only if it skipped no relay call |
| ToolLoopProofs.RequestsArePaired | core/pipeline.py:1327-1447 | at most max_steps requests; all of them are paired if and only if no earlier relay step skipped a call |
| ToolLoopProofs.NativeRequestsArePaired | core/pipeline.py:1412-1439 | with native calls, timeouts and confirmations included, every request's asked ids are its answered ids, in order |
| ToolLoopProofs.LeftOpenAtTheEnd | core/pipeline.py:1417-1447 | what the closing generation finds unanswered is exactly what the last step left; nothing if and only if it went through |
| ToolLoopProofs.StartedMeansAnswered | core/pipeline.py:1417-1447 | every tool started is answered once, in start order, but for at most the last one under a timeout |
| ToolLoopProofs.ConfirmationIsLastAnswer | core/pipeline.py:1429-1439 | a confirmation comes from the last tool started, and its answer in the history is the text the user is asked |
| ToolLoopProofs.UnusedMeansUntouched | core/pipeline.py:1327-1447 | a run that used no tool leaves the conversation as given |
| ToolLoopProofs.RelaySkipIsReachable | core/pipeline.py:1378-1382 | a relay call of the native-only tool leads to a request with an unanswered question |
| ToolLoopWire.ResponsesRequestsArePaired | core/llm_protocol.py:190-257 | no request is refused, and on the wire each function_call is paired with its output under the same condition |
| ToolLoopWire.ResponsesDecisionReady | core/llm_client.py:512-552 | a decision from a Responses reply can be sent back exactly when its arguments were text |
| ToolLoopWire.AnthropicRequests | core/llm_protocol.py:279-326 | each request on the Anthropic wire is the translated conversation followed by one round for each completed step, system text unchanged |
| ToolLoopWire.NativeRoundIsPaired | core/llm_protocol.py:279-326 | a native round is the assistant's turn and right after it one user message with results for exactly its ids, in order |
| ToolLoopWire.RelayRoundAsksNothing | core/pipeline.py:1362-1400 | a relay round asks nothing on that wire, so its results answer nothing |
| ToolLoopWire.TurnKeepsQuestions | core/llm_protocol.py:312-320 | a turn keeps a message's questions if and only if they are blocks of its content |
| ToolLoopWire.AnthropicDecisionReady | core/llm_protocol.py:425-476 | decisions from Anthropic replies satisfy what the rounds need |
| ToolLoopWire.AnthropicRequestsArePaired | core/pipeline.py:1327-1447 | on the Anthropic wire every request of a run is translated and each tool_use answered by its tool_result, if and only if no relay step before the last request had a call other than the native-only tool |
| DiaryMirror.Mirror.ApplyBatch | core/diary_mirror.py:157-215 | the loop over items with its writes computes `Batch` |
| DiaryMirror.TakeAllIs | core/diary_mirror.py:179-199 | what the loop has done when it ends or fails, apart from failures |
| DiaryVerdicts.BatchReports | core/diary_mirror.py:93-199 | what a batch reports for each item over the rows as they then are: applied for a new date, a newer revision or one of another kind, idempotent for the same content, stale for an older one, conflict for the same; only an applied item changes its row |
| DiaryVerdicts.BatchLeaves | core/diary_mirror.py:170-214 | what a batch leaves when a file cannot be written -- an error, the old manifest, the files of the items before -- and otherwise, for each outcome of the manifest and status writes |
| DiaryMirror.UnfailedKeepsConsistent | core/diary_mirror.py:179-215 | without write failures every live row has a file whose digest is the row's |
| DiaryMirror.RunKeepsConsistent | core/diary_mirror.py:157-215 | and so does every run of batches without write failures |
| DiaryMirror.UnsavedStaysConsistent | core/diary_mirror.py:193-199 | a batch that stops before the manifest is saved keeps that if and only if it overwrote no live row |
| DiaryMirror.OtherDates | core/diary_mirror.py:179-199 | dates a batch does not name keep row and file |
| DiaryMirror.ReplayChangesNothing | core/diary_mirror.py:179-199 | replaying a batch with distinct dates changes no row and no file |
| DiaryMirror.ReplayWithoutOvertakes | core/diary_mirror.py:179-199 | so does replaying a batch in which, for each date, revisions are of one kind and no item is newer than a later one with other content |
| DiaryMirror.OvertakenPairChanges | core/diary_mirror.py:183-185 | a pair that breaks this changes the row on replay, because an equal digest is skipped without its revision |
| DiaryMirror.ReplayPairIff | core/diary_mirror.py:183-199 | two items of one date replay over every stored row of their kind if and only if the first does not overtake the second |
| DiaryMirror.RetryReachesUnfailed | core/diary_mirror.py:193-214 | a retry after a failed write reaches exactly the disk of an unfailed run |
| DiaryMirror.NewerTransitive | core/diary_mirror.py:93-100 | comparison of revisions is transitive |
| DiaryMirror.RunRises | core/diary_mirror.py:186-199 | over any run, failed batches included, with one kind of revision for the date and the manifest not lost, the date's revision only rises, strictly on each change |
| DiaryVerdicts.NumbersRise | core/diary_mirror.py:93-100 | so a stored number never falls, and grows with each change |
| DiaryVerdicts.TextsRise | core/diary_mirror.py:93-100 | and likewise a text in its order |
| DiaryMirror.AppliedRisesIff | core/diary_mirror.py:186-199 | an applied update of an existing row raises its revision if and only if the two are comparable |
| DiaryMirror.GoesBackIff | core/diary_mirror.py:93-100 | updates drawn from an older revision and one more can take a row back if and only if that other revision is of another kind than the row's |
| DiaryMirror.MixedKindsGoBack | core/diary_mirror.py:93-100 | a stored revision 5, then v, then 3: both apply |
| Backup.CheckRecords | core/backup_state.py:439-470 | no error in the record loop if and only if entries are distinct, safe, placed and matching |
| Backup.VerifySnapshot | core/backup_state.py:432-490 | no error if and only if the snapshot holds exactly the files its manifest names, with those contents |
| Backup.CopyFiles | core/backup_state.py:366-376 | the copy loop records every file once with its digest |
| Backup.CreateSnapshot | core/backup_state.py:346-399 | succeeds if and only if it is allowed, the configuration and a readable layout marker are there and no link is met, and gives a snapshot of the selected files |
| Backup.CreatedIsSound | core/backup_state.py:157-194 | a created snapshot always verifies and names exactly the selected files, byte for byte |
| BackupSelection.SnapshotKeeps | core/backup_state.py:114-194 | place by place, the files a created snapshot names: all below userdata/ and data/ but derived indexes and what is transient, the two configuration files, private characters, stickers and character content, byte for byte |
| BackupSelection.NamedPathsAreKnown | core/backup_state.py:325-344 | a snapshot that verifies names no path outside those places |
| Backup.RestoreFiles | core/backup_state.py:549-566 | the restore loop succeeds if and only if paths are safe and distinct after case folding |
| Backup.RestoreSnapshot | core/backup_state.py:539-600 | restores exactly the named files plus the report, or nothing; it succeeds if and only if it is allowed and the snapshot is sound, few and small enough, safely named, distinct after case folding and starts up |
| Backup.RestorableIs | core/backup_state.py:543-566 | for a sound snapshot that is a condition on the files it names: sizes sum over files, each once |
| Backup.CreatedIsRestorable | core/backup_state.py:539-600 | a created snapshot can be restored if and only if the selected files are few enough, together at most 8 GiB, safely named, distinct after case folding and start up |
| Backup.RestoredPathsDiffer | core/backup_state.py:496-505 | no two restored paths are equal after case folding |
| Backup.TamperingIsFound | core/backup_state.py:432-490 | changing, removing or adding one file outside the manifest pair makes verification fail |
| NarrativeParser.Tokenise | core/narrative_parser.py:96-120 | the scan for tags computes `Tokens` |
| NarrativeParser.ParseXml | core/narrative_parser.py:96-155 | the segment loop computes `Parse` |
| NarrativeParser.NothingVisibleIsLost | core/narrative_parser.py:122-155 | the non-space characters of the segments are those of the texts and folded-back tags, in order |
| NarrativeParser.TokensCoverReply | core/narrative_parser.py:98-120 | the tokens together are the reply but for unknown tags and the case of known ones |
| NarrativeRoundTrip.CleanGoesToBuffer | core/narrative_parser.py:98-141 | text without tags but inline styles goes to the current segment whole |
| NarrativeRoundTrip.ParsePrinted | core/narrative_parser.py:90-155 | printing segments and parsing gives the same list back |
| NarrativeSegments.ParseUnclosed | core/narrative_parser.py:150-155 | a last tag that is never closed is closed at the end of the reply |
| NarrativeSegments.OutOfPlaceIsText | core/narrative_parser.py:133-148 | inside a known tag another one is text, and so is a close tag that does not match |
| NarrativeSegments.SegmentsAreTrimmed | core/narrative_parser.py:127-131 | for every reply no segment is empty or begins or ends with white space |
| UiPush.SplitSentence | channels/ui_push.py:81-89 | blocks concatenate to the sentence and have the drawn sizes, for every draw |
| UiPush.NextSentence | channels/ui_push.py:92-103 | a match ends after a run of sentence ends |
| UiPush.SplitIntoBlocks | channels/ui_push.py:92-103 | blocks concatenate to the text, stay within a sentence and within the maximum |
| UiPush.PaceExact | channels/ui_push.py:136-151 | the intervals are scaled by one factor, 1 within the budget and else down to it; blocks are grouped only as far as a schedulable sleep needs |
| UiPush.PaceFits | channels/ui_push.py:136-151 | scaled and grouped intervals fit twice the budget plus 0.01 s, and grouped sleeps can reach 0.01 s |
| UiPush.PushGroups | channels/ui_push.py:162-170 | the deltas are the groups of blocks, with one sleep each; the total sleep is bounded from both sides |
| UiPush.PseudoStreamPush | channels/ui_push.py:106-177 | all of the text is pushed, in groups of its blocks at the pace for so many, or nothing; requested sleeps stay below twice the budget plus 0.01 s for every draw |
| McpRegistry.RegisterAdds | core/mcp_client.py:920-1006 | registration adds new names only, each once, all owned by its server |
| McpRegistry.OfferedIsRegistered | core/mcp_client.py:920-1006 | every offered tool becomes callable, its own unless the name was taken; nothing else is registered |
| McpRegistry.RegisteredIffLetThrough | core/mcp_client.py:920-1006 | exactly the tools let through become callable, each under its name and for itself; under a local policy those both allowed and confirmed |
| McpRegistry.ConnectingStep | core/mcp_client.py:666-698 | what a connection that comes up registers and owns |
| McpRegistry.ClosingSteps | core/mcp_client.py:1197-1237 | shutting down, reloading and the closing of a call take the server's names away and nothing else |
| McpRegistry.OwnerSteps | core/mcp_client.py:666-698 | spawning an owner and a failed connection register nothing |
| McpRegistry.ConnectKeepsExactIff | core/mcp_client.py:920-1008 | connecting keeps the registry the prior entries plus the disjoint union of the handles' names if and only if it replaces no handle that owns names |
| McpRegistry.AlwaysExactIff | core/mcp_client.py:666-698 | in any interleaving of owner tasks and reconnecting calls the registry is so all along if and only if every connection met that guard |
| McpRegistry.RunInv | core/mcp_client.py:666-698 | owner tasks alone always meet it |
| McpRegistry.UndisturbedReconnect | core/mcp_client.py:1197-1214 | so does a call's reconnect with only other servers' steps between its closing and connecting |
| McpRegistry.OwnersAreDisjoint | core/mcp_client.py:931-935 | no name has two owners, and no prior entry has one |
| McpRegistry.NothingIsLeftBehind | core/mcp_client.py:1217-1237 | with no server connected the registry is what it was |
| McpRegistry.OverlappingReconnectLeavesOrphan | core/mcp_client.py:1197-1214 | a reconnect overlapping a reload does not, and leaves an entry nobody owns |
| McpRegistry.Client.ConnectServer | core/mcp_client.py:920-1008 | the registration loop computes `Register` |
| McpRegistry.Client.CloseServer | core/mcp_client.py:1217-1237 | closing computes `Close` |

## Left out

- Real files, JSON and YAML text, directories and the read-back text of the configuration: maps from keys to values, with writes that succeed, fail, or (for `safe_write_json`) lose the old file.
- SHA-256, HMAC, the URL-safe cursor text and uuids: symbolic or equal to what they stand for; a receipt file is named by its turn id, a sort key's file name likewise.
- `owner_turn_receipts` rows leave out the canonical character id; whether a completed result is still retained is a parameter of a submit; upload checks and result projection are not modelled.
- Per-key locks of owner turns: the sections they guard do not suspend, so each is one step.
- Floating point and NaN: integers or reals; clocks are parameters, non-decreasing where a property needs it.
- Python equality of configuration leaves across types, and keys that are not strings: leaves are compared as texts, keys are strings.
- Aliasing of nested dicts during the configuration merge: trees are values and an edit gives a new tree.
- Heartbeats, actions and incoming messages of the device channel: they do not pass through the queue.
- Think-tag expressions: abstract functions for where an opening tag ends and where the first closing tag ends; `ChatStream.Sensible` states the two facts of them that are used.
- The mobile channel's long-poll waiting and presence timestamps: a poll is a sequence of looks.
- Trust, character resolution, payload hashes and the judgement after the perceive gate: an event is its key.
- `core/pipeline.py` outside the tool loop, tool status events, the closing generation and the grounding guards: the loop ends with its outcome.
- Brace parsing, relay resolution, tool results and their framing: parameters of each step.
- Tool schemas, request headers, streaming of protocol events and usage data: plumbing around the translations.
- Parsed tool arguments: a call carries its raw arguments, and parsing is the predicate that accepts them.
- The diary batch's field validation and size limits, status counters and `mtime`: items are validated ones.
- `DiaryMirror.RetryReachesUnfailed`: does not cover a lost manifest file, after which the next batch starts from an empty manifest.
- Backup service-state detection, target validation, protection mode and manifest metadata: the flag `allowed` and one flag of the manifest; what makes a layout marker readable is a predicate on its bytes.
- Backup links: a link directly in `characters/`, whose target would be copied, is excluded by `Backup.WellFormed`; other links are met as links to what the walk expects.
- `DrainedMeansDelivered`: speaks of the connection that is still open; what a failed send or a replaced connection had queued is lost, as in the code.
- The Markdown path of the narrative parser and the cleaned content string: line classification and whitespace substitution only.
- The case folding of tag names: ASCII letters, which are the only ones that fold to a known name.
- Transports, proxies, tool metadata and policies of the tool registry: an entry is its owner, eligibility is the allow list and the local policy; two configured servers with one name are outside the claims.
- Delivery failures of the typewriter replay: a failing push ends it after a prefix.
