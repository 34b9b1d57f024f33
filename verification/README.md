# A model of the tau agent harness

tau is an agent harness: processes that exchange framed events, an
event-sourced session store, and a line-editing terminal prompt. This project
models the parts of it whose correctness does not show from any one function,
and proves what they promise over all inputs, all runs and all interleavings.

* **Concurrency protocols.** `NotifyChannel`, `Redraw` and `DraftDebounce` are
  state machines whose steps are the critical sections of the source's threads;
  a schedule is any sequence of steps, spurious wake-ups included. `AgentLoop`
  runs the agent's main and backoff loops against any arrivals and any backend;
  `PromptSnapshots` compares its snapshot map with recursive unfolding.
* **The session store.** `SessionTree` is the fold of session events,
  `RecordLog` the framing of the file, `SessionStore` the two together: what a
  reopen shows against what was live.
* **The prompt.** `Utf8Text` and `PromptGeometry` relate byte offsets to visual
  rows and columns, with the display width of a character as a parameter.
  `PromptEditor` is the editor's state machine, `EditorInvariants`,
  `EditorProperties` and `EditorHistory` what its runs keep, `PromptTerm`
  the state updated in place with the key dispatch, and `PromptKeys` what each
  key does.
* **Transformations and indexes.** `ResponsesRequest` and `RequestContent`
  build requests, `ToolCallSlots` and `StreamAccumulator` read streams,
  `ToolRegistry` and `EventBus` find who provides a tool and deliver to it,
  `Picker` picks from a list.

Classes hold the fields the source updates in place; the contracts of their
methods tie the new state to a function of the old one, and the lemmas are
about those functions. `dafny verify dfyconfig.toml` checks everything.

## Where the code does less than its documentation

* `crates/tau-cli/src/chat.rs:723-727` says a draft taken before a submit cannot
  be sent after it. It can, once, exactly when the submit falls between the debounce
  thread's check and its write (`DraftDebounce.StaleDraftFollowsIffSending`,
  `DraftDebounce.AtMostOneStaleDraft`).
* `crates/tau-cli-term-raw/src/lib.rs:543-546` says `redraw_sync` returns once the
  redraw thread has processed the redraw. A paused terminal releases callers
  without rendering (`Redraw.UnrenderedIffPaused`), the shutdown path shows an
  older frame to calls made during the final render (`Redraw.OutdatedIff`), and
  calls made after it never return (`Redraw.CallCanReturnIff`).
* `crates/tau-agent/src/responses.rs:91-98` calls the fallback to full replay
  invisible. It can also change the cache key and, when a call id is used again
  with another type, the kind of an output (`ResponsesRequest.FallbackCanChangeCacheKey`,
  `ResponsesRequest.FallbackKeepsCacheKeyIff`, `ResponsesRequest.ChainedInputIsSuffixIff`).
* `crates/tau-cli-term-raw/src/lib.rs:200-203` says edits to a recalled line are
  kept. An accepted completion is not (`EditorHistory.AcceptedPreviewCanBeLost`,
  `EditorHistory.AcceptedPreviewSurvivesIff`).
* `crates/tau-cli-term-raw/src/lib.rs:1028-1030` says a refresh makes the new buffer
  the one Esc returns to. The lock is released while the source is asked, so a
  buffer set meanwhile is not (`EditorProperties.RefreshInStepIff`).
* `crates/tau-core/src/session_store.rs:614-620` bounds what is read back, but
  the writer does not enforce the bound: one larger record makes every later
  read of its session fail (`RecordLog.UncutLog`, `SessionStore.ReopenCanFail`,
  `SessionStore.ReopenIsInvisibleIff`).
* `crates/tau-core/src/session.rs:216-225` takes any parent. One that leads back to
  the new node makes the walk of `branch_from` go on for ever
  (`SessionTree.WalksEndIff`).
* `crates/tau-core/src/bus.rs:92-116` allocates an id without looking whether it
  is taken (`EventBus.AllocationEvictsIff`).

## Model

| member | source | states |
|---|---|---|
| `NotifyChannel.Shared.CloneSender` | crates/tau-blocking-notify-channel/src/lib.rs:78-85 | cloning a sender raises the sender count by one |
| `NotifyChannel.Shared.ReleaseSender` | crates/tau-blocking-notify-channel/src/lib.rs:87-97 | dropping a sender lowers the count before the lock is taken and says whether it was the last |
| `NotifyChannel.Shared.Disconnect` | crates/tau-blocking-notify-channel/src/lib.rs:89-95 | the last dropper sets the disconnect flag and leaves a pending bit alone |
| `NotifyChannel.Shared.Notify` | crates/tau-blocking-notify-channel/src/lib.rs:108-115 | sets the bit, and signals the receiver only if it was clear |
| `NotifyChannel.Shared.TryRecv` | crates/tau-blocking-notify-channel/src/lib.rs:158-168 | a pending bit is taken first, then the disconnect is reported, else nothing |
| `NotifyChannel.StepIsAtomic` | crates/tau-blocking-notify-channel/src/lib.rs:78-150 | every critical section of any thread keeps the flags equal to the reference bit and disconnect flag of the trace, leaves a receiver asleep without a signal nothing to see, and adds at most one event, the one an atomic bit would give |
| `NotifyChannel.EveryRunIsAtomic` | crates/tau-blocking-notify-channel/src/lib.rs:78-168 | in every interleaving the channel answers as an atomic bit with a disconnect flag would: notifies coalesce, a pending bit wins over the disconnect |
| `NotifyChannel.BitMeansUnseenNotify` | crates/tau-blocking-notify-channel/src/lib.rs:108-141 | the reference bit is set exactly when some notify came after the last successful receive |
| `NotifyChannel.GoneIsFinal` | crates/tau-blocking-notify-channel/src/lib.rs:134-168 | once a receive has reported the disconnect, every later receive does |
| `NotifyChannel.ReceivesNeedNotifies` | crates/tau-blocking-notify-channel/src/lib.rs:108-150 | two successful receives have a notify between them |
| `NotifyChannel.NoSendersIsNotYetGone` | crates/tau-blocking-notify-channel/src/lib.rs:87-97 | a run in which the count is zero and the channel still answers that nothing is pending, because the dropper has not taken the lock |
| `NotifyChannel.SendersAreCounted` | crates/tau-blocking-notify-channel/src/lib.rs:78-97 | over any run the sender count is one plus the clones less the drops |
| `NotifyChannel.SendersAreFree` | crates/tau-blocking-notify-channel/src/lib.rs:78-115 | while there is a sender it may notify, be cloned and be dropped, whatever the receiver does |
| `NotifyChannel.ReceiverIsFree` | crates/tau-blocking-notify-channel/src/lib.rs:134-168 | an idle receiver may look at once, and is then told when there is nothing, or start to wait, and then looks too |
| `NotifyChannel.SpuriousWakeLooks` | crates/tau-blocking-notify-channel/src/lib.rs:134-150 | a wake-up without a reason only makes the receiver look again |
| `NotifyChannel.ReceiveBlocks` | crates/tau-blocking-notify-channel/src/lib.rs:134-150 | a blocking receive takes the bit, else reports the disconnect, and otherwise sleeps; it never reports that nothing is there |
| `NotifyChannel.SleeperIsWoken` | crates/tau-blocking-notify-channel/src/lib.rs:89-150 | a sleeping receiver is woken by the next notify and by the disconnect, and its own next step then answers with that |
| `NotifyChannel.LastDropCloses` | crates/tau-blocking-notify-channel/src/lib.rs:87-97 | a disconnect is due exactly after the last drop, and is the only way to it |
| `Redraw.SyncState.RequestSync` | crates/tau-cli-term-raw/src/lib.rs:547-551 | the bump of `redraw_sync` makes the next generation the caller's target |
| `Redraw.SyncState.MustWait` | crates/tau-cli-term-raw/src/lib.rs:555-559 | a caller waits exactly while the completed generation is below its target |
| `Redraw.SyncState.Pause` | crates/tau-cli-term-raw/src/lib.rs:1061-1109 | pausing and resuming set the pause flag and no counter |
| `Redraw.SyncState.Shutdown` | crates/tau-cli-term-raw/src/lib.rs:1450-1457 | shutdown sets its flag and no counter |
| `Redraw.SyncState.ShouldExit` | crates/tau-cli-term-raw/src/lib.rs:1595-1607 | the shutdown test leads to the final render or to the sync test |
| `Redraw.SyncState.ShouldReceive` | crates/tau-cli-term-raw/src/lib.rs:1627-1635 | the thread blocks on the channel exactly when nothing requested is incomplete |
| `Redraw.SyncState.TakeSnapshot` | crates/tau-cli-term-raw/src/lib.rs:1637-1656 | a paused terminal acknowledges everything requested without rendering; otherwise the requested generation is captured with the snapshot |
| `Redraw.SyncState.CompleteRender` | crates/tau-cli-term-raw/src/lib.rs:1721-1729 | after a render the completed generation is raised to the captured one, never lowered |
| `Redraw.SyncState.CompleteFinal` | crates/tau-cli-term-raw/src/lib.rs:1615-1619 | the shutdown path acknowledges everything requested |
| `Redraw.RunKeepsInv` | crates/tau-cli-term-raw/src/lib.rs:547-560 | every run of callers, redraw thread, shutdown and other notifiers keeps counters, coverage and wake-ups right |
| `Redraw.EveryRunRecalls` | crates/tau-cli-term-raw/src/lib.rs:543-1107 | over any run the terminal is paused exactly when the last pause or resume was a pause, shut down exactly when somebody shut it down, the requested generation counts the calls, and each call is dated by its own bump |
| `Redraw.AcksAreDated` | crates/tau-cli-term-raw/src/lib.rs:1595-1729 | every acknowledgement is what it says: a rendered one began at an unpaused snapshot that saw exactly the calls it covers, a pause is one of a paused terminal, a final one of a frame begun after the shutdown |
| `Redraw.ReturnedInOneWay` | crates/tau-cli-term-raw/src/lib.rs:547-560 | the first acknowledgement to reach a returned call let it go in exactly one way: a render of a younger snapshot, a paused terminal, or a render of an older snapshot |
| `Redraw.OutdatedIff` | crates/tau-cli-term-raw/src/lib.rs:1599-1621 | in every run a returned call was shown an older frame exactly when the final render was under way as it bumped the counter; otherwise it was let go by a pause or a fresh frame |
| `Redraw.UnpausedReturnIsFreshIff` | crates/tau-cli-term-raw/src/lib.rs:547-560 | a call made when the last pause, if any, has been resumed, and not paused again, is fresh when it returns exactly when the final render was not under way at its bump |
| `Redraw.UnrenderedIffPaused` | crates/tau-cli-term-raw/src/lib.rs:1637-1656 | the step that lets a call go shows it nothing exactly when it is the snapshot step of a terminal whose last pause, read off the schedule, has not been resumed |
| `Redraw.ReleaseStep` | crates/tau-cli-term-raw/src/lib.rs:1721-1729 | every call that is acknowledged has exactly such a step in its run |
| `Redraw.QuietReturnIsFresh` | crates/tau-cli-term-raw/src/lib.rs:547-560 | in every interleaving without pause or shutdown a call that returned has been rendered from a snapshot taken after its bump |
| `Redraw.CompletedIsMonotone` | crates/tau-cli-term-raw/src/lib.rs:1721-1729 | the completed generation never moves back, never passes the requested one, and moves only with an acknowledgement of that very generation |
| `Redraw.CompletedWithinNewestAck` | crates/tau-cli-term-raw/src/lib.rs:1648-1652 | the completed generation never exceeds the newest acknowledged one |
| `Redraw.RedrawThreadNotLost` | crates/tau-cli-term-raw/src/lib.rs:1627-1635 | in every reachable state with an open request or a raised shutdown flag, the redraw thread is not stuck in the receive with the bit clear unless somebody is still between bump (or flag) and notify |
| `Redraw.CallerNotLost` | crates/tau-cli-term-raw/src/lib.rs:555-559 | a caller asleep past its acknowledgement means the thread has yet to signal the condition variable |
| `Redraw.SomebodyCanMove` | crates/tau-cli-term-raw/src/lib.rs:547-560 | while the redraw thread lives and a call is open, the thread or a caller can take a step |
| `Redraw.OthersAreFree` | crates/tau-cli-term-raw/src/lib.rs:543-560 | anybody may call, notify, pause and resume at any time; a call is at its notify, its test or its wait, or over; a wake-up without a reason only makes its thread look again |
| `Redraw.OpenCallIsServed` | crates/tau-cli-term-raw/src/lib.rs:1623-1730 | with a call open and the thread not asleep or about to be, the thread left alone acknowledges everything requested within six turns, without a notify |
| `Redraw.ThreadSettles` | crates/tau-cli-term-raw/src/lib.rs:1623-1730 | without a shutdown the thread left alone goes to sleep within twenty turns, and shows no frame but one under way, one for a pending notify and one for a request that frame does not cover |
| `Redraw.NotifyIsShown` | crates/tau-cli-term-raw/src/lib.rs:1623-1730 | after any notify the thread left alone acknowledges a snapshot taken after it within seven turns, unless the last frame has begun |
| `Redraw.ShutdownEndsThread` | crates/tau-cli-term-raw/src/lib.rs:1595-1621 | once a shutdown is noticed the thread left alone exits within eight turns, its last acknowledgement that of the final frame |
| `Redraw.CanReturnIff` | crates/tau-cli-term-raw/src/lib.rs:1595-1730 | from any reachable state some continuation returns a call exactly when the call has been acknowledged or the redraw thread has its last acknowledgement still to make |
| `Redraw.CallCanReturnIff` | crates/tau-cli-term-raw/src/lib.rs:547-560 | seen at its bump, a call can return exactly when the thread has not yet announced its last frame or exited |
| `Redraw.UnacknowledgedNeverReturns` | crates/tau-cli-term-raw/src/lib.rs:1615-1620 | after the last acknowledgement a call it did not reach never returns, however the run goes on |
| `Redraw.PauseReturnsUnrendered` | crates/tau-cli-term-raw/src/lib.rs:1638-1642 | a reachable state in which a paused terminal has released a call nothing rendered |
| `Redraw.ShutdownReturnsStale` | crates/tau-cli-term-raw/src/lib.rs:1599-1621 | a reachable state in which the shutdown path has released a call with a frame older than its bump |
| `Redraw.CallAfterShutdownIsStuck` | crates/tau-cli-term-raw/src/lib.rs:1615-1620 | a reachable state in which a call made after the thread has gone waits for good |
| `DraftDebounce.DraftSlot.PushDraft` | crates/tau-cli/src/chat.rs:754-772 | a typed snapshot replaces the pending one and is stamped with the mailbox epoch |
| `DraftDebounce.DraftSlot.InvalidateDrafts` | crates/tau-cli/src/chat.rs:728-735 | a submit empties the mailbox and advances the 64-bit epoch, wrapping |
| `DraftDebounce.DraftSlot.Finish` | crates/tau-cli/src/chat.rs:414-419 | leaving the input loop, also on a submission that cannot be written, sets the done flag and leaves the pending draft alone |
| `DraftDebounce.DraftSlot.TakeSnapshot` | crates/tau-cli/src/chat.rs:81-90 | the debounce thread takes the pending snapshot, or exits when there is none and shutdown was signalled |
| `DraftDebounce.DraftSlot.ShouldSendSnapshot` | crates/tau-cli/src/chat.rs:111-115 | a snapshot passes exactly when shutdown was not signalled and its stored epoch is the mailbox's |
| `DraftDebounce.DraftSlot.ShouldExitAfterRest` | crates/tau-cli/src/chat.rs:101-107 | after the rest the thread exits exactly on shutdown with an empty mailbox |
| `DraftDebounce.AtMostOneStaleDraft` | crates/tau-cli/src/chat.rs:77-115 | in every interleaving, across epoch wrap-around too, at most one draft older than a submit is written after that submit's invalidation |
| `DraftDebounce.StaleDraftAfterSubmission` | crates/tau-cli/src/chat.rs:723-735 | the bound is reached: a run in which the stale draft is written even after the submission itself |
| `DraftDebounce.StaleDraftEscapesIff` | crates/tau-cli/src/chat.rs:77-115 | for every run around a submit: a draft from before it is written after it exactly when one was past its check, or passes it because the 64-bit epoch has come round again before shutdown, and the thread goes on to write |
| `DraftDebounce.StaleDraftFollowsIffSending` | crates/tau-cli/src/chat.rs:723-735 | short of 2^64 submits since the draft in hand was pushed, a stale draft follows a submit exactly when the submit found the debounce thread between its check and its write and the thread goes on to write |
| `DraftDebounce.CheckPassesOnlyCurrent` | crates/tau-cli/src/chat.rs:111-115 | a draft that passes the check is of the running epoch, unless the 64-bit counter went all the way round |
| `DraftDebounce.WrittenIsSubsequenceOfPushed` | crates/tau-cli/src/chat.rs:77-115 | written drafts are pushed drafts, in push order, each at most once |
| `DraftDebounce.NewestDraftIsNeverLost` | crates/tau-cli/src/chat.rs:69-109 | until shutdown the newest draft of the running epoch is waiting, in hand or written |
| `DraftDebounce.AtMostOneDraftAfterDone` | crates/tau-cli/src/chat.rs:411-420 | after the shutdown flag at most one draft is written |
| `DraftDebounce.TraceTellsInput` | crates/tau-cli/src/chat.rs:723-772 | in every interleaving the trace is what the input thread did, read off the schedule: the texts pushed, numbered and dated by the submits before them, with nothing else but drafts written in between |
| `DraftDebounce.InputIsFree` | crates/tau-cli/src/chat.rs:723-748 | nothing but its own last step holds the input thread up: it can type, submit and leave, between the halves of a submit it can finish or leave, and after that nothing |
| `DraftDebounce.EveryThreadLives` | crates/tau-cli/src/chat.rs:77-109 | in every reachable state the debounce thread has exited only if shutdown was signalled, and a pending draft is of the running epoch |
| `DraftDebounce.PendingDraftIsWritten` | crates/tau-cli/src/chat.rs:77-109 | before shutdown, from every reachable state, the debounce thread left alone writes the pending draft within six steps |
| `DraftDebounce.DoneThreadExits` | crates/tau-cli/src/chat.rs:81-107 | after shutdown the debounce thread left alone exits within seven steps |
| `AgentLoop.Agent.SleepOrAbort` | crates/tau-agent/src/lib.rs:403-449 | the backoff loop consumes bare cancels for other prompts, parks everything else, and stops at a bare cancel for its own prompt or for all, a disconnect, the deadline or a closed channel |
| `AgentLoop.Agent.WithLlmRetry` | crates/tau-agent/src/lib.rs:586-638 | calls until success, an error not worth a retry, the retry limit, or an interrupted backoff |
| `AgentLoop.Agent.Handle` | crates/tau-agent/src/lib.rs:180-368 | one frame: materialize, gate, call, finish, then ack if it came in an envelope |
| `AgentLoop.Agent.Run` | crates/tau-agent/src/lib.rs:172-370 | deferred frames first, until a disconnect or a closed channel |
| `AgentLoop.SleepOutcome` | crates/tau-agent/src/lib.rs:403-449 | a backoff aborts exactly at the first aborting frame or the end of the channel; it parks all it read but the cancels for other prompts and adds exactly their targets to the cancel set |
| `AgentLoop.RetryOutcome` | crates/tau-agent/src/lib.rs:586-638 | how many calls a prompt gets and why they stop, from the answers given and the frames that arrive: every call but the last failed retryably and the backoff after it elapsed; it is interrupted exactly when the backoff after its last call, one within the limit, met a disconnect, a bare cancel of all or of this prompt, or the end of the channel |
| `AgentLoop.CallsEndOnce` | crates/tau-agent/src/lib.rs:586-638 | those conditions leave one number of calls and one ending |
| `AgentLoop.RetryReads` | crates/tau-agent/src/lib.rs:403-449 | all backoffs of a prompt read one stretch of the channel and add to the cancel set exactly the other prompts that bare cancels in it name |
| `AgentLoop.RetryExhausts` | crates/tau-agent/src/lib.rs:539-557 | an environment that always fails retryably gets exactly one call plus the retry limit |
| `AgentLoop.NoFrameIsLost` | crates/tau-agent/src/lib.rs:172-369 | in every run processed, deferred and unread frames are the arrivals, in order, minus exactly the bare cancels for other prompts read during a backoff |
| `AgentLoop.PromptOutcome` | crates/tau-agent/src/lib.rs:188-348 | a prompt finishes exactly once; it gets calls only if it materializes, is not canceled and has a backend, at most nine, or three for an extension, as many as the answers and the frames waiting say |
| `AgentLoop.AbortStopsCalls` | crates/tau-agent/src/lib.rs:626-636 | once the backoff after a prompt's call is cut short no further call is made for it |
| `AgentLoop.DisconnectIsLast` | crates/tau-agent/src/lib.rs:361-362 | nothing is processed after a disconnect |
| `AgentLoop.HandleKeepsQueues` | crates/tau-agent/src/lib.rs:172-369 | handling a frame never lengthens the queues and forgets no cancel but the one that stopped the prompt it handled |
| `AgentLoop.EveryFrameIsAnswered` | crates/tau-agent/src/lib.rs:172-369 | acks are the ids of the processed envelopes and finishes the names of the processed prompts, once each and in processing order; snapshots are the fold of those prompts |
| `AgentLoop.AnsweredInArrivalOrder` | crates/tau-agent/src/lib.rs:172-369 | in every run the acks sent and the ids still to ack are those of the arrivals in arrival order, and so are the prompts finished and still to finish |
| `AgentLoop.GateStep` | crates/tau-agent/src/lib.rs:220-262 | while a name is in the cancel set no call is made for it, and the name leaves only by stopping a prompt of that name that materialized |
| `AgentLoop.CanceledPromptIsNeverCalled` | crates/tau-agent/src/lib.rs:220-262 | however the run goes on, a prompt whose name is in the cancel set makes no backend call up to the iteration its cancel stops it |
| `AgentLoop.CancelSetAfter` | crates/tau-agent/src/lib.rs:220-361 | the cancel set after one frame, name by name: a targeted cancel enters it when the main loop meets it, bare or in an envelope, and when a backoff for another prompt reads it bare; a name leaves it by stopping a prompt |
| `AgentLoop.CancelAheadSkipsPrompt` | crates/tau-agent/src/lib.rs:346-360 | from a targeted cancel the main loop meets on, no call is made for its name until it has stopped a prompt |
| `AgentLoop.ConsumedCancelsGate` | crates/tau-agent/src/lib.rs:426-437 | every cancel consumed by a backoff is in the cancel set when that iteration ends, so it overtakes the prompt it names |
| `AgentLoop.EnvelopedCancelsWait` | crates/tau-agent/src/lib.rs:413-445 | a backoff does not look inside envelopes: whatever they hold, it ends, parks and records the same |
| `PromptSnapshots.MaterializePrompt` | crates/tau-agent/src/lib.rs:31-83 | fills in the references one after the other, with the first missing or short base as the error |
| `PromptSnapshots.FirstFailureIsReported` | crates/tau-agent/src/lib.rs:31-83 | the error names the first reference that fails, in the order system, prefix, tools, with the lengths of a prefix that is too long |
| `PromptSnapshots.FoldMatches` | crates/tau-agent/src/lib.rs:169-220 | the snapshot map holds exactly the meanings of the latest prompts of each name that have one |
| `PromptSnapshots.MaterializeIsUnfolding` | crates/tau-agent/src/lib.rs:31-83 | one lookup per reference equals the recursive unfolding of the prompt, and succeeds exactly when every reference leads to a meaning |
| `RecordLog.HeaderRoundTrip` | crates/tau-core/src/session_store.rs:582 | every 64-bit length survives its little-endian header |
| `RecordLog.ByteWeighs` | crates/tau-core/src/session_store.rs:582 | the byte at position i of a header weighs 256 to the i |
| `RecordLog.ReadRecords` | crates/tau-core/src/session_store.rs:623-672 | the read loop hands over the records up to a header it cannot read in full, and fails on an oversized length, a short payload or an undecodable one |
| `RecordLog.AppendFrames` | crates/tau-core/src/session_store.rs:567-601 | appending a record appends its length and its bytes to the log |
| `RecordLog.EveryCut` | crates/tau-core/src/session_store.rs:632-671 | for every cut of a log of records within the bound, the reader returns exactly the complete records before it when the cut is at a boundary or inside a header, and fails inside a payload |
| `RecordLog.UncutLog` | crates/tau-core/src/session_store.rs:614-657 | the uncut log reads back exactly when every record is within 64 MiB; the writer does not enforce that |
| `RecordLog.BoundIs` | crates/tau-core/src/session_store.rs:614-657 | the bound is 67,108,864 bytes, inclusive |
| `SessionTree.Session.AppendNodeAt` | crates/tau-core/src/session.rs:216-225 | the new node gets the next id, the given parent and becomes the head |
| `SessionTree.EntriesKeepTheirEvents` | crates/tau-core/src/session.rs:308-397 | an entry keeps everything of its event but how a user's text arrived, and every entry arises but an agent message with nothing in it |
| `SessionTree.Session.ApplyEventAt` | crates/tau-core/src/session.rs:299-398 | which events fold into which entry, under which parent, and what a navigation does |
| `SessionTree.Session.FoldEvents` | crates/tau-core/src/session.rs:234-253 | replay folds the records in order and takes the next id from the last one |
| `SessionTree.Session.BranchFrom` | crates/tau-core/src/session.rs:176-189 | whenever the walk up the parents ends it yields the entries on it, last first reached; in a tree of existing parents that is the branch from the root |
| `SessionTree.Children` | crates/tau-core/src/session.rs:193-199 | exactly the nodes with that parent, in insertion order |
| `SessionTree.Leaves` | crates/tau-core/src/session.rs:206-214 | exactly the nodes that are nobody's parent, in insertion order |
| `SessionTree.ApplyKeepsWellFormed` | crates/tau-core/src/session.rs:216-225 | an event keeps ids equal to positions and parents below children exactly when it makes no node or its parent exists |
| `SessionTree.EventContinuesBranch` | crates/tau-core/src/session.rs:216-225 | an event with an entry continues the conversation its parent names, the head's if it names none and nothing's at the root, and moves the head there |
| `SessionTree.NavigatingMovesHead` | crates/tau-core/src/session.rs:299-398 | a navigation moves the head to a node that exists and changes nothing else, and the conversation goes on from there; to one that does not exist it changes nothing |
| `SessionTree.OtherEventsChangeNothing` | crates/tau-core/src/session.rs:299-398 | every other event leaves the tree alone |
| `SessionTree.ReachableIsWellFormed` | crates/tau-core/src/session.rs:299-398 | if callers name only existing parents, every reachable tree has ids equal to positions and parents below children, and no node ever changes |
| `SessionTree.PathIsChain` | crates/tau-core/src/session.rs:176-189 | the path starts at a root and each node on it is the parent of the next |
| `SessionTree.BranchIsStable` | crates/tau-core/src/session.rs:176-189 | later events never change what a branch shows |
| `SessionTree.EveryNodeIsOnALeafBranch` | crates/tau-core/src/session.rs:206-214 | every node lies on the branch of some leaf, which extends its own branch |
| `SessionTree.WalkEnds` | crates/tau-core/src/session.rs:176-189 | in a well-formed tree the parent walk ends within as many steps as the node's number allows |
| `SessionTree.EveryTreeIsNumbered` | crates/tau-core/src/session.rs:216-225 | ids are positions in every tree, whatever parents its callers name |
| `SessionTree.WalksStillEndIff` | crates/tau-core/src/session.rs:216-225 | in any tree in which every walk ends, one more node keeps it so exactly when following parents up from the parent it was given does not run off the node list at its own id |
| `SessionTree.WalksEndIff` | crates/tau-core/src/session.rs:299-398 | over any run, with parents that exist or not, every walk ends exactly when no event along the way closed such a cycle |
| `SessionTree.WellFormedWalksEnd` | crates/tau-core/src/session.rs:176-189 | trees built on existing parents only are among those in which every walk ends |
| `SessionTree.SelfParentNeverEnds` | crates/tau-core/src/session.rs:176-189 | a node that is its own parent makes the walk go on for ever |
| `SessionTree.DanglingParentCanLoopLater` | crates/tau-core/src/session.rs:216-225 | two appends, the first under an id not made yet, that close a cycle |
| `SessionStore.AppendTwins` | crates/tau-core/src/session_store.rs:365-385 | one append keeps live tree and replayed log equal but for parents, and pulls them apart exactly when it folds at the root under a set head |
| `SessionStore.LiveAgainstReplay` | crates/tau-core/src/session_store.rs:342-391 | after any appends and reopens that load, live tree and replayed log differ at most in parents, and do differ exactly when such an append happened since the last reopen |
| `SessionStore.ReopenIsInvisibleIff` | crates/tau-core/src/session_store.rs:229-242 | the file of a session in use reads back and folds into its live tree, head and next id included, exactly when no record exceeds the reader's bound and no event that makes a node was folded at the root under a set head since the session was opened |
| `SessionStore.ReopenChangesNothingIff` | crates/tau-core/src/session_store.rs:229-242 | in a run of appends and reopens a reopen changes nothing exactly under that condition, or when the session could not be loaded before either |
| `SessionStore.ReopenCanShow` | crates/tau-core/src/session_store.rs:342-391 | two prompts, the second at the root: closing and reopening makes it the first one's child |
| `SessionStore.ReopenCanFail` | crates/tau-core/src/session_store.rs:614-657 | one record just above 64 MiB is appended and folded, and its file cannot be read again |
| `SessionStore.ReopenLosesOnlyParents` | crates/tau-core/src/session.rs:242-248 | a reopen succeeds exactly when the log is readable, then keeps every node, the head and the next id even where it shows, and a second one changes nothing more |
| `SessionStore.RecordIdsAreConsecutive` | crates/tau-core/src/session_store.rs:366-385 | record ids count up from zero, across reopens |
| `SessionStore.UncutFile` | crates/tau-core/src/session_store.rs:229-242 | a file of appended records reads back as them when each is within the bound, and otherwise fails on one that is too long |
| `SessionStore.Store.LoadIfNeeded` | crates/tau-core/src/session_store.rs:229-242 | loads the replayed tree unless it is in memory or has no file, changes no session by it, and fails exactly when a record on disk exceeds the bound |
| `SessionStore.Store.AppendSessionEventAt` | crates/tau-core/src/session_store.rs:342-391 | the session makes the append of the run model, with the id and node returned; an unreadable session refuses it, and no other session changes |
| `SessionStore.Store.Close` | crates/tau-core/src/session_store.rs:229-242 | closing makes every session the one a reopen would load, or none where its log is unreadable |
| `Utf8Text.PrevCharBoundary` | crates/tau-cli-term-raw/src/lib.rs:1910-1916 | the nearest character boundary to the left, or the start |
| `Utf8Text.NextCharBoundary` | crates/tau-cli-term-raw/src/lib.rs:1918-1924 | the nearest character boundary to the right |
| `Utf8Text.EncodedLength` | crates/tau-cli-term-raw/src/lib.rs:1910-1924 | a character has as many bytes as its UTF-8 encoding, and all but the first continue it |
| `Utf8Text.BoundaryIffNotContinuing` | crates/tau-cli-term-raw/src/lib.rs:1910-1924 | an offset is a boundary exactly when it is the end of the encoded text or the byte there does not continue a character |
| `PromptGeometry.AdvanceBufferPosition` | crates/tau-cli-term-raw/src/lib.rs:1835-1855 | one character moves the position as the reference does, wrapping before a character that does not fit |
| `PromptGeometry.BufferPositionForByte` | crates/tau-cli-term-raw/src/lib.rs:1857-1871 | the position of a byte offset is that of the characters that start before it |
| `PromptGeometry.ByteOffsetForBufferPosition` | crates/tau-cli-term-raw/src/lib.rs:1877-1908 | the loop finds the first boundary at or past the target, or the newline that closes its row |
| `PromptGeometry.CharacterGoes` | crates/tau-cli-term-raw/src/lib.rs:1835-1855 | a character that fits stays on its row and one that does not is put on the next as a whole; a newline starts the next row |
| `PromptGeometry.NarrowTextFills` | crates/tau-cli-term-raw/src/lib.rs:1830-1871 | single-column text fills cell after cell behind the prompt |
| `PromptGeometry.PositionsMonotoneInBytes` | crates/tau-cli-term-raw/src/lib.rs:1830-1871 | for every text, width and prompt, positions are in reading order of byte offsets and the column stays inside the terminal |
| `PromptGeometry.SeekInvertsAt` | crates/tau-cli-term-raw/src/lib.rs:1877-1908 | seeking a boundary's position finds the first boundary that looks the same, and the boundary itself exactly when the character before it shows |
| `PromptGeometry.OffsetRoundTrip` | crates/tau-cli-term-raw/src/lib.rs:1877-1908 | in bytes, offset of position is a boundary at or before with the same position, and the same offset when no character is invisible |
| `PromptGeometry.LandsOnRowIff` | crates/tau-cli-term-raw/src/lib.rs:1877-1908 | the search lands on the target row exactly when that row reaches the column or is closed by a newline or the end |
| `PromptGeometry.WideCharacterMissesRow` | crates/tau-cli-term-raw/src/lib.rs:1877-1908 | a row filled by a wide character has no boundary in its last column and the search lands one row down |
| `PromptGeometry.ColumnBeyondTerminalMissesRow` | crates/tau-cli-term-raw/src/lib.rs:1877-1908 | a column beyond the terminal, such as one kept across a resize, lands on its row exactly when a newline or the end closes that row |
| `PromptGeometry.NarrowLanding` | crates/tau-cli-term-raw/src/lib.rs:1803-1822 | with narrow characters the search lands on the target row at the column clamped to it |
| `PromptGeometry.StridesLand` | crates/tau-cli-term-raw/src/lib.rs:1803-1822 | any walk of vertical moves inside the text lands on the row it should at the clamped sticky column |
| `PromptGeometry.VerticalWalkReturns` | crates/tau-cli-term-raw/src/lib.rs:235-262 | any walk of vertical moves inside narrow text that ends on its starting row ends at its starting position, and at the very byte when no character is invisible |
| `PromptGeometry.DownsThenUps` | crates/tau-cli-term-raw/src/lib.rs:235-262 | with the prompt narrower than the terminal, k Downs that fit and then k Ups come back to the starting position, and to the very byte when no character is invisible |
| `PromptGeometry.UpIntoWrappedPrompt` | crates/tau-cli-term-raw/src/lib.rs:1803-1822 | Up from the first row of text fails when the prompt does not wrap, and lands on the start of the text when it does |
| `EditorInvariants.EditedFits` | crates/tau-cli-term-raw/src/lib.rs:1161-1348 | an edit leaves the cursor between two characters and the recalled entry in range |
| `EditorInvariants.ReplacedOffset` | crates/tau-cli-term-raw/src/lib.rs:1294-1300 | replacing characters moves later boundaries by the bytes gained and lost |
| `EditorInvariants.StepFits` | crates/tau-cli-term-raw/src/lib.rs:1129-1444 | every key, refresh and outside call keeps the editor state well formed |
| `EditorInvariants.EveryRunFits` | crates/tau-cli-term-raw/src/lib.rs:1129-1444 | in every run, calls from other threads between and inside keys included, the cursor is on a character boundary and an open menu has candidates, a selection in range and a place to go back to |
| `EditorProperties.RefreshInStepIff` | crates/tau-cli-term-raw/src/lib.rs:1031-1051 | a refresh leaves menu and buffer in step exactly when it opens no menu or the text it asked about is still there when the answer comes |
| `EditorProperties.LateAnswerUndoesSetBuffer` | crates/tau-cli-term-raw/src/lib.rs:1035-1050 | setting the buffer while candidates are fetched is undone by opening and closing the menu |
| `EditorProperties.StepKeepsInStep` | crates/tau-cli-term-raw/src/lib.rs:281-341 | every other key keeps the buffer equal to the selected replacement, or to the original text when none is selected |
| `EditorProperties.EveryRunInStep` | crates/tau-cli-term-raw/src/lib.rs:1129-1444 | over any run in which nobody sets the buffer during a fetch, menu and buffer are in step |
| `EditorProperties.EscRestores` | crates/tau-cli-term-raw/src/lib.rs:316-325 | Esc after any run of cycling closes the menu on the original text, with the cursor back if anything was cycled or previewed |
| `EditorProperties.CycleInverses` | crates/tau-cli-term-raw/src/lib.rs:290-297 | Up undoes Down exactly when the last candidate was not selected, and Down undoes Up exactly when some candidate was |
| `EditorProperties.ForwardVisitsInOrder` | crates/tau-cli-term-raw/src/lib.rs:290-297 | cycling forward shows every candidate in order, over and over |
| `EditorProperties.BackspaceUndoesTyping` | crates/tau-cli-term-raw/src/lib.rs:1294-1324 | Backspace takes back what was just typed, text and cursor both |
| `EditorProperties.LeftThenDelete` | crates/tau-cli-term-raw/src/lib.rs:1326-1356 | Delete after Left is Backspace |
| `EditorProperties.LeftAndRightUndo` | crates/tau-cli-term-raw/src/lib.rs:1350-1364 | Right undoes Left away from the start and Left undoes Right away from the end |
| `EditorProperties.KillWordRemovesOneWord` | crates/tau-cli-term-raw/src/lib.rs:1231-1253 | Ctrl-W removes one run without ASCII spaces and the white space behind it, and nothing else |
| `EditorProperties.ArrowsAreStrides` | crates/tau-cli-term-raw/src/lib.rs:1368-1401 | with no menu open, arrow keys that stay in the text only move the cursor and the sticky column, as the geometry says |
| `EditorProperties.DownKeysThenUpKeys` | crates/tau-cli-term-raw/src/lib.rs:1368-1401 | k times the Down key and k times Up inside narrow text bring the cursor back to its position, to the very byte when no character is invisible, and touch nothing else |
| `EditorProperties.RecallLandsOnEdgeRow` | crates/tau-cli-term-raw/src/lib.rs:343-353 | a recalled line is entered on its last row going back and its first going forward, at the clamped column |
| `EditorHistory.StepTurnsBook` | crates/tau-cli-term-raw/src/lib.rs:354-407 | which line a history step shows depends on text, history and position alone, not on the cursor |
| `EditorHistory.WalkShowsEntries` | crates/tau-cli-term-raw/src/lib.rs:389-407 | walking among the entries changes none of them and shows the one it stands on |
| `EditorHistory.StepOnEntries` | crates/tau-cli-term-raw/src/lib.rs:200-407 | any step that leaves history navigation open changes at most the entry being edited, to the buffer's text, and shows the entry it lands on |
| `EditorHistory.EntriesHoldLastTyped` | crates/tau-cli-term-raw/src/lib.rs:200-407 | whatever is pressed and called while navigation stays open, every entry holds what was last typed there, or its own line, and the input history does not change |
| `EditorHistory.LandingShowsLastTyped` | crates/tau-cli-term-raw/src/lib.rs:389-407 | in such a run a step to another entry shows what was last typed there |
| `EditorHistory.BrowsingShowsLastTyped` | crates/tau-cli-term-raw/src/lib.rs:200-407 | any mix of edits, cursor keys and history steps within the entries keeps navigation open and shows at each entry what was last typed there |
| `EditorHistory.TypedEditReappears` | crates/tau-cli-term-raw/src/lib.rs:200-207 | an edit to a recalled line is there again whenever any mix of steps and edits elsewhere comes back to it, and so is every other line left alone |
| `EditorHistory.DraftReappears` | crates/tau-cli-term-raw/src/lib.rs:354-407 | from the draft, steps back and as many forward, with any edits on recalled lines between, bring the draft back; edited on the way, what was last typed on it |
| `EditorHistory.BackShows` | crates/tau-cli-term-raw/src/lib.rs:369-383 | the j-th step back shows the j-th newest line, and more steps stay on the oldest |
| `EditorHistory.RetraceIff` | crates/tau-cli-term-raw/src/lib.rs:354-407 | k steps back and k forward restore the draft and leave the history alone exactly when the history has k lines or the draft is empty |
| `EditorHistory.AcceptedPreviewSurvivesIff` | crates/tau-cli-term-raw/src/lib.rs:330-341 | a candidate accepted on a recalled line survives a walk away and back, any walk, exactly when the entry already held it |
| `EditorHistory.AcceptedPreviewCanBeLost` | crates/tau-cli-term-raw/src/lib.rs:330-341 | a run from the blank prompt in which an accepted candidate is gone after one step forward and back |
| `EditorHistory.StepExtends` | crates/tau-cli-term-raw/src/lib.rs:267-275 | every step leaves the input history alone or appends non-empty lines |
| `EditorHistory.HistoryOnlyGrows` | crates/tau-cli-term-raw/src/lib.rs:267-275 | over any run the input history changes only by appending non-empty lines |
| `PromptTerm.SilentKeysChangeNothing` | crates/tau-cli-term-raw/src/lib.rs:1129-1444 | a key that reports neither a change nor a line leaves text, menu and input history alone |
| `PromptTerm.SubmittedLineIsFiled` | crates/tau-cli-term-raw/src/lib.rs:1172-1192 | a submitted line is the text on screen, goes onto the history unless empty, and leaves an empty prompt with nothing open |
| `PromptTerm.Term.SyncBufferToHistoryNav` | crates/tau-cli-term-raw/src/lib.rs:203-207 | copies the buffer into the entry being edited |
| `PromptTerm.Term.VerticalTargetCol` | crates/tau-cli-term-raw/src/lib.rs:238-245 | the sticky column, captured from the cursor on first use |
| `PromptTerm.Term.PushBufferAsHistoryEntry` | crates/tau-cli-term-raw/src/lib.rs:267-275 | files a non-empty line and clears the prompt |
| `PromptTerm.Term.CycleCompletion` | crates/tau-cli-term-raw/src/lib.rs:281-311 | selects and previews the next candidate or the original text |
| `PromptTerm.Term.DismissCompletion` | crates/tau-cli-term-raw/src/lib.rs:316-325 | closes the menu and undoes a preview |
| `PromptTerm.Term.AcceptCompletion` | crates/tau-cli-term-raw/src/lib.rs:330-341 | closes the menu exactly when something is previewed |
| `PromptTerm.Term.StepHistory` | crates/tau-cli-term-raw/src/lib.rs:354-364 | one history step, with whether it reports a change |
| `PromptTerm.Term.EnterHistoryNav` | crates/tau-cli-term-raw/src/lib.rs:369-383 | recalls the newest line with the draft kept last |
| `PromptTerm.Term.AdvanceHistoryNav` | crates/tau-cli-term-raw/src/lib.rs:389-407 | moves among the entries, or files the draft past the end |
| `PromptTerm.Term.MoveCursorVertical` | crates/tau-cli-term-raw/src/lib.rs:1803-1822 | the offset one row away, if that row is in the text |
| `PromptTerm.Term.SetBuffer` | crates/tau-cli-term-raw/src/lib.rs:684-691 | replaces the text, closes menu and navigation, caps the cursor |
| `PromptTerm.Term.RefreshCompletion` | crates/tau-cli-term-raw/src/lib.rs:1031-1051 | opens the menu the source offers for the buffer, or closes it |
| `PromptTerm.Term.HandleKey` | crates/tau-cli-term-raw/src/lib.rs:1129-1444 | each key makes its step of the state machine and reports its event |
| `PromptTerm.Before` | crates/tau-cli-term-raw/src/lib.rs:1910-1916 | from a boundary, the boundary to the left is one character away |
| `PromptTerm.Behind` | crates/tau-cli-term-raw/src/lib.rs:1918-1924 | from a boundary, the boundary to the right is one character away |
| `PromptTerm.WordStart` | crates/tau-cli-term-raw/src/lib.rs:1235-1239 | where Ctrl-W's word starts: white space skipped, then back to the last ASCII space |
| `PromptKeys.HomeAndEndKeys` | crates/tau-cli-term-raw/src/lib.rs:1255-1264 | Home and Ctrl-A put the cursor at the start of the text, End and Ctrl-E at its end, and nothing else changes |
| `PromptKeys.LeftAndRightKeys` | crates/tau-cli-term-raw/src/lib.rs:1350-1364 | Left and Right move the cursor one character and stop at the ends |
| `PromptKeys.TypingKeys` | crates/tau-cli-term-raw/src/lib.rs:1294-1305 | a typed character, or a newline by Enter with Shift or Alt, goes in at the cursor; the recalled line changes with it and the menu becomes what the source offers |
| `PromptKeys.BackspaceErases` | crates/tau-cli-term-raw/src/lib.rs:1306-1325 | Backspace takes the character before the cursor, and at the start does nothing |
| `PromptKeys.DeleteErases` | crates/tau-cli-term-raw/src/lib.rs:1326-1348 | Delete takes the character behind the cursor, and at the end does nothing |
| `PromptKeys.KillLineKey` | crates/tau-cli-term-raw/src/lib.rs:1219-1230 | Ctrl-U takes everything before the cursor |
| `PromptKeys.WhiteSpaceIs` | crates/tau-cli-term-raw/src/lib.rs:1231-1253 | the white space Ctrl-W skips is the 25 characters of Unicode's property |
| `PromptKeys.KillWordKey` | crates/tau-cli-term-raw/src/lib.rs:1231-1253 | Ctrl-W takes white space and then everything up to the last ASCII space, and at the start does nothing |
| `PromptKeys.HistoryKeys` | crates/tau-cli-term-raw/src/lib.rs:354-407 | Ctrl-K and Ctrl-Up show the older line, Ctrl-J and Ctrl-Down the newer one, past the last one filing the draft; the menu closes |
| `PromptKeys.ArrowKeys` | crates/tau-cli-term-raw/src/lib.rs:1366-1401 | with no menu open an arrow key moves a row inside the text, touching only cursor and kept column, and beyond it shows the older or newer line; what it reports |
| `PromptKeys.MenuKeys` | crates/tau-cli-term-raw/src/lib.rs:281-311 | Tab and Down select the next candidate around the menu, BackTab and Up the one before, by way of none |
| `PromptKeys.ClosedMenuKeys` | crates/tau-cli-term-raw/src/lib.rs:1414-1431 | with no menu open Tab does nothing and BackTab only reports itself |
| `PromptKeys.EscKey` | crates/tau-cli-term-raw/src/lib.rs:316-325 | Esc closes the menu and takes back the candidate shown |
| `PromptKeys.EnterKey` | crates/tau-cli-term-raw/src/lib.rs:1172-1192 | Enter keeps a candidate shown and closes the menu, and otherwise files the line and leaves an empty prompt |
| `PromptKeys.InterruptKeys` | crates/tau-cli-term-raw/src/lib.rs:1194-1218 | Ctrl-C clears a line and ends the input on an empty one, as Ctrl-D does; Ctrl-D on a line does nothing |
| `PromptKeys.BoundKeys` | crates/tau-cli-term-raw/src/lib.rs:1265-1293 | a bound key reports its action and does nothing else; six control keys cannot be bound; the rest are the external editor's, the history's or ignored |
| `PromptKeys.SettingTheBuffer` | crates/tau-cli-term-raw/src/lib.rs:684-691 | setting the buffer replaces the text, closes what is open and keeps the cursor inside the text |
| `PromptKeys.ResizeAndSource` | crates/tau-cli-term-raw/src/lib.rs:914-996 | a resize keeps all but the width, and a change of completion source closes the menu |
| `ResponsesRequest.CollectToolTypes` | crates/tau-agent/src/responses.rs:767-779 | the type of the last use of every call id |
| `ResponsesRequest.EncodedNameIsWireName` | crates/tau-agent/src/responses.rs:801-812 | an encoded name is one the wire accepts, of the same length, and unchanged exactly when it was one already; two names can collide |
| `ResponsesRequest.PrefixedOnce` | crates/tau-agent/src/responses.rs:934-952 | an item id carries its prefix once, with the call id behind it |
| `ResponsesRequest.CallIdsArePrefixed` | crates/tau-agent/src/responses.rs:926-965 | a function call's item id is its call id behind fc_, a custom call's behind ctc_ |
| `ResponsesRequest.ConvertMessage` | crates/tau-agent/src/responses.rs:818-1022 | one message's blocks become items, with pending text packed before anything that interrupts it |
| `ResponsesRequest.BuildRequest` | crates/tau-agent/src/responses.rs:521-558 | chains on a valid anchor and replays everything otherwise, with call types taken from the whole conversation |
| `ResponsesRequest.CacheKeyIsShared` | crates/tau-agent/src/responses.rs:597-604 | a user's prompts share the session's cache key, an extension's too if it asks to, and otherwise use one made of that key and its name |
| `ResponsesRequest.Lockstep` | crates/tau-agent/src/responses.rs:855-863 | two conversions that start from different call types emit the same items but for output kinds, and the very same exactly when the types agree on the awaited ids |
| `ResponsesRequest.ChainedInputIsSuffixIff` | crates/tau-agent/src/responses.rs:534-558 | dropping the chain puts the items of the earlier messages in front and changes at most output kinds; the rest is the chained input itself exactly when every call awaited after the anchor and made before it has the type of its id's last use |
| `ResponsesRequest.OneTypePerCallIsSteady` | crates/tau-agent/src/responses.rs:544-550 | with one tool type per call id every anchor is safe |
| `ResponsesRequest.RetypedCallBreaksTheSuffix` | crates/tau-agent/src/responses.rs:544-558 | a conversation in which an id is used again with another type and the chained input is not the suffix |
| `ResponsesRequest.Stream` | crates/tau-agent/src/responses.rs:99-130 | at most two requests: the second is the full replay, sent exactly when the prompt named a previous response and the first was refused as stale |
| `ResponsesRequest.SecondRequestIff` | crates/tau-agent/src/responses.rs:99-130 | a second request goes out exactly when the first named a previous response and came back as a 4xx that says it is not known; it names none and shares no cache |
| `ResponsesRequest.FallbackKeepsCacheKeyIff` | crates/tau-agent/src/responses.rs:118-128 | the fallback keeps the cache key exactly unless an extension's prompt had been given the user's key and has another of its own |
| `ResponsesRequest.FallbackCanChangeCacheKey` | crates/tau-agent/src/responses.rs:118-128 | an extension's side query, refused as stale, goes out again under another cache key |
| `RequestContent.PendingIsItsItem` | crates/tau-agent/src/responses.rs:913-928 | joined text reads back line by line as its parts |
| `RequestContent.InputSaysEverything` | crates/tau-agent/src/responses.rs:818-1022 | read back, a request's input says what the blocks say, each piece once, in order, with its message's role and phase |
| `RequestContent.RequestTellsConversation` | crates/tau-agent/src/responses.rs:528-560 | a request names a previous response exactly when the prompt's anchor lies within its messages, then the prompt's own, and what came before that anchor followed by the input is the whole conversation; a request that names none says it all itself |
| `RequestContent.OutputKindsAreTheirCalls` | crates/tau-agent/src/responses.rs:850-870 | every tool result is presented as its call's kind: that of the last assistant call before it, else of the id's last use anywhere |
| `ToolCallSlots.PadTo` | crates/tau-agent/src/common.rs:226-233 | slots are padded until the index is addressable |
| `ToolCallSlots.IntoToolCalls` | crates/tau-agent/src/common.rs:234-256 | the named slots, in index order |
| `ToolCallSlots.CallOfSlot` | crates/tau-agent/src/common.rs:234-256 | each named slot is one call, in index order, and there are no others |
| `ToolCallSlots.ArgumentsAreDeltas` | crates/tau-agent/src/responses.rs:258-311 | a slot's arguments are its deltas in order, behind the item's final input if that came before any delta; one that comes later is ignored |
| `ToolCallSlots.LastFieldsWin` | crates/tau-agent/src/responses.rs:296-302 | the last item's id, name and type stand, whatever deltas follow |
| `ToolCallSlots.TypedWritesMatch` | crates/tau-agent/src/responses.rs:247-312 | a slot equals the one its own events build alone, but for the type of one still without a name |
| `ToolCallSlots.CallsAreBuiltAlone` | crates/tau-agent/src/common.rs:234-256 | the final calls are the slots built one by one from their own events |
| `ToolCallSlots.InterleavingDoesNotMatter` | crates/tau-agent/src/common.rs:234-256 | any two interleavings that keep each index's own order end in the same calls |
| `ToolCallSlots.PaddingTypeDependsOnOrder` | crates/tau-agent/src/responses.rs:266-273 | along the way padding takes the type of whichever event arrives first |
| `StreamAccumulator.Accumulator.AppendArguments` | crates/tau-agent/src/responses.rs:247-278 | argument and custom-input deltas extend their slot's arguments |
| `StreamAccumulator.Accumulator.FillSlot` | crates/tau-agent/src/responses.rs:286-312 | an item sets type, id and name, and its final input only while the arguments are empty |
| `StreamAccumulator.Accumulator.ApplyEvent` | crates/tau-agent/src/responses.rs:214-443 | one event's effect on text, reasoning, slots, phase and reasoning items, and whether the stream goes on |
| `StreamAccumulator.ReadStream` | crates/tau-agent/src/responses.rs:180-201 | events are read up to the one that ends the stream; a failure yields nothing, a cut stream what it had |
| `StreamAccumulator.StreamOrderDoesNotMatter` | crates/tau-agent/src/responses.rs:247-312 | streams that agree index by index and in their text deltas give the same text and tool calls, however they interleave |
| `StreamAccumulator.SlotsAreTold` | crates/tau-agent/src/responses.rs:247-312 | after a stream each slot holds what the events of its index say: the last id and name given, the deltas in order behind a final input that came first, and, once named, its type |
| `StreamAccumulator.PassedOverSlot` | crates/tau-agent/src/responses.rs:247-312 | a slot no event has written to is there exactly when one has written past it, with that event's type |
| `StreamAccumulator.ReasoningIsKept` | crates/tau-agent/src/responses.rs:313-337 | the reasoning items kept are the finished, encrypted ones, in order |
| `StreamAccumulator.ThinkingGrows` | crates/tau-agent/src/responses.rs:228-246 | thinking grows by its deltas, and between parts by a blank line unless it is empty or ends with one |
| `StreamAccumulator.ReadsToFirstEnd` | crates/tau-agent/src/responses.rs:180-201 | a stream is read to the first event that completes or fails it |
| `StreamAccumulator.PhaseIsFirstCarried` | crates/tau-agent/src/responses.rs:338-384 | the phase of a response is the first one its events carry, completed envelope included |
| `StreamAccumulator.PhaseIsFirstMessages` | crates/tau-agent/src/responses.rs:338-384 | item by item, the phase is that of the first message shown that has one |
| `StreamAccumulator.PhasesAgreeIff` | crates/tau-agent/src/responses.rs:338-384 | two streams agree on the phase exactly when the first phases they carry agree |
| `StreamAccumulator.PhaseDependsOnOrder` | crates/tau-agent/src/responses.rs:338-340 | two items with different phases, in either order, give different phases |
| `StreamAccumulator.ApplyCallDelta` | crates/tau-agent/src/openai.rs:196-232 | one chat delta's effect on its slot |
| `StreamAccumulator.ApplyStreamChoice` | crates/tau-agent/src/openai.rs:172-234 | a choice's tool-call deltas are applied in order |
| `StreamAccumulator.ChatSlotsAreExact` | crates/tau-agent/src/openai.rs:199-207 | chat deltas never pad with the custom type, so every slot equals the one its own deltas build |
| `StreamAccumulator.ChatSlotsAreTold` | crates/tau-agent/src/openai.rs:172-234 | after a choice each slot holds what its deltas say: the last id and name, custom once any says so, and the contents in order |
| `StreamAccumulator.ChatOrderDoesNotMatter` | crates/tau-agent/src/openai.rs:172-234 | chat deltas that agree index by index give the same calls, however they interleave |
| `ToolRegistry.ToolRegistry.Register` | crates/tau-core/src/tool_registry.rs:82-121 | one more operation in the history both maps are read off; the warning names exactly the connections with a current registration, oldest first |
| `ToolRegistry.ToolRegistry.Unregister` | crates/tau-core/src/tool_registry.rs:124-141 | one more operation in the history, and whether the registration was current |
| `ToolRegistry.ToolRegistry.UnregisterConnection` | crates/tau-core/src/tool_registry.rs:144-159 | one more operation in the history, and exactly the tools the connection had, oldest first |
| `ToolRegistry.ToolRegistry.RemoveToolFromConnection` | crates/tau-core/src/tool_registry.rs:230-237 | an emptied tool list is taken out of the map |
| `ToolRegistry.ToolRegistry.ResolveProvider` | crates/tau-core/src/tool_registry.rs:190-194 | the connection whose current registration is oldest, with its latest specification; none exactly when nobody is registered |
| `ToolRegistry.StepTracks` | crates/tau-core/src/tool_registry.rs:82-159 | every operation keeps both maps listing exactly the current registrations, oldest first, with the latest specifications |
| `ToolRegistry.EveryRunIsTracked` | crates/tau-core/src/tool_registry.rs:82-159 | so does every sequence of operations |
| `ToolRegistry.MapsAreInverse` | crates/tau-core/src/tool_registry.rs:68-72 | over every sequence of operations the maps are each other's inverse, list nothing twice and hold no empty list |
| `ToolRegistry.OldestWins` | crates/tau-core/src/tool_registry.rs:190-194 | a tool resolves to the connection whose current registration is oldest, with its latest specification, and to nobody exactly when none is current |
| `ToolRegistry.RegisteringTakesNoPlace` | crates/tau-core/src/tool_registry.rs:82-121 | registering takes nobody's place: a tool goes to the caller only if nobody or the caller had it, with the new specification |
| `ToolRegistry.LeavingPassesOn` | crates/tau-core/src/tool_registry.rs:124-159 | a connection that unregisters or leaves gives up its own tools only, each to another connection that had registered it, or to nobody |
| `ToolRegistry.DisconnectLeavesNothing` | crates/tau-core/src/tool_registry.rs:144-159 | a dropped connection provides and owns nothing, and every other registration stands, age and all |
| `ToolRegistry.ExistingAreCurrent` | crates/tau-core/src/tool_registry.rs:86-98 | after any history the ids a warning would name are those of the current registrations, oldest first |
| `ToolRegistry.ProvidesIffCurrent` | crates/tau-core/src/tool_registry.rs:124-141 | after any history a connection is listed for a tool exactly when its registration is current |
| `EventBus.EventBus.Connect` | crates/tau-core/src/bus.rs:93-116 | the requested or an allocated id, with no subscriptions, replacing whoever held it |
| `EventBus.EventBus.Disconnect` | crates/tau-core/src/bus.rs:119-123 | removes the connection |
| `EventBus.EventBus.SetSubscriptions` | crates/tau-core/src/bus.rs:143-168 | replaces the selectors of a connection that exists and may have them |
| `EventBus.EventBus.PublishFrom` | crates/tau-core/src/bus.rs:184-208 | in whatever order the map yields them, each connection meets the fate its selectors, filter and sink decide, and only those delivered to get the frame |
| `EventBus.PrefixOfWrittenName` | crates/tau-proto/src/events.rs:162-182 | the prefix test on category and call is the prefix test on the written name |
| `EventBus.BroadcastMeans` | crates/tau-core/src/bus.rs:184-208 | a frame reaches exactly the inboxes of the connections that asked for its event by name or prefix, may see it and take it, once and last; the report says which of those failed; only events can be asked for |
| `EventBus.SendMeans` | crates/tau-core/src/bus.rs:211-240 | a directed frame needs no subscription, touches its target only, and reports what became of it |
| `EventBus.EventBus.SendTo` | crates/tau-core/src/bus.rs:211-240 | a directed frame goes to its target past the subscriptions, or is an unknown connection |
| `EventBus.EventBus.RouteToolRequest` | crates/tau-core/src/tool_registry.rs:198-228 | resolve, then send with the requester as source |
| `EventBus.ReportIsPartition` | crates/tau-core/src/bus.rs:188-205 | the four lists of a broadcast account for every connection exactly once |
| `EventBus.RequestReachesOnlyTheOldest` | crates/tau-core/src/tool_registry.rs:198-228 | after any history a tool request touches only the oldest current provider, and is refused exactly when there is none or it has left the bus |
| `EventBus.DecimalReadsBack` | crates/tau-core/src/bus.rs:242-245 | an allocated id's number is written in decimal digits without a leading zero and reads back |
| `EventBus.AllocationEvictsIff` | crates/tau-core/src/bus.rs:242-245 | an allocated id is live already exactly when the last admission to name it was a connection asking for it |
| `EventBus.AllocatedIdsNeverRepeat` | crates/tau-core/src/bus.rs:242-245 | no id is allocated twice in a run |
| `EventBus.AllocationCanEvict` | crates/tau-core/src/bus.rs:94-114 | a connection named conn-1 is in the way of the first allocation |
| `Picker.AdjacentEnabledItem` | crates/tau-cli-picker/src/lib.rs:157-169 | the loop finds the nearest other enabled item in the direction, or stays |
| `Picker.OppositeMovesUndo` | crates/tau-cli-picker/src/lib.rs:157-169 | on enabled items Up undoes Down and Down undoes Up |
| `Picker.OneMoreMove` | crates/tau-cli-picker/src/lib.rs:91-92 | any mix of Downs and Ups amounts to its net number of Downs |
| `Picker.DownsReach` | crates/tau-cli-picker/src/lib.rs:157-169 | going down reaches every enabled item without passing it |
| `Picker.DownsPick` | crates/tau-cli-picker/src/lib.rs:89-111 | from the start, some Downs, no more than there are places to the target, and Enter pick any enabled item; as many Ups before Enter come back |
| `Picker.HowItEnds` | crates/tau-cli-picker/src/lib.rs:89-111 | the picker is cancelled exactly when the first Enter or cancel is a cancel, and out of keys exactly when there is neither |
| `Picker.IgnoredKeysDoNotMatter` | crates/tau-cli-picker/src/lib.rs:89-111 | any other key, wherever it comes, leaves the outcome as it is |
| `Picker.VisibleWindow` | crates/tau-cli-picker/src/lib.rs:145-155 | a full window of items that contains the selection, in its middle unless the list ends first |
| `Picker.CursorOnSelectedRow` | crates/tau-cli-picker/src/lib.rs:114-141 | at any height as many rows as fit are shown, each with its item's text and whether it is enabled; the cursor is on the selected one, the only one with the selection marker |
| `Picker.ReadKeys` | crates/tau-cli-picker/src/lib.rs:89-111 | what is picked depends only on the net number of Downs before the first Enter |
| `Picker.Pick` | crates/tau-cli-picker/src/lib.rs:72-112 | only an enabled item is returned; the errors are exactly no items, none enabled, and cancelled |

## Left out

- HTTP, server-sent events, WebSocket transports, sign-in and provider resolution: a backend call is a success or a failure worth a retry or not, chosen by the environment.
- Rendering: a frame is a snapshot and a later completion step. Layout, differential output and escape sequences are left out, and so are the prompt's output blocks and its key-release and mouse events.
- Record encoding: only the framing is modelled. Of each record appended, and of no other, it is assumed that its encoding is shorter than 2^64 bytes and decodes to it; an encoder that reports an error is not part of this model. The encoded bytes themselves, the record's source and its timestamp are left out.
- File locks, `fsync`, `meta.json` and clocks: writes succeed. A log is not appended to after a torn header, which the source does not repair.
- SessionStore.Store.AppendSessionEventAt: the store keeps each tree as a value instead of an object of class `Session`, so aliasing between trees is not captured.
- Backoff durations and their jitter: a backoff is the number of frames that arrive before its deadline.
- AgentLoop.Agent.Handle: prewarm requests count as other events, progress updates and retry banners are not among the outputs, and the contents of a finished response are its prompt's name only.
- PromptSnapshots.MaterializePrompt: messages and tools are opaque strings.
- Redraw.SyncState.RequestSync: generations are unbounded, as a 64-bit counter of redraws does not wrap in practice; the redraw channel's senders outlive the redraw thread, so its disconnect is not part of the protocol.
- Thread scheduling is modelled as arbitrary interleaving; fairness is not, so what is claimed of progress is what one thread does when left to itself. The debounce rest is a step with no duration.
- PromptEditor: text is a sequence of Unicode scalar values and a width function; grapheme clusters are left out as the source has none. Candidates carry only their replacement. External editing, bindings and Ctrl-D change no state and appear only in `PromptTerm.Term.HandleKey`.
- PromptTerm.Term.RefreshCompletion: models the refresh with no other thread in between; `EditorProperties.RefreshInStepIff` covers the calls that slip in.
- ResponsesRequest.BuildRequest: the fields that depend neither on the messages nor on the chain (model, instructions, tools, reasoning and verbosity settings, retention, tier) are left out; the two hashes are functions of their inputs.
- StreamAccumulator.Accumulator.ApplyEvent: token counts and the response id of a completed event are left out, as are error texts; JSON parsing of arguments happens after accumulation and is left out.
- EventBus.EventBus.PublishFrom: whether a filter or a sink takes a frame is a function of the frame, and the subscription policy's answer an argument.
- ToolRegistry.ToolRegistry.Register: `all_tools` and `all_tool_names` only list the map and are left out.
- Picker.Pick: terminal resizes change only what is drawn; write errors are left out, a failed read is `NoMoreKeys`.
- Themes, banners, slash commands, daemon spawning, configuration layers, prompt trailers, delegate argument parsing and the remaining UI would add little of this kind.
