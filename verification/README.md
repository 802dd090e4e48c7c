# Proofs about liz

liz is a personal-agent server with a terminal client and a web client. This project models
the parts of it that carry hard invariants and proves what they promise. `dafny verify
dfyconfig.toml` checks everything.

| file | models |
|---|---|
| `ShellTasks.dfy`, `ShellEvents.dfy` | background shell tasks: two reader threads per task, the child, and `read_output`, `wait` and `terminate`, interleaved one critical section at a time; a reader's read and its push to the buffer are two steps |
| `ProtocolClient.dfy`, `ProtocolEvents.dfy` | the web client's request correlation over a socket that fails, times out and reconnects |
| `EventBus.dfy` | the event bus, where a publisher takes its number and delivers its event in two separate steps |
| `WorkspaceText.dfy`, `WorkspaceTree.dfy` | the workspace tools: ranged reads, search and replace, recursive listing and text search with caps |
| `WrapText.dfy` | greedy word wrap and truncation by display width |
| `TerminalFrames.dfy`, `TerminalEvents.dfy` | the append-style renderer: relative cursor moves, the live region and the scrollback |
| `ViewModel.dfy`, `ViewModelRuns.dfy`, `ViewModelHistory.dfy`, `ViewModelPreview.dfy`, `ViewModelEvents.dfy`, `ConfigDraft.dfy`, `ConfigEvents.dfy` | the terminal client's state and its config panel |
| `Workbench.dfy`, `WorkbenchReplies.dfy`, `WorkbenchRecords.dfy`, `WorkbenchLists.dfy`, `WorkbenchGrowth.dfy`, `WorkbenchEvents.dfy` | the web client's reducer and what it keeps over whole runs |
| `Base64Url.dfy` | base64url as used for PKCE (RFC 7636 section 4.2 over RFC 4648 sections 4 and 5) |
| `Disclosure.dfy`, `DisclosureAccess.dfy` | which memory facts reach the wake-up of which participant |
| `Common.dfy`, `StableSort.dfy`, `Threads.dfy` | shared helpers |

Objects that the source updates in place are classes whose methods are proved against
functions on values; the theorems are about runs of those functions. A run is any sequence of
events; an event that is not possible in a state leaves the state as it is, so the theorems
range over all interleavings. The `...Events` files say what each call and event does, field by
field and without the functions that compute it.

Where code and documentation part, or a promise fails, the model follows the code:

- `wait` is documented to return a task's final output. It returns what the readers have put
  into the buffers when the child is seen to have exited, which can be nothing
  (`WaitCanMissOutput`), even with an empty pipe, as a reader can hold a chunk it has read
  (`WaitCanMissHeldOutput`). `WaitIsCompleteIffCaughtUp` says exactly when it is complete.
- A listing flagged as truncated can be complete, when a hidden path comes last
  (`TruncatedCanBeComplete`; `TruncationTellsLength` gives the exact case).
- The renderer moves the cursor up by the offset of the input line. The offset is zero when the
  first live line shows the prompt glyph, and many terminals read a count of zero as one; one
  scrollback row is then lost (`PromptInPreviewErasesScrollback`, `ClearIsExactIff`).
- A pending first message can be shown while another thread is active
  (`PendingStartCanHideStored`; `PendingStartKeepsVisibleIff` gives the exact case).
- Loading a session can reorder the entries of a terminal transcript
  (`LoadedSessionCanReorder`). `LoadedSessionKeepsOrderIff` says exactly when the order is
  kept, and `WindowIff` when all of a transcript is kept behind the history.
- One preview buffer serves all threads: chunks of two threads are shown as one text, and a
  completion of one erases the other's (`PreviewCanMixThreads`; `PreviewIsOwnIff` gives the exact
  case).
- A loaded session can add a second reply for a turn in the web transcript
  (`SessionCanAddASecondReply`; `AtMostOneReplyIff` gives the exact case).
- Concurrent publishers can deliver events in the opposite order of their ids
  (`DeliveryOrderCanDifferFromIdOrder`); they deliver in order exactly when the oldest event in
  flight always goes first (`OldestFirstIff`, `DeliveredInOrderIff`).
- Cycling providers forth and back is not the identity while the provider name is empty
  (`CycleForthAndBackIff`, `CyclingAroundReturnsIff`).
- Typing the name of a known provider, or erasing down to it, loses its draft if that differs
  from the visible fields (`TypingCanLoseADraft`; `TypingANameKeepsDraftIff` and
  `ErasingANameKeepsDraftIff` give the exact cases).
- While `wait` is blocked on one task it holds the task table, and no call about any task is
  answered (`BlockedWaitAnswersNobody`, `WaitHoldsUpTerminate`).
- Opening a socket over a live connection leaves the requests of the old one pending until their
  timeouts or the end of the new one, as the close of the old one is ignored. Both `connect()` and
  a reconnect timer do so (`OpeningStrandsPending`); a timer armed before a `connect()` is not
  cancelled by it (`ReconnectCanStrandPending`). `PendingBelongsToSocketIff` says exactly which
  requests are left behind.
- Line counts treat a carriage return before a newline as part of the line end, so a read does
  not give such a text back (`LinesReassembleIff`).
- The topic filter looks at the value of a fact, not at its subject (`SubjectIsNotFiltered`).
- The citations of a wake-up are not filtered: a stranger receives the first three citations of
  all valid facts (`StrangersSeeCitations`). Nothing else shows of hidden facts
  (`HiddenFactsShowOnlyInCitations`), and `HiddenEditShowsIff` says when a hidden edit shows.

## Model

| member | source | states |
|---|---|---|
| `ShellTasks.BackgroundShellState.constructor` | crates/liz-app-server/src/executor/shell.rs:304-317 | a new task record has empty buffers, nothing delivered and no exit code |
| `ShellTasks.BackgroundShellState.PushStdout` | crates/liz-app-server/src/executor/shell.rs:573-598 | one stdout chunk is appended, behind the banner if the buffer was empty and the mode is sandboxed; nothing else changes |
| `ShellTasks.BackgroundShellState.PushStderr` | crates/liz-app-server/src/executor/shell.rs:573-598 | one stderr chunk is appended without a banner; nothing else changes |
| `ShellTasks.BackgroundShellState.TakeDeltas` | crates/liz-app-server/src/executor/shell.rs:148-154 | the undelivered tails are returned and both delivered lengths move to the ends of the buffers |
| `ShellTasks.BackgroundShellState.RecordExit` | crates/liz-app-server/src/executor/shell.rs:617-624 | the exit code becomes known; buffers and delivered lengths stay |
| `ShellTasks.BackgroundShellState.RecordTermination` | crates/liz-app-server/src/executor/shell.rs:212-220 | termination records the code it got and otherwise keeps the known one |
| `ShellTasks.OutputDeliveredExactlyOnce` | crates/liz-app-server/src/executor/shell.rs:139-168 | in every interleaving of both readers, the child and the calls, the stdout deltas returned so far are the delivered prefix of the buffer, the buffer is the text pushed (behind one banner in sandboxed modes), and text pushed, the chunk the reader holds and the text in the pipe are all that was written, in this order; the same for stderr |
| `ShellTasks.ReadCompletesIffCaughtUp` | crates/liz-app-server/src/executor/shell.rs:139-168 | one more read completes the delivery of everything the child wrote to a stream exactly when its pipe is empty and its reader holds no chunk |
| `ShellTasks.WaitIsCompleteIffCaughtUp` | crates/liz-app-server/src/executor/shell.rs:170-200 | the documented final output of `wait` is complete exactly when, by the time the reply is built, the pipe is empty and the reader has pushed what it read, for either stream |
| `ShellTasks.WaitCanMissOutput` | crates/liz-app-server/src/executor/shell.rs:170-200 | a concrete run in which `wait` reports exit code 0 and none of the output |
| `ShellTasks.WaitCanMissHeldOutput` | crates/liz-app-server/src/executor/shell.rs:566-604 | a concrete run in which it does so although the pipe is empty, as the reader holds the chunk it read |
| `ShellTasks.WaitConsumesNothing` | crates/liz-app-server/src/executor/shell.rs:170-200 | `wait` shows at least what was delivered and leaves every delivery as it was |
| `ShellTasks.OtherTasksUntouched` | crates/liz-app-server/src/executor/shell.rs:139-228 | a step aimed at one task changes neither the record nor the deliveries of another |
| `ShellTasks.HeldTaskExists` | crates/liz-app-server/src/executor/shell.rs:139-228 | a call in flight always has its task in the table |
| `ShellTasks.ExitCodeIsStable` | crates/liz-app-server/src/executor/shell.rs:617-624 | a known exit code is neither forgotten nor changed by any further run |
| `ShellTasks.RepliesAreHonest` | crates/liz-app-server/src/executor/shell.rs:139-228 | over every run each reply that names an exit code names c when the child exited with c and -1 when a signal ended it, and only a read may name none |
| `ShellTasks.ExitIsKnownIffObserved` | crates/liz-app-server/src/executor/shell.rs:139-228 | over every run an exit code is known exactly when a probe, a wait or a reap saw the child exited |
| `ShellTasks.ReadNamesTheExitIff` | crates/liz-app-server/src/executor/shell.rs:139-168 | a read names the exit code exactly when some call before its reply, its own probe included, saw the child exited |
| `ShellTasks.ProbedReadNamesTheExit` | crates/liz-app-server/src/executor/shell.rs:617-624 | once a read has probed an exited child, that read and every later one name its code |
| `ShellTasks.BlockedWaitAnswersNobody` | crates/liz-app-server/src/executor/shell.rs:170-200 | while `wait` is blocked it holds the task table: as long as its child runs and the wait does not fail, no further run answers any read, wait or terminate of any task |
| `ShellTasks.WaitHoldsUpTerminate` | crates/liz-app-server/src/executor/shell.rs:170-228 | a concrete run in which `wait` for one running task keeps a terminate of it, and of another running task, from beginning |
| `ShellTasks.StepKeepsInv` | crates/liz-app-server/src/executor/shell.rs:566-624 | every critical section keeps the protocol invariant |
| `ShellTasks.RunKeepsInv` | crates/liz-app-server/src/executor/shell.rs:566-624 | the protocol invariant holds after every run |
| `ShellEvents.BannerStandsInFront` | crates/liz-app-server/src/executor/shell.rs:573-598 | the stdout of a read-only or workspace-write task is the banner and the text, of any other the text; empty text has no banner |
| `ShellEvents.SpawnDoes` | crates/liz-app-server/src/executor/shell.rs:88-136 | a spawned task has a new name, runs, has written nothing and is not in the table; nothing else changes |
| `ShellEvents.RegisterDoes` | crates/liz-app-server/src/executor/shell.rs:125-128 | it enters the table once no call holds it |
| `ShellEvents.ExitDoes` | crates/liz-app-server/src/executor/shell.rs:626-633 | a running child exits with its code, once |
| `ShellEvents.WriteDoes` | crates/liz-app-server/src/executor/shell.rs:566-604 | what the child writes goes to the end of its own pipe |
| `ShellEvents.ReadOfPipeDoes` | crates/liz-app-server/src/executor/shell.rs:566-572 | a reader that holds nothing takes up to 4096 characters from the front of its open pipe |
| `ShellEvents.PushDoes` | crates/liz-app-server/src/executor/shell.rs:573-598 | the reader puts what it holds behind what is buffered |
| `ShellEvents.CallsBeginIff` | crates/liz-app-server/src/executor/shell.rs:139-228 | while a call holds the table no read, wait or terminate begins; else one of a task that is not in the table is answered not found and any other begins |
| `ShellEvents.ReadDoes` | crates/liz-app-server/src/executor/shell.rs:148-168 | a read answers with the undelivered text of both streams, marks it delivered and lets the table go |
| `ShellEvents.WaitDoes` | crates/liz-app-server/src/executor/shell.rs:170-200 | a wait on an exited child answers with its exit code and both buffers in full, records the code and lets the table go |
| `ShellEvents.TerminateDoes` | crates/liz-app-server/src/executor/shell.rs:202-228 | a terminate of an exited child answers with its exit code, records it and lets the table go |
| `ShellEvents.FailedCallsDo` | crates/liz-app-server/src/executor/shell.rs:626-633 | a failed wait or reap is answered with an error and lets the table go |
| `ProtocolClients.ProtocolClient.constructor` | apps/liz-web/src/protocol/client.ts:60-77 | a new client has no socket, no timer and nothing pending |
| `ProtocolClients.ProtocolClient.Connect` | apps/liz-web/src/protocol/client.ts:79-83 | connecting closes the old socket, forgets a client close and opens a new socket |
| `ProtocolClients.ProtocolClient.OpenSocket` | apps/liz-web/src/protocol/client.ts:159-177 | a new socket becomes the current one; the one before it is closed |
| `ProtocolClients.ProtocolClient.CloseSocket` | apps/liz-web/src/protocol/client.ts:159-177 | closing a socket starts its closing and touches nothing else |
| `ProtocolClients.ProtocolClient.RejectPending` | apps/liz-web/src/protocol/client.ts:248-254 | the loop clears every pending timer, rejects every pending request once in order and empties the map |
| `ProtocolClients.ProtocolClient.Close` | apps/liz-web/src/protocol/client.ts:85-95 | close() marks the client closed, closes the socket, rejects all pending requests and sets the state |
| `ProtocolClients.ProtocolClient.Request` | apps/liz-web/src/protocol/client.ts:97-141 | a request is rejected at once without an open socket or when the send throws, else it is pending under one new timer |
| `ProtocolClients.ProtocolClient.ResolveResponse` | apps/liz-web/src/protocol/client.ts:231-246 | a response settles the pending request with its id and takes it out, clearing its timer; without one nothing changes |
| `ProtocolClients.ProtocolClient.HandleClose` | apps/liz-web/src/protocol/client.ts:179-202 | the close of the current socket rejects all and arms a reconnect; any other close changes nothing |
| `ProtocolClients.ProtocolClient.TimerFires` | apps/liz-web/src/protocol/client.ts:113-120 | a request timer rejects its request; a reconnect timer opens a socket unless the client was closed |
| `ProtocolClients.EachRequestSettlesAtMostOnce` | apps/liz-web/src/protocol/client.ts:97-141 | in every run a request sent is pending once and not settled, or settled once and not pending |
| `ProtocolClients.ResponsesReachTheirOwnRequest` | apps/liz-web/src/protocol/client.ts:231-246 | in every run a response only resolves the request with its own id |
| `ProtocolClients.PendingIffTimerArmed` | apps/liz-web/src/protocol/client.ts:97-141 | in every run the pending map is exactly the set of armed request timers |
| `ProtocolClients.TimeoutSettlesPending` | apps/liz-web/src/protocol/client.ts:113-120 | the timeout of a pending request can always fire, and firing rejects exactly that request |
| `ProtocolClients.CloseSettlesEverything` | apps/liz-web/src/protocol/client.ts:85-95 | after close() nothing is pending, every request sent has settled exactly once, the ones rejected now with `client_closed`, and no request timer is left |
| `ProtocolClients.LosingTheSocketSettlesEverything` | apps/liz-web/src/protocol/client.ts:179-202 | losing the current socket settles every request exactly once, clears their timers and arms one reconnect |
| `ProtocolClients.FailedSendLeavesNothing` | apps/liz-web/src/protocol/client.ts:130-139 | a send that throws leaves no entry and no timer and rejects that request once |
| `ProtocolClients.OnlyTheCurrentSocketIsLive` | apps/liz-web/src/protocol/client.ts:159-177 | in every run at most one socket is opening or open, the current one |
| `ProtocolClients.ClosedStaysClosed` | apps/liz-web/src/protocol/client.ts:194-202 | after close() no timer or event but connect() opens a socket or changes the state |
| `ProtocolClients.NoSocketNothingPending` | apps/liz-web/src/protocol/client.ts:179-202 | in every run nothing is pending while there is no socket |
| `ProtocolClients.PendingBelongsToSocketIff` | apps/liz-web/src/protocol/client.ts:79-202 | in every run a pending request was sent over the current socket exactly when no socket was opened since, by connect() or by a reconnect timer |
| `ProtocolClients.StrandedSocketSettlesNothing` | apps/liz-web/src/protocol/client.ts:159-202 | if one was opened, the socket the request was sent over is closing or shut, and its close settles nothing |
| `ProtocolClients.OpeningStrandsPending` | apps/liz-web/src/protocol/client.ts:79-202 | opening a socket settles nothing: every request pending stays pending, and none of them belongs to the new socket |
| `ProtocolClients.ReconnectCanStrandPending` | apps/liz-web/src/protocol/client.ts:194-202 | a concrete run in which a reconnect timer armed before a connect(), and not cancelled by it, replaces the socket of a pending request |
| `ProtocolClients.CloseHandlerNeverSeesClientClose` | apps/liz-web/src/protocol/client.ts:190-194 | the client-closed branch of the close handler is unreachable |
| `ProtocolClients.StepKeepsInv` | apps/liz-web/src/protocol/client.ts:79-254 | every handler keeps the client invariant |
| `ProtocolClients.RunKeepsInv` | apps/liz-web/src/protocol/client.ts:79-254 | the client invariant holds after every run |
| `ProtocolEvents.ConnectDoes` | apps/liz-web/src/protocol/client.ts:79-83 | connect() in any reachable state: the live socket starts to close and a new one is current and opening; without a URL only the URL and the flag change |
| `ProtocolEvents.CloseDoes` | apps/liz-web/src/protocol/client.ts:85-95 | close(): every pending request is rejected in order with `client_closed`, no request timer is left, the socket starts to close |
| `ProtocolEvents.RequestDoes` | apps/liz-web/src/protocol/client.ts:97-141 | request(): without an open socket nothing changes, else the request is pending last under one new timer |
| `ProtocolEvents.ResponseDoes` | apps/liz-web/src/protocol/client.ts:231-246 | a response resolves exactly the pending request with its id: that entry and its timer are gone, the settlement is logged, all else stays; with no such entry nothing changes |
| `ProtocolEvents.TimeoutDoes` | apps/liz-web/src/protocol/client.ts:113-120 | a timeout rejects exactly its request; all else stays |
| `ProtocolEvents.ReconnectDoes` | apps/liz-web/src/protocol/client.ts:194-202 | a reconnect timer opens a new socket, unless the client was closed or has no URL |
| `ProtocolEvents.SocketEndDoes` | apps/liz-web/src/protocol/client.ts:179-202 | the end of the current socket rejects every pending request in order and arms one reconnect; any other end changes nothing |
| `ProtocolEvents.SocketEventsDo` | apps/liz-web/src/protocol/client.ts:165-176 | an opened socket makes the client connected, an error makes a connected client reconnecting |
| `EventBuses.EventBus.Subscribe` | crates/liz-app-server/src/events/mod.rs:54-58 | a subscriber is added last with an empty inbox |
| `EventBuses.EventBus.NextSequence` | crates/liz-app-server/src/events/mod.rs:67-74 | the counter moves on by one, wrapping at 64 bits, and names the event |
| `EventBuses.EventBus.Deliver` | crates/liz-app-server/src/events/mod.rs:76-79 | the event is sent to every live channel in order and dropped receivers are removed, under one lock |
| `EventBuses.InboxIsLogSegment` | crates/liz-app-server/src/events/mod.rs:54-80 | in every run each inbox is the contiguous part of one delivery log from its subscription to its drop |
| `EventBuses.SubscribersAgreeOnOrder` | crates/liz-app-server/src/events/mod.rs:66-80 | any two subscribers see their common events in the same order and at the same distance |
| `EventBuses.DeliveryReachesEveryLiveSubscriber` | crates/liz-app-server/src/events/mod.rs:76-79 | every delivery ends up last in the inbox of every live subscriber |
| `EventBuses.DeliveryPrunesDroppedReceivers` | crates/liz-app-server/src/events/mod.rs:76-79 | after a delivery the subscriber list is exactly the live ones |
| `EventBuses.SentOncePerSubscriber` | crates/liz-app-server/src/events/mod.rs:76-79 | one delivery adds the event once to each live listed channel and to no other |
| `EventBuses.DecimalIsReadable` | crates/liz-app-server/src/events/mod.rs:67-69 | the decimal text in an event id reads back as its sequence number |
| `EventBuses.EventIdIsInjective` | crates/liz-app-server/src/events/mod.rs:67-69 | two sequence numbers give the same id only if they are equal |
| `EventBuses.IdsRepeatOnlyAfterWrap` | crates/liz-app-server/src/events/mod.rs:67-69 | two events, delivered or in flight, share an id exactly when their allocations are whole 64-bit ranges apart |
| `EventBuses.EventIdsAreDistinct` | crates/liz-app-server/src/events/mod.rs:67-69 | until the counter wraps, the ids of all events, delivered or in flight, are pairwise distinct |
| `EventBuses.DeliveryOrderCanDifferFromIdOrder` | crates/liz-app-server/src/events/mod.rs:66-80 | a concrete run of two publishers delivers event 2 before event 1 |
| `EventBuses.OldestFirstIff` | crates/liz-app-server/src/events/mod.rs:61-80 | in every run, the log and then the events in flight are in allocation order exactly when every delivery took the event in flight that was allocated first |
| `EventBuses.DeliveredInOrderIff` | crates/liz-app-server/src/events/mod.rs:61-80 | with no publish in flight, delivery order is id allocation order exactly when every delivery of the run took the oldest event in flight |
| `EventBuses.NothingIsLost` | crates/liz-app-server/src/events/mod.rs:61-80 | in every run as many numbers were allocated as events are delivered or in flight |
| `EventBuses.PayloadsArrive` | crates/liz-app-server/src/events/mod.rs:61-80 | over every run each event, delivered or in flight, carries the payload it was published with |
| `EventBuses.SubscribeDoes` | crates/liz-app-server/src/events/mod.rs:54-58 | a new subscriber is live, listed last and hears from here on; nothing else changes |
| `EventBuses.DropDoes` | crates/liz-app-server/src/events/mod.rs:54-80 | a dropped receiver keeps its inbox and hears no more; nothing else changes |
| `EventBuses.PublishDoes` | crates/liz-app-server/src/events/mod.rs:61-74 | a publish takes the next number and names its event by it; nothing else changes |
| `EventBuses.DeliverDoes` | crates/liz-app-server/src/events/mod.rs:76-79 | a delivery ends its publish and puts that event last in the log |
| `EventBuses.OldestFirstSkipsNothing` | crates/liz-app-server/src/events/mod.rs:61-80 | if every delivery took the oldest event and at most one is in flight, the log is allocation 0, 1, 2 and so on |
| `EventBuses.SerialPublishersDeliverInOrder` | crates/liz-app-server/src/events/mod.rs:61-80 | with at most one publish in flight throughout, which implies oldest first, the log is allocation 0, 1, 2 and so on, and the next one is in flight or none |
| `EventBuses.RunKeepsInv` | crates/liz-app-server/src/events/mod.rs:54-80 | the bus invariant holds after every interleaving of publishers, subscribers and drops |
| `WorkspaceText.LinesReassembleIff` | crates/liz-app-server/src/executor/workspace.rs:81-108 | the lines a read counts and the final newline give the text back exactly when no newline has a carriage return before it, and are one character short for each that has |
| `WorkspaceText.LineRangeIsJoin` | crates/liz-app-server/src/executor/workspace.rs:95-101 | the range shown is the slice of lines joined with newlines |
| `WorkspaceText.AdjacentReadsConcatenate` | crates/liz-app-server/src/executor/workspace.rs:81-108 | reading two adjacent ranges gives the text of the whole range |
| `WorkspaceText.PagingReadsTheWholeFile` | crates/liz-app-server/src/executor/workspace.rs:81-108 | paging with any page size gives the same text as one unranged read |
| `WorkspaceText.ReadPastTheEnd` | crates/liz-app-server/src/executor/workspace.rs:81-108 | the reported range is reversed exactly when the request starts past the end; then the content is empty, else it is the joined slice |
| `WorkspaceText.MatchesAreLeftmost` | crates/liz-app-server/src/executor/workspace.rs:139-156 | the scan finds the leftmost, non-overlapping occurrences |
| `WorkspaceText.LeftmostIsUnique` | crates/liz-app-server/src/executor/workspace.rs:139-156 | there is only one leftmost decomposition, so the count and the replacement agree on it |
| `WorkspaceText.ContainedIffMatched` | crates/liz-app-server/src/executor/workspace.rs:139-156 | there is a match exactly when the search text occurs |
| `WorkspaceText.PatchCountsAndMeasures` | crates/liz-app-server/src/executor/workspace.rs:139-178 | the patch fails exactly when the search text does not occur; else it reports the number of leftmost, non-overlapping occurrences, or one in single mode, and the length changes by that many differences |
| `WorkspaceText.GapsOfJoin` | crates/liz-app-server/src/executor/workspace.rs:150-156 | cutting the patched text at the replacements gives the same pieces back |
| `WorkspaceText.SpliceSame` | crates/liz-app-server/src/executor/workspace.rs:150-156 | putting the search text back at its occurrences gives the text |
| `WorkspaceText.PatchCanBeUndone` | crates/liz-app-server/src/executor/workspace.rs:139-178 | for the leftmost occurrences, or the first of them in single mode: what lies between is untouched, the replacements stand at the computed places, and exchanging them back restores the file |
| `WorkspaceText.PatchChangesIffTextsDiffer` | crates/liz-app-server/src/executor/workspace.rs:139-178 | the file is reported as changed exactly when search and replacement differ |
| `WorkspaceText.ReadShowsTheLines` | crates/liz-app-server/src/executor/workspace.rs:81-108 | a read from line a to line b shows exactly the lines from a to b or to the end of the file; a missing start is the first line, a missing end the last, a start of zero one, and an end before the start the start |
| `WorkspaceText.EmptyFileReads` | crates/liz-app-server/src/executor/workspace.rs:81-108 | a file without lines reads as one empty line |
| `WorkspaceText.PatchFailsIff` | crates/liz-app-server/src/executor/workspace.rs:139-146 | the patch fails exactly when the search text stands nowhere in the file |
| `WorkspaceText.PatchExchangesLeftmost` | crates/liz-app-server/src/executor/workspace.rs:139-178 | for the leftmost, non-overlapping occurrences: with replace_all all of them are counted and exchanged, else one is counted and exactly the first exchanged |
| `WorkspaceTrees.ListingShowsExactlyTheVisible` | crates/liz-app-server/src/executor/workspace.rs:180-242 | the uncapped listing holds exactly the nodes a path of visible names leads to |
| `WorkspaceTrees.CollectEntries` | crates/liz-app-server/src/executor/workspace.rs:180-242 | the recursive collection with early exit appends the listing cut to the room left, and reports truncation exactly on overflow |
| `WorkspaceTrees.List` | crates/liz-app-server/src/executor/workspace.rs:13-30 | `list` gives the first entries of the sorted preorder listing up to the cap |
| `WorkspaceTrees.TruncationTellsLength` | crates/liz-app-server/src/executor/workspace.rs:13-30 | truncated implies a full result, a longer listing implies truncated, not truncated implies complete; a complete listing is flagged exactly when its length is the cap and a hidden path comes last |
| `WorkspaceTrees.TruncatedCanBeComplete` | crates/liz-app-server/src/executor/workspace.rs:191-200 | a concrete tree whose complete listing is flagged as truncated |
| `WorkspaceTrees.CollectFiles` | crates/liz-app-server/src/executor/workspace.rs:244-286 | the recursive collection appends the visible files in preorder |
| `WorkspaceTrees.ScannedFilesAreListedFiles` | crates/liz-app-server/src/executor/workspace.rs:244-286 | search scans exactly the non-directories of the uncapped recursive listing, in its order |
| `WorkspaceTrees.ScanFile` | crates/liz-app-server/src/executor/workspace.rs:50-72 | scanning one file stops at the cap and gives the first matches up to it |
| `WorkspaceTrees.ScanFiles` | crates/liz-app-server/src/executor/workspace.rs:43-78 | scanning all files gives the first matches up to the cap in file-then-line order, and truncated as the source sets it, cap zero included |
| `WorkspaceTrees.Search` | crates/liz-app-server/src/executor/workspace.rs:32-79 | `search` gives the first k of all matches, each a line that agrees with the pattern somewhere, and for k > 0 reports truncation exactly when k matches were reached |
| `WorkspaceTrees.MatchesAreTheHits` | crates/liz-app-server/src/executor/workspace.rs:50-72 | the matches are exactly the hitting lines of the readable scanned files |
| `WorkspaceTrees.LineMatchesAreOrdered` | crates/liz-app-server/src/executor/workspace.rs:50-72 | within a file matches come in line order, each line once |
| `WorkspaceTrees.ListingNamesTheNodes` | crates/liz-app-server/src/executor/workspace.rs:180-242 | without empty names, a listing holds exactly the nodes that no hidden name leads to, right below the root or anywhere if recursive, each as the names on the way joined with slashes |
| `WorkspaceTrees.CapIsTheRequest` | crates/liz-app-server/src/executor/workspace.rs:13-30 | a requested cap counts, a missing one is the largest 64-bit number |
| `WorkspaceTrees.SearchFindsExactly` | crates/liz-app-server/src/executor/workspace.rs:32-79 | the matches are exactly the lines, as they stand in readable scanned files, that agree with the pattern somewhere, up to the case of ASCII letters unless asked to mind it |
| `WrapText.Wrap` | crates/liz-cli/src/renderers.rs:1463-1489 | the loop computes the greedy grouping of the words, one empty line for an empty text |
| `WrapText.WrapWords` | crates/liz-cli/src/renderers.rs:1468-1486 | the line buffer holds the greedy grouping of the words read so far |
| `WrapText.WrapKeepsWords` | crates/liz-cli/src/renderers.rs:1463-1489 | no word is lost, split, merged or moved |
| `WrapText.WrapRespectsWidth` | crates/liz-cli/src/renderers.rs:1463-1489 | every line of two or more words is at most max(width, 20) wide |
| `WrapText.WrapUsesFewestLines` | crates/liz-cli/src/renderers.rs:1463-1489 | no other lines with the same words and the same bound are fewer |
| `WrapText.GreedyStaysAhead` | crates/liz-cli/src/renderers.rs:1463-1489 | greedy never needs more lines than another grouping, and with equally many its last line is no longer |
| `WrapText.WordsAreNarrowest` | crates/liz-cli/src/renderers.rs:1515-1525 | single spaces are the narrowest way to show the words of a line |
| `WrapText.WordsOfJoined` | crates/liz-cli/src/renderers.rs:1463-1489 | splitting a joined line gives its words back |
| `WrapText.Truncate` | crates/liz-cli/src/renderers.rs:1495-1513 | the result fits the width, a text that fits is unchanged, else it is the longest prefix that leaves room for the ellipsis |
| `WrapText.CellsAndColumns` | crates/liz-cli/src/renderers.rs:1463-1525 | ASCII and 21 symbols take one cell and all else two, and lines are wrapped at the larger of the width and 20 |
| `TerminalFrames.Terminal.WriteScrollbackLines` | crates/liz-cli/src/renderers.rs:160-167 | lines are written below each other from the cursor row |
| `TerminalFrames.TerminalRenderState.SyncRenderProjection` | crates/liz-cli/src/renderers.rs:143-158 | a changed thread forgets what was rendered unless the shown entries were already written |
| `TerminalFrames.TerminalRenderState.ClearLiveRegion` | crates/liz-cli/src/renderers.rs:102-111 | the cursor goes up by the stored offset to column zero and everything below is cleared |
| `TerminalFrames.TerminalRenderState.ClearIncrementalLiveRegion` | crates/liz-cli/src/renderers.rs:92-100 | clearing also forgets the live region |
| `TerminalFrames.TerminalRenderState.RenderIncremental` | crates/liz-cli/src/renderers.rs:48-89 | one frame clears, writes the entries behind the common prefix, draws the live region and moves the cursor |
| `TerminalFrames.TerminalRenderState.MoveCursorToInput` | crates/liz-cli/src/renderers.rs:113-130 | the cursor goes from below the live region up to the input line |
| `TerminalFrames.ClearErasesExactlyTheLiveRegion` | crates/liz-cli/src/renderers.rs:92-111 | clearing removes the live region and no scrollback row |
| `TerminalFrames.ClearIsExactIff` | crates/liz-cli/src/renderers.rs:102-111 | clearing is exact exactly when the live region is empty, the terminal takes a count of zero literally, the input line is not the first live line, or nothing is above; else one scrollback row goes with it |
| `TerminalFrames.PromptFirstErasesRow` | crates/liz-cli/src/renderers.rs:102-137 | on terminals that read a count of zero as one, clearing any drawn live region with the input line first takes the last row above it along |
| `TerminalFrames.PromptInPreviewErasesScrollback` | crates/liz-cli/src/renderers.rs:132-137 | a concrete preview starting with the prompt glyph is such a case |
| `TerminalFrames.CursorIsOnComposerIff` | crates/liz-cli/src/renderers.rs:132-137 | the cursor lands on the composer exactly when no line above shows the prompt glyph |
| `TerminalFrames.ComposerIsClearable` | crates/liz-cli/src/renderers.rs:224-254 | a live region that ends with the composer and shows no prompt above is cleared exactly on every terminal |
| `TerminalFrames.DrawKeepsAnchor` | crates/liz-cli/src/renderers.rs:48-89 | after a frame the cursor is at live-region top plus the input line offset again |
| `TerminalFrames.RunKeepsAnchor` | crates/liz-cli/src/renderers.rs:48-158 | over every run of clearable frames and clears the cursor stays anchored |
| `TerminalFrames.FrameWrites` | crates/liz-cli/src/renderers.rs:139-158 | a frame writes exactly the entries behind the common prefix |
| `TerminalFrames.EachEntryOnceIff` | crates/liz-cli/src/renderers.rs:139-158 | after a frame the scrollback holds each entry once in order exactly when the transcript continued from what was written |
| `TerminalFrames.ScrollbackHoldsEachEntryOnce` | crates/liz-cli/src/renderers.rs:48-158 | over every continuing run the scrollback holds each shown entry exactly once, in order |
| `TerminalFrames.ScreenIsScrollbackPlusLive` | crates/liz-cli/src/renderers.rs:48-158 | over every run of clearable frames the screen is the old rows, the scrollback and the live region, and clearing it now would be exact |
| `TerminalFrames.PromptIsTheGlyph` | crates/liz-cli/src/renderers.rs:132-137 | a line shows the prompt exactly when a segment starts with U+276F and a space |
| `TerminalEvents.DrawWrites` | crates/liz-cli/src/renderers.rs:48-89 | a frame adds to the scrollback its welcome, if it has no entries and this thread had none, or the lines and an empty one of each entry behind the shared front |
| `TerminalEvents.DrawRemembers` | crates/liz-cli/src/renderers.rs:48-89 | a frame remembers its thread, its entries, that a welcome was shown, and height and input line of the live region in 16 bits |
| `TerminalEvents.DrawPlacesCursor` | crates/liz-cli/src/renderers.rs:113-130 | behind a live region the cursor ends in the column of the input |
| `TerminalEvents.WritingEndsLines` | crates/liz-cli/src/renderers.rs:160-167 | written lines leave the cursor at the start of the line behind them |
| `TerminalEvents.ClearForgets` | crates/liz-cli/src/renderers.rs:92-111 | clearing forgets the live region only |
| `Common.SpacesAre` | crates/liz-cli/src/renderers.rs:1463-1489 | white space is the 25 code points of the Unicode property |
| `StableSort.SortIsStableSort` | crates/liz-cli/src/view_model.rs:1099-1116 | sorting by key gives a sorted permutation that keeps the order of equal keys |
| `StableSort.SortKeepsUnique` | crates/liz-cli/src/view_model.rs:1099-1116 | sorting keeps ids unique |
| `ViewModels.ViewModel.UpsertThread` | crates/liz-cli/src/view_model.rs:1099-1116 | the thread replaces the one with its id or is appended, the list is sorted, the status recorded and the picker put back on its thread |
| `ViewModels.ViewModel.ReplaceThreads` | crates/liz-cli/src/view_model.rs:760-784 | a thread list replaces the old one with its statuses, a valid picker and the active thread re-resolved |
| `ViewModels.ViewModel.AttachPendingEntriesToThread` | crates/liz-cli/src/view_model.rs:1125-1136 | the pending first messages are moved into the transcript of the thread and the visible transcript follows the active thread |
| `ViewModels.ViewModel.ThreadStarted` | crates/liz-cli/src/view_model.rs:747-752 | a started thread becomes active, is listed and takes the pending messages |
| `ViewModels.ViewModel.ThreadOpened` | crates/liz-cli/src/view_model.rs:753-790 | a resumed or forked thread becomes active and its transcript is shown |
| `ViewModels.ViewModel.PushThreadEntry` | crates/liz-cli/src/view_model.rs:1080-1086 | an entry is appended to its thread and shown if that thread is active |
| `ViewModels.ViewModel.PushEntryForSelectedThread` | crates/liz-cli/src/view_model.rs:1072-1078 | an entry goes to the active thread, or to the visible transcript if there is none |
| `ViewModels.ViewModel.PushPendingThreadStartMessage` | crates/liz-cli/src/view_model.rs:1040-1046 | a first message waits in the pending draft, which is shown |
| `ViewModels.ViewModel.ReplaceThreadHistory` | crates/liz-cli/src/view_model.rs:1138-1152 | a loaded session is put first and the entries stored before are kept behind it |
| `ViewModels.ViewModel.SelectPreviousThread` | crates/liz-cli/src/view_model.rs:620-631 | the picker moves up, around the start |
| `ViewModels.ViewModel.SelectNextThread` | crates/liz-cli/src/view_model.rs:633-640 | the picker moves down, around the end |
| `ViewModels.ViewModel.ActivateSelectedThread` | crates/liz-cli/src/view_model.rs:480-485 | the picked thread becomes active and its transcript is shown |
| `ViewModels.ViewModel.AssistantChunk` | crates/liz-cli/src/view_model.rs:924-928 | a chunk of any thread is appended to the one preview there is |
| `ViewModels.ViewModel.AssistantCompleted` | crates/liz-cli/src/view_model.rs:929-937 | a completion of any thread clears the preview and appends its message to its own thread |
| `ViewModels.UpsertSortsAndKeepsPicker` | crates/liz-cli/src/view_model.rs:1099-1116 | the list is sorted by last update, holds the new value and every other thread, and the picker stays on its thread |
| `ViewModels.StatusesOfMatch` | crates/liz-cli/src/view_model.rs:760-784 | the status map built from a list is exactly its id-to-status map |
| `ViewModelRuns.VisibleTranscriptIsStored` | crates/liz-cli/src/view_model.rs:744-1046 | over every run whose pending first messages come while no thread is active, or while the draft with the message is what that thread has stored, the visible transcript of an active thread is its stored one |
| `ViewModelRuns.PendingStartKeepsVisibleIff` | crates/liz-cli/src/view_model.rs:1040-1046 | a pending first message leaves the stored transcript on screen exactly when, before it, no thread was active or the draft with the message added equals what that thread has stored |
| `ViewModelRuns.PendingStartCanHideStored` | crates/liz-cli/src/view_model.rs:1040-1046 | a concrete run in which a pending first message hides the transcript of the active thread |
| `ViewModelRuns.VisibleTranscriptIsStoredOrDraft` | crates/liz-cli/src/view_model.rs:744-1046 | over every run at all, the visible transcript is the stored one or the pending draft |
| `ViewModelRuns.ListFieldsAgree` | crates/liz-cli/src/view_model.rs:744-1116 | with unique ids in server lists: over every run thread ids are unique, the status map is exactly the list, the picker is in range and an active thread is listed |
| `ViewModelRuns.TranscriptsOnlyGrow` | crates/liz-cli/src/view_model.rs:1072-1136 | every action but a loaded session leaves each stored transcript as a prefix |
| `ViewModelRuns.StoredEntriesStay` | crates/liz-cli/src/view_model.rs:1080-1152 | an entry once stored stays stored over every further run, loaded sessions included |
| `ViewModelRuns.ThreadStartDeliversPending` | crates/liz-cli/src/view_model.rs:1125-1136 | after thread start every pending first message is stored in the new thread and shown, whatever the dedup window drops |
| `ViewModelRuns.UserMessageIsShown` | crates/liz-cli/src/view_model.rs:1030-1086 | a message with a visible character is stored and shown in the active thread |
| `ViewModelRuns.SessionEntriesAreNotBlank` | crates/liz-cli/src/view_model.rs:1155-1176 | an entry made from a session record is never blank, so the dedup step never drops it as blank |
| `ViewModelRuns.PickerMovesOne` | crates/liz-cli/src/view_model.rs:620-640 | over every run the picker moves down or up by one thread, around the ends, and nothing else changes |
| `ViewModelRuns.ActivateTakesThePicked` | crates/liz-cli/src/view_model.rs:480-485 | over every run activating makes the thread under the picker the active one and shows its transcript |
| `ViewModelRuns.OpeningActivates` | crates/liz-cli/src/view_model.rs:744-790 | a started, resumed or forked thread becomes active with its status, and its transcript is shown |
| `ViewModelRuns.EventActivatesIf` | crates/liz-cli/src/view_model.rs:1099-1116 | a thread that an event brings becomes active only if none is |
| `ViewModelRuns.ListKeepsWhatItHolds` | crates/liz-cli/src/view_model.rs:760-784 | a thread list keeps the active and the picked thread if it holds them, else none is active and the picker is on the first |
| `ViewModelEvents.TurnEndsNote` | crates/liz-cli/src/view_model.rs:900-937 | a failed, cancelled or completed turn adds its own entry to its thread, past the dedup window, and shows it if the thread is active |
| `ViewModelEvents.WorkNotes` | crates/liz-cli/src/view_model.rs:938-1000 | finished tools and requested approvals add their own entries |
| `ViewModelEvents.ResultsNote` | crates/liz-cli/src/view_model.rs:938-1036 | resolved approvals and memory updates add their own entries |
| `ViewModelEvents.TurnStartNotes` | crates/liz-cli/src/view_model.rs:890-915 | a started turn adds its goal, if it has one with a visible character |
| `ViewModelEvents.SelectedNote` | crates/liz-cli/src/view_model.rs:1072-1078 | what the user, the client and an error response say goes to the active thread, or to the screen if there is none |
| `ViewModelEvents.PendingDoes` | crates/liz-cli/src/view_model.rs:1040-1046 | a first message is added to the draft, which is shown |
| `ViewModelEvents.RecordsRead` | crates/liz-cli/src/view_model.rs:1155-1176 | a session record becomes the entry of its kind, and none if it is blank |
| `ViewModelEvents.TrimDoes` | crates/liz-cli/src/view_model.rs:1155-1176 | trimming takes the white space off both ends and nothing else |
| `ViewModelHistories.WindowIff` | crates/liz-cli/src/view_model.rs:1138-1152 | loading a session leaves the history followed by the whole stored transcript exactly when no stored entry is blank or among the three entries before it in that list |
| `ViewModelHistories.CoveredKeepsOrder` | crates/liz-cli/src/view_model.rs:1138-1152 | if the history shows each entry the push drops, behind everything stored before that entry, the stored transcript survives in order |
| `ViewModelHistories.LoadedSessionKeepsOrderIff` | crates/liz-cli/src/view_model.rs:1138-1152 | after any run and for any transcript, loading a session keeps the order of the stored entries exactly when the history shows them up to some place and what the push appends shows all that follow |
| `ViewModelHistories.UnrepeatedKeepsOrderIff` | crates/liz-cli/src/view_model.rs:1138-1152 | without repeated entries: exactly when the history shows each entry the push drops, behind everything stored before it |
| `ViewModelHistories.LoadedSessionCanReorder` | crates/liz-cli/src/view_model.rs:1138-1152 | a run of two replies and a session load ends with the two in the opposite order |
| `ViewModelPreviews.PreviewIsTheChunks` | crates/liz-cli/src/view_model.rs:924-937 | over every run the preview is the chunks of all threads since the last completion of any, in order |
| `ViewModelPreviews.OwnAreErasedAndShown` | crates/liz-cli/src/view_model.rs:924-937 | over every run a thread's own chunks since its last completion are those a completion of another thread erased, followed by those shown |
| `ViewModelPreviews.PreviewIsOwnIff` | crates/liz-cli/src/view_model.rs:924-937 | over every run what is shown is made of exactly one thread's own chunks if and only if no other thread sent one since the last completion and none of its own was erased |
| `ViewModelPreviews.OwnPreviewIsShown` | crates/liz-cli/src/view_model.rs:924-937 | in that case the preview is the one a buffer of its own would show |
| `ViewModelPreviews.PreviewCanMixThreads` | crates/liz-cli/src/view_model.rs:924-937 | concrete runs in which two threads are shown as one text and one thread's completion erases the other's chunk |
| `ConfigDrafts.ConfigDraft.constructor` | crates/liz-cli/src/view_model.rs:196-211 | the default draft |
| `ConfigDrafts.ConfigDraft.SyncKnownProviders` | crates/liz-cli/src/view_model.rs:335-342 | an unknown, named provider is put first in the list |
| `ConfigDrafts.ConfigDraft.PersistVisibleFields` | crates/liz-cli/src/view_model.rs:344-356 | the visible fields become the cached draft of the named provider |
| `ConfigDrafts.ConfigDraft.RestoreVisibleFields` | crates/liz-cli/src/view_model.rs:358-363 | the cached draft, or an empty one, becomes visible |
| `ConfigDrafts.ConfigDraft.PushChar` | crates/liz-cli/src/view_model.rs:239-250 | a typed character edits the focused field, then the list and the cache follow |
| `ConfigDrafts.ConfigDraft.PopChar` | crates/liz-cli/src/view_model.rs:253-265 | a deleted character does the same, and nothing on an empty field |
| `ConfigDrafts.ConfigDraft.CycleProvider` | crates/liz-cli/src/view_model.rs:268-290 | the visible fields are cached, the next provider named and its draft shown |
| `ConfigDrafts.ConfigDraft.LoadFrom` | crates/liz-cli/src/view_model.rs:293-333 | loading replaces the cache, the list and the provider |
| `ConfigDrafts.ConfigDraft.PushUniqueProviders` | crates/liz-cli/src/view_model.rs:1215-1255 | providers are added in order, each once, empty names skipped |
| `ConfigDrafts.NextIndexIsRemainder` | crates/liz-cli/src/view_model.rs:268-290 | a step in either direction is the remainder of the place moved by one |
| `ConfigDrafts.VisibleFieldsAreTheCachedDraft` | crates/liz-cli/src/view_model.rs:239-363 | over every run, while a provider is named it is listed and the visible fields are its cached draft; the list has no repeats and no empty name |
| `ConfigDrafts.EditKeepsDraftIff` | crates/liz-cli/src/view_model.rs:239-265 | an edit keeps every draft but that of the provider it leaves named, and that one exactly when it already held the fields after the edit |
| `ConfigDrafts.TypingANameKeepsDraftIff` | crates/liz-cli/src/view_model.rs:239-250 | a character typed in the provider field loses a provider's draft exactly when it completes that provider's name and the draft differs from the visible fields |
| `ConfigDrafts.ErasingANameKeepsDraftIff` | crates/liz-cli/src/view_model.rs:253-265 | a character deleted there loses a provider's draft exactly when what is left is that provider's name and the draft differs from the visible fields |
| `ConfigDrafts.TypingCanLoseADraft` | crates/liz-cli/src/view_model.rs:239-265 | a concrete run that corrects a mistyped name and loses the base URL typed for it |
| `ConfigDrafts.CycleKeepsDrafts` | crates/liz-cli/src/view_model.rs:268-290 | cycling keeps every draft and the list |
| `ConfigDrafts.CycleMoves` | crates/liz-cli/src/view_model.rs:268-290 | cycling moves one place along the list and changes no draft |
| `ConfigDrafts.CycleBackReturns` | crates/liz-cli/src/view_model.rs:268-290 | cycling one way and back is the identity on the draft |
| `ConfigDrafts.CycleForthAndBackIff` | crates/liz-cli/src/view_model.rs:268-290 | over every run, forth and back is the identity exactly when a provider was named |
| `ConfigDrafts.CyclesAdvance` | crates/liz-cli/src/view_model.rs:268-290 | any number of cycles in either direction moves that many places along the list and changes no draft |
| `ConfigDrafts.TurnedIsRemainder` | crates/liz-cli/src/view_model.rs:268-290 | n steps in either direction lead to the place moved by n, modulo the length of the list |
| `ConfigDrafts.TurnedReturnsIff` | crates/liz-cli/src/view_model.rs:268-290 | n steps lead back to the same place exactly when n is a multiple of the length |
| `ConfigDrafts.CyclingAroundReturnsIff` | crates/liz-cli/src/view_model.rs:268-290 | over every run, n cycles in one direction are the identity on the draft exactly when n is zero, or a provider was named and n is a multiple of the number of known providers |
| `ConfigEvents.FocusGoesAround` | crates/liz-cli/src/view_model.rs:225-237 | the focus goes from the provider over base URL and API key to the model and around, and back |
| `ConfigEvents.TypingDoes` | crates/liz-cli/src/view_model.rs:239-265 | a typed character goes to the end of the focused field and a deleted one off it; other fields stay, the draft is dirty, the named provider is listed and its cache is what is shown |
| `ConfigEvents.CyclingShows` | crates/liz-cli/src/view_model.rs:268-290 | cycling caches what was shown and shows the cached draft of the provider it comes to |
| `ConfigEvents.LoadDoes` | crates/liz-cli/src/view_model.rs:293-333 | loading shows the last configured draft of the primary provider and lists exactly the current, fallback, built-in, configured and signed-in providers |
| `Workbenches.ProjectTurn` | apps/liz-web/src/state/workbench.ts:472-500 | a turn event changes transcripts and runtimes only, and those of its own thread only |
| `Workbenches.ProjectReply` | apps/liz-web/src/state/workbench.ts:642-692 | an assistant event changes only the transcript of its thread |
| `Workbenches.ProjectTool` | apps/liz-web/src/state/workbench.ts:506-588 | a tool event changes only the calls of its thread and the selected call |
| `Workbenches.ProjectApproval` | apps/liz-web/src/state/workbench.ts:589-616 | an approval event changes only approvals and transcript of the thread the approval names |
| `Workbenches.ProjectMemory` | apps/liz-web/src/state/workbench.ts:617-635 | a memory event changes only the memory record of its thread |
| `WorkbenchReplies.ReplyIsTheFoldOfItsTurn` | apps/liz-web/src/state/workbench.ts:642-797 | in every interleaving of threads and turns in which no loaded session brings a second reply to the turn, it has at most one, the fold of its own events and recorded reply |
| `WorkbenchReplies.AtMostOneReplyIff` | apps/liz-web/src/state/workbench.ts:642-797 | over every run, a turn has at most one reply exactly when at every loaded session the replies already there and those it records under unknown ids were at most one |
| `WorkbenchReplies.OtherTurnsDoNotMatter` | apps/liz-web/src/state/workbench.ts:642-747 | two runs with the same events of a turn show the same reply to it |
| `WorkbenchReplies.StreamedTextIsTheChunksInOrder` | apps/liz-web/src/state/workbench.ts:642-669 | until a completion brings its own message, the reply is the concatenation of exactly that turn's chunks in order |
| `WorkbenchReplies.StreamIsAppended` | apps/liz-web/src/state/workbench.ts:642-669 | whatever the reply was, chunks that follow are appended to it in order |
| `WorkbenchReplies.StreamedReplyIsItsChunks` | apps/liz-web/src/state/workbench.ts:642-669 | the same for one turn on its own |
| `WorkbenchReplies.RecordedReplyIsContinued` | apps/liz-web/src/state/workbench.ts:642-797 | a recorded reply that is loaded first is continued by what streams in later |
| `WorkbenchReplies.MessageReplacesTheStream` | apps/liz-web/src/state/workbench.ts:671-692 | a non-empty final message replaces the stream, and later chunks are appended to it |
| `WorkbenchReplies.ReplyExistsIff` | apps/liz-web/src/state/workbench.ts:694-797 | a turn has a reply exactly when anything but its end was seen, a recorded reply included |
| `WorkbenchReplies.SessionCanAddASecondReply` | apps/liz-web/src/state/workbench.ts:761-797 | a concrete loaded session gives a turn two replies |
| `WorkbenchReplies.RepliesAfterSession` | apps/liz-web/src/state/workbench.ts:761-797 | a loaded session adds, behind the replies already there, exactly the records it projects to a reply of the turn under an unknown id, in order |
| `WorkbenchRecords.StepElsewhere` | apps/liz-web/src/state/workbench.ts:206-434 | an action leaves all records of every thread its handler does not target |
| `WorkbenchRecords.StepRespects` | apps/liz-web/src/state/workbench.ts:206-434 | its effect on the target depends on the records of that thread only |
| `WorkbenchRecords.ThreadsDoNotInterfere` | apps/liz-web/src/state/workbench.ts:206-434 | the records of a thread after any run are those of the run of its own actions alone |
| `WorkbenchLists.ThreadListIsLastWritten` | apps/liz-web/src/state/workbench.ts:805-809 | over every run with unique loaded lists, thread ids are unique, the list is sorted by last update and holds exactly the last value written per thread |
| `WorkbenchLists.LoadIsUniqueIff` | apps/liz-web/src/state/workbench.ts:211-222 | a loaded list is stored with unique ids exactly when it came with unique ids |
| `WorkbenchLists.ApprovalListIsLastWritten` | apps/liz-web/src/state/workbench.ts:832-845 | over every run approval ids are unique per thread and each shows the last approval written |
| `WorkbenchLists.CallListsAreGood` | apps/liz-web/src/state/workbench.ts:847-886 | over every run call ids are unique per thread and calls are sorted by creation |
| `WorkbenchLists.ResolveIsLastOpen` | apps/liz-web/src/state/workbench.ts:888-917 | a result is resolved to the last open call of its turn and tool, and to none exactly when none is open |
| `WorkbenchLists.ResultGoesToTheLastOpenCall` | apps/liz-web/src/state/workbench.ts:546-588 | over every run a result changes exactly that call, if its id is not empty, and nothing when none is open |
| `WorkbenchGrowth.TranscriptsOnlyGrow` | apps/liz-web/src/state/workbench.ts:206-434 | over every run entries keep their place: messages keep their text and are sent once, replies keep their turn, notes do not change |
| `WorkbenchGrowth.MergeIsIdempotent` | apps/liz-web/src/state/workbench.ts:761-769 | loading a session keeps what is shown in front, adds every unknown entry, and loading it again changes nothing |
| `WorkbenchEvents.TurnStartDoes` | apps/liz-web/src/state/workbench.ts:248-268 | a started turn sends every pending message with it, has a reply, is the active turn and clears the last error |
| `WorkbenchEvents.TurnEndDoes` | apps/liz-web/src/state/workbench.ts:694-723 | the end of a turn gives its replies the status and clears the active turn; a failure leaves a note |
| `WorkbenchEvents.ReplyDoes` | apps/liz-web/src/state/workbench.ts:642-692 | text for a turn is added to its reply, or to a new one, and completes it if final |
| `WorkbenchEvents.MessagesDo` | apps/liz-web/src/state/workbench.ts:237-323 | a user message is added as pending, an error as a note that leaves the active turn alone |
| `WorkbenchEvents.RecordsBecomeEntries` | apps/liz-web/src/state/workbench.ts:761-797 | a session record becomes an entry by its kind, under an id of its own |
| `WorkbenchEvents.LoadDoes` | apps/liz-web/src/state/workbench.ts:211-222 | a loaded list is sorted and keeps the active thread if it holds it, else the first loaded one becomes active |
| `WorkbenchEvents.UpsertDoes` | apps/liz-web/src/state/workbench.ts:805-809 | an upserted thread replaces the one with its id, in an order sorted by last update |
| `WorkbenchEvents.ThreadEventDoes` | apps/liz-web/src/state/workbench.ts:474-483 | a thread event does what the action does and leaves the active thread alone |
| `WorkbenchEvents.ReplacingActionsDo` | apps/liz-web/src/state/workbench.ts:224-329 | setting the active thread, a resume summary or the selected call, and activating an upserted thread, replaces that field and nothing else |
| `WorkbenchEvents.ApprovalDoes` | apps/liz-web/src/state/workbench.ts:589-616 | an approval goes first in its thread's list; a requested or resolved one is noted with its text |
| `WorkbenchEvents.MemoryDoes` | apps/liz-web/src/state/workbench.ts:334-365 | loaded wake-ups and compilations replace their fields of the thread's memory |
| `WorkbenchEvents.CallStartDoes` | apps/liz-web/src/state/workbench.ts:506-521 | a started call replaces one with its id, is sorted by creation and selected if none was |
| `WorkbenchEvents.StartedCallIsLast` | apps/liz-web/src/state/workbench.ts:847-866 | a started call stands last among those created at the same time |
| `WorkbenchEvents.CallUpdateDoes` | apps/liz-web/src/state/workbench.ts:523-532 | progress on a call changes its tool, summary and preview |
| `WorkbenchEvents.CallCommitDoes` | apps/liz-web/src/state/workbench.ts:534-544 | a committed call gets its tool, arguments and risk |
| `WorkbenchEvents.ResultDoes` | apps/liz-web/src/state/workbench.ts:546-588 | a result changes the last unfinished call of its turn and tool, output the last one of its turn, as the event says, and nothing when there is none |
| `Base64Url.SextetsAreTheBits` | crates/liz-app-server/src/model/auth.rs:1691-1694 | three bytes and their four symbols are the same 24-bit number |
| `Base64Url.DecodeUndoesEncode` | crates/liz-app-server/src/model/auth.rs:1691-1694 | decoding undoes the padded standard encoding for every byte sequence |
| `Base64Url.DecodesIffEncoded` | crates/liz-app-server/src/model/auth.rs:1793-1799 | strict decoding accepts exactly the encodings, so padding and stray bits are canonical |
| `Base64Url.EncodeShape` | crates/liz-app-server/src/model/auth.rs:1691-1694 | an encoding is ceil(4n/3) symbols and the padding that fills up whole quads |
| `Base64Url.Base64UrlDecode` | crates/liz-app-server/src/model/auth.rs:1793-1799 | the padding loop ends and computes the decoding of the text padded to a multiple of four |
| `Base64Url.UrlEncodeShape` | crates/liz-app-server/src/model/auth.rs:1691-1694 | the unpadded form has ceil(4n/3) characters, all URL-safe, and is the encoding without its padding |
| `Base64Url.UrlEncodeAt` | crates/liz-app-server/src/model/auth.rs:1691-1694 | every character is the one that RFC 4648 section 5 gives for its six bits |
| `Base64Url.ChallengeShape` | crates/liz-app-server/src/model/auth.rs:1691-1694 | a 32-byte hash gives 43 characters of the URL-safe alphabet |
| `Base64Url.UrlDecodeUndoesUrlEncode` | crates/liz-app-server/src/model/auth.rs:1793-1799 | decoding undoes the unpadded URL-safe encoding, and the padding restored is exactly what was stripped |
| `Base64Url.UrlEncodeIsInjective` | crates/liz-app-server/src/model/auth.rs:1691-1694 | different byte sequences have different unpadded encodings |
| `Base64Url.UrlDecodesIff` | crates/liz-app-server/src/model/auth.rs:1793-1799 | a text decodes to given bytes exactly when, without trailing padding, it spells their encoding in either alphabet, and carries at most their padding |
| `Disclosure.HiddenFactsShowOnlyInCitations` | crates/liz-app-server/src/runtime/context_assembler.rs:109-166 | adding, removing or altering facts a participant may not see changes nothing in the wake-up but the citations, and the complete wake-up is the same exactly when the first three citations of the valid facts are |
| `Disclosure.HiddenEditShowsIff` | crates/liz-app-server/src/runtime/context_assembler.rs:109-166 | one hidden edit shows in the wake-up exactly when fewer than three citations stand before its place and those from there on differ in what still fits |
| `Disclosure.UncitedHiddenFactsDoNotShow` | crates/liz-app-server/src/runtime/context_assembler.rs:109-166 | changing facts that are neither seen nor cited leaves the complete wake-up, citations included, unchanged |
| `Disclosure.HiddenEditsIff` | crates/liz-app-server/src/runtime/context_assembler.rs:121-128 | two fact lists are a sequence of hidden edits apart exactly when their visible facts are the same |
| `Disclosure.CitationsMatchFacts` | crates/liz-app-server/src/runtime/context_assembler.rs:121-158 | at most the first three visible facts show, and each cited fact id is that of the fact rendered beside it |
| `Disclosure.KeptAreTheSeenOnes` | crates/liz-app-server/src/runtime/context_assembler.rs:121-128 | the filter keeps exactly the visible facts, in order |
| `Disclosure.ForbiddenTopicsDoNotShow` | crates/liz-app-server/src/runtime/context_assembler.rs:602-625 | no commitment, topic, keyword, active state or fact value shown to a non-owner mentions a forbidden topic, only trusted contacts are shown any, and with shared topics each mentions one |
| `Disclosure.StrangersGetOnlyCitations` | crates/liz-app-server/src/runtime/context_assembler.rs:109-166 | a relationship resolved to acquaintance or stranger gets nothing but the first three citations of the valid facts, and an identity whose policy shares it; who is resolved so is told by the rows of DisclosureAccess |
| `Disclosure.UnknownParticipantsSeeOnlyCitations` | crates/liz-app-server/src/runtime/context_assembler.rs:499-555 | a participant with no record can tell two memories apart exactly by the first three citations, whatever the stranger boundary |
| `Disclosure.StrangersSeeCitations` | crates/liz-app-server/src/runtime/context_assembler.rs:159-165 | a concrete fact that is hidden from strangers and whose citation a stranger is handed |
| `Disclosure.ForbiddenTopicShowsIff` | crates/liz-app-server/src/runtime/context_assembler.rs:127-127 | a forbidden topic occurs in a rendered fact exactly when an occurrence starts in the subject or the separator |
| `Disclosure.SubjectIsNotFiltered` | crates/liz-app-server/src/runtime/context_assembler.rs:109-127 | a concrete memory from which a recorded trusted contact is shown a fact about a forbidden topic |
| `DisclosureAccess.OwnerActorIsShownEverything` | crates/liz-app-server/src/runtime/context_assembler.rs:109-166 | with an owner actor the wake-up is the whole memory: identity, state, first three valid facts, topics and keywords, and commitments if the policy shares them |
| `DisclosureAccess.ContactsAreShownTheirTopics` | crates/liz-app-server/src/runtime/context_assembler.rs:468-490 | with a human contact or external agent it is, of what the policy shares, exactly the texts that mention no forbidden topic and, if topics are allowed, one of those |
| `DisclosureAccess.OthersAreShownNothing` | crates/liz-app-server/src/runtime/context_assembler.rs:468-490 | with a node, service, stranger, webhook or automation it is an identity the policy shares, and citations |
| `DisclosureAccess.OwnerIsShownEverything` | crates/liz-app-server/src/runtime/context_assembler.rs:515-526 | the participant "owner" gets everything |
| `DisclosureAccess.RecordDecides` | crates/liz-app-server/src/runtime/context_assembler.rs:527-541 | a participant on record gets what the first record of that person says: nothing of active state or commitments its boundary does not share |
| `DisclosureAccess.UnrecordedAreShownNothing` | crates/liz-app-server/src/runtime/context_assembler.rs:499-555 | anyone else gets citations only |

## Left out

- Process spawning, sandbox helpers and policies: the child writes chunks and exits once with a fixed code.
- Lossy UTF-8 decoding per chunk: readers deliver text chunks; a character cut by a chunk border is not modelled.
- The `output_chunks` of shell replies: the same deltas again.
- The text of shell task ids and the 64-bit wrap of their counter: ids are fresh.
- Whether the kill in `terminate` succeeds: a child exits at any time or never.
- Listeners and emitted messages in the protocol client, and handlers calling back into it: only connection, pending map, timers and settlements are modelled.
- Duplicate request ids: an id is used for one request.
- Browser socket behaviour beyond: no open or message event after close() was called on a socket.
- The text of event payloads and timestamps on the event bus.
- File system errors, symbolic links and the order of `read_dir`: a directory is its children in sorted order; search skips unreadable files.
- ListingNamesTheNodes: nodes have names, as in every file system; an empty one would leave no trace in a path.
- `write_text` and the read and write errors of the workspace tools.
- Colours, box drawing and how entries become lines: an entry is a block of lines of text.
- Scrolling at the bottom of the terminal and lines wider than it: rows are unbounded and lines fit.
- RunKeepsAnchor: live regions of 65536 rows or more are excluded, as the source counts rows in 16 bits.
- The full-screen renderer, overlays and key handling; `/new` and `/clear` write the visible transcript directly.
- The view model's status line, approvals, wake-up, memory lists, input history and slash commands.
- Auth profiles in the config draft beyond their provider names, and the file path it was loaded from.
- Timestamps and `localeCompare`: a total order on integers stands for both.
- The reducer actions that replace one field outright (memory topics and search, surfaces, nodes, mounts, runtime config, provider profiles, model status) and the selectors.
- The lead-in stripping of session summaries: a session entry carries the stripped text.
- ThreadListIsLastWritten: loaded lists must hold each thread once; LoadIsUniqueIff says that this is needed.
- SHA-256 and the random verifier: a hash is any 32 bytes.
- Base64UrlDecode: lengths count characters, the source counts bytes; they differ only on non-ASCII text, which decodes to nothing either way.
- OAuth, HTTP, provider tables and JSON shapes.
- The thread projection, the prompt texts and the recent conversation of the assembled context.
- Participant names, roles and stances: they do not enter the wake-up.
