# cantelop runtime: model and proofs

A Dafny model of the stateful core of the agent-runtime SDK, with proofs of what its protocols
keep over whole runs. `dafny verify dfyconfig.toml` checks everything.

The TypeScript runs on one thread, so each stretch of code between two awaits is one atomic step.
Every concurrent component is modelled twice:

- as a transition system on values: a `Step` function over an action type that includes the failures
  (a lost or ambiguous write, a crash, an abort, an outside edit, a lost answer), and `After`, the
  state after any sequence of actions. Each main theorem speaks about `After` of every sequence;
- as a class whose fields are those of the source and whose methods, with the source's loops and
  branches, are proved to take exactly the step of that name.

History variables (`log`, `sent`, `written`, `held…`) record what happened. No step reads them.

## What is modelled

| modules | component |
|---|---|
| `ClaudeState`, `ClaudeStore`, `DurableClaudeStore` | the write-ahead state file, its fence after a failed write, the publication outbox and the flush loop |
| `ClaudeProtocol` | the client that folds published changes |
| `ClaudeCallbacks`, `ClaudeCallbackFacts`, `ClaudeDraft` | the callbacks that the runtime commits: as functions, what they keep, and in place on a draft |
| `ClaudeRuntime`, `ClaudeRuntimeInvariant`, `ClaudeRuntimeFrames`, `ClaudeRuntimeSteps`, `ClaudeRuntimeWrites`, `ClaudeRuntimeTheorems` | the run state machine around them: message handler, activity, observer, delta timer, cancel hook and publisher, interleaved, with crashes and recovery |
| `ClaudeFinality`, `ClaudeRevival`, `ClaudeRevivalRuns` | when a finished input is accepted again: which step does it, exactly when, and two runs that show it |
| `ClaudePlaces`, `ClaudeRetention` | why an accepted admission always finds a place; what the state file retains of accepted inputs, what an admission evicts, and what recovery leaves |
| `ClaudeRuns`, `ClaudeLongTexts` | steps for building long runs, and the runs whose file outgrows its size limit |
| `ClaudeStream`, `ClaudeDelivery` | one native run: pending and echoed inputs and the closing rule; and the runtime together with the streams it drives |
| `Sync`, `SyncNode` | two-way file synchronization: all interleavings, and one undisturbed pass |
| `Activity`, `ActivityFacts`, `ActivityTheorems`, `InMemoryActivity` | the activity scheduler |
| `Mailbox`, `RuntimeMessages`, `MessageIntake` | message intake, receipts and reserved bytes; and the two together |
| `RuntimeQuiescence`, `RuntimeAdapter`, `RuntimeAdapterTheorems` | generations, waiters and the idle predicate over mailbox, activities, harness operations and controls |
| `CursorBuffer`, `OutputHandoff` | the bounded cursor window, and any number of publishers and pollers on it |
| `TerminalSocket`, `TerminalOutput` | the incremental WebSocket parser of RFC 6455 and the frame writer; and the bound on unsent output |
| `Lines`, `LineReaders`, `EventStream` | the two incremental line readers and the server-sent event loop |
| `Database` | reference-counted renewable connections |
| `Canonical`, `Fragments`, `ClaudeView`, `Splice` | canonical printing, fragmentation and reassembly, the view under its byte budget, source splicing |

## Where the code does not do what one would expect

Each of these is a theorem about the code as it is, with the exact condition where there is one.

- A stopped runtime cannot always be recovered. Recovery reads the file, commits, and projects a view, so
  it works if and only if the file is within 64 MiB, its outbox and its revision have room for a commit, and
  the view of the recovered run fits its budget (`RecoversExactly`). Writing checks no size: 342 stored inputs of 32 KiB that print
  with escapes make a file with an empty outbox that is never opened again (`LongTextsCanWedge`). And 256
  restarts without a completed flush fill the outbox for good (`RestartsCanWedge`).
- A reserved Session's refused message opens a generation without any work behind it, so a waiter
  for it is not woken (`StrandsExactly`, `RefusalStrands`).
- A cancel hook that starts while its activity already settles is not awaited: it runs on beside the
  next activity unless it ends in time (`HookOutlivesSlotExactly`, `LateHookIsNotAwaited`).
- A poller skips entries exactly when an acknowledgment beyond its cursor takes effect between its read
  and its return (`ReadIsGapless`, `ReadsCanSkip`).
- Text clipped after every append can differ from the text clipped once (`StreamedClipExactly`,
  `StreamedClipCanDiffer`).
- A fragment that arrives after its event was complete starts a new record (`LateFragmentStartsAnew`).
- No final status of an unwritten input is absorbing. Giving the input back is a commit of its own,
  and a commit that finishes the input can run before it: the one that finalises its run as
  interrupted, failed or cancelled, or a client's cancellation, whose reply has then promised that the
  input was cancelled (`RevivedOnlyByRelease`, `FinishedWhenGivenBackExactly`, `FinalStatusIsNotFinal`,
  `CancelledIsNotFinal`). What does hold is `WrittenIsNeverAcceptedAgain`.
- A byte-order mark in front of a text message is lost (`MessagesComeBackExactly`, `MarkIsLost`).
- Closing a terminal whose unsent output leaves no room for the close frame reports the end twice
  (`TerminalOutput.ClosedTwiceExactly`, `CloseCanBeReportedTwice`).
- A database client that is retired and still held when the pool is closed is closed again by its last
  release (`Database.ClosedTwiceExactly`).

## Assumptions

- Checking a sync request's precondition and publishing it is one step, although the server calls
  its own check optimistic. A version stands injectively for bytes and executable bit, hashes are
  injective, and generated identifiers are fresh.
- The mailbox runs one message handler at a time (proved in `Mailbox`), and the commits of a store
  run first in, first out.
- The native process echoes only inputs that it was given; other `user` events carry foreign IDs.
- Between the activity's own claim and its hand-off no other write completes, because that stretch
  performs no I/O once the stream is ready.
- How a write ends, when timers fire, whether a process comes up and how it ends, what a handler
  does and which outcome a failed run gets are actions or parameters, so the theorems hold for all
  of them.

## Model

The theorems come first, then the methods that are loops or in-place algorithms, then the loop-free methods
(from `DurableClaudeStore.DurableStore.Open` on), each of which is proved to take the step of its name on the specification.

| member | source | states |
|---|---|---|
| ClaudeStore.RunInv | src/harnesses/claude-durable-state.ts:114-154 | after every run of commits, lost and ambiguous writes, crashes, reopenings, sends and acknowledgments: memory follows the file, the fence covers the case where the file is ahead, and whatever left the outbox was sent completely |
| ClaudeStore.OnePublicationPerRevision | src/harnesses/claude-durable-state.ts:132-146 | no two different publications are ever sent under one revision, across failed writes and restarts |
| ClaudeStore.HistoryGrows | src/harnesses/claude-durable-state.ts:138-146 | what was durable once stays in the history, the revision of the file never decreases, and nothing sent is unsent |
| ClaudeStore.DiskDecodes | src/harnesses/claude-durable-state.ts:58-72 | any file left behind passes the checks on revision and outbox; whether it is read at all is a matter of its size, which `RecoversExactly` takes up |
| ClaudeStore.DroppedOnlyWhenSent | src/harnesses/claude-runtime.ts:108-126 | a publication leaves the durable outbox only after its events, its change and its view commit all went out |
| ClaudeStore.SentInRevisionOrder | src/harnesses/claude-runtime.ts:110-126 | before any part of a publication goes out, every durable publication of a lower revision went out completely |
| DurableClaudeStore.AcknowledgingTheLastEmpties | src/harnesses/claude-runtime.ts:119-120 | acknowledging the last revision of a batch acknowledges all of it |
| ClaudeProtocol.FoldIsNewest | src/harnesses/claude-protocol.ts:78-83 | folding any sequence of changes gives the newest one, or the starting view when none is newer |
| ClaudeProtocol.ClientEndsAtHighestRevision | src/harnesses/claude-protocol.ts:78-83 | over every run with failures, restarts and resends, a client rejects nothing and ends at the highest revision sent, with the only view ever sent at it |
| ClaudeProtocol.OrderAndRepetitionAreHarmless | src/harnesses/claude-protocol.ts:78-83 | two clients that see the same set of changes, in any order and with any repetition, end with the same view |
| ClaudeRuntimeWrites.StepKeeps | src/harnesses/claude-runtime.ts:69-388 | each kind of step of the six interleaved tasks keeps the invariant of the runtime |
| ClaudeRuntimeWrites.RunInv | src/harnesses/claude-runtime.ts:69-388 | the invariant holds after every run, crashes and recoveries included |
| ClaudeRuntimeTheorems.AtMostOneDelivery | src/harnesses/claude-runtime.ts:186-252 | no native ID is ever handed to a native stream twice, over all runs with crashes, ambiguous writes, retries and restarts |
| ClaudeRuntimeTheorems.WrittenIsNeverAcceptedAgain | src/harnesses/claude-runtime.ts:186-219 | once written, an input is accepted nowhere again: not in memory, not in the file, not in a write in progress |
| ClaudeRuntimeTheorems.RunsStartUnwritten | src/harnesses/claude-runtime.ts:221-242 | a new run, after a recovery or not, starts only with an accepted input of which nothing was written |
| ClaudeRuntimeTheorems.CompletedOnlyAfterEchoAndResult | src/harnesses/claude-runtime.ts:162-181 | a completed input, in memory or in the file, was echoed and then covered by a non-error result of the same run |
| ClaudeRuntimeTheorems.CoreInv | src/harnesses/claude-runtime.ts:69-388 | every run of the runtime is a run of the store as far as the store is concerned, so its invariant holds inside the runtime |
| ClaudeRuntimeTheorems.FilesDecode | src/harnesses/claude-durable-state.ts:58-72 | every file the runtime leaves passes the checks of the decoder on revision, outbox and bounded lists, and holds settings only of accepted inputs |
| ClaudeRuntimeTheorems.ClientsFollowTheRuntime | src/harnesses/claude-runtime.ts:108-126 | what any run of the runtime publishes folds, at any client, to the highest revision sent |
| ClaudeRuntimeTheorems.RecoversExactly | src/harnesses/claude-durable-state.ts:100-124 | a stopped runtime can be brought back if and only if its file is within the size limit, has room for the recovery commit, and the view of the recovered run fits: three things to read off the file |
| ClaudeRuntimeTheorems.RestartsFillTheOutbox | src/harnesses/claude-durable-state.ts:118-121 | n restarts that stop before an acknowledgment leave n publications in the outbox |
| ClaudeRuntimeTheorems.RestartsCanWedge | src/harnesses/claude-durable-state.ts:120 | after 256 of them no later step can bring the runtime back |
| ClaudeLongTexts.LongTextsCanWedge | src/harnesses/claude-durable-state.ts:105 | for every n from 342 to 676: a run that accepts n inputs of the greatest length, publishes everything and stops; its file has room and its view fits, and no later step brings the runtime back |
| ClaudeFinality.RevivedOnlyByRelease | src/harnesses/claude-runtime.ts:203-215 | in every reachable state, a step makes a finished input accepted if and only if it completes the stored write of the commit that gives that input back |
| ClaudeRevival.FinishedWhenGivenBackExactly | src/harnesses/claude-runtime.ts:198-215 | an input whose hand-off was refused is finished when it is given back if and only if it was finished before, or a commit that finishes it (the finalisation of its run, or its cancellation) was in the operation chain at the refusal and did not fail |
| ClaudeRevivalRuns.FinalStatusIsNotFinal | src/harnesses/claude-runtime.ts:264-277 | a run in which the finalisation marks an unwritten input interrupted, failed or cancelled, and it is accepted again afterwards |
| ClaudeRevivalRuns.CancelledIsNotFinal | src/harnesses/claude-runtime.ts:318-337 | a run in which a client is promised that an input is cancelled, and it is accepted again afterwards |
| ClaudeRetention.AcceptedLeavesFileExactly | src/harnesses/claude-runtime.ts:69-388 | an accepted input stays accepted in the file across every step of every run, crashes and ambiguous writes included, if and only if no write lands that claims it, starts with it, finalises its run, cancels it or resets the session; no admission evicts it |
| ClaudeRetention.AdmissionEvictsExactly | src/harnesses/claude-runtime.ts:374-377 | over every run, a stored admission drops an input if and only if the list is full and that input is the oldest finished one |
| ClaudePlaces.AdmissionsFindPlace | src/harnesses/claude-runtime.ts:363-377 | in every run, from the check of an admission until its commit is stored, the list has a free place or a finished input: nothing can give that input back in between |
| ClaudeRetention.RecoveredFile | src/harnesses/claude-runtime.ts:69-106 | whatever run left the file, an initialised runtime holds, in memory and in the file, its recovered form: nothing pending, exactly the accepted inputs still accepted and in one new run, finished ones as they were, settings only with accepted ones |
| ClaudeDelivery.IsRuntimeRun | src/harnesses/claude-runtime.ts:186-252 | the runtime together with its streams does nothing that the runtime alone could not do, so every theorem about its runs applies |
| ClaudeDelivery.StreamsAreFresh | src/harnesses/claude-runtime.ts:186-252 | the runtime never submits an input to a stream where it waits or was handed over before |
| ClaudeDelivery.RuntimeKnowsItsStream | src/harnesses/claude-stream.ts:59-72 | while a run is under way it has a stream, which the runtime takes to be open exactly when it accepts input |
| ClaudeDelivery.SuccessCoversEveryWrittenInput | src/harnesses/claude-stream.ts:63-98 | when the runtime sees a run end without an error, every input that any task wrote during it was echoed after its submission and covered by a later result |
| ClaudeStream.SuccessCoversEveryInput | src/harnesses/claude-stream.ts:63-98 | on a stream that is given no input again while it waits or after its hand-over (`StreamsAreFresh`), success of `done` means that every input handed to the process was echoed after its submission and covered by a later result |
| ClaudeStream.ResultKeepsOpenForLaterInputs | src/harnesses/claude-stream.ts:88-94 | over every run, an accepting stream stays open across a result if and only if the turn succeeded and some input was submitted and has not been echoed since |
| ClaudeStream.ClosedStaysClosed | src/harnesses/claude-stream.ts:59-72 | a closed stream never accepts again, and submits and hands over nothing more, whatever happens |
| ClaudeStream.EndedHandsNothing | src/harnesses/claude-stream.ts:59-72 | after `cancel`, or once the process is done, no input is submitted or handed over any more |
| Sync.Decide | src/sync-node.ts:265-289 | an upload or remote removal is decided only when the remote side equals the baseline and the local one does not, a download or local removal only the other way round |
| Sync.RunInv | src/sync-node.ts:239-298 | over outside edits, late and lost requests, late baseline writes and crashes: every baseline version was held by both sides, and every request in flight expects such a version |
| Sync.HeldIsHistory | src/sync-node.ts:189-203 | the sets of versions a side ever held are exactly what its directory contained at some point of the run |
| Sync.BaselinesWereShared | src/sync-node.ts:221-227 | each side has held every version of the baseline, in memory and saved |
| Sync.ChangesOnlySharedVersions | native/platform/fire-fuse/workspacesync/files.go:313-355 | synchronization overwrites or removes only a version equal to the baseline it was decided from, which both sides held, and puts in only what the other side held |
| Sync.LoneVersionSurvives | src/sync-node.ts:263-295 | a version that only one side ever held survives everything except outside edits of its own path |
| SyncNode.SyncNode.HandledTwice | src/sync-node.ts:263-295 | after a pass a path is in sync, or is as before and will be judged in the same way |
| TerminalSocket.ParseFrameExtends | src/terminal-socket.ts:68-85 | more input never changes what was already parsed |
| TerminalSocket.ChunksAndPausesDoNotMatter | src/terminal-socket.ts:66-125 | for every chunking and any pauses and resumes, the messages, replies and close are those of the whole input at once; a paused socket has delivered a prefix |
| TerminalSocket.MaskedTwice | src/terminal-socket.ts:82-84 | unmasking undoes masking |
| TerminalSocket.FrameRoundTrip | src/terminal-socket.ts:68-85 | any client frame within the limit, with all three length forms and any mask, is parsed back exactly, and what follows it is left over |
| TerminalSocket.DrainHandlesFrames | src/terminal-socket.ts:66-109 | the byte parser refines a handler of whole frames |
| TerminalSocket.MessagesRoundTrip | src/terminal-socket.ts:66-109 | messages within the limit, fragmented at will, masked and interleaved with pings, are delivered decoded and in order, each ping answered where it stood |
| TerminalSocket.MessagesComeBackExactly | src/terminal-socket.ts:99-107 | they come back exactly as sent if and only if no text starts with a byte-order mark |
| TerminalSocket.MarkIsLost | src/terminal-socket.ts:103-107 | a text whose mark is lost |
| TerminalSocket.ServerFrameRoundTrip | src/terminal-socket.ts:48-54 | a client reads back every frame that is written |
| TerminalOutput.ClosedTwiceExactly | src/terminal-socket.ts:42-65 | over every run, the end is reported once, or twice if and only if `close` was called on an open socket whose unsent bytes left no room for its frame; while the socket is open they are within the bound |
| TerminalOutput.NothingAfterTheEnd | src/terminal-socket.ts:42-65 | once it is closed, nothing is written and nothing is reported again |
| TerminalOutput.CloseCanBeReportedTwice | src/terminal-socket.ts:58-65 | a message that just fits and a close do so |
| ActivityFacts.RunInv | src/activity.ts:83-276 | the invariant behind the theorems below holds in every interleaving |
| ActivityTheorems.EachSubmissionInOnePlace | src/activity.ts:94-153 | each accepted submission is in exactly one of queued, current, flushing, finished and rejected |
| ActivityTheorems.LaunchesFollowPriority | src/activity.ts:182-187 | before a launch, everything that outranks it (priority first, then first in) was launched or rejected |
| ActivityTheorems.EachEventOnce | src/activity.ts:233-276 | each submission is accepted, launched, rejected and finished at most once, and its cancel hook starts at most once |
| ActivityTheorems.FreeSlotHasDrain | src/activity.ts:112-114 | a free slot with queued work always has a drain pending |
| ActivityTheorems.OneRunsAtATime | src/activity.ts:255-271 | the work of every activity outside the slot has ended |
| ActivityTheorems.HooksStartInTheSlot | src/activity.ts:233-249 | a cancel hook starts only while its own activity holds the slot |
| ActivityTheorems.AbortsOnlyItsTarget | src/activity.ts:133-153 | a signal is aborted only by a cancellation aimed at its own activity or by its own deadline |
| ActivityTheorems.HandoverWaits | src/activity.ts:255-269 | over every run, the slot passes on only after the work ended and, within the grace period, after all steering and after every hook that began before the work ended |
| ActivityTheorems.HookOutlivesSlotExactly | src/activity.ts:233-269 | within the grace period, a hook is still running when its activity gives up the slot if and only if it started after the work had ended and has not ended itself |
| ActivityTheorems.LateHookIsNotAwaited | src/activity.ts:261-264 | a run in which such a hook runs beside the next activity |
| Mailbox.RunInv | src/mailbox.ts:49-152 | every admitted entry is queued, cancelled or started, and the pending count is true |
| Mailbox.HandlersStartInOrderOnce | src/mailbox.ts:135-143 | handlers start one at a time, in admission order, at most once for each message ID |
| Mailbox.CancelledNeverStarts | src/mailbox.ts:127-133 | what was cancelled while it waited never runs |
| Mailbox.IdleMeansAllSettled | src/mailbox.ts:145-152 | idle if and only if every message ever admitted has settled |
| RuntimeMessages.PendingBytesAreReserved | src/runtime-messages.ts:84-88 | the byte counter equals the sum of the reservations still held and stays within the cap |
| RuntimeMessages.HandedOnce | src/runtime-messages.ts:78-109 | each message ID is handed on at most once, whatever is retried |
| RuntimeMessages.ReceiptsMoveForward | src/runtime-messages.ts:109-134 | receipts only move forward, terminal ones are fixed, and the fingerprint never changes |
| RuntimeMessages.CancelledNeverSucceeds | src/runtime-messages.ts:187-204 | a cancelled message never succeeds, and times out only by its own deadline |
| RuntimeMessages.RetriesMatchByMeaning | src/runtime-messages.ts:75-83 | a retry is a conflict exactly when its envelope means something else, and never changes anything |
| RuntimeMessages.WaitersAreCurrent | src/runtime-messages.ts:145-162 | whoever waits for a completion has seen all completions so far |
| MessageIntake.CancelledWhileQueuedNeverRuns | src/session-runtime-adapter.ts:113-117 | a message cancelled while it is queued is never run, whatever is drained, settled, retried or cancelled later, and its receipt ends failed or timed out |
| MessageIntake.SucceedsOnlyIfItRan | src/session-runtime-adapter.ts:334-336 | a receipt says running or succeeded only if the handler was started, and queued only if it was not |
| MessageIntake.HandlersStartUncancelled | src/session-runtime-adapter.ts:335-336 | no message is cancelled when its handler starts, so the check for an abort there never fails |
| RuntimeAdapterTheorems.IdleIsTruthful | src/session-runtime-adapter.ts:128-129 | whenever idle holds, every message ever admitted settled, every accepted activity finished or was rejected, and no operation, control or buffered follow-up remains |
| RuntimeAdapterTheorems.NoLostWakeUp | src/session-runtime-adapter.ts:290-308 | without a silent generation, an idle runtime has no waiter that it should have woken |
| RuntimeAdapterTheorems.StrandsExactly | src/session-runtime-adapter.ts:277-288 | a step strands a waiter if and only if it opens a generation without work while idle, and one waits for it |
| RuntimeAdapterTheorems.RefusalStrands | src/session-runtime-adapter.ts:281-284 | the refusal of a reserved Session does so |
| RuntimeAdapterTheorems.WaitersAreKeptOrWoken | src/runtime-quiescence.ts:39-76 | a registered waiter stays until it is woken or gives up |
| RuntimeAdapterTheorems.WokenOnlyWhenIdle | src/runtime-quiescence.ts:39-58 | who is woken is woken by an idle runtime that has reached its generation |
| OutputHandoff.RunInv | src/output.ts:20-41 | the window agrees with the log, and every publisher's place in it is its own, in every interleaving |
| OutputHandoff.BoundsHold | src/output.ts:26-34 | with any number of concurrent publishers both bounds hold, and a waiting publisher really lacks capacity |
| OutputHandoff.WaitersHaveEntriesAhead | src/cursor-buffer.ts:43-57 | a publisher waits only while a poller could make room |
| OutputHandoff.SleepersHaveNothingToRead | src/cursor-buffer.ts:74-86 | a poller sleeps only while nothing is above its cursor |
| OutputHandoff.EachPublisherOnce | src/output.ts:28-40 | each publisher has at most one place in the log |
| OutputHandoff.LogGrows | src/cursor-buffer.ts:60-65 | what was appended stays where it was, and acknowledgment never goes back |
| OutputHandoff.ReadIsGapless | src/cursor-buffer.ts:67-87 | over every run, a read accepted at one position and returned at a later one starts right after its cursor if and only if no acknowledgment beyond it took effect between the two, and it returns the log entries from there on |
| OutputHandoff.ReadsCanSkip | src/cursor-buffer.ts:67-87 | a run in which a read skips an entry |
| Database.RunInv | src/database.ts:46-84 | user counts are the live holders, over every interleaving of renewals, failures and operations |
| Database.HoldersHaveOpenClients | src/database.ts:74-84 | before `close`, nobody holds a closed client |
| Database.AtMostOneUnretired | src/database.ts:57-65 | at most one connection is not retired |
| Database.RetiredClientsCloseOnce | src/database.ts:50-53 | a client is closed if and only if it is retired and without holders, and then once |
| Database.ClosingSteps | src/database.ts:50-73 | what closes a client is its last release, its retirement without holders, or `close` |
| Database.CloseClosesEverything | src/database.ts:110 | `close` leaves no client open, and none is opened afterwards |
| Database.ClosedTwiceExactly | src/database.ts:73-110 | after `close`, in whatever way the run goes on, a client has been closed twice if and only if it was retired and held at that moment and has been released since; every other one has been closed once |
| Lines.FeedIsLinesOf | src/stream.ts:115-133 | reading character by character with a carried skip flag gives the lines of the whole text |
| EventStream.CursorsRise | src/stream.ts:68-72 | the cursors of the yielded events strictly increase within one stream, from the given cursor on |
| EventStream.MessagesRoundTrip | src/stream.ts:52-89 | frames of well-formed messages come back as their events, exactly and in order |
| EventStream.StreamRoundTrip | src/stream.ts:52-141 | the same for the text of the stream, in whatever chunks it arrives |
| Fragments.SplitJoins | src/harnesses/cli.ts:39-46 | the slices of an event join to the event |
| Fragments.FragmentOutcome | src/harnesses/claude-output.ts:10-32 | after any arrivals, the event comes back at its last distinct fragment and only there |
| Fragments.EventsComeBackOnce | src/harnesses/claude-output.ts:10-32 | the same over a whole run, for every order, duplicates and interleaving of several events |
| Fragments.LimitsSuffice | src/harnesses/claude-output.ts:23-25 | as long as, at each arrival, at most 32 events are incomplete and their slices are charged at most 4 MiB, nothing is refused for the limits, so all events come back |
| Fragments.SplitThenReassemble | src/harnesses/cli.ts:39-46 | for slices of any number of events, arriving in any order, interleaved and repeated until completion, within the limits: what comes out is exactly the events whose slices all arrived, each once, unchanged, at its last distinct slice |
| Fragments.LateFragmentStartsAnew | src/harnesses/claude-output.ts:17-30 | a fragment after completion starts a record of its own |
| Fragments.AcceptCounts | src/harnesses/claude-output.ts:23-30 | one fragment keeps the counter equal to what is buffered, and within the limits |
| Fragments.RunCounts | src/harnesses/claude-output.ts:23-30 | so does every run, of any fragments |
| Canonical.PrintMeans | src/runtime-messages.ts:206-217 | parsing the printed text gives back what the value means |
| Canonical.EqualPrintsMeanEqualValues | src/runtime-messages.ts:206-217 | equal prints mean equal values |
| Canonical.EqualValuesPrintEqually | src/database-schema.ts:58-65 | key order and dropped members make no difference to the print |
| Canonical.PrintsAgreeExactly | src/database-schema.ts:58-68 | two values print equally if and only if they mean the same, in both forms |
| Canonical.KnownIsHarmless | src/database-schema.ts:58-65 | printing with a cache that knows any occurrences of subtrees equals printing without |
| ClaudeView.FitCountIsLargest | src/harnesses/claude-view.ts:34-45 | no larger number of items fits |
| ClaudeView.KeepsNewest | src/harnesses/claude-view.ts:37-43 | what is kept is the newest end of both lists, and all entries go before any input |
| ClaudeView.ClipIsLongest | src/harnesses/claude-view.ts:18-24 | it is the longest prefix of whole characters within the limit |
| ClaudeView.StreamedClipExactly | src/harnesses/claude-view.ts:50-57 | for any number of deltas, clipping after each one equals one clip of the whole text if and only if, at each delta, nothing had been cut yet, the delta is empty, or its first character does not fit either |
| ClaudeView.StreamedClipCanDiffer | src/harnesses/claude-view.ts:50-57 | a text for which it differs |
| ClaudeView.StreamedTextIsKept | src/harnesses/claude-view.ts:50-57 | streamed text that fits is never clipped, and retained text never exceeds its bound |
| Splice.OrderIsIrrelevant | src/compiler.ts:548-549 | the order in which edits were collected makes no difference |
| Splice.OutsideIsKept | src/compiler.ts:548-549 | every character outside the spans is kept, moved by the edits before it |
| Splice.TextsAreInPlace | src/compiler.ts:548-549 | each replacement stands where its span was |
| DurableClaudeStore.DurableStore.Commit | src/harnesses/claude-durable-state.ts:114-124 | one revision more and one publication more, or an error: a rejected draft (a throwing callback, an exhausted revision, a full outbox, a view over its budget) changes nothing, a failed write leaves memory alone and fences |
| DurableClaudeStore.PublishBatch | src/harnesses/claude-runtime.ts:114-118 | every part of every publication is sent, in order, unless the writers were aborted |
| DurableClaudeStore.FlushOutbox | src/harnesses/claude-runtime.ts:110-126 | a flush that succeeds has sent the whole outbox once and emptied it; the file changes only after everything was sent |
| ClaudeDraft.Draft.RecoverState | src/harnesses/claude-runtime.ts:76-104 | the recovery callback, in place, computes `Recover` |
| ClaudeDraft.Draft.AdmitInput | src/harnesses/claude-runtime.ts:373-378 | admission, with the eviction of the oldest finished input (or of the last one when none is finished), computes `Admit` |
| ClaudeDraft.Draft.BeginRun | src/harnesses/claude-runtime.ts:237-242 | the first delivery and the run that owns its inputs become durable together |
| ClaudeDraft.Draft.FinishRun | src/harnesses/claude-runtime.ts:264-277 | every unfinished input of the run gets its final status and reason, and no other input changes |
| ClaudeDraft.Draft.ObserveEvent | src/harnesses/claude-runtime.ts:163-180 | one observed event: the identity check, the echo, the result |
| ClaudeDraft.Draft.ObserveBatch | src/harnesses/claude-runtime.ts:162-181 | a batch is folded event by event, or rejected whole when one event throws |
| ClaudeDraft.Draft.Reset | src/harnesses/claude-runtime.ts:309-314 | never-delivered input is cancelled and the conversation starts anew |
| ClaudeStream.NativeClaudeStream.ObserveResult | src/harnesses/claude-stream.ts:88-94 | a result settles every consumed input, and closes when none is left or it failed |
| SyncNode.SyncNode.Pass | src/sync-node.ts:239-298 | undisturbed: transfers and agreements make the three versions equal, conflicts, oversized files and disallowed uploads keep all three, the report is exact, and a collision of aliases changes nothing |
| SyncNode.SyncNode.PassTwice | src/sync-node.ts:239-298 | one pass makes local, remote and baseline equal on every path but the reported conflicts; a second one transfers nothing and reports the same conflicts |
| SyncNode.SyncNode.Cycle | src/sync-node.ts:299-330 | succeeds if and only if the three versions agree on every path; its status tells success, conflict and error apart |
| TerminalSocket.Unmask | src/terminal-socket.ts:83-84 | the in-place loop computes the mask |
| TerminalSocket.Endpoint.ParseLoop | src/terminal-socket.ts:66-109 | the loop, paused by a handler after any number of frames, reaches the state of the specification |
| InMemoryActivity.ActivitySlot.DrainQueue | src/activity.ts:182-187 | launches the first priority entry, or else the oldest |
| InMemoryActivity.ActivitySlot.AbortOutOfSlot | src/activity.ts:233-249 | a flushing activity is aborted without its hook |
| InMemoryActivity.ActivitySlot.CancelByMessage | src/activity.ts:139-153 | all queued work of a message is rejected, newest first, and its active and flushing work aborted |
| Mailbox.InMemoryMailbox.CancelWaiting | src/mailbox.ts:127-133 | removes the first waiting entry of an ID |
| RuntimeQuiescence.Quiescence.NotifyChanged | src/runtime-quiescence.ts:39-46 | when idle, exactly the waiters whose generation is reached are resolved, in order |
| CursorBuffer.CursorBuffer.Append | src/cursor-buffer.ts:60-65 | the log grows by one item, at the next cursor |
| CursorBuffer.CursorBuffer.Acknowledge | src/cursor-buffer.ts:93-107 | the window becomes the log after the acknowledged cursor, and exactly the producers passed over settle, once each, in cursor order |
| CursorBuffer.CursorBuffer.BeginRead | src/cursor-buffer.ts:67-73 | the exact cases of `cursor_ahead`, `cursor_expired` and `invalid_acknowledgment` |
| CursorBuffer.CursorBuffer.Take | src/cursor-buffer.ts:74-83 | reading by offset gives the first log entries above both cursors, up to the batch limit |
| Database.Connections.CloseEverything | src/database.ts:110 | every live client is closed once |
| LineReaders.ScanChunk | src/stream.ts:115-133 | one chunk, scanned in place, keeps the reader in step with the whole text |
| LineReaders.ReadLines | src/stream.ts:100-141 | for every chunking: the lines of the whole text (CR, LF, CRLF) before the first one over the limit, each with its true UTF-8 size, and failure exactly when there is one |
| LineReaders.ReadJsonLines | src/harnesses/cli.ts:160-180 | for every chunking: the LF-terminated lines before the first one over the limit, and failure exactly when there is one |
| EventStream.DispatchFrame | src/stream.ts:59-73 | the end of a frame: the event, or which error ends the stream |
| EventStream.StreamEvents | src/stream.ts:52-90 | the loop with its locals computes the fold of the specification and stops at the first error |
| EventStream.ReadStream | src/stream.ts:52-141 | the events and the error of a stream depend only on the concatenation of its chunks |
| ClaudeView.FitView | src/harnesses/claude-view.ts:34-45 | the subtracted size equals the serialized size at every iteration; the result keeps as many items as fit, and the call fails exactly when none do |
| ClaudeView.ClipText | src/harnesses/claude-view.ts:18-24 | the loop computes the clip |
| Splice.Apply | src/compiler.ts:373-377 | slicing from the highest start to the lowest equals replacing all spans at once |
| DurableClaudeStore.DurableStore.Open | src/harnesses/claude-durable-state.ts:100-113 | memory becomes the file, or the fresh state when there is none; a file over 64 MiB is refused; a second call changes nothing |
| DurableClaudeStore.DurableStore.Persist | src/harnesses/claude-durable-state.ts:138-146 | memory follows only a write that succeeded; any failure fences, even when the rename had landed |
| DurableClaudeStore.DurableStore.Acknowledge | src/harnesses/claude-durable-state.ts:125-131 | exactly the publications at or below a revision leave the outbox, in one durable write |
| ClaudeDraft.Draft.ClaimInput | src/harnesses/claude-runtime.ts:191-197 | the move from accepted to delivering, attempted exactly when the input is still accepted |
| ClaudeDraft.Draft.ReleaseInput | src/harnesses/claude-runtime.ts:206-213 | an unwritten input goes back to accepted, under a new run, and leaves the old run's list |
| ClaudeStream.NativeClaudeStream.SubmitInput | src/harnesses/claude-stream.ts:63-66 | the first half of `send`: refused when closed, else pending |
| ClaudeStream.NativeClaudeStream.ResumeInput | src/harnesses/claude-stream.ts:67-71 | the second half: `ClaudeStreamClosed` means nothing was written |
| ClaudeStream.NativeClaudeStream.ObserveUser | src/harnesses/claude-stream.ts:86-87 | an echo consumes a pending input and no other |
| SyncNode.Directory.Apply | native/platform/fire-fuse/workspacesync/files.go:331-355 | a write or removal happens exactly when the precondition holds; nothing missing can be removed |
| SyncNode.SyncNode.Reconcile | src/sync-node.ts:264-294 | one path: what the decision requires happens to the three versions, and no other path changes |
| TerminalSocket.Endpoint.Close | src/terminal-socket.ts:58-65 | with room for the close frame, that frame and the end happen once |
| TerminalSocket.Endpoint.HandleControl | src/terminal-socket.ts:86-92 | pings are answered, pongs ignored, and fragmented, long or unknown control frames close with 1002 |
| TerminalSocket.Endpoint.HandleData | src/terminal-socket.ts:93-107 | fragments are joined, and the 1002, 1009 and 1007 closes happen in these cases |
| TerminalSocket.Endpoint.OnData | src/terminal-socket.ts:110 | a chunk is appended and parsed unless the socket is paused |
| TerminalSocket.Endpoint.PauseReading | src/terminal-socket.ts:115-119 | pausing stops the loop and keeps the input |
| TerminalSocket.Endpoint.ResumeReading | src/terminal-socket.ts:120-125 | resuming goes on with what is pending |
| TerminalOutput.Writer.CloseSocket | src/terminal-socket.ts:58-65 | one call reports the end never on a closed socket, twice when its frame finds no room, else once |
| InMemoryActivity.ActivitySlot.StartNow | src/activity.ts:83-92 | starts at once, exactly when nothing is active or queued |
| InMemoryActivity.ActivitySlot.Enqueue | src/activity.ts:94-116 | appended with a drain scheduled, unless 256 are waiting |
| InMemoryActivity.ActivitySlot.AbortInSlot | src/activity.ts:233-249 | the hook starts on the first abort only; the signal is aborted every time |
| InMemoryActivity.ActivitySlot.CancelActivity | src/activity.ts:133-137 | one named activity, or the current one, is aborted |
| InMemoryActivity.ActivitySlot.BeginSettle | src/activity.ts:255-262 | settling fixes which hook will be awaited |
| InMemoryActivity.ActivitySlot.ReleaseSlot | src/activity.ts:267-269 | release and the next launch are one step |
| Mailbox.InMemoryMailbox.Admit | src/mailbox.ts:49-125 | a known ID is deduplicated, a new one queued with the next sequence number |
| Mailbox.InMemoryMailbox.StartNext | src/mailbox.ts:135-143 | calls the oldest entry when no handler runs |
| Mailbox.InMemoryMailbox.SettleOne | src/mailbox.ts:149-152 | one settled result, one pending entry less |
| RuntimeMessages.Intake.AdmitMessage | src/runtime-messages.ts:75-141 | the answer, and the reservation when it is accepted |
| RuntimeMessages.Intake.MarkStarted | src/runtime-messages.ts:109-112 | running, unless it was cancelled first |
| RuntimeMessages.Intake.CancelMessage | src/runtime-messages.ts:187-204 | only queued or running work is cancelled |
| RuntimeMessages.Intake.SettleDelivery | src/runtime-messages.ts:118-126 | the terminal receipt, from the outcome and the cancellation |
| RuntimeMessages.Intake.GiveBackBytes | src/runtime-messages.ts:127-134 | the reservation is returned once and every waiter is woken |
| RuntimeQuiescence.Quiescence.ObserveMessage | src/runtime-quiescence.ts:31-37 | a known message keeps its generation, a new one opens the next |
| RuntimeQuiescence.Quiescence.WaitForQuiescence | src/runtime-quiescence.ts:48-76 | resolved at once if idle at that generation, else registered |
| Database.Connections.RetireOne | src/database.ts:50-53 | retired, and closed when nobody holds it |
| Database.Connections.InstallRenewed | src/database.ts:57-65 | a renewal retires the previous connection and reaches everyone who waits |
| Database.Connections.TakeOffered | src/database.ts:74-80 | a retired connection is asked for again, a closed client is refused |
| Database.Connections.ReleaseHeld | src/database.ts:73 | the last holder closes a retired client |
| Fragments.SessionOutput.AcceptFragment | src/harnesses/claude-output.ts:10-32 | the method computes the specification; a refusal changes nothing |

## Left out

- ClaudeDraft.Draft.ObserveEvent: does not model the conversation entries, usage and token counts that `observeClaude` derives from the same event; `ClaudeView` models their clipping.
- ClaudeRuntimeTheorems.FilesDecode: covers the checks on revision, outbox and bounded lists; the field types are the datatypes, and the upgrade of unversioned files is not part of this model.
- ClaudeRuntimeTheorems.RecoversExactly: the size of the file is that of the retained texts plus a parameter for everything else, and the size of the usage in a view is a parameter too.
- ClaudeRuntimeWrites.RunInv: there is one delta timer; in the source a second one can fire while the commit of the first still waits in the chain, so that two of them, each the observation of its own batch, wait at once.
- ClaudeRuntimeTheorems.AtMostOneDelivery: a process factory that throws counts as a hand-off that wrote nothing.
- DurableClaudeStore.FlushOutbox: describes a flush without interference; commits that land meanwhile are steps of `ClaudeStore`.
- Sync.ChangesOnlySharedVersions: real file systems, with inodes, owners, links and nested directories, are flat maps here.
- SyncNode.SyncNode.Pass: paths are handled in any order, which covers the sorted one; the limits on manifests and on the bytes of a scan are left out.
- SyncNode.SyncNode.PassTwice: asks that aliases do not collide, excluded remote names included, because the first scan of the next pass rejects such a collision.
- SyncNode.SyncNode.Cycle: its retries answer outside edits, and this module has none; `Sync` has them, without the retry count.
- TerminalSocket.Endpoint.OnData: the opening handshake and socket errors are left out; whether bytes are valid UTF-8 is a parameter.
- TerminalSocket.Endpoint.Close: assumes room for the close frame; `TerminalOutput` has the bound on unsent output and what happens without room.
- MessageIntake.SucceedsOnlyIfItRan: speaks of messages that go through the mailbox; a cancel command without a harness is answered outside of it.
- ClaudeDelivery.SuccessCoversEveryWrittenInput: the write of a line and the flush after it are awaited together, and the native events of the stream are not tied to the batches that the observer commits.
- ClaudeDelivery.RuntimeKnowsItsStream: a stream made after an abort counts as cancelled at once, while in the source it still reports `accepting` until `done` rejects; writes to it are rejected either way.
- ClaudeRevivalRuns.FinalStatusIsNotFinal: which outcome a run gets is a parameter here, as in the runtime.
- RuntimeAdapterTheorems.IdleIsTruthful: auth terminals, activation and the deadlines of operations are left out.
- InMemoryActivity.ActivitySlot.StartNow: steering messages are counted and not carried, deadline extension and telemetry are left out, and a hook or observer does not call back into the scheduler.
- Mailbox.InMemoryMailbox.Admit: observers and timings are left out.
- Database.RunInv: `reconnect` after `close` and the validation of credentials are left out.
- LineReaders.ReadLines: a decoder hands over whole characters, and malformed UTF-8 is not part of this model.
- LineReaders.ReadJsonLines: blank lines are yielded like others; skipping them and parsing JSON are left to the caller.
- EventStream.StreamEvents: the response checks, error bodies and the fields of an event document are parameters or left out.
- Fragments.EventsComeBackOnce: the UTF-8 size of a slice is a parameter, because a slice may end inside a surrogate pair; the message filter in front is left out.
- Canonical.PrintMeans: a number stands for the text that it prints as.
- ClaudeView.FitView: an item is the size of its JSON; which texts make up that JSON is left out.
- The scheduler for harness turns (`src/harnesses/queue.ts`) repeats the priority queue of the activity scheduler.
- The TypeScript checker, the dependency closure and bundling of the compiler, and schema migrations with their ledger: external tools decide them, or they would add only easy members.
- HTTP routes, Edge routing, credential lookup, request parsing, login, terminals' processes, process spawning and the command line: plumbing and field checks.
