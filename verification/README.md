# Verification models for kwt

kwt manages Git worktrees, from the command line and through a daemon. This
project models four parts of it whose correctness lies in how several functions,
processes or files work together, and proves what they promise.

**The operation stream** (`internal/daemon`, `service`). A hub runs workers and
keeps a bounded, append-only event log for each. Subscribers get the log replayed
from a cursor and then live; one that falls behind is evicted, an abandoned worker
is cancelled by a tokenised timer, one prompt is open at a time, ended operations
are pruned, and a drain ends everything. A client follows a log across one
reconnect, and a gate counts reservations for shutdown.
`operation_stream.dfy` is the stream validator, `operation_entry*.dfy` one
operation, `operation_hub_model.dfy` and `operation_hub_runs.dfy` the hub as a
transition system with its theorems over runs, `operation_hub.dfy` and
`operation_entry_object.dfy` the objects under the hub lock, whose methods are
proved to be actions of that system. `gate.dfy` and `drain.dfy` add the gate;
`operation_client.dfy`, `operation_delivery.dfy` and `operation_end_to_end.dfy`
the client. Every region under a lock is one atomic step; channel receives, timer
callbacks, lost connections and the clock are free steps in between. Map iteration
order is arbitrary.

**Project registration** (`internal/config`). A fingerprint hashes a typed,
length-prefixed, key-sorted encoding of a decoded entry, and a compare-and-swap
uses a separately written structural comparison. `byte_encoding.dfy`,
`fingerprint_types.dfy`, `fingerprint_values.dfy` and `fingerprint_exact.dfy`
prove that the two agree exactly, but for what only the comparison sees of a
time.Time; `fingerprint_encoder.dfy` is the encoder with
its buffer, and `project_registry.dfy` the compare-and-swap.

**Worktree creation and warm spares** (`worktree`). Processes share a repository
lock, warm pool locks, a creation lock that is only ever tried, a record file and
the marker, identity and lock files of registrations. `worktree_protocol.dfy` is
the transition system, one step per system call or Git command, with native Git
and crashes anywhere; a crash frees locks and leaves files.
`worktree_invariant.dfy`, `worktree_runs.dfy` and `worktree_deadlock.dfy` prove
its safety over whole runs; `worktree_machine.dfy` walks the operations of
`lock.go`, `reservation.go` and `warm.go` through it while others act in between.

**Refs and event sizes** (`worktree`, `internal/daemon`). `base_sync.dfy` is the
base branch sync racing native Git over a commit graph; `ref_names.dfy` and
`branch_names.dfy` are the branch name search; `utf8.dfy` and `json_budget.dfy`
the size check of event strings.

Four findings the proofs turn on:

- A callback error that wraps the interruption error of the client makes
  `FollowOperation` retry, and the event it was returned for is delivered a second
  time if the second connection carries anything (`OperationDelivery.ExactlyOnce`
  states the exact condition, `RetriedPromptIsSeenTwice` an example). The
  end-to-end promise holds otherwise.
- A managed base sync can lose the tip it rewinds when the ref of its branch is
  the backup prefix followed by a commit ID, because the backup then is the branch
  (`BaseSync.LosesExactlyWhenBackedUpOntoItself`).
- An operation can end without a completion event exactly when a log that events
  can fill leaves too little room for the failure record of its ID
  (`OperationEntryEnding.EndsSilentlyExactly`), which takes an ID too long for the
  completion reserve.
- `PrepareWarm` resets a spare while it holds the pool lock and does not ask for
  hooks to be disabled, as `ClaimWarm` does. A hook of that reset that prepares a
  spare of the same pool waits for its own ancestor
  (`WorktreeDeadlock.PreparingUnderResetDeadlocks`); together with hooks that
  re-enter inside a scope this is all that can deadlock (`DeadlocksExactly`).

Assumptions. Comparisons of normalized paths are a given canonical equality. Git
answers ancestry truthfully, lists a conflict-free set of refs, and its native
users leave backup refs and a spare's own lock alone. The administrative directory
of a registration is not reused while a process still remembers it. A Git child
dies with its kwt process. A hub has a reservation source, as the daemon gives it
one.

`dafny verify dfyconfig.toml` checks the whole project.

## Model

| member | source | states |
|---|---|---|
| OperationStream.AcceptedExactly | service/operation.go:67-127 | feeding a whole sequence of events to a validator succeeds if and only if the events carry its operation ID, are numbered consecutively from its cursor (in uint64), are well shaped, and nothing follows a completion |
| OperationStream.OperationStreamValidator.Accept | service/operation.go:67-85 | an accepted event moves the cursor exactly as the value model says; a refused one changes nothing |
| OperationStream.RunStep | service/operation.go:67-85 | a stream is well formed exactly when its first event is admitted and the rest is well formed after it |
| OperationEntries.Normalize | internal/daemon/operation.go:102-147 | whatever options a caller passes, the normalized ones are positive and leave room for two events; every usable value is kept, and none at all gives the defaults |
| OperationEntryInvariant.NewEntryInv | internal/daemon/operation.go:231-268 | a new entry satisfies the log, queue, timer and prompt invariant |
| OperationEntryInvariant.FireInv | internal/daemon/operation.go:557-569 | a firing loss timer, stale or current, keeps the invariant |
| OperationEntryInvariant.DeliverKeeps | internal/daemon/operation.go:726-742 | delivering an event evicts an attached subscription exactly when its queue has no room, one place kept for prompts and completions; what it received plus what is queued stays a piece of the log, and no channel is closed or sent to twice |
| OperationEntryInvariant.DeliverAllKeeps | internal/daemon/operation.go:722-744 | the same for every subscription at once |
| OperationEntryInvariant.RetainLog | internal/daemon/operation.go:619-623 | retaining an event that passed the capacity tests keeps numbering, byte accounting, capacity and the completion-at-the-end rule |
| OperationEntryInvariant.MarkTerminalMid | internal/daemon/operation.go:704-720 | ending an entry closes the attached queues once, drops the prompt and the timer and keeps the invariant |
| OperationEntryInvariant.TerminateCapacityInv | internal/daemon/operation.go:633-657 | ending for want of room keeps the invariant and records the failure exactly when the record fits what is left of MaxBytes |
| OperationEntryInvariant.AppendInv | internal/daemon/operation.go:572-623 | appending, rejecting or terminating keeps the invariant; an appended event is the last of the log and only a completion may use the reserve |
| OperationEntrySteps.PublishInv | internal/daemon/operation.go:678-686 | after the three-level fallback of publishing a completion either the log ends with one or the entry has ended and satisfies the invariant; FinishExactly says which completion |
| OperationEntrySteps.FinishInv | internal/daemon/operation.go:659-689 | finishing a worker leaves a terminal entry that satisfies the invariant |
| OperationEntrySteps.DrainInv | internal/daemon/operation.go:433-450 | cancelling one entry for the drain leaves it terminal and satisfies the invariant |
| OperationEntrySteps.ReplayExactly | internal/daemon/operation.go:495-500 | filtering the log by sequence number is dropping the first `after` events |
| OperationEntrySteps.SendAllFits | internal/daemon/operation.go:501-505 | the replay fits the queue it is made for, so sending it under the lock cannot block |
| OperationEntrySteps.SubscribeInv | internal/daemon/operation.go:501-520 | subscribing adds one subscription with all events after the cursor queued and room for as many more as configured, stops the loss timer even when Stop loses the race, and keeps the invariant |
| OperationEntrySteps.UnsubscribeInv | internal/daemon/operation.go:533-551 | closing a subscription, evicted or not, keeps the invariant and the counters |
| OperationEntrySteps.UnsubscribeExactly | internal/daemon/operation.go:533-551 | it detaches that subscription alone, leaves its queue to be drained, and starts a loss timer when nobody is left |
| OperationEntrySteps.RespondInv | internal/daemon/operation.go:383-408 | a response is accepted exactly by the current prompt it is addressed to, if that has none yet; it goes into its empty slot and changes nothing else |
| OperationEntrySteps.StepInv | internal/daemon/operation.go:302-744 | every locked region, channel receive and timer callback keeps the entry invariant |
| OperationEntryProgress.StepProgress | internal/daemon/operation.go:302-744 | in every step the log only grows, a terminal log never changes, identity and prompts persist with their responses, and what a consumer received only grows |
| OperationEntryProgress.StepAccounting | internal/daemon/operation.go:302-744 | what each step does to worker state, subscription count and reservation, as the hub counters need it |
| OperationEntryExactness.AppendExactly | internal/daemon/operation.go:572-631 | an event is appended, numbered and counted, exactly when its result is valid JSON, it marshals, its charge and length fit what is left (less the reserve unless it is a completion), a place is left for it and its payload is well shaped; the operation is ended for want of room exactly when it does not fit; otherwise nothing changes |
| OperationEntryExactness.FinishExactly | internal/daemon/operation.go:659-689 | a finished operation has the completion of its worker in its log whenever that can be appended; the fallback is there only when it is refused for another reason than its length, and the fixed record, if it fits, in every other case |
| OperationEntryExactness.DrainExactly | internal/daemon/operation.go:433-450 | draining appends the record of the deadline exactly when it fits and nothing else, and ends the operation at that moment |
| OperationEntryExactness.AskExactly | internal/daemon/operation.go:339-372 | a prompt is published exactly when the operation runs, none is open and its event can be appended; it then is the current one, without a response |
| OperationEntryExactness.RecordsAreSized | internal/daemon/operation.go:633-656 | the fixed failure records have the length of their JSON text |
| OperationEntryExactness.RecordsAreCharged | internal/daemon/operation_event.go:51-75 | and are charged for the literals in them |
| OperationEntryExactness.FireExactly | internal/daemon/operation.go:557-569 | a timer callback cancels exactly when it holds the current token and finds the operation retained, running and without subscribers |
| OperationHubModel.PrunedKeeps | internal/daemon/operation.go:746-778 | pruning removes no running operation and none whose worker is still active |
| OperationHubModel.PrunedExactly | internal/daemon/operation.go:746-778 | pruning drops every operation past its retention and none that has not ended or whose worker is still there; all others stay unless more have ended than may be kept |
| OperationHubModel.PrunedOldest | internal/daemon/operation.go:757-778 | what is dropped within its retention is the oldest, down to the number that may be kept or until only worker-held operations remain |
| OperationHubModel.StartInv | internal/daemon/operation.go:220-268 | accepting an operation keeps the counters, caps and index of the hub |
| OperationHubModel.StepNextInv | internal/daemon/operation.go:283-744 | a step of one entry keeps them, with the pruning that the step causes |
| OperationHubModel.DrainNextInv | internal/daemon/operation.go:433-450 | cancelling every active operation keeps them although pruning deletes from the iterated map |
| OperationHubModel.NextInv | internal/daemon/operation.go:149-778 | every action of the hub keeps the hub invariant |
| OperationHubRuns.RunInv | internal/daemon/operation.go:149-778 | every state of every run satisfies it |
| OperationHubRuns.RunEvolves | internal/daemon/operation.go:149-778 | between any two states of a run, each entry evolves monotonically |
| OperationHubRuns.SubscriberRefinement | internal/daemon/operation.go:452-521 | what a consumer received followed by what is queued for it is a contiguous piece of the log from its cursor, and all of it while the subscription is attached |
| OperationHubRuns.ReceivedFromFinalLog | internal/daemon/operation.go:452-521 | no later state contradicts what a consumer received: it is a piece of the log every later state retains |
| OperationHubRuns.NothingEvicted | internal/daemon/operation.go:476-484 | the answer that events are no longer retained is unreachable for every cursor Subscribe accepts |
| OperationHubRuns.ChannelDiscipline | internal/daemon/operation.go:351-407 | no channel is closed twice or sent to after close, no send under the hub lock can block, and a completely full open queue ends with a prompt |
| OperationHubRuns.EvictedOnlyWhenFull | internal/daemon/operation.go:722-744 | between two states a subscription is detached only by its own Close or when its queue had no room for an ordinary event |
| OperationHubRuns.NoOrphan | internal/daemon/operation.go:553-570 | every operation that has not ended has an attached subscriber, an outstanding loss timer with the current token, or a cancelled context |
| OperationHubRuns.NoStaleCancel | internal/daemon/operation.go:553-570 | a loss timer cancels only when nobody was attached at any time between its scheduling and its firing, even if Stop loses the race |
| OperationHubRuns.LogBounds | internal/daemon/operation.go:572-631 | in every state numbering is consecutive from one, eventBytes is the sum of retained lengths, and the event and byte limits hold, with the completion reserve kept free until the end |
| OperationHubRuns.StreamNeverExhausted | internal/daemon/operation_client.go:121-132 | with the default options everything one subscription is ever sent, one newline per event, stays below the stream limit of the client |
| OperationHubRuns.OneTerminalEvent | internal/daemon/operation.go:572-720 | a log has at most one completion, as its last event and only when the operation has ended; exactly one if the failure record fits the reserve; and a terminal log never changes |
| OperationHubRuns.DrainRecordedIff | internal/daemon/operation.go:433-450 | draining records a completion if and only if the record still fits |
| OperationEntryEnding.EndsSilentlyExactly | internal/daemon/operation.go:572-657 | for all options and IDs, something can happen to an operation after which it has ended without a completion exactly when some log that events can fill below the reserve, with the sizes their encodings have, leaves too little of MaxBytes for the failure record of its ID at the next sequence number |
| OperationEntryEnding.RecordFitsNeverRunsOut | internal/daemon/operation.go:625-631 | no log leaves too little room when the record at the highest sequence number fits the reserve |
| OperationEntryEnding.FramesAreSized | service/operation.go:24-41 | the frames that event sizes are built from have the length of their JSON text |
| OperationEntryEnding.FilledRun | internal/daemon/operation.go:572-631 | every total that n encodings can add up to below the reserve is the length of the log of some run |
| OperationHubRuns.TinyLogHasNoCompletion | internal/daemon/operation.go:625-657 | the condition is needed: with a 100-byte log an operation ends without any completion |
| OperationHubRuns.DefaultReserveSuffices | internal/daemon/operation.go:625-631 | with the default options the reserve suffices for every ID up to 16 KiB less the fixed text |
| OperationHubRuns.OnePromptAtATime | internal/daemon/operation.go:325-408 | at most one prompt is awaited per operation and each receives at most one response, addressed to it |
| OperationHubRuns.ResponseIsTheAcceptedOne | internal/daemon/operation.go:325-408 | what the worker behind a prompt receives is the very response, value included, that the prompt accepted as the current one, and it is never lost or replaced |
| OperationHubRuns.Accounting | internal/daemon/operation.go:149-296 | the counters equal the live workers and counted subscriptions, within their caps; an ID has at most one live worker, and it is retained |
| OperationHubRuns.RetainedAreCapped | internal/daemon/operation.go:746-778 | in every state no more ended operations are retained than configured, unless all of them are held by their workers |
| OperationHubRuns.DrainEndsEverything | internal/daemon/operation.go:433-450 | after CancelActiveForDrain every operation ever started has ended |
| OperationEntryObjects.OperationEntry.DispatchLocked | internal/daemon/operation.go:722-744 | the loop over the subscriber map, in any order, has the effect of Dispatch |
| OperationEntryObjects.OperationEntry.EndLocked | internal/daemon/operation.go:704-720 | the in-place ending of an entry is MarkTerminal |
| OperationEntryObjects.OperationEntry.AttachLocked | internal/daemon/operation.go:495-520 | replaying into a new queue and attaching it is Subscribe |
| OperationEntryObjects.CollectReplay | internal/daemon/operation.go:495-500 | the replay loop collects exactly the retained events after the cursor, in order |
| OperationHubs.OperationHub.constructor | internal/daemon/operation.go:102-147 | a new hub is in the initial state, with normalized options |
| OperationHubs.OperationHub.OldestCompleted | internal/daemon/operation.go:757-775 | one pass over the map, in any order, counts the completed operations and finds an oldest one whose worker is gone |
| OperationHubs.OperationHub.PruneCompletedLocked | internal/daemon/operation.go:757-778 | the pruning loop terminates having dropped oldest first down to the cap or until only worker-held operations remain |
| OperationHubs.OperationHub.PruneLocked | internal/daemon/operation.go:746-755 | expiry followed by the cap is the pruning action: an operation past its retention goes, one that runs or whose worker is there stays, and so does every other one while no more have ended than may be kept |
| OperationHubs.OperationHub.AppendLocked | internal/daemon/operation.go:572-623 | appendLocked on objects is Append on values |
| OperationHubs.OperationHub.Admission | internal/daemon/operation.go:184-231 | which of the eight answers Start gives, in the order of its checks |
| OperationHubs.OperationHub.Start | internal/daemon/operation.go:180-268 | one attempt of Start is the pruning action or the start action, and which of the eight answers it gives when; a retained ID within its retention is found again, and a new operation has the ID, digest and reservation given |
| OperationHubs.OperationHub.Emit | internal/daemon/operation.go:310-323 | Progress and Warning are hub actions that append the event exactly when it is well formed and fits, and are refused once the operation has ended |
| OperationHubs.OperationHub.Prompt | internal/daemon/operation.go:339-364 | opening a prompt, with its cleanup when publishing fails, is a hub action; it succeeds exactly when none is open and the event can be appended |
| OperationHubs.OperationHub.EndPrompt | internal/daemon/operation.go:366-372 | the deferred cleanup is a hub action |
| OperationHubs.OperationHub.Finish | internal/daemon/operation.go:659-689 | finish is a hub action; the log ends with the completion of the worker whenever that can be appended, otherwise with the fallback or the fixed record as FinishExactly says |
| OperationHubs.OperationHub.ReleasedWorker | internal/daemon/operation.go:283-289 | recording that the reservation was released is a hub action |
| OperationHubs.OperationHub.ReleaseWorker | internal/daemon/operation.go:290-295 | the last region of a worker is a hub action that prunes like PruneLocked |
| OperationHubs.OperationHub.Respond | internal/daemon/operation.go:383-408 | Respond is a hub action that succeeds exactly when the current prompt has the ID addressed and no response yet; a malformed response or unknown ID changes nothing |
| OperationHubs.OperationHub.Cancel | internal/daemon/operation.go:410-421 | Cancel is a hub action that cancels the context of a retained operation, or changes nothing |
| OperationHubs.OperationHub.BeginDrain | internal/daemon/operation.go:423-431 | only the first BeginDrain sets the deadline |
| OperationHubs.OperationHub.Subscribe | internal/daemon/operation.go:452-521 | which answer Subscribe gives exactly when, and the hub action behind it; an operation within its retention is not unknown while no more have ended than may be kept, and success attaches a queue with every event after the cursor |
| OperationHubs.OperationHub.RemoveSubscriber | internal/daemon/operation.go:527-551 | closing a subscription is a hub action that detaches it, closes its queue and starts a loss timer when nobody is left |
| OperationHubs.OperationHub.LossTimerFired | internal/daemon/operation.go:557-569 | the timer callback is a hub action that cancels exactly as FireExactly says |
| OperationHubs.OperationHub.CancelActiveForDrain | internal/daemon/operation.go:433-450 | the drain loop, with pruning deleting from the map it iterates, is the drain action, and every operation that was retained has ended after it |
| Gates.GateRuns | internal/daemon/gate.go:54-138 | over any run, with releases repeated at will, the counters equal the live reservations of each kind, a waiter whose channel is still open has seen the current state, the first drain deadline stays, and once draining is released nothing is reserved again |
| Gates.ReleaseTwice | internal/daemon/gate.go:93-110 | releasing twice is releasing once |
| Gates.ReleaseInv | internal/daemon/gate.go:93-110 | a release of any number, live or not, keeps the counters exact |
| Gates.Gate.Reserve | internal/daemon/gate.go:69-111 | a reservation is refused exactly while draining; otherwise it is new, counted under its kind and moves activity forward |
| Gates.Gate.Release | internal/daemon/gate.go:94-110 | the returned closure drops that reservation alone and keeps the counters exact, however often it is called |
| Gates.Gate.BeginDrain | internal/daemon/gate.go:113-122 | only the first call sets the deadline |
| Gates.WaitForDrain | internal/daemon/gate.go:147-172 | released exactly at the first inspected state that was draining with nothing reserved, deadline exactly when it had passed or its timer fired first, cancelled exactly otherwise when the context ended |
| Gates.WaitForRelease | internal/daemon/gate.go:174-189 | the wait returns true exactly at the first inspected state with nothing reserved |
| Gates.Gate.Touch | internal/daemon/gate.go:59-67 | activity moves only forward, never while draining, and wakes the waiters |
| Draining.AwaitDrain | internal/daemon/gate.go:147-172 | the drain wait over the states of a daemon run returns released exactly when it saw the gate released, and from then on every operation has ended and nothing follows |
| Draining.DaemonNextInv | internal/daemon/host.go:171-176 | gate and hub together: a worker that has not released its reservation holds a live one of its own |
| Draining.DrainSoundness | internal/daemon/host.go:357-366 | when the drain wait reports released, every operation ever accepted has returned its worker and ended, for good, and no operation or reservation follows |
| OperationClient.DecodeLoop | internal/daemon/operation_client.go:117-227 | the decode loop is the recursive description of following a stream, which FollowExactly characterises |
| OperationDelivery.ConnectionShape | internal/daemon/operation_client.go:63-228 | one attempt over any connection to a log, failed requests included, hands out consecutive events right after its cursor, acknowledges all of them or all but a last one it was interrupted on, answers increasing prompts no further than that, and completes only with the result of a completion it handed out |
| OperationDelivery.FollowExactly | internal/daemon/operation_client.go:117-227 | over a piece of a log an attempt hands out the events up to the first that does not go on, answers exactly the prompts whose callback has an answer, and ends as that last event, its failure and the errors of its callbacks say |
| OperationDelivery.StopsShortExactly | internal/daemon/operation_client.go:123-227 | an attempt is interrupted without acknowledging its last event exactly when the client gives up on an event the connection carries: all events before it went on, and its callback error, or its prompt handler error, wraps the interruption error |
| OperationClient.FollowOperation | internal/daemon/operation_client.go:26-61 | the two-attempt loop is the description that ExactlyOnce and AnswerExactly are about; an empty ID is refused |
| OperationDelivery.FollowLog | internal/daemon/operation_client.go:123-227 | one attempt over a log hands out consecutive events from the cursor, acknowledges all of them or all but the last, answers increasing prompts, and succeeds only at a completion |
| OperationDelivery.ExactlyOnce | internal/daemon/operation_client.go:26-228 | over both attempts the events handed out are a gap-free, duplicate-free run of the log right after the cursor unless the first connection carries an event the client gives up on with an error that wraps the interruption error, the caller has not cancelled, and the second connection carries an event; then, and only then, that one event is handed out twice. Each prompt is answered at most once; success returns the result of the final completion |
| OperationDelivery.AnswerExactly | internal/daemon/operation_client.go:41-67 | success is exactly a last event that is a completion without a failure, taken by its callback without an error, and has its result; a callback error brings the result back with it; a completion is handed out exactly when a connection carries it and every event before it goes on, the second one being used exactly when the first is lost and the caller has not cancelled |
| OperationDelivery.AcrossReusedId | internal/daemon/operation_client.go:26-228 | when the ID was started again between the attempts the callbacks see a piece of the first log followed by a piece of the second from the acknowledged number, and success returns the result of the log whose completion was handed out |
| OperationDelivery.PlainCallbacksSeeEachEventOnce | internal/daemon/operation_client.go:26-228 | without such callback errors delivery is exactly once |
| OperationDelivery.RetriedPromptIsSeenTwice | internal/daemon/operation_client.go:190-205 | the exception is real: a prompt handler that gives up with the interruption error sees its prompt again |
| OperationEndToEnd.RetainedIsLog | internal/daemon/operation.go:572-623 | the retained events of any entry of any run form a log in the client sense |
| OperationEndToEnd.ReadFromLog | internal/daemon/operation_http.go:97-118 | what a connection carries before it is cut is a piece of the final log after its cursor |
| OperationEndToEnd.EndToEndDelivery | internal/daemon/operation_client.go:26-228 | hub and client together: whatever is evicted, cut, retried or answered, the callbacks see the operation log exactly once but for the one repetition of ExactlyOnce, decided by connections and callbacks, which hands out the event just after the acknowledged ones a second time; a nil error means the result of its final completion |
| OperationEndToEnd.EndToEndAcrossRestart | internal/daemon/operation_client.go:26-228 | the same for two operations under one ID, the second started after the first was pruned |
| ByteEncoding.UvarintDecodes | internal/config/project_fingerprint.go:261-266 | a varint length is followed by nothing that could be read as part of it |
| ByteEncoding.TextDecodes | internal/config/project_fingerprint.go:257-266 | a length-prefixed string tells where it ends and what it was |
| ByteEncoding.WordDecodes | internal/config/project_fingerprint.go:268-273 | so does an eight-byte big-endian word, which loses nothing below 2^64 |
| ByteEncoding.WordReads | internal/config/project_fingerprint.go:268-273 | a word is its number in eight bytes, most significant first |
| ByteEncoding.UvarintReads | internal/config/project_fingerprint.go:261-264 | a varint reads back as its number, seven bits a byte, least significant first, the top bit on all bytes but the last |
| ByteEncoding.FlagDecodes | internal/config/project_fingerprint.go:249-255 | so does a boolean byte |
| ByteEncoding.UnsignedInjective | internal/config/project_fingerprint.go:171-173 | converting a signed 64-bit integer to unsigned loses nothing |
| FingerprintTypes.NamesDiffer | internal/config/project_fingerprint.go:216-220 | two of the types an entry is built from have the same name only if they are the same |
| FingerprintTypes.HeaderDecodes | internal/config/project_fingerprint.go:216-220 | the type header determines the type and where the header ends |
| FingerprintValues.SortedKeys | internal/config/project_fingerprint.go:196-199 | the keys of a map in strictly ascending order: all of them, once |
| FingerprintExact.SameEncodesEqually | internal/config/project_fingerprint.go:76-128 | values the comparison takes for the same get the same bytes, or fail alike |
| FingerprintExact.EncodingDecodes | internal/config/project_fingerprint.go:134-214 | two encodings that agree, whatever follows, are of values the comparison takes for the same |
| FingerprintExact.PreimageExact | internal/config/project_fingerprint.go:34-49 | entries that can be fingerprinted have equal pre-images exactly when they are equal, where the stamps decide the times inside, on entries without times in particular; the comparison is that equality |
| FingerprintExact.PreimageShows | internal/config/project_fingerprint.go:34-49 | on all entries that can be fingerprinted, equal pre-images mean entries equal but for what a time.Time has besides the fields writeTime reads, and conversely |
| FingerprintExact.SameMeansEqual | internal/config/project_fingerprint.go:76-128 | the comparison, a recursion over kinds, is equality of the entries, float bit patterns included, except that functions equal nothing unless nil |
| FingerprintExact.SameMeansShown | internal/config/project_fingerprint.go:76-128 | with times compared by their stamps it is equality of what the stamps leave |
| FingerprintExact.EncodingReads | internal/config/project_fingerprint.go:134-214 | after the header of its type an encoding holds a flag in one byte, a number in one word, a length before a string or list, a nil flag before lists and maps, and the least key first |
| FingerprintExact.KnownHeaders | internal/config/project_fingerprint.go:216-220 | package path, name and kind number of the types entries are made of |
| FingerprintExact.StampReads | internal/config/project_fingerprint.go:222-233 | where each field of a time, its zone name and its offset stand |
| FingerprintExact.LocalReads | internal/config/project_fingerprint.go:235-247 | where each field of a local date and time stands |
| FingerprintEncoder.ProjectFingerprintEncoder.WriteTime | internal/config/project_fingerprint.go:222-233 | the writer of times appends their seven fields, the zone name and the offset |
| FingerprintExact.EncodeFailsExactly | internal/config/project_fingerprint.go:134-214 | fingerprinting fails if and only if a function or a nil interface value occurs somewhere inside the entry |
| FingerprintExact.WrappingIsInvisible | internal/config/project_fingerprint.go:135-140 | the bytes do not show an interface wrapped around a value while the comparison does; reflect.ValueOf never yields one at the top |
| FingerprintExact.SameReflexive | internal/config/project_fingerprint.go:65-75 | every entry without functions is the same as itself, NaN bit patterns included |
| FingerprintEncoder.ProjectFingerprintEncoder.WriteValue | internal/config/project_fingerprint.go:134-214 | the recursive writer appends exactly the encoding, or reports failure exactly when there is none |
| FingerprintEncoder.ProjectFingerprintEncoder.WriteString | internal/config/project_fingerprint.go:257-266 | the writer of strings appends the length-prefixed bytes |
| FingerprintEncoder.ProjectFingerprintEncoder.WriteUint64 | internal/config/project_fingerprint.go:268-273 | the writer of words appends the big-endian bytes |
| FingerprintEncoder.PutUvarint | internal/config/project_fingerprint.go:261-264 | the varint loop fits ten bytes and writes the varint |
| FingerprintEncoder.SortKeys | internal/config/project_fingerprint.go:196-199 | sorting the keys of a map, handed over in any order, gives the one ascending listing |
| FingerprintEncoder.SortedUnique | internal/config/project_fingerprint.go:196-199 | a set of keys has only one strictly ascending listing, so map iteration order cannot show |
| FingerprintEncoder.Fingerprint | internal/config/project_fingerprint.go:34-47 | Fingerprint up to the hash is the pre-image, or an error exactly when there is none |
| ProjectRegistry.GlobalConfig.CompareAndSwapProject | internal/config/config.go:882-946 | the list changes exactly when one raw entry equals the expected one and, for a replacement, no other entry has its path; then only that entry is replaced or removed |
| ProjectRegistry.UpdateRawProject | internal/config/config.go:1141-1148 | an update yields a non-nil entry with the four known settings as given and every other one as it was |
| ProjectRegistry.UpdateKeepsSame | internal/config/config.go:1141-1148 | entries that are the same are still the same after the same update |
| ProjectRegistry.StoredEntryHasPredictedFingerprint | internal/config/config.go:785-789 | the fingerprint predicted from the caller copy is the one of the entry a successful swap stores, and every other entry is untouched |
| ProjectRegistry.SameSymmetric | internal/config/project_fingerprint.go:76-128 | the comparison is symmetric |
| ProjectRegistry.SameTransitive | internal/config/project_fingerprint.go:76-128 | the comparison is transitive |
| ProjectRegistry.TokenIsSpent | internal/config/config.go:915-936 | after a successful swap the same expectation succeeds again if and only if the replacement put an equal entry back |
| ProjectRegistry.SwapKeepsPathsDistinct | internal/config/config.go:924-935 | if no two registrations share a path before a swap, none do after |
| Utf8.DecodeEncoded | internal/daemon/operation_event.go:177 | decoding a rune undoes its UTF-8 encoding (section 3 of RFC 3629), whatever follows |
| Utf8.DecodedIsEncoded | internal/daemon/operation_event.go:177-184 | every sequence the grammar of section 4 of RFC 3629 accepts encodes the scalar value decoded from it |
| JsonBudget.Budget.ConsumeBytes | internal/daemon/operation_event.go:193-199 | the budget is charged exactly when it suffices |
| JsonBudget.Budget.ConsumeString | internal/daemon/operation_event.go:156-191 | for every byte string, valid UTF-8 or not, succeeds if and only if the string literal fits the budget, and then charges exactly its length |
| JsonBudget.ChargeHead | internal/daemon/operation_event.go:160-188 | the width the loop charges for one rune is the length of its escape, and the rest costs what remains |
| JsonBudget.LiteralRoundTrip | internal/daemon/operation_event.go:156-191 | reading the literal by section 7 of RFC 8259 gives the string back, with U+FFFD for each byte outside UTF-8 |
| JsonBudget.LiteralIsHtmlSafe | internal/daemon/operation_event.go:164-172 | the literal holds no control character and no <, > or & |
| JsonBudget.LiteralIsShortest | internal/daemon/operation_event.go:156-191 | for a UTF-8 string no text that reads back as it, without <, >, & and the two separators left as they are, is shorter than the literal charged for |
| JsonBudget.LiteralIsTame | internal/daemon/operation_event.go:164-186 | the literal leaves none of those as they are |
| JsonBudget.StrayByteTakesSix | internal/daemon/operation_event.go:177-180 | a byte outside UTF-8 is charged as the six bytes of an escaped U+FFFD |
| JsonBudget.SanitizedExactly | internal/daemon/operation_event.go:177-180 | what comes through is always UTF-8, and is the string itself if and only if the string was UTF-8 |
| RefNames.PrefixExactly | worktree/branch.go:51-62 | the string test with a slash appended is component-wise prefixing, in both directions |
| BranchNames.BranchAvailable | worktree/branch.go:51-62 | available exactly when no ref is comparable to the branch; the flag tells whether the first ref in the way stands above it |
| BranchNames.AncestorExactly | worktree/branch.go:51-62 | on a conflict-free set, in any order, the flag says whether some ref stands above the branch |
| BranchNames.OrderIndependent | worktree/branch.go:51-62 | availability and the existence of an ancestor do not depend on the order of the refs |
| BranchNames.OrderMattersUnderConflicts | worktree/branch.go:51-62 | on a set with conflicts the flag does depend on the order |
| BranchNames.CreationKeepsConflictFree | worktree/branch.go:51-62 | adding a branch keeps the set conflict-free if and only if it was available |
| BranchNames.SelectBranch | worktree/branch.go:64-100 | the start range error, invalid names and the exhausted search occur exactly as stated; success is the first available renaming, suffixes in order and for each one components from the last upwards (only the last without an ancestor conflict), everything tried before it being taken; on a branch listing with distinct slash-free suffixes the search is exhausted only if no more suffixes are left than there are branches |
| BranchNames.Candidates | worktree/branch.go:82-90 | the candidates for one suffix are the last component renamed and then, under an ancestor conflict, the ones above it, upwards |
| BranchNames.LastRenamed | worktree/branch.go:82 | appending the suffix to the branch is renaming its last component |
| BranchNames.OnlyRenamesAboveHelp | worktree/branch.go:83-90 | under an ancestor conflict only a rename at or above the conflicting component can be available |
| BranchNames.SearchRunsOut | worktree/branch.go:75-99 | the bound SelectBranch gives, for the ancestor flag the search computes from the order of the listing |
| BranchNames.EnoughSuffixesSucceed | worktree/branch.go:75-99 | the same bound for the ancestor flag as a property of the set of refs: each suffix needs a branch of its own in the way |
| BaseSync.Repository.SyncBase | worktree/base.go:20-93 | SyncBase, command by command with native Git acting in between, performs the run that SwapsExactly and StopsEarly characterise |
| BaseSync.SyncWritesSafely | worktree/base.go:33-76 | every branch write creates an absent branch, fast-forwards the tip it replaces, or rewinds it while a backup ref holds that tip; the backup write overwrites nothing |
| BaseSync.ChecksOutBeforeWriting | worktree/base.go:18-76 | no branch seen checked out is rewritten: every write but a backup sets the branch, is the last one, and follows a listing of the worktrees that succeeded and did not show it |
| BaseSync.SwapsExactly | worktree/base.go:20-93 | a sync that gets as far as its compare-and-swap writes the branch exactly when it finds the tip it read; a lost one is an error unless the branch is checked out by then or, where it was absent, a conflicting one exists |
| BaseSync.StopsEarly | worktree/base.go:20-71 | a sync that does not get that far returns no error exactly when there is no source, nothing to follow, no permission to rewind or a checked-out branch, and no command failed before that was clear |
| BaseSync.WritesNothingEarly | worktree/base.go:20-71 | and writes nothing but the backup of a branch then found checked out |
| BaseSync.SyncLosesNothing | worktree/base.go:33-76 | unless the branch is its own backup ref, every commit reachable before a write is reachable after it |
| BaseSync.LosesExactlyWhenBackedUpOntoItself | worktree/base.go:51-66 | some run loses history if and only if backups are made and the ref of the branch is the backup prefix followed by an object ID |
| BaseSync.QuietSyncSettles | worktree/base.go:20-80 | undisturbed, the branch ends at the source unless it diverged and may not be rewound or is checked out, which is no error, and syncing again changes nothing |
| WorktreeInvariant.LockStep | worktree/lock.go:78-102 | every step keeps each lock held by exactly the process whose state says so |
| WorktreeInvariant.FenceStep | worktree/reservation.go:21-92 | every step keeps the record of a reservation, what scopes learnt about it and the absence of an identity in its checkout |
| WorktreeInvariant.SpareStep | worktree/warm.go:39-148 | every step keeps what the preparation and claim of spares rely on |
| WorktreeInvariant.StepInv | worktree/lock.go:34-102 | all of it survives every step, crashes included |
| WorktreeRuns.RecordHasOneWriter | worktree/reservation.go:21-49 | only the holder of the creation lock writes or deletes the record |
| WorktreeRuns.NoneMeansNone | worktree/lock.go:53-70 | a scope that was told nothing is reserved is right |
| WorktreeRuns.NoneStartsWhileHeld | worktree/create.go:214-223 | and stays right until it unlocks, looks again or dies: no re-entrant creation starts meanwhile |
| WorktreeRuns.PathWasReserved | worktree/lock.go:71-76 | a scope that was told a path was told one that a process had reserved at the moment the lock was tried |
| WorktreeRuns.CreationIdentifiesFirst | worktree/identity.go:50-101 | a successful re-entrant creation is the first to write the identity of the checkout it made |
| WorktreeRuns.RegistrationsContinue | worktree/identity.go:50-101 | every registration after a step is new and blank or comes from one with its number: an identity stays once written, only the process taking the step writes one, the marker changes only in a preparation, and only a claim moves it |
| WorktreeRuns.RegistrationsGoRightly | worktree/remove.go:223-310 | kwt takes away a registration only by removing or pruning it in a scope that saw no creation, by dropping a missing spare, or by an admitted claim, and never one under a foreign lock |
| WorktreeRuns.ReadyMeansReset | worktree/warm.go:125-147 | a spare marked ready has been reset completely: that very registration, by an earlier step of the run unless it was reset before |
| WorktreeRuns.ResetIsUndisturbed | worktree/warm.go:119-127 | while a reset runs outside the repository lock its process holds the pool lock, the spare says preparing and is natively locked, and no step of anyone else changes that or removes, moves or replaces it |
| WorktreeRuns.PublicationIsSound | worktree/warm.go:128-147 | what a preparation publishes is the registration it prepared: reset and unassigned |
| WorktreeRuns.ClaimsHaveEvidence | worktree/warm.go:299-316 | every admitted claim saw a ready, reset, unassigned, detached spare, saw it unlocked and saw it clean, and it still is ready, reset and unassigned if it is still there |
| WorktreeDeadlock.NoCircularWait | worktree/lock.go:53-102 | in no reachable state do processes wait for each other in a circle, hook children of creations and of resets that re-enter included, as long as hooks inside a scope do not re-enter and no descendant of a reset prepares a spare |
| WorktreeDeadlock.DeadlocksExactly | worktree/warm.go:34-50 | a circle of waiting processes is reachable if and only if hooks inside a scope re-enter or descendants of a reset may prepare spares |
| WorktreeDeadlock.PreparingUnderResetDeadlocks | worktree/warm.go:123-127 | a hook of the reset that prepares a spare of the same pool waits for the pool lock of its own process, and nobody can move |
| WorktreeDeadlock.EveryoneCanFinish | worktree/lock.go:53-102 | from every reachable state there is a continuation to a state where everyone is at rest, in which nobody crashes and nobody gives up waiting |
| WorktreeDeadlock.SomeoneCanMove | worktree/lock.go:53-102 | while anyone is busy, some busy process waits for nobody and can take its next step; giving up a wait does not count |
| WorktreeDeadlock.WaitingDescends | worktree/warm.go:36-50 | waiting leads from pool to repository lock and never back |
| WorktreeDeadlock.ReentryUnderScopeDeadlocks | worktree/warm.go:285-290 | a hook that re-enters kwt inside a scope waits for the lock of that scope, and nobody can move |
| WorktreeMachine.Machine.ActiveCreation | worktree/lock.go:53-76 | the try-lock sequence, with others acting in between, reports none only when nobody reserves; left alone it reports the recorded path exactly when the lock is taken |
| WorktreeMachine.Machine.Release | worktree/reservation.go:39-49 | release gives the lock back whether or not the record could be removed |
| WorktreeMachine.Machine.CreateReentrant | worktree/reservation.go:51-92 | the operation takes only steps of the protocol, ends holding nothing, and success means it wrote the identity; left alone it refuses at once while another creation is reserved, fails on a path in use, and otherwise leaves just the identified checkout |
| WorktreeMachine.Machine.PrepareWarm | worktree/warm.go:39-148 | the operation takes only steps of the protocol, ends holding neither lock, and success means it published the spare; left alone, on the fields of what is registered: a checkout that is no interrupted spare is left alone without an error, an interrupted one under a foreign lock and a missing one that is locked so or shows no sign of a spare are refused, and otherwise a ready, unlocked, reset spare is left |
| WorktreeMachine.Machine.ClaimWarm | worktree/warm.go:269-393 | the operation takes only steps of the protocol, ends holding nothing, and a claim means it moved the spare it admitted; left alone it claims exactly the ready, unassigned, detached, unlocked and clean spares |

## Left out

- HTTP handling, JSON decoding, TOML loading and saving, process launch, tmux, SSH and commands: plumbing over libraries not modelled here. A connection delivers a prefix of what a subscription's consumer received and is then cut.
- SHA-256: fingerprint results are about the bytes it is applied to.
- FingerprintValues.Value: struct types other than time.Time and the three local date and time types, typed strings and maps with other key types are not modelled; what the encoder refuses is represented by functions and nil interfaces.
- consumeJSONValue: a cheap pre-check of nested details whose charge is a parameter of an event draft here; the length comparison in encodeRetainedOperationEvent decides.
- OperationHubs.OperationHub.Start: one attempt; the loop that draws up to four generated IDs, the character check of IDs and the empty-digest error are not modelled.
- OperationHubs.OperationHub.Finish: the descriptor made from a worker error is a parameter, as is the size of its encoding.
- Subscriptions, channels and prompt states are values inside the entry object: aliasing of channels between goroutines is represented by interleaved steps.
- lossTimerToken and reservationSeq count in unbounded integers; wrapping at 2^64 is not modelled.
- OperationEndToEnd.EndToEndDelivery: both attempts reach the same entry; EndToEndAcrossRestart states what is left when the ID was used again in between.
- Gate.ShouldStopForIdle: a single comparison of the gate fields and the clock.
- WorktreeProtocol.SpareState: a warm request without an identity file skips the identity test; the model always makes it.
- Equality of the hub and gate drain deadlines: the first caller of each wins separately.
- BaseSync.Repository.SyncBase: the scope and reservation checks at its start, which the worktree protocol covers, and context cancellation are not modelled.
- BranchNames.SelectBranch: context cancellation is not modelled; git check-ref-format is a parameter.
- ProjectRegistry.GlobalConfig.CompareAndSwapProject: the file lock and the write of the configuration around it are not modelled.
- RegisterProjectWithIdentity: its search by repository identity does not keep paths unique.
- WorktreeMachine.Machine.CreateReentrant: hook children act in the transition system and its theorems, not in this method; bare-repository configuration and setup are not modelled.
- WorktreeMachine.Machine.ClaimWarm: the checks of the request itself, the checkout of an existing branch before the move, and upstream setup and identity after it are not modelled; a failed checkout discards the spare, a refused move leaves it.
- Removal, pruning and serialized creation are single steps of a scope that has seen no creation; their further conditions only restrict them.
- ValidateWorktreeGeneration, the controller, trust store, settings merge, log rotation, sorting and output formatting: short case analyses that would only add easy members.
