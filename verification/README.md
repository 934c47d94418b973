# KSFAssistant: a verified model of its stateful cores

KSFAssistant connects local Codex tasks with Feishu. Its Go core watches Codex Desktop over
IPC, talks to a Codex App Server process and builds the dashboards; its Swift side
owns the JSON-RPC pipe to that core, the token accounts, the Feishu configuration
session, the migration of older data and the order of the lists.

The model follows the program's own form. Where the program interleaves, there is a
machine whose steps are the program's critical sections (or, for the Feishu session, the code
between two awaits), theorems about every run of that machine, and a class with the
program's fields whose methods are proved to be exactly those steps. Loops that update variables are
methods with loops, each proved against a specification function, and what the program
promises is proved about that function. Expressions are functions. For each operation a second
statement says what it comes to by the fields of its input and state alone, without the functions that compute it.

Where a natural guarantee does not hold, the code is kept as it is, a concrete run
or input shows the failure, and a lemma says when the guarantee does hold.

| part | modules |
|---|---|
| Desktop observation cache, revisions, wake tokens | `Revisions`, `ObservationCache`, `ObservationCacheProofs`, `ActivityClientModel` |
| Coalesced snapshot refreshes | `SnapshotRefresh` |
| IPC waiters | `IpcWaiters`, `IpcWaitersProofs`, `IpcDelivery`, `IpcClientModel` |
| Codex App Server client | `CodexSession`, `CodexSessionProofs`, `CodexEffects`, `CodexClientModel` |
| Async prompts | `AsyncInputs`, `AsyncMeaning` |
| Dashboards | `Observations`, `Threads`, `Grouping`, `ProjectDashboard`, `WorkspaceDashboard`, `Dashboards` |
| JSON-RPC pipe (sections 4 and 5 of the JSON-RPC 2.0 Specification) | `PipeFraming`, `PipeConnection`, `PipeConnectionProofs`, `PipeReader`, `PipeWriter` |
| Token accounting | `TokenSamples`, `TokenDeltas`, `TokenAmounts`, `TokenWindows`, `TokenAccounts`, `ProjectUsage`, `TokenHistory` |
| Identity migration | `DirectoryMerge`, `IdentityMigration` |
| Feishu configuration session | `FeishuSession`, `FeishuAnswers`, `FeishuClient` |
| List order | `StableSort`, `ListOrdering` |

What the code turned out not to guarantee, and exactly when it does:

- An older snapshot replaces a newer cached one exactly when a full read brings it and the cached one has no state
  (`OlderReplaces`, with a run in `MissingStateWitness`). One whose revision is not a decimal numeral also replaces a newer one
  (`UnorderedReplaces`, `UnorderedRevisionWitness`). A full read answers with something older than the cache exactly when
  its entry was replaced meanwhile and what it has is older (`OlderAnswer`, `ReplacedEntryWitness`).
- A broadcast of a task's owner is promised a refresh exactly when no timer of an earlier owner is pending (`ServedExactly`,
  `NewOwnerCanBeDropped`).
- A Codex call registered between a stop and the next start is forgotten (`ForgottenCallWitness`); a start that
  fails late stops the process that replaced its own (`LateInitFailureWitness`); an approval can be cancelled twice
  exactly when a cancellation begins while another one is under way (`CancelledOnceWithoutOverlap`, `OverlapCanCancelTwice`).
- An async prompt with an accepted reply stays open when the reply lies only below a list of items that belongs to no turn
  (`OpenUnlessOnlyBelow`, `AnsweredPromptStaysOpen`); and keys must tell ids apart (`KeysMustTell`), which turns with a NUL in their
  ids can break (`NulTurnsCanCollide`).
- What a day counts depends on whether it is read alone or in a longer history, when a request is recorded again with an
  earlier date (`DayReadAlone`, `DayCanDifferFromHistory`), and so windows over a file's lines need not add up (`LineWindowsAdd`).
- Reordering merged history changes a day exactly when two observations of the highest rank differ in their breakdowns
  (`OrderMattersOnlyForRivals`).
- A late failed query of an outdated Feishu action lets a second action of the same generation start beside the one in
  flight (`TwoActionsWitness`); without one, actions of a generation stay apart (`GuardedRunsStayApart`).
- Tasks are shown once exactly for catalogs that repeat no project id (`CatalogsThatShowOnce`); keys joined by a colon collide for two
  hosts exactly when one, followed by a colon, begins the other (`KeyTextCanCollide`).

One more case is only open to callers from outside, since the program's own sources of observations drop empty texts: the exported
`SummarizeActivity` counts a task as waiting whose merged observation is ignored (`HollowTaskWitness`, against `ProducedTotalsMatch`).

## Model

| member | source | states |
|---|---|---|
| Revisions.CompareIsNumeric | Core/internal/desktop/observation_cache.go:193-221 | Two revisions compare exactly when both trimmed texts are non-empty digit strings; the result is then the sign of the difference of their decimal values, whatever their length and leading zeros. |
| Revisions.CompareIsTotalPreorder | Core/internal/desktop/observation_cache.go:193-221 | On decimal revisions the comparison is total, transitive and antisymmetric up to equal values. |
| ObservationCacheProofs.RunIsValid | Core/internal/desktop/observation_cache.go:57-191 | In every interleaving of pushes, reads, owner changes, disconnects and closes the cache is sound: entries, latches and pending reads fit each other. |
| ObservationCacheProofs.CacheHoldsNewest | Core/internal/desktop/observation_cache.go:57-191 | A cached target is one of the snapshots delivered to its entry since generation and owner last changed, all of them from the target's owner; if these can be ordered (decimal revisions, states present) it is the newest, so a slow read never undoes a newer push. |
| ObservationCacheProofs.EveryStepEvolves | Core/internal/desktop/observation_cache.go:110-191 | In each step an entry's log grows by exactly the snapshot that arrived, restarts only with the entry, and an orderable target gives way only to one of a strictly higher revision. |
| ObservationCacheProofs.ObservationIsCurrent | Core/internal/desktop/observation_cache.go:69-134 | Every successful observation is of the live connection, the current generation, the task and its current non-empty owner, and is what the cache holds unless the entry was replaced during the read. |
| ObservationCacheProofs.SingleFlightPerEntry | Core/internal/desktop/observation_cache.go:77-98 | At most one full read is under way for each entry object. |
| ObservationCacheProofs.WaitersAreReleased | Core/internal/desktop/observation_cache.go:77-86 | A caller told to wait waits for a pending read of its own task, and only that read's end closes the latch. |
| ObservationCacheProofs.CachedAnswerAge | Core/internal/desktop/observation_cache.go:87-133 | A cached answer is served only within the silence limit of a successful snapshot or, after a failed read, within the back-off of that failure with its jitter; there is no flat bound. |
| ObservationCacheProofs.ObserveDecides | Core/internal/desktop/observation_cache.go:57-102 | In every run an observation waits exactly when the task's current entry is being read; of the others it starts a read exactly when the entry's deadline has passed, is answered exactly when it holds a snapshot with a state before that, and is refused otherwise. An answer is what the entry holds, and has a state. |
| ObservationCacheProofs.FreshSnapshotIsServed | Core/internal/desktop/observation_cache.go:69-102 | After an accepted push of a snapshot with a state, in every run in which connection, generation, owner and entry stay and less than the silence limit passes, an observation answers exactly that snapshot and starts no read. |
| ObservationCacheProofs.PushedEntry | Core/internal/desktop/observation_cache.go:160-191 | An accepted push comes from the task's owner and leaves an entry of the current generation that holds exactly what was pushed, its next read one silence limit away. |
| ObservationCacheProofs.FinishedRead | Core/internal/desktop/observation_cache.go:103-134 | In every run a read that brings a snapshot of an owner that still stands answers the caller with the resulting target and puts the next read one silence limit off; any other read keeps the target, refuses its caller and waits longer with each failure in a row, up to a minute, with the jitter. |
| ObservationCacheProofs.WakeIsNotLost | Core/internal/desktop/observation_cache.go:184-189 | After an accepted push every subscriber of the task holds a wake token until it receives it or leaves. |
| ObservationCacheProofs.ReplacedEntryWitness | Core/internal/desktop/observation_cache.go:168-170 | A run in which two reads of one task are in flight and the older one answers its caller with an older revision than the cache holds. |
| ObservationCacheProofs.OlderAnswer | Core/internal/desktop/observation_cache.go:103-134 | In every run, a full read with a decimal revision answers with an older one than the cache holds exactly when its entry was replaced, and both what it brings and what its own entry can hold against it are older. |
| ObservationCacheProofs.MissingStateWitness | Core/internal/desktop/observation_cache.go:110-118 | A run in which a lower revision replaces a higher one that had no state. |
| ObservationCacheProofs.OlderReplaces | Core/internal/desktop/observation_cache.go:110-183 | In every run, a snapshot of the same owner that is not newer by decimal revision replaces the cached one exactly when a full read brings it and the cached one has no state; a push never does. |
| ObservationCacheProofs.UnorderedRevisionWitness | Core/internal/desktop/observation_cache.go:110-118 | A run in which, after a revision that is not decimal, the cache holds a lower revision than one delivered. |
| ObservationCacheProofs.UnorderedReplaces | Core/internal/desktop/observation_cache.go:110-183 | In every run, a snapshot whose revision cannot be compared replaces the cached one of its owner when pushed, and from a full read unless the cached one has a state and a push came meanwhile. |
| ActivityClientModel.ActivityClient.Close | Core/internal/desktop/activity.go:310-322 | Closing is the machine's close step: the whole new state is given. |
| ActivityClientModel.ActivityClient.ConnectionEnded | Core/internal/desktop/activity.go:1161-1171 | The end of the live connection resets what it must and raises the generation; the end of another connection changes nothing. |
| ActivityClientModel.ActivityClient.CachePushedObservation | Core/internal/desktop/observation_cache.go:160-191 | A push is the machine's push step, including the replaced entry, the acceptance test and the wake tokens. |
| ActivityClientModel.ActivityClient.EntryFor | Core/internal/desktop/observation_cache.go:160-172 | The entry that a push uses is the cached one if it serves this generation and owner, and otherwise a new object under the same key. |
| ActivityClientModel.ActivityClient.Offer | Core/internal/desktop/observation_cache.go:173-183 | A snapshot is stored unless an entry of its owner holds a revision that is not lower. |
| ActivityClientModel.ActivityClient.Notify | Core/internal/desktop/observation_cache.go:184-189 | Every subscriber channel of the task is full afterwards, and no other changes. |
| ActivityClientModel.ActivityClient.BeginObservation | Core/internal/desktop/observation_cache.go:57-102 | The first critical section of an observation is the machine's step, with its answer: cached, waiting, reading or refused. |
| ActivityClientModel.ActivityClient.EntryForReading | Core/internal/desktop/observation_cache.go:64-75 | The entry is created or emptied in place when its generation or owner is outdated and nobody reads it. |
| ActivityClientModel.ActivityClient.Refresh | Core/internal/desktop/observation_cache.go:110-124 | A full read's snapshot is stored unless a push won in the meantime, and the answer is the resulting target. |
| ActivityClientModel.ActivityClient.BackOff | Core/internal/desktop/observation_cache.go:125-128 | A failed read keeps the target and sets the next read by the number of failures and the jitter. |
| ActivityClientModel.ActivityClient.EndObservation | Core/internal/desktop/observation_cache.go:103-134 | The second critical section is the machine's step on the entry that the read started on, with its answer. |
| ActivityClientModel.ActivityClient.SubscribeConversation | Core/internal/desktop/observation_cache.go:25-36 | Adds one channel to the task's subscribers and nothing else. |
| ActivityClientModel.ActivityClient.CancelSubscription | Core/internal/desktop/observation_cache.go:37-45 | Removes the channel and, with the last one, the task's subscriber map. |
| SnapshotRefresh.RunIsConsistent | Core/internal/desktop/snapshot_refresh.go:8-37 | In every run at most one timer is armed for a task and generation, and each scheduled task of the current generation has one. |
| SnapshotRefresh.NoStarvation | Core/internal/desktop/snapshot_refresh.go:8-37 | While connection, generation and owner are unchanged and no timer of another owner is pending, an incremental broadcast is followed by a refresh within one period, however many broadcasts follow. |
| SnapshotRefresh.PromiseIsKept | Core/internal/desktop/snapshot_refresh.go:8-37 | Until then, at every moment of the run, the refresh was sent or a timer that will send it is due in time. |
| SnapshotRefresh.BroadcastMakesPromise | Core/internal/desktop/snapshot_refresh.go:8-23 | A trusted broadcast leaves a timer of its owner due within the period exactly when no other owner's timer is pending; otherwise it changes nothing. |
| SnapshotRefresh.ServedExactly | Core/internal/desktop/snapshot_refresh.go:8-37 | While connection, generation and owner are unchanged, and no other broadcast of the task follows, the broadcast is served within a period exactly when no other owner's timer was pending. |
| SnapshotRefresh.NothingIsSent | Core/internal/desktop/snapshot_refresh.go:24-36 | While only another owner's timer is pending, and no broadcast of the task follows, no refresh of the task is sent at all. |
| SnapshotRefresh.NewOwnerCanBeDropped | Core/internal/desktop/snapshot_refresh.go:12-31 | A run in which a new owner's broadcast, met while the old owner's timer is pending, is never followed by a refresh. |
| SnapshotRefresh.Scheduler.ScheduleSnapshotRefresh | Core/internal/desktop/snapshot_refresh.go:8-23 | Arms a timer exactly as the machine does, and keeps the map consistent with the timers. |
| SnapshotRefresh.Scheduler.TimerFired | Core/internal/desktop/snapshot_refresh.go:24-36 | Ends the timer and sends a subscription request only when connection, generation and owner are still those that armed it. |
| IpcWaitersProofs.RunIsValid | Core/internal/desktop/activity.go:345-510 | In every run each waiter's channel is in exactly one place: a table, a list, a send under way, full, received or withdrawn. |
| IpcWaitersProofs.NoSendBlocks | Core/internal/desktop/activity.go:1154-1193 | No send ever meets a full channel, neither those after a reply nor those made under the mutex when the connection ends. |
| IpcWaitersProofs.OneRegistration | Core/internal/desktop/activity.go:345-510 | Ids are unique across the tables; a registered channel is in one table or list only, has no send under way, and two sends never share a channel. |
| IpcWaitersProofs.RepliesReachTheirCaller | Core/internal/desktop/activity.go:358-510 | A full channel holds one message, and it answers what its owner asked: its id, or a snapshot of its task and source that its test accepts, or the disconnect. |
| IpcWaitersProofs.NoCallerIsForgotten | Core/internal/desktop/activity.go:679-796 | A caller that neither received nor withdrew is registered, or has a send under way, or has its message. |
| IpcWaitersProofs.PlacesMoveForward | Core/internal/desktop/activity.go:345-510 | A channel's place only moves forward: one message at most, never back to a table. |
| IpcWaitersProofs.SelectionLemma | Core/internal/desktop/activity.go:486-506 | Matching splits a waiter list into exactly those that accept the snapshot and those that do not, without repeats. |
| IpcWaitersProofs.EveryWaiterIsFree | Core/internal/desktop/activity.go:1172-1189 | All registered channels are empty and distinct, so all of them can be told under the mutex. |
| IpcDelivery.ReplyIsDelivered | Core/internal/desktop/activity.go:358-384 | In every run a reply to a registered call, in whichever of the three tables it is, takes exactly that call off and is sent to its caller; a reply to any other id changes nothing. |
| IpcDelivery.CallIsAnswered | Core/internal/desktop/activity.go:358-384 | Whatever other callers and messages do in between, the reply to a call is sent to the channel that its caller made, unless it was withdrawn, answered before, or the connection ended. |
| IpcDelivery.SnapshotIsDelivered | Core/internal/desktop/activity.go:486-510 | In every run a snapshot is sent once to exactly the waiters whose test takes it, among those for its task and any source and those for its task and source; they leave their lists, and all others stay. |
| IpcDelivery.HalvesInOrder | Core/internal/desktop/activity.go:486-506 | The waiters that take a snapshot and those that stay keep their order. |
| IpcDelivery.SendArrives | Core/internal/desktop/activity.go:362-382 | A send under way puts exactly its message into its channel; all other channels and sends stay. |
| IpcDelivery.MessageIsTaken | Core/internal/desktop/activity.go:679-697 | Taking a message empties the channel, and the caller has received what was in it. |
| IpcDelivery.CallIsRegistered | Core/internal/desktop/activity.go:679-684 | A new call has an id above all registered ones and a channel that nobody has; all others stay registered. |
| IpcDelivery.WaiterIsRegistered | Core/internal/desktop/activity.go:751-763 | A new snapshot waiter comes last under its key, with a channel that nobody has. |
| IpcDelivery.CallIsWithdrawn | Core/internal/desktop/activity.go:679-697 | Giving up takes back one's own call and no other registration. |
| IpcDelivery.WaiterIsWithdrawn | Core/internal/desktop/activity.go:781-796 | Giving up takes the waiter of this channel from the list of this key, and no other waiter from any list. |
| IpcDelivery.EveryoneIsTold | Core/internal/desktop/activity.go:1161-1193 | When the connection ends every registered channel holds the disconnect, every other one what it held, and no registration is left. |
| IpcClientModel.FilterInPlace | Core/internal/desktop/activity.go:492-505 | Filtering a waiter list within its own storage leaves in front those that do not accept the snapshot and collects the others, both in order. |
| IpcClientModel.IpcClient.Register | Core/internal/desktop/activity.go:679-684 | A call gets a fresh id and an empty channel in its table. |
| IpcClientModel.IpcClient.HandleResponse | Core/internal/desktop/activity.go:358-384 | A reply's waiter is found in the order of the tables and removed before its send. |
| IpcClientModel.IpcClient.EmitNext | Core/internal/desktop/activity.go:362-382 | The send of a removed waiter fills an empty channel. |
| IpcClientModel.IpcClient.HandleSnapshot | Core/internal/desktop/activity.go:486-510 | A snapshot is offered to the waiters for any source and to those for its source; exactly the accepting ones leave their lists. |
| IpcClientModel.IpcClient.RemoveCall | Core/internal/desktop/activity.go:679-697 | A caller that gives up removes its own registration, if it is still there. |
| IpcClientModel.IpcClient.RemoveSnapshotWaiter | Core/internal/desktop/activity.go:781-796 | Removes one waiter from its list, and the list with its last waiter. |
| IpcClientModel.Drop | Core/internal/desktop/activity.go:781-796 | Dropping a channel keeps all other waiters in order. |
| IpcClientModel.IpcClient.ConnectionEnded | Core/internal/desktop/activity.go:1161-1193 | Nested loops over tables and lists tell every registered waiter once and leave all of them empty. |
| CodexSessionProofs.NoSendBlocks | Core/internal/codex/client.go:558-593 | No send blocks, neither the read loop's nor those under the state mutex; every pending caller and every send under way has an empty channel, and no two sends share one. |
| CodexSessionProofs.EveryCallerIsSomewhere | Core/internal/codex/client.go:670-684 | Every call that was made waits in the table, is being sent its message, holds or received exactly one message of its own id, gave up, or was forgotten. |
| CodexSessionProofs.PlacesMoveForward | Core/internal/codex/client.go:558-684 | A caller gets at most one message; it is forgotten exactly by a start that finds it in the table, and gets none afterwards. |
| CodexSessionProofs.ForgottenCallWitness | Core/internal/codex/client.go:159-162 | A run in which, after a first process has stopped, a call is registered and then dropped with the old table by the next start. |
| CodexSessionProofs.ProcessRuns | Core/internal/codex/client.go:125-179 | Over every run, a process keeps running exactly until the client closes, its own read loop ends, or an initialization fails, its own or an earlier one's; it never runs again. |
| CodexSessionProofs.LateInitFailureWitness | Core/internal/codex/client.go:168-178 | A run in which a failed initialization stops the process that replaced its own and ends that one's calls. |
| CodexSessionProofs.ClosedForGood | Core/internal/codex/client.go:542-556 | Once the client is closed no process runs, whatever follows. |
| CodexSessionProofs.AnsweredAtMostOnce | Core/internal/codex/client.go:457-471 | However callers interleave, a request for user input is answered at most once; answers go to requests for user input only, cancellations to approvals only. |
| CodexSessionProofs.OffForGood | Core/internal/codex/client.go:625-658 | A request that left the table does not come back and finds no new caller. |
| CodexSessionProofs.CancelledOnceWithoutOverlap | Core/internal/codex/client.go:484-507 | If no cancellation begins while another of the same request is under way, each approval is cancelled at most once. |
| CodexSessionProofs.OverlapCanCancelTwice | Core/internal/codex/client.go:484-507 | From every reachable state in which such an overlap begins while a process runs, the run can go on to cancel the approval twice. |
| CodexSessionProofs.CancelledTwiceWitness | Core/internal/codex/client.go:484-507 | A run with such an overlap in which one approval is cancelled twice. |
| CodexEffects.RequestsFollow | Core/internal/codex/client.go:620-658 | In every run a thread's request is the last one that came for it, until exactly one of these removes it: the server's word, by thread or by id alone, an answer to a request for user input, the end of its cancellation, a new process, or a stop. |
| CodexEffects.RequestIsAnswered | Core/internal/codex/client.go:457-471 | A request for user input that nothing replaced or removed in the meantime, whatever else happened, is answered once by the next answer to its thread. |
| CodexEffects.AnswerBegins | Core/internal/codex/client.go:457-471 | An answer is about to be written for the thread's request exactly when that is a request for user input. |
| CodexEffects.CancelBegins | Core/internal/codex/client.go:484-494 | A cancellation is about to be written exactly when the thread's request is the expected approval, by kind, id and, if it has one, turn. |
| CodexEffects.ReplyIsWritten | Core/internal/codex/client.go:495-500 | What is about to be written is written once, exactly when a process runs that takes it. |
| CodexEffects.ResponseIsDelivered | Core/internal/codex/client.go:670-677 | A response of a read loop goes to the caller that waits under its id; any other changes nothing. |
| CodexEffects.StopIsTold | Core/internal/codex/client.go:766-780 | In every run, whoever waits when the process stops is told so; all other channels, sends and replies stay. |
| CodexClientModel.CodexClient.Start | Core/internal/codex/client.go:125-164 | A start is the machine's step: nothing while a process runs or after a close; otherwise a new process with empty tables. |
| CodexClientModel.CodexClient.StopLocked | Core/internal/codex/client.go:766-780 | The loop tells every pending caller once, each through an empty channel, and empties the tables. |
| CodexClientModel.CodexClient.Register | Core/internal/codex/client.go:558-564 | After a first start, a call gets an id that is not in use and an empty channel. |
| CodexClientModel.CodexClient.RemovePending | Core/internal/codex/client.go:760-764 | Removes this call's registration and no other. |
| CodexClientModel.CodexClient.HandleResponse | Core/internal/codex/client.go:670-677 | A response takes its caller off the table before the send; an unknown id changes nothing. |
| CodexClientModel.CodexClient.ReadLoopEnded | Core/internal/codex/client.go:679-684 | The end of a read loop stops the process only if it is still the loop's own. |
| CodexClientModel.CodexClient.HandleRequest | Core/internal/codex/client.go:630-640 | A server request with a thread becomes the thread's request, replacing an earlier one. |
| CodexClientModel.CodexClient.HandleResolved | Core/internal/codex/client.go:642-658 | A withdrawal by the server, with a thread or by a loop over all requests, is the machine's step. |
| CodexClientModel.CodexClient.BeginAnswer | Core/internal/codex/client.go:457-470 | Answerable exactly when the thread's request is for user input, which is then off the table. |
| CodexClientModel.CodexClient.BeginCancel | Core/internal/codex/client.go:484-494 | Accepted exactly when the thread's request is the expected approval, by kind, id and turn; the table does not change. |
| CodexClientModel.CodexClient.EndCancel | Core/internal/codex/client.go:501-505 | After a written cancellation the thread holds no request of that id; a request of another id stays. |
| AsyncInputs.AsyncReplies | Core/internal/desktop/async_input.go:26-68 | The ids answered among a turn's items are exactly those of its accepted replies. |
| AsyncInputs.CollectAnswers | Core/internal/desktop/async_input.go:70-93 | The recursive walk adds exactly the answers it finds: those of the first list of items on each path, and nothing below one. |
| AsyncInputs.AnswersAreOutside | Core/internal/desktop/async_input.go:70-93 | The walk finds an id exactly when a message that no list of items lies above has an accepted reply to it. |
| AsyncInputs.AcceptedAreAnswered | Core/internal/desktop/async_input.go:26-68 | The accepted replies of a state are those of every list of items that is reached without passing through a turn, defined apart from the walk. |
| AsyncMeaning.PromptsAreAsked | Core/internal/desktop/async_input.go:94-164 | A prompt is found in a state exactly when a turn of its id that lies in no other turn has an asynchronous message of the agent that asks it: by a question of its list that is not secret and has a title, under the id of its place, or, without such a list, by its own text; with all texts of its options, in order. |
| AsyncMeaning.InDocumentOrder | Core/internal/desktop/async_input.go:94-164 | Prompts come in the order of the document, over values, items and the fields of an object. |
| AsyncMeaning.FirstAreListed | Core/internal/desktop/async_input.go:130-139 | Listed are, in order, exactly the first of the prompts of each key among those that are not hidden. |
| AsyncMeaning.AnsweredMeans | Core/internal/desktop/async_input.go:26-68 | A message answers an id exactly when it is a user's, or an accepted steering one, with one text that carries, between the two marks, a list that names the id. |
| AsyncMeaning.AnswersMean | Core/internal/desktop/async_input.go:70-93 | The search finds exactly the ids that a message of an outermost list of items answers. |
| AsyncMeaning.FindMeans | Core/internal/desktop/async_input.go:166-177 | A reference finds exactly the open prompt whose key it is, as a text, and no other. |
| AsyncMeaning.AcceptedMeans | Core/internal/desktop/async_input.go:179-207 | An answer counts as accepted exactly when its reference is an open prompt of the target and a message of an outermost list of items of the state answers that prompt. |
| AsyncInputs.ListInputs | Core/internal/desktop/async_input.go:70-164 | The walk lists the prompts of a nested state in order, each key once, with or without the answered ones. |
| AsyncInputs.Visit | Core/internal/desktop/async_input.go:94-164 | Visiting a nested state appends exactly the selection of its prompts to what is listed, and notes their keys. |
| AsyncInputs.RequestIdsNeverRepeat | Core/internal/desktop/async_input.go:135-139 | Listed prompts are prompts of the state that are neither hidden nor seen, and no key is listed twice. |
| AsyncInputs.OpenIsAllMinusAnswered | Core/internal/desktop/async_input.go:70-164 | For every nested state, the open prompts are all prompts without those that have an accepted reply, in order, exactly when no prompt without a found answer has a key whose first prompt is answered. |
| AsyncInputs.OpenUnlessOnlyBelow | Core/internal/desktop/async_input.go:70-164 | If keys tell ids apart, exactly when no prompt's id is answered only below items that belong to no turn. |
| AsyncInputs.AnsweredPromptStaysOpen | Core/internal/desktop/async_input.go:75-92 | A state in which a prompt with an accepted reply is listed as open. |
| AsyncInputs.KeysMustTell | Core/internal/desktop/async_input.go:135-139 | The list is right whatever was answered exactly when equal keys mean equal ids. |
| AsyncInputs.PlainTurnsTell | Core/internal/desktop/async_input.go:21-24 | Keys tell ids apart when the digest is injective on the key texts and no turn id contains a NUL. |
| AsyncInputs.NulTurnsCanCollide | Core/internal/desktop/async_input.go:135-139 | A state with a NUL in a turn id in which, under any digest, an unanswered prompt appears only once another one with its key is answered. |
| AsyncInputs.AcceptedIsNoLongerOpen | Core/internal/desktop/async_input.go:166-207 | Once the answer for a request is seen as accepted, the request is not found among the open prompts. |
| AsyncInputs.SentAnswerIsRead | Core/internal/desktop/async_input.go:26-68 | A reply message as the client writes it is read back as the answer to exactly its question. |
| AsyncInputs.AnswersBelowTurnlessItems | Core/internal/desktop/async_input.go:75-92 | Below items of no turn prompts are those of the nested state; answers are only those that the items are themselves, while accepted replies include the nested ones. |
| Observations.KeyTextIsInjective | Core/internal/domain/rules.go:159 | Joined keys are injective when host ids contain no colon. |
| Observations.KeyTextCanCollide | Core/internal/domain/rules.go:159 | Tasks of two hosts can have one joined key exactly when one host, followed by a colon, begins the other. |
| Observations.ClassifyMeans | Core/internal/domain/rules.go:107-118 | A task that is not a helper's waits exactly when a plan, a flag or a request is pending, runs exactly when it is active and nothing is pending, and is ignored otherwise. |
| Observations.Deduplicate | Core/internal/domain/rules.go:393-424 | The result holds exactly the keys with an observation that is not ignored, each merged from all of them in order. |
| Observations.MergedFacts | Core/internal/domain/rules.go:393-424 | A merged task is active when some observation is, waits for something when some observation does, and keeps no empty texts. |
| Observations.MergedHolds | Core/internal/domain/rules.go:393-424 | A merged task has exactly the flags, and exactly the requests, that some observation has, none twice, a plan when some has one, and the helper name and source of the first that has one. |
| Observations.UniqueTexts | Core/internal/domain/rules.go:426-437 | The unique texts are the non-empty ones, all of them. |
| Observations.UniqueIsSorted | Core/internal/domain/rules.go:426-437 | They are sorted, and none is there twice. |
| Observations.SummarizeActivity | Core/internal/domain/rules.go:152-174 | Each task with an observation that is not ignored gets the highest class among them; the totals count the tasks of each class. |
| Observations.SummaryMatchesMerge | Core/internal/domain/rules.go:107-118 | The highest class is the class of the merged task exactly when the task is not hollow: several observations, some waiting, all for empty texts only. |
| Observations.TotalsMatchMerged | Core/internal/domain/rules.go:152-174 | Without hollow tasks the running and waiting totals are the classification counts over the merged observations. |
| Observations.ProducedTotalsMatch | Core/internal/desktop/activity.go:1114 | For observations as the program produces them, through the function that drops empty and repeated texts, the totals always equal the counts over the merged observations. |
| Observations.MergeActivity | Core/internal/service/activity_merge.go:26-43 | The overlay is the first observation of each task, Desktop's before the app server's. |
| Observations.DesktopWins | Core/internal/service/activity_merge.go:22-43 | It holds exactly the first observation of each observed task, each task once, and so Desktop's wherever there is one. |
| Observations.NoEmptyTextsNoHollow | Core/internal/domain/rules.go:152-174 | A task without empty flag and method texts is never hollow. |
| Observations.HollowTaskWitness | Core/internal/domain/rules.go:393-424 | An observation with an empty flag that, handed twice to the exported functions, is counted as waiting and merged as ignored. |
| Threads.LatestWins | Core/internal/domain/rules.go:182-188 | The index holds every listed thread id with its last entry. |
| ProjectDashboard.PlaceActive | Core/internal/domain/rules.go:198-239 | Each observed top-level task that is not ignored is in the group of its project exactly once, and nothing else is. |
| ProjectDashboard.PlaceCompleted | Core/internal/domain/rules.go:241-271 | Each top-level thread with a path that is not active and whose project is in the catalog, or that is connected, is added as completed exactly once. |
| ProjectDashboard.ShownIds | Core/internal/domain/rules.go:273-288 | Each group of a catalog project is shown as often as the catalog lists its id. |
| ProjectDashboard.ProjectItems | Core/internal/domain/rules.go:289-312 | Items hold exactly the tasks of the shown groups, each under its own project. |
| ProjectDashboard.BuildProjectDashboard | Core/internal/domain/rules.go:176-321 | For every task: it is displayed once for each catalog entry of its project, once when unassigned, and never when not listed. The tasks shown are exactly the top-level observed ones and the completed threads, in the project of the last binding of their thread if the catalog has it, without a binding in the first one with their directory among its cleaned roots, and unassigned otherwise. Pinned projects have an item, and tasks stand the older first. |
| ProjectDashboard.ListedIsShown | Core/internal/domain/rules.go:365-390 | What the build groups is what is shown by the fields of thread, bindings, observation and catalog. |
| WorkspaceDashboard.OpenWorkspaces | Core/internal/domain/workspaces.go:55-64 | The workspaces opened empty are exactly those of the saved roots. |
| WorkspaceDashboard.AddActive | Core/internal/domain/workspaces.go:65-105 | Each observed task that no project owns is in its workspace exactly once; every observed id is noted as active. |
| WorkspaceDashboard.AddCompleted | Core/internal/domain/workspaces.go:107-128 | Each named top-level thread with a path that is neither observed nor owned, and whose directory is a saved root outside the project root or that is projectless, is added as completed exactly once. |
| WorkspaceDashboard.SelectTasks | Core/internal/domain/workspaces.go:263-308 | The shown tasks are the selection function's, and the counts are those of all tasks, shown or not. |
| WorkspaceDashboard.ShownKeeps | Core/internal/domain/workspaces.go:263-308 | Active and connected tasks are always shown, and no task is shown more often than it is held. |
| WorkspaceDashboard.HiddenAreOlder | Core/internal/domain/workspaces.go:263-308 | The completed tasks shown fill the list up to ten, and no hidden one is more recent than a shown one. |
| WorkspaceDashboard.ShownInOrder | Core/internal/domain/workspaces.go:263-308 | The always shown tasks come first, waiting before running before completed and the more recent first, then the others, the more recent first. |
| WorkspaceDashboard.WorkspaceOrderIsStrict | Core/internal/domain/workspaces.go:135-156 | The comparison of workspaces is a strict weak order, as the sort requires. |
| WorkspaceDashboard.WorkspacesInOrder | Core/internal/domain/workspaces.go:129-158 | Sorted workspaces are a permutation with the pinned first, of these the waiting, then the running, then the more recent. |
| WorkspaceDashboard.BelongingIsHeld | Core/internal/domain/workspaces.go:65-128 | A task belongs to a workspace exactly when it is observed there and not owned, or is a completed thread there, by the fields of thread, observation and directory. |
| Dashboards.CollectOwned | Core/internal/domain/workspaces.go:40-53 | The owned keys and threads are those of the tasks under regular projects. |
| Dashboards.BuildWorkspaceDashboard | Core/internal/domain/workspaces.go:24-158 | For every task: it is displayed at most once, exactly once when it belongs to a workspace and is always shown, and never when it belongs to none. Each task shown is in the workspace of its thread's directory; workspaces differ, stand in order of pin, waiting, running and recency, and count the tasks that they hide. |
| Dashboards.RemoveOverlap | Core/internal/domain/workspaces.go:160-186 | Unassigned items lose the tasks that a workspace shows and vanish when nothing is left of them. |
| Dashboards.RemovalHolds | Core/internal/domain/workspaces.go:160-186 | Removal takes away exactly the unassigned tasks shown in a workspace; every other task keeps its count. |
| Dashboards.ShownAsDisplayed | Core/internal/domain/workspaces.go:160-186 | Over built and trimmed dashboards a listed task is shown, in both together, exactly as often as the catalog displays its project, and any other key once at most. |
| Dashboards.ShownOnce | Core/internal/domain/workspaces.go:160-186 | So with distinct catalog ids no key is shown twice, and every listed task's key once. |
| Dashboards.BuildDashboards | Core/internal/service/service.go:328-335 | The whole pipeline shows each listed task as often as the catalog displays its project. With unique catalog ids it shows no task twice, and exactly once every top-level task whose merged observation is not ignored, and so that of every single observation that is not ignored, unless merging hollows it out. Every task shown under a project is in the one of its last binding or, without one, of its directory. |
| Dashboards.RawIsShown | Core/internal/domain/rules.go:393-424 | An observation of a top-level task that is not ignored has its task shown exactly when the task is not hollow or some observation of it is active. |
| Dashboards.DuplicateIdShowsTwice | Core/internal/domain/rules.go:275-280 | For every catalog that repeats a project id there is a thread that is shown twice or more. |
| Dashboards.CatalogsThatShowOnce | Core/internal/domain/rules.go:273-312 | A catalog displays every listed task once, whatever the threads and observations are, exactly when no project id in it repeats, that of the unassigned tasks aside. |
| PipeFraming.ReadLoop | Sources/KSFAssistantCore/JSONRPCPipeConnection.swift:106-133 | Whatever the chunks, the read loop leaves the connection as processing the joined stream at once does, and closes it at the end. |
| PipeFraming.Drain | Sources/KSFAssistantCore/JSONRPCPipeConnection.swift:114-131 | Draining a buffer takes all of its complete lines and leaves the unfinished rest, or reports an overlong line. |
| PipeFraming.ProcessInParts | Sources/KSFAssistantCore/JSONRPCPipeConnection.swift:106-133 | Processing a stream in two parts equals processing it at once, also in whether the size limit closes the connection. |
| PipeFraming.ProcessIsLines | Sources/KSFAssistantCore/JSONRPCPipeConnection.swift:106-133 | Processing is receiving the stream's lines up to the first overlong one, and failing then. |
| PipeFraming.StreamCloses | Sources/KSFAssistantCore/JSONRPCPipeConnection.swift:106-153 | A stream closes an open connection exactly when one of its lines or its rest is over the limit, or a line is malformed: no JSON object, another version, or neither a text id nor, without any id, a text method; otherwise exactly the requests that its lines reply to have ended. |
| PipeFraming.EveryCallerIsTold | Sources/KSFAssistantCore/JSONRPCPipeConnection.swift:106-173 | The outcome of a request that is pending before a stream comes from the first line that is its reply or is malformed: an error with the object's code and message, or the defaults, exactly when there is an error object, success with the result exactly when there is a result and no such error, an invalid response when both are missing or the line is malformed; without such a line it gets the outcome of the close. |
| PipeFraming.FirstLineDecides | Sources/KSFAssistantCore/JSONRPCPipeConnection.swift:135-153 | Over any lines received, the first that replies to a pending request or is malformed decides its outcome, and without one the request stays pending. |
| PipeReader.ReadLoop | Sources/KSFAssistantCore/JSONRPCPipeConnection.swift:106-133 | With arbitrary moves of other threads before each of the reader's critical sections, the read loop is a run of the connection's machine in which the reader's own moves are those that the bytes read say, followed by the close if the stream ended; it stops only on a closed connection. |
| PipeReader.MovesInParts | Sources/KSFAssistantCore/JSONRPCPipeConnection.swift:114-131 | What the reader does for a stream is what it does for its first part and then for the unfinished rest and the second, so chunks do not matter, among other threads either. |
| PipeReader.Drain | Sources/KSFAssistantCore/JSONRPCPipeConnection.swift:119-131 | Taking the lines out of a buffer, with other threads' moves between them, adds the moves that the buffer says and leaves its unfinished rest, or closes at what is over the limit. |
| PipeReader.LinesFollow | Sources/KSFAssistantCore/JSONRPCPipeConnection.swift:135-173 | Left alone between lines, the reader's table stays the connection's: the same requests are pending, and each ended one is due exactly the outcome of its reply or of the close. |
| PipeReader.LineMovesSay | Sources/KSFAssistantCore/JSONRPCPipeConnection.swift:135-153 | Among other threads too, a reply makes the reader end its request with what the fields of the line say, a malformed line makes it close, and any other line nothing. |
| PipeConnectionProofs.RunIsOk | Sources/KSFAssistantCore/JSONRPCPipeConnection.swift:44-173 | The invariant of callers, timers, queue and byte stream holds in every interleaving. |
| PipeConnectionProofs.ResumedExactlyOnce | Sources/KSFAssistantCore/JSONRPCPipeConnection.swift:44-67 | For each started request, times resumed plus outcomes due plus still pending plus not yet registered is exactly one. |
| PipeConnectionProofs.OutcomeIsFinal | Sources/KSFAssistantCore/JSONRPCPipeConnection.swift:155-161 | After an outcome there is no second one, and the request is never pending again. |
| PipeConnectionProofs.ClosedForGood | Sources/KSFAssistantCore/JSONRPCPipeConnection.swift:163-173 | Closed implies nothing pending, stays closed, and no byte follows. |
| PipeConnectionProofs.CancellationIsNotLost | Sources/KSFAssistantCore/JSONRPCPipeConnection.swift:44-67 | A cancellation whose handler ran, even before registration, leaves the request resumed, due, or about to be refused as cancelled, never pending. |
| PipeConnectionProofs.WaitsAreTimed | Sources/KSFAssistantCore/JSONRPCPipeConnection.swift:44-67 | Every pending request that was submitted has a timer, and its firing ends it as timed out. |
| PipeConnectionProofs.StreamIsWholeFrames | Sources/KSFAssistantCore/JSONRPCPipeConnection.swift:75-104 | With arbitrary partial writes the bytes sent are whole frames in queue order and at most one unfinished prefix; a frame is abandoned in the middle only when closed. |
| PipeConnectionProofs.PeerReadsRequests | Sources/KSFAssistantCore/JSONRPCPipeConnection.swift:75-104 | What the peer's framing reads from the bytes sent is exactly the requests written so far, with the unfinished prefix as its rest. |
| PipeConnectionProofs.FirstByteNeedsACaller | Sources/KSFAssistantCore/JSONRPCPipeConnection.swift:75-79 | In every run, bytes are written only while open, and the first byte of a frame only while its request is pending. |
| PipeConnectionProofs.RunSendsOnce | Sources/KSFAssistantCore/JSONRPCPipeConnection.swift:75-104 | No request is queued twice. |
| PipeConnectionProofs.UndisturbedRequest | Sources/KSFAssistantCore/JSONRPCPipeConnection.swift:44-67 | An undisturbed request appends its frame to the stream and resumes its caller with the reply. |
| PipeConnectionProofs.EndingsAreTold | Sources/KSFAssistantCore/JSONRPCPipeConnection.swift:44-67 | In every run a pending request that is ended, timed out, cancelled or closed is due exactly that outcome, and only it, or all at a close, leave the table. |
| PipeWriter.Connection.Write | Sources/KSFAssistantCore/JSONRPCPipeConnection.swift:75-104 | The write loop, with other threads' moves between all of its steps, performs a run of the machine and reports whether it let go of its frame. |
| PipeWriter.Connection.TakeTurn | Sources/KSFAssistantCore/JSONRPCPipeConnection.swift:80-103 | One turn of the loop, for every outcome of poll and write, is a run of the machine. |
| PipeWriter.Connection.TakeJob | Sources/KSFAssistantCore/JSONRPCPipeConnection.swift:75-79 | The writer takes up the next frame from its first byte, or drops one whose request is no longer pending. |
| PipeWriter.Connection.Finish | Sources/KSFAssistantCore/JSONRPCPipeConnection.swift:155-161 | Ends a pending request with the outcome; one that is not pending changes nothing. |
| PipeWriter.Connection.FailAll | Sources/KSFAssistantCore/JSONRPCPipeConnection.swift:163-173 | Closes once and ends every pending request with the outcome. |
| TokenSamples.CollectSamples | Sources/KSFAssistantCore/LocalTokenUsageReader.swift:310-370 | The samples of a file are the chosen records of its annotated lines, in stable order of date. |
| TokenSamples.SessionAfter | Sources/KSFAssistantCore/LocalTokenUsageReader.swift:310-344 | The session of a file is what its first opening line names, the file itself when that is a record, and unknown before; it is a fork of what that line says. |
| TokenSamples.OwnerIsTold | Sources/KSFAssistantCore/LocalTokenUsageReader.swift:310-344 | A line changes the owner exactly when it tells one: a record its thread, an opening line the fork it names, if it is the first, or its own id, and a turn the fork or the session by the catalog of turns. |
| TokenSamples.AnnotatedAreOffers | Sources/KSFAssistantCore/LocalTokenUsageReader.swift:310-344 | Each line offers its samples under the owner known before it. |
| TokenSamples.InheritedMeans | Sources/KSFAssistantCore/LocalTokenUsageReader.swift:345-365 | A record is inherited exactly when its thread is not the session's, a counter exactly when a known owner is not the session; totals, dates and breakdowns are the line's. |
| TokenSamples.SortIsStable | Sources/KSFAssistantCore/LocalTokenUsageReader.swift:366-369 | Sorting rearranges, orders by date, and keeps the order of samples of one date. |
| TokenSamples.RequestsCountOnce | Sources/KSFAssistantCore/LocalTokenUsageReader.swift:345-351 | No request key is counted twice. |
| TokenSamples.EarlierEndChoosesMore | Sources/KSFAssistantCore/LocalTokenUsageReader.swift:345-351 | An earlier end never chooses fewer records before it than a later end does. |
| TokenSamples.EndMattersOnlyWhenHidden | Sources/KSFAssistantCore/LocalTokenUsageReader.swift:345-351 | Both ends choose the same exactly when no first record of a request before the earlier end follows one dated between the ends. |
| TokenSamples.EndCanMatter | Sources/KSFAssistantCore/LocalTokenUsageReader.swift:345-351 | Two lines of one request for which the ends choose differently. |
| TokenDeltas.CountDeltas | Sources/KSFAssistantCore/LocalTokenUsageReader.swift:372-416 | The loop over the samples computes the increments that the recursive definition gives. |
| TokenDeltas.TakeSample | Sources/KSFAssistantCore/LocalTokenUsageReader.swift:372-416 | One sample, in every mix of reset, inherited and request records, advances the counter and emits its increment as defined. |
| TokenDeltas.NarrowerWindow | Sources/KSFAssistantCore/LocalTokenUsageReader.swift:372-416 | For sorted samples, the increments of a narrower window are those of the wider one that are dated in it. |
| TokenDeltas.WindowsAdd | Sources/KSFAssistantCore/LocalTokenUsageReader.swift:372-416 | For sorted samples and a ≤ b ≤ c the increments over [a,c) are those over [a,b) followed by those over [b,c). |
| TokenDeltas.PlainTotal | Sources/KSFAssistantCore/LocalTokenUsageReader.swift:372-416 | With plain samples the total is the sum of the last values of the non-decreasing runs, less the baseline carried into the first run. |
| TokenAmounts.DeltasAreWorths | Sources/KSFAssistantCore/LocalTokenUsageReader.swift:372-450 | For sorted samples, by position: a counting counter adds what it is above the nearest counter before it, own or inherited, and its whole total when there is none or that one is higher; a request adds itself; parts are the differences of input less cached, of cached and of output. |
| TokenAmounts.CounterTotal | Sources/KSFAssistantCore/LocalTokenUsageReader.swift:372-416 | Without requests, own and inherited counters in any mix total the growth of their stretches: each begins anew with a counter that is inherited or dated before the window, and adds the peaks of its runs without a fall, less what it began with. |
| TokenAmounts.ForkCountsItsOwn | Sources/KSFAssistantCore/LocalTokenUsageReader.swift:392-394 | A fork that begins at an inherited total counts only what it adds to it. |
| TokenDeltas.RequestsReplaceCounters | Sources/KSFAssistantCore/LocalTokenUsageReader.swift:372-416 | From the first request record on, exactly the request records of the window count. |
| TokenDeltas.WhatCounts | Sources/KSFAssistantCore/LocalTokenUsageReader.swift:372-416 | A sample counts exactly when it is an own one dated in the window, and a request or a counter that no own request stands before: there are no increments exactly when none counts, and only requests' exactly when no counter does. |
| TokenDeltas.DeltasAreAccountable | Sources/KSFAssistantCore/LocalTokenUsageReader.swift:418-450 | Increments are not negative and a breakdown sums to its increment. |
| TokenDeltas.ConsistentSamplesKeepBreakdowns | Sources/KSFAssistantCore/LocalTokenUsageReader.swift:418-450 | If every sample's breakdown accounts for its total, no increment lacks its breakdown. |
| TokenWindows.EndMattersForDay | Sources/KSFAssistantCore/LocalTokenUsageReader.swift:310-416 | Over a file's candidates, a day counts the same whether the file is read to its end or further, exactly when no own record of the day is hidden by a later-dated one of the same request, and, if one is hidden before the day, no counter snapshot of the day counts. |
| TokenWindows.LineWindowsAdd | Sources/KSFAssistantCore/LocalTokenUsageReader.swift:286-308 | Over the lines of a file, each window read to its own end, the increments over [a,c) are those over [a,b) and then [b,c) exactly under that condition for b and c. |
| TokenWindows.DayReadAlone | Sources/KSFAssistantCore/LocalTokenUsageReader.swift:109-193 | For each file, a day read alone counts what the longer history counts for it exactly under that condition, or, when the file was not modified since the day began, exactly when it was not since the history began or none of its samples of the day counts. |
| TokenWindows.DayCanDiffer | Sources/KSFAssistantCore/LocalTokenUsageReader.swift:345-351 | A file of two lines whose day has one increment when read alone and none in the history of two days. |
| TokenAccounts.MergeIsOnePass | Sources/KSFAssistantCore/LocalTokenUsageReader.swift:24-71 | Accumulating two parts and merging equals one pass over both. |
| TokenAccounts.OrderDoesNotMatter | Sources/KSFAssistantCore/LocalTokenUsageReader.swift:24-71 | The account of a collection of increments does not depend on their order. |
| TokenAccounts.CompletePartsAddUp | Sources/KSFAssistantCore/LocalTokenUsageReader.swift:24-71 | Whenever the breakdown is complete its three signed parts sum to the total. |
| TokenAccounts.SumParts | Sources/KSFAssistantCore/LocalTokenUsageReader.swift:24-71 | Each reported part is the sum of that part over all increments. |
| TokenAccounts.ReconciliationNeverWithholds | Sources/KSFAssistantCore/LocalTokenUsageReader.swift:24-71 | A breakdown is withheld exactly when it is incomplete or a part is negative, never by the final comparison with the total. |
| TokenAccounts.CompleteMeansNoGap | Sources/KSFAssistantCore/LocalTokenUsageReader.swift:24-71 | The breakdown is complete exactly when every positive increment has one. |
| TokenAccounts.TokensUsed | Sources/KSFAssistantCore/LocalTokenUsageReader.swift:286-292 | The account of a file's lines is that of the increments of the window, with samples chosen up to its end. |
| TokenAccounts.PlainFileTotal | Sources/KSFAssistantCore/LocalTokenUsageReader.swift:286-292 | A file without request records and inherited counters adds the peaks of its counter's runs that do not fall, less the one baseline carried into the window. |
| TokenAccounts.TokensUsedByDay | Sources/KSFAssistantCore/LocalTokenUsageReader.swift:294-308 | Each day's account is that of the increments of the day. |
| TokenAccounts.CountDays | Sources/KSFAssistantCore/LocalTokenUsageReader.swift:139-193 | Over the lines of all files modified since the span began, file by file and merged, each day's account is that of all increments on the day. |
| TokenAccounts.ReadHistory | Sources/KSFAssistantCore/LocalTokenUsageReader.swift:139-193 | One bucket for each day asked for, in order, with that account's total and its breakdown if reported. |
| TokenAccounts.ReadDay | Sources/KSFAssistantCore/LocalTokenUsageReader.swift:109-137 | The bucket of one window over the lines of all files modified since it began. |
| TokenAccounts.ModifiedCount | Sources/KSFAssistantCore/LocalTokenUsageReader.swift:109-193 | Exactly what files modified since the span began hold is counted. |
| TokenAccounts.DayHasItsOwn | Sources/KSFAssistantCore/LocalTokenUsageReader.swift:294-308 | A day has exactly the increments dated on it, as often as they are there. |
| TokenAccounts.DayIsPartOfHistory | Sources/KSFAssistantCore/LocalTokenUsageReader.swift:109-193 | For each file, reading one day gives the increments that a longer history gives for it exactly when the file meets the stated condition; when all files do, the day's increments are the history's. |
| TokenAccounts.DayCanDifferFromHistory | Sources/KSFAssistantCore/LocalTokenUsageReader.swift:109-193 | A file for which the day's bucket has 40 tokens when read alone and none in the history. |
| TokenAccounts.DaysAddUp | Sources/KSFAssistantCore/LocalTokenUsageReader.swift:294-308 | The days' totals sum to the total of the window. |
| ProjectUsage.InheritedTimeline | Sources/KSFAssistantCore/ProjectTokenUsageReader.swift:86-98 | The walk over parents ends on every parent map, cyclic ones included, with the timeline of the nearest ancestor that has one, or none when no ancestor has. |
| ProjectUsage.ReadThread | Sources/KSFAssistantCore/ProjectTokenUsageReader.swift:43-72 | The loop posts one entry for each sample, with its growth, binding and whether it counts. |
| ProjectUsage.EntryAt | Sources/KSFAssistantCore/ProjectTokenUsageReader.swift:43-72 | By position: a sample's growth is what it is above the sample before it, or its whole total after a fall or at the start; its binding is the last one not after it; and only the first can be left uncounted, when its binding is later than the thread. |
| ProjectUsage.ReadOne | Sources/KSFAssistantCore/ProjectTokenUsageReader.swift:25-73 | The guards of one thread leave the accounts exactly as specified: unchanged without a timeline, marked when the log cannot be read, and otherwise posted. |
| ProjectUsage.Read | Sources/KSFAssistantCore/ProjectTokenUsageReader.swift:10-84 | The accounts are those of all threads in turn, in every field, starting from the projects asked for. |
| ProjectUsage.AllReadCredits | Sources/KSFAssistantCore/ProjectTokenUsageReader.swift:10-84 | After all threads each project has the sum of its credits, today's part of them, and the number of its uncounted baselines and unreadable logs. |
| ProjectUsage.AllReadReachesBack | Sources/KSFAssistantCore/ProjectTokenUsageReader.swift:10-84 | After all threads a project is tracked from no later than asked and than any binding that growth fell under, and from one of these, or from now if a log could not be read. |
| ProjectUsage.AskedAreTracked | Sources/KSFAssistantCore/ProjectTokenUsageReader.swift:10-24 | Every project asked for has an account, tracked from no later than it was asked. |
| ProjectUsage.LastIsIndexed | Sources/KSFAssistantCore/ProjectTokenUsageReader.swift:10-24 | A parent is looked up among exactly the ids of the threads, the last entry of an id counting. |
| ProjectUsage.ReadConserves | Sources/KSFAssistantCore/ProjectTokenUsageReader.swift:25-73 | Over any sequence of thread logs, the totals of all projects, plus skipped baselines, plus what precedes every binding, equal all positive growth. |
| ProjectUsage.MarkIncomplete | Sources/KSFAssistantCore/ProjectTokenUsageReader.swift:100-106 | Adds one to the uncounted number of exactly these projects, tracking a new one from now; no other field changes. |
| ProjectUsage.PostingCredits | Sources/KSFAssistantCore/ProjectTokenUsageReader.swift:43-72 | Posting changes a project's totals by exactly its counted growth, and its uncounted number by its skips. |
| ProjectUsage.GrowthIsConserved | Sources/KSFAssistantCore/ProjectTokenUsageReader.swift:43-72 | Credited over all projects, plus skipped, plus what precedes every binding, is the whole growth. |
| ProjectUsage.OnlyFirstIsSkipped | Sources/KSFAssistantCore/ProjectTokenUsageReader.swift:43-72 | At most the first sample of a log is skipped as an uncounted baseline. |
| ProjectUsage.LatestBindingWins | Sources/KSFAssistantCore/ProjectTokenUsageReader.swift:57 | On an ordered timeline the binding of a sample is the last one not after it. |
| ProjectUsage.SinceReachesBack | Sources/KSFAssistantCore/ProjectTokenUsageReader.swift:43-72 | A project's start of tracking is the earliest of what it was and the bindings that touched it. |
| TokenHistory.RecordRoundTrip | Sources/KSFAssistantCore/LocalTokenHistoryStore.swift:173-217 | A bucket written as a record has each number in its own field and reads back as itself, and both are valid or neither is. |
| TokenHistory.ValidRecordReadsValid | Sources/KSFAssistantCore/LocalTokenHistoryStore.swift:173-217 | A valid record reads as a valid bucket and is written back unchanged but for its time. |
| TokenHistory.MergeIsJoin | Sources/KSFAssistantCore/LocalTokenHistoryStore.swift:62-78 | After a merge a date is present exactly when it was or was observed, and its value is one of these and below none of them by tokens, then breakdown. |
| TokenHistory.MergedIsTop | Sources/KSFAssistantCore/LocalTokenHistoryStore.swift:62-78 | A day becomes a valid observation of the highest rank if one ranks above what was saved, and stays as saved otherwise. |
| TokenHistory.NothingIsLost | Sources/KSFAssistantCore/LocalTokenHistoryStore.swift:62-78 | Dates are never lost, totals never fall, and a breakdown is lost only when the total rises. |
| TokenHistory.OrderKeepsRank | Sources/KSFAssistantCore/LocalTokenHistoryStore.swift:62-78 | Reordering or repeating observations changes neither the dates nor the rank of any day. |
| TokenHistory.OrderMattersOnlyForRivals | Sources/KSFAssistantCore/LocalTokenHistoryStore.swift:62-78 | Some reordering of the observations changes a day exactly when two valid ones of the highest rank, above what was saved, differ in their breakdowns. |
| TokenHistory.OrderCanMatter | Sources/KSFAssistantCore/LocalTokenHistoryStore.swift:62-78 | Two such observations, and the two results. |
| TokenHistory.MergeIsIdempotent | Sources/KSFAssistantCore/LocalTokenHistoryStore.swift:62-78 | Merging the same observations again changes no day. |
| TokenHistory.ObservedDaysAreDated | Sources/KSFAssistantCore/LocalTokenHistoryStore.swift:62-78 | Exactly the days observed validly get the time of the observation. |
| TokenHistory.SortedRecords | Sources/KSFAssistantCore/LocalTokenHistoryStore.swift:79 | The saved records are those of the dictionary, in strictly ascending order of date. |
| TokenHistory.HistoryStore.Load | Sources/KSFAssistantCore/LocalTokenHistoryStore.swift:44-53 | A missing file is empty history, an invalid one an error, and otherwise the days in ascending order. |
| TokenHistory.HistoryStore.MergeAndSave | Sources/KSFAssistantCore/LocalTokenHistoryStore.swift:55-97 | The saved file holds exactly the merge, in order; when loading or writing fails the old file stays, and each outcome of the disk has its result. |
| TokenHistory.SavedReadsBack | Sources/KSFAssistantCore/LocalTokenHistoryStore.swift:79-113 | What is saved passes the validator and reads back as the same days. |
| TokenHistory.LoadCheckAllowsDuplicates | Sources/KSFAssistantCore/LocalTokenHistoryStore.swift:106-111 | The validator accepts a file in which a date occurs twice, which merging then cannot use. |
| DirectoryMerge.MergeDirectory | Sources/KSFAssistant/AppConfiguration.swift:170-214 | A successful merge leaves the left-biased union, reports true exactly when it added something, and without an injected failure succeeds exactly on admissible trees. |
| DirectoryMerge.UnionIsLeftBiased | Sources/KSFAssistant/AppConfiguration.swift:170-214 | At every path the union has the left tree's entry, nothing below a left file, and otherwise the right tree's entry. |
| DirectoryMerge.AddsMeansChange | Sources/KSFAssistant/AppConfiguration.swift:170-214 | The merge reports a change exactly when the union differs from the left tree. |
| DirectoryMerge.AdmissibleMeans | Sources/KSFAssistant/AppConfiguration.swift:170-214 | Trees are admissible exactly when everything that the left tree lacks, and could have, is a directory or a file that passes the check by its name. |
| DirectoryMerge.UnionIsIdempotent | Sources/KSFAssistant/AppConfiguration.swift:170-214 | Merging the same tree again adds nothing. |
| IdentityMigration.Host.MigrateIdentity | Sources/KSFAssistant/AppConfiguration.swift:45-149 | With failures injected at any step: success leaves the union of all trees, and of the preferences exactly the current ones, each missing one from the first domain that has it, and the marker, with the two lists renamed: unchanged without the old identifier, and otherwise with the new one once, where either stood first, and all others in order. Failure leaves preferences as they were, and the directory too, or, when restoring it fails, in the stage; without failures it succeeds exactly on admissible data. |
| IdentityMigration.Host.FillStage | Sources/KSFAssistant/AppConfiguration.swift:93-109 | The stage becomes the current tree merged with every legacy tree in turn. |
| IdentityMigration.Host.Recover | Sources/KSFAssistant/AppConfiguration.swift:120-143 | Rollback restores what was published and written, and reports whether every recovery step worked. |
| IdentityMigration.CollectPreferences | Sources/KSFAssistant/AppConfiguration.swift:64-79 | The loop over legacy domains takes preferences in order, or fails on the first that is unusable. |
| IdentityMigration.TakeAllKeeps | Sources/KSFAssistant/AppConfiguration.swift:64-79 | Current preferences win; a missing one comes from the first legacy domain that has it. |
| IdentityMigration.TakingFails | Sources/KSFAssistant/AppConfiguration.swift:64-79 | Taking fails exactly when the first domain to have one of the two lists has something else under its name. |
| IdentityMigration.MigratedIsSettled | Sources/KSFAssistant/AppConfiguration.swift:67-87 | The migrated preferences are settled as above, key by key and place by place. |
| IdentityMigration.RenameMeans | Sources/KSFAssistant/AppConfiguration.swift:80-86 | Renaming leaves no old identifier, the new one exactly once if either was there, and all others in order. |
| IdentityMigration.AbsorbsAll | Sources/KSFAssistant/AppConfiguration.swift:93-109 | Importing loses nothing of the current tree. |
| FeishuSession.OnlyLatestIsShown | Sources/KSFAssistantCore/FeishuConfiguration.swift:346-439 | A reply changes the shown snapshot only if it belongs to the latest request issued. |
| FeishuSession.OutdatedReplyShowsNothing | Sources/KSFAssistantCore/FeishuConfiguration.swift:412-438 | Over every run, once a call is outdated its reply, whenever it comes, shows no snapshot, and changes the view only as a failed query does, unguarded. |
| FeishuSession.RevisionNeverFalls | Sources/KSFAssistantCore/FeishuConfiguration.swift:441-461 | Between invalidations, while the epoch is unchanged, the shown revision never falls. |
| FeishuSession.OneActionInFlight | Sources/KSFAssistantCore/FeishuConfiguration.swift:366-439 | In runs without invalidate, shutdown and restore, at most one action is in flight, and the session is acting exactly while one is. |
| FeishuSession.SecondActionBegins | Sources/KSFAssistantCore/FeishuConfiguration.swift:366-413 | In every run, a second action is in flight from the step on in which an action is accepted while any action waits for its reply, and from no other. |
| FeishuSession.OnlyUnguardedBreaks | Sources/KSFAssistantCore/FeishuConfiguration.swift:432-438 | In any run, a step keeps the rule of one current action exactly when it is not a failed query of an outdated call met while another action is in flight. |
| FeishuSession.GuardedRunsStayApart | Sources/KSFAssistantCore/FeishuConfiguration.swift:325-439 | In every run without such a failure, disturbed or not, at most one action of the current generation is in flight. |
| FeishuSession.TwoActionsWitness | Sources/KSFAssistantCore/FeishuConfiguration.swift:432-438 | A run in which such a failure is followed, without any disturbance, by two actions of the current generation in flight. |
| FeishuSession.EachRequestIsSentOnce | Sources/KSFAssistantCore/FeishuConfiguration.swift:398-430 | Each accepted action sends one mutation and at most one result query of the same request id. |
| FeishuSession.ActionEnds | Sources/KSFAssistantCore/FeishuConfiguration.swift:412-438 | In undisturbed runs the end of the query ends the action, with an outcome. |
| FeishuAnswers.PermittedIsSent | Sources/KSFAssistantCore/FeishuConfiguration.swift:366-411 | In every run exactly the permitted actions go out, once each, and make the session wait: an open idle session, an enabled action of the shown snapshot in its expected context, confirmed if it has a text to confirm, to a known target, for a flow that is alive, and for a cancellation pending. |
| FeishuAnswers.RepliesCount | Sources/KSFAssistantCore/FeishuConfiguration.swift:346-439 | In every run, for every waiting call and reply: a current read shows a snapshot that fits or reports an error; a current action shows it with the outcome of the reply, or asks for the result once, of the same request; a query shows it or leaves the outcome unknown; an outdated call changes nothing unless it is a failed query. |
| FeishuAnswers.ActionIsAnswered | Sources/KSFAssistantCore/FeishuConfiguration.swift:398-425 | Whatever else is asked or answered between a permitted action and its reply, without a disturbance or a failed query, a usable reply gives the outcome and the snapshot shown and ends the action; any other leaves it acting and asks for the result once. |
| FeishuAnswers.ReadBegins | Sources/KSFAssistantCore/FeishuConfiguration.swift:346-351 | A read begins exactly in an open session that is not acting, and is then the only current call. |
| FeishuAnswers.WithdrawnMeans | Sources/KSFAssistantCore/FeishuConfiguration.swift:325-336 | Invalidation and shutdown clear the view, and no call is current afterwards. |
| FeishuAnswers.RestoredMeans | Sources/KSFAssistantCore/FeishuConfiguration.swift:338-344 | A snapshot that fits is shown with nothing else in the view and no call current; any other changes nothing. |
| FeishuAnswers.StoppedMeans | Sources/KSFAssistantCore/FeishuConfiguration.swift:316-323 | To stop polling outdates waiting reads, and changes nothing while an action waits. |
| FeishuClient.ConfigurationSession.BeginRead | Sources/KSFAssistantCore/FeishuConfiguration.swift:346-351 | A read up to its await is the machine's step. |
| FeishuClient.ConfigurationSession.EndRead | Sources/KSFAssistantCore/FeishuConfiguration.swift:352-364 | A read after its await, for each reply and cancellation, is the machine's step. |
| FeishuClient.ConfigurationSession.BeginPerform | Sources/KSFAssistantCore/FeishuConfiguration.swift:366-413 | An action up to its first await, its guards written as the program's sequence of tests, is the machine's step: exactly the accepted requests go out. |
| FeishuClient.ConfigurationSession.EndAction | Sources/KSFAssistantCore/FeishuConfiguration.swift:412-425 | The mutation's reply is applied, refused or followed by a query, as the machine does. |
| FeishuClient.ConfigurationSession.EndQuery | Sources/KSFAssistantCore/FeishuConfiguration.swift:424-438 | The query's reply or failure ends the action as the machine does, the unguarded reset included. |
| FeishuClient.ConfigurationSession.ApplySnapshot | Sources/KSFAssistantCore/FeishuConfiguration.swift:449-461 | Applying a snapshot is the machine's function on the whole state. |
| FeishuClient.ConfigurationSession.Restore | Sources/KSFAssistantCore/FeishuConfiguration.swift:338-344 | Restoring shows exactly a valid snapshot and reports whether it was. |
| FeishuClient.ConfigurationSession.Invalidate | Sources/KSFAssistantCore/FeishuConfiguration.swift:325-330 | Invalidating clears the view and outdates every call in flight. |
| ListOrdering.Reconcile | Sources/KSFAssistantCore/KSFProjectModels.swift:582-589 | The loop yields every non-empty id of both lists once, at its first place. |
| ListOrdering.ReconcileAppends | Sources/KSFAssistantCore/KSFProjectModels.swift:582-589 | What was remembered stays in front and in place. |
| ListOrdering.Move | Sources/KSFAssistantCore/KSFProjectModels.swift:591-607 | The method's edits yield the specified move: behind the last pinned id, to the front, or to the end. |
| ListOrdering.MovingRelocatesOnlyItsId | Sources/KSFAssistantCore/KSFProjectModels.swift:591-607 | Moving puts the id at one place among the others, which keep their order. |
| ListOrdering.MovedStands | Sources/KSFAssistantCore/KSFProjectModels.swift:591-607 | Pinning puts the id right behind the last pinned one of the others, or to the front; unpinning puts it to the end. |
| ListOrdering.PairKeepsPlaces | Sources/KSFAssistantCore/KSFProjectModels.swift:582-607 | Over any sequence of refreshes and moves of other ids, two remembered ids keep their order. |
| ListOrdering.SortingItems | Sources/KSFAssistantCore/KSFProjectModels.swift:609-636 | There is a sorted list exactly when no id repeats; it is a permutation in which none stands before one that the order puts first. |
| ListOrdering.SortedItemsStand | Sources/KSFAssistantCore/KSFProjectModels.swift:609-636 | Unassigned items come first, then the pinned ones; among equals the remembered before the others, if no id is remembered twice, and in the order remembered. |
| ListOrdering.NeverSwap | Sources/KSFAssistantCore/KSFProjectModels.swift:609-636 | Two listed projects with unchanged flags never swap places over any such sequence, whatever else is listed then. |
| ListOrdering.ReconcileTasks | Sources/KSFAssistantCore/KSFProjectModels.swift:640-653 | The loop remembers new tasks after the known ones, the older first, each once. |
| ListOrdering.ReconciledTasksSortSafely | Sources/KSFAssistantCore/KSFProjectModels.swift:640-669 | A refresh only appends and remembers every listed task once; sorting tasks of different ids by the result is a permutation. |
| ListOrdering.SortingTasksIsPermutation | Sources/KSFAssistantCore/KSFProjectModels.swift:655-669 | Tasks are sorted exactly when no id of theirs repeats; the result is then a permutation exactly when none is remembered twice. |
| ListOrdering.SortedTasksFollowOrder | Sources/KSFAssistantCore/KSFProjectModels.swift:655-669 | Sorted tasks follow the remembered order, and unknown ones come after them, the older first. |

## Left out

- Sockets, pipes, processes, clocks and files are outcomes of steps (a partial write, an error, a timeout, an end of connection); the operating system itself is not modelled.
- JSON text, SHA-256, UUIDs, calendars and the cleaning of paths are parameters; lemmas that need them injective or inverse say so in their requirements.
- Token counts and dates are mathematical integers; the wrapping additions of the token readers are not modelled.
- Strings compare by character code; the Unicode collation of Swift strings is not modelled.
- Host and task ids form pairs, not joined texts; `KeyTextIsInjective` and `KeyTextCanCollide` say when that differs.
- Go map iteration is modelled as any order; the order of items that depends on it is stated as a multiset or set.
- ObserveKnownConversationState and the cached conversation states are not modelled: a probe beside the cache that adds no new state.
- The rest of the Desktop message handler (client id, availability, follow requests, parsed observations) is not modelled; owners are learned in any order.
- The waiting reason, routes, launch actions, usage, item names and engineering ids of dashboard items are not modelled.
- The order of the items of the project dashboard and the naming of workspaces are not stated.
- CodexClientModel.CodexClient.StopLocked: the reason texts of a stop are not modelled; every waiter is told the same kind of error.
- The Codex client's thread and turn calls, its executable search and the recursive search for ids in server messages are not modelled: they read and forward values.
- The Bridge operation queue, its RPC server and the capability policy are not part of this model.
- TokenSamples.CollectSamples: lines arrive parsed; the discovery of session files and the catalog of turns are parameters.
- ProjectUsage.Read: what remains of the project report, formatting and rate limits, is not modelled; repeated thread ids, on which the source's dictionaries trap, are not excluded, the last one counting.
- ProjectUsage.MarkIncomplete: the source takes the date of the call where the model takes the `now` of the whole reading.
- TokenHistory.HistoryStore.MergeAndSave: a repeated date makes the source's dictionary trap; the model returns an error in its place, and path and permission checks are left out.
- IdentityMigration.Host.MigrateIdentity: the lock file is one possible failure, and file contents are opaque texts.
- FeishuSession.OutdatedReplyShowsNothing: message texts are not part of the view.
- FeishuClient.ConfigurationSession.Restore: as in the source, restoring is not guarded by the closed flag.
- User interface, notifications, login items, terminal launching and the build scripts are not part of this model.
