# Client-side replica logic, modelled and proved

A Dafny model of the state kept by the web and native clients in `lib`: the message store and its operation
log, thread permissions, the calendar, the socket's request protocol, and the smaller pieces that rest on
them. `dafny verify dfyconfig.toml` checks everything.

## How the model is laid out

Each algorithm that the source writes as a loop or as methods on an object is a method or a class here, proved
equal to a specification function; what the source promises is proved about that function.

| files | what they model |
|---|---|
| `collections.dfy` | shared sequence vocabulary, string order |
| `message_ids.dfy`, `message_model.dfy` | padded message IDs, sorting, the message store and its replayed operation log |
| `pending_threads.dfy`, `pending_ids.dfy` | pending thread IDs, printed and parsed; the pending-to-realized map |
| `thread_merge.dfy` | the two-pointer merge of two lists of one thread |
| `message_reducer.dfy`, `message_reducer_loops.dfy` | the message reducer: specification, and its loops proved against it |
| `message_integrity.dfy`, `message_merge.dfy`, `message_runs.dfy` | referential integrity, the merge's result, the database mirror, over all runs |
| `message_order.dfy` | when lists come out of a merge or a login sorted |
| `message_counterexamples.dfy` | deliveries on which the merge duplicates an ID or loses the order |
| `message_locals.dfy` | a local ID belongs to one thread, over all actions |
| `message_history.dfy` | contiguity of what is held, over all runs |
| `permissions.dfy`, `permission_chain.dfy`, `permission_decision.dfy` | permission strings, blobs, the closed form over a chain of threads, and which entry decides where roles deny |
| `calendar_query.dfy` | which entries a query asks for; the difference of two queries |
| `calendar_entries.dfy`, `calendar_reducer.dfy`, `calendar_runs.dfy` | the entry store, its day index, their agreement over all runs, and when the reducer throws |
| `inflight_requests.dfy` | the `InflightRequests` class and every interleaving of its steps |
| `socket_lifecycle.dfy`, `socket_runs.dfy`, `socket_close.dfy`, `socket_ids.dfy` | opening and closing the socket, the late-response indicator, graceful close, message IDs over all runs |
| `thread_updates.dfy`, `checkpoints.dfy`, `search_index.dfy`, `chat_items.dfy`, `sidebar_items.dfy` | thread-update batches, sync checkpoints, text search, chat items, sidebar rows |

## Conventions

* A missing string ID and the empty string are one value, as they are for the source's truthiness tests.
* Objects are maps. Where the order of their keys matters it is an argument (`keys`, `order`), and the theorems
  hold for every order; permission blobs are sequences because their order is observable.
* A failed `invariant(...)` and a thrown error are `Throw`.
* `threadWatcher`'s IDs, `Date.now()`, React props and the set of threads in the filter list are inputs of a step.
* `MessageIntegrity.WF` is referential integrity: every listed ID is stored under its own `messageID` with the
  thread that lists it, once.
* A fitting action (`ActionFits`) is one whose payload is plausible: delivered messages have distinct server IDs, a
  server ID or local ID belongs to one thread, local IDs look like local IDs and match one message each, and a newer
  copy of a robotext message is of a kind that starts a thread. It also asks of every delivery that no thread then
  keeps a stale copy (`MessageRuns.NoStaleCopies`), which is the exact condition of `MessageRuns.MergeIntegrity`; so
  `RunIntegrity` and `RunContiguity` are about runs without stale copies.
* The truncation contract of `RunContiguity` is what each status promises about the delivered IDs: exhaustive ones
  reach the first message, truncated ones form a block of their own, unchanged ones join the held block
  (`MessageHistory.Joins`). A thread that holds no server message has no block to join. If its start was not taken to
  be reached, only an exhaustive delivery has to begin with the first message of the history; if it was
  (`startReached`), every unchanged or exhaustive one has to.

## Results that needed a condition

Some promises hold only under a condition. Where it is exact the lemma says "exactly when", and a lemma with a
concrete input shows the failing case.

* Merging delivered messages keeps integrity exactly when no thread keeps both a server message and the local
  copy it is matched with (`MessageMerge.MergeIncomingIntegrity`, `MessageCounterexamples.StaleCopyDuplicates`).
* The branch that only rekeys does not sort. It keeps a sorted list sorted exactly when each changed position, a
  rekeyed ID or a redelivered copy with another time, still fits between its neighbours
  (`MessageOrder.MergeSortsExactly`; `MessageCounterexamples.RekeyLosesOrder` and `RetimedLosesOrder` fail it).
* Merging a pending thread into its realized one depends on the realized key being visited first
  (`MessageIntegrity.ReassignOrderExact`). The merge keeps descending times exactly when, wherever two copies of a
  message meet, the copy kept is not older than what follows it (`ThreadMerge.MergeTimeDescending`,
  `MessageIntegrity.ReassignTimeOrderIff`; `ThreadMerge.MergeOlderFirstCopyBreaksOrder` fails it).
* A message that a pending thread and its realized one both list takes the server copy out of the realized list. The
  held blocks survive exactly if, in each merge made, the server messages taken out are at the ends of the block, and
  none at its start where both threads have reached the start (`MessageHistory.ReassignContiguousIff`;
  `MessageHistory.SharedMessageLeavesBlock` fails it). Taking one out at all needs one local ID in two threads
  (`MessageHistory.ReassignContiguous`), which no action brings about unless its payload does
  (`MessageLocals.StepOneThread`).
* An acknowledged message keeps the held block contiguous exactly when it touches the block
  (`MessageHistory.SendSuccessContiguousIff`).
* A role that denies `child_P` after granting `descendant_P` takes `P` away from children
  (`PermissionDecision.CollisionLosesGrant`). What is held was always granted (`PermissionChain.PermissionSound`),
  and what is granted is lost exactly where the entry that decides denies it (`PermissionDecision.LostIff`); where no
  role denies what it propagates, the closed form is exact (`PermissionChain.PermissionClosedForm`).
* `calendarQueryDifference` names its two flags "were included" and "are included", but `filterExists(NOT_DELETED)`
  says that deleted entries are excluded. The code is modelled as it is: turning deleted entries on fetches none of
  them for days already shown (`CalendarQuery.CoverageIff`, `CalendarQuery.DeletedAreMissed`).
* The day index is right after an action exactly when the action meets a condition that only local creation,
  creation success and optimistic deletion have (`CalendarReducer.StepConsistentIff`); an action throws exactly when a
  delivered entry has no server ID or a visible one no date, or a local one lacks either (`CalendarRuns.StepReturnsIff`).
* The continuation of one request leaves another alone exactly unless it reports a timeout while the other is inflight
  (`InflightRequests.ContinuationIsLocal`). A timeout that is reported only after `rejectAll` rejects a request sent
  since (`InflightRequests.RejectedLeavesOthers`, `InflightRequests.LateTimeoutRejectsNext`).
* The initial socket message awaits two responses under one ID; a closing socket is then discarded too early
  (`SocketRuns.DiscardsSettled`, `SocketClose.SharedIDDiscardsTooEarly`). Without activity updates in an initial
  message every graceful close answers all its requests (`SocketIDs.GracefulClose`).
* Opening drops a socket that is still there, with a request that waits on it, exactly when the component is not
  frozen and has the cookie it needs (`usable`), Redux shows the socket as disconnected, or as disconnecting with a
  `readyState` other than 1, and `data` lists an unanswered request other than a ping
  (`SocketRuns.ReopeningStrandsIff`); two possible runs do so (`SocketRuns.ReopeningStrandsStateSync`,
  `SocketRuns.ReopeningStrandsRequest`).
* A batch takes each update to the thread as it was before the batch, and the last that changes it there wins. This is
  the result of the updates one at a time exactly when, for every thread, that update makes of it what all of them
  together should (`ThreadUpdates.BatchIsOneAtATimeIff`; for two updates, `ThreadUpdates.PairIsOneAtATimeIff`). Of two
  updates of one thread a batch may lose the first, the second or neither (`ThreadUpdates.LosesTheFirst`,
  `ThreadUpdates.LosesTheSecond`, `ThreadUpdates.LosesNothing`).

## Model

| member | source | states |
|---|---|---|
| MessageIds.FindMessageIDMaxLengths | lib/shared/message-utils.js:143-161 | the loop finds the longest local and the longest server ID |
| MessageIds.PaddedOrderIsNumeric | lib/shared/message-utils.js:163-174 | comparing padded server IDs of any length as strings is comparing their numbers |
| MessageIds.LocalPaddedOrderIsNumeric | lib/shared/message-utils.js:163-174 | the same for local IDs |
| MessageIds.LocalAboveServer | lib/shared/message-utils.js:163-174 | a padded local ID is above every padded server ID |
| MessageIds.OrderIgnoresWidth | lib/shared/message-utils.js:143-174 | the order of two IDs does not depend on the longest IDs they are padded with |
| MessageIds.SortDescDescending | lib/shared/message-utils.js:176-196 | the sort by (time, padded ID) really is descending |
| MessageModel.SortMessageIDsSorts | lib/shared/message-utils.js:188-196 | sorting IDs permutes them and orders them by what the given map holds |
| MessageModel.SortMessageIDsReads | lib/shared/message-utils.js:188-196 | the sort depends on the map only at the IDs it sorts |
| MessageModel.ProcessMessageStoreOperations | lib/reducers/message-reducer.js:648-682 | the imperative replay is the fold of the operations over the messages |
| MessageModel.ReplayConcat | lib/reducers/message-reducer.js:648-682 | replaying a concatenation is replaying its parts in turn |
| ThreadMerge.MergeThreadMessageInfos | lib/shared/message-utils.js:440-496 | the two-pointer loop terminates and computes the recursive merge |
| ThreadMerge.MergeMembers | lib/shared/message-utils.js:440-496 | every input ID is in the result or represented there by an ID of the same message, and nothing else is |
| ThreadMerge.MergeSuperseded | lib/shared/message-utils.js:440-496 | of disjoint lists, exactly the second-list IDs met by a first-list copy of their message are left out |
| ThreadMerge.MergeNoDup | lib/shared/message-utils.js:440-496 | disjoint duplicate-free lists give a duplicate-free list |
| ThreadMerge.MergeTimeDescending | lib/shared/message-utils.js:440-496 | time-descending lists merge into a time-descending list exactly when the kept copies are in order where copies meet |
| ThreadMerge.NewerCopiesInOrder | lib/shared/message-utils.js:440-496 | the condition holds in particular where no first copy is older than its second |
| ThreadMerge.MergeOlderFirstCopyBreaksOrder | lib/shared/message-utils.js:440-496 | an input that fails the condition, and its unordered result |
| PendingThreads.PendingToRealizedThreadIDs | lib/selectors/thread-selectors.js:385-414 | the loop computes the specified map |
| PendingThreads.PendingToRealizedSound | lib/selectors/thread-selectors.js:385-414 | each pending ID maps to a thread that prints as it, and each realized thread's pending ID is mapped |
| PendingThreads.PendingToRealizedPicksOldest | lib/selectors/thread-selectors.js:385-414 | the chosen thread has minimal creation time |
| PendingThreads.PendingToRealizedInjective | lib/selectors/thread-selectors.js:385-414 | no realized thread is chosen for two pending IDs |
| PendingIDs.MembersRoundTrip | lib/shared/thread-utils.js:265-306 | parsing a printed ID returns the thread type and the sorted members |
| PendingIDs.SidebarRoundTrip | lib/shared/thread-utils.js:265-306 | parsing a printed sidebar ID returns SIDEBAR and the source message |
| PendingIDs.ParsedIsWritten | lib/shared/thread-utils.js:286-306 | whatever parses is spelled by what was parsed |
| PendingIDs.MemberOrderIgnored | lib/shared/thread-utils.js:265-275 | printing ignores the order of members |
| PendingIDs.PrintingSeparates | lib/shared/thread-utils.js:265-275 | equal printed IDs come from equal types and members |
| MessageReducerLoops.MapThreadsToMessageIDs | lib/reducers/message-reducer.js:103-116 | the loop groups IDs by thread, in order |
| MessageReducerLoops.FreshMessageStore | lib/reducers/message-reducer.js:142-189 | the fresh store and its operations are the specified ones |
| MessageReducerLoops.ReassignMessageLoop | lib/reducers/message-reducer.js:205-229 | the message loop reassigns every message of a realized thread and logs each |
| MessageReducerLoops.ReassignThreadLoop | lib/reducers/message-reducer.js:231-251 | the thread loop moves or merges lists in the order the keys are visited |
| MessageReducerLoops.ReassignMessagesToRealizedThreads | lib/reducers/message-reducer.js:197-262 | the whole reassignment is the specified one |
| MessageReducerLoops.UpdateMessageStoreWithLatestThreadInfos | lib/reducers/message-reducer.js:576-633 | reassignment, removal of unwatched threads and addition of watched ones |
| MessageReducerLoops.AdoptDelivered | lib/reducers/message-reducer.js:307-415 | the mapped closure adopts each delivered message and records rekeyed local IDs |
| MessageReducerLoops.MergeListedThreads | lib/reducers/message-reducer.js:418-494 | the loop over threads with delivered messages merges each as specified |
| MessageReducerLoops.KeepOtherThreads | lib/reducers/message-reducer.js:496-519 | the loop over the other threads keeps each as specified |
| MessageReducerLoops.ResortThreads | lib/reducers/message-reducer.js:541-545 | exactly the marked threads are sorted by the scratch map |
| MessageReducerLoops.MergeNew | lib/reducers/message-reducer.js:270-569 | the whole of `mergeNewMessages`, loops and scratch map, computes the specified result and log |
| MessageReducerLoops.MergeUpdatesWithMessageInfos | lib/reducers/message-reducer.js:1426-1458 | the loops combine updates with a payload as specified |
| MessageReducerLoops.PruneThreads | lib/reducers/message-reducer.js:1123-1149 | the loop truncates the named threads and collects what it cuts |
| MessageIntegrity.ReassignMirror | lib/reducers/message-reducer.js:197-262 | the logged operations replay to the reassigned messages |
| MessageIntegrity.ReassignKeepsWF | lib/reducers/message-reducer.js:197-262 | reassignment never throws and keeps integrity, whatever the key order |
| MessageIntegrity.ReassignOrderExact | lib/reducers/message-reducer.js:231-251 | what becomes of a realized thread for each of the two key orders |
| MessageIntegrity.ReassignTimeOrderIff | lib/reducers/message-reducer.js:197-262 | reassignment, which redates every pending message, keeps all lists in descending time exactly when copies are in order in each merge it makes |
| MessageIntegrity.UpdatedKeepsWF | lib/reducers/message-reducer.js:576-633 | integrity, replay, and only known and watched threads afterwards |
| MessageMerge.MergeOpsReplay | lib/reducers/message-reducer.js:424-568 | the operations replay to: truncated threads dropped, delivered messages stored, rekeyed local IDs gone |
| MessageMerge.ScratchAgrees | lib/reducers/message-reducer.js:521-545 | the scratch map agrees with the replayed map and covers every list that is sorted |
| MessageMerge.ResortedThread | lib/reducers/message-reducer.js:424-545 | a resorted thread is sorted by what the store holds, duplicate-free, with exactly the delivered and the kept IDs |
| MessageMerge.FinalThreadMembers | lib/reducers/message-reducer.js:424-519 | each thread lists exactly the delivered and the kept IDs; the "could not find" invariant never fires |
| MessageMerge.MergeIncomingIntegrity | lib/reducers/message-reducer.js:417-569 | the merge keeps integrity exactly when no thread keeps a stale copy |
| MessageCounterexamples.StaleCopyDuplicates | lib/reducers/message-reducer.js:473-483 | a store and a delivery after which `mergeNewMessages` lists an ID twice |
| MessageCounterexamples.RekeyLosesOrder | lib/reducers/message-reducer.js:473-483 | a sorted store and a delivery that rekeys a message and leaves its list unsorted |
| MessageCounterexamples.RetimedLosesOrder | lib/reducers/message-reducer.js:473-483 | a sorted store and a redelivery that rekeys nothing and leaves its list unsorted |
| MessageRuns.MergeIntegrity | lib/reducers/message-reducer.js:270-569 | a fitting delivery never throws and keeps integrity exactly when there is no stale copy |
| MessageRuns.MergeSorts | lib/reducers/message-reducer.js:484-545 | a thread that mixes delivered and held IDs ends in descending (time, padded ID) order of the stored messages |
| MessageOrder.MergeSortsExactly | lib/reducers/message-reducer.js:417-545 | after a merge into sorted lists every thread's list is sorted, exactly unless the thread was only rekeyed and a change does not fit between its neighbours |
| MessageOrder.RekeyedSortedIff | lib/reducers/message-reducer.js:473-483 | the branch that only rekeys keeps a sorted list sorted exactly when each changed position fits |
| MessageOrder.DeliveredSorted | lib/reducers/message-reducer.js:424-471 | new and truncated threads list the delivered messages sorted |
| MessageOrder.LoginSorts | lib/reducers/message-reducer.js:142-189 | a fresh store lists every thread sorted |
| MessageRuns.FreshStoreMirror | lib/reducers/message-reducer.js:142-189 | remove_all and the replacements replay to the fresh store's keyed messages |
| MessageRuns.LoginKeepsWF | lib/reducers/message-reducer.js:693-716 | a login builds a store with integrity |
| MessageRuns.SendStartedKeepsWF | lib/reducers/message-reducer.js:887-968 | starting a send keeps integrity |
| MessageRuns.ReactionFailedKeepsWF | lib/reducers/message-reducer.js:986-1016 | removing a failed reaction keeps integrity |
| MessageRuns.SendSuccessKeepsWF | lib/reducers/message-reducer.js:1017-1096 | an acknowledgement keeps integrity |
| MessageRuns.SendSuccessSorts | lib/reducers/message-reducer.js:1017-1096 | an acknowledgement stores the message under its server ID, drops the local one, and sorts the thread |
| MessageRuns.PruneKeepsWF | lib/reducers/message-reducer.js:1123-1170 | pruning keeps integrity |
| MessageRuns.CreateLocalIntegrity | lib/reducers/message-reducer.js:1265-1309 | creating a local message keeps integrity exactly when its ID is listed nowhere |
| MessageRuns.MergeUpdatesDistinct | lib/reducers/message-reducer.js:1426-1458 | merging updates delivers each message once |
| MessageRuns.MergeUpdatesStatus | lib/shared/message-utils.js:253-271 | a thread's combined status is the strongest one given |
| MessageRuns.StepIntegrity | lib/reducers/message-reducer.js:688-1327 | a fitting action never throws and keeps integrity |
| MessageRuns.RunIntegrity | lib/reducers/message-reducer.js:688-1327 | integrity in every store that a fitting run reaches |
| MessageRuns.StepMirror | lib/reducers/message-reducer.js:688-1327 | for every action and store, the emitted operations replay to the new messages |
| MessageRuns.RunMirror | lib/reducers/message-reducer.js:688-1327 | folding all operations of any run over the initial messages gives the final ones |
| MessageLocals.StepOneThread | lib/reducers/message-reducer.js:688-1327 | every action whose payload respects it keeps each local ID in one thread |
| MessageHistory.MergedContiguous | lib/reducers/message-reducer.js:424-519 | a payload that meets its status's contract keeps a thread's server messages one block of its history |
| MessageHistory.ReassignContiguousIff | lib/reducers/message-reducer.js:197-262 | moving pending threads keeps every block exactly if each merge takes server messages out only at the ends of the held block |
| MessageHistory.ReassignContiguous | lib/reducers/message-reducer.js:197-262 | it does so where each local ID belongs to one thread |
| MessageHistory.SharedMessageLeavesBlock | lib/reducers/message-reducer.js:231-251 | a store with one local ID in two threads, on which moving a pending thread breaks a block |
| MessageHistory.PruneContiguous | lib/reducers/message-reducer.js:1123-1170 | pruning a newest-first list keeps the block |
| MessageHistory.SortedIsNewestFirst | lib/reducers/message-reducer.js:1123-1149 | a sorted list is newest first, which is what pruning needs |
| MessageHistory.LoginContiguous | lib/reducers/message-reducer.js:142-189 | a login starts with contiguous blocks |
| MessageHistory.SendSuccessContiguousIff | lib/reducers/message-reducer.js:1017-1096 | an acknowledged message keeps the block exactly when it touches it, or, in a thread without server messages, unless the start was taken to be reached and is not the message |
| MessageHistory.StepContiguous | lib/types/message-types.js:429-456 | one action under its truncation contract keeps every block and `startReached` |
| MessageHistory.RunContiguity | lib/types/message-types.js:429-456 | over every run, each thread holds one block of its growing history, from the start if `startReached`, and each local ID stays in one thread |
| Permissions.ParseThreadPermissionString | lib/permissions/prefixes.js:19-49 | parsing succeeds exactly on printed keys and inverts printing |
| Permissions.IncludesMeans | lib/permissions/prefixes.js:51-71 | which thread types each filter prefix lets through |
| Permissions.MakePermissionsBlob | lib/permissions/thread-permissions.js:56-108 | the loops build the specified insertion-ordered blob |
| Permissions.MakePermissionsForChildrenBlob | lib/permissions/thread-permissions.js:110-138 | the loop builds the specified blob for children |
| Permissions.LookupSet | lib/permissions/thread-permissions.js:56-138 | writing a key changes what that key holds and nothing else |
| PermissionChain.PropagatedClosedForm | lib/permissions/thread-permissions.js:56-138 | at any depth and for all roles, which descendant_ and child_ forms a blob holds, in terms of the roles on the path |
| PermissionChain.PermissionClosedForm | lib/permissions/thread-permissions.js:18-138 | at any depth, where no role denies a propagated form of it or of KNOW_OF, a permission is held exactly when the own role, the parent's child_ form or an ancestor's descendant_ form gives it, from roles in force and through every filter |
| PermissionChain.LiveReaches | lib/permissions/thread-permissions.js:99-101 | a role is in force exactly where KNOW_OF reaches |
| PermissionChain.ComputedOnce | lib/permissions/thread-permissions.js:56-138 | every chain of threads has exactly one sequence of blobs |
| PermissionChain.PermissionSound | lib/permissions/thread-permissions.js:18-138 | for all roles, a held permission is given by roles in force through every filter |
| PermissionChain.SourceOnPath | lib/permissions/thread-permissions.js:82-101 | for all roles, every grant's source is a thread on the path whose role, in force, granted it |
| PermissionChain.GetAllThreadPermissions | lib/permissions/thread-permissions.js:31-50 | every permission name gets its lookup value, and a source exactly if it is granted |
| PermissionDecision.DecidedIff | lib/permissions/thread-permissions.js:64-138 | a child inherits a permission exactly as the deciding entry of its parent's blob has it |
| PermissionDecision.PermissionDecided | lib/permissions/thread-permissions.js:56-138 | at any depth and for all roles, a permission is held exactly if the own role grants it and counts or the deciding entry grants it |
| PermissionDecision.LostIff | lib/permissions/thread-permissions.js:110-138 | what a role above grants is lost exactly if the deciding entry denies it |
| PermissionDecision.CollisionLosesGrant | lib/permissions/thread-permissions.js:110-138 | roles on which a permission that an ancestor sends down is not held |
| CalendarQuery.FilteredThreadIDs | lib/selectors/calendar-filter-selectors.js:12-27 | the loop collects the thread lists, or null without any |
| CalendarQuery.FilterFilters | lib/selectors/calendar-filter-selectors.js:36-47 | the loop drops the filters of one kind |
| CalendarQuery.FilterExists | lib/selectors/calendar-filter-selectors.js:75-85 | the loop finds a filter of a kind exactly if there is one |
| CalendarQuery.AdmitsMeans | lib/selectors/calendar-filter-selectors.js:12-27 | a query admits a thread exactly if it has no thread list or one that names it |
| CalendarQuery.FilterByCalendarQuery | lib/shared/entry-utils.js:99-114 | exactly the matching entries remain |
| CalendarQuery.CalendarQueryDifference | lib/shared/entry-utils.js:128-226 | the method returns the specified pieces |
| CalendarQuery.PiecesMatch | lib/shared/entry-utils.js:165-226 | exactly which entries the pieces ask for |
| CalendarQuery.Coverage | lib/shared/entry-utils.js:83-226 | an entry the new query asks for is in the old query or a piece, exactly unless it is a deleted entry of the excluded case |
| CalendarQuery.CoverageIff | lib/shared/entry-utils.js:136-151 | two queries are covered for all entries exactly unless the old one alone excludes deleted entries and they share a day and a thread |
| CalendarQuery.DeletedAreMissed | lib/shared/entry-utils.js:136-151 | two queries and an entry that show the excluded case |
| CalendarQuery.PiecesAreNew | lib/shared/entry-utils.js:165-226 | no piece asks again for an entry of the old query |
| CalendarQuery.PiecesDisjoint | lib/shared/entry-utils.js:165-226 | no entry is asked for by two pieces |
| CalendarQuery.PiecesBeyond | lib/shared/entry-utils.js:206-223 | a piece reaches beyond the new query only between two ranges that do not touch |
| CalendarQuery.PiecesAgreeOnDeleted | lib/shared/entry-utils.js:126-127 | all pieces treat deleted entries alike |
| CalendarEntries.MergeNewEntryInfos | lib/reducers/entry-reducer.js:102-174 | the three loops compute the specified entries and index |
| CalendarEntries.MergedEntries | lib/reducers/entry-reducer.js:153-173 | with or without the shortcut the entries are the current ones overwritten by the delivered ones, visible threads only |
| CalendarEntries.LastDelivered | lib/reducers/entry-reducer.js:111-150 | the last delivered copy is stored, with the localID of the copy it replaces |
| CalendarEntries.MergeIndexed | lib/reducers/entry-reducer.js:168-173 | the index is right after every merge, also on the path that skips recomputing it |
| CalendarEntries.MergeKeepsEntryKeys | lib/reducers/entry-reducer.js:114-144 | an entry that survives a merge keeps its React key |
| CalendarEntries.GroupedIndexed | lib/reducers/entry-reducer.js:79-91 | grouping keyed entries lists each day's keys exactly, once each |
| CalendarEntries.IndexIgnoresKeyOrder | lib/reducers/entry-reducer.js:79-91 | the index is the same for every order of the entries' keys |
| CalendarEntries.FilteredIndexed | lib/reducers/entry-reducer.js:93-100 | filtering the days with the entries keeps them in agreement |
| CalendarEntries.MergeUpdateEntryInfos | lib/reducers/entry-reducer.js:644-669 | the nested loops add each carried entry unless its ID is there |
| CalendarEntries.AddEachIDs | lib/reducers/entry-reducer.js:644-669 | exactly the IDs delivered directly or by an update are delivered |
| CalendarEntries.MarkDeletedEntries | lib/reducers/entry-reducer.js:705-724 | the loop marks the named entries that exist and changes nothing else |
| CalendarReducer.StepConsistentIff | lib/reducers/entry-reducer.js:176-642 | after any action the index agrees with the entries exactly when the action meets its condition |
| CalendarReducer.RunConsistent | lib/reducers/entry-reducer.js:176-642 | the index agrees with the entries at the end of every fitting run that returns |
| CalendarRuns.StepReturnsIff | lib/reducers/entry-reducer.js:79-642 | on dated entries an action throws exactly when its condition fails, and leaves dated entries |
| CalendarRuns.MergeReturnsIff | lib/reducers/entry-reducer.js:79-174 | a merge throws exactly if a delivered entry has no ID or a visible one ends without a date |
| CalendarRuns.RunReturns | lib/reducers/entry-reducer.js:176-642 | a fitting run over dated server entries never throws, and its index agrees with its entries |
| CalendarReducer.CreateLocalConsistentIff | lib/reducers/entry-reducer.js:300-324 | the condition on creating a local entry |
| CalendarReducer.CreateSuccessConsistentIff | lib/reducers/entry-reducer.js:325-362 | the condition on creation success: the created entry is carried, or gone |
| CalendarReducer.DeleteStartedConsistentIff | lib/reducers/entry-reducer.js:412-433 | the condition on optimistic deletion: its target exists |
| CalendarReducer.UncarriedCreateBreaksIndex | lib/reducers/entry-reducer.js:325-362 | a store and a creation success that break the index |
| CalendarReducer.DeauthorizeExact | lib/reducers/entry-reducer.js:182-219 | losing access removes exactly the entries of hidden threads |
| CalendarReducer.MergesHide | lib/reducers/entry-reducer.js:160-166 | after every merging action only entries of visible threads remain |
| InflightRequests.Inflight.FetchResponse | lib/socket/inflight-requests.js:69-120 | a valid request is appended, an invalid type throws and changes nothing |
| InflightRequests.Inflight.Conclude | lib/socket/inflight-requests.js:127-150 | the part after the await: conclusion, callbacks, and rejection of the others after a timeout |
| InflightRequests.Inflight.AfterVisualTimeout | lib/socket/inflight-requests.js:152-165 | a request becomes late unless it has concluded |
| InflightRequests.Inflight.AfterSocketTimeout | lib/socket/inflight-requests.js:166-168 | a request that still waits is rejected with a timeout |
| InflightRequests.Inflight.ClearRequest | lib/socket/inflight-requests.js:170-172 | exactly the one request leaves `data` |
| InflightRequests.Inflight.ResolveRequestsForMessage | lib/socket/inflight-requests.js:174-221 | exactly the inflight requests that the message answers are settled |
| InflightRequests.Inflight.RejectAll | lib/socket/inflight-requests.js:223-233 | `data` is emptied and what was in it rejected |
| InflightRequests.Inflight.AllRequestsResolvedExcept | lib/socket/inflight-requests.js:235-248 | true exactly if only pings and the excluded ID are inflight |
| InflightRequests.RunInv | lib/socket/inflight-requests.js:60-249 | in every interleaving `data` has no duplicate, no concluded request, and every waiting one |
| InflightRequests.ConcludedForGood | lib/socket/inflight-requests.js:127-150 | a concluded request keeps its result and is never in `data` again |
| InflightRequests.ConcludesOnce | lib/socket/inflight-requests.js:127-150 | a request is settled at most once, so its continuation, which every settlement schedules, runs at most once |
| InflightRequests.ResponsesFit | lib/socket/inflight-requests.js:127-139 | a resolved request got the message type it expects, for its ID: the unchecked cast is right |
| InflightRequests.RejectAllForGood | lib/socket/inflight-requests.js:223-233 | after `rejectAll`, in every later state of every interleaving, no earlier request is inflight or waits |
| InflightRequests.RejectedLeavesOthers | lib/socket/inflight-requests.js:127-150 | the continuation of a request that `rejectAll` found, whenever it runs, leaves another alone exactly unless the request had timed out before and the other is inflight |
| InflightRequests.LateTimeoutRejectsNext | lib/socket/inflight-requests.js:140-149 | a run in which a timeout reported after `rejectAll` rejects a request sent since |
| InflightRequests.ContinuationIsLocal | lib/socket/inflight-requests.js:127-150 | a continuation leaves another request alone exactly unless it reports a timeout while the other is inflight |
| SocketLifecycle.Socket.OpenSocket | lib/socket/socket.react.js:124-200 | the new state in each branch of opening |
| SocketLifecycle.Socket.CloseSocket | lib/socket/socket.react.js:210-231 | the new state in each branch of closing |
| SocketLifecycle.Socket.ForceCloseSocket | lib/socket/socket.react.js:233-243 | the new state of a forced close |
| SocketLifecycle.Socket.FinishClosingSocket | lib/socket/socket.react.js:245-272 | the socket is discarded only if all requests but the excluded are resolved; reopening |
| SocketLifecycle.Socket.ReceiveMessage | lib/socket/socket.react.js:401-433 | requests are resolved and a close that waits is tried again |
| SocketLifecycle.Socket.OnClose | lib/socket/socket.react.js:500-515 | the socket is dropped and its requests rejected |
| SocketLifecycle.Socket.UpdateStatus | lib/reducers/connection-reducer.js:31-34 | a status change forgets the late responses |
| SocketLifecycle.Socket.SetLateResponse | lib/reducers/connection-reducer.js:106-114 | the late set gains or loses one ID |
| SocketRuns.StepInv | lib/socket/socket.react.js:124-272 | every step keeps the socket's requests in order and its late IDs sound |
| SocketRuns.RunInv | lib/socket/inflight-requests.js:127-168 | under every interleaving each ID shown as late, but the -1 of a slow opening, is that of an unconcluded request past the visual timeout |
| SocketRuns.TimeoutDiscards | lib/socket/inflight-requests.js:140-149 | a request that times out ends the socket, whatever is inflight |
| SocketRuns.ReceiveDiscards | lib/socket/socket.react.js:422-433 | a message that lets a closing socket go leaves no request waiting exactly if it answers all requests of its ID |
| SocketRuns.DiscardsSettled | lib/socket/socket.react.js:124-272 | a step that discards the socket leaves every request but pings settled exactly when it meets its condition: a message answers all requests of its ID, an opener finds every listed request answered |
| SocketRuns.ReopeningStrandsIff | lib/socket/socket.react.js:124-150 | opening drops a socket with a request that waits exactly if the opener takes the socket for closed and `data` lists an unanswered request |
| SocketRuns.QuietReopening | lib/socket/socket.react.js:124-150 | with no continuation due, that is what `allRequestsResolvedExcept` would tell the opener |
| SocketRuns.ReopeningStrandsStateSync | lib/socket/socket.react.js:124-150 | a run in which reopening during a close leaves the state sync waiting |
| SocketRuns.ReopeningStrandsRequest | lib/socket/socket.react.js:717-744 | a run in which reopening after an unsupervised background leaves an API request waiting |
| SocketClose.DistinctAnswersAll | lib/socket/inflight-requests.js:174-221 | with distinct IDs a well-typed response answers all requests of its ID |
| SocketClose.LastResponseDiscards | lib/socket/socket.react.js:245-272 | a waiting close ends with the response to the last outstanding request and no other |
| SocketClose.ResponseProgress | lib/socket/socket.react.js:422-433 | any earlier response leaves a waiting close with one outstanding request less |
| SocketClose.CloseEnds | lib/socket/socket.react.js:210-272 | over any messages whose answers are of a type their requests take, a waiting close ends with as many answers as requests were outstanding, and not before |
| SocketClose.CloseSettles | lib/socket/socket.react.js:210-272 | a close that ends with such messages leaves no request waiting but pings |
| SocketClose.SharedIDDiscardsTooEarly | lib/socket/socket.react.js:535-564 | a run whose close discards the socket while the state sync still waits |
| SocketIDs.RunUnshared | lib/socket/socket.react.js:359-380 | in every run whose initial messages carry no activity updates, the requests of a socket have distinct IDs |
| SocketIDs.GracefulClose | lib/socket/socket.react.js:210-272 | in every such run, whatever such messages arrive, a waiting close ends with exactly the outstanding answers and leaves nothing waiting |
| SocketIDs.OneAnswerDecides | lib/socket/socket.react.js:422-433 | in every such run a message that lets the socket go leaves nothing waiting exactly if its request takes its type |
| SocketIDs.LateExplained | lib/socket/socket.react.js:174-198 | under every interleaving each late ID is that of an unconcluded late request, or the -1 of this socket's own slow opening |
| ThreadUpdates.GenerateOpsForThreadUpdates | lib/reducers/thread-reducer.js:56-129 | the loops generate the specified operations |
| ThreadUpdates.ProcessThreadStoreOperations | lib/reducers/thread-reducer.js:488-508 | the loop is the fold of the operations |
| ThreadUpdates.BatchEffect | lib/reducers/thread-reducer.js:56-129 | for all updates, a batch makes of each thread what the last update that changes it there makes of it before the batch |
| ThreadUpdates.OneAtATimeEffect | lib/reducers/thread-reducer.js:56-129 | for all updates, one at a time each acts on what the one before left of the thread |
| ThreadUpdates.BatchIsOneAtATimeIff | lib/reducers/thread-reducer.js:56-129 | for all updates, exactly when a batch equals its updates one at a time |
| ThreadUpdates.PairIsOneAtATimeIff | lib/reducers/thread-reducer.js:56-129 | for two updates: exactly if, for every thread, the second has the same effect before and after the first, or none after it where it has none before it |
| ThreadUpdates.BatchIsOneAtATime | lib/reducers/thread-reducer.js:56-129 | a batch that touches no thread twice equals its updates one at a time, in any order |
| ThreadUpdates.LosesTheFirst | lib/reducers/thread-reducer.js:63-99 | a thread update and a read-status update of one thread: the batch loses the first |
| ThreadUpdates.LosesTheSecond | lib/reducers/thread-reducer.js:63-99 | a thread update and one that takes it back: the batch loses the second |
| ThreadUpdates.LosesNothing | lib/reducers/thread-reducer.js:63-99 | a read-status update and a thread update: the batch loses nothing |
| Checkpoints.MessageCheckpointGrows | lib/reducers/message-reducer.js:547-550 | no message action but a login moves the message checkpoint back |
| Checkpoints.StepCheckpoints | lib/reducers/master-reducer.js:51-80 | one ordinary step never moves a checkpoint back, nor at all unless it ends connected |
| Checkpoints.RunCheckpoints | lib/reducers/master-reducer.js:51-80 | the same over every run without login, registration or state sync |
| SearchIndex.SearchIndex.AddEntry | lib/shared/search-index.js:29-48 | both indexes hold exactly what the added texts say, each ID once |
| SearchIndex.SearchIndex.GetSearchResults | lib/shared/search-index.js:50-79 | the results are exactly the IDs the naive search finds, once each |
| ChatItems.CollectReactions | lib/selectors/chat-selectors.js:315-350 | a user is in an emoji's set exactly if their latest such reaction adds it |
| ChatItems.LatestAddsMeans | lib/selectors/chat-selectors.js:315-350 | what "latest" means: an adding reaction with no newer one |
| ChatItems.BuildItems | lib/selectors/chat-selectors.js:352-481 | the loop that closes the previous item's cluster builds the specified items |
| ChatItems.CreateChatMessageItems | lib/selectors/chat-selectors.js:296-488 | items, clusters, conversations, reactions and the loader |
| ChatItems.ClusterUniform | lib/selectors/chat-selectors.js:370-383 | a cluster is composed by one user within one conversation |
| SidebarItems.PickSidebars | lib/selectors/chat-selectors.js:147-166 | read sidebars never crowd out unread ones, and both quotas are used up, earliest first |
| SidebarItems.CreateSidebarItems | lib/selectors/chat-selectors.js:137-187 | the rows, and "see more" exactly if a sidebar is left out while one is unread or recent |

## Left out

* `SET_CLIENT_DB_STORE` and `REHYDRATE`: they depend on what was persisted outside the model.
* Unshimming is the identity and message content is one opaque field; `messageSpecs` and robotext are not part of
  this model. The media list that a multimedia update maps over is part of that field.
* `_isEqual` is structural equality; properties that are present but undefined count as absent.
* Object identity: a shortcut that returns the old object, and one that returns an equal new one, are one value.
* Permission keys that do not parse (the source throws on them) do not occur in blobs: blobs are over parsed keys.
  A null role or blob is the empty one. `getRoleForPermissions` is one branch.
* Inconsistency reports, activity queues, actualized calendar queries and the disconnected bar.
* Dates are day numbers; an entry's year, month and day are one date, absent only when all are.
* The order in which a new local entry joins its day's list is not claimed, only the list's members.
* The text tokenizer is a library; keywords arrive lower-cased. Keywords that name properties every JavaScript object
  inherits (such as `constructor`) are outside the model of the index objects.
* In `InflightRequests`, requests are identified by their place in the list of all calls, in place of object
  references; timers and promise continuations are steps in any order, and a continuation runs once for each settlement.
* React's `setState` and `dispatch` are atomic; pings, listeners, throttling, session recovery after an auth error and
  the content of state syncs are not modelled. Sending is a step that does not fail.
* After a response, `SocketClose` lets the continuation of the answered request run before the next message, as
  microtasks do.
* Of `createChatMessageItems`: local message infos, robotext and the thread created from a message. Messages arrive
  looked up, merged with the additional ones and sorted; `startReached` arrives as `hideSpinner`.
* React components, HTTP, cookies, redux-persist, and the reducers with one branch per action.
- ThreadMerge.MergeTimeDescending: order is stated for time alone, because the merge compares times only.
- MessageHistory.RunContiguity: hypotheses of the run are the server's side of each payload's truncation contract, newest-first lists where pruning cuts, acknowledged messages that touch the held block, and payloads and an initial store in which a local ID belongs to one thread.
- PermissionChain.PermissionClosedForm: roles that deny a propagated form of the permission or of KNOW_OF are the subject of `PermissionDecision` instead.
