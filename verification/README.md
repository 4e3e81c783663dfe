# Verification of the app's supervision, sync and input core

This project models the parts of the mail client whose correctness depends on order: what happens to a child process, its
requests and its notifications when it crashes and is replaced; what a calendar sync may delete; what a key press means
after the user has rebound keys; what undo puts back. To verify it: `dafny verify dfyconfig.toml` (Dafny 4.11).

| file | models |
|---|---|
| `notification_queue.dfy` | the UI's notification queue as an object, measured against an admission log |
| `queue_wakeups.dfy` | its producers, consumer and `close` as interleaved tasks over two tokio `Notify` objects |
| `supervisor.dfy` | the initial spawn flow and any number of concurrent crash handlers of the Service child |
| `pending_requests.dfy` | requests in flight, on top of the supervisor |
| `generation_safety.dfy` | notifications across crashes, on top of the supervisor and the queue |
| `completion_waiters.dfy` | the rendezvous between completions and those who wait for them |
| `boot_app.dfy` | the Booting and Ready app that consumes the supervisor's events |
| `calendar_sync.dfy` | what discovery, upserts and the windowed reconcile make of the cached tables |
| `calendar_run.dfy` | the sync run as an object, for every page sequence, failure and cancellation point |
| `keybinding.dfy` | chords and bindings, their parser and printer |
| `binding_table.dfy` | the binding table as an object: overrides, reverse indexes, conflicts, the overrides file |
| `action_resolve.dfy` | optimistic toggles, undo payloads and rollback |
| `provider_state.dfy` | the double-checked client registry |
| `duration.dfy` | the RFC 5545 duration scanner |
| `headers.dfy` | the RFC 8098 read-receipt header |

Conventions. Concurrent code is a step relation: a step touches shared state at most once, what the operating system or
another process does is a parameter of the step, and a theorem quantifies over every legal sequence of steps. Code that
updates an object is a class whose methods are proved against functions of the old state; the lemmas are about those
functions. A history (`log`, `journal`, `trace`) is recorded by the model only; nothing in a protocol reads it.

Places where the code is weaker than a first reading of it suggests. Each has a lemma with a concrete input and, beside
it, the exact condition under which the expected property does hold:

- A Drop-class notification at capacity evicts the front of the queue whatever its class: `MustDeliverCanBeEvicted`.
  Nothing admitted is lost exactly when no Drop-class enqueue meets an open, non-empty queue at capacity
  (`NothingAdmittedIsLostIff`); a MustDeliver item is lost exactly when one finds a MustDeliver front
  (`MustDeliverIsLostIff`).
- A broadcast channel whose subscribers are all gone swallows a completion: `AbandonedChannelSwallows`. A routed result
  is lost exactly when such a channel, or a fresh result, is in the map (`RoutedResultIsLostIff`). A latched result serves
  exactly one late subscriber (`FirstResultServesOneLateSubscriber`), so a second one waits
  (`SecondLateSubscriberWaits`).
- Removing an override can bring back a binding conflict, and loading overrides can bring in one:
  `RemoveCanReintroduceAConflict`, `LoadCanIntroduceAConflict`. `RemoveKeepsConflictFree` and
  `ConflictFreeIffEveryCheckIsSilent` say exactly when they do not.
- The `+` key does not survive printing and parsing: `PlusDoesNotRoundTrip`. `RoundTripIff` says which bindings do.
- Undo of a toggle, and its rollback, go wrong when one thread is selected twice: `TwiceSelectedIsNotRestored`,
  `FlaggedTwiceIsNotRestored`, `TwiceSelectedIsNotRolledBack`. `UndoneRightIff` says for all targets and outcomes where
  undo is right, `CompletedAndUndoneRightIff` the same with the rollback of what failed in between, and
  `RollbackRestoresIff` when rolling back a whole record is.
- A child that is torn down after its handshake, and not through its crash handler, leaves its requests unanswered:
  `RequestIsLeftBehind`. `RequestIsLeftBehindIff` says that only such steps do.
- The duration scanner is documented to answer None for malformed text, but a `T` does not end the number before it:
  `MalformedAccepted`. `AcceptedExactly` gives the accepted texts.
- A pulled calendar event that does not convert to a row still counts as seen, so its old row stays:
  `UnconvertibleLeavesTheWindowInexact`. `WindowExactIff` says exactly when the cached window equals the remote one.
- The history stamp of a calendar changes its row without setting the run's `mutated` flag: `StampIsNotReported`. It is
  the only such write (`UnreportedIff`).
- The item whose generation check the UI had already passed when a crash came is still applied: `StaleItemIsApplied`.
  `StaleAppliedIff` says that nothing else can be.

## Model

| member | source | states |
|---|---|---|
| NotificationQueues.NotificationQueue.constructor | crates/app/src/notification_queue.rs:45-56 | a new queue is empty, open and explained by the empty log |
| NotificationQueues.NotificationQueue.EnqueueCoalesce | crates/app/src/notification_queue.rs:65-84 | replaces the key's slot in place, else appends if there is room, else drops the new item; the admission log still explains the queue |
| NotificationQueues.NotificationQueue.EnqueueDrop | crates/app/src/notification_queue.rs:86-96 | always admits on an open queue; at capacity the front goes |
| NotificationQueues.NotificationQueue.TryEnqueueMustDeliver | crates/app/src/notification_queue.rs:98-120 | one pass of the producer's loop: it parks exactly when the queue is open and full, otherwise its item is last |
| NotificationQueues.NotificationQueue.TryRecv | crates/app/src/notification_queue.rs:122-138 | one pass of the consumer's loop: front item, or end of stream only when closed and empty, or wait |
| NotificationQueues.NotificationQueue.Close | crates/app/src/notification_queue.rs:140-146 | closes for good and keeps what is queued |
| NotificationQueues.StepExplained | crates/app/src/notification_queue.rs:65-146 | every critical section keeps the refinement: one slot per key, creation order, justified fates, last value wins, the length bound |
| NotificationQueues.EveryHistoryExplained | crates/app/src/notification_queue.rs:40-146 | for every history the queue and all it delivered are explained by the admission log |
| NotificationQueues.DeliveredThenQueued | crates/app/src/notification_queue.rs:65-138 | delivered items followed by queued ones are the admitted slots in creation order minus the evicted |
| NotificationQueues.NothingAdmittedIsLostIff | crates/app/src/notification_queue.rs:65-138 | every admission is delivered or still queued exactly when no Drop-class enqueue meets an open, non-empty queue at capacity |
| NotificationQueues.MustDeliverIsLostIff | crates/app/src/notification_queue.rs:86-120 | a MustDeliver admission is evicted exactly when such an enqueue finds a MustDeliver item at the front |
| NotificationQueues.EvictedIff | crates/app/src/notification_queue.rs:86-96 | the same for every class of item |
| NotificationQueues.NothingAdmittedIsLostWithoutDrop | crates/app/src/notification_queue.rs:86-120 | without Drop-class enqueues every admitted item is delivered or still queued |
| NotificationQueues.MustDeliverCanBeEvicted | crates/app/src/notification_queue.rs:86-96 | a Drop-class item evicts a MustDeliver item |
| NotificationQueues.CapacityIsTheBound | crates/app/src/notification_queue.rs:65-120 | the length never exceeds the capacity, for exactly the capacities of at least one |
| QueueWakeups.NoLostWakeup | crates/app/src/notification_queue.rs:98-146 | in every interleaving a parked un-notified producer means full and open, a parked un-notified consumer empty and open |
| QueueWakeups.NeverBothStuck | crates/app/src/notification_queue.rs:98-138 | producers and consumer are never stuck together in any interleaving, exactly when the capacity is at least one |
| QueueWakeups.ZeroCapacityDeadlocks | crates/app/src/notification_queue.rs:98-138 | with no room both sides park for ever |
| QueueWakeups.DeliveryWithinThreeSteps | crates/app/src/notification_queue.rs:122-138 | with an item queued the consumer takes one within three of its own steps, whatever the others do, as long as its `recv` future is not dropped |
| QueueWakeups.DeliveryAndCloseUnpark | crates/app/src/notification_queue.rs:122-146 | a delivery, and a close, notify every parked producer |
| QueueWakeups.InterleavingsAreHistories | crates/app/src/notification_queue.rs:57-146 | the interleaved queue is the sequential queue of its critical sections |
| QueueWakeups.InterleavingsRefineTheLog | crates/app/src/notification_queue.rs:57-146 | every interleaving delivers what the admission log says |
| Supervisor.StepInv | crates/app/src/service_client.rs:2265-2712 | every step of the spawn flow or of any crash handler keeps the supervision invariant |
| Supervisor.SingleOwnership | crates/app/src/service_client.rs:1089-1100 | at most one of "a state is installed" and "one handler is between take and install"; installed generations are 1, 2, 3, ..., each launched exactly once |
| Supervisor.InstallNeverOverwrites | crates/app/src/service_client.rs:2508-2578 | a state is only ever installed into an empty slot |
| Supervisor.CrashLoopBound | crates/app/src/service_client.rs:2376-2506 | the counter equals the crashes since the last boot, launches follow records below three, the third is final and reported, delays stay on the ladder |
| Supervisor.DeadForever | crates/app/src/service_client.rs:2376-2506 | after giving up nothing is ever launched or installed again |
| Supervisor.BootEvents | crates/app/src/service_client.rs:2599-2679 | no BootReady before a ChildSpawned; all BootReady of the run carry one schema version |
| Supervisor.FailedBootIsTerminal | crates/app/src/service_client.rs:2278-2301 | a failed first boot: exactly one Terminal, one launch at most, no respawn |
| Supervisor.GenerationGrows | crates/app/src/service_client.rs:2315-2318 | the current generation never goes down |
| Supervisor.BackoffDoublesToTheCap | crates/app/src/service_client.rs:3304-3309 | the i-th delay after a reset is min(2^i, 30) seconds |
| PendingRequests.NoRequestSurvivesItsIncarnation | crates/app/src/service_client.rs:2120-2158 | once generation g's handler has drained, a call that held g's stdin sender has its own response or ServiceCrashed, or is over |
| PendingRequests.RequestIsLeftBehindIff | crates/app/src/service_client.rs:2303-2330 | throughout a run every unanswered request has its child installed or a crash handler that has yet to fail it, exactly when no step takes a state aside (failed boot, failed handshake, drop) while a request to it is unanswered |
| PendingRequests.StepLeavesBehindIff | crates/app/src/service_client.rs:2303-2330 | the same for one step from any state that satisfies the invariant |
| PendingRequests.RequestIsLeftBehind | crates/app/src/service_client.rs:2687-2713 | a run in which it happens: boot, crash, respawn, a request, another protocol version, torn down |
| PendingRequests.OwnResponseAndNoLeak | crates/app/src/service_client.rs:3403-3417 | a response reaches only the call whose id it carries; a finished call leaves no pending entry |
| PendingRequests.MailStep | crates/app/src/service_client.rs:3403-3417 | no step rewrites an answer or hands out an id again |
| PendingRequests.AnsweredOnce | crates/app/src/service_client.rs:3632-3670 | over every run a call is answered at most once |
| GenerationSafety.CoalesceTagNeverGoesDown | crates/app/src/service_client.rs:3165-3243 | while a key has a slot, the generation tag on it never goes down |
| GenerationSafety.NothingStaleFrom | crates/app/src/update.rs:265-278 | with a generation gone and none of its items past the check, none is ever applied again |
| GenerationSafety.StaleNeverApplied | crates/app/src/service_client.rs:3324-3390 | after the bump the UI applies nothing tagged by an older reader, except the one item already past its check |
| GenerationSafety.StaleAppliedIff | crates/app/src/update.rs:265-278 | from any state that satisfies the invariant a stale item can still be applied exactly when the UI holds one past its check |
| GenerationSafety.StaleItemIsApplied | crates/app/src/update.rs:265-278 | a run from the start in which it is: boot, read, check, crash, apply |
| BootApp.App.Update | crates/app/src/app.rs:932-946 | the app's next state for every message in either state |
| BootApp.App.UpdateBooting | crates/app/src/app.rs:705-800 | the Booting handler: takes the client on ChildSpawned, becomes Ready on BootReady, exits on a Terminal and when the splash is closed |
| BootApp.AppNeverPanics | crates/app/src/app.rs:705-732 | fed by any supervision run, with any other messages between, the `expect` never fires; Ready exactly after a BootReady; exiting exactly after a message that ends the app |
| BootApp.UnspawnedReadyPanics | crates/app/src/app.rs:713-718 | a BootReady with no ChildSpawned before it would panic |
| CompletionWaiters.PendingRuns.SweepLatched | crates/app/src/service_client.rs:269-280 | removes exactly the results older than the TTL |
| CompletionWaiters.PendingRuns.SubscribeOrConsume | crates/app/src/service_client.rs:1857-1886 | a latched result is taken out; otherwise the caller listens on the run's channel, a new one if there was none |
| CompletionWaiters.PendingRuns.Route | crates/app/src/service_client.rs:1922-1958 | sweeps, then sends to the waiters' channel or latches the first result |
| CompletionWaiters.OwnResultHandedOnce | crates/app/src/service_client.rs:1857-1958 | a subscriber only gets a result of its own run; a latched result goes to one late subscriber at most |
| CompletionWaiters.RegisteredGetsTheResult | crates/app/src/service_client.rs:1857-1958 | whoever subscribed before the route gets that result unless drained or dropped first, and receives it whatever comes after the route, a drain included |
| CompletionWaiters.OnlyADrainFails | crates/app/src/service_client.rs:252-268 | a waiter fails only by a crash drain |
| CompletionWaiters.FirstResultServesOneLateSubscriber | crates/app/src/service_client.rs:1857-1958 | with no entry for the run the first result is kept through any steps but a crash, and handed out exactly once in every continuation: to the first late subscriber within the TTL |
| CompletionWaiters.LatchStays | crates/app/src/service_client.rs:1922-1958 | within its TTL a latched result stays as it is until a lookup or a crash |
| CompletionWaiters.RouteLeavesNothingStale | crates/app/src/service_client.rs:269-280 | no latched result older than the TTL survives a route |
| CompletionWaiters.LateSubscriberTakesTheLatch | crates/app/src/service_client.rs:1857-1886 | a late subscriber takes the latched result, which was within the TTL |
| CompletionWaiters.SecondLateSubscriberWaits | crates/app/src/service_client.rs:1857-1886 | a second late subscriber is not served |
| CompletionWaiters.RoutedResultIsLatchedIff | crates/app/src/service_client.rs:1922-1958 | a routed result is latched exactly when the swept map has no entry for the run |
| CompletionWaiters.RoutedResultIsLostIff | crates/app/src/service_client.rs:1922-1958 | a routed result reaches nobody exactly when the swept map has a fresh result, or a channel without registered listeners |
| CompletionWaiters.AbandonedChannelSwallows | crates/app/src/service_client.rs:1857-1958 | subscribe, drop, route, subscribe: the result is gone |
| CalendarSync.GoneMeansIntersecting | crates/calendar/src/sync.rs:532-560 | the candidate query and the delete decision together select exactly the absent rows that intersect the window |
| CalendarSync.WindowSyncPointwise | crates/calendar/src/sync.rs:415-515 | what pull and reconcile do to each key, for every pull |
| CalendarSync.WindowExactIff | crates/calendar/src/sync.rs:144-172 | after any pull the calendar's rows in the window are exactly the remote ones if and only if no such row was seen only unconvertibly, or reported failed and not pulled; after an empty one, if and only if there was no such row |
| CalendarSync.WindowBecomesExact | crates/calendar/src/sync.rs:144-172 | in particular after a failure-free pull of convertible events |
| CalendarSync.OutsideUntouched | crates/calendar/src/sync.rs:415-515 | a row not pulled that is elsewhere, outside the window, seen or reported failed is unchanged |
| CalendarSync.UnconvertibleKeepsItsRow | crates/calendar/src/sync.rs:320-409 | an event that does not convert counts as seen |
| CalendarSync.UnconvertibleLeavesTheWindowInexact | crates/calendar/src/sync.rs:320-409 | a cached event pulled again unconvertibly leaves the window inexact |
| CalendarSync.SameWindow | crates/calendar/src/sync.rs:361-369 | pull and reconcile use the same window in seconds exactly when its ends are representable timestamps, or the epoch |
| CalendarSync.UpsertAllConcat | crates/calendar/src/sync.rs:320-359 | storing page by page is storing everything at once |
| CalendarSync.DiscoveryPointwise | crates/calendar/src/sync.rs:98-134 | what discovery does to each calendar row; an empty listing changes nothing |
| CalendarSync.DiscoveryRemovesOnlyExpired | crates/db/src/db/queries_extra/calendar_contacts_writes.rs:140-190 | discovery removes an event only with a calendar omitted for at least seven days |
| CalendarSync.TargetsAreVisibleAndListed | crates/calendar/src/sync.rs:231-246 | the calendars pulled are exactly the visible ones the backend lists |
| CalendarRun.SyncRun.constructor | crates/calendar/src/sync.rs:37-64 | a run starts unmutated on the given tables |
| CalendarRun.SyncRun.ApplyEventPage | crates/calendar/src/sync.rs:376-409 | one page is stored whole or not at all; reports exactly whether a row changed |
| CalendarRun.SyncRun.PullRange | crates/calendar/src/sync.rs:320-359 | on success the requests form a complete cursor chain for one window, all events are stored, keys and failures are theirs; on failure all pages but perhaps the last are stored |
| CalendarRun.SyncRun.ReconcileWindow | crates/calendar/src/sync.rs:415-515 | removes exactly the rows the pull proves gone, returns their number, does nothing after an empty pull or a failed transaction |
| CalendarRun.SyncRun.SyncActiveWindow | crates/calendar/src/sync.rs:144-172 | one calendar pulled and reconciled; on an error nothing was reconciled |
| CalendarRun.SyncRun.Discover | crates/calendar/src/sync.rs:98-134 | discovery in one transaction, with an exact change report |
| CalendarRun.SyncRun.BackfillHistory | crates/calendar/src/sync.rs:267-300 | the four history slices, oldest first, upserts only, then the stamp; skipped when stamped |
| CalendarRun.SyncRun.BackfillAll | crates/calendar/src/sync.rs:174-213 | one calendar's failure does not keep the others from their turn; unless cancelled the first error is the result |
| CalendarRun.SyncRun.SyncAccount | crates/calendar/src/sync.rs:66-214 | every exit leaves a valid journal and an exact `mutated`; success means every visible listed calendar was pulled and backfilled |
| CalendarRun.SyncRun.CalendarSyncAccount | crates/calendar/src/sync.rs:37-64 | `mutated` is true exactly when a committed write changed a row, whatever the result |
| CalendarRun.SyncRun.MarkHistoryBackfilled | crates/calendar/src/sync.rs:578-593 | stamps the calendar and does not set `mutated` |
| CalendarRun.DeleteRows | crates/calendar/src/sync.rs:440-512 | the loop over the candidates leaves exactly the reconciled rows, in any candidate order |
| CalendarRun.ReconcileNeverGuesses | crates/calendar/src/sync.rs:423-515 | wherever a run ends, each reconciled row had a completed non-empty pull of its calendar before it, was unseen, not failed, and intersects the window |
| CalendarRun.UnmutatedLeavesTheTables | crates/calendar/src/sync.rs:30-36 | a run that reports no mutation left all rows as they were, history stamps aside |
| CalendarRun.MutatedMeansAWrite | crates/calendar/src/sync.rs:135-173 | a run reports a mutation exactly when some committed write changed the tables |
| CalendarRun.UnreportedIff | crates/calendar/src/sync.rs:578-593 | a write changes the tables unreported exactly when it is a history stamp new to some row |
| CalendarRun.StampIsNotReported | crates/calendar/src/sync.rs:578-593 | a first backfill stamp is such a write |
| CalendarRun.SlicesMeetTheWindow | crates/calendar/src/sync.rs:274-280 | the history slices end where the active window starts |
| KeyBindings.ParseChord | crates/cmdk/src/keybinding.rs:172-199 | the parse loop computes the parse function, first error included |
| KeyBindings.FormatWithModifierLabel | crates/cmdk/src/keybinding.rs:214-237 | the buffer holds the modifier names joined by `+` and the key |
| KeyBindings.NamesParseBack | crates/cmdk/src/keybinding.rs:40-111 | each named key parses back from its name |
| KeyBindings.RoundTripIff | crates/cmdk/src/keybinding.rs:290-314 | printed for storage or display, a binding parses back exactly when its characters are in lower case and not `+` |
| KeyBindings.ParsedBindingsArePrintable | crates/cmdk/src/keybinding.rs:290-299 | whatever text parses yields such a binding |
| KeyBindings.ReprintedIsStable | crates/cmdk/src/keybinding.rs:290-314 | reading and printing again settles |
| KeyBindings.PlusDoesNotRoundTrip | crates/cmdk/src/keybinding.rs:172-199 | the plus key never parses back |
| BindingTables.RebuildReverse | crates/cmdk/src/keybinding.rs:620-647 | in any iteration order: every index entry is a real binding, every binding has an entry |
| BindingTables.ResolvedCommandsHaveTheBinding | crates/cmdk/src/keybinding.rs:427-444 | in every table pending means a sequence starts so, a resolved command has that binding, a bound key resolves |
| BindingTables.ConflictFreeResolvesExactly | crates/cmdk/src/keybinding.rs:427-444 | without conflicts a command is resolved by exactly its own binding |
| BindingTables.CheckChordConflict | crates/cmdk/src/keybinding.rs:584-598 | finds another command in the index exactly when there is one |
| BindingTables.CheckSequenceConflict | crates/cmdk/src/keybinding.rs:600-618 | the same for sequences |
| BindingTables.BindingTable.constructor | crates/cmdk/src/keybinding.rs:390-413 | a new table has the defaults and agreeing indexes |
| BindingTables.BindingTable.CheckConflict | crates/cmdk/src/keybinding.rs:467-472 | what it reports does clash; without conflicts in the table it reports one exactly when another command clashes |
| BindingTables.BindingTable.SetOverride | crates/cmdk/src/keybinding.rs:477-484 | rejected changes nothing, accepted sets one entry and keeps the table conflict-free |
| BindingTables.BindingTable.Unbind | crates/cmdk/src/keybinding.rs:487-490 | keeps the table conflict-free |
| BindingTables.BindingTable.RemoveOverride | crates/cmdk/src/keybinding.rs:493-496 | stays conflict-free exactly when a check of the default beforehand finds nothing |
| BindingTables.BindingTable.LoadOverrides | crates/cmdk/src/keybinding.rs:417-420 | replaces all overrides, indexes agree |
| BindingTables.BindingTable.ResetAll | crates/cmdk/src/keybinding.rs:499-502 | clears all overrides, indexes agree |
| BindingTables.BindingTable.SaveOverrides | crates/cmdk/src/keybinding.rs:514-544 | one entry per override, no file when there is none, and the error when the file system refuses |
| BindingTables.BindingTable.LoadOverridesFromFile | crates/cmdk/src/keybinding.rs:551-582 | one override per readable entry; a missing, unreadable or malformed file changes nothing |
| BindingTables.ReadEntries | crates/cmdk/src/keybinding.rs:561-577 | the loop over the entries skips exactly those with an unknown id or an unparseable binding |
| BindingTables.SetKeepsConflictFree | crates/cmdk/src/keybinding.rs:477-490 | setting one entry keeps a table conflict-free exactly when no other command clashes |
| BindingTables.RemoveKeepsConflictFree | crates/cmdk/src/keybinding.rs:493-496 | removing one does exactly when the default clashes with no other command |
| BindingTables.RemoveCanReintroduceAConflict | crates/cmdk/src/keybinding.rs:493-496 | a table for which it does not |
| BindingTables.LoadCanIntroduceAConflict | crates/cmdk/src/keybinding.rs:417-420 | overrides that bind two commands alike make a conflict |
| BindingTables.SilentMeansNoClash | crates/cmdk/src/keybinding.rs:584-618 | in a conflict-free table a silent check means no clash, and only that |
| BindingTables.ConflictFreeIffEveryCheckIsSilent | crates/cmdk/src/keybinding.rs:417-420 | a loaded table is conflict-free exactly when checking each command's own binding finds nothing |
| BindingTables.SavedOverridesLoadBackIff | crates/cmdk/src/keybinding.rs:514-582 | with an invertible id codec saved overrides load back unchanged exactly when all are printable |
| ActionResolve.ThreadList.BuildExecutionPlan | crates/app/src/action_resolve.rs:733-802 | flips the listed targets one after the other; operations and record stay aligned when targets have vanished |
| ActionResolve.ToggledAt | crates/app/src/action_resolve.rs:759-790 | a listed thread ends flipped after an odd number of selections, all else is unchanged |
| ActionResolve.RecordedAt | crates/app/src/action_resolve.rs:759-790 | the first selection records the value before the action, a second one the opposite |
| ActionResolve.HistoryShape | crates/app/src/action_resolve.rs:759-790 | only listed targets are recorded |
| ActionResolve.GroupByKey | crates/app/src/action_resolve.rs:460-505 | one group per key, with exactly the threads on which the action took, in the order of the keys: account, then false before true |
| ActionResolve.BuildUndoPayloads | crates/app/src/action_resolve.rs:440-458 | none for irreversible or failed plans; else one payload per account, or per account and previous value |
| ActionResolve.InversePlanWrites | crates/app/src/handlers/commands.rs:994-1116 | the inverse plan of a toggle consists of exactly these writes, in this order |
| ActionResolve.UndoInverts | crates/app/src/action_resolve.rs:460-527 | for distinct targets and any outcomes undo restores exactly the threads on which the action took and touches no other |
| ActionResolve.InExactlyOnePayload | crates/app/src/action_resolve.rs:460-527 | for distinct targets each such thread is in one payload, under its account and earlier value |
| ActionResolve.UndoneRightIff | crates/app/src/action_resolve.rs:460-527 | for any targets and outcomes undo is right at a position exactly when the flag was on just in case an entry on which the action took recorded it on |
| ActionResolve.UndoRestoresIff | crates/app/src/action_resolve.rs:460-527 | if the action took on every entry, undo restores the list exactly when no unflagged thread is selected twice |
| ActionResolve.TwiceSelectedIsNotRestored | crates/app/src/action_resolve.rs:460-527 | an unflagged thread selected twice ends up flagged |
| ActionResolve.FlaggedTwiceIsNotRestored | crates/app/src/action_resolve.rs:460-527 | a flagged thread selected twice ends up unflagged if the first operation changed nothing |
| ActionResolve.UniformUndoCovers | crates/app/src/action_resolve.rs:529-622 | undo of a uniform action covers exactly the threads on which it took, each under its own account |
| ActionResolve.ThreadList.RollbackOptimistic | crates/app/src/handlers/commands.rs:733-797 | writes the recorded values back in order, each to its own field |
| ActionResolve.RollbackRestoresIff | crates/app/src/handlers/commands.rs:733-797 | rollback restores the list exactly when each listed target is selected an odd number of times or never |
| ActionResolve.TwiceSelectedIsNotRolledBack | crates/app/src/handlers/commands.rs:733-797 | a thread selected twice ends up flipped by the rollback |
| ActionResolve.ThreadList.HandleActionCompleted | crates/app/src/handlers/commands.rs:803-875 | rolls back all, none or exactly the failed entries, then builds the payloads of those that took |
| ActionResolve.CompletionThenUndoInverts | crates/app/src/handlers/commands.rs:803-875 | for distinct targets with one outcome each, after completion and undo every thread is as before the action, except those whose operation changed nothing, which stay flipped |
| ActionResolve.CompletedAndUndoneRightIff | crates/app/src/handlers/commands.rs:803-875 | for any targets and outcomes completion and undo are right at a position exactly when the value written last is the thread's own |
| ProviderStates.ProviderState.GetOrTryInsertWith | crates/common/src/state.rs:53-77 | a hit builds nothing, a failed build writes nothing, a client cached meanwhile wins |
| ProviderStates.ProviderState.Get | crates/common/src/state.rs:31-43 | the cached client or an error |
| ProviderStates.FirstCachedStays | crates/common/src/state.rs:53-77 | over every interleaving without other writes to the account, its entry never changes and every success returned it |
| ProviderStates.AllCallsAgree | crates/common/src/state.rs:53-77 | any two successful calls return the same client |
| ProviderStates.CachedWasBuilt | crates/common/src/state.rs:53-77 | the cached client was built by one of the calls |
| ProviderStates.RemovalSplitsCalls | crates/common/src/state.rs:80-82 | a removal in between splits the calls |
| Durations.Iso8601DurationMinutes | crates/calendar/src/idmap.rs:491-523 | the character loop computes the scan function |
| Durations.ScanBody | crates/calendar/src/idmap.rs:496-522 | the loop after the P, with its overflow checks |
| Durations.ExactOnTheGrammar | crates/calendar/src/idmap.rs:491-523 | on section 3.3.6 of RFC 5545: the floor of total seconds over 60, None exactly when the total exceeds 64 bits |
| Durations.AcceptedInRange | crates/calendar/src/idmap.rs:491-523 | for every input an accepted result lies in 0..i64::MAX/60 |
| Durations.AcceptedExactly | crates/calendar/src/idmap.rs:491-523 | for every input: when it is accepted, and with which result |
| Durations.MalformedAccepted | crates/calendar/src/idmap.rs:483-503 | a text outside the grammar that is accepted |
| Headers.InjectReadReceiptHeader | crates/common/src/headers.rs:7-58 | the buffer is the message with the header spliced in, or the message |
| Headers.InjectedIff | crates/common/src/headers.rs:7-43 | changed exactly when no receipt is asked for yet, a sender is named and the headers end |
| Headers.KeepsHeadersAndBody | crates/common/src/headers.rs:39-57 | old header lines, then the new one, then the first blank line; the body is unchanged |
| Headers.AsksAfterwards | crates/common/src/headers.rs:10-19 | the result asks for a receipt exactly when the original did or was changed |
| Headers.Idempotent | crates/common/src/headers.rs:7-58 | a second injection changes nothing |

## Left out

- Process spawning, pipes, signals, watchdogs and wall-clock budgets are steps that may happen with any outcome.
- A healthy child can be recycled: the hand-off after a failed handshake re-reads the current generation
  (crates/app/src/service_client.rs:2492), so it may name a newer incarnation. The contrary is not claimed.
- PendingRequests.RequestIsLeftBehindIff: what looks after a request is an installed child or a crash handler. The old
  reader may still fail what is pending after a failed boot, and a dropped client fails it right after its state is taken.
- PendingRequests.NoRequestSurvivesItsIncarnation: heartbeat pings are not covered, because they bring their own stdin
  sender and do not look at the installed state after registering.
- GenerationSafety.CoalesceTagNeverGoesDown: the reader's gate and its coalesce enqueue, which does not wait, are one step.
- The pending requests are a plain set. The iteration of `fail_pending` over its sharded map is not one snapshot: in
  PendingRequests it lists what is pending at one moment and may add any id that is inserted later.
- CompletionWaiters.OwnResultHandedOnce: results are numbers of routes; payload types of the three maps are not modelled.
- JSON encoding, tracing, the one-line RPC wrappers and the views.
- Attendee, reminder and CalDAV-map tables of the calendar, and the text of the SQL; the columns of an event that nothing
  here depends on are one `content` value. A transaction that fails has one error, at its commit.
- RRULE expansion is a parameter, and so is the range of the timestamp library; 64-bit overflow of window arithmetic is
  not modelled.
- CalendarRun.SyncRun.SyncAccount: the order of the visible calendars is arbitrary, where the query sorts by primary and name.
- BindingTables.BindingTable.SaveOverrides: what a refused write leaves in the file is not said; creating the directory
  and writing the file fail as one.
- The debug-build panic on duplicate default bindings.
- ActionResolve.ThreadList.RollbackOptimistic: the star shown in the reading pane is not modelled.
- In the Ready app only what ends it is modelled: a Terminal, and the end of the shutdown that closing the window starts.
- `resolve_intent`, `completion_behavior` beyond its undo class, undo descriptions and toasts are finite tables.
- Headers.InjectReadReceiptHeader: ASCII messages only; the lossy decoding of other bytes and the base64url wrapper are not modelled.
- ProviderStates: clients are identities; the encryption key is left out.
