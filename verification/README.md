# Myko in Dafny

Myko is an event-sourcing framework with reactive queries: commands change stores, queries and reports are live
views of stores, and clients receive diffs over WebSocket. This project models the parts of it whose correctness
depends on interleaving, on incremental state, or on two pieces of code agreeing, and proves what they promise.

| files | component |
|---|---|
| `AutosocketModel`, `AutosocketInvariants`, `AutosocketRuns`, `AutosocketProgress`, `AutosocketPace`, `AutosocketDial`, `AutosocketFlow`, `AutosocketClass` | the auto-reconnecting socket: callers of `set_addr`, the driver, and the reader and writer task of each session, as interleaved steps over one shared state |
| `QueryStoreSpec`, `QueryReadiness`, `QueryProjection`, `QueryHistory`, `QueryStoreClass` | the query store of the GPUI client: a cache of a reactive map fed by one queue of diffs, readiness and connection events, and the row list that observes it |
| `Fingerprint`, `Inspection`, `InspectionCounts`, `Diagnostics`, `DiagnosticsCounts`, `DiagnosticsExample`, `DiagnosticsClass` | delivery diagnostics: flattening of JSON to leaf fingerprints, replay of query responses, and memory accounting per connection |
| `RouteArms`, `Routing` | the filter queries emitted for an item type: index route followed by a filter |
| `UnionSource`, `IndexOrders`, `BelongsToIndex`, `UnionOverStore`, `UnionOrders`, `UnionSafety`, `UnionRuns`, `UnionSettling`, `UnionHarm`, `UnionExample`, `LiveRoute` | the reactive sources behind routes: an index that splits store diffs by key and every order in which it may hand them out, its queue and single drainer, the union of several buckets, and the routed view while the store changes |
| `BlockingLane`, `BlockingLaneClass` | the blocking-work lane: semaphore, counters, cancellation, closed receivers, panics |
| `CommaScanner`, `CommaTokens` | the scanner that splits TypeScript object bodies at top-level commas |
| `GraphEnsure`, `GraphEnsureProposals`, `GraphEnsureOrders`, `GraphPlans`, `LiveGraphPlan` | the generated graph commands and queries: concurrent Ensure, and direct-key plans |
| `Common` | option type, subsequences, sums over maps |

Protocols are step systems: a state, a step type, `Enabled` and `Apply` (or a step relation where the source leaves
a choice open), and theorems over every run. Objects that the source updates in place are classes whose methods are
proved against the same specification functions; the theorems are about those functions.

## Where the code and its promises part

* **Socket status during a teardown.** A driver that waits for a cancelled session to end has already consumed the
  change, and `actual_status` still names the old address (libs/autosocket/src/native.rs:370-399).
  `AutosocketRuns.StaleDuringTeardownHappens` gives the run, `AutosocketRuns.TeardownIsStaleIff` says exactly when,
  and `AutosocketRuns.NoReaddressLost` proves the promise at every point where the driver listens for a change.
* **Notifications of the query store.** The documentation says the entity notifies only when membership or readiness
  changes (libs/myko/gpui/src/remote.rs:337). `QueryStoreSpec.NotifiesInVainIff` says exactly when an event notifies
  although neither did: a diff disturbs the key list of a ready store and leaves every key a member exactly when it
  was one; a published snapshot names the members a ready store has; or any other signal or error meets a store that
  is not ready. `QueryStoreSpec.NotificationWithoutChange` is one such event, an insert and a remove in one batch.
* **Snapshots of the query store.** The code's own comment restricts the lock to its callbacks
  (libs/myko/gpui/src/remote.rs:638-642). If a signal captures its snapshot ahead of diffs still to be enqueued, a
  ready store can show a state the source never had (`QueryHistory.TransientStateHappens`), until the queue is
  drained (`QueryProjection.ReadyStoreIsSource` needs no such restriction). `QueryHistory.ShowsPastIff` gives the
  exact condition over runs: each signal either does not make the store ready, or the diffs outstanding when it
  captured lead from the present source only through states the source has had.
* **Union sources.** The comment on the union says that no collision handling is needed between buckets
  (libs/myko/core/src/core/query/registration.rs:613-619). The groups of one diff leave a hash map in any order, so a
  row that moves from one key of the union to another can be inserted by its new bucket before its old bucket
  removes it, and is then missing (`UnionSafety.MovedRowKeptIff`). `UnionOrders.DiffSafeIff` says which diffs leave a
  right union right in every order: those in which no row that ends under a key of the union is named, where it is
  named last, for another of its keys. `UnionSafety` spells that out for flat batches, snapshots and single changes.
  A union that starts to observe a bucket made while older actions are still queued can lose a row although every
  diff is safe (`UnionExample.SafeDiffsAreNotEnough`). `UnionHarm.NeverWrongIff` covers both: no step of a run can
  ever leave the union wrong if and only if each diff is safe for the keys that have buckets, and each new bucket of
  the union starts with rows that nothing queued for the union touches.
* **Unchanged frames.** After a frame that could not be inspected, a delete of an item whose fingerprint was dropped
  counts as unchanged although the client's data changed; `DiagnosticsExample.DroppedBaselineMisjudges` is a whole
  connection on which that happens. `Inspection.QuietUnlessBlind` says exactly which changes are misjudged and
  `Inspection.WrongVerdictIff` exactly which frames.
* **Ensure and reused ids.** Two Ensure commands on one pair can both answer `created`
  (`GraphEnsure.SharedIdCreatesTwice`). `GraphEnsureProposals.NeverBothCreateIff` says which proposals rule that out
  whatever is stored: exactly those where the two propose different ids and no other command reuses one of these for
  another pair. `GraphEnsureOrders.BothCreateIffOrder` decides it for given stored edges, moved or not, by the
  orders in which the writes may come.

## Model

| member | source | states |
|---|---|---|
| AutosocketRuns.IntendedSettles | libs/autosocket/src/native.rs:166-214 | in every run, once no caller is between its bump and its exit, the intended status is connected to the final address, or idle if there is none, however the calls interleaved |
| AutosocketInvariants.CallersConvergeKept | libs/autosocket/src/native.rs:195-213 | every step keeps: the intended status is right already, or some caller still has a write to do or a check that will fail |
| AutosocketRuns.LoopTurnsArePaid | libs/autosocket/src/native.rs:195-213 | extra turns of a caller's publishing loop never exceed the generation bumps made since its own |
| AutosocketInvariants.WatchMirrorsControlKept | libs/autosocket/src/native.rs:168-193 | the watch value always is the generation, address and queue of the control record |
| AutosocketInvariants.DriverFitsKept | libs/autosocket/src/native.rs:252-417 | at each of the driver's points every step keeps what it holds, what it has seen and what the actual status says in agreement |
| AutosocketRuns.NoReaddressLost | libs/autosocket/src/native.rs:252-417 | a listening driver either has an unseen version to wake it, or works for the current value and names no other address |
| AutosocketRuns.ConnectsAreFresh | libs/autosocket/src/native.rs:261-287 | whatever the driver works for is the value of the last version it saw, so no connect uses a consumed change's old value |
| AutosocketRuns.LiveServesCurrent | libs/autosocket/src/native.rs:385-406 | a connected driver with nothing unseen serves the current address through a session of the current generation and queue |
| AutosocketRuns.StaleDuringTeardownHappens | libs/autosocket/src/native.rs:370-376 | a reachable state in which the driver waits with nothing unseen while the status names an old address |
| AutosocketRuns.TeardownIsStaleIff | libs/autosocket/src/native.rs:370-399 | during a teardown the status is stale if and only if the torn-down generation had another address |
| AutosocketRuns.StaleStatusOnlyBetweenGenerations | libs/autosocket/src/native.rs:261-308 | a stale status with nothing unseen occurs at a teardown or where the driver is not waiting, nowhere else |
| AutosocketRuns.WrittenInOrderOnce | libs/autosocket/src/native.rs:469-491 | over all reconnects, the frames written for a generation are an in-order subsequence without repeats of the frames its queue accepted |
| AutosocketRuns.SessionsDoNotMix | libs/autosocket/src/native.rs:353-413 | no frame of one generation's queue is written by a session of another, and at most one session is alive |
| AutosocketInvariants.OneSessionKept | libs/autosocket/src/native.rs:370-413 | every step keeps: all sessions but the last have finished, and the driver knows whether the last has |
| AutosocketInvariants.WireKept | libs/autosocket/src/native.rs:469-491 | every step keeps the wire ordered per queue and every writer ahead of what was written |
| AutosocketRuns.NoStaleInbound | libs/autosocket/src/native.rs:419-468 | once a generation is current, nothing enqueued afterwards carries an earlier tag, also when an address comes back |
| AutosocketRuns.InboundTagsNeverDecrease | libs/autosocket/src/native.rs:435-468 | generation tags on the incoming queue never decrease |
| AutosocketProgress.CanCatchUp | libs/autosocket/src/native.rs:252-417 | from every reachable state the driver and the session tasks alone can reach the generation in the control record |
| AutosocketPace.ComesRoundInTime | libs/autosocket/src/native.rs:330-396 | as the selects poll the watch first, in every stretch of every run without a new generation the driver comes round to the current generation after a bounded number of its own steps and steps of the session it tears down, whatever frames and other steps come in between |
| AutosocketPace.StepsComeCloser | libs/autosocket/src/native.rs:252-417 | away from the current generation no step leads back and every such step leads strictly closer |
| AutosocketDial.RetriesByFlag | libs/autosocket/src/native.rs:312-352 | in every run the driver waits to dial again only with auto-reconnect, and waits for a readdress after a failure only without |
| AutosocketDial.DialsAgain | libs/autosocket/src/native.rs:330-415 | with auto-reconnect, from every end of a connection or session, whatever others do short of a readdress: by its third step the driver dials the current address again, and the status says so |
| AutosocketDial.GivesUp | libs/autosocket/src/native.rs:337-352 | without auto-reconnect a driver that gave up stays disconnected until a readdress or the handle's end |
| AutosocketDial.FailureIsShown | libs/autosocket/src/native.rs:330-415 | whoever waits after a failed connect or an ended session shows disconnected; only a bad address keeps its status |
| AutosocketDial.CanConnect | libs/autosocket/src/native.rs:252-417 | from every reachable state of an auto-reconnecting socket with an address the driver and a session can get it connected to that address |
| AutosocketDial.StatusCountsAttempts | libs/autosocket/src/native.rs:301-308 | in the middle of an attempt the status is connecting on the first attempt since the generation was taken up or connected, reconnecting on every later one, with the address worked for |
| AutosocketDial.LateConnectionsAreDropped | libs/autosocket/src/native.rs:353-391 | a finished handshake is used exactly when it is for the current generation, for the session as for the connected status |
| AutosocketDial.DroppedOnlyWhenReplaced | libs/autosocket/src/native.rs:289-417 | the driver drops a generation only for a newer one, or to exit; no failure makes it start over |
| AutosocketDial.ClosedDriverExits | libs/autosocket/src/native.rs:252-287 | once it has noticed that the handle is gone the driver exits, right away or after its session's end |
| AutosocketDial.EarlyReturnIff | libs/autosocket/src/native.rs:166-185 | a call returns early exactly when its address is the current one and the status it had read says that a connection to it stands or is under way |
| AutosocketFlow.AcceptedAreSent | libs/autosocket/src/native.rs:90-99 | a queue has accepted exactly the frames sent into it, in that order |
| AutosocketFlow.QueuesAreBounded | libs/autosocket/src/native.rs:17-30 | no queue ever holds more than 1024 frames |
| AutosocketFlow.RefusalIsFinal | libs/autosocket/src/native.rs:90-99 | a queue that refuses a send has no receiver ever after |
| AutosocketFlow.ReadFramesArrive | libs/autosocket/src/native.rs:435-468 | while the handle lives, what arrives of a generation is what its sessions read, in order and from the start; of the current one nothing is missing but a frame in a reader's hand |
| AutosocketFlow.StaleReaderStops | libs/autosocket/src/native.rs:441-456 | a reader that finds its generation replaced drops its frame and never reads another |
| AutosocketFlow.ReadersGoOn | libs/autosocket/src/native.rs:435-468 | a reader goes on until it is stopped or its generation is replaced |
| AutosocketFlow.WritersGoOn | libs/autosocket/src/native.rs:469-491 | a writer goes on until a write fails, its session is cancelled or its queue is replaced |
| AutosocketFlow.QueuedFrameGoesOut | libs/autosocket/src/native.rs:469-491 | a waiting frame can go out: the oldest not taken yet, and the writer is back for the next |
| AutosocketFlow.ReadFrameComesIn | libs/autosocket/src/native.rs:435-468 | a frame read for the current generation can be delivered, and the reader is back for the next |
| AutosocketFlow.CancelledForAReason | libs/autosocket/src/native.rs:494-512 | a session is cancelled only when one of its tasks is over or the driver tears it down |
| AutosocketProgress.FramesConserved | libs/autosocket/src/native.rs:469-512 | every accepted frame is queued, on the wire, or one of at most as many lost frames as its generation had sessions |
| AutosocketClass.AutoReconnectSocket.LockSection | libs/autosocket/src/native.rs:168-193 | the first lock section: early return exactly on an engaged equal address, else a new generation with a fresh queue, published to the watch |
| AutosocketClass.AutoReconnectSocket.LockAndCompare | libs/autosocket/src/native.rs:205-212 | the second lock section as one atomic step |
| AutosocketClass.AutoReconnectSocket.ReaderLockSection | libs/autosocket/src/native.rs:441-451 | the reader's check and enqueue as one atomic step; it stops exactly when its generation is no longer current |
| AutosocketClass.AutoReconnectSocket.TrySend | libs/autosocket/src/native.rs:90-99 | one try of a send: an error exactly when the queue has no receiver left, which the current queue always has; accepted and appended exactly when there is room too, otherwise the sender waits |
| AutosocketClass.AutoReconnectSocket.OneTurn | libs/autosocket/src/native.rs:196-213 | one turn of the publishing loop among arbitrary steps of others: the call leaves, or goes on with the newest generation, strictly newer than the one it published |
| AutosocketClass.AutoReconnectSocket.SetAddr | libs/autosocket/src/native.rs:166-214 | a whole call among arbitrary steps of others: it returns, its turns are paid for by bumps, it starts a generation unless its address was being served, and at the end the intended status is connected to the current address, or idle, unless another call is still publishing; alone, it leaves its address as the current one |
| QueryStoreSpec.DiffKeepsAgreement | libs/myko/gpui/src/remote.rs:379-465 | a key is listed exactly when its entity holds a value, entities are never forgotten, and a diff that reports no change left the key list alone, nested batches included |
| QueryStoreSpec.EventKeepsAgreement | libs/myko/gpui/src/remote.rs:493-545 | the same for every event |
| QueryStoreSpec.NestingIsTransparent | libs/myko/gpui/src/remote.rs:451-465 | nested batches do and report what the flat list of their changes does |
| QueryStoreSpec.ReportedExactlyWhenDisturbed | libs/myko/gpui/src/remote.rs:451-465 | a diff, nested batches included, reports a change exactly when some change in it disturbs the key list there was before the diff |
| QueryStoreSpec.ReportedExactlyWhenKeysMove | libs/myko/gpui/src/remote.rs:451-465 | in a flat batch that is also exactly when some single change in it moves the key list of its moment |
| QueryStoreSpec.NotifiesInVainIff | libs/myko/gpui/src/remote.rs:337-339 | for every event on every store, the exact condition under which it notifies although neither membership nor readiness changed |
| QueryStoreSpec.NotificationWithoutChange | libs/myko/gpui/src/remote.rs:337-339 | a notification without a change of membership |
| QueryStoreSpec.ReconcileRows | libs/myko/gpui/src/remote.rs:410-449 | reconciling makes the rows those of the snapshot, whatever they were |
| QueryStoreSpec.DiffOnRows | libs/myko/gpui/src/remote.rs:451-465 | on rows a diff does what it does on the source map |
| QueryStoreSpec.UntouchedStaysAhead | libs/myko/gpui/src/remote.rs:379-408 | a member a diff does not touch stays ahead of those it was ahead of, and is ahead of those that join |
| QueryProjection.StepKeepsInv | libs/myko/gpui/src/remote.rs:628-735 | every step of source, callbacks, queue and store keeps: if replaying all that is still to come ends ready, it ends with exactly the source |
| QueryProjection.ReadyStoreIsSource | libs/myko/gpui/src/remote.rs:628-735 | in every run a ready store with a drained queue holds exactly the source's keys and values |
| QueryHistory.SignalShowsPastIff | libs/myko/gpui/src/remote.rs:655-700 | a signal keeps the store from ever showing a state the source never had if and only if it is harmless at its capture |
| QueryHistory.ShowsPastIff | libs/myko/gpui/src/remote.rs:638-642 | over every run: at no moment can the outstanding callbacks and events make a ready store show a state the source never had if and only if every signal was harmless |
| QueryHistory.ReadyStoreShowsPast | libs/myko/gpui/src/remote.rs:638-642 | when every signal so far was harmless, a ready store shows a state the source has had |
| QueryHistory.TransientStateHappens | libs/myko/gpui/src/remote.rs:638-642 | with a signal that is not harmless, a run in which a ready store shows a state the source never had |
| QueryHistory.AnsweredStoreBecomesSource | libs/myko/gpui/src/remote.rs:628-735 | from every moment of every run, once the connection is up and the server answers, running what is outstanding makes the store ready with exactly the source in it |
| QueryReadiness.ReadinessOverRuns | libs/myko/gpui/src/remote.rs:467-545 | ready holds exactly when the last readiness answer stands and the last status is connected, and the load state says so |
| QueryReadiness.StateOverRuns | libs/myko/gpui/src/remote.rs:467-545 | over every list of events the load state, read off the events alone: failed with the message of an error that came last, else loaded while ready, failed while the last status is disconnected, loading otherwise; a stale value is kept exactly when the store was ready before |
| QueryReadiness.ReadyNeedsNewAnswer | libs/myko/gpui/src/remote.rs:508-524 | after a status other than connected nothing but a new positive answer can make the store ready |
| QueryReadiness.RowsRestWhileNotReady | libs/myko/gpui/src/remote.rs:467-545 | while not ready, keys and rows are those of the last ready moment |
| QueryStoreClass.QueryStore.ApplyMapDiff | libs/myko/gpui/src/remote.rs:451-465 | the recursive in-place application of a diff does what the specification says, and keeps each row's entity object |
| QueryStoreClass.QueryStore.ReconcileSnapshot | libs/myko/gpui/src/remote.rs:410-449 | reconciling in place empties departed entities, reuses or makes the others, and reports whether the key list differs |
| QueryStoreClass.QueryStore.Apply | libs/myko/gpui/src/remote.rs:493-545 | an event in place: new store, and one notification exactly when the specification reports one |
| QueryStoreClass.FineQueryList.SyncRows | libs/myko/gpui/src/components.rs:109-130 | afterwards rows exist for exactly the store's keys, each on the store's entity, and rows that stayed are the same objects |
| QueryStoreClass.DeliverAndObserve | libs/myko/gpui/src/components.rs:109-130 | an event and its notification, if any, leave the row list in exact agreement with the store |
| Fingerprint.FlattenMeaning | libs/myko/server/src/delivery_diagnostics.rs:888-925 | the bounded scan completes exactly for values within the depth and leaf bounds, in any key order, and then adds exactly the value's leaves |
| Fingerprint.FingerprintLeaves | libs/myko/server/src/delivery_diagnostics.rs:888-925 | the nested loops over one mutable map compute that scan, including where they stop |
| Fingerprint.EqualLeavesEqualValues | libs/myko/server/src/delivery_diagnostics.rs:888-925 | flattening is injective: equal leaf maps come only from equal JSON values |
| Fingerprint.SameValuesSameLeaves | libs/myko/server/src/delivery_diagnostics.rs:888-925 | equal JSON values, whatever the order of their keys, have equal leaf maps |
| Fingerprint.FingerprintsDecideEquality | libs/myko/server/src/delivery_diagnostics.rs:772-784 | for two completed scans: equal fingerprints if and only if equal values |
| Inspection.ChangesInspected | libs/myko/server/src/delivery_diagnostics.rs:821-884 | a fully inspected list of changes keeps what is retained right for the client's data; it counts as unchanged exactly when the changes seen rightly are no-ops and no upsert of a dropped item repeats its value |
| Inspection.ResponseInspected | libs/myko/server/src/delivery_diagnostics.rs:785-792 | from a full baseline or a snapshot: the baseline stays full, and unchanged means not a snapshot, no window move, and only no-ops |
| Inspection.NoOpIsLocal | libs/myko/server/src/delivery_diagnostics.rs:833-848 | a change leaves the client's data as it was exactly when the entry it names stays the same value |
| Inspection.QuietUnlessBlind | libs/myko/server/src/delivery_diagnostics.rs:850-884 | with a partial baseline a change is judged rightly if and only if it does not concern a dropped item in one of two ways |
| Inspection.WrongVerdictIff | libs/myko/server/src/delivery_diagnostics.rs:785-884 | the verdict on a whole frame is wrong if and only if it is no snapshot, the changes seen rightly are no-ops, and those missed are all of one kind, at least one |
| Diagnostics.WrongVerdictsInEveryRun | libs/myko/server/src/delivery_diagnostics.rs:491-578 | the same over every run, with what was really sent on the subscription |
| DiagnosticsExample.DroppedBaselineMisjudges | libs/myko/server/src/delivery_diagnostics.rs:515-529 | a run of subscribe, snapshot, a frame too large to inspect and a delete that is fully inspected, changes the client's data and counts as unchanged |
| Inspection.UnchangedCountsNothing | libs/myko/server/src/delivery_diagnostics.rs:800-884 | apart from snapshots and window moves, unchanged if and only if no leaf is counted as changed or removed |
| Inspection.ReportInspected | libs/myko/server/src/delivery_diagnostics.rs:779-784 | of two fully inspected reports the second counts as unchanged exactly when it is the same value |
| InspectionCounts.ResponseCounts | libs/myko/server/src/delivery_diagnostics.rs:798-884 | the counters of a fully inspected response are sums over the JSON values it meets: leaves brought, leaves not as they were, leaves gone, upserts, deletes; its keys are the leaves it brings |
| InspectionCounts.ReportCounts | libs/myko/server/src/delivery_diagnostics.rs:779-820 | the same for a report against the one before it |
| InspectionCounts.GetsThroughIff | libs/myko/server/src/delivery_diagnostics.rs:850-875 | an inspection gets through exactly when every upsert has a short id, a JSON form within depth and leaf bounds, and a place among the items |
| InspectionCounts.DeletesComeLast | libs/myko/server/src/delivery_diagnostics.rs:821-833 | in the older form an item is there afterwards if it is not deleted and was there or is upserted, with its last upsert |
| Inspection.Inspector.Upsert | libs/myko/server/src/delivery_diagnostics.rs:850-875 | an upsert in place, with its four ways to be refused |
| Inspection.Inspector.Query | libs/myko/server/src/delivery_diagnostics.rs:821-848 | both representations of a response, walked by their loops, amount to one list of changes up to the first refusal |
| Diagnostics.ExactInEveryRun | libs/myko/server/src/delivery_diagnostics.rs:287-578 | after every sequence of messages, frames and flushes the retained total is the exact sum and at most 65536, the unique sets hold at most 65536 keys, live and cancelled transactions are disjoint |
| Diagnostics.StepKeepsExact | libs/myko/server/src/delivery_diagnostics.rs:491-578 | each step keeps the accounts exact, so the saturating arithmetic never saturates |
| Diagnostics.TrackedInEveryRun | libs/myko/server/src/delivery_diagnostics.rs:287-578 | in every run whatever is retained is the fingerprint of what was really sent on that subscription |
| Diagnostics.VerdictsInEveryRun | libs/myko/server/src/delivery_diagnostics.rs:491-578 | in every run a fully inspected report is unchanged exactly when the previous one was fully inspected and equal, and a synced response exactly when it changes nothing |
| Diagnostics.ReportInspectedWhen | libs/myko/server/src/delivery_diagnostics.rs:507-529 | a report is fully inspected if and only if it is small in bytes, depth and leaves, and fits the client's budget |
| DiagnosticsCounts.ResponseInspectedWhen | libs/myko/server/src/delivery_diagnostics.rs:507-529 | a response is fully inspected if and only if it is small in bytes, acceptable change by change, and fits the client's budget |
| DiagnosticsCounts.ChargedToOwner | libs/myko/server/src/delivery_diagnostics.rs:498-545 | in every run a frame is charged to the operation the events say: of the last accepted subscription of its transaction, cancelled or not, else of its command, else of its tag |
| DiagnosticsCounts.CountersAddUp | libs/myko/server/src/delivery_diagnostics.rs:541-578 | in every run, since the last flush, an operation's messages, unchanged and incomplete counts are the numbers of its frames that are so, and the leaves remembered are those of its frames, all of them unless some are counted as incomplete |
| DiagnosticsCounts.ForgottenOnlyWhenFull | libs/myko/server/src/delivery_diagnostics.rs:553-568 | leaves of a fully inspected frame are forgotten only once 65536 are remembered |
| DiagnosticsClass.RetainedOf | libs/myko/server/src/delivery_diagnostics.rs:765-770 | the loop over the items adds up exactly the retained leaves |
| DiagnosticsClass.RememberKeys | libs/myko/server/src/delivery_diagnostics.rs:546-565 | new keys are remembered in whatever order they come until the room is used up, and overflow is flagged exactly when one found none |
| DiagnosticsClass.DeliveryDiagnostics.Inbound | libs/myko/server/src/delivery_diagnostics.rs:287-377 | subscribe, re-subscribe, cancel and command bookkeeping in place, accounts exact |
| DiagnosticsClass.DeliveryDiagnostics.Sent | libs/myko/server/src/delivery_diagnostics.rs:491-578 | a sent frame in place is one step of the specification, accounts exact |
| RouteArms.ArmMasks | libs/myko/macros/src/item.rs:226-235 | the sorted mask vector holds every non-empty mask once, more bits first, then the smaller mask; none from 32 fields on |
| RouteArms.MostSelectiveArm | libs/myko/macros/src/item.rs:226-292 | the first arm that applies is the set of all pinned fields |
| RouteArms.SomeArmUnlessNonePinned | libs/myko/macros/src/item.rs:226-292 | some arm applies if and only if some field is pinned |
| Routing.ProductHolds | libs/myko/core/src/core/query/registration.rs:681-700 | the folded product holds exactly the tuples with a member of each set at its position, nothing if a set is empty |
| Routing.RouteKeysMatch | libs/myko/macros/src/item.rs:263-289 | an item's extracted key is among the route's keys exactly when it matches each routed field, position by position |
| Routing.RoutedIsScan | libs/myko/macros/src/item.rs:294-389 | for every filter and store, the routed rows that match are exactly the rows of a full scan that match |
| Routing.MatchesAskedFor | libs/myko/macros/src/item.rs:175-190 | matching, said without the matchers: ids among the named ones, values equal, listed or within both bounds, a missing value never |
| Routing.RouteIsMostSelective | libs/myko/macros/src/item.rs:303-317 | without an id pin the route pins every pinned `belongs_to` field in declaration order, and is a scan exactly when none is |
| Routing.BuildIdsSource | libs/myko/core/src/core/query/registration.rs:1208-1253 | the loop of direct lookups restricts the store to the ids, repeats included |
| Routing.BuildUnionSource | libs/myko/core/src/core/query/registration.rs:629-679 | the loop over buckets collects exactly the rows whose key is among the keys |
| Routing.BuildView | libs/myko/macros/src/item.rs:365-389 | the view of a query, when it is built, is the scan, whichever way it is built: exactly the stored rows whose id and `belongs_to` values are named by the pins and whose pinned fields have a value that is asked for |
| LiveRoute.IdsSource.OnWrite | libs/myko/core/src/core/query/registration.rs:1217-1253 | every later write of the store leaves the source of an id route the store restricted to the ids |
| UnionSource.AdditiveUnionDiff | libs/myko/core/src/core/query/registration.rs:563-611 | the rewrite says, at every id the bucket's diff touches, what the bucket holds afterwards, and nothing about other ids |
| UnionSource.LastToucherDecides | libs/myko/core/src/core/query/registration.rs:647-676 | after any sequence of bucket diffs the union holds at each id what the bucket that touched it last holds |
| UnionSource.ExactIffHomeTouchesLast | libs/myko/core/src/core/query/registration.rs:613-679 | the union is the union of its buckets if and only if every row was touched last by the bucket it ended in |
| UnionSource.OneKeyIsExact | libs/myko/core/src/core/query/registration.rs:613-679 | a union over one key is always exact |
| UnionSource.UnionMap.OnDiff | libs/myko/core/src/core/query/registration.rs:647-674 | a bucket's diff applied in place to contribution and merged map |
| IndexOrders.SplitFollows | libs/myko/core/src/core/query/registration.rs:434-491 | the changes a diff means for one key take that key's rows from before to after, also when a row changes its key |
| IndexOrders.PreparedDelivers | libs/myko/core/src/core/query/registration.rs:340-426 | in whatever order the index's maps hand out the actions of a diff, nested batches and snapshots included, they take every live bucket along with the store |
| BelongsToIndex.Index.ApplyGrouped | libs/myko/core/src/core/query/registration.rs:398-426 | groups taken in any order leave members that follow the store, and become one batch for each live key that has a group |
| BelongsToIndex.Index.Prepare | libs/myko/core/src/core/query/registration.rs:340-396 | for any diff the members follow the store, and the actions are those of one of the orders the specification allows |
| BelongsToIndex.Index.BucketFor | libs/myko/core/src/core/query/registration.rs:238-264 | a new bucket starts with the store's rows of its key |
| UnionOrders.DiffSafeIff | libs/myko/core/src/core/query/registration.rs:340-679 | a right union stays right after a diff in every order of the index's actions if and only if the diff is safe for the keys of the union |
| UnionSafety.SafeBatchIff | libs/myko/core/src/core/query/registration.rs:398-491 | flat changes are safe if and only if no row that ends under a key of the union is named for another of its keys |
| UnionSafety.SafeSnapshotIff | libs/myko/core/src/core/query/registration.rs:346-373 | a snapshot is safe if and only if it takes no row from one key of the union to another |
| UnionSafety.SafeChangeIff | libs/myko/core/src/core/query/registration.rs:434-491 | a single change is safe if and only if it is no update that takes its row from one key of the union to another |
| UnionSafety.BothOrdersPrepared | libs/myko/core/src/core/query/registration.rs:398-491 | for a row that moves between two live keys the index may hand out a removal and an insertion, in either order, and nothing else |
| UnionSafety.MovedRowKeptIff | libs/myko/core/src/core/query/registration.rs:468-487 | after such a move the union is right if and only if the bucket the row left is told first |
| UnionRuns.BucketsFollowRun | libs/myko/core/src/core/query/registration.rs:238-333 | in every run, with diffs, deliveries and new buckets in any order, each bucket is led by what is still queued for it to the store's rows with its key; a settled union over one key serves exactly its rows |
| UnionRuns.StepKeepsInv | libs/myko/core/src/core/query/registration.rs:300-333 | with one drainer delivering in the order of the diffs, every step (a re-entrant or concurrent diff, a delivery, a bucket made or observed in between) keeps: what is queued for a bucket leads it to the store's rows with its key |
| UnionRuns.UnionFollowsRun | libs/myko/core/src/core/query/registration.rs:613-679 | in every run a settled union serves no row it should not, and of its rows exactly those of which the bucket they ended in told last |
| UnionSettling.StepKeepsGood | libs/myko/core/src/core/query/registration.rs:238-333 | a harmless step keeps: delivering what is queued makes the union right, also when it observes more of its buckets meanwhile |
| UnionSettling.SafeRunSettles | libs/myko/core/src/core/query/registration.rs:238-679 | in every run whose diffs are safe and whose buckets for the union are made while nothing is queued, a settled union serves exactly its rows |
| UnionHarm.StepCanGoWrongIff | libs/myko/core/src/core/query/registration.rs:238-679 | where deliveries would make the union right, a step can leave it wrong, in some order of its actions and some course of deliveries and subscriptions, if and only if it is not harmless |
| UnionHarm.NeverWrongIff | libs/myko/core/src/core/query/registration.rs:613-679 | over every run: no step can ever leave the union wrong if and only if every step is harmless |
| UnionExample.SafeDiffsAreNotEnough | libs/myko/core/src/core/query/registration.rs:238-333 | a run of safe diffs in which a bucket made ahead of the queue can make the union lose a row |
| LiveRoute.LiveViewIsScanIff | libs/myko/macros/src/item.rs:365-389 | at every settled moment of every run the view over a `belongs_to` route is the full scan of the changed store if and only if of every row that matches the bucket it is in told last |
| LiveRoute.LiveViewIsScan | libs/myko/macros/src/item.rs:365-389 | it is the full scan, whatever the orders, when every step of the run was harmless, and always under a route of one key |
| BlockingLane.InvKept | libs/myko/server/src/blocking_work.rs:111-186 | every atomic step keeps the counters equal to the jobs they stand for, without wrapping, and the permits conserved |
| BlockingLane.LaneSafety | libs/myko/server/src/blocking_work.rs:111-149 | in every run: executing <= active <= permits held <= concurrency, and held plus available is constant |
| BlockingLane.RestRestoresLane | libs/myko/server/src/blocking_work.rs:202-219 | when every job is over both counters are 0 and every permit is back |
| BlockingLane.JobsMoveOn | libs/myko/server/src/blocking_work.rs:111-186 | over every run a job only moves on, runs at most once, and is never abandoned after admission |
| BlockingLane.LeavesQueueOneWay | libs/myko/server/src/blocking_work.rs:134-143 | a job leaves the queue only by admission or by cancellation, and a cancelled one has not run |
| BlockingLane.ClosedNeverRuns | libs/myko/server/src/blocking_work.rs:167-186 | a job whose receiver is gone before its closure starts never runs, at any later time |
| BlockingLane.WaitingJobsCanLeave | libs/myko/server/src/blocking_work.rs:134-143 | a job that waits, or was granted a permit it has not seen, can be cancelled and gives everything back |
| BlockingLane.AdmittedJobsRun | libs/myko/server/src/blocking_work.rs:111-149 | a job that is over ran exactly once unless cancelled, closed or dropped with the pool |
| BlockingLane.InternalRunsEnd | libs/myko/server/src/blocking_work.rs:111-149 | without new jobs no run goes on for longer than its jobs have left to do |
| BlockingLane.Drains | libs/myko/server/src/blocking_work.rs:111-149 | from every state the lane can finish all jobs without cancelling any, so queued work is never stuck |
| BlockingLaneClass.Lane.Run | libs/myko/server/src/blocking_work.rs:111-149 | a call that is not cancelled, among arbitrary steps of others, runs its closure once, or skips it because its receiver is gone, or is still queued |
| CommaScanner.SplitTopLevelCommas | libs/myko/core/src/operation_index.rs:521-603 | the loop with its depth, quote and comment variables computes the specified pieces |
| CommaScanner.CutsAreNeutralCommas | libs/myko/core/src/operation_index.rs:574-590 | the pieces are the text between exactly those commas that the scanner reaches in its neutral state |
| CommaScanner.RoundTrip | libs/myko/core/src/operation_index.rs:521-603 | joining the pieces with commas gives back the input, but for one comma when the input ends in a cut |
| CommaScanner.PiecesDoNotSplit | libs/myko/core/src/operation_index.rs:521-603 | splitting a non-empty piece again gives just that piece |
| CommaScanner.SplitUndoesJoin | libs/myko/core/src/operation_index.rs:521-603 | splitting undoes joining for pieces the scanner leaves neutral and uncut |
| CommaTokens.SplitsAtTopCommas | libs/myko/core/src/operation_index.rs:521-603 | a text of plain characters, strings and comments is split at exactly the commas outside strings and comments before which no bracket of the four kinds is left open |
| GraphEnsure.AtMostOneEdge | libs/myko/macros/src/graph.rs:796-844 | at every moment of every run at most one edge has a pair and scope, deletes and failures included |
| GraphEnsure.EnsureIsIdempotent | libs/myko/macros/src/graph.rs:783-844 | without deletes, on a pair whose ids nobody proposes for another pair, all successes name the one edge of the pair and none fails because the pair was taken; with ids of their own, only the command whose edge it is answers `created` |
| GraphEnsure.EveryNewEdgeHasItsCreator | libs/myko/macros/src/graph.rs:783-844 | in every run, deletes included, each edge has its pair from the start or from a command that answered `created`, the only one if no other proposes its id |
| GraphEnsure.SharedIdCreatesTwice | libs/myko/macros/src/graph.rs:822-826 | a run in which two commands with one id both answer `created` |
| GraphEnsureProposals.BothCreatedNeedsReuse | libs/myko/macros/src/graph.rs:801-843 | over any stored edges, two commands on one pair that both created share their id or a third one has moved one of their edges to another pair |
| GraphEnsureProposals.NeverBothCreateIff | libs/myko/macros/src/graph.rs:783-844 | two commands on one pair never both answer `created`, whatever is stored, if and only if their ids differ and no other command reuses one of them for another pair |
| GraphEnsureOrders.BothCreateIffOrder | libs/myko/macros/src/graph.rs:801-843 | over any stored edges, also such as proposals move away, two commands can both answer `created` if and only if some order of writes contains both, each write on a pair that was vacant before it and is free of other edges at it |
| GraphEnsure.Graph.Ensure | libs/myko/macros/src/graph.rs:801-843 | the command from end to end among other writers, with either look and the write failing on their own: its answer holds of the store it leaves, and `created` only if no edge had the pair when it looked |
| GraphPlans.ChosenIsScan | libs/myko/macros/src/graph.rs:1181-1230 | direct lookups by any listing of the ids find exactly the edges the predicate accepts |
| GraphPlans.ScanFinds | libs/myko/macros/src/graph.rs:1181-1198 | the scan finds the stored edges with one of the ids that leave the endpoint, arrive at it, or lead between the two, for undirected edges either way |
| GraphPlans.BuildView | libs/myko/macros/src/graph.rs:1200-1230 | the emitted plan, with its fallback for endpoints that cannot be erased, equals the scan when it is built, which is the stored edges of the ids that lie as asked |
| LiveGraphPlan.GraphView.OnWrite | libs/myko/macros/src/graph.rs:1200-1230 | every later write of the store leaves the view equal to the scan, under the plan and under its fallback |
| LiveGraphPlan.Follow | libs/myko/macros/src/graph.rs:1165-1230 | after any sequence of writes the view is the scan of the store as it is then |
| GraphPlans.Ask | libs/myko/macros/src/graph.rs:1165-1230 | a query stored by its constructor answers as one with the ids in any order and repetition |
| GraphPlans.SortDedup | libs/myko/macros/src/graph.rs:1165-1171 | sorting and deduplicating gives a strictly increasing list with the same members |
| GraphPlans.OneSortedListing | libs/myko/macros/src/graph.rs:1165-1171 | equal id sets are stored as the same list, however they were given |
| GraphPlans.SwapIff | libs/myko/macros/src/graph.rs:1776-1843 | swapping the ends of a between query leaves its answer alone exactly when the edges are undirected, the ends are the same, or one cannot be erased |

## Assumptions

* Reactive cells, bounded and unbounded queues, the watch channel, mutexes and the semaphore are atomic cells, FIFO
  queues, a versioned value, lock sections that are one step, and a counting semaphore that grants in any order.
* A reactive map hands its subscribers each diff it applies, `Remove` removes by key, and diffs are truthful about
  the values they replace. A map's snapshot lists its present entries.
* Hashes of paths and values in the diagnostics are injective. JSON objects hold no key twice.
* Entity stores are keyed by the id of the item.
* Library sorts are modelled by insertion; only the order they promise is used.
* `emit_set` checks the unique pair and writes in one step.
* Generations are unbounded; the source wraps after 2^64 bumps. The lane sees fewer than 2^64 jobs at a time.
* Connecting, reading, writing and waiting end in success, failure or a frame at any time; delays may elapse at any time.

## Left out

- AutosocketRuns.NoReaddressLost: is stated for the points where the driver listens for a change; at the wait for a cancelled session it is false, see AutosocketRuns.TeardownIsStaleIff.
- AutosocketPace.ComesRoundInTime: takes the poll of the watch and the event a select then takes as one step, and bounds the driver's steps, not the time until a scheduler gives it any.
- BlockingLane.Drains: shows that the lane can drain from every state; that it does needs jobs that return and a fair scheduler.
- GraphEnsure.AtMostOneEdge: takes the reservation and the write of `emit_set` as one atomic step.
- The socket's driver, reader and writer loops are step functions on values, one step for each await or lock section; only `set_addr`, `send` and the lock sections are methods of a class.
- Routing.BuildIdsSource: states the rows when the source is built; later writes are LiveRoute.IdsSource.OnWrite.
- Routing.BuildUnionSource: states the rows when the source is built; later diffs are UnionRuns.UnionFollowsRun and UnionHarm.NeverWrongIff.
- Routing.BuildView: states the view when it is built; later diffs are LiveRoute.LiveViewIsScan.
- GraphPlans.BuildView: states the view when it is built; later writes are LiveGraphPlan.GraphView.OnWrite.
- CommaTokens.SplitsAtTopCommas: its strings hold no `//` or `/*`, which the scanner takes for a comment even inside a string.
- The value updates that an entry of the query store announces to its own observers, and observers other than the row list.
- The browser socket (`wasm.rs`), TLS, URL parsing, frame size limits, keep-alive frames.
- Counters of the diagnostics that only add up (bytes, upserts, deletes per operation, timing, gaps, queue depth), their saturation at 2^64, command timing and the exported metrics; `produced` and `serialized_command`, which retain nothing.
- Detection of equivalent subscriptions, which only feeds a gauge.
- Canonical forms of filters and query cache keys; string, date and nested filters.
- The `query_live` engine, windows and cursors of queries.
- A key that a filter lists twice: a union here observes each of its buckets once.
- Weak references to buckets and their reaping; a bucket stays live here once asked for.
- Graph traversal, endpoint synchronisation, and the endpoint-indexed graph queries without id lists.
- The other text helpers of the operation index (`find_top_level_colon`, `split_generic_args`, `rust_type_to_ts`).
- Token generation itself: the model is of what the emitted code does.
- Peer registry, router, persistence, language bindings, user interface components: I/O, wrappers, or one-shot state.
