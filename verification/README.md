# Verified model of the upload service's core

The project models the parts of the upload service whose correctness depends on more than one
function: the life of a stored file under concurrent workers, the in-memory message broker and the
consumers on top of it, the ZIP writer, storage accounting, atomic batch upload with failover, and
the smaller planners and codecs around them. `dafny verify dfyconfig.toml` checks everything.

| files | what they model |
|---|---|
| `ReplicaState`, `Lifecycle`, `LifecycleSteps`, `LifecycleSafety`, `LifecycleContents`, `LifecycleLiveness`, `LifecycleLimits` | one file as a state machine: its status, one row per provider, the objects really stored, and any number of replication, purge, delete, sweep and scan handlers with their program counters; every database statement or driver call is one step, which may also fail, and the steps interleave freely |
| `FileHandlers` | the transactions and the purge handler as loops over the rows, and the per-tenant throttle |
| `BrokerGroup`, `BrokerSafety`, `BrokerDelivery`, `BrokerProgress`, `BrokerTiming`, `MemoryBroker` | one consumer group as a state machine over publish, subscribe, close, timer, outcome, completion, disconnect and re-initialisation events, and the broker class whose methods take its groups along these steps |
| `Consumer`, `Backoff` | the consumer wrapper, its counters, and the retry delay over the reals |
| `Zip` | the archive writer, and a reader after the PKWARE APPNOTE, sections 4.3.7, 4.3.12 and 4.3.16 |
| `Usage`, `UsageRuns`, `Accounts` | usage records against the files they account for, over interleaved transactions that work with rows read earlier and perhaps removed since, and the service calls as sequences of these transactions |
| `Placement`, `BatchUpload` | the placement plan, the rows an upload inserts, and the batch upload with retries, failover, compensation and roll-back |
| `OutboxRelay`, `RelayRuns` | claim, publish and mark cycles with broker errors, database errors and crashes at any point, and any number of relays whose steps interleave over one table |
| `StorageKey`, `LocalPath` | storage keys and their resolution inside the local root |
| `ClamAv` | the INSTREAM framing, and a decoder of the protocol |
| `Wrappers`, `Bytes` | optional values, fresh numbers and byte strings |

I/O is a parameter: what a driver, the broker, the database, the clock or the random generator does
is an argument or a step of the run, so every theorem holds for all of their behaviours.

## Where the code and its documentation differ

The model follows the code. These statements are proved, with the exact condition where a promise fails.

- `markDeleted` of a replica is a compare-and-set that accepts DELETING, QUEUED and FAILED rows only, although the workers call it on AVAILABLE and IN_PROGRESS rows. An ACTIVE file that a sweeper marks DELETING keeps an AVAILABLE primary row and can never become DELETED (`SweptFileNeverPurged`, `SweptFilePurgedExactly`) while no user delete and no scan is under way. In general a DELETING file can still become DELETED exactly when a user delete or a scan is under way or no row is AVAILABLE (`PurgeCompletesExactly`).
- A handler whose `claim` call fails requeues or fails the row although it does not hold it, and the sweeper requeues rows of slow handlers. A provider has at most one handler at work in every state of a run exactly when every claim that hits finds its row free of a handler (`SingleHandlerExactly`). That each of these handlers also has its row IN_PROGRESS, or retired with the file, holds in every state exactly when no failed claim and no lease expiry takes a row from the handler that holds it (`MutualExclusionExactly`); after such a write a second handler can get in (`FailedClaimLetsSecondIn`).
- `complete` also accepts a QUEUED row, which the transition table forbids (`CasFollowsTable`). A step breaks the table exactly when it completes a QUEUED row (`StepFollowsTableExactly`); a failed claim makes that happen (`QueuedRowCompleted`), and runs that take no row from its holder never do it (`RowChangesFollowTable`).
- An object can outlive its file after a failed claim, a lease expiry, a failure after the upload, a failed clean-up or an unexpected scan, in each case exactly when the file has a secondary (the `...OrphansExactly` lemmas); without any of these there are no orphans (`NoOrphans`), and without a secondary never (`NoSecondaryNoOrphan`).
- Recorded and stored digests agree in every state of every undisturbed run exactly when the digest was recorded at creation or there is no secondary (`DigestsAgreeExactly`): a failed copy can record the digest before it is discarded.
- DELETED is final for a file exactly when no scan handler is between its first read and its verdict (`DeletedIsFinalExactly`): a late INFECTED verdict moves a DELETED file back to QUARANTINED (`VerdictRevivesFile`) and unbalances the usage record (`QuarantineExactly`).
- Re-initialising the broker does not pump, so a queued message can be stranded (`MessageStranded`, `ReinitializedAwakeExactly`, `DrainsExactly`).
- A handler that calls `disconnect` before its first await does so inside the pump that has started it: the pump goes on delivering (`LeavingInsidePump`, `DeliveredWhileLeaving`), and where nothing else is in flight the call ends without waiting for the executions of that pump (`EndDisconnect`).
- A handler that returns a retry on its last attempt is counted as retried by the wrapper and dead-lettered by the broker (`CountersAgreeExactly`, `RetryOverruled`).
- `delete` and the other accounting transactions release the size read beforehand and `markDeleting` does not bump the version, so two overlapping deletes release a file twice (`DoubleDeleteUnbalances`); a delete or hard delete whose row is gone by then releases as well (`GoneCommitExactly`, `DoubleHardDeleteUnbalances`). `UsageConservedExactly` gives the exact condition over whole runs.
- The roll-back of an atomic batch passes over a missing database and failing drivers, and so does the compensation of a single upload; a failed batch restores everything exactly when neither happened (`AtomicityExactly`, `RollbackFails`).
- The relay's claim commits before anything is published, so its row locks do not keep two relays from handing over the same row (`TwoRelaysHandOver`). A row is never at risk of a second hand-over exactly when each of its claims finds it neither handed over nor claimed and still to be tried by another relay (`HandedOnceExactly`); and across cycles a key is overtaken exactly while its older row waits out its back-off or is locked (`OvertakesExactly`, `KeyOvertaken`). No row is lost: each one that is not published can still be handed over and marked (`NothingLost`).
- A key's file name is a safe segment exactly when id and extension together have at most 128 characters and the MIME type, trimmed and in lower case, is not "constructor" or "__proto__", which the table look-up finds as inherited members (`KeySegments`, `InheritedNameUnsafe`, `LongNameUnsafe`); and a storage root of "/" accepts nothing below it (`NothingBelowSlash`).
- Tenant and branch can be read back from a key unless a tenant outside the legacy namespaces is called "system" or "tenants", or a file without a branch is put into a folder "branches" (`TenantRecoveredExactly`, `BranchRecoveredExactly`); a tenant is then mistaken (`TenantMistaken`), or files of two scopes share a key (`BranchShared`).

## Model

| member | source | states |
|---|---|---|
| `ReplicaState.CasFollowsTable` | src/db/repositories/replica.repository.ts:106-365 | a compare-and-set statement accepts a status if and only if the transition table allows its target from there, except that `complete` also accepts QUEUED and a redrive leaves IN_PROGRESS alone |
| `ReplicaState.DeriveReplicationStatus` | src/core/replication-state.ts:51-101 | the loop and the six tests compute the documented table over the set of statuses of the live secondaries |
| `LifecycleSteps.HandlerStepExactly` | src/workers/replication.worker.ts:130-398 | what each action of a replication handler, failing ones included, does to the row and the object of its provider, to the digest and to the handler, written out by status; nothing else changes |
| `LifecycleSteps.FileStepExactly` | src/workers/scan.worker.ts:224-320 | which steps change the status of the file and its scan status, and to what: a verdict CLEAN is not recorded for a file that is being deleted |
| `LifecycleSteps.PurgeStepExactly` | src/workers/replication.worker.ts:496-537 | a purge handler retires QUEUED rows at once, passes over DELETED ones, and for all others deletes the object before it retires the row |
| `LifecycleSteps.PurgeEndsExactly` | src/workers/replication.worker.ts:484-597 | a purge handler ends early if and only if a copy is in progress and it is not forced, rows are left at its last check, or it gives up |
| `LifecycleSteps.ActOnRows` | src/workers/sweeper.service.ts:223-295 | an expired lease and a redrive requeue their row, delete and verdict retire rows by status, and no other step outside the handlers writes one |
| `LifecycleSafety.DeletedIsAbsorbing` | src/core/replication-state.ts:8-17 | no step of any handler takes a row out of DELETED or adds or drops a row |
| `LifecycleSafety.PurgedFileHasOnlyDeletedRows` | src/workers/replication.worker.ts:565-597 | in every run, with lease expiries and failures of any call, a file that a purge handler has marked DELETED has only DELETED rows |
| `LifecycleSafety.NoOrphans` | src/workers/replication.worker.ts:205-374 | in every run with non-overlapping scan handlers in which no row is taken from its holder (as in `MutualExclusionExactly`), no call fails between an upload and the end of its handler, and no clean-up deletion fails: once the file is DELETED and no replication handler is at work, no provider holds an object of it |
| `LifecycleSafety.SingleHandlerExactly` | src/workers/replication.worker.ts:205-213 | in every run from any state with at most one handler per provider between claim and completion, this stays so in all states if and only if every claim that hits finds its row free of a handler |
| `LifecycleSafety.MutualExclusionExactly` | src/workers/replication.worker.ts:205-213 | in every run, each provider has at most one handler between claim and completion, with its row IN_PROGRESS or retired with the file, in all states if and only if no lease expires under a handler and no failed claim writes a row another handler holds |
| `LifecycleSafety.HoldersKeptExactly` | src/workers/replication.worker.ts:375-398 | the same for one step of any state with single holders |
| `LifecycleSafety.MutualExclusion` | src/workers/replication.worker.ts:206-213 | in such runs two handlers between claim and completion for one provider are the same, and while the file is ACTIVE its row is IN_PROGRESS |
| `LifecycleSafety.ScanGate` | src/workers/replication.worker.ts:150-167 | in every run with orderly scans, a secondary that is IN_PROGRESS or AVAILABLE belongs to a file past the scan gate, and an INFECTED file has only DELETED secondaries with nothing stored |
| `LifecycleSafety.StepFollowsTableExactly` | src/db/repositories/replica.repository.ts:106-365 | in any state, a step changes the status of a row as the table allows if and only if it does not complete a QUEUED row |
| `LifecycleSafety.RowChangesFollowTable` | src/core/replication-state.ts:8-33 | in every run that takes no row from its holder, every status change of a row is one the table allows |
| `LifecycleContents.AvailableIsStored` | src/workers/replication.worker.ts:295-368 | in every undisturbed run (as in `NoOrphans`), while the file is ACTIVE, an AVAILABLE row means the provider stores an object of exactly the recorded size |
| `LifecycleContents.DigestsAgreeExactly` | src/workers/replication.worker.ts:295-332 | stored and recorded digests agree in all states of all undisturbed runs if and only if the digest was recorded at creation or the file has no secondary |
| `LifecycleContents.DigestsCanDisagree` | src/workers/replication.worker.ts:295-320 | a run of three handlers that ends with an AVAILABLE copy whose digest differs from the recorded one |
| `LifecycleLiveness.BlockedRun` | src/db/repositories/replica.repository.ts:348-365 | a DELETING file with an AVAILABLE row, on which no delete and no scan is under way, stays DELETING with that row AVAILABLE in every continuation |
| `LifecycleLiveness.PurgeFinishes` | src/workers/replication.worker.ts:484-597 | a purge handler left alone retires every purgeable row, deletes the objects it must, and marks the file DELETED |
| `LifecycleLiveness.PurgeCompletesExactly` | src/workers/replication.worker.ts:484-597 | a DELETING file can reach DELETED if and only if a user delete or a scan is under way or none of its rows is AVAILABLE |
| `LifecycleLiveness.SweptFilePurgedExactly` | src/workers/sweeper.service.ts:530-590 | a file that a sweeper takes from ACTIVE to DELETING, in any run, can reach DELETED if and only if a user delete or a scan is under way |
| `LifecycleLiveness.SweptFileNeverPurged` | src/workers/sweeper.service.ts:530-590 | a file that a sweeper takes from ACTIVE to DELETING while no delete and no scan is under way stays DELETING whatever happens next |
| `LifecycleLimits.FaultOrphansExactly` | src/workers/replication.worker.ts:375-400 | one failed call after the upload, in an otherwise undisturbed run, can leave an orphan if and only if the file has a secondary |
| `LifecycleLimits.LeaseExpiryOrphansExactly` | src/workers/sweeper.service.ts:223-295 | the same for one lease that expires under its handler |
| `LifecycleLimits.FailedClaimOrphansExactly` | src/workers/replication.worker.ts:205-213 | the same for one failed claim on a row that another handler holds |
| `LifecycleLimits.FailedClaimLetsSecondIn` | src/workers/replication.worker.ts:375-398 | after such a failed claim a second handler gets hold of the row, for every file with a secondary |
| `LifecycleLimits.QueuedRowCompleted` | src/workers/replication.worker.ts:346-356 | after it the first handler completes a row that is QUEUED, for every file with a secondary |
| `LifecycleLimits.DiscardFailsOrphansExactly` | src/workers/replication.worker.ts:299-332 | a bad copy that cannot be deleted leaves an orphan, if and only if the file has a secondary |
| `LifecycleLimits.CleanFailsOrphansExactly` | src/workers/replication.worker.ts:334-345 | the same for the copy of a file that was deleted meanwhile |
| `LifecycleLimits.ExtraScanOrphansExactly` | src/workers/scan.worker.ts:224-320 | the same for one scan handler that starts beside another or without a pending scan |
| `LifecycleLimits.NoSecondaryNoOrphan` | src/workers/replication.worker.ts:484-597 | however a run is disturbed, a file without a secondary leaves no orphan |
| `LifecycleLimits.DeletedIsFinalExactly` | src/workers/scan.worker.ts:279-308 | a DELETED file stays DELETED in every continuation if and only if no scan handler is between its first read and its verdict |
| `LifecycleLimits.VerdictRevivesFile` | src/workers/scan.worker.ts:279-308 | a purged file whose verdict INFECTED arrives late is QUARANTINED again |
| `FileHandlers.FileStore.Write` | src/db/repositories/replica.repository.ts:106-365 | one compare-and-set: hits exactly the accepted statuses and changes that row only |
| `FileHandlers.FileStore.DeleteTransaction` | src/files/delete.service.ts:131-143 | the loop turns QUEUED rows DELETED and all other live rows DELETING, row by row and as the atomic step of the state machine says |
| `FileHandlers.FileStore.InfectedTransaction` | src/workers/scan.worker.ts:287-308 | the loop turns QUEUED, FAILED and DELETING secondaries DELETED and leaves every other row alone, as the quarantine step of the state machine says |
| `FileHandlers.FileStore.PurgeRows` | src/workers/replication.worker.ts:496-537 | the loop stops at the first driver that refuses; rows and objects of the visited providers are retired and cleared |
| `FileHandlers.FileStore.HandlePurge` | src/workers/replication.worker.ts:456-602 | acknowledges if and only if the file is missing or DELETED, or no row is AVAILABLE or IN_PROGRESS and no needed driver refuses; touches nothing while a copy is in progress before its last attempt; otherwise exactly the objects and rows before the first refusing driver are deleted and retired, and it gives up for good if and only if there is one and the attempt is the last |
| `FileHandlers.TenantThrottle.Enter` | src/workers/replication.worker.ts:193-203 | refuses exactly when the tenant has max(2, concurrency) handlers inside; the counters always equal the handlers inside |
| `FileHandlers.TenantThrottle.Exit` | src/workers/replication.worker.ts:400-407 | takes one handler of the tenant out again and keeps the counters exact |
| `BrokerSafety.SerialDelivery` | src/events/memory-broker.ts:277-315 | in every run the active keys are exactly the keys of the executions in flight, which are pairwise distinct, and every active count equals its subscription's executions and is at most its concurrency |
| `BrokerSafety.MessageConservation` | src/events/memory-broker.ts:392-454 | in every run each published message is in exactly one place: queued, running, acknowledged or dead-lettered; nothing else is anywhere |
| `BrokerSafety.SubscriptionsExactly` | src/events/memory-broker.ts:149-206 | in every run the open subscriptions are those opened and not closed, with the concurrency and maximum they were opened with, in order |
| `BrokerSafety.BoundedRetries` | src/events/memory-broker.ts:398-428 | with a shared maximum the k-th delivery carries the initial attempt plus k - 1, there are at most max(1, maximum - initial) deliveries, and a message that neither waits nor runs was acknowledged or dead-lettered exactly once |
| `BrokerDelivery.PumpWakes` | src/events/memory-broker.ts:269-340 | after a pump no dispatchable message is queued, and every queued message waits for a key, for capacity or for a timer due in time; a timer is armed for the due time of a queued message and no earlier |
| `BrokerDelivery.NoLostWakeUp` | src/events/memory-broker.ts:264-389 | in every run without disconnect and with concurrency at least 1, a queued message is blocked by an execution in flight, or the group has no subscription, or a timer is armed no later than its due time |
| `BrokerDelivery.ReinitializedAwakeExactly` | src/events/memory-broker.ts:87-100 | after re-initialisation this holds if and only if there is no capacity, or every queued message waits for an execution with its key or for a timer still armed |
| `BrokerDelivery.MessageStranded` | src/events/memory-broker.ts:87-100 | a run that strands a message |
| `BrokerDelivery.QuietAfterDisconnect` | src/events/memory-broker.ts:213-231 | from the start of a disconnect, or from the end of the pump that starts the handler which calls it at once, until re-initialisation no delivery starts |
| `BrokerDelivery.LeavingInsidePump` | src/events/memory-broker.ts:269-389 | a pump whose handlers disconnect before their first await delivers exactly what it would have delivered otherwise, and leaves the group as if the disconnect had come right after it |
| `BrokerDelivery.DeliveredWhileLeaving` | src/events/memory-broker.ts:360-389 | a run in which a delivery starts after such a disconnect |
| `BrokerDelivery.PublishOrder` | src/events/memory-broker.ts:277-315 | in every run without delays and retries the deliveries of a key are a prefix of its messages in publish order |
| `BrokerProgress.DrainsExactly` | src/events/memory-broker.ts:264-389 | a live group with a subscription of concurrency at least 1 can book all its messages by timers and handlers alone if and only if nothing is queued, something is in flight or a timer is armed |
| `BrokerProgress.NeverStuck` | src/events/memory-broker.ts:264-389 | however handlers and timers go on, whatever the outcomes, such a group keeps this |
| `BrokerProgress.EverythingBooked` | src/events/memory-broker.ts:264-454 | in every run with concurrency at least 1, before a disconnect or re-initialisation and with an open subscription, and however handlers and timers have gone on since, every message published so far can still be acknowledged or dead-lettered, exactly once, without a call from outside |
| `BrokerTiming.FirstDeliveryWaits` | src/events/memory-broker.ts:124-145 | in every continuation with a clock that does not run backwards, no delivery of a message starts before its publication time plus delay |
| `BrokerTiming.RetryWaits` | src/events/memory-broker.ts:415-428 | nor does a delivery after a retry before the time of the retry plus the delay asked for, 1000 milliseconds where none is named and never less than 0 |
| `BrokerTiming.SettledExactly` | src/events/memory-broker.ts:392-430 | in every run with a shared maximum, an outcome books the message as acknowledged or dead, or puts it back at the end of the queue with one attempt more and its delay, the latter exactly while it was delivered fewer times than the maximum allows |
| `BrokerTiming.ArrivesExactly` | src/events/memory-broker.ts:124-145 | a published message is queued as due at the time given, or was due and is started at once |
| `MemoryBroker.Broker.AtEndOfRun` | src/events/memory-broker.ts:87-454 | at any time every group of the broker object is at the end of a run from the empty group |
| `MemoryBroker.Broker.GroupsAreSound` | src/events/memory-broker.ts:277-315 | so its deliveries are serial per key and within capacity, and each published message is in exactly one place |
| `MemoryBroker.Broker.NoWakeUpLost` | src/events/memory-broker.ts:264-389 | while the broker is live and the group was never re-initialised, every queued message is blocked by an execution in flight, or the group has no subscription, or a timer is armed in time |
| `MemoryBroker.Broker.MessagesCanBeBooked` | src/events/memory-broker.ts:264-454 | the same for the groups of the broker object |
| `MemoryBroker.Broker.RetriesAreBounded` | src/events/memory-broker.ts:398-428 | deliveries are numbered from the initial attempt on and bounded, and a message that neither waits nor runs was acknowledged or dead-lettered exactly once |
| `MemoryBroker.Broker.DeliveredInOrder` | src/events/memory-broker.ts:277-315 | without delays and retries the deliveries of a key are a prefix of its publications |
| `MemoryBroker.Broker.PublicationsWait` | src/events/memory-broker.ts:124-145 | `FirstDeliveryWaits` for the groups of the broker object |
| `MemoryBroker.Broker.RetriesWait` | src/events/memory-broker.ts:415-428 | `RetryWaits` for the groups of the broker object |
| `MemoryBroker.FindAvailable` | src/events/memory-broker.ts:331-340 | the loop finds the first subscription below its concurrency |
| `MemoryBroker.PumpLoop` | src/events/memory-broker.ts:269-329 | the while loop computes the pump the run theorems are about, with handlers that disconnect before their first await |
| `MemoryBroker.Broker.Publish` | src/events/memory-broker.ts:102-147 | refuses unless ready; otherwise the message enters exactly the groups of the topic, each once, and no other group changes |
| `MemoryBroker.Broker.Subscribe` | src/events/memory-broker.ts:149-193 | registers the group and adds and pumps a subscription with a fresh id |
| `MemoryBroker.Broker.CloseSubscription` | src/events/memory-broker.ts:195-206 | removes exactly the subscription with this id; a group without any no longer receives messages, and all others still do |
| `MemoryBroker.Broker.OnTimer` | src/events/memory-broker.ts:316-329 | clears the timer and pumps |
| `MemoryBroker.Broker.HandleOutcome` | src/events/memory-broker.ts:392-468 | books the outcome (as `SettledExactly` says); exactly on a dead letter or a retry of the last attempt the message is recorded with one attempt more, to be published to the dead-letter groups, if there are any, of a broker that is live |
| `MemoryBroker.Broker.FinishExecution` | src/events/memory-broker.ts:381-387 | frees key and slot and pumps |
| `MemoryBroker.Broker.BeginDisconnect` | src/events/memory-broker.ts:213-222 | stops every group and clears its timer, and changes nothing else in it |
| `MemoryBroker.Broker.EndDisconnect` | src/events/memory-broker.ts:224-231 | one turn of the wait: the disconnect ends if and only if no execution is in flight, except those of the pump the call comes from; the broker is then not ready |
| `MemoryBroker.Broker.FailDisconnect` | src/events/memory-broker.ts:224-227 | a disconnect that waits for an execution whose dead letter cannot be published fails and leaves the broker disconnecting |
| `MemoryBroker.Broker.Initialize` | src/events/memory-broker.ts:87-100 | at any time, unless the environment forbids it, makes the broker ready and its groups live, without pumping; a refusal changes nothing |
| `Consumer.Wrapper.HandleMessage` | src/events/consumer.ts:39-152 | acknowledges if and only if the handler returns nothing or an acknowledgement; dead-letters if and only if the payload is invalid, the error permanent, another error comes on the last attempt, or the handler asks for it; otherwise retries as the handler says or with the delay of the attempt that failed; moves exactly the counter of the outcome, and publishes exactly the dead letters of an outside broker |
| `Consumer.CountersAgreeExactly` | src/events/consumer.ts:130-150 | over every run the wrapper has processed what the broker has acknowledged, and agrees with it on dead letters if and only if no handler asked for a retry on its last attempt |
| `Consumer.RetryOverruled` | src/events/consumer.ts:130-150 | a run with one such retry, after which the two differ |
| `Backoff.NeverShorterExactly` | src/events/backoff.ts:58-66 | jittered delays never decrease from one attempt to the next, whatever the draws, if and only if factor * (1 - jitter) >= 1 + jitter |
| `Backoff.DelayBetween` | src/events/backoff.ts:44-80 | the delay of attempt n lies between base * factor^(n-1) * (1 - jitter) and base * factor^(n-1) * (1 + jitter), each capped, overridden and rounded |
| `Backoff.Monotone` | src/events/backoff.ts:44-80 | then the rounded, capped delays never decrease either, and they lie between 0 and the cap |
| `Backoff.Override` | src/events/backoff.ts:68-79 | with an override the result is the rounded larger of the two |
| `Backoff.DefaultsReachCapExactly` | src/events/backoff.ts:25-30 | with the defaults the delay is the cap, for every draw, exactly from attempt 6 on |
| `Zip.Put` | src/workers/zip-builder.ts:23-34 | writes a number lowest byte first at its offset and nothing after it; fails exactly when it exceeds the width |
| `Zip.Fill` | src/workers/zip-builder.ts:39-56 | a header is its fields one after the other, or the write fails because a field is out of range |
| `Zip.AddEntry` | src/workers/zip-builder.ts:17-61 | appends the parts of one entry and moves the offset, unless a size, a path length or the offset does not fit |
| `Zip.BuildZipArchive` | src/workers/zip-builder.ts:12-79 | succeeds exactly within the 16-bit and 32-bit limits, and then returns the archive of the entries |
| `Zip.RoundTrip` | src/workers/zip-builder.ts:12-79 | a reader that finds the end record, walks the central directory, follows each offset and checks signatures, version, flags, method, sizes, names and CRC recovers the same paths and data in order |
| `Zip.Injective` | src/workers/zip-builder.ts:12-79 | distinct entry lists give distinct archives |
| `Usage.ReleasingCommitExactly` | src/files/delete.service.ts:130-152 | the releasing transactions of delete and sweep keep the books balanced if and only if the row still counts and the released size is its own (or clamping hides it), or the account is empty |
| `Usage.HardDeleteCommitExactly` | src/files/hard-delete.service.ts:129-147 | the same for a hard delete that releases |
| `Usage.SilentHardDeleteExactly` | src/files/hard-delete.service.ts:129-147 | a hard delete without release is right exactly for rows that do not count |
| `Usage.GoneCommitExactly` | src/files/hard-delete.service.ts:129-147 | a delete or hard delete that releases after its row was removed keeps the books balanced if and only if the account has no file |
| `Usage.CompletingCommitExactly` | src/files/presigned-upload.service.ts:303-347 | the transaction of `complete` is right exactly for a row that still counts |
| `Usage.QuarantineExactly` | src/workers/scan.worker.ts:287-299 | a step that leaves the account alone is right exactly when it does not change whether the row counts |
| `Usage.ReserveExactly` | src/db/repositories/usage.repository.ts:49-73 | a reservation is refused if and only if the account exists and one of its limits would be exceeded; otherwise it adds exactly what was asked for, to no other account |
| `Usage.DoubleDeleteUnbalances` | src/files/delete.service.ts:129-152 | two deletes that both read the file first release it twice |
| `UsageRuns.UsageConservedExactly` | src/files/presigned-upload.service.ts:131-475 | for every interleaving of initiate, complete, sweep, delete, hard delete and verdict steps with rows read earlier, changed or removed since: every account equals the totals over its tenant's files and open reservations in every state if and only if every commit meets its condition |
| `UsageRuns.BalanceExactly` | src/files/delete.service.ts:129-152 | one step of a balanced ledger keeps it balanced if and only if it meets that condition |
| `UsageRuns.StepMovesRow` | src/files/presigned-upload.service.ts:303-347 | in every interleaving, a step changes at most the row it works on: complete makes it ACTIVE with the stored size and no expiry, sweep DELETED, delete DELETING, a verdict QUARANTINED, a purge DELETED, a hard delete removes it; a failing step changes nothing |
| `UsageRuns.DoubleHardDeleteUnbalances` | src/files/hard-delete.service.ts:129-147 | two hard deletes that both read a counted file first unbalance every account with another file |
| `UsageRuns.WithinQuotaRun` | src/db/repositories/usage.repository.ts:49-73 | every account stays within its fixed quota in every run |
| `UsageRuns.UsageConservation` | src/files/presigned-upload.service.ts:131-475 | with calls that read and commit atomically both hold in every run, failing calls included |
| `Accounts.Store.Initiate` | src/files/presigned-upload.service.ts:131-213 | reserves exactly the size and inserts a PENDING_UPLOAD row with its expiry, or gives the reservation back; keeps the books balanced on every path |
| `Accounts.Store.Complete` | src/files/presigned-upload.service.ts:235-420 | answers as the checks demand; refuses if and only if the difference exceeds the quota; otherwise the row becomes ACTIVE with the size of the object and no expiry, every other row is kept and the account moves by the difference, or nothing changes; a second call answers the same and changes nothing |
| `Accounts.Store.Delete` | src/files/delete.service.ts:75-180 | marks the row DELETING, keeps every other row and releases its size and one file; held, deleted and failing cases change nothing |
| `Accounts.Store.HardDelete` | src/files/hard-delete.service.ts:34-160 | removes the row, keeps all others, and releases unless it was soft-deleted before; a dry run changes nothing |
| `Accounts.Store.SweepOne` | src/files/presigned-upload.service.ts:458-475 | the transaction for one expired upload is the sweep step of the runs |
| `Accounts.Store.SweepExpired` | src/files/presigned-upload.service.ts:429-487 | exactly the expired pending uploads whose transaction succeeds are released and DELETED, and they are counted |
| `Placement.CandidatesExactly` | src/storage/placement.service.ts:43-103 | the candidates are exactly the providers named by policy, topology or failovers that are registered, healthy, large enough and, for Cloudinary, allowed for the file |
| `Placement.MostWantedFirst` | src/storage/placement.service.ts:43-103 | once each, the primary of the policy first, then that of the topology, then the failovers as configured |
| `Placement.SecondariesExactly` | src/storage/placement.service.ts:111-178 | the secondaries are exactly the wishes that qualify in the same way and under the Cloudinary rule of the policy, Local unless it is the first candidate and others unless they are candidates, once each, in order |
| `Placement.InsertedRowsSafe` | src/files/upload.service.ts:555-609 | whatever candidate accepts the object: its row is the only primary one and AVAILABLE, all others are QUEUED secondaries of the plan, providers are pairwise distinct, registered, healthy and large enough, and Cloudinary occurs only for public files or with private delivery |
| `Placement.MakePlan` | src/storage/placement.service.ts:36-185 | the loops compute candidates and secondaries, and fail exactly when no preference qualifies |
| `BatchUpload.Uploads.TryProvider` | src/files/upload.service.ts:440-492 | one retry after a retryable error and none after others; stores the object exactly when an attempt succeeds |
| `BatchUpload.Uploads.FailOver` | src/files/upload.service.ts:431-497 | the first candidate that takes the object holds it, and no other does |
| `BatchUpload.Uploads.Commit` | src/files/upload.service.ts:519-797 | charges and inserts exactly when the database is there, the quota allows it and the transaction commits; otherwise it deletes the object again, unless that fails |
| `BatchUpload.Uploads.UploadSingle` | src/files/upload.service.ts:426-797 | succeeds if and only if the checks pass, some candidate takes the object, database and transaction are there and neither limit is exceeded; then its row and object are in place; otherwise rows and accounts are as before, and so are the objects unless a stored one could not be deleted |
| `BatchUpload.UploadedSound` | src/files/upload.service.ts:132-200 | whatever happens to each file of a batch: one row, one charge and one object per completed file, under increasing ids in input order, the objects that could not be deleted, and nothing else; each row has tenant and size of its input and one AVAILABLE replica, at the first candidate that takes the object, which holds the content |
| `BatchUpload.OutcomesExactly` | src/files/upload.service.ts:132-200 | the k-th outcome is a success if and only if checks, failover, database and the quota left by its predecessors allow it |
| `BatchUpload.Uploads.RollbackBatch` | src/files/upload.service.ts:926-962 | undoes the completed uploads, last first, passing over a missing database and drivers that fail |
| `BatchUpload.RollbackExactly` | src/files/upload.service.ts:926-962 | a roll-back leaves exactly the rows and charges it could not revert and the objects it could not delete; it restores everything if and only if there are none |
| `BatchUpload.AtomicityExactly` | src/files/upload.service.ts:132-200 | a batch that fails at its k-th file restores rows, objects and recorded usage if and only if the database and the drivers are there for every completed upload at roll-back, and the failed file left no object |
| `BatchUpload.RollbackFails` | src/files/upload.service.ts:941-960 | for every file that can be uploaded, a batch with it that fails while the database is gone at roll-back is not restored |
| `BatchUpload.Uploads.Upload` | src/files/upload.service.ts:132-200 | an atomic batch succeeds if and only if each upload does in turn; any batch that is not rolled back ends as `UploadedSound` says, and a rolled-back one is restored under the condition of `AtomicityExactly` |
| `OutboxRelay.ClaimedExactly` | src/db/repositories/outbox.repository.ts:32-49 | the claim is the first claimable rows in order of creation, passing over none but those locked by another claim |
| `OutboxRelay.OvertakesExactly` | src/events/outbox-relay.ts:188-196 | across cycles a row is claimed ahead of an older unpublished row of its key exactly when that one is not available yet or locked by another claim |
| `OutboxRelay.RelayOrdering` | src/events/outbox-relay.ts:158-202 | in every cycle, aborted or not, the rows tried for a key are a prefix of its claimed rows that ends at the first failure |
| `OutboxRelay.CycleToIsCycle` | src/events/outbox-relay.ts:158-202 | the loop blocks exactly the failed keys, records exactly the tried rows, and hands over exactly those the broker took, in order |
| `OutboxRelay.FailedRowWaits` | src/events/outbox-relay.ts:188-196 | a row recorded as failed is one attempt further, still unpublished, and due no earlier than the failure and no later than the cap after it |
| `OutboxRelay.WaitsGrow` | src/events/outbox-relay.ts:188-196 | it waits for the base first, the factor times as long after each further failure, and never less after more failures |
| `OutboxRelay.Relay.ProcessBatch` | src/events/outbox-relay.ts:145-205 | a cycle is the loop over the claimed rows up to its end or to the row whose recording fails, with the clock read anew for every row; it counts the rows tried |
| `RelayRuns.PublishedWasHanded` | src/events/outbox-relay.ts:145-205 | for any number of relays, whatever fails: a row marked published was handed to the broker |
| `RelayRuns.TwoRelaysHandOver` | src/events/outbox-relay.ts:145-155 | any two idle relays and any due row: both can claim it one after the other and both can hand it over |
| `RelayRuns.TwiceExactly` | src/events/outbox-relay.ts:145-205 | from any state of a run, two hand-overs of a row are reached without a further claim if and only if it has been handed over twice, or once with a relay still to try it, or two relays are still to try it |
| `RelayRuns.HandedOnceExactly` | src/events/outbox-relay.ts:145-205 | in every run a row is never in that situation if and only if each claim of it comes when it has not been handed over and no relay is still to try it |
| `RelayRuns.NothingLost` | src/events/outbox-relay.ts:145-205 | whatever has failed and whoever is at work, each row that is not published can still be handed over and marked, with any batch size from 1 on |
| `RelayRuns.KeyOvertaken` | src/events/outbox-relay.ts:188-196 | a run in which the newer of two rows of a key is handed over while the older one waits out its back-off |
| `StorageKey.SplitJoin` | src/core/storage-key.service.ts:270-276 | splitting a joined key gives its segments |
| `StorageKey.KeySegments` | src/core/storage-key.service.ts:217-277 | a built key splits into its parts, all made of plain characters; they are all safe segments if and only if id and extension have at most 128 characters together and the MIME type does not name an inherited member |
| `StorageKey.InheritedNameUnsafe` | src/core/storage-key.service.ts:217-277 | for every file id, the MIME type "constructor" gives a key with an unsafe segment |
| `StorageKey.LongNameUnsafe` | src/core/storage-key.service.ts:217-277 | so does every MIME type for an id of 128 characters |
| `StorageKey.FileIdRecovered` | src/core/storage-key.service.ts:217-277 | the file id can be read back from the key |
| `StorageKey.KeysDiffer` | src/core/storage-key.service.ts:217-277 | keys of different file ids differ for all contexts, options, MIME types and dates |
| `StorageKey.TenantRecoveredExactly` | src/core/storage-key.service.ts:217-277 | the tenant can be read back from a key if and only if the namespace is a legacy one or the tenant is not called "system" or "tenants" (or namespace and tenant are both "tenants") |
| `StorageKey.BranchRecoveredExactly` | src/core/storage-key.service.ts:217-277 | the branch can be read back if and only if the folder of a file without a branch does not begin with "branches" and a further level |
| `StorageKey.TenantsApart` | src/core/storage-key.service.ts:217-277 | files of different tenants or branches for which that holds never share a key |
| `StorageKey.BranchShared` | src/core/storage-key.service.ts:217-277 | for every tenant, branch and file id, two scopes with the same key |
| `StorageKey.TenantMistaken` | src/core/storage-key.service.ts:217-277 | a tenant called "tenants" is read back as its namespace |
| `StorageKey.DatedLayout` | src/core/storage-key.service.ts:217-277 | outside the legacy namespaces a key is tenant, namespace, year, month in two digits and file name |
| `StorageKey.LegacyLayout` | src/core/storage-key.service.ts:217-277 | in the legacy namespaces it is the scope, then folder levels and field name, then the file name |
| `StorageKey.FolderRecovered` | src/core/storage-key.service.ts:217-277 | the levels of a folder are those that were joined with slashes, and the field name comes after them |
| `StorageKey.Build` | src/core/storage-key.service.ts:217-277 | the validations, the look-up of the trimmed and lower-cased MIME type and the loop compute that key, or fail |
| `LocalPath.ResolveInsideExactly` | src/core/storage-key.service.ts:144-195 | accepts exactly the plain relative paths whose target is the root or lies below a root other than "/" under a name without leading double dots; the result then has the root's segments as a prefix |
| `LocalPath.BuiltKeyResolves` | src/core/storage-key.service.ts:144-195 | every built key resolves to the root followed by the key |
| `LocalPath.NothingBelowSlash` | src/core/storage-key.service.ts:185-191 | with the root "/" nothing below it is accepted |
| `ClamAv.DecodeStream` | src/ingest/clamav.scanner.ts:225-271 | a decoder of length-prefixed frames recovers the data of any non-empty frames, and stops at the terminator and not before |
| `ClamAv.SendChunk` | src/ingest/clamav.scanner.ts:240-262 | cuts a chunk into frames of 1 to 65536 bytes that carry exactly its bytes, or a prefix of them when the scanner answers early |
| `ClamAv.ScanStream` | src/ingest/clamav.scanner.ts:225-271 | for every split into chunks, empty ones included: unless the scanner answers early, the decoder recovers exactly the input and the byte count is its length; otherwise no terminator is sent, what was sent is a prefix, and the count is that of the frames sent |

## Left out

- Each database transaction and each single statement is atomic; isolation anomalies inside a transaction are not modelled.
- The life cycle is that of one file; files interact only through the tenant throttle and the accounts, which have their own models.
- Hard delete is not a step of the life-cycle model, only of the accounting runs.
- Inline purge, admin-triggered replication, `waitForScan`, presigned completion as a step of the life cycle, and image derivatives are not steps of the life-cycle model.
- Digests are compared as values; the case-insensitive comparison of their hexadecimal text is not modelled.
- MemoryBroker.Broker.Publish: a handler that disconnects before its first await while the publication it comes from still has groups to reach is left out.
- MemoryBroker.Broker.FailDisconnect: which execution makes the disconnect fail is left open.
- MemoryBroker.Broker.NoWakeUpLost: groups that were re-initialised are excluded, because the property fails for them exactly as `ReinitializedAwakeExactly` says.
- Broker headers, first-failure times, the published history and reasons of outcomes are not modelled; group keys are pairs and not joined strings.
- Handler timeouts are one of the errors a handler may throw; draining on `stop` is not modelled.
- Zip.BuildZipArchive: paths are given as UTF-8 bytes and CRC-32 is a parameter, because encoding and checksum are library functions.
- Sweeper deletions and multipart uploads behind the database quota gate are not steps of the accounting runs; a failing storage key between reservation and compensation is excluded, and compensating database calls of the accounting calls succeed.
- Authorization, tenant and branch checks are left out of the accounting calls, except the owner check of `complete`.
- BatchUpload.Uploads.Upload: the quota gate is the no-op one, a driver that refuses an upload stores nothing, nobody else works at the same time, and a file id stands for its storage key.
- The relay's topic mapping, poll intervals, retention and missing database handle are left out; rows created at the same instant keep the order of the table.
- StorageKey.Build: years are not negative.
- LocalPath.ResolveInsideExactly: POSIX path semantics only; symbolic links are not modelled.
- ClamAv.ScanStream: back-pressure and response parsing are left out.
- Backoff.Monotone: real arithmetic; floating-point rounding is not modelled.
- Kafka and Pulsar drivers, Redis, storage drivers, image processing, HTTP, authentication, configuration, metrics and command-line tools are left out.
