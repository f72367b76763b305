# Verified model of the tenant control plane and its ledgers

A Dafny 4.11 model of the parts of the repository where state, failure and interleaving meet, with proofs about whole runs.
`dafny verify dfyconfig.toml` checks everything.

## What is modelled

**The tenant control plane.** Operations with an idempotency key, a guarded state table and a journal (`OperationTable`,
`OperationHistory`, `OperationService`); the signed routing snapshot and its generation (`RoutingPlane`); failover as a machine
of awaited steps, each of which may fail or be the last before a crash (`FailoverSaga`), with what every run leaves behind
(`FailoverRuns`, `FailoverOutcome`, `FailoverJournal`, `FailoverRetries`) and the imperative saga proved against the machine
(`FailoverService`); one tenant under any interleaving of overlapping failovers, crashes, publications with separate reads and
writes, status updates and time, for its fence (`ControlPlaneWorld`) and its route (`RouteStability`); the per-tenant lock with
its lifetime (`LeaseLock`), and failovers behind it (`LockedRuns`); the cache-aside tenant row (`TenantCache`); the data check
of a migration (`MigrationDiff`).

**Hash-chained logs.** Unique decoding of delimiter-joined text (`DelimitedText`), chains over any hash (`HashChain`), and the
three logs: the operation journal, one chain per tenant (`OperationJournal`), with ids in any order (`JournalOrder`); the audit
ledger, one chain (`AuditLedger`); the data audit log, a forest (`DataAuditLog`), with the masking of its payloads (`PiiMask`).

**Delivery.** The inbox (`Inbox`), jobs through it (`InboxJobs`) and notifications (`Notifications`, and `NotificationCopies`
for overlapping sends), over any number of deliveries, calls and faults.

**Money.** Rounding (`Money`), sums (`Summation`), invoices, postings, views and the trial balance (`Bookkeeping`), cloud-cost
reconciliation (`CostReconciliation`) with the base64 of its recommendation ids (`Base64Url`). And the decoding of XML entities
(`EntityDecoding`).

Code that changes rows step by step is a class or a method with loops, proved equal to a function on values; runs, schedules and
interleavings are sequences of events over those functions, and the properties are proved for all of them.

## What the proofs found

Several things the code seems to promise do not hold. Each has a counter-run or an exact condition.

- A switch that is refused, or whose snapshot cannot be read or first inserted, burns a fence value: the rollback's flush saves
  the raised fence, so later failovers are refused until other snapshots have been written (`RefusalsCountTheGap`,
  `FailedSwitchBlocksFailover`).
- A switch whose snapshot cannot be saved is saved all the same, by the rollback's flush: the operation is in ROLLBACK and the
  tenant ACTIVE on its secondary region (`FailedWriteStillSwitches`).
- A failover's rollback sets ACTIVE whatever the status was, lifts any freeze, and does not restore the route (`OutcomeOfRun`,
  `RollbackKeepsSwitchedRoute`, `RefusedFailoverReactivates`).
- A crash or fault between saving ROLLBACK and unfreezing leaves a tenant that no retry with the same key unfreezes
  (`CrashThenRetry`, `CrashThenRetryBehindLock`, `FailedThawNeedsNewKey`).
- A route decided before a switch and published after it brings a DEGRADED tenant back to its primary region, under the same
  generation; nothing else does (`LateEvaluationUndoesSwitch`, `ServesIffLastWriteStands`).
- Migration asks for VALIDATING twice and provisioning for MONITORING after SWITCHING, which the table refuses: no migration
  runs up, every undisturbed one runs the migrator down, unverified, and may publish its route once more, no migration call ever
  returns, and no provisioning activates its tenant (`MigrationNeverFinalizes`, `EveryMigrationThrows`,
  `UndisturbedMigrationRollsBack`, `RollbackCheckIsVacuous`, `ProvisioningNeverActivates`).
- A transition is saved before it is journaled, so the journal is complete exactly when no append met trouble
  (`JournalCompleteIff`, `FailedAppendLosesRow`).
- An overrunning run deletes a lock it no longer owns; runs exclude each other exactly when none acquires while one is
  overrunning (`OverrunBreaksOthers`, `ExclusiveIffNeverOvertaken`).
- A reader that straddles a write caches the old row for an hour (`StraddlingReaderLies`).
- Overlapping appends, and ids that become visible out of order, fork the journal; overlapping transactions fork the audit
  ledger, equal milliseconds can fork the ledger even without overlap, several changes in one flush fork the data audit log, and
  a pipe in a user name makes two ledger rows hash alike (`LinearIffNeverStale`, `LateIdBreaks`, `OneChainIffNeverStale`,
  `SameMillisecondForks`, `FlushStaysLinearIff`, `TwoRowsAreStale`, `LeafRemovalUndetected`, `PipesMakeRowsAlike`).
- A scheduled retry is never run, a job allowed two attempts never fails terminally, and a job is lost exactly when a delivery
  that found no row for it commits first (`ScheduledRetriesNeverRun`, `AtMostOneCommit`, `LostIffCommittedUnread`).
- Sending a sent notification again marks it FAILED_TERMINAL, copies loaded before either is sent are each dispatched, and
  nothing a provider reports ever opens, bounces or complains of one (`ResendOnlySpoils`, `DispatchesAreLuckySends`,
  `ReportsStayWithin`).
- A payroll posting can be a cent off and is then refused (`PayrollPostingIff`).
- Recommendation ids collide when the first twelve bytes of two keys agree, so for every long tenant name (`IdsCollideIff`,
  `LongTenantNamesCollide`).
- Decoding `&amp;` first turns spelled-out entities into characters (`DecodingInvertsEscapingIff`).

## Assumptions

- A flush is atomic and bumps the control record's `version` column when the record changed, failing when another writer did.
  Each call has its own unit of work, which keeps the rows it has loaded and saves what is changed in them with its next flush
  that works; a row that is new is tried in one flush only. After a crash only what was flushed remains.
- A publication writes the snapshot its unit of work has read, one generation up; inserting a row that exists by now violates
  its primary key. The reads and the write of a publication are separate steps, as are those of a failover. Where a theorem
  takes `createSnapshot` as atomic, or the switch window as free of older routes, its statement says so.
- The HMAC of a snapshot is a symbolic term. The hash of the logs is any function into 64 hexadecimal digits; collisions are
  named, not excluded. Payloads are opaque strings, JSON text is not modelled.
- Redis is present. Clocks are numbers of milliseconds, a day is 86,400,000 of them.
- Probes, telemetry, event-plane recovery and evidence files are steps that may fail and change nothing here.
- The lock of the ledger's read excludes no other reader; rows are read as committed. A job's transaction commits as a whole,
  and a second inbox row for one message and consumer violates the primary key.
- Audit rows persisted inside `onFlush` join the flush that is under way, and none of them is seen by a lookup before it.
- A provider's callback is given the notification it looks for. Nothing in the repository stores the provider's message id it is
  looked up by, so as the code stands the lookup finds none.
- `history.add` of a notification works, as on the collection an ORM puts in place of the declared array.
- Decimals and JavaScript numbers are exact reals; their two-place texts round half away from zero and keep the sign of what was
  below zero.

## Model

| member | source | states |
|---|---|---|
| `OperationTable.PathDescends` | libs/kernel/tenant/src/lib/tenant-operation.service.ts:207-253 | every path in the state table strictly decreases a rank, so the table has no cycle and no self-loop |
| `OperationTable.DescendingIsShortAndSimple` | libs/kernel/tenant/src/lib/tenant-operation.service.ts:207-253 | a history that descends never repeats a state, has at most ten states (nine transitions), goes from ROLLBACK to FINALIZED alone and from FINALIZED nowhere |
| `OperationTable.NormalFinishVisitsSwitch` | libs/kernel/tenant/src/lib/tenant-operation.service.ts:207-253 | finishing without ROLLBACK means PREPARING, VALIDATING, SWITCHING and SWITCHED occurred, in that order |
| `OperationTable.NormalPathsAre` | libs/kernel/tenant/src/lib/tenant-operation.service.ts:207-253 | a path of the table goes from REQUESTED to FINALIZED without ROLLBACK exactly when it is one of four, written out: with or without DRY_RUN, with or without MONITORING and RECONCILING |
| `OperationTable.OnlyFinalizedIsTerminal` | libs/kernel/tenant/src/lib/tenant-operation.service.ts:207-253 | exactly FINALIZED has no successor, and exactly the open states can be rolled back |
| `OperationHistory.EveryHistory` | libs/kernel/tenant/src/lib/tenant-operation.service.ts:105-144 | over any requests, faults and restarts: the saved history is simple and short, ends in the saved state, finishedAt is set exactly in FINALIZED or ROLLBACK, and the journaled states are a subsequence of it |
| `OperationHistory.JournalCompleteIff` | libs/kernel/tenant/src/lib/tenant-operation.service.ts:119-134 | the journal holds a row for every saved transition exactly when no accepted request met trouble at the journal; then it is the history in order, otherwise it is shorter |
| `OperationHistory.FailedAppendLosesRow` | libs/kernel/tenant/src/lib/tenant-operation.service.ts:130-134 | one fault at the journal leaves a saved transition that no row tells of |
| `OperationHistory.FailedAppendThrowsIff` | libs/kernel/tenant/src/lib/tenant-operation.service.ts:198-203 | when the journal row of an accepted transition cannot be appended the request throws exactly for a migration or a failover; the transition is saved in any case |
| `OperationHistory.HistoryIsPathIff` | libs/kernel/tenant/src/lib/tenant-operation.service.ts:105-144 | over any requests, faults and restarts the saved history is a path in the table exactly when no request was saved that the table refuses from the saved state, the row in memory being further on |
| `OperationHistory.DisciplinedHistoryIsPath` | libs/kernel/tenant/src/lib/tenant-operation.service.ts:105-144 | in particular when a unit of work asks for nothing but ROLLBACK after a failed flush, as the sagas do |
| `OperationHistory.UndisciplinedHistoryCanSkip` | libs/kernel/tenant/src/lib/tenant-operation.service.ts:111-130 | without that discipline a saved history can skip a state: the row in memory is changed before the flush that fails |
| `OperationHistory.ReachIsPath` | libs/kernel/tenant/src/lib/tenant-operation.service.ts:113-117 | a script of requests runs to its end without faults exactly when it is a path from the present state |
| `OperationHistory.DriveAdvances` | libs/kernel/tenant/src/lib/tenant-operation.service.ts:105-144 | a script advances exactly to its first refused request or harmful fault, and what is saved is one of the states asked for up to there |
| `OperationHistory.ScriptCompletesIffPath` | libs/kernel/tenant/src/lib/tenant-operation.service.ts:105-144 | an operation can be driven through a script, for some faults, and be left saved in its last state exactly when the script is a path in the table |
| `OperationHistory.ScriptReaches` | libs/kernel/tenant/src/lib/migration-orchestrator.service.ts:36-61 | failover's script is a path; migration's is refused at its second VALIDATING and provisioning's at MONITORING |
| `OperationHistory.EffectsFollowScript` | libs/kernel/tenant/src/lib/migration-orchestrator.service.ts:114-131 | the migrator runs up exactly after SWITCHING, the routes are switched exactly after SWITCHED |
| `OperationHistory.MigrationNeverFinalizes` | libs/kernel/tenant/src/lib/migration-orchestrator.service.ts:23-77 | no number of migration calls with one key, whatever fails and wherever they crash, gets past VALIDATING: the migrator never runs up, routes are never switched, nothing is FINALIZED, and the only effects are the migrator run down, each time followed by at most one more publication of the present route |
| `OperationHistory.UndisturbedMigrationRollsBack` | libs/kernel/tenant/src/lib/migration-orchestrator.service.ts:291-330 | a first migration that nothing disturbs ends in ROLLBACK, runs the migrator down although it never ran up, and publishes the resolved route once more exactly when its version exceeds one |
| `OperationHistory.EveryMigrationThrows` | libs/kernel/tenant/src/lib/migration-orchestrator.service.ts:32-77 | after any calls with one key, the next migration call throws whenever it is not cut off; only a FINALIZED operation, which never comes about, would let it return |
| `OperationHistory.FailedAppendRollsMigrationBack` | libs/kernel/tenant/src/lib/migration-orchestrator.service.ts:38-68 | a migration whose append of PREPARING or VALIDATING fails stops at that request and ends in ROLLBACK |
| `OperationHistory.CrashedMigrationUndoesNothing` | libs/kernel/tenant/src/lib/migration-orchestrator.service.ts:63-72 | a migration cut off within its script asks for no ROLLBACK and runs no migrator |
| `OperationHistory.UndoEffectsAre` | libs/kernel/tenant/src/lib/migration-orchestrator.service.ts:291-330 | what undoes a migration: the migrator run down where it gets that far, the route published again exactly from version two on |
| `OperationHistory.ProvisioningNeverActivates` | libs/domain/admin/application/src/use-cases/provisioning.service.ts:51-101 | no provisioning run gets past SWITCHING or activates its tenant; undisturbed it ends in ROLLBACK |
| `OperationService.TenantOperationService.TransitionState` | libs/kernel/tenant/src/lib/tenant-operation.service.ts:105-144 | row in memory, saved row, history and journal change exactly as the transition specification says, and it returns rather than throws exactly when that does |
| `OperationService.TenantOperationService.RunScript` | libs/kernel/tenant/src/lib/migration-orchestrator.service.ts:36-61 | awaiting the requests of a script one by one leaves exactly the state and the count the script specification gives |
| `OperationService.TenantOperationService.MigrateTenant` | libs/kernel/tenant/src/lib/migration-orchestrator.service.ts:23-77 | one migration call, its catch and its crash leave exactly the specified operation and effects, and it throws exactly when specified |
| `OperationService.TenantOperationService.RunProvisioningSaga` | libs/domain/admin/application/src/use-cases/provisioning.service.ts:51-101 | one provisioning saga leaves exactly the specified operation and effects |
| `MigrationDiff.CalculateDataDiff` | libs/kernel/tenant/src/lib/migration-orchestrator.service.ts:175-193 | the violations listed are exactly the real ones: missing table, row count, checksum, structure |
| `MigrationDiff.PassesIffKept` | libs/kernel/tenant/src/lib/migration-orchestrator.service.ts:175-193 | the check passes exactly when every earlier table is still there unchanged; additional tables are not noticed |
| `MigrationDiff.PassesBothWaysIffSame` | libs/kernel/tenant/src/lib/migration-orchestrator.service.ts:175-193 | only passing in both directions means that the statistics are the same |
| `MigrationDiff.RecordedByThirdRequest` | libs/kernel/tenant/src/lib/migration-orchestrator.service.ts:46-48 | the statistics are on record exactly once the second VALIDATING has gone through |
| `MigrationDiff.RollbackCheckIsVacuous` | libs/kernel/tenant/src/lib/migration-orchestrator.service.ts:46-48 | the pre-migration statistics are saved with the refused second VALIDATING, so a rollback is verified against nothing and passes whatever it did |
| `RoutingPlane.RoutingPlaneService.CreateSnapshot` | libs/kernel/tenant/src/lib/routing-plane.service.ts:191-237 | publishes exactly when no fence is given or it equals the current generation, and then stores the signed snapshot with the next generation; otherwise the row is unchanged |
| `RoutingPlane.RoutingPlaneService.ResolveRoute` | libs/kernel/tenant/src/lib/routing-plane.service.ts:52-73 | answers from the stored snapshot while it is unexpired, refuses a tampered one, and otherwise publishes what the control record's status asks for, unfenced |
| `RoutingPlane.RoutingPlaneService.EnforceProxyRoute` | libs/kernel/tenant/src/lib/routing-plane.service.ts:75-127 | refuses or routes exactly as the ordered checks demand |
| `RoutingPlane.EvaluatedRouteIsPublished` | libs/kernel/tenant/src/lib/routing-plane.service.ts:129-189 | without an unexpired row and with endpoints, the answer has the given endpoints, the two regions in the roles the status asks for and failoverActive exactly for DEGRADED, and the row then holds it, signed, one generation up, for exactly a day |
| `RoutingPlane.ResolveAnswersIff` | libs/kernel/tenant/src/lib/routing-plane.service.ts:52-73 | an unexpired row answers for itself and stays; a tampered one is never answered from nor replaced; otherwise there is an answer exactly when there are endpoints |
| `RoutingPlane.EvaluatedRouteIsRouted` | libs/kernel/tenant/src/lib/routing-plane.service.ts:52-127 | round trip: a proxy request for any non-empty endpoint of an evaluated answer is routed there for a day, with or without its generation and signature |
| `RoutingPlane.RoutedIff` | libs/kernel/tenant/src/lib/routing-plane.service.ts:75-127 | a request is routed exactly when the row verifies and is unexpired, the requested target is the non-empty endpoint of its service, and a presented generation, unless zero, and a presented signature are those of the row, which it is handed back |
| `RoutingPlane.RefusedForFirstReason` | libs/kernel/tenant/src/lib/routing-plane.service.ts:87-121 | which refusal a request gets: that of the first demand it does not meet |
| `RoutingPlane.StaleSignaturesStayDead` | libs/kernel/tenant/src/lib/routing-plane.service.ts:110-114 | over every run, a request that presents a signature is routed only while the very snapshot it was made for is stored |
| `RoutingPlane.GenerationCountsWrites` | libs/kernel/tenant/src/lib/routing-plane.service.ts:191-237 | from an empty row the generation equals the number of snapshots written, and the stored snapshot verifies, over every run |
| `RoutingPlane.StaleRoutesStayDead` | libs/kernel/tenant/src/lib/routing-plane.service.ts:75-127 | once a generation is superseded no later request that presents it is routed; whatever is routed is the endpoint of the current unexpired snapshot |
| `RoutingPlane.GenerationsRiseIffAtomic` | libs/kernel/tenant/src/lib/routing-plane.service.ts:191-232 | with separate reads and writes, every write raises the generation exactly when no write lands between another writer's read and its write |
| `RoutingPlane.InsertReplacesNothing` | libs/kernel/tenant/src/lib/routing-plane.service.ts:221-232 | a writer that found no row inserts one or, where there is one by now, fails and leaves it |
| `RoutingPlane.SlowWriterRevivesDeadRoute` | libs/kernel/tenant/src/lib/routing-plane.service.ts:191-232 | a counter-run in which a superseded generation comes back and is routed again |
| `FailoverSaga.ExecCompletes` | libs/kernel/tenant/src/lib/failover.service.ts:101-230 | every run ends: enough steps of the machine are the complete run, whatever fails |
| `FailoverService.Service.TriggerRegionalFailover` | libs/kernel/tenant/src/lib/failover.service.ts:101-230 | the imperative saga, with its try, catch and finally, leaves control record, snapshot, operations and journal exactly as the step machine does, and returns exactly when its operation was FINALIZED before or the call got through to its end |
| `FailoverService.Service.ExecuteFailoverRollback` | libs/kernel/tenant/src/lib/failover.service.ts:463-474 | the rollback leaves exactly what the step machine leaves from the ROLLBACK request on |
| `FailoverRuns.StepKeepsInv` | libs/kernel/tenant/src/lib/failover.service.ts:101-230 | what every awaited step of a run keeps, succeeding or failing: the stored and in-memory rows, the fence and the route at each step |
| `FailoverRuns.ExecKeepsInv` | libs/kernel/tenant/src/lib/failover.service.ts:101-230 | the invariant holds after any number of steps, so after a crash anywhere |
| `FailoverRuns.FailoverMovesFence` | libs/kernel/tenant/src/lib/failover.service.ts:144-161 | whatever fails and wherever it crashes: either the route switched, the generation was the expected one and fence and generation both stand one above it, or the route is as before and the fence moved to one above the expected generation or not at all |
| `FailoverRuns.OtherKeysKept` | libs/kernel/tenant/src/lib/tenant-operation.service.ts:73-103 | a failover call changes no operation but the one its idempotency key names |
| `FailoverOutcome.AttemptOutcome` | libs/kernel/tenant/src/lib/failover.service.ts:144-161 | an attempt that compares generations and whose rollback is saved leaves the fence one above what it expected, and switches the route exactly when the generations agree, the snapshot is read, and it was there to be changed or gets inserted |
| `FailoverOutcome.RefusalsCountTheGap` | libs/kernel/tenant/src/lib/failover.service.ts:144-161 | with no other snapshot written, a fence at or below the generation is refused exactly as often as the difference, then every attempt switches; from above none ever does |
| `FailoverOutcome.FailedSwitchBlocksFailover` | libs/kernel/tenant/src/lib/failover.service.ts:463-473 | after the generations agreed, a snapshot that cannot be read again or a first one that cannot be inserted leaves the fence ahead, and no later attempt switches until another snapshot is written |
| `FailoverOutcome.FailedWriteStillSwitches` | libs/kernel/tenant/src/lib/routing-plane.service.ts:221-232 | when only the flush of an existing snapshot fails, the row stays changed in the unit of work and the flush of the ROLLBACK transition saves it: the call ends in ROLLBACK, ACTIVE, on the secondary region, generation and fence both one up |
| `FailoverOutcome.OutcomeOfRun` | libs/kernel/tenant/src/lib/failover.service.ts:101-230 | every call to its end, when the recovery calls hold: turned away it changes nothing; otherwise the tenant is unfrozen, and the operation is FINALIZED (SWITCHED if saving that failed) with status DEGRADED exactly when table, status, fence and every call let it, else in ROLLBACK with status ACTIVE; the route, exactly: switched when the call compares generations, they agree and the snapshot is read, untouched otherwise |
| `FailoverOutcome.CallReturnsIff` | libs/kernel/tenant/src/lib/failover.service.ts:221-229 | over any rows, keys and failing calls: a call returns exactly when creation worked and its operation was FINALIZED before, or table, status, fence and every awaited call to the end let it through, and then the operation is FINALIZED; in every other case it throws, also when its rollback works |
| `FailoverOutcome.UndisturbedFailover` | libs/kernel/tenant/src/lib/failover.service.ts:101-219 | when nothing fails, a first call for a tenant that is not DEGRADED, or a drill for any, goes through from a snapshot at the fence (at the version while there is none): everything it leaves is written out |
| `FailoverOutcome.RefusedFailoverThrows` | libs/kernel/tenant/src/lib/failover.service.ts:123-125 | a failover of a DEGRADED tenant under a key that does not begin with "drill" throws |
| `FailoverOutcome.UnrecordedFailureStaysOpen` | libs/kernel/tenant/src/lib/failover.service.ts:221-225 | when the failure itself cannot be recorded there is no rollback: the call throws and its operation stays open |
| `FailoverOutcome.UnrecordedFailureStaysFrozen` | libs/kernel/tenant/src/lib/failover.service.ts:221-225 | and then a tenant that had been frozen stays so, under an operation in SWITCHING |
| `FailoverOutcome.FailedAppendRollsBack` | libs/kernel/tenant/src/lib/tenant-operation.service.ts:198-203 | a failover whose journal append fails throws, and before FINALIZED ends in ROLLBACK |
| `FailoverJournal.CallJournals` | libs/kernel/tenant/src/lib/tenant-operation.service.ts:130-134 | a call appends the rows of its five transitions in order, possibly cut short, and then at most that of ROLLBACK; all five and no ROLLBACK when it gets through, none for a FINALIZED operation |
| `FailoverRetries.ClosedKeyStaysClosed` | libs/kernel/tenant/src/lib/failover.service.ts:108-111 | no number of calls with a FINALIZED or rolled-back key changes anything, at any step and whatever fails |
| `FailoverRetries.CrashThenRetry` | libs/kernel/tenant/src/lib/failover.service.ts:108-230 | any number of calls with one fresh key once inside the lock, each failing anyhow and cut off anywhere, then one to its end: the operation is FINALIZED or in ROLLBACK (SWITCHED if saving FINALIZED failed), and the tenant stays frozen exactly when it was left between saving ROLLBACK and unfreezing |
| `FailoverRetries.FailedThawNeedsNewKey` | libs/kernel/tenant/src/lib/failover.service.ts:455-474 | a rollback that saves its state but not the unfreeze leaves the tenant frozen, no retry with the key changes that, and a call with a new key unfreezes it |
| `FailoverRetries.RollbackKeepsSwitchedRoute` | libs/kernel/tenant/src/lib/failover.service.ts:463-473 | a rollback after the switch sets ACTIVE but leaves the published route on the secondary region without endpoints, so no proxy request is routed |
| `FailoverRetries.RefusedFailoverReactivates` | libs/kernel/tenant/src/lib/failover.service.ts:123-125 | a second failover of a DEGRADED tenant is refused, and its rollback makes the tenant ACTIVE while the route stays |
| `FailoverRetries.RefusedStaysUnswitched` | libs/kernel/tenant/src/lib/failover.service.ts:123-125 | a tenant found DEGRADED is never switched by a call that is no drill, whatever fails |
| `ControlPlaneWorld.EventKeepsInv` | libs/kernel/tenant/src/lib/failover.service.ts:144-166 | what every event of every schedule keeps about fence and generation, from any control record and with any number of overlapping runs, and what it may move |
| `ControlPlaneWorld.EventMovesGap` | libs/kernel/tenant/src/lib/failover.service.ts:144-161 | what one event of any kind does to generation minus expected generation |
| `ControlPlaneWorld.GapIsConserved` | libs/kernel/tenant/src/lib/failover.service.ts:144-161 | over every schedule of overlapping failovers, crashes, publications, status updates and time, from any control record: generation minus expected generation changes only by publications, by burns, one each, and by what a switch overwrites, whether its own flush or that of a rollback saves it |
| `ControlPlaneWorld.AtomicOverwritesNothing` | libs/kernel/tenant/src/lib/routing-plane.service.ts:196-233 | when nothing is published between a current run's read of the snapshot and the flush that saves its write, switches overwrite nothing |
| `ControlPlaneWorld.SwitchClosesTheGap` | libs/kernel/tenant/src/lib/routing-plane.service.ts:196-233 | a snapshot of a failover is saved, at once or late by its rollback, only when the generation it read is the expected one, and then generation and fence both stand one above it; with atomic publications that is after exactly as many burns as there were generations to catch up with |
| `ControlPlaneWorld.MarkingMakesOthersStale` | libs/kernel/tenant/src/lib/failover.service.ts:163-166 | marking DEGRADED always writes the record, also where it is DEGRADED already, so every other run that has loaded it is stale from then on |
| `ControlPlaneWorld.FirstSwitchReplacesNothing` | libs/kernel/tenant/src/lib/routing-plane.service.ts:221-232 | a failover that read no snapshot switches only where there still is none |
| `ControlPlaneWorld.UndisturbedPublisher` | libs/kernel/tenant/src/lib/routing-plane.service.ts:52-73 | undisturbed, the separate steps of a publication leave what the resolution of a route leaves in one piece, or publish the targets of a row in force again, one generation up |
| `ControlPlaneWorld.OnlyEmptyReadersLookAgain` | libs/kernel/tenant/src/lib/routing-plane.service.ts:196 | a publication that found no row looks again, one that found a row keeps to it |
| `ControlPlaneWorld.NothingTamperedIsReused` | libs/kernel/tenant/src/lib/routing-plane.service.ts:55-60 | over every schedule no snapshot that does not verify is published again |
| `ControlPlaneWorld.StatusUpdateIs` | libs/kernel/tenant/src/lib/tenant.service.ts:275-290 | a status update never unfreezes, moves no fence, token or region, and leaves every run that has loaded the record stale |
| `RouteStability.ResolvesToSecondaryIff` | libs/kernel/tenant/src/lib/routing-plane.service.ts:52-73 | a DEGRADED tenant's resolved route has its secondary region as primary exactly when there is no unexpired snapshot or it is on that region |
| `RouteStability.EventKeepsRoute` | libs/kernel/tenant/src/lib/routing-plane.service.ts:129-189 | every event that does not publish a route decided before the switch keeps a DEGRADED tenant served from its secondary region, and the next other write of the route heals it |
| `RouteStability.DegradedRoutesToSecondary` | libs/kernel/tenant/src/lib/routing-plane.service.ts:52-73 | from any tenant whose route is right to begin with, while it is DEGRADED every resolved route has its secondary region as primary: across overlapping failovers and drills, expiry, re-evaluation, migration snapshots, crashes and status updates, as long as no route decided before the switch is published after it |
| `RouteStability.ServesIffLastWriteStands` | libs/kernel/tenant/src/lib/routing-plane.service.ts:185-187 | at every point of every schedule, without any assumption on timing: a DEGRADED tenant is served from its secondary region exactly when the last write of its route did not undo a switch, or has expired |
| `RouteStability.ServesIffNeverLate` | libs/kernel/tenant/src/lib/routing-plane.service.ts:185-187 | with a timely switch window, it is served so throughout a schedule exactly when no route decided before the switch is published while it is DEGRADED |
| `RouteStability.LateEvaluationUndoesSwitch` | libs/kernel/tenant/src/lib/routing-plane.service.ts:129-189 | a schedule: an evaluation reads before a successful failover and publishes after it, and the DEGRADED tenant is back on its primary region under the very generation of the switch |
| `LeaseLock.OperationLock.AcquireLock` | libs/kernel/tenant/src/lib/tenant-operation.service.ts:52-66 | the key is taken for thirty seconds exactly when no live key exists |
| `LeaseLock.OperationLock.ReleaseLock` | libs/kernel/tenant/src/lib/tenant-operation.service.ts:68-71 | the key is deleted, whoever holds it |
| `LeaseLock.DeadRunBlocksThirtySeconds` | libs/kernel/tenant/src/lib/tenant-operation.service.ts:52-71 | a run that dies inside keeps others out for thirty seconds and no longer; one that releases lets the next in at once |
| `LeaseLock.ExclusiveIffNeverOvertaken` | libs/kernel/tenant/src/lib/tenant-operation.service.ts:52-71 | over every schedule at most one run is ever between acquire and release exactly when no run acquires the lock while one whose thirty seconds are over is still inside |
| `LeaseLock.PunctualRunsExclude` | libs/kernel/tenant/src/lib/tenant-operation.service.ts:52-71 | while every run releases within the lifetime, at most one run is between acquire and release, over every schedule |
| `LeaseLock.OverrunBreaksOthers` | libs/kernel/tenant/src/lib/failover.service.ts:227-229 | one overrunning run, deleting a lock it no longer owns, puts two punctual runs inside together |
| `LockedRuns.ApartIffNeverOvertaken` | libs/kernel/tenant/src/lib/failover.service.ts:101-106 | over every schedule of calls behind the lock, crashes that leave the key, delays and other writers: two failover runs are never under way together exactly when no call gets the lock while a run that has outlived it still is |
| `LockedRuns.PunctualRunsNeverOverlap` | libs/kernel/tenant/src/lib/failover.service.ts:101-106 | so runs that finish within thirty seconds never overlap |
| `LockedRuns.CallsBehindLockAreAlone` | libs/kernel/tenant/src/lib/failover.service.ts:101-230 | then, where only such calls write: at every step of every call fence and route are those of a run that started alone from the rows the call found, and before its release, when the recovery calls hold, it has ended as such a run ends |
| `LockedRuns.CrashThenRetryBehindLock` | libs/kernel/tenant/src/lib/failover.service.ts:101-230 | any number of calls with one fresh key behind the lock, failing and crashing anywhere and waiting for a dead call's lock to expire: a call whose recovery calls hold ends as a retry does, and the tenant stays frozen exactly when the call found it frozen under a key in ROLLBACK |
| `TenantCache.TenantService.GetTenantConfig` | libs/kernel/tenant/src/lib/tenant.service.ts:312-358 | a call answers from a live entry when it can read it, else fetches, answers and stores; an absent row is not found and stores nothing |
| `TenantCache.StoredIsHitForAnHour` | libs/kernel/tenant/src/lib/tenant.service.ts:340-352 | what a reader has stored is hit for an hour and no longer, unless something comes in between |
| `TenantCache.TenantService.CreateTenant` | libs/kernel/tenant/src/lib/tenant.service.ts:86-133 | incomplete input and an existing tenant are conflicts and nothing is written; otherwise the row is flushed and the entry deleted |
| `TenantCache.TenantService.UpdateTenant` | libs/kernel/tenant/src/lib/tenant.service.ts:292-302 | a missing tenant fails; otherwise the row is flushed and then the entry deleted |
| `TenantCache.EveryRunIsHonest` | libs/kernel/tenant/src/lib/tenant.service.ts:312-358 | in every interleaving the cached entry and every value under way were really held by the row when they were fetched |
| `TenantCache.AnswersWereTrueRecently` | libs/kernel/tenant/src/lib/tenant.service.ts:312-358 | every answer is a value the row held less than the lifetime plus the reader's own delay ago, even when stores and deletes fail |
| `TenantCache.QuietRowsAnswerTruly` | libs/kernel/tenant/src/lib/tenant.service.ts:347-352 | once a row has been left alone for the lifetime plus the delay, every answer is its present value |
| `TenantCache.AgreementIffHarmless` | libs/kernel/tenant/src/lib/tenant.service.ts:292-302 | the cache agrees with the row at every point without a pending delete exactly when no store happens there with a replaced value and no last delete fails over a wrong entry |
| `TenantCache.WithoutStraddlingCacheAgrees` | libs/kernel/tenant/src/lib/tenant.service.ts:312-358 | if deletes work and no fetch-to-store window holds a whole write, the cache agrees at every such point |
| `TenantCache.StraddlingReaderLies` | libs/kernel/tenant/src/lib/tenant.service.ts:329-352 | one straddling reader puts the replaced value back, and every hit for the next hour answers it |
| `DelimitedText.TextIsUnique` | libs/kernel/tenant/src/lib/tenant-operation.service.ts:180 | a joined string determines its fields although one of them may hold the separator any number of times |
| `HashChain.TailDeterminesHistory` | libs/kernel/tenant/src/lib/tenant-operation.service.ts:170-183 | chained logs with equal tail hashes are equal row by row, or two rows exhibit a hash collision; no injectivity is assumed |
| `HashChain.TailsAgreeIffHistoriesDo` | libs/kernel/tenant/src/lib/tenant-operation.service.ts:170-183 | short of a collision, tails agree exactly when histories do |
| `HashChain.AppendKeepsChain` | libs/kernel/tenant/src/lib/tenant-operation.service.ts:177-183 | an append keeps a chain exactly when its hash is the one that follows the tail |
| `OperationJournal.SpelledOut` | libs/kernel/tenant/src/lib/tenant-operation.service.ts:180 | the hashed string, spelled out field by field |
| `OperationJournal.LastHashIsTail` | libs/kernel/tenant/src/lib/tenant-operation.service.ts:171-178 | the last hash selected for a tenant is the tail of that tenant's chain, or genesis |
| `OperationJournal.FirstIsSealedOntoGenesis` | libs/kernel/tenant/src/lib/tenant-operation.service.ts:177-178 | a tenant without rows is sealed onto the named genesis |
| `OperationJournal.Journal.AppendToJournal` | libs/kernel/tenant/src/lib/tenant-operation.service.ts:146-205 | an uninterrupted append adds the row sealed onto the tenant's last hash and keeps every tenant's chain; without a secret or on a failed insert nothing is added, and exactly strict operations throw |
| `OperationJournal.InsertKeepsLinear` | libs/kernel/tenant/src/lib/tenant-operation.service.ts:171-197 | an insert keeps a tenant's chain exactly when it is another tenant's row or its captured hash is still the last, short of a clash |
| `OperationJournal.LinearIffNeverStale` | libs/kernel/tenant/src/lib/tenant-operation.service.ts:171-197 | over every interleaving of reads and inserts, rows becoming visible in the order of their ids, a tenant's rows form one chain from genesis exactly when no insert was stale |
| `OperationJournal.OverlappingAppendsFork` | libs/kernel/tenant/src/lib/tenant-operation.service.ts:171-197 | two appends whose reads both come first fork the journal |
| `JournalOrder.EventKeepsLinearIff` | libs/kernel/tenant/src/lib/tenant-operation.service.ts:171-197 | with ids in any order, a row put between or behind others keeps a tenant's chain, in the order of the ids, exactly when it is sealed onto the row before its place and none of the tenant's comes behind it, short of named clashes |
| `JournalOrder.AlwaysLinearIffNeverBreaks` | libs/kernel/tenant/src/lib/tenant-operation.service.ts:171-197 | over every interleaving of reads and inserts and every order of ids, a tenant's rows are a chain from genesis throughout exactly when no insert breaks it so |
| `JournalOrder.LateIdBreaks` | libs/kernel/tenant/src/lib/tenant-operation.service.ts:174 | a row that becomes visible after one of the same tenant with a larger id breaks the chain, unless two digests agree that should not |
| `OperationJournal.LastHashDeterminesRows` | libs/kernel/tenant/src/lib/tenant-operation.service.ts:180-183 | two journals linear for a tenant agree on its last hash exactly when they hold the same rows for it, short of a collision |
| `AuditLedger.AuditLedgerService.LogSensitiveOperation` | libs/platform/audit/src/lib/audit-ledger.service.ts:16-43 | the entry is appended, sealed onto the row the database picks as newest; on a rising clock the one chain is kept |
| `AuditLedger.SpelledOut` | libs/platform/audit/src/lib/audit-ledger.service.ts:30 | the hashed string, spelled out field by field |
| `AuditLedger.AppendKeepsOneChain` | libs/platform/audit/src/lib/audit-ledger.service.ts:23-40 | an append keeps the one chain exactly when it is sealed onto the last row's hash |
| `AuditLedger.OneChainIffNeverStale` | libs/platform/audit/src/lib/audit-ledger.service.ts:22-43 | over every interleaving of reads and inserts the ledger is one chain, each row naming its predecessor, exactly when no insert was sealed onto another hash than the last |
| `AuditLedger.RisingClockMakesOneChain` | libs/platform/audit/src/lib/audit-ledger.service.ts:22-43 | when nothing is inserted between a transaction's read and its insert and the rows' times rise, the ledger is one chain whatever the database picks among equals |
| `AuditLedger.SameMillisecondForks` | libs/platform/audit/src/lib/audit-ledger.service.ts:23-26 | two rows in one millisecond allow a legal pick that forks the ledger although nothing overlaps |
| `AuditLedger.OverlappingTransactionsFork` | libs/platform/audit/src/lib/audit-ledger.service.ts:22-43 | two transactions whose reads both come first fork the ledger, whatever the clock |
| `AuditLedger.LastHashDeterminesLedger` | libs/platform/audit/src/lib/audit-ledger.service.ts:30-31 | two ledgers that are one chain each, of pipe-free rows, have equal last hashes exactly when they say the same, short of a collision |
| `AuditLedger.PipesMakeRowsAlike` | libs/platform/audit/src/lib/audit-ledger.service.ts:30 | a pipe in user or action gives two different rows one hashed string |
| `DataAuditLog.DataAuditSubscriber.OnFlush` | libs/kernel/audit/src/lib/subscribers/data-audit.subscriber.ts:16-80 | exactly the audited change sets are logged, all sealed onto what the table held before the flush; a missing production secret throws and persists nothing; the forest is kept |
| `DataAuditLog.RowsTellChanges` | libs/kernel/audit/src/lib/subscribers/data-audit.subscriber.ts:24-89 | a flush logs each change that creates, updates or deletes, of any table but its own and the two of messaging, once and in order, as INSERT, UPDATE or DELETE of its entity, by its user and tenant |
| `DataAuditLog.LatestIsNewest` | libs/kernel/audit/src/lib/subscribers/data-audit.subscriber.ts:62-67 | the row looked up is the newest of its tenant, and of its millisecond the one with the greatest id |
| `DataAuditLog.PreviousHashIsNewest` | libs/kernel/audit/src/lib/subscribers/data-audit.subscriber.ts:62-67 | the predecessor is the newest row under the tenant, or under "system" without one, and genesis if there is none |
| `DataAuditLog.UndisturbedFlush` | libs/kernel/audit/src/lib/subscribers/data-audit.subscriber.ts:16-79 | undisturbed, the events of a flush store exactly the rows of the whole flush |
| `DataAuditLog.SiblingsSharePredecessor` | libs/kernel/audit/src/lib/subscribers/data-audit.subscriber.ts:62-70 | all rows of one flush name the same predecessor |
| `DataAuditLog.FlushKeepsVerified` | libs/kernel/audit/src/lib/subscribers/data-audit.subscriber.ts:62-70 | every flush keeps the forest: each row's hash is right and its predecessor is genesis or an earlier row |
| `DataAuditLog.EveryInterleavingIsAForest` | libs/kernel/audit/src/lib/subscribers/data-audit.subscriber.ts:62-79 | over every interleaving of flushes, their lookups and their writes, the rows stay a forest that verifies row by row |
| `DataAuditLog.EveryRowHasARootPath` | libs/kernel/audit/src/lib/subscribers/data-audit.subscriber.ts:62-70 | every row closes a path of predecessors from genesis |
| `DataAuditLog.HashDeterminesRootPath` | libs/kernel/audit/src/lib/subscribers/data-audit.subscriber.ts:69-70 | a row's hash determines its whole path from genesis, short of a collision |
| `DataAuditLog.LeafRemovalUndetected` | libs/kernel/audit/src/lib/subscribers/data-audit.subscriber.ts:62-70 | a row on which nothing hangs can be removed and the rest still verifies |
| `DataAuditLog.FlushStaysLinearIff` | libs/kernel/audit/src/lib/subscribers/data-audit.subscriber.ts:24-73 | a flush keeps a tenant's rows a chain exactly when it logs nothing, or the lookup finds the last row and it logs one change (more only on a cycle in the hash) |
| `DataAuditLog.LinearIffNeverStale` | libs/kernel/audit/src/lib/subscribers/data-audit.subscriber.ts:24-79 | over every interleaving of flushes, their lookups and their writes, a tenant's rows are one chain exactly when no flush, as it persisted, held rows that do not follow on from the last stored one |
| `DataAuditLog.TwoRowsAreStale` | libs/kernel/audit/src/lib/subscribers/data-audit.subscriber.ts:62-79 | a flush that holds two rows of a tenant is such a flush, in every interleaving, unless the first repeats a stored hash or hashes to genesis |
| `DataAuditLog.SpelledOut` | libs/kernel/audit/src/lib/subscribers/data-audit.subscriber.ts:69 | the hashed string, spelled out field by field |
| `DataAuditLog.RisingLookupFindsLast` | libs/kernel/audit/src/lib/subscribers/data-audit.subscriber.ts:62-67 | on a rising clock the lookup by timestamp and id finds the tenant's last row |
| `DataAuditLog.OneAtATimeMakesChains` | libs/kernel/audit/src/lib/subscribers/data-audit.subscriber.ts:24-80 | when every flush logs at most one change and the clock rises, the rows of every tenant are one chain |
| `DataAuditLog.RowsWithoutTenantAreRoots` | libs/kernel/audit/src/lib/subscribers/data-audit.subscriber.ts:62-67 | rows without a tenant are looked up under a name their column never has, so each is a root |
| `PiiMask.MaskPiiPayload` | libs/kernel/tenant/src/lib/residency-policy.util.ts:58-78 | the looping, recursive masker computes the specified mask, for any lower-casing |
| `PiiMask.DeepCloneAndMask` | libs/kernel/audit/src/lib/subscribers/data-audit.subscriber.ts:91-112 | the audit subscriber's masker computes the mask of its own fields and label |
| `PiiMask.MaskedMemberIff` | libs/kernel/tenant/src/lib/residency-policy.util.ts:68-76 | a member is replaced by the label exactly when some field stands anywhere in its key, both in lower case; any other keeps its key and has its value masked in turn |
| `PiiMask.FieldIsFoundInAnyCase` | libs/kernel/tenant/src/lib/residency-policy.util.ts:70-72 | a key that holds a field in any case, whatever stands around it, is masked |
| `PiiMask.AuditedFieldIsFound` | libs/kernel/audit/src/lib/subscribers/data-audit.subscriber.ts:13-112 | the audit log masks every key that holds one of its eight words in any case |
| `PiiMask.MaskIsTheMaskedTwin` | libs/kernel/tenant/src/lib/residency-policy.util.ts:58-78 | the mask is the one payload that has the label under every PII key and equals the input outside PII: same lengths, keys and leaves |
| `PiiMask.MasksAgreeIffSameOutsidePii` | libs/kernel/tenant/src/lib/residency-policy.util.ts:58-78 | two payloads mask alike exactly when they differ only beneath PII keys |
| `PiiMask.MaskedIffUnchanged` | libs/kernel/audit/src/lib/subscribers/data-audit.subscriber.ts:91-112 | masking leaves exactly the masked payloads alone, so it is idempotent |
| `PiiMask.MaskTwiceIsMaskOnce` | libs/kernel/tenant/src/lib/residency-policy.util.ts:68-76 | masking by one test of keys and then another is masking once by both |
| `PiiMask.MaskWithBothLists` | libs/kernel/tenant/src/lib/residency-policy.util.ts:68-76 | masking with one field list and then another is masking once with both |
| `InboxJobs.JobRow.Step` | libs/domain/scheduler/domain/src/lib/job-state-machine.ts:4-12 | the unguarded transition of status, error and attempts |
| `InboxJobs.JobRow.ExecuteJob` | libs/domain/scheduler/application/src/lib/job-processor.service.ts:49-87 | a job is left as specified by its flushes and handler, and the call throws exactly when that says so |
| `InboxJobs.InboxService.Process` | libs/kernel/messaging/src/lib/inbox.service.ts:16-40 | one delivery changes jobs and inbox exactly as the two steps of the interleaved model, atomically |
| `InboxJobs.EveryRunKeepsInv` | libs/domain/scheduler/application/src/lib/job-processor.service.ts:30-32 | over every interleaving of deliveries and failures: a job without a commit is untouched, one with a commit has run once and has its inbox row |
| `InboxJobs.AtMostOneCommit` | libs/kernel/messaging/src/lib/inbox.service.ts:16-40 | a job's handler commits at most once, attempts counts the commits and stays within maxAttempts, and a job allowed two attempts never fails terminally |
| `InboxJobs.StatusTellsCommittedRun` | libs/domain/scheduler/application/src/lib/job-processor.service.ts:60-86 | over every interleaving: a committed job is SUCCEEDED exactly when the handler of the delivery that committed it returned, RETRY_SCHEDULED exactly when it threw and more than one attempt is allowed, FAILED_TERMINAL exactly when it threw otherwise, with its non-empty message as last error; a job no delivery committed is as enqueued |
| `InboxJobs.ForeignJobsNeverRun` | libs/domain/scheduler/application/src/lib/job-processor.service.ts:56-58 | a job whose payload names another tenant stays as enqueued whatever is delivered |
| `InboxJobs.BodiesCountCalls` | libs/domain/scheduler/application/src/lib/job-processor.service.ts:60-75 | the handler is called once for each delivery that had read the job, of the right tenant, and saved it as running |
| `Inbox.InboxService.Process` | libs/kernel/messaging/src/lib/inbox.service.ts:16-40 | a known message is answered with its stored result without calling the handler; otherwise the handler's result is stored and returned exactly when it returns and the transaction commits |
| `Inbox.AnswersAreFirstResults` | libs/kernel/messaging/src/lib/inbox.service.ts:16-40 | after any calls the stored answer of each message is the result of its first call that returned and committed, and the next call is answered with it, or with its own if it is that one |
| `Inbox.FirstAnswerForever` | libs/kernel/messaging/src/lib/inbox.service.ts:22-38 | once a call has been answered, every later call for the same message and consumer gets that answer |
| `InboxJobs.ProcessedJobsAreFrozen` | libs/kernel/messaging/src/lib/inbox.service.ts:22-30 | once its inbox row is there no later delivery changes a job |
| `InboxJobs.ScheduledRetriesNeverRun` | libs/domain/scheduler/application/src/lib/job-processor.service.ts:79-80 | a job left in RETRY_SCHEDULED is never run again by this worker |
| `InboxJobs.HandlerCanRunTwice` | libs/kernel/messaging/src/lib/inbox.service.ts:33-36 | only commits are counted once: the handler itself runs twice when its first transaction cannot commit |
| `InboxJobs.LostIffCommittedUnread` | libs/kernel/messaging/src/lib/inbox.service.ts:22-38 | over every interleaving a message is marked processed without its job ever having committed exactly when some delivery that had read no row for the job committed first |
| `InboxJobs.LostJobsStayLost` | libs/domain/scheduler/application/src/lib/job-processor.service.ts:50-54 | a job lost so is never committed by any later delivery, and its row stays as it was enqueued |
| `InboxJobs.EarlyDeliveryLosesJob` | libs/domain/scheduler/application/src/lib/job-processor.service.ts:50-54 | such a run: a delivery that comes before its job's row marks it processed |
| `Notifications.NotificationOrchestrator.SendNotification` | libs/domain/notification/application/src/lib/notification-orchestrator.ts:18-42 | send leaves memory, row and provider calls exactly as specified for every way its awaited steps can go |
| `Notifications.TransitionKeepsWellFormed` | libs/domain/notification/domain/src/lib/notification-state-machine.ts:20-41 | each transition keeps the history a path of at most five ending in the status, with sentAt and deliveredAt set exactly when those states occur |
| `Notifications.EveryRunKeepsInv` | libs/domain/notification/application/src/lib/notification-orchestrator.ts:18-42 | over any sends, callbacks, failures, crashes and reloads, one after the other: at most one provider call, and memory and row well formed |
| `Notifications.SendDispatchesIff` | libs/domain/notification/application/src/lib/notification-orchestrator.ts:33-36 | a send calls a provider exactly from ACCEPTED, on a known channel, once both earlier flushes worked |
| `Notifications.FirstSendOutcome` | libs/domain/notification/application/src/lib/notification-orchestrator.ts:18-42 | a first send ends in SENT_PROVIDER exactly when everything worked, and otherwise in FAILED_TERMINAL unless saving that fails or the process dies |
| `Notifications.ResendOnlySpoils` | libs/domain/notification/application/src/lib/notification-orchestrator.ts:37-41 | sending again never dispatches: it turns a notification that can still fail to FAILED_TERMINAL, even one already sent, and changes nothing else |
| `Notifications.TwoCopiesDispatchTwice` | libs/domain/notification/application/src/lib/notification-orchestrator.ts:18-34 | two copies loaded before either is sent are both dispatched |
| `Notifications.HistoriesAre` | libs/domain/notification/domain/src/lib/notification-state-machine.ts:4-14 | every history, in memory and in the row, over any run, is one of nine written out, or the beginning of one |
| `Notifications.LongestArePaths` | libs/domain/notification/domain/src/lib/notification-state-machine.ts:4-14 | each of the nine follows the table to a status that nothing follows |
| `Notifications.CallbackTakenIff` | libs/domain/notification/domain/src/lib/notification-state-machine.ts:20-41 | a sent notification takes delivery, bounce, complaint and failure, a delivered one opening and complaint, and every other callback changes nothing |
| `Notifications.NotificationCallbackController.UpdateStatus` | libs/domain/notification/infrastructure/src/lib/controllers/notification-callback.controller.ts:35-55 | the row is changed exactly when the reported status asks for one that can follow and the flush works, and the call throws exactly when the flush does not |
| `Notifications.ReportTakenIff` | libs/domain/notification/infrastructure/src/lib/controllers/notification-callback.controller.ts:42-53 | what each of the four reported texts does to a notification, by its status |
| `Notifications.ReportsStayWithin` | libs/domain/notification/infrastructure/src/lib/controllers/notification-callback.controller.ts:42-53 | over any run in which callbacks only report, no notification is ever opened, bounced or complained of |
| `Notifications.SentDeliveredOpened` | libs/domain/notification/domain/src/lib/notification-state-machine.ts:20-41 | a first send in which everything works, a delivery and an opening give the whole history with both timestamps |
| `Notifications.DeathKeepsSavedOnly` | libs/domain/notification/application/src/lib/notification-orchestrator.ts:18-42 | a process that dies in a send or a callback leaves what its flushes saved and nothing else |
| `NotificationCopies.DispatchesAreLuckySends` | libs/domain/notification/application/src/lib/notification-orchestrator.ts:18-42 | over every interleaving of the awaited steps of sends on any number of copies, with loads, callbacks, failures and deaths: the provider calls made and still due are together as many as the sends begun on a copy in ACCEPTED, on a known channel, whose two earlier flushes work |
| `NotificationCopies.DispatchesAtRest` | libs/domain/notification/application/src/lib/notification-orchestrator.ts:18-42 | so when no send is under way a provider has been called exactly once for each of those |
| `NotificationCopies.UndisturbedSend` | libs/domain/notification/application/src/lib/notification-orchestrator.ts:18-42 | the interleaved steps of one send, undisturbed, leave exactly what the whole send leaves |
| `Money.RoundsToNearest` | libs/domain/accounting/domain/src/value-objects/money.vo.ts:43-45 | two-place rounding is to the nearest cent, ties away from zero, and to nothing else |
| `Money.RoundedSumIff` | libs/domain/accounting/application/src/services/accounting-event-handler.service.ts:95-104 | non-negative amounts round like their sum exactly when their fractions of a cent do not clash |
| `Money.SumOffByACent` | libs/domain/accounting/application/src/services/accounting-event-handler.service.ts:95-104 | a rounded sum and its rounded parts differ by at most a cent |
| `Bookkeeping.JournalEntry.AddLine` | libs/domain/accounting/domain/src/entities/journal-entry.entity.ts:39-42 | the line is appended |
| `Bookkeeping.JournalEntry.ValidateBalance` | libs/domain/accounting/domain/src/entities/journal-entry.entity.ts:44-63 | negative amounts are reported exactly when there are some, balance exactly when debits equal credits, and the error carries both rounded totals |
| `Bookkeeping.LineAddsToTotals` | libs/domain/accounting/domain/src/entities/journal-entry.entity.ts:50-56 | each line adds its debit to the one total and its credit to the other |
| `Bookkeeping.ToDto` | libs/domain/accounting/application/src/mappers/journal-entry.mapper.ts:12-35 | the first version's amount is the sum of the debits, with all lines |
| `Bookkeeping.ToDtoV2` | libs/domain/accounting/application/src/mappers/journal-entry.mapper.ts:37-65 | the second version's totals are the sums of debits and credits, with all lines |
| `Bookkeeping.ViewsAgreeIff` | libs/domain/accounting/contracts/src/compatibility/v1-to-v2.mapper.ts:34-40 | mapping through the first version gives the second version's view exactly when debits equal credits |
| `Bookkeeping.InvoicePostingIff` | libs/domain/accounting/application/src/services/accounting-event-handler.service.ts:56-65 | an invoice posting validates exactly when tax is between zero and the total and the fractions of a cent do not clash |
| `Bookkeeping.InvoiceMovesAccounts` | libs/domain/accounting/application/src/services/accounting-event-handler.service.ts:60-64 | the client is debited with the total, sales and VAT are credited with their parts, no other account moves |
| `Bookkeeping.PayrollPostingIff` | libs/domain/accounting/application/src/services/accounting-event-handler.service.ts:95-106 | a payroll posting validates exactly when nothing is negative and the fractions do not clash; it is at most a cent off, and not at all when an amount is whole cents |
| `Bookkeeping.PayrollMovesAccounts` | libs/domain/accounting/application/src/services/accounting-event-handler.service.ts:101-105 | salaries are debited, bank and tax payable credited, no other account moves |
| `Bookkeeping.Invoice.AddItem` | libs/domain/billing/domain/src/entities/invoice.entity.ts:54-57 | the item is appended and the totals are those of all items |
| `Bookkeeping.Invoice.RecalculateTotals` | libs/domain/billing/domain/src/entities/invoice.entity.ts:59-66 | the three totals are the rounded sums over the items |
| `Bookkeeping.InvoiceTotalsPost` | libs/domain/billing/domain/src/entities/invoice.entity.ts:59-66 | posting an invoice's own rounded totals validates exactly when the rounded tax is between zero and the rounded total, always for non-negative sums, and credits sales with the subtotal up to a cent |
| `Bookkeeping.TrialBalanceIsZero` | libs/domain/accounting/domain/src/entities/journal-entry.entity.ts:44-63 | any sequence of validated entries leaves balances that add up to zero over any chart covering its accounts |
| `Bookkeeping.OrderDoesNotMatter` | libs/domain/accounting/domain/src/entities/journal-entry.entity.ts:44-63 | neither an account's balance nor an entry's validity depends on the order of the lines |
| `Summation.SumIgnoresOrder` | libs/domain/finops/application/src/lib/cost-reconciliation.service.ts:141-153 | accumulated sums do not depend on the order of the records |
| `Summation.KeysPartitionSum` | libs/domain/finops/application/src/lib/cost-reconciliation.service.ts:141-153 | cutting a sum by keys that cover it loses nothing and counts nothing twice |
| `CostReconciliation.Reconcile` | libs/domain/finops/application/src/lib/cost-reconciliation.service.ts:135-172 | one bucket per key, with the key's cloud and expected sums, drift and status, the count of reconciled points, and the keys for incidents and reviews |
| `CostReconciliation.ReconciliationConserves` | libs/domain/finops/application/src/lib/cost-reconciliation.service.ts:141-161 | the buckets' cloud and expected costs add up to the records' |
| `CostReconciliation.OneBucketPerDay` | libs/domain/finops/application/src/lib/cost-reconciliation.service.ts:142 | with pipe-free names two records share a bucket exactly when they are of one tenant, region, mode and day |
| `CostReconciliation.BucketsIgnoreOrder` | libs/domain/finops/application/src/lib/cost-reconciliation.service.ts:139-161 | the buckets, as a set, do not depend on the order of the records |
| `CostReconciliation.DriftIff` | libs/domain/finops/application/src/lib/cost-reconciliation.service.ts:157-159 | a drift is within a share exactly when the expected cost is within that share of the cloud cost, of at least a cent |
| `CostReconciliation.StatusIff` | libs/domain/finops/application/src/lib/cost-reconciliation.service.ts:157-159 | block exactly beyond the block threshold, warn exactly beyond the other but within it, ok exactly within both, in whatever order the thresholds are |
| `CostReconciliation.PointIff` | libs/domain/finops/application/src/lib/cost-reconciliation.service.ts:166 | a reconciled point is a bucket with both costs within the block threshold |
| `CostReconciliation.ReviewIff` | libs/domain/finops/application/src/lib/cost-reconciliation.service.ts:170 | a review is asked for exactly the keys within the block threshold but beyond the warning |
| `CostReconciliation.FlaggedIff` | libs/domain/finops/application/src/lib/cost-reconciliation.service.ts:175-182 | a recommendation is made for exactly the buckets beyond one of the two thresholds |
| `CostReconciliation.DayIsDate` | libs/domain/finops/application/src/lib/cost-reconciliation.service.ts:142 | the day of an ISO timestamp is its date |
| `CostReconciliation.EligibleIff` | libs/domain/finops/application/src/lib/cost-reconciliation.service.ts:59-78 | a claim is eligible exactly when enough buckets have both costs and every bucket is within the block threshold |
| `CostReconciliation.IncidentIff` | libs/domain/finops/application/src/lib/cost-reconciliation.service.ts:169-171 | an incident is opened for exactly the keys whose expected cost is beyond the block threshold |
| `Base64Url.SixteenLettersIff` | libs/domain/finops/application/src/lib/cost-reconciliation.service.ts:179 | the first sixteen characters of a base64 text tell exactly the first twelve bytes |
| `Base64Url.LetterIsOfAlphabet` | libs/domain/finops/application/src/lib/cost-reconciliation.service.ts:179 | the sixty-four letters, in the order of the URL-safe alphabet |
| `Base64Url.SextetsCarryBits` | libs/domain/finops/application/src/lib/cost-reconciliation.service.ts:179 | groups of four letters carry the bits of three bytes in their order, the last one padded with zeros |
| `Base64Url.Utf8CharIsReadBack` | libs/domain/finops/application/src/lib/cost-reconciliation.service.ts:179 | a character takes as few bytes as its code needs, and the code can be read back from them |
| `CostReconciliation.IdsCollideIff` | libs/domain/finops/application/src/lib/cost-reconciliation.service.ts:179 | two keys get one recommendation id exactly when the first twelve bytes of their UTF-8 agree |
| `CostReconciliation.AdoptionIsCompleteIff` | libs/domain/finops/application/src/lib/cost-reconciliation.service.ts:175-201 | no more is adopted than recommended, and everything exactly when twelve bytes tell the flagged keys apart and every id is claimed |
| `CostReconciliation.LongTenantNamesCollide` | libs/domain/finops/application/src/lib/cost-reconciliation.service.ts:175-201 | two flagged buckets of a tenant whose name fills twelve bytes collide, so its adoption is never complete |
| `EntityDecoding.UndoAmpersands` | libs/platform/xslt/src/lib/xslt.service.ts:85 | the first replacement undoes the ampersands of an escaped text and nothing else |
| `EntityDecoding.UndoOther` | libs/platform/xslt/src/lib/xslt.service.ts:86-89 | each later replacement undoes its character, but also the entity where the text spelled it out |
| `EntityDecoding.UndoChangesIffSpelled` | libs/platform/xslt/src/lib/xslt.service.ts:83-90 | a replacement changes a text exactly when it finds its pattern, and then shortens it |
| `EntityDecoding.EscapedLetter` | libs/platform/xslt/src/lib/xslt.service.ts:83-90 | escaping writes the five predefined entities for their characters and leaves every other character |
| `EntityDecoding.DecodingInvertsEscapingIff` | libs/platform/xslt/src/lib/xslt.service.ts:83-90 | decoding inverts escaping on exactly the texts that hold none of &lt; &gt; &quot; &apos; |

## Left out

- RoutingPlane.RoutingPlaneService.ResolveRoute: the load signal, the endpoint catalogue and the service versions are one parameter that is present or missing.
- OperationHistory.MigrationNeverFinalizes: the SQL of table statistics and the migrator are effects without content.
- PiiMask.MaskPiiPayload: a key named `__proto__` is an ordinary key.
- InboxJobs.InboxService.Process: the worker's handler returns nothing, so no result is stored; `Inbox` keeps results for any handler.
- CostReconciliation.Reconcile: thresholds are numbers, so an unparsable configuration value is not modelled; reading the CSV and JSON files is left out.
- Bookkeeping.ToDto: it and `ToDtoV2` keep accounts and amounts of a line; identifiers, dates and descriptions are copied unchanged by the source.
- Bookkeeping.JournalEntry.AddLine: the line's pointer back to its entry is not kept.
- The outbox, regional health probes, lag checks, table statistics, purging and the row-level-security migration: effects of other systems.
- Restricting regions (`isRegionAllowed`) and building the residency policy: single expressions.
- The provisioning lock and database work of `startProvisioning`: the saga is kept as the transitions it requests.
- The check digits of CPF, RNC and Cédula numbers, entitlements, quiet hours, fiscal periods: only easy members.
- Controllers, guards, modules, user interface, configuration and generators.
