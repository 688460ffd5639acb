# Verified model of the settlement pipeline

The repository turns marketplace reports into published money figures: files are committed into immutable
dataset versions, amounts are converted at the rate of their day, results are published, and encrypted
reports are exported. It runs on workers that may see every job more than once, over one PostgreSQL database.
This project models the parts whose correctness depends on that and proves what they promise.

Conventions. A transaction is one atomic step; steps happen at strictly increasing clock values. An advisory
lock is a key some session holds. Amounts and rates are integers in units of 1e-8, exact intermediate results
are reals in the same unit, and rounding is to the nearest unit with ties away from zero. Days are numbers.
Thrown errors are `Err` results. Programs that change state are classes and methods proved against functions
on values; what the programs promise is then proved of those functions, over all inputs or over every run.

| file | what it models |
|---|---|
| `BatchProtocol.dfy` | one import batch, uploaded or made by a source replay, with its runs, events, jobs and reconciler passes, and every transaction that writes them |
| `BatchRow.dfy` | the same guarded updates of the batch row as methods of a class |
| `CommitOnce.dfy`, `Reconciliation.dfy` | what every interleaving keeps, and what reconciling a failed job may overwrite |
| `BatchOutbox.dfy` | what the batch's transactions hand over through the outbox, and what each of them writes |
| `ReconcilerRaces.dfy`, `BatchWitnesses.dfy` | interleavings, and whole histories from the creation of a batch, that break what one would expect |
| `OutboxScheduler.dfy`, `JobLocks.dfy` | the wake/stop scheduler; lock order, the promise chain and the session clean-up of worker jobs |
| `ExportLifecycle.dfy` | export requests, their objects, download grants and membership epochs |
| `Materialize.dfy`, `RowCounting.dfy` | staged rows into dataset versions; per-row counting and error groups |
| `FxConversion.dfy`, `FxSync.dfy` | conversion with calendar fallback; fetching and judging official pages |
| `Decimals.dfy`, `Financial.dfy`, `FeeClassification.dfy` | rounding, the accumulator and paged loops of a run, fee cells |
| `FinancialAmounts.dfy` | which stored amounts a run's results tell, with which sign, and how exactly |
| `CostAccounting.dfy`, `Rollup.dfy`, `CsvExport.dfy` | cost model against workbook formulas; quarter and year sheets; CSV parts |
| `OtpRate.dfy`, `DiagnosticReference.dfy` | the sliding-window limit of one-time codes; base-62 support references |

## Findings

Properties one would expect that the code does not have, or only thanks to a lock. Each is stated exactly in
the model, and shown to fail on a concrete input or history.

- `RESULT_PUBLISHED` is not absorbing. The first transaction of a redelivered publication leaves it, and
  nothing else does (`CommitOnce.LeavesPublishedExactly`); the batch can then end in review again, and a
  history from its creation does (`BatchWitnesses.RedeliveredPublicationUnpublishes`).
- A reconciliation recorded as SUCCEEDED does not stop a second reconciling process that had already selected
  the job (`BatchWitnesses.ProjectionAfterSuccessHappens`). With one process it never happens, and with any
  number a failed job changes the batch at most once.
- The failure of a calculation run is projected without comparing times, so it can overwrite a younger update
  (`Reconciliation.LateProjectionExactly`, `BatchWitnesses.LateProjectionHappens`).
- A failed publication can be projected although a newer one supersedes it: exactly when a run of the batch
  completed between the supersession query and the projection (`Reconciliation.PublicationSupersededExactly`,
  `BatchWitnesses.SupersededPublicationIsProjected`). No other failure can: whoever enqueues a commit or a
  calculation request also updates the batch, and a calculation run is enqueued once.
- A confirmation sent again with the idempotency key of one whose commit failed for lack of capacity makes the
  batch COMMITTING but enqueues no commit: the insertion finds its key taken
  (`BatchOutbox.ConfirmationStrandsExactly`, `BatchWitnesses.RepeatedConfirmationStrands`). Nothing in the outbox
  or the queue then calls the commit handler, and neither another confirmation nor the reconciler changes the
  batch (`BatchOutbox.StrandedForGood`). With a new key for each insertion nothing is ever forgotten
  (`BatchOutbox.NothingIsForgotten`).
- Converting a currency into itself asks no calendar, so its hit day may be a proven non-trading day
  (`FxConversion.HitDayExactly`, `FxConversion.IdentityHitsClosedDay`).
- The profit cell of the cost sheet is one unit below `profitCny` exactly when the minimum rate applies, its
  procurement is a tie, and net income minus expenses exceeds that procurement
  (`CostAccounting.ProfitGapExactly`, `CostAccounting.ProfitCellCanDiffer`).
- Transaction types stored without canonicalisation can be audited and calculated differently
  (`FeeClassification.LegacyTypesAgreeExactly`, `FeeClassification.PunctuatedDebtDisagrees`).
- A dataset rollback leaves a slice with a superseded current version unless it changes nothing
  (`Materialize.RollbackKeepsOneLiveExactly`, `Materialize.RollbackCanBreakOneLive`).
- With its job lock held throughout, an export can end SUCCEEDED with its row and without its object: exactly
  when a clean-up asks for the row while the COMMIT is still in flight, removes the object, and the COMMIT lands
  (`ExportLifecycle.SucceededKeepsItsObject`, `ExportLifecycle.CommitInFlightLosesTheObject`).
- The same can happen when the session that holds the job lock is lost while the work goes on
  (`ExportLifecycle.LostLockLosesTheObject`; `ExportLifecycle.LostInGeneral` says when). As long as none is, one
  process at a time is in the export (`ExportLifecycle.LocksExclude`).
- Without its locks the rate limit of one-time codes limits nothing (`OtpRate.UnlockedCountsOvershoot`); with
  them it holds.

## Model

| member | source | states |
|---|---|---|
| `CommitOnce.MaterialisedAtMostOnce` | src/modules/imports/postgres-commit.ts:786-882 | over every run, once a step materialised the batch no later step does, and no later state is COMMITTING or can be confirmed back into it |
| `CommitOnce.OnlyCommitMaterialises` | src/modules/imports/postgres-commit.ts:797-858 | the materialisation count changes exactly in a commit step that finds COMMITTING, and then from 0 to 1 |
| `CommitOnce.ReachableInv` | src/modules/imports/postgres-service.ts:44-114 | in every reachable state the status and failure code determine whether the batch was materialised, and runs, requests and publications exist only for a materialised batch |
| `CommitOnce.ConfirmRow` | src/modules/imports/postgres-service.ts:66-104 | a confirmation re-enters the commit only for an unmaterialised batch and resumes calculation only for a materialised one |
| `CommitOnce.ProjectionRows` | src/worker/terminal-reconciler.ts:155-268 | no projection of a failed job leads from a materialised batch back before the commit |
| `CommitOnce.LeavesPublishedExactly` | src/modules/publishing/postgres-service.ts:370-400 | RESULT_PUBLISHED is left exactly by the first transaction of a publication of an existing run, and by no reconciler step |
| `CommitOnce.RedeliveredPublicationCanUnpublish` | src/modules/publishing/postgres-service.ts:376-400 | a redelivered publication that fails leaves a published batch in READY_FOR_REVIEW |
| `BatchWitnesses.RedeliveredPublicationUnpublishes` | src/modules/publishing/postgres-service.ts:376-400 | a history from the creation of a batch in which a published batch comes back to review |
| `BatchRow.ImportBatchRow.ConfirmImportBatch` | src/modules/imports/postgres-service.ts:50-113 | by status and failure code: the whole new row, the status reported, and which error is thrown |
| `BatchRow.ImportBatchRow.CommitImportBatch` | src/modules/imports/postgres-commit.ts:797-858 | by status: redelivery after a commit is a no-op, other statuses are refused, COMMITTING commits once, with exclusions exactly if there were any |
| `BatchRow.ImportBatchRow.MarkImportCommitFailed` | src/modules/imports/postgres-commit.ts:234-283 | the batch becomes FAILED with the given code at the given time exactly when it is COMMITTING; otherwise nothing changes |
| `BatchRow.ImportBatchRow.MarkCalculationRequestFailed` | src/worker/register-handlers.ts:79-128 | the same in the three statuses that await a calculation |
| `BatchRow.ImportBatchRow.AttachRun` | src/worker/register-handlers.ts:693-707 | an open run moves a waiting batch to CALCULATING, a blocked one to FAILED with CALCULATION_BLOCKED, anything else leaves it |
| `BatchRow.ImportBatchRow.ProjectCommitFailure` | src/worker/terminal-reconciler.ts:155-178 | FAILED with IMPORT_COMMIT_FAILED exactly when COMMITTING and not updated since the job completed; otherwise nothing changes |
| `BatchRow.ImportBatchRow.ProjectCalculationRequestFailure` | src/worker/terminal-reconciler.ts:180-211 | the same for a failed calculation request, with the given code |
| `BatchRow.ImportBatchRow.ProjectCalculationRequest` | src/worker/terminal-reconciler.ts:213-240 | a failed request follows the latest run if there is one, with that run's failure code, under the same guard |
| `BatchRow.ImportBatchRow.ProjectAutoPublishFailure` | src/worker/terminal-reconciler.ts:242-268 | a failed publication is projected as published if its snapshot exists, otherwise back to review, under the time guard |
| `BatchOutbox.FailedCommitIsRetriedExactly` | src/modules/imports/postgres-service.ts:98-107 | over every run: between a commit failed with a code and the next confirmation the row keeps that code, and the confirmation brings the batch back to COMMITTING if and only if it is a capacity code, enqueueing a commit exactly with a key not used before |
| `BatchOutbox.NothingIsForgotten` | src/modules/imports/postgres-commit.ts:858-863 | over every run whose insertions bring new keys: a COMMITTING batch has a commit event as young as its status, one just committed its calculation request, every run its event, every READY run its publication, every snapshot a READY run, and every event a job or a dispatch to come |
| `BatchOutbox.ConfirmationStrandsExactly` | src/modules/imports/postgres-service.ts:98-107 | a confirmation that retries a commit leaves the batch COMMITTING with no commit to come if and only if its key was used before and no earlier commit event or job is left |
| `BatchOutbox.StrandedForGood` | src/modules/imports/postgres-service.ts:61-64 | over every run such a batch stays exactly so until a commit handler acts, which nothing in the outbox or the queue would call |
| `BatchWitnesses.RepeatedConfirmationStrands` | src/modules/imports/postgres-service.ts:103-107 | a history from the creation of a batch that ends there |
| `BatchOutbox.PreflightExactly` | src/modules/uploads/partial-failure.ts:34-107 | the preflight commits exactly when every expected file is analyzed and one is parsed, and enqueues the commit with it; after the commit it does nothing |
| `BatchOutbox.CancelExactly` | src/modules/uploads/service.ts:717-726 | a cancellation takes effect in exactly eight statuses and keeps the failure code |
| `BatchOutbox.RemoveAllExactly` | src/modules/uploads/service.ts:613-671 | removing every file cancels exactly an UPLOADING batch |
| `BatchOutbox.ConfirmExactly` | src/modules/imports/postgres-service.ts:84-107 | a confirmation enqueues the commit or the calculation request exactly when it changes the row, in the same transaction |
| `BatchOutbox.CommitExactly` | src/modules/imports/postgres-commit.ts:797-863 | so does a commit with the calculation request |
| `BatchOutbox.PublishExactly` | src/modules/publishing/postgres-service.ts:379-398 | starting needs a run, finishing a snapshot, neither looks at the status; a failure spares only RESULT_PUBLISHED |
| `BatchOutbox.RunRequested` | src/modules/publishing/postgres-service.ts:266-347 | a run is created once, QUEUED, together with its event |
| `BatchOutbox.RunCompleted` | src/modules/calculation/postgres-runner.ts:299-372 | a run that has not failed becomes or stays READY without failure code, with its publication in the outbox once; a failed one is left alone |
| `BatchOutbox.RunFails` | src/modules/calculation/postgres-runner.ts:378-394 | only an open run fails, with its batch if that awaits it |
| `BatchOutbox.LatestExactly` | src/worker/terminal-reconciler.ts:218-223 | the run a failed request follows is one created last, and there is one as soon as the batch has any |
| `BatchOutbox.ProjectionExactly` | src/worker/terminal-reconciler.ts:155-268 | queue by queue, over the statuses themselves: which row each projection writes and when |
| `Reconciliation.StaleNeverWins` | src/worker/terminal-reconciler.ts:73-268 | over every run, a projection that changes the batch reports a failure no older than the last update, except a run's; nothing older than its query supersedes it, and nothing at all unless it is a publication |
| `Reconciliation.PublicationSupersededExactly` | src/worker/terminal-reconciler.ts:73-87 | a publication that its query let through is superseded when projected if and only if a run of the batch completed and enqueued its publication in between |
| `Reconciliation.LateProjectionExactly` | src/modules/calculation/postgres-runner.ts:378-394 | a projection overwrites a younger update if and only if it fails an open run of a batch awaiting it |
| `BatchWitnesses.LateProjectionHappens` | src/modules/calculation/postgres-runner.ts:378-394 | a history from the creation of a batch in which that happens |
| `Reconciliation.EachFailureChangesTheBatchOnce` | src/worker/terminal-reconciler.ts:329-395 | with any number of reconcilers two projections that change the batch belong to different jobs |
| `Reconciliation.ProjectedAgainOnlyByAnOlderPass` | src/worker/terminal-reconciler.ts:89-153 | SUCCEEDED is absorbing, and a later projection of the job comes from a pass that selected it before |
| `Reconciliation.OneWorkerNeverProjectsAgain` | src/worker/terminal-reconciler.ts:329-395 | with a single reconciling process no job is projected after it SUCCEEDED |
| `Reconciliation.CurrentLasts` | src/worker/terminal-reconciler.ts:73-87 | every transaction keeps what the supersession query established for a job in hand |
| `Reconciliation.OneCurrentJobPerKey` | src/worker/terminal-reconciler.ts:73-87 | while an event of a key awaits dispatch all its jobs are superseded; afterwards exactly one is not, the job inserted last, ties by id |
| `Reconciliation.PassesNeverShareAKey` | src/worker/terminal-reconciler.ts:329-395 | over every run no two passes are at jobs of the same queue and business key at the same time |
| `Reconciliation.ReachableInv` | src/worker/terminal-reconciler.ts:329-395 | the invariant behind these results holds in every reachable state |
| `ReconcilerRaces.SecondPassProjectsAfterSuccess` | src/worker/terminal-reconciler.ts:329-377 | two processes that poll before the first record project a job again after SUCCEEDED, although the job lock admits one at a time |
| `BatchWitnesses.ProjectionAfterSuccessHappens` | src/worker/terminal-reconciler.ts:329-377 | a history from the creation of a batch that ends with such a projection |
| `BatchWitnesses.SupersededPublicationIsProjected` | src/worker/terminal-reconciler.ts:242-268 | a history from the creation of a batch: a second run completes between query and projection of a failed publication, which is projected all the same |
| `OutboxScheduler.EveryWakeIsServed` | src/worker/outbox-dispatcher.ts:62-107 | whenever the scheduler is idle and not stopped, each accepted wake has been followed by a run that started at or after it, failures included |
| `OutboxScheduler.WakeIsRemembered` | src/worker/outbox-dispatcher.ts:77-97 | until then the wake is remembered by the run in flight |
| `OutboxScheduler.ReachableInv` | src/worker/outbox-dispatcher.ts:68-92 | at most one run() is in flight, the running flag says whether one is, and no request is left over when idle |
| `OutboxScheduler.IdleAfterSuccessMeansShortBatch` | src/worker/outbox-dispatcher.ts:78-84 | going idle after a success means the last batch was short; a full batch starts the next run |
| `OutboxScheduler.NothingStartsAfterStop` | src/worker/outbox-dispatcher.ts:100-106 | after stop() no run starts, and once the run in flight settled nothing runs again |
| `OutboxScheduler.RunsAreAskedFor` | src/worker/outbox-dispatcher.ts:77-92 | over every run there are never more runs than accepted wakes and full batches before stop() |
| `OutboxScheduler.Scheduler.RunCompleted` | src/worker/outbox-dispatcher.ts:78-90 | by flags and count: the run that starts next, or idle, and the flags and calls left |
| `OutboxScheduler.Scheduler.RunFailed` | src/worker/outbox-dispatcher.ts:85-90 | a run is started again exactly when a wake is pending and nobody stopped |
| `OutboxScheduler.Scheduler.Wake` | src/worker/outbox-dispatcher.ts:73-98 | a wake starts a run when idle, is remembered by the one in flight, and is nothing after stop() |
| `OutboxScheduler.Create` | src/worker/outbox-dispatcher.ts:62-71 | a scheduler is created exactly for a batch limit of at least one |
| `JobLocks.LockList` | src/worker/job-execution-lock.ts:64 | the lock list is strictly ascending and holds exactly the keys asked for |
| `JobLocks.NoCircularWait` | src/worker/job-execution-lock.ts:57-86 | in no reachable state do calls of any number of processes wait for each other in a circle |
| `JobLocks.SomeCallCanProceed` | src/worker/job-execution-lock.ts:57-86 | while any call is under way some call is not blocked |
| `JobLocks.MutualExclusion` | src/worker/job-execution-lock.ts:69-72 | no key is ever held by two calls, lost sessions included |
| `JobLocks.HeldThroughWork` | src/worker/job-execution-lock.ts:69-83 | over every run a call keeps every key it holds, alone, until it stops acquiring or its session is lost, so it works under all of them |
| `JobLocks.ReturnedHoldsNothing` | src/worker/job-execution-lock.ts:79-85 | a session that goes back to the pool holds no key |
| `JobLocks.WorkerExecution.Enter` | src/worker/job-execution-lock.ts:24-28 | a call appends itself behind all earlier ones: the step of the chain, and the order is kept |
| `JobLocks.WorkerExecution.Resume` | src/worker/job-execution-lock.ts:28-30 | when the awaited promise settled the work starts: the step of the chain, and the order is kept |
| `JobLocks.WorkerExecution.Leave` | src/worker/job-execution-lock.ts:31-34 | settling either way releases the next call: the step of the chain, and the order is kept |
| `JobLocks.OneAtATimeInCallOrder` | src/worker/job-execution-lock.ts:22-34 | at any time of any run of the promise chain one work body runs at most, and none before an earlier call's |
| `JobLocks.WorkNeverOverlaps` | src/worker/job-execution-lock.ts:22-34 | over every run a call's work starts once, after the work of every earlier call has started and settled |
| `JobLocks.SomeCallCanGoOn` | src/worker/job-execution-lock.ts:24-34 | while a call is unsettled some call up to it can go on |
| `JobLocks.WithJobExecutionLocks` | src/worker/job-execution-lock.ts:57-86 | whatever the lock queries, the work and the unlock queries do, no lock outlives the call, the work runs only with every lock, and the session is pooled again exactly when every query succeeded |
| `JobLocks.TryWithJobExecutionLock` | src/worker/job-execution-lock.ts:88-116 | the same for a single attempt, with its three outcomes |
| `ExportLifecycle.StatusesMoveForward` | src/modules/exports/postgres.ts:739-1001 | over every run FAILED, CANCELLED and REVOKED exports keep their status and SUCCEEDED ones can only be revoked |
| `ExportLifecycle.SucceededKeepsItsObject` | src/modules/exports/postgres.ts:837-1001 | over every run with one process at a time in the export: once SUCCEEDED it has its row, and it has its object if and only if no clean-up removed it that had asked for the row while the COMMIT that landed was in flight |
| `ExportLifecycle.LostInGeneral` | src/modules/exports/postgres.ts:837-1001 | over every run, with any number of processes in the export: once SUCCEEDED it is without its object if and only if a clean-up removed it and nobody wrote it again |
| `ExportLifecycle.LocksExclude` | src/worker/job-execution-lock.ts:57-86 | over every run in which no session holding the export's lock is lost, one process at a time is in the export |
| `ExportLifecycle.LandedCommitTakesEffect` | src/modules/exports/postgres.ts:941-981 | over every run an export whose COMMIT is in flight stays RUNNING, whatever cancellations, failures and membership changes are attempted meanwhile, and is SUCCEEDED with its row when it lands |
| `ExportLifecycle.CommitInFlightLosesTheObject` | src/modules/exports/postgres.ts:837-851 | a history from the creation of the export, with the lock held throughout, that ends without the object |
| `ExportLifecycle.UnlockedCleanUpLosesTheObject` | src/modules/exports/postgres.ts:837-851 | without the lock a clean-up that asked before the commit deletes the object of a SUCCEEDED export |
| `ExportLifecycle.LostLockLosesTheObject` | src/modules/exports/postgres.ts:837-1001 | a history from the creation of the export in which the session holding the lock is lost and a second worker takes it, that ends without the object |
| `ExportLifecycle.GrantConsumedOnce` | src/modules/exports/postgres.ts:792-824 | each grant authorises at most one download over a whole run |
| `ExportLifecycle.CustomerDownloadWasAskedFor` | src/modules/exports/postgres.ts:761-823 | over every run, each customer download goes back to the same customer's request of that export and a grant it was issued less than five minutes before, with no membership change since the request |
| `ExportLifecycle.EpochChangeEndsOldDownloads` | src/modules/memberships/service.ts:303-313 | after an epoch change that customer downloads nothing requested or granted before, with or without an invalidation |
| `ExportLifecycle.InvalidationRevokesOldArtifacts` | src/modules/exports/postgres-membership-invalidator.ts:5-32 | an invalidating change revokes exactly the unfinished and SUCCEEDED exports and the unused grants bound to an older epoch of that account |
| `ExportLifecycle.CancelledForGood` | src/modules/exports/postgres.ts:739-759 | over every run, an unfinished export cancelled by someone who may is CANCELLED in all later states |
| `ExportLifecycle.FailedForGood` | src/modules/exports/postgres.ts:860-872 | over every run, an unfinished export reported as failed is FAILED in all later states |
| `ExportLifecycle.GrantedDownloadIsThere` | src/modules/exports/postgres.ts:761-824 | over every run, whoever was given a grant downloads with it at the first attempt before it expires, staff and customers alike, unless a membership involved changed |
| `ExportLifecycle.UndisturbedGenerationSucceeds` | src/modules/exports/postgres.ts:874-1001 | a worker that takes up an unfinished export and is left alone brings it to SUCCEEDED with row and object, changing nothing else |
| `ExportLifecycle.CreatedExactly` | src/modules/exports/postgres.ts:511-542 | a request is queued in its requester's name, a customer's bound to the current epoch; refused ones and known ids change nothing |
| `ExportLifecycle.AllowedExactly` | src/modules/exports/postgres.ts:448-503 | who may act on an export: staff unless it is REVOKED, and the customer who asked for it with the same epoch |
| `ExportLifecycle.DownloadableExactly` | src/modules/exports/postgres.ts:792-824 | what a download needs: the grant unused, unrevoked, unexpired, the actor's own and of the current epoch, and the export SUCCEEDED with its row |
| `ExportLifecycle.ExportStore.Cancel` | src/modules/exports/postgres.ts:739-759 | who may, the error otherwise; an unfinished export is CANCELLED afterwards and nothing else changes; a finished one is reported as not cancelled |
| `ExportLifecycle.ExportStore.CreateDownloadToken` | src/modules/exports/postgres.ts:761-790 | the grant with its binding and expiry, or which refusal |
| `ExportLifecycle.ExportStore.Download` | src/modules/exports/postgres.ts:792-823 | exactly a good grant of a SUCCEEDED export with its row, of an actor who may act on it, is accepted and consumed, and nothing else changes |
| `ExportLifecycle.ExportStore.Fail` | src/modules/exports/postgres.ts:860-872 | an unfinished export is FAILED afterwards, any other is left alone, and nothing else changes |
| `ExportLifecycle.ExportStore.CommitObject` | src/modules/exports/postgres.ts:941-981 | row and status are written together, exactly for a RUNNING export |
| `ExportLifecycle.ExportStore.ChangeMember` | src/modules/exports/postgres-membership-invalidator.ts:11-31 | the epoch moves on by one; an invalidating change revokes exactly the unfinished and SUCCEEDED exports and the unused grants of that account that are bound to another epoch, any other change none |
| `Materialize.RowsArePartitioned` | src/modules/imports/postgres-commit.ts:727-752 | each staged row becomes exactly one fact of its kind under the new version of its slice; nothing else is added and nothing is lost |
| `Materialize.SlicesAfter` | src/modules/imports/postgres-commit.ts:607-716 | exactly the staged and retired slices move, each to one new version numbered above all earlier ones of the slice and superseding the current one; it is ACTIVE exactly when its staged rows have what the kinds require, over the rows themselves |
| `Materialize.SourcesAfter` | src/modules/imports/postgres-commit.ts:717-726 | the sources of a new version are exactly the files of the staged rows of its slice; those of earlier versions stay |
| `Materialize.OldVersionsAfter` | src/modules/imports/postgres-commit.ts:708-716 | earlier versions keep their rows but for the status of the replaced current ones, and no others are added than one for each slice that moves |
| `Materialize.NewVersionHolds` | src/modules/imports/postgres-commit.ts:727-752 | a new version holds exactly its slice's staged rows, a retired one is empty |
| `Materialize.RetiredSliceAfter` | src/modules/imports/postgres-commit.ts:607-716 | a slice ends with a new version without any fact exactly when none of its rows was staged and all sources of its current version, of which there is one, are replayed; that version is INCOMPLETE and without sources, supersedes the old one, and the old one keeps its facts |
| `Materialize.ImportedThenRetired` | src/modules/imports/postgres-commit.ts:607-752 | across two commits: what the first imported into a slice the second takes out again if and only if it stages nothing there and replays the objects of all files the first staged there |
| `Materialize.MaterializeKeepsChain` | src/modules/imports/postgres-commit.ts:664-716 | pointers, unique numbers and the supersedes relation stay consistent |
| `Materialize.SupersedesIsAcyclic` | src/modules/imports/postgres-commit.ts:668-671 | following supersedes the version numbers descend and never return |
| `Materialize.MaterializeKeepsOneLive` | src/modules/imports/postgres-commit.ts:708-716 | the only version of a slice that is not superseded stays its current one |
| `Materialize.RollbackKeepsOneLiveExactly` | src/modules/imports/postgres-service.ts:344-363 | a rollback keeps that if and only if the version is already current |
| `Materialize.UndoingAnImportBreaksOneLive` | src/modules/imports/postgres-service.ts:344-363 | rolling back to the version an import has just replaced always breaks it |
| `Materialize.RollbackCanBreakOneLive` | src/modules/imports/postgres-service.ts:344-363 | tables made by two imports of one month whose rollback does |
| `Materialize.RollbackKeepsChain` | src/modules/imports/postgres-service.ts:344-363 | a rollback keeps the chain consistent; an unknown version is refused |
| `Materialize.UsableExactly` | src/modules/imports/postgres-commit.ts:847 | a commit is refused for lack of usable rows exactly when nothing was staged, whatever it would retire, and otherwise materialises |
| `Materialize.DatasetStore.MaterializeImportSlices` | src/modules/imports/postgres-commit.ts:578-784 | the statements in their order have the effect of the specification function |
| `Materialize.DatasetStore.Rollback` | src/modules/imports/postgres-service.ts:353 | only the pointer of the version's slice moves, to that version |
| `RowCounting.CopyFile` | src/modules/imports/postgres-commit.ts:389-562 | for any rows read = inserted + excluded + errored, each counter and group counts what it says and names the first rows it counts, groups add up exactly when at most 100 different errors occurred, and only a failure that is no row error aborts |
| `RowCounting.FileCounter.Attempt` | src/modules/imports/postgres-commit.ts:401-475 | the statements of the try block: whichever cell throws, no counter has moved; otherwise exactly one has |
| `RowCounting.FileCounter.OnRow` | src/modules/imports/postgres-commit.ts:398-486 | wherever the try block throws, the row is counted in exactly one of the three counters and read keeps equal to their sum, or the commit aborts |
| `RowCounting.GroupsAddUpExactly` | src/modules/imports/postgres-commit.ts:480-484 | group counts sum to the errored rows if and only if there were at most 100 different errors |
| `RowCounting.ExclusionsExactly` | src/modules/imports/postgres-commit.ts:856-858 | the batch ends COMMITTED_WITH_EXCLUSIONS exactly when some row was excluded or errored, and COMMITTED otherwise |
| `RowCounting.ForeignRowsCounted` | src/modules/imports/postgres-commit.ts:434-443 | over a whole file the excluded rows and their amount are exactly the non-Amazon rows whose amount resolves; the other non-Amazon rows are errored |
| `RowCounting.OutcomeExactly` | src/modules/imports/postgres-commit.ts:401-485 | what becomes of a row: an unknown site is an error, otherwise the first cell that does not resolve decides, otherwise it is inserted or, off Amazon, excluded with its amount |
| `RowCounting.SingleSiteMarketplaceInference.Resolve` | src/modules/imports/normalize-row.ts:45-68 | a site is inferred exactly when it is the only recognised Amazon site observed |
| `RowCounting.SingleSiteMarketplaceInference.Observe` | src/modules/imports/normalize-row.ts:49-63 | profile and mixed summarise everything observed |
| `FxConversion.WindowIsEnough` | src/modules/calculation/postgres-runner.ts:52-83 | for any day in the window the loaded book converts as the whole tables do, errors included, with or without frozen overrides |
| `FxConversion.LoadedRows` | src/modules/calculation/postgres-runner.ts:52-83 | the loaded book holds exactly the rows of the window, and of the overrides those its manifest froze |
| `FxConversion.EveryFactConvertsAlike` | src/modules/calculation/postgres-runner.ts:316-329 | every fact of a run converts as if the run had read the whole tables |
| `FxConversion.ConvertCurrency` | src/modules/fx/convert.ts:52-169 | the loop gives the conversion at the first day not proven non-trading |
| `FxConversion.ConversionRate` | src/modules/fx/convert.ts:127-169 | between two currencies: at the hit day each has a value, from its only quote, otherwise its only override, otherwise one unit for CNY; the rate is their quotient, source over target, within half a unit, and only their ids are recorded; into CNY it is the quote itself |
| `FxConversion.ConversionOutcome` | src/modules/fx/convert.ts:92-158 | which outcome there is: no quote when all days in reach are closed or nothing is known of the first open one, a gap or an ambiguity when a value is missing or double on it, a rate otherwise |
| `FxConversion.RefusedInputs` | src/modules/fx/convert.ts:52-104 | which bound, date and code is refused with which result, in this order; a currency is its own worth |
| `FxConversion.HitDayExactly` | src/modules/fx/convert.ts:92-158 | the hit is the first day not proven non-trading, at most ten days on, if and only if the currencies differ or the requested day is not proven non-trading itself |
| `FxConversion.IdentityHitsClosedDay` | src/modules/fx/convert.ts:92-104 | a concrete calendar in which a same-currency conversion hits a proven non-trading day |
| `FxConversion.UnknownDayStopsTheSearch` | src/modules/fx/convert.ts:113-125 | a day without calendar entry and quotes ends the search instead of being skipped |
| `FxConversion.LocatedRate` | src/modules/fx/convert.ts:25-50 | a rate is the only official quote of that very day, without one the only override in force on it, refused when there are two, and none otherwise |
| `FxConversion.FirstCandidate` | src/modules/fx/convert.ts:106-111 | the first day in reach that is not proven non-trading, or that all of them are |
| `Decimals.RoundIsNearest` | src/shared/decimal.ts:12-14 | rounding is within half a unit, unique, and away from zero on ties |
| `Decimals.RoundOfParts` | src/shared/decimal.ts:12-14 | rounding two parts of an amount misses it exactly when both are ties of one sign |
| `Financial.ProcessRunFacts` | src/modules/calculation/postgres-runner.ts:96-183 | for any page size every fact is processed once, in order, the first failure fails the run, and each slice's summary is the component sums of its own results |
| `Financial.ProcessTable` | src/modules/calculation/postgres-runner.ts:109-128 | one keyset-paged loop visits its table exactly once for any page size |
| `Financial.PageExactly` | src/modules/calculation/postgres-runner.ts:109-128 | a page holds at most the limit, only facts behind the last one seen, and what it leaves out comes after a full page |
| `Financial.FinancialAccumulator.Add` | src/modules/calculation/financial.ts:119-154 | accepted exactly when the conversion is of the fact's own day, not before it and at most ten days on, with a rate that is not negative; then the fact's results and the totals extended by exactly those |
| `Financial.FinancialAccumulator.Summarise` | src/modules/calculation/financial.ts:167-187 | the summary is the component sums of everything appended and their signed balance |
| `Financial.BalanceIsIncomeMinusCosts` | src/modules/calculation/financial.ts:167-175 | the signed sum of all results is income minus the seven other totals |
| `FinancialAmounts.RoundingError` | src/modules/calculation/financial.ts:41-62 | the results of a fact under a component miss the signed sum of its stored amounts times the rate by at most half a unit each |
| `FinancialAmounts.SliceRoundingError` | src/modules/calculation/financial.ts:41-62 | the same for each total of a slice over a whole run |
| `FinancialAmounts.ResultsTellTheAmounts` | src/modules/calculation/financial.ts:41-117 | the results of a fact are exactly its stored amounts that are not zero, once each, under the component of their column, the amount times the rate for income and its negation for costs within half a unit |
| `FinancialAmounts.RunIs` | src/modules/calculation/postgres-runner.ts:96-183 | a run succeeds exactly when every fact can be processed, each slice then holds the results of its own facts in order, and otherwise the first fact that cannot be says why |
| `Financial.ConversionsPassTheirAssertions` | src/modules/calculation/financial.ts:32-39 | no conversion a run obtains is refused by the accumulator |
| `Financial.FeeResultsMatchAudit` | src/modules/calculation/financial.ts:77-165 | the fee results a stored transaction emits are, one by one, its audited fee rows that are not excluded, with their column, category, amount and CNY value |
| `FeeClassification.StoredTypeReachesFixpoint` | src/modules/calculation/fee-classification.ts:33-55 | a canonicalised type is a fixpoint after at most one more canonicalisation |
| `FeeClassification.CanonicalTypeExactly` | src/modules/calculation/fee-classification.ts:44-55 | which words stand for a refund, an order, an inventory fee, a transfer and a debt, and that nothing else does |
| `FeeClassification.CanonicalDescriptionExactly` | src/modules/calculation/fee-classification.ts:57-63 | a description is the cost of advertising exactly when its words are listed, or read so with punctuation replaced by spaces |
| `FeeClassification.IncludesExactly` | src/modules/calculation/fee-classification.ts:50-51 | a token is included wherever it stands |
| `FeeClassification.SpellingDoesNotMatter` | src/modules/calculation/fee-classification.ts:33-63 | case, outer space and the gaps between words change neither type nor description |
| `FeeClassification.AuditExactly` | src/modules/calculation/financial.ts:156-165 | the audit has exactly one row for each fee that is not zero, with its amount and the category of its column, type and description |
| `FeeClassification.PathsAgree` | src/modules/calculation/financial.ts:156-165 | for every stored fact both code paths give the same fee rows, categories and amounts |
| `FeeClassification.LegacyTypesAgreeExactly` | src/modules/calculation/fee-classification.ts:33-80 | for any other stored text they agree if and only if its words are known as they stand, or are no inventory fee, transfer or debt with punctuation replaced by spaces either |
| `FeeClassification.PunctuatedDebtDisagrees` | src/modules/calculation/fee-classification.ts:44-55 | a concrete type for which they do not |
| `CostAccounting.SheetRefinesCalculation` | src/modules/exports/export-report.ts:437-468 | for all amounts and rates the procurement and trigger cells equal the function, the profit cell too but for the stated tie |
| `CostAccounting.ProfitGapExactly` | src/modules/exports/export-report.ts:450-454 | the profit cell is one unit low if and only if the minimum applies, its procurement is a tie, and net income less expenses exceeds it |
| `CostAccounting.ProfitCellCanDiffer` | src/modules/exports/export-report.ts:450-454 | a concrete month, without refunds or expenses, in which the tie occurs |
| `CostAccounting.CostsAddUp` | src/modules/accounting-preferences/index.ts:105-106 | profit, procurement and expenses make up the net income, but for the stated tie |
| `CostAccounting.CostsAreExact` | src/modules/accounting-preferences/index.ts:90-115 | target profit, procurement, profit and sales cost rate are each the exact value within half a unit, the minimum applying exactly when less would be left |
| `CostAccounting.MinimumRateHolds` | src/modules/accounting-preferences/index.ts:101-107 | with positive income the sales cost rate is never below the minimum rate |
| `CostAccounting.RatesAreAcceptedExactly` | src/modules/accounting-preferences/index.ts:63-79 | rates are accepted if and only if in every month the target profit lies between zero and the net income, and the minimum procurement between zero and the income |
| `CostAccounting.RefusedRates` | src/modules/accounting-preferences/index.ts:63-79 | the first rate outside 0 to 1 is named |
| `CostAccounting.AcceptedRateTexts` | src/modules/accounting-preferences/index.ts:61-72 | the accepted texts are 0 and 1 alone, 0 with one to eight decimals, and 1 with zeros only |
| `CostAccounting.RateTextsAreRates` | src/modules/accounting-preferences/index.ts:61-72 | the accepted rate texts stand for exactly the multiples of 1e-8 from 0 to 1; normalising keeps what a text stands for and is idempotent |
| `CostAccounting.YearAddsUp` | src/modules/exports/export-report.ts:470-481 | the year's procurement and profit cells are the exact sums of the monthly ones |
| `Rollup.YearOfQuartersIsYearOfMonths` | src/modules/exports/postgres.ts:85-135 | rolling months to years equals rolling them to quarters and those to years, in any listing order: both fail, or the rows are the same |
| `Rollup.RollIs` | src/modules/exports/postgres.ts:89-107 | a roll-up succeeds exactly on rows with one currency per group, and holds their keys, currencies and column sums |
| `Rollup.QuarterOfMonth` | src/modules/exports/postgres.ts:92-94 | a month belongs to the q-th quarter exactly when it is one of its three months |
| `Rollup.OnlyCurrencyErrors` | src/modules/exports/postgres.ts:91-103 | with marketplaces present the only error is the currency one |
| `Rollup.TwoStepsDifferExactly` | src/modules/exports/postgres.ts:91-103 | with marketplaces throughout, two steps and one agree on every error too; without, they differ exactly when a row without marketplace follows clean quarters that mix currencies within a year |
| `Rollup.ErrorsCanDiffer` | src/modules/exports/postgres.ts:91-103 | three rows, one without marketplace, for which they do |
| `Rollup.RollupFinancialRows` | src/modules/exports/postgres.ts:85-107 | the loop over the Map computes the roll-up |
| `Rollup.RollConserves` | src/modules/exports/postgres.ts:104-106 | a roll-up keeps the total of every column, derived columns included |
| `Rollup.ConservationChecksPass` | src/modules/exports/export-report.ts:651-661 | whenever the monthly sheet can be filled and rolled up, the other sheets can be filled and the checks evaluate to PASS |
| `Rollup.VerdictExactly` | src/modules/exports/export-report.ts:651-661 | the check says PASS exactly when both sheets have the same total in every checked column |
| `Rollup.DenseExactly` | src/modules/exports/postgres.ts:1139-1159 | a sheet has one row per key of its scope, zeros where there is no group, and refuses a group outside it |
| `CsvExport.PartsRoundTrip` | src/modules/exports/export-report.ts:353-396 | reading the files of all parts in order, byte order mark and header lines skipped, gives back exactly the neutralised source rows |
| `CsvExport.BodyRoundTrip` | src/modules/exports/export-report.ts:385-391 | splitting a part's text into records and reading each gives back its rows, whatever the cells hold |
| `CsvExport.LineRoundTrip` | src/modules/exports/export-report.ts:131-137 | reading a written line gives back its cells |
| `CsvExport.ParseDelimitedLine` | src/modules/imports/analyze-prefix.ts:22-45 | the index loop computes the parser specification |
| `CsvExport.WriteCsvParts` | src/modules/exports/export-report.ts:338-400 | the parts hold all rows in order, one key each, at most rowsPerPart rows, numbered per key, full unless the key changes; their files are the header and the lines of their rows, and reading them gives back the neutralised rows; a wrong count fails |
| `CsvExport.NeutralizeSpreadsheetFormula` | src/modules/exports/export-report.ts:68-72 | the scan finds whether the first visible character starts a formula |
| `CsvExport.NeutralizedIsNoFormula` | src/modules/exports/export-report.ts:68-72 | a neutralised text is no formula, and neutralising again changes nothing |
| `CsvExport.NeutralizedExactly` | src/modules/exports/export-report.ts:68-72 | an apostrophe is put in front exactly when the first character above the space is one of the four that start a formula |
| `CsvExport.QuotedExactly` | src/modules/exports/export-report.ts:131-137 | a cell is quoted, its quotes doubled, exactly when it holds a quote, a comma or a line break; only texts are neutralised |
| `CsvExport.PartitionExactly` | src/modules/exports/export-report.ts:357-365 | a row's part: its marketplace or all, and its month, otherwise period, otherwise the month of its date, undated when that is no year, month or quarter |
| `FxSync.PagesTileTheRange` | src/modules/fx/chinamoney-json.ts:80-83 | each day of the range lies on exactly one page, neighbouring pages touch, and all but the last have 21 days |
| `FxSync.ServedPages` | src/modules/fx/chinamoney-json.ts:74-83 | exactly the pages up to the last are served, and hasMore says whether another follows |
| `FxSync.PageRefusedExactly` | src/modules/fx/chinamoney-json.ts:74-83 | which number, size and range is refused with which error |
| `FxSync.AcceptedExactly` | src/modules/fx/chinamoney-json.ts:23-52 | a payload is accepted exactly when it is the whole answer for the page's days, and each refusal names a defect that is there |
| `FxSync.EvidenceExactly` | src/modules/fx/sync.ts:77-96 | what the store accepts as evidence: dates of the page only, no quote without a cutoff and none after it |
| `FxSync.FetchedEvidenceIsAccepted` | src/modules/fx/sync.ts:77-96 | every page the source accepts passes all evidence checks |
| `FxSync.AbsentDaysExactly` | src/modules/fx/sync.ts:97-106 | the days marked non-trading by absence: unquoted and unmarked, on a page that is over or before an open day of it |
| `FxSync.NormalizedQuotes` | src/modules/fx/sync.ts:30-40 | quotes are collected by day and currency, and refused exactly when two values conflict, naming a conflict |
| `FxSync.SyncChinaMoney` | src/modules/fx/sync.ts:111-149 | it succeeds exactly when the range fits the page limit and every page goes through, whatever day it is at each page; the evidence checks it makes never fail; persisted pages are always a prefix |
| `OtpRate.RateLimitHolds` | src/modules/auth/postgres.ts:112-158 | in every reachable state every closed window holds at most the limit per phone and purpose, address and device |
| `OtpRate.RequestsExactly` | src/modules/auth/postgres.ts:112-158 | a request is refused exactly when a limit is reached: below all of them one left alone commits its challenge |
| `OtpRate.CountExactly` | src/modules/auth/postgres.ts:122-141 | a count is the number of challenges of that key created within the window |
| `OtpRate.StepKeepsInv` | src/modules/auth/postgres.ts:114-157 | what each transaction keeps: exclusive locks, valid counts, bounded windows |
| `OtpRate.CommitKeepsWindows` | src/modules/auth/postgres.ts:122-141 | the committed challenge keeps every window within its limit |
| `OtpRate.UnlockedCountsOvershoot` | src/modules/auth/postgres.ts:119-121 | without the locks a run exists for any limits and any n that commits n challenges of one phone, address and device within one window |
| `DiagnosticReference.UuidRoundTrip` | src/shared/diagnostic-reference.ts:10-39 | every UUID becomes 23 characters that decode to its kind and canonical text |
| `DiagnosticReference.ReferenceSpellsTheNumber` | src/shared/diagnostic-reference.ts:10-20 | a reference is its kind and, in the alphabet 0-9A-Za-z and most significant first, the 22 digits of the number the UUID's hexadecimal digits stand for |
| `DiagnosticReference.UuidExactly` | src/shared/diagnostic-reference.ts:11-12 | hyphens are dropped and capitals made small wherever they stand; what is not 32 hexadecimal digits then is refused |
| `DiagnosticReference.ReferenceRoundTrip` | src/shared/diagnostic-reference.ts:22-39 | every accepted reference is the encoding of what it decodes to |
| `DiagnosticReference.AcceptedReferences` | src/shared/diagnostic-reference.ts:22-34 | exactly 23 characters of one of the four kinds whose digits stand for fewer than 2^128 are accepted, with that kind; all others are refused as invalid |
| `DiagnosticReference.ReferenceCharacters` | src/shared/diagnostic-reference.ts:27-31 | the digits of a reference are exactly the characters of that alphabet |
| `DiagnosticReference.WidthIsExact` | src/shared/diagnostic-reference.ts:19 | 22 base-62 digits hold every 128-bit number and 21 do not |
| `DiagnosticReference.DiagnosticReferenceId` | src/shared/diagnostic-reference.ts:10-20 | the do-while loop computes the encoding |
| `DiagnosticReference.DiagnosticReferenceUuid` | src/shared/diagnostic-reference.ts:22-39 | the digit loop computes the decoding |

## Left out

- Time: steps have strictly increasing clock values; a transaction that writes a time before another one commits is not seen apart from its commit.
- Other batches: the protocol shows one batch, so transactions of other batches are steps without effect on it; a calculation run is known by what it stores for the batch.
- Job execution locks in the batch protocol: modelled between reconciler passes; handlers interleave freely, which only adds behaviours.
- Upload, publishing and membership services: only their writes to the modelled rows, as preflight, cancellation, publication and epoch steps; moving FAILED batches back to ANALYZING from an operator script is not a step.
- Upload finalisation and analysis failures in the reconciler: they never write the batch status.
- Queue internals: retries, expiry and heartbeats; jobs are delivered at least once and may fail at any time. The 30-second re-poll filter and the poll limit are dropped, which only adds behaviours.
- startTerminalReconciler's timer and the retry wrappers around job handlers: a pass or a handler may simply happen again.
- The object store: putFile adds and removeUncommitted removes one object id; encryption, hashing and tokens are not modelled, and a response body stands for its hash.
- Advisory-lock hashes: keys stand for themselves, so two keys with one hash value are not considered.
- assertSourceReplayClosureCurrent, inherited acknowledgements, reconciliation quantities and manifests of a commit.
- The authorization matrix: staff act by role; customers through export permission and epoch.
- `JobLocks.TryWithJobExecutionLock`: does not model a failure of pool.connect(), before which nothing is held.
- `CostAccounting.SheetRefinesCalculation`: does not cover the rate rows 9 and 12, which the sheet leaves unrounded; salesCostRate is exact before rounding, without the 50-digit quotient in between. The tax table of the sheet is not modelled.
- `Rollup.YearOfQuartersIsYearOfMonths`: does not model the locale order of the rows, so it is proved for every order; periods are months, as the query supplies them.
- `CsvExport.WriteCsvParts`: does not model file names, so two marketplaces whose names collapse to one file segment are not considered; hashes and byte sizes neither.
- `CsvExport.LineRoundTrip`: does not model the bound and number checks that may refuse a cell before it is written.
- `FeeClassification.StoredTypeReachesFixpoint`: is about letters whose upper and lower case are inverse; compatibility normalisation, dotless i, sharp s and non-letters above U+00C0 are not modelled.
- `RowCounting.CopyFile`: takes the normalisers' answers for a row's cells as given, and reads a row's cells in the source's order.
- `FxConversion.ConvertCurrency`: takes parsed dates and upper-cased codes; zero rates are excluded by the tables.
- `FxSync.SyncChinaMoney`: does not model the HTTP exchange and the parsing of a payload; a page's records and dates are given.
- `OutboxScheduler.NothingStartsAfterStop`: does not model stop() called synchronously from inside run().
- Streams, profiling, logging, audit events, temporary files and sheet styling.
- Encoding detection and header matching of uploaded files: finite tables and string comparisons.
- `DiagnosticReference.DiagnosticReferenceId`: takes one of the four kinds, as its type demands.
