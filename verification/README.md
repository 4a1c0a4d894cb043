# Encodr, verified

Encodr queues and runs media jobs: it plans a file, waits for a schedule window, hands the job to a
worker, follows its progress, and replaces the file when the result passes its checks. This project
models the parts of it that have to be right in every run, and proves what they promise.

| modules | what they model |
|---|---|
| `ScheduleWindows`, `ScheduleText`, `SchedulerPass` | weekly windows, their stored text, and the pass that moves jobs between waiting and scheduled |
| `ProgressReporter`, `WorkerInterruption`, `RemoteExecution` | throttled progress reports, the server's 45 second timeout, and one remote job from claim to result |
| `ReviewGate`, `JobCreation` | the review gate, and every entry point that creates jobs, as interleaved database sessions |
| `BulkQueue`, `BulkExclusivity` | one run of a bulk operation, and the race to start one |
| `PosixPath`, `PathMappings`, `PathTranslation`, `RoundTripExactness`, `PayloadPaths` | path text, translation between server and worker, and the walkers over JSON-like payloads |
| `Versions`, `UpdateChecker` | version order and the clocked update checker |
| `BackupNames`, `BackupFiles` | backup names, replacing a file in place, and restoring its backup |
| `Text`, `Wrappers`, `JobStatuses`, `Transactions` | text operations, `Option` and `Result`, job statuses, rows as sessions see them |

Instants are integers at one fixed offset (microseconds; seconds in the update checker). What the
code asks of the outside world (the runner, the verifier, the safety check, the server's replies,
the fetcher, failing system calls, other parties' requests) is a parameter that may take any value,
and the theorems hold for all of them. Objects the code updates in place are classes, its loops are
loops, and each method is tied to a function of the old state about which the lemmas speak.
Protocols are step systems: `Runs(st, acts, end)` says that the steps `acts` lead from `st` to
`end`, and a theorem about `end` is one about every reachable state.

Where the code does not do what one would expect of it, a theorem says exactly when it does:

- A scheduler pass looks at 200 rows only (packages/db/encodr_db/repositories/jobs.py:229-243), so
  it settles the table exactly when every row it passed over was settled already
  (`PassSettlesTableUpToLimit`).
- The throttle bound counts whole percents. Read in the percents that were reported, it holds between
  two of them exactly when truncating both gains no extra step (`ReportedBoundHoldsExactly`).
- A server path comes back from its worker path, for all paths, exactly when every earlier worker root
  that is nested with a later one is harmless to it (`RoundTripExactly`).
- A worker root that normalises to a run of `..` translates out of its server root; no other does
  (`ContainmentIsExact`).
- A backup's name leads back to its source exactly when the source's name has a suffix, or is the
  marker itself (`NamingIsUndoneExactly`, at an input `UnsuffixedNameIsNotUndone`).
- A failed replacement has lost the original exactly when a torn copy went straight over a source whose
  earlier backup is kept (`OriginalIsLostExactly`, at an input `TornCopyLosesOriginal`). An earlier
  backup survives every failure under the three strategy texts the code tests for
  (`KnownStrategiesKeepBackup`), which are the only ones this repository stores
  (apps/api/app/services/jobs.py:309, 820-821, 949, 984-999); the plan's field admits any other
  (packages/core/encodr_core/planning/models.py:97), and under those it is lost exactly when the source
  was renamed over it (`EarlierBackupIsLostExactly`, at an input `UnknownStrategyLosesBackup`).
- A replacement followed by a restore brings the original back exactly when the replacement backed it up
  (`RestoreGivesOriginalExactly`).
- A bulk operation honours a request exactly when it falls between `mark_running` and the last poll
  (`Operation.Process`); one made while it is still `pending` is overwritten (`CancelWhilePending`).
- An ended bulk operation can become active again exactly when a cancel request that read it as active
  is still to be written (`RevivableExactly`, `LateCancelRevives`).
- Every entry point that creates a job holds the lock of the tracked file when it checks and inserts, the
  automatic retry through its own update of that file. The unique index refuses an insert only after a
  scheduler pass has made an ended job active again (`LockMakesIndexRedundant`, `StaleWriteNeedsIndex`),
  and it can do so exactly for an uncleared job that it read as waiting and has yet to write
  (`RevivableExactly`).
- A bulk operation whose thread cannot be started stays active for good, and keeps every other from starting
  (`FailedStartStrands`).
- The loser of a race to create a job ends in a conflict exactly when the winning job is still active
  as it looks, and raises the index error when that job has ended and it sees none in its place
  (`LoserEndsExactly`, `RefusedInsertEndsExactly`; `EndedWinnerRaises` reaches it).
- Two version texts are each newer than the other exactly when one of them does not parse and they
  differ once stripped (`AsymmetricExactlyWhenParseable`, at an input `UnparsedIsNewerBothWays`).
- An automatic update check keeps the interval after it free unless it fetches and the fetch raises an
  error that `check_now` does not catch (`RecordingKeepsIntervalExactly`).

The two throttle results meet in the middle: reports are delivered often enough for the timeout
exactly up to a gap of 43 s and one microsecond between updates.

## Model

| member | source | states |
|---|---|---|
| `ScheduleWindows.ScheduleWindowsAllowNow` | packages/shared/encodr_shared/scheduling.py:41-60 | the early-return loop accepts an instant exactly when some window is open on some day of the calendar at that instant, overnight windows included |
| `ScheduleWindows.NextScheduleOpening` | packages/shared/encodr_shared/scheduling.py:73-97 | the scan over days 0 to 7 returns the least allowed instant at or after now, less than a week ahead, and none only without windows |
| `ScheduleWindows.OpensWithinAWeek` | packages/shared/encodr_shared/scheduling.py:84-97 | every normal window opens on one of the scanned days, strictly within a week |
| `ScheduleWindows.ScanIsExhaustive` | packages/shared/encodr_shared/scheduling.py:84-97 | no allowed instant comes before every scanned opening |
| `ScheduleText.ParseFormat` | packages/shared/encodr_shared/scheduling.py:100-113 | parsing what formatting made of any minute of the day gives that minute back |
| `ScheduleText.NormaliseScheduleWindows` | packages/shared/encodr_shared/scheduling.py:9-38 | absent and empty input, wrong types, and otherwise every item accepted in order, or the error of the first one refused |
| `ScheduleText.ItemsAreAcceptedExactly` | packages/shared/encodr_shared/scheduling.py:15-37 | which items are accepted, and which error each other one gets |
| `ScheduleText.TimesAreAcceptedExactly` | packages/shared/encodr_shared/scheduling.py:104-113 | a time is accepted exactly when integers in range stand around its only colon, and then means that minute of the day |
| `ScheduleText.DigitsValueExactly` | packages/shared/encodr_shared/scheduling.py:107-108 | which texts of digits Python's `int` takes, single underscores included, and what they are worth |
| `ScheduleText.IntegersAreRead` | packages/shared/encodr_shared/scheduling.py:107-108 | digits with a sign or none, and any space around them, are read as that integer |
| `ScheduleText.OnlyIntegersAreRead` | packages/shared/encodr_shared/scheduling.py:107-108 | and no other text is |
| `ScheduleText.StoredReadsBack` | packages/shared/encodr_shared/scheduling.py:15-37 | an accepted item is stored as text that reads back as a window in normal form, with exactly the submitted days |
| `ScheduleText.StoredIsFixed` | packages/shared/encodr_shared/scheduling.py:15-37 | normalising stored text again changes nothing |
| `SchedulerPass.RefreshScheduledJobs` | apps/api/app/services/orchestration.py:220-241 | the pass rewrites exactly the rows the limited query returns, and counts those it changed |
| `SchedulerPass.RefreshJob` | apps/api/app/services/orchestration.py:225-240 | a job that is due is promoted inside its windows and otherwise scheduled for the least allowed instant; any other is left alone |
| `SchedulerPass.PassMovesDueRows` | apps/api/app/services/orchestration.py:220-241 | the same for every row of a table, and no row beyond the query is touched |
| `SchedulerPass.PassSettlesTableUpToLimit` | apps/api/app/services/orchestration.py:220-241 | after a pass every scheduled job is due strictly later and every unassigned pending job is inside its windows, if and only if the rows beyond the query's limit already were so |
| `SchedulerPass.SecondPassChangesNothing` | apps/api/app/services/orchestration.py:220-241 | a second pass at the same instant changes no row |
| `SchedulerPass.PromotionIsAllowed` | apps/api/app/services/orchestration.py:228-232 | a job is promoted only at an instant its windows allow |
| `SchedulerPass.PendingExactlyInsideWindows` | apps/api/app/services/orchestration.py:220-241 | over any run of passes, a waiting job is pending exactly when its windows allow the last pass's instant |
| `SchedulerPass.PassesActRowByRow` | apps/api/app/services/orchestration.py:224-241 | a run of passes over a table within the limit does to each row what it would do to that row alone |
| `SchedulerPass.ScheduledForTheOpening` | apps/api/app/services/orchestration.py:233-240 | over any run of passes, a job that is scheduled is so for the least instant from the last pass that its windows allow |
| `SchedulerPass.WaitingJobsFollowTheirWindows` | apps/api/app/services/orchestration.py:220-241 | both for every job of a table under any run of passes |
| `SchedulerPass.NewRowIsOnTime` | packages/db/encodr_db/repositories/jobs.py:63-88 | a new job, with its two readings of the clock and any retry delay, is in the state those theorems ask for from its creation, or from the end of the delay |
| `SchedulerPass.LimitStarvesLaterJobs` | packages/db/encodr_db/repositories/jobs.py:229-243 | on a crowded table a due job beyond the limit is never promoted, however many passes run |
| `ProgressReporter.Reporter.Report` | apps/worker-agent/app/service.py:496-555 | the closure's new state and outcome; a requested cancellation stays requested |
| `ProgressReporter.WithheldExactly` | apps/worker-agent/app/service.py:519-530 | a report is withheld if and only if it is an encoding update less than two whole percent and two seconds on from a delivery that had a percent too |
| `ProgressReporter.PlainUpdatesAreSent` | apps/worker-agent/app/service.py:519-530 | over any run of calls, updates of other stages or without a percent are sent, and so is what follows one without |
| `ProgressReporter.ThrottleBound` | apps/worker-agent/app/service.py:519-553 | a fresh reporter delivers at most one report, one per two whole percent gained and one per two seconds, for any replies, lost ones included |
| `ProgressReporter.SendsAreBounded` | apps/worker-agent/app/service.py:519-553 | the same bound on the reports that are sent, answered or not, in every run whose replies all come back but possibly the last, which ends the encoding |
| `ProgressReporter.DeliveriesArePaidFor` | apps/worker-agent/app/service.py:519-553 | the bound from any reporter that has sent before |
| `ProgressReporter.LastDeliveryIsFresh` | apps/worker-agent/app/service.py:519-553 | after any call that does not raise the last delivery is less than two percent and two seconds behind |
| `ProgressReporter.CancellationIsKept` | apps/worker-agent/app/service.py:549-551 | no later call forgets a cancellation |
| `ProgressReporter.ThrottleBoundIsTight` | apps/worker-agent/app/service.py:519-553 | between any two percents and any two instants some run delivers as much as the bound allows |
| `ProgressReporter.ReportedBoundHoldsExactly` | apps/worker-agent/app/service.py:515-526 | read in reported percents, the bound holds for all runs between two of them if and only if truncating gains no extra step |
| `ProgressReporter.FractionalGainIsNotEnough` | apps/worker-agent/app/service.py:515-526 | from 0.9 to 2.0 percent in no time two reports go out, one more than that reading allows |
| `WorkerInterruption.HandleWorkerInterruptions` | apps/api/app/services/orchestration.py:298-331 | the pass interrupts exactly the jobs not heard of for 45 s whose worker is missing, not dispatchable or not enabled, and returns how many it interrupted |
| `WorkerInterruption.QuietJobsAreInterrupted` | apps/api/app/services/orchestration.py:302-329 | what becomes of such a job, and that no other changes |
| `WorkerInterruption.TimelyRunIsNotInterrupted` | apps/api/app/services/orchestration.py:298-331 | no pass at any time interrupts a job whose encoding updates come at most 43 s and a microsecond apart |
| `WorkerInterruption.ReportsOutpaceTheTimeout` | apps/api/app/services/orchestration.py:298-331 | that gap is exact: every timely run survives if and only if the gap is no larger |
| `WorkerInterruption.LateUpdateIsInterrupted` | apps/api/app/services/orchestration.py:298-331 | for any larger gap, a run that is interrupted although its updates keep to it |
| `RemoteExecution.ProcessClaimedJob` | apps/worker-agent/app/service.py:307-418 | for every behaviour of runner, verifier, guard, placement and server: exactly when the runner is invoked and exactly when an output is placed; polls are honest, placements earned, and a staged run ends completed exactly when its output was placed |
| `RemoteExecution.Execute` | apps/worker-agent/app/execution.py:52-225 | the same from inside the executor, for dry runs and real ones, from any state of the reporter |
| `RemoteExecution.VerifyAndPlace` | apps/worker-agent/app/execution.py:437-675 | placement happens exactly when there is an output, no cancellation had been seen, verification passed, the guard was clear and the last report was answered; and it happens once, as the last event |
| `RemoteExecution.CancelStaged` | apps/worker-agent/app/execution.py:764-789 | every cancellation after staging tries to remove the output |
| `RemoteExecution.CancellationPreventsPlacement` | apps/worker-agent/app/execution.py:475-554 | if a reply asked for cancellation and an output was still placed, that reply was to the "replacing" report, after the last poll |
| `RemoteExecution.PollsNeverGoBack` | apps/worker-agent/app/execution.py:833-840 | a poll that answered yes is never followed by one that answers no |
| `RemoteExecution.FinishClaimedJob` | apps/api/app/services/worker.py:933-959 | for every world: exactly when nothing is recorded; a placed output with a final path is recorded completed whether or not cancellation was requested; failed verification, tripped guard, other ends of the runner, dry runs and excluded files each with their record; and with a request everything else is recorded cancelled or failed |
| `ReviewGate.GateMeaning` | apps/api/app/services/jobs.py:758-813 | the gate lets pass exactly: nothing to review; the retry of that very latest job; or an allowed approval of this plan no older than each single issue |
| `ReviewGate.ApprovalExpires` | apps/api/app/services/jobs.py:793-813 | an issue raised after the approval closes the gate again for protected files and plans |
| `JobCreation.ReachableIsSound` | apps/api/app/services/jobs.py:127-332 | the invariant of every interleaving of sessions, commits, aborts and other parties' updates |
| `JobCreation.OneActiveJobPerFile` | apps/api/app/services/jobs.py:1066-1080 | in every reachable state nobody sees two active jobs of a file, the index holds two only where one session has failed the first and made the second, no row was made by an entry that lost, and at most one by each entry |
| `JobCreation.NothingOutlivesItsSession` | packages/db/encodr_db/repositories/tracked_files.py:80-87 | in every reachable state every lock, uncommitted job and uncommitted failure belongs to an open session |
| `JobCreation.LoserEndsExactly` | apps/api/app/services/jobs.py:1066-1080 | after any run in which the loser waits, it ends in a conflict (or declines) if the winning job is still active, and in the index error if that job has ended and it sees no other active one of the file; with no row either way |
| `JobCreation.RefusedInsertEndsExactly` | apps/api/app/services/jobs.py:1066-1080 | the same for every insert that the index refuses: some job it sees has won the race |
| `JobCreation.LoserGetsConflict` | apps/api/app/services/jobs.py:1066-1080 | every run that only spares the winning job ends in a conflict, whatever becomes of all others |
| `JobCreation.EndedWinnerRaises` | apps/api/app/services/jobs.py:1076-1080 | some run does reach the index error: on any quiet table, for any scheduled job of a file that raises no issue |
| `JobCreation.GatedJobsAreWarranted` | apps/api/app/services/jobs.py:753-813 | every job that create, retry, strip-only or watched creation made was warranted at its gate: not for an excluded file, no protection without an approval they may use, a latest job in review passed only by its own retry after a replacement failure or by such approval; and the file's protection is unchanged, and it is not excluded, until the session ends |
| `JobCreation.ExcludedFileIsRefused` | apps/api/app/services/jobs.py:753-756 | a gated entry that holds the lock of an excluded file makes no job in any run, and can only end in a conflict, or declined when it was watched |
| `JobCreation.GateDecides` | apps/api/app/services/jobs.py:758-813 | the gate is shown the file's own row, latest job and decision, and the entry goes on if and only if that is cleared |
| `JobCreation.RetriesAreOfEndedJobs` | apps/api/app/services/jobs.py:207-211 | a retry or recovery begins only for a job of that file and plan that its session does not see active; an automatic one only for a running job |
| `JobCreation.FinishedEntriesAreAccounted` | apps/api/app/services/jobs.py:1066-1080 | in every reachable state a finished entry has lost and made nothing, or has made exactly the job it asks for, pending or scheduled, which its commit publishes |
| `JobCreation.LockMakesIndexRedundant` | apps/api/app/services/jobs.py:146-158 | for all six kinds of entry, automatic retries included, no insert ever waits or violates the index as long as no scheduler pass makes an inactive job active |
| `JobCreation.LockShowsAll` | packages/db/encodr_db/repositories/tracked_files.py:80-87 | under the lock a session sees no active job of its file exactly when there is none but one whose failure it has recorded itself |
| `JobCreation.RevivableExactly` | packages/db/encodr_db/repositories/jobs.py:298-302 | in every reachable state an ended job can become active again if and only if a scheduler pass read it as waiting, has yet to write it, and the job is not cleared |
| `JobCreation.EndedStaysEnded` | packages/db/encodr_db/repositories/jobs.py:196-204 | without such a reading no run makes an ended job active, whatever claims, results and cancellations come |
| `JobCreation.StaleWriteNeedsIndex` | packages/db/encodr_db/repositories/jobs.py:325-329 | one such write makes a locked creation fall back on the index, on any quiet table, for any scheduled job of a file that raises no issue |
| `BulkQueue.Operation.Process` | apps/api/app/services/bulk_queue.py:89-233 | a run that ends is cancelled exactly when a request falls between its start and its last poll; completed: every deduplicated file attempted once in order, and the counters add up to the total; any end: a prefix attempted, at most one attempt after a request landed, true counters, the first 100 items; without faults it always ends |
| `BulkQueue.CancelWhilePending` | packages/db/encodr_db/repositories/bulk_queue_operations.py:69-76 | a request made while the operation is pending is lost: the run completes and attempts every file |
| `BulkQueue.PollsEndCounted` | apps/api/app/services/bulk_queue.py:138-170 | how long requests are honoured: two interactions for each batch and three for each file |
| `BulkQueue.Operation.SendBatches` | apps/api/app/services/bulk_queue.py:138-198 | the nested loops attempt what remains, in order, through the batches |
| `BulkQueue.Operation.ResolveSelection` | apps/api/app/services/bulk_queue.py:235-266 | it succeeds only without an unexpected exception, and gives the deduplicated media files, the skipped items and the failed ones of the selection, each in order |
| `BulkQueue.SortedRightly` | apps/api/app/services/bulk_queue.py:268-288 | which list each candidate lands in, at which place, and as what |
| `BulkQueue.RegardedMeaning` | apps/api/app/services/bulk_queue.py:247-254 | every folder entry that is not passed over is a candidate, in order |
| `BulkQueue.SelectedMeaning` | apps/api/app/services/bulk_queue.py:260-263 | a file is sent if and only if some candidate resolved to it |
| `BulkQueue.SelectedInOrder` | apps/api/app/services/bulk_queue.py:260-263 | in the order in which they were first selected |
| `BulkQueue.GivenMeaning` | apps/api/app/services/bulk_queue.py:268-288 | the items settled beforehand are the skipped ones and then the failed ones, in order, with their reasons |
| `BulkQueue.ScanEntries` | apps/api/app/services/bulk_queue.py:247-258 | the scan stops exactly at an unexpected exception and otherwise sorts every regarded entry |
| `BulkQueue.ChunksFlatten` | apps/api/app/services/bulk_queue.py:510-513 | joining the chunks gives the files back |
| `BulkQueue.ChunksAreFull` | apps/api/app/services/bulk_queue.py:510-513 | every chunk but the last has the batch size |
| `BulkQueue.DeduplicatedKeepsOrder` | apps/api/app/services/bulk_queue.py:260-260 | each path is kept once, in the order of first appearance |
| `BulkQueue.NothingIsDropped` | apps/api/app/services/bulk_queue.py:268-288 | every candidate becomes exactly one file, skipped item or failed item |
| `BulkQueue.CountsAddUp` | apps/api/app/services/bulk_queue.py:171-181 | counters that count items by status sum to the number of items |
| `BulkQueue.AttemptsAfterCancelMeaning` | apps/api/app/services/bulk_queue.py:159-170 | the bound of one forbids any two attempts after a landed request |
| `BulkExclusivity.OneActiveOperation` | apps/api/app/services/bulk_queue.py:53-87 | at most one operation is active in every reachable state |
| `BulkExclusivity.IdenticalRequestsShare` | apps/api/app/services/bulk_queue.py:60-87 | requests answered with operations still active were answered with the same one, of their own selection, and not both were told they made it |
| `BulkExclusivity.RequestsAreAnsweredExactly` | apps/api/app/services/bulk_queue.py:63-87 | in every reachable state, what a request is told next: the active operation it sees if that has its own selection, a refusal if not, a new operation when there is none, and the index error only when the winner of a lost race has gone |
| `BulkExclusivity.MadeExactlyOnce` | apps/api/app/services/bulk_queue.py:70-87 | of all requests exactly one is told it made a given new operation |
| `BulkExclusivity.OneThreadPerOperation` | apps/api/app/services/bulk_queue.py:435-459 | whatever is started how often, and whichever threads fail to start, no operation has two threads at once |
| `BulkExclusivity.EachOperationGetsOneThread` | apps/api/app/services/bulk_queue.py:440-451 | in every reachable state a new operation has no thread before its maker starts it, and exactly one ever after |
| `BulkExclusivity.FreshOperationCompletes` | apps/api/app/services/bulk_queue.py:440-459 | from every reachable state an operation that was made and not started can be started, complete and be forgotten |
| `BulkExclusivity.FailedStartStrands` | apps/api/app/services/bulk_queue.py:440-451 | when the thread cannot be started, the operation is active in every run that follows, and no other ever is |
| `BulkExclusivity.Executor.Start` | apps/api/app/services/bulk_queue.py:441-452 | the executor's set and threads after a start, keeping one thread per operation |
| `BulkExclusivity.Executor.Clear` | apps/api/app/services/bulk_queue.py:454-459 | when the id is discarded no thread of it is left |
| `BulkExclusivity.EndedStaysEnded` | packages/db/encodr_db/repositories/bulk_queue_operations.py:69-84 | in every run an ended operation without a pending cancel request stays ended, although `mark_running` writes whatever row it is given: its thread has marked it before it ends, and its maker starts it only once |
| `BulkExclusivity.RevivableExactly` | packages/db/encodr_db/repositories/bulk_queue_operations.py:78-84 | in every reachable state without an active operation, some run makes an ended one active if and only if a cancel request that read it as active is still to be written |
| `BulkExclusivity.LateCancelRevives` | apps/api/app/api/jobs.py:377-392 | from every reachable state with a running operation, a run that leaves it `cancelling` with no thread to end it |
| `PosixPath.NormPathIdempotent` | apps/api/app/services/path_safety.py:223-226 | normalising normalised text changes nothing |
| `PosixPath.CollapseIsNormal` | apps/api/app/services/path_safety.py:223-226 | normal forms keep ".." only at the front, and none when absolute |
| `PosixPath.NormalisingKeepsDestination` | apps/api/app/services/path_safety.py:223-226 | from every directory, a normalised path leads where the path did |
| `PosixPath.ResolvingFollows` | packages/shared/encodr_shared/path_mappings.py:29 | resolving gives the directory the text leads to, step by step |
| `PathMappings.NormalisePathMappings` | packages/shared/encodr_shared/path_mappings.py:8-27 | a mapping is in the result as often as items with two nonblank texts become it, server text resolved and worker text parsed; longest server path first |
| `PathMappings.SortIsStable` | packages/shared/encodr_shared/path_mappings.py:26 | mappings from one server path keep their order |
| `PathMappings.MappingForServerPath` | packages/shared/encodr_shared/path_mappings.py:28-34 | the chosen mapping covers the path, and no longer server prefix does |
| `PathMappings.SuffixMeaning` | apps/api/app/services/path_safety.py:206-226 | the text comparison with its case folding and slash stripping is the comparison of path components |
| `PathMappings.CaseIsIgnoredExactly` | apps/api/app/services/path_safety.py:206-230 | case is ignored exactly when one of the two texts has a backslash or starts at a drive |
| `PathTranslation.TranslationFollowsItems` | packages/shared/encodr_shared/path_mappings.py:37-47 | end to end from the configured items: a path is translated to the worker text of the first item with the longest covering server path, with the rest of the path below it |
| `PathTranslation.UntranslatedExactly` | packages/shared/encodr_shared/path_mappings.py:28-41 | a path has no worker path if and only if no item with two nonblank texts covers it |
| `PathTranslation.RoundTrip` | packages/shared/encodr_shared/path_mappings.py:37-47 | a server path that has a worker path is the translation of that worker path back |
| `PathTranslation.NestedRootsMisroute` | apps/api/app/services/path_safety.py:100-110 | nested worker roots send a path back to the wrong server root |
| `RoundTripExactness.RoundTripExactly` | packages/shared/encodr_shared/path_mappings.py:28-47 | over absolute POSIX mappings as normalisation orders them, every server path comes back if and only if every earlier nested worker root is harmless: the path it shadows goes to another mapping |
| `PathTranslation.TranslationStaysBelow` | apps/api/app/services/path_safety.py:100-110 | under a root that does not climb, every match stays at or below the server root |
| `PathTranslation.WorkerPathsFollowMappings` | apps/api/app/services/path_safety.py:100-110 | the first mapping whose worker root the path is at or below decides, and the rest of the path is appended to its server path; any other path is left alone |
| `PathTranslation.ContainmentIsExact` | apps/api/app/services/path_safety.py:206-226 | every match of a mapping is contained if and only if its worker root is not a run of ".." or its server root is "/" |
| `PathTranslation.ClimbingRootEscapes` | apps/api/app/services/path_safety.py:206-226 | for every such root, a path that leaves the server root |
| `PayloadPaths.WalkKeepsShape` | apps/api/app/services/path_safety.py:127-171 | a successful walk keeps every address, rewrites the governed strings and leaves every other leaf alone |
| `PayloadPaths.WalkFailureIsReal` | apps/api/app/services/path_safety.py:127-171 | a failing walk has a governed string that is refused |
| `PayloadPaths.ValidatedPayload` | apps/api/app/services/path_safety.py:80-97 | in a validated payload every governed string is an absolute resolved path under some root, and validating again returns the same tree |
| `PayloadPaths.ValidationIsExact` | apps/api/app/services/path_safety.py:127-171 | validation succeeds if and only if every governed string is authorised |
| `PayloadPaths.PathsAreAcceptedExactly` | apps/api/app/services/path_safety.py:80-97 | a path is accepted if and only if it is absolute and leads to a root or below one; the result is where it leads |
| `PayloadPaths.PathKeysExactly` | apps/api/app/services/path_safety.py:174-178 | which keys govern paths |
| `PayloadPaths.RemappedPayload` | apps/api/app/services/path_safety.py:113-155 | the remapping walk never fails, keeps the shape, and translates exactly the governed strings |
| `Versions.FormattedReadsBack` | packages/shared/encodr_shared/versioning.py:26-31 | any version written in decimal, with or without a pre-release part, reads back as its numbers |
| `Versions.ParsesExactly` | packages/shared/encodr_shared/versioning.py:26-31 | a text parses if and only if each dotted part before its first hyphen is digits |
| `Versions.NewerTupleMeaning` | packages/shared/encodr_shared/versioning.py:34-44 | newer means greater at the first difference, a missing part counting as zero |
| `Versions.NewerIsIrreflexive` | packages/shared/encodr_shared/versioning.py:34-44 | no version is newer than itself |
| `Versions.NewerIsAsymmetric` | packages/shared/encodr_shared/versioning.py:34-44 | two versions of any length are never each newer than the other |
| `Versions.NewerIsTransitive` | packages/shared/encodr_shared/versioning.py:34-44 | although each comparison pads to its own length |
| `Versions.IncomparableMeansEqualUpToZeros` | packages/shared/encodr_shared/versioning.py:34-44 | neither is newer exactly when they are equal after dropping trailing zeros |
| `Versions.AsymmetricExactlyWhenParseable` | packages/shared/encodr_shared/versioning.py:34-44 | on any texts: the order is asymmetric exactly when both parse or they agree once stripped |
| `Versions.UnparsedIsNewerBothWays` | packages/shared/encodr_shared/versioning.py:34-44 | "1" and "next" are each newer than the other |
| `UpdateChecker.Checker.CheckNow` | packages/shared/encodr_shared/update.py:99-154 | the stored result for each configuration and outcome of the fetch, an update advertised if and only if the fetched version is newer; or an escaping exception that stores nothing |
| `UpdateChecker.LatestVersionMeaning` | packages/shared/encodr_shared/update.py:174-183 | the version is the first of the three texts that is not blank, a tag less its leading v |
| `UpdateChecker.NewerVersionsAreAdvertised` | packages/shared/encodr_shared/update.py:125-139 | after any calls, a check that fetches a version leaves an update advertised if and only if it is newer |
| `UpdateChecker.Checker.CurrentStatus` | packages/shared/encodr_shared/update.py:79-94 | when an automatic check is due |
| `UpdateChecker.AutoChecksAreSpaced` | packages/shared/encodr_shared/update.py:79-94 | over any run with an advancing clock, an automatic fetch never starts less than the interval after the check before it |
| `UpdateChecker.AutoChecksComeWhenDue` | packages/shared/encodr_shared/update.py:79-94 | after any run from the start, an automatic call checks if and only if nothing was recorded yet or the interval since the last recorded check has passed |
| `UpdateChecker.RecordingKeepsIntervalExactly` | packages/shared/encodr_shared/update.py:79-154 | an automatic check keeps the interval after it free of others, in every run that follows, if and only if it does not fetch or its fetch raises nothing uncaught |
| `UpdateChecker.EscapedErrorsAreNotSpaced` | packages/shared/encodr_shared/update.py:99-154 | an exception that is not caught leaves the next fetch unspaced |
| `UpdateChecker.UpdatesAreGenuine` | packages/shared/encodr_shared/update.py:99-154 | in every reachable state an advertised update has status ok and a version newer than the current one |
| `BackupNames.NamingIsUndoneExactly` | apps/api/app/services/orchestration.py:379-384 | the name of a backup leads back to its source if and only if the source's name has a suffix or is the marker |
| `BackupNames.UnsuffixedNameIsNotUndone` | apps/api/app/services/orchestration.py:379-384 | the backup of "README" leads back to itself |
| `BackupNames.BackupNamesAreDistinct` | packages/core/encodr_core/replacement/service.py:316-317 | different files of a directory never share a backup |
| `BackupNames.NamesDiffer` | packages/core/encodr_core/replacement/service.py:102-103 | source, target, backup and the temporary name are different, whatever the source is called |
| `BackupFiles.NamedPathsAreDistinct` | packages/core/encodr_core/replacement/service.py:102-103 | the paths built from any source name satisfy what the replacement theorems ask of paths |
| `BackupFiles.FileSystem.MoveOutput` | packages/core/encodr_core/replacement/service.py:320-340 | a move or a copy across devices: exactly when it succeeds, and the disk after success, after failure and after a torn copy |
| `BackupFiles.ReplaceInPlace` | packages/core/encodr_core/replacement/service.py:81-271 | whichever system calls fail: it succeeds exactly when nothing refuses it, the way clears and the move is possible; each refusal has its exact condition and touches nothing; after a success the output is in place and the rest accounted for; after a failure the output is still staged, and the original and any earlier backup are at a named path but in the two cases the next rows make exact |
| `BackupFiles.SucceedsExactly` | packages/core/encodr_core/replacement/service.py:81-271 | the condition for success, on the files and faults before the call |
| `BackupFiles.BlockedExactly` | packages/core/encodr_core/replacement/service.py:132-179 | when the way cannot be cleared the disk is as it was, but for an earlier backup that could not be put back |
| `BackupFiles.FirstReplacementSucceeds` | packages/core/encodr_core/replacement/service.py:81-271 | without faults a first replacement succeeds, and the disk after it |
| `BackupFiles.OriginalIsLostExactly` | packages/core/encodr_core/replacement/service.py:180-218 | after a failure, contents being distinct, the original is at a named path if and only if no torn copy went straight over it |
| `BackupFiles.KnownStrategiesKeepBackup` | packages/core/encodr_core/replacement/service.py:81-271 | under the three strategies the code tests for, an earlier backup is at a named path after every failure, whatever the contents |
| `BackupFiles.EarlierBackupIsLostExactly` | packages/core/encodr_core/replacement/service.py:132-179 | after a failure, contents being distinct, an earlier backup is at a named path if and only if the source was not renamed over it |
| `BackupFiles.TornCopyLosesOriginal` | packages/core/encodr_core/replacement/service.py:180-218 | at such an input the torn file is all that is left at the source |
| `BackupFiles.UnknownStrategyLosesBackup` | packages/core/encodr_core/replacement/service.py:132-179 | at such an input the source returns and the earlier backup is gone |
| `BackupFiles.CleanFailureIsUndone` | packages/core/encodr_core/replacement/service.py:180-218 | a failed move without a torn copy leaves the disk as it was |
| `BackupFiles.RollBackIsSafe` | packages/core/encodr_core/replacement/service.py:180-218 | the rollback from any state a stopped move can leave |
| `BackupFiles.RestoreBackup` | apps/api/app/services/jobs.py:560-594 | each error exactly when, with the disk unchanged; or the source holds the backup's content, the backup is gone exactly when it was not the source path, a differing replacement is gone exactly when it could be removed, and nothing else changed |
| `BackupFiles.RestoreUndoesReplacement` | apps/api/app/services/jobs.py:560-594 | replacing and then restoring gives back the same files, less the consumed output and any earlier backup not left at its temporary name |
| `BackupFiles.RestoreAfterKeeping` | apps/api/app/services/jobs.py:577-578 | where the earlier backup was kept and the output took the source's name, restoring brings back the older content |
| `BackupFiles.RestoreGivesOriginalExactly` | apps/api/app/services/jobs.py:577-582 | contents being distinct, the original is back at the source if and only if no earlier backup was kept |

## Left out

- SQL, sessions and audit: only locks, visibility, the unique indexes, commits and aborts are kept, each as one step; inserts blocked by foreign-key locks are not modelled, which admits more runs than the database does.
- The order of rows is the order of insertion; equal creation times are not modelled.
- Deadlocks and lock timeouts appear only as aborts of a session.
- JobCreation.LockMakesIndexRedundant: speaks of runs in which no scheduler pass writes a job that is no longer active; with such a write the index is needed (`StaleWriteNeedsIndex`).
- That a failing job's file is not in the failed state already, so that recording the failure writes its row, which is the lock of an automatic retry: claiming a job puts its file into processing (packages/db/encodr_db/repositories/jobs.py:215-216).
- Which waiting jobs a scheduler pass reads, and when it moves one, is the subject of `SchedulerPass`; in `JobCreation` it may read and later move any waiting job.
- Clearing the original of a retry, plan rewriting (`_approved_execution_plan`, `_strip_only_plan`) and the other fields of a job: the new job's plan is arbitrary, so the theorems hold for any rewriting.
- The failure texts that make a job eligible for strip-only recovery: the entry may begin for any job of the right status.
- A job that is in review when its review is approved after encoding (`_complete_post_encode_approval`): it creates no job; its placement is `ReplaceInPlace`.
- Placing an output alongside its original (packages/core/encodr_core/replacement/service.py:273-314) is one refusal and one `MoveOutput`.
- Hashing of a selection: equal hashes stand for equal selections.
- `_compression_safety_failure`, the verifier, the runner and probing are oracles.
- Reports of the worker agent that are made without callbacks, token renewal, and the best-effort report of a failure after an exception.
- Percentages that are infinite or not a number.
- Daylight saving: one fixed offset.
- Text beyond ASCII, `~` expansion, UNC shares and drive-relative paths; a path is POSIX text, and Windows text is read as the code reads it.
- Symbolic links and hard links: resolving is lexical, and a path names one entry.
- BackupFiles.ReplaceInPlace: treats a directory as one entry and does not model paths below a path it moves.
- BackupFiles.RestoreBackup: a system call fails with no effect or succeeds; what the database records afterwards is not modelled.
- Labels and markers of path mappings.
- ProgressReporter.ThrottleBound: counts whole percents, as the code compares them; `ReportedBoundHoldsExactly` says when that makes no difference.
- PathTranslation.RoundTrip: asks for worker roots that are absolute POSIX paths, none inside another, and no backslash in the path; `RoundTripExactly` replaces the second condition by an exact one for normalised lists.
- Releases: parsing of summaries and breaking-change notes from release text.
- HTTP routing, authentication, rendering, telemetry, setup, analytics and log redaction.
