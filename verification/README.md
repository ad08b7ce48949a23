# Brevis, verified

A Dafny model of the core of Brevis, a workflow orchestrator and its extract-and-load SDK, with
proofs of what that core promises. `dafny verify dfyconfig.toml` checks everything.

Names follow the Go code (`falhar`, `janela`, `leva`, `vagas`) where a Dafny member stands for
something there; lemma names are English.

## What is modelled

**Dispatch.** `RunStatus` is the status table and the time stamps. `Queue` is the `queue_items`
table: the claim query, the class `Fila` whose methods are the SQL statements, and the per-workflow
limit as an invariant of every sequence of statements; `QueueOverlap` is about claims on different
snapshots. `Dispatch` is the protocol as a state machine, one step per statement: any number of
dispatchers, executions, deaths, failed calls and orphan recoveries interleave. `DispatchGuarantees`
holds what it promises, `DispatchCounts` what holds of attempts and alerts in every run whatsoever,
`DispatchMarks` who holds the mark of an item, `DispatchExecutors` when a run has two executors, and
`DispatchReports` when a failure goes unreported. `Dispatcher` is the code written as a class, each
method proved to do what the machine's goroutine does undisturbed.

Four assumptions are named in `Dispatch.Benigno` and used by the guarantees that need them: a
process dies only during an attempt (from the accepted write of `running` until the run leaves that
status), recovery touches only items of dead workers, the database answers, and the scheduler
survives between marking a run queued and inserting its queue item. `DispatchCounterexamples` has a
reachable state that goes wrong without each of them; `DispatchConditions`, `DispatchExecutors` and
`DispatchReports` say exactly when such steps do harm:

- A death followed by the recovery of the item loses the run exactly when the run was queued or
  retrying at the death.
- A failed database call loses the run exactly when the code answers by deleting the item while the
  run is still queued, running or retrying, or when the failed call is the release of the marked
  item of a queued or retrying run: the mark is recovered later, and that recovery deletes the item.
- A run has two executors exactly when somebody else failed it while the first was executing it, the
  second started it after that, and neither has finished or died. It takes a recovery.
- A failed run goes unreported, with attempts left or not, exactly when the goroutine that was to
  retry or report it died or had a call fail.

Three things go wrong with all four in force:

- After a recovery, `falhar` writes `queued` before it releases the item. Another dispatcher can
  take the item in between and then loses its mark to that release; two executions of a workflow
  limited to one can then run at once. Executions stay within the limit in every run in which no
  goroutine loses its mark before it has executed (`DispatchMarks.ExecutionsWithinLimit`). If an
  owner without a mark dies, its run stays `running` for good; the recovering goroutine itself is
  such an owner until it has failed the run. `DispatchMarks.UnrecoverableIff` gives the exact
  condition.
- A run canceled while it waits keeps its queue item: each claim finds `running` refused and
  releases the item at once. The item can be deleted exactly when a goroutine is past that refusal
  (`DispatchConditions.CanceledItemDeletableIff`). No Go code writes `canceled`; the table allows
  it, and the model takes it as a step of the environment.
- Claims computed on different snapshots can together exceed a workflow's limit; claims of one
  snapshot cannot. `QueueOverlap.TwoSnapshotsIff` says what must have come in front between the
  two.

**Graphs.** `Graph` defines paths, cycles and levellings; `Order` is the level-wise sort with its
loops; `FindCycle` is the depth-first search of the validation. Both are proved to accept exactly
the acyclic graphs, the sort to put each node on the level that is the length of the longest path
to it.

**Runner.** `Runner` is the barrier-parallel executor, any number of runs sharing one channel of
slots; `RunnerGuarantees` holds for every interleaving, `RunnerAttempts` counts the attempts behind
each outcome, and `RunnerWitness` is a run with a retry in it.

**Scheduler.** `Schedule` lists the firings of a cron; `Scheduler` is materialisation as a
crash-restart machine; `SchedulerCode` is its loops, and `SchedulerWitness` a schedule and a run
that meet what the guarantees assume. The guarantee is about runs existing, not about
runs being queued: a crash between the insert of a run and the insert of its queue item strands it
for good, because the collision on the next attempt is taken as "already done"
(`Scheduler.StrandedIff`). Without catch-up, the 500 000 turns the search is limited to mean
that a very old mark yields an older firing than the latest one (`Schedule.LatestWithin`).

**SDK.** `Many` is the fan-out over channels (feeder, workers, collector) as a state machine;
`ManyEvents` states its guarantees on the events of the sources.
`BatchLoad` is the batched load against the single one, `Merge` the MERGE on `ingestion_id` and its
re-runs, `MergeCode` the code around it. `Pagination` is the walk over the pages of an API, with any
server, `PaginationGuarantees` what it asks for, and `NumberedPages` what it reads by page number or
offset; `Credentials` the credential that lives in a header and is rotated on the way.

**Encoders.** `JsonText`, `CanonicalJson`, `CanonicalReader`, `CanonicalRoundTrip` and `ByteOrder`
are the canonical JSON key and an independent reader (string escapes as in section 7 of RFC 8259),
`CanonicalText` the same text piece by piece. Go strings are bytes: here characters below 256. `Csv`
is the CSV writer and a reader of section 2 of RFC 4180. `Identity` and `IdentityCode` are the
identity strings. `LogWindow` is the capped log.

Where code and documentation disagree, or the documentation leaves something unsaid, the model
follows the code:

- The log window is described as the beginning and the end of the output. A short line that comes
  after a line too long for the head still enters the head, and is then shown before it, even when
  nothing was discarded. `LogWindow.InOrderIff` says exactly when lines keep their order.
- `PageSize` is described as the number of rows an offset advances by. Unless it is the server's
  page length, or one page holds everything, rows are skipped or read twice
  (`NumberedPages.PageSizeMustMatchIff`).
- A repeated page is meant to stop a walk, but the first URL is not among the remembered ones: a
  page that leads back to it has it read again (`PaginationGuarantees.FirstPageRepeatsIff`).

## Model

| member | source | states |
|---|---|---|
| `RunStatus.TerminalIffDeadEnd` | internal/domain/run/status.go:23-44 | a status is terminal exactly when the table has no way out of it, and every other status can still reach success |
| `RunStatus.RestartGoesThroughRetry` | internal/domain/run/status.go:25-36 | between two entries to running a run fails, is marked for retry and is queued again, in that order |
| `RunStatus.Run.Transition` | internal/domain/run/run.go:57-78 | refused exactly when the table refuses, and then nothing changes; on every record transitions can produce, the stamps are those the database writes |
| `RunStatus.SqlTransitionKeepsCoherent` | internal/infrastructure/postgres/runs.go:82-98 | the database write keeps the stamps truthful: an end exactly on terminal runs, a start exactly on runs that started |
| `RunStatus.StampInstants` | internal/infrastructure/postgres/runs.go:82-98 | which instant each stamp holds after a write: that of the start, that of the end, none after a re-queue |
| `Queue.Fila.Enqueue` | internal/queue/queue.go:50-64 | one item for each run: a second enqueue changes nothing |
| `Queue.Fila.Claim` | internal/queue/queue.go:71-141 | takes, in priority order, the first `limite` unlocked admissible rows, marks those and changes no other row |
| `Queue.PickOrder` | internal/queue/queue.go:98-124 | the order of what a claim takes, and of what it leaves behind, column by column: priority falling, of one priority the earlier date, of one date the smaller id |
| `Queue.AdmittedIff` | internal/queue/queue.go:90-120 | what a claim may take, column by column: no mark, due, and room left by the claimed rows of the workflow and the rows due ahead of it |
| `Queue.PickIsUnique` | internal/queue/queue.go:98-124 | the rows one claim may take are determined by the table, the locks and the limit |
| `Queue.ReleaseMakesEligible` | internal/queue/queue.go:153-160 | a release makes exactly that row eligible, from its new date on, and frees exactly its place under the limit of its workflow |
| `Queue.Fila.Recuperar` | internal/queue/queue.go:167-193 | clears exactly the marks older than the limit, and returns those items |
| `Queue.AdmissiveisFit` | internal/queue/queue.go:91-120 | all the rows one snapshot admits, together with the rows already claimed, fit the limit of their workflow |
| `Queue.QStepKeepsInv` | internal/queue/queue.go:50-193 | every queue statement keeps the claimed rows of a workflow within its limit, claims on the current snapshot taking any rows nobody has taken |
| `Queue.ClaimedNeverExceedsLimit` | internal/queue/queue.go:76-120 | over any sequence of statements, a workflow never has more claimed rows than its limit |
| `Queue.QueueStarts` | internal/queue/queue.go:50-64 | queues start empty |
| `Queue.PickIsAStep` | internal/queue/queue.go:90-126 | what Claim does is one of the claims the limit is proved for |
| `QueueOverlap.TwoSnapshotsIff` | internal/queue/queue.go:90-124 | claims on two snapshots, each row checked again under its lock, stay within the limit whatever rows they take exactly when no more came in front of a row the first admits than its room allows |
| `QueueOverlap.TwoClocksIff` | internal/queue/queue.go:90-124 | the same for any two clocks: the rows due by the first and not by the second must fit too |
| `QueueOverlap.CameInFrontIff` | internal/queue/queue.go:101-120 | came in front: a row inserted, come due, marked, or put back earlier in the order since |
| `QueueOverlap.NothingNewFits` | internal/queue/queue.go:90-124 | so with nothing in front they fit, whatever marks were cleared and rows put off meanwhile |
| `QueueOverlap.StaleSnapshotExceedsLimit` | internal/queue/queue.go:90-124 | they can fail to: a workflow limited to one gets two claimed rows |
| `Dispatch.StepKeepsInv` | internal/scheduler/dispatcher.go:150-279 | every step, deaths during an attempt and recoveries included, keeps the invariant that ties runs, items, marks and goroutines |
| `Dispatch.QueueEffect` | internal/queue/queue.go:147-160 | what a release and a delete leave of the table |
| `Dispatch.AnswersToErrors` | internal/scheduler/dispatcher.go:212-278 | what each failed call is answered with |
| `Dispatch.AnyConfig` | internal/scheduler/dispatcher.go:242-249 | any configuration with at least one attempt |
| `DispatchGuarantees.NoRunIsLost` | internal/scheduler/dispatcher.go:150-279 | in every reachable state a queued, running or retrying run has exactly one queue item, unless the scheduler is about to insert it |
| `DispatchGuarantees.ExactlyOneOwner` | internal/scheduler/dispatcher.go:212-279 | a run in the middle of an attempt, or failed and not given up, has exactly one goroutine answerable for it |
| `DispatchGuarantees.AtMostOneExecutor` | internal/scheduler/dispatcher.go:212-231 | nobody else is at work on a run that is being executed, also while recovery clears a mark another dispatcher then takes |
| `DispatchGuarantees.RetriesAreFinite` | internal/scheduler/dispatcher.go:234-279 | in every run of the protocol, whatever dies, fails or is recovered, a run starts at most MaxTentativas times and its status is written at most 4 * MaxTentativas + 2 times |
| `DispatchCounts.StepCounts` | internal/scheduler/dispatcher.go:150-279 | every step at all keeps attempts, starts and alerts bounded, and at most one goroutine deciding what becomes of a failed run |
| `DispatchGuarantees.TerminalIsForever` | internal/domain/run/status.go:32-44 | success and canceled are never left, whatever dies or fails |
| `DispatchGuarantees.StepRespectsTable` | internal/infrastructure/postgres/runs.go:64-102 | every change of a status in the protocol follows the table |
| `DispatchGuarantees.AlertIsFinal` | internal/scheduler/dispatcher.go:249-259 | in every run of the protocol the exhaustion alert goes out at most once, and the run it went out for stays failed with its attempts used up |
| `DispatchGuarantees.FailureIsReported` | internal/scheduler/dispatcher.go:234-259 | a failed run nobody is answerable for was reported after its last attempt |
| `DispatchReports.ReportedIff` | internal/scheduler/dispatcher.go:234-278 | in every run of the protocol: a failed run nobody decides about any more was reported, after its last attempt, exactly when no goroutine died or had a call fail while it was to decide about it |
| `DispatchReports.SilentIff` | internal/scheduler/dispatcher.go:242-269 | a failed run is left unreported for good exactly by a death or failed call at that point |
| `DispatchGuarantees.StepRefinesQueue` | internal/scheduler/dispatcher.go:150-279 | seen from the queue, every protocol step is one queue statement or none |
| `DispatchGuarantees.MarksWithinLimit` | internal/queue/queue.go:76-120 | however executions, crashes and recoveries interleave, marks stay within the limit of the workflow |
| `DispatchMarks.ExecutionsWithinLimit` | internal/queue/queue.go:76-88 | executions stay within the limit too, in every run in which no goroutine loses its mark before it has executed, with recoveries, deaths and errors |
| `DispatchMarks.MarkKeptIff` | internal/queue/queue.go:144-193 | a goroutine keeps its mark exactly as long as nobody else releases or deletes its item or recovers it |
| `DispatchMarks.WithoutRecoveryNothingIsTaken` | internal/scheduler/dispatcher.go:150-159 | only a recovery can bring a run of the protocol to such a loss |
| `DispatchMarks.RecoverableIff` | internal/queue/queue.go:167-193 | recovery finds a dead owner exactly as long as its mark is there |
| `DispatchMarks.UnrecoverableIff` | internal/scheduler/dispatcher.go:212-279 | a running run is beyond recovery exactly when its owner died without its mark, or had its mark taken by the release or delete of another after its death, and it was not canceled since |
| `DispatchMarks.ZombieAppearsIff` | internal/scheduler/dispatcher.go:212-279 | and it becomes so by exactly those steps |
| `DispatchMarks.ZombieStays` | internal/scheduler/dispatcher.go:139-159 | such a run stays as it is until somebody cancels it |
| `DispatchConditions.DeathLosesIff` | internal/scheduler/dispatcher.go:150-279 | a goroutine that holds its mark dies anywhere and is recovered: its run is lost exactly when it was queued or retrying at the death |
| `DispatchConditions.RecoveryLosesIff` | internal/scheduler/dispatcher.go:150-159 | a recovery loses the run exactly when it finds it queued or retrying, whoever owned it |
| `DispatchConditions.ErrorLosesIff` | internal/scheduler/dispatcher.go:212-278 | a failed database call, at any statement: the answer to it, or the recovery of the mark it leaves, loses the run exactly when the code deletes the item of a run still queued, running or retrying, or fails to release the marked item of a queued or retrying one |
| `DispatchConditions.ErrorLosesAtOnceIff` | internal/scheduler/dispatcher.go:212-278 | the answer alone loses it exactly in the first of the two cases |
| `DispatchExecutors.TwoExecutorsIff` | internal/scheduler/dispatcher.go:150-279 | in every run of the protocol a run has two executors exactly when somebody else failed it under the hands of one, the other started it after that, and neither has finished or died since |
| `DispatchExecutors.OneExecutorWithoutRecovery` | internal/scheduler/dispatcher.go:150-159 | without recoveries there is one at most, whoever dies and whatever calls fail |
| `DispatchConditions.SecondExecutorIff` | internal/scheduler/dispatcher.go:150-231 | an item recovered, and claimed again at once: its run starts again, and has two executors exactly when somebody was executing it at the recovery |
| `DispatchConditions.CanceledItemDeletableIff` | internal/scheduler/dispatcher.go:212-279 | the item of a canceled run can still be deleted exactly when a goroutine on it is past the entry to running, alive or recoverable |
| `DispatchCounterexamples.DeathBeforeRunningLosesRun` | internal/scheduler/dispatcher.go:212-240 | a death between claim and running makes recovery delete the only item of a queued run |
| `DispatchCounterexamples.DeathBeforeReleaseLosesRun` | internal/scheduler/dispatcher.go:266-278 | so does a death between the write of queued and the release |
| `DispatchCounterexamples.DatabaseErrorLosesRun` | internal/scheduler/dispatcher.go:236-247 | a database error in falhar deletes the item of a run that stays active |
| `DispatchCounterexamples.FailedReleaseLosesRun` | internal/scheduler/dispatcher.go:276-278 | a failed release on the way back to the queue leaves the mark, and its recovery deletes the item of a queued run |
| `DispatchCounterexamples.SchedulerDeathLosesRun` | internal/scheduler/scheduler.go:199-202 | a scheduler that dies between the two statements leaves a queued run without an item |
| `DispatchCounterexamples.RecoveringTheLivingDoublesExecution` | internal/scheduler/dispatcher.go:150-159 | recovering a worker that is merely slow gives a run two executors |
| `DispatchCounterexamples.RecoveryExceedsExecutionLimit` | internal/scheduler/dispatcher.go:266-278 | with every assumption in force, a recovery can let two executions of a workflow limited to one run at once |
| `DispatchCounterexamples.RecoveryLeavesZombie` | internal/scheduler/dispatcher.go:266-278 | and leave a run running with a dead owner and no mark to recover it by |
| `DispatchCounterexamples.DeathOfTheRecovererLeavesZombie` | internal/scheduler/dispatcher.go:150-159 | the same when the recovering process dies before it has failed the run |
| `DispatchCounterexamples.CancelingInTheQueueKeepsTheItem` | internal/scheduler/dispatcher.go:213-219 | a run canceled while it waits, with nobody past the entry, is reached: its item is never deleted |
| `Dispatcher.UndisturbedRun` | internal/scheduler/dispatcher.go:212-279 | the goroutine of the machine, left alone, ends with the run row and the queue operation that the code is specified by |
| `Dispatcher.FailureOutcome` | internal/scheduler/dispatcher.go:234-279 | one failure: back in the queue with the delay doubled from attempt to attempt, or on the last attempt failed with one alert and no item |
| `Dispatcher.FirstBackoff` | internal/scheduler/dispatcher.go:269-278 | the first retry waits BackoffBase |
| `Dispatcher.BackoffDoubles` | internal/scheduler/dispatcher.go:269-278 | and each further one, short of the last attempt, waits twice as long as the one before |
| `Dispatcher.AttemptOutcome` | internal/scheduler/dispatcher.go:212-279 | one claim undisturbed: given back at once unless the run is queued; ended by a success; failed or queued again by a failure |
| `DispatchGuarantees.OneOfTwoStarts` | internal/infrastructure/postgres/runs.go:59-102 | check and write are one: of two goroutines that claimed one run only the first to write starts it, exactly when it was queued, and the second is refused and releases the item |
| `Dispatcher.Dispatcher.Falhar` | internal/scheduler/dispatcher.go:234-279 | leaves run and item as the machine does from the same point |
| `Dispatcher.Dispatcher.Processar` | internal/scheduler/dispatcher.go:212-231 | leaves run and item as the machine does, for either outcome of the execution |
| `Dispatcher.Dispatcher.CicloDeClaim` | internal/scheduler/dispatcher.go:179-210 | claims only as many rows as there are free places, so never holds more than MaxConcorrente |
| `Dispatcher.Dispatcher.RecuperarOrfaos` | internal/scheduler/dispatcher.go:150-159 | every item claimed too long ago is left as one failure leaves it, every other item and run untouched |
| `Dispatcher.OrphanOutcome` | internal/scheduler/dispatcher.go:150-159 | what a recovered item and its run are left as |
| `Order.Niveis` | internal/graph/order.go:16-63 | succeeds exactly on acyclic graphs; each node appears once, on the level that is the length of the longest path to it; every edge goes to a later level |
| `Order.ProximoNivel` | internal/graph/order.go:42-54 | the next level is exactly the nodes whose last predecessor is in the current one |
| `Graph.LevelIsLongestPath` | internal/graph/order.go:36-55 | a node with a predecessor on the level below lies at the end of a path as long as its level, and no path to it is longer |
| `Graph.LevelIsUnique` | internal/graph/order.go:10-15 | two such levellings put each node on the same level |
| `Graph.PathEdges` | internal/graph/order.go:36-55 | a path goes along edges of the file, step by step |
| `Graph.ValidGraphIff` | internal/domain/workflow/workflow.go:211-251 | the graphs spoken of: distinct ids, and edges between declared nodes |
| `Graph.EveryNodePlaced` | internal/graph/order.go:10-55 | every node stands somewhere in a levelling |
| `Graph.PlacesMean` | internal/graph/order.go:10-55 | in a levelling every node has one place, every edge goes to a later level, and above the first level each node has an edge from the level just below |
| `Graph.StuckSetHasCycle` | internal/graph/order.go:57-61 | nodes left over, each with a predecessor among them, contain a cycle |
| `FindCycle.Busca.Visitar` | internal/domain/workflow/workflow.go:378-402 | finds a cycle through the current path, or finishes the node and adds it after everything it reaches |
| `FindCycle.EncontrarCiclo` | internal/domain/workflow/workflow.go:362-410 | finds nothing exactly on acyclic graphs, and what it returns is a cycle of the graph |
| `FindCycle.ValidarEOrdenar` | internal/domain/workflow/workflow.go:290-293 | validation and sort accept the same graphs |
| `Graph.FinishOrderIsAcyclic` | internal/domain/workflow/workflow.go:399-409 | an order in which every node finishes after its successors excludes cycles |
| `Runner.StepKeepsInv` | internal/application/execution/runner.go:121-235 | every step of any number of runs on one channel keeps levels closed and slots counted |
| `RunnerGuarantees.SlotsAreAttempts` | internal/application/execution/runner.go:177-190 | the slots taken are exactly the attempts in progress, none is held in a back-off, and there are at most as many as the capacity |
| `RunnerGuarantees.DependenciesFirst` | internal/application/execution/runner.go:131-135 | a node starts only after everything it depends on, however indirectly, succeeded |
| `RunnerGuarantees.NothingStartsAfterFailure` | internal/application/execution/runner.go:118-135 | once a node has failed, no node of a later level ever starts |
| `RunnerGuarantees.Outcome` | internal/application/execution/runner.go:139-165 | a run succeeds exactly when all nodes did; a failed run has an outcome for every node of the failing level and nothing above it begun |
| `RunnerAttempts.OutcomeOfAttempts` | internal/application/execution/runner.go:171-216 | a node succeeds exactly when an attempt at it did; in a run not canceled it fails exactly when all its attempts failed, and until then waits out the back-off, or for a slot, or tries again |
| `RunnerAttempts.FailureUsedItsAttempts` | internal/application/execution/runner.go:139-216 | a run that was not canceled fails only over a node that used all its attempts |
| `RunnerAttempts.SuccessAttemptedAll` | internal/application/execution/runner.go:139-216 | a run succeeds only when every node had an attempt that ended well |
| `RunnerWitness.SucceedsAtTheSecondAttempt` | internal/application/execution/runner.go:171-216 | such a run is reached: an attempt fails, the node waits out the back-off, and the run succeeds |
| `RunnerGuarantees.Progress` | internal/application/execution/runner.go:224-235 | while a run is unfinished some step is enabled: a full channel has an attempt behind it that can end |
| `RunnerGuarantees.SchedulesAreFinite` | internal/application/execution/runner.go:171-216 | no schedule is longer than the weight it starts with, so all runs end |
| `Schedule.SlotsEntreExact` | internal/domain/schedule/schedule.go:118-131 | the slots listed are exactly the firings after the mark up to now, ascending |
| `Schedule.SlotsTodos` | internal/domain/schedule/schedule.go:118-132 | with catch-up: the first `limite` firings due, and truncated only if that many were found |
| `Schedule.SlotRecente` | internal/domain/schedule/schedule.go:102-116 | without catch-up: the latest firing due, or the 500 000th |
| `Scheduler.EverySlotPassedHasItsRun` | internal/scheduler/scheduler.go:103-169 | however often the scheduler dies, a slot up to the mark has its scheduled run exactly when it lies after the moment the schedule was first seen |
| `Scheduler.MarkNeverMovesBack` | internal/infrastructure/postgres/schedules.go:187-194 | a step moves the mark by one slot at most, and only past a slot whose run exists |
| `Scheduler.MarkOnlyAdvances` | internal/infrastructure/postgres/schedules.go:187-194 | over a whole run, restarts included, the mark never moves back |
| `Scheduler.StrandedIff` | internal/scheduler/scheduler.go:177-203 | in every run of the scheduler: a run that never was in the queue is stranded exactly when a crash once fell between its two inserts and it was not canceled |
| `Scheduler.StrandedForever` | internal/scheduler/scheduler.go:193-195 | such a run is never queued again, because the collision is taken as done; at most it is canceled |
| `Scheduler.CrashStrandsIff` | internal/scheduler/scheduler.go:183-202 | a crash leaves the slot being made without a queue item exactly when it falls between the two inserts and the run was not canceled there |
| `SchedulerWitness.ScheduleExists` | internal/scheduler/scheduler.go:181 | schedules as these guarantees ask for exist, for every slug |
| `SchedulerWitness.SlotMadeAcrossACrash` | internal/scheduler/scheduler.go:103-203 | a slot is made across a crash: the restart collides on the key and moves the mark past it |
| `SchedulerWitness.SlotStrandedByACrash` | internal/scheduler/scheduler.go:183-202 | a stranded slot is reached |
| `SchedulerCode.Agendador.Materializar` | internal/scheduler/scheduler.go:103-169 | one undisturbed cycle makes and queues the runs of exactly the slots due, skips those that exist, and moves the mark to the last; the first cycle only plants it |
| `SchedulerCode.SlotsOfACycle` | internal/scheduler/scheduler.go:130-160 | the slots of one cycle: due, ascending, at most the limit, and none left out that comes before one taken |
| `SchedulerCode.MadeRunByRun` | internal/scheduler/scheduler.go:177-203 | what making slots does run by run: old runs untouched, new ones queued under the key of a slot, each slot with its run |
| `SchedulerCode.Agendador.Backfill` | internal/scheduler/scheduler.go:294-313 | makes exactly the firings in the closed interval, each once, ends, and leaves the mark alone |
| `SchedulerCode.MadeTwiceIsMadeOnce` | internal/scheduler/scheduler.go:177-203 | slots made in two rounds are made as in one, and a round over slots already made changes neither runs nor queue |
| `Many.StepKeepsInv` | sdk/from/many.go:168-256 | every step of feeder, workers and collector keeps the account of what was read and delivered of each source |
| `Many.GivesUp` | sdk/from/many.go:181-202 | a worker that gives up in a source is gone, one whose source did not open goes on |
| `ManyGuarantees.FanOutIsComplete` | sdk/from/many.go:228-256 | with ContinueOnError, under every schedule: the multiset union of each source's records before its first error, order kept within a source, each failing source recorded once |
| `ManyEvents.EveryRecordBeforeTheError` | sdk/from/many.go:168-256 | on the events themselves: of each source exactly the records before its first error, in order and as often as they stand there; recorded as failed, once, exactly when there is one |
| `ManyEvents.DeliveredFrom` | sdk/from/many.go:228-256 | what was delivered from one source, as a filter of all that was delivered |
| `ManyEvents.UnopenedIsRecorded` | sdk/from/many.go:179-190 | a source that does not open delivers nothing and is recorded, once |
| `ManyGuarantees.AbortsIffSomeSourceFails` | sdk/from/many.go:229-241 | with AbortOnError: aborted exactly when some source fails, otherwise complete |
| `ManyEvents.AbortsOnEvents` | sdk/from/many.go:229-241 | on the events: exactly when a source does not open or has an error among them |
| `ManyGuarantees.DeliveredIsAlwaysAPrefix` | sdk/from/many.go:168-256 | at every moment, after aborts and early stops too, what came from a source is a prefix of its records |
| `ManyEvents.FirstRecordsOnly` | sdk/from/many.go:168-256 | on the events: always the first records of the source, none behind an error |
| `ManyGuarantees.NothingAfterTheEnd` | sdk/from/many.go:231-262 | after an abort or stop nothing more is delivered or recorded |
| `ManyEvents.StopsWhenTold` | sdk/from/many.go:251-262 | after the consumer says it wants no more nothing more is delivered or recorded |
| `ManyGuarantees.AllFailedIff` | sdk/from/many.go:291-296 | the final error is raised exactly when every source failed before its first record |
| `ManyEvents.AllFailedOnEvents` | sdk/from/many.go:291-296 | on the events: exactly when every source does not open or begins with an error |
| `ManyGuarantees.OneWorkerConcatenates` | sdk/from/many.go:37-75 | one worker delivers the plain concatenation of the sources, or a prefix of it |
| `ManyEvents.OneWorkerOneByOne` | sdk/from/many.go:37-75 | with one worker the sources come one after the other |
| `ManyGuarantees.EndsTogether` | sdk/from/many.go:258-262 | some goroutine can move until feeder, workers and collector have all ended, and then none can |
| `ManyGuarantees.SchedulesAreFinite` | sdk/from/many.go:168-262 | no schedule goes on for ever |
| `BatchLoad.LoadEmLevas` | sdk/sdk.go:240-293 | writes the planned batches up to the first refused one, with summed counters; a read failure drops what did not fill a batch |
| `BatchLoad.LoadInteiro` | sdk/sdk.go:158-231 | one write of all the records, and none at all after a read failure or for an empty stream |
| `BatchLoad.LevasPartition` | sdk/sdk.go:263-276 | the batches put together are the stream; all but the last have FlushEvery records and none is empty |
| `BatchLoad.BatchesAreThePrefix` | sdk/sdk.go:240-293 | whatever fails, the batches are a prefix of the records; when nothing fails they are all the records, as in the single load |
| `BatchLoad.CountersAreSums` | sdk/sdk.go:300-312 | rows, ignored and bytes are sums over the answers; the table was created if any answer says so |
| `BatchLoad.OneAnswerMore` | sdk/sdk.go:300-312 | one answer more, field by field, lists of objects and refused rows included |
| `BatchLoad.BatchesInPlace` | sdk/sdk.go:240-293 | on the events: batch k holds the records from k times FlushEvery on, and is full unless it reaches the last |
| `BatchLoad.LoadEnds` | sdk/sdk.go:240-293 | where the load stops: at the first refused write, else after the full batches when the reading failed, else after all records |
| `Merge.MergeAgainIff` | sdk/load/merge_sql.go:114-124 | merging a batch again changes nothing exactly when every row of it has an id |
| `Merge.MergedRows` | sdk/load/merge_sql.go:106-124 | the merged table row by row: a row of the batch is added as often as it stands there, unless the table had a row with its id |
| `Merge.DistinctIdsIff` | sdk/load/merge_sql.go:114-124 | rows with distinct ids: no two places with one id |
| `Merge.InsertedIsGrowth` | sdk/load/dedup.go:88-110 | the inserted count is what the table grew by |
| `Merge.SplitIff` | sdk/load/merge_sql.go:114-124 | two batches leave what one batch of both would exactly when no new id stands in both |
| `Merge.BatchesMergeAsOne` | sdk/load/merge_sql.go:114-124 | rows with distinct ids may be merged in any batches: same rows, and the counts add up |
| `Merge.RerunsAreHarmless` | sdk/load/dedup.go:12-23 | for distinct ids, after any number of runs that stopped anywhere a full run leaves the rows of one undisturbed run, and a further run inserts nothing |
| `Merge.RunsAreBatches` | sdk/load/dedup.go:12-23 | runs one after the other are their batches one after the other |
| `Merge.PlainLoadIsMergeIntoEmpty` | sdk/load/dedup.go:115-123 | inserting into a new table without MERGE is merging into an empty one |
| `MergeCode.Loader.LoadWithMerge` | sdk/load/dedup.go:24-124 | on success the merged table with inserted and ignored adding up, inserted the growth of the table when the service reports it; on failure the table as it was, unless the MERGE itself was lost |
| `MergeCode.Reconcile` | sdk/load/merge_sql.go:32-71 | accepted exactly when every staged column exists in the destination with a compatible type and there is one; columns in destination order |
| `MergeCode.ServesIff` | sdk/load/merge_sql.go:48-71 | a staged column fits a destination column of its type, and an integer a FLOAT |
| `MergeCode.ReconcileNomes` | sdk/internal/core/reconcile.go:28-61 | refused with exactly the surplus columns, sorted, or because there is none in common |
| `MergeCode.FiltraFilters` | sdk/internal/core/reconcile.go:28-61 | the lists of columns keep order and repetitions |
| `MergeCode.InsertedWhole` | sdk/load/merge_sql.go:106-124 | under accepted columns a row is inserted whole, each value under its name |
| `MergeCode.SchemaFitsItself` | sdk/load/dedup.go:29-50 | a staging table with the destination's schema is always accepted |
| `Decimal.ItoaRoundTrip` | sdk/extract/extract.go:788-797 | a number written into a URL is read back |
| `Decimal.AtoiReads` | sdk/extract/extract.go:788-797 | what is read as a number: a sign or none, then decimal digits, of 64 bits |
| `Pagination.Fetch` | sdk/extract/extract.go:234-273 | the requests form a chain of next pages, at most MaxPages, no next URL twice; the rows are those of the pages in order; the ending is the one that chain calls for |
| `Pagination.OneStrategy` | sdk/extract/extract.go:428-463 | at most one strategy, and no option without its strategy |
| `Pagination.NextRequest` | sdk/extract/extract.go:384-424 | the next request by link, cursor, page number or offset, and that nothing else of the URL changes |
| `Pagination.NextNumberWritten` | sdk/extract/extract.go:403-424 | the number written is the answered one plus one, or plus the offset step |
| `Pagination.DrainPage` | sdk/extract/extract.go:332-376 | yields the rows in order until the consumer stops |
| `PaginationGuarantees.WalkIsDetermined` | sdk/extract/extract.go:234-273 | requests, rows and ending of a walk are determined by source and server |
| `PaginationGuarantees.OnlyTheFirstPageRepeats` | sdk/extract/extract.go:229-265 | only the first URL can be asked for again, and once |
| `PaginationGuarantees.FirstPageRepeatsIff` | sdk/extract/extract.go:229-265 | and it is asked for again exactly when a page fetched before the limit leads back to it |
| `PaginationGuarantees.FirstPageMayRepeat` | sdk/extract/extract.go:229-265 | a page that links to itself is read twice |
| `NumberedPages.FirstNumber` | sdk/extract/extract.go:509-523 | without a number in the URL the walk starts at FirstPage, or at 1 when that is zero |
| `NumberedPages.WalkByNumber` | sdk/extract/extract.go:388-424 | against a server of numbered content a walk is its numbers: from the first on, each with rows and followed by the next, ending at the first without rows or at MaxPages, and no URL comes up again |
| `NumberedPages.PageServerExists` | sdk/extract/extract.go:403-409 | servers of numbered pages exist for every numbering and collection |
| `NumberedPages.SliceServerExists` | sdk/extract/extract.go:411-422 | so do servers of slices of a list |
| `NumberedPages.PageKeyReadsTheCollection` | sdk/extract/extract.go:403-409 | PageKey reads the pages from the first number on, in order, each once, up to MaxPages of them |
| `NumberedPages.PageKeyReadsAllIff` | sdk/extract/extract.go:403-409 | so the whole collection exactly when the first number is the server's first and MaxPages reaches the number of pages |
| `NumberedPages.StartingOutsideReadsNothing` | sdk/extract/extract.go:403-409 | a first number outside the server's pages reads nothing |
| `NumberedPages.OffsetKeyReadsTheList` | sdk/extract/extract.go:411-422 | OffsetKey reads the list from its start in order, each row once, exactly as far as the lengths of MaxPages pages reach, with PageSize zero and any page lengths or with the server's page length; so all of it exactly when they reach its end |
| `NumberedPages.EqualPagesReadAllIff` | sdk/extract/extract.go:411-422 | with pages of one length: all of it exactly when MaxPages of them reach its end |
| `NumberedPages.PageSizeMustMatchIff` | sdk/extract/extract.go:411-422 | with a fixed page length a finished walk read the list exactly when PageSize is that length or one page held it all |
| `Credentials.CredentialJar.SetCookies` | sdk/extract/credjar.go:45-62 | credential cookies are kept aside with their last value, the others go to the jar; the jar never holds a credential name |
| `Credentials.OutrosFilters` | sdk/extract/credjar.go:45-62 | the cookies passed on to the jar keep their order and number |
| `Credentials.CredentialJar.TomarRotacoes` | sdk/extract/credjar.go:71-81 | hands over what was reissued since the last call, once |
| `Credentials.AplicarRotacao` | sdk/extract/auth.go:84-111 | each credential cookie gets its last reissued value, the others stay, order kept |
| `Credentials.UpdateTwice` | sdk/extract/auth.go:84-111 | applying two rounds of reissued values is applying the later of each |
| `Credentials.UltimoIsLast` | sdk/extract/credjar.go:47-55 | the value kept is that of the last cookie with the name |
| `Credentials.Walk` | sdk/extract/extract.go:234-268 | each page is asked with the last value of every credential cookie reissued before it |
| `Credentials.HeaderBeforePage` | sdk/extract/extract.go:234-268 | cookie by cookie: the value of the last cookie with the name set by any attempt at an earlier page |
| `Credentials.LastSetExists` | sdk/extract/extract.go:234-268 | and there is one unless no earlier page set the name |
| `Credentials.Renew` | sdk/extract/auth.go:198-250 | renewed values hold from then on; they are stored only if no configured expiry check failed, and a failed check ends the run |
| `JsonText.AppendJSONString` | sdk/internal/jsontext/jsontext.go:25-77 | run by run, the text with quotes, controls and invalid bytes replaced one by one |
| `JsonText.ReadsWritten` | sdk/internal/jsontext/jsontext.go:25-77 | a reader of section 7 of RFC 8259 gets the text back, invalid bytes replaced by U+FFFD |
| `JsonText.LimpaChangesOnlyInvalid` | sdk/internal/jsontext/jsontext.go:64-73 | the replacement gives valid UTF-8 and changes exactly the texts that are not |
| `CanonicalText.OneByteWritten` | sdk/internal/jsontext/jsontext.go:25-63 | what each single byte is written as |
| `CanonicalText.LongerWritten` | sdk/internal/jsontext/jsontext.go:64-73 | longer sequences are copied, invalid bytes replaced one by one |
| `JsonText.EscapesRead` | sdk/internal/jsontext/jsontext.go:25-63 | the escapes the reader takes |
| `ByteOrder.EncodeIsOneRune` | sdk/internal/jsontext/jsontext.go:64-73 | every code point is one valid sequence |
| `ByteOrder.OneRuneIsEncoding` | sdk/internal/jsontext/jsontext.go:64-73 | and every valid sequence one code point |
| `CanonicalJson.JSONCanonico` | sdk/pycompat/canonico.go:41-43 | the canonical text, or the path of the first value that cannot be written |
| `CanonicalJson.EscreverObjeto` | sdk/pycompat/canonico.go:62-83 | keys in sorted order whatever order the map yields them in, values recursively; a refused value is reported under its key |
| `CanonicalText.ObjectText` | sdk/pycompat/canonico.go:62-83 | an object is its pairs in key order, a comma between each two and nothing else |
| `CanonicalText.ListText` | sdk/pycompat/canonico.go:85-96 | a list is its elements in order, a comma between each two |
| `CanonicalText.LeafText` | sdk/pycompat/canonico.go:41-60 | how nil, booleans, texts and numbers are written |
| `CanonicalText.NumberAcceptedIff` | sdk/pycompat/canonico.go:98-116 | which numbers are written |
| `CanonicalJson.RefusedIff` | sdk/pycompat/canonico.go:98-116 | refused exactly when some leaf cannot be written, and the path in the error leads to such a leaf |
| `CanonicalText.FirstKeyReported` | sdk/pycompat/canonico.go:62-83 | of several such leaves the one under the first key in order is reported |
| `CanonicalText.FirstItemReported` | sdk/pycompat/canonico.go:85-96 | of several in a list, the first |
| `CanonicalText.PathSteps` | sdk/pycompat/canonico.go:62-116 | a path leads step by step to a leaf that cannot be written |
| `CanonicalRoundTrip.RoundTrip` | sdk/pycompat/canonico.go:41-116 | a compact reader recovers the value, so the same value exactly when all its strings are UTF-8 |
| `CanonicalRoundTrip.PromiseMeans` | sdk/pycompat/canonico.go:98-116 | what the round trip takes for granted: of numbers that were read, that they are runs of number characters and no JSON word |
| `CanonicalRoundTrip.TextIdentifiesRecord` | sdk/pycompat/canonico.go:41-116 | for UTF-8 records, equal texts exactly for equal records |
| `KeyOrder.AscendingIsUnique` | sdk/pycompat/canonico.go:62-70 | a set of keys has one sorted list, so the output does not depend on iteration order |
| `KeyOrder.OrdenaAscends` | sdk/pycompat/canonico.go:66-70 | sorting keeps the keys and makes them ascend |
| `KeyOrder.AntesIff` | sdk/pycompat/canonico.go:66-70 | the order is byte by byte: shorter first, or the smaller byte at the first difference |
| `ByteOrder.ByteOrderIsCodePointOrder` | sdk/pycompat/canonico.go:62-70 | sorting by bytes is sorting by code points, as Python sorts |
| `ByteOrder.EncodedTexts` | sdk/pycompat/canonico.go:62-70 | the texts spoken of: code points outside the surrogates, each encoded in its place |
| `Csv.Row` | sdk/to/files.go:322-334 | the cells with commas between them, quoted when needed, and a line feed |
| `Csv.WrittenPlainIff` | sdk/to/files.go:322-334 | a cell is written as it is exactly when it has no quote, comma or line feed, and else between quotes |
| `Csv.TrimmedIs` | sdk/to/files.go:336-350 | of a value that is neither text nor nil the quotes at both ends are taken off, and nothing else |
| `Csv.CellText` | sdk/to/files.go:336-350 | what a cell holds of nil, of a text and of any other value |
| `Csv.RoundTripIff` | sdk/to/files.go:322-334 | reading by section 2 of RFC 4180 gives back the rows exactly when every row has a cell and a CR stands only in cells quoted for another reason |
| `Csv.EncodeCSV` | sdk/to/files.go:259-290 | refuses the first record that is not an object, else the header of all fields, sorted, and one row for each record |
| `Csv.RecordsLineUp` | sdk/to/files.go:259-290 | read back, each field stands under its own name, and absent fields are empty cells |
| `IdentityCode.KeyWith` | sdk/mapping.go:92-119 | the key of the fields in the order given, or the first field that is missing or refused |
| `IdentityCode.SameKeySameTexts` | sdk/mapping.go:32-71 | two records share a key exactly when all field texts agree, if only the last may contain the separator |
| `Identity.JoinIsInjective` | sdk/mapping.go:32-71 | lists of texts with only the last containing the separator have different keys |
| `Identity.JoinIs` | sdk/mapping.go:32-71 | the texts with one separator between each two |
| `Identity.PairsCollideIff` | sdk/mapping.go:32-71 | two pairs share a key exactly when the separator moves across |
| `IdentityCode.Registro.IngestionId` | sdk/ingestion.go:105-153 | written exactly when there are four fields, all with a text, the source key not empty, and no id yet; then the hash of the four texts, and otherwise the record unchanged |
| `Identity.IdTextIsInjective` | sdk/ingestion.go:126-153 | the four parts can be read back even when the source key contains the separator |
| `Identity.HashedText` | sdk/ingestion.go:126-153 | the text that is hashed |
| `Identity.ChaveIsInjective` | internal/scheduler/scheduler.go:181 | slug, trigger and slot text are recoverable from the idempotency key, even for slugs with colons and years of any length |
| `LogWindow.Janela.Escrever` | internal/application/execution/janela.go:33-53 | keeps the window: head, last diverted lines and counters of everything written so far |
| `LogWindow.Janela.String` | internal/application/execution/janela.go:59-71 | head and tail, with a mark naming what was left out; the whole text in order when nothing was and no line came back |
| `LogWindow.Accounting` | internal/application/execution/janela.go:33-53 | head, tail and discarded bytes add up to the bytes written; head within its quarter, tail within its share or one line; head and diverted lines are the lines dealt in two, the tail ends the diverted |
| `LogWindow.WhereALineGoes` | internal/application/execution/janela.go:33-53 | a line goes to the head while the head with it keeps to 32 KB, and past it otherwise |
| `LogWindow.DealtIsAPartition` | internal/application/execution/janela.go:33-53 | lines dealt in two are all there, each once |
| `LogWindow.MarkText` | internal/application/execution/janela.go:59-71 | the mark that names what was left out |
| `LogWindow.InOrderIff` | internal/application/execution/janela.go:33-53 | lines keep their order exactly when no line after the first that does not fit still fits the head |
| `LogWindow.ShortLineJumpsAhead` | internal/application/execution/janela.go:33-53 | a line too long for the head, then a short one: shown the other way round |

## Left out

- HTTP, BigQuery, object stores, Kubernetes and local executors, Slack: external effects; their outcomes are inputs or nondeterministic steps.
- The contents of stored errors and alerts, logging, statistics, previews and durations.
- Dispatch.Aplica: takes each SQL statement as one step, with the isolation the code asks for (`FOR UPDATE`, `SKIP LOCKED`, and the claim's conditions checked again on the locked row); the alert step counts a notification even when no notifier is configured.
- Dispatch.Atraso: does not model 64-bit overflow of the back-off, which needs more than sixty attempts.
- Queue.Fila.Claim: gives the claimed rows in priority order; SQL's RETURNING promises no order, and nothing depends on it.
- Queue size and the other monitoring queries: reads only.
- Statuses that are not one of the seven constants: the database column holds only those.
- TaskRun's own transition: the same table, used for display.
- Order.Niveis: for graphs whose ids are distinct and whose edges join known nodes, which Validate checks first; Validate's other checks are single-branch.
- Runner: node environments, image selection and persistence of task rows; only the fact that they cannot stop a run is used.
- Schedule: cron parsing and time zones; a cron is a function to the next firing, strictly later. A cron that never fires again is not modelled.
- Scheduler: database errors inside a cycle, except a refused status write (they end the cycle like a crash does), and manual triggering, which has the same insert sequence without a mark.
- DispatchConditions.ErrorLosesIff: a failed call is one that had no effect; a statement that took effect although its answer was lost is not modelled.
- Many: cancellation of the parent context, which ends a reading silently; Discover, counters and previews.
- ByteOrder.ByteOrderIsCodePointOrder: about UTF-8 texts; for other Go strings Python has no counterpart.
- CanonicalJson.EhNumero: takes the verdict of strconv.ParseFloat as an input; the round trip assumes only what its accepted texts look like (CanonicalRoundTrip.Promete). Rendering of floating-point numbers is not modelled.
- CanonicalRoundTrip.InvalidBytesCollide: shows one pair of texts; TextIdentifiesRecord is the general statement.
- Csv: characters other than CR that section 2 of RFC 4180 does not list as text are accepted by the reader; other Go values than strings and nil carry the text encoding/json gives them.
- NDJSON, compression, file names and partitions of the file writer.
- Merge.Mescla: the semantics of BigQuery's MERGE, taken from its use; text of the SQL statement and quoting of identifiers are not modelled.
- Pagination: syntax errors in URLs, repeated query keys, retries within one page (only their outcome), decoding of the body, and MoreKey, which no driver passes on. Numbers in URLs stay below 64 bits by assumption.
- Credentials: values are texts of the Cookie header already parsed; login, applying the secret and matching of cookies to paths are not modelled. Requests repeated for one page carry that page's header.
- UUID hashing, URL redaction and the login gate.
- Web pages, charts, site generator, command line and configuration.
- Most transform helpers and option checks: single-branch.
