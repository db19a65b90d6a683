# Verification of TestGen's job engine, schedulers and test execution

TestGen runs data-quality jobs. A scheduler process turns cron schedules into rows of a job
queue, polls the queue, starts one subprocess per job and watches it; a job compiles tests into
SQL, runs them and decodes the answers; freshness tests learn an update schedule and count
business time. This project models the parts of that machinery in which many actors, long runs
or subtle arithmetic meet, and proves what they promise.

* **Job queue** — `JobExecutions`, `JobRegistry`, `PollLoop`, `ExecJob`: the row, its guarded
  status UPDATE, claiming, callbacks, the poll loop, the restart sweep and the body of a
  subprocess, in the imperative form of the program. `JobProtocol`, `JobProtocolInvariant`,
  `JobProtocolRuns`: the same rows under any interleaving of submitters, cancellers, schedulers,
  subprocesses and monitor threads, with subprocess death and scheduler crash at any point. The
  time between starting a subprocess and registering it is a step of its own.
  `JobProtocolOutcomes`: which outcome follows from which end of a handler, and that every outcome
  has its cause. `JobProtocolLife`: from every reachable state the steps lead a job to each of its
  ends. `JobProtocolCancel`: exactly when a job is CANCELED under its running handler.
* **Cron scheduler** — `CronScheduler`, `CronRuns`: the merge of unbounded cron streams under the
  SKIP, ONCE and ALL policies and whole runs with reloads, failed loads and abandoned waits.
  `CronThread`, `CronProgress`: the run thread, what it starts, and that it gets on.
  `SchedulerShutdown`: the run thread against concurrent shutdown and reload.
* **Business time** — `BusinessTime`, `BusinessAdvance`: counting excluded time day by day and
  its inverse. `Percentiles`, `FreshnessThresholds`, `FreshnessSchedule`, `FreshnessDeadline`:
  gap thresholds, schedule inference and the next deadline.
* **Test execution** — `TestDefs`, `SqlExpressions`, `GreedyBatching`, `ChunkQueries`, `CatGrouping`,
  `CatResults`, `CatExecution`: column-aggregate tests are compiled into few queries, run in any order,
  decoded, and rerun singly where a query failed. `QueryExecution`: one query per test, whose
  answers `ResultTable` writes by position under one list of columns.
* **SQL templates** — `SqlConditionals`, `SqlDirectives`, `SqlParams`: conditional lines and ordered
  substitution.
  `SqlCompleteness`: exactly when no supplied placeholder is left. `SqlTemplates`: both together.
* **Validation** — `ColumnLists`, `TestValidation`: checking tests through an inverted index.
  `TestReferences`: what a test must find in the target, by its own fields.

`Wrappers`, `FlatMaps` and `Sorting` hold shared datatypes and laws of sequences. Database access, the
clock, completion orders, failures of queries and handlers, and what others do meanwhile are
parameters or events; every statement is for all of them.

Where the code and its documentation differ, the model follows the code: a daily window that
wraps around midnight makes the count of excluded time treat every day as excluded, although the
check of a single timestamp lets it wrap, and the two also differ in the minutes in which a window
opens and closes (`BusinessTime.CheckAndCountDisagree`). Five other places where a natural
expectation fails are results of their own, each with the exact condition:

* A query that fails with an empty error text loses its tests; every test gets its one row if and
  only if there is no such failure (`CatExecution.OneRowPerTestIffNoSilentFailure`).
* The rows of all query tests of a run are written under the columns of the answer that completes
  last. Each row is written under its own columns for every completion order if and only if all
  answers with rows name the same list (`QueryExecution.OwnColumnsIffOneList`); what is then
  stored has its own such condition (`QueryExecution.StoredAsOwnIffInterchangeable`), and so has
  being independent of the order (`QueryExecution.QueryRowsAnyOrderIff`). A freshness test beside a
  custom test meets neither: one of them has its measure stored as its signal
  (`QueryExecution.FreshnessAndCustomSwap`).
* Replacing parameters can leave a supplied placeholder behind. No text is left with one if and
  only if no value can help to spell the placeholder of its own or an earlier key
  (`SqlCompleteness.EveryTextCompleteIffClear`); an empty value always can. On texts whose braces
  all belong to placeholders the condition is the order of the keys
  (`SqlCompleteness.CompleteIffOrdered`).
* The look-ahead comma split is quote-aware if and only if the quotes are balanced or there is no
  comma (`ColumnLists.LookaheadIsQuoteAware`).
* A job can be CANCELED while its handler is running. The three steps that do it are
  `JobProtocolCancel.CanceledUnderHandlerIff`, a poller does it exactly when it does not hold the
  process (`JobProtocolCancel.CanceledIffNotHeld`), and with one scheduler and no failures the
  registration window is the only cause (`JobProtocolCancel.OnlyTheWindow`).

Check everything with `dafny verify dfyconfig.toml`.

## Model

| member | source | states |
|---|---|---|
| JobExecutions.BuildCases | testgen/common/models/job_execution.py:154-169 | the CASE expression built from the candidates, earlier ones consuming their source statuses, picks exactly the first target the current status allows, and the row filter admits exactly the statuses that have one |
| JobExecutions.FirstAllowedIsAllowed | testgen/common/models/job_execution.py:25-31 | a chosen target is one the transition map allows; none is chosen exactly when no candidate is allowed |
| JobExecutions.TransitionsDescend | testgen/common/models/job_execution.py:25-31 | every successful transition but the repeated cancel request strictly lowers the rank; terminal rows never change; a cancel request only becomes CANCELED |
| JobExecutions.TransitionTable | testgen/common/models/job_execution.py:177-191 | which statuses each of the five transitions applies to and exactly which columns it then writes; any other row stays as it is |
| JobExecutions.JobTable.ClaimActionable | testgen/common/models/job_execution.py:77-102 | takes the oldest unlocked pending or cancel-requested rows up to the limit, claims exactly the pending ones and touches no other row |
| JobExecutions.JobExecution.Update | testgen/common/models/job_execution.py:141-175 | one atomic guarded UPDATE decided by the stored status, not by the copy; a refused one changes nothing; the copy is refreshed only on success |
| JobRegistry.RunFinalCallbacks | testgen/commands/job_registry.py:45-55 | every callback is attempted once and in order, one that raises stops none of the others, and a score update is submitted exactly for a completed run of a kind that asks for one if that callback does not raise |
| JobRegistry.ScoredKinds | testgen/commands/job_registry.py:104-108 | profiling, tests and monitors are each notified of in their own way, first; a score update is asked for after profiling and tests only |
| ExecJob.Run | testgen/commands/exec_job.py:25-68 | the whole lifecycle under any change others make while the handler runs: the handler runs only from CLAIMED, and callbacks are attempted exactly when this process's own UPDATE settled the row |
| ExecJob.UndisturbedRunSettles | testgen/commands/exec_job.py:43-64 | left alone, a run ends COMPLETED, or ERROR with the message raised, with start and end stamped, settled by itself |
| ExecJob.UnrunnableJob | testgen/commands/exec_job.py:38-45 | a job of an unknown kind is failed if it still can be, a known one that is no longer claimed is left as it is; no callbacks follow |
| ExecJob.CancelWhileRunning | testgen/common/models/job_execution.py:189-191 | canceled while running: a returning handler leaves the request standing without callbacks, a raising one makes the row CANCELED rather than ERROR |
| PollLoop.CliScheduler.Handle | testgen/scheduler/cli_scheduler.py:109-154 | one claimed or cancel-requested row, whatever subprocesses are known: dispatched, failed as unknown without callbacks, its process signaled, or canceled and its callbacks run |
| PollLoop.CliScheduler.PollOnce | testgen/scheduler/cli_scheduler.py:101-126 | one poll takes the oldest rows nobody has locked up to the batch size and does with each, in order and once, what its status and the known subprocesses call for |
| PollLoop.PollActs | testgen/scheduler/cli_scheduler.py:109-154 | row by row, in terms of the rows before the poll: a subprocess exactly for a pending row of a known kind, a signal exactly for a request whose process is known, callbacks exactly for one whose process is not |
| PollLoop.PolledRow | testgen/scheduler/cli_scheduler.py:128-145 | exactly what a poll writes to a pending or cancel-requested row, for a known and an unknown process |
| PollLoop.PolledRowSettles | testgen/scheduler/cli_scheduler.py:128-154 | a row taken by a poll leaves the queue |
| PollLoop.PollTakesOldest | testgen/common/models/job_execution.py:85-92 | after a poll the queue is exactly the rest of the queue before it |
| PollLoop.CliScheduler.Drain | testgen/scheduler/cli_scheduler.py:97-104 | with n actionable rows exactly n / batch + 1 polls follow, no actionable row is left, exactly the pending rows of known kinds are dispatched and exactly the canceled ones called back, oldest first |
| PollLoop.StartupSweep | testgen/scheduler/cli_scheduler.py:237-243 | requests cancellation of every row that is not terminal and of no other, and counts them |
| PollLoop.Restart | testgen/scheduler/cli_scheduler.py:233-252 | after sweep and drain every left-over job is CANCELED, terminal rows are untouched, no handler was started, and callbacks ran once for each canceled job |
| JobProtocolInvariant.NextKeeps | testgen/scheduler/cli_scheduler.py:97-181 | every step of every actor keeps the invariant that ties rows, batches, subprocesses and the dictionaries of running jobs together; what the steps achieve is the subject of JobProtocolOutcomes and JobProtocolLife |
| JobProtocolInvariant.BeginKeeps | testgen/commands/exec_job.py:32-45 | the step that starts the handler keeps the invariant |
| JobProtocolInvariant.SettleKeeps | testgen/commands/exec_job.py:53-64 | the step that writes an outcome keeps it, the callbacks being owed by the process whose UPDATE succeeded |
| JobProtocolInvariant.WriteOffKeeps | testgen/scheduler/cli_scheduler.py:166-177 | the monitor's safety net keeps it |
| JobProtocolInvariant.SpawnKeeps | testgen/scheduler/cli_scheduler.py:141-153 | starting a subprocess that is not registered yet keeps it |
| JobProtocolRuns.TerminalIsFinal | testgen/common/models/job_execution.py:25-31 | over every run COMPLETED, ERROR and CANCELED are absorbing: the row and who settled it never change again |
| JobProtocolRuns.SettledByOneActor | testgen/common/models/job_execution.py:164-175 | a job is settled by exactly one actor once terminal and by none before; completed_at is set exactly then |
| JobProtocolRuns.CallbacksAtMostOnce | testgen/commands/exec_job.py:53-64 | final callbacks run in order, none twice, only by the actor whose UPDATE entered the terminal status; a process that settled its job and was not killed has run all |
| JobProtocolRuns.HandlerAtMostOnce | testgen/commands/exec_job.py:43-51 | a job gets at most one subprocess and its handler starts at most once |
| JobProtocolRuns.CancelNeverOvertaken | testgen/common/models/job_execution.py:183-184 | after a cancel request the job is CANCEL_REQUESTED or CANCELED for ever and no handler starts for it |
| JobProtocolRuns.StatusesDescend | testgen/common/models/job_execution.py:25-31 | the statuses a job goes through start at PENDING and strictly descend, at most four changes in all |
| JobProtocolRuns.FollowUpsDoNotCascade | testgen/commands/job_registry.py:87-108 | at most one score update per completed run, none from a score update, each tied to its one parent |
| JobProtocolRuns.DeregisterFindsItsEntry | testgen/scheduler/cli_scheduler.py:164-181 | a leaving monitor finds its own process in the dictionary |
| JobProtocolRuns.NothingIsForgotten | testgen/scheduler/cli_scheduler.py:156-181 | job by job: once the scheduler that claimed it is alive and idle and its monitor, if any, is done, a job is terminal or still in the queue, whatever crashed elsewhere |
| JobProtocolRuns.ExecEvolves | testgen/common/models/job_execution.py:141-175 | over any run histories only grow and what is over stays as it is |
| JobProtocolOutcomes.ReturningCompletes | testgen/commands/exec_job.py:51-57 | in every reachable state: a handler that returns makes a RUNNING job COMPLETED, stamped and settled by its own process, which goes on to the callbacks; a cancel request is left standing |
| JobProtocolOutcomes.RaisingInterrupts | testgen/commands/exec_job.py:58-64 | in every reachable state: a handler that raises makes a RUNNING job ERROR and a job asked to cancel CANCELED, with the message and by its own process |
| JobProtocolOutcomes.OtherOutcomeIsRefused | testgen/commands/exec_job.py:53-64 | after one ending of the handler the outcome of the other cannot be written |
| JobProtocolOutcomes.OutcomesHaveCauses | testgen/commands/exec_job.py:53-64 | over every run: a COMPLETED job was settled by a process whose handler returned; a job of a known kind that its process settled as ERROR or CANCELED had a handler that raised |
| JobProtocolLife.ClaimedAndSpawned | testgen/scheduler/cli_scheduler.py:101-153 | from every reachable state an idle scheduler takes a pending job of a known kind and starts one process for it |
| JobProtocolLife.MonitorIsStarted | testgen/scheduler/cli_scheduler.py:154 | the monitor thread is started and the poller goes on to the next row |
| JobProtocolLife.ProcessIsRegistered | testgen/scheduler/cli_scheduler.py:164-165 | the monitor enters its process in the dictionary of its scheduler |
| JobProtocolLife.ClaimedJobBegins | testgen/commands/exec_job.py:43-51 | the process runs the handler of a job that is still CLAIMED, stamped as started, and leaves any other alone |
| JobProtocolLife.SettledProcessFinishes | testgen/commands/exec_job.py:56-64 | a process that has settled its job runs all its callbacks and leaves cleanly; a score update follows exactly for a completed run of profiling or tests if it can be submitted |
| JobProtocolLife.MonitorReaps | testgen/scheduler/cli_scheduler.py:166-177 | a monitor changes no row after a clean exit; after a death or a failure of its own it writes off a job that is not settled, with the message, and runs all callbacks |
| JobProtocolLife.SignalAndDeregister | testgen/scheduler/cli_scheduler.py:128-181 | signaling a held process touches no row and no process; a monitor that is done removes exactly its own entry |
| JobProtocolLife.WaitingJobIsCanceled | testgen/scheduler/cli_scheduler.py:128-139 | a pending job asked to cancel ends CANCELED by the scheduler that takes it, with all callbacks and without a process |
| JobProtocolLife.UnhandledHeadIsWrittenOff | testgen/scheduler/cli_scheduler.py:120-145 | a row of an unknown kind, or one whose handling failed, is written off with the message and without callbacks, and the poller goes on |
| JobProtocolLife.FailedItemIsWrittenOff | testgen/scheduler/cli_scheduler.py:117-126 | a failure while handling a row, at whatever point, leaves it terminal and the rest of the batch in hand |
| JobProtocolLife.UnknownKindLeaves | testgen/commands/exec_job.py:38-41 | a process of an unknown kind fails its job without handler and callbacks and leaves cleanly |
| JobProtocolCancel.MissesIffNotHeld | testgen/scheduler/cli_scheduler.py:128-139 | in every reachable state a poller finds no process for a job exactly when the process belongs to another scheduler or is not registered |
| JobProtocolCancel.CanceledIffNotHeld | testgen/scheduler/cli_scheduler.py:128-139 | handling a cancel request makes the job CANCELED and leaves its process as it is exactly when the handling scheduler does not hold the process |
| JobProtocolCancel.CanceledUnderHandlerIff | testgen/scheduler/cli_scheduler.py:115-126 | over every reachable state and step a job becomes CANCELED under its running handler exactly when a request stands and the step is the cancellation of a missed process, the recovery from a failed item, or a failing monitor |
| JobProtocolCancel.OnlyTheWindow | testgen/scheduler/cli_scheduler.py:150-165 | over every run of one scheduler without failing items or monitors, such a job was looked for earlier while its handler ran and its process was started but not registered |
| JobProtocolCancel.WindowIsReachable | testgen/scheduler/cli_scheduler.py:150-165 | a handler can be running before its process is registered |
| JobProtocolCancel.CanceledWhileHandlerRuns | testgen/scheduler/cli_scheduler.py:128-139 | in every reachable state a running handler whose process an idle scheduler does not hold can be outrun: four steps make its job CANCELED while it runs on |
| CronScheduler.FirstIsNextInstant | testgen/scheduler/base.py:27-31 | the first instant at or after a time is an instant, none lies before it, and it is monotone |
| CronScheduler.SortHeadsIsStable | testgen/scheduler/base.py:86 | sorting by time keeps the order of jobs due together |
| CronScheduler.RoundTakesTheTies | testgen/scheduler/base.py:90-105 | a round moves exactly the heads tied at the minimum, and its batch holds exactly the tied jobs that start |
| CronScheduler.DropsOnlyOverdue | testgen/scheduler/base.py:93-96 | moving on skips no instant under ALL, and otherwise only instants overdue in that round |
| CronScheduler.Scheduler.LoadJobs | testgen/scheduler/base.py:71-82 | a new generator starts each job at its first instant from the base time; a failed load has no jobs |
| CronScheduler.Scheduler.NextTrigger | testgen/scheduler/base.py:93-95 | the catch-up loop ends at the first instant after the one taken that is not overdue |
| CronScheduler.Scheduler.NextRound | testgen/scheduler/base.py:84-105 | the sort, pop and append loop performs exactly one round |
| CronThread.RunThread | testgen/scheduler/base.py:117-138 | the nested loops of the run thread, over any loads, clock readings and waits, start exactly the batches with jobs of each turn, up to the first whose wait is cut short, each turn from one second past the last batch started; they go through exactly the states of the run model |
| CronThread.LoadsAreTurns | testgen/scheduler/base.py:117-119 | every load of a run is that of one of its turns, so that what holds for runs of the model holds for the run thread |
| CronThread.RunKeepsAllJobs | testgen/scheduler/base.py:117-138 | the run thread starts an ALL job listed by every turn at exactly all its instants up to one second past the last batch started |
| CronProgress.StartedUpToTheCut | testgen/scheduler/base.py:129-138 | exactly the batches with jobs before the first wait that is cut short are started; that one and what would follow are not |
| CronProgress.AllWaitsRunOut | testgen/scheduler/base.py:129-136 | if every wait of a turn runs out, all batches with jobs of its generator are started, in order |
| CronProgress.FirstWaitCutShort | testgen/scheduler/base.py:137-138 | a wait cut short at the first batch of a turn: nothing is started |
| CronProgress.TurnReachesInstant | testgen/scheduler/base.py:69-136 | progress: within as many rounds as seconds pass until then, every instant of a loaded ALL job is started, and of any other job if no round finds it overdue |
| CronProgress.RunReachesInstant | testgen/scheduler/base.py:117-138 | progress of whole runs: a turn in which n waits run out starts every instant of an ALL job up to n seconds past the base time it found that had not been started before |
| CronRuns.StartTimesIncrease | testgen/scheduler/base.py:117-138 | whatever the reloads, started batches have strictly increasing times at instants of their jobs, and no job starts twice at one instant |
| CronRuns.AllJobsMissNothing | testgen/scheduler/base.py:69-105 | an ALL job kept by every load is started at exactly all its instants from the initial base to the last started batch, over failed loads, reloads and abandoned waits |
| CronRuns.PoliciesAtOneTime | testgen/scheduler/base.py:84-105 | at one fixed time ALL starts every instant passed, SKIP exactly those not overdue, ONCE those and the first |
| CronRuns.OnlyOverdueIsDropped | testgen/scheduler/base.py:84-105 | round by round, at any times: a SKIP job starts only if not overdue in that round, every instant a round passes over was overdue in that round, and ALL passes over nothing |
| CronRuns.UnstartedWasOverdue | testgen/scheduler/base.py:93-99 | an instant passed and never started was dropped by one round and was overdue in it |
| SchedulerShutdown.NoLostShutdown | testgen/scheduler/base.py:59-61 | no interleaving, overdue batches that ignore the reload included, leaves the run thread waiting for a reload once a shutdown has returned |
| SchedulerShutdown.ThreadExitsAfterShutdown | testgen/scheduler/base.py:117-127 | the thread then exits within five of its own steps, whatever others do |
| SchedulerShutdown.EndsOnlyWhenAsked | testgen/scheduler/base.py:117-118 | without a shutdown the thread never ends |
| SchedulerShutdown.BatchIsStarted | testgen/scheduler/base.py:107-115 | a thread that is not stopped starts its batch exactly if it is overdue, or its time comes and no reload is asked for |
| SchedulerShutdown.ReloadIsHonoured | testgen/scheduler/base.py:117-138 | a waiting thread that is asked to reload loads again and clears the flag |
| SchedulerShutdown.SwappedOrderLosesTheShutdown | testgen/scheduler/base.py:59-61 | with the two events set in the other order a run exists that waits for ever |
| BusinessTime.CountExcluded | testgen/common/freshness_service.py:200-280 | the day loop equals the pointwise measure of excluded instants, for every interval, calendar and window, wrapping ones included |
| BusinessTime.WholeDay | testgen/common/freshness_service.py:173-178 | a local day counts as excluded from end to end exactly if it is a holiday, an inactive weekday or an excluded Saturday or Sunday, and otherwise all of it but its active hours |
| BusinessTime.MeasureAdds | testgen/common/freshness_service.py:239-280 | excluded time is additive over adjacent intervals |
| BusinessTime.Measure | testgen/common/freshness_service.py:200-280 | excluded time lies between zero and the length of the interval |
| BusinessTime.MoreExclusionsCountMore | testgen/common/freshness_service.py:173-183 | more excluded days or a narrower window never count less |
| BusinessTime.WeekendsOfWholeWeeks | testgen/common/freshness_service.py:173-174 | any span of 7k days, wherever it starts, has exactly 2k days of weekend |
| BusinessTime.CheckAndCountDisagree | testgen/common/freshness_service.py:146-184 | for every window: the check alone excludes what follows the opening within the opening minute, the count alone excludes what lies from the closing on within the closing minute and all of a wrapping window, and nothing else differs |
| BusinessTime.WholeMinutesDisagree | testgen/common/freshness_service.py:180-183 | for windows in whole minutes only the closing minute and wrapping windows remain |
| BusinessTime.OpeningMinuteIsExcluded | testgen/common/freshness_service.py:180-183 | a concrete window that opens at half a minute, inside which the check excludes and the count does not |
| BusinessTime.TimestampIsExcluded | testgen/common/freshness_service.py:173-184 | a single timestamp is excluded exactly on such a day or when its minute lies outside the hours, wrapping ones included |
| BusinessAdvance.AddBusiness | testgen/common/freshness_service.py:283-339 | Galois connection with the count: for every t from start on, the result is at most t exactly when n of business time has passed by t; the loop terminates for every finite holiday set |
| BusinessAdvance.EndsOnBusinessDay | testgen/common/freshness_service.py:309-335 | advancing by a positive amount ends inside, or at the end of, a day that is no holiday, no inactive weekday and no excluded weekend |
| BusinessAdvance.ClosedDayIsSkipped | testgen/common/freshness_service.py:318-325 | from the first instant of a closed day the result is that from the first instant of the next |
| BusinessAdvance.OpenDayIsTaken | testgen/common/freshness_service.py:327-332 | within an open day advancing takes exactly the time asked for |
| BusinessAdvance.ReachesIsUnique | testgen/common/freshness_service.py:283-339 | the connection determines the result: no two instants satisfy it |
| BusinessAdvance.ReachedExactly | testgen/common/freshness_service.py:291-296 | counting after advancing by n gives n |
| BusinessAdvance.CountThenAdvance | testgen/common/freshness_service.py:291-296 | advancing by the counted time leads back, up to the idle time the interval ends in |
| BusinessAdvance.AdvancesCompose | testgen/common/freshness_service.py:283-339 | advancing twice is advancing once by the sum |
| BusinessAdvance.AdvanceIsMonotone | testgen/common/freshness_service.py:283-339 | more business time from a later start never ends earlier |
| BusinessAdvance.SkipExcludedDays | testgen/common/freshness_service.py:318-325 | the bounded skip of excluded days costs no business time and never passes the next usable day |
| BusinessAdvance.ReachableIffUsableWeekday | testgen/common/freshness_service.py:314-325 | there is a result exactly when nothing is asked for or some weekday is usable |
| Percentiles.AtSeparates | testgen/common/freshness_service.py:466-467 | linear interpolation puts the values before the index at or below the percentile and the others at or above |
| Percentiles.PercentileSeparates | testgen/common/freshness_service.py:100-109 | of n values in order, those up to the share q of n - 1 are not above the q-th percentile and those from there on not below it |
| Percentiles.TenToNinetyHoldsMost | testgen/common/freshness_service.py:466-467 | at least n - 2 ceil((n-1)/10) of n values lie between their 10th and 90th percentiles |
| Percentiles.PercentilesAreOrdered | testgen/common/freshness_service.py:100-105 | a higher percentile is not lower |
| FreshnessThresholds.GetFreshnessGapThreshold | testgen/common/freshness_service.py:75-111 | gaps corrected in place, cut to the last forty, give the thresholds, or the error with the number of gaps found |
| FreshnessThresholds.ThresholdsAreOrdered | testgen/common/freshness_service.py:100-109 | lower and staleness thresholds lie between zero and the upper one, no recent gap exceeds it, and only too few gaps fail |
| FreshnessThresholds.GapIsBusinessTime | testgen/common/freshness_service.py:83-94 | a gap is the whole minutes between two updates less the excluded time between them, never negative, whether or not anything is excluded |
| FreshnessThresholds.RecentGapsAre | testgen/common/freshness_service.py:85-98 | the gaps that count are those between the last forty-one consecutive updates at most, in order |
| FreshnessThresholds.ThresholdsSeparateGaps | testgen/common/freshness_service.py:96-111 | the lower threshold separates the recent gaps at the lower percentage, the upper one at the upper percentage unless the largest gap with its factor is higher, and the staleness threshold is a factor of what separates them at the half |
| FreshnessThresholds.OldGapsAgeOut | testgen/common/freshness_service.py:96-98 | thresholds depend only on the last 41 updates |
| FreshnessSchedule.UnshiftedWindow | testgen/common/freshness_service.py:462-471 | the window shifted back by half a day holds exactly the hours whose shift lies in the range |
| FreshnessSchedule.WindowHoldsMost | testgen/common/freshness_service.py:438-473 | the detected window holds at least n - 2 ceil((n-1)/10) of its n hours, shifted or not, and its ends are hours of a day |
| FreshnessSchedule.NightWindowStaysAtNight | testgen/common/freshness_service.py:458-471 | updates that all come between 22:00 and 03:00, on both sides of midnight, give a window that holds no other hour |
| FreshnessSchedule.WindowByCounts | testgen/common/freshness_service.py:459-473 | by counts: night updates of which more than a quarter come from ten on and more than a quarter before three give a window without any hour in between; with no more than a quarter on either side the window is that of the plain percentiles and never wraps |
| FreshnessSchedule.ComputeScheduleConfidence | testgen/common/freshness_service.py:476-499 | the fraction of updates on an active day and in the window |
| FreshnessSchedule.DetectActiveDays | testgen/common/freshness_service.py:404-435 | exactly the days hit in every second observed week, or nothing for a short history or no such day |
| FreshnessSchedule.OftenHitByCounts | testgen/common/freshness_service.py:425-433 | by counts over the local calendar: a weekday is active exactly if twice its updates reach the whole weeks observed, at least one |
| FreshnessSchedule.ThreeWeeks | testgen/common/freshness_service.py:421-423 | a history is long enough exactly from twenty-one days of twenty-four hours on |
| FreshnessSchedule.InferSchedule | testgen/common/freshness_service.py:502-564 | a schedule exists exactly from ten updates over three weeks on, its days are those hit often or else all seven, and window, confidence and stage are what they imply |
| FreshnessSchedule.StageByCounts | testgen/common/freshness_service.py:554-562 | by counts: active exactly from twenty updates with three quarters matching on, irregular exactly from twenty with less than three fifths, otherwise tentative |
| FreshnessSchedule.SteadyFrequency | testgen/common/freshness_service.py:391-401 | updates less than six hours apart are sub-daily, from there to below 36 daily, between five and ten days weekly, and none of these in between and beyond |
| FreshnessSchedule.MostActiveDayUpdatesMatch | testgen/common/freshness_service.py:476-499 | of the n updates on active days at most 2 ceil((n-1)/10) miss the detected window |
| FreshnessSchedule.IrregularNeedsInactiveDays | testgen/common/freshness_service.py:554-562 | an irregular stage needs more than a fifth of the updates, up to a margin, on inactive days |
| FreshnessSchedule.EveryDayIsNeverIrregular | testgen/common/freshness_service.py:554-562 | with all seven days active and twenty events the stage is never irregular |
| FreshnessSchedule.FittingScheduleIsSane | testgen/common/freshness_service.py:438-457 | a window exists exactly from ten updates on active days on, its ends are hours of a day, the confidence is a fraction |
| FreshnessDeadline.NextActiveDay | testgen/common/freshness_service.py:354-360 | finds the earliest active day, within seven days, exactly when some weekday is active |
| FreshnessDeadline.FractionalHour | testgen/common/freshness_service.py:363-366 | a fraction of hours becomes a time of day on a whole minute, less than a minute below it |
| FreshnessDeadline.HourIsMinuteOfDay | testgen/common/freshness_service.py:363-366 | the hour of an update, set as a time of day, is the minute of the update |
| FreshnessDeadline.DeadlineByTheClock | testgen/common/freshness_service.py:579-588 | the deadline is on its day at the whole minute at or below the end of the window plus the buffer, around the clock |
| FreshnessDeadline.MinutesToNextDeadline | testgen/common/freshness_service.py:567-609 | a deadline exists exactly for a window and an active weekday, on the earliest active day after the last update, less than eight days away, and advancing by the result never passes it |
| FreshnessDeadline.InferredScheduleHasDeadline | testgen/common/freshness_service.py:531-534 | an inferred schedule always has an active weekday |
| GreedyBatching.GreedyOptimal | testgen/commands/queries/execute_tests_query.py:154-171 | greedy consecutive batching keeps every item in order in admissible batches, and no admissible batching has fewer |
| ChunkQueries.Chunk | testgen/utils/__init__.py:118-135 | the loop produces the greedy chunks, with the two outcomes of an empty list |
| ChunkQueries.ChunksRejoinAndAreFewest | testgen/utils/__init__.py:118-135 | the chunks come from a valid chunking, rejoin to the original query, and no valid chunking has fewer |
| CatGrouping.GroupCatTests | testgen/commands/queries/execute_tests_query.py:125-173 | grouping by table and size, or singly, equals the specified groups |
| CatGrouping.GroupingIsOptimal | testgen/commands/queries/execute_tests_query.py:147-173 | per table the groups hold exactly its tests in order, are admissible, and are the fewest possible |
| CatGrouping.GroupingPermutes | testgen/commands/queries/execute_tests_query.py:147-173 | every test is in exactly one group |
| CatGrouping.JoinedExpressionsFit | testgen/commands/queries/execute_tests_query.py:485-496 | the joined expressions of a query with several tests stay within the limit |
| CatResults.ConditionMeans | testgen/commands/queries/execute_tests_query.py:111-120 | the condition expression, letter by letter, and its value: -1 for a prediction that lacks a tolerance, otherwise 0 exactly if the condition is true and 1 if it is false or unknown |
| CatResults.MeasureMeans | testgen/commands/queries/execute_tests_query.py:109 | the measure expression, letter by letter, and its value: the measure or the NULL marker, then the separator |
| CatResults.QueryMeans | testgen/commands/queries/execute_tests_query.py:487-496 | the joined texts of a query on one table have as their values all measures and all codes of the group, test by test |
| CatResults.ParseCatResults | testgen/commands/queries/execute_tests_query.py:199-223 | decodes every result row in order, test by test |
| CatResults.DecodeExactIffClean | testgen/commands/queries/execute_tests_query.py:109-122 | decoding an aggregate row gives every test its own code and measure if and only if no measure contains the separator or spells the NULL marker |
| CatResults.ResultsParse | testgen/commands/queries/execute_tests_query.py:201-221 | what the database returns for a group is always long enough to be indexed |
| CatExecution.FetchThreaded | testgen/common/database/database_service.py:212-247 | results and errors are those of the queries in completion order, and the columns are those of the last answer with rows to complete |
| CatExecution.CatTestRun.RunCatTests | testgen/commands/run_test_execution.py:260-352 | the two rounds write exactly the specified rows and leave Warning exactly when a single rerun failed |
| CatExecution.WrittenRowsAnyOrder | testgen/commands/run_test_execution.py:287-352 | the rows written do not depend on either completion order |
| CatExecution.BatchingPreservesMeaning | testgen/commands/run_test_execution.py:260-352 | for every completion order and set of failing queries each test gets exactly one row: with its own measure and the verdict -1, 0 or 1 that its tolerances and its condition in the database demand, or, if it also fails alone, its error row with its own message |
| CatExecution.OneRowPerTestIffNoSilentFailure | testgen/common/database/database_service.py:231-232 | whatever the measures, every test gets exactly one row if and only if no failing query has an empty error text |
| CatExecution.SilentOutageLosesEveryTest | testgen/common/database/database_service.py:206-232 | if every aggregate query fails with an empty text, as a timeout without arguments does, no row at all is written |
| ResultTable.WriteToAppDb | testgen/common/database/database_service.py:277-307 | the values of each row go by position to the columns named for the whole batch; the batch is refused as a whole if no column or one twice is named, or a row does not have one value for each |
| ResultTable.RecordAt | testgen/common/database/database_service.py:300-304 | a stored row holds, under the column at each position, the value at that position, whatever column it was returned for |
| QueryExecution.RunTests | testgen/commands/run_test_execution.py:230-257 | one query per test: the answers in completion order under the columns of the last one with rows, then error rows in test order, Warning exactly if a query failed with a message; refused answers end the run before the error rows |
| QueryExecution.NotedRowIsErrorRow | testgen/commands/run_test_execution.py:242-249 | a test has exactly one error row if its query failed with a message or errors were noted before, with all of them in order |
| QueryExecution.OwnColumnsIffOneList | testgen/common/database/database_service.py:226-232 | every row is written under the columns of its own answer for every completion order if and only if all answers with rows return the same list of columns |
| QueryExecution.StoredAsOwnIffInterchangeable | testgen/commands/run_test_execution.py:231-240 | every row is stored with the values its own query gave to each column, for every completion order, if and only if for any two answers with rows the rows of one can be written and read the same under the columns of the other |
| QueryExecution.QueryRowsAnyOrderIff | testgen/commands/run_test_execution.py:231-249 | the rows written, answers and errors, do not depend on the completion order if and only if the columns of any two answers with rows lead to the same table |
| QueryExecution.OneListAnyOrder | testgen/commands/run_test_execution.py:231-249 | with one list of columns the order plays no part |
| QueryExecution.OneListStoresOwn | testgen/common/database/database_service.py:226-232 | with one list of distinct columns and complete rows every row is stored as its query returned it |
| QueryExecution.FreshnessAndCustomSwap | testgen/template/dbsetup_test_types/test_types_Freshness_Trend.yaml:54-92 | the columns of a freshness answer beside those of a custom answer: whichever completes first has its measure stored as its signal and its signal as its measure, and the two orders write different rows |
| QueryExecution.SwapExample | testgen/template/dbsetup_test_types/test_types_CUSTOM.yaml:48-78 | two concrete rows, a count of errors without a signal and a fingerprint with its age, for which the two completion orders write different rows |
| SqlConditionals.PrintedDirectivesAreRecognised | testgen/common/database/database_service.py:323 | every printed IF, ELSE and ENDIF line is recognised as such |
| SqlDirectives.DirectiveIffMatches | testgen/common/database/database_service.py:323 | a line is a directive if and only if it matches the pattern, with exactly the keyword and the word that the pattern finds |
| SqlConditionals.LineEndsAtFirst | testgen/common/database/database_service.py:326 | lines are cut behind their first line end, a carriage return and line feed being one |
| SqlConditionals.TruthyIffGivenTrue | testgen/common/database/database_service.py:330 | a condition holds exactly if a parameter of that name is given with a true value |
| SqlConditionals.OneBranchIsKept | testgen/common/database/database_service.py:328-338 | of a block with an alternative the first branch stays exactly if the condition holds, and the second exactly if it does not |
| SqlConditionals.ProcessConditionals | testgen/common/database/database_service.py:322-343 | the line loop equals folding the classified lines |
| SqlConditionals.FoldRenders | testgen/common/database/database_service.py:326-343 | a printed block tree is processed to its rendering, each ELSE toggling |
| SqlConditionals.AcceptsExactlyTemplates | testgen/common/database/database_service.py:327-341 | exactly the printed templates are accepted; nesting, stray and unclosed directives are rejected |
| SqlConditionals.PlainQueryUnchanged | testgen/common/database/database_service.py:337-343 | a query without directives comes out unchanged |
| SqlParams.ReplaceAllIsSubstAll | testgen/common/database/database_service.py:316-319 | replacing characters key after key is substituting placeholders key after key |
| SqlCompleteness.EveryTextCompleteIffClear | testgen/common/database/database_service.py:316-319 | for distinct keys without braces and any values: no text comes out with a supplied placeholder if and only if no value overlaps and agrees with the placeholder of its own or an earlier key |
| SqlCompleteness.BraceFreeCompleteIffNoPart | testgen/common/database/database_service.py:316-319 | with values that hold no braces the condition is that no value is a part of its own or an earlier key |
| SqlCompleteness.LeftOverWasTouched | testgen/common/database/database_service.py:316-319 | text by text: a placeholder left over was touched by the value of its own or a later key |
| SqlCompleteness.EmptyValueFailsSomewhere | testgen/common/database/database_service.py:318 | an empty value leaves a placeholder in some text |
| SqlCompleteness.NestedPlaceholderIsLeft | testgen/common/database/database_service.py:316-319 | the smallest such text |
| SqlCompleteness.OccursIffHole | testgen/common/database/database_service.py:318 | in texts whose braces belong to placeholders, a placeholder occurs as characters exactly where it was meant |
| SqlCompleteness.OnePassIsFullExpansion | testgen/commands/queries/execute_tests_query.py:298-311 | on such texts, with values that mention only later keys, one pass equals the full recursive expansion and the resulting string holds no supplied placeholder |
| SqlCompleteness.CompleteIffOrdered | testgen/common/database/database_service.py:316-319 | one pass leaves no supplied placeholder in the string of any such text if and only if no value mentions its own or an earlier key |
| SqlTemplates.AppliedIsExpandedRendering | testgen/common/database/database_service.py:310-313 | a query of text and blocks becomes the full expansion of its rendering, without supplied placeholders |
| SqlTemplates.AppliedIsComplete | testgen/common/database/database_service.py:310-313 | on any template no supplied placeholder is left if no value touches one |
| SqlTemplates.AcceptedIffTemplate | testgen/common/database/database_service.py:310-313 | whether a query is rejected is decided by its own lines, whatever the parameters |
| SqlTemplates.ValuesNeverSelectLines | testgen/common/database/database_service.py:310-313 | the lines kept depend on the truth values of the parameters only, never on their texts |
| SqlTemplates.AppliedIsReplacedRendering | testgen/common/database/database_service.py:310-313 | any template of text and blocks, with any parameters, becomes exactly its rendering with the values put in, whatever lines the values hold |
| SqlTemplates.AnyValueComesThrough | testgen/common/database/database_service.py:310-313 | any query without directive lines, with any parameters, becomes exactly the query with its values put in, whatever lines they hold |
| SqlTemplates.NullTakesPlaceholderAway | testgen/common/database/database_service.py:318 | a parameter that is None takes its placeholder away |
| SqlTemplates.DirectiveInAValueIsText | testgen/common/database/database_service.py:310-313 | a line that closes nothing is rejected in front of any query without directives, and is plain text inside any of its values |
| ColumnLists.LookaheadIsQuoteAware | testgen/commands/run_test_validation.py:33-35 | the look-ahead split equals the left-to-right quote scanner if and only if the quotes are balanced or there is no comma |
| TestValidation.Collector.Collect | testgen/commands/run_test_validation.py:49-79 | the index is exactly the inverted log of references, with the schemas to query and the collection errors |
| TestValidation.IndexInverts | testgen/commands/run_test_validation.py:39-42 | a test is listed under an identifier exactly when it refers to it |
| TestValidation.CheckIdentifiers | testgen/commands/run_test_validation.py:82-107 | each test gets the messages of exactly its missing identifiers, in index order |
| TestValidation.IndexAgreesWithDirectCheck | testgen/commands/run_test_validation.py:125-168 | the verdict through the index is the verdict of checking the test directly, for a test without earlier errors; one with earlier errors is never valid |
| TestReferences.AcceptedIffAllIsFound | testgen/commands/run_test_validation.py:52-77 | by the fields of the test and the rows fetched: accepted if and only if it is never looked up, or names all it must and finds its table or column or every column of its list, its grouping and window columns, and in the other table the columns it matches and groups by; a list of blank names only asks for nothing, not even its table |
| TestReferences.ValidIffAllIsFound | testgen/commands/run_test_validation.py:110-168 | the tests a validation returns are exactly those without earlier errors of which this holds |
| TestReferences.SchemaIsAskedFor | testgen/commands/run_test_validation.py:27-28 | a schema is fetched exactly if some test names a table in it that is looked up |
| TestReferences.MissingIsNamed | testgen/commands/run_test_validation.py:94-98 | what is reported of a missing table or column, letter by letter |
| TestReferences.LowerAlike | testgen/commands/run_test_validation.py:31-37 | names are compared without regard to case |
| TestReferences.StripTrims | testgen/commands/run_test_validation.py:31-34 | blanks and quotes are taken away at both ends of a name, as many as there are, and nothing else |
| TestValidation.ErrorsStartWithOneDeactivated | testgen/commands/run_test_validation.py:127-154 | errors start with exactly one "Deactivated", followed by exactly the test's own reasons; earlier errors give way to a collection error and otherwise come first |
| TestValidation.RunTestValidation | testgen/commands/run_test_validation.py:110-168 | returns exactly the tests without earlier errors that a direct check accepts, in order, with the final error lists |

## Left out

- Database sessions, commits and connection failures: every guarded UPDATE commits; a failed commit, and a scheduler crash between the callbacks of a monitor and the commit of their session, are not modelled.
- Waiting for subprocesses at shutdown, signal propagation and the reload timer of the CLI scheduler: not modelled; because of the registration window no claim is made that every dispatched process is awaited.
- JobProtocolRuns.CancelNeverOvertaken: says nothing about when a request is acted on; a signal to a live process is an event that may be followed by its death or not.
- Contents of notification callbacks: only that and by whom they are run.
- Time zones with daylight saving, cron expression parsing, holiday libraries and floating-point rounding: a fixed offset, a first-instant function, a finite set of days and exact numbers.
- ExecJob.Run: a job row that has been deleted is not modelled.
- PollLoop.CliScheduler.Drain: stated for a queue nobody else writes to and a scheduler with no live process; concurrent writers are the subject of the protocol modules.
- CronThread.RunThread: the run ends with its list of turns; the events that stop it or wake it are the subject of SchedulerShutdown.
- CronRuns.OnlyOverdueIsDropped: within one generator; the exact set of started ONCE instants across reloads is left open because a reload forgets which backlog was already honoured.
- BusinessAdvance.AddBusiness: in the source a call for a positive amount on a calendar without a usable weekday does not return; the precondition excludes exactly that.
- FreshnessThresholds.ThresholdsAreOrdered: without exclusions an update history out of order can give negative gaps, so it asks for chronological updates or some exclusion.
- JobProtocolCancel.OnlyTheWindow: with several schedulers or after a failure there are the other causes that JobProtocolCancel.CanceledIffNotHeld and JobProtocolCancel.CanceledUnderHandlerIff list.
- CatExecution.BatchingPreservesMeaning: measures must survive the encoding and failures must carry a message; both conditions are proved necessary in CatResults.DecodeExactIffClean and CatExecution.OneRowPerTestIffNoSilentFailure.
- SqlCompleteness.OnePassIsFullExpansion: for texts whose braces all belong to placeholders, on which a full expansion is defined; arbitrary texts are the subject of SqlCompleteness.EveryTextCompleteIffClear.
- SqlCompleteness.EveryTextCompleteIffClear: keys with braces are not covered; parameter names never hold any.
- SqlConditionals.PrintedDirectivesAreRecognised: white space and word characters of the directive pattern are those of ASCII.
- TestValidation.RunTestValidation: writing error rows and deactivating tests is left out; identifiers are lower-cased in ASCII, and ids are unique.
- QueryExecution.RunTests: which columns the results table has, and their types, are not modelled, nor that an empty text is stored as NULL and a NaN is written as NULL; a row is the list of values its query returned.
- SQL evaluation, dialect-specific functions and query templates: a measure or a condition has the value, NULL or the truth value that the database gives it on its table; only the expressions around them are evaluated.
- CatResults.QueryMeans: the escaping of colons in a query, and the text around the two joined columns, are not modelled.
- FreshnessSchedule.SteadyFrequency: stated for gaps that all lie in one band; of mixed gaps the median decides.
- Progress messages, logging, user interface, API endpoints and deployment.
