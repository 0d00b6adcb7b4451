# Verified model of the evidence rules of a health monitor

The monitor decides, from evidence collected over time, when a finding may disappear, when a
threshold counts as sustained, when a record counts as persisted, when a charge becomes visible and
when a log event has been counted. This project states those rules as theorems about a model of the
code that implements them and proves them for every input, every run and every interleaving.

Check everything with `dafny verify dfyconfig.toml`.

## How the model is built

Code that updates state in place is a class or a method with the source's own loops, proved equal
to a function of the old state; the theorems are lemmas about those functions and about runs of
them. Protocols with several threads are step systems in which every atomic operation is one step.

| file | what it models |
|---|---|
| `Order.dfy`, `Fallible.dfy` | total orders, ordered listing of sets, results without detail |
| `Evidence.dfy`, `Pipeline.dfy`, `PipelineProofs.dfy` | evidence records; retain, reconcile, truncate, validate, and what they keep and mark |
| `Lifecycle.dfy`, `State.dfy`, `LifecycleDriver.dfy` | one step of the finding lifecycle, as functions and as the object that performs it, and the object driven through whole histories |
| `LifecycleProofs.dfy` | replay of transitions, the finding cap, coverage, diagnostic bytes |
| `LifecycleRuns.dfy`, `LifecycleHistory.dfy`, `LifecycleRecovery.dfy`, `LifecycleRemoval.dfy`, `LifecycleCases.dfy` | exactly when a finding recovers, what must have been seen before it is removed, and histories of what need not |
| `Budget.dfy` | the lock-free admission budget |
| `Journal.dfy`, `JournalProofs.dfy`, `JournalCases.dfy` | the history journal: producers, queue, retrying writer, database |
| `Scheduler.dfy`, `SchedulerDriver.dfy`, `SchedulerProofs.dfy`, `SchedulerOnce.dfy`, `SchedulerRun.dfy` | admission passes, completions, reloads, the loop in both modes |
| `Capacity.dfy`, `CapacityProofs.dfy`, `CapacityHistory.dfy`, `Flows.dfy`, `FlowsProofs.dfy`, `FlowsHistory.dfy` | sustained pressure clocks and stage progress |
| `CostWrite.dfy`, `CostWriteProofs.dfy` | billing imports: begin, stage, publish, clean up |
| `Decimal.dfy`, `Amount.dfy`, `BoundedDecimal.dfy` | exact amounts in the dashboard and the backend |
| `CostPages.dfy` | keyset pagination |
| `CostSeries.dfy`, `CostSeriesProofs.dfy`, `CostReduction.dfy` | the billing chart |
| `CostSchedule.dfy`, `CostScheduleProofs.dfy` | which billing period to import next |
| `LogWindow.dfy`, `LogWindowProofs.dfy`, `LogWindowHistory.dfy` | overlapping log windows, deduplication, the log cursor |
| `Publication.dfy` | the single background publisher |

Times are integers (nanoseconds unless a file says otherwise), `num_seconds` truncates toward zero
as in the source, measured values are reals, and money is counted in integer units of 10^-38.

## Findings about the code

These follow from the proofs and are stated by members of the project.

* A log gap of less than one second is recorded as zero, so a committed window may skip events
  although no gap is named (`LogWindowProofs.SubSecondGapLoses`): exactly when some, but less than a
  second, is missing (`GapMeaning`). Between collections a whole number of seconds apart the recorded
  gap tells the truth (`RecordedGapsSuffice`).
* An event is lost exactly when a committed window starts after it while it lies before the cursor
  and no later one makes up for it. A later window that reaches back over the event does not count
  it when a failed collection had read it before the cursor passed (`LogWindowHistory.UncountedIff`,
  `CountedIff`, `FailedReadLoses`).
* Two gap records with the same time and amounts share one database key, so the database may report
  less than was dropped (`JournalCases.GapKeysClash`): each total is equal exactly when no two gaps
  that report any of it share a key (`JournalProofs.DropsInDatabase`).
* A reservation whose check preceded a resize can lift the budget above the new limit until its
  recheck (`Budget.OvershootDuringResize`). Under a constant limit this happens after a state exactly
  when such a reservation is in flight there (`LimitExceededIff`), and only a resize leaves one
  behind (`OutgrownOnlyByResize`).
* Staging into a published import reaches readers (`CostWriteProofs.StageAfterPublish`), exactly when
  a staged day is already served by it (`StageVisible`); the importers avoid this by never reusing a
  published import.
* A net amount may leave the grammar of the dashboard (`Amount.NetLeavesGrammar`); it fits exactly
  below 10^20 (`NetExact`).
* `clear_count` is reset neither by an unknown reading nor by the beginning of a one-off run, so a
  recovery counts all clear readings since the last detection (`LifecycleRecovery.RecoversIff`), not
  consecutive ones and not only those of the run (`LifecycleCases.UnknownKeepsCount`,
  `BeginKeepsCount`). They are consecutive, and of one run, in every history if and only if
  `recover_confirmations` is at most one (`LifecycleCases.ConsecutiveIff`).

## Model

| member | source | states |
|---|---|---|
| Pipeline.Retain | crates/core/src/partial_results.rs:4-53 | The retaining loops compute exactly the earlier observations that fit, in order, with their operations marked stale. |
| PipelineProofs.RetainedMeans | crates/core/src/partial_results.rs:4-53 | What is kept follows what was collected, is of other resources and of operations not complete now, and is the longest prefix that fits the assets and what the result leaves of a quarter of memory; its operations follow, stale and each once. |
| Pipeline.Reconcile | crates/core/src/log_recovery.rs:3-58 | The loop adds one synthetic clear reading per runtime finding that a complete, gap-free window outlasts, up to the asset limit. |
| PipelineProofs.ReconciledMeans | crates/core/src/log_recovery.rs:3-58 | Every runtime finding that is not shown and that a complete, gap-free window outlasts gets its clear reading, in order, as far as the asset limit has room. |
| Pipeline.TruncateResult | crates/core/src/bounds.rs:25-43 | The longest prefix within bytes and assets is kept; a real cut turns every complete operation truncated. |
| PipelineProofs.TruncatedMeans | crates/core/src/bounds.rs:25-43 | A prefix is kept exactly when it is within bytes and assets and no longer than what is kept; nothing changes unless something is cut, and then no operation is complete. |
| Pipeline.ValidateSource | crates/core/src/bounds.rs:46-76 | Nested loops leave each operation with the coverage every observation in turn leaves it. |
| PipelineProofs.ValidatedMeans | crates/core/src/bounds.rs:46-76 | Whatever the order: malformed if a job of the operation completed as failed, else stale if it was complete and an observation is too old, else as it was. |
| Pipeline.CoverageOnlyDegrades | crates/core/src/state.rs:37-58 | No pass of the pipeline grants coverage: complete afterwards means collected complete under the same identifier, and everything added is incomplete. |
| LifecycleState.State.ScanResult | crates/core/src/state.rs:37-177 | Pipeline, asset bound and assessment loops leave the findings, retired entries, ratings and transitions of the specified scan. |
| LifecycleState.State.ReportFindings | crates/core/src/state.rs:125-176 | The loop over reported findings: dressing, diagnostic admission, the finding cap, transitions, replacement. |
| LifecycleState.State.Withdraw | crates/core/src/evaluation_index.rs:46-58 | A limit reached late in the scan withdraws the healthy ratings of all incomplete observations. |
| LifecycleState.State.SettleIds | crates/core/src/state.rs:186-244 | The clear and removal loop over the findings in order: confirmations, clear readings, announcements. |
| LifecycleState.State.RetireAll | crates/core/src/state.rs:246-259 | Removed findings leave with every confirmation ending in their identifier and are retired. |
| LifecycleState.State.TrimRetired | crates/core/src/state_lifecycle.rs:94-109 | Exactly the oldest retired entries, by time then identifier, go until the limit holds. |
| LifecycleState.State.Expire | crates/core/src/state_lifecycle.rs:120-170 | Outdated operations become stale, outdated ratings unknown, expired findings stale, with their transitions in key order. |
| LifecycleState.State.Rescope | crates/core/src/state_lifecycle.rs:171-286 | A reload keeps exactly the results, findings, retired entries, ratings, limits and confirmations of the remaining scope. |
| LifecycleState.State.Apply | crates/core/src/state.rs:11-277 | The whole step leaves the specified snapshot and returns the specified transitions, for every policy. |
| LifecycleDriver.Perform | crates/core/src/state.rs:11-277 | Driven through any sequence of applications, expiries, trims, new runs and reloads, the object reaches the snapshot and keeps the log of that history, within the limits and replayable between reloads. |
| LifecycleProofs.StepReplays | crates/core/src/state.rs:149-277 | Replaying a step's transitions over the old finding identifiers gives exactly the new ones, each transition legal in turn; findings and retired entries stay disjoint, findings do not grow past the limit and retired entries are within it. |
| LifecycleProofs.ApplyReplays | crates/core/src/state.rs:277-289 | The same, bounds included, for a step with its expiry and its nested flow step together. |
| LifecycleProofs.CapBlocksSettling | crates/core/src/state.rs:149-156 | If the finding cap is hit anywhere in the scan, the result recovers and removes nothing, whatever the order. |
| LifecycleProofs.IncompleteNeverHealthy | crates/core/src/evaluation_index.rs:46-58 | A resource seen under an incomplete operation ends the step neither healthy nor expected inactive. |
| LifecycleProofs.StoredCoverage | crates/core/src/state.rs:37-156 | The stored result is complete only where the collected one was, asset bound and cap included. |
| LifecycleProofs.DiagnosticBytesBounded | crates/core/src/diagnostics.rs:42-52 | Retained diagnostic bytes never exceed the larger of their old total and a quarter of memory. |
| LifecycleProofs.TrimOk | crates/core/src/state_lifecycle.rs:94-109 | Trimming never exceeds the limit and never invents an entry. |
| LifecycleRuns.EmittedMeans | crates/core/src/state.rs:186-244 | Every announced recovery or removal has its reason in the stored result: a clear time, or an authoritative absence with enough confirmations. |
| LifecycleRuns.ClearTimeMeans | crates/core/src/evaluation_index.rs:35-66 | A clear time comes from an observation the policy rated clear, later than the finding, under a complete operation of its evidence. |
| LifecycleHistory.EventReplays | crates/core/src/state.rs:149-277 | In every reachable state an event's transitions are legal where they are announced and replay to its new findings; a reload alone drops findings silently. |
| LifecycleHistory.LogReplays | crates/core/src/state_lifecycle.rs:111-170 | Between reloads the whole transition log, replayed from nothing, names exactly the stored findings. |
| LifecycleHistory.RunBounded | crates/core/src/state.rs:149-156 | In every history findings and retired entries are disjoint and both within the largest limit of the jobs applied. |
| LifecycleHistory.FindingRecord | crates/core/src/state.rs:186-207 | In any history a stored finding carries exactly the number of clear readings counted since its latest detection, up to the counter's limit, each at a strictly later time under a complete operation of its evidence. |
| LifecycleHistory.RecoveryEarned | crates/core/src/state.rs:194-207 | Recovery is announced only after `recover_confirmations` clear readings since the latest detection, at strictly increasing later times, each under a complete operation named in the evidence. |
| LifecycleRecovery.RecoversIff | crates/core/src/state.rs:186-207 | An event announces a recovery if and only if it counts a clear reading of a finding it does not detect and the clear readings since the latest detection reach the setting. |
| LifecycleRecovery.RecoveryRests | crates/core/src/state.rs:194-207 | Every recovery rests on as many clear readings as its setting needs, undisturbed by a detection, the last of them in its own step. |
| LifecycleCases.UnknownKeepsCount | crates/core/src/state.rs:194-207 | For every setting above one, a history in which a reading rated unknown lies between the clear readings of a recovery. |
| LifecycleCases.BeginKeepsCount | crates/core/src/state_lifecycle.rs:111-119 | For every setting above one, a history in which a new run begins between the clear readings of a recovery. |
| LifecycleCases.ConsecutiveIff | crates/core/src/state.rs:194-207 | The readings every recovery rests on are consecutive in every history, and of one run in every history, if and only if the setting asks for no more than one confirmation. |
| LifecycleRemoval.ConfirmationRecord | crates/core/src/state.rs:187-244 | In any history a stored confirmation belongs to a stored finding and counts no more absences than distinct results of its job showed. |
| LifecycleRemoval.RemovalEarned | crates/core/src/state.rs:208-243 | Removal is announced only after `removal_confirmations` results of that job with strictly increasing times, complete evidence and the resource absent; in between no result of that job contains it and no new run begins. |
| Order.InOrder | crates/core/src/state_lifecycle.rs:99-106 | Selecting the least element repeatedly lists a set in increasing order, as ordered maps iterate. |
| Budget.StepConserves | crates/core/src/budget.rs:37-63 | Every atomic operation moves `used` by exactly the change of the moving thread's charge, without underflow. |
| Budget.BudgetSound | crates/core/src/budget.rs:28-83 | In every interleaving `used` is the sum of permits and pending charges, and a parked un-notified waiter faces a full budget or a notification to come. |
| Budget.CancelHoldsNothing | crates/core/src/budget.rs:64-76 | A cancelled waiter keeps neither charge nor admission turn. |
| Budget.LimitHolds | crates/core/src/budget.rs:37-63 | From a point with no acquire in flight and a constant limit, `used` never grows while above it and never exceeds it again. |
| Budget.StepExceedsIff | crates/core/src/budget.rs:37-54 | One move lifts `used` to above the limit if and only if it is a compare-exchange of a positive amount whose total the limit does not admit. |
| Budget.RunClimbsIff | crates/core/src/budget.rs:39-54 | Over whole runs, resizes included, `used` climbs above the limit of the moment if and only if a reservation succeeds whose total that limit does not admit; without a resize it never does from a settled state. |
| Budget.LimitExceededIff | crates/core/src/budget.rs:28-54 | From any reachable state and under a constant limit, some run comes to at most the limit and later passes it if and only if a reservation now stands between its check and its compare-exchange that saw no more than the limit and would take the total past it. |
| Budget.OutgrownOnlyByResize | crates/core/src/budget.rs:28-54 | Under a constant limit no run from a fresh budget leaves a reservation that could pass it. |
| Budget.OvershootDuringResize | crates/core/src/budget.rs:28-54 | For any amount reserved while the limit is resized below it, a run from a fresh budget in which `used` passes the new limit. |
| JournalProofs.RunKeepsInv | crates/history/src/journal_worker.rs:43-119 | For every record the owners' holdings and the shared books cancel in every reachable state. |
| JournalProofs.RecordsConserved | crates/history/src/journal.rs:126-199 | While the worker lives every submitted record is exactly one of in hand, queued, in the batch, committed, or counted as dropped. |
| JournalProofs.DatabaseExact | crates/history/src/write.rs:39-95 | The database holds the acknowledged keys and beyond them at most those of the batch being retried, so retries after a failed retention never duplicate. |
| JournalProofs.DropsAccounted | crates/history/src/journal_worker.rs:69-110 | Each dropped total equals the pending count plus the amounts of gaps in flight and acknowledged. |
| JournalProofs.DropsInDatabase | crates/history/src/journal_worker.rs:69-75 | Each dropped total is at least its pending count plus what the database keys report of it, equal if and only if no two gaps that report any of it share a key; both are equal if and only if all gap keys are distinct. |
| JournalProofs.UnionByKey | crates/history/src/write.rs:81-88 | For events and for runs, a union by key never gains and keeps the whole amount exactly when no gap that reports any repeats. |
| JournalCases.GapKeysClash | crates/history/src/journal_worker.rs:69-75 | A run from the initial state in which two lost runs become two gaps of one instant, and the database shows one. |
| JournalProofs.BatchesAccounted | crates/history/src/journal.rs:107-141 | `outstanding` counts the live batches and the byte budget holds exactly their charges. |
| JournalProofs.FlushSound | crates/history/src/journal.rs:95-106 | When `flush` reads no outstanding batch, everything submitted before is committed or counted as dropped, and stays so. |
| Scheduler.CadenceBounds | crates/core/src/scheduler.rs:37-48 | A jittered interval stays within its spread and is at least one second. |
| SchedulerDriver.Driver.Admission | crates/core/src/scheduler.rs:80-138 | The admission loop with its break and continue leaves exactly the specified pass. |
| SchedulerDriver.Driver.Finish | crates/core/src/scheduler.rs:174-186 | A completion releases its key and scope and forwards the result only while its job is configured. |
| SchedulerProofs.RunKeepsInv | crates/core/src/scheduler.rs:75-188 | Over all runs `running` is the keys of tasks in flight, never two per key, and every scope counter counts its tasks. |
| SchedulerProofs.PassBlocks | crates/core/src/scheduler.rs:86-98 | After a pass every due, unfinished, non-running entry is blocked by a full global or scope limit. |
| SchedulerProofs.PassFromBounded | crates/core/src/scheduler.rs:90-98 | A pass grows the work in flight only up to the global limit, and a scope only up to a limit configured for it. |
| SchedulerProofs.RunWithinLimits | crates/core/src/scheduler.rs:80-101 | With limits common to all configurations of a run, tasks and scopes never exceed them. |
| SchedulerProofs.ReloadRestarts | crates/core/src/scheduler.rs:160-169 | A reload and the pass after it stop no task in flight and lose no count, and every job of the new configuration is in flight or blocked by a full limit of it. |
| SchedulerRun.DriveOnce | crates/core/src/scheduler.rs:75-188 | The one-off loop terminates, whichever task finishes next, having forwarded exactly `samples` results of each job. |
| SchedulerRun.DriveWatch | crates/core/src/scheduler.rs:75-188 | The watch loop leaves the state of the run its turns make up, whatever ends each wait, with the counts of its tasks in flight and no common limit exceeded. |
| SchedulerOnce.OnceExact | crates/core/src/scheduler.rs:139-144 | A one-off run ends if and only if exactly `samples` results of each job have been forwarded, and then no others have. |
| SchedulerOnce.OnceProgress | crates/core/src/scheduler.rs:145-187 | No state before the end is stuck: a completion, or a pass at a due time, brings the run closer. |
| SchedulerOnce.ProductiveBounded | crates/core/src/scheduler.rs:75-188 | The measure never grows, so at most twice the total samples many steps are productive. |
| Capacity.Monitor.Evaluate | crates/core/src/capacity.rs:18-116 | The clocks become those of the specified reading, and the verdict is read from them. |
| CapacityProofs.ClockMeansRun | crates/core/src/capacity.rs:60-94 | A level's clock is sustained at a counted reading if and only if an unbroken run to it spans the sustain time: no loss, all at or above, equal thresholds, gaps within freshness. |
| CapacityProofs.VerdictMeansHistory | crates/core/src/capacity.rs:95-115 | Error, warning and healthy verdicts, each if and only if the reading history says so. |
| CapacityProofs.RunFaithful | crates/core/src/capacity.rs:36-89 | In every history each clock stands for a run, and every run is covered by its clock. |
| CapacityHistory.CountsMeansHistory | crates/core/src/capacity.rs:25-69 | When a reading counts and when a clock is lost, said of the earlier readings alone: in order, current, sound, over a short window, and within the number of resources allowed. |
| CapacityProofs.LongWindowsStruck | crates/core/src/capacity.rs:47-49 | Readings over windows at least as long as the sustain time can be struck from any history without changing a clock or a later verdict. |
| Flows.Tracker.FindSignal | crates/core/src/flows.rs:126-174 | The nested search returns nothing on ambiguity and otherwise the first of the latest samples. |
| FlowsProofs.SignalOrder | crates/core/src/flows.rs:135-174 | Whether a sample is selected, its resource and its time do not depend on the order of the observations, nor does the sample when no other was taken at that time. |
| Flows.Tracker.EvaluateStage | crates/core/src/flows.rs:31-99 | One stage: record created, moved, kept or removed, and its health. |
| Flows.Tracker.Evaluate | crates/core/src/flows.rs:15-125 | All stages of all flows in order, with ratings and operation coverage. |
| FlowsProofs.UnhealthyMeansIdle | crates/core/src/flows.rs:34-99 | A stage is unhealthy if and only if it has demand, a sample and a known workload and its history shows an unbroken idle chain spanning the idle time after an established sample. |
| FlowsHistory.TakesMeansHistory | crates/core/src/flows.rs:41-88 | When a sample is taken, said of the earlier evaluations alone: later than those taken since the record was last lost, or within the number of stages allowed. |
| CostWrite.Billing.Begin | crates/history/src/cost_write.rs:21-108 | A fresh or resumed import, with rollback on a foreign source, a refused reservation or an invalid period. |
| CostWrite.Billing.Stage | crates/history/src/cost_write.rs:109-131 | All rows or none: bounds, days, soundness and repeated identities. |
| CostWrite.Billing.Publish | crates/history/src/cost_write.rs:132-186 | The loop over days serves the period when the row count matches, and drops days before the cutoff. |
| CostWrite.Billing.Cleanup | crates/history/src/cost_write.rs:187-228 | At most 16 obsolete imports and 5000 superseded rows go, any that qualify. |
| CostWriteProofs.BeginKeeps | crates/history/src/cost_write.rs:56-105 | Begin, fresh or resuming, leaves what readers see and hands out an open import without rows. |
| CostWriteProofs.StageVisible | crates/history/src/cost_write.rs:109-131 | Staging is invisible if and only if no staged day is already served by the import. |
| CostWriteProofs.StageAfterPublish | crates/history/src/cost_write.rs:109-131 | A run that begins and publishes an import, after which staging into it reaches readers. |
| CostWriteProofs.PublishShows | crates/history/src/cost_write.rs:139-182 | Publishing shows exactly the counted rows on the import's days, elsewhere what was shown, from the cutoff on. |
| CostWriteProofs.ShownOnce | crates/history/src/cost_read.rs:106-116 | The readers' join has exactly one pair for each visible row. |
| CostWriteProofs.VisibleOnlyByPublish | crates/history/src/cost_write.rs:21-228 | Along any run that begins, stages and publishes each import, visible rows change only in a successful publish. |
| CostWriteProofs.ServedAsCounted | crates/history/src/cost_write.rs:139-165 | Every served day is served by one import published in the run with its rows counted, and shows exactly the rows counted then. |
| Amount.PlainFits | dashboard/src/cost-schema.ts:31-36 | What `plain` prints fits the grammar if and only if the value is below 10^58 units. |
| Amount.UnitsOfPlain | dashboard/src/cost-schema.ts:22-36 | `units(plain(v)) = v` below that limit. |
| Amount.PlainOfUnits | dashboard/src/cost-schema.ts:22-36 | `plain(units(s))` is canonical and idempotent for every accepted text, and equals it exactly when it is canonical. |
| Amount.NetExact | dashboard/src/cost-schema.ts:38-41 | The net of two accepted texts is exact, and fits the grammar exactly within the limit. |
| Amount.NetLeavesGrammar | dashboard/src/cost-schema.ts:38-41 | Two accepted texts whose net leaves the grammar. |
| BoundedDecimal.FromDecimalMeans | crates/costs/src/model.rs:55-63 | A decimal is accepted exactly with at most 38 places and below 10^20, keeping its value. |
| BoundedDecimal.NormalUnique | crates/costs/src/model.rs:62-62 | One value has one normalized decimal, so comparing amounts is exact. |
| BoundedDecimal.AddExact | crates/costs/src/model.rs:64-66 | Addition is exact and fails exactly when the sum leaves the bound. |
| BoundedDecimal.PrintIsPlain | crates/costs/src/model.rs:88-92 | An amount prints, in at most sixty characters, as the dashboard's plain form of its value. |
| BoundedDecimal.ParseMeansUnits | crates/costs/src/model.rs:68-87 | The backend parses every text of the dashboard's grammar to the value the dashboard reads. |
| BoundedDecimal.ParsePrint | crates/costs/src/model.rs:68-92 | Printed and parsed, an amount is the same amount. |
| CostPages.CursorRoundTrip | crates/history/src/cost_cursor.rs:13-39 | A cursor decodes exactly for its own publication and filter and a key within the bound, to the boundary it was made from, its amount unchanged. |
| CostPages.Respond | crates/history/src/cost_response.rs:65-78 | The cursor comes from the last kept row when one row more was fetched; rows are cut and prior totals blanked. |
| CostPages.PagesListAll | crates/history/src/cost_read.rs:131-149 | Following the cursor serves exactly ceil(n / limit) pages listing every contributor once, by descending amount and then key, and then ends. |
| CostSeries.Series | crates/costs/src/aggregate.rs:55-116 | Succeeds if and only if every partial sum is within the amount bound; then one point per date with current rows, in order; contributors by key, each with the money of its slot; previous sums of the shifted rows. |
| CostSeriesProofs.PointIsDateSum | crates/costs/src/aggregate.rs:88-114 | The total of a point is the money of all rows of its date. |
| CostSeriesProofs.SeriesConserves | crates/costs/src/aggregate.rs:61-116 | The points carry exactly the amounts and credits of the current rows, at any granularity. |
| CostSeriesProofs.GranularitiesAgree | crates/costs/src/aggregate.rs:71-126 | For rows before the end of the period, two granularities show the same money, and it is the period's total. |
| CostSeriesProofs.Totals | crates/costs/src/aggregate.rs:117-126 | `total` and `credits` are the sums over the period's rows, and fail exactly when a partial sum leaves the amount bound. |
| CostReduction.Reduce | crates/history/src/cost_read.rs:191-244 | Succeeds if and only if neither query returns too many rows and every sum is within the amount bound; then the pushed buckets, leading contributors and the rest, sum per day to all filtered rows. |
| CostReduction.LeadingLargest | crates/history/src/cost_read.rs:178-191 | The leading contributors are seven, or all when fewer, and each was billed at least what any other was, an earlier key winning a tie. |
| CostSeriesProofs.ReductionConserves | crates/history/src/cost_read.rs:192-244 | Any list of buckets with one per day and label preserves the money of every day. |
| CostSeriesProofs.AtMostEight | crates/history/src/cost_read.rs:182-191 | With seven leading contributors no point shows more than eight. |
| CostSchedule.NextPeriod | crates/history/src/cost_schedule.rs:39-77 | The search with its early return answers as specified. |
| CostScheduleProofs.RoundShrinks | crates/history/src/cost_schedule.rs:44-77 | Each answered question lowers its own count (recent day, weeks to fill, unrefreshed partitions) and raises no other. |
| CostScheduleProofs.ComesToRest | crates/history/src/cost_schedule.rs:44-77 | Within one cadence at most one recency import, ceil(backfill / 7) fills and, for each day, one refresh if it was retained and not published since the start happen before there is nothing to import. |
| CostScheduleProofs.RestMeans | crates/history/src/cost_schedule.rs:57-77 | Nothing to import if and only if today is fresh, the backfill is whole and no retained partition is thirty days old. |
| LogWindow.Dedupe.Accept | crates/integrations/src/log_dedup.rs:19-37 | Refuses exactly what a committed batch counted, otherwise stamps the entry with this batch. |
| LogWindow.Window.Add | crates/integrations/src/log_window.rs:59-91 | Bounded, in range and counted once, through the window's own set and the shared cache. |
| LogWindowProofs.AdvancesIff | crates/providers/src/log_cursor.rs:3-7 | The cursor advances if and only if some window completed and every operation, of a window or not, is complete or is the recorded gap of a complete window. |
| LogWindowProofs.AtMostOnce | crates/integrations/src/log_dedup.rs:19-37 | No event is counted in two committed windows, whatever overlaps and however many collections fail. |
| LogWindowProofs.ExactlyOnce | crates/integrations/src/log_window.rs:36-91 | Exactly one committed window counts an event when complete windows return all events and none starts after the cursor. |
| LogWindowHistory.CountedIff | crates/integrations/src/log_dedup.rs:19-37 | A window counts an event if and only if it reads it and no collection that ended by the cursor, committed or not, had read it. |
| LogWindowHistory.UncountedIff | crates/integrations/src/log_window.rs:36-91 | Where committed windows return all their events, an event behind the cursor is counted by none if and only if one of them skipped it, starting after it while it lay before the cursor, and none later made up for it. |
| LogWindowHistory.FailedReadLoses | crates/integrations/src/log_dedup.rs:19-37 | A run in which a failed collection reads an event, a committed one skips it, and a committed one that reaches back over it does not count it. |
| LogWindowProofs.RecordedGapsSuffice | crates/integrations/src/log_window.rs:36-45 | Between collections a whole number of seconds apart, committed windows that return all events and record no gap count each event in exactly one. |
| LogWindowProofs.SubSecondGapLoses | crates/integrations/src/log_window.rs:36-45 | A run of two committed collections that return every event in range and record no gap, in which an event before the cursor is counted by none. |
| Publication.Publisher.Complete | crates/core/src/publication.rs:80-95 | Success acknowledges the captured count and resets the backoff; failure asks again after the wait and doubles it. |
| Publication.Publisher.Finish | crates/core/src/publication.rs:97-128 | The final drain, with every way it can run out of time. |
| Publication.DrainedIsWritten | crates/core/src/publication.rs:73-95 | Drained events are exactly those captured by successful writes, in order and without gaps. |
| Publication.RequestKept | crates/core/src/publication.rs:47-95 | A request is never lost: it is pending, or a write started after it is in flight or succeeded. |
| Publication.OneInFlight | crates/core/src/publication.rs:57-59 | Writes started and not ended are at most one. |
| Publication.BackoffDoubles | crates/core/src/publication.rs:88-93 | After k straight failures the backoff is min(2^k, 60) seconds. |
| Publication.FailureWaits | crates/core/src/publication.rs:88-93 | After a failure the writer may start again exactly once its wait is over. |
| Publication.FinishWritesAll | crates/core/src/publication.rs:97-128 | `finish` answers true exactly when its last write succeeded in time; then everything appended was captured in order by successful writes, the last one's capture included, and the queue is empty. |

## Left out

* Health policies, artifact matching, schedule calendars and the passes between truncation and
  validation: the policy and those passes are arbitrary functions, so the lifecycle theorems hold for
  all of them; the capacity clocks inside the assessment loop are modelled on their own.
* Byte sizes, digests, clocks, random identifiers, JSON text and SQL: sizes are arbitrary functions,
  digests injective, times parameters, identifiers fresh numbers, tables maps, each transaction one step.
* The nested flow step of `apply` is a second application whose result is an input; which evaluation
  produces that result is modelled in `Flows.dfy` only.
* `reconfigured`, `refresh_releases`, samples, regions and selectors of the snapshot: bookkeeping no
  theorem here depends on.
- LifecycleRemoval.RemovalEarned: assumes that no job key contains a bar, because the confirmation keys are split at the first one.
- LifecycleProofs.DiagnosticBytesBounded: sums are unbounded, because saturation needs more bytes than a machine addresses.
- LifecycleProofs.StoredCoverage: speaks of the result handed to the pipeline; for flows and releases that result is derived by the program itself.
- Budget.BudgetSound: the admission mutex admits one waiter at a time; its first-in first-out order is not modelled.
- JournalProofs.RecordsConserved: for a live worker and below saturation and the signed 64-bit range; a byte reservation is one step here and is taken apart in `Budget.dfy`.
- JournalProofs.FlushSound: about batches submitted before the read of `outstanding`, because the three counters are read one after the other.
- SchedulerOnce.OnceProgress: needs the receiver open and no cancellation; collectors that never return are outside it.
- SchedulerRun.DriveWatch: for any finite number of turns; cancellation ends the loop between two of them.
- SchedulerRun.DriveOnce: a wait is one jump of the clock to the next due time, or the end of one task; waits that end early only repeat the pass.
- SchedulerDriver.Driver.Finish: panics and aborts of tasks are folded into an ordinary result.
- Capacity.Monitor.Evaluate: values are reals with an explicit non-finite case, so rounding is not modelled.
- Flows.Tracker.EvaluateStage: values are reals with an explicit non-finite case, so rounding is not modelled.
- CostWrite.Billing.Begin: the daily allowance is a yes or no given to the call; a source's unique name stands for its identifier.
- CostWriteProofs.VisibleOnlyByPublish: for importers that stage and publish only what they have begun and not yet published.
- BoundedDecimal.ParseMeansUnits: the decimal library is modelled by the digits around the first point; texts outside the grammar are not claimed.
- CostPages.PagesListAll: for rows the database returns in the order of the query, under any collation that is a strict total order, and keys within the cursor's bound.
- CostSeries.Series: calendar overflow of a shifted day is not modelled, and prior days whose date has no current row show in no point.
- CostReduction.Reduce: the two grouped queries are one grouping of the filtered rows; the query gives every key a prefix, so none is the label of the rest.
- CostScheduleProofs.ComesToRest: the rounds lie within one cadence and one day.
- LogWindowProofs.AtMostOnce: no cache eviction and no restart, distinct window identifiers in a collection, and a clock that does not go back.
- LogWindowProofs.ExactlyOnce: besides, no operation is named as a window's identifier with the gap suffix; `AdvancesIff` holds without that.
- LogWindowProofs.RecordedGapsSuffice: under the conditions of `ExactlyOnce`.
- LogWindowHistory.UncountedIff: under the conditions of `ExactlyOnce` but for the gaps.
- Publication.RequestKept: before `finish`; a write abandoned by its deadline goes on detached and is not waited for again.
* `money`, `difference` and labels of the dashboard: locale formatting of the library.
* The bounded tail of the transition queue: events refused when it is full never enter the model's queue.
