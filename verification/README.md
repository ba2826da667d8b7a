# Verified model of the TMS back end

TMS watches Trino clusters and benchmarks them. This project models the parts of it where the
behaviour is hardest to read off the code, and proves what they promise for every input, every
history and every interleaving:

- **Benchmark runs and schedules** (`Service`, `Runner`, `RunStore`, `Schedules`, `QuerySets`, `Audit`).
  The service is one state machine, `Service.System`. Every operator call, every tick of the
  scheduler, every turn of a worker and every restart is one atomic step; `Service.After` is any
  interleaving of them. For every action a step performs, whether the audit store answers the check
  before it and whether it keeps the record written after it are inputs. `RunProofs`, `Protocol`, `ScheduleProofs`,
  `SetProofs` and `AuditTrail` prove what every reachable state satisfies. The stores, the runner and
  the query sets are also written as classes with loops that change their fields in place, and each
  method is proved equal to the function the state machine uses.
- **Calls to a coordinator** (`Circuit`): the breaker with its clock, the retry loop around it, and a
  bound on the load an outage causes.
- **Local sign-in** (`LocalAuth`): a pruned list of failures stands for the full log.
- **Resource groups** (`ResourceGroups`, `Forest`, `QueueAge`): names and paths, the tree built over
  mutable nodes, the order it is shown in, and the queue age of each group.
- **Benchmark numbers** (`Stats`, `Compare`, `Trend`, `TrendProofs`, `TrendOrder`, `History`): medians,
  the comparison of two runs, and the chart over time. `Bags` and `Order` hold what is needed about
  rearranged and sorted lists.
- **Polling** (`Poller`): when a cluster is polled, and when an empty query list is disbelieved.
- **Text** (`Text`, `Sql`, `EditList`, `Utf8`): reasons, comment stripping and the statement check,
  the edit list, and cutting at a byte budget (UTF-8 as in section 3 of RFC 3629).

Clocks are integers (microseconds for schedules) or reals; medians, percentages and durations are
exact reals.

## Where the code differs from what is said about it

- An audited action is described as writing exactly one record on exit (`src/tms/core/audit.py:257-263`),
  and nothing is to start that cannot be recorded. The store is asked before the action; if it goes down
  before the record is written, the failure is logged and swallowed (`src/tms/core/audit.py:286-295`), and
  the run goes on without a record. The run records are the runs minus exactly those
  (`AuditTrail.RecordsAreTheRunsNotLost`), so every run has its record exactly when none was lost that
  way (`AuditTrail.EveryRunIsRecordedExactlyWhenNoneIsLost`); `AuditTrail.ARunWithoutARecord` is a
  history that loses one.
- A HALF_OPEN breaker is described as admitting exactly one trial (`src/tms/clients/circuit.py:51`). It
  stays half open, and admits every call, exactly while each is answered by a permanent error:
  `Circuit.HalfOpenAdmitsWhilePermanent`. `Circuit.ManyTrialsAreAdmitted` shows any number of trials
  admitted at one moment.
- A set is described as holding at most 50 queries. A save that names as original the very query it
  saves, when that query is not in the set, adds a 51st, and more after that:
  `SetProofs.CapIsExceededExactlyWhen` for one call, `SetProofs.CapHoldsExactlyUnless` for a whole
  history, `SetProofs.CapCanBeExceeded` for a call that does it.
- `advance` is described as giving the next firing. From a time that has not come yet, as when a
  schedule is switched on early, it skips a slot: `Schedules.AdvanceIsNextSlotExactlyWhenDue`.
- `truncate_utf8` drops a complete multi-byte character that ends exactly on the budget:
  `Utf8.TruncateUtf8`.
- The queue age and the group filter agree on every well-formed path (`QueueAge.WellFormedAgrees`), and on any other path exactly
  when no segment holds a dot (a leading one apart) and the first is not empty:
  `QueueAge.FilterAndIndexAgreeExactly`. A missing query snapshot is described as giving every group
  a blank age; the code leaves the groups unwritten.
- `build` dates a bucket by the first to arrive of its earliest executions, so the order of a history
  shows in the chart exactly when those carry different texts for one moment:
  `TrendOrder.OrderMattersExactlyWhenTimesQuarrel`, with such a history in `TrendOrder.TwoTextsOfOneMoment`.
  The stores never hand one over: a run has one start time and one moment is stored one way, and then
  the order never matters, however the axis is grouped (`TrendOrder.StoredHistoriesForgetOrder`,
  `History.StoredChartForgetsOrder`).
- A comparison is not symmetric. Swapping the sides of two times turns the verdict round unless the
  larger is 5 % or more above the smaller while the smaller is less than 5 % below the larger, or one of
  them is zero and the other is not: a zero baseline has no percentage, so it is "within noise" of
  anything. A query that failed throughout in both runs is "only in the baseline" whichever side is
  called that. `Compare.SwappingSides` says exactly when.

## Model

| member | source | states |
|---|---|---|
| Protocol.InvAlways | src/tms/bench/service.py:308-368 | in every reachable state every run satisfies what its state says about its results, and every live worker stands exactly after what it has executed |
| Protocol.OneRunAndOneWorkerPerCluster | src/tms/bench/store.py:54-67 | in every reachable state a cluster has at most one RUNNING run and at most one live worker, and a worker is live exactly while its run is RUNNING |
| Protocol.RunsFollowTheirOwnSnapshot | src/tms/bench/runner.py:102-147 | a run's results are always a prefix of the iteration-major list of its own recorded snapshot; ABORTED means a proper prefix after a request for it, SUCCEEDED the whole list, empty or not all failed |
| Protocol.LiveSetIsTheRecordedOne | src/tms/bench/service.py:127-142 | a worker reads a set object that may be edited, and still executes exactly the recorded statements |
| Protocol.StepGrows | src/tms/bench/store.py:69-78 | every step keeps each run's identity, only appends to its results and leaves a terminal run alone |
| Protocol.TerminalRunsAreFinal | src/tms/bench/store.py:74-78 | whatever happens later, a terminal run's state and results never change and no run is lost |
| Protocol.AskedMeansAborted | src/tms/bench/runner.py:74-91 | a stop is pending for a run only if an administrator aborted that run |
| Protocol.AbortStopsNoOtherRun | src/tms/bench/service.py:597-610 | a run that ended ABORTED was itself aborted; aborting one run stops no other |
| RunProofs.StepKeeps | src/tms/bench/service.py:308-701 | every step of every party keeps the invariant of runs, workers and sets |
| RunProofs.EditKeeps | src/tms/bench/service.py:127-142 | an edit is refused while its set runs, so no live worker ever reads what an edit changes |
| RunProofs.TurnKeeps | src/tms/bench/runner.py:115-147 | one turn of a worker, whichever way it goes, leaves its run and itself consistent |
| RunProofs.ClosedIsOk | src/tms/bench/runner.py:134-142 | after the last iteration a run is FAILED exactly when it executed something and all of it failed, and then its results are the whole plan |
| RunProofs.RestartKeeps | src/tms/bench/store.py:267-287 | a restart kills the workers, marks their runs UNKNOWN and leaves a consistent system |
| SetProofs.SetsAndSnapshotsStayOk | src/tms/bench/service.py:663-701 | every set and every recorded snapshot stays sorted by position then name, with unique usable names and only allowed statements |
| SetProofs.OnlyAllowedStatementsRun | src/tms/bench/runner.py:154-168 | every statement a worker executed was allowed and really sent: with edits only through the console the second check never fires |
| SetProofs.CapIsExceededExactlyWhen | src/tms/bench/service.py:663-701 | a save through the service leaves its set above the cap of 50, and longer than it was, exactly when it is accepted, the set was full or more, and its original name is the name it saves and is not in the set |
| SetProofs.CapHoldsExactlyUnless | src/tms/bench/service.py:681-685 | over any history every set holds at most 50 queries at every moment exactly when no such save was made |
| SetProofs.CapCanBeExceeded | src/tms/bench/service.py:681-685 | one accepted save on a service with a full set leaves it with more than 50 queries |
| SetProofs.BuildQuerySets | src/tms/bench/queryset.py:114-167 | the declared sets, in the order of their keys, all load exactly when every one is usable; otherwise the first bad one is reported with why |
| SetProofs.OnlyAcceptedStatementsRun | src/tms/bench/runner.py:154-168 | starting from the sets of a configuration, whatever the console does, everything a worker executed passes the real statement check and was sent |
| SetProofs.RunsAreBounded | src/tms/bench/service.py:315-322 | no run, scheduled or not, executes more than the ceiling on repetitions times the queries it recorded |
| ScheduleProofs.TableAlwaysOk | src/tms/bench/service.py:451-561 | in every reachable state every schedule row agrees with its history: grid, pace of claims, failure count and pause |
| ScheduleProofs.DowntimeCausesNoBurst | src/tms/bench/schedules.py:160-170 | however long TMS was down, next_run_at stays on its original grid and any n claims in a row span strictly more than n - 2 intervals |
| ScheduleProofs.PausedExactlyAtTheThirdFailure | src/tms/bench/service.py:537-555 | the failure count is the broken firings since the last start or enable, skips neither counting nor resetting; enabled means fewer than three, and TMS has paused it exactly at the third |
| ScheduleProofs.NextRunOnlyMovesForward | src/tms/bench/service.py:451-474 | in any step a schedule's next_run_at stays or moves forward by at least an interval |
| ScheduleProofs.FiringCountsRuns | src/tms/bench/service.py:513-535 | what a firing counts as started is the number of runs it created |
| ScheduleProofs.FiringCountsBreaks | src/tms/bench/service.py:525-537 | a firing broke exactly when some cluster was refused for another reason than a run already going |
| ScheduleProofs.TickKeepsTable | src/tms/bench/service.py:488-511 | a tick moves exactly the due rows, and firing them changes no row's next slot |
| AuditTrail.RecordsAreTheRunsNotLost | src/tms/core/audit.py:277-296 | in every reachable state the successful run records are the runs, in order, minus exactly those whose record the store lost on exit; records and losses add up to the runs; and every run, recorded or not, had a non-blank reason and a store that answered its check |
| AuditTrail.EveryRunIsRecordedExactlyWhenNoneIsLost | src/tms/core/audit.py:286-295 | every run has its record, one for one and in order, exactly when no run lost its record on exit |
| AuditTrail.EveryRunHasItsRecord | src/tms/bench/service.py:337-368 | if the store never goes down between the check and the record of a start, every run has its record, however often it is down at other times |
| AuditTrail.LosingTheRecord | src/tms/core/audit.py:286-295 | any acceptable start during which the store goes down leaves a RUNNING run and an empty log |
| AuditTrail.ARunWithoutARecord | src/tms/core/audit.py:286-295 | a concrete service and start of that kind |
| AuditTrail.NothingStartsUnrecorded | src/tms/core/audit.py:335-344 | with the audit store down at the check, or a blank reason, a start changes nothing and is refused |
| AuditTrail.StepIsAccounted | src/tms/bench/service.py:717-737 | every step keeps the records and the runs in that agreement, whatever the audit store does during it |
| Runner.BenchmarkRunner.Run | src/tms/bench/runner.py:102-147 | the two nested loops leave the store exactly as the turns taken one by one do, stopping when this run's flag is up; no other run or result changes, no other flag goes down, and this one is forgotten on every way out |
| Runner.DriveTouchesOneRun | src/tms/bench/runner.py:102-147 | whatever the cluster answers and whoever is asked to stop meanwhile, a worker changes no run but its own, and of that only how it is going |
| Runner.BenchmarkRunner.Execute | src/tms/bench/runner.py:118-128 | one pass of the loop body stops when this run's flag is up, and otherwise records the outcome of one query |
| Runner.BenchmarkRunner.Abort | src/tms/bench/runner.py:74-83 | raises this run's flag and no other |
| Runner.BenchmarkRunner.ShouldAbort | src/tms/bench/runner.py:85-87 | true exactly for a run whose flag is raised |
| Runner.BenchmarkRunner.Forget | src/tms/bench/runner.py:89-91 | clears this run's flag and no other |
| Runner.DoneIsPrefix | src/tms/bench/runner.py:116-128 | a worker in the middle of an iteration has executed a proper prefix of the plan |
| Runner.PlanLength | src/tms/bench/runner.py:116-117 | the plan is every query once per repetition |
| RunStore.InMemoryBenchmarkRepository.Create | src/tms/bench/store.py:54-67 | refused exactly when the cluster has a RUNNING run; otherwise appends the run with an empty result list and the next id |
| RunStore.InMemoryBenchmarkRepository.AddResultRow | src/tms/bench/store.py:69-72 | appends one row to one run's results |
| RunStore.InMemoryBenchmarkRepository.FinishRun | src/tms/bench/store.py:74-78 | sets state, error and the finish stamp of exactly that run; UNKNOWN is not stamped |
| RunStore.InMemoryBenchmarkRepository.Active | src/tms/bench/store.py:93-95 | returns exactly the RUNNING runs, no two of one cluster |
| RunStore.FinishIsValid | src/tms/bench/store.py:74-78 | finishing keeps the store valid and frees at most that run's cluster |
| RunStore.ReconcileFreesEveryCluster | src/tms/bench/store.py:267-287 | after the startup statement no cluster is blocked and no result is lost |
| Schedules.DueRowMovesToNextSlot | src/tms/bench/schedules.py:245-261 | from a due time both stores move a row to the same moment, the least slot of its grid strictly after now |
| Schedules.AdvanceIsNextSlotExactlyWhenDue | src/tms/bench/schedules.py:100-118 | the result of advance is the least slot after now exactly when the old time has come |
| Schedules.AdvanceMovesForwardOnGrid | src/tms/bench/schedules.py:100-118 | whatever the clock says, advance moves at least one interval and keeps the grid |
| Schedules.ClaimingTwiceTakesNothing | src/tms/bench/schedules.py:160-170 | after a claim nothing is due at the same moment, so a second ticker takes nothing |
| Schedules.InMemoryScheduleRepository.ClaimDue | src/tms/bench/schedules.py:160-170 | the loop moves every due row and returns those rows in table order; no other row changes |
| QuerySets.SaveKeepsSetWellFormed | src/tms/bench/setstore.py:68-84 | saving keeps a set sorted with unique names, changes only the query it names, and is refused exactly for another query's name |
| QuerySets.DeleteKeepsSetWellFormed | src/tms/bench/setstore.py:86-94 | deleting keeps a set well formed and removes exactly the named query |
| QuerySets.InMemoryQuerySetRepository.SaveSet | src/tms/bench/setstore.py:54-63 | creates an empty set, or hands back the existing object with its queries |
| QuerySets.InMemoryQuerySetRepository.DeleteSet | src/tms/bench/setstore.py:65-66 | forgets the name and leaves the set object as it is for whoever holds it |
| QuerySets.InMemoryQuerySetRepository.SaveQuery | src/tms/bench/setstore.py:68-84 | rewrites or adds the query in the shared object, or reports an unknown set or a duplicate name; no other set changes |
| QuerySets.InMemoryQuerySetRepository.DeleteQuery | src/tms/bench/setstore.py:86-94 | drops the query and says whether there was one; no other set changes |
| QuerySets.BuildQueries | src/tms/bench/queryset.py:130-162 | a declared set loads exactly when every entry is usable, then in declared order and well formed; otherwise the first bad entry's error is reported |
| QuerySets.LoadedQueriesAreAccepted | src/tms/bench/queryset.py:155-161 | what configuration loads, the runner's check accepts in its stored form |
| Sql.StrippingIsIdempotent | src/tms/bench/queryset.py:88-94 | stripping comments twice strips nothing more |
| Sql.AcceptedStaysAccepted | src/tms/bench/queryset.py:70-85 | a statement accepted when its set is built is still accepted by the runner after strip and rstrip of semicolons |
| Sql.OuterSpaceIsIrrelevant | src/tms/bench/queryset.py:88-94 | outer white space changes nothing in what the comments leave, up to its own trimming |
| Sql.SemicolonsAtTheEnd | src/tms/bench/queryset.py:70-85 | semicolons at the end of a statement matter to no check that follows |
| Audit.NormalisedReasonIsOneShortLine | src/tms/core/audit.py:168-181 | a reason is refused exactly when blank, and otherwise becomes one line of at most 512 characters |
| Audit.NormaliseIsIdempotent | src/tms/core/audit.py:168-181 | normalising an audited reason gives it back |
| Audit.KillMessageEmbedsAuditedReason | src/tms/clients/trino.py:72-84 | the kill message carries the audited reason word for word |
| Audit.AuditGuard.Action | src/tms/core/audit.py:317-358 | refuses an unknown action, then a blank reason, then an unwritable store, in that order, and writes nothing |
| Audit.AuditGuard.Write | src/tms/core/audit.py:219-222 | appends the record, or fails leaving the log as it was |
| Audit.AuditGuard.ExitAction | src/tms/core/audit.py:277-296 | fills in the outcome and writes one record, or counts one lost write; never raises |
| Audit.OneRecordPerAction | src/tms/core/audit.py:257-296 | over any history every entered action is still open, has exactly one record, or is exactly one lost write |
| Audit.AppendOnly | src/tms/core/audit.py:184-225 | over any history the log only grows, and only at its end |
| Audit.EveryRecordIsSound | src/tms/core/audit.py:317-358 | no record has a blank reason or an action outside the catalogue |
| Circuit.CircuitBreaker.constructor | src/tms/clients/circuit.py:24-37 | a breaker starts closed with no failures |
| Circuit.CircuitBreaker.GetState | src/tms/clients/circuit.py:39-44 | reading the state turns an open breaker half open once the reset time has passed, and only then |
| Circuit.CircuitBreaker.AllowsRequest | src/tms/clients/circuit.py:50-52 | admits a call exactly when the refreshed state is not open |
| Circuit.CircuitBreaker.RecordSuccess | src/tms/clients/circuit.py:54-56 | closes the breaker and clears the count |
| Circuit.CircuitBreaker.RecordFailure | src/tms/clients/circuit.py:58-65 | counts a transient failure and opens at the threshold; a permanent one changes nothing |
| Circuit.CircuitBreaker.SecondsUntilRetry | src/tms/clients/circuit.py:67-71 | zero unless open, and waiting exactly that long makes the breaker admit a call |
| Circuit.ClosedExactlyBelowThreshold | src/tms/clients/circuit.py:54-65 | after any history the breaker is closed exactly when fewer than the threshold transient failures follow the last success |
| Circuit.PermanentErrorsAreNeutral | src/tms/clients/circuit.py:58-61 | dropping a permanent failure from a history changes nothing later |
| Circuit.DoCall | src/tms/clients/trino.py:129-179 | a call sends at most retries + 1 requests, retries only after transient failures, sleeps at most 0.2 * (2^retries - 1) seconds in all, and reports to the breaker once |
| Circuit.ClosedExactlyBelowThresholdOfCalls | src/tms/clients/trino.py:138-179 | the same over calls: a retried call counts once, a permanent error not at all |
| Circuit.AdmissionsAreSpaced | src/tms/clients/circuit.py:39-65 | with only transient failures every admission after opening is at least the reset time after the one before |
| Circuit.OutageLoadIsBounded | src/tms/clients/trino.py:138-179 | with only transient failures, up to a time T after the breaker first opens at most threshold + floor(T / reset) calls are admitted, sending at most retries + 1 requests each |
| Circuit.TrialSettlesUnlessPermanent | src/tms/clients/circuit.py:50-65 | a half-open trial leaves the breaker half open exactly when its answer is permanent; otherwise it closes on success, and on exhaustion opens until the reset time has passed |
| Circuit.HalfOpenAdmitsWhilePermanent | src/tms/clients/circuit.py:50-61 | over any number of calls at any times the breaker stays half open exactly while every one is answered by a permanent error, and it admits them all |
| Circuit.ReachedHalfOpenAdmitsWhilePermanent | src/tms/clients/circuit.py:31-65 | the same of the breaker that any history of calls leaves, from the moment the clock finds it half open |
| Circuit.ManyTrialsAreAdmitted | src/tms/clients/circuit.py:50-61 | a concrete history from a fresh breaker in which two trials, or any number, are admitted at one moment |
| LocalAuth.LocalAuthenticator.Prune | src/tms/core/localauth.py:76-86 | what is kept of one account's list is what lies inside the window; other accounts are untouched |
| LocalAuth.LocalAuthenticator.IsLocked | src/tms/core/localauth.py:82-86 | locked exactly with five failures inside the window, the list pruned on the way |
| LocalAuth.LocalAuthenticator.RecordFailure | src/tms/core/localauth.py:76-80 | prunes and appends now |
| LocalAuth.LocalAuthenticator.SecondsUntilUnlock | src/tms/core/localauth.py:88-92 | the time until the oldest kept failure leaves the window |
| LocalAuth.LocalAuthenticator.Authenticate | src/tms/core/localauth.py:94-116 | refuses while locked, records a failure for a wrong password or unknown user, and forgets all failures on success |
| LocalAuth.PrunedListStandsForFullLog | src/tms/core/localauth.py:76-86 | filtered at any later time the pruned list equals the full failure log since the last success, so every answer is the same |
| LocalAuth.GuessingRateIsBounded | src/tms/core/localauth.py:94-113 | any six failures with no success between them span at least 300 seconds |
| LocalAuth.ListStaysShort | src/tms/core/localauth.py:76-86 | an account's list never holds more than five failures |
| LocalAuth.UnlocksExactlyOnTime | src/tms/core/localauth.py:88-100 | after a refusal that announced a delay, whatever attempts follow, with right passwords or wrong ones, each is refused exactly until the delay has passed and the first one after is judged on its password |
| ResourceGroups.GroupPath | src/tms/collector/resourcegroups.py:68-75 | any path an object name gives has non-empty segments without dots |
| ResourceGroups.GroupPathReadsBack | src/tms/collector/resourcegroups.py:68-75 | a well-formed path is read back from its MBean name exactly when its dotted name has no outer white space |
| ResourceGroups.DottedIsInjective | src/tms/collector/resourcegroups.py:133 | two well-formed paths never share an id |
| ResourceGroups.PrefixEndsAtDot | src/tms/api/services.py:104-108 | the name of a prefix of a path is a prefix of its dotted name that ends at a dot or at the end |
| Forest.RowsAreTheLatest | src/tms/collector/resourcegroups.py:156-167 | the tree holds each reported path once, in path order, with the row last reported for it |
| Forest.BuildTree | src/tms/collector/resourcegroups.py:156-177 | under each node hang exactly the nodes whose path minus the last segment is its own, in path order; the roots are exactly those whose immediate parent was not reported, by id |
| Forest.EnterNodes | src/tms/collector/resourcegroups.py:163-167 | the first loop makes one fresh childless node per id and an index that finds each by id and nothing else |
| Forest.LinkNodes | src/tms/collector/resourcegroups.py:169-177 | the second loop hangs every node under its parent's and sets the others aside as roots |
| Forest.EveryGroupOnce | src/tms/collector/resourcegroups.py:156-177 | walking the forest from its roots meets every group exactly once, whether or not parents are missing |
| Forest.WalkVisits | src/tms/collector/resourcegroups.py:169-176 | the subtree of a node holds exactly the groups that extend its path with every group between reported |
| Forest.WalkRises | frontend/src/screens/Workload.tsx:49-57 | within each tree the walk shows the groups in path order |
| Forest.Flatten | frontend/src/screens/Workload.tsx:49-57 | the recursive walk pushes the rows of the depth-first order, over the mutable nodes |
| Forest.ClosedWalkIsSorted | frontend/src/screens/Workload.tsx:49-57 | if every group's parent was reported, the walk is all groups in path order |
| Forest.Show | frontend/src/screens/Workload.tsx:49-57 | building and flattening shows each path's row once, and equals the groups sorted by path when no parent is missing |
| QueueAge.FilterAndIndexAgreeExactly | src/tms/api/services.py:90-108 | the filter and the index put a query in the same groups, for every group id, exactly when no segment holds a dot (a leading one apart) and the first is not empty |
| QueueAge.WellFormedAgrees | src/tms/api/services.py:819-824 | on every path the collector makes, the filter and the index put a query in the same groups |
| QueueAge.OldestIsUnique | src/tms/api/services.py:809-824 | "the longest wait, or none" settles what a row shows: no two answers satisfy it |
| QueueAge.InGroupIsCredited | src/tms/api/services.py:819-824 | a query the filter accepts for a group is credited to that group |
| QueueAge.CreditQuery | src/tms/api/services.py:821-824 | one query raises exactly the names on its path to its wait |
| QueueAge.OldestPerGroup | src/tms/api/services.py:809-824 | the index holds for every name the longest wait among the QUEUED queries credited to it, and no other name |
| QueueAge.AddQueueAge | src/tms/api/services.py:784-828 | every row shows the longest wait among the QUEUED queries the group filter accepts, or none, and a parent's row never shows less than a child's, when their paths agree; without a usable snapshot nothing is written |
| QueueAge.ParentIsNeverYounger | src/tms/api/services.py:819-824 | the longest wait of a parent group is never below a child's |
| QueueAge.ParentRowIsNeverYounger | src/tms/api/services.py:826-827 | among rows that show the longest wait, a parent's shows one whenever a child's does, and one no lower |
| Stats.MediansAgree | src/tms/bench/trend.py:38-57 | the chart's median and the comparison's are the same for any values |
| Stats.StatsForgetOrder | src/tms/bench/compare.py:41-48 | neither median nor summary depends on the order of the values |
| Stats.MedianIsTheMiddle | src/tms/bench/compare.py:41-48 | there is a median exactly when something was measured, and at least half of the measurements lie on each side of it |
| Compare.SummariseRun | src/tms/bench/compare.py:51-85 | the loop yields one entry per query that ran, folded from that query's executions alone |
| Compare.FoldingForgetsOrder | src/tms/bench/compare.py:51-85 | what is said of a query does not depend on the order of its executions |
| Compare.Statements | src/tms/bench/compare.py:172-174 | maps each named query of a snapshot to its SQL, the later of two winning |
| Compare.CompareRuns | src/tms/bench/compare.py:88-155 | refused exactly for different sets or the same run; otherwise one line per name that either run executed, in name order, each judged from that name's own entries, with the summary counts |
| Compare.VerdictsCover | src/tms/bench/compare.py:143-153 | the four verdict counts partition the table |
| Compare.TimedByRatio | src/tms/bench/compare.py:126-134 | with a positive baseline: slower exactly from 1.05 times it, faster exactly up to 0.95 times it |
| Compare.SwappingSides | src/tms/bench/compare.py:117-134 | swapping the sides turns the verdict round exactly when the two medians are not lopsided (zero against non-zero, or between 1.05 and 1/0.95 apart) or, with a side untimed, unless both sides ran the query and neither timed it; what each verdict turns into |
| Compare.QueryRows | src/tms/bench/compare.py:222-250 | one row per query that ran, in name order; all_failed exactly when no execution finished |
| Trend.Build | src/tms/bench/trend.py:85-173 | the dictionary-filling loops draw exactly the chart defined over each bucket's own rows |
| Trend.GatherRows | src/tms/bench/trend.py:94-118 | after the loop each axis slot and each cell holds the date, runs and times of exactly the usable rows that fall in it |
| TrendProofs.AxisIsSound | src/tms/bench/trend.py:120-124 | the axis holds every bucket with a usable execution once, oldest first |
| TrendProofs.OneSharedAxis | src/tms/bench/trend.py:124-156 | within a line x strictly increases, and points of two lines share an x exactly when they share a bucket |
| TrendProofs.ExecutionsAreConserved | src/tms/bench/trend.py:94-156 | the execution counts of all points sum to the number of usable rows |
| TrendProofs.LineConserves | src/tms/bench/trend.py:131-156 | one line counts every usable row of its cluster |
| TrendOrder.AgreedForgetsOrder | src/tms/bench/trend.py:85-173 | if the earliest rows of each bucket carry one time, every permutation of the history gives the same chart |
| TrendOrder.OrderMattersExactlyWhenTimesQuarrel | src/tms/bench/trend.py:102-118 | every permutation of a history gives the same chart exactly when the earliest rows of each bucket, and of each cluster's part of it, carry one time |
| TrendOrder.StoredHistoriesForgetOrder | src/tms/bench/store.py:97-111 | if a run has one start time and one moment is written one way, as in the stores, every permutation of the history gives the same chart, however it is grouped |
| TrendOrder.TwoTextsOfOneMoment | src/tms/bench/trend.py:102-118 | a history with two texts of one moment that a permutation draws differently |
| TrendOrder.ByRunForgetsOrder | src/tms/bench/trend.py:71-82 | grouped by run that always holds, as a run starts once |
| History.HistoryForQuery | src/tms/bench/store.py:97-111 | the executions of a query in its set's runs, newest first, at most the limit |
| History.StoredChartForgetsOrder | src/tms/bench/store.py:97-111 | as long as one moment is stored one way, the chart of what `history_for_query` returns is the same in whatever order the rows arrive, however it is grouped |
| History.ChartPointIsTheRunPagesMedian | src/tms/bench/service.py:254-297 | on an untruncated history drawn by run, a run has a point exactly when its page has a median for the query, and the point is that median |
| Poller.ClusterPoller.constructor | src/tms/collector/poller.py:158-184 | everything is due at once, at the base interval, with resource groups only if enabled |
| Poller.ClusterPoller.DueKinds | src/tms/collector/poller.py:193-198 | exactly the kinds whose time has come, JMX before queries |
| Poller.ClusterPoller.Reschedule | src/tms/collector/poller.py:200-207 | the kind is next due one interval in force after now; the others are unchanged |
| Poller.ClusterPoller.AdaptInterval | src/tms/collector/poller.py:380-399 | backs off on a large response, recovers well below the trigger, keeps the interval between |
| Poller.ClusterPoller.PollQueries | src/tms/collector/poller.py:287-360 | the cross-check, the counter, the interval and the last success after one query poll |
| Poller.ClusterPoller.Tick | src/tms/collector/poller.py:403-421 | a tick polls what was due when it began, in order, and reschedules each |
| Poller.FilteredListIsReportedExactlyWhenItPersists | src/tms/collector/poller.py:311-342 | over any history H-09 is reported exactly when the last h09_confirm_polls lists brought back were all empty beside a fresh non-zero JMX count, failed polls being neutral |
| Poller.IntervalFollowsLastClearResponse | src/tms/collector/poller.py:380-399 | the query interval is the backed-off one exactly when the last response outside the dead band was large |
| Poller.PollsKeepTheirInterval | src/tms/collector/poller.py:195-207 | two polls of one kind are never closer than the interval in force after the first |
| Poller.PollLoadIsBounded | src/tms/collector/poller.py:195-207 | n + 1 polls of one kind take at least n of the shortest interval that kind can have |
| EditList.ParseEdits | frontend/src/components/ConfigChangesPanel.tsx:78-98 | the loop over lines yields the edits of the lines in order, skipping blanks and comments |
| EditList.EditsRoundTripExactlyWhenWellFormed | frontend/src/components/ConfigChangesPanel.tsx:78-104 | printing and parsing gives a list of edits back exactly when every edit is trimmed and single-line and no set key holds = or looks like an unset or a comment |
| EditList.ParsingIsStable | frontend/src/components/ConfigChangesPanel.tsx:78-104 | for every text, parsing the printed edits gives the same edits again |
| Utf8.TruncateUtf8 | src/tms/collector/units.py:88-106 | a whole-character prefix of at most max_bytes bytes and, when cut, at least max_bytes - 4; exactly how many characters are kept |
| Utf8.DecodeEncode | src/tms/collector/units.py:106 | the lenient decode of an encoded text discards nothing |
| Utf8.CutIsWhole | src/tms/collector/units.py:100-105 | what the two trimming steps leave of the cut bytes is the encoding of whole characters |

## Left out

- Threads and locks: every service call, tick, worker turn and restart is one atomic step, and a set is
  read for the snapshot and handed to the worker in the same step.
- HTTP transport, TLS, JSON and the Trino wire format: a response is a success, a transient or a
  permanent failure.
- The Postgres stores, except the claim formula and the startup statement, which are the specification
  the in-memory stores are held to. In particular the 50-run limit of their list of active runs
  (`src/tms/bench/store.py:232-234`) is not modelled.
- Storage failures other than audit writes and the JMX snapshot of a poll: storage answers.
- Password hashing: whether a password matches is an input.
- The guard data, label and stats columns of a run, and titles and descriptions of sets, which are
  stored and shown but never decide anything.
- The text of messages (`last_outcome`, `paused_reason`, `error`): which message it is is modelled, its
  wording is not.
- `start_many` and `create_set`, which are sequences of steps that are modelled one by one.
- A failure of the pause between two queries, or of the store, inside the worker: both are the one
  event that raises out of a worker's turn.
- Letters whose upper case is more than one letter, such as the sharp s and the ligatures: they are left
  as they are, and no allowed first word contains an upper case of theirs.
- Utf8.DecodeEncode: the lenient decoder is modelled byte by byte, which matches on well-formed bytes; on
  malformed ones the replacement of whole ill-formed sequences is not modelled.
- Compare.SummariseRun: the fastest of a list that mixes measured and unmeasured times, which raises, is
  modelled as the fastest measured one.
- Compare.QueryRows: leaves out the first error text of a query.
- Trend.Build: leaves out the bucket labels; run ids are their decimal text, and start times are texts with
  the moment each reads as. Comparing a moment with a time zone to one without, which raises, is not modelled.
- Poller.ClusterPoller.Tick: the contents of snapshots beyond the query list's size, the JMX count and
  the verdict are not modelled, and each kind's reply is an input.
- `rollup`, `reconcile`, `diagnose` and the MBean attributes of a group: single-branch counts and joins
  that would add only easy members.
- The bare-segment filter of the query page (`src/tms/api/services.py:399-402`), which is a different
  relation than the group filter modelled here.
- `tms.ops`, `tms.fleet` and `tms.health` are not part of this model.
- Sessions, cookies, routing, rendering and configuration parsing.
