# Control plane of a deployment platform: a verified model

The platform builds deployments, places them on nodes, gates them behind health checks, switches traffic to them,
and keeps their logs and metrics. Most of that logic is state machines over database rows that several processes
touch at once, with a few dense algorithms beside them. This project models those state machines and algorithms in
Dafny and proves what the platform relies on.

SQL rows are maps from ids to records, Redis streams are sequences with a delivery position, clocks are integers
passed in, floating-point numbers are reals. What the outside decides (a probe's answer, the router, the file
system, a drawn UUID, which rows a SELECT returns first) is a parameter, so that every theorem holds for every
answer.

## How it is organised

| files | component | main results |
|---|---|---|
| `ReleaseLifecycle`, `ConcurrentTransitions`, `GuessedVersions` | the seven-state lifecycle and its compare-and-set, under any callers | every applied write is a legal edge; one winner per version; exactly which guessed versions do harm |
| `Orchestration`, `OrchestrationSafety`, `CrashRecovery`, `HealthGate`, `OrchestrationSteps` | any number of interleaved orchestrations, statement by statement, with crashes in them and in recovery | a route always leads to a serving release whose probe answered well; recovery settles everything; an orchestration left alone does what the controller promises |
| `ReleaseController`, `Health`, `Rollback` | the controller object, the probe loop, rollback | the exact outcome of a whole orchestration |
| `BuildJobs`, `RequeueRaces`, `BuildQueue`, `QueueFairness`, `QueueService` | the build queue at two grains | leases and attempts; exactly when a stale requeue strands a job; otherwise no queued job is lost or starves; the 3:1 weighting |
| `Scheduler`, `Fleet`, `FleetAccounting`, `ExpirySweep`, `SchedulerService` | node choice and resource accounting | usage is conserved; exactly when a release and an expiry sweep keep the books |
| `Metrics`, `MetricSweep`, `MetricLaws`, `Percentiles`, `Sorting` | aggregation and percentiles | the sweep is the per-bucket definition; conservation; exactly when nothing is lost |
| `LogSink`, `LogPaging`, `LogStreaming`, `LogRoundTrip` | segment rotation, paging and streaming | no line is lost; what is logged is what is read; exactly which rows a stream sends |
| `Hostname` | preview host names | every label is a DNS label and tells pull requests apart |
| `AgentProtocol` | the validator's pruned operation table | exactly when an envelope can never pass twice |
| `StateStore`, `DeploymentService` | the single-node deploy and stop service | the active deployment is the one running |

Every state machine is a `Step` function over a state and an action (or a call), and a run is any sequence of them.
Where the program is an object with fields, there is a class whose methods are proved to do what the functions say.

Where the program does not meet the property one would expect of it, the property has its exact condition here, and
a run that fails it:

- a stale requeue strands a job (`RequeueRaces.RequeueStrandsIff`): the lease sweep and `fail` read `attempt` in one
  statement and write in another that does not look at it;
- the event stream never sends a row that appears behind one already sent (`LogStreaming.SentByTheEndIff`,
  `LogStreaming.EverythingSentIff`): the rows are inserted by tasks of their own;
- a metrics window that starts before 1970 off a bucket boundary drops samples (`MetricLaws.NothingLostIff`);
- an envelope that arrives too far ahead of its timestamp can be accepted twice (`AgentProtocol.NeverAgainIff`);
- releasing credits only the latest placement, and the expiry sweep only the rows it selected
  (`FleetAccounting.ReleaseBalancesIff`, `ExpirySweep.ExpiryBalancesIff`);
- `transition` called with a version that was never read can write an illegal edge
  (`GuessedVersions.GuessIsHarmlessIff`);
- traffic activated from a stale copy of a release row can end up on a release that does not serve
  (`ReleaseController.ActivationServesIff`).

## Model

| member | source | states |
|---|---|---|
| `ReleaseLifecycle.EdgesAre` | src/releases.rs:40-56 | a release that has not ended may fail, may take the next step of the lifecycle, or be stopped once it is able to serve; no other edge is legal |
| `ReleaseLifecycle.LifeIsShort` | src/releases.rs:40-56 | any chain of legal edges from Starting has at most five, and up to Draining the status alone says how many were taken |
| `ReleaseLifecycle.SwapIsLegal` | src/releases.rs:343-376 | legality checked against an earlier read still holds at the later compare-and-set, because a matching version means the row is the one that was checked; the new row keeps version = number of statuses held |
| `ReleaseLifecycle.AppendHappened` | src/releases.rs:378-394 | the transition log only ever records edges the release has taken |
| `ReleaseLifecycle.InsertGrows` | src/releases.rs:160-207 | a new row starts a life of its own at version 1 and leaves every other row and its history alone |
| `ConcurrentTransitions.EveryAppliedWriteIsLegal` | src/releases.rs:336-412 | for every interleaving of any callers that pass versions they were shown: each release has lived a legal life, its version is one plus the transitions applied, there are at most five, and the log invents none |
| `ConcurrentTransitions.OneWinnerPerVersion` | src/releases.rs:353-376 | once a compare-and-set on a release and version has matched, none on the same pair matches in any later state, whoever issues it |
| `ConcurrentTransitions.EveryTransitionIsLogged` | src/releases.rs:378-394 | in every run in which no caller stops for good, every edge a release has taken is in the log or about to be put there by the call that took it |
| `GuessedVersions.GuessIsHarmlessIff` | src/releases.rs:336-376 | a call that passed its legality check can write an illegal edge in some run of behaved callers exactly when the version it expects is above the one the row had at the check and not above six |
| `GuessedVersions.Climb` | src/releases.rs:40-56 | from any status another caller can legally make any number of transitions the lifecycle has room for and end in Failed |
| `OrchestrationSafety.StatementKeepsInv` | src/releases.rs:473-577 | every single statement of one orchestration keeps the invariant that all the others rely on |
| `OrchestrationSafety.SaveRouteKeepsInv` | src/releases.rs:436-456 | the route upsert keeps every route on a serving release of its own project and environment while others run |
| `OrchestrationSafety.WriteKeepsInv` | src/releases.rs:353-376 | a compare-and-set by one orchestration never takes a routed release out of service under another's feet |
| `CrashRecovery.RoutesAlwaysServe` | src/releases.rs:414-577 | in every state of every interleaving, crashes and recoveries included, a route leads to an existing release of that very project and environment which is Ready or Active |
| `CrashRecovery.RoutesNeverVanish` | src/releases.rs:437-456 | once an environment has a route it has one in every later state |
| `CrashRecovery.LivesAreLegal` | src/releases.rs:473-577 | orchestrations and recovery together never take an illegal edge, and no release more than five |
| `CrashRecovery.RecoverSettles` | src/releases.rs:643-705 | the recovery loop, over the selected rows in any order, stops what was draining, activates what was routed and fails what never got traffic, so that every release is Active, Stopped or Failed; it changes no route and no settled release, and asks for the stop of exactly the containers it takes down |
| `CrashRecovery.RecoveryAfterAnyCrash` | src/releases.rs:625-706 | after a crash at any statement of any orchestrations or of an earlier recovery, one recovery does that, every routed release ends Active, and a second one finds nothing to do |
| `CrashRecovery.RecoveryInSteps` | src/releases.rs:643-705 | left to run, the statements of recovery, five a row, leave the tables and stop requests of the complete recovery the theorems speak of |
| `CrashRecovery.RecoverStepKeepsInv` | src/releases.rs:653-702 | every single statement of recovery keeps every route on a serving release and every life legal |
| `CrashRecovery.CrashThenRecover` | src/releases.rs:625-706 | a crash in any reachable state followed by recovery left to run brings the system up with nothing in flight and the tables recovered |
| `CrashRecovery.InterruptionsAre` | src/releases.rs:473-706 | what can be cut short and what that leaves: an orchestration at any statement, all of them in a crash, a row of recovery once its transition has begun |
| `HealthGate.OnlyHealthyReleasesServe` | src/releases.rs:502-532 | in every interleaving with crashes, a release that is Ready, Active, Draining or Stopped, or routed, is one whose own probe loop answered well |
| `OrchestrationSteps.OrchestrationInSteps` | src/releases.rs:473-577 | from any reachable state and whatever UUID is drawn and probe and router answer, one orchestration left to run alone ends, and tables and stop requests are what the controller promises |
| `OrchestrationSteps.MoveInSteps` | src/releases.rs:336-412 | the three statements of a transition move one row, keep routes, and hand over to the next stage |
| `ReleaseController.Controller.Transition` | src/releases.rs:336-412 | applies exactly when the row is there, its version is the expected one and the edge is legal; then status and version of that row move and the edge is logged, otherwise nothing changes |
| `ReleaseController.Controller.ActivateTraffic` | src/releases.rs:414-471 | for any copy of the row, stale or not: what happens to the tables, when it succeeds, and which release it displaced; with a current copy, the route moves and the release becomes Active, or nothing changes |
| `ReleaseController.Controller.DrainPrevious` | src/releases.rs:538-570 | the replaced release goes through Draining to Stopped with its container told to stop; one that is not Active is left alone |
| `ReleaseController.Controller.Prepare` | src/releases.rs:480-532 | the new release is Ready at version 3 exactly when one of the allowed probes meets the policy, otherwise Failed with its container told to stop; no route changes |
| `ReleaseController.Controller.SwitchTraffic` | src/releases.rs:534-570 | a Ready release takes over its environment and what was routed there is drained as far as the router lets it |
| `ReleaseController.Controller.OrchestrateRelease` | src/releases.rs:473-577 | the whole outcome: a failed probe leaves one more Failed release and every route and other release as before; a router that refuses leaves one more Ready release; otherwise the environment is switched and nothing else changes |
| `ReleaseController.AtMostOneActive` | src/releases.rs:473-577 | without crashes or rivals, after every sequence of orchestrations from the empty tables, an environment has at most one Active release and it is the routed one |
| `ReleaseController.ActivationServesIff` | src/releases.rs:414-471 | activating from a copy of the row leaves every route on a serving release exactly when the call is refused or the row itself still serves in that environment |
| `ReleaseController.Controller.ReconcileRow` | src/releases.rs:645-702 | one interrupted row is moved to its recovery target and its container asked to stop unless it became Active |
| `ReleaseController.Controller.Reconcile` | src/releases.rs:625-706 | the loop as written computes the recovery that the theorems are about, and returns the rows it updated in order |
| `Health.Judge` | src/health.rs:205-245 | no error exactly when status, body and every header meet the policy; a wrong status is reported before anything else |
| `Health.OccursIff` | src/health.rs:214-222 | a body contains a text exactly when the text can be cut out of it |
| `Health.WaitUntilHealthy` | src/health.rs:177-291 | healthy exactly when one of the first max(1, attempts) answers meets the policy; stops at the first; records are numbered 1..k and only the last can be healthy |
| `Rollback.SelectTarget` | src/rollback.rs:59-113 | in terms of the rows: of the releases of the environment, once serving, whose deployment is of the project, not the current one, running or stopped, with something to run, the newest; none exactly when there is none |
| `Rollback.ProductionTakesMore` | src/rollback.rs:31-57 | exactly who may roll back: the owner or the operator, with one of three scopes for production and one of three others elsewhere |
| `Rollback.Rollbacks.ExecuteRollback` | src/rollback.rs:138-240 | nothing changes without project, permission and target; otherwise one deployment carrying the target's artifact is added, releases and routes change as an orchestration changes them, and it succeeds, leaving an audit event, exactly when the orchestration does and the event can be written |
| `JobLeases.LeasesAndAttempts` | src/queue.rs:342-351 | with statements of any workers, sweepers and cancellers in any order, a job has an owner exactly while Running, and its successful claims carried 1, 2, 3, ... up to at most max_attempts |
| `JobLeases.FinishedForGood` | src/queue.rs:457-463 | Completed and Cancelled are absorbing under every later statement |
| `JobLeases.LostLeaseIsPowerless` | src/queue.rs:426-604 | a worker whose lease was swept, cancelled or given away cannot change the row, in any later run, until it claims again |
| `JobLeases.StatementsAre` | src/queue.rs:342-462 | claim, renew, complete and cancel in terms of the row: which rows they match and exactly what they write |
| `RequeueRaces.RequeueStrandsIff` | src/queue.rs:504-517 | for every run before the read and every run between read and write: a retryable failure or a sweep that read attempt a of max strands the job exactly when its WHERE clause finds the row and max - a claims have succeeded since the read |
| `RequeueRaces.StrandedByRequeue` | src/queue.rs:634-665 | nothing but such a requeue ever leaves a job queued without attempts |
| `RequeueRaces.ReadersAre` | src/queue.rs:634-691 | what a sweep selects, and what the two pending writes do: the branch by the row that was read, the effect by the row that is there |
| `RequeueRaces.StrandedForGood` | src/queue.rs:342-351 | a stranded job is never claimed in any later run; it can only be cancelled |
| `RequeueRaces.UpToDateRunsStrandNothing` | src/queue.rs:634-665 | in every run whose requeues write over the attempt they read, every queued job can be claimed |
| `RequeueRaces.TwoSweepsStrand` | src/queue.rs:634-665 | a run of claims and two sweeps, each with its SELECT, that strands a job |
| `RequeueRaces.FailAfterReclaimStrands` | src/queue.rs:504-517 | a run in which a worker's `fail` strands a job because the same worker claimed it again between read and write |
| `QueueDelivery.NoQueuedJobIsLost` | src/queue.rs:187-706 | in every run of the queue's methods, stale workers and duplicate messages included, a Queued job enqueued with at least one attempt has attempts left and an undelivered message in the stream of its own priority |
| `QueueDelivery.ClaimKeepsInv` | src/queue.rs:298-424 | a claim, successful or not, takes away no message that another queued job is waiting for |
| `QueueDelivery.FailKeepsInv` | src/queue.rs:494-604 | failing, even by a worker that lost its lease, leaves every queued job deliverable |
| `QueueDelivery.SweepRowKeepsInv` | src/queue.rs:649-701 | one row of the sweep leaves every queued job deliverable |
| `QueueFairness.ClaimWithPreviewReady` | src/queue.rs:303-312 | with a claimable preview head, which stream a claim is served from and what the counter becomes |
| `QueueFairness.PreviewIsPassedOverAtMost` | src/queue.rs:303-403 | a claimable preview head waits for at most 3 - c production claims, c being the counter when the wait begins |
| `QueueFairness.ExactShare` | src/queue.rs:303-403 | while both heads stay claimable exactly floor((n + c) / 4) of the next n claims are preview |
| `QueueFairness.QueuedJobMovesOn` | src/queue.rs:298-424 | no job starves: after four claims per message ahead of it, with any other calls in between, a queued job has left Queued |
| `QueueService.SweepEndsExpiredLeases` | src/queue.rs:632-706 | exactly the running jobs whose lease ended before now lose it, to the queue while they have attempts left and to Failed otherwise |
| `QueueService.RenewedLeaseHolds` | src/queue.rs:426-448 | after a renewal to t no sweep at t or before touches the job, whatever rows it goes over |
| `QueueService.TryIs` | src/queue.rs:316-420 | one try at a stream, in terms of rows and entries: a queued or failed job with attempts left is handed out and its entry stays pending, any other entry is acknowledged, and only production claims count |
| `QueueService.ClaimHandsOut` | src/queue.rs:342-411 | a claim hands out a job that was claimable and now runs for this worker under the next attempt number, and touches no other row; without a job it touches none |
| `QueueService.Service.EnqueueJob` | src/queue.rs:187-263 | adds a queued row without attempts and publishes it to the stream of its priority, or changes nothing when the deployment already has a job |
| `QueueService.Service.TryOne` | src/queue.rs:314-420 | reads one entry and leases its job under the next attempt number, or acknowledges it and moves on |
| `QueueService.Service.ClaimNext` | src/queue.rs:298-424 | the loop over the two streams is the claim the theorems are about |
| `QueueService.Service.RenewLease` | src/queue.rs:426-448 | the running job of its holder gets the new lease end and nothing else changes; for anyone else nothing changes |
| `QueueService.Service.AckJob` | src/queue.rs:450-492 | the running job of its holder becomes Completed with its lease cleared, every other row stays, and the entry is acknowledged in any case |
| `QueueService.Service.FailOrRequeue` | src/queue.rs:494-604 | the row of its owner goes back to the queue while attempts are left and the failure is retryable, otherwise to Failed; the entry is acknowledged and, in the first case, the job published again, whoever calls |
| `QueueService.Service.CancelQueued` | src/queue.rs:606-630 | a queued or running job becomes Cancelled with its lease cleared; nothing else changes |
| `QueueService.Service.RequeueExpired` | src/queue.rs:632-706 | the loop over the selected rows is the sweep, and the count is the number of rows with attempts left |
| `NodeChoice.SelectNode` | src/scheduler.rs:164-196 | a listed node that is among the candidates if there are any, not to be avoided, takes work and has room, of maximal score and smallest id among ties; none exactly when every listed node misses one of these |
| `NodeChoice.BestIsUnique` | src/scheduler.rs:186-194 | the choice is the same for every ordering of the active-node list |
| `NodeChoice.WhenScoresAreNumbers` | src/scheduler.rs:125-145 | following the floating-point arithmetic, a node that fits scores NaN exactly when it has no CPU or no memory at all, never an infinity, and a number when something of both is asked for |
| `NodeChoice.NanBreaksTheOrder` | src/scheduler.rs:189-194 | with one NaN among the scores the comparison has a cycle, so no order is promised |
| `NodeChoice.ScoreIsMeanFreeShare` | src/scheduler.rs:140-144 | the score is between 0 and 1 and is the mean of the CPU and memory shares the node would have left |
| `Fleet.RetireRemovesShare` | src/scheduler.rs:274-296 | stopping a release's placements takes exactly that release's share off every node's sum |
| `FleetAccounting.UsageIsConserved` | src/scheduler.rs:147-380 | from idle nodes, after any run of schedule, release, reschedule and expiry, each node's recorded CPU, memory and release count are the sums over its live placements and within capacity |
| `FleetAccounting.ClampNeverBites` | src/scheduler.rs:282-296 | in such a run GREATEST(0, ..) never changes a value: nothing is credited twice |
| `FleetAccounting.ReleaseBalancesIff` | src/scheduler.rs:252-301 | without the rule about scheduling, releasing keeps the books exactly when the release has no other live placement |
| `ExpirySweep.ExpiryBalancesIff` | src/scheduler.rs:303-355 | without that rule, the expiry sweep keeps the books exactly when no release has both an overdue placement and a Placed one that is not, in whatever order the rows are selected |
| `ExpirySweep.TwiceScheduledLosesCount` | src/scheduler.rs:147-355 | on any nodes, scheduling a release twice makes both releasing it and a sweep between the two lease ends lose count |
| `ExpirySweep.OneNodeLosesCount` | src/scheduler.rs:147-301 | a concrete run that does: one node, schedule, schedule, release |
| `SchedulerService.Scheduler.ScheduleRelease` | src/scheduler.rs:147-250 | places on such a node and charges it with exactly the request, or fails and changes nothing exactly when no listed node will do |
| `SchedulerService.ReleaseIs` | src/scheduler.rs:252-301 | if the latest placement is Placed or Active, every placement of the release becomes Stopped and that one's node is credited, never below nothing; otherwise nothing changes |
| `SchedulerService.Scheduler.ReleasePlacement` | src/scheduler.rs:252-301 | does that, reports whether the release was ever placed, and leaves it holding nothing |
| `SchedulerService.Scheduler.RescheduleFailedRelease` | src/scheduler.rs:357-380 | the old placement is released first and the new node is not the failed one; the books stay balanced |
| `SchedulerService.Scheduler.ReconcileExpiredLeases` | src/scheduler.rs:303-355 | exactly the overdue placements become Failed, each credited once, and their releases are returned |
| `Percentiles.PercentileInterpolates` | src/metrics.rs:75-91 | at a rank k + t the percentile lies the fraction t of the way from the k-th value to the next, the rank being pct / 100 of the way from first to last position |
| `Percentiles.AtIsBetween` | src/metrics.rs:82-90 | both neighbours are inside the list and the interpolated value lies between them |
| `Percentiles.PercentileIsOrdered` | src/metrics.rs:75-91 | the percentile lies between the extremes and grows with the percentage over all of 0..100, with the extremes at its ends |
| `MetricSweep.SweepBucket` | src/metrics.rs:238-251 | one turn of the inner loop collects exactly the samples of its bucket and leaves the index past them |
| `MetricSweep.Sweep` | src/metrics.rs:232-290 | the outer loop with its one moving index makes the points of the per-bucket definition |
| `MetricSweep.Aggregate` | src/metrics.rs:190-338 | filter, sort and sweep compute the series of the simple definition, for every list of samples |
| `MetricLaws.MatchingIs` | src/metrics.rs:208-219 | a sample counts exactly when metric and environment are those asked for and it was recorded in the closed window |
| `MetricLaws.PointsAreFloorBuckets` | src/metrics.rs:224-288 | point i begins at its bucket, and gives count, sum, statistics and completeness of exactly the matching samples whose second, floor-divided by the resolution, is first + i |
| `MetricLaws.OnePointPerBucket` | src/metrics.rs:224-232 | there is one point for each bucket from that of the start to that of the end |
| `MetricLaws.SeriesIgnoresOrder` | src/metrics.rs:208-222 | the series is the same for every permutation of the samples |
| `MetricLaws.CountsAndSumsAddUp` | src/metrics.rs:253-320 | point counts and sums add up to the summary's count and sum |
| `MetricLaws.NothingLostIff` | src/metrics.rs:224-247 | every matching sample is counted, whatever the samples, exactly when the window starts at or after 1970, or on a bucket boundary, or is empty |
| `MetricLaws.StatisticsAreOrdered` | src/metrics.rs:253-320 | min <= p50 <= p95 <= p99 <= max and min <= average <= max for every point with values and for the summary; a counter leads with its sum, other metrics with their average |
| `MetricLaws.StatisticsAreNamedRight` | src/metrics.rs:257-263 | min and max are values that bound all others, the average is the mean, and p50, p95 and p99 are interpolated at their ranks |
| `MetricLaws.SummaryIsNamedRight` | src/metrics.rs:292-320 | so are the summary's, of all values; without values they are zero or absent |
| `MetricLaws.PartialIff` | src/metrics.rs:233-235 | a series is partial exactly when its last bucket has not ended |
| `LogSink.NoLineIsLost` | src/logs.rs:155-289 | with a storage directory, after any calls and any write failures, the segments followed by the buffer are exactly the lines logged, and segment names tile 1..n |
| `LogSink.BufferIsBounded` | src/logs.rs:169-289 | the buffer is shorter than the threshold unless the last call failed, and longer by at most the number of failed calls |
| `LogSink.SegmentNamesDiffer` | src/logs.rs:174-181 | two segments never share a file name: their ranges are disjoint and ascending |
| `LogSink.SegmentsStayWhole` | src/logs.rs:178-196 | whatever writes fail and whatever they leave behind, every completed segment stays whole in its file |
| `LogSink.DurableLogSink.RotateSegment` | src/logs.rs:169-230 | writes the whole buffer as one segment and empties it, or fails, keeps the buffer and at most leaves a torn file under a name no segment has |
| `LogSink.DurableLogSink.Flush` | src/logs.rs:155-160 | rotates what is buffered; with an empty buffer it always succeeds |
| `LogSink.DurableLogSink.WriteLine` | src/logs.rs:240-289 | numbers the redacted line, buffers it, and rotates when the threshold is reached |
| `LogPaging.QueryLogs` | src/logs.rs:341-389 | a page is the first rows past the given sequence, up to the limit, which is 100 by default and 1000 at most; it says there are more exactly when there are and names its last sequence |
| `LogPaging.SelectIs` | src/logs.rs:349-356 | the query selects the rows of the deployment past the sequence and of the stream, if one is asked for, each once in ascending order |
| `LogPaging.RestIsSelected` | src/logs.rs:346-356 | asking for the rows after a page's last sequence gives exactly what the page left over |
| `LogPaging.ReadAll` | src/logs.rs:341-389 | following next_sequence ends and visits every selected row exactly once and in order, with or without a stream filter, for every limit of at least 1 |
| `LogPaging.BeginningSeesAllIff` | src/logs.rs:346-356 | reading from the beginning sees every row of the deployment exactly when none has sequence 0 |
| `LogPaging.ZeroLimitStalls` | src/logs.rs:346-389 | a limit of 0 gives an empty page without a next sequence that still reports more exactly when a row is left |
| `LogStreaming.StreamLogs` | src/api.rs:557-600 | the polling loop, whatever the polls find: what it has sent, and that it reports the end at the first turn that finds the deployment over and no further page |
| `LogStreaming.SentInOrder` | src/api.rs:561-590 | whatever order rows appear in, what is sent is strictly ascending, without repeats, and in the table |
| `LogStreaming.SentIff` | src/api.rs:561-590 | a row first found by successful poll i has been sent exactly when it lay past everything sent before that poll and the stream has got that far |
| `LogStreaming.SentByTheEndIff` | src/api.rs:561-590 | a row of the log at the end was sent exactly when it lay past everything sent at the first successful poll that found it |
| `LogStreaming.EverythingSentIff` | src/api.rs:561-590 | the stream ends having sent the whole log exactly when no row came late |
| `LogStreaming.LateRowIsNeverSent` | src/api.rs:561-590 | rows 1 and 3, then row 2: the stream ends without ever sending row 2 |
| `LogStreaming.AppendedIsAllSent` | src/api.rs:561-590 | if rows only appear behind those already there, the stream ends having sent the whole log |
| `LogStreaming.SteadyEndsIff` | src/api.rs:561-590 | on a log that no longer changes each successful poll sends 100 rows more, and the stream ends exactly when that covers the log and the deployment is over |
| `LogStreaming.AppendingIsOrderly` | src/logs.rs:346-356 | rows with larger sequence numbers than all those there only extend what a query returns |
| `LogRoundTrip.LoggedIsReadBack` | src/logs.rs:240-389 | whatever order the inserts complete in, reading from the beginning gives back every line logged, once, in order; the filters for stdout and stderr give back the lines of that stream |
| `Hostname.PreviewLabel` | src/hostname.rs:5-53 | fails exactly when the slug has no letter or digit; otherwise a valid DNS label with no two hyphens in a row: the sanitised slug and the number if they fit, else as much of the slug as fits with six digits of its digest; the "too large" error is unreachable |
| `Hostname.LabelsTellApart` | src/hostname.rs:6-52 | equal labels imply equal pull-request numbers even across slugs, equal slugs after sanitising when both fit, and digests that begin alike when both were cut |
| `Hostname.TrimmedIs` | src/hostname.rs:8-27 | the sanitised and trimmed slug has only lower-case letters, digits and single inner hyphens, and is empty exactly when the slug has no letter or digit |
| `Hostname.TrimmedKeepsLetters` | src/hostname.rs:8-27 | sanitising keeps every letter and digit of the slug, in order and in lower case |
| `Hostname.LabelsAreFixed` | src/hostname.rs:8-23 | a slug that already looks like a label is left as it is |
| `AgentProtocol.NeverAgainIff` | src/agent_protocol.rs:398-455 | an envelope past the duplicate check never passes again in any later run, however much is pruned, exactly when it did not arrive further ahead of its timestamp than twice the skew less the freshness window |
| `AgentProtocol.OnTimeIsNeverAgain` | src/agent_protocol.rs:398-455 | with a skew of at least one second, arriving at or after the timestamp is enough |
| `AgentProtocol.EarlyIsAcceptedAgain` | src/agent_protocol.rs:443-455 | otherwise the same envelope passes again once its entry has been pruned |
| `AgentProtocol.AgentProtocolValidator.RegisterCredentials` | src/agent_protocol.rs:368-371 | only the node's key changes |
| `AgentProtocol.AgentProtocolValidator.RevokeNode` | src/agent_protocol.rs:373-376 | only the set of revoked nodes grows |
| `AgentProtocol.AgentProtocolValidator.ValidateAndUnpack` | src/agent_protocol.rs:378-465 | accepted exactly when version, size, whole-second skew, registration, revocation, signature, operation table and payload all pass; each error exactly when its check fails and the earlier ones hold; only a genuine envelope changes the table, and it is entered even when its payload is of no use |
| `Store.Position` | src/store.rs:83-99 | the record with the id, and none exactly when no record has it |
| `Store.StateStore.InsertDeployment` | src/store.rs:110-117 | adds the record, or refuses a known id and changes nothing |
| `Store.StateStore.UpdateDeployment` | src/store.rs:130-139 | overwrites the record in place, or refuses an unknown id and changes nothing |
| `Store.StateStore.InsertProject` | src/store.rs:101-108 | adds the record, or refuses a known id and changes nothing |
| `Store.StateStore.UpdateProject` | src/store.rs:119-128 | overwrites the record in place, or refuses an unknown id and changes nothing |
| `Deploying.ActiveIsTheRunningOne` | src/service.rs:109-271 | in every run of creations, deploys and stops, whatever the runtime answers, a project's active deployment is its one running deployment, or None when none runs |
| `Deploying.FailedDeployOnlyAdds` | src/service.rs:134-187 | a deploy whose detection, build or start fails adds one Failed deployment, with the stage that failed and the image if there is one, and leaves the active one running in its own container |
| `Deploying.DeployReplaces` | src/service.rs:189-222 | a successful deploy makes the new deployment the only running one of its project, stops the one it replaces, noting a container that would not stop, and leaves every other row alone |
| `Deploying.StopStops` | src/service.rs:241-271 | a running deployment whose container stops becomes Stopped, its container is gone and its project has no active deployment; anything else changes nothing |
| `Deploying.NoContainerIsLeft` | src/service.rs:109-271 | if the runtime stops what it is asked to, the containers running are exactly those of the running deployments |
| `Deploying.DeploymentService.Deploy` | src/service.rs:109-223 | the steps as written have the effect the theorems are about; it succeeds exactly when project and id are right and detection, build and start succeed |
| `Deploying.DeploymentService.RetireOld` | src/service.rs:197-217 | the previously active deployment is stopped if it still runs; a failed container stop is noted and the container kept |
| `Deploying.DeploymentService.Stop` | src/service.rs:241-271 | stops and clears the active deployment, does nothing to one already over, and fails without change when the runtime does |

## Left out

- Storage errors at the queue's coarser grain: there each method is one step that succeeds; the finer grain allows a method to stop after any statement.
- Traffic router: only its answers matter here. Its own in-memory map is not modelled; route properties are about the `active_routes` table.
- At most one Active release across crashes or concurrent orchestrations: not true of the program (a crash after the route upsert can leave the old release Active but unrouted), so it is claimed only for sequential, crash-free runs.
- Health.Judge: the wording of errors and the waiting times between probes are not modelled.
- Rollback.Rollbacks.ExecuteRollback: ports, URLs and the metadata of the audit event are left out.
- Deployment status column of the queue: written without checking the job row, so nothing is claimed about it.
- NodeChoice.SelectNode: when a score is NaN the comparison is no order and what the sort returns first is unspecified, so only eligibility is stated; floating-point rounding is not modelled.
- Node heartbeats, registration and expiry: only the node fields the scheduler reads are modelled.
- 64-bit and 32-bit wrap-around of counters, versions and sequence numbers.
- MetricSweep.Aggregate: values are reals, so NaN and rounding are left out; the resolution is positive, as the parser guarantees; a bucket start outside the representable dates is not modelled.
- LogSink.DurableLogSink.RotateSegment: the text format of a line is not modelled.
- LogStreaming.StreamLogs: rows are never deleted while a stream runs, and a client that disconnects, which ends the loop early, is left out.
- Redaction: a function given to the sink; nothing is claimed about which secrets it removes.
- Hostname: SHA-256 is a parameter, so nothing is claimed about collisions of truncated slugs.
- AgentProtocol.AgentProtocolValidator.ValidateAndUnpack: one clock serves both checks; HMAC, payload parsing and the inspection of commands are parameters; token rotation is left out.
- Deploying.DeploymentService.Create: validation of names, directories and the server command is left out, and so is the race between creating a project and a deploy, which the program does not lock against.
- Deploying.DeploymentService.Deploy: the store does not fail, error texts are shortened, and ports, URLs and times are left out.
- HTTP handlers, OAuth and provider clients, webhooks, authentication, encryption, git checkout, process execution, the build cache, preview events, the CLI and the dashboard.
