# Verified model of the blackgrid backend

A Dafny 4.11 model of the stateful core of the blackgrid backend (an uptime monitor with IP
address management) and proofs about it. `dafny verify dfyconfig.toml` checks everything.

- **Monitor life** (`Incidents`, `Lifecycle`, `LifecycleProofs`, `Handlers`). The incident service,
  the incident hook, the check executor with its retry window, the push checker and the API
  handlers that write monitor rows are classes over a monitor table, a result table and an incident
  table. Every method is proved equal to a step of an atomic state machine; the results are about
  every run of those steps: gauge conservation, exactly-once notifications, the retry window as a
  closed form of the stored history, the coupling of status and incidents, severity, overdue
  detection.
- **Scheduler** (`Requests`, `Interleaving`, `WholeRequests`, `Exclusion`, `StopReturns`,
  `IncidentSafety`, `InterleavedLedger`, `Refinement`, `CalmLedger`, `StaleRows`, `Pausing`,
  `Heartbeats`, `EnqueuePass`, `Overtaking`, `InterruptedPass`). The loop goroutine, any number of
  workers, heartbeats and API requests are one interleaved step system. Every database call of a
  check, a hook or a request, every locked section and every channel operation has a step of its
  own: the look-up and the insert of an incident, the read of a row and its write back, the read of
  an incident and its acknowledgement or resolution. The steps `Api` and `Beat` stand for a request
  whose calls nothing gets in between of. Proved: the queue protocol in every interleaving and that
  Stop drains it, that it is what keeps the two-step opening of incidents safe, the exact laws of
  gauge, notifications and incident states in every interleaving, that undisturbed interleaved runs
  refine the atomic machine, when a pause persists, that only heartbeats move heartbeat times, and
  bounded overtaking.
- **Discovery scan** (`Discovery`, `Sorting`). The worker pool is a step system; every finished
  interleaving stores exactly the findings of a sequential specification, and every scan finishes.
- **Event bus** (`Events`, `BusLocking`). The bus with atomic operations, its delivery theorems,
  and the readers/writer-lock protocol beneath, which refines it subscriber by subscriber.
- **Addresses** (`Bytes`, `Addresses`, `Hosts`, `Allocation`). Enumeration, next-free search and
  the closed-form host count, three computations that must agree. CIDR notation is section 3.1 of
  RFC 4632; that a /31 has two usable hosts is section 2.1 of RFC 3021.
- **Two text functions** (`DnsMatch`, `Slug`). DNS value matching and slug generation.

## Where the code and its promises part

Each point names a lemma with a run or an input that shows it, and the one that says exactly when
the promise holds.

- A job marked with a row fetched before the monitor's previous check finished can leave the
  monitor up with an open incident: `StaleRows.StaleRowLeavesIncidentOpen`. Which rows are safe:
  `StaleRows.StaleCheckCoupling` for one check, `StaleRows.StaleProbedRowIsSafe` and
  `StaleRows.StalePushRowIsSafe` before the verdict is known.
- Two overlapping heartbeats open two incidents: `IncidentSafety.TwoHeartbeatsTwoIncidents`. The
  monitors this cannot happen to are, in runs in which no resolved incident is revived, exactly
  those that never hold a push token: `IncidentSafety.OneIncidentIffNoToken`.
- An acknowledgement whose update comes after a resolution makes the resolved incident active
  again: `InterleavedLedger.LateAcknowledgementRevives`. Resolved incidents stay resolved if and
  only if no acknowledgement's update meets one: `InterleavedLedger.ResolvedStaysIff`. With a check
  in between, a monitor without a token gets two active incidents this way:
  `InterleavedLedger.LateAcknowledgementTwoIncidents`.
- A resolve between a recovering check's look-up and its update makes the gauge fall twice and
  sends two resolved notifications: `CalmLedger.OverlappingResolveCountsTwice`, reached from a
  fresh start in `InterleavedLedger.RepeatedCloseIsReached`. So do two overlapping manual resolves:
  `InterleavedLedger.TwoResolvesCountTwice`. Three kinds of steps break the gauge: closes, by a hook
  or by hand, and acknowledgements that meet a resolved incident, and monitor deletions:
  `InterleavedLedger.WhatBreaksTheGauge`; when it is exact: `InterleavedLedger.GaugeExactIff`.
- A pause, or any other edit, that comes while a check of the monitor is running is undone when the
  check writes back the row it was started from: `Pausing.EditDuringCheckIsUndone`. A pause outlives
  whatever loop and workers do if and only if no check of the monitor is fetched, queued or running
  with its row still to be written: `Pausing.PausePersistsIff`.
- Deleting a monitor removes its incidents but not from the gauge: `Incidents.DeletionLeavesGauge`;
  by exactly the active ones: `Incidents.GaugeConservation`.
- After a pushed "down" an overdue check writes "down" where the stored history asks for
  "degraded": `LifecycleProofs.PushedDownDeparts`. A check departs from the closed form exactly when
  it starts from a down (or paused) row with too few failures: `LifecycleProofs.ClosedFormExactly`.
- A worker that finishes a check in the middle of a pass lets that monitor overtake a waiting one
  twice: `InterruptedPass.InterruptedPassOvertakesTwice`. So does an edit that reads a row before
  its check is stamped and writes it back after: `InterruptedPass.StaleEditOvertakesTwice`. With
  whole passes and no edit that puts a stamp back it cannot happen:
  `Overtaking.NobodyOvertakesTwice`.
- A prefix reports a free address and has none to hand out: `Allocation.FreeButNoneAvailable`; if
  and only if every host has a row and some row is marked available: `Allocation.FreeYetExhausted`.
- Enumeration does not mask its prefix and skips the hosts up to the given address:
  `Hosts.UnmaskedSkips`; it is complete if and only if the prefix is masked:
  `Hosts.CompleteIffMasked`.
- The comment on exact DNS mode says "as sets", but the code compares joined sorted lists:
  `DnsMatch.ExactIsNotSetEquality` has a comma and a repeat that tell the two apart. When they
  agree: `DnsMatch.ExactIsSetEqualityIff` on values without commas, `DnsMatch.ExactOnAllValues` on
  all.
- The comment on the `push` case of `runner.go` (line 39) says runs are skipped; the code runs the
  push checker, and the model does too.

## Model

All paths are relative to the repository root.

| member | source | states |
|---|---|---|
| Incidents.Ledger.LatestActive | backend/internal/db/incidents.sql.go:58-62 | the look-up finds the most recently started open or acknowledged incident of the monitor, and none only if there is none |
| Incidents.IncidentService.OpenForMonitor | backend/internal/service/incident.go:45-102 | an unknown severity and an unresolved incident of the monitor change nothing and are reported; otherwise one new open row of that monitor and severity, gauge up, one opened notice |
| Incidents.IncidentService.ResolveForMonitor | backend/internal/service/incident.go:106-148 | the whole effect: the latest active incident is closed, gauge down, one resolved notice; nothing without one |
| Incidents.IncidentService.Acknowledge | backend/internal/service/incident.go:150-179 | an open incident becomes acknowledged and nothing else changes; not found, already resolved and already acknowledged are told apart |
| Incidents.IncidentService.Resolve | backend/internal/service/incident.go:181-235 | an incident that is not resolved becomes so, gauge down, one resolved notice; repeating it is a no-op |
| Incidents.CallFollowsDiagram | backend/internal/service/incident.go:45-235 | the state diagram: what each call does to the status of every stored incident, that only its monitor's deletion removes one, and exactly when a new row appears, open, with which monitor and severity |
| Incidents.CallConserves | backend/internal/service/incident.go:45-235 | one call changes the gauge and the number of active incidents alike, except for incidents removed with their monitor |
| Incidents.GaugeConservation | backend/internal/service/incident.go:73-199 | over every run of calls the gauge and the active count move together, up to exactly the active incidents of deleted monitors |
| Incidents.DeletionLeavesGauge | backend/internal/service/incident.go:73-73 | an opened incident whose monitor is deleted leaves the gauge at one with nothing active |
| Incidents.GaugeExactWithoutDeletion | backend/internal/service/incident.go:73-120 | without monitor deletion the gauge's change is the change in active incidents |
| Incidents.NotificationsExactlyOnce | backend/internal/service/incident.go:75-131 | over every run each incident has exactly one opened notice, in creation order, and at most one resolved notice, exactly when it leaves the active set |
| Incidents.IncidentsOnlyAdvance | backend/internal/service/incident.go:159-197 | over every run resolved stays resolved, acknowledged never reopens, severity and monitor never change |
| Incidents.NeverTwoActive | backend/internal/service/incident.go:45-71 | with atomic calls no run gives a monitor two active incidents |
| Lifecycle.IncidentHook.OnScheduledStatusChange | backend/internal/service/incident_hook.go:21-41 | down opens a critical and degraded a warning incident of the monitor, up opens none and resolves: the whole effect on the incidents |
| Lifecycle.Runner.Run | backend/internal/monitor/runner.go:24-83 | the verdict is that of the selected checker and is stored before it is returned; an unsupported type stores nothing |
| Lifecycle.CountedDowns | backend/internal/monitor/scheduler.go:208-215 | the counting loop's stopping point is the length of the leading run of failures |
| Lifecycle.CheckExecutor.ExecuteCheck | backend/internal/monitor/scheduler.go:186-287 | the whole effect of a check started from any row, current or stale: stored result, debounced status, row write, hook on a status change; the heartbeat time in the table is left alone |
| Lifecycle.MonitorHandler.ReceivePushHeartbeat | backend/internal/api/handlers/monitor.go:756-864 | for an enabled row with a token the stored result and the new status are down or degraded exactly for those two words and up for every other text, also none, and both times move; otherwise nothing changes |
| Lifecycle.MonitorHandler.SetStatus | backend/internal/api/handlers/monitor.go:563-599 | pause and resume write status and enabled flag and nothing else |
| Lifecycle.MonitorHandler.UpdateMonitor | backend/internal/api/handlers/monitor.go:335-419 | the given type, a retry count of at least one and the given enabled flag are taken over, turning off pauses, turning on a paused one makes it unknown, all else stays; an invalid type changes nothing |
| Lifecycle.MonitorHandler.TestMonitor | backend/internal/api/handlers/monitor.go:631-674 | a manual test stores the probe's result and the check time, never status or incidents; it runs exactly on probed monitors and reports so |
| LifecycleProofs.WindowCounts | backend/internal/monitor/scheduler.go:202-215 | counting failures in the newest-first window of retry-count rows gives the trailing run of failures in the history, capped at the window |
| LifecycleProofs.NewestAt | backend/internal/db/query.sql.go:538-549 | the result window holds the last results, newest first |
| LifecycleProofs.TrailingDownsMeans | backend/internal/monitor/scheduler.go:208-215 | the trailing run of failures is at least n exactly if the last n results are failures |
| LifecycleProofs.CheckWrites | backend/internal/monitor/scheduler.go:228-247 | a check from any row writes that row back with a status and the check time, except for the heartbeat time, which stays as it is in the table, and appends its verdict |
| LifecycleProofs.ClosedFormExactly | backend/internal/monitor/scheduler.go:200-220 | for every row and history, the status written equals the closed form of the history if and only if the row was not already down or paused with too few failures behind it |
| LifecycleProofs.PushedDownDeparts | backend/internal/monitor/scheduler.go:200-220 | a run in which a check departs from it: a pushed down followed by an overdue check with a retry count of three |
| LifecycleProofs.DownBackedForever | backend/internal/monitor/scheduler.go:196-247 | in every run without heartbeats, manual tests, trimming and retry edits a down status has at least retry-count trailing failures behind it |
| LifecycleProofs.RetryRefinesHistory | backend/internal/monitor/scheduler.go:196-247 | so in every such run every check writes the closed form of the stored history |
| LifecycleProofs.HookActive | backend/internal/service/incident_hook.go:21-41 | what the hook does to the active incidents of the monitor, of all others, and to severities |
| LifecycleProofs.StatusIncidentCoupling | backend/internal/monitor/scheduler.go:222-286 | over every run of all atomic actions: paused iff disabled, at most one active incident, none while up, exactly one while down or degraded unless an operator resolved it |
| LifecycleProofs.TestLeavesHealth | backend/internal/api/handlers/monitor.go:645-678 | a manual test never opens or closes an incident and never moves a status, an enabled flag or a heartbeat time; it only adds to the history of a probed monitor |
| LifecycleProofs.UnhealthyHasOneIncident | backend/internal/monitor/scheduler.go:222-286 | the same from an empty database without manual resolution |
| LifecycleProofs.DebouncedRunsOnlyWarn | backend/internal/service/incident_hook.go:22-34 | with a retry count of at least two every incident of every scheduled run is a warning, also when the monitor went down later |
| LifecycleProofs.StepToDownLeavesIncidents | backend/internal/service/incident_hook.go:22-28 | in such runs the later step to down changes nothing in the incident table, the gauge or the notices |
| LifecycleProofs.OneRetryOpensCritical | backend/internal/monitor/scheduler.go:217-219 | the bound is exact: with a retry count of one the first failure opens a critical incident |
| LifecycleProofs.PushCheckStores | backend/internal/monitor/checker_push.go:30-64 | a check of a push monitor stores down exactly if there never was a heartbeat or the last is longer ago than the configured grace, two minutes without one, and writes up otherwise |
| LifecycleProofs.SilenceStoresDowns | backend/internal/monitor/checker_push.go:30-64 | once overdue, every check of every run without a heartbeat stores down, and nothing but a heartbeat moves the heartbeat time |
| LifecycleProofs.SilentPushGoesDown | backend/internal/monitor/scheduler.go:200-247 | so the monitor is down after at most retry-count such checks |
| Handlers.CreatedMonitor | backend/internal/api/handlers/monitor.go:207-292 | a created monitor: three retries unless one or more are given, a token for push monitors, unknown if on and paused if off, no history |
| Handlers.EditedMonitor | backend/internal/api/handlers/monitor.go:335-419 | an edit changes the one row as it says and leaves results and incidents alone |
| Handlers.RotatedToken | backend/internal/api/handlers/monitor.go:877-912 | push monitors have a token from then on, other monitors are refused |
| Handlers.TrimmedHistory | backend/internal/db/retention.sql.go:51-54 | retention takes results off the old end and changes nothing else |
| Handlers.PausedIsQuiet | backend/internal/api/handlers/monitor.go:547-599 | from a pause until the monitor is turned on again no check or heartbeat of any run stores, stamps or opens anything for it; a resume makes it unknown and enabled and changes nothing else |
| Heartbeats.HeartbeatWrites | backend/internal/api/handlers/monitor.go:770-825 | a heartbeat appends one result and writes the same status, read off its text, and both times; without a token or disabled it changes nothing |
| Heartbeats.SplitHeartbeatWrites | backend/internal/api/handlers/monitor.go:764-825 | split into its calls, with anything in between, it stores and writes the meaning of its text, and its hook runs exactly if that differs from the status it read |
| Heartbeats.HeartbeatProtects | backend/internal/monitor/checker_push.go:30-64 | a check within the grace period of a heartbeat stores and writes up |
| Heartbeats.HeartbeatTimeIsLastBeat | backend/internal/db/query.sql.go:987-990 | in every interleaving, whatever rows checks and edits were started from, a monitor's heartbeat time is that of the last heartbeat recorded for it since its creation |
| Exclusion.ProtocolForever | backend/internal/monitor/scheduler.go:115-184 | every interleaving keeps: an id is marked exactly when it is in one place (queue, one worker, or between mark and send), jobs leave in order, each received job is with one worker or finished once |
| Exclusion.NoMonitorTwice | backend/internal/monitor/scheduler.go:151-184 | in every run no monitor is queued twice, queued while running, or on two workers; marked means queued, running or being sent; at most 3W+1 ids are marked |
| Exclusion.HeldIsElsewhere | backend/internal/monitor/scheduler.go:177-183 | a monitor with a worker is marked, not queued and not with the loop |
| Exclusion.StopDrains | backend/internal/monitor/scheduler.go:107-113 | when Stop has returned the queue and the marks are empty and every accepted job was executed exactly once |
| Exclusion.StopMakesProgress | backend/internal/monitor/scheduler.go:107-184 | Stop returns: after the channel is closed worker steps use up a finite amount of work and one is always possible until all workers are done |
| StopReturns.StopReturnsFromAnywhere | backend/internal/monitor/scheduler.go:107-184 | after any run there is a continuation, without a failing call, in which Stop has returned, nothing is queued or marked, and every job accepted before or since was executed exactly once |
| Requests.EditIsReadThenWrite | backend/internal/api/handlers/monitor.go:335-419 | the read and the write back of an edit, a pause, a resume or a token rotation, and of an acknowledgement or a resolution, make up the atomic action if nothing comes between them; the last two write only if that changes something |
| Requests.TestIsReadThenWrites | backend/internal/api/handlers/monitor.go:631-674 | so do the read, the stored result and the stamp of a manual test |
| Requests.BeatIsReadThenWrites | backend/internal/api/handlers/monitor.go:764-861 | and the read, the stored result and the row update of a heartbeat, whose hook is called if and only if the status moved |
| WholeRequests.EditIsItsCalls | backend/internal/api/handlers/monitor.go:335-419 | in the interleaved machine the step of a whole edit, acknowledgement or resolution does what its calls do when nothing comes between them |
| WholeRequests.TestIsItsCalls | backend/internal/api/handlers/monitor.go:631-674 | the same for a manual test |
| WholeRequests.BeatIsItsCalls | backend/internal/api/handlers/monitor.go:764-861 | the same for a heartbeat up to its hook, which is started exactly if the status moved |
| IncidentSafety.SafeForever | backend/internal/monitor/scheduler.go:151-184 | the invariant behind the next row, kept by every step of every interleaving except an acknowledgement's update that meets a resolved incident |
| IncidentSafety.OneIncidentPerProbedMonitor | backend/internal/service/incident.go:45-71 | with every database call a separate step, in every interleaving in which no acknowledgement's update meets a resolved incident, a monitor that never holds a push token never has two active incidents |
| IncidentSafety.TwoHeartbeatsTwoIncidents | backend/internal/api/handlers/monitor.go:855-861 | two overlapping heartbeats of an enabled monitor that is up open two incidents |
| IncidentSafety.OneIncidentIffNoToken | backend/internal/service/incident.go:45-71 | from every start: all runs without such a revival keep a monitor at one active incident if and only if it never holds a push token |
| Refinement.QuietCall | backend/internal/monitor/scheduler.go:186-247 | a database call of a check that is not its last changes nothing the atomic machine can see |
| Refinement.CommittingCall | backend/internal/monitor/scheduler.go:228-286 | the last database call of a check leaves the monitor and the incidents as the atomic check would |
| Refinement.CalmRunsAreAtomic | backend/internal/monitor/scheduler.go:115-287 | every undisturbed interleaved run is matched step by step by a run of the atomic machine |
| Refinement.CalmCoupling | backend/internal/monitor/scheduler.go:222-286 | so after every such run status and incidents of an idle monitor are coupled |
| Refinement.LostWindowDebounces | backend/internal/monitor/scheduler.go:200-220 | a failing result query, which the code ignores, counts no failures: down becomes degraded for a monitor with retries that was not down or paused, and any other verdict stands |
| CalmLedger.RunMakesCalls | backend/internal/service/incident_hook.go:21-41 | the incidents of a run of actions are those of the service calls it makes |
| CalmLedger.CalmLedgerExact | backend/internal/service/incident.go:63-131 | an undisturbed interleaved run satisfies the gauge and notification laws of the service calls of its atomic run |
| CalmLedger.OverlappingResolveCountsTwice | backend/internal/service/incident.go:106-131 | a manual resolve between look-up and update of a recovering check steps the gauge and sends the notice twice |
| InterleavedLedger.MoveHasEffect | backend/internal/service/incident.go:63-199 | every step of loop, workers, heartbeats and requests has at most one effect on the ledger: an insert, a close, an acknowledgement or a cascade |
| InterleavedLedger.WhatBreaksTheGauge | backend/internal/db/incidents.sql.go:104-125 | a resolved incident is closed again exactly by a hook's or a manual resolve's late update, revived exactly by an acknowledgement's late update, and incidents are lost exactly to deletions of monitors that have active ones |
| InterleavedLedger.GaugeInEveryRun | backend/internal/service/incident.go:73-199 | in every interleaving: gauge change = change in active incidents + incidents lost to deletions - closes and acknowledgements that met a resolved incident |
| InterleavedLedger.GaugeExactIff | backend/internal/service/incident.go:73-199 | so the gauge is exact iff the losses equal those closes and acknowledgements in number; without losses, iff there were none |
| InterleavedLedger.NoticesInEveryRun | backend/internal/service/incident.go:75-131 | in every interleaving: one opened notice per new incident, in order, and for each incident as many resolved notices as it left the active set and was closed again |
| InterleavedLedger.IncidentsAdvanceInEveryRun | backend/internal/service/incident.go:104-199 | in every interleaving an incident that no late acknowledgement revives stays resolved, acknowledged never reopens, severity and monitor never change |
| InterleavedLedger.ResolvedStaysIff | backend/internal/service/incident.go:150-165 | a run keeps resolved incidents resolved if and only if no acknowledgement's update in it meets one |
| InterleavedLedger.TwoResolvesCountTwice | backend/internal/service/incident.go:181-199 | any two overlapping manual resolves of an active incident step the gauge and send the notice twice |
| InterleavedLedger.LateAcknowledgementRevives | backend/internal/service/incident.go:150-165 | any acknowledgement of an open incident that a resolve overtakes leaves it active, with the gauge already down and the notice out |
| InterleavedLedger.RepeatedCloseIsReached | backend/internal/service/incident.go:106-131 | from every start at which a probed monitor that is not up has an active incident: an undisturbed run, then an operator's resolve and the check's close, count its resolution twice |
| InterleavedLedger.LateAcknowledgementTwoIncidents | backend/internal/service/incident.go:150-199 | from every start at which a probed monitor is down with one open incident, an acknowledgement overtaken by a resolve and the next check's hook leaves it with two active ones |
| StaleRows.StaleCheckCoupling | backend/internal/monitor/scheduler.go:196-286 | from every coupled database, also with incidents resolved by hand, a check keeps status and incidents together if and only if its verdict moves the status of the row it was started from, or that row agrees with the incidents |
| StaleRows.StaleProbedRowIsSafe | backend/internal/monitor/scheduler.go:196-286 | a row of a probed monitor is safe for every verdict and time if and only if its status is unknown or agrees with the incidents |
| StaleRows.StalePushRowIsSafe | backend/internal/monitor/checker_push.go:30-64 | the same for push monitors, which also may be up without ever a heartbeat, or degraded with enough failures stored |
| StaleRows.StaleRowLeavesIncidentOpen | backend/internal/monitor/scheduler.go:143-183 | from every start with a healthy monitor without incident some run of loop and worker steps alone, all calls succeeding, ends idle, up and with an open incident |
| Pausing.PausePersistsIff | backend/internal/monitor/scheduler.go:196-247 | whatever loop and workers do and whichever of their calls fail, a paused monitor stays paused if and only if no check of it is fetched, queued or running with its row still to be written |
| Pausing.EditDuringCheckIsUndone | backend/internal/monitor/scheduler.go:228-247 | from every start at which a monitor is due, a pause, resume, edit or token rotation during its check is undone by the check: type, token, retry count and enabled flag are the old ones and it is not paused |
| EnqueuePass.JobQueue.EnqueueDue | backend/internal/monitor/scheduler.go:151-169 | a pass over the due rows marks and sends, skips marked ids, and unmarks what does not fit |
| EnqueuePass.PassTakesFirstUnmarked | backend/internal/monitor/scheduler.go:151-169 | the pass accepts exactly the first unmarked rows that fit, in order, and marks exactly those |
| EnqueuePass.UninterruptedLoopIsPass | backend/internal/monitor/scheduler.go:151-169 | however the interleaved loop, left alone by the workers, gets through its rows: marks, queue and accepted jobs are those of the pass and nothing else changes |
| EnqueuePass.LoopFinishes | backend/internal/monitor/scheduler.go:151-169 | and it can always get through |
| Overtaking.NeverCheckedFirst | backend/internal/db/query.sql.go:620-626 | the order of the due query: never checked first, then by check time; a total preorder |
| Overtaking.NobodyOvertakesTwice | backend/internal/db/query.sql.go:620-626 | in every run of the interleaved scheduler with whole passes and no edit that puts a check time back: while a due monitor waits, no other monitor is accepted twice, so fewer are accepted than there are monitors |
| InterruptedPass.InterruptedPassOvertakesTwice | backend/internal/monitor/scheduler.go:143-183 | with any number of workers, from every start with enough monitors to fill the queue: if workers get into a pass, a monitor is accepted twice while one that both fetches returned in query order is never accepted |
| InterruptedPass.StaleEditOvertakesTwice | backend/internal/api/handlers/monitor.go:335-419 | the same with whole passes, if an edit reads the row before its check is stamped and writes it back after |
| Sorting.SortIsOrderedPermutation | backend/internal/monitor/checker_dns.go:243-250 | the sort used below is an ordered permutation for every total order |
| Sorting.SortedEqualIffSameMultiset | backend/internal/service/discovery.go:442-446 | sorted copies are equal exactly when the originals are equal as multisets |
| Discovery.IntSliceEq | backend/internal/service/discovery.go:452-462 | the comparison loop decides equality |
| Discovery.ClassifySeen | backend/internal/service/discovery.go:438-450 | new iff there is no row, changed iff the prior ports are non-empty and differ as multisets, known otherwise |
| Discovery.LatestPortsMeans | backend/internal/db/discovery.sql.go:203-208 | the prior ports are those of the most recent stored finding of the address, none without one |
| Discovery.BuildIndex | backend/internal/service/discovery.go:354-357 | the index loop computes the index of the rows |
| Discovery.IndexKeepsLast | backend/internal/service/discovery.go:354-357 | the index holds, for every key of a row, the last such row, and no other key |
| Discovery.InvForever | backend/internal/service/discovery.go:359-413 | the scan invariant, kept by every step of every interleaving of every number of workers |
| Discovery.ScanFindsExactlyExpected | backend/internal/service/discovery.go:354-413 | a finished scan stored exactly the findings it owes, at most one per address: every responding host with its ports, new without a row, changed if its most recent finding before the scan had ports and other ones, known otherwise; and every unseen row in one of the four statuses as stale |
| Discovery.ScansAgree | backend/internal/service/discovery.go:368-413 | confluence: worker count and interleaving do not matter |
| Discovery.ScanFinishes | backend/internal/service/discovery.go:359-413 | a scan with n workers takes at most 4 hosts + n + index + 2 steps, and one more is possible if and only if it has not finished |
| Discovery.FindingStore.PersistSeen | backend/internal/service/discovery.go:464-498 | one finding with the probed ports is appended: new without a row, changed if the most recent stored finding of the address had ports and other ones, known otherwise |
| Discovery.FindingStore.PersistStale | backend/internal/service/discovery.go:538-546 | one stale finding without ports is appended |
| Discovery.FindingStore.SweepStale | backend/internal/service/discovery.go:398-413 | in whatever order the index is walked, one stale finding per unseen row in one of the four statuses whose key is an address, and nothing else |
| Events.EventBus.Matches | backend/internal/events/bus.go:90-118 | the filter loops decide: one of the kinds if any are named, and one of the object types if any are named |
| Events.EventBus.TrySend | backend/internal/events/bus.go:53-59 | the non-blocking send drops on a full buffer |
| Events.EventBus.Publish | backend/internal/events/bus.go:30-61 | unless the bus is closed, the event, with id and time filled in only where missing, is appended to exactly those registered channels whose filter wants it and that hold fewer than a hundred events; nothing else changes, in whatever order the map is walked |
| Events.EventBus.Subscribe | backend/internal/events/bus.go:63-77 | a fresh empty channel is registered, also after shutdown |
| Events.EventBus.Unsubscribe | backend/internal/events/bus.go:77-84 | closes and removes a registered channel, does nothing on a second call |
| Events.EventBus.Shutdown | backend/internal/events/bus.go:128-136 | closes and removes every registered channel and sets the closed flag |
| Events.DeliveredInOrder | backend/internal/events/bus.go:47-60 | over every run what a subscriber got is an in-order subsequence of the matching events since it subscribed, short by exactly the drops |
| Events.CompleteIffNoDrop | backend/internal/events/bus.go:53-69 | it is all of them if and only if its buffer was never full at a matching publish |
| Events.OnlyWantedDelivered | backend/internal/events/bus.go:47-60 | in every run all that entered a subscriber's channel is wanted by both lists of the filter it subscribed with |
| Events.WantedIsDelivered | backend/internal/events/bus.go:47-60 | and at every point of a run a published event enters exactly the channels that want it and have room |
| Events.OpenIffRegistered | backend/internal/events/bus.go:77-136 | in every run a channel is open exactly while it is registered |
| Events.SubscribersAreIsolated | backend/internal/events/bus.go:47-60 | what a subscriber sees is what it would see with all others absent |
| BusLocking.SafeForever | backend/internal/events/bus.go:30-136 | the lock protocol's invariant, kept by every step of every interleaving |
| BusLocking.BusNeverPanics | backend/internal/events/bus.go:77-136 | in every interleaving no send hits a closed channel and no channel is closed twice |
| BusLocking.NothingAfterShutdown | backend/internal/events/bus.go:34-36 | once the closed flag is set nothing enters any channel in any continuation |
| BusLocking.PublishVisitsEachOnce | backend/internal/events/bus.go:47-51 | between lock and unlock a publisher visits each registered subscriber exactly once, whatever the others do |
| BusLocking.SubscriberSeesAtomicBus | backend/internal/events/bus.go:30-136 | for each subscriber the locked bus is the atomic bus under one order of its events |
| BusLocking.ConcurrentDelivery | backend/internal/events/bus.go:47-60 | so the delivery law holds with concurrent publishers |
| Addresses.ContainsIsInterval | backend/pkg/ipam/ipam.go:65-65 | containment in a prefix is an interval of numbers |
| Addresses.MaskedSameRange | backend/pkg/ipam/ipam.go:34-34 | masking keeps the range and is idempotent |
| Bytes.OrIsSetBit | backend/pkg/ipam/ipam.go:52-52 | on a byte, or with a shifted one adds the weight of the bit unless it is set |
| Hosts.SetBitOfNumber | backend/pkg/ipam/ipam.go:49-53 | setting bit i mod 8 of byte 3 - i/8 sets bit i of the address |
| Hosts.SetHostBits | backend/internal/service/discovery.go:617-623 | the in-place byte loop computes the address with its low host bits set |
| Hosts.Broadcast | backend/internal/service/discovery.go:616-624 | the broadcast address is the address with all host bits set |
| Hosts.EnumerateIPv4Hosts | backend/internal/service/discovery.go:603-636 | terminates on every prefix, also at 255.255.255.255, and returns exactly the ascending interval a+1 .. broadcast-1 below /31 and a .. last otherwise; the two errors |
| Hosts.ListsExactlyTheHosts | backend/internal/service/discovery.go:601-636 | for a masked prefix that is every host once, ascending, and nothing else |
| Hosts.UnmaskedListsTheRest | backend/internal/service/discovery.go:612-635 | for an unmasked prefix it is exactly the hosts from the given address on |
| Hosts.CompleteIffMasked | backend/internal/service/discovery.go:612-635 | the list holds every host of the range if and only if the prefix is masked |
| Hosts.UnmaskedSkips | backend/internal/service/discovery.go:612-635 | an unmasked /29 of which only one of six hosts is listed |
| Allocation.BuildSet | backend/pkg/ipam/ipam.go:36-41 | the set of the addresses that parse |
| Allocation.FindFree | backend/pkg/ipam/ipam.go:43-77 | the least host not in use, and failure only if every host is in use |
| Allocation.GetNextAvailableIP | backend/pkg/ipam/ipam.go:29-78 | the same for any text and any stored texts, IPv4 and IPv6, on the masked prefix |
| Allocation.NextIsFirstUnusedHost | backend/internal/service/prefix.go:115-132 | for IPv4 a result is right if and only if it is the first unused element of the enumeration |
| Allocation.AllocationWalksTheHosts | backend/internal/service/prefix.go:115-132 | allocating and storing repeatedly from an empty prefix hands out the enumeration, in order |
| Allocation.AllocationsUntilTotal | backend/internal/service/prefix.go:115-178 | and fails for the first time after exactly as many allocations as the closed-form count |
| Allocation.CountTaken | backend/internal/service/prefix.go:158-163 | the rows whose status is not "available" are counted, also those without a status |
| Allocation.TotalHosts | backend/internal/service/prefix.go:165-178 | for IPv4 the count is the length of the enumeration of the masked prefix, at every length |
| Allocation.ShiftedOne64Wraps | backend/internal/service/prefix.go:165-178 | the shift the code computes for IPv6 is 2^h wrapped to 64 bits |
| Allocation.Utilization | backend/internal/service/prefix.go:148-202 | total, allocated, clamped free and percentage for every IPv4, IPv6 or unparsable prefix and all rows |
| Allocation.TotalIsHostCount | backend/internal/service/prefix.go:165-178 | the closed form equals the number of enumerated hosts from /0 to /32 |
| Allocation.FreeIsUnrowedPlusMarked | backend/internal/service/prefix.go:180-183 | if the rows are distinct hosts the clamp never fires, allocated and free add up to the total, and free is hosts without a row plus rows marked available |
| Allocation.FreeYetExhausted | backend/internal/service/prefix.go:115-183 | free addresses are reported while allocation fails if and only if every host has a row and some row is marked available |
| Allocation.FreeButNoneAvailable | backend/internal/service/prefix.go:158-183 | a /32 whose row is marked available: one free address, and allocation fails |
| DnsMatch.SortedLower | backend/internal/monitor/checker_dns.go:243-250 | the sorted list of the lower-cased values |
| DnsMatch.MatchValues | backend/internal/monitor/checker_dns.go:205-241 | up to upper and lower case: all: every expected value was returned, else the first missing one; exact: the joined sorted lists agree; any other mode: some expected value was returned |
| DnsMatch.JoinedEqualIffSamePieces | backend/internal/monitor/checker_dns.go:228-228 | for all lists, joined texts are equal exactly when the values cut at commas are |
| DnsMatch.ExactIffSameMultiset | backend/internal/monitor/checker_dns.go:221-231 | for comma-free values exact accepts if and only if the lower-cased lists are equal as multisets, or one is empty and the other is one empty value |
| DnsMatch.ExactIsSetEqualityIff | backend/internal/monitor/checker_dns.go:221-231 | on comma-free values exact mode is the set comparison the comment promises if and only if the lists are not the blank exception and, if they hold the same values, hold each equally often |
| DnsMatch.ExactIsSetEqualityWithoutRepeats | backend/internal/monitor/checker_dns.go:225-228 | in particular on lists without repeats, up to the blank exception |
| DnsMatch.ExactOnAllValues | backend/internal/monitor/checker_dns.go:221-231 | on all values exact accepts if and only if the sorted lists cut at commas are equal; equal multisets always are, unequal ones only with a comma or in the blank exception |
| DnsMatch.ExactImpliesAllImpliesAny | backend/internal/monitor/checker_dns.go:211-241 | exact implies all with one exception, and all implies any exactly if something is expected |
| DnsMatch.ExactIsNotSetEquality | backend/internal/monitor/checker_dns.go:225-228 | a value with a comma and a repeated value for which exact mode is not set comparison |
| Slug.ValidateSlug | backend/internal/service/status_page.go:126-134 | accepts exactly the texts that are words of lower-case letters and digits joined by single hyphens: not empty, only a-z, 0-9 and hyphens, no hyphen at an end, no two in a row |
| Slug.LanguageIsWellFormed | backend/internal/service/status_page.go:28-28 | that language is: non-empty, only such characters and hyphens, no hyphen at either end, no two in a row |
| Slug.GenerateSlugFromName | backend/internal/service/status_page.go:107-124 | the slug is the lower-cased words of the name joined by single hyphens |
| Slug.SlugSplitsAtSeparator | backend/internal/service/status_page.go:117-121 | a hyphen, blank or underscore anywhere in a name puts one hyphen between the slugs of what is before and behind it |
| Slug.SlugIgnoresTheRest | backend/internal/service/status_page.go:112-121 | any other character that is not a-z or 0-9 in lower case leaves no trace |
| Slug.SlugKeepsLetters | backend/internal/service/status_page.go:108-115 | letters and digits stay, in lower case and in order |
| Slug.GeneratedIsEmptyOrAccepted | backend/internal/service/status_page.go:107-134 | it is empty or accepted, and empty exactly if the name has no letter or digit of the slug alphabet |
| Slug.AcceptedIsFixed | backend/internal/service/status_page.go:107-134 | accepted slugs come back unchanged, so generation is idempotent |

## Left out

- Refinement.CalmRunsAreAtomic: is for runs without failing database calls, overlapping heartbeats, requests that others get in between of, API actions on a monitor with a marked job, and stale rows; `StaleRows.StaleRowLeavesIncidentOpen`, `IncidentSafety.TwoHeartbeatsTwoIncidents` and `InterleavedLedger.TwoResolvesCountTwice` show what the last, the second and the third exclude. The ledger laws hold in all runs (`InterleavedLedger`).
- IncidentSafety.OneIncidentPerProbedMonitor: takes the set of monitors that ever hold a push token as fixed in advance, and is for runs without a revived incident; `InterleavedLedger.LateAcknowledgementTwoIncidents` has a run with one that breaks the bound.
- LifecycleProofs.RetryRefinesHistory: excludes heartbeats, manual tests, retention trimming and retry-count edits, which break the closed form in ways `LifecycleProofs.ClosedFormExactly` covers check by check.
- LifecycleProofs.DebouncedRunsOnlyWarn: excludes, besides those, manual resolution, after which a later step to down opens a critical incident.
- LifecycleProofs.SilentPushGoesDown: ends with the next heartbeat, and a pushed "down" does not persist either: a fresh heartbeat makes the next check "up".
- Overtaking.NobodyOvertakesTwice: is for whole passes, succeeding checks, a fixed set of monitors, and edits that do not span a stamp of their monitor; `InterruptedPass` shows that the first and the last are needed.
- StopReturns.StopReturnsFromAnywhere: states that a run in which Stop returns exists, and `Exclusion.StopMakesProgress` that after the channel is closed no run can go on for ever; that the loop gets its turn, and that started calls return, is scheduling and is not part of the model.
- Discovery.ScanFindsExactlyExpected: is for scans that are not cancelled and whose writes succeed.
- Allocation.TotalHosts: for IPv6 it states the 64-bit shift the code computes, which is not a host count from 63 host bits on.
- Allocation.Utilization: computes the percentage over the reals, not in floating point.
- Lifecycle.CheckExecutor.ExecuteCheck: leaves out the check timeout and the published events; failing database calls, also the result query whose failure the code ignores, are steps of `Interleaving` instead.
- Lifecycle.MonitorHandler.ReceivePushHeartbeat: a failing result insert is ignored by the code and not modelled.
- Slug.GenerateSlugFromName: takes the Unicode lower-case and white-space tables as parameters and asks of them only what concerns the slug alphabet.
- DnsMatch.ExactIffSameMultiset: takes the lower-case table as a parameter that neither makes nor removes commas.
- `SortInPlace`, `ToBytes` and the language of the slug pattern stand for the library's sorts, address bytes and regular expressions.
- Grace periods are unbounded integers; the 64-bit overflow of very long ones is not modelled.
- The due query is modelled by its enabled, status and order clauses; intervals and the clock choose which rows it returns.
- Parsing of CIDR texts, addresses, JSON and identifiers: an input is its parsed value or the fact that it does not parse. IPv6 zones are left out.
- `last_status_change_at`, details, notes, summaries, latencies, reverse DNS and event payloads: columns nothing modelled reads.
- The network checkers and the scan prober: their verdicts are arbitrary inputs.
- The documented rescan interval, retention, configuration masking, aggregate status, roles, and the site, VLAN and device services: easy members or promises the code does not keep.
- HTTP, SQL transport, metrics other than the open-incidents gauge, logging, the event stream writer and the frontend.
