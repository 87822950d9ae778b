# Verification of the remote-write controller

This project models the part of the multi-tenant Prometheus proxy that moves metrics: the
remote-write controller with its self-heal watchdog, the send pipeline, the tenant access rules
and the proxy's round-robin balancer. It states what each of them promises and proves it for all
inputs, all runs and all interleavings.

## How it is organised

**The controller as a state machine.** `JobHealth` holds the fields of one job struct and the
questions the watchdog asks of it. `ControllerSteps` gives one function per critical section under
the controller's lock. A state keeps every job struct ever made, so that a struct that was stopped
can still be written to by the goroutine that ran it; an append-only log records what happened and
is never read by the controller. `ControllerRuns` puts the critical sections together as events: a
run is any interleaving of clock ticks, loads, reconciles, sweeps, stops and the separate writes of
collection cycles, of registered and of already stopped jobs alike. A sweep's `now` is read before
the lock is taken and may lag behind the clock. Registered keys are visited in any order.

**Run-level theorems.** `ControllerInvariant`, `ControllerSoundness` and `ControllerKeeps` show what
every event keeps. `History` reads timers and counters off the log alone, and `HistoryLaws` says by
positions which entry decides each of them. On that rest
`ControllerSafety` (when a restart or recreate may happen, how often, and the life of a job),
`SweepOutcome` (when a sweep must act, from the log alone), `Recovery` (recreates go on, in bounded
time each), `Escalation` (a restart happens in bounded time), `IdleTenants` (when nothing may happen),
`StallEpisodes` and `RestartTrace` (a documented rule that does not hold, exactly when it does, and a
run in which it does not), `ProcessEnd` (the exit that does not return), `SweepLaws` (the
sweep is independent of the map order), `ReconcileLaws` and `Synchronisation` (convergence,
idempotence, and what they mean field by field) and `Recorded` (what is served and reported);
`LogOrder` and `ControllerFrames` say what events leave alone.

**The controller as it is written.** `RemoteWriteJobs` and `RemoteWriteController` are the two
classes with their mutable fields; `Reconciler`, `Watchdog` and `CollectionCycle` are the methods
that loop over them. A ghost field holds the abstract state, and each method is proved to take it
through the corresponding step; `ControllerRefinement` turns these steps into events of runs.

**The send pipeline.** `Dedup`, `Relabel`, `RelabelLaws`, `Batches`, `Series`, `Delivery` and
`SendMetrics`: each
loop is proved against a specification function or relation, and the laws about those follow. The
network answers every POST as it likes and keeps a record of them; the retry loops of one fan-out
take turns in any order. Regular expressions and label fingerprints are arbitrary functions.

**Selectors, access and balancing.** `Text`, `Selector`, `TenantManager`, `PatternLaws` and
`LoadBalancing`.

## Where the code and its documentation disagree

The model follows the code.

- `internal/remote_write/controller.go:891-894` is a stale comment: it says that deduplication keeps
  the most recent sample; the function keeps the highest value (`Dedup.ChosenIsEarliestMaximum`), so
  a newer sample can be the one that is dropped (`Dedup.NewerSampleMayLose`).
- `internal/remote_write/controller.go:563-568` is a stale comment: it says that the start of a stall
  is cleared only by a successful collection; a clean empty cycle clears it too
  (`ControllerSafety.LineageFields`), as the first cycle of the second job in `RestartTrace` does.
- `internal/remote_write/controller.go:535-538` promises a restart only after a recreate that failed.
  The recreate may belong to an earlier stall: `RestartTrace.ExitWithoutRecreateInThisStall` is a
  run of the program in which the current stall saw none, and `StallEpisodes.ExitFollowsRecreateIff`
  says exactly when it saw one.
- `internal/remote_write/controller.go:671-697` compares pattern lists by length and one inclusion,
  so a list with a repetition can hide a dropped pattern (`ConfigDiff.RepetitionHidesADrop`).
- `README.md:376` and `examples/README.md:65` give selectors with regular-expression matchers, such as
  `{__name__=~"node_.*"}`. The tenant manager knows the equals sign only and reads the rest as text,
  so such a selector grants no metric that Prometheus could hold
  (`PatternLaws.NameOperatorGrantsNothing`).
- A label selector with an empty value asks Prometheus for series without the label, while the tenant
  manager denies access to those: `TenantManager.QueryIsAccessIff`.

## Model

| member | source | states |
|---|---|---|
| `ControllerRuns.RunKeepsInvariant` | internal/remote_write/controller.go:314-656 | Every state of every run, whatever the interleaving of loads, reconciles, sweeps, stops and cycle writes (late ones of stopped jobs included), satisfies the invariant: registrations are sound, timers are ordered, fields agree with the log and the log is justified. |
| `ControllerRuns.StepKeeps` | internal/remote_write/controller.go:350-656 | Each single event keeps that invariant. |
| `ControllerSafety.ExitSafety` | internal/remote_write/controller.go:504-522 | At every self-restart of every run: the feature is enabled, this replica leads, the job is the registered one, its lineage was recreated at least once and last saw healthy targets, it has been seen stalled for longer than the restart grace, no registered job of the key had a clean cycle within both grace periods, and none was created within the stall grace. |
| `ControllerSafety.ExitsKeepCooldown` | internal/remote_write/controller.go:584-588 | Two restarts recorded by one process are at least the cooldown apart. |
| `ControllerSafety.FirstExit` | internal/remote_write/controller.go:504-522 | No restart comes earlier than the stall grace plus the restart grace after the start of the process, nor after the origin of the job's lineage. |
| `ControllerSafety.RestartChain` | internal/remote_write/controller.go:569-605 | Successive processes, which remember nothing of each other, restart more than both grace periods apart each: n restarts take more than n times that. |
| `ControllerSafety.ExitsAreCounted` | internal/remote_write/controller.go:586-587 | The restart counter equals the number of restarts in the log. |
| `ControllerSafety.RecreateSafety` | internal/remote_write/controller.go:607-647 | At every watchdog recreate the old job last saw healthy targets, and the key had no clean cycle, no creation and no other recreate within the stall grace. |
| `ControllerSafety.RecreateRate` | internal/remote_write/controller.go:607-647 | Any m + 1 recreates of a key, for m > 0, span strictly more than m stall graces, whatever happens in between. |
| `ControllerSafety.RecreateBackoff` | internal/remote_write/controller.go:615-619 | Any two recreates of a key are at least the backoff apart, unless in between the registered job of the key succeeds or a job of the key is created by other means than the watchdog. |
| `ControllerSafety.NextReplacesLast` | internal/remote_write/controller.go:621-647 | The next recreate of a key replaces the struct that the last one made, which has held the key since. |
| `ControllerSafety.OutageIsLeftAlone` | internal/remote_write/controller.go:511-514 | As long as no cycle of the run has recorded a healthy target, there is neither a recreate nor a restart. |
| `ControllerSafety.OpenWhileRegistered` | internal/remote_write/controller.go:432-480 | A job's stop channel is open exactly while the job is the one registered under its key. |
| `ControllerSafety.NothingIsOverwritten` | internal/remote_write/controller.go:455-458 | A job is only ever registered under a key that has none at that moment. |
| `ControllerSafety.StoppedForGood` | internal/remote_write/controller.go:476-480 | A stopped struct is never registered again, under any key. |
| `ControllerSafety.StoppedOnce` | internal/remote_write/controller.go:476-480 | No stop channel is closed twice. |
| `ControllerSafety.HealthFields` | internal/remote_write/controller.go:843-969 | The health fields of any struct, registered or not, are folds of its own cycle history: the length of the unsuccessful suffix, sums over successes, target and send errors; the last success is not after the last clean cycle, and a recorded stall began more than the stall grace after it. |
| `ControllerSafety.LineageFields` | internal/remote_write/controller.go:621-647 | The throttle fields are folds of the lineage across recreates: what is carried over, what only a success clears and what every clean cycle clears; each recreate costs the lineage at least one stall grace since its origin. |
| `HistoryLaws.LastCheckIs` | internal/remote_write/controller.go:824-906 | Whether healthy targets are on record is decided by the last target check of the struct itself, or before its first one by what the struct it replaced had on record; a struct made otherwise starts without. |
| `HistoryLaws.StallStartIs` | internal/remote_write/controller.go:560-568 | The recorded start of a stall is the time of the sweep that first saw it; any clean cycle ends it, and a recreate carries it over. |
| `HistoryLaws.BaselineIs` | internal/remote_write/controller.go:265-284 | The stall baseline is the last clean cycle of the struct itself, or else its creation. |
| `HistoryLaws.DepthIs` | internal/remote_write/controller.go:621-647 | A recreated struct counts one recreate more than the struct it replaced and has its origin; nothing else changes either. |
| `HistoryLaws.CyclesAre` | internal/remote_write/controller.go:843-969 | The cycle history behind the health fields is the sequence of all outcomes recorded for the struct since its creation, and its target failures are the failed queries since then. |
| `HistoryLaws.EmptySuffixIs` | internal/remote_write/controller.go:843-969 | The count of empty cycles reaches back exactly to the last success, or to the beginning. |
| `SweepOutcome.SweepRestartsIff` | internal/remote_write/controller.go:504-605 | In every run a sweep adds a restart, and then one, if and only if no earlier restart lies within the cooldown and some registered job is overdue and qualifies: restart configured, leading, healthy targets last seen, recreated before, and seen stalled for longer than the restart grace. Said of the log alone. |
| `SweepOutcome.SweepRecreatesIff` | internal/remote_write/controller.go:558-656 | In every run a sweep that does not restart the process recreates a registered job if and only if the job is overdue, last saw healthy targets, does not qualify for the restart, and was not made by a recreate within the backoff unless it has succeeded since; it records the start of a stall exactly if none is on record. Said of the log alone. |
| `Recovery.FailingIsRecreated` | internal/remote_write/controller.go:607-656 | Without the restart, a job that keeps failing with healthy targets is recreated within a sweep period after the later of the end of its stall grace and the end of its backoff. |
| `Recovery.RecreatedAgain` | internal/remote_write/controller.go:607-656 | After each recreate the next one follows within the longer of stall grace and backoff, plus a sweep period, plus the longest sweep. |
| `Escalation.BoundedEscalation` | internal/remote_write/controller.go:504-656 | A newly created job that never has a clean cycle while healthy targets are recorded leads to a restart no later than two stall graces, the restart grace, two sweep periods and the longest sweep after its creation, although each recreate resets the creation time. |
| `IdleTenants.RecentlyCleanIsUntouched` | internal/remote_write/controller.go:265-284 | A sweep within the stall grace of a job's creation or clean cycle leaves the job exactly as it was. |
| `IdleTenants.IdleTenantIsLeftAlone` | internal/remote_write/controller.go:956-969 | If that holds of every sweep of a run, the run never recreates the tenant's job nor restarts because of it. |
| `IdleTenants.CleanTenantIsLeftAlone` | internal/remote_write/controller.go:956-969 | The same if each creation or clean cycle of the tenant's job is followed by another within the stall grace, up to the end of the run. |
| `RestartTrace.ExitWithoutRecreateInThisStall` | internal/remote_write/controller.go:535-540 | An explicit sequence of events, in the order in which the goroutines produce them (load, then the loop; ticks of 30 seconds; every cycle complete or hanging in its send), after which the process restarts although the current stall of the job saw no recreate. |
| `StallEpisodes.ExitFollowsRecreateIff` | internal/remote_write/controller.go:535-540 | With sweeps in time order, the stall behind a restart saw a recreate if and only if the job's last recreate is not older than the recorded start of its stall. |
| `SweepLaws.SweepExitsIff` | internal/remote_write/controller.go:545-605 | A sweep exits, at most once, if and only if the cooldown is open and some stalled job was already due before the sweep; it counts the restart exactly then. |
| `SweepLaws.SweepIsPointwise` | internal/remote_write/controller.go:558-656 | Without an exit, each registered job after the sweep is a function of the job before it alone, other jobs are untouched, and the registered keys stay the same, so the branch for a failed recreate is never taken. |
| `SweepLaws.SweepOrderIsIrrelevant` | internal/remote_write/controller.go:549-558 | Sweeping the stalled jobs in another order gives the same exit and the same job for every key. |
| `ReconcileLaws.ReconcileConverges` | internal/remote_write/controller.go:370-422 | After one reconcile with distinct resources the registered keys are exactly the enabled ones with a supported target type, and every job agrees with its resource as far as the diff sees. |
| `ReconcileLaws.ReconcileIsIdempotent` | internal/remote_write/controller.go:370-422 | Reconciling the same list again stops nothing and creates nothing, whatever clock ticks, sweeps and cycle writes come between the two. |
| `ReconcileLaws.LoadOverwritesNothingIff` | internal/remote_write/controller.go:350-367 | Loading into a fresh controller leaves every job it starts registered if and only if the loadable resources have distinct keys. |
| `ConfigDiff.HasConfigurationChanged` | internal/remote_write/controller.go:659-756 | The comparison loops decide exactly the declarative notion of a change that restarts a job. |
| `Synchronisation.ReconcileRegisters` | internal/remote_write/controller.go:370-422 | After a reconcile with distinct resources a key is registered exactly if a listed resource of that namespace and name has remote write enabled with one of the three target types. |
| `Synchronisation.ReconcileSynchronises` | internal/remote_write/controller.go:659-771 | Each such resource then has a job that agrees with it in isolation, patterns as far as they are compared, interval, target type, extra labels, number of relabelings, and in replicas and stateful set where both have a Prometheus target. |
| `Synchronisation.ReconcileRestartsIff` | internal/remote_write/controller.go:383-411 | A job that already agreed in all of these keeps its struct untouched; otherwise a struct is made for exactly the new resource at the clock reading of that moment, and the old one is stopped. |
| `Synchronisation.LoadRegisters` | internal/remote_write/controller.go:350-367 | After loading, the same keys are registered, each with a job made for the last listed resource of the key. |
| `ConfigDiff.CompareExtraLabels` | internal/remote_write/controller.go:759-771 | Equal sizes and one-way lookup decide equality of the two maps. |
| `ConfigDiff.UnchangedPatterns` | internal/remote_write/controller.go:671-697 | An unchanged configuration has the same pattern set whenever the new list repeats nothing; in general exactly if both lists have equally many distinct patterns. |
| `ConfigDiff.RepetitionHidesADrop` | internal/remote_write/controller.go:671-697 | Two pattern lists with different sets between which no change is found. |
| `RemoteWriteController.Controller.CreateRemoteWriteJobLocked` | internal/remote_write/controller.go:432-473 | Succeeds exactly for a supported target type; then the only change is a fresh job registered under the key, created at a clock reading taken inside. |
| `RemoteWriteController.Controller.StopRemoteWriteJobLocked` | internal/remote_write/controller.go:476-480 | Demands an open stop channel, closes it and removes the key; no other job changes. |
| `RemoteWriteController.Controller.StopRegistered` | internal/remote_write/controller.go:476-490 | In a sound state every registered job meets that demand, so stopping never closes a closed channel. |
| `RemoteWriteController.Controller.IsJobStalledLocked` | internal/remote_write/controller.go:265-284 | Decides whether an enabled job's baseline, its last clean cycle or else its creation, is older than the stall grace. |
| `RemoteWriteController.Controller.ShouldEscalatePodRestart` | internal/remote_write/controller.go:504-522 | Decides whether the job qualifies for a restart, cooldown apart. |
| `ProcessEnd.ProcessExitsOnce` | internal/remote_write/controller.go:594-600 | With the exit that ends the process, a run restarts at most once: exactly if its last event is a sweep that exits, and then the restart is its last entry. |
| `RemoteWriteController.Controller.TrySelfRestart` | internal/remote_write/controller.go:584-605 | Exits with code 1 exactly if the cooldown is open, and then advances the throttle and the counter; otherwise nothing changes. |
| `RemoteWriteController.Controller.CarryForward` | internal/remote_write/controller.go:642-647 | The new struct takes over the previous one's throttle state and nothing else. |
| `Reconciler.LoadExistingRemoteWriteJobs` | internal/remote_write/controller.go:350-367 | The loop over the list performs the load of the state machine, with rising clock readings. |
| `Reconciler.ReconcileRemoteWriteJobs` | internal/remote_write/controller.go:370-422 | The two loops perform the reconcile event: the items in order, then the keys that are not desired, each once; soundness is kept. |
| `Reconciler.StopAllJobs` | internal/remote_write/controller.go:483-490 | Stops every registered job once and leaves no registration. |
| `Watchdog.StalledKeys` | internal/remote_write/controller.go:549-556 | Collects exactly the keys of stalled jobs, each once, in any order. |
| `Watchdog.RecreateStalledJob` | internal/remote_write/controller.go:621-647 | Stop, create and carry-over together replace the struct by its successor. |
| `Watchdog.EvaluateSelfHeal` | internal/remote_write/controller.go:545-656 | The sweep over the mutable registry performs the sweep event over some listing of the stalled keys, records an exit code exactly if it exits, and keeps soundness. |
| `CollectionCycle.CollectMetrics` | internal/remote_write/controller.go:807-975 | A cycle records each failed target, then the deduplicated collection, then one outcome: success exactly with series and a good send even if a target failed, a send failure, an error without series, clean empty, or no targets. What is served for the key afterwards is the deduplicated collection of the healthy targets, or nothing without any; what was shipped is that collection in batches. |
| `CollectionCycle.SendAndRecord` | internal/remote_write/controller.go:917-969 | The classification of a cycle with targets, and the fields each outcome writes. |
| `CollectionCycle.CollectFromTargets` | internal/remote_write/controller.go:869-889 | A failed target is counted and does not stop the others; the samples of the rest are concatenated in order. |
| `Recorded.CollectedIsLatest` | internal/remote_write/controller.go:896-902 | In every run the metrics served for a key are those that the latest cycle with targets of a job of that key collected, or none if a cycle without targets came later; reconciles, sweeps and stops leave them alone. |
| `Recorded.RunIsLatest` | internal/remote_write/controller.go:971-974 | The last run of a struct is the time carried by the latest event that sets it. |
| `Recorded.ErrorIsLatest` | internal/remote_write/controller.go:875-925 | The last error of a struct is that of its latest failed target or failed send. |
| `ControllerRefinement.LoadIsEvents` | internal/remote_write/controller.go:350-367 | Loading distinct resources is a sequence of load events, so the invariant holds after it. |
| `ControllerRefinement.CycleIsEvents` | internal/remote_write/controller.go:807-975 | An uninterrupted cycle with healthy targets is this sequence of events and keeps the invariant: one for each failed target, the record of the targets, the end of the cycle, the time of the run. |
| `ControllerRefinement.SuccessfulCycleDelivers` | internal/remote_write/controller.go:895-947 | After a successful cycle every URL has accepted each batch exactly once and in order, with one to three POSTs each; together these are the series of the relabeled deduplicated collection, up to label order. |
| `Dedup.DeduplicateMetrics` | internal/remote_write/collector.go:458-477 | The index-map pass yields the chosen sample of each series in the order of first occurrence. |
| `Dedup.ChosenIsEarliestMaximum` | internal/remote_write/collector.go:448-477 | The chosen sample is the earliest input sample with the highest value of its series. |
| `Dedup.NewerSampleMayLose` | internal/remote_write/controller.go:891-895 | Of two samples of a series, the later one is dropped if its value is lower. |
| `Dedup.DedupIsDistinct` | internal/remote_write/collector.go:458-477 | No series comes out twice. |
| `Dedup.DedupCovers` | internal/remote_write/collector.go:458-477 | Every input series comes out, with an input sample at least as high. |
| `Dedup.DedupKeepsOrder` | internal/remote_write/collector.go:458-477 | The result follows the order in which the series first occur. |
| `Dedup.DedupInStages` | internal/remote_write/collector.go:458-477 | Deduplicating a first part before adding the rest makes no difference. |
| `Dedup.DedupIgnoresOrder` | internal/remote_write/collector.go:458-477 | The order of the targets changes neither which series come out nor their values. |
| `Relabel.ApplyMetricRelabelings` | internal/remote_write/collector.go:310-421 | The rule loop over a mutable label map computes the specified relabeling, with label deletion in any order. |
| `Relabel.RunRule` | internal/remote_write/collector.go:325-393 | One rule of the loop, skipped if its regex does not compile. |
| `RelabelLaws.KeepIsFilter` | internal/remote_write/collector.go:367-370 | A keep rule lets exactly the metrics through whose source labels, joined by the separator, match its anchored regex, and leaves them as they are. |
| `RelabelLaws.DropIsFilter` | internal/remote_write/collector.go:371-374 | A drop rule lets exactly the others through. |
| `RelabelLaws.KeepAndDropPartition` | internal/remote_write/collector.go:367-374 | A keep and a drop rule with the same regex part the metrics between them. |
| `RelabelLaws.ReplaceSetsTarget` | internal/remote_write/collector.go:356-366 | A replace rule gives the target label, and no other, the replaced source text, exactly if that matches and a target label is named. |
| `RelabelLaws.LabelDropRemoves` | internal/remote_write/collector.go:375-380 | A labeldrop rule removes exactly the labels whose key matches, the name included. |
| `RelabelLaws.LabelKeepLeaves` | internal/remote_write/collector.go:381-386 | A labelkeep rule leaves exactly the labels whose key matches, and the name in any case. |
| `RelabelLaws.DefaultsAreFilledIn` | internal/remote_write/collector.go:325-345 | An empty action, regex, replacement or separator stands for replace, `(.*)`, `$1` and a semicolon. |
| `RelabelLaws.OtherRulesDoNothing` | internal/remote_write/collector.go:345-390 | A rule that does not compile or has an unknown action lets everything through unchanged. |
| `Relabel.RelabelComposes` | internal/remote_write/collector.go:310-421 | Two rule lists in one pass equal one after the other through the metric form, also when a rule deletes the name or does not compile. |
| `Relabel.InvalidRuleIsSkipped` | internal/remote_write/collector.go:345-352 | A rule whose regex does not compile is as good as absent anywhere in the list. |
| `Relabel.RelabelIsFilterMap` | internal/remote_write/collector.go:399-421 | The result is an order-preserving filter-map of the input that keeps value and timestamp. |
| `Relabel.RelabelDistributes` | internal/remote_write/collector.go:310-421 | Relabeling a concatenation is concatenating the relabeled parts. |
| `Relabel.RelabeledHasNoNameLabel` | internal/remote_write/collector.go:399-409 | After at least one rule no metric carries a label called `__name__`. |
| `Batches.SplitIntoBatches` | internal/remote_write/collector.go:433-446 | The loop yields the recursive split into consecutive batches. |
| `Batches.SplitFlattens` | internal/remote_write/collector.go:433-446 | The batches concatenate to the input for every size. |
| `Batches.BatchArithmetic` | internal/remote_write/collector.go:433-446 | For positive sizes there are as many batches as the ceiling of the quotient; all but the last are full and none is empty. |
| `Batches.BatchwiseRelabeling` | internal/remote_write/collector.go:310-446 | Relabeling batch by batch equals relabeling the whole. |
| `Series.BuildTimeseries` | internal/remote_write/collector.go:219-260 | Each metric becomes one series: its name first, then the merged labels, each once in any order, with value and truncated milliseconds. |
| `Series.MillisAre` | internal/remote_write/collector.go:226 | The timestamp is the nanoseconds divided by a million, cut off toward zero. |
| `Series.SeriesCarries` | internal/remote_write/collector.go:219-260 | A series has the metric name in front, behind it each label once with the value of the extra label, unless the metric's own is honored, and nothing else, the value, and the truncated milliseconds. |
| `Series.SeriesIsUnique` | internal/remote_write/collector.go:219-260 | Two series built from one metric differ at most in label order. |
| `Series.NoRepeatedNamesIff` | internal/remote_write/collector.go:231-257 | A series repeats no label name if and only if neither the metric nor the extra labels contain `__name__`. |
| `Series.PayloadsConcatenate` | internal/remote_write/collector.go:219-260 | The series of the batches, put together, are the series of the whole list. |
| `SendMetrics.BuildPrometheusURLs` | internal/remote_write/collector.go:62-84 | One URL per replica, or the service URL if there is no replica to address. |
| `SendMetrics.ReplicaUrlsAreDistinct` | internal/remote_write/collector.go:62-84 | No two replicas share a URL. |
| `SendMetrics.PrometheusUrlsAre` | internal/remote_write/collector.go:52-84 | The URLs written out: host, namespace of the target or else of the resource, port with its default 9090, and one for each replica from 0. |
| `SendMetrics.DecimalDenotes` | internal/remote_write/collector.go:71-81 | The printed number consists of digits, has no leading zero, and denotes the number. |
| `Delivery.SendRemoteWrite` | internal/remote_write/collector.go:263-306 | At most three POSTs, stopping at the first 2xx; success exactly if the last one was accepted; none for a URL that makes no request. |
| `Delivery.FanOut` | internal/remote_write/collector.go:115-141 | Under every interleaving of the retry loops, each URL sees a finished loop of its own, and the send succeeds exactly if all of them do. |
| `Delivery.SuccessDeliversOnce` | internal/remote_write/collector.go:263-306 | A finished loop delivered the payload exactly once if it succeeded and not at all otherwise. |
| `Delivery.TriedIff` | internal/remote_write/collector.go:263-306 | A finished retry loop in figures: no POST to a URL that makes no request, else one to three of the same payload, none but possibly the last answered with a status from 200 to 299, and fewer than three only if the last one was. |
| `SendMetrics.Send` | internal/remote_write/collector.go:87-217 | The three collectors: relabel, build, encode, fan out; the Pushgateway one accepts without sending, a missing target configuration or a payload that cannot be encoded fails without a POST. |
| `SendMetrics.OneAcceptedIff` | internal/remote_write/collector.go:87-217 | A batch counts as accepted by a Pushgateway without a POST, and otherwise exactly if the target is configured and the last POST to each of its URLs was answered with a status from 200 to 299. |
| `SendMetrics.SendAll` | internal/remote_write/controller.go:1370-1431 | All batches are attempted, and success is reported exactly if every batch was accepted at every URL. |
| `SendMetrics.SuccessDelivers` | internal/remote_write/controller.go:1370-1431 | After success each URL accepted exactly the payloads of the batches, once and in order, which concatenate to the series of the relabeled whole. |
| `SendMetrics.AllBatchesAttempted` | internal/remote_write/controller.go:1401-1420 | Whatever failed before, the network has seen a POST of every batch that can be encoded, relabeled and merged, to every URL that makes requests. |
| `Selector.QueryPattern` | internal/remote_write/controller.go:1019-1034 | A selector is queried as it is; a name is printed with the label selectors in some order of the map. |
| `Selector.ParsePromQLSelector` | internal/tenant/manager.go:330-356 | The split-and-trim loop computes the specified label map, later parts overwriting earlier ones. |
| `Selector.RoundTrip` | internal/tenant/manager.go:330-356 | Parsing a printed query gives back the label selectors over the name, in whatever order they were printed. |
| `Selector.RoundTripIff` | internal/tenant/manager.go:330-356 | It does so if and only if name and values have no comma and no quote at an end, and keys no comma, no equals sign and no space at an end. |
| `TenantManager.ParseMetricPatterns` | internal/tenant/manager.go:270-327 | The patterns of a list by their shapes, in order, without those whose regex does not compile. |
| `PatternLaws.GrantsByAnyPattern` | internal/tenant/manager.go:172-201 | A tenant may access what one of the listed patterns alone would grant. |
| `PatternLaws.NamedPatternGrants` | internal/tenant/manager.go:359-418 | A pattern written as a name followed by pairs in braces, or as such pairs alone, grants exactly the series of that name, or of any, that carry all the pairs and the label selectors. |
| `PatternLaws.NameGrantsItself` | internal/tenant/manager.go:312-326 | A pattern without any regex character grants exactly the metric of that name. |
| `PatternLaws.RegexGrantsMatches` | internal/tenant/manager.go:312-322 | A pattern with one, but without a pair of braces, grants the metrics whose names match it, and none if it does not compile. |
| `PatternLaws.PartMeans` | internal/tenant/manager.go:338-353 | In a part of a selector, spaces around key and value and quotes of either kind around the value do not count. |
| `PatternLaws.NameOperatorGrantsNothing` | internal/tenant/manager.go:330-356 | A selector with a part `__name__=~"v"` grants only metrics whose name is the text after the equals sign without its last quote. |
| `PatternLaws.PrintedIsWritten` | internal/remote_write/controller.go:1019-1034 | The printed query is the name and the label selectors, each in double quotes, separated by commas, between braces. |
| `PatternLaws.OtherEntriesStay` | internal/tenant/manager.go:233-246 | Updates leave the entries of tenants alone whose resources are not among them. |
| `TenantManager.MatchesPromQLSelector` | internal/tenant/manager.go:397-418 | Decides that the name, if given, is equal and the other selectors are a submap of the labels. |
| `TenantManager.MatchesLabelSelectors` | internal/tenant/manager.go:421-455 | In spite of its special case for the namespace, decides that the selectors are a submap of the labels. |
| `TenantManager.Manager.ValidateAccess` | internal/tenant/manager.go:172-201 | Access is granted exactly if the tenant is known, one of its patterns matches and its label selectors are a submap of the labels. |
| `TenantManager.Manager.LoadTenants` | internal/tenant/manager.go:204-230 | The entries after the lists of all watched namespaces, those that fail being skipped; entries of vanished resources stay. |
| `TenantManager.LastUpdateWins` | internal/tenant/manager.go:233-246 | Access follows the last resource listed for the tenant's id. |
| `TenantManager.QueryMatches` | internal/tenant/manager.go:397-418 | A printed query, parsed as a selector, matches exactly the series of that name whose labels contain the label selectors. |
| `TenantManager.QueryReadsAsAccess` | internal/tenant/manager.go:172-201 | Reading the query of a resource for an exact metric name as a selector, the manager would grant exactly what it does grant through that name. |
| `TenantManager.QueryIsAccessIff` | internal/remote_write/controller.go:1019-1034 | On the stated assumption about how Prometheus evaluates a printed query, the series that the query of a resource for an exact name returns are exactly those that its tenant may access if and only if no label selector asks for an empty value. |
| `LoadBalancing.LoadBalancer.GetTarget` | internal/proxy/loadbalancer.go:48-62 | Returns the healthy target whose turn it is; the counter advances only if there is one. |
| `LoadBalancing.LoadBalancer.UpdateTargetHealth` | internal/proxy/loadbalancer.go:91-108 | Rewrites health and last-seen time of the first target with the URL, in place, and nothing else. |
| `LoadBalancing.LoadBalancer.GetTargets` | internal/proxy/loadbalancer.go:48-62 | m requests in a row, with targets and health unchanged, return m consecutive picks and move the counter by m. |
| `LoadBalancing.RoundRobinIsFair` | internal/proxy/loadbalancer.go:48-62 | In any m consecutive requests, from any counter, each of the n healthy targets is returned m/n times, rounded down or up, once for each of its copies in the list; a target that is not among the healthy ones is never returned. |
| `LoadBalancing.PicksExactly` | internal/proxy/loadbalancer.go:48-62 | If the healthy targets are distinct, which of the two it is: rounded up exactly for those whose next turn comes before the incomplete last round ends. |
| `LoadBalancing.OnlyHealthyTurns` | internal/proxy/loadbalancer.go:111-121 | A turn never goes to an unhealthy target, and every healthy one gets a turn in each round. |

## Left out

- HTTP, gzip, JSON, protobuf, snappy, the Kubernetes client, leader election and logging: what they
  return is a parameter (listed resources, scrape results, whether a payload can be encoded, POST
  replies).
- The regular-expression engine and the label fingerprint are arbitrary functions; no property of
  them is used.
- Goroutines, tickers and channels: their effect is the interleaving of critical sections. That no
  job is left after `Stop`, or that jobs end with the context, is not claimed: an in-flight
  reconcile may register jobs again, and a job listens to its stop channel only.
- `CollectionCycle.CollectMetrics`: the imperative form runs one cycle without interruption; cycles
  interrupted by other critical sections are covered by the events of `ControllerRuns`.
- `Reconciler.LoadExistingRemoteWriteJobs`: runs without interruption; `ControllerRuns` has one
  load event per resource, with anything in between.
- `RemoteWriteController.Controller.TrySelfRestart`: the exit returns, as with the injected one;
  with the real one the run ends there, which `ProcessEnd` adds.
- Querying a target: a scrape either answers or fails. The fallback queries, tried when the first one
  returns nothing, drop the label selectors, so no claim is made that all of what a cycle collects
  is accessible to the tenant; swallowed query errors are not modelled either.
- `TenantManager.QueryIsAccessIff`: how Prometheus evaluates a query is an assumption (`ReadsQueries`),
  made only for names, label names and values that can be printed without escaping.
- Errors are kept as whether and that they occurred; aggregated error texts are arbitrary.
- The job status written back to the resource, and the health-metric exposition.
- Metrics collected for a stopped job stay in `collectedMetrics`; no relation to the registered jobs
  is claimed.
- Fields that the configuration diff ignores (URL, service name, honorLabels, label selectors,
  relabeling rules beyond their number) are not synchronised by a reconcile, so no such claim is made.
- 64-bit counters and durations: integers are unbounded, so wrap-around and saturation are not modelled.
- Sample values are real numbers: no NaN and no infinities.
- The Pushgateway collector is a stub in the source; it is outside all delivery claims.
- `Series.BuildTimeseries`: does not state an order of labels, because the source ranges over a map;
  sorted names, which the Prometheus Remote-Write 1.0 specification asks for in its section on labels,
  do not hold.
- `PatternLaws.NamedPatternGrants`: says what a pattern with braces grants if its text is plain;
  for other text `PatternLaws.PartMeans` and `Selector.ParsePromQLSelector` say how it is read.
- Merged access of several resources; tenants are never removed, so "tenants are the current
  resources" is not claimed.
- `LoadBalancing.LoadBalancer.GetTarget`: sequential; concurrent calls race on the counter, and
  counter overflow is not modelled.
- Configuration files, deep copies of resources, service discovery and alert rules.
