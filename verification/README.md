# Lunar Scheduling Extension: a verified model

This project models the load tracker of the Lunar Scheduling Extension (its "Slim WALT"), the hooks that
feed it and the state machines that consume it, and proves what its counters, queues, frequencies and
cluster lists mean after any sequence of events.

| files | what they model |
|---|---|
| `WaltModel`, `WaltCode` | window accounting of one CPU and one task (`lse_util_track.c`, hooks of `lse_cfs.c`): values, and the in-place code proved equal to them |
| `WindowGrid`, `Samples`, `WaltBounds`, `WaltExact` | laws of one accounted event: bounds at any speed, exactness at full speed |
| `WaltMachine`, `WaltInvariant`, `WaltRuns`, `WaltScaled`, `WaltReach` | several CPUs, migrating tasks, one clock; what holds after every run, at full and at any speed |
| `WaltGranularity`, `WaltWindowChange` | extra updates; changing the window size |
| `Rollover`, `WaltElection` | the lock-free election of the CPU that queues the rollover work, and the tracker's part in it |
| `DsqModel`, `DsqCode`, `DsqRuns`, `DsqMachine`, `DsqExamples` | the dispatch queues (`lse_dsq.c`) |
| `GovModel`, `GovCode`, `GovLaws`, `GovHandoff`, `GovWorker` | the frequency governor (`cpufreq_lse.c`) |
| `ListHead`, `Topology` | the cluster topology build on circular linked lists (`lse_sched_cluster.c`) |

How the tracker is specified: `WaltMachine.Runner` reads off the event log alone which task each CPU runs
at each instant; `BusyTime` and `TaskTime` count instants. The tracker's incremental counters are proved
equal to those counts.

## Assumptions

- `slim_walt_ctrl` stays on, every task has its extension struct, and each body under a runqueue or queue
  lock is one step. The seeding of all `window_start` fields and of the rollover mark is one step, before
  which nothing is accounted.
- There is one global clock that never runs backwards, in unbounded integers. A task runs on one CPU at a
  time. A task that has not been seen yet is accounted from its first event on.
- In whole runs the two clock readings of one context switch give the same instant: `rq->clock` is taken to be
  up to date when a switch begins. `LseSchedule` itself takes any two readings.
- `sched_window_stats_policy` does not change during a run; after a change each demand would stay the old policy's
  statistic until the task's next sample.
- Online CPUs are the possible CPUs. `rq->curr` at hook time is an input. Frequencies, capacities, jiffies
  and classification attributes are inputs; deadlines are given in jiffies.
- Stores into `u32` (task sum, history, frequencies, pressure, requested window) and `u16` (utilisation,
  scaled demand) drop the high bits in the model as in C.
- The window size may change while the CPU counters are tracked, as long as a size that one CPU adopts fits the
  window every other CPU is in (`AdoptionsFit`; on one CPU the code's own guard ensures it, `GuardSuffices`).
  `OtherCpuOverflows` and `StaleWindowBound` say what happens otherwise. Results about task records take the
  window size to be fixed.

## Where the code and its documentation differ

The model follows the code.

- `last_consume_at` (`lse_dsq.h:116`) is not when a task was last consumed, and `is_timeout` (`lse_dsq.h:117`)
  is not about the age of the head: for a queue that is not empty the field holds the instant since which
  the queue has not been empty, and that is what the deadline is measured from (`NonEmptySinceLastConsume`,
  `TimeoutSound`, `TimeoutOfYoungHead`).
- The urgency comment (`lse_dsq.c:419-425`) promises a boost of 1024 for four timeouts; only three global
  queues can ever time out, so the largest urgency is 768 (`UrgencyLevels`, `LargestUrgency`).
- The comments at `lse_dsq.h:97-98` name queues 3 and 4 for real-time and enhanced tasks; the values, and the
  code, use 2 and 3.
- The header comment at `cpufreq_lse.c:287` says the tick path reads the running window; it reads the completed one.
- The target load is a percentage but is compared with a utilisation out of 1024: with the defaults any
  constant utilisation above 90/1024 ends at the maximum frequency, and one of 89/1024 never settles
  (`RequestDirection`, `RampsUp`, `RestsIff`, `NeverRests`).
- On a one-CPU cluster the tick path halves the load that the rollover path takes in full, up to its round trip
  (`SingleCpuHalved`).
- Below full speed extra updates are not free for task histories: a unit lost to rounding can cost a whole
  sample and with it most of the demand (`ExtraUpdateTask`, `LostUnitDropsSample`).
- A task of class Rt or Deadline that is not of real-time priority is queued before those that are (`ClassOrder`).
- The window-change guard checks the local CPU only; another CPU's previous-window counter can then exceed
  its window (`OtherCpuOverflows`).
- The cached aggregate is kept while each sum changes by less than 5 % from the one before, and the staleness
  test never ends it because the tick refreshes the time stamp first: over enough ticks a cluster at full load
  can still be reported at 1 out of 1024 (`CacheDrift`, `StaleAggregate`, `StaleByWholeRange`).
- The frame-rate sysctl checks no range (`lse_sysctl.c:74-101`): a rate of 0 divides by zero, and one above 10^9
  asks for a window of 0, which the adoption guard happens never to let through (`WriteFrameRate`,
  `UsableWindow`, `ZeroNeverAdopted`).
- The pressure term is computed in 32 bits and wraps for some frequency as soon as the maximum exceeds
  4194304 kHz (`PressureExact`).

## Model

| member | source | states |
|---|---|---|
| WaltCode.LseRq.UpdateWindowStart | lse_util_track.c:185-221 | the in-place window advance, with both clock repairs, computes the model's new CPU record and returns the old window start |
| WaltCode.LseRq.RolloverCpuWindow | lse_util_track.c:173-183 | the current counter becomes the previous one, or 0 after a skipped window |
| WaltCode.LseRq.UpdateTaskRqCpuCycles | lse_util_track.c:237-264 | the scale stored is the rounded-up frequency ratio times capacity, at least 1 |
| WaltCode.LseRq.UpdateCpuBusyTime | lse_util_track.c:400-480 | busy time split at the window start, scaled and added in place, computes the model's record |
| WaltCode.LseRq.LseCpuUtil | lse_util_track.c:603-616 | the reported utilisation of a CPU, with its shifted divisor and u16 cast |
| WaltCode.LseTask.UpdateHistory | lse_util_track.c:272-323 | filling the ring at its write index pushes the samples onto the five-sample history, and demand follows the policy |
| WaltCode.LseTask.PushSamples | lse_util_track.c:286-290 | the ring read from its write index is the last five of the old history followed by the new samples |
| WaltCode.LseTask.RingSummary | lse_util_track.c:292-296 | one loop yields the sum and the maximum of the history, in ring order |
| WaltCode.LseTask.AddToTaskDemand | lse_util_track.c:122-130 | the scaled piece is added to the u32 sum and clamped to the window |
| WaltCode.LseTask.UpdateTaskDemand | lse_util_track.c:326-391 | the in-place demand update computes the model's task record and the reported run time |
| WaltCode.WindowRolloverRunOnce | lse_util_track.c:482-506 | a CPU queues the rollover work iff its window moved and the global mark still holds the start it left; only then the mark changes, to its new start |
| WaltCode.LseUpdateTaskRavg | lse_util_track.c:508-557 | one event updates both records as the model says, early returns included, and takes part in the election |
| WaltCode.LseSchedule | lse_cfs.c:81-108 | a context switch puts the old task, then picks the new one, each at its own reading of the clock; staying on the same task is one update; both records and the rollover mark |
| WaltCode.LseTickEntry | lse_cfs.c:110-126 | a tick accounts the running task at a clock that never runs backwards and takes part in the election |
| WaltCode.LseSchedulerTick | lse_cfs.c:43-72 | exactly one tick seeds every window start and the rollover mark with the same instant; every other changes nothing |
| WaltCode.LseIrqWork | lse_util_track.c:566-601 | the running task is accounted with the old window size, the mark follows the election, then a pending size is adopted iff the clock is inside it |
| WaltCode.WindowSize.Change | lse_util_track.c:657-664 | a request stores the truncated quotient as an unsigned int; at a rate of 0 the division has no result |
| WaltCode.WindowSize.WriteFrameRate | lse_sysctl.c:74-101 | a written rate that differs from the one in force is stored and passed on unchecked; the write divides by zero iff it is a new 0 |
| WaltCode.UsableWindow | lse_util_track.c:657-664 | the requested window is a second over the frame rate, cut down; 0 beyond 10^9, 2^32 less for a negative rate, undefined at 0 |
| WaltModel.WindowStartAdvance | lse_util_track.c:201-220 | the window start moves by whole windows to the last boundary not after the clock; counters roll over once however many windows passed |
| WaltModel.ExecScaleRange | lse_util_track.c:246-263 | the scale is 1..1024 when frequency and capacity are within limits, and 1024 iff the product exceeds 1023/1024 of the maximum |
| WaltModel.ExecScaleIsCeiling | lse_util_track.c:237-264 | for all inputs the scale is the frequency's share of the capacity, rounded up, at least 1; without a maximum frequency the capacity |
| WaltModel.ClockRepaired | lse_util_track.c:185-221 | a clock that ran backwards counts as the latest instant known, and the window advance is that for it |
| WaltModel.AccountedEvents | lse_util_track.c:133-170 | which events are accounted to a task, and that the CPU gets the same ones except an interrupt's |
| WaltModel.NothingAccounted | lse_util_track.c:508-519 | before the first tick's seeding, and twice at one instant, nothing changes |
| Arith.ScaleFloor | lse_util_track.c:115-120 | a scaled time is the exact product over 1024, cut down |
| Arith.LowBits | lse_util_track.c:603-616 | a store into a u32 or u16 keeps exactly the low bits |
| Samples.DemandWithinMax | lse_util_track.c:292-313 | every policy yields at most the ring maximum; average and recent are at most the default policy's value |
| Samples.DemandIsStatistic | lse_util_track.c:292-313 | each policy's value in terms of the ring's entries: newest, largest, average cut down, or the larger of newest and average |
| WaltBounds.AddNoClamp | lse_util_track.c:122-130 | a piece that fits in the window is added without clamp or u32 wrap (ClampNeverFires: on every run all pieces fit) |
| WaltBounds.AddSaturates | lse_util_track.c:122-130 | a sum that outgrows the window is set to the window |
| WaltBounds.CpuUtilBounded | lse_util_track.c:603-616 | for every window the utilisation is the counter over 1/1024 of the window, both cut down, with nothing lost in the cast; at most 1024 from 2^20 ns on, 0 below 1024 ns |
| WaltBounds.UtilOfFullWindow | lse_main.h:244-257 | a full window converts to at most 1024 iff the remainder lost by the shift is below the divisor |
| WaltExact.CpuStepExact | lse_util_track.c:400-475 | one full-speed event keeps the CPU counters equal to differences of its run-time clock |
| WaltExact.TaskStepExact | lse_util_track.c:326-391 | one full-speed event keeps a task's ring and sum equal to its run times on the grid |
| WaltExact.CrossExact | lse_util_track.c:360-390 | a span across windows: first piece, full windows and current piece each get their own run time |
| WaltExact.CloseWindow | lse_util_track.c:337-350 | an event that is not busy closes the task's last window and drops the empty ones |
| WaltInvariant.NextKeepsInv | lse_cfs.c:85-126 | every hook keeps marks, window starts and the log in agreement about who runs since when, also while a window size that fits every CPU is adopted |
| WaltInvariant.ZeroNeverAdopted | lse_util_track.c:588-593 | exactly the pending sizes larger than the time since the local window began are adopted, so never 0 |
| WaltRuns.CpuLoadIsBusyTime | lse_util_track.c:173-221 | exact CPU accounting after any full-speed run: both counters are instant counts from the log, also across every window change that fits the other CPUs' current windows |
| WaltRuns.GuardSuffices | lse_util_track.c:588-593 | on one CPU the guard alone makes every adoption fit; with a fixed window there is none |
| WaltRuns.TaskHistoryIsRunTime | lse_util_track.c:272-391 | exact task history after any full-speed run: the last five non-zero window run times, and the run time in the current window |
| WaltScaled.CpuLoadAtSpeed | lse_util_track.c:400-475 | CPU accounting after any run at speeds between lo and hi: each counter is between lo/1024 and hi/1024 of the busy time of its window, less under one unit an update |
| WaltScaled.TaskHistoryAtSpeed | lse_util_track.c:272-391 | task history after any such run: ring and sum are the non-zero values of its windows, each between lo/1024 and hi/1024 of the run time there, less under one unit an update |
| WaltRuns.CpuLoadBounded | lse_util_track.c:400-475 | at any speeds, on any number of CPUs, across the same window changes, the counters never exceed the time they stand for |
| WaltRuns.TaskDemandBounded | lse_util_track.c:122-130 | at any speeds on any fixed-window run sum, samples and demand stay within a window, demand is the policy's statistic of the ring's entries as they stand, scaled demand is within 1024 |
| WaltRuns.CpuUtilFits | lse_util_track.c:603-616 | on every fixed-window run of at least 2^20 ns the utilisation fits 0..1024 |
| WaltRuns.NoComplaints | lse_util_track.c:195-208 | neither clock repair nor the ahead-by-a-window report ever triggers on a fixed-window run |
| WaltRuns.ClampNeverFires | lse_util_track.c:122-130 | nothing the next action of any fixed-window run adds to the running task is clamped or cut to 32 bits |
| WaltRuns.ActedCpuIsCurrent | lse_util_track.c:185-221 | after an action its CPU's counters are complete up to that action, inside the current window |
| WaltReach.HookIsSwitch | lse_cfs.c:85-108 | the clock a hook reads is the event's time, so the hook, switching or not, is exactly the machine's step, and only its first update can move the window |
| WaltReach.FirstTick | lse_cfs.c:51-68 | run on freshly initialised objects, the seeding tick leaves a start state of every run theorem, whatever runs where, and the mark at its instant |
| WaltReach.ReachableRunning | lse_util_track.c:508-557 | every reachable fixed-window state is one the granularity laws apply to |
| WaltReach.ExtraTickInvisible | lse_cfs.c:110-126 | at full speed an extra tick leaves no trace once its CPU acts again, whatever other CPUs did in between |
| WaltReach.ExtraTickAtBoundary | lse_cfs.c:110-126 | nor, at any constant scale, does an extra tick at a window boundary |
| WaltReach.ExtraTickCosts | lse_cfs.c:110-126 | anywhere else only that CPU's and that task's record differ once the CPU has acted again, by the losses below |
| WaltGranularity.ExtraUpdateFullSpeed | lse_util_track.c:508-557 | at full speed an extra update at any time leaves the same CPU and task records |
| WaltGranularity.ExtraUpdateAtBoundary | lse_util_track.c:364-390 | at any constant scale an extra update at a window boundary leaves the same records |
| WaltGranularity.SplitCpuLoss | lse_util_track.c:412-475 | anywhere else, at a constant scale, the CPU counters together lose at most one unit |
| WaltGranularity.ExtraUpdateTask | lse_util_track.c:326-391 | and so does the task: in the window of the extra update only its running sum is lower, afterwards only that window's sample, which is left out if it was 1; demand stays the statistic of the ring |
| WaltGranularity.ExtraUpdateTaskIff | lse_util_track.c:272-391 | the task records are equal iff no unit was lost, or the sample has been pushed out of the ring or was one of a row of ones |
| WaltGranularity.RingsAgree | lse_util_track.c:286-290 | a lost unit changes one place of the ring by one as long as the sample was more than 1 |
| WaltGranularity.LostUnitDropsSample | lse_util_track.c:281-318 | an input where one lost unit drops a sample and the demand is 104858 instead of 1 |
| WaltGranularity.ExtraUpdateRuntime | lse_util_track.c:360-390 | the run time update_task_demand returns, which its caller discards, loses at most one unit too |
| WaltGranularity.RoundingConserved | lse_util_track.c:360-390 | over n full windows the pieces add up to the span and rounding loses at most n + 1 |
| WaltWindowChange.StaleWindowBound | lse_util_track.c:588-593 | for any CPU within its bounds, any event and speed: an event under another window size keeps the bounds iff the counter has not outgrown that size or two such windows have passed |
| WaltWindowChange.OtherCpuOverflows | lse_util_track.c:482-593 | a two-CPU run, its rollover work queued by a won election, in which the guard lets another CPU's counter exceed its window |
| Rollover.NextKeepsInv | lse_util_track.c:482-494 | an exchange strictly raises the mark or leaves it; the mark stays some CPU's committed window start |
| Rollover.ElectionChain | lse_util_track.c:482-506 | over every interleaving successful exchanges form a chain from the seeded mark to the current one |
| Rollover.EachWindowWinsOnce | lse_util_track.c:482-506 | the window starts that win strictly increase, so none wins twice |
| Rollover.EveryRoundHasWinner | lse_util_track.c:482-506 | once every CPU has completed one more exchange, at least one has succeeded |
| WaltElection.TakeTurn | lse_util_track.c:482-506 | the code's turn is the protocol's exchange, and queues the work iff the exchange succeeds |
| WaltElection.MoveWindow | lse_util_track.c:185-221 | the code's window advance is the protocol's |
| DsqCode.DsqLayer.EnqueueTask | lse_dsq.c:175-223 | guards, classification, tail insertion, flag and counter of an enqueue |
| DsqCode.DsqLayer.DequeueTask | lse_dsq.c:225-274 | the node leaves the list it is in while the counter of the classified queue drops, saturating |
| DsqCode.DsqLayer.ScanTimeout | lse_dsq.c:305-341 | the scan loop marks and clears exactly the queues the model says |
| DsqCode.DsqLayer.OnSchedule | lse_dsq.c:436-474 | the hook enqueues, dequeues and scans under both switches and the throttle |
| DsqCode.DsqLayer.TotalBacklog | lse_dsq.c:373-385 | two loops add up all counters |
| DsqCode.DsqLayer.UrgencySignal | lse_dsq.c:401-429 | 256 per timed-out global queue, capped, 0 when disabled |
| DsqCode.DsqLayer.Sync | lse_dsq.c:478-517 | when disabled, every queue is emptied and each flag of a listed task cleared |
| DsqModel.ClassRange | lse_dsq.c:117-146 | exactly which tasks each queue can receive: global queues 0, 2, 3, 6, 8, 9, and a per-CPU queue the tasks pinned to its CPU |
| DsqModel.ClassOrder | lse_dsq.c:126-146 | among tasks that may migrate a more urgent one is never classified to a later queue, except that class Rt or Deadline goes before real-time priority |
| DsqModel.ScanEffect | lse_dsq.c:305-341 | what a scan does to each queue: marks if overdue, clears empty global ones, leaves the others alone |
| DsqModel.ScanThrottled | lse_dsq.c:469-473 | no scan within four jiffies of the CPU's last one, and the stamp of one that runs |
| DsqModel.DequeueMarks | lse_dsq.c:240-244 | a dequeue clears and stamps exactly a marked queue it empties |
| DsqModel.SyncNothing | lse_dsq.c:485 | with the layer on a sync changes nothing |
| DsqModel.UrgencyCounts | lse_dsq.c:401-429 | urgency is 256 for each marked global queue up to 1024, and 0 while the layer is off |
| DsqMachine.MembershipOnRuns | lse_dsq.c:175-247 | on every run a flag is set iff the task occurs once in exactly one fifo |
| DsqMachine.FifosStayOrdered | lse_dsq.c:184-236 | every fifo stays in enqueue order under removals from the middle |
| DsqMachine.BacklogExact | lse_dsq.c:373-385 | with classes stable while queued every counter is its fifo's length and the backlog counts the flags |
| DsqMachine.BacklogNeverUnderCounts | lse_dsq.c:234-246 | with classes changing freely counters are never negative and their total never under-counts |
| DsqRuns.DequeueExactIff | lse_dsq.c:262-273 | a dequeue keeps the counters exact iff the task is still classified to the queue it is on |
| DsqRuns.DequeueAtHome | lse_dsq.c:238 | with stable classes the saturation at 0 never bites |
| DsqMachine.NonEmptySinceLastConsume | lse_dsq.c:181-182 | a queue that is not empty has been so since last_consume_at |
| DsqMachine.TimeoutSound | lse_dsq.c:316-340 | with stable classes a marked queue has been non-empty for longer than its deadline |
| DsqMachine.ScanIsExact | lse_dsq.c:305-341 | with stable classes, right after a scan a visited queue is marked iff it has been non-empty beyond its deadline |
| DsqMachine.SyncEmpties | lse_dsq.c:478-517 | from any reachable state with the layer off a sync empties every queue, counter, mark and flag |
| DsqMachine.FlagsAfterSchedule | lse_dsq.c:455-467 | exactly which flags one hook sets and clears |
| DsqMachine.UrgencyLevels | lse_dsq.c:401-429 | on every run only queues 6, 8 and 9 can be marked, so urgency is 0, 256, 512 or 768 |
| DsqExamples.LargestUrgency | lse_dsq.c:401-429 | a run that reaches 768 |
| DsqExamples.TimeoutOfYoungHead | lse_dsq.c:316-340 | a run that marks a queue whose only task has waited less than the deadline, right after another was consumed |
| DsqMachine.ScheduleKeepsRunningOff | lse_dsq.c:446-467 | one hook keeps running tasks off the queues iff the task switched in was off or is taken off |
| DsqMachine.RunningNeverQueued | lse_dsq.c:436-474 | with both switches on from an empty start no running task is on a queue |
| GovCode.LseTop2AvgUtil | cpufreq_lse.c:143-177 | the loop finds the two largest utilisations of the CPUs that have a window and returns their mean, or the only one |
| GovCode.LseGovRq.ClusterUtil | cpufreq_lse.c:226-279 | a hit keeps the aggregate and follows the sum; a miss recomputes it from the two largest sums or the largest |
| GovCode.LseGovPolicy.DynamicTargetLoad | cpufreq_lse.c:193-212 | target load moves one step with pressure, inside its limits |
| GovCode.LseGovPolicy.GetNextFreq | cpufreq_lse.c:388-437 | next frequency from current frequency, utilisation and target, never 0 unless the minimum is |
| GovCode.LseGovPolicy.SoftFreqClamp | cpufreq_lse.c:439-466 | soft limits, then caps |
| GovCode.LseGovPolicy.UpdateCpufreq | cpufreq_lse.c:468-492 | the resolved request is stored, and handed on iff it changed |
| GovCode.LseGovPolicy.TickUpdate | cpufreq_lse.c:291-360 | the rate-limited tick path: time stamp refreshed, cache looked up, urgency boost and the same formula |
| GovLaws.TopTwoUnique | cpufreq_lse.c:163-168 | the two largest values are determined by the values |
| GovLaws.TopTwoMeanUnique | cpufreq_lse.c:172-176 | so the aggregate is one number |
| GovLaws.TopTwoMean | cpufreq_lse.c:172-176 | the aggregate is at most the maximum and at least half of it |
| GovLaws.TopTwoMeanIs | cpufreq_lse.c:172-176 | the aggregate is half the largest sum of any two values, cut down |
| GovLaws.UtilIsShare | cpufreq_lse.c:407-409 | a sum's utilisation is its share of the window out of 1024, cut down, 1024 iff it fills the window |
| GovLaws.UtilsAre | cpufreq_lse.c:151-158 | each CPU is measured over its own previous window, or the system's if it has none |
| GovLaws.PolicyWindow | cpufreq_lse.c:134-141 | the policy's own window counts iff it is in use and set |
| GovLaws.SingleCpuHalved | cpufreq_lse.c:735-747 | on one CPU the tick path works with half the sum; the exact condition, for every sum and window, under which the rollover path, round trip included, works with the same utilisation |
| GovLaws.UtilRoundTrip | cpufreq_lse.c:735-747 | utilisation to sum and back loses at most one for windows of at least 1024 ns, nothing iff no remainder was cut |
| GovLaws.OddUtilsLoseOne | cpufreq_lse.c:746-747 | at the default window exactly the odd utilisations lose one |
| GovLaws.HitIff | cpufreq_lse.c:237-248 | the cache is reused iff it is filled, less than 16 ms old, and the sum is strictly between 19/20 and 21/20 of the last |
| GovLaws.TickStamps | cpufreq_lse.c:312-318 | a tick within 0.4 ms of the last changes nothing, a later one stamps the cache |
| GovLaws.CacheDrift | cpufreq_lse.c:226-279 | over any run of ticks after a traversal that do not traverse, the utilisation reported is exactly that traversal's, and after h hits the sum lies strictly between (19/20)^h and (21/20)^h of its |
| GovLaws.StaleAggregate | cpufreq_lse.c:237-248 | a run of hits, each as late as the staleness limit and with sums within the window, from any sum with a non-zero utilisation to any larger one |
| GovLaws.StaleByWholeRange | cpufreq_lse.c:237-248 | such a run ends reporting 1 where a traversal would report 1024 |
| GovLaws.PressureExact | cpufreq_lse.c:187-190 | the 32-bit pressure product is exact for every frequency iff the maximum is at most 4194304 |
| GovLaws.PressureIsMean | cpufreq_lse.c:179-191 | the pressure is the mean of the frequency's share of 1024 and the utilisation, cut down |
| GovLaws.SoftClampLaws | cpufreq_lse.c:445-458 | the clamp is monotone and idempotent for limits set or off in any combination |
| GovLaws.SoftClampPrecedence | cpufreq_lse.c:445-458 | minimum cap over maximum cap over soft maximum over soft minimum; the result is the target or one of the limits, and which one where they conflict |
| GovLaws.TargetLoadMonotone | cpufreq_lse.c:193-212 | wherever the pressure is exact, more utilisation never lowers the target; it stays within its limits and one step of the static target |
| GovLaws.TargetIs | cpufreq_lse.c:193-212 | the target in use for every pressure: the clamped base, one step up above 850, one down below 450, where the step fits |
| GovLaws.DefaultTargets | cpufreq_lse.c:193-212 | with the defaults 92, 90 or 88, and when each |
| GovLaws.ScaledIsQuotient | cpufreq_lse.c:330-337 | the scaled frequency is the true quotient wherever 32 bits hold it, the hardware minimum for 0 |
| GovLaws.NextFreqIs | cpufreq_lse.c:388-437 | the next frequency is frequency times utilisation over target, cut down, or the minimum for 0; the minimum stands in for a missing current frequency |
| GovLaws.BoostIs | cpufreq_lse.c:321-324 | the boost multiplies by one plus the urgency's share of 1024, cut down, up to 1024; none at 0, more with more |
| GovLaws.UrgencyClimbs | cpufreq_lse.c:321-337 | a utilisation that lets the frequency fall makes it climb to the maximum cap once urgency lifts it to 91 |
| GovLaws.ThreeTimeoutsTurnIt | cpufreq_lse.c:321-337 | 53 out of 1024 falls, and climbs with three timed-out queues |
| GovLaws.RequestDirection | cpufreq_lse.c:428-431 | with the defaults the request rises, stays or falls exactly as utilisation is above, at or below the target load |
| GovLaws.RampsUp | cpufreq_lse.c:179-212 | constant utilisation of at least 91 climbs strictly to the maximum cap and stays |
| GovLaws.RampsDown | cpufreq_lse.c:179-212 | constant utilisation of at most 87 falls strictly to the minimum cap and stays |
| GovLaws.RestsIff | cpufreq_lse.c:179-212 | at which frequencies the request is the current frequency, for every utilisation |
| GovLaws.Settles | cpufreq_lse.c:179-212 | at 88 and 90 the loop moves one way and rests for good within as many steps as lie between the caps |
| GovLaws.NeverRests | cpufreq_lse.c:179-212 | at 89 it never rests, climbing below the pressure threshold and falling above, unless the minimum cap is above it |
| GovHandoff.NoLostRequest | cpufreq_lse.c:362-385 | over all interleavings, with no work queued or running the driver has the latest request |
| GovHandoff.WorkerDrains | cpufreq_lse.c:362-385 | the worker alone can always move while work is left and comes to rest in at most five steps |
| GovHandoff.QuietWorkerDelivers | cpufreq_lse.c:344-357 | once updates stop, the worker's remaining steps deliver the latest request |
| GovWorker.Kthread.UpdateCpufreq | cpufreq_lse.c:468-492 | the slow path of an update is one update of the handoff protocol |
| GovWorker.Kthread.TickUpdate | cpufreq_lse.c:291-360 | so is a tick's, unless it is rate-limited |
| GovWorker.Kthread.ReadNext | cpufreq_lse.c:377-379 | the worker's locked read is the protocol's |
| GovWorker.Kthread.Drive | cpufreq_lse.c:381-384 | the worker's driver call is the protocol's |
| GovWorker.Kthread.LseGovWork | cpufreq_lse.c:362-385 | undisturbed, the work gives the driver the stored request |
| ListHead.ListSwap | lse_sched_cluster.c:169-170 | swapping neighbours by unlink, replace and add keeps a well-formed ring |
| ListHead.MoveList | lse_sched_cluster.c:188-208 | the head takes over the source's chain in order |
| Topology.InsertCluster | lse_sched_cluster.c:74-88 | insertion keeps a well-formed ring sorted by capacity, after every cluster of equal capacity and before every larger one |
| Topology.CapacityIs | lse_sched_cluster.c:74-88 | a cluster is ranked by the capacity of its first CPU |
| Topology.System.GetPossibleSiblings | lse_sched_cluster.c:210-233 | the mask is all CPUs with the same id, or empty without an id |
| Topology.System.AddCluster | lse_sched_cluster.c:113-128 | the siblings point to their new cluster, which joins the sorted ring |
| Topology.System.CleanupClusters | lse_sched_cluster.c:130-145 | every CPU is back on the initial cluster and the count has dropped by the clusters freed |
| Topology.System.AlignClusters | lse_sched_cluster.c:147-171 | with exactly four clusters the middle two are swapped iff they ascend |
| Topology.System.AssignClusterIds | lse_sched_cluster.c:173-186 | each cluster carries the id of its first CPU |
| Topology.System.UpdateClusterTopology | lse_sched_cluster.c:235-263 | valid ids, at most four: a partition by id on a well-formed ring in capacity order; an invalid id: everything as before; more than four ids are reported as such |

## Left out

- WaltModel.UpdateWindowStart: the 32-bit `nr_windows`, the 64-bit products of `scale_exec_time` and the wrap-around of 64-bit times are unbounded integers, because no run reaches those widths within decades of uptime except a CPU silent for 2^31 windows.
- WaltCode.LseTickEntry: its call into the governor is modelled on its own (`TickUpdate`), because it writes no tracked record.
- WaltCode.LseIrqWork: its cpufreq callback between accounting and adoption is modelled on its own (`UpdateCpufreq`), because it writes no tracked record.
- WaltCode.LseSchedule: its queue hook is modelled on its own (`OnSchedule`), because it writes no tracked record.
- WaltRuns.TaskHistoryIsRunTime: window-size changes are not covered for task histories, because a sleeping task's last window then no longer lies on one grid; the CPU counters are covered on one CPU.
- GovLaws.RampsUp: the driver is taken to adopt every request as is, because `cpufreq_driver_resolve_freq` is foreign code.
- GovHandoff.NoLostRequest: `lse_gov_limits`, which calls the driver beside the worker, and governor start, stop and exit are not steps of the machine.
- DsqCode.DsqLayer.DequeueTask: intrusive list nodes are modelled as membership in sequences; unlinking removes the node from whichever sequence holds it.
- Topology.System.UpdateClusterTopology: memory of freed clusters and RCU visibility; the BUG_ON on a fifth cluster ends the build with an outcome of its own.
- sysctl, procfs and sysfs handlers, tracepoints, systrace output and diagnostic dumps.
- `lse_monitor.c`: timers around one flag, which would only add easy members.
- `lse_shadow_tick.c` timer arming; its effect is that of extra ticks.
- `lse_task_struct_ext.c` and task exit; the set of tasks is fixed.
- Task hints (`task_class`, `boost_pct`, `priority_hint`): stored here, never read by the accounting; for classification they are inputs.
- `lse_dsq_add_runtime`, quotas, round-robin indices, `priq`, depth limit and rescue: they drive no behaviour.
- Classification without an extension struct: every caller that enqueues or dequeues has one.
- The legacy frequency formula and `freq_cached`.
- Cluster frequency notifiers and quality-of-service constraints.
- Spinlocks, memory barriers and jiffies wrap-around: locked bodies are atomic and time is mathematical.
