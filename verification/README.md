# Governor control, slot apportionment and the caches around them

A Dafny model of the parts of Joulie that decide, step by step, what is written
to a node and what is remembered about it, with proofs of what they keep.

* **The agent's governor control.** One component (CPU or GPU) is a class with
  the fields of `governorComponent` (`Component`); its methods are the source's,
  and each is proved to move the component as a function says. `ComponentRuns`
  reads the acts of a run into a ledger and shows that every act of every run is
  one the ledger allows; `ComponentLaws` turns that into laws over whole runs:
  spacing of applies, drifts and contention, refusal, restores. `ComponentDuties`
  is the other half: every act a step, hold, release or exit emits, exactly when
  the history and the device's answers call for it, and `ComponentRestores` how far
  apart restores are. `ComponentStatus` says what the status shows of a run.
  `Control` and `AgentControl` add `prepare`, the baseline, restarts and the choice
  of event, `ControlDuties` what a reconcile and the exit must do over every run.
* **The writers under it.** `Sysfs` is the host behind an adversarial driver
  (any function of time, write and contents) and `writeVerified`; `CpuRestore` is
  the three-phase restore and `CpuBoost` what it does with boost; `AmdSteps` the lockstep writer; `Nvidia` the lock
  record against hardware that cannot be read back; `NvidiaEvidence` the samples
  that stand in for reading it.
* **The stored baseline.** `CpuList` and `GoStrings` print and read policy lists,
  `CpuBaseline` groups policies and reads the groups back.
* **Slot apportionment.** `Greedy` is the divisor method and its optimality,
  `Apportionment` and `Relabelling` what `PerformanceSet` makes of it, `Sizing`
  the sizing search that relies on nesting.
* **Protocols and caches.** `GapProtocol` (the agent's GPU component and the
  controller manager over NodeHardware), `Publishing` (when NodeHardware is written and when it is called
  stale), `TwinCache` (the scheduler's cache under any interleaving),
  `PowerTrend` (the rolling power window).

Inductions are written out: every lemma turns Dafny's automatic induction off.

What the environment does (a driver, a command, a check, an API call, a clock, a
discovery) is an arbitrary input. Times are nanoseconds unless said otherwise,
and clocks do not run backwards in the statements over runs.

Where the code and what is said about it disagree, the code is modelled:

* `contended` is documented to stop writes until the intent changes. A hold, such
  as one reconcile with an empty discovery, also ends it: the next step starts
  the same intent anew and applies at once
  (`ComponentLaws.ContentionLastsUntilHold` says exactly when).
* The baseline is said to stay as it is from the first write on, and the last
  status to tell a restarted agent that an earlier run wrote. A hold publishes
  `unsupported` with nothing applied, which says the opposite; a restart then
  records the agent's own setting as the baseline
  (`Control.EmptyDiscoveryLosesBaseline`). A new intent that the node does not
  support has the same effect without any hold: nothing is written for it, and its
  status replaces the one that told of the earlier write
  (`Control.UnsupportedIntentLosesBaseline`). `ComponentStatus.StatusTellsOfWrites`
  and `Control.BaselineSurvivesRestart` say exactly when the baseline survives;
  `Control.WriteSurvivesRestart` that it does after every intent whose last apply
  reported anything in force, or a failure that may have left something.
* What failed is said not to be tried again for thirty minutes unless the intent
  changes. A release that finds nothing it may put back, as in simulate-only mode,
  forgets the retry as well: the next release restores at once
  (`ComponentRestores.RestoreAtOnce`; `ComponentRestores.EarlyRestore` says exactly
  when).
* `need` in the sizing script is N when no count holds the demand, so comparing a
  count with it means "holds" exactly on clusters that can hold the demand
  (`Sizing.NeedMeansHolding`).
* A printed list with a negative number does not read back
  (`CpuList.PolicyListRoundTrip`).

## Model

| member | source | states |
|---|---|---|
| Greedy.CrossMultiplied | pkg/controller/policy/policy.go:246-252 | the integer comparison is exactly the strict comparison of the Sainte-Lague quotients |
| Greedy.BestIsCheapest | pkg/controller/policy/policy.go:225-233 | the scan picks the first family with the largest quotient among those that are not full, none exactly when all are |
| Greedy.SplitFeasible | experiments/kwok-cluster/pool_load.py:77-87 | every slot is handed out, at least one per family and none past a family's size |
| Greedy.SplitStep | pkg/controller/policy/policy.go:193-195 | house monotone: one more slot changes one family, by one |
| Greedy.SplitIsCheapest | experiments/kwok-cluster/pool_load.py:77-87 | the split has the least sum of slots squared over size among all splits with its total, floor and ceilings |
| Greedy.SplitIsClosest | pkg/controller/policy/policy.go:185-193 | no such split is closer, in squared deviation over size, to giving every family the same share of its nodes, for any share |
| Apportionment.NextFamily | experiments/kwok-cluster/pool_load.py:80-86 | the inner scan finds the family Best defines |
| Apportionment.FillSlots | experiments/kwok-cluster/pool_load.py:77-87 | the slot loop computes the split of the clamped count |
| Apportionment.Group | experiments/kwok-cluster/pool_load.py:72-74 | the members dictionary holds every family's nodes in order, its keys as first seen |
| Apportionment.RankFamilies | pkg/controller/policy/policy.go:201-217 | families in name order, each family's nodes labelled first and then by name |
| Apportionment.TakeFirst | experiments/kwok-cluster/pool_load.py:88-88 | the union of the first slots of every list |
| Apportionment.PerformanceSet | pkg/controller/policy/policy.go:200-244 | the method computes PerformanceNodes, the function the laws below are about |
| Apportionment.SlotsAreProportional | experiments/kwok-cluster/pool_load.py:67-88 | for every inventory and count: slots sum to the clamped count, lie in 1..family size, and are closest to proportional among all such splits |
| Apportionment.SlotsForStep | pkg/controller/policy/policy.go:193-195 | one more node of count gives one family one more slot, or changes nothing at the clamps |
| Apportionment.Nested | experiments/kwok-cluster/pool_load.py:123-123 | the performance nodes of a count are among those of the next |
| Apportionment.NestedBetween | experiments/kwok-cluster/pool_load.py:123-123 | and among those of every larger count |
| Relabelling.InputOrderIrrelevant | pkg/controller/policy/policy.go:199-199 | the result does not depend on the order of the nodes |
| Relabelling.TakenByName | pkg/controller/policy/policy.go:201-217 | of two nodes of one family of which one runs at performance, that one was labelled so and the other not, or has the lexicographically smaller name |
| Order.LeqIsLexicographic | pkg/controller/policy/policy.go:209-217 | names compare by the first character that differs, a prefix first |
| Relabelling.PerformanceCount | pkg/controller/policy/policy.go:188-189 | as many nodes run at performance as the count says, but at least one per family and at most all |
| Relabelling.MovesOneWay | pkg/controller/policy/policy.go:193-198 | with labels from the last reconcile, a larger count keeps every performance node and a smaller one adds none |
| Relabelling.MovesLeast | pkg/controller/policy/policy.go:193-199 | a reconcile at constant demand moves nothing, and one that moves the count moves exactly as many nodes as the clamped counts differ by |
| Sizing.CapacityOf | experiments/kwok-cluster/pool_load.py:113-118 | the dictionary loop adds up each pool's GPUs or cores, with a key exactly for pools that have a named node |
| Sizing.CapacityAdds | experiments/kwok-cluster/pool_load.py:113-118 | capacity adds up over the inventory, each named node in one pool only: its GPUs in its vendor's, or its cores in the cpu pool |
| Sizing.PerformanceCapacityMonotone | experiments/kwok-cluster/pool_load.py:123-123 | each pool's performance capacity grows with the count |
| Sizing.NeedIsFirst | experiments/kwok-cluster/pool_load.py:168-168 | need is the smallest count that holds the demand, N when none does |
| Sizing.NeedMeansHolding | experiments/kwok-cluster/pool_load.py:168-184 | need <= k decides whether k holds the demand, for all k, if and only if all nodes together hold it |
| Sizing.HoldsCountsHeldSamples | experiments/kwok-cluster/pool_load.py:183-184 | holds counts the samples whose demand their count holds, on a cluster that can hold each |
| Sizing.LargestNeedHoldsAll | experiments/kwok-cluster/pool_load.py:196-196 | a fixed count holds every sample exactly from the largest need on |
| CpuList.FindRunEnd | cmd/agent/governor_discovery.go:293-296 | the inner loop finds the end of the run of consecutive numbers |
| CpuList.FormatCPUList | cmd/agent/governor_discovery.go:290-305 | the printer writes the runs of its list, comma separated |
| CpuList.CpuListHas | cmd/agent/governor_control.go:796-814 | the reader decides membership part by part, with Go's number parsing |
| CpuList.ListConcat | cmd/agent/governor_control.go:796-814 | for any two texts, joined by a comma they hold what either holds: a part that cannot be read spoils no other |
| CpuList.RunRead | cmd/agent/governor_control.go:796-814 | a printed run of non-negative numbers reads back as the range it covers |
| CpuList.NonNegativeRoundTrip | cmd/agent/governor_discovery.go:290-305 | a printed list of non-negative numbers, in any order, holds exactly its numbers |
| CpuList.PolicyListRoundTrip | cmd/agent/governor_discovery.go:290-305 | printing and reading back is exact if and only if no number is negative |
| CpuBaseline.CollectMembers | cmd/agent/governor_discovery.go:270-278 | the map and order loop collects each setting's policies, settings as first seen |
| CpuBaseline.RecordBaseline | cmd/agent/governor_discovery.go:268-286 | one stored group per setting |
| CpuBaseline.CpuBaselineGroups | cmd/agent/governor_control.go:830-847 | each stored group with the present policies its list holds, groups without any left out |
| CpuBaseline.BaselineStores | cmd/agent/governor_discovery.go:268-286 | the stored groups list a policy under a setting exactly when it had that setting |
| CpuBaseline.BaselineRoundTrip | cmd/agent/governor_control.go:830-847 | read back on any policies, groups have different settings, none is empty, and a policy is in one exactly when it is present and had that setting |
| CpuBaseline.EqualGroupsEqualStates | cmd/agent/governor_control.go:343-347 | equal group lists come from equal policy states, so the comparison in prepare misses no change |
| Sysfs.Host.WriteVerified | cmd/agent/governor_control.go:692-707 | the loop is Verify: what it issued, took and reports, under any driver; every write before the last read back, and a failure is what became of the last |
| Sysfs.Host.WriteAndRead | cmd/agent/governor_control.go:692-707 | one write and its readback: its result is the driver's error, not-applied for a failed readback, or none |
| Sysfs.Host.DifferingWrites | cmd/agent/governor_control.go:818-826 | the writes whose attribute reads otherwise |
| Sysfs.Host.WaitReadback | cmd/agent/governor_control.go:982-1003 | the wait succeeds only when no command's file still reads its command, and fails only when every poll found one that does |
| Sysfs.VerifyTakesPrefix | cmd/agent/governor_control.go:692-707 | on failure exactly a prefix was taken, and the count tells a refused write from one not read back |
| Sysfs.IssuedPrefix | cmd/agent/governor_control.go:692-707 | what a run issues is what it took and the write that failed |
| Sysfs.VerifyHolds | cmd/agent/governor_control.go:692-707 | when writes leave each other's attributes alone, success leaves every attribute at its value |
| Sysfs.FailuresAreFailures | pkg/governor/classify.go:65-109 | a run fails as refused, unsupported, error or not-applied, never as restored |
| Sysfs.DifferingIn | cmd/agent/governor_control.go:818-826 | a planned write is issued exactly when its attribute differs as the phase starts |
| Sysfs.PhaseRestores | cmd/agent/governor_control.go:884-890 | a phase that succeeds leaves everything planned at its value, written or not |
| CpuRestore.PlanCpuGroups | pkg/governor/cpu.go:222-247 | the plan of a list of groups: governors, preferences, boost by scope |
| CpuRestore.PlanBoost | pkg/governor/cpu.go:234-246 | the boost loop: every group's word on its policies, or the first word in the node's one file |
| CpuRestore.RestoreCPU | cmd/agent/governor_control.go:865-893 | the three lazily chosen phases: their result and count, the host they leave and every write they issue; an error and nothing done without a baseline |
| CpuRestore.OnlyDifferencesWritten | cmd/agent/governor_control.go:861-893 | every write a restore issues was planned for a phase and read otherwise when that phase started |
| CpuRestore.ReportTellsSuccess | cmd/agent/governor_control.go:884-893 | the report says restored exactly when no phase failed |
| CpuRestore.WritesCounted | cmd/agent/governor_control.go:884-893 | the count is the writes issued less one the driver refused; attempted exactly when one was issued or failed |
| CpuRestore.PlanIsBaseline | cmd/agent/governor_control.go:871-871 | the plan gives every present policy its recorded word and nothing else |
| CpuRestore.RestoredIsBaseline | cmd/agent/governor_control.go:861-893 | a report of restored leaves every present policy at its recorded governor and preference, for a driver whose governor writes may change preferences |
| CpuRestore.EagerPlanLosesPreference | cmd/agent/governor_control.go:861-864 | why a phase is chosen when it starts: chosen at once, a driver may take every write and end at another preference |
| CpuBoost.BoostLeftAlone | cmd/agent/governor_control.go:876-882 | a restore issues no boost write unless the agent wrote boost |
| CpuBoost.OneFilePlan | pkg/governor/cpu.go:132-146 | a node with one boost file gets one write of the recorded word, inverted for no_turbo |
| CpuBoost.RestoredBoost | cmd/agent/governor_control.go:876-890 | a report of restored leaves every policy's boost file at its recorded word, the global file as first seen, or a node's one file at the one word recorded |
| AmdSteps.RunRound | cmd/agent/governor_control.go:1014-1042 | a round issues the k-th write of every device in order, or stops at a prefix, at the first write that the driver refused or that did not read back |
| AmdSteps.WriteStep | cmd/agent/governor_control.go:1022-1041 | one write of a round: an overdrive command is not read back, any other is |
| AmdSteps.WriteAmdSteps | cmd/agent/governor_control.go:1013-1050 | terminates; success issues every round and settles it before the next. On failure, from the events of the run: every write before the last went well; the failure is the driver's error or a failed readback of the last write, or error when the wait after it ran out; expect is every write issued that is no overdrive command, less the one that failed, in order; taken is those and the commands of every wait that ended; the count is the writes without an error |
| AmdSteps.TakenPermutesSteps | cmd/agent/governor_control.go:1013-1050 | on success taken is a permutation of all writes |
| AmdSteps.TakenKeepsDeviceOrder | cmd/agent/governor_control.go:1013-1050 | and keeps every device's order |
| AmdSteps.ExpectedIsTakenOthers | cmd/agent/governor_control.go:1005-1012 | expect is taken without the overdrive commands |
| AmdSteps.SettledBetweenRounds | cmd/agent/governor_control.go:1005-1012 | in every part of a run, nothing follows round k's writes before its overdrive tables printed again, which the host keeps true of every such event |
| Nvidia.PlanFor | pkg/governor/nvidia.go:123-133 | plans are well formed: a lock command names its lock, graphics before memory |
| Nvidia.CommandsExactly | pkg/governor/nvidia.go:123-133 | a domain gets a lock exactly when the preset asks for one, a reset exactly when it does not, a lock is recorded and a reset works there |
| Nvidia.Control.RecordCommand | cmd/agent/governor_control.go:1233-1255 | the record after one successful command |
| Nvidia.RecordStep | cmd/agent/governor_control.go:1233-1255 | recording a successful command keeps the record equal to the agent's locks in force |
| Nvidia.Control.UndoLocks | cmd/agent/governor_control.go:1301-1324 | every lock set on the GPU is reset or still recorded, one failure each; the commands run are exactly those resets, last first; the count is the successful ones |
| Nvidia.Control.RunPlans | cmd/agent/governor_control.go:1265-1290 | the record equals the locks in force under any failures; earlier GPUs hold their plan, later ones are untouched, the failing one is undone up to failed resets; the commands run are exactly the plans' up to the one that failed, whose own result is reported, and the resets after it; the count is the successful commands |
| Nvidia.Control.RunChoices | cmd/agent/governor_control.go:1347-1356 | planned and run: the failure reported is the first command's that failed, as the GPU answered it then |
| Nvidia.Control.Apply | cmd/agent/governor_control.go:1326-1356 | a preset some GPU does not support runs nothing; else success puts the preset's locks in force on every GPU, a failure is the result of the first command that failed, and an operator's lock stays wherever the preset sets none, failing or not |
| Nvidia.Control.Restore | cmd/agent/governor_control.go:1469-1487 | success leaves no lock of the agent's that can be reset, a failure is the result of the first command that failed, and no restore ever takes an operator's lock |
| Nvidia.PlanMeans | pkg/governor/nvidia.go:107-110 | a whole plan leaves the preset's locks, none of the agent's elsewhere, and operators' locks |
| Nvidia.OperatorLocksKept | pkg/governor/nvidia.go:107-110 | no part of a plan, undone or not, takes an operator's lock from a domain the preset leaves |
| NvidiaEvidence.StreakProves | cmd/agent/governor_control.go:1359-1367 | three in the counter are exactly three good counted samples in a row at the end of the history since the intent started |
| NvidiaEvidence.SampleCounts | cmd/agent/governor_control.go:1402-1418 | a sample of a busy, locked GPU counts when no clock is over two per cent above its lock, nor the memory clock as much below, and else resets the count; any other sample does neither |
| NvidiaEvidence.UncountedInvisible | cmd/agent/governor_control.go:1403-1406 | an idle, missing or unlocked sample, wherever it comes, neither counts nor resets |
| NvidiaEvidence.Evidence.StartIntent | cmd/agent/governor_control.go:235-241 | a new intent starts without evidence |
| NvidiaEvidence.Evidence.Conclude | cmd/agent/governor_control.go:1352-1355 | an apply is called applied only when every locked GPU is proven |
| NvidiaEvidence.Evidence.Verified | cmd/agent/governor_control.go:1359-1367 | the loop decides whether every locked GPU is proven by the history |
| NvidiaEvidence.Evidence.CountAll | cmd/agent/governor_control.go:1402-1418 | every GPU's counter moves by the sample's verdict |
| NvidiaEvidence.Evidence.Verify | cmd/agent/governor_control.go:1396-1426 | applied-unverified becomes applied exactly when every locked GPU's last three counted samples lie within its lock; any other status samples nothing |
| Component.Drifts.Prune | cmd/agent/governor_control.go:559-564 | the in-place compaction keeps exactly the drifts of the window, in order |
| Component.Drifts.Add | cmd/agent/governor_control.go:559-565 | pruned and appended, within three places |
| Component.Governor.Seed | cmd/agent/governor_control.go:387-413 | changed is set exactly when it was, or the status found is none of unset, disabled and restored, and names what is applied if unsupported |
| Component.Governor.StartIntent | cmd/agent/governor_control.go:235-241 | the state a new intent starts from |
| Component.Governor.ApplyNow | cmd/agent/governor_control.go:512-533 | the state after an apply |
| Component.Governor.CheckNow | cmd/agent/governor_control.go:535-581 | the state and acts of a check, falling out of its switch to the re-apply test; ComponentDuties.EveryStep says when each act is due |
| Component.Governor.Step | cmd/agent/governor_control.go:486-510 | the state and acts of a step, published when the API takes it |
| Component.Governor.Hold | cmd/agent/governor_control.go:477-482 | a hold forgets the intent and shows its own status; everything else stays, contention and pending retries included |
| Component.Governor.Release | cmd/agent/governor_control.go:603-649 | the state and acts of a release, including the early return while a retry is pending; ComponentDuties.EveryRelease says when each act is due |
| Component.Governor.RestoreOnExit | cmd/agent/governor_control.go:1540-1549 | a changed component is released at once, whatever retry was pending |
| ComponentRuns.FreshAgain | cmd/agent/governor_control.go:559-564 | pruning again later is as if pruned once |
| ComponentRuns.EpisodeStep | cmd/agent/governor_control.go:557-572 | the pruned list stays the latest window of the history, and three in it mean three drifts within thirty minutes |
| ComponentRuns.NextStep | cmd/agent/governor_control.go:486-649 | every event does only what the ledger allows and keeps the fields and the ledger in agreement |
| ComponentRuns.RunsAreAllowed | cmd/agent/governor_control.go:486-649 | so does every run of events |
| ComponentLaws.ApplySpacing | cmd/agent/governor_control.go:486-581 | two applies of one intent are five minutes apart unless the later follows a reset, and then a check passed between them |
| ComponentLaws.CpuApplySpacing | cmd/agent/governor_control.go:740-747 | the CPU component's applies of one intent are always five minutes apart |
| ComponentLaws.RetrySpacing | cmd/agent/governor_control.go:523-528 | after unsupported, not applied or a dropped write, the next apply of the intent is thirty minutes away |
| ComponentLaws.DriftsRefineHistory | cmd/agent/governor_control.go:557-572 | over every run the list is the intent's drifts of the last window, and contended holds exactly when three drifts came within thirty minutes |
| ComponentLaws.DriftAppliesCharged | cmd/agent/governor_control.go:557-580 | every apply a drift causes has a drift of its own, with no apply between |
| ComponentLaws.RefusalIsFinal | cmd/agent/governor_control.go:486-649 | after a refusal no event of any kind applies or restores |
| ComponentLaws.RestoresAreOwed | cmd/agent/governor_control.go:603-649 | a restore needs a write since the last successful one, since contention was released, or an earlier run's change: one success per change, none after contention |
| ComponentLaws.ContentionLastsUntilHold | cmd/agent/governor_control.go:474-510 | on one intent a contended component applies exactly when a step follows a hold; with steps alone it writes nothing |
| ComponentDuties.EveryStep | cmd/agent/governor_control.go:486-581 | in every step of every run, a new intent, a retry, an apply after an error, a reissue, a passed check, a dropped write, an apply after a reset, a noted drift and an apply after a drift each happen if and only if the history and the device's answers call for it, and nothing else does |
| ComponentDuties.EveryHold | cmd/agent/governor_control.go:477-482 | a hold does nothing to the device |
| ComponentDuties.EveryRelease | cmd/agent/governor_control.go:603-649 | in every release of every run, the baseline is put back if and only if it is owed, not refused, not left to another writer, allowed, plannable and no retry is pending; one that waits changes nothing; contention is yielded, and a status removed, exactly when the history says so |
| ComponentDuties.EveryExit | cmd/agent/governor_control.go:1540-1549 | the same at the exit, which waits for no retry and does nothing when nothing is owed |
| ComponentDuties.WrittenIsHistory | cmd/agent/governor_control.go:640-660 | whether the NodeTwin holds a status of the agent's: the last one published came after the last removal |
| ComponentRestores.RestoreSpacing | cmd/agent/governor_control.go:610-633 | without an exit, a restore comes at least thirty minutes after one that failed, unless an intent started or a release found nothing to put back in between |
| ComponentRestores.EarlyRestore | cmd/agent/governor_control.go:610-633 | within thirty minutes of a failed restore a release restores exactly when one of these came since, and no apply since waits for a retry of its own |
| ComponentRestores.RestoreAtOnce | cmd/agent/governor_control.go:235-241 | both happen: two attempts at one moment, after an intent that came and went and after a release in simulate-only mode |
| ComponentStatus.StatusShowsHistory | cmd/agent/governor_control.go:512-581 | over every run the status is contended or drift exactly while that holds, not-applied after a dropped write, and else the last apply's result, applied once the evidence is complete |
| ComponentStatus.StatusIsHistory | cmd/agent/governor_control.go:477-649 | over every run, holds, releases and the exit included, the status is exactly what the history says |
| ComponentStatus.StatusTellsOfWrites | cmd/agent/governor_control.go:282-294 | over every run, holds and the exit included, an agent that starts from the last status takes the component for changed if and only if what the history says is none of unset, disabled and restored, and names what is applied if unsupported |
| Control.RecordedOnlyOnChange | cmd/agent/governor_control.go:335-365 | a recorded baseline and its time change exactly when another state is found while nothing is written; without one, what is found is recorded, or what stands for it when it may be the agent's own |
| Control.WritesArePrepared | cmd/agent/governor_control.go:428-461 | every apply or restore of a reconcile comes after a baseline is recorded, with a discovery, off simulate-only and pool mode; an apply also needs GOVERNOR_WRITES and the native mode |
| Control.BaselineFrozen | cmd/agent/governor_control.go:335-365 | while changed is set, no sequence of reconciles alters the baseline |
| Control.FirstWriteKeepsFound | cmd/agent/governor_control.go:296-309 | the baseline a changed node keeps is what discovery found in the reconcile of the first write |
| Control.RestartKeepsBaseline | cmd/agent/governor_control.go:286-294 | a restart takes the node for changed exactly when the last status is none of unset, disabled and restored and names what is applied if unsupported, and keeps the baseline exactly then or when the next discovery finds the same |
| Control.EmptyDiscoveryLosesBaseline | cmd/agent/governor_control.go:923-939 | one empty discovery without a warning followed by a restart replaces the baseline by what is found then |
| Control.UnsupportedIntentLosesBaseline | cmd/agent/governor_control.go:757-760 | a new intent the node does not support, without any hold, followed by a restart, replaces the baseline too |
| Control.BaselineSurvivesRestart | cmd/agent/governor_control.go:286-294 | after any run, a restart keeps the baseline if and only if the status the history calls for tells of a write, or the same is found again |
| Control.WriteSurvivesRestart | cmd/agent/governor_control.go:282-294 | after any run that ends on an intent whose last apply reported applied, applied-unverified, equivalent, not-applied, refused, error, or unsupported with something applied, a restart takes the node for changed and keeps the baseline, whatever it finds |
| Control.TicksRunEvents | cmd/agent/governor_control.go:428-439 | a run of reconciles is a run of the component's events from its seeded state |
| Control.SeededStarts | cmd/agent/governor_control.go:387-413 | a process starts changed exactly when the status its first readable reconcile finds shows a write |
| Control.EventsAreOrderly | cmd/agent/governor_control.go:428-439 | the events of a run of reconciles are a run the component's laws apply to |
| Control.OnlyHoldsAndReleases | cmd/agent/governor_control.go:723-739 | with GOVERNOR_WRITES false a component sees holds and releases only |
| Control.DiscoveryOnly | cmd/agent/governor_control.go:583-649 | such an agent, exit included, applies nothing, reports one restore at most as restored, and attempts none unless the status it found shows that an earlier run wrote |
| ControlDuties.EventChosen | cmd/agent/governor_control.go:441-461 | when a reconcile steps, holds or releases, and what a hold reports |
| ControlDuties.BaselineGoesBack | cmd/agent/governor_control.go:583-649 | over every run, without an intent or with GOVERNOR_WRITES false, a reconcile puts the baseline back if and only if it is owed, not refused, not contended, writable, found, and no retry is due later |
| ControlDuties.NewIntentIsApplied | cmd/agent/governor_control.go:486-497 | over every run, a reconcile applies an intent as new if and only if the agent may write, was never refused, and acts on another one or none |
| ControlDuties.ExitPutsBack | cmd/agent/governor_control.go:1526-1550 | over every run, the exit puts the baseline back if and only if it is switched on and the same conditions hold, but for the retry |
| AgentControl.NodeControl.RecordCpu | cmd/agent/governor_control.go:335-348 | the CPU baseline rule |
| AgentControl.NodeControl.RecordGpu | cmd/agent/governor_control.go:349-365 | the GPU baseline rule, with the vendor default for a lost baseline |
| AgentControl.VendorDefaultAt | cmd/agent/governor_control.go:349-365 | every device keeps its bus, and its level becomes auto unless it is unknown |
| AgentControl.NodeControl.Prepare | cmd/agent/governor_control.go:310-382 | both components' baselines and seeds and the discovery kept for an empty one; nothing when NodeHardware cannot be read |
| AgentControl.NodeControl.KeepLast | cmd/agent/governor_control.go:329-334 | the last discovery that was not empty, kept for one that is |
| AgentControl.NodeControl.ReconcileComponent | cmd/agent/governor_control.go:723-748 | which event a component gets |
| AgentControl.NodeControl.ReconcileOnce | cmd/agent/main.go:682-703 | prepare and then reconcile, for both components |
| AgentControl.NodeControl.RestoreOnExit | cmd/agent/governor_control.go:1526-1550 | the exit restore of both components, when it is switched on and the node was loaded |
| GapProtocol.AddGovernorStatus | cmd/agent/governor_discovery.go:535-550 | the block published: this discovery's, the kept one's, or the stored one with the baseline held |
| GapProtocol.ReconcileStep | cmd/agent/main.go:682-687 | a reconcile publishes what it found, and keeps the published presets when it found nothing |
| GapProtocol.PublishedIsLastFound | cmd/agent/governor_discovery.go:501-507 | over every interleaving with restarts, NodeHardware shows the presets of the last discovery that was not empty |
| GapProtocol.PlanIsOfLastFound | cmd/controller-manager/governor_config.go:317-340 | the plan from what NodeHardware holds is the plan from the last discovery that was not empty, whatever it lists |
| GapProtocol.PresetForFirst | cmd/controller-manager/governor_config.go:253-277 | preset and ceiling come from the first key with an entry, field by field, else from the defaults |
| GapProtocol.PlannedExactly | cmd/controller-manager/governor_config.go:316-339 | when an intent is planned, with which preset, and that efficient alone carries a ceiling |
| GapProtocol.IntentsComeFromDiscoveries | cmd/controller-manager/governor_config.go:331-338 | however stale the controller's cache, every intent it writes was there before, or comes from a version then in flight or a discovery that was not empty |
| GapProtocol.IntentsAreListed | cmd/controller-manager/governor_config.go:328-339 | over every interleaving, an intent written names a preset that a discovery of the run listed, or a version in flight listed or held through a gap |
| GapProtocol.KeyTells | cmd/agent/governor_control.go:943-943 | keys agree exactly when preset and printed ceiling do |
| GapProtocol.BaselineIsPublished | cmd/agent/governor_discovery.go:535-550 | over every interleaving NodeHardware holds the baseline the agent would put back |
| GapProtocol.RestartTakesBaselineUp | cmd/agent/governor_control.go:310-328 | so a restart that can read it takes that baseline up again when its status tells of a write |
| GapProtocol.KeptOutlivesObject | cmd/agent/governor_control.go:329-334 | while the process lives, a lost object is written anew with the presets of the discovery it kept |
| GapProtocol.IntentNeverFlaps | cmd/controller-manager/governor_config.go:317-340 | so intents keep every property those sources have: empty discoveries and restarts never drop or change one |
| GapProtocol.IntentHeld | cmd/agent/governor_control.go:914-940 | with an intent and writes on a reconcile never restores, and only holds on an empty discovery |
| GapProtocol.EmptyDiscoveryNeverRestores | cmd/agent/governor_control.go:329-334 | over every interleaving of reconciles, restarts, stale caches and old intents, the agent restores nothing, and holds on every empty discovery |
| GapProtocol.LostObjectDropsIntent | cmd/agent/governor_discovery.go:535-550 | with the object lost as well as the process, one empty discovery does drop it |
| Publishing.LastWrites.ShouldWrite | cmd/agent/main.go:2089-2098 | decides and records a write, for one key only |
| Publishing.NodeHardware.Upsert | cmd/agent/main.go:2295-2310 | the timestamp moves exactly with a write, in whole seconds |
| Publishing.WriteSpacing | cmd/agent/main.go:2074-2098 | consecutive writes are less than five minutes plus a pass apart, unchanged ones at least five minutes |
| Publishing.WritesExactly | cmd/agent/main.go:2089-2098 | the first pass writes; a later one exactly when its payload differs from the one before, or the last write is five minutes old |
| Publishing.NeverStale | pkg/api/conditions.go:29-32 | while the agent runs, passes up to the bound apart keep the condition current at every time |
| Publishing.QuietExactlyUpTo | cmd/controller-manager/twinstate.go:169-186 | the condition stays quiet on every schedule if and only if passes are at most ten minutes, less a second, plus three nanoseconds apart |
| TwinCache.Cache.Check | cmd/scheduler/main.go:740-745 | what the read lock returns is the last build, made less than a TTL before; a caller it does not serve waits for the write lock; the cache's history moves as in EveryInterleaving |
| TwinCache.Cache.Rebuild | cmd/scheduler/main.go:747-777 | the section under the write lock moves the cache's history by one step and returns the answer it records |
| TwinCache.MapHoldsLast | cmd/scheduler/main.go:768-774 | the map holds every named node with its last status in the listing |
| TwinCache.BuildsAreListings | cmd/scheduler/main.go:761-777 | every build of every run holds exactly the nodes some listing of the run named, each with its last status there |
| TwinCache.KeptStep | cmd/scheduler/main.go:739-778 | what one critical section keeps |
| TwinCache.EveryInterleaving | cmd/scheduler/main.go:739-778 | for any number of callers: rebuilds are a TTL apart, every answer is empty, fresh or a build less than a TTL old when asked, and answers never go back |
| PowerTrend.PowerSamples.DropOld | cmd/controller-manager/twinstate.go:627-634 | the trimming loop |
| PowerTrend.PowerSamples.NodePowerTrend | cmd/controller-manager/twinstate.go:616-647 | appends, trims and returns the slope, other nodes untouched |
| PowerTrend.StoredIsWindow | cmd/controller-manager/twinstate.go:622-635 | after any number of calls the stored samples are the whole history's last five minutes |
| PowerTrend.TrendOfHistory | cmd/controller-manager/twinstate.go:637-646 | the trend is the slope over the history's last five minutes, 0 under a tenth of a minute |
| PowerTrend.WindowIsSuffix | cmd/controller-manager/twinstate.go:622-635 | the window is the history from the first sample less than five minutes older than the last |
| PowerTrend.TrendMeans | cmd/controller-manager/twinstate.go:637-646 | the trend times the minutes since that sample is the watts gained since, 0 under six seconds |

## Left out

- The messages and backends of status entries, metrics and logging: no decision reads them. Of `applied` only whether and what it says is kept.
- `PlanCPU`, `PlanAMD` and the choice of NVIDIA clocks in pkg/governor: what they plan is an arbitrary input; PlanNvidia's commands and PlanCPUGroups are modelled.
- `applyCPU`, `applyAMD`, `checkAMD` and `restoreAMD` around the writers: their outcomes are arbitrary inputs of the component, which is more than they can return.
- Sysfs paths, `pp_od_clk_voltage` and `nvidia-smi` parsing, vendor detection: strings are taken trimmed and files as attributes.
- `seedNvidia`: the record of an earlier run does not know which GPU a lock is on, so the record is claimed to agree with the hardware only from an agent that has set no lock.
- A crash between a device write and the status publish: restarts fall between reconciles.
- Failed API writes in the publishing protocol: `shouldWrite` records a write before it is made, so one that fails is not repeated for up to five minutes; the statements over runs take writes to succeed.
- Component.Governor.Step: the key is never empty, as the keys the reconciles build contain a separator; a component whose setting is issued again has a check that always holds, as the NVIDIA one does.
- ComponentLaws.ApplySpacing: says nothing of locks issued again, which persistence mode may ask for on every reconcile.
- ComponentRestores.RestoreSpacing: not across an exit, an intent or a release with nothing to put back, since the code forgets the retry there; EarlyRestore says exactly when a release restores early.
- CpuBoost.RestoredBoost: for boost files that do not move each other, and on a node with one file for policies that recorded one word; which policy's word wins otherwise is PlanBoost's rule, the first group with one.
- Sizing.HoldsCountsHeldSamples: for samples the whole cluster can hold; NeedMeansHolding says why.
- NvidiaEvidence.Evidence.Verify: clocks and tolerance are reals, without floating-point rounding; so are capacities, ceilings and power.
- GapProtocol.IntentNeverFlaps: configuration, profile and the multi-GPU rule's input stay fixed, since changing them is meant to change the intent; model keys are taken trimmed.
- GapProtocol.EmptyDiscoveryNeverRestores: every reconcile finds a NodeTwin it trusts; without one, or with one too old, the agent is meant to put the baseline back.
- CpuBaseline.EqualGroupsEqualStates: policies are listed in increasing order, as discovery lists them.
- The hardware-facts cache of the scheduler is the same code as the NodeTwin cache with another map, so TwinCache is modelled once.
- Scheduler scoring, cap clamps, the queue-aware and rule-swap policies, telemetry, the simulator and the command-line tools.
