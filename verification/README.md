# MC-Kube: a model of its pool, preemption, lifecycle and pressure logic

MC-Kube is a Kubernetes operator for mixed-criticality workloads. A McKube object names a pod, its
criticality (Low, Middle, High) and its real-time settings. The controller keeps, per node, a pool of
CPU cores with a usage counter and the pods recorded on each core; it makes room for a pod by moving or
evicting pods of lower criticality, registers it, and forgets it when its McKube or the pod goes away.
Independently, when a node is under CPU pressure, an event handler lowers the requests of the least
critical tier of pods, evicts from it, and climbs to the next tier.

This project models that logic and proves properties of it over every input, every order in which a
map may be visited, every outcome of the API calls, and every run.

| file | what it holds |
|---|---|
| `Criticality.dfy`, `Wrappers.dfy` | the rank table, also by name, and an option type |
| `CpuPool.dfy` | the pool: functions on the map of cores, and the class that updates it in place |
| `PoolAccounting.dfy` | runs of locked pool steps: counters against recorded demands |
| `PreemptionTraces.dfy` | traces of preemptions: bounds, conservation, frame, which pods are left |
| `PreemptionOutcomes.dfy` | outcomes that a preemption check can have |
| `PreemptionGuarantees.dfy`, `ThresholdGuarantees.dfy` | what a preemption check, and the registration after it, can promise under every outcome, as conditions on the pool before it |
| `Registration.dfy` | registering, re-registering, cleanup, the bulk collector |
| `CoreSets.dfy`, `CoreSetForms.dfy` | the core-set parser, what it reads back, and what it makes of blanks, signs and malformed parts |
| `Demand.dfy` | the settings validator and the demand in millicores |
| `Lifecycle.dfy` | reconciliation as a step of the whole system, runs of such steps, no leaks |
| `LifecycleRuntime.dfy`, `LifecycleStatus.dfy`, `LifecycleProgress.dfy` | runtime states and the demand they give; which status shows a migration; results, and the way from a new McKube to a registered pod |
| `LifecycleDemands.dfy`, `LifecycleSettling.dfy` | over such runs: recorded demands, when a registration settles |
| `LifecycleAccounting.dfy`, `LifecycleThreshold.dfy` | over such runs: exact counters, when the threshold is kept |
| `LifecycleLeak.dfy`, `LifecycleWitnesses.dfy`, `LifecycleEdits.dfy` | concrete runs on which the pool leaks, exceeds the threshold, miscounts, never settles, preempts without need |
| `Controller.dfy` | the reconciler object, proved against the functions above |
| `Degradation.dfy`, `Tiers.dfy` | lowering requests; criticality tiers |
| `Pressure.dfy`, `PressureActions.dfy`, `PressureRuns.dfy` | the pressure handler as a function, what one event does, and its runs |
| `EventHandler.dfy` | the handler's objects, proved against `Pressure.dfy` |

How to read it. The controller and the event handler update objects in place, and so do the classes
`CPUPool`, `Reconciler`, `PerTierState`, `NodePressureState` and `Handler`. Each method equates its new state
with a function of the old one; the lemmas state what those functions guarantee. A preemption check
depends on map orders and API answers, so its methods take the answers as inputs and also return the trace
of what happened; the lemmas hold for every trace that `Preempts` admits. Floating-point shares of a core are integers in
millicores: the 90% threshold is 900, 95% of a period is rounded down, a degraded request is four fifths
rounded down.

Where the code and its documentation differ, the model follows the code: the runtime documentation
asks for a low runtime below the high one, the validator also accepts equal ones; its example writes
the criticality "high", which has no rank and counts as the lowest in preemption; a comment speaks of
evicting pods that were degraded, the code evicts the pod with the highest recorded request of the tier.

## What was found not to hold as one might expect

- A reconciliation need not keep its cores within the threshold. Preemption is checked on the cores in
  force and the pod is registered on the requested ones. Whatever they are, room on the requested cores is
  necessary, and it decides when there is nobody to preempt (`ReconcileKeepingNeedsRoom`). With one core in
  force `OneLowerReconcileKeepsThresholdExactly` is exact for at most one lower pod there, and
  `NoTakerReconcileKeepsThresholdExactly` for any number that no other requested core can take. With the
  requested cores in force `ReconcileKeepsThresholdExactly` is exact for a pod new to them, and
  `OneCoreReconcileKeepsThresholdExactly` for any pod that requests one. `UnfetchedVictimOverloads` reaches a core at 1000; `VictimTakesTheRoom` one at 1100 although it had
  room, because a victim moved there first. `ReconciledUsageIsBounded` is the bound that always holds.
- A check need not clear an overloaded core of lower-criticality pods. `ClearsForSureExactly`: it is sure
  to, if and only if there were none. When every victim is fetched, `StayingAwayClears` and
  `ClearingNeedsFirstMoves` give a sufficient and a necessary condition, which for one lower pod are the same
  (`OneLowerClearsExactly`). `UnfetchedVictimOverloads` reaches a core with a lower pod left on it.
- A check can preempt although the pod fits, because it counts the pod's former entry:
  `NeedlessPreemptionExactly` says exactly when, `GrowingPodPreemptsNeedlessly` reaches such a state.
- Counters can exceed the recorded demand for good. `CounterExactIff`: a counter is exact if and only if
  no migration of the run landed on that core while it recorded the victim already.
  `MigrationInflatesCounter` reaches a counter of 600 for 300.
- A reconciliation need not settle a registration. `SettlesExactly` says when it does,
  `RepeatSettlesExactly` that repeating changes nothing. `MissingCoreNeverSettles` reaches a state in which
  it never does: the pod requests core 9. `RecreatedPodSettlesExactly` shows that neither does a pod that was
  moved off its requested cores and then recreated.
- A pod can be its own victim. `OwnVictimExactly`: on an overloaded core that records it with a lower
  criticality than it has now; `RegistrationAfterCheck` says what its registration looks like then, and
  `OneCoreSettlesExactly` when it settles all the same. `RaisedPodIsItsOwnVictim` reaches such a state by
  raising the criticality of a registered pod, `RaisedPodMayNotSettle` says that it need not settle.
- The escalation can stall. `StallLasts`, `StallEndsExactly`: once the eviction of the current tier was
  tried, nothing is done to any pod of the node while some container of the tier asks for more than 10m
  or no higher tier is present. `StallIsReached`: one event is enough.
- Editing the pod name of a registered McKube leaks: `RenamedPodLeaks` gives the run,
  `EditLeaksUnlessSafe` the exact condition.
- A migrated pod's status would not read back for a negative core (`AllocatedCoreReadsBack`,
  `NegativeCoreReadsAsRange`); no run that stays below 64-bit counters publishes one
  (`MigrationsLandOnTheNode`).
- Escalating to the high runtime can lower a pod's demand: `EscalationNeverLowersDemand` says exactly when
  it does not, `EscalationCanLowerDemand` gives accepted settings for which it falls from 100 to 5.
- A request below 10m is raised by a degradation: `RaisedBelowMinimum`.

## Model

| member | source | states |
|---|---|---|
| Criticality.KnownRanksAreValid | internal/ipvs/event_handler.go:63-67 | exactly Low, Middle and High are known, ranked in this order, as the tier lemmas for arbitrary rank tables require |
| Criticality.OutranksByName | internal/controller/mckube_controller.go:1202-1221 | a High pod outranks every pod that is not High, a Middle one every pod that is neither Middle nor High, any other pod none |
| CpuPool.CPUPool.constructor | internal/controller/mckube_controller.go:1038-1050 | a new pool has exactly the cores 0 to n-1, unused |
| CpuPool.CPUPool.GetCoreUsage | internal/controller/mckube_controller.go:1057-1068 | the counter of a core, 0 for a core the pool does not have |
| CpuPool.CPUPool.AddPodToCore | internal/controller/mckube_controller.go:1071-1079 | the whole pool after an add; a missing core changes nothing; entries stay keyed by name |
| CpuPool.CPUPool.RemovePodFromCore | internal/controller/mckube_controller.go:1082-1092 | the whole pool after a removal, which releases what the entry recorded |
| CpuPool.CPUPool.GetPodsOnCore | internal/controller/mckube_controller.go:1095-1109 | each pod of the core once, in an unspecified order |
| CpuPool.CPUPool.FindLeastLoadedCore | internal/controller/mckube_controller.go:1112-1127 | a core of minimum usage whatever the visiting order, -1 only when every counter is at the search limit |
| CpuPool.CPUPool.PurgePod | internal/controller/mckube_controller.go:679-692 | the pod is gone from every core and each core released what it recorded for it |
| CpuPool.CPUPool.RetainPods | internal/controller/mckube_controller.go:732-745 | every core keeps exactly the surviving pods and releases the sum of the others |
| CpuPool.RetainCore | internal/controller/mckube_controller.go:733-743 | one core of the bulk collector, for any order in which its pods are visited |
| CpuPool.SumMillisTake | internal/controller/mckube_controller.go:122-136 | the recorded demand of a core does not depend on an order of its pods |
| PoolAccounting.StepExcess | internal/controller/mckube_controller.go:1071-1092 | a locked pool step changes a core's excess of counter over recorded demand by exactly the entry it overwrites |
| PoolAccounting.ExcessOverRun | internal/controller/mckube_controller.go:1071-1092 | over any interleaving of steps the excess grows by exactly what overwriting adds lost |
| PoolAccounting.AccountingInvariant | internal/controller/mckube_controller.go:1071-1092 | in every run from a new pool entries are keyed by name and a counter is its recorded demand plus what was overwritten, never negative |
| PoolAccounting.ExactIffNeverOverwrites | internal/controller/mckube_controller.go:1075-1078 | with positive demands the counters are exact at the end of a run if and only if no add hit a core already holding the pod |
| PreemptionTraces.LeastLoadedDecides | internal/controller/mckube_controller.go:1246-1256 | the least-loaded core can take a pod if and only if some core can |
| PreemptionTraces.EvictedIffNothingFits | internal/controller/mckube_controller.go:1243-1280 | a fetched victim is evicted if and only if no core could take it, else it lands on a core of minimum usage |
| PreemptionTraces.OversizedVictimIsEvicted | internal/controller/mckube_controller.go:1256-1280 | a victim above the threshold is always evicted |
| PreemptionTraces.CheckIsPermitted | internal/controller/mckube_controller.go:1152-1197 | a whole check is one sequence of permitted preemptions, all of victims ranked below the preemptor |
| PreemptionTraces.ReplayKeepsBound | internal/controller/mckube_controller.go:1224-1281 | preemptions leave each core at most at the larger of its usage before and 900 |
| PreemptionTraces.ReplayConserves | internal/controller/mckube_controller.go:1242-1280 | total usage falls by exactly the demand that left the pool: of evicted victims and of any sent to a core it does not have |
| PreemptionTraces.OnlyEvictedDepart | internal/controller/mckube_controller.go:1246-1280 | while counters are below the 64-bit limit a victim leaves the pool if and only if it is evicted |
| PreemptionTraces.ReplayInventsNoEntry | internal/controller/mckube_controller.go:1243-1257 | every entry after preemptions was in the pool before, perhaps on another core |
| PreemptionTraces.LowerPodsLeft | internal/controller/mckube_controller.go:1165-1197 | after a whole check a core records a lower-criticality pod if and only if the last move of that pod left it there, later targets included |
| PreemptionTraces.CheckBoundsAndConserves | internal/controller/mckube_controller.go:1134-1200 | bound and conservation of a whole check for any targets, orders and API failures; with counters below the 64-bit limit only evicted victims leave the pool |
| PreemptionTraces.CheckKeepsEntries | internal/controller/mckube_controller.go:1205-1221 | a pod that no target core records below the preemptor is never a victim and keeps every entry |
| PreemptionTraces.ChosenExactly | internal/controller/mckube_controller.go:1152-1197 | on one target core a pod is chosen if and only if the core would be overloaded and records it ranked below the preemptor |
| PreemptionTraces.ChosenByName | internal/controller/mckube_controller.go:1202-1221 | the same with the levels named: a High preemptor takes all that are not High, a Middle one all that are neither, a Low or unknown one nobody |
| PreemptionTraces.VictimsByName | internal/controller/mckube_controller.go:1152-1197 | in a whole check no victim is High, and none Middle unless the preemptor is High |
| PreemptionOutcomes.CheckWithoutFetch | internal/controller/mckube_controller.go:1234-1240 | every check has an outcome in which no victim is fetched, which leaves the pool as it is |
| PreemptionOutcomes.CoreStartingWith | internal/controller/mckube_controller.go:1174-1186 | any permitted preemption of a lower pod on an overloaded core can come first, with all others fetched after it or none |
| PreemptionOutcomes.CheckWithoutPublishing | internal/controller/mckube_controller.go:1306-1312 | whatever a check does to the pool it can do without any status update |
| PreemptionGuarantees.NothingToClearNothingDone | internal/controller/mckube_controller.go:1152-1197 | no lower-criticality pod on an overloaded target means no preemption at all |
| PreemptionGuarantees.ClearsForSureExactly | internal/controller/mckube_controller.go:1152-1197 | a whole check clears its overloaded targets of lower-criticality pods under every outcome if and only if there were none |
| PreemptionGuarantees.CoreClearsForSureExactly | internal/controller/mckube_controller.go:1165-1197 | the same for one overloaded core |
| PreemptionGuarantees.ChecksAgainstNineHundred | internal/controller/mckube_controller.go:1152-1197 | in millicores: a check preempts on a core if and only if the demand would bring it above 900 and it has a lower pod |
| PreemptionGuarantees.EvictedAboveNineHundred | internal/controller/mckube_controller.go:1246-1280 | in millicores: a fetched victim is evicted if and only if it would bring every core above 900 |
| PreemptionGuarantees.PutBackExactly | internal/controller/mckube_controller.go:1242-1257 | a fetched victim may come back to the core it left if and only if that core, counting it, is within the threshold and without it has the lowest usage |
| PreemptionGuarantees.PutBackForSure | internal/controller/mckube_controller.go:1242-1257 | it does come back if the core is then strictly the lowest |
| PreemptionGuarantees.MovesElsewhereExactly | internal/controller/mckube_controller.go:1242-1257 | some outcome of a check on one core moves a given lower pod to another core if and only if, before the check, another core has room for it and no more usage than this core without it |
| PreemptionGuarantees.StayingAwayClears | internal/controller/mckube_controller.go:1165-1197 | when every victim is fetched the core is cleared in any order if each lower pod stays away: the rest of the core leaves it no room, or another core stays lower even with all other lower pods on it |
| PreemptionGuarantees.ClearingNeedsFirstMoves | internal/controller/mckube_controller.go:1165-1197 | clearing it in every order needs that no lower pod may come back when it is the first to be fetched |
| PreemptionGuarantees.OneLowerClearsExactly | internal/controller/mckube_controller.go:1165-1197 | for a core with one lower pod both conditions coincide |
| ThresholdGuarantees.KeepingNeedsRoom | internal/controller/mckube_controller.go:318-335 | whatever cores are checked: keeping the requested cores within the threshold under every outcome needs room for the pod, in place of its former entry, on each of them |
| ThresholdGuarantees.RoomIsEnough | internal/controller/mckube_controller.go:318-335 | when the requested cores are the ones checked, room for the demand on top of the usage of each is enough |
| ThresholdGuarantees.KeepsThresholdExactly | internal/controller/mckube_controller.go:318-335 | for a pod new to its requested cores and checked there both coincide: the threshold is kept under every outcome if and only if there is room |
| ThresholdGuarantees.OneCoreKeepsThresholdExactly | internal/controller/mckube_controller.go:318-335 | for a pod that requests one core and is checked there, whatever that core records for it: if and only if there is room once its own entry gives way |
| ThresholdGuarantees.RoomDecidesWithoutVictims | internal/controller/mckube_controller.go:318-335 | whatever cores are checked, if no overloaded one has a lower pod: the threshold is kept under every outcome if and only if each requested core has room |
| ThresholdGuarantees.KeepingNeedsRoomForMoves | internal/controller/mckube_controller.go:1242-1257 | with one core checked and any number of lower pods on it: keeping the threshold needs room for the pod also after each move that may come first |
| ThresholdGuarantees.OneLowerKeepsThresholdExactly | internal/controller/mckube_controller.go:318-335 | with one core checked, at most one lower pod on it and any requested cores: the threshold is kept under every outcome if and only if there is room, and would be after the one move that may happen |
| ThresholdGuarantees.NoTakerKeepsThresholdExactly | internal/controller/mckube_controller.go:318-335 | with one core checked and any number of lower pods on it that no other requested core can take: if and only if there is room |
| ThresholdGuarantees.NeedlessPreemptionExactly | internal/controller/mckube_controller.go:1152-1163 | when a pod fits on its one core in place of its former entry, the check preempts somebody, under one outcome and then under all, if and only if the core records it, the two demands together are too much and there is a lower pod |
| PreemptionGuarantees.OwnVictimExactly | internal/controller/mckube_controller.go:1205-1221 | a check on one core takes the preemptor itself, under one outcome and then under all, if and only if the core is overloaded and records it with a lower criticality |
| PreemptionGuarantees.OwnVictimOnSomeTarget | internal/controller/mckube_controller.go:1152-1197 | on several cores: one overloaded target that records the pod lower is enough for some outcome, one that records it lower is necessary |
| PreemptionGuarantees.RegistrationAfterCheck | internal/controller/mckube_controller.go:318-335 | after any check the requested cores record the pod as it is now, and another core records it lower if and only if its last move left it there |
| Registration.ReinstallMeaning | internal/controller/mckube_controller.go:1456-1461 | re-adding on a core list charges each listed existing core once, even if listed twice, and no other |
| Registration.RegisterIdempotent | internal/controller/mckube_controller.go:1433-1471 | registering twice is registering once, on the whole pool |
| Registration.RegisterFrame | internal/controller/mckube_controller.go:1456-1461 | no other pod's entry and no core outside the set changes |
| Registration.RegisteredAfter | internal/controller/mckube_controller.go:299-316 | which cores record the pod after a registration, both directions |
| Registration.PurgeUndoesRegister | internal/controller/mckube_controller.go:664-697 | cleanup cancels a registration, and restores the pool if and only if it did not know the pod |
| Registration.PurgeEachMeaning | internal/controller/mckube_controller.go:676-694 | purging names one by one, in any order and with repetitions, drops what they cover |
| Registration.RetainIsPurgeEach | internal/controller/mckube_controller.go:730-747 | the bulk collector equals purging each tracked pod outside the surviving set, in any order |
| CoreSets.ParsePart | internal/controller/mckube_controller.go:1360-1378 | the cores of one part: a range with scan failures read as 0, or a single number, or none |
| CoreSets.ParseCoreSet | internal/controller/mckube_controller.go:1351-1382 | the cores of a core-set string, part by part |
| CoreSets.CoreSetConcat | internal/controller/mckube_controller.go:1354-1356 | parsing distributes over the comma for all strings |
| CoreSets.CoreSetRoundTrip | internal/controller/mckube_controller.go:1349-1382 | printing single cores and ascending ranges in the documented format and parsing gives the same cores in order |
| CoreSets.AllocatedCoreReadsBack | internal/controller/mckube_controller.go:1307-1308 | the printed core of a status reads back as that core if and only if it is not negative |
| CoreSets.NegativeCoreReadsAsRange | internal/controller/mckube_controller.go:1307-1308 | a negative core would read back as a range from 0 |
| CoreSetForms.ScanSkipsBlanks | internal/controller/mckube_controller.go:1362-1375 | blanks before a number are skipped, a line end is not |
| CoreSetForms.ScanReadsNumber | internal/controller/mckube_controller.go:1362-1375 | what follows a number is ignored, and one that does not fit in 64 bits is not read |
| CoreSetForms.LargestNumberRead | internal/controller/mckube_controller.go:1362-1375 | the largest number that is read, in digits |
| CoreSetForms.ScanReadsSign | internal/controller/mckube_controller.go:1362-1375 | a plus sign changes nothing, a minus sign negates |
| CoreSetForms.NothingToScan | internal/controller/mckube_controller.go:1362-1375 | a text that does not begin with a number, after at most one sign, scans as none |
| CoreSetForms.NumberInBlanks | internal/controller/mckube_controller.go:1356-1376 | a number with blanks around it names that core |
| CoreSetForms.RangeInBlanks | internal/controller/mckube_controller.go:1356-1371 | a range may have blanks around it and around its dash, and names nothing when its ends are the wrong way round |
| CoreSetForms.TwoDashesNameNothing | internal/controller/mckube_controller.go:1360-1362 | a part with more than one dash names nothing |
| CoreSetForms.PrintedPlainly | internal/controller/mckube_controller.go:1307-1308 | a printed core is its decimal digits without a leading zero |
| Demand.ValidateSettings | internal/webhook/rt_validator.go:66-99 | settings are accepted if and only if 0 < low <= hi <= 95% of the period; the reported maximum is the largest allowed |
| Demand.FirstBrokenRule | internal/webhook/rt_validator.go:66-99 | each error is reported exactly when its rule is the first one broken |
| Demand.AcceptedDemandIsBounded | internal/controller/mckube_controller.go:282-295 | accepted settings ask for 1 to 950 millicores in both runtime states |
| Demand.DemandIsShare | internal/controller/mckube_controller.go:289-295 | the demand is the share of the period in millicores, rounded down, and 100 for less than one or without a period |
| Demand.EscalationNeverLowersDemand | internal/controller/mckube_controller.go:1406-1422 | exactly when the high runtime asks for at least as much as the low one |
| Demand.EscalationCanLowerDemand | internal/controller/mckube_controller.go:1406-1422 | accepted settings whose demand falls from 100 to 5 on escalation |
| Lifecycle.RemoveString | internal/controller/mckube_controller.go:1556-1564 | the removed string is gone and every other one stays |
| Lifecycle.RemoveStringConcat | internal/controller/mckube_controller.go:1556-1564 | removal works part by part, so the remaining strings keep order and multiplicity |
| Lifecycle.PublishedCoreHoldsVictim | internal/controller/mckube_controller.go:1256-1312 | the core set published for a migrated victim parses to the one core that now records it |
| Lifecycle.PlaceInventsNoEntry | internal/controller/mckube_controller.go:318-335 | after a placement every entry is the placed pod's or was in the same node's pool |
| Lifecycle.PlaceKeepsObjects | internal/controller/mckube_controller.go:1306-1312 | preemption and registration change nothing of a McKube but the core in its status |
| Lifecycle.PlaceKeepsNoLeak | internal/controller/mckube_controller.go:297-335 | a placement, victims moving included, leaves every entry owned by a McKube with the finalizer |
| Lifecycle.CleanupKeepsNoLeak | internal/controller/mckube_controller.go:183-203 | cleanup before giving up the finalizer leaves nothing unowned, whether or not the update succeeds |
| Lifecycle.ReconcileKeepsNoLeak | internal/controller/mckube_controller.go:181-341 | every path of a reconciliation keeps each pool entry owned |
| Lifecycle.StepKeepsNoLeak | internal/controller/mckube_controller.go:626-640 | so does every event of the system, pod deletion and safe edits included |
| Lifecycle.EditLeaksUnlessSafe | internal/controller/mckube_controller.go:190-193 | an edit keeps every entry owned if and only if it does not abandon a registered pod |
| Lifecycle.NothingLeaks | internal/controller/mckube_controller.go:181-217 | over every run with safe edits, a pod with an entry is named by an existing McKube that carries the finalizer |
| Lifecycle.GoneMeansNoEntry | internal/controller/mckube_controller.go:181-204 | once no McKube names a pod, no core of any pool records it |
| Lifecycle.DeletionCompletes | internal/controller/mckube_controller.go:183-203 | reconciling a deleted object forgets its pod everywhere, touches no other entry and no other runtime state, and the object is gone exactly when the update succeeds and no other finalizer is left |
| LifecycleRuntime.PlacementDemand | internal/controller/mckube_controller.go:256-335 | a placement checks and registers the pod at the demand of its known runtime state, of the low one if it is new; a pod recorded so on every core in force is left alone |
| LifecycleRuntime.NewPodStartsLow | internal/controller/mckube_controller.go:753-760 | a new pod is registered at the demand of its low runtime and known as low |
| LifecycleRuntime.HiPodIsPlacedHigh | internal/controller/mckube_controller.go:282-288 | a pod known as hi stays so and is registered at the demand of its high runtime |
| LifecycleRuntime.OtherRuntimesStay | internal/controller/mckube_controller.go:664-674 | no event touches the runtime state of a pod it is not about |
| LifecycleRuntime.KnownPodKeepsItsState | internal/controller/mckube_controller.go:753-760 | a reconciliation keeps the state of a known pod, except that finalizing forgets it |
| LifecycleRuntime.StateIsInitialized | internal/controller/mckube_controller.go:251-259 | a reconciliation makes a state known exactly when it finds the scheduled pod of a McKube with settings |
| LifecycleRuntime.DeletedPodIsForgotten | internal/controller/mckube_controller.go:664-697 | the deletion of a pod forgets its state and its entries and changes no McKube |
| LifecycleRuntime.RuntimeIsLowOrReported | internal/controller/mckube_controller.go:753-760 | over every run a runtime state is low or was reported for that pod |
| LifecycleStatus.AnswersDecide | internal/controller/mckube_controller.go:1224-1345 | a victim is unreachable exactly when it cannot be fetched; a migration is shown exactly when listing and update are granted and a McKube with settings names the victim |
| LifecycleStatus.AffinityDecided | internal/controller/mckube_controller.go:1284-1345 | the status update succeeds as a whole exactly when nothing had to be shown or everything was granted and the node is known |
| LifecycleStatus.PublishableIffAnswered | internal/controller/mckube_controller.go:1284-1345 | what a trace may publish is exactly what some answers lead to |
| LifecycleStatus.LastPublishedStays | internal/controller/mckube_controller.go:1306-1312 | a status shows what the last migration published on it wrote, else what it showed before |
| LifecycleStatus.LastMoveHolds | internal/controller/mckube_controller.go:1242-1257 | a pod whose last preemption moved it to a core of the pool is recorded there |
| LifecycleStatus.StatusAgreesWithPool | internal/controller/mckube_controller.go:1256-1312 | when listing and update were granted at a pod's last move, its McKube shows a core set that reads as the core where the pool has the pod |
| LifecycleProgress.ReconcileAnswers | internal/controller/mckube_controller.go:157-240 | the result of a reconciliation: exactly when it waits, comes back, fails |
| LifecycleProgress.FinalizerIsAdded | internal/controller/mckube_controller.go:207-217 | adding the finalizer keeps those of others and everything else |
| LifecycleProgress.NodeIsLearned | internal/controller/mckube_controller.go:225-249 | the node written is the one the pod is on, and nothing else changes |
| LifecycleProgress.WaitingChangesNothing | internal/controller/mckube_controller.go:225-240 | waiting changes nothing, nor does failing except after a cleanup |
| LifecycleProgress.CoreInForceIsShown | internal/controller/mckube_controller.go:262-273 | a McKube that shows no core set shows the requested one after a placement whose update succeeds; otherwise only a published migration changes it |
| LifecycleProgress.ThirdReconciliationPlaces | internal/controller/mckube_controller.go:207-256 | a new McKube gets its finalizer, then its node, and the third reconciliation places its pod |
| LifecycleProgress.NewMcKubeRegisters | internal/controller/mckube_controller.go:207-335 | which registers it on every requested core that exists, whatever becomes of the victims |
| LifecycleLeak.RenamedPodLeaks | internal/controller/mckube_controller.go:190-201 | a reachable state with no McKube and an entry, after a rename and a deletion |
| LifecycleDemands.RunKeepsDemands | internal/controller/mckube_controller.go:1413-1431 | over every run of accepted settings each recorded demand is between 1 and 950 and keyed by name |
| LifecycleDemands.ReconciledUsageIsBounded | internal/controller/mckube_controller.go:318-335 | a reconciliation of such a run leaves each core at most at the larger of its usage before and 900, plus the pod's demand on requested cores |
| LifecycleDemands.SettledStaysPut | internal/controller/mckube_controller.go:299-319 | a registered pod preempts nobody and leaves every pool unchanged, but for the fresh one of a node that had none |
| LifecycleDemands.SettlesExactly | internal/controller/mckube_controller.go:261-335 | unless a core in force records the pod lower than it is now, one reconciliation settles its registration if and only if each core in force exists and is requested or already right; otherwise the next one starts from the same situation |
| LifecycleDemands.RepeatSettlesExactly | internal/controller/mckube_controller.go:261-335 | however often it is repeated, the registration is settled from the first reconciliation on or never |
| LifecycleDemands.RecreatedPodSettlesExactly | internal/controller/mckube_controller.go:261-335 | after the pod was deleted and recreated: settles if and only if every core in force exists and is requested |
| LifecycleDemands.SettlesAsChecked | internal/controller/mckube_controller.go:261-335 | for every pod and outcome: one reconciliation settles the registration if and only if every core in force afterwards exists and is requested or already right once the check is over |
| LifecycleSettling.OneCoreSettlesExactly | internal/controller/mckube_controller.go:261-335 | with one core, requested and in force: every outcome settles the registration if and only if the core exists, and not at once it would be overloaded, it records the pod lower and another core can take that entry |
| LifecycleThreshold.ReconcileKeepsAsChecking | internal/controller/mckube_controller.go:261-335 | whatever cores are in force, the threshold question for a reconciliation is the one for the check on the cores in force followed by the registration on the requested ones |
| LifecycleThreshold.ReconcileKeepingNeedsRoom | internal/controller/mckube_controller.go:261-335 | whatever cores are in force: room on the requested cores is necessary, and decides when the check finds nobody to preempt |
| LifecycleThreshold.OneLowerReconcileKeepsThresholdExactly | internal/controller/mckube_controller.go:261-335 | with one core in force and at most one lower pod on it: if and only if there is room on the requested cores, before and after the one move that may happen |
| LifecycleThreshold.NoTakerReconcileKeepsThresholdExactly | internal/controller/mckube_controller.go:261-335 | with one core in force and any number of lower pods there that no other requested core can take: room on the requested cores decides |
| LifecycleThreshold.ReconcileKeepsThresholdExactly | internal/controller/mckube_controller.go:261-335 | with the requested cores in force and no entry on them: a reconciliation keeps them within the threshold under every outcome if and only if each has room for the demand |
| LifecycleThreshold.OneCoreReconcileKeepsThresholdExactly | internal/controller/mckube_controller.go:261-335 | with a single requested core in force, whatever it records for the pod: if and only if there is room once its own entry gives way |
| LifecycleAccounting.ReachableCountersCover | internal/controller/mckube_controller.go:1071-1092 | in every state reached by accepted settings a counter is its recorded demand plus exactly what migrations overwrote on that core, hence never negative |
| LifecycleAccounting.RunKeepsShape | internal/controller/mckube_controller.go:1030-1054 | over every run each pool has exactly the cores 0 to 7 |
| LifecycleAccounting.PoolsHaveEightCores | internal/controller/mckube_controller.go:300 | over every run a core is in a pool if and only if its number is 0 to 7 |
| LifecycleAccounting.ReachableExcess | internal/controller/mckube_controller.go:1071-1092 | over every run the excess of a counter is exactly what migrations overwrote there; registrations and cleanups add none |
| LifecycleAccounting.CounterExactIff | internal/controller/mckube_controller.go:1256-1257 | a counter equals its recorded demand if and only if no migration of the run landed on that core while it recorded the victim |
| LifecycleAccounting.CountersGrowSlowly | internal/controller/mckube_controller.go:1071-1079 | after n events of accepted settings no counter is above 900 + 950n |
| LifecycleAccounting.MigrationsLandOnTheNode | internal/controller/mckube_controller.go:1246-1308 | in runs too short to fill 64-bit counters every migration goes to a core of the node, whose published status reads back as that core |
| LifecycleWitnesses.UnfetchedVictimOverloads | internal/controller/mckube_controller.go:1234-1240 | a run after which a reconciliation takes a core from 900 to 1000 and leaves a lower-criticality pod on it |
| LifecycleWitnesses.MigrationInflatesCounter | internal/controller/mckube_controller.go:1256-1257 | a run with exact counters after which a migration leaves a counter of 600 for a recorded demand of 300 |
| LifecycleWitnesses.MissingCoreNeverSettles | internal/controller/mckube_controller.go:299-335 | a run after which no number of reconciliations settles a pod that requests core 9 |
| LifecycleEdits.VictimTakesTheRoom | internal/controller/mckube_controller.go:262-335 | a run after which core 0 has room for the pod that requests it, and a reconciliation that checks core 3 moves its victim to core 0 and leaves that at 1100 |
| LifecycleEdits.RaisedPodIsItsOwnVictim | internal/controller/mckube_controller.go:1205-1221 | a run after which every reconciliation of a pod alone on its core, at 600, takes the pod itself as victim |
| LifecycleEdits.RaisedPodMayNotSettle | internal/controller/mckube_controller.go:261-335 | in that state some outcome leaves the registration unsettled |
| LifecycleEdits.GrowingPodPreemptsNeedlessly | internal/controller/mckube_controller.go:1152-1163 | a run after which every reconciliation preempts on a core that would hold only 700 |
| Controller.ContainsString | internal/controller/mckube_controller.go:1546-1553 | found if and only if in the list |
| Controller.RemoveStringFrom | internal/controller/mckube_controller.go:1556-1564 | the loop computes the filtered list |
| Controller.Reconciler.GetOrCreateCPUPool | internal/controller/mckube_controller.go:1030-1054 | an existing pool is returned as it is, a new one has all cores unused |
| Controller.Reconciler.FindPreemptionVictims | internal/controller/mckube_controller.go:1205-1221 | exactly the pods of the core ranked below the preemptor, also by the names of the levels, each once |
| Controller.Reconciler.UpdatePodCoreAffinity | internal/controller/mckube_controller.go:1284-1345 | which status shows the new core and whether the update succeeds, for every answer to listing and update; nothing else changes |
| Controller.Reconciler.PreemptPod | internal/controller/mckube_controller.go:1224-1281 | the whole pool, the published status and the success of one preemption of any pod, recorded there or not, for every answer of the API server |
| Controller.Reconciler.PreemptVictims | internal/controller/mckube_controller.go:1173-1187 | the victims of a core in turn, each as its answers say |
| Controller.Reconciler.PreemptOnTarget | internal/controller/mckube_controller.go:1153-1196 | one target core: nothing within the threshold, else each lower-criticality pod handled once, as its answers say |
| Controller.Reconciler.PreemptOnTargets | internal/controller/mckube_controller.go:1152-1197 | the targets in order, each from the pool the previous one left |
| Controller.Reconciler.CheckAndPreemptForPod | internal/controller/mckube_controller.go:1134-1200 | no node name is an error, no pool means nothing to do, else the check on that node's pool and no other, each preemption as its answers say |
| Controller.Reconciler.IsRegistered | internal/controller/mckube_controller.go:299-316 | registered if and only if every core exists and records the same demand and criticality |
| Controller.Reconciler.RegisterOnPool | internal/controller/mckube_controller.go:1433-1461 | the pool after a registration |
| Controller.Reconciler.UpdateCPUPoolForPod | internal/controller/mckube_controller.go:1385-1474 | without settings or core nothing happens, without a node it fails, else the node's pool registers the pod |
| Controller.Reconciler.PurgeAllPools | internal/controller/mckube_controller.go:676-694 | every pool without the pod, in any order |
| Controller.Reconciler.CleanupPodState | internal/controller/mckube_controller.go:664-697 | the whole system state without the pod |
| Controller.Reconciler.CleanupPodStateByMcKubeName | internal/controller/mckube_controller.go:700-750 | every pool and the runtime states without pods outside the labelled ones of the list; nothing when listing fails |
| Controller.Reconciler.EnsurePodRuntimeStateInitialized | internal/controller/mckube_controller.go:753-760 | a new pod starts in the low state, a known one keeps its state |
| Controller.Reconciler.ShowCoreInForce | internal/controller/mckube_controller.go:262-273 | the allocated core set, or the requested one, which is then shown if the update succeeds |
| Controller.Reconciler.PreemptAndRegister | internal/controller/mckube_controller.go:318-335 | the preemption check on the cores in force, then the registration on the requested ones |
| Controller.Reconciler.PlaceOnNode | internal/controller/mckube_controller.go:275-335 | nothing when already registered, else check and registration on that node only |
| Controller.Reconciler.PlacePod | internal/controller/mckube_controller.go:256-341 | the system state after the placement of one reconciliation |
| Controller.Reconciler.Finalize | internal/controller/mckube_controller.go:183-203 | cleanup first, then the finalizer; a failed update keeps the finalizer |
| Controller.Reconciler.Reconcile | internal/controller/mckube_controller.go:157-351 | the system state and the result of a reconciliation on every path, for every answer of the API server |
| Controller.Reconciler.FindMcKube | internal/controller/mckube_controller.go:1293-1299 | some McKube that names the pod, none if and only if none does |
| Controller.Reconciler.FindObjectsForPod | internal/controller/mckube_controller.go:626-661 | a deleted relevant pod is forgotten everywhere, any other watch event changes nothing; a request is made if and only if the pod is relevant, listing succeeds and a McKube names it |
| Degradation.DegradePodRequests | internal/ipvs/pod_spec_handler.go:32-108 | all stated requests are lowered, each to four fifths of what it was or 10, or, when the patch fails, none; a pod without requests succeeds without a patch |
| Degradation.RoundsDecay | internal/ipvs/pod_spec_handler.go:63-67 | after k rounds a request is at most the larger of 10 and its (4/5)^k share, and at least 10 |
| Degradation.OneRound | internal/ipvs/pod_spec_handler.go:63-67 | a round gives four fifths rounded down, or 10 when that is less |
| Degradation.RoundsFallNoFaster | internal/ipvs/pod_spec_handler.go:63-67 | after k rounds a request is above its (4/5)^k share less 5 |
| Degradation.RoundsReachMinimum | internal/ipvs/pod_spec_handler.go:63-67 | a request falls strictly while above 10, stays at 10, and gets there |
| Degradation.ActionableMeansProgress | internal/ipvs/pod_spec_handler.go:144-160 | nothing above the minimum means a round changes nothing, exactly unless it hides a request below the minimum |
| Degradation.RaisedBelowMinimum | internal/ipvs/pod_spec_handler.go:63-67 | a round raises a request if and only if it is below the minimum, to the minimum |
| Degradation.RoundLowersSum | internal/ipvs/pod_spec_handler.go:53-67 | a pod's total falls if and only if some container is above the minimum, and stays at least 10 for each that asks for anything |
| Tiers.TiersOf | internal/ipvs/event_handler.go:399-425 | exactly the known criticalities that labelled pods carry, strictly ascending, for any rank table |
| Tiers.TierListUnique | internal/ipvs/event_handler.go:416-424 | the ascending list of given tiers is unique |
| Tiers.SortTiers | internal/ipvs/event_handler.go:416-424 | the exchange sort orders any list of distinct tiers and keeps its members |
| Tiers.CollectSortedTiers | internal/ipvs/event_handler.go:399-425 | the loops compute that list for any map order |
| Tiers.NextHigherTier | internal/ipvs/event_handler.go:447-464 | the lowest listed tier above the current one, none if and only if there is none |
| Tiers.NextIsSuccessor | internal/ipvs/event_handler.go:447-464 | on a tier list that is the next element |
| Tiers.FindNextHigherTier | internal/ipvs/event_handler.go:447-464 | the search loop finds it |
| Tiers.PodsOfTier | internal/ipvs/pod_spec_handler.go:127-141 | exactly the labelled pods whose data carries the tier |
| Tiers.PodsOfTierConcat | internal/ipvs/pod_spec_handler.go:127-141 | the pods of a tier keep their order and multiplicity |
| Tiers.FilterPodsByCriticality | internal/ipvs/pod_spec_handler.go:127-141 | the loop collects them in order |
| Tiers.HasActionableInTier | internal/ipvs/pod_spec_handler.go:144-160 | true if and only if some container of the tier asks for more than the minimum |
| Tiers.HighestCPU | internal/ipvs/pod_spec_handler.go:111-123 | a pod of the list with the highest recorded request, none only if none is recorded |
| Tiers.HighestIsFirst | internal/ipvs/pod_spec_handler.go:111-123 | of several pods with the highest request it is the first |
| Tiers.PickHighestCPUFromMilli | internal/ipvs/pod_spec_handler.go:111-123 | the loop finds the first such pod |
| Pressure.ClimbShrinks | internal/ipvs/event_handler.go:216-230 | each climb leaves strictly fewer tiers above, so the recursion ends from any state |
| Pressure.FirstIndex | internal/ipvs/event_handler.go:219-224 | the first position of a tier in the list |
| PressureRuns.CurrentTierHasPods | internal/ipvs/event_handler.go:161-181 | whenever the current tier is handled it is listed and has a pod, and the last safeguard has nothing to do |
| PressureRuns.HandleActsOnCurrent | internal/ipvs/event_handler.go:161-301 | an event acts on the current tier once and may climb once |
| PressureRuns.MissingTicksStayZero | internal/ipvs/event_handler.go:211-235 | over every run no tier is ever counted as missing |
| PressureRuns.ActLawful | internal/ipvs/event_handler.go:235-280 | acting on a tier does only what its latches allow and leaves them in agreement with what was done |
| PressureRuns.RunsAreFaithful | internal/ipvs/event_handler.go:235-300 | over every run the latches of every tier say exactly what was done to it since the state was cleared |
| PressureRuns.DegradationsArePaced | internal/ipvs/event_handler.go:238-265 | two successful degradations of a tier are at least 3 seconds apart |
| PressureRuns.ClockShowsPacing | internal/ipvs/event_handler.go:240-259 | after n successes the tier's clock shows at least 3n - 2 |
| PressureRuns.EvictionIsLatched | internal/ipvs/event_handler.go:268-280 | an eviction comes at 10 seconds or later, after a degradation or a floor mark, and nothing is done to the tier afterwards |
| PressureRuns.HandleOrder | internal/ipvs/event_handler.go:150-181 | after an event every listed tier below the current one is exhausted if and only if no tier that is not appeared there |
| PressureRuns.OrderOverRuns | internal/ipvs/event_handler.go:283-300 | over every run without newcomers below the current tier that order holds |
| PressureRuns.LowerTiersFirst | internal/ipvs/event_handler.go:237-300 | in such runs a tier is acted on only after each lower present tier was degraded or marked and had its eviction |
| PressureRuns.ActWhenDue | internal/ipvs/event_handler.go:237-280 | a due degradation or mark happens, and an eviction happens if and only if it is due |
| PressureRuns.ActOnHighest | internal/ipvs/event_handler.go:243-270 | the pod with the highest recorded request is taken; a mark means even that one is at the minimum |
| PressureActions.TiersInByName | internal/ipvs/event_handler.go:399-425 | the tiers of an event are the levels carried, Low before Middle before High |
| PressureActions.ActedOnIsCurrent | internal/ipvs/event_handler.go:428-444 | an event acts on the current tier while it is present, else on the lowest |
| PressureActions.ActDecided | internal/ipvs/event_handler.go:235-280 | what is done to a tier, in seconds and millicores: when an attempt is due, whether it marks, lowers or fails, what each leaves in the latches, and when an eviction follows |
| PressureActions.UnrecordedIsLeftAlone | internal/ipvs/event_handler.go:243-270 | a tier of which no request is recorded is left alone |
| PressureActions.EventDecided | internal/ipvs/event_handler.go:235-280 | the same over every run, in terms of what was done before |
| PressureActions.FailedPatchChangesNoLatch | internal/ipvs/event_handler.go:252-258 | a failed patch leaves count and clock as they were |
| PressureActions.ClimbDecided | internal/ipvs/event_handler.go:282-300 | an event moves on to the next tier if and only if the tier was lowered or marked, had its eviction, and after the event no container of it asks for more than 10 |
| PressureActions.GivenUpAtTheSecondTime | internal/ipvs/event_handler.go:211-235 | a current tier without pods is given up when it is missing for the second time, from any state |
| PressureRuns.HandleMovesIndex | internal/ipvs/event_handler.go:283-298 | index and name of the current tier always agree, and move up by one exactly when the tier is exhausted, nothing can be lowered and a higher tier is present |
| PressureRuns.StalledEvent | internal/ipvs/event_handler.go:237-300 | on an exhausted tier that is still present an event does nothing, and leaves it current if and only if something in it can be lowered or no higher tier is present |
| PressureRuns.StallEndsExactly | internal/ipvs/event_handler.go:282-300 | over every run, once the eviction of the current tier was tried, a signal leaves it current if and only if it stalls, and then the log grows by nothing |
| PressureRuns.StallLasts | internal/ipvs/event_handler.go:237-300 | over any number of stalling signals nothing is done to any pod of the node |
| PressureRuns.StallIsReached | internal/ipvs/event_handler.go:237-300 | one event at 10 seconds with one pod that asks for a whole core reaches the stall, and no number of such events does anything more |
| EventHandler.PerTierState.DegradeTier | internal/ipvs/event_handler.go:237-266 | the latches and the action of a degradation on every path |
| EventHandler.PerTierState.EvictFromTier | internal/ipvs/event_handler.go:268-280 | one eviction attempt latches, whether or not it succeeds |
| EventHandler.PerTierState.ActOn | internal/ipvs/event_handler.go:235-280 | both steps in order on one tier's object |
| EventHandler.NodePressureState.ReindexCurrentTier | internal/ipvs/event_handler.go:428-444 | the current tier keeps its first position, or starts over from the lowest, or is cleared |
| EventHandler.NodePressureState.Refresh | internal/ipvs/event_handler.go:161-164 | tiers and duration of the event, current tier looked up again |
| EventHandler.NodePressureState.GuardCurrentTier | internal/ipvs/event_handler.go:172-178 | the last safeguard, from any state |
| EventHandler.NodePressureState.SwitchToTier | internal/ipvs/event_handler.go:217-227 | name, index and tier object of the next tier |
| EventHandler.NodePressureState.MissTier | internal/ipvs/event_handler.go:212-227 | a tier without pods is counted and given up at the tolerance if a higher one is listed |
| EventHandler.NodePressureState.ClimbIfDone | internal/ipvs/event_handler.go:282-300 | the climb from an exhausted tier in which nothing can be lowered |
| EventHandler.NodePressureState.ProcessCurrentTier | internal/ipvs/event_handler.go:191-301 | the whole node state and the actions, with termination of the recursion from any state |
| EventHandler.Handler.HandleNodeCPUPressure | internal/ipvs/event_handler.go:82-182 | the node's state and the actions of an event; failed lookups change nothing; no other node is touched |
| EventHandler.Handler.HandleCPURecovery | internal/controller/mckube_controller.go:508-518 | a recovery forgets the node's pressure state and no other |

## Left out

- Kubernetes client, dynamic client, JSON, the HTTP calls to the real-time daemon and the overrun listener: I/O. Each call is a success or a failure that is an input.
- The patch a degradation sends: taken as updating each listed container's request; merge semantics of the API server are not modelled.
- Node-pressure handling at the end of a reconciliation and the asynchronous start of the handler with its processing flags: the handler is modelled on its own, one call as one atomic step.
- Interleaving within a preemption check or a reconciliation: each is one atomic step; only the accounting results of `PoolAccounting` hold for arbitrary interleavings of the locked pool methods.
- 64-bit overflow of a counter: counters are unbounded. Only what says that a fetched victim lands on a core of the pool assumes them below the largest 64-bit value, which `CountersGrowSlowly` discharges for short enough runs.
- LifecycleDemands.SettlesExactly: assumes, as `RepeatSettlesExactly` does, that no core in force records the pod with a lower criticality than it has now. Otherwise the pod can be its own victim: `OneCoreSettlesExactly` is exact for one core, and for several cores `SettlesAsChecked` depends on the outcome of the check.
- LifecycleThreshold.ReconcileKeepsThresholdExactly: assumes that the requested cores are in force and do not record the pod yet; the other lemmas of that module drop this. With several lower pods that a requested core can take, or several overloaded cores in force, only the necessary condition and `ReconciledUsageIsBounded` hold in general: what lands on a requested core then depends on the order of the victims.
- CoreSets.CoreSetRoundTrip: covers the documented format; blanks are the subject of `CoreSetForms`. A range that ends at the largest 64-bit number, on which the source's loop would not end, terminates in the model.
- Degradation.DegradePodRequests: requires distinct container names within a pod, and the handler takes pod names on a node as distinct; Kubernetes enforces both.
- Floating point: exact arithmetic instead, so behaviour on a rounding boundary is not captured.
- CPUCoreInfo objects: a core is a value in the pool's map; the source reaches each core only through its pool, so no alias is lost.
- Field ElapsedSec and the CoreID field of a core: nothing reads them.
- Pods with the same name in different namespaces: state is keyed by the bare name, as in the source, and names are taken as unique; a McKube is identified by one key.
- Invalid UTF-8 in core-set strings: a string is a sequence of characters.
- Applying settings to containers: plumbing; its log statement dereferences a missing core, which is not part of this model.
- The webhook that mutates pods, taint timers, deep copies, startup, manifests and timing helpers: plumbing without state to reason about.
- Where runtime states come from: an overrun or a recovery is reported by an event chosen freely.
- Nothing was executed.
