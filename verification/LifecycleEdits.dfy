/** Concrete runs of accepted settings in which a registered McKube is edited: the check that follows
    counts the pod's former entry, and takes place on the cores that were in force before. */
module LifecycleEdits {
  import opened Wrappers
  import opened CpuPool
  import opened CoreSets
  import opened PreemptionTraces
  import opened PreemptionGuarantees
  import opened ThresholdGuarantees
  import opened Registration
  import opened Lifecycle
  import opened LifecycleDemands
  import opened LifecycleThreshold
  import opened LifecycleSettling
  import opened LifecycleWitnesses

  /** What a McKube of this kind can ask for with the given core-set string. */
  predicate IsRequest(pod: PodInfo, core: string) {
    pod.name != "" && 1 <= pod.cpuMillis <= 950 && pod.namespace == "default" && pod.coreSet == CoreSet(core)
  }

  function AsksFor(pod: PodInfo, core: string): McKube {
    Asks(pod.name, pod.criticality, pod.cpuMillis, core)
  }

  lemma PlanEdited(s: System, next: PodInfo, nextCore: string, core: string)
    requires IsRequest(next, nextCore) && next.name in s.mckubes && core != ""
    requires s.mckubes[next.name] == AsksFor(next, nextCore).(allocatedCore := core)
    ensures Places(s, next.name, FOUND) && PlacedPod(s, next.name, FOUND) == next
    ensures InForce(s, next.name, FOUND) == CoreSet(core)
  {
    AskedDemand(next.cpuMillis, nextCore, RuntimeOf(EnsureRuntime(s.runtimeState, next.name), next.name));
  }

  lemma EditAccepted(next: PodInfo, nextCore: string)
    requires IsRequest(next, nextCore)
    ensures AcceptedEvent(Edit(next.name, AsksFor(next, nextCore)))
  {
    AskedDemand(next.cpuMillis, nextCore, "low");
  }

  lemma ReachEdit(s: System, pod: PodInfo, core: string, next: PodInfo, nextCore: string, cores: Cores)
    requires ReachableAccepted(s) && NODE in s.pools && s.pools[NODE] == cores && pod.name in s.mckubes
    requires s.mckubes[pod.name] == AsksFor(pod, core).(allocatedCore := core) && core != ""
    requires IsRequest(next, nextCore) && next.name == pod.name
    ensures AboutToPlaceOn(Step(s, Edit(next.name, AsksFor(next, nextCore))), next, cores, CoreSet(core))
  {
    EditAccepted(next, nextCore);
    ReachAcceptedStep(s, Edit(next.name, AsksFor(next, nextCore)));
    PlanEdited(Step(s, Edit(next.name, AsksFor(next, nextCore))), next, nextCore, core);
  }

  /** A pod is registered on the node and then its McKube is edited: the cores in force stay. */
  lemma ReachEdited(s: System, names: set<string>, cores: Cores, pod: PodInfo, core: string, next: PodInfo,
                    nextCore: string)
    returns (after: System)
    requires ReachesPool(s, names, cores) && pod.name !in names && IsRequest(pod, core) && core != ""
    requires !Registered(cores, pod.coreSet, pod.name, pod.cpuMillis, pod.criticality)
    requires IsRequest(next, nextCore) && next.name == pod.name
    ensures AboutToPlaceOn(after, next, Register(cores, pod), pod.coreSet)
  {
    var asking := ReachAsking(s, names, cores, pod, core);
    var traces := ReachUnfetched(asking, pod.name);
    var placed := Step(asking, Reconciled(pod.name, FOUND, traces));
    ReachEdit(placed, pod, core, next, nextCore, Register(cores, pod));
    after := Step(placed, Edit(next.name, AsksFor(next, nextCore)));
  }

  lemma CoreText(id: nat) returns (text: string)
    requires id <= MAX_INT64
    ensures CoreSet(text) == [id] && text != ""
  {
    text := Decimal(id);
    SingleRoundTrip(id);
    DecimalRoundTrip(id);
  }

  // ----- its own victim -----

  /** A low pod of 600 on core 0, and the same pod once its criticality is raised. */
  function Raised(criticality: string): PodInfo {
    Entry("v", criticality, 600, [0])
  }

  function RaisedPool(): Cores {
    Register(FreshCores(NODE_CORES), Raised("Low"))
  }

  lemma RaisedCores()
    ensures !Registered(FreshCores(NODE_CORES), [0], "v", 600, "Low")
    ensures 0 in RaisedPool() && RaisedPool()[0] == Core(600, map["v" := Raised("Low")])
    ensures KeyedByName(RaisedPool()) && NonNegative(RaisedPool())
    ensures RaisedPool().Keys == FreshCores(NODE_CORES).Keys
    ensures forall id | id in RaisedPool() && id != 0 :: RaisedPool()[id] == Core(0, map[])
    ensures HasRoomFor(RaisedPool(), Raised("High")) && Overloads(RaisedPool(), 0, 600)
    ensures LowerOn(RaisedPool(), 0, "High", "v") && !Registered(RaisedPool(), [0], "v", 600, "High")
  {
    assert 0 in FreshCores(NODE_CORES).Keys;
    FirstRegistration(FreshCores(NODE_CORES), Raised("Low"));
    assert !Matches(RaisedPool(), [0][0], "v", 600, "High");
  }

  lemma ReachRaised() returns (s: System)
    ensures AboutToPlace(s, Raised("High"), RaisedPool())
  {
    var zero := CoreText(0);
    ReachNothing();
    RaisedCores();
    s := ReachEdited(EMPTY, {}, FreshCores(NODE_CORES), Raised("Low"), zero, Raised("High"), zero);
  }

  /** What a reconciliation of an unregistered pod may do is what a check may do. */
  lemma EnabledIsChecked(s: System, pod: PodInfo, cores: Cores, traces: seq<seq<Preemption>>)
    requires AboutToPlace(s, pod, cores) && Enabled(s, Reconciled(pod.name, FOUND, traces))
    requires !Registered(cores, pod.coreSet, pod.name, pod.cpuMillis, pod.criticality)
    ensures Preempts(cores, pod.coreSet, pod.cpuMillis, pod.criticality, traces)
  {
  }

  lemma OwnVictimAlways(s: System, pod: PodInfo, cores: Cores, id: CoreId)
    requires AboutToPlace(s, pod, cores) && pod.coreSet == [id] && KeyedByName(cores)
    requires Overloads(cores, id, pod.cpuMillis) && LowerOn(cores, id, pod.criticality, pod.name)
    requires !Registered(cores, pod.coreSet, pod.name, pod.cpuMillis, pod.criticality)
    ensures forall any | Enabled(s, Reconciled(pod.name, FOUND, any)) :: Chooses(Flatten(any), pod.name)
  {
    OwnVictimExactly(cores, id, pod);
    forall any | Enabled(s, Reconciled(pod.name, FOUND, any))
      ensures Chooses(Flatten(any), pod.name)
    {
      EnabledIsChecked(s, pod, cores, any);
    }
  }

  lemma UnfetchedIsEnabled(s: System, pod: PodInfo, cores: Cores) returns (traces: seq<seq<Preemption>>)
    requires AboutToPlace(s, pod, cores)
    requires !Registered(cores, pod.coreSet, pod.name, pod.cpuMillis, pod.criticality)
    ensures Enabled(s, Reconciled(pod.name, FOUND, traces))
  {
    traces := ReachUnfetched(s, pod.name);
  }

  /** The core would hold exactly the 600 of the raised pod, alone; every reconciliation makes the pod
      its own victim all the same, and there is one. */
  lemma RaisedPodIsItsOwnVictim() returns (s: System, traces: seq<seq<Preemption>>)
    ensures AboutToPlace(s, Raised("High"), RaisedPool()) && HasRoomFor(RaisedPool(), Raised("High"))
    ensures Enabled(s, Reconciled("v", FOUND, traces))
    ensures forall any | Enabled(s, Reconciled("v", FOUND, any)) :: Chooses(Flatten(any), "v")
  {
    s := ReachRaised();
    RaisedCores();
    OwnVictimAlways(s, Raised("High"), RaisedPool(), 0);
    traces := UnfetchedIsEnabled(s, Raised("High"), RaisedPool());
  }

  /** Another core can take its former entry: some outcome leaves the registration unsettled. */
  lemma RaisedPodMayNotSettle() returns (s: System)
    ensures AboutToPlace(s, Raised("High"), RaisedPool()) && !SettlesForSure(s, "v", FOUND)
  {
    s := ReachRaised();
    RaisedCores();
    assert 1 in FreshCores(NODE_CORES).Keys;
    assert CanTake(RaisedPool(), 0, Raised("Low"), 1);
    var traces := MovesAndUnsettles(s, "v", FOUND, 0);
  }

  // ----- preemption that was not needed -----

  /** A low pod of 200 on core 0. */
  function Small(): PodInfo {
    Entry("u", "Low", 200, [0])
  }

  /** A high pod on core 0 that grows from 300 to 500. */
  function Growing(millis: int): PodInfo {
    Entry("v", "High", millis, [0])
  }

  function SmallPool(): Cores {
    Register(FreshCores(NODE_CORES), Small())
  }

  function GrowingPool(): Cores {
    Register(SmallPool(), Growing(300))
  }

  lemma GrowingCores()
    ensures !Registered(FreshCores(NODE_CORES), [0], "u", 200, "Low")
    ensures !Registered(SmallPool(), [0], "v", 300, "High")
    ensures 0 in GrowingPool() && GrowingPool()[0] == Core(500, map["u" := Small(), "v" := Growing(300)])
    ensures KeyedByName(GrowingPool())
  {
    assert 0 in FreshCores(NODE_CORES).Keys;
    FirstRegistration(FreshCores(NODE_CORES), Small());
    FirstRegistration(SmallPool(), Growing(300));
  }

  lemma GrowingIsNeedless()
    ensures HasRoomFor(GrowingPool(), Growing(500)) && Needless(GrowingPool(), Growing(500), 0)
    ensures !Registered(GrowingPool(), [0], "v", 500, "High")
  {
    GrowingCores();
    assert Small().name in LowerPods(GrowingPool(), 0, "High");
    assert !Matches(GrowingPool(), [0][0], "v", 500, "High");
  }

  lemma ReachGrowing() returns (s: System)
    ensures AboutToPlace(s, Growing(500), GrowingPool())
  {
    var zero := CoreText(0);
    ReachNothing();
    GrowingCores();
    var before := ReachNext(EMPTY, {}, FreshCores(NODE_CORES), Small(), zero);
    s := ReachEdited(before, {} + {"u"}, SmallPool(), Growing(300), zero, Growing(500), zero);
  }

  /** The core would hold 700 once the pod has grown; every reconciliation preempts somebody on it all
      the same, because the check counts 500 + 500. */
  lemma GrowingPodPreemptsNeedlessly() returns (s: System)
    ensures AboutToPlace(s, Growing(500), GrowingPool()) && HasRoomFor(GrowingPool(), Growing(500))
    ensures forall traces | Enabled(s, Reconciled("v", FOUND, traces)) :: Flatten(traces) != []
  {
    s := ReachGrowing();
    GrowingIsNeedless();
    GrowingCores();
    AlwaysNeedless(s, Growing(500), GrowingPool(), 0);
  }

  lemma AlwaysNeedless(s: System, pod: PodInfo, cores: Cores, id: CoreId)
    requires AboutToPlace(s, pod, cores) && pod.coreSet == [id] && KeyedByName(cores) && id in cores
    requires HasRoomFor(cores, pod) && Needless(cores, pod, id)
    requires !Registered(cores, [id], pod.name, pod.cpuMillis, pod.criticality)
    ensures forall traces | Enabled(s, Reconciled(pod.name, FOUND, traces)) :: Flatten(traces) != []
  {
    NeedlessPreemptionExactly(cores, pod, id);
    forall traces | Enabled(s, Reconciled(pod.name, FOUND, traces))
      ensures Flatten(traces) != []
    {
      EnabledIsChecked(s, pod, cores, traces);
    }
  }

  // ----- room that a victim takes -----

  /** A high pod of 500 on every core, a low one of 300 on core 3, and a high one that is moved from
      core 3 to core 0. */
  function Wide(all: seq<CoreId>): PodInfo {
    Entry("x", "High", 500, all)
  }

  function Low(): PodInfo {
    Entry("u", "Low", 300, [3])
  }

  function Moving(millis: int, id: CoreId): PodInfo {
    Entry("k", "High", millis, [id])
  }

  function WidePool(all: seq<CoreId>): Cores {
    Register(FreshCores(NODE_CORES), Wide(all))
  }

  function LowPool(all: seq<CoreId>): Cores {
    Register(WidePool(all), Low())
  }

  function MovingPool(all: seq<CoreId>): Cores {
    Register(LowPool(all), Moving(100, 3))
  }

  lemma WideCores(all: seq<CoreId>)
    requires all != [] && CoversNode(all)
    ensures !Registered(FreshCores(NODE_CORES), all, "x", 500, "High")
    ensures WidePool(all).Keys == FreshCores(NODE_CORES).Keys
    ensures forall id | id in WidePool(all) :: WidePool(all)[id] == Core(500, map["x" := Wide(all)])
  {
    FirstRegistration(FreshCores(NODE_CORES), Wide(all));
  }

  lemma LowCores(all: seq<CoreId>)
    requires all != [] && CoversNode(all)
    ensures !Registered(WidePool(all), [3], "u", 300, "Low")
    ensures LowPool(all).Keys == FreshCores(NODE_CORES).Keys && 3 in LowPool(all)
    ensures LowPool(all)[3] == Core(800, map["x" := Wide(all), "u" := Low()])
    ensures forall id | id in LowPool(all) && id != 3 :: LowPool(all)[id] == Core(500, map["x" := Wide(all)])
  {
    WideCores(all);
    assert 3 in FreshCores(NODE_CORES).Keys;
    FirstRegistration(WidePool(all), Low());
  }

  lemma MovingCores(all: seq<CoreId>)
    requires all != [] && CoversNode(all)
    ensures !Registered(LowPool(all), [3], "k", 100, "High")
    ensures MovingPool(all).Keys == FreshCores(NODE_CORES).Keys && 0 in MovingPool(all) && 3 in MovingPool(all)
    ensures MovingPool(all)[3] == Core(900, map["x" := Wide(all), "u" := Low(), "k" := Moving(100, 3)])
    ensures forall id | id in MovingPool(all) && id != 3 :: MovingPool(all)[id] == Core(500, map["x" := Wide(all)])
  {
    LowCores(all);
    assert 0 in FreshCores(NODE_CORES).Keys;
    FirstRegistration(LowPool(all), Moving(100, 3));
  }

  lemma ReachWide(text: string, all: seq<CoreId>) returns (s: System)
    requires CoreSet(text) == all && all != [] && CoversNode(all)
    ensures ReachesPool(s, {} + {"x"}, WidePool(all))
  {
    ReachNothing();
    WideCores(all);
    s := ReachNext(EMPTY, {}, FreshCores(NODE_CORES), Wide(all), text);
  }

  lemma LowIsNew(all: seq<CoreId>, pod: PodInfo)
    requires all != [] && CoversNode(all) && pod == Low()
    ensures pod.name !in {} + {"x"} && pod.name != "" && 1 <= pod.cpuMillis <= 950
    ensures pod.namespace == "default" && pod.coreSet == [3]
    ensures !Registered(WidePool(all), pod.coreSet, pod.name, pod.cpuMillis, pod.criticality)
  {
    LowCores(all);
  }

  lemma ReachLow(three: string, text: string, all: seq<CoreId>) returns (s: System)
    requires CoreSet(three) == [3] && CoreSet(text) == all && all != [] && CoversNode(all)
    ensures ReachesPool(s, {} + {"x"} + {"u"}, LowPool(all))
  {
    var before := ReachWide(text, all);
    var pod := Low();
    LowIsNew(all, pod);
    s := ReachNext(before, {} + {"x"}, WidePool(all), pod, three);
  }

  lemma ReachMoving(zero: string, three: string, text: string, all: seq<CoreId>) returns (s: System)
    requires CoreSet(zero) == [0] && CoreSet(three) == [3] && three != ""
    requires CoreSet(text) == all && all != [] && CoversNode(all)
    ensures AboutToPlaceOn(s, Moving(300, 0), MovingPool(all), [3])
  {
    var before := ReachLow(three, text, all);
    MovingCores(all);
    s := ReachEdited(before, {} + {"x"} + {"u"}, LowPool(all), Moving(100, 3), three, Moving(300, 0), zero);
  }

  lemma LowTakesTheRoom(all: seq<CoreId>, cores: Cores)
    requires all != [] && CoversNode(all) && cores == MovingPool(all)
    ensures NonNegative(cores) && Overloads(cores, 3, 300)
    ensures LowerPods(cores, 3, "High") == map["u" := Low()]
    ensures MayTake(cores, 3, Low(), 0) && LandedUsage(cores, 0, Low(), Moving(300, 0)) == 1100
    ensures HasRoom(cores, [0], 300) && NewToItsCores(cores, Moving(300, 0))
    ensures !Registered(cores, [3], "k", 300, "High")
  {
    MovingCores(all);
    assert !Matches(cores, [3][0], "k", 300, "High");
  }

  lemma MovingCheck(cores: Cores, id: CoreId, victim: PodInfo, to: CoreId, pod: PodInfo)
    returns (traces: seq<seq<Preemption>>)
    requires NonNegative(cores) && Overloads(cores, id, pod.cpuMillis) && MayTake(cores, id, victim, to)
    requires LowerPods(cores, id, pod.criticality) == map[victim.name := victim] && pod.coreSet == [to]
    ensures Preempts(cores, [id], pod.cpuMillis, pod.criticality, traces)
    ensures forall p | p in Flatten(traces) :: p.outcome.Migrated? ==> p.outcome.published == None
    ensures to in Register(Replay(cores, Flatten(traces)), pod)
    ensures Register(Replay(cores, Flatten(traces)), pod)[to].usage == LandedUsage(cores, to, victim, pod)
  {
    var p := Preemption(victim, id, Migrated(to, None));
    assert victim.name in LowerPods(cores, id, pod.criticality);
    MigratesIfTaken(cores, id, victim, to, None);
    OneVictim(cores, id, pod.cpuMillis, pod.criticality, p);
    traces := [[p]];
    UsageAfterOne(cores, p, pod, to);
    RegisteredUsage(ApplyPreemption(cores, p), pod, to);
  }

  /** Core 0 has room for the 300 that the pod now requests there; the check takes place on core 3, the
      one in force, and moves its victim to core 0, which the registration then leaves at 1100. */
  lemma VictimTakesTheRoom() returns (s: System, cores: Cores, traces: seq<seq<Preemption>>)
    ensures AboutToPlaceOn(s, Moving(300, 0), cores, [3])
    ensures HasRoom(cores, [0], 300) && NewToItsCores(cores, Moving(300, 0))
    ensures Enabled(s, Reconciled("k", FOUND, traces))
    ensures var after := Step(s, Reconciled("k", FOUND, traces));
            && ReachableAccepted(after) && NODE in after.pools
            && 0 in after.pools[NODE] && after.pools[NODE][0].usage == 1100
  {
    var zero, nine, text := CoreTexts();
    var three := CoreText(3);
    var all := CoreSet(text);
    s := ReachMoving(zero, three, text, all);
    cores := MovingPool(all);
    LowTakesTheRoom(all, cores);
    traces := MovingCheck(cores, 3, Low(), 0, Moving(300, 0));
    PlaceChecked(s, Moving(300, 0), cores, [3], traces);
  }
}
