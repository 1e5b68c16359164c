/** Concrete runs of accepted settings on which the pools do not behave as one might expect. */
module LifecycleWitnesses {
  import opened Wrappers
  import opened Demand
  import opened CpuPool
  import opened PoolAccounting
  import opened CoreSets
  import opened PreemptionTraces
  import opened PreemptionOutcomes
  import opened ThresholdGuarantees
  import opened Registration
  import opened Lifecycle
  import opened LifecycleDemands
  import opened LifecycleThreshold

  /** Some run of accepted settings ends in the state. */
  ghost predicate ReachableAccepted(s: System) {
    exists events :: IsRun(events) && After(events) == s && forall e | e in events :: AcceptedEvent(e)
  }

  lemma ReachAcceptedEmpty()
    ensures ReachableAccepted(EMPTY)
  {
    assert IsRun([]) && After([]) == EMPTY;
  }

  lemma ReachAcceptedStep(s: System, e: Event)
    requires ReachableAccepted(s) && Enabled(s, e) && AcceptedEvent(e)
    ensures ReachableAccepted(Step(s, e))
  {
    var events :| IsRun(events) && After(events) == s && forall f | f in events :: AcceptedEvent(f);
    assert (events + [e])[..|events|] == events;
    assert IsRun(events + [e]) && After(events + [e]) == Step(s, e);
  }

  lemma ReachableDemands(s: System)
    requires ReachableAccepted(s)
    ensures DemandsInRange(s.pools)
  {
    var events :| IsRun(events) && After(events) == s && forall e | e in events :: AcceptedEvent(e);
    RunKeepsDemands(events);
  }

  // ----- one more pod on the node -----

  const NODE: string := "n"

  /** Every call to the API server succeeds and the pod runs on the node. */
  const FOUND: Inputs := Inputs(true, true, true, Found("default", NODE, Running))

  /** A McKube that asks for the same share of its cores in both runtime states. */
  function Asks(name: string, criticality: string, millis: int, core: string): McKube {
    McKube(name, NODE, criticality, Some(RTSettings(1000, millis, millis, Some(core))), "", [FINALIZER], false)
  }

  function Entry(name: string, criticality: string, millis: int, ids: seq<CoreId>): PodInfo {
    PodInfo(name, "default", criticality, millis, ids)
  }

  lemma AskedDemand(millis: int, core: string, runtimeState: string)
    requires 1 <= millis <= 950
    ensures ValidateSettings(RTSettings(1000, millis, millis, Some(core))) == None
    ensures SettingsDemand(RTSettings(1000, millis, millis, Some(core)), runtimeState) == millis
  {
  }

  lemma Plan(s: System, name: string, criticality: string, millis: int, core: string)
    requires 1 <= millis <= 950 && name != "" && name in s.mckubes
    requires s.mckubes[name] == Asks(name, criticality, millis, core)
    ensures Places(s, name, FOUND) && PlacedPod(s, name, FOUND) == Entry(name, criticality, millis, CoreSet(core))
    ensures ActualCore(s.mckubes[name]) == core
  {
    AskedDemand(millis, core, RuntimeOf(EnsureRuntime(s.runtimeState, name), name));
  }

  /** A new McKube under the name of its pod. */
  function WithPod(s: System, name: string, criticality: string, millis: int, core: string): System {
    Step(s, Create(name, Asks(name, criticality, millis, core)))
  }

  lemma ReachWithPod(s: System, name: string, criticality: string, millis: int, core: string)
    requires ReachableAccepted(s) && name !in s.mckubes
    requires 1 <= millis <= 950 && name != ""
    ensures ReachableAccepted(WithPod(s, name, criticality, millis, core))
  {
    AskedDemand(millis, core, "low");
    ReachAcceptedStep(s, Create(name, Asks(name, criticality, millis, core)));
  }

  /** A placement with some trace, and what it leaves. */
  lemma ReachPlacement(s: System, name: string, traces: seq<seq<Preemption>>)
    requires ReachableAccepted(s) && Places(s, name, FOUND) && PlacementTraces(s, name, FOUND, traces)
    ensures var after := Step(s, Reconciled(name, FOUND, traces));
            && ReachableAccepted(after) && after.mckubes.Keys == s.mckubes.Keys
            && NODE in after.pools && after.pools[NODE] == PlacedPool(Reconcile(s, name, FOUND, traces).0, FOUND)
  {
    PlaceResult(s, name, FOUND, traces);
    PlaceKeepsObjects(s, name, FOUND, traces);
    ReachAcceptedStep(s, Reconciled(name, FOUND, traces));
  }

  lemma ReachUnfetched(s: System, name: string) returns (traces: seq<seq<Preemption>>)
    requires ReachableAccepted(s) && Places(s, name, FOUND) && !AlreadyRegistered(s, name, FOUND)
    ensures Enabled(s, Reconciled(name, FOUND, traces)) && NoneFetched(Flatten(traces))
    ensures var after := Step(s, Reconciled(name, FOUND, traces));
            && ReachableAccepted(after) && after.mckubes == Shown(s, name, FOUND)
            && NODE in after.pools
            && after.pools[NODE] == Register(PlacedPool(s, FOUND), PlacedPod(s, name, FOUND))
    ensures Preempts(PlacedPool(s, FOUND), InForce(s, name, FOUND), PlacedPod(s, name, FOUND).cpuMillis,
                     PlacedPod(s, name, FOUND).criticality, traces)
  {
    ReachableDemands(s);
    PlacedPoolIsSound(s, FOUND);
    traces := PlacementWithoutFetch(s, name, FOUND);
    ReachPlacement(s, name, traces);
    PublishNothing(Shown(s, name, FOUND), Flatten(traces));
    PlaceResult(s, name, FOUND, traces);
  }

  /** A new pod can be registered on the node without a single victim fetched. */
  lemma ReachRegistered(s: System, name: string, criticality: string, millis: int, core: string)
    returns (after: System)
    requires ReachableAccepted(s) && name !in s.mckubes
    requires 1 <= millis <= 950 && name != ""
    requires !Registered(PlacedPool(s, FOUND), CoreSet(core), name, millis, criticality)
    ensures ReachableAccepted(after) && after.mckubes.Keys == s.mckubes.Keys + {name}
    ensures NODE in after.pools
            && after.pools[NODE] == Register(PlacedPool(s, FOUND), Entry(name, criticality, millis, CoreSet(core)))
  {
    var placing := WithPod(s, name, criticality, millis, core);
    ReachWithPod(s, name, criticality, millis, core);
    Plan(placing, name, criticality, millis, core);
    var traces := ReachUnfetched(placing, name);
    after := Step(placing, Reconciled(name, FOUND, traces));
  }

  // ----- a node whose core 0 is full -----

  predicate CoversNode(ids: seq<CoreId>) {
    forall id | id in FreshCores(NODE_CORES) :: id in ids
  }

  /** Core-set strings for core 0, for core 9 and for all cores of a node. */
  lemma CoreTexts() returns (zero: string, nine: string, all: string)
    ensures CoreSet(zero) == [0] && CoreSet(nine) == [9]
    ensures |CoreSet(all)| == NODE_CORES && CoversNode(CoreSet(all))
  {
    zero, nine, all := Decimal(0), Decimal(9), Decimal(0) + "-" + Decimal(NODE_CORES - 1);
    SingleRoundTrip(0);
    SingleRoundTrip(9);
    SpanRoundTrip(0, NODE_CORES - 1);
    var ids := Ascending(0, NODE_CORES - 1);
    forall id | id in FreshCores(NODE_CORES)
      ensures id in ids
    {
      assert ids[id] == id;
    }
  }

  /** A pod new to the cores it is registered on. */
  lemma FirstRegistration(cores: Cores, pod: PodInfo)
    requires pod.coreSet != []
    requires forall id | id in pod.coreSet && id in cores :: pod.name !in cores[id].pods
    ensures !Registered(cores, pod.coreSet, pod.name, pod.cpuMillis, pod.criticality)
    ensures Register(cores, pod).Keys == cores.Keys
    ensures forall id | id in cores ::
              Register(cores, pod)[id]
              == if id in pod.coreSet then Core(cores[id].usage + pod.cpuMillis, cores[id].pods[pod.name := pod])
                 else cores[id]
  {
    assert pod.coreSet[0] in pod.coreSet;
    assert !Matches(cores, pod.coreSet[0], pod.name, pod.cpuMillis, pod.criticality);
    ReinstallMeaning(cores, pod.coreSet, pod);
  }

  /** A low pod of 300 on every core. */
  function Spread(all: seq<CoreId>): PodInfo {
    Entry("v", "Low", 300, all)
  }

  /** A high pod of 600 on core 0. */
  function Pinned(): PodInfo {
    Entry("h", "High", 600, [0])
  }

  function SpreadPool(all: seq<CoreId>): Cores {
    Register(FreshCores(NODE_CORES), Spread(all))
  }

  function CrowdedPool(all: seq<CoreId>): Cores {
    Register(SpreadPool(all), Pinned())
  }

  lemma SpreadCores(all: seq<CoreId>)
    requires all != [] && CoversNode(all)
    ensures !Registered(FreshCores(NODE_CORES), all, "v", 300, "Low")
    ensures SpreadPool(all).Keys == FreshCores(NODE_CORES).Keys
    ensures forall id | id in SpreadPool(all) :: SpreadPool(all)[id] == Core(300, map["v" := Spread(all)])
  {
    FirstRegistration(FreshCores(NODE_CORES), Spread(all));
  }

  lemma CrowdedCores(all: seq<CoreId>)
    requires all != [] && CoversNode(all)
    ensures !Registered(SpreadPool(all), [0], "h", 600, "High")
    ensures CrowdedPool(all).Keys == FreshCores(NODE_CORES).Keys
    ensures 0 in CrowdedPool(all)
    ensures CrowdedPool(all)[0] == Core(900, map["v" := Spread(all), "h" := Pinned()])
    ensures forall id | id in CrowdedPool(all) && id != 0 ::
              CrowdedPool(all)[id] == Core(300, map["v" := Spread(all)])
  {
    SpreadCores(all);
    assert 0 in FreshCores(NODE_CORES).Keys;
    FirstRegistration(SpreadPool(all), Pinned());
  }

  /** A run of accepted settings ends with these McKubes and this pool on the node. */
  ghost predicate ReachesPool(s: System, names: set<string>, cores: Cores) {
    ReachableAccepted(s) && s.mckubes.Keys == names && PlacedPool(s, FOUND) == cores
  }

  lemma ReachNothing()
    ensures ReachesPool(EMPTY, {}, FreshCores(NODE_CORES))
  {
    ReachAcceptedEmpty();
  }

  lemma ReachNext(s: System, names: set<string>, cores: Cores, pod: PodInfo, core: string) returns (after: System)
    requires ReachesPool(s, names, cores)
    requires pod.name !in names && pod.name != "" && 1 <= pod.cpuMillis <= 950
    requires pod.namespace == "default" && pod.coreSet == CoreSet(core)
    requires !Registered(cores, pod.coreSet, pod.name, pod.cpuMillis, pod.criticality)
    ensures ReachesPool(after, names + {pod.name}, Register(cores, pod))
  {
    after := ReachRegistered(s, pod.name, pod.criticality, pod.cpuMillis, core);
  }

  lemma ReachSpread(text: string, all: seq<CoreId>) returns (s: System)
    requires CoreSet(text) == all && all != [] && CoversNode(all)
    ensures ReachesPool(s, {} + {"v"}, SpreadPool(all))
  {
    ReachNothing();
    SpreadCores(all);
    s := ReachNext(EMPTY, {}, FreshCores(NODE_CORES), Spread(all), text);
  }

  lemma PinnedIsNew(all: seq<CoreId>, pod: PodInfo)
    requires all != [] && CoversNode(all) && pod == Pinned()
    ensures pod.name !in {} + {"v"} && pod.name != "" && 1 <= pod.cpuMillis <= 950
    ensures pod.namespace == "default" && pod.coreSet == [0]
    ensures !Registered(SpreadPool(all), pod.coreSet, pod.name, pod.cpuMillis, pod.criticality)
  {
    CrowdedCores(all);
  }

  lemma ReachPinned(zero: string, text: string, all: seq<CoreId>) returns (s: System)
    requires CoreSet(zero) == [0] && CoreSet(text) == all && all != [] && CoversNode(all)
    ensures ReachesPool(s, {} + {"v"} + {"h"}, CrowdedPool(all))
  {
    var before := ReachSpread(text, all);
    var pod := Pinned();
    PinnedIsNew(all, pod);
    s := ReachNext(before, {} + {"v"}, SpreadPool(all), pod, zero);
  }

  /** The node's pool is this one and a reconciliation is about to place this pod. */
  ghost predicate AboutToPlaceOn(s: System, pod: PodInfo, cores: Cores, inForce: seq<CoreId>) {
    && ReachableAccepted(s) && Places(s, pod.name, FOUND)
    && PlacedPool(s, FOUND) == cores && PlacedPod(s, pod.name, FOUND) == pod
    && InForce(s, pod.name, FOUND) == inForce
  }

  /** The requested cores are in force. */
  ghost predicate AboutToPlace(s: System, pod: PodInfo, cores: Cores) {
    AboutToPlaceOn(s, pod, cores, pod.coreSet)
  }

  lemma ReachAsking(s: System, names: set<string>, cores: Cores, pod: PodInfo, core: string) returns (after: System)
    requires ReachesPool(s, names, cores)
    requires pod.name !in names && pod.name != "" && 1 <= pod.cpuMillis <= 950
    requires pod.namespace == "default" && pod.coreSet == CoreSet(core)
    ensures AboutToPlace(after, pod, cores)
    ensures after.mckubes[pod.name] == Asks(pod.name, pod.criticality, pod.cpuMillis, core)
  {
    ReachWithPod(s, pod.name, pod.criticality, pod.cpuMillis, core);
    after := WithPod(s, pod.name, pod.criticality, pod.cpuMillis, core);
    Plan(after, pod.name, pod.criticality, pod.cpuMillis, core);
  }

  /** Another high pod for core 0. */
  function Incoming(): PodInfo {
    Entry("k", "High", 100, [0])
  }

  /** A run that registers both pods and then creates the other one. */
  lemma ReachCrowded(zero: string, text: string, all: seq<CoreId>) returns (s: System)
    requires CoreSet(zero) == [0] && CoreSet(text) == all && all != [] && CoversNode(all)
    ensures AboutToPlace(s, Incoming(), CrowdedPool(all))
  {
    var before := ReachPinned(zero, text, all);
    s := ReachAsking(before, {} + {"v"} + {"h"}, CrowdedPool(all), Incoming(), zero);
  }

  // ----- above the threshold -----

  lemma PlaceUnfetched(s: System, pod: PodInfo, cores: Cores) returns (traces: seq<seq<Preemption>>)
    requires AboutToPlace(s, pod, cores)
    requires !Registered(cores, pod.coreSet, pod.name, pod.cpuMillis, pod.criticality)
    ensures Enabled(s, Reconciled(pod.name, FOUND, traces))
    ensures var after := Step(s, Reconciled(pod.name, FOUND, traces));
            ReachableAccepted(after) && NODE in after.pools && after.pools[NODE] == Register(cores, pod)
  {
    traces := ReachUnfetched(s, pod.name);
  }

  lemma CrowdedRegistration(all: seq<CoreId>)
    requires all != [] && CoversNode(all)
    ensures !Registered(CrowdedPool(all), [0], "k", 100, "High")
    ensures WithinThreshold(CrowdedPool(all), all)
    ensures var after := Register(CrowdedPool(all), Incoming());
            0 in after && after[0].usage == 1000 && LowerOn(after, 0, "High", "v")
  {
    CrowdedCores(all);
    FirstRegistration(CrowdedPool(all), Incoming());
  }

  /** Every core of the node is within the threshold; then a reconciliation that cannot fetch its
      one victim registers the pod all the same, and leaves core 0 at 1000 with the victim on it. */
  lemma UnfetchedVictimOverloads() returns (s: System, all: seq<CoreId>, traces: seq<seq<Preemption>>)
    ensures CoversNode(all) && AboutToPlace(s, Incoming(), CrowdedPool(all))
    ensures WithinThreshold(CrowdedPool(all), all)
    ensures Enabled(s, Reconciled(Incoming().name, FOUND, traces))
    ensures var after := Step(s, Reconciled(Incoming().name, FOUND, traces));
            && ReachableAccepted(after) && NODE in after.pools
            && 0 in after.pools[NODE] && after.pools[NODE][0].usage == 1000
            && LowerOn(after.pools[NODE], 0, "High", "v")
  {
    var zero, nine, text := CoreTexts();
    all := CoreSet(text);
    s := ReachCrowded(zero, text, all);
    CrowdedRegistration(all);
    traces := PlaceUnfetched(s, Incoming(), CrowdedPool(all));
  }

  // ----- a counter above the recorded demand -----

  function MovedVictim(all: seq<CoreId>): Preemption {
    Preemption(Spread(all), 0, Migrated(1, None))
  }

  /** The victim may move to core 1, which records it already. */
  lemma MayMove(all: seq<CoreId>, cores: Cores)
    requires all != [] && CoversNode(all) && cores == CrowdedPool(all)
    ensures Permitted(cores, MovedVictim(all))
    ensures var after := ApplyPreemption(cores, MovedVictim(all));
            && after.Keys == cores.Keys && 0 in after && 1 in after
            && after[0].pods == map["h" := Pinned()] && after[1] == Core(600, map["v" := Spread(all)])
  {
    CrowdedCores(all);
    assert 1 in FreshCores(NODE_CORES).Keys;
    var vacated := Vacated(cores, MovedVictim(all));
    assert vacated[0] == Core(600, map["h" := Pinned()]);
    assert IsLeastLoaded(vacated, 1);
  }

  lemma OneVictim(cores: Cores, id: CoreId, demand: int, criticality: string, p: Preemption)
    requires Overloads(cores, id, demand) && p.from == id && Permitted(cores, p)
    requires PreemptablePods(PodsOn(cores, id), criticality) == map[p.victim.name := p.victim]
    ensures Preempts(cores, [id], demand, criticality, [[p]])
    ensures Flatten([[p]]) == [p] && Replay(cores, [p]) == ApplyPreemption(cores, p)
  {
    assert [p][..0] == [] && [[p]][..0] == [];
    assert Victims([p]) == [p.victim];
  }

  lemma CrowdedCheck(all: seq<CoreId>, cores: Cores)
    requires all != [] && CoversNode(all) && cores == CrowdedPool(all)
    ensures Preempts(cores, [0], 100, "High", [[MovedVictim(all)]])
    ensures Flatten([[MovedVictim(all)]]) == [MovedVictim(all)]
    ensures Replay(cores, [MovedVictim(all)]) == ApplyPreemption(cores, MovedVictim(all))
  {
    CrowdedCores(all);
    MayMove(all, cores);
    assert PreemptablePods(PodsOn(cores, 0), "High") == map["v" := Spread(all)];
    OneVictim(cores, 0, 100, "High", MovedVictim(all));
  }

  lemma SumOfOne(name: string, pod: PodInfo)
    ensures SumMillis(map[name := pod]) == pod.cpuMillis
  {
    SumMillisTake(map[name := pod], name);
    assert map[name := pod] - {name} == map[];
  }

  /** What the move and the registration leave on the pool. */
  lemma CounterAbove(all: seq<CoreId>, cores: Cores)
    requires all != [] && CoversNode(all) && cores == CrowdedPool(all)
    ensures forall id | id in cores :: Excess(cores[id]) == 0
    ensures var after := Register(ApplyPreemption(cores, MovedVictim(all)), Incoming());
            1 in after && after[1].usage == 600 && SumMillis(after[1].pods) == 300
  {
    CrowdedCores(all);
    MayMove(all, cores);
    ReinstallMeaning(ApplyPreemption(cores, MovedVictim(all)), [0], Incoming());
    SumOfOne("v", Spread(all));
    SumMillisPut(map["v" := Spread(all)], "h", Pinned());
    assert map["v" := Spread(all)] - {"h"} == map["v" := Spread(all)];
  }

  lemma InflatingCheck(all: seq<CoreId>, cores: Cores) returns (traces: seq<seq<Preemption>>)
    requires all != [] && CoversNode(all) && cores == CrowdedPool(all)
    ensures forall id | id in cores :: Excess(cores[id]) == 0
    ensures !Registered(cores, Incoming().coreSet, Incoming().name, Incoming().cpuMillis, Incoming().criticality)
    ensures Preempts(cores, Incoming().coreSet, Incoming().cpuMillis, Incoming().criticality, traces)
    ensures forall p | p in Flatten(traces) :: p.outcome.Migrated? ==> p.outcome.published == None
    ensures var after := Register(Replay(cores, Flatten(traces)), Incoming());
            1 in after && after[1].usage == 600 && SumMillis(after[1].pods) == 300
  {
    CrowdedRegistration(all);
    CrowdedCheck(all, cores);
    CounterAbove(all, cores);
    traces := [[MovedVictim(all)]];
  }

  /** A placement whose migrations publish nothing. */
  lemma PlaceChecked(s: System, pod: PodInfo, cores: Cores, inForce: seq<CoreId>, traces: seq<seq<Preemption>>)
    requires AboutToPlaceOn(s, pod, cores, inForce)
    requires !Registered(cores, inForce, pod.name, pod.cpuMillis, pod.criticality)
    requires Preempts(cores, inForce, pod.cpuMillis, pod.criticality, traces)
    requires forall p | p in Flatten(traces) :: p.outcome.Migrated? ==> p.outcome.published == None
    ensures Enabled(s, Reconciled(pod.name, FOUND, traces))
    ensures var after := Step(s, Reconciled(pod.name, FOUND, traces));
            && ReachableAccepted(after) && NODE in after.pools
            && after.pools[NODE] == Register(Replay(cores, Flatten(traces)), pod)
  {
    PlaceResult(s, pod.name, FOUND, traces);
    ReachPlacement(s, pod.name, traces);
  }

  /** All counters of the node are exact; then a reconciliation moves its victim to a core that
      records it already, and leaves that core's counter at 600 for a recorded demand of 300. */
  lemma MigrationInflatesCounter() returns (s: System, all: seq<CoreId>, traces: seq<seq<Preemption>>)
    ensures CoversNode(all) && AboutToPlace(s, Incoming(), CrowdedPool(all))
    ensures forall id | id in CrowdedPool(all) :: Excess(CrowdedPool(all)[id]) == 0
    ensures Enabled(s, Reconciled(Incoming().name, FOUND, traces))
    ensures var after := Step(s, Reconciled(Incoming().name, FOUND, traces));
            && ReachableAccepted(after) && NODE in after.pools
            && 1 in after.pools[NODE] && after.pools[NODE][1].usage == 600
            && SumMillis(after.pools[NODE][1].pods) == 300
  {
    var zero, nine, text := CoreTexts();
    all := CoreSet(text);
    s := ReachCrowded(zero, text, all);
    traces := InflatingCheck(all, CrowdedPool(all));
    PlaceChecked(s, Incoming(), CrowdedPool(all), Incoming().coreSet, traces);
  }

  // ----- a registration that never settles -----

  /** A pod that requests a core its node does not have is registered anew by every reconciliation
      and never found registered. */
  lemma MissingCoreNeverSettles() returns (s: System)
    ensures ReachableAccepted(s) && Places(s, "k", FOUND)
    ensures forall rounds | RepeatTraces(s, "k", FOUND, rounds) :: !Settled(Repeat(s, "k", FOUND, rounds), "k", FOUND)
  {
    var zero, nine, text := CoreTexts();
    ReachAcceptedEmpty();
    ReachWithPod(EMPTY, "k", "High", 100, nine);
    s := WithPod(EMPTY, "k", "High", 100, nine);
    Plan(s, "k", "High", 100, nine);
    assert 9 !in FreshCores(NODE_CORES) && CoreSet(nine)[0] == 9;
    forall rounds | RepeatTraces(s, "k", FOUND, rounds)
      ensures !Settled(Repeat(s, "k", FOUND, rounds), "k", FOUND)
    {
      RepeatSettlesExactly(s, "k", FOUND, rounds);
    }
  }
}
