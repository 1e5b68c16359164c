/** The accounting of the pools over whole runs of the system: which cores they have, what a
    counter is above the demand recorded on its core, and how far it can grow. */
module LifecycleAccounting {
  import opened CpuPool
  import opened PoolAccounting
  import opened CoreSets
  import opened Demand
  import opened PreemptionTraces
  import opened Registration
  import opened Lifecycle
  import opened LifecycleDemands

  // ----- the cores of a pool -----

  /** Every pool has exactly the cores a node is taken to have. */
  ghost predicate NodeShaped(pools: map<string, Cores>) {
    forall node | node in pools :: pools[node].Keys == FreshCores(NODE_CORES).Keys
  }

  lemma PlacementKeepsCores(start: Cores, targets: seq<CoreId>, pod: PodInfo, traces: seq<seq<Preemption>>)
    requires Preempts(start, targets, pod.cpuMillis, pod.criticality, traces)
    ensures Register(Replay(start, Flatten(traces)), pod).Keys == start.Keys
  {
    CheckIsPermitted(start, targets, pod.cpuMillis, pod.criticality, traces);
    ReplayConserves(start, Flatten(traces));
    ReinstallMeaning(Replay(start, Flatten(traces)), pod.coreSet, pod);
  }

  lemma PlaceKeepsShape(s: System, key: string, inp: Inputs, traces: seq<seq<Preemption>>)
    requires NodeShaped(s.pools) && Places(s, key, inp) && PlacementTraces(s, key, inp, traces)
    ensures PlacedPool(s, inp).Keys == FreshCores(NODE_CORES).Keys
    ensures NodeShaped(Place(s, key, inp, traces).pools)
  {
    PlaceResult(s, key, inp, traces);
    if !AlreadyRegistered(s, key, inp) {
      PlacementKeepsCores(PlacedPool(s, inp), CoreSet(ActualCore(s.mckubes[key])), PlacedPod(s, key, inp), traces);
    }
  }

  lemma StepKeepsShape(s: System, e: Event)
    requires NodeShaped(s.pools) && Enabled(s, e)
    ensures NodeShaped(Step(s, e).pools)
  {
    if e.Reconciled? && Places(s, e.key, e.inp) {
      PlaceKeepsShape(s, e.key, e.inp, e.traces);
      PlaceResult(s, e.key, e.inp, e.traces);
    } else {
      var forgotten := OtherEventPools(s, e);
    }
  }

  lemma {:induction false} RunKeepsShape(events: seq<Event>)
    requires IsRun(events)
    ensures NodeShaped(After(events).pools)
  {
    if events != [] {
      RunKeepsShape(events[..|events| - 1]);
      StepKeepsShape(After(events[..|events| - 1]), events[|events| - 1]);
    }
  }

  lemma EightCores(id: CoreId)
    ensures id in FreshCores(NODE_CORES) <==> 0 <= id < 8
  {
  }

  /** That is, the cores 0 to 7 and no other. */
  lemma PoolsHaveEightCores(events: seq<Event>, node: string, id: CoreId)
    requires IsRun(events) && node in After(events).pools
    ensures id in After(events).pools[node] <==> 0 <= id < 8
  {
    RunKeepsShape(events);
    EightCores(id);
    assert id in After(events).pools[node] <==> id in After(events).pools[node].Keys;
    assert id in FreshCores(NODE_CORES) <==> id in FreshCores(NODE_CORES).Keys;
  }

  // ----- the exact excess -----

  /** The demand recorded on core `id` that the trace's migrations overwrote there. */
  function MovedOnto(cores: Cores, trace: seq<Preemption>, id: CoreId): int {
    if trace == [] then 0
    else
      var before, p := trace[..|trace| - 1], trace[|trace| - 1];
      MovedOnto(cores, before, id) +
      if p.outcome.Migrated?
      then OverwrittenBy(Vacated(Replay(cores, before), p), Add(p.outcome.core, p.victim), id) else 0
  }

  lemma {:induction false} ReplayExcess(cores: Cores, trace: seq<Preemption>, id: CoreId)
    requires id in cores
    ensures id in Replay(cores, trace)
    ensures Excess(Replay(cores, trace)[id]) == Excess(cores[id]) + MovedOnto(cores, trace, id)
  {
    if trace != [] {
      var before, p := trace[..|trace| - 1], trace[|trace| - 1];
      ReplayExcess(cores, before, id);
      var now := Replay(cores, before);
      StepExcess(now, Remove(p.from, p.victim.name), id);
      if p.outcome.Migrated? {
        StepExcess(Vacated(now, p), Add(p.outcome.core, p.victim), id);
      }
    }
  }

  lemma RegisterKeepsExcess(cores: Cores, pod: PodInfo, id: CoreId)
    requires id in cores
    ensures id in Register(cores, pod) && Excess(Register(cores, pod)[id]) == Excess(cores[id])
  {
    ReinstallMeaning(cores, pod.coreSet, pod);
    var cleared := RemoveFromCore(cores[id], pod.name);
    RemoveKeepsExcess(cores[id], pod.name);
    SumMillisPut(cleared.pods, pod.name, pod);
    assert cleared.pods - {pod.name} == cleared.pods;
  }

  /** What an event's migrations overwrite on one core of one node. */
  function EventMovedOnto(s: System, e: Event, node: string, id: CoreId): int {
    if e.Reconciled? && Places(s, e.key, e.inp) && e.inp.pod.nodeName == node
    then MovedOnto(PlacedPool(s, e.inp), Flatten(e.traces), id) else 0
  }

  function RunMovedOnto(events: seq<Event>, node: string, id: CoreId): int {
    if events == [] then 0
    else
      var before := events[..|events| - 1];
      RunMovedOnto(before, node, id) + EventMovedOnto(After(before), events[|events| - 1], node, id)
  }

  /** The excess of a core; 0 for a pool that is not there yet. */
  ghost function ExcessAt(pools: map<string, Cores>, node: string, id: CoreId): int {
    if node in pools && id in pools[node] then Excess(pools[node][id]) else 0
  }

  lemma PlacementExcess(start: Cores, targets: seq<CoreId>, pod: PodInfo, traces: seq<seq<Preemption>>, id: CoreId)
    requires Preempts(start, targets, pod.cpuMillis, pod.criticality, traces) && id in start
    ensures var end := Register(Replay(start, Flatten(traces)), pod);
            id in end && Excess(end[id]) == Excess(start[id]) + MovedOnto(start, Flatten(traces), id)
  {
    ReplayExcess(start, Flatten(traces), id);
    RegisterKeepsExcess(Replay(start, Flatten(traces)), pod, id);
  }

  lemma PlaceExcess(s: System, key: string, inp: Inputs, traces: seq<seq<Preemption>>, id: CoreId)
    requires NodeShaped(s.pools) && Places(s, key, inp) && PlacementTraces(s, key, inp, traces)
    requires id in FreshCores(NODE_CORES)
    ensures id in PlacedPool(s, inp) && id in PlacedPool(Place(s, key, inp, traces), inp)
    ensures Excess(PlacedPool(Place(s, key, inp, traces), inp)[id])
            == Excess(PlacedPool(s, inp)[id]) + MovedOnto(PlacedPool(s, inp), Flatten(traces), id)
  {
    PlaceResult(s, key, inp, traces);
    var start := PlacedPool(s, inp);
    assert start.Keys == FreshCores(NODE_CORES).Keys;
    assert id in start.Keys;
    if !AlreadyRegistered(s, key, inp) {
      PlacementExcess(start, CoreSet(ActualCore(s.mckubes[key])), PlacedPod(s, key, inp), traces, id);
    }
  }

  lemma PlacementExcessAt(s: System, key: string, inp: Inputs, traces: seq<seq<Preemption>>, node: string, id: CoreId)
    requires NodeShaped(s.pools) && Places(s, key, inp) && PlacementTraces(s, key, inp, traces)
    requires id in FreshCores(NODE_CORES)
    ensures ExcessAt(Place(s, key, inp, traces).pools, node, id)
            == ExcessAt(s.pools, node, id)
               + if inp.pod.nodeName == node then MovedOnto(PlacedPool(s, inp), Flatten(traces), id) else 0
  {
    PlaceResult(s, key, inp, traces);
    if inp.pod.nodeName == node {
      PlaceExcess(s, key, inp, traces, id);
      assert Excess(PlacedPool(s, inp)[id]) == ExcessAt(s.pools, node, id);
    }
  }

  lemma CleanupKeepsExcess(pools: map<string, Cores>, podName: string, node: string, id: CoreId)
    ensures ExcessAt(CleanupPools(pools, podName), node, id) == ExcessAt(pools, node, id)
  {
    if node in pools && id in pools[node] {
      RemoveKeepsExcess(pools[node][id], podName);
    }
  }

  lemma StepExcessAt(s: System, e: Event, node: string, id: CoreId)
    requires NodeShaped(s.pools) && Enabled(s, e) && id in FreshCores(NODE_CORES)
    ensures ExcessAt(Step(s, e).pools, node, id) == ExcessAt(s.pools, node, id) + EventMovedOnto(s, e, node, id)
  {
    if e.Reconciled? && Places(s, e.key, e.inp) {
      PlaceResult(s, e.key, e.inp, e.traces);
      PlacementExcessAt(s, e.key, e.inp, e.traces, node, id);
    } else {
      var forgotten := OtherEventPools(s, e);
      if forgotten.Some? {
        CleanupKeepsExcess(s.pools, forgotten.value, node, id);
      }
    }
  }

  /** Over every run a counter is above the demand recorded on its core by exactly what migrations
      overwrote there; registrations and cleanups lose nothing. */
  lemma {:induction false} ReachableExcess(events: seq<Event>, node: string, id: CoreId)
    requires IsRun(events) && id in FreshCores(NODE_CORES)
    ensures ExcessAt(After(events).pools, node, id) == RunMovedOnto(events, node, id)
  {
    if events != [] {
      var before := events[..|events| - 1];
      ReachableExcess(before, node, id);
      RunKeepsShape(before);
      StepExcessAt(After(before), events[|events| - 1], node, id);
    }
  }

  /** The preemption puts its victim on core `id` while that records the pod already. */
  predicate LandsOnItself(cores: Cores, p: Preemption, id: CoreId) {
    p.outcome.Migrated? && p.outcome.core == id && Holds(Vacated(cores, p), id, p.victim.name)
  }

  predicate NoneLands(cores: Cores, trace: seq<Preemption>, id: CoreId) {
    trace != [] ==>
      var before := trace[..|trace| - 1];
      NoneLands(cores, before, id) && !LandsOnItself(Replay(cores, before), trace[|trace| - 1], id)
  }

  lemma {:induction false} MovedOntoZero(cores: Cores, trace: seq<Preemption>, id: CoreId)
    requires AllPermitted(cores, trace) && Positive(cores)
    ensures 0 <= MovedOnto(cores, trace, id)
    ensures MovedOnto(cores, trace, id) == 0 <==> NoneLands(cores, trace, id)
  {
    if trace != [] {
      var before, p := trace[..|trace| - 1], trace[|trace| - 1];
      PermittedPrefix(cores, trace);
      MovedOntoZero(cores, before, id);
      if LandsOnItself(Replay(cores, before), p, id) {
        assert Holds(Replay(cores, before), id, p.victim.name);
        ReplayInventsNoEntry(cores, before, id, p.victim.name);
      }
    }
  }

  /** A migration of the event lands on a core of the node that records the victim already. */
  predicate EventLandsOnItself(s: System, e: Event, node: string, id: CoreId) {
    && e.Reconciled? && Places(s, e.key, e.inp) && e.inp.pod.nodeName == node
    && !NoneLands(PlacedPool(s, e.inp), Flatten(e.traces), id)
  }

  predicate NeverLandsOnItself(events: seq<Event>, node: string, id: CoreId) {
    events != [] ==>
      var before := events[..|events| - 1];
      && NeverLandsOnItself(before, node, id)
      && !EventLandsOnItself(After(before), events[|events| - 1], node, id)
  }

  lemma EventMovedOntoZero(s: System, e: Event, node: string, id: CoreId)
    requires DemandsInRange(s.pools) && Enabled(s, e)
    ensures 0 <= EventMovedOnto(s, e, node, id)
    ensures EventMovedOnto(s, e, node, id) == 0 <==> !EventLandsOnItself(s, e, node, id)
  {
    if e.Reconciled? && Places(s, e.key, e.inp) && e.inp.pod.nodeName == node {
      var start, pod := PlacedPool(s, e.inp), PlacedPod(s, e.key, e.inp);
      var inForce := CoreSet(ActualCore(s.mckubes[e.key]));
      PlacedPoolIsPositive(s, e.inp);
      if !AlreadyRegistered(s, e.key, e.inp) {
        CheckIsPermitted(start, inForce, pod.cpuMillis, pod.criticality, e.traces);
        MovedOntoZero(start, Flatten(e.traces), id);
      }
    }
  }

  lemma PlacedPoolIsPositive(s: System, inp: Inputs)
    requires DemandsInRange(s.pools) && inp.pod.Found?
    ensures Positive(PlacedPool(s, inp))
  {
    var cores := PlacedPool(s, inp);
    forall id, name | id in cores && name in cores[id].pods
      ensures 0 < cores[id].pods[name].cpuMillis
    {
      assert Holds(cores, id, name) && inp.pod.nodeName in s.pools;
      assert InRangeEntry(name, cores[id].pods[name]);
    }
  }

  lemma {:induction false} RunMovedOntoZero(events: seq<Event>, node: string, id: CoreId)
    requires IsRun(events) && forall e | e in events :: AcceptedEvent(e)
    ensures 0 <= RunMovedOnto(events, node, id)
    ensures RunMovedOnto(events, node, id) == 0 <==> NeverLandsOnItself(events, node, id)
  {
    if events != [] {
      var before := events[..|events| - 1];
      RunMovedOntoZero(before, node, id);
      RunKeepsDemands(before);
      EventMovedOntoZero(After(before), events[|events| - 1], node, id);
    }
  }

  /** In a run of accepted settings a counter agrees with the demand recorded on its core if and
      only if no migration of the run landed on that core while it recorded the victim already. */
  lemma CounterExactIff(events: seq<Event>, node: string, id: CoreId)
    requires IsRun(events) && forall e | e in events :: AcceptedEvent(e)
    requires node in After(events).pools && id in After(events).pools[node]
    ensures After(events).pools[node][id].usage == SumMillis(After(events).pools[node][id].pods)
            <==> NeverLandsOnItself(events, node, id)
  {
    RunKeepsShape(events);
    assert id in After(events).pools[node].Keys;
    ReachableExcess(events, node, id);
    RunMovedOntoZero(events, node, id);
  }

  /** In every state that a run of accepted settings reaches, entries are keyed by pod name and a
      core's counter is the sum of the demands recorded on it plus what migrations overwrote, hence
      never negative. */
  lemma ReachableCountersCover(events: seq<Event>, node: string, id: CoreId)
    requires IsRun(events) && forall e | e in events :: AcceptedEvent(e)
    requires node in After(events).pools && id in After(events).pools[node]
    ensures var core := After(events).pools[node][id];
            && (forall name | name in core.pods :: core.pods[name].name == name)
            && core.usage == SumMillis(core.pods) + RunMovedOnto(events, node, id)
            && 0 <= SumMillis(core.pods) <= core.usage
  {
    RunKeepsDemands(events);
    RunKeepsShape(events);
    assert id in After(events).pools[node].Keys;
    ReachableExcess(events, node, id);
    RunMovedOntoZero(events, node, id);
    var core := After(events).pools[node][id];
    forall name | name in core.pods
      ensures InRangeEntry(name, core.pods[name])
    {
      assert Holds(After(events).pools[node], id, name);
    }
    SumMillisNonNegative(core.pods);
  }

  // ----- how far counters grow -----

  /** No counter exceeds what the events so far can have brought. */
  ghost predicate GrownAtMost(pools: map<string, Cores>, n: nat) {
    forall node, id | node in pools && id in pools[node] :: pools[node][id].usage <= THRESHOLD_MILLIS + 950 * n
  }

  lemma {:induction false} CountersGrowSlowly(events: seq<Event>)
    requires IsRun(events) && forall e | e in events :: AcceptedEvent(e)
    ensures GrownAtMost(After(events).pools, |events|)
  {
    if events != [] {
      var before, e := events[..|events| - 1], events[|events| - 1];
      CountersGrowSlowly(before);
      RunKeepsDemands(before);
      var s, after := After(before), After(events);
      forall node, id | node in after.pools && id in after.pools[node]
        ensures after.pools[node][id].usage <= THRESHOLD_MILLIS + 950 * |events|
      {
        EventRaisesLittle(before, e, node, id);
      }
    }
  }

  lemma PurgeLowers(pools: map<string, Cores>, podName: string, node: string, id: CoreId)
    requires DemandsInRange(pools) && node in pools && id in pools[node]
    ensures Purge(pools[node], podName)[id].usage <= pools[node][id].usage
  {
    if Holds(pools[node], id, podName) {
      assert InRangeEntry(podName, pools[node][id].pods[podName]);
    }
  }

  lemma PlacementRaisesLittle(events: seq<Event>, key: string, inp: Inputs, traces: seq<seq<Preemption>>, id: CoreId)
    requires IsRun(events) && forall e | e in events :: AcceptedEvent(e)
    requires Enabled(After(events), Reconciled(key, inp, traces)) && Places(After(events), key, inp)
    requires var after := Step(After(events), Reconciled(key, inp, traces)).pools;
             inp.pod.nodeName in after && id in after[inp.pod.nodeName]
    ensures Step(After(events), Reconciled(key, inp, traces)).pools[inp.pod.nodeName][id].usage
            <= Max(Usage(PlacedPool(After(events), inp), id), THRESHOLD_MILLIS) + 950
  {
    var s := After(events);
    RunKeepsDemands(events);
    RunKeepsShape(events);
    PlaceKeepsShape(s, key, inp, traces);
    assert id in PlacedPool(s, inp).Keys by {
      assert id in Place(s, key, inp, traces).pools[inp.pod.nodeName].Keys;
    }
    ReconciledUsageIsBounded(events, key, inp, traces, id);
    PlacedDemandIsBounded(s, key, inp);
  }

  lemma EventRaisesLittle(events: seq<Event>, e: Event, node: string, id: CoreId)
    requires IsRun(events) && (forall e | e in events :: AcceptedEvent(e)) && Enabled(After(events), e)
    requires node in Step(After(events), e).pools && id in Step(After(events), e).pools[node]
    ensures Step(After(events), e).pools[node][id].usage
            <= Max(Usage(EnsurePool(After(events).pools, node)[node], id), THRESHOLD_MILLIS) + 950
  {
    var s := After(events);
    if e.Reconciled? && Places(s, e.key, e.inp) {
      PlaceResult(s, e.key, e.inp, e.traces);
      if e.inp.pod.nodeName == node {
        PlacementRaisesLittle(events, e.key, e.inp, e.traces, id);
      }
    } else {
      var forgotten := OtherEventPools(s, e);
      RunKeepsDemands(events);
      if forgotten.Some? {
        PurgeLowers(s.pools, forgotten.value, node, id);
      }
    }
  }

  lemma PlacedDemandIsBounded(s: System, key: string, inp: Inputs)
    requires AcceptedObjects(s.mckubes) && Placeable(s, key, inp)
    ensures 1 <= PlacedPod(s, key, inp).cpuMillis <= 950
  {
    var rt := s.mckubes[key];
    assert AcceptedObject(rt);
    AcceptedDemandIsBounded(rt.settings.value, RuntimeOf(EnsureRuntime(s.runtimeState, rt.podName), rt.podName));
  }

  lemma CheckLandsOnPool(start: Cores, targets: seq<CoreId>, demand: int, criticality: string,
                         traces: seq<seq<Preemption>>, k: nat)
    requires KeyedByName(start) && NonNegative(start) && InRange(start)
    requires Preempts(start, targets, demand, criticality, traces)
    requires k < |Flatten(traces)| && Flatten(traces)[k].outcome.Migrated?
    ensures Flatten(traces)[k].outcome.core in start
  {
    CheckIsPermitted(start, targets, demand, criticality, traces);
    OnlyEvictedDepart(start, Flatten(traces), k);
  }

  lemma ReachablePoolInRange(events: seq<Event>, inp: Inputs)
    requires IsRun(events) && forall e | e in events :: AcceptedEvent(e)
    requires THRESHOLD_MILLIS + 950 * |events| < MAX_INT64 && inp.pod.Found?
    ensures var start := PlacedPool(After(events), inp);
            KeyedByName(start) && NonNegative(start) && InRange(start)
            && start.Keys == FreshCores(NODE_CORES).Keys
  {
    RunKeepsDemands(events);
    PlacedPoolIsSound(After(events), inp);
    RunKeepsShape(events);
    CountersGrowSlowly(events);
    var start := PlacedPool(After(events), inp);
    forall id | id in start
      ensures start[id].usage < MAX_INT64
    {
      assert start[id].usage <= THRESHOLD_MILLIS + 950 * |events|;
    }
  }

  /** In a run of accepted settings that is not astronomically long, every victim that a check
      migrates lands on one of its node's cores, so that its published status reads back. */
  lemma MigrationsLandOnTheNode(events: seq<Event>, key: string, inp: Inputs, traces: seq<seq<Preemption>>, k: nat)
    requires IsRun(events) && forall e | e in events :: AcceptedEvent(e)
    requires THRESHOLD_MILLIS + 950 * |events| < MAX_INT64
    requires Enabled(After(events), Reconciled(key, inp, traces)) && Places(After(events), key, inp)
    requires k < |Flatten(traces)| && Flatten(traces)[k].outcome.Migrated?
    ensures 0 <= Flatten(traces)[k].outcome.core < NODE_CORES
    ensures CoreSet(FormatInt(Flatten(traces)[k].outcome.core)) == [Flatten(traces)[k].outcome.core]
  {
    var s := After(events);
    ReachablePoolInRange(events, inp);
    var start, pod := PlacedPool(s, inp), PlacedPod(s, key, inp);
    CheckLandsOnPool(start, CoreSet(ActualCore(s.mckubes[key])), pod.cpuMillis, pod.criticality, traces, k);
    assert Flatten(traces)[k].outcome.core in start.Keys;
    AllocatedCoreReadsBack(Flatten(traces)[k].outcome.core);
  }
}
