/** The reconciler object: it updates the pools, the runtime states and the McKube objects in
    place. Each method is proved against the functions of the modules it uses. API calls answer
    with `*`, and ranges over maps take any order. */
module Controller {
  import opened Wrappers
  import opened Criticality
  import opened Demand
  import opened CpuPool
  import opened CoreSets
  import opened PreemptionTraces
  import opened PreemptionOutcomes
  import opened Registration
  import opened Lifecycle

  method ContainsString(list: seq<string>, s: string) returns (found: bool)
    ensures found <==> s in list
  {
    for i := 0 to |list|
      invariant s !in list[..i]
    {
      if list[i] == s {
        return true;
      }
    }
    return false;
  }

  method RemoveStringFrom(list: seq<string>, s: string) returns (result: seq<string>)
    ensures result == RemoveString(list, s)
  {
    result := [];
    for i := 0 to |list|
      invariant result == RemoveString(list[..i], s)
    {
      assert list[..i + 1][..i] == list[..i];
      if list[i] != s {
        result := result + [list[i]];
      }
    }
    assert list[..|list|] == list;
  }

  // ----- traces grow at the end -----

  ghost predicate AllPublish(mckubes: map<string, McKube>, trace: seq<Preemption>) {
    forall p | p in trace :: PublishesTo(mckubes, p)
  }

  lemma PublishOneMore(mckubes: map<string, McKube>, trace: seq<Preemption>, p: Preemption)
    requires AllPublish(mckubes, trace) && PublishesTo(Publish(mckubes, trace), p)
    ensures AllPublish(mckubes, trace + [p])
    ensures Publish(mckubes, trace + [p]) == Publish(Publish(mckubes, trace), [p])
  {
  }

  /** `victims` are the pods of the list that the criticality may preempt, each once. */
  ghost predicate Selects(victims: seq<PodInfo>, pods: seq<PodInfo>, criticality: string) {
    && (forall v :: v in victims <==> v in pods && Rank(criticality) > Rank(v.criticality))
    && forall j, k | 0 <= j < k < |victims| :: victims[j].name != victims[k].name
  }

  lemma SelectionLists(victims: seq<PodInfo>, pods: seq<PodInfo>, onCore: map<string, PodInfo>, criticality: string)
    requires Selects(victims, pods, criticality) && Lists(pods, onCore)
    ensures Lists(victims, PreemptablePods(onCore, criticality))
  {
  }

  lemma VictimsMayBePreempted(victims: seq<PodInfo>, onCore: map<string, PodInfo>, criticality: string)
    requires Lists(victims, PreemptablePods(onCore, criticality)) && NameKeyed(onCore)
    ensures forall name :: (exists k :: 0 <= k < |victims| && victims[k].name == name) <==>
              name in onCore && MayPreempt(criticality, onCore[name].criticality)
  {
    var lower := PreemptablePods(onCore, criticality);
    forall name
      ensures (exists k :: 0 <= k < |victims| && victims[k].name == name) <==> name in lower
      ensures name in lower <==> name in onCore && MayPreempt(criticality, onCore[name].criticality)
    {
      if name in lower {
        assert lower[name] in victims && lower[name].name == name;
      }
      if name in onCore {
        OutranksByName(criticality, onCore[name].criticality);
      }
    }
  }

  lemma PublishAppend(mckubes: map<string, McKube>, a: seq<Preemption>, b: seq<Preemption>)
    requires AllPublish(mckubes, a) && AllPublish(Publish(mckubes, a), b)
    ensures AllPublish(mckubes, a + b) && Publish(mckubes, a + b) == Publish(Publish(mckubes, a), b)
  {
    PublishConcat(mckubes, a, b);
    forall p | p in b
      ensures PublishesTo(mckubes, p)
    {
      assert PublishesTo(Publish(mckubes, a), p);
    }
  }

  /** The first `n` victims are handled, as the API server answered. */
  ghost predicate Progress(start: Cores, mckubes: map<string, McKube>, trace: seq<Preemption>, victims: seq<PodInfo>,
                           n: nat, id: CoreId, answers: nat -> Answers, asked: nat)
  {
    && HandledSome(start, trace, victims, n, id)
    && AllPublish(mckubes, trace) && AllAnswered(mckubes, trace, answers, asked)
  }

  lemma NextIsPermitted(start: Cores, trace: seq<Preemption>, victims: seq<PodInfo>, n: nat, id: CoreId, p: Preemption)
    requires HandledSome(start, trace, victims, n, id) && n < |victims|
    requires p.victim == victims[n] && p.from == id && Decided(Replay(start, trace), p)
    ensures Permitted(Replay(start, trace), p)
  {
  }

  lemma ProgressNext(start: Cores, mckubes: map<string, McKube>, trace: seq<Preemption>, victims: seq<PodInfo>,
                     n: nat, id: CoreId, answers: nat -> Answers, asked: nat, p: Preemption)
    requires Progress(start, mckubes, trace, victims, n, id, answers, asked) && n < |victims|
    requires forall j, k | 0 <= j < k < |victims| :: victims[j].name != victims[k].name
    requires p.victim == victims[n] && p.from == id && Decided(Replay(start, trace), p)
    requires PublishesTo(Publish(mckubes, trace), p) && Answered(Publish(mckubes, trace), p, answers(asked + n))
    ensures Progress(start, mckubes, trace + [p], victims, n + 1, id, answers, asked)
    ensures Replay(start, trace + [p]) == ApplyPreemption(Replay(start, trace), p)
    ensures Publish(mckubes, trace + [p]) == Publish(Publish(mckubes, trace), [p])
  {
    NextIsPermitted(start, trace, victims, n, id, p);
    PublishOneMore(mckubes, trace, p);
    assert |trace| == n;
    AnsweredOneMore(mckubes, trace, p, answers, asked);
    HandledOneMore(start, trace, victims, n, id, p);
  }

  /** A pod as the API server lists it; `app` is its workload label, empty when it has none. */
  datatype ListedPod = ListedPod(name: string, app: string)

  function LabelledNames(pods: seq<ListedPod>): (names: set<string>)
    ensures forall name :: name in names <==> exists p | p in pods :: p.app != "" && p.name == name
  {
    set p | p in pods && p.app != "" :: p.name
  }

  const TARGET_NAMESPACE: string := "default"

  class Reconciler {
    var mckubes: map<string, McKube>
    var pools: map<string, CPUPool>
    var runtimeState: map<string, string>

    ghost predicate Valid()
      reads this, pools.Values
    {
      forall node | node in pools :: pools[node].nodeName == node && pools[node].Valid()
    }

    ghost function AllCores(): map<string, Cores>
      reads this`pools, pools.Values
    {
      map node | node in pools :: pools[node].cores
    }

    ghost function State(): System
      reads this, pools.Values
    {
      System(mckubes, AllCores(), runtimeState)
    }

    /** The pool object of a node, if it has one. */
    ghost function NodePool(node: string): set<CPUPool>
      reads this
    {
      if node in pools then {pools[node]} else {}
    }

    /** The cores of a node's pool, or those of the pool it is about to get. */
    ghost function CoresOf(node: string): Cores
      reads this, NodePool(node)
    {
      if node in pools then pools[node].cores else FreshCores(NODE_CORES)
    }

    constructor ()
      ensures Valid() && State() == EMPTY
    {
      mckubes, pools, runtimeState := map[], map[], map[];
    }

    method GetOrCreateCPUPool(nodeName: string, numCores: nat) returns (pool: CPUPool)
      requires Valid() && numCores <= MAX_INT64
      modifies this`pools
      ensures Valid() && nodeName in pools && pools[nodeName] == pool
      ensures nodeName in old(pools) ==> pools == old(pools)
      ensures nodeName !in old(pools) ==>
                pools == old(pools)[nodeName := pool] && fresh(pool) && pool.cores == FreshCores(numCores)
    {
      if nodeName in pools {
        return pools[nodeName];
      }
      pool := new CPUPool(nodeName, numCores);
      pools := pools[nodeName := pool];
    }

    method FindPreemptionVictims(pool: CPUPool, coreID: CoreId, criticality: string) returns (victims: seq<PodInfo>)
      requires pool.Valid()
      ensures Lists(victims, PreemptablePods(PodsOn(pool.cores, coreID), criticality))
      ensures forall name :: (exists k :: 0 <= k < |victims| && victims[k].name == name) <==>
                name in PodsOn(pool.cores, coreID)
                && MayPreempt(criticality, PodsOn(pool.cores, coreID)[name].criticality)
    {
      var pods := pool.GetPodsOnCore(coreID);
      victims := [];
      for i := 0 to |pods|
        invariant Selects(victims, pods[..i], criticality)
      {
        assert pods[..i + 1] == pods[..i] + [pods[i]];
        if Rank(criticality) > Rank(pods[i].criticality) {
          victims := victims + [pods[i]];
        }
      }
      assert pods[..|pods|] == pods;
      SelectionLists(victims, pods, PodsOn(pool.cores, coreID), criticality);
      VictimsMayBePreempted(victims, PodsOn(pool.cores, coreID), criticality);
    }

    /** Shows the new core in the status of the first listed McKube that names the pod. */
    method UpdatePodCoreAffinity(podName: string, newCore: CoreId, answers: Answers)
      returns (published: Option<string>, ok: bool)
      modifies this`mckubes
      ensures AffinityUpdated(old(mckubes), podName, answers, published, ok)
      ensures published.Some? ==>
                && published.value in old(mckubes)
                && mckubes == old(mckubes)[published.value :=
                     old(mckubes)[published.value].(allocatedCore := FormatInt(newCore))]
      ensures published.None? ==> mckubes == old(mckubes)
    {
      if !answers.listOk {
        ghost var any := SomeFind(mckubes, podName);
        return None, false;
      }
      var key := FindMcKube(podName);
      if key.None? || mckubes[key.value].settings.None? {
        return None, true;
      }
      if !answers.updateOk {
        return None, false;
      }
      mckubes := mckubes[key.value := mckubes[key.value].(allocatedCore := FormatInt(newCore))];
      return key, answers.hostKnown;
    }

    /** Moves the victim to the least-loaded core if that core can take it, else evicts it. What
        this means for the pool is stated by EvictedIffNothingFits. */
    method PreemptPod(victim: PodInfo, pool: CPUPool, currentCore: CoreId, answers: Answers)
      returns (ghost p: Preemption, ok: bool)
      requires pool.Valid()
      modifies this`mckubes, pool
      ensures pool.Valid()
      ensures p.victim == victim && p.from == currentCore
      ensures Decided(old(pool.cores), p) && pool.cores == ApplyPreemption(old(pool.cores), p)
      ensures PublishesTo(old(mckubes), p) && mckubes == Publish(old(mckubes), [p])
      ensures Answered(old(mckubes), p, answers)
      ensures match p.outcome
              case Unreachable => !ok
              case Migrated(_, published) => AffinityUpdated(old(mckubes), victim.name, answers, published, ok)
              case Evicted => ok == answers.evictOk
    {
      if !answers.getOk {
        p := Preemption(victim, currentCore, Unreachable);
        assert [p][..0] == [];
        return p, false;
      }
      pool.RemovePodFromCore(currentCore, victim.name);
      var newCore := pool.FindLeastLoadedCore();
      var newCoreUsage := pool.GetCoreUsage(newCore);
      if newCoreUsage + victim.cpuMillis <= THRESHOLD_MILLIS {
        pool.AddPodToCore(newCore, victim);
        var published;
        published, ok := UpdatePodCoreAffinity(victim.name, newCore, answers);
        p := Preemption(victim, currentCore, Migrated(newCore, published));
        assert [p][..0] == [] && Publish(old(mckubes), []) == old(mckubes);
      } else {
        ok := answers.evictOk;
        p := Preemption(victim, currentCore, Evicted);
        assert IsLeastLoaded(Vacated(old(pool.cores), p), newCore);
        assert [p][..0] == [] && Publish(old(mckubes), []) == old(mckubes);
      }
    }

    /** Preempts the given pods of one core in turn. */
    method PreemptVictims(pool: CPUPool, coreID: CoreId, victims: seq<PodInfo>, answers: nat -> Answers, asked: nat)
      returns (ghost trace: seq<Preemption>)
      requires pool.Valid() && HandledSome(pool.cores, [], victims, 0, coreID)
      requires forall j, k | 0 <= j < k < |victims| :: victims[j].name != victims[k].name
      modifies this`mckubes, pool
      ensures pool.Valid()
      ensures Progress(old(pool.cores), old(mckubes), trace, victims, |victims|, coreID, answers, asked)
      ensures pool.cores == Replay(old(pool.cores), trace) && mckubes == Publish(old(mckubes), trace)
    {
      trace := [];
      ghost var start := pool.cores;
      for i := 0 to |victims|
        invariant pool.Valid()
        invariant Progress(start, old(mckubes), trace, victims, i, coreID, answers, asked)
        invariant pool.cores == Replay(start, trace) && mckubes == Publish(old(mckubes), trace)
      {
        ghost var p;
        var ok;
        p, ok := PreemptPod(victims[i], pool, coreID, answers(asked + i));
        ProgressNext(start, old(mckubes), trace, victims, i, coreID, answers, asked, p);
        trace := trace + [p];
      }
    }

    /** Preempts the victims of one target core that the new demand would overload. */
    method PreemptOnTarget(pool: CPUPool, coreID: CoreId, cpuMillis: int, criticality: string,
                           answers: nat -> Answers, asked: nat)
      returns (ghost trace: seq<Preemption>, handled: nat)
      requires pool.Valid()
      modifies this`mckubes, pool
      ensures pool.Valid()
      ensures PreemptsOnCore(old(pool.cores), coreID, cpuMillis, criticality, trace)
      ensures pool.cores == Replay(old(pool.cores), trace)
      ensures AllPublish(old(mckubes), trace)
      ensures mckubes == Publish(old(mckubes), trace)
      ensures handled == |trace| && AllAnswered(old(mckubes), trace, answers, asked)
    {
      trace := [];
      handled := 0;
      var currentUsage := pool.GetCoreUsage(coreID);
      if currentUsage + cpuMillis > THRESHOLD_MILLIS {
        var victims := FindPreemptionVictims(pool, coreID, criticality);
        ListedAreRecorded(pool.cores, coreID, criticality, victims);
        trace := PreemptVictims(pool, coreID, victims, answers, asked);
        handled := |victims|;
        HandledAll(old(pool.cores), cpuMillis, criticality, victims, trace, coreID);
      }
    }

    /** Preempts on each target core in turn. */
    method PreemptOnTargets(pool: CPUPool, targetCores: seq<CoreId>, cpuMillis: int, criticality: string,
                            answers: nat -> Answers)
      returns (ghost traces: seq<seq<Preemption>>)
      requires pool.Valid()
      modifies this`mckubes, pool
      ensures pool.Valid()
      ensures Preempts(old(pool.cores), targetCores, cpuMillis, criticality, traces)
      ensures pool.cores == Replay(old(pool.cores), Flatten(traces))
      ensures AllPublish(old(mckubes), Flatten(traces)) && mckubes == Publish(old(mckubes), Flatten(traces))
      ensures AllAnswered(old(mckubes), Flatten(traces), answers, 0)
    {
      traces := [];
      var asked := 0;
      ghost var start := pool.cores;
      for i := 0 to |targetCores|
        invariant pool.Valid()
        invariant Preempts(start, targetCores[..i], cpuMillis, criticality, traces)
        invariant pool.cores == Replay(start, Flatten(traces))
        invariant AllPublish(old(mckubes), Flatten(traces)) && mckubes == Publish(old(mckubes), Flatten(traces))
        invariant asked == |Flatten(traces)| && AllAnswered(old(mckubes), Flatten(traces), answers, 0)
      {
        ghost var trace;
        var handled;
        trace, handled := PreemptOnTarget(pool, targetCores[i], cpuMillis, criticality, answers, asked);
        AnsweredAppend(old(mckubes), Flatten(traces), trace, answers);
        asked := asked + handled;
        PreemptsAppend(start, targetCores[..i], cpuMillis, criticality, traces, targetCores[i], trace);
        assert targetCores[..i + 1] == targetCores[..i] + [targetCores[i]];
        FlattenAppend(traces, trace);
        ReplayConcat(start, Flatten(traces), trace);
        PublishAppend(old(mckubes), Flatten(traces), trace);
        traces := traces + [trace];
      }
      assert targetCores[..|targetCores|] == targetCores;
    }

    /** Makes room for a pod that asks for `cpuMillis` on its target cores. What holds of every
        such check is stated by CheckBoundsAndConserves and CheckKeepsEntries. */
    method CheckAndPreemptForPod(nodeName: string, targetCores: seq<CoreId>, cpuMillis: int, criticality: string,
                                 answers: nat -> Answers)
      returns (ghost traces: seq<seq<Preemption>>, ok: bool)
      requires Valid()
      modifies this`mckubes, NodePool(nodeName)
      ensures Valid()
      ensures ok <==> nodeName != ""
      ensures nodeName == "" || nodeName !in pools ==>
                traces == [] && mckubes == old(mckubes) && CoresOf(nodeName) == old(CoresOf(nodeName))
      ensures nodeName != "" && nodeName in pools ==>
                var start := old(CoresOf(nodeName));
                && Preempts(start, targetCores, cpuMillis, criticality, traces)
                && CoresOf(nodeName) == Replay(start, Flatten(traces))
                && AllPublish(old(mckubes), Flatten(traces)) && mckubes == Publish(old(mckubes), Flatten(traces))
                && AllAnswered(old(mckubes), Flatten(traces), answers, 0)
    {
      traces := [];
      if nodeName == "" {
        return [], false;
      }
      ok := true;
      if nodeName in pools {
        var pool := pools[nodeName];
        traces := PreemptOnTargets(pool, targetCores, cpuMillis, criticality, answers);
      }
    }

    /** Looks up the cores in order and stops at the first one that does not record the pod as it is. */
    method IsRegistered(pool: CPUPool, coreIDs: seq<CoreId>, podName: string, cpuMillis: int, criticality: string)
      returns (registered: bool)
      ensures registered <==> Registered(pool.cores, coreIDs, podName, cpuMillis, criticality)
    {
      for i := 0 to |coreIDs|
        invariant forall k | 0 <= k < i :: Matches(pool.cores, coreIDs[k], podName, cpuMillis, criticality)
      {
        var coreID := coreIDs[i];
        if coreID !in pool.cores || podName !in pool.cores[coreID].pods
           || pool.cores[coreID].pods[podName].cpuMillis != cpuMillis
           || pool.cores[coreID].pods[podName].criticality != criticality
        {
          assert !Matches(pool.cores, coreIDs[i], podName, cpuMillis, criticality);
          return false;
        }
      }
      return true;
    }

    /** Registers a pod on its core set unless every core already records it as it is. */
    method RegisterOnPool(pool: CPUPool, podInfo: PodInfo)
      requires pool.Valid()
      modifies pool
      ensures pool.Valid() && pool.cores == Register(old(pool.cores), podInfo)
    {
      var registered := IsRegistered(pool, podInfo.coreSet, podInfo.name, podInfo.cpuMillis, podInfo.criticality);
      if !registered {
        for i := 0 to |podInfo.coreSet|
          invariant pool.Valid() && pool.cores == Reinstall(old(pool.cores), podInfo.coreSet[..i], podInfo)
        {
          assert podInfo.coreSet[..i + 1][..i] == podInfo.coreSet[..i];
          pool.RemovePodFromCore(podInfo.coreSet[i], podInfo.name);
          pool.AddPodToCore(podInfo.coreSet[i], podInfo);
        }
        assert podInfo.coreSet[..|podInfo.coreSet|] == podInfo.coreSet;
      }
    }

    method UpdateCPUPoolForPod(rt: McKube, namespace: string, nodeName: string) returns (ok: bool)
      requires Valid()
      modifies this`pools, NodePool(nodeName)
      ensures Valid()
      ensures ok <==> !RequestsCores(rt) || nodeName != ""
      ensures pools == old(pools)
              || (RequestsCores(rt) && nodeName !in old(pools) && pools.Keys == old(pools).Keys + {nodeName}
                  && pools == old(pools)[nodeName := pools[nodeName]])
      ensures if RequestsCores(rt) && nodeName != "" then
                && nodeName in pools
                && CoresOf(nodeName)
                   == Register(old(CoresOf(nodeName)), PodInfoFor(rt, RuntimeOf(runtimeState, rt.podName), namespace))
              else pools == old(pools) && CoresOf(nodeName) == old(CoresOf(nodeName))
    {
      ok := true;
      if RequestsCores(rt) {
        if nodeName == "" {
          return false;
        }
        var pool := GetOrCreateCPUPool(nodeName, NODE_CORES);
        var settings := rt.settings.value;
        var cpuMillis := SettingsDemand(settings, RuntimeOf(runtimeState, rt.podName));
        var coreSet := ParseCoreSet(settings.core.value);
        RegisterOnPool(pool, PodInfo(rt.podName, namespace, rt.criticality, cpuMillis, coreSet));
      }
    }

    /** Drops a pod from every pool, in whatever order. */
    method PurgeAllPools(podName: string)
      requires Valid()
      modifies pools.Values
      ensures Valid()
      ensures forall node | node in pools :: pools[node].cores == Purge(old(pools[node].cores), podName)
    {
      var todo := pools.Keys;
      while |todo| > 0
        invariant todo <= pools.Keys && Valid()
        invariant forall node | node in pools ::
                    pools[node].cores
                    == if node in todo then old(pools[node].cores) else Purge(old(pools[node].cores), podName)
        decreases |todo|
      {
        var node := NextKey(todo);
        var pool := pools[node];
        pool.PurgePod(podName);
        todo := todo - {node};
      }
    }

    /** Forgets a pod: its runtime state and its entries in every pool. */
    method CleanupPodState(podName: string)
      requires Valid()
      modifies this`runtimeState, pools.Values
      ensures Valid() && State() == Cleanup(old(State()), podName)
    {
      runtimeState := runtimeState - {podName};
      PurgeAllPools(podName);
      assert AllCores() == CleanupPools(old(AllCores()), podName);
    }

    /** Drops every pod outside `existing` from every pool, in whatever order. */
    method RetainInAllPools(existing: set<string>)
      requires Valid()
      modifies pools.Values
      ensures Valid()
      ensures forall node | node in pools :: pools[node].cores == Retain(old(pools[node].cores), existing)
    {
      var todo := pools.Keys;
      while |todo| > 0
        invariant todo <= pools.Keys && Valid()
        invariant forall node | node in pools ::
                    pools[node].cores
                    == if node in todo then old(pools[node].cores) else Retain(old(pools[node].cores), existing)
        decreases |todo|
      {
        var node := NextKey(todo);
        var pool := pools[node];
        pool.RetainPods(existing);
        todo := todo - {node};
      }
    }

    /** Forgets every pod that is not among the listed labelled ones; without a list nothing is
        touched. */
    method CleanupPodStateByMcKubeName(listed: Option<seq<ListedPod>>)
      requires Valid()
      modifies this`runtimeState, pools.Values
      ensures Valid()
      ensures listed.None? ==> State() == old(State())
      ensures listed.Some? ==>
                var existing := LabelledNames(listed.value);
                && runtimeState == (map name | name in old(runtimeState) && name in existing :: old(runtimeState)[name])
                && forall node | node in pools :: pools[node].cores == Retain(old(pools[node].cores), existing)
    {
      if listed.Some? {
        var existing: set<string> := {};
        for i := 0 to |listed.value|
          invariant existing == LabelledNames(listed.value[..i]) && State() == old(State()) && Valid()
        {
          assert forall p :: p in listed.value[..i + 1] <==> p in listed.value[..i] || p == listed.value[i];
          if listed.value[i].app != "" {
            existing := existing + {listed.value[i].name};
          }
        }
        assert listed.value[..|listed.value|] == listed.value;
        runtimeState := map name | name in runtimeState && name in existing :: runtimeState[name];
        RetainInAllPools(existing);
      }
    }

    method EnsurePodRuntimeStateInitialized(podName: string)
      modifies this`runtimeState
      ensures runtimeState == EnsureRuntime(old(runtimeState), podName)
    {
      if podName !in runtimeState {
        runtimeState := runtimeState[podName := "low"];
      }
    }

    /** Preempts on the target cores, then registers the pod on the cores it requests. */
    method PreemptAndRegister(rt: McKube, namespace: string, nodeName: string, targetCores: seq<CoreId>,
                              answers: nat -> Answers)
      returns (ghost traces: seq<seq<Preemption>>)
      requires Valid() && nodeName != "" && nodeName in pools
      requires RequestsCores(rt)
      modifies this`mckubes, this`pools, NodePool(nodeName)
      ensures Valid() && pools == old(pools)
      ensures var pod := PodInfoFor(rt, RuntimeOf(runtimeState, rt.podName), namespace);
              && Preempts(old(CoresOf(nodeName)), targetCores, pod.cpuMillis, pod.criticality, traces)
              && AllPublish(old(mckubes), Flatten(traces))
              && AllAnswered(old(mckubes), Flatten(traces), answers, 0)
              && mckubes == Publish(old(mckubes), Flatten(traces))
              && CoresOf(nodeName) == Register(Replay(old(CoresOf(nodeName)), Flatten(traces)), pod)
    {
      var cpuMillis := SettingsDemand(rt.settings.value, RuntimeOf(runtimeState, rt.podName));
      var ok;
      traces, ok := CheckAndPreemptForPod(nodeName, targetCores, cpuMillis, rt.criticality, answers);
      ok := UpdateCPUPoolForPod(rt, namespace, nodeName);
    }

    /** Preempts on the cores in force and registers on the requested ones, unless the pod is
        registered on the cores in force. */
    method PlaceOnNode(rt: McKube, namespace: string, nodeName: string, actualCore: string, answers: nat -> Answers)
      returns (ghost traces: seq<seq<Preemption>>)
      requires Valid() && nodeName != ""
      requires RequestsCores(rt)
      modifies this`mckubes, this`pools, NodePool(nodeName)
      ensures Valid() && nodeName in pools
      ensures pools == old(pools) || (nodeName !in old(pools) && pools == old(pools)[nodeName := pools[nodeName]])
      ensures var pod := PodInfoFor(rt, RuntimeOf(runtimeState, rt.podName), namespace);
              var start := old(CoresOf(nodeName));
              if Registered(start, CoreSet(actualCore), pod.name, pod.cpuMillis, pod.criticality)
              then traces == [] && CoresOf(nodeName) == start && mckubes == old(mckubes)
              else
                && Preempts(start, CoreSet(actualCore), pod.cpuMillis, pod.criticality, traces)
                && AllPublish(old(mckubes), Flatten(traces))
                && AllAnswered(old(mckubes), Flatten(traces), answers, 0)
                && mckubes == Publish(old(mckubes), Flatten(traces))
                && CoresOf(nodeName) == Register(Replay(start, Flatten(traces)), pod)
    {
      traces := [];
      var targetCores := ParseCoreSet(actualCore);
      var cpuMillis := SettingsDemand(rt.settings.value, RuntimeOf(runtimeState, rt.podName));
      var pool := GetOrCreateCPUPool(nodeName, NODE_CORES);
      var alreadyRegistered := IsRegistered(pool, targetCores, rt.podName, cpuMillis, rt.criticality);
      if !alreadyRegistered {
        traces := PreemptAndRegister(rt, namespace, nodeName, targetCores, answers);
      }
    }

    /** If only one node's pool may have changed, the state differs only there. */
    twostate lemma OnlyNodeChanged(node: string)
      requires old(Valid()) && node in pools
      requires pools == old(pools) || (node !in old(pools) && pools == old(pools)[node := pools[node]])
      requires forall other | other in old(pools) && other != node :: unchanged(old(pools)[other])
      ensures AllCores() == old(AllCores())[node := CoresOf(node)]
    {
    }

    /** The core-set string in force; the requested one is shown in the status if none was. */
    method ShowCoreInForce(key: string, inp: Inputs) returns (actualCore: string)
      requires Placeable(State(), key, inp)
      modifies this`mckubes
      ensures actualCore == ActualCore(old(mckubes)[key])
      ensures mckubes == Shown(old(State()), key, inp)
    {
      var rt := mckubes[key];
      actualCore := rt.allocatedCore;
      if actualCore == "" {
        actualCore := rt.settings.value.core.value;
        if inp.statusOk {
          mckubes := mckubes[key := rt.(allocatedCore := actualCore)];
        }
      }
    }

    /** The placement of one reconciliation: runtime state, status, preemption and registration. */
    method PlacePod(key: string, inp: Inputs, answers: nat -> Answers) returns (ghost traces: seq<seq<Preemption>>)
      requires Valid() && Places(State(), key, inp)
      modifies this, NodePool(inp.pod.nodeName)
      ensures Valid()
      ensures PlacementTraces(old(State()), key, inp, traces)
      ensures State() == Place(old(State()), key, inp, traces)
      ensures AllAnswered(old(mckubes), Flatten(traces), answers, 0)
    {
      var rt := mckubes[key];
      var actualCore := ShowCoreInForce(key, inp);
      EnsurePodRuntimeStateInitialized(rt.podName);
      traces := PlaceOnNode(rt, inp.pod.namespace, inp.pod.nodeName, actualCore, answers);
      OnlyNodeChanged(inp.pod.nodeName);
      ShownPublishesSame(old(State()), key, inp, Flatten(traces), answers);
    }

    /** One reconciliation, up to the handling of node pressure and of RT daemon requests. */
    method Reconcile(key: string, inp: Inputs, answers: nat -> Answers)
      returns (result: Result, ghost traces: seq<seq<Preemption>>)
      requires Valid()
      modifies this, pools.Values
      ensures Valid()
      ensures ReconcileTraces(old(State()), key, inp, traces)
      ensures (State(), result) == Lifecycle.Reconcile(old(State()), key, inp, traces)
      ensures AllAnswered(old(mckubes), Flatten(traces), answers, 0)
    {
      traces := [];
      if !inp.getOk {
        return Failed, traces;
      }
      if key !in mckubes {
        return Done, traces;
      }
      var rt := mckubes[key];
      if rt.deleting {
        var finalized := ContainsString(rt.finalizers, FINALIZER);
        if finalized {
          result := Finalize(key, inp.updateOk);
          return result, traces;
        }
        return Done, traces;
      }
      var finalized := ContainsString(rt.finalizers, FINALIZER);
      if !finalized {
        if !inp.updateOk {
          return Failed, traces;
        }
        mckubes := Save(mckubes, key, rt.(finalizers := rt.finalizers + [FINALIZER]));
        return Requeue, traces;
      }
      if rt.podName == "" {
        return Done, traces;
      }
      if rt.node == "" {
        match inp.pod
        case PodMissing => return RequeueAfter(5), traces;
        case LookupFailed => return Failed, traces;
        case Found(_, nodeName, phase) =>
          if nodeName == "" || (phase != Running && phase != Pending) {
            return RequeueAfter(5), traces;
          }
          if !inp.updateOk {
            return Failed, traces;
          }
          mckubes := Save(mckubes, key, rt.(node := nodeName));
          return RequeueAfter(1), traces;
      }
      if rt.settings.Some? && OnNode(inp.pod) {
        if rt.settings.value.core.Some? {
          traces := PlacePod(key, inp, answers);
        } else {
          EnsurePodRuntimeStateInitialized(rt.podName);
        }
      }
      result := Done;
    }

    /** A deleted object: forget its pod first, then give up the finalizer. */
    method Finalize(key: string, updateOk: bool) returns (result: Result)
      requires Valid() && key in mckubes && mckubes[key].deleting && FINALIZER in mckubes[key].finalizers
      modifies this, pools.Values
      ensures Valid()
      ensures var s, rt := old(State()), old(mckubes)[key];
              var cleaned := if rt.podName != "" then Cleanup(s, rt.podName) else s;
              if updateOk then
                && result == Done
                && State() == cleaned.(mckubes :=
                     Save(s.mckubes, key, rt.(finalizers := RemoveString(rt.finalizers, FINALIZER))))
              else result == Failed && State() == cleaned
    {
      var rt := mckubes[key];
      if rt.podName != "" {
        CleanupPodState(rt.podName);
      }
      assert AllCores() == if rt.podName != "" then CleanupPools(old(AllCores()), rt.podName) else old(AllCores());
      var remaining := RemoveStringFrom(rt.finalizers, FINALIZER);
      if !updateOk {
        return Failed;
      }
      mckubes := Save(mckubes, key, rt.(finalizers := remaining));
      result := Done;
    }

    /** A watched pod: one that is being deleted is forgotten; a McKube that names it, if any is
        listed, is to be reconciled. Pods outside the namespace or without the label are ignored. */
    method FindObjectsForPod(pod: ListedPod, namespace: string, deleting: bool, listed: bool)
      returns (request: Option<string>)
      requires Valid()
      modifies this`runtimeState, pools.Values
      ensures Valid()
      ensures var relevant := namespace == "default" && pod.app != "";
              && State() == (if relevant && deleting then Cleanup(old(State()), pod.name) else old(State()))
              && (request.Some? <==>
                  relevant && listed && exists key | key in mckubes :: mckubes[key].podName == pod.name)
      ensures request.Some? ==> request.value in mckubes && mckubes[request.value].podName == pod.name
    {
      request := None;
      if namespace != TARGET_NAMESPACE || pod.app == "" {
        return;
      }
      if deleting {
        CleanupPodState(pod.name);
      }
      if listed {
        request := FindMcKube(pod.name);
      }
    }

    /** A McKube that names the pod, if any does. */
    method FindMcKube(podName: string) returns (found: Option<string>)
      ensures Finds(mckubes, podName, found)
    {
      var todo := mckubes.Keys;
      while |todo| > 0
        invariant todo <= mckubes.Keys
        invariant forall key | key in mckubes && key !in todo :: mckubes[key].podName != podName
        decreases |todo|
      {
        var key := NextKey(todo);
        if mckubes[key].podName == podName {
          return Some(key);
        }
        todo := todo - {key};
      }
      return None;
    }
  }
}
