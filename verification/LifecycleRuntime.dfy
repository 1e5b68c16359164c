/** The runtime state of a pod: how a placement uses it for the demand, and what changes it. */
module LifecycleRuntime {
  import opened Demand
  import opened CpuPool
  import opened CoreSets
  import opened PreemptionTraces
  import opened Registration
  import opened Lifecycle
  import opened LifecycleDemands

  /** The state a pod is in when it is placed: what is known of it, low for a new one. */
  function StateAtPlacement(s: System, podName: string): string {
    if podName in s.runtimeState then s.runtimeState[podName] else "low"
  }

  /** The demand that the settings state for a runtime state. */
  function StatedDemand(rt: RTSettings, state: string): int {
    DemandMillis(if state == "hi" then rt.runtimeHi else rt.runtimeLow, rt.period)
  }

  /** A placement checks and registers the pod at the demand of the runtime state it is known in, or of the
      low one if it is new, which is then its state; every requested core that exists records it so. A pod
      that every core in force records at that demand is left alone. */
  lemma PlacementDemand(s: System, key: string, inp: Inputs, traces: seq<seq<Preemption>>, id: CoreId)
    requires Places(s, key, inp) && ReconcileTraces(s, key, inp, traces)
    ensures var rt, after := s.mckubes[key], Reconcile(s, key, inp, traces).0;
            var state := StateAtPlacement(s, rt.podName);
            var millis := StatedDemand(rt.settings.value, state);
            var inForce := CoreSet(ActualCore(rt));
            && rt.podName in after.runtimeState && after.runtimeState[rt.podName] == state
            && (AlreadyRegistered(s, key, inp) <==>
                forall k | 0 <= k < |inForce| ::
                  && Holds(PlacedPool(s, inp), inForce[k], rt.podName)
                  && PlacedPool(s, inp)[inForce[k]].pods[rt.podName].cpuMillis == millis
                  && PlacedPool(s, inp)[inForce[k]].pods[rt.podName].criticality == rt.criticality)
            && (!AlreadyRegistered(s, key, inp) ==>
                && Preempts(PlacedPool(s, inp), inForce, millis, rt.criticality, traces)
                && inp.pod.nodeName in after.pools
                && (id in CoreSet(rt.settings.value.core.value) && id in PlacedPool(s, inp) ==>
                      id in after.pools[inp.pod.nodeName]
                      && Matches(after.pools[inp.pod.nodeName], id, rt.podName, millis, rt.criticality)))
  {
    PlaceResult(s, key, inp, traces);
    if !AlreadyRegistered(s, key, inp) {
      PlacementRecords(PlacedPool(s, inp), CoreSet(ActualCore(s.mckubes[key])), PlacedPod(s, key, inp), traces, id);
    }
  }

  lemma PlacementRecords(start: Cores, targets: seq<CoreId>, pod: PodInfo, traces: seq<seq<Preemption>>, id: CoreId)
    requires Preempts(start, targets, pod.cpuMillis, pod.criticality, traces)
    ensures id in start && id in pod.coreSet ==>
              Matches(Register(Replay(start, Flatten(traces)), pod), id, pod.name, pod.cpuMillis, pod.criticality)
  {
    var checked := Replay(start, Flatten(traces));
    CheckIsPermitted(start, targets, pod.cpuMillis, pod.criticality, traces);
    ReplayConserves(start, Flatten(traces));
    RegisteredAfter(checked, pod, [id]);
    if id in start && id in pod.coreSet {
      assert id in checked.Keys;
      assert Registered(Register(checked, pod), [id], pod.name, pod.cpuMillis, pod.criticality);
      assert Matches(Register(checked, pod), [id][0], pod.name, pod.cpuMillis, pod.criticality);
    }
  }

  /** A new pod starts low: it is registered at the demand of its low runtime. */
  lemma NewPodStartsLow(s: System, key: string, inp: Inputs, traces: seq<seq<Preemption>>, id: CoreId)
    requires Places(s, key, inp) && ReconcileTraces(s, key, inp, traces) && !AlreadyRegistered(s, key, inp)
    requires s.mckubes[key].podName !in s.runtimeState
    requires id in CoreSet(s.mckubes[key].settings.value.core.value) && id in PlacedPool(s, inp)
    ensures var rt, after := s.mckubes[key], Reconcile(s, key, inp, traces).0;
            && rt.podName in after.runtimeState && after.runtimeState[rt.podName] == "low"
            && inp.pod.nodeName in after.pools && Holds(after.pools[inp.pod.nodeName], id, rt.podName)
            && after.pools[inp.pod.nodeName][id].pods[rt.podName].cpuMillis
               == DemandMillis(rt.settings.value.runtimeLow, rt.settings.value.period)
  {
    assert "low" != "hi";
    PlacementDemand(s, key, inp, traces, id);
  }

  /** A pod known as "hi" stays so and is registered at the demand of its high runtime. */
  lemma HiPodIsPlacedHigh(s: System, key: string, inp: Inputs, traces: seq<seq<Preemption>>, id: CoreId)
    requires Places(s, key, inp) && ReconcileTraces(s, key, inp, traces) && !AlreadyRegistered(s, key, inp)
    requires s.mckubes[key].podName in s.runtimeState && s.runtimeState[s.mckubes[key].podName] == "hi"
    requires id in CoreSet(s.mckubes[key].settings.value.core.value) && id in PlacedPool(s, inp)
    ensures var rt, after := s.mckubes[key], Reconcile(s, key, inp, traces).0;
            && rt.podName in after.runtimeState && after.runtimeState[rt.podName] == "hi"
            && inp.pod.nodeName in after.pools && Holds(after.pools[inp.pod.nodeName], id, rt.podName)
            && after.pools[inp.pod.nodeName][id].pods[rt.podName].cpuMillis
               == DemandMillis(rt.settings.value.runtimeHi, rt.settings.value.period)
  {
    PlacementDemand(s, key, inp, traces, id);
  }

  // ----- what changes a runtime state -----

  /** Nothing is known of the pod in either state, or the same. */
  predicate SameRuntime(s: System, after: System, podName: string) {
    && (podName in after.runtimeState <==> podName in s.runtimeState)
    && (podName in s.runtimeState ==> after.runtimeState[podName] == s.runtimeState[podName])
  }

  /** The event is about the pod: its deletion, a report of its runtime, or a reconciliation of a McKube
      that names it. */
  predicate Concerns(s: System, e: Event, podName: string) {
    match e
    case PodDeleted(name) => name == podName
    case RuntimeChanged(name, _) => name == podName
    case Reconciled(key, _, _) => key in s.mckubes && s.mckubes[key].podName == podName
    case _ => false
  }

  /** No event touches the runtime state of a pod it is not about: the deletion of a pod and the
      finalization of its McKube forget that one and no other. */
  lemma OtherRuntimesStay(s: System, e: Event, podName: string)
    requires !Concerns(s, e, podName)
    ensures SameRuntime(s, Step(s, e), podName)
  {
  }

  /** A reconciliation never changes the state of a known pod, except that finalizing its McKube forgets
      it; a new pod is known as low afterwards, or not at all. */
  lemma KnownPodKeepsItsState(s: System, key: string, inp: Inputs, traces: seq<seq<Preemption>>)
    requires key in s.mckubes
    ensures var rt, after := s.mckubes[key], Reconcile(s, key, inp, traces).0;
            if inp.getOk && rt.deleting && FINALIZER in rt.finalizers && rt.podName != ""
            then rt.podName !in after.runtimeState
            else
              && (rt.podName in s.runtimeState ==> SameRuntime(s, after, rt.podName))
              && (rt.podName in after.runtimeState ==>
                    after.runtimeState[rt.podName] == StateAtPlacement(s, rt.podName))
  {
  }

  /** A reconciliation that finds the scheduled pod of a McKube with settings makes its state known, even if
      the settings name no core; one that does not, and does not finalize, touches no state at all. */
  lemma StateIsInitialized(s: System, key: string, inp: Inputs, traces: seq<seq<Preemption>>)
    requires inp.getOk && key in s.mckubes && !s.mckubes[key].deleting
    ensures var rt, after := s.mckubes[key], Reconcile(s, key, inp, traces).0;
            if FINALIZER in rt.finalizers && rt.podName != "" && rt.node != "" && rt.settings.Some?
               && inp.pod.Found? && inp.pod.nodeName != "" && (inp.pod.phase == Pending || inp.pod.phase == Running)
            then after.runtimeState == s.runtimeState[rt.podName := StateAtPlacement(s, rt.podName)]
            else after.runtimeState == s.runtimeState
  {
  }

  /** The deletion of a pod forgets its runtime state and its entries. */
  lemma DeletedPodIsForgotten(s: System, podName: string)
    ensures podName !in Step(s, PodDeleted(podName)).runtimeState
    ensures !InSomePool(Step(s, PodDeleted(podName)).pools, podName)
    ensures Step(s, PodDeleted(podName)).mckubes == s.mckubes
  {
    CleanupForgets(s.pools, podName, podName);
  }

  /** Over every run a runtime state is "low" or was reported for that pod. */
  lemma {:induction false} RuntimeIsLowOrReported(events: seq<Event>, podName: string)
    requires IsRun(events) && podName in After(events).runtimeState
    ensures After(events).runtimeState[podName] == "low"
            || RuntimeChanged(podName, After(events).runtimeState[podName]) in events
  {
    var before, e := events[..|events| - 1], events[|events| - 1];
    var s := After(before);
    if !Concerns(s, e, podName) {
      OtherRuntimesStay(s, e, podName);
      RuntimeIsLowOrReported(before, podName);
    } else if e.Reconciled? {
      KnownPodKeepsItsState(s, e.key, e.inp, e.traces);
      if podName in s.runtimeState {
        RuntimeIsLowOrReported(before, podName);
      }
    } else {
      assert e in events;
    }
  }
}
