/** When a reconciliation keeps the cores it registers a pod on within the threshold. */
module LifecycleThreshold {
  import opened CpuPool
  import opened CoreSets
  import opened PreemptionTraces
  import opened PreemptionOutcomes
  import opened PreemptionGuarantees
  import opened ThresholdGuarantees
  import opened Registration
  import opened Lifecycle
  import opened LifecycleDemands

  /** The cores in force, on which preemption is checked. */
  function InForce(s: System, key: string, inp: Inputs): seq<CoreId>
    requires Placeable(s, key, inp)
  {
    CoreSet(ActualCore(s.mckubes[key]))
  }

  /** The cores in force are the ones the settings request. */
  predicate OnRequestedCores(s: System, key: string, inp: Inputs)
    requires Placeable(s, key, inp)
  {
    InForce(s, key, inp) == PlacedPod(s, key, inp).coreSet
  }

  /** No requested core records the pod yet. */
  predicate NewToItsCores(cores: Cores, pod: PodInfo) {
    forall k | 0 <= k < |pod.coreSet| :: !Holds(cores, pod.coreSet[k], pod.name)
  }

  /** A reconciliation may find every victim unreachable; it then registers the pod on the pool
      as it is. */
  lemma PlacementWithoutFetch(s: System, key: string, inp: Inputs) returns (traces: seq<seq<Preemption>>)
    requires Places(s, key, inp) && KeyedByName(PlacedPool(s, inp)) && !AlreadyRegistered(s, key, inp)
    ensures ReconcileTraces(s, key, inp, traces)
    ensures Preempts(PlacedPool(s, inp), InForce(s, key, inp), PlacedPod(s, key, inp).cpuMillis,
                     PlacedPod(s, key, inp).criticality, traces)
    ensures NoneFetched(Flatten(traces))
    ensures PlacedPool(Reconcile(s, key, inp, traces).0, inp) == Register(PlacedPool(s, inp), PlacedPod(s, key, inp))
  {
    var start, pod := PlacedPool(s, inp), PlacedPod(s, key, inp);
    traces := CheckWithoutFetch(start, InForce(s, key, inp), pod.cpuMillis, pod.criticality);
    PlaceResult(s, key, inp, traces);
  }

  /** Whatever the API server answers, the reconciliation leaves the requested cores within the
      threshold. */
  ghost predicate ReconcileKeepsThreshold(s: System, key: string, inp: Inputs)
    requires Places(s, key, inp)
  {
    forall traces | ReconcileTraces(s, key, inp, traces) ::
      WithinThreshold(PlacedPool(Reconcile(s, key, inp, traces).0, inp), PlacedPod(s, key, inp).coreSet)
  }

  /** One outcome of the reconciliation, without publishing. */
  lemma CheckedOutcome(s: System, key: string, inp: Inputs, traces: seq<seq<Preemption>>)
    requires Places(s, key, inp) && !AlreadyRegistered(s, key, inp)
    requires Preempts(PlacedPool(s, inp), InForce(s, key, inp), PlacedPod(s, key, inp).cpuMillis,
                      PlacedPod(s, key, inp).criticality, traces)
    ensures ReconcileTraces(s, key, inp, SilentTraces(traces))
    ensures PlacedPool(Reconcile(s, key, inp, SilentTraces(traces)).0, inp)
            == Register(Replay(PlacedPool(s, inp), Flatten(traces)), PlacedPod(s, key, inp))
  {
    var start, pod := PlacedPool(s, inp), PlacedPod(s, key, inp);
    CheckWithoutPublishing(start, InForce(s, key, inp), pod.cpuMillis, pod.criticality, traces);
    PlaceResult(s, key, inp, SilentTraces(traces));
  }

  /** The question is one about the pool: a registered pod is left alone, any other is checked on the
      cores in force and registered on the requested ones. */
  lemma ReconcileKeepsAsChecking(s: System, key: string, inp: Inputs)
    requires Places(s, key, inp)
    ensures ReconcileKeepsThreshold(s, key, inp) <==>
            if AlreadyRegistered(s, key, inp) then WithinThreshold(PlacedPool(s, inp), PlacedPod(s, key, inp).coreSet)
            else KeepsThreshold(PlacedPool(s, inp), InForce(s, key, inp), PlacedPod(s, key, inp))
  {
    var start, pod := PlacedPool(s, inp), PlacedPod(s, key, inp);
    if AlreadyRegistered(s, key, inp) {
      assert ReconcileTraces(s, key, inp, []);
      PlaceResult(s, key, inp, []);
    } else {
      forall traces | Preempts(start, InForce(s, key, inp), pod.cpuMillis, pod.criticality, traces)
                      && ReconcileKeepsThreshold(s, key, inp)
        ensures WithinThreshold(Register(Replay(start, Flatten(traces)), pod), pod.coreSet)
      {
        CheckedOutcome(s, key, inp, traces);
      }
      forall traces | ReconcileTraces(s, key, inp, traces) && KeepsThreshold(start, InForce(s, key, inp), pod)
        ensures WithinThreshold(PlacedPool(Reconcile(s, key, inp, traces).0, inp), pod.coreSet)
      {
        PlaceResult(s, key, inp, traces);
      }
    }
  }

  /** The requested cores are within the threshold with the pod as it is now in place of what they
      record for it; a registered pod keeps what is recorded. */
  predicate RoomToPlace(s: System, key: string, inp: Inputs)
    requires Placeable(s, key, inp)
  {
    if AlreadyRegistered(s, key, inp) then WithinThreshold(PlacedPool(s, inp), PlacedPod(s, key, inp).coreSet)
    else HasRoomFor(PlacedPool(s, inp), PlacedPod(s, key, inp))
  }

  /** The check on the cores in force takes place and finds nobody to preempt. */
  predicate NothingInTheWay(s: System, key: string, inp: Inputs)
    requires Placeable(s, key, inp)
  {
    var pod := PlacedPod(s, key, inp);
    NothingToClear(PlacedPool(s, inp), InForce(s, key, inp), pod.cpuMillis, pod.criticality)
  }

  /** Whatever the cores in force: room on the requested cores is necessary, and it is all it takes
      when there is nothing to clear on the cores in force. */
  lemma ReconcileKeepingNeedsRoom(s: System, key: string, inp: Inputs)
    requires Places(s, key, inp) && DemandsInRange(s.pools)
    ensures ReconcileKeepsThreshold(s, key, inp) ==> RoomToPlace(s, key, inp)
    ensures NothingInTheWay(s, key, inp) ==>
              (ReconcileKeepsThreshold(s, key, inp) <==> RoomToPlace(s, key, inp))
  {
    var start, pod, targets := PlacedPool(s, inp), PlacedPod(s, key, inp), InForce(s, key, inp);
    PlacedPoolIsSound(s, inp);
    ReconcileKeepsAsChecking(s, key, inp);
    if KeepsThreshold(start, targets, pod) {
      KeepingNeedsRoom(start, targets, pod);
    }
    if NothingToClear(start, targets, pod.cpuMillis, pod.criticality) {
      RoomDecidesWithoutVictims(start, targets, pod);
    }
  }

  /** With one core in force that records at most one lower pod, and any requested cores: room on the
      requested cores, before and after the one move that may happen. */
  lemma OneLowerReconcileKeepsThresholdExactly(s: System, key: string, inp: Inputs, id: CoreId)
    requires Places(s, key, inp) && DemandsInRange(s.pools) && InForce(s, key, inp) == [id]
    requires AtMostOneLower(PlacedPool(s, inp), id, PlacedPod(s, key, inp).criticality)
    ensures var start, pod := PlacedPool(s, inp), PlacedPod(s, key, inp);
            ReconcileKeepsThreshold(s, key, inp) <==>
            && RoomToPlace(s, key, inp)
            && (!AlreadyRegistered(s, key, inp) && Overloads(start, id, pod.cpuMillis) ==>
                  MovesLeaveRoom(start, id, pod))
  {
    PlacedPoolIsSound(s, inp);
    ReconcileKeepsAsChecking(s, key, inp);
    OneLowerKeepsThresholdExactly(PlacedPool(s, inp), id, PlacedPod(s, key, inp));
  }

  /** With one core in force and any number of lower pods there, none of which another requested core
      can take: room on the requested cores decides. */
  lemma NoTakerReconcileKeepsThresholdExactly(s: System, key: string, inp: Inputs, id: CoreId)
    requires Places(s, key, inp) && DemandsInRange(s.pools) && InForce(s, key, inp) == [id]
    requires NoTaker(PlacedPool(s, inp), id, PlacedPod(s, key, inp))
    ensures ReconcileKeepsThreshold(s, key, inp) <==> RoomToPlace(s, key, inp)
  {
    PlacedPoolIsSound(s, inp);
    ReconcileKeepsAsChecking(s, key, inp);
    NoTakerKeepsThresholdExactly(PlacedPool(s, inp), id, PlacedPod(s, key, inp));
  }

  lemma RegisteredHasRoomExactly(cores: Cores, pod: PodInfo)
    requires Registered(cores, pod.coreSet, pod.name, pod.cpuMillis, pod.criticality)
    ensures WithinThreshold(cores, pod.coreSet) <==> HasRoomFor(cores, pod)
  {
    RegisteredWithin(cores, pod);
  }

  /** With the requested cores in force and no entry on them, the pod fits under every outcome if and
      only if each has room for the demand before. */
  lemma ReconcileKeepsThresholdExactly(s: System, key: string, inp: Inputs)
    requires Places(s, key, inp) && DemandsInRange(s.pools)
    requires OnRequestedCores(s, key, inp) && NewToItsCores(PlacedPool(s, inp), PlacedPod(s, key, inp))
    ensures ReconcileKeepsThreshold(s, key, inp)
            <==> HasRoom(PlacedPool(s, inp), PlacedPod(s, key, inp).coreSet, PlacedPod(s, key, inp).cpuMillis)
  {
    var start, pod := PlacedPool(s, inp), PlacedPod(s, key, inp);
    PlacedPoolIsSound(s, inp);
    ReconcileKeepsAsChecking(s, key, inp);
    KeepsThresholdExactly(start, pod);
    if pod.coreSet != [] {
      assert !Holds(start, pod.coreSet[0], pod.name);
      assert !Matches(start, pod.coreSet[0], pod.name, pod.cpuMillis, pod.criticality);
    }
  }

  /** With a single requested core in force, that the pod may be on already: room once its own entry
      gives way. */
  lemma OneCoreReconcileKeepsThresholdExactly(s: System, key: string, inp: Inputs)
    requires Places(s, key, inp) && DemandsInRange(s.pools)
    requires OnRequestedCores(s, key, inp) && |PlacedPod(s, key, inp).coreSet| == 1
    ensures ReconcileKeepsThreshold(s, key, inp) <==> HasRoomFor(PlacedPool(s, inp), PlacedPod(s, key, inp))
  {
    var start, pod := PlacedPool(s, inp), PlacedPod(s, key, inp);
    PlacedPoolIsSound(s, inp);
    assert pod.coreSet == [pod.coreSet[0]];
    ReconcileKeepsAsChecking(s, key, inp);
    OneCoreKeepsThresholdExactly(start, pod, pod.coreSet[0]);
    if AlreadyRegistered(s, key, inp) {
      RegisteredHasRoomExactly(start, pod);
    }
  }
}
