/** When a preemption check and the registration after it keep the requested cores within the
    threshold, as conditions on the pool before the check. */
module ThresholdGuarantees {
  import opened Wrappers
  import opened CpuPool
  import opened PreemptionTraces
  import opened PreemptionOutcomes
  import opened PreemptionGuarantees
  import opened Registration

  // ----- keeping within the threshold -----

  /** No requested core of the pool is above the threshold. */
  predicate WithinThreshold(cores: Cores, ids: seq<CoreId>) {
    forall k | 0 <= k < |ids| && ids[k] in cores :: cores[ids[k]].usage <= THRESHOLD_MILLIS
  }

  /** Every requested core has room for the demand on top of its usage. */
  predicate HasRoom(cores: Cores, ids: seq<CoreId>, demand: int) {
    forall k | 0 <= k < |ids| && ids[k] in cores :: cores[ids[k]].usage + demand <= THRESHOLD_MILLIS
  }

  /** Every requested core has room once the pod's own entry has given way. */
  predicate HasRoomFor(cores: Cores, pod: PodInfo) {
    forall k | 0 <= k < |pod.coreSet| && pod.coreSet[k] in cores ::
      WithEntry(cores[pod.coreSet[k]], pod).usage <= THRESHOLD_MILLIS
  }

  /** Checking preemption on the target cores and then registering the pod keeps its requested cores
      within the threshold whatever happens in between. */
  ghost predicate KeepsThreshold(start: Cores, targets: seq<CoreId>, pod: PodInfo) {
    forall traces | Preempts(start, targets, pod.cpuMillis, pod.criticality, traces) ::
      WithinThreshold(Register(Replay(start, Flatten(traces)), pod), pod.coreSet)
  }

  lemma RegisteredUsage(cores: Cores, pod: PodInfo, id: CoreId)
    requires id in cores && id in pod.coreSet
    ensures id in Register(cores, pod)
    ensures Register(cores, pod)[id].usage == WithEntry(cores[id], pod).usage
  {
    ReinstallMeaning(cores, pod.coreSet, pod);
    if Registered(cores, pod.coreSet, pod.name, pod.cpuMillis, pod.criticality) {
      var k :| 0 <= k < |pod.coreSet| && pod.coreSet[k] == id;
      assert Matches(cores, pod.coreSet[k], pod.name, pod.cpuMillis, pod.criticality);
    }
  }

  lemma RegisteredWithin(start: Cores, pod: PodInfo)
    ensures WithinThreshold(Register(start, pod), pod.coreSet) <==> HasRoomFor(start, pod)
  {
    ReinstallMeaning(start, pod.coreSet, pod);
    forall k | 0 <= k < |pod.coreSet| && pod.coreSet[k] in start
      ensures Register(start, pod)[pod.coreSet[k]].usage == WithEntry(start[pod.coreSet[k]], pod).usage
    {
      RegisteredUsage(start, pod, pod.coreSet[k]);
    }
  }

  /** Whatever the target cores, the requested ones need room for the pod as it is now: every victim
      may be unreachable, and the pod is added all the same. */
  lemma KeepingNeedsRoom(start: Cores, targets: seq<CoreId>, pod: PodInfo)
    requires KeyedByName(start) && KeepsThreshold(start, targets, pod)
    ensures HasRoomFor(start, pod)
  {
    var traces := CheckWithoutFetch(start, targets, pod.cpuMillis, pod.criticality);
    assert WithinThreshold(Register(start, pod), pod.coreSet);
    RegisteredWithin(start, pod);
  }

  /** When there is nothing to clear on the target cores that room is all it takes. */
  lemma RoomDecidesWithoutVictims(start: Cores, targets: seq<CoreId>, pod: PodInfo)
    requires KeyedByName(start) && NothingToClear(start, targets, pod.cpuMillis, pod.criticality)
    ensures KeepsThreshold(start, targets, pod) <==> HasRoomFor(start, pod)
  {
    if KeepsThreshold(start, targets, pod) {
      KeepingNeedsRoom(start, targets, pod);
    }
    RegisteredWithin(start, pod);
    forall traces | Preempts(start, targets, pod.cpuMillis, pod.criticality, traces)
      ensures Flatten(traces) == []
    {
      NothingToClearNothingDone(start, targets, pod.cpuMillis, pod.criticality, traces);
    }
  }

  lemma RoomLeavesNothingToClear(cores: Cores, targets: seq<CoreId>, demand: int, criticality: string)
    requires HasRoom(cores, targets, demand)
    ensures NothingToClear(cores, targets, demand, criticality)
  {
  }

  lemma RoomOnTop(cores: Cores, pod: PodInfo)
    requires NonNegative(cores) && HasRoom(cores, pod.coreSet, pod.cpuMillis)
    ensures HasRoomFor(cores, pod)
  {
  }

  /** When the requested cores are the targets it is enough that they have room on top of any entry
      the pod already has: then nothing is preempted. */
  lemma RoomIsEnough(start: Cores, pod: PodInfo)
    requires KeyedByName(start) && NonNegative(start) && HasRoom(start, pod.coreSet, pod.cpuMillis)
    ensures KeepsThreshold(start, pod.coreSet, pod)
  {
    RoomLeavesNothingToClear(start, pod.coreSet, pod.cpuMillis, pod.criticality);
    RoomOnTop(start, pod);
    RoomDecidesWithoutVictims(start, pod.coreSet, pod);
  }

  /** For a pod new to its requested cores, checked there, both are the same: they stay within the
      threshold under every outcome if and only if each has room for the demand beforehand. */
  lemma KeepsThresholdExactly(start: Cores, pod: PodInfo)
    requires KeyedByName(start) && NonNegative(start)
    requires forall k | 0 <= k < |pod.coreSet| :: !Holds(start, pod.coreSet[k], pod.name)
    ensures KeepsThreshold(start, pod.coreSet, pod) <==> HasRoom(start, pod.coreSet, pod.cpuMillis)
  {
    if KeepsThreshold(start, pod.coreSet, pod) {
      KeepingNeedsRoom(start, pod.coreSet, pod);
      forall k | 0 <= k < |pod.coreSet| && pod.coreSet[k] in start
        ensures start[pod.coreSet[k]].usage + pod.cpuMillis <= THRESHOLD_MILLIS
      {
        assert !Holds(start, pod.coreSet[k], pod.name);
      }
    }
    if HasRoom(start, pod.coreSet, pod.cpuMillis) {
      RoomIsEnough(start, pod);
    }
  }

  /** The usage of a core without what it records for a pod. */
  function UsageWithout(cores: Cores, id: CoreId, name: string): int
    requires id in cores
  {
    RemoveFromCore(cores[id], name).usage
  }

  lemma {:induction false} OwnTargetOnlyFalls(cores: Cores, id: CoreId, trace: seq<Preemption>, name: string)
    requires KeyedByName(cores) && NonNegative(cores) && AllPermitted(cores, trace) && id in cores
    requires forall k | 0 <= k < |trace| :: trace[k].from == id
    ensures id in Replay(cores, trace)
    ensures UsageWithout(Replay(cores, trace), id, name) <= UsageWithout(cores, id, name)
  {
    if trace != [] {
      var before, p := trace[..|trace| - 1], trace[|trace| - 1];
      PermittedPrefix(cores, trace);
      OwnTargetOnlyFalls(cores, id, before, name);
      ReplayKeepsBound(cores, before);
      StepOnlyFalls(Replay(cores, before), p, name);
    }
  }

  /** Whether or not the victim comes back, the core it is taken from has no more of other pods. */
  lemma StepOnlyFalls(cores: Cores, p: Preemption, name: string)
    requires NonNegative(cores) && Permitted(cores, p)
    ensures p.from in ApplyPreemption(cores, p)
    ensures UsageWithout(ApplyPreemption(cores, p), p.from, name) <= UsageWithout(cores, p.from, name)
  {
    var core := cores[p.from];
    assert 0 <= core.pods[p.victim.name].cpuMillis;
    assert Vacated(cores, p)[p.from] == RemoveFromCore(core, p.victim.name);
  }

  /** For a pod that requests one core and is checked there, whatever that core records for it: the
      core stays within the threshold under every outcome if and only if there is room once its own
      entry gives way. */
  lemma OneCoreKeepsThresholdExactly(start: Cores, pod: PodInfo, id: CoreId)
    requires KeyedByName(start) && NonNegative(start) && pod.coreSet == [id]
    ensures KeepsThreshold(start, pod.coreSet, pod) <==> HasRoomFor(start, pod)
  {
    if KeepsThreshold(start, pod.coreSet, pod) {
      KeepingNeedsRoom(start, pod.coreSet, pod);
    }
    forall traces | Preempts(start, pod.coreSet, pod.cpuMillis, pod.criticality, traces) && HasRoomFor(start, pod)
      ensures WithinThreshold(Register(Replay(start, Flatten(traces)), pod), pod.coreSet)
    {
      OneCoreKeepsThreshold(start, pod, id, traces);
    }
  }

  lemma OneCoreKeepsThreshold(start: Cores, pod: PodInfo, id: CoreId, traces: seq<seq<Preemption>>)
    requires KeyedByName(start) && NonNegative(start) && pod.coreSet == [id] && HasRoomFor(start, pod)
    requires Preempts(start, pod.coreSet, pod.cpuMillis, pod.criticality, traces)
    ensures WithinThreshold(Register(Replay(start, Flatten(traces)), pod), pod.coreSet)
  {
    var checked := Replay(start, Flatten(traces));
    OneTargetFlat(traces);
    assert PreemptsOnCore(Replay(start, Flatten(traces[..0])), pod.coreSet[0], pod.cpuMillis, pod.criticality,
                          traces[0]);
    CheckBoundsAndConserves(start, pod.coreSet, pod.cpuMillis, pod.criticality, traces);
    ReinstallMeaning(checked, pod.coreSet, pod);
    if id in start {
      assert WithEntry(start[pod.coreSet[0]], pod).usage <= THRESHOLD_MILLIS;
      OwnTargetOnlyFalls(start, id, traces[0], pod.name);
      RegisteredUsage(checked, pod, id);
    }
  }

  // ----- cores in force other than the requested ones -----

  /** The usage of a requested core when the victim came to it first and then the pod registered. */
  function LandedUsage(cores: Cores, to: CoreId, victim: PodInfo, pod: PodInfo): int
    requires to in cores
  {
    if victim.name == pod.name then cores[to].usage + pod.cpuMillis
    else UsageWithout(cores, to, pod.name) + victim.cpuMillis + pod.cpuMillis
  }

  /** What registering the pod after one preemption leaves on a core. */
  lemma UsageAfterOne(cores: Cores, p: Preemption, pod: PodInfo, id: CoreId)
    requires NonNegative(cores) && Permitted(cores, p) && id in cores
    ensures id in ApplyPreemption(cores, p)
    ensures p.outcome.Migrated? && p.outcome.core == id && id != p.from ==>
              WithEntry(ApplyPreemption(cores, p)[id], pod).usage == LandedUsage(cores, id, p.victim, pod)
    ensures !(p.outcome.Migrated? && p.outcome.core == id && id != p.from) ==>
              WithEntry(ApplyPreemption(cores, p)[id], pod).usage <= WithEntry(cores[id], pod).usage
  {
    if id == p.from {
      StepOnlyFalls(cores, p, pod.name);
    }
  }

  /** No pod that may leave core `id` for a requested core takes the room the pod needs there. */
  ghost predicate MovesLeaveRoom(cores: Cores, id: CoreId, pod: PodInfo) {
    forall name, k | LowerOn(cores, id, pod.criticality, name) && 0 <= k < |pod.coreSet|
                     && MayTake(cores, id, PodsOn(cores, id)[name], pod.coreSet[k]) ::
      LandedUsage(cores, pod.coreSet[k], PodsOn(cores, id)[name], pod) <= THRESHOLD_MILLIS
  }

  /** For one core in force this is necessary too, however many lower pods it records: any of them may
      be the first to move, and the others unreachable. */
  lemma KeepingNeedsRoomForMoves(start: Cores, id: CoreId, pod: PodInfo)
    requires KeyedByName(start) && NonNegative(start) && KeepsThreshold(start, [id], pod)
    requires Overloads(start, id, pod.cpuMillis)
    ensures MovesLeaveRoom(start, id, pod)
  {
    forall name, k | LowerOn(start, id, pod.criticality, name) && 0 <= k < |pod.coreSet|
                     && MayTake(start, id, PodsOn(start, id)[name], pod.coreSet[k])
      ensures LandedUsage(start, pod.coreSet[k], PodsOn(start, id)[name], pod) <= THRESHOLD_MILLIS
    {
      MoveNeedsRoom(start, id, pod, PodsOn(start, id)[name], pod.coreSet[k]);
    }
  }

  lemma MoveNeedsRoom(start: Cores, id: CoreId, pod: PodInfo, victim: PodInfo, to: CoreId)
    requires KeyedByName(start) && NonNegative(start) && KeepsThreshold(start, [id], pod)
    requires Overloads(start, id, pod.cpuMillis) && LowerOn(start, id, pod.criticality, victim.name)
    requires PodsOn(start, id)[victim.name] == victim && to in pod.coreSet && MayTake(start, id, victim, to)
    ensures LandedUsage(start, to, victim, pod) <= THRESHOLD_MILLIS
  {
    var p := Preemption(victim, id, Migrated(to, None));
    MigratesIfTaken(start, id, victim, to, None);
    var rest := CoreStartingWith(start, pod.cpuMillis, pod.criticality, p, false);
    NoneFetchedChangesNothing(ApplyPreemption(start, p), rest);
    OneTargetCheck(start, id, pod.cpuMillis, pod.criticality, [p] + rest);
    var after := ApplyPreemption(start, p);
    UsageAfterOne(start, p, pod, to);
    RegisteredUsage(after, pod, to);
    assert WithinThreshold(Register(after, pod), pod.coreSet);
  }

  /** For one core in force with at most one lower pod, and any requested cores: the requested cores
      stay within the threshold under every outcome if and only if they have room for the pod, and
      would have it after the one move that may happen. */
  lemma OneLowerKeepsThresholdExactly(start: Cores, id: CoreId, pod: PodInfo)
    requires KeyedByName(start) && NonNegative(start) && AtMostOneLower(start, id, pod.criticality)
    ensures KeepsThreshold(start, [id], pod) <==>
            HasRoomFor(start, pod) && (Overloads(start, id, pod.cpuMillis) ==> MovesLeaveRoom(start, id, pod))
  {
    if KeepsThreshold(start, [id], pod) {
      KeepingNeedsRoom(start, [id], pod);
      if Overloads(start, id, pod.cpuMillis) {
        KeepingNeedsRoomForMoves(start, id, pod);
      }
    }
    if HasRoomFor(start, pod) && (Overloads(start, id, pod.cpuMillis) ==> MovesLeaveRoom(start, id, pod)) {
      forall traces | Preempts(start, [id], pod.cpuMillis, pod.criticality, traces)
        ensures WithinThreshold(Register(Replay(start, Flatten(traces)), pod), pod.coreSet)
      {
        OneLowerKeepsThreshold(start, id, pod, traces);
      }
    }
  }

  lemma OneLowerKeepsThreshold(start: Cores, id: CoreId, pod: PodInfo, traces: seq<seq<Preemption>>)
    requires NonNegative(start) && AtMostOneLower(start, id, pod.criticality) && HasRoomFor(start, pod)
    requires Overloads(start, id, pod.cpuMillis) ==> MovesLeaveRoom(start, id, pod)
    requires Preempts(start, [id], pod.cpuMillis, pod.criticality, traces)
    ensures WithinThreshold(Register(Replay(start, Flatten(traces)), pod), pod.coreSet)
  {
    OneTargetFlat(traces);
    var trace := traces[0];
    assert PreemptsOnCore(Replay(start, Flatten(traces[..0])), [id][0], pod.cpuMillis, pod.criticality, trace);
    AtMostOneVictim(start, id, pod.cpuMillis, pod.criticality, trace);
    var after := Replay(start, trace);
    forall k | 0 <= k < |pod.coreSet| && pod.coreSet[k] in after
      ensures WithEntry(after[pod.coreSet[k]], pod).usage <= THRESHOLD_MILLIS
    {
      if trace != [] {
        OneMoveLeavesRoom(start, trace[0], pod, k);
      }
    }
    RegisteredWithin(after, pod);
  }

  lemma OneMoveLeavesRoom(start: Cores, p: Preemption, pod: PodInfo, k: nat)
    requires NonNegative(start) && Permitted(start, p) && LowerOn(start, p.from, pod.criticality, p.victim.name)
    requires HasRoomFor(start, pod) && MovesLeaveRoom(start, p.from, pod)
    requires k < |pod.coreSet| && pod.coreSet[k] in ApplyPreemption(start, p)
    ensures Replay(start, [p]) == ApplyPreemption(start, p)
    ensures WithEntry(ApplyPreemption(start, p)[pod.coreSet[k]], pod).usage <= THRESHOLD_MILLIS
  {
    var id := pod.coreSet[k];
    assert [p][..0] == [];
    UsageAfterOne(start, p, pod, id);
    if p.outcome.Migrated? && p.outcome.core == id && id != p.from {
      MigratesIfTaken(start, p.from, p.victim, id, p.outcome.published);
      assert PodsOn(start, p.from)[p.victim.name] == p.victim;
    }
  }

  // ----- many lower pods -----

  /** No lower pod of the core can be taken by a requested core other than it. */
  predicate NoTaker(cores: Cores, id: CoreId, pod: PodInfo) {
    forall name, k | name in LowerPods(cores, id, pod.criticality) && 0 <= k < |pod.coreSet| ::
      !CanTake(cores, id, LowerPods(cores, id, pod.criticality)[name], pod.coreSet[k])
  }

  /** With one core in force and any number of lower pods on it, of which no other requested core can
      take one: room is necessary and enough. */
  lemma NoTakerKeepsThresholdExactly(start: Cores, id: CoreId, pod: PodInfo)
    requires KeyedByName(start) && NonNegative(start) && NoTaker(start, id, pod)
    ensures KeepsThreshold(start, [id], pod) <==> HasRoomFor(start, pod)
  {
    if KeepsThreshold(start, [id], pod) {
      KeepingNeedsRoom(start, [id], pod);
    }
    forall traces | Preempts(start, [id], pod.cpuMillis, pod.criticality, traces) && HasRoomFor(start, pod)
      ensures WithinThreshold(Register(Replay(start, Flatten(traces)), pod), pod.coreSet)
    {
      OneTargetFlat(traces);
      assert PreemptsOnCore(Replay(start, Flatten(traces[..0])), [id][0], pod.cpuMillis, pod.criticality, traces[0]);
      NoTakerKeepsRoom(start, id, pod, traces[0]);
      RegisteredWithin(Replay(start, traces[0]), pod);
    }
  }

  lemma NoTakerKeepsRoom(start: Cores, id: CoreId, pod: PodInfo, trace: seq<Preemption>)
    requires KeyedByName(start) && NonNegative(start) && NoTaker(start, id, pod) && HasRoomFor(start, pod)
    requires PreemptsOnCore(start, id, pod.cpuMillis, pod.criticality, trace)
    ensures HasRoomFor(Replay(start, trace), pod)
  {
    CoreTraceFacts(start, id, pod.cpuMillis, pod.criticality, trace);
    ReplayConserves(start, trace);
    forall k | 0 <= k < |pod.coreSet| && pod.coreSet[k] in start
      ensures WithEntry(Replay(start, trace)[pod.coreSet[k]], pod).usage <= THRESHOLD_MILLIS
    {
      if pod.coreSet[k] == id {
        OwnTargetOnlyFalls(start, id, trace, pod.name);
      } else {
        forall j | 0 <= j < |trace| && trace[j].outcome.Migrated?
          ensures trace[j].outcome.core != pod.coreSet[k]
        {
          NeverTaken(start, id, pod, trace, j, k);
        }
        NotLandedOn(start, trace, pod.coreSet[k]);
      }
    }
  }

  lemma TakerSpoils(start: Cores, id: CoreId, pod: PodInfo, victim: PodInfo, k: nat)
    requires LowerOn(start, id, pod.criticality, victim.name) && PodsOn(start, id)[victim.name] == victim
    requires k < |pod.coreSet| && CanTake(start, id, victim, pod.coreSet[k])
    ensures !NoTaker(start, id, pod)
  {
    assert LowerPods(start, id, pod.criticality)[victim.name] == victim;
  }

  lemma NeverTaken(start: Cores, id: CoreId, pod: PodInfo, trace: seq<Preemption>, j: nat, k: nat)
    requires KeyedByName(start) && NonNegative(start) && NoTaker(start, id, pod)
    requires PreemptsOnCore(start, id, pod.cpuMillis, pod.criticality, trace) && j < |trace|
    requires trace[j].outcome.Migrated? && k < |pod.coreSet| && pod.coreSet[k] in start && pod.coreSet[k] != id
    ensures trace[j].outcome.core != pod.coreSet[k]
  {
    if trace[j].outcome.core == pod.coreSet[k] {
      MovedIsTaken(start, id, pod.cpuMillis, pod.criticality, trace, j);
      TakerSpoils(start, id, pod, trace[j].victim, k);
    }
  }

  lemma {:induction false} NotLandedOn(cores: Cores, trace: seq<Preemption>, id: CoreId)
    requires id in cores
    requires forall j | 0 <= j < |trace| :: trace[j].from != id
                                           && !(trace[j].outcome.Migrated? && trace[j].outcome.core == id)
    ensures id in Replay(cores, trace) && Replay(cores, trace)[id] == cores[id]
  {
    if trace != [] {
      NotLandedOn(cores, trace[..|trace| - 1], id);
    }
  }

  // ----- preemption that was not needed -----

  /** A check counts the entry it is about to replace. When a pod that requests one core fits there
      once its own entry gives way, the check still preempts somebody, under one outcome and then under
      all, exactly when the core records the pod, would be overloaded by both and has a lower pod. */
  lemma NeedlessPreemptionExactly(start: Cores, pod: PodInfo, id: CoreId)
    requires KeyedByName(start) && pod.coreSet == [id] && HasRoomFor(start, pod) && id in start
    ensures (exists traces :: Preempts(start, [id], pod.cpuMillis, pod.criticality, traces) && Flatten(traces) != [])
            <==> Needless(start, pod, id)
    ensures Needless(start, pod, id) ==>
              forall traces | Preempts(start, [id], pod.cpuMillis, pod.criticality, traces) :: Flatten(traces) != []
  {
    assert WithEntry(start[pod.coreSet[0]], pod).usage <= THRESHOLD_MILLIS;
    forall traces | Preempts(start, [id], pod.cpuMillis, pod.criticality, traces)
      ensures Flatten(traces) != [] <==> Needless(start, pod, id)
    {
      OneTargetFlat(traces);
      assert PreemptsOnCore(Replay(start, Flatten(traces[..0])), [id][0], pod.cpuMillis, pod.criticality, traces[0]);
      PreemptsIfLower(start, id, pod.cpuMillis, pod.criticality, traces[0]);
    }
    var traces := CheckWithoutFetch(start, [id], pod.cpuMillis, pod.criticality);
  }

  predicate Needless(start: Cores, pod: PodInfo, id: CoreId) {
    && Holds(start, id, pod.name) && Overloads(start, id, pod.cpuMillis)
    && LowerPods(start, id, pod.criticality) != map[]
  }

  lemma PreemptsIfLower(cores: Cores, id: CoreId, demand: int, criticality: string, trace: seq<Preemption>)
    requires PreemptsOnCore(cores, id, demand, criticality, trace)
    ensures trace != [] <==> Overloads(cores, id, demand) && LowerPods(cores, id, criticality) != map[]
  {
    var lower := LowerPods(cores, id, criticality);
    if Overloads(cores, id, demand) && lower != map[] {
      var name :| name in lower;
      assert lower[name] in Victims(trace);
    }
    if trace != [] {
      TraceHasVictims(cores, id, demand, criticality, trace);
    }
  }
}
