/** When a pod that can be its own victim settles: the case of one core, in force and requested. */
module LifecycleSettling {
  import opened Wrappers
  import opened CpuPool
  import opened CoreSets
  import opened PreemptionTraces
  import opened PreemptionOutcomes
  import opened PreemptionGuarantees
  import opened Registration
  import opened Lifecycle
  import opened LifecycleDemands
  import opened LifecycleAccounting

  /** Whatever the API server answers, the reconciliation settles the registration. */
  ghost predicate SettlesForSure(s: System, key: string, inp: Inputs) {
    forall traces | ReconcileTraces(s, key, inp, traces) :: Settled(Reconcile(s, key, inp, traces).0, key, inp)
  }

  /** The pod asks for exactly the core that is in force. */
  predicate OnOneCore(s: System, key: string, inp: Inputs, id: CoreId)
    requires Placeable(s, key, inp)
  {
    CoreSet(ActualCore(s.mckubes[key])) == [id] && PlacedPod(s, key, inp).coreSet == [id]
  }

  /** The check would take the pod itself, and another core can take it. */
  ghost predicate MayMoveItself(cores: Cores, id: CoreId, pod: PodInfo) {
    && Overloads(cores, id, pod.cpuMillis) && LowerOn(cores, id, pod.criticality, pod.name)
    && exists to :: CanTake(cores, id, PodsOn(cores, id)[pod.name], to)
  }

  /** A trace that publishes nothing but core `id` for the pod leaves its McKube as it was or showing
      that core. */
  lemma {:induction false} PublishOwn(mckubes: map<string, McKube>, trace: seq<Preemption>, key: string, id: CoreId)
    requires key in mckubes && forall p | p in trace :: PublishesTo(mckubes, p)
    requires forall p | p in trace :: !Moves(p, id, mckubes[key].podName)
    ensures Publish(mckubes, trace)[key].allocatedCore in {mckubes[key].allocatedCore, FormatInt(id)}
  {
    if trace != [] {
      assert trace[|trace| - 1] in trace;
      PublishOwn(mckubes, trace[..|trace| - 1], key, id);
    }
  }

  lemma InForceAfter(s: System, key: string, inp: Inputs, traces: seq<seq<Preemption>>, id: CoreId)
    requires Places(s, key, inp) && ReconcileTraces(s, key, inp, traces) && OnOneCore(s, key, inp, id) && 0 <= id
    requires forall p | p in Flatten(traces) :: !Moves(p, id, s.mckubes[key].podName)
    ensures var after := Reconcile(s, key, inp, traces).0;
            && Places(after, key, inp) && OnOneCore(after, key, inp, id)
            && PlacedPod(after, key, inp) == PlacedPod(s, key, inp)
  {
    PlaceKeepsObjects(s, key, inp, traces);
    if !AlreadyRegistered(s, key, inp) {
      PublishOwn(Shown(s, key, inp), Flatten(traces), key, id);
      AllocatedCoreReadsBack(id);
    }
  }

  lemma RegisteredOnIt(cores: Cores, pod: PodInfo, id: CoreId)
    requires id in cores && pod.coreSet == [id]
    ensures Registered(Register(cores, pod), [id], pod.name, pod.cpuMillis, pod.criticality)
  {
    RegisteredAfter(cores, pod, [id]);
    assert id in pod.coreSet;
  }

  lemma OneCoreCheck(s: System, key: string, inp: Inputs, traces: seq<seq<Preemption>>, id: CoreId)
    returns (trace: seq<Preemption>)
    requires Places(s, key, inp) && PlacementTraces(s, key, inp, traces) && !AlreadyRegistered(s, key, inp)
    requires OnOneCore(s, key, inp, id)
    ensures Flatten(traces) == trace
    ensures PreemptsOnCore(PlacedPool(s, inp), id, PlacedPod(s, key, inp).cpuMillis,
                           PlacedPod(s, key, inp).criticality, trace)
  {
    trace := traces[0];
    OneTargetFlat(traces);
    assert PreemptsOnCore(Replay(PlacedPool(s, inp), Flatten(traces[..0])), [id][0], PlacedPod(s, key, inp).cpuMillis,
                          PlacedPod(s, key, inp).criticality, traces[0]);
  }

  /** Unless the pod may move itself, every outcome settles it. */
  lemma StaysAndSettles(s: System, key: string, inp: Inputs, traces: seq<seq<Preemption>>, id: CoreId)
    requires Places(s, key, inp) && ReconcileTraces(s, key, inp, traces) && OnOneCore(s, key, inp, id) && 0 <= id
    requires KeyedByName(PlacedPool(s, inp)) && NonNegative(PlacedPool(s, inp)) && InRange(PlacedPool(s, inp))
    requires id in PlacedPool(s, inp) && !MayMoveItself(PlacedPool(s, inp), id, PlacedPod(s, key, inp))
    ensures Settled(Reconcile(s, key, inp, traces).0, key, inp)
  {
    var start, pod := PlacedPool(s, inp), PlacedPod(s, key, inp);
    PlaceResult(s, key, inp, traces);
    if AlreadyRegistered(s, key, inp) {
      InForceAfter(s, key, inp, traces, id);
    } else {
      var trace := OneCoreCheck(s, key, inp, traces, id);
      forall k | 0 <= k < |trace|
        ensures !Moves(trace[k], id, pod.name)
      {
        NotMoved(start, id, pod, trace, k);
      }
      InForceAfter(s, key, inp, traces, id);
      CoreTraceFacts(start, id, pod.cpuMillis, pod.criticality, trace);
      ReplayConserves(start, trace);
      RegisteredOnIt(Replay(start, trace), pod, id);
    }
  }

  lemma NotMoved(start: Cores, id: CoreId, pod: PodInfo, trace: seq<Preemption>, k: nat)
    requires KeyedByName(start) && NonNegative(start) && InRange(start) && !MayMoveItself(start, id, pod)
    requires PreemptsOnCore(start, id, pod.cpuMillis, pod.criticality, trace) && k < |trace|
    ensures !Moves(trace[k], id, pod.name)
  {
    if Moves(trace[k], id, pod.name) {
      MovedIsTaken(start, id, pod.cpuMillis, pod.criticality, trace, k);
    }
  }

  lemma ShowsNewCore(mckubes: map<string, McKube>, p: Preemption, rest: seq<Preemption>, key: string)
    requires key in mckubes && p.outcome.Migrated? && p.outcome.published == Some(key) && NoneFetched(rest)
    ensures Publish(mckubes, [p] + rest)[key].allocatedCore == FormatInt(p.outcome.core)
    ensures FormatInt(p.outcome.core) != ""
  {
    PublishConcat(mckubes, [p], rest);
    PublishNothing(Publish(mckubes, [p]), rest);
    assert [p][..0] == [];
  }

  lemma NotRegisteredThere(start: Cores, p: Preemption, pod: PodInfo)
    requires Permitted(start, p) && p.outcome.Migrated? && p.outcome.core in start && p.outcome.core != p.from
    requires p.victim.name == pod.name && p.victim.criticality != pod.criticality && pod.coreSet == [p.from]
    ensures !Registered(Register(ApplyPreemption(start, p), pod), [p.outcome.core], pod.name, pod.cpuMillis,
                        pod.criticality)
  {
    RegisteredAfter(ApplyPreemption(start, p), pod, [p.outcome.core]);
    assert ApplyPreemption(start, p)[p.outcome.core].pods[pod.name] == p.victim;
    assert !Matches(ApplyPreemption(start, p), [p.outcome.core][0], pod.name, pod.cpuMillis, pod.criticality);
    assert p.outcome.core !in pod.coreSet;
  }

  lemma MovesItself(start: Cores, id: CoreId, pod: PodInfo, key: string) returns (p: Preemption, rest: seq<Preemption>)
    requires KeyedByName(start) && NonNegative(start) && pod.coreSet == [id] && MayMoveItself(start, id, pod)
    ensures p.victim.name == pod.name && p.outcome.Migrated? && p.outcome.published == Some(key) && NoneFetched(rest)
    ensures p.outcome.core in start
    ensures PreemptsOnCore(start, id, pod.cpuMillis, pod.criticality, [p] + rest)
    ensures !Registered(start, [id], pod.name, pod.cpuMillis, pod.criticality)
    ensures !Registered(Register(Replay(start, [p] + rest), pod), [p.outcome.core], pod.name, pod.cpuMillis,
                        pod.criticality)
  {
    var victim := PodsOn(start, id)[pod.name];
    var to :| CanTake(start, id, victim, to);
    assert !Matches(start, [id][0], pod.name, pod.cpuMillis, pod.criticality);
    var lowest;
    lowest, rest := MoveFirst(start, id, pod.cpuMillis, pod.criticality, victim, to, Some(key));
    p := Preemption(victim, id, Migrated(lowest, Some(key)));
    NotRegisteredThere(start, p, pod);
  }

  lemma MovingTraces(s: System, key: string, inp: Inputs, id: CoreId, p: Preemption, rest: seq<Preemption>)
    requires Places(s, key, inp) && OnOneCore(s, key, inp, id) && !AlreadyRegistered(s, key, inp)
    requires p.victim.name == s.mckubes[key].podName && NoneFetched(rest)
    requires p.outcome.Migrated? && p.outcome.published == Some(key)
    requires PreemptsOnCore(PlacedPool(s, inp), id, PlacedPod(s, key, inp).cpuMillis,
                            PlacedPod(s, key, inp).criticality, [p] + rest)
    ensures Flatten([[p] + rest]) == [p] + rest && PlacementTraces(s, key, inp, [[p] + rest])
  {
    OneTargetCheck(PlacedPool(s, inp), id, PlacedPod(s, key, inp).cpuMillis, PlacedPod(s, key, inp).criticality,
                   [p] + rest);
    forall q | q in [p] + rest
      ensures PublishesTo(s.mckubes, q)
    {
      if q != p { assert q in rest; }
    }
  }

  /** A pod that may move itself can end on another core, which its McKube then shows. */
  lemma MovesAndUnsettles(s: System, key: string, inp: Inputs, id: CoreId) returns (traces: seq<seq<Preemption>>)
    requires Places(s, key, inp) && OnOneCore(s, key, inp, id)
    requires KeyedByName(PlacedPool(s, inp)) && NonNegative(PlacedPool(s, inp))
    requires MayMoveItself(PlacedPool(s, inp), id, PlacedPod(s, key, inp))
    requires forall other | other in PlacedPool(s, inp) :: 0 <= other
    ensures ReconcileTraces(s, key, inp, traces) && !Settled(Reconcile(s, key, inp, traces).0, key, inp)
  {
    var start, pod := PlacedPool(s, inp), PlacedPod(s, key, inp);
    var p, rest := MovesItself(start, id, pod, key);
    traces := [[p] + rest];
    MovingTraces(s, key, inp, id, p, rest);
    UnsettledAfter(s, key, inp, traces, p, rest);
  }

  lemma UnsettledAfter(s: System, key: string, inp: Inputs, traces: seq<seq<Preemption>>, p: Preemption,
                       rest: seq<Preemption>)
    requires Places(s, key, inp) && PlacementTraces(s, key, inp, traces) && !AlreadyRegistered(s, key, inp)
    requires Flatten(traces) == [p] + rest && NoneFetched(rest)
    requires p.outcome.Migrated? && p.outcome.published == Some(key) && 0 <= p.outcome.core
    requires var pod := PlacedPod(s, key, inp);
             !Registered(Register(Replay(PlacedPool(s, inp), Flatten(traces)), pod), [p.outcome.core], pod.name,
                         pod.cpuMillis, pod.criticality)
    ensures !Settled(Reconcile(s, key, inp, traces).0, key, inp)
  {
    PlaceResult(s, key, inp, traces);
    ShowsNewCore(Shown(s, key, inp), p, rest, key);
    AllocatedCoreReadsBack(p.outcome.core);
    PlaceKeepsObjects(s, key, inp, traces);
    var after := Place(s, key, inp, traces);
    assert after.mckubes[key].allocatedCore == FormatInt(p.outcome.core);
    assert ActualCore(after.mckubes[key]) == FormatInt(p.outcome.core);
    assert PlacedPod(after, key, inp) == PlacedPod(s, key, inp);
  }

  lemma AnyOutcome(s: System, key: string, inp: Inputs) returns (traces: seq<seq<Preemption>>)
    requires Places(s, key, inp) && KeyedByName(PlacedPool(s, inp))
    ensures ReconcileTraces(s, key, inp, traces)
  {
    var pod := PlacedPod(s, key, inp);
    if AlreadyRegistered(s, key, inp) {
      traces := [];
    } else {
      traces := CheckWithoutFetch(PlacedPool(s, inp), CoreSet(ActualCore(s.mckubes[key])), pod.cpuMillis,
                                  pod.criticality);
    }
  }

  /** A core that the pool does not have is never settled on. */
  lemma MissingCoreUnsettles(s: System, key: string, inp: Inputs, id: CoreId)
    requires Places(s, key, inp) && OnOneCore(s, key, inp, id)
    requires KeyedByName(PlacedPool(s, inp)) && id !in PlacedPool(s, inp)
    ensures !SettlesForSure(s, key, inp)
  {
    assert !LowerOn(PlacedPool(s, inp), id, s.mckubes[key].criticality, s.mckubes[key].podName);
    assert CoreSet(ActualCore(s.mckubes[key]))[0] == id;
    var traces := AnyOutcome(s, key, inp);
    SettlesExactly(s, key, inp, traces);
  }

  lemma CoresOfPlacedPool(s: System, inp: Inputs, id: CoreId)
    requires NodeShaped(s.pools) && inp.pod.Found? && id in PlacedPool(s, inp)
    ensures 0 <= id
  {
    assert id in PlacedPool(s, inp).Keys;
    assert PlacedPool(s, inp).Keys == FreshCores(NODE_CORES).Keys;
  }

  /** For a pod with one core, requested and in force: a reconciliation settles its registration under
      every outcome if and only if the core exists, and not at once it would be overloaded, it records
      the pod with a lower criticality, and another core can take that entry. */
  lemma OneCoreSettlesExactly(s: System, key: string, inp: Inputs, id: CoreId)
    requires Places(s, key, inp) && OnOneCore(s, key, inp, id)
    requires DemandsInRange(s.pools) && NodeShaped(s.pools) && InRange(PlacedPool(s, inp))
    ensures SettlesForSure(s, key, inp) <==>
            id in PlacedPool(s, inp) && !MayMoveItself(PlacedPool(s, inp), id, PlacedPod(s, key, inp))
  {
    PlacedPoolIsSound(s, inp);
    forall other | other in PlacedPool(s, inp)
      ensures 0 <= other
    {
      CoresOfPlacedPool(s, inp, other);
    }
    if id !in PlacedPool(s, inp) {
      MissingCoreUnsettles(s, key, inp, id);
    } else if MayMoveItself(PlacedPool(s, inp), id, PlacedPod(s, key, inp)) {
      var traces := MovesAndUnsettles(s, key, inp, id);
    } else {
      forall traces | ReconcileTraces(s, key, inp, traces)
        ensures Settled(Reconcile(s, key, inp, traces).0, key, inp)
      {
        StaysAndSettles(s, key, inp, traces, id);
      }
    }
  }
}
