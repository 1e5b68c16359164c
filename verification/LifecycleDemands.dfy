/** What the validator's bound gives over whole runs: every recorded demand is between 1 and 950
    millicores, so that every reconciliation of a run keeps usage bounded. Also when a
    registration settles. */
module LifecycleDemands {
  import opened Wrappers
  import opened Demand
  import opened CpuPool
  import opened CoreSets
  import opened PreemptionTraces
  import opened Registration
  import opened Lifecycle

  predicate AcceptedObject(obj: McKube) {
    obj.settings.Some? ==> ValidateSettings(obj.settings.value) == None
  }

  ghost predicate AcceptedObjects(mckubes: map<string, McKube>) {
    forall key | key in mckubes :: AcceptedObject(mckubes[key])
  }

  /** The settings an event brings in are accepted by the validator. */
  predicate AcceptedEvent(e: Event) {
    match e
    case Create(_, obj) => AcceptedObject(obj)
    case Edit(_, spec) => AcceptedObject(spec)
    case _ => true
  }

  predicate InRangeEntry(name: string, entry: PodInfo) {
    entry.name == name && 1 <= entry.cpuMillis <= 950
  }

  ghost predicate DemandsInRange(pools: map<string, Cores>) {
    forall node, id, name | node in pools && Holds(pools[node], id, name) ::
      InRangeEntry(name, pools[node][id].pods[name])
  }

  /** The pool of the node after a placement. */
  lemma PlaceResult(s: System, key: string, inp: Inputs, traces: seq<seq<Preemption>>)
    requires Places(s, key, inp)
    ensures Reconcile(s, key, inp, traces).0 == Place(s, key, inp, traces)
    ensures inp.pod.nodeName in Place(s, key, inp, traces).pools
    ensures Place(s, key, inp, traces).pools
            == s.pools[inp.pod.nodeName := PlacedPool(Place(s, key, inp, traces), inp)]
    ensures PlacedPool(Place(s, key, inp, traces), inp)
            == if AlreadyRegistered(s, key, inp) then PlacedPool(s, inp)
               else Register(Replay(PlacedPool(s, inp), Flatten(traces)), PlacedPod(s, key, inp))
  {
  }

  /** An event that places no pod forgets one pod in every pool, or leaves the pools alone. */
  lemma OtherEventPools(s: System, e: Event) returns (forgotten: Option<string>)
    requires Enabled(s, e) && !(e.Reconciled? && Places(s, e.key, e.inp))
    ensures Step(s, e).pools == if forgotten.Some? then CleanupPools(s.pools, forgotten.value) else s.pools
  {
    forgotten :=
      if e.PodDeleted? then Some(e.podName)
      else if e.Reconciled? && Step(s, e).pools != s.pools then Some(s.mckubes[e.key].podName) else None;
  }

  lemma PlaceKeepsDemands(s: System, key: string, inp: Inputs, traces: seq<seq<Preemption>>)
    requires AcceptedObjects(s.mckubes) && DemandsInRange(s.pools)
    requires Placeable(s, key, inp) && PlacementTraces(s, key, inp, traces)
    ensures DemandsInRange(Place(s, key, inp, traces).pools)
  {
    var after := Place(s, key, inp, traces).pools;
    var rt := s.mckubes[key];
    assert AcceptedObject(rt);
    AcceptedDemandIsBounded(rt.settings.value, RuntimeOf(EnsureRuntime(s.runtimeState, rt.podName), rt.podName));
    forall node, id, name | node in after && Holds(after[node], id, name)
      ensures InRangeEntry(name, after[node][id].pods[name])
    {
      PlaceInventsNoEntry(s, key, inp, traces, node, id, name);
    }
  }

  lemma CleanupKeepsDemands(pools: map<string, Cores>, podName: string)
    requires DemandsInRange(pools)
    ensures DemandsInRange(CleanupPools(pools, podName))
  {
  }

  lemma StepKeepsDemands(s: System, e: Event)
    requires AcceptedObjects(s.mckubes) && DemandsInRange(s.pools)
    requires Enabled(s, e) && AcceptedEvent(e)
    ensures DemandsInRange(Step(s, e).pools)
  {
    if e.Reconciled? && Places(s, e.key, e.inp) {
      PlaceKeepsDemands(s, e.key, e.inp, e.traces);
    } else {
      var forgotten := OtherEventPools(s, e);
      if forgotten.Some? {
        CleanupKeepsDemands(s.pools, forgotten.value);
      }
    }
  }

  lemma StepKeepsAccepted(s: System, e: Event)
    requires AcceptedObjects(s.mckubes) && Enabled(s, e) && AcceptedEvent(e)
    ensures AcceptedObjects(Step(s, e).mckubes)
  {
    if e.Reconciled? && Places(s, e.key, e.inp) {
      PlaceKeepsObjects(s, e.key, e.inp, e.traces);
    }
  }

  lemma {:induction false} RunKeepsDemands(events: seq<Event>)
    requires IsRun(events) && forall e | e in events :: AcceptedEvent(e)
    ensures AcceptedObjects(After(events).mckubes) && DemandsInRange(After(events).pools)
  {
    if events != [] {
      var before, e := events[..|events| - 1], events[|events| - 1];
      RunKeepsDemands(before);
      StepKeepsDemands(After(before), e);
      StepKeepsAccepted(After(before), e);
    }
  }

  lemma RegisterRaisesByDemand(cores: Cores, pod: PodInfo, id: CoreId)
    requires NonNegative(cores) && id in cores && 0 <= pod.cpuMillis
    ensures id in Register(cores, pod)
    ensures Register(cores, pod)[id].usage
            <= cores[id].usage + if id in pod.coreSet then pod.cpuMillis else 0
  {
    ReinstallMeaning(cores, pod.coreSet, pod);
  }

  /** In every run of accepted settings, a reconciliation that places a pod leaves each core of
      its node at most at the larger of its usage before and the threshold, plus the pod's own
      demand on the requested cores. The threshold itself is not a bound: the pod is added
      whether or not preemption made room. */
  lemma ReconciledUsageIsBounded(events: seq<Event>, key: string, inp: Inputs, traces: seq<seq<Preemption>>, id: CoreId)
    requires IsRun(events) && forall e | e in events :: AcceptedEvent(e)
    requires Enabled(After(events), Reconciled(key, inp, traces)) && Places(After(events), key, inp)
    requires id in PlacedPool(After(events), inp)
    ensures var s := After(events);
            var after := Step(s, Reconciled(key, inp, traces)).pools;
            var pod := PlacedPod(s, key, inp);
            && inp.pod.nodeName in after && id in after[inp.pod.nodeName]
            && after[inp.pod.nodeName][id].usage
               <= Max(PlacedPool(s, inp)[id].usage, THRESHOLD_MILLIS) + if id in pod.coreSet then pod.cpuMillis else 0
  {
    var s := After(events);
    RunKeepsDemands(events);
    var start, pod, rt := PlacedPool(s, inp), PlacedPod(s, key, inp), s.mckubes[key];
    assert AcceptedObject(rt);
    AcceptedDemandIsBounded(rt.settings.value, RuntimeOf(EnsureRuntime(s.runtimeState, rt.podName), rt.podName));
    PlacedPoolIsSound(s, inp);
    if !AlreadyRegistered(s, key, inp) {
      CheckBoundsAndConserves(start, CoreSet(ActualCore(rt)), pod.cpuMillis, pod.criticality, traces);
      RegisterRaisesByDemand(Replay(start, Flatten(traces)), pod, id);
    }
  }

  lemma PlacedPoolIsSound(s: System, inp: Inputs)
    requires DemandsInRange(s.pools) && inp.pod.Found?
    ensures KeyedByName(PlacedPool(s, inp)) && NonNegative(PlacedPool(s, inp))
  {
  }

  // ----- when a registration settles -----

  /** The next reconciliation with the same inputs finds the pod registered. */
  predicate Settled(s: System, key: string, inp: Inputs) {
    Places(s, key, inp) && AlreadyRegistered(s, key, inp)
  }

  /** A settled reconciliation preempts nobody and leaves every pool as it is; a node without one
      gets its fresh pool. */
  lemma SettledStaysPut(s: System, key: string, inp: Inputs, traces: seq<seq<Preemption>>)
    requires Settled(s, key, inp) && ReconcileTraces(s, key, inp, traces)
    ensures traces == []
    ensures Reconcile(s, key, inp, traces).0.pools == EnsurePool(s.pools, inp.pod.nodeName)
  {
  }

  lemma {:induction false} PublishSkipsOthers(mckubes: map<string, McKube>, trace: seq<Preemption>, key: string)
    requires key in mckubes
    requires forall p | p in trace :: PublishesTo(mckubes, p) && p.victim.name != mckubes[key].podName
    ensures Publish(mckubes, trace)[key] == mckubes[key]
  {
    if trace != [] {
      var before := trace[..|trace| - 1];
      assert trace[|trace| - 1] in trace;
      PublishSkipsOthers(mckubes, before, key);
    }
  }

  /** Every core in force exists and is either requested, so that registering repairs it, or
      already records the pod as it is now. */
  predicate CanSettleOn(cores: Cores, inForce: seq<CoreId>, pod: PodInfo) {
    forall k | 0 <= k < |inForce| ::
      && inForce[k] in cores
      && (inForce[k] in pod.coreSet || Matches(cores, inForce[k], pod.name, pod.cpuMillis, pod.criticality))
  }

  predicate CanSettle(s: System, key: string, inp: Inputs)
    requires Placeable(s, key, inp)
  {
    CanSettleOn(PlacedPool(s, inp), CoreSet(ActualCore(s.mckubes[key])), PlacedPod(s, key, inp))
  }

  /** No core in force records the pod with a lower criticality than it has now. */
  predicate NotOwnVictim(s: System, key: string, inp: Inputs)
    requires Placeable(s, key, inp)
  {
    LowerOnNone(PlacedPool(s, inp), CoreSet(ActualCore(s.mckubes[key])), s.mckubes[key].criticality,
                s.mckubes[key].podName)
  }

  lemma PlaceKeepsPlan(s: System, key: string, inp: Inputs, traces: seq<seq<Preemption>>)
    requires Places(s, key, inp) && PlacementTraces(s, key, inp, traces) && NotOwnVictim(s, key, inp)
    ensures var after := Place(s, key, inp, traces);
            && Places(after, key, inp)
            && PlacedPod(after, key, inp) == PlacedPod(s, key, inp)
            && ActualCore(after.mckubes[key]) == ActualCore(s.mckubes[key])
  {
    PlaceKeepsObjects(s, key, inp, traces);
    var rt, pod := s.mckubes[key], PlacedPod(s, key, inp);
    if !AlreadyRegistered(s, key, inp) {
      var inForce := CoreSet(ActualCore(rt));
      CheckKeepsEntries(PlacedPool(s, inp), inForce, pod.cpuMillis, pod.criticality, traces, pod.name);
      PublishSkipsOthers(Shown(s, key, inp), Flatten(traces), key);
    }
  }

  /** A registration over a checked pool: which cores record the pod afterwards. */
  lemma MatchesAfterPlacement(start: Cores, targets: seq<CoreId>, pod: PodInfo, traces: seq<seq<Preemption>>,
                              id: CoreId)
    requires Preempts(start, targets, pod.cpuMillis, pod.criticality, traces)
    requires LowerOnNone(start, targets, pod.criticality, pod.name)
    ensures var end := Register(Replay(start, Flatten(traces)), pod);
            && end.Keys == start.Keys
            && (LowerOn(end, id, pod.criticality, pod.name) ==> LowerOn(start, id, pod.criticality, pod.name))
            && (Matches(end, id, pod.name, pod.cpuMillis, pod.criticality) <==>
                id in start && (id in pod.coreSet || Matches(start, id, pod.name, pod.cpuMillis, pod.criticality)))
  {
    CheckKeepsEntries(start, targets, pod.cpuMillis, pod.criticality, traces, pod.name);
    var checked := Replay(start, Flatten(traces));
    RegisteredAfter(checked, pod, [id]);
    ReinstallMeaning(checked, pod.coreSet, pod);
    var end := Register(checked, pod);
    assert Registered(end, [id], pod.name, pod.cpuMillis, pod.criticality)
           <==> Matches(end, [id][0], pod.name, pod.cpuMillis, pod.criticality);
  }

  lemma PoolSettlesExactly(start: Cores, inForce: seq<CoreId>, pod: PodInfo, traces: seq<seq<Preemption>>)
    requires Preempts(start, inForce, pod.cpuMillis, pod.criticality, traces)
    requires LowerOnNone(start, inForce, pod.criticality, pod.name)
    ensures var end := Register(Replay(start, Flatten(traces)), pod);
            && LowerOnNone(end, inForce, pod.criticality, pod.name)
            && (Registered(end, inForce, pod.name, pod.cpuMillis, pod.criticality)
                <==> CanSettleOn(start, inForce, pod))
            && (CanSettleOn(end, inForce, pod) <==> CanSettleOn(start, inForce, pod))
  {
    MatchesAfterPlacement(start, inForce, pod, traces, 0);
    forall k | 0 <= k < |inForce| {
      MatchesAfterPlacement(start, inForce, pod, traces, inForce[k]);
    }
  }

  /** Unless the pod could be its own victim, one reconciliation settles its registration exactly
      when the cores in force can settle; otherwise the next one starts from the same situation,
      so that repeating it never settles. When the cores in force are the requested ones, only
      their existence matters. */
  lemma SettlesExactly(s: System, key: string, inp: Inputs, traces: seq<seq<Preemption>>)
    requires Places(s, key, inp) && ReconcileTraces(s, key, inp, traces) && NotOwnVictim(s, key, inp)
    ensures var after := Reconcile(s, key, inp, traces).0;
            && Places(after, key, inp) && NotOwnVictim(after, key, inp)
            && inp.pod.nodeName in after.pools
            && (Settled(after, key, inp) <==> CanSettle(s, key, inp))
            && (CanSettle(after, key, inp) <==> CanSettle(s, key, inp))
  {
    PlaceKeepsPlan(s, key, inp, traces);
    PlaceResult(s, key, inp, traces);
    if !AlreadyRegistered(s, key, inp) {
      var pod := PlacedPod(s, key, inp);
      PoolSettlesExactly(PlacedPool(s, inp), CoreSet(ActualCore(s.mckubes[key])), pod, traces);
    }
  }

  /** The pod as its own victim included: a reconciliation settles the registration exactly when every
      core in force afterwards exists and is requested, or records the pod as it is now once the check
      is over. */
  lemma SettlesAsChecked(s: System, key: string, inp: Inputs, traces: seq<seq<Preemption>>)
    requires Places(s, key, inp) && ReconcileTraces(s, key, inp, traces) && !AlreadyRegistered(s, key, inp)
    ensures var after := Reconcile(s, key, inp, traces).0;
            && Places(after, key, inp)
            && (Settled(after, key, inp) <==>
                CanSettleOn(Replay(PlacedPool(s, inp), Flatten(traces)), CoreSet(ActualCore(after.mckubes[key])),
                            PlacedPod(s, key, inp)))
  {
    PlaceKeepsObjects(s, key, inp, traces);
    PlaceResult(s, key, inp, traces);
    RegisteredAfter(Replay(PlacedPool(s, inp), Flatten(traces)), PlacedPod(s, key, inp),
                    CoreSet(ActualCore(Place(s, key, inp, traces).mckubes[key])));
  }

  /** The state after repeating the reconciliation with the same inputs, one set of traces each. */
  function Repeat(s: System, key: string, inp: Inputs, rounds: seq<seq<seq<Preemption>>>): System {
    if rounds == [] then s
    else Reconcile(Repeat(s, key, inp, rounds[..|rounds| - 1]), key, inp, rounds[|rounds| - 1]).0
  }

  ghost predicate RepeatTraces(s: System, key: string, inp: Inputs, rounds: seq<seq<seq<Preemption>>>) {
    rounds != [] ==>
      var before := rounds[..|rounds| - 1];
      && RepeatTraces(s, key, inp, before)
      && ReconcileTraces(Repeat(s, key, inp, before), key, inp, rounds[|rounds| - 1])
  }

  /** However often a reconciliation is repeated, the registration is settled from the first time on
      or never. */
  lemma {:induction false} RepeatSettlesExactly(s: System, key: string, inp: Inputs,
                                                rounds: seq<seq<seq<Preemption>>>)
    requires Places(s, key, inp) && NotOwnVictim(s, key, inp) && RepeatTraces(s, key, inp, rounds)
    ensures var after := Repeat(s, key, inp, rounds);
            && Places(after, key, inp) && NotOwnVictim(after, key, inp)
            && (CanSettle(after, key, inp) <==> CanSettle(s, key, inp))
            && (rounds != [] ==> (Settled(after, key, inp) <==> CanSettle(s, key, inp)))
  {
    if rounds != [] {
      var before := rounds[..|rounds| - 1];
      RepeatSettlesExactly(s, key, inp, before);
      SettlesExactly(Repeat(s, key, inp, before), key, inp, rounds[|rounds| - 1]);
    }
  }

  /** When a pod was deleted and comes back under the same McKube, the registration can settle exactly
      when every core in force exists and is a requested one. The core a migration left in the status
      stays in force, so that a pod moved off its requested cores never settles again. */
  lemma RecreatedPodSettlesExactly(s: System, key: string, inp: Inputs)
    requires Places(s, key, inp)
    ensures var after := Step(s, PodDeleted(s.mckubes[key].podName));
            var inForce := CoreSet(ActualCore(s.mckubes[key]));
            && Places(after, key, inp) && NotOwnVictim(after, key, inp)
            && (CanSettle(after, key, inp) <==>
                forall k | 0 <= k < |inForce| ::
                  inForce[k] in PlacedPool(s, inp) && inForce[k] in PlacedPod(s, key, inp).coreSet)
  {
    var name := s.mckubes[key].podName;
    var after := Step(s, PodDeleted(name));
    var pool := PlacedPool(after, inp);
    assert pool.Keys == PlacedPool(s, inp).Keys;
    assert forall id | id in pool :: name !in pool[id].pods;
  }
}
