/** The life of McKube objects: created, given a finalizer, registered in a node's pool,
    preempted, marked deleted, cleaned up and gone. One event is one atomic step of the whole
    system; a run is a sequence of events from the empty system. */
module Lifecycle {
  import opened Wrappers
  import opened Demand
  import opened CpuPool
  import opened CoreSets
  import opened PreemptionTraces
  import opened Registration

  const FINALIZER: string := "mckube.mcoperator.sdv.com/finalizer"

  /** The number of cores every node is taken to have. */
  const NODE_CORES: nat := 8

  datatype McKube = McKube(
    podName: string,
    node: string,
    criticality: string,
    settings: Option<RTSettings>,
    allocatedCore: string,
    finalizers: seq<string>,
    deleting: bool)

  /** The McKube objects in the API server and the controller's own global state. */
  datatype System = System(
    mckubes: map<string, McKube>,
    pools: map<string, Cores>,
    runtimeState: map<string, string>)

  datatype Phase = Pending | Running | OtherPhase

  /** What the API server answers when asked for the pod a McKube names. */
  datatype PodLookup =
    | PodMissing
    | LookupFailed
    | Found(namespace: string, nodeName: string, phase: Phase)

  /** The API outcomes one reconciliation meets. */
  datatype Inputs = Inputs(getOk: bool, updateOk: bool, statusOk: bool, pod: PodLookup)

  datatype Result = Done | Failed | Requeue | RequeueAfter(seconds: nat)

  // ----- pieces of a reconciliation -----

  /** A successful update: an object marked deleted is gone once its last finalizer is. */
  function Save(mckubes: map<string, McKube>, key: string, obj: McKube): map<string, McKube> {
    if obj.deleting && obj.finalizers == [] then mckubes - {key} else mckubes[key := obj]
  }

  function RemoveString(list: seq<string>, s: string): (rest: seq<string>)
    ensures s !in rest
    ensures forall item | item != s :: item in rest <==> item in list
  {
    if list == [] then []
    else
      var before := RemoveString(list[..|list| - 1], s);
      if list[|list| - 1] != s then before + [list[|list| - 1]] else before
  }

  /** The remaining strings keep their order and multiplicity. */
  lemma {:induction false} RemoveStringConcat(a: seq<string>, b: seq<string>, s: string)
    ensures RemoveString(a + b, s) == RemoveString(a, s) + RemoveString(b, s)
    ensures b == [s] ==> RemoveString(a + b, s) == RemoveString(a, s)
    ensures |b| == 1 && b[0] != s ==> RemoveString(a + b, s) == RemoveString(a, s) + b
  {
    if b == [] {
      assert a + b == a;
    } else {
      assert (a + b)[..|a + b| - 1] == a + b[..|b| - 1];
      RemoveStringConcat(a, b[..|b| - 1], s);
    }
  }

  function CleanupPools(pools: map<string, Cores>, podName: string): map<string, Cores> {
    map node | node in pools :: Purge(pools[node], podName)
  }

  /** Forgets a pod: its runtime state and its entries in every pool. */
  function Cleanup(s: System, podName: string): System {
    s.(pools := CleanupPools(s.pools, podName), runtimeState := s.runtimeState - {podName})
  }

  function EnsurePool(pools: map<string, Cores>, node: string): map<string, Cores> {
    if node in pools then pools else pools[node := FreshCores(NODE_CORES)]
  }

  function EnsureRuntime(runtimeState: map<string, string>, podName: string): map<string, string> {
    if podName in runtimeState then runtimeState else runtimeState[podName := "low"]
  }

  /** A pod without a runtime state reads as the empty one. */
  function RuntimeOf(runtimeState: map<string, string>, podName: string): string {
    if podName in runtimeState then runtimeState[podName] else ""
  }

  /** The status updates that preemptions made: a migrated victim's McKube shows its new core. */
  function Publish(mckubes: map<string, McKube>, trace: seq<Preemption>): (published: map<string, McKube>)
    ensures published.Keys == mckubes.Keys
    ensures forall key | key in mckubes ::
              published[key] == mckubes[key].(allocatedCore := published[key].allocatedCore)
  {
    if trace == [] then mckubes
    else
      var before := Publish(mckubes, trace[..|trace| - 1]);
      var outcome := trace[|trace| - 1].outcome;
      if outcome.Migrated? && outcome.published.Some? && outcome.published.value in before then
        var key := outcome.published.value;
        before[key := before[key].(allocatedCore := FormatInt(outcome.core))]
      else before
  }

  lemma {:induction false} PublishConcat(mckubes: map<string, McKube>, a: seq<Preemption>, b: seq<Preemption>)
    ensures Publish(mckubes, a + b) == Publish(Publish(mckubes, a), b)
  {
    if b == [] {
      assert a + b == a;
    } else {
      assert (a + b)[..|a + b| - 1] == a + b[..|b| - 1];
      PublishConcat(mckubes, a, b[..|b| - 1]);
    }
  }

  /** A trace that publishes no core changes no McKube. */
  lemma {:induction false} PublishNothing(mckubes: map<string, McKube>, trace: seq<Preemption>)
    requires forall k | 0 <= k < |trace| :: trace[k].outcome.Migrated? ==> trace[k].outcome.published == None
    ensures Publish(mckubes, trace) == mckubes
  {
    if trace != [] {
      PublishNothing(mckubes, trace[..|trace| - 1]);
    }
  }

  /** The status published for a migrated victim reads back as the one core that now records it. */
  lemma PublishedCoreHoldsVictim(cores: Cores, mckubes: map<string, McKube>, p: Preemption, key: string)
    requires Permitted(cores, p) && PublishesTo(mckubes, p)
    requires p.outcome.Migrated? && p.outcome.published == Some(key) && 0 <= p.outcome.core
    ensures key in mckubes && mckubes[key].podName == p.victim.name
    ensures CoreSet(Publish(mckubes, [p])[key].allocatedCore) == [p.outcome.core]
    ensures Holds(ApplyPreemption(cores, p), p.outcome.core, p.victim.name)
    ensures ApplyPreemption(cores, p)[p.outcome.core].pods[p.victim.name] == p.victim
  {
    AllocatedCoreReadsBack(p.outcome.core);
    assert [p][..0] == [];
    assert Publish(mckubes, [p])[key].allocatedCore == FormatInt(p.outcome.core);
  }

  /** A migration is published on a McKube that names the victim and has settings. */
  predicate PublishesTo(mckubes: map<string, McKube>, p: Preemption) {
    p.outcome.Migrated? && p.outcome.published.Some? ==>
      var key := p.outcome.published.value;
      key in mckubes && mckubes[key].podName == p.victim.name && mckubes[key].settings.Some?
  }

  /** What the API server and the node answer during one preemption. */
  datatype Answers = Answers(getOk: bool, listOk: bool, updateOk: bool, hostKnown: bool, evictOk: bool)

  /** The McKube a search for the pod's name ends with: any that names it, none if there is none. */
  predicate Finds(mckubes: map<string, McKube>, podName: string, found: Option<string>) {
    match found
    case Some(key) => key in mckubes && mckubes[key].podName == podName
    case None => forall key | key in mckubes :: mckubes[key].podName != podName
  }

  lemma SomeFind(mckubes: map<string, McKube>, podName: string) returns (found: Option<string>)
    ensures Finds(mckubes, podName, found)
  {
    found := None;
    if key :| key in mckubes && mckubes[key].podName == podName {
      found := Some(key);
    }
  }

  /** The McKube found has settings, so that its status is to show the new core. */
  predicate HasSettings(mckubes: map<string, McKube>, found: Option<string>) {
    found.Some? && found.value in mckubes && mckubes[found.value].settings.Some?
  }

  /** The McKube whose status shows the new core, and whether the whole update succeeded. */
  ghost predicate AffinityUpdated(mckubes: map<string, McKube>, podName: string, a: Answers,
                                  published: Option<string>, ok: bool)
  {
    exists found: Option<string> | Finds(mckubes, podName, found) ::
      && published == (if a.listOk && HasSettings(mckubes, found) && a.updateOk then found else None)
      && (ok <==> a.listOk && (HasSettings(mckubes, found) ==> a.updateOk && a.hostKnown))
  }

  /** The preemption is what these answers lead to. */
  ghost predicate Answered(mckubes: map<string, McKube>, p: Preemption, a: Answers) {
    && (p.outcome.Unreachable? <==> !a.getOk)
    && (p.outcome.Migrated? ==>
          exists ok: bool :: AffinityUpdated(mckubes, p.victim.name, a, p.outcome.published, ok))
  }

  /** The answers in turn, from number `asked` on, lead to the preemptions of the trace. */
  ghost predicate AllAnswered(mckubes: map<string, McKube>, trace: seq<Preemption>, answers: nat -> Answers,
                              asked: nat)
  {
    forall k | 0 <= k < |trace| :: Answered(mckubes, trace[k], answers(asked + k))
  }

  /** Two sets of McKube objects that differ only in the cores their statuses show. */
  predicate SameButForCores(before: map<string, McKube>, after: map<string, McKube>) {
    && after.Keys == before.Keys
    && forall key | key in before :: after[key] == before[key].(allocatedCore := after[key].allocatedCore)
  }

  /** What a status shows does not matter for the answers. */
  lemma AnsweredAlike(before: map<string, McKube>, after: map<string, McKube>, p: Preemption, a: Answers)
    requires SameButForCores(before, after) && Answered(after, p, a)
    ensures Answered(before, p, a)
  {
    if p.outcome.Migrated? {
      var ok: bool :| AffinityUpdated(after, p.victim.name, a, p.outcome.published, ok);
      var found: Option<string> :| Finds(after, p.victim.name, found)
        && p.outcome.published == (if a.listOk && HasSettings(after, found) && a.updateOk then found else None)
        && (ok <==> a.listOk && (HasSettings(after, found) ==> a.updateOk && a.hostKnown));
      assert Finds(before, p.victim.name, found);
      assert HasSettings(before, found) == HasSettings(after, found);
      assert AffinityUpdated(before, p.victim.name, a, p.outcome.published, ok);
    }
  }

  lemma AllAnsweredAlike(before: map<string, McKube>, after: map<string, McKube>, trace: seq<Preemption>,
                         answers: nat -> Answers)
    requires SameButForCores(before, after) && AllAnswered(after, trace, answers, 0)
    ensures AllAnswered(before, trace, answers, 0)
  {
    forall k | 0 <= k < |trace|
      ensures Answered(before, trace[k], answers(k))
    {
      AnsweredAlike(before, after, trace[k], answers(0 + k));
    }
  }

  lemma AnsweredStable(mckubes: map<string, McKube>, trace: seq<Preemption>, p: Preemption, a: Answers)
    requires Answered(Publish(mckubes, trace), p, a)
    ensures Answered(mckubes, p, a)
  {
    AnsweredAlike(mckubes, Publish(mckubes, trace), p, a);
  }

  lemma AnsweredOneMore(mckubes: map<string, McKube>, trace: seq<Preemption>, p: Preemption,
                        answers: nat -> Answers, asked: nat)
    requires AllAnswered(mckubes, trace, answers, asked)
    requires Answered(Publish(mckubes, trace), p, answers(asked + |trace|))
    ensures AllAnswered(mckubes, trace + [p], answers, asked)
  {
    AnsweredStable(mckubes, trace, p, answers(asked + |trace|));
  }

  lemma AnsweredAppend(mckubes: map<string, McKube>, trace: seq<Preemption>, more: seq<Preemption>,
                       answers: nat -> Answers)
    requires AllAnswered(mckubes, trace, answers, 0)
    requires AllAnswered(Publish(mckubes, trace), more, answers, |trace|)
    ensures AllAnswered(mckubes, trace + more, answers, 0)
  {
    forall k | |trace| <= k < |trace + more|
      ensures Answered(mckubes, (trace + more)[k], answers(k))
    {
      assert Answered(Publish(mckubes, trace), more[k - |trace|], answers(|trace| + (k - |trace|)));
      AnsweredStable(mckubes, trace, more[k - |trace|], answers(k));
    }
  }

  /** The settings name the cores the pod wants. */
  predicate RequestsCores(rt: McKube) {
    rt.settings.Some? && rt.settings.value.core.Some?
  }

  /** The core-set string in force: the allocated one, or the requested one before any. */
  function ActualCore(rt: McKube): string
    requires RequestsCores(rt)
  {
    if rt.allocatedCore != "" then rt.allocatedCore else rt.settings.value.core.value
  }

  function PodInfoFor(rt: McKube, runtimeState: string, namespace: string): PodInfo
    requires RequestsCores(rt)
  {
    PodInfo(rt.podName, namespace, rt.criticality, SettingsDemand(rt.settings.value, runtimeState),
            CoreSet(rt.settings.value.core.value))
  }

  /** The McKube that a reconciliation places: settings with a core, and a scheduled pod. */
  predicate Placeable(s: System, key: string, inp: Inputs) {
    && key in s.mckubes
    && RequestsCores(s.mckubes[key])
    && inp.pod.Found?
  }

  function PlacedPod(s: System, key: string, inp: Inputs): PodInfo
    requires Placeable(s, key, inp)
  {
    var rt := s.mckubes[key];
    PodInfoFor(rt, RuntimeOf(EnsureRuntime(s.runtimeState, rt.podName), rt.podName), inp.pod.namespace)
  }

  function PlacedPool(s: System, inp: Inputs): Cores
    requires inp.pod.Found?
  {
    EnsurePool(s.pools, inp.pod.nodeName)[inp.pod.nodeName]
  }

  predicate AlreadyRegistered(s: System, key: string, inp: Inputs)
    requires Placeable(s, key, inp)
  {
    var pod := PlacedPod(s, key, inp);
    Registered(PlacedPool(s, inp), CoreSet(ActualCore(s.mckubes[key])), pod.name, pod.cpuMillis, pod.criticality)
  }

  /** The traces a placement can have: none when the pod is already registered, otherwise those
      of a preemption check on the cores in force. */
  ghost predicate PlacementTraces(s: System, key: string, inp: Inputs, traces: seq<seq<Preemption>>)
    requires Placeable(s, key, inp)
  {
    var pod := PlacedPod(s, key, inp);
    if AlreadyRegistered(s, key, inp) then traces == []
    else
      && Preempts(PlacedPool(s, inp), CoreSet(ActualCore(s.mckubes[key])), pod.cpuMillis, pod.criticality, traces)
      && forall p | p in Flatten(traces) :: PublishesTo(s.mckubes, p)
  }

  /** The McKube objects once the first core in force is shown in the status. */
  function Shown(s: System, key: string, inp: Inputs): map<string, McKube>
    requires Placeable(s, key, inp)
  {
    var rt := s.mckubes[key];
    if rt.allocatedCore == "" && inp.statusOk
    then s.mckubes[key := rt.(allocatedCore := ActualCore(rt))] else s.mckubes
  }

  /** Checks preemption on the cores in force and registers the pod on the requested cores. */
  function Place(s: System, key: string, inp: Inputs, traces: seq<seq<Preemption>>): System
    requires Placeable(s, key, inp)
  {
    var start, shown, node := PlacedPool(s, inp), Shown(s, key, inp), inp.pod.nodeName;
    var runtimeState := EnsureRuntime(s.runtimeState, s.mckubes[key].podName);
    if AlreadyRegistered(s, key, inp) then System(shown, s.pools[node := start], runtimeState)
    else
      var checked := Replay(start, Flatten(traces));
      System(Publish(shown, Flatten(traces)), s.pools[node := Register(checked, PlacedPod(s, key, inp))], runtimeState)
  }

  /** Showing a core in a status changes neither what may be published nor what the answers mean. */
  lemma ShownPublishesSame(s: System, key: string, inp: Inputs, trace: seq<Preemption>, answers: nat -> Answers)
    requires Placeable(s, key, inp)
    ensures (forall p | p in trace :: PublishesTo(Shown(s, key, inp), p)) <==>
            (forall p | p in trace :: PublishesTo(s.mckubes, p))
    ensures AllAnswered(Shown(s, key, inp), trace, answers, 0) ==> AllAnswered(s.mckubes, trace, answers, 0)
  {
    if AllAnswered(Shown(s, key, inp), trace, answers, 0) {
      AllAnsweredAlike(s.mckubes, Shown(s, key, inp), trace, answers);
    }
  }

  predicate OnNode(pod: PodLookup) {
    pod.Found? && pod.nodeName != "" && (pod.phase.Pending? || pod.phase.Running?)
  }

  /** One reconciliation reaches the placement of its pod. */
  predicate Places(s: System, key: string, inp: Inputs) {
    && inp.getOk && Placeable(s, key, inp) && OnNode(inp.pod)
    && var rt := s.mckubes[key];
       !rt.deleting && FINALIZER in rt.finalizers && rt.podName != "" && rt.node != ""
  }

  /** One reconciliation, up to the handling of node pressure. */
  function Reconcile(s: System, key: string, inp: Inputs, traces: seq<seq<Preemption>>): (System, Result) {
    if !inp.getOk then (s, Failed)
    else if key !in s.mckubes then (s, Done)
    else
      var rt := s.mckubes[key];
      if rt.deleting then
        if FINALIZER in rt.finalizers then
          var cleaned := if rt.podName != "" then Cleanup(s, rt.podName) else s;
          if inp.updateOk then
            var released := rt.(finalizers := RemoveString(rt.finalizers, FINALIZER));
            (cleaned.(mckubes := Save(s.mckubes, key, released)), Done)
          else (cleaned, Failed)
        else (s, Done)
      else if FINALIZER !in rt.finalizers then
        if inp.updateOk then
          (s.(mckubes := Save(s.mckubes, key, rt.(finalizers := rt.finalizers + [FINALIZER]))), Requeue)
        else (s, Failed)
      else if rt.podName == "" then (s, Done)
      else if rt.node == "" then
        match inp.pod
        case PodMissing => (s, RequeueAfter(5))
        case LookupFailed => (s, Failed)
        case Found(_, nodeName, _) =>
          if !OnNode(inp.pod) then (s, RequeueAfter(5))
          else if inp.updateOk then (s.(mckubes := Save(s.mckubes, key, rt.(node := nodeName))), RequeueAfter(1))
          else (s, Failed)
      else if rt.settings.Some? && OnNode(inp.pod) then
        if rt.settings.value.core.Some? then (Place(s, key, inp, traces), Done)
        else (s.(runtimeState := EnsureRuntime(s.runtimeState, rt.podName)), Done)
      else (s, Done)
  }

  ghost predicate ReconcileTraces(s: System, key: string, inp: Inputs, traces: seq<seq<Preemption>>) {
    if Places(s, key, inp) then PlacementTraces(s, key, inp, traces) else traces == []
  }

  // ----- the system as a whole -----

  datatype Event =
    | Create(key: string, obj: McKube)
    | Edit(key: string, spec: McKube)                         // a user rewrites the spec part
    | MarkDeleted(key: string)
    | DropFinalizer(key: string, finalizer: string)           // by another controller
    | Reconciled(key: string, inp: Inputs, traces: seq<seq<Preemption>>)
    | PodDeleted(podName: string)
    | RuntimeChanged(podName: string, runtimeState: string)   // an overrun or a recovery

  /** The fields of a McKube that belong to its spec, replaced by those of `spec`. */
  function WithSpec(obj: McKube, spec: McKube): McKube {
    obj.(podName := spec.podName, node := spec.node, criticality := spec.criticality, settings := spec.settings)
  }

  /** What the API server allows; only the controller touches its own finalizer. */
  ghost predicate Enabled(s: System, e: Event) {
    match e
    case Create(key, obj) => key !in s.mckubes && !obj.deleting
    case Edit(key, _) => key in s.mckubes
    case MarkDeleted(key) => key in s.mckubes
    case DropFinalizer(key, finalizer) => key in s.mckubes && finalizer != FINALIZER
    case Reconciled(key, inp, traces) => ReconcileTraces(s, key, inp, traces)
    case PodDeleted(_) => true
    case RuntimeChanged(_, _) => true
  }

  function Step(s: System, e: Event): System {
    match e
    case Create(key, obj) => s.(mckubes := s.mckubes[key := obj])
    case Edit(key, spec) =>
      if key in s.mckubes then s.(mckubes := s.mckubes[key := WithSpec(s.mckubes[key], spec)]) else s
    case MarkDeleted(key) =>
      if key in s.mckubes then s.(mckubes := Save(s.mckubes, key, s.mckubes[key].(deleting := true))) else s
    case DropFinalizer(key, finalizer) =>
      if key in s.mckubes then
        var obj := s.mckubes[key];
        s.(mckubes := Save(s.mckubes, key, obj.(finalizers := RemoveString(obj.finalizers, finalizer))))
      else s
    case Reconciled(key, inp, traces) => Reconcile(s, key, inp, traces).0
    case PodDeleted(podName) => Cleanup(s, podName)
    case RuntimeChanged(podName, state) => s.(runtimeState := s.runtimeState[podName := state])
  }

  const EMPTY: System := System(map[], map[], map[])

  function After(events: seq<Event>): System {
    if events == [] then EMPTY else Step(After(events[..|events| - 1]), events[|events| - 1])
  }

  ghost predicate IsRun(events: seq<Event>) {
    events != [] ==> IsRun(events[..|events| - 1]) && Enabled(After(events[..|events| - 1]), events[|events| - 1])
  }

  // ----- nothing leaks -----

  ghost predicate InSomePool(pools: map<string, Cores>, podName: string) {
    exists node, id :: node in pools && Holds(pools[node], id, podName)
  }

  /** A McKube that still has to be cleaned up names the pod. */
  ghost predicate Owned(mckubes: map<string, McKube>, podName: string) {
    exists key :: Owns(mckubes, key, podName)
  }

  predicate Owns(mckubes: map<string, McKube>, key: string, podName: string) {
    podName != "" && key in mckubes && mckubes[key].podName == podName && FINALIZER in mckubes[key].finalizers
  }

  /** Every pod with an entry in a pool is named by an existing McKube that carries the finalizer. */
  ghost predicate NoLeak(s: System) {
    forall podName :: InSomePool(s.pools, podName) ==> Owned(s.mckubes, podName)
  }

  /** An edit that does not abandon a registered pod: the object has no finalizer, keeps its pod
      name, or the pod it names has no entry or is named by another object with a finalizer. */
  ghost predicate SafeEdit(s: System, key: string, spec: McKube)
    requires key in s.mckubes
  {
    var obj := s.mckubes[key];
    || FINALIZER !in obj.finalizers
    || spec.podName == obj.podName
    || !InSomePool(s.pools, obj.podName)
    || exists other :: other != key && Owns(s.mckubes, other, obj.podName)
  }

  lemma EditLeaksUnlessSafe(s: System, key: string, spec: McKube)
    requires NoLeak(s) && key in s.mckubes
    ensures NoLeak(Step(s, Edit(key, spec))) <==> SafeEdit(s, key, spec)
  {
    var after := Step(s, Edit(key, spec));
    var obj := s.mckubes[key];
    if SafeEdit(s, key, spec) {
      forall podName | InSomePool(s.pools, podName)
        ensures Owned(after.mckubes, podName)
      {
        var owner :| Owns(s.mckubes, owner, podName);
        if owner != key || spec.podName == obj.podName {
          assert Owns(after.mckubes, owner, podName);
        } else {
          var other :| other != key && Owns(s.mckubes, other, obj.podName);
          assert Owns(after.mckubes, other, podName);
        }
      }
    } else {
      assert InSomePool(after.pools, obj.podName);
      if Owned(after.mckubes, obj.podName) {
        var owner :| Owns(after.mckubes, owner, obj.podName);
        assert Owns(s.mckubes, owner, obj.podName);
      }
    }
  }

  /** Owners survive a change that keeps the pod name and finalizer of every object. */
  lemma OwnersKept(s: System, after: System)
    requires NoLeak(s)
    requires forall podName | InSomePool(after.pools, podName) :: InSomePool(s.pools, podName)
    requires forall key, podName | Owns(s.mckubes, key, podName) :: Owns(after.mckubes, key, podName)
    ensures NoLeak(after)
  {
  }

  lemma CleanupForgets(pools: map<string, Cores>, podName: string, other: string)
    ensures InSomePool(CleanupPools(pools, podName), other) ==> other != podName && InSomePool(pools, other)
  {
    var cleaned := CleanupPools(pools, podName);
    if InSomePool(cleaned, other) {
      var node, id :| node in cleaned && Holds(cleaned[node], id, other);
      assert Holds(pools[node], id, other);
    }
  }

  /** Every entry of the pool after a placement is the placed pod's or was in the pool before. */
  lemma PlacementInventsNoEntry(start: Cores, targets: seq<CoreId>, pod: PodInfo, traces: seq<seq<Preemption>>,
                                id: CoreId, name: string)
    requires Preempts(start, targets, pod.cpuMillis, pod.criticality, traces)
    requires Holds(Register(Replay(start, Flatten(traces)), pod), id, name)
    ensures var entry := Register(Replay(start, Flatten(traces)), pod)[id].pods[name];
            || (name == pod.name && entry == pod)
            || exists from :: Holds(start, from, name) && start[from].pods[name] == entry
  {
    var checked := Replay(start, Flatten(traces));
    ReinstallMeaning(checked, pod.coreSet, pod);
    assert id in checked;
    if name != pod.name {
      RegisterFrame(checked, pod, id, name);
    }
    if Holds(checked, id, name) && checked[id].pods[name] == Register(checked, pod)[id].pods[name] {
      CheckIsPermitted(start, targets, pod.cpuMillis, pod.criticality, traces);
      ReplayInventsNoEntry(start, Flatten(traces), id, name);
    }
  }

  /** Every pool entry after a placement is the placed pod's or was in the same node's pool before. */
  lemma PlaceInventsNoEntry(s: System, key: string, inp: Inputs, traces: seq<seq<Preemption>>,
                            node: string, id: CoreId, name: string)
    requires Placeable(s, key, inp) && PlacementTraces(s, key, inp, traces)
    requires var pools := Place(s, key, inp, traces).pools; node in pools && Holds(pools[node], id, name)
    ensures var entry := Place(s, key, inp, traces).pools[node][id].pods[name];
            || (name == s.mckubes[key].podName && entry == PlacedPod(s, key, inp))
            || (&& node in s.pools
                && exists from :: Holds(s.pools[node], from, name) && s.pools[node][from].pods[name] == entry)
  {
    var start, pod := PlacedPool(s, inp), PlacedPod(s, key, inp);
    var entry := Place(s, key, inp, traces).pools[node][id].pods[name];
    if node == inp.pod.nodeName && !AlreadyRegistered(s, key, inp) {
      PlacementInventsNoEntry(start, CoreSet(ActualCore(s.mckubes[key])), pod, traces, id, name);
      if !(name == pod.name && entry == pod) {
        var from :| Holds(start, from, name) && start[from].pods[name] == entry;
        assert node in s.pools;
      }
    } else {
      assert node in s.pools && Holds(s.pools[node], id, name);
    }
  }

  /** A placement changes no McKube but for the core shown in its status. */
  lemma PlaceKeepsObjects(s: System, key: string, inp: Inputs, traces: seq<seq<Preemption>>)
    requires Placeable(s, key, inp)
    ensures var after := Place(s, key, inp, traces).mckubes;
            && after.Keys == s.mckubes.Keys
            && forall k | k in after :: after[k] == s.mckubes[k].(allocatedCore := after[k].allocatedCore)
  {
  }

  lemma PlaceKeepsNoLeak(s: System, key: string, inp: Inputs, traces: seq<seq<Preemption>>)
    requires NoLeak(s) && Places(s, key, inp) && PlacementTraces(s, key, inp, traces)
    ensures NoLeak(Place(s, key, inp, traces))
  {
    var after := Place(s, key, inp, traces);
    PlaceKeepsObjects(s, key, inp, traces);
    forall podName | InSomePool(after.pools, podName)
      ensures Owned(after.mckubes, podName)
    {
      var node, id :| node in after.pools && Holds(after.pools[node], id, podName);
      PlaceInventsNoEntry(s, key, inp, traces, node, id, podName);
      if podName == s.mckubes[key].podName {
        assert Owns(after.mckubes, key, podName);
      } else {
        assert InSomePool(s.pools, podName);
        var owner :| Owns(s.mckubes, owner, podName);
        assert Owns(after.mckubes, owner, podName);
      }
    }
  }

  lemma CleanupKeepsNoLeak(s: System, key: string, updateOk: bool)
    requires NoLeak(s) && key in s.mckubes
    ensures var released := s.mckubes[key].(finalizers := RemoveString(s.mckubes[key].finalizers, FINALIZER));
            var cleaned := if released.podName != "" then Cleanup(s, released.podName) else s;
            NoLeak(cleaned) && NoLeak(cleaned.(mckubes := Save(s.mckubes, key, released)))
  {
    var podName := s.mckubes[key].podName;
    var released := s.mckubes[key].(finalizers := RemoveString(s.mckubes[key].finalizers, FINALIZER));
    var cleaned := if podName != "" then Cleanup(s, podName) else s;
    forall other | InSomePool(cleaned.pools, other)
      ensures Owned(s.mckubes, other) && Owned(Save(s.mckubes, key, released), other)
    {
      CleanupForgets(s.pools, podName, other);
      var owner :| Owns(s.mckubes, owner, other);
      assert Owns(Save(s.mckubes, key, released), owner, other);
    }
  }

  lemma ReconcileKeepsNoLeak(s: System, key: string, inp: Inputs, traces: seq<seq<Preemption>>)
    requires NoLeak(s) && ReconcileTraces(s, key, inp, traces)
    ensures NoLeak(Reconcile(s, key, inp, traces).0)
  {
    var after := Reconcile(s, key, inp, traces).0;
    if Places(s, key, inp) {
      PlaceKeepsNoLeak(s, key, inp, traces);
    } else if inp.getOk && key in s.mckubes && s.mckubes[key].deleting && FINALIZER in s.mckubes[key].finalizers {
      CleanupKeepsNoLeak(s, key, inp.updateOk);
    } else {
      assert after.pools == s.pools;
      OwnersKept(s, after);
    }
  }

  lemma StepKeepsNoLeak(s: System, e: Event)
    requires NoLeak(s) && Enabled(s, e) && (e.Edit? ==> SafeEdit(s, e.key, e.spec))
    ensures NoLeak(Step(s, e))
  {
    match e
    case Edit(key, spec) => EditLeaksUnlessSafe(s, key, spec);
    case Reconciled(key, inp, traces) => ReconcileKeepsNoLeak(s, key, inp, traces);
    case PodDeleted(podName) =>
      forall other | InSomePool(Step(s, e).pools, other)
        ensures Owned(s.mckubes, other)
      {
        CleanupForgets(s.pools, podName, other);
      }
    case _ => OwnersKept(s, Step(s, e));
  }

  /** Every edit of the run is safe where it happens. */
  ghost predicate EditsAreSafe(events: seq<Event>)
    requires IsRun(events)
  {
    events != [] ==>
      var before, e := events[..|events| - 1], events[|events| - 1];
      EditsAreSafe(before) && (e.Edit? ==> SafeEdit(After(before), e.key, e.spec))
  }

  /** Over any run, whatever the API server answers and however pods are preempted meanwhile. */
  lemma {:induction false} NothingLeaks(events: seq<Event>)
    requires IsRun(events) && EditsAreSafe(events)
    ensures NoLeak(After(events))
  {
    if events != [] {
      NothingLeaks(events[..|events| - 1]);
      StepKeepsNoLeak(After(events[..|events| - 1]), events[|events| - 1]);
    }
  }

  /** Once no object names a pod, no pool of any node has an entry for it. */
  lemma GoneMeansNoEntry(events: seq<Event>, podName: string, node: string, id: CoreId)
    requires IsRun(events) && EditsAreSafe(events)
    requires forall key | key in After(events).mckubes :: After(events).mckubes[key].podName != podName
    requires node in After(events).pools
    ensures !Holds(After(events).pools[node], id, podName)
  {
    NothingLeaks(events);
    if Holds(After(events).pools[node], id, podName) {
      assert InSomePool(After(events).pools, podName);
    }
  }

  /** Reconciling a deleted object forgets its pod everywhere and touches no other entry and no other
      runtime state; the object is gone exactly when the update succeeds and no other finalizer holds it. */
  lemma DeletionCompletes(s: System, key: string, inp: Inputs, node: string, other: string)
    requires inp.getOk && key in s.mckubes && s.mckubes[key].deleting && FINALIZER in s.mckubes[key].finalizers
    requires s.mckubes[key].podName != "" && other != s.mckubes[key].podName && node in s.pools
    ensures var after, podName := Reconcile(s, key, inp, []).0, s.mckubes[key].podName;
            && !InSomePool(after.pools, podName) && podName !in after.runtimeState
            && (other in after.runtimeState <==> other in s.runtimeState)
            && (other in s.runtimeState ==> after.runtimeState[other] == s.runtimeState[other])
            && node in after.pools && SameEntries(s.pools[node], after.pools[node], other)
            && (key !in after.mckubes <==> inp.updateOk && forall f | f in s.mckubes[key].finalizers :: f == FINALIZER)
  {
    var podName, finalizers := s.mckubes[key].podName, s.mckubes[key].finalizers;
    CleanupForgets(s.pools, podName, podName);
    var remaining := RemoveString(finalizers, FINALIZER);
    if remaining != [] {
      assert remaining[0] in remaining;
    }
  }

  /** Some run ends in the state. */
  ghost predicate Reachable(s: System) {
    exists events :: IsRun(events) && After(events) == s
  }

  lemma ReachEmpty()
    ensures Reachable(EMPTY)
  {
    assert IsRun([]) && After([]) == EMPTY;
  }

  lemma ReachStep(s: System, e: Event)
    requires Reachable(s) && Enabled(s, e)
    ensures Reachable(Step(s, e))
  {
    var events :| IsRun(events) && After(events) == s;
    assert (events + [e])[..|events|] == events;
    assert IsRun(events + [e]) && After(events + [e]) == Step(s, e);
  }
}
