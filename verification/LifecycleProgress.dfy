/** What a reconciliation answers, and how a McKube gets from its creation to a registered pod. */
module LifecycleProgress {
  import opened CpuPool
  import opened CoreSets
  import opened PreemptionTraces
  import opened Registration
  import opened Lifecycle
  import opened LifecycleRuntime
  import opened LifecycleStatus

  const OWN_FINALIZER: string := "mckube.mcoperator.sdv.com/finalizer"

  predicate HasOwnFinalizer(rt: McKube) {
    exists k :: 0 <= k < |rt.finalizers| && rt.finalizers[k] == OWN_FINALIZER
  }

  /** The pod was found on a node, about to run or running. */
  predicate Scheduled(pod: PodLookup) {
    pod.Found? && pod.nodeName != "" && (pod.phase == Pending || pod.phase == Running)
  }

  /** A McKube in use that names a pod and does not know its node yet. */
  predicate LooksForNode(s: System, key: string) {
    && key in s.mckubes && !s.mckubes[key].deleting && HasOwnFinalizer(s.mckubes[key])
    && s.mckubes[key].podName != "" && s.mckubes[key].node == ""
  }

  /** The answer of a reconciliation: it waits five seconds exactly for a pod that is missing or not on a
      node yet, one second after it learned the node, comes back at once after adding its finalizer, and
      fails exactly when a call fails that it depends on. */
  lemma ReconcileAnswers(s: System, key: string, inp: Inputs, traces: seq<seq<Preemption>>)
    ensures var result := Reconcile(s, key, inp, traces).1;
            && (result == RequeueAfter(5) <==>
                  inp.getOk && LooksForNode(s, key) && !inp.pod.LookupFailed? && !Scheduled(inp.pod))
            && (result == RequeueAfter(1) <==>
                  inp.getOk && LooksForNode(s, key) && Scheduled(inp.pod) && inp.updateOk)
            && (result == Requeue <==>
                  inp.getOk && key in s.mckubes && !s.mckubes[key].deleting && !HasOwnFinalizer(s.mckubes[key])
                  && inp.updateOk)
            && (result == Failed <==>
                  || !inp.getOk
                  || (key in s.mckubes && !inp.updateOk && s.mckubes[key].deleting == HasOwnFinalizer(s.mckubes[key]))
                  || (LooksForNode(s, key) && (inp.pod.LookupFailed? || (Scheduled(inp.pod) && !inp.updateOk))))
            && (result.RequeueAfter? ==> result.seconds == 5 || result.seconds == 1)
  {
    if key in s.mckubes {
      FinalizerByName(s.mckubes[key]);
    }
  }

  lemma FinalizerByName(rt: McKube)
    ensures HasOwnFinalizer(rt) <==> FINALIZER in rt.finalizers
  {
    assert FINALIZER == OWN_FINALIZER;
  }

  /** Adding its finalizer keeps those of others and everything else. */
  lemma FinalizerIsAdded(s: System, key: string, inp: Inputs, traces: seq<seq<Preemption>>)
    requires Reconcile(s, key, inp, traces).1 == Requeue
    ensures key in s.mckubes
    ensures var rt := s.mckubes[key];
            Reconcile(s, key, inp, traces).0
            == s.(mckubes := s.mckubes[key := rt.(finalizers := rt.finalizers + [OWN_FINALIZER])])
  {
    ReconcileAnswers(s, key, inp, traces);
  }

  /** The node it learns is the one the pod is on. */
  lemma NodeIsLearned(s: System, key: string, inp: Inputs, traces: seq<seq<Preemption>>)
    requires Reconcile(s, key, inp, traces).1 == RequeueAfter(1)
    ensures inp.pod.Found? && key in s.mckubes
    ensures Reconcile(s, key, inp, traces).0
            == s.(mckubes := s.mckubes[key := s.mckubes[key].(node := inp.pod.nodeName)])
  {
    ReconcileAnswers(s, key, inp, traces);
  }

  /** Waiting changes nothing, nor does failing except after a cleanup. */
  lemma WaitingChangesNothing(s: System, key: string, inp: Inputs, traces: seq<seq<Preemption>>)
    ensures Reconcile(s, key, inp, traces).1 == RequeueAfter(5) ==> Reconcile(s, key, inp, traces).0 == s
    ensures Reconcile(s, key, inp, traces).1 == Failed && !(key in s.mckubes && s.mckubes[key].deleting) ==>
              Reconcile(s, key, inp, traces).0 == s
  {
    ReconcileAnswers(s, key, inp, traces);
  }

  /** A placement shows the requested core set on a McKube that showed none, if the update succeeds; then,
      and on one that showed one, only a migration published on it changes that. */
  lemma CoreInForceIsShown(s: System, key: string, inp: Inputs, traces: seq<seq<Preemption>>)
    requires Places(s, key, inp) && ReconcileTraces(s, key, inp, traces)
    requires forall j | 0 <= j < |Flatten(traces)| :: !ShowsAt(Flatten(traces), j, key)
    ensures var rt, after := s.mckubes[key], Reconcile(s, key, inp, traces).0;
            && key in after.mckubes
            && after.mckubes[key].allocatedCore ==
               if rt.allocatedCore == "" && inp.statusOk then rt.settings.value.core.value else rt.allocatedCore
  {
    PlaceKeepsObjects(s, key, inp, traces);
    LastPublishedStays(Shown(s, key, inp), Flatten(traces), key, 0);
  }

  // ----- from creation to registration -----

  /** All calls succeed and the pod is on a node. */
  predicate AllGranted(inp: Inputs) {
    inp.getOk && inp.updateOk && inp.statusOk && Scheduled(inp.pod)
  }

  /** The McKube carries the controller's finalizer and names the node. */
  function Prepared(rt: McKube, nodeName: string): McKube {
    rt.(finalizers := rt.finalizers + [OWN_FINALIZER], node := nodeName)
  }

  /** A new McKube takes three reconciliations: the first adds the finalizer, the second learns the node,
      the third places the pod. */
  lemma ThirdReconciliationPlaces(s: System, key: string, inp: Inputs)
    requires key in s.mckubes && AllGranted(inp) && RequestsCores(s.mckubes[key])
    requires !s.mckubes[key].deleting && !HasOwnFinalizer(s.mckubes[key])
    requires s.mckubes[key].podName != "" && s.mckubes[key].node == ""
    ensures var first := Reconcile(s, key, inp, []);
            var second := Reconcile(first.0, key, inp, []);
            && first.1 == Requeue && second.1 == RequeueAfter(1)
            && second.0 == s.(mckubes := s.mckubes[key := Prepared(s.mckubes[key], inp.pod.nodeName)])
            && Places(second.0, key, inp)
  {
    FinalizerByName(s.mckubes[key]);
    var first := Reconcile(s, key, inp, []);
    assert first.1 == Requeue;
    var added := first.0.mckubes[key];
    assert added.finalizers[|added.finalizers| - 1] == OWN_FINALIZER;
    FinalizerByName(added);
    var second := Reconcile(first.0, key, inp, []);
    assert second.1 == RequeueAfter(1);
    assert second.0.mckubes[key] == Prepared(s.mckubes[key], inp.pod.nodeName);
    assert second.0.mckubes == s.mckubes[key := Prepared(s.mckubes[key], inp.pod.nodeName)];
  }

  /** Whatever becomes of the victims, that registers the pod on every requested core that exists, unless
      the cores in force record it already. */
  lemma NewMcKubeRegisters(s: System, key: string, inp: Inputs, traces: seq<seq<Preemption>>, id: CoreId)
    requires key in s.mckubes && AllGranted(inp) && RequestsCores(s.mckubes[key])
    requires !s.mckubes[key].deleting && !HasOwnFinalizer(s.mckubes[key])
    requires s.mckubes[key].podName != "" && s.mckubes[key].node == ""
    requires var second := Reconcile(Reconcile(s, key, inp, []).0, key, inp, []).0;
             ReconcileTraces(second, key, inp, traces)
    requires id in CoreSet(s.mckubes[key].settings.value.core.value) && id in PlacedPool(s, inp)
    requires !AlreadyRegistered(s, key, inp)
    ensures var rt := s.mckubes[key];
            var third := Reconcile(Reconcile(Reconcile(s, key, inp, []).0, key, inp, []).0, key, inp, traces);
            && third.1 == Done && inp.pod.nodeName in third.0.pools
            && Matches(third.0.pools[inp.pod.nodeName], id, rt.podName,
                       StatedDemand(rt.settings.value, StateAtPlacement(s, rt.podName)), rt.criticality)
  {
    ThirdReconciliationPlaces(s, key, inp);
    var second := Reconcile(Reconcile(s, key, inp, []).0, key, inp, []).0;
    assert PlacedPod(second, key, inp) == PlacedPod(s, key, inp);
    PlacementDemand(second, key, inp, traces, id);
    ReconcileAnswers(second, key, inp, traces);
  }
}
