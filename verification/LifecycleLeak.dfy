/** A concrete run on which the pool leaks: the pod name of a registered object is edited. */
module LifecycleLeak {
  import opened Wrappers
  import opened Demand
  import opened CpuPool
  import opened CoreSets
  import opened PreemptionTraces
  import opened Registration
  import opened Lifecycle
  import opened LifecycleDemands

  /** A pod registered on core 0 of a fresh node, one millicore in ten. */
  const LEAKY: McKube :=
    McKube("p", "n", "Low", Some(RTSettings(1000, 100, 100, Some("0"))), "", [FINALIZER], false)

  const LEAKY_INPUTS: Inputs := Inputs(true, true, true, Found("default", "n", Running))

  lemma FreshCheck(start: Cores, pod: PodInfo)
    requires start == FreshCores(NODE_CORES)
    requires pod.name == "p" && pod.cpuMillis == 100 && pod.criticality == "Low" && pod.coreSet == [0]
    ensures !Registered(start, [0], "p", 100, "Low") && Preempts(start, [0], 100, "Low", [[]])
    ensures Flatten([[]]) == []
    ensures Holds(Register(start, pod), 0, "p")
  {
    assert 0 in start && start[0] == Core(0, map[]);
    assert !Matches(start, [0][0], "p", 100, "Low");
    var none: seq<seq<Preemption>> := [[]];
    assert none[..0] == [] && Flatten(none) == [];
    ReinstallMeaning(start, pod.coreSet, pod);
  }

  lemma LeakyPlan(s: System)
    requires s == System(map["k" := LEAKY], map[], map[])
    ensures Places(s, "k", LEAKY_INPUTS)
    ensures PlacedPool(s, LEAKY_INPUTS) == FreshCores(NODE_CORES)
    ensures CoreSet(ActualCore(s.mckubes["k"])) == [0]
    ensures var pod := PlacedPod(s, "k", LEAKY_INPUTS);
            pod.name == "p" && pod.cpuMillis == 100 && pod.criticality == "Low" && pod.coreSet == [0]
  {
    SingleRoundTrip(0);
    assert Decimal(0) == "0";
  }

  lemma FreshPlacement(s: System)
    requires s == System(map["k" := LEAKY], map[], map[])
    ensures Enabled(s, Reconciled("k", LEAKY_INPUTS, [[]]))
    ensures var after := Step(s, Reconciled("k", LEAKY_INPUTS, [[]]));
            && InSomePool(after.pools, "p")
            && after.mckubes.Keys == {"k"}
            && after.mckubes["k"] == LEAKY.(allocatedCore := after.mckubes["k"].allocatedCore)
  {
    LeakyPlan(s);
    var pod := PlacedPod(s, "k", LEAKY_INPUTS);
    FreshCheck(PlacedPool(s, LEAKY_INPUTS), pod);
    PlaceResult(s, "k", LEAKY_INPUTS, [[]]);
    PlaceKeepsObjects(s, "k", LEAKY_INPUTS, [[]]);
    assert Replay(PlacedPool(s, LEAKY_INPUTS), []) == PlacedPool(s, LEAKY_INPUTS);
    assert Holds(Place(s, "k", LEAKY_INPUTS, [[]]).pools["n"], 0, "p");
  }

  lemma RenamedDeletion(s: System)
    requires s.mckubes.Keys == {"k"} && s.mckubes["k"].podName == "q" && s.mckubes["k"].deleting
    requires s.mckubes["k"].finalizers == [FINALIZER] && InSomePool(s.pools, "p")
    ensures Enabled(s, Reconciled("k", LEAKY_INPUTS, []))
    ensures Step(s, Reconciled("k", LEAKY_INPUTS, [])).mckubes == map[]
    ensures InSomePool(Step(s, Reconciled("k", LEAKY_INPUTS, [])).pools, "p")
  {
    var after := Step(s, Reconciled("k", LEAKY_INPUTS, []));
    assert RemoveString([FINALIZER], FINALIZER) == [] by { assert [FINALIZER][..0] == []; }
    assert after.pools == CleanupPools(s.pools, "q");
    var node, id :| node in s.pools && Holds(s.pools[node], id, "p");
    assert "p" != "q";
    assert Holds(after.pools[node], id, "p");
  }

  lemma RenameAndDelete(placed: System)
    requires Reachable(placed) && InSomePool(placed.pools, "p") && placed.mckubes.Keys == {"k"}
    requires placed.mckubes["k"] == LEAKY.(allocatedCore := placed.mckubes["k"].allocatedCore)
    ensures exists s :: Reachable(s) && s.mckubes == map[] && InSomePool(s.pools, "p")
  {
    ReachStep(placed, Edit("k", LEAKY.(podName := "q")));
    var renamed := Step(placed, Edit("k", LEAKY.(podName := "q")));
    ReachStep(renamed, MarkDeleted("k"));
    var marked := Step(renamed, MarkDeleted("k"));
    RenamedDeletion(marked);
    ReachStep(marked, Reconciled("k", LEAKY_INPUTS, []));
  }

  /** The pod name of a registered object must not be edited: a run that renames it and then
      deletes the object ends with no object and an entry for the old name. */
  lemma RenamedPodLeaks()
    ensures exists s :: Reachable(s) && s.mckubes == map[] && InSomePool(s.pools, "p")
  {
    ReachEmpty();
    var created := System(map["k" := LEAKY], map[], map[]);
    ReachStep(EMPTY, Create("k", LEAKY));
    assert Step(EMPTY, Create("k", LEAKY)) == created;
    FreshPlacement(created);
    ReachStep(created, Reconciled("k", LEAKY_INPUTS, [[]]));
    RenameAndDelete(Step(created, Reconciled("k", LEAKY_INPUTS, [[]])));
  }
}
