/** Registering a pod on the cores of its core set, and undoing it. */
module Registration {
  import opened CpuPool

  /** The core records the pod with this demand and criticality. */
  predicate Matches(cores: Cores, id: CoreId, name: string, millis: int, criticality: string) {
    && Holds(cores, id, name)
    && cores[id].pods[name].cpuMillis == millis
    && cores[id].pods[name].criticality == criticality
  }

  /** Every one of the cores exists and records the pod with this demand and criticality. */
  predicate Registered(cores: Cores, ids: seq<CoreId>, name: string, millis: int, criticality: string) {
    forall k | 0 <= k < |ids| :: Matches(cores, ids[k], name, millis, criticality)
  }

  /** Removes and re-adds the pod on each listed core in turn; a core may be listed twice. */
  function Reinstall(cores: Cores, ids: seq<CoreId>, pod: PodInfo): Cores {
    if ids == [] then cores
    else
      var before := Reinstall(cores, ids[..|ids| - 1], pod);
      AddPod(RemovePod(before, ids[|ids| - 1], pod.name), ids[|ids| - 1], pod)
  }

  /** Registers a pod on its core set unless it is already registered there. */
  function Register(cores: Cores, pod: PodInfo): Cores {
    if Registered(cores, pod.coreSet, pod.name, pod.cpuMillis, pod.criticality) then cores
    else Reinstall(cores, pod.coreSet, pod)
  }

  /** A core after the pod's entry on it, if any, gave way to `pod`. */
  function WithEntry(core: Core, pod: PodInfo): Core {
    var cleared := RemoveFromCore(core, pod.name);
    Core(cleared.usage + pod.cpuMillis, cleared.pods[pod.name := pod])
  }

  /** Listing a core several times charges it once. */
  lemma {:induction false} ReinstallMeaning(cores: Cores, ids: seq<CoreId>, pod: PodInfo)
    ensures Reinstall(cores, ids, pod).Keys == cores.Keys
    ensures forall id | id in cores ::
              Reinstall(cores, ids, pod)[id] == if id in ids then WithEntry(cores[id], pod) else cores[id]
  {
    if ids != [] {
      var before, last := ids[..|ids| - 1], ids[|ids| - 1];
      ReinstallMeaning(cores, before, pod);
      if last in cores {
        ReinstallTwice(cores[last], pod);
      }
    }
  }

  lemma ReinstallTwice(core: Core, pod: PodInfo)
    ensures WithEntry(WithEntry(core, pod), pod) == WithEntry(core, pod)
  {
  }

  lemma RegisterIdempotent(cores: Cores, pod: PodInfo)
    ensures Register(Register(cores, pod), pod) == Register(cores, pod)
  {
    var once := Register(cores, pod);
    ReinstallMeaning(cores, pod.coreSet, pod);
    ReinstallMeaning(once, pod.coreSet, pod);
    forall id | id in once
      ensures Register(once, pod)[id] == once[id]
    {
      if id in cores { ReinstallTwice(cores[id], pod); }
    }
    assert Register(once, pod).Keys == once.Keys;
  }

  /** Registering changes nothing but the pod's own entries, and the counters by what those
      entries changed. */
  lemma RegisterFrame(cores: Cores, pod: PodInfo, id: CoreId, other: string)
    requires id in cores && other != pod.name
    ensures id in Register(cores, pod)
    ensures other in Register(cores, pod)[id].pods <==> other in cores[id].pods
    ensures other in cores[id].pods ==> Register(cores, pod)[id].pods[other] == cores[id].pods[other]
    ensures id !in pod.coreSet ==> Register(cores, pod)[id] == cores[id]
  {
    ReinstallMeaning(cores, pod.coreSet, pod);
  }

  /** What a registration leaves registered: afterwards the pod is registered on `targets`
      exactly when each of them exists and is in the registered core set or had a matching entry
      before. Targets outside the core set are never repaired. */
  lemma RegisteredAfter(cores: Cores, pod: PodInfo, targets: seq<CoreId>)
    ensures Registered(Register(cores, pod), targets, pod.name, pod.cpuMillis, pod.criticality)
            <==> forall k | 0 <= k < |targets| ::
                   && targets[k] in cores
                   && (|| targets[k] in pod.coreSet
                       || Matches(cores, targets[k], pod.name, pod.cpuMillis, pod.criticality))
  {
    ReinstallMeaning(cores, pod.coreSet, pod);
    forall id: CoreId
      ensures Matches(Register(cores, pod), id, pod.name, pod.cpuMillis, pod.criticality)
              <==> id in cores && (id in pod.coreSet || Matches(cores, id, pod.name, pod.cpuMillis, pod.criticality))
    {
    }
  }

  /** Cleanup forgets a registration whatever was there before, and restores every counter and
      map exactly when the pool did not know the pod. */
  lemma PurgeUndoesRegister(cores: Cores, pod: PodInfo)
    ensures Purge(Register(cores, pod), pod.name) == Purge(cores, pod.name)
    ensures Purge(Register(cores, pod), pod.name) == cores <==>
            (forall id | id in cores :: pod.name !in cores[id].pods)
  {
    ReinstallMeaning(cores, pod.coreSet, pod);
    forall id | id in cores
      ensures RemoveFromCore(WithEntry(cores[id], pod), pod.name) == RemoveFromCore(cores[id], pod.name)
    {
      var cleared := RemoveFromCore(cores[id], pod.name).pods;
      assert cleared[pod.name := pod] - {pod.name} == cleared;
    }
    assert Purge(Register(cores, pod), pod.name) == Purge(cores, pod.name);
    forall id | id in cores && pod.name in cores[id].pods
      ensures Purge(cores, pod.name)[id].pods != cores[id].pods
    {
    }
  }

  // ----- the bulk collector -----

  function PurgeEach(cores: Cores, names: seq<string>): Cores {
    if names == [] then cores else Purge(PurgeEach(cores, names[..|names| - 1]), names[|names| - 1])
  }

  /** Purging names one by one, in any order and with repetitions, drops what they cover. */
  lemma {:induction false} PurgeEachMeaning(cores: Cores, names: seq<string>, id: CoreId)
    requires id in cores
    ensures id in PurgeEach(cores, names)
    ensures PurgeEach(cores, names)[id].pods == cores[id].pods - (set name | name in names)
    ensures PurgeEach(cores, names)[id].usage
            == cores[id].usage - SumMillis(Kept(cores[id].pods, set name | name in names))
  {
    var pods := cores[id].pods;
    var all := set name | name in names;
    if names == [] {
      assert Kept(pods, all) == map[];
      assert pods - all == pods;
    } else {
      var before, last := names[..|names| - 1], names[|names| - 1];
      var some := set name | name in before;
      PurgeEachMeaning(cores, before, id);
      assert all == some + {last};
      assert pods - all == pods - some - {last};
      if last in pods && last !in some {
        SumMillisTake(Kept(pods, all), last);
        assert Kept(pods, all) - {last} == Kept(pods, some);
      } else {
        assert Kept(pods, all) == Kept(pods, some);
      }
    }
  }

  /** The bulk collector is the same as purging each tracked pod outside the surviving set, in
      any order, as long as no surviving pod is purged. */
  lemma RetainIsPurgeEach(cores: Cores, keep: set<string>, names: seq<string>)
    requires forall name | name in names :: name !in keep
    requires forall id, name | id in cores && name in cores[id].pods && name !in keep :: name in names
    ensures PurgeEach(cores, names) == Retain(cores, keep)
  {
    var gone := set name | name in names;
    PurgeEachKeys(cores, names);
    forall id | id in cores
      ensures PurgeEach(cores, names)[id] == RetainOnCore(cores[id], keep)
    {
      PurgeEachMeaning(cores, names, id);
      assert Kept(cores[id].pods, gone) == Dropped(cores[id].pods, keep);
      assert cores[id].pods - gone == Kept(cores[id].pods, keep);
    }
  }

  lemma {:induction false} PurgeEachKeys(cores: Cores, names: seq<string>)
    ensures PurgeEach(cores, names).Keys == cores.Keys
  {
    if names != [] {
      PurgeEachKeys(cores, names[..|names| - 1]);
    }
  }
}
