/** The per-node CPU pool: a map from core number to the core's usage counter and the pods
    recorded on it. The first part states the pool operations as functions on the map; the
    class updates its map in place and is proved against them. */
module CpuPool {
  import opened Criticality

  const MAX_INT64: int := 0x7fff_ffff_ffff_ffff

  /** A core number: a 64-bit signed integer. */
  type CoreId = id: int | -MAX_INT64 - 1 <= id <= MAX_INT64

  /** 90% of a core, in millicores. */
  const THRESHOLD_MILLIS: int := 900

  datatype PodInfo = PodInfo(
    name: string,
    namespace: string,
    criticality: string,
    cpuMillis: int,
    coreSet: seq<CoreId>)

  datatype Core = Core(usage: int, pods: map<string, PodInfo>)

  type Cores = map<CoreId, Core>

  // ----- operations on the map of cores -----

  function FreshCores(n: nat): (cores: Cores)
    requires n <= MAX_INT64
    ensures forall id: CoreId :: id in cores <==> 0 <= id < n
    ensures forall id | id in cores :: cores[id] == Core(0, map[])
  {
    if n == 0 then map[] else FreshCores(n - 1)[n - 1 := Core(0, map[])]
  }

  /** The usage of a core; a core the pool does not have counts as unused. */
  function Usage(cores: Cores, id: CoreId): int {
    if id in cores then cores[id].usage else 0
  }

  function PodsOn(cores: Cores, id: CoreId): map<string, PodInfo> {
    if id in cores then cores[id].pods else map[]
  }

  predicate Holds(cores: Cores, id: CoreId, name: string) {
    id in cores && name in cores[id].pods
  }

  function AddPod(cores: Cores, id: CoreId, pod: PodInfo): Cores {
    if id in cores then
      cores[id := Core(cores[id].usage + pod.cpuMillis, cores[id].pods[pod.name := pod])]
    else cores
  }

  function RemoveFromCore(core: Core, name: string): Core {
    if name in core.pods then Core(core.usage - core.pods[name].cpuMillis, core.pods - {name}) else core
  }

  function RemovePod(cores: Cores, id: CoreId, name: string): Cores {
    if id in cores then cores[id := RemoveFromCore(cores[id], name)] else cores
  }

  /** Removes a pod from every core. */
  function Purge(cores: Cores, name: string): Cores {
    map id | id in cores :: RemoveFromCore(cores[id], name)
  }

  /** The pods of a core that are not in `keep`. */
  function Dropped(pods: map<string, PodInfo>, keep: set<string>): map<string, PodInfo> {
    pods - keep
  }

  function Kept(pods: map<string, PodInfo>, keep: set<string>): map<string, PodInfo> {
    map name | name in pods && name in keep :: pods[name]
  }

  /** Removes every pod outside `keep` from one core. */
  ghost function RetainOnCore(core: Core, keep: set<string>): Core {
    Core(core.usage - SumMillis(Dropped(core.pods, keep)), Kept(core.pods, keep))
  }

  ghost function Retain(cores: Cores, keep: set<string>): Cores {
    map id | id in cores :: RetainOnCore(cores[id], keep)
  }

  // ----- sums over a core's pods -----

  ghost function SumMillis(pods: map<string, PodInfo>): int {
    if pods == map[] then 0
    else
      var name :| name in pods;
      pods[name].cpuMillis + SumMillis(pods - {name})
  }

  /** Any pod may be taken out first: the sum does not depend on an order. */
  lemma {:induction false} SumMillisTake(pods: map<string, PodInfo>, name: string)
    requires name in pods
    ensures SumMillis(pods) == pods[name].cpuMillis + SumMillis(pods - {name})
    decreases |pods|
  {
    var first :| first in pods && SumMillis(pods) == pods[first].cpuMillis + SumMillis(pods - {first});
    if first != name {
      SumMillisTake(pods - {first}, name);
      SumMillisTake(pods - {name}, first);
      assert pods - {first} - {name} == pods - {name} - {first};
    }
  }

  lemma SumMillisPut(pods: map<string, PodInfo>, name: string, pod: PodInfo)
    ensures SumMillis(pods[name := pod]) == pod.cpuMillis + SumMillis(pods - {name})
  {
    SumMillisTake(pods[name := pod], name);
    assert pods[name := pod] - {name} == pods - {name};
  }

  lemma {:induction false} SumMillisNonNegative(pods: map<string, PodInfo>)
    requires forall name | name in pods :: 0 <= pods[name].cpuMillis
    ensures 0 <= SumMillis(pods)
    decreases |pods|
  {
    if pods != map[] {
      var name :| name in pods;
      SumMillisTake(pods, name);
      SumMillisNonNegative(pods - {name});
    }
  }

  // ----- what the pool keeps -----

  /** Every entry is stored under its pod's name. */
  ghost predicate KeyedByName(cores: Cores) {
    forall id, name | id in cores && name in cores[id].pods :: cores[id].pods[name].name == name
  }

  /** No entry has a negative demand. */
  ghost predicate NonNegative(cores: Cores) {
    forall id, name | id in cores && name in cores[id].pods :: 0 <= cores[id].pods[name].cpuMillis
  }

  /** Every counter is below the value the least-loaded search starts from. */
  ghost predicate InRange(cores: Cores) {
    forall id | id in cores :: cores[id].usage < MAX_INT64
  }

  /** What the search for the least-loaded core may return, whatever order it visits cores in. */
  ghost predicate IsLeastLoaded(cores: Cores, id: CoreId) {
    if id in cores && cores[id].usage < MAX_INT64
    then forall other | other in cores :: cores[id].usage <= cores[other].usage
    else id == -1 && forall other | other in cores :: MAX_INT64 <= cores[other].usage
  }

  /** `list` holds each value of `pods` once, in some order. */
  ghost predicate Lists(list: seq<PodInfo>, pods: map<string, PodInfo>) {
    && (forall k | 0 <= k < |list| :: list[k].name in pods && pods[list[k].name] == list[k])
    && (forall j, k | 0 <= j < k < |list| :: list[j].name != list[k].name)
    && (forall name | name in pods :: pods[name] in list)
  }

  /** The pods of a core that a pod of the given criticality may preempt. */
  function PreemptablePods(pods: map<string, PodInfo>, criticality: string): map<string, PodInfo> {
    map name | name in pods && Rank(criticality) > Rank(pods[name].criticality) :: pods[name]
  }

  // ----- the pool object -----

  /** The next key when ranging over a map: any of those not visited yet. */
  method NextKey<K(==)>(todo: set<K>) returns (key: K)
    requires |todo| > 0
    ensures key in todo
  {
    key :| key in todo;
  }

  /** Visiting one more pod of a core moves it out of `left`, and out of the core unless kept. */
  lemma RetainVisit(pods: map<string, PodInfo>, keep: set<string>, left: set<string>, name: string)
    requires name in pods && name in left
    ensures name in keep ==> Dropped(pods, keep + (left - {name})) == Dropped(pods, keep + left)
    ensures name !in keep ==>
              SumMillis(Dropped(pods, keep + (left - {name})))
              == pods[name].cpuMillis + SumMillis(Dropped(pods, keep + left))
  {
    if name in keep {
      assert keep + (left - {name}) == keep + left;
    } else {
      var more := Dropped(pods, keep + (left - {name}));
      SumMillisTake(more, name);
      assert more - {name} == Dropped(pods, keep + left);
    }
  }

  /** One core's share of `RetainPods`: visits the pods in any order and deletes as it goes. */
  method RetainCore(start: Core, keep: set<string>) returns (core: Core)
    ensures core == RetainOnCore(start, keep)
  {
    var usage, pods := start.usage, start.pods;
    var todo := start.pods.Keys;
    assert Dropped(start.pods, keep + todo) == map[];
    while |todo| > 0
      invariant todo <= start.pods.Keys
      invariant forall n :: n in pods <==> n in start.pods && (n in keep || n in todo)
      invariant forall n | n in pods :: pods[n] == start.pods[n]
      invariant usage == start.usage - SumMillis(Dropped(start.pods, keep + todo))
      decreases |todo|
    {
      var name := NextKey(todo);
      RetainVisit(start.pods, keep, todo, name);
      if name !in keep {
        usage := usage - pods[name].cpuMillis;
        pods := pods - {name};
      }
      todo := todo - {name};
    }
    assert keep + todo == keep;
    assert pods == Kept(start.pods, keep);
    core := Core(usage, pods);
  }

  class CPUPool {
    const nodeName: string
    var cores: Cores

    ghost predicate Valid()
      reads this
    {
      KeyedByName(cores)
    }

    constructor (nodeName: string, numCores: nat)
      requires numCores <= MAX_INT64
      ensures Valid() && this.nodeName == nodeName && cores == FreshCores(numCores)
    {
      this.nodeName := nodeName;
      cores := map[];
      new;
      for i := 0 to numCores
        invariant cores == FreshCores(i)
      {
        cores := cores[i := Core(0, map[])];
      }
    }

    method GetCoreUsage(id: CoreId) returns (usage: int)
      ensures usage == Usage(cores, id)
    {
      if id !in cores {
        return 0;
      }
      usage := cores[id].usage;
    }

    method AddPodToCore(id: CoreId, pod: PodInfo)
      requires Valid()
      modifies this
      ensures Valid() && cores == AddPod(old(cores), id, pod)
    {
      if id in cores {
        var core := cores[id];
        core := core.(pods := core.pods[pod.name := pod]);
        core := core.(usage := core.usage + pod.cpuMillis);
        cores := cores[id := core];
      }
    }

    method RemovePodFromCore(id: CoreId, name: string)
      requires Valid()
      modifies this
      ensures Valid() && cores == RemovePod(old(cores), id, name)
    {
      if id in cores {
        var core := cores[id];
        if name in core.pods {
          core := core.(usage := core.usage - core.pods[name].cpuMillis);
          core := core.(pods := core.pods - {name});
          cores := cores[id := core];
        } else {
          assert cores[id := core] == cores;
        }
      }
    }

    /** The pods on a core, in an order the caller cannot rely on. */
    method GetPodsOnCore(id: CoreId) returns (pods: seq<PodInfo>)
      requires Valid()
      ensures Lists(pods, PodsOn(cores, id))
    {
      pods := [];
      if id in cores {
        var onCore := cores[id].pods;
        var todo := onCore.Keys;
        while |todo| > 0
          invariant todo <= onCore.Keys
          invariant Lists(pods, onCore - todo)
          decreases |todo|
        {
          var name := NextKey(todo);
          assert onCore[name].name == name;
          ghost var listed := pods;
          pods := pods + [onCore[name]];
          assert pods[|listed|] == onCore[name];
          assert forall n | n in onCore && n !in todo :: onCore[n] in listed by {
            assert forall n | n in onCore && n !in todo :: n in onCore - todo;
          }
          todo := todo - {name};
        }
        assert onCore - todo == onCore;
      }
    }

    method FindLeastLoadedCore() returns (minCore: CoreId)
      ensures IsLeastLoaded(cores, minCore)
    {
      minCore := -1;
      var minUsage := MAX_INT64;
      var todo: set<CoreId> := cores.Keys;
      while |todo| > 0
        invariant todo <= cores.Keys
        invariant forall id | id in cores.Keys - todo :: minUsage <= cores[id].usage
        invariant minUsage == MAX_INT64 ==> minCore == -1
        invariant minUsage != MAX_INT64 ==> minCore in cores && cores[minCore].usage == minUsage < MAX_INT64
        decreases |todo|
      {
        var id := NextKey(todo);
        if cores[id].usage < minUsage {
          minUsage := cores[id].usage;
          minCore := id;
        }
        todo := todo - {id};
      }
    }

    /** Drops one pod from all cores while the pool is locked. */
    method PurgePod(name: string)
      requires Valid()
      modifies this
      ensures Valid() && cores == Purge(old(cores), name)
    {
      var todo: set<CoreId> := cores.Keys;
      while |todo| > 0
        invariant cores.Keys == old(cores).Keys && todo <= cores.Keys
        invariant forall id | id in cores ::
                    cores[id] == if id in todo then old(cores)[id] else RemoveFromCore(old(cores)[id], name)
        decreases |todo|
      {
        var id := NextKey(todo);
        if name in cores[id].pods {
          var pod := cores[id].pods[name];
          cores := cores[id := Core(cores[id].usage - pod.cpuMillis, cores[id].pods - {name})];
        }
        todo := todo - {id};
      }
    }

    /** Drops every pod outside `keep` from all cores while the pool is locked. */
    method RetainPods(keep: set<string>)
      requires Valid()
      modifies this
      ensures Valid() && cores == Retain(old(cores), keep)
    {
      var todo: set<CoreId> := cores.Keys;
      while |todo| > 0
        invariant cores.Keys == old(cores).Keys && todo <= cores.Keys
        invariant forall id | id in cores ::
                    cores[id] == if id in todo then old(cores)[id] else RetainOnCore(old(cores)[id], keep)
        decreases |todo|
      {
        var id := NextKey(todo);
        var core := RetainCore(cores[id], keep);
        cores := cores[id := core];
        todo := todo - {id};
      }
    }
  }
}
