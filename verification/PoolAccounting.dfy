/** Accounting over runs. Each locked pool method is one step; a run is any interleaving of
    such steps on one node's pool. */
module PoolAccounting {
  import opened CpuPool

  datatype PoolStep =
    | Add(id: CoreId, pod: PodInfo)
    | Remove(id: CoreId, name: string)
    | PurgeEverywhere(name: string)
    | RetainOnly(keep: set<string>)

  ghost function ApplyStep(cores: Cores, step: PoolStep): Cores {
    match step
    case Add(id, pod) => AddPod(cores, id, pod)
    case Remove(id, name) => RemovePod(cores, id, name)
    case PurgeEverywhere(name) => Purge(cores, name)
    case RetainOnly(keep) => Retain(cores, keep)
  }

  ghost function Run(start: Cores, steps: seq<PoolStep>): Cores {
    if steps == [] then start else ApplyStep(Run(start, steps[..|steps| - 1]), steps[|steps| - 1])
  }

  /** How far a core's counter is above the demand recorded on it. */
  ghost function Excess(core: Core): int {
    core.usage - SumMillis(core.pods)
  }

  /** An add that finds the pod already on the core it targets. */
  predicate Overwrites(cores: Cores, step: PoolStep) {
    step.Add? && Holds(cores, step.id, step.pod.name)
  }

  /** The demand of the entry of core `id` that a step overwrites. */
  function OverwrittenBy(cores: Cores, step: PoolStep, id: CoreId): int {
    if Overwrites(cores, step) && step.id == id then cores[id].pods[step.pod.name].cpuMillis else 0
  }

  ghost function OverwrittenIn(start: Cores, steps: seq<PoolStep>, id: CoreId): int {
    if steps == [] then 0
    else
      var before := steps[..|steps| - 1];
      OverwrittenIn(start, before, id) + OverwrittenBy(Run(start, before), steps[|steps| - 1], id)
  }

  // ----- one step -----

  lemma {:induction false} SumMillisSplit(pods: map<string, PodInfo>, keep: set<string>)
    ensures SumMillis(pods) == SumMillis(Kept(pods, keep)) + SumMillis(Dropped(pods, keep))
    decreases |pods|
  {
    if pods == map[] {
      assert Kept(pods, keep) == map[] && Dropped(pods, keep) == map[];
    } else {
      var name :| name in pods;
      SumMillisTake(pods, name);
      SumMillisSplit(pods - {name}, keep);
      SplitWithout(pods, keep, name);
      if name in keep {
        SumMillisTake(Kept(pods, keep), name);
      } else {
        SumMillisTake(Dropped(pods, keep), name);
      }
    }
  }

  lemma SplitWithout(pods: map<string, PodInfo>, keep: set<string>, name: string)
    requires name in pods
    ensures Kept(pods - {name}, keep) == Kept(pods, keep) - {name}
    ensures Dropped(pods - {name}, keep) == Dropped(pods, keep) - {name}
    ensures name in keep ==> Dropped(pods, keep) - {name} == Dropped(pods, keep)
    ensures name !in keep ==> Kept(pods, keep) - {name} == Kept(pods, keep)
  {
  }

  lemma RemoveKeepsExcess(core: Core, name: string)
    ensures Excess(RemoveFromCore(core, name)) == Excess(core)
  {
    if name in core.pods {
      SumMillisTake(core.pods, name);
    }
  }

  lemma StepExcess(cores: Cores, step: PoolStep, id: CoreId)
    requires id in cores
    ensures id in ApplyStep(cores, step)
    ensures Excess(ApplyStep(cores, step)[id]) == Excess(cores[id]) + OverwrittenBy(cores, step, id)
  {
    var core := cores[id];
    match step
    case Add(at, pod) =>
      if at == id {
        SumMillisPut(core.pods, pod.name, pod);
        if pod.name in core.pods {
          SumMillisTake(core.pods, pod.name);
        } else {
          assert core.pods - {pod.name} == core.pods;
        }
      }
    case Remove(at, name) => RemoveKeepsExcess(core, name);
    case PurgeEverywhere(name) => RemoveKeepsExcess(core, name);
    case RetainOnly(keep) => SumMillisSplit(core.pods, keep);
  }

  /** The demand a step brings in, if any, is not negative. */
  predicate AddsNonNegative(step: PoolStep) {
    step.Add? ==> 0 <= step.pod.cpuMillis
  }

  predicate AddsPositive(step: PoolStep) {
    step.Add? ==> 0 < step.pod.cpuMillis
  }

  /** Every recorded demand is above zero. */
  ghost predicate Positive(cores: Cores) {
    forall id, name | id in cores && name in cores[id].pods :: 0 < cores[id].pods[name].cpuMillis
  }

  // ----- whole runs -----

  /** The counter of a core exceeds its recorded demand by exactly what overwriting adds lost. */
  lemma {:induction false} ExcessOverRun(start: Cores, steps: seq<PoolStep>, id: CoreId)
    requires id in start
    ensures id in Run(start, steps)
    ensures Excess(Run(start, steps)[id]) == Excess(start[id]) + OverwrittenIn(start, steps, id)
  {
    if steps != [] {
      var before := steps[..|steps| - 1];
      ExcessOverRun(start, before, id);
      StepExcess(Run(start, before), steps[|steps| - 1], id);
    }
  }

  lemma {:induction false} RunKeepsEntries(start: Cores, steps: seq<PoolStep>)
    requires KeyedByName(start)
    ensures KeyedByName(Run(start, steps)) && Run(start, steps).Keys == start.Keys
    ensures NonNegative(start) && (forall s | s in steps :: AddsNonNegative(s)) ==> NonNegative(Run(start, steps))
    ensures Positive(start) && (forall s | s in steps :: AddsPositive(s)) ==> Positive(Run(start, steps))
  {
    if steps != [] {
      RunKeepsEntries(start, steps[..|steps| - 1]);
      assert steps[|steps| - 1] in steps;
    }
  }

  lemma {:induction false} OverwrittenNonNegative(start: Cores, steps: seq<PoolStep>, id: CoreId)
    requires KeyedByName(start) && NonNegative(start) && forall s | s in steps :: AddsNonNegative(s)
    ensures 0 <= OverwrittenIn(start, steps, id)
  {
    if steps != [] {
      var before := steps[..|steps| - 1];
      OverwrittenNonNegative(start, before, id);
      RunKeepsEntries(start, before);
    }
  }

  /** The invariant of every pool under every interleaving: entries are keyed by pod name and a
      counter is never below the sum of its entries, hence never negative; what it is above
      that sum is what overwriting adds lost. */
  lemma AccountingInvariant(numCores: nat, steps: seq<PoolStep>, id: CoreId)
    requires numCores <= MAX_INT64 && 0 <= id < numCores
    requires forall s | s in steps :: AddsNonNegative(s)
    ensures var end := Run(FreshCores(numCores), steps);
            && KeyedByName(end)
            && id in end
            && end[id].usage == SumMillis(end[id].pods) + OverwrittenIn(FreshCores(numCores), steps, id)
            && 0 <= SumMillis(end[id].pods) <= end[id].usage
  {
    var start := FreshCores(numCores);
    ExcessOverRun(start, steps, id);
    RunKeepsEntries(start, steps);
    OverwrittenNonNegative(start, steps, id);
    SumMillisNonNegative(Run(start, steps)[id].pods);
  }

  /** No step of the run adds a pod to a core that already holds it. */
  ghost predicate NeverOverwrites(start: Cores, steps: seq<PoolStep>) {
    forall k | 0 <= k < |steps| :: !Overwrites(Run(start, steps[..k]), steps[k])
  }

  /** With positive demands, all counters agree with their entries at the end of a run exactly
      when no add of the run hit a core that already held the pod: a lost demand stays lost. */
  lemma {:induction false} ExactIffNeverOverwrites(start: Cores, steps: seq<PoolStep>)
    requires KeyedByName(start) && Positive(start)
    requires forall id | id in start :: Excess(start[id]) == 0
    requires forall s | s in steps :: AddsPositive(s)
    ensures (forall id | id in Run(start, steps) :: Excess(Run(start, steps)[id]) == 0)
            <==> NeverOverwrites(start, steps)
  {
    RunKeepsEntries(start, steps);
    if NeverOverwrites(start, steps) {
      forall id | id in start
        ensures Excess(Run(start, steps)[id]) == 0
      {
        ExcessOverRun(start, steps, id);
        NothingOverwritten(start, steps, id);
      }
    } else {
      var k :| 0 <= k < |steps| && Overwrites(Run(start, steps[..k]), steps[k]);
      RunKeepsEntries(start, steps[..k]);
      SomethingOverwritten(start, steps, k);
      ExcessOverRun(start, steps, steps[k].id);
    }
  }

  lemma {:induction false} NothingOverwritten(start: Cores, steps: seq<PoolStep>, id: CoreId)
    requires NeverOverwrites(start, steps)
    ensures OverwrittenIn(start, steps, id) == 0
  {
    if steps != [] {
      var before := steps[..|steps| - 1];
      assert forall k | 0 <= k < |before| :: before[k] == steps[k] && before[..k] == steps[..k];
      NothingOverwritten(start, before, id);
    }
  }

  lemma {:induction false} SomethingOverwritten(start: Cores, steps: seq<PoolStep>, k: nat)
    requires KeyedByName(start) && Positive(start) && forall s | s in steps :: AddsPositive(s)
    requires k < |steps| && Overwrites(Run(start, steps[..k]), steps[k])
    ensures 0 < OverwrittenIn(start, steps, steps[k].id)
  {
    var before, last := steps[..|steps| - 1], steps[|steps| - 1];
    assert last in steps;
    RunKeepsEntries(start, before);
    if k == |before| {
      assert steps[..k] == before;
      forall s | s in before ensures AddsNonNegative(s) { assert AddsPositive(s); }
      OverwrittenNonNegative(start, before, last.id);
    } else {
      assert before[..k] == steps[..k] && before[k] == steps[k];
      SomethingOverwritten(start, before, k);
    }
  }
}
