/** Criticality preemption on one pool. A preemption records one victim and what became of it;
    a trace of them replays a whole check, whatever order maps were visited in and whichever
    API calls failed. */
module PreemptionTraces {
  import opened Wrappers
  import opened Criticality
  import opened CpuPool

  datatype Outcome =
    | Unreachable                                          // the victim could not be fetched
    | Migrated(core: CoreId, published: Option<string>)    // and whose status shows the new core
    | Evicted

  datatype Preemption = Preemption(victim: PodInfo, from: CoreId, outcome: Outcome)

  /** The pool once the victim has left the core it was found on. */
  function Vacated(cores: Cores, p: Preemption): Cores {
    RemovePod(cores, p.from, p.victim.name)
  }

  predicate Fits(cores: Cores, id: CoreId, pod: PodInfo) {
    id in cores && cores[id].usage + pod.cpuMillis <= THRESHOLD_MILLIS
  }

  function ApplyPreemption(cores: Cores, p: Preemption): Cores {
    match p.outcome
    case Unreachable => cores
    case Migrated(core, _) => AddPod(Vacated(cores, p), core, p.victim)
    case Evicted => Vacated(cores, p)
  }

  /** The victim moves to a core of minimum usage that can take it, and is evicted when such a
      core cannot. */
  ghost predicate Decided(cores: Cores, p: Preemption) {
    match p.outcome
    case Unreachable => true
    case Migrated(core, _) =>
      && IsLeastLoaded(Vacated(cores, p), core)
      && Usage(Vacated(cores, p), core) + p.victim.cpuMillis <= THRESHOLD_MILLIS
    case Evicted =>
      exists core :: IsLeastLoaded(Vacated(cores, p), core)
                     && Usage(Vacated(cores, p), core) + p.victim.cpuMillis > THRESHOLD_MILLIS
  }

  /** The victim is what the pool records on that core. */
  predicate Recorded(cores: Cores, p: Preemption) {
    Holds(cores, p.from, p.victim.name) && cores[p.from].pods[p.victim.name] == p.victim
  }

  ghost predicate Permitted(cores: Cores, p: Preemption) {
    Recorded(cores, p) && Decided(cores, p)
  }

  function Replay(cores: Cores, trace: seq<Preemption>): Cores {
    if trace == [] then cores else ApplyPreemption(Replay(cores, trace[..|trace| - 1]), trace[|trace| - 1])
  }

  ghost predicate AllPermitted(cores: Cores, trace: seq<Preemption>) {
    forall k | 0 <= k < |trace| :: Permitted(Replay(cores, trace[..k]), trace[k])
  }

  function Victims(trace: seq<Preemption>): (victims: seq<PodInfo>)
    ensures |victims| == |trace| && forall k | 0 <= k < |trace| :: victims[k] == trace[k].victim
  {
    seq(|trace|, k requires 0 <= k < |trace| => trace[k].victim)
  }

  /** The new demand would take the core above the threshold. */
  predicate Overloads(cores: Cores, id: CoreId, demand: int) {
    Usage(cores, id) + demand > THRESHOLD_MILLIS
  }

  /** One target core: nothing happens while the new demand stays within the threshold;
      otherwise each lower-criticality pod on the core is preempted once. */
  ghost predicate PreemptsOnCore(cores: Cores, id: CoreId, demand: int, criticality: string, trace: seq<Preemption>) {
    if Overloads(cores, id, demand) then
      && Lists(Victims(trace), PreemptablePods(PodsOn(cores, id), criticality))
      && (forall k | 0 <= k < |trace| :: trace[k].from == id)
      && AllPermitted(cores, trace)
    else trace == []
  }

  function Flatten(traces: seq<seq<Preemption>>): seq<Preemption> {
    if traces == [] then [] else Flatten(traces[..|traces| - 1]) + traces[|traces| - 1]
  }

  /** The check for a pod: its target cores in order, one trace for each. */
  ghost predicate Preempts(cores: Cores, targets: seq<CoreId>, demand: int, criticality: string,
                           traces: seq<seq<Preemption>>) {
    && |traces| == |targets|
    && forall k | 0 <= k < |targets| ::
         PreemptsOnCore(Replay(cores, Flatten(traces[..k])), targets[k], demand, criticality, traces[k])
  }

  // ----- the least-loaded core decides -----

  /** If the least-loaded core cannot take the pod then no core can. */
  lemma LeastLoadedDecides(cores: Cores, least: CoreId, pod: PodInfo)
    requires cores != map[] && InRange(cores) && IsLeastLoaded(cores, least)
    ensures least in cores
    ensures Fits(cores, least, pod) <==> exists id :: Fits(cores, id, pod)
  {
  }

  /** A fetched victim is evicted if and only if no core can take it; otherwise it lands on a core
      of minimum usage. Stated for pools whose counters are below the largest 64-bit value. */
  lemma EvictedIffNothingFits(cores: Cores, p: Preemption)
    requires Permitted(cores, p) && !p.outcome.Unreachable? && InRange(Vacated(cores, p))
    ensures p.outcome.Evicted? <==> forall id | id in cores :: !Fits(Vacated(cores, p), id, p.victim)
    ensures p.outcome.Migrated? ==>
              && p.outcome.core in cores
              && forall id | id in cores :: Usage(Vacated(cores, p), p.outcome.core) <= Usage(Vacated(cores, p), id)
  {
    assert p.from in Vacated(cores, p);
  }

  /** A victim that asks for more than the threshold is always evicted once it is fetched. */
  lemma OversizedVictimIsEvicted(cores: Cores, p: Preemption)
    requires Permitted(cores, p) && !p.outcome.Unreachable?
    requires p.victim.cpuMillis > THRESHOLD_MILLIS
    requires forall id | id in Vacated(cores, p) :: 0 <= Vacated(cores, p)[id].usage
    ensures p.outcome.Evicted?
  {
  }

  // ----- traces compose -----

  lemma {:induction false} ReplayConcat(cores: Cores, a: seq<Preemption>, b: seq<Preemption>)
    ensures Replay(cores, a + b) == Replay(Replay(cores, a), b)
  {
    if b == [] {
      assert a + b == a;
    } else {
      assert (a + b)[..|a + b| - 1] == a + b[..|b| - 1];
      ReplayConcat(cores, a, b[..|b| - 1]);
    }
  }

  lemma PermittedConcat(cores: Cores, a: seq<Preemption>, b: seq<Preemption>)
    requires AllPermitted(cores, a) && AllPermitted(Replay(cores, a), b)
    ensures AllPermitted(cores, a + b)
  {
    forall k | 0 <= k < |a + b|
      ensures Permitted(Replay(cores, (a + b)[..k]), (a + b)[k])
    {
      if k < |a| {
        assert (a + b)[..k] == a[..k];
      } else {
        assert (a + b)[..k] == a + b[..k - |a|];
        ReplayConcat(cores, a, b[..k - |a|]);
        assert Permitted(Replay(Replay(cores, a), b[..k - |a|]), b[k - |a|]);
      }
    }
  }

  lemma PermittedPrefix(cores: Cores, trace: seq<Preemption>)
    requires AllPermitted(cores, trace) && trace != []
    ensures AllPermitted(cores, trace[..|trace| - 1])
    ensures Permitted(Replay(cores, trace[..|trace| - 1]), trace[|trace| - 1])
  {
    var before := trace[..|trace| - 1];
    assert forall k | 0 <= k < |before| :: before[..k] == trace[..k] && before[k] == trace[k];
  }

  lemma PermittedUpTo(cores: Cores, trace: seq<Preemption>, k: nat)
    requires AllPermitted(cores, trace) && k < |trace|
    ensures AllPermitted(cores, trace[..k]) && Permitted(Replay(cores, trace[..k]), trace[k])
  {
    assert forall i | 0 <= i < k :: trace[..k][..i] == trace[..i] && trace[..k][i] == trace[i];
  }

  ghost predicate AllBelow(trace: seq<Preemption>, criticality: string) {
    forall k | 0 <= k < |trace| :: Rank(trace[k].victim.criticality) < Rank(criticality)
  }

  lemma CoreTraceFacts(cores: Cores, id: CoreId, demand: int, criticality: string, trace: seq<Preemption>)
    requires PreemptsOnCore(cores, id, demand, criticality, trace)
    ensures AllPermitted(cores, trace) && AllBelow(trace, criticality)
  {
  }

  /** A whole check is one permitted trace of victims below the preemptor. */
  lemma {:induction false} CheckIsPermitted(cores: Cores, targets: seq<CoreId>, demand: int, criticality: string,
                                            traces: seq<seq<Preemption>>)
    requires Preempts(cores, targets, demand, criticality, traces)
    ensures AllPermitted(cores, Flatten(traces)) && AllBelow(Flatten(traces), criticality)
  {
    if traces != [] {
      var n := |traces| - 1;
      PreemptsPrefix(cores, targets, demand, criticality, traces);
      CheckIsPermitted(cores, targets[..n], demand, criticality, traces[..n]);
      CoreTraceFacts(Replay(cores, Flatten(traces[..n])), targets[n], demand, criticality, traces[n]);
      PermittedConcat(cores, Flatten(traces[..n]), traces[n]);
    }
  }

  // ----- usage bound -----

  function Max(a: int, b: int): int {
    if a < b then b else a
  }

  /** Every core stays below the threshold or below what it had before. */
  ghost predicate WithinBound(before: Cores, after: Cores) {
    after.Keys == before.Keys
    && forall id | id in before :: after[id].usage <= Max(before[id].usage, THRESHOLD_MILLIS)
  }

  lemma StepKeepsNonNegative(cores: Cores, p: Preemption)
    requires KeyedByName(cores) && NonNegative(cores) && Permitted(cores, p)
    ensures KeyedByName(ApplyPreemption(cores, p)) && NonNegative(ApplyPreemption(cores, p))
  {
    assert 0 <= cores[p.from].pods[p.victim.name].cpuMillis;
  }

  lemma StepKeepsBound(cores: Cores, p: Preemption)
    requires KeyedByName(cores) && NonNegative(cores) && Permitted(cores, p)
    ensures WithinBound(cores, ApplyPreemption(cores, p))
    ensures KeyedByName(ApplyPreemption(cores, p)) && NonNegative(ApplyPreemption(cores, p))
  {
    assert 0 <= p.victim.cpuMillis by { assert cores[p.from].pods[p.victim.name] == p.victim; }
    StepKeepsNonNegative(cores, p);
  }

  lemma {:induction false} ReplayKeepsBound(cores: Cores, trace: seq<Preemption>)
    requires KeyedByName(cores) && NonNegative(cores) && AllPermitted(cores, trace)
    ensures WithinBound(cores, Replay(cores, trace))
    ensures KeyedByName(Replay(cores, trace)) && NonNegative(Replay(cores, trace))
  {
    if trace != [] {
      var before := trace[..|trace| - 1];
      PermittedPrefix(cores, trace);
      ReplayKeepsBound(cores, before);
      StepKeepsBound(Replay(cores, before), trace[|trace| - 1]);
    }
  }

  // ----- conservation -----

  ghost function TotalUsage(cores: Cores): int {
    if cores == map[] then 0
    else
      var id :| id in cores;
      cores[id].usage + TotalUsage(cores - {id})
  }

  lemma {:induction false} TotalUsageTake(cores: Cores, id: CoreId)
    requires id in cores
    ensures TotalUsage(cores) == cores[id].usage + TotalUsage(cores - {id})
    decreases |cores|
  {
    var first :| first in cores && TotalUsage(cores) == cores[first].usage + TotalUsage(cores - {first});
    if first != id {
      TotalUsageTake(cores - {first}, id);
      TotalUsageTake(cores - {id}, first);
      assert cores - {first} - {id} == cores - {id} - {first};
    }
  }

  lemma TotalUsagePut(cores: Cores, id: CoreId, core: Core)
    requires id in cores
    ensures TotalUsage(cores[id := core]) == TotalUsage(cores) - cores[id].usage + core.usage
  {
    TotalUsageTake(cores, id);
    TotalUsageTake(cores[id := core], id);
    assert cores[id := core] - {id} == cores - {id};
  }

  /** The victim is no longer recorded on any core for this preemption: it was evicted, or sent
      to a core the pool does not have. */
  predicate Departs(ids: set<CoreId>, p: Preemption) {
    p.outcome.Evicted? || (p.outcome.Migrated? && p.outcome.core !in ids)
  }

  /** The demand that left the pool. */
  function DepartedMillis(ids: set<CoreId>, trace: seq<Preemption>): int {
    if trace == [] then 0
    else
      var last := trace[|trace| - 1];
      DepartedMillis(ids, trace[..|trace| - 1]) + if Departs(ids, last) then last.victim.cpuMillis else 0
  }

  lemma StepConserves(cores: Cores, p: Preemption)
    requires Permitted(cores, p)
    ensures ApplyPreemption(cores, p).Keys == cores.Keys
    ensures TotalUsage(ApplyPreemption(cores, p))
            == TotalUsage(cores) - if Departs(cores.Keys, p) then p.victim.cpuMillis else 0
  {
    TotalUsagePut(cores, p.from, RemoveFromCore(cores[p.from], p.victim.name));
    if p.outcome.Migrated? && p.outcome.core in cores {
      var vacated, to := Vacated(cores, p), p.outcome.core;
      TotalUsagePut(vacated, to, AddPod(vacated, to, p.victim)[to]);
    }
  }

  lemma {:induction false} ReplayConserves(cores: Cores, trace: seq<Preemption>)
    requires AllPermitted(cores, trace)
    ensures Replay(cores, trace).Keys == cores.Keys
    ensures TotalUsage(Replay(cores, trace)) == TotalUsage(cores) - DepartedMillis(cores.Keys, trace)
  {
    if trace != [] {
      var before := trace[..|trace| - 1];
      PermittedPrefix(cores, trace);
      ReplayConserves(cores, before);
      StepConserves(Replay(cores, before), trace[|trace| - 1]);
    }
  }

  /** While counters are below the largest 64-bit value every migrated victim lands on a core of
      the pool: only evicted ones leave it. */
  lemma OnlyEvictedDepart(cores: Cores, trace: seq<Preemption>, k: nat)
    requires KeyedByName(cores) && NonNegative(cores) && InRange(cores)
    requires AllPermitted(cores, trace) && k < |trace|
    ensures Departs(cores.Keys, trace[k]) <==> trace[k].outcome.Evicted?
  {
    var before := trace[..k];
    PermittedUpTo(cores, trace, k);
    ReplayKeepsBound(cores, before);
    var now, p := Replay(cores, before), trace[k];
    if p.outcome.Migrated? {
      assert 0 <= now[p.from].pods[p.victim.name].cpuMillis;
      assert InRange(Vacated(now, p));
      EvictedIffNothingFits(now, p);
    }
  }

  // ----- frame -----

  ghost predicate SameEntries(before: Cores, after: Cores, name: string) {
    && after.Keys == before.Keys
    && forall id | id in before ::
         && (name in after[id].pods <==> name in before[id].pods)
         && (name in before[id].pods ==> after[id].pods[name] == before[id].pods[name])
  }

  lemma VacatingKeepsEntries(cores: Cores, p: Preemption, name: string)
    requires p.victim.name != name
    ensures SameEntries(cores, Vacated(cores, p), name)
  {
  }

  lemma AddingKeepsEntries(cores: Cores, id: CoreId, pod: PodInfo, name: string)
    requires pod.name != name
    ensures SameEntries(cores, AddPod(cores, id, pod), name)
  {
  }

  lemma StepKeepsEntries(cores: Cores, p: Preemption, name: string)
    requires p.victim.name != name
    ensures SameEntries(cores, ApplyPreemption(cores, p), name)
  {
    VacatingKeepsEntries(cores, p, name);
    if p.outcome.Migrated? {
      AddingKeepsEntries(Vacated(cores, p), p.outcome.core, p.victim, name);
    }
  }

  /** A pod that is nobody's victim keeps every entry. */
  lemma {:induction false} ReplayKeepsEntries(cores: Cores, trace: seq<Preemption>, name: string)
    requires forall k | 0 <= k < |trace| :: trace[k].victim.name != name
    ensures SameEntries(cores, Replay(cores, trace), name)
  {
    if trace != [] {
      ReplayKeepsEntries(cores, trace[..|trace| - 1], name);
      StepKeepsEntries(Replay(cores, trace[..|trace| - 1]), trace[|trace| - 1], name);
    }
  }

  /** Preemption invents no entry: each one in the pool afterwards was there before, perhaps on
      another core. */
  lemma {:induction false} ReplayInventsNoEntry(cores: Cores, trace: seq<Preemption>, id: CoreId, name: string)
    requires AllPermitted(cores, trace) && Holds(Replay(cores, trace), id, name)
    ensures exists from :: Holds(cores, from, name) && cores[from].pods[name] == Replay(cores, trace)[id].pods[name]
  {
    if trace != [] {
      var before, p := trace[..|trace| - 1], trace[|trace| - 1];
      PermittedPrefix(cores, trace);
      StepInventsNoEntry(Replay(cores, before), p, id, name);
      var from :| Holds(Replay(cores, before), from, name)
                  && Replay(cores, before)[from].pods[name] == Replay(cores, trace)[id].pods[name];
      ReplayInventsNoEntry(cores, before, from, name);
    }
  }

  lemma StepInventsNoEntry(cores: Cores, p: Preemption, id: CoreId, name: string)
    requires Permitted(cores, p) && Holds(ApplyPreemption(cores, p), id, name)
    ensures exists from ::
              Holds(cores, from, name) && cores[from].pods[name] == ApplyPreemption(cores, p)[id].pods[name]
  {
  }

  // ----- who is chosen -----

  /** The core records the pod with a criticality below the preemptor's. */
  predicate LowerOn(cores: Cores, id: CoreId, criticality: string, name: string) {
    name in PreemptablePods(PodsOn(cores, id), criticality)
  }

  predicate Chooses(trace: seq<Preemption>, name: string) {
    exists k :: 0 <= k < |trace| && trace[k].victim.name == name
  }

  /** On one target core a pod is chosen if and only if the core would be overloaded and records
      it with a lower criticality: this includes the preemptor itself. */
  lemma ChosenExactly(cores: Cores, id: CoreId, demand: int, criticality: string, trace: seq<Preemption>, name: string)
    requires KeyedByName(cores) && PreemptsOnCore(cores, id, demand, criticality, trace)
    ensures Chooses(trace, name) <==> Overloads(cores, id, demand) && LowerOn(cores, id, criticality, name)
  {
    if !(Overloads(cores, id, demand) && LowerOn(cores, id, criticality, name)) {
      NotLowerNotChosen(cores, id, demand, criticality, trace, name);
    } else {
      assert PreemptablePods(PodsOn(cores, id), criticality)[name] in Victims(trace);
      var k :| 0 <= k < |trace| && Victims(trace)[k] == PodsOn(cores, id)[name];
      assert trace[k].victim.name == name;
    }
  }

  /** The same with the levels named. */
  lemma ChosenByName(cores: Cores, id: CoreId, demand: int, trace: seq<Preemption>, criticality: string, name: string)
    requires KeyedByName(cores) && PreemptsOnCore(cores, id, demand, criticality, trace) && Overloads(cores, id, demand)
    ensures criticality == "High" ==>
              (Chooses(trace, name) <==> Holds(cores, id, name) && cores[id].pods[name].criticality != "High")
    ensures criticality == "Middle" ==>
              (Chooses(trace, name) <==> Holds(cores, id, name) && cores[id].pods[name].criticality != "High"
                                         && cores[id].pods[name].criticality != "Middle")
    ensures criticality != "High" && criticality != "Middle" ==> !Chooses(trace, name)
  {
    ChosenExactly(cores, id, demand, criticality, trace, name);
    if Holds(cores, id, name) {
      OutranksByName(criticality, cores[id].pods[name].criticality);
    }
  }

  /** No victim of a whole check is High, none is Middle unless the preemptor is High, and a Low
      preemptor or one of an unknown level has none. */
  lemma VictimsByName(cores: Cores, targets: seq<CoreId>, demand: int, criticality: string,
                      traces: seq<seq<Preemption>>, k: nat)
    requires Preempts(cores, targets, demand, criticality, traces) && k < |Flatten(traces)|
    ensures Flatten(traces)[k].victim.criticality != "High"
    ensures Flatten(traces)[k].victim.criticality == "Middle" ==> criticality == "High"
    ensures criticality == "High" || criticality == "Middle"
  {
    CheckIsPermitted(cores, targets, demand, criticality, traces);
    OutranksByName(criticality, Flatten(traces)[k].victim.criticality);
  }

  lemma NotLowerNotChosen(cores: Cores, id: CoreId, demand: int, criticality: string, trace: seq<Preemption>,
                          name: string)
    requires PreemptsOnCore(cores, id, demand, criticality, trace)
    requires !(Overloads(cores, id, demand) && LowerOn(cores, id, criticality, name))
    ensures !Chooses(trace, name)
  {
    forall k | 0 <= k < |trace|
      ensures trace[k].victim.name != name
    {
      assert Victims(trace)[k].name in PreemptablePods(PodsOn(cores, id), criticality);
    }
  }

  // ----- the whole check -----

  lemma PreemptsPrefix(cores: Cores, targets: seq<CoreId>, demand: int, criticality: string,
                       traces: seq<seq<Preemption>>)
    requires Preempts(cores, targets, demand, criticality, traces) && traces != []
    ensures var n := |traces| - 1;
            && Preempts(cores, targets[..n], demand, criticality, traces[..n])
            && PreemptsOnCore(Replay(cores, Flatten(traces[..n])), targets[n], demand, criticality, traces[n])
  {
    var n := |traces| - 1;
    forall k | 0 <= k < n
      ensures PreemptsOnCore(Replay(cores, Flatten(traces[..n][..k])), targets[..n][k], demand, criticality,
                             traces[..n][k])
    {
      assert traces[..n][..k] == traces[..k];
    }
  }

  /** What a check leaves behind, for any target cores, any visiting order and any API failures. */
  lemma CheckBoundsAndConserves(cores: Cores, targets: seq<CoreId>, demand: int, criticality: string,
                                traces: seq<seq<Preemption>>)
    requires KeyedByName(cores) && NonNegative(cores)
    requires Preempts(cores, targets, demand, criticality, traces)
    ensures var after, trace := Replay(cores, Flatten(traces)), Flatten(traces);
            && WithinBound(cores, after)
            && TotalUsage(after) == TotalUsage(cores) - DepartedMillis(cores.Keys, trace)
            && (InRange(cores) ==> forall p | p in trace :: Departs(cores.Keys, p) <==> p.outcome.Evicted?)
            && KeyedByName(after) && NonNegative(after)
  {
    var trace := Flatten(traces);
    CheckIsPermitted(cores, targets, demand, criticality, traces);
    ReplayKeepsBound(cores, trace);
    ReplayConserves(cores, trace);
    if InRange(cores) {
      forall k | 0 <= k < |trace|
        ensures Departs(cores.Keys, trace[k]) <==> trace[k].outcome.Evicted?
      {
        OnlyEvictedDepart(cores, trace, k);
      }
    }
  }

  /** No target core records the pod with a criticality below the preemptor's. */
  predicate LowerOnNone(cores: Cores, targets: seq<CoreId>, criticality: string, name: string) {
    forall k | 0 <= k < |targets| :: !LowerOn(cores, targets[k], criticality, name)
  }

  /** A pod that no target core records with a lower criticality is never a victim and keeps
      every entry, although victims move among the same cores meanwhile. */
  lemma {:induction false} CheckKeepsEntries(cores: Cores, targets: seq<CoreId>, demand: int, criticality: string,
                                             traces: seq<seq<Preemption>>, name: string)
    requires Preempts(cores, targets, demand, criticality, traces)
    requires LowerOnNone(cores, targets, criticality, name)
    ensures !Chooses(Flatten(traces), name)
    ensures SameEntries(cores, Replay(cores, Flatten(traces)), name)
  {
    if traces != [] {
      var n := |traces| - 1;
      PreemptsPrefix(cores, targets, demand, criticality, traces);
      CheckKeepsEntries(cores, targets[..n], demand, criticality, traces[..n], name);
      var now := Replay(cores, Flatten(traces[..n]));
      assert !LowerOn(cores, targets[n], criticality, name);
      assert !LowerOn(now, targets[n], criticality, name);
      NotLowerNotChosen(now, targets[n], demand, criticality, traces[n], name);
    }
    ReplayKeepsEntries(cores, Flatten(traces), name);
  }

  // ----- which lower pods are left -----

  /** Where the pod's last move leaves it: recorded on core `id` below the preemptor or not. */
  predicate LeftOn(cores: Cores, trace: seq<Preemption>, id: CoreId, criticality: string, name: string) {
    if trace == [] then LowerOn(cores, id, criticality, name)
    else
      var before, last := trace[..|trace| - 1], trace[|trace| - 1];
      if last.victim.name != name || last.outcome.Unreachable? then LeftOn(cores, before, id, criticality, name)
      else if last.outcome.Migrated? && last.outcome.core == id then id in cores
      else last.from != id && LeftOn(cores, before, id, criticality, name)
  }

  lemma LowerAfterStep(cores: Cores, p: Preemption, id: CoreId, criticality: string, name: string)
    requires Rank(p.victim.criticality) < Rank(criticality)
    ensures LowerOn(ApplyPreemption(cores, p), id, criticality, name) <==>
            if p.victim.name != name || p.outcome.Unreachable? then LowerOn(cores, id, criticality, name)
            else if p.outcome.Migrated? && p.outcome.core == id then id in cores
            else p.from != id && LowerOn(cores, id, criticality, name)
  {
  }

  lemma {:induction false} ReplayLeaves(cores: Cores, trace: seq<Preemption>, id: CoreId, criticality: string,
                                        name: string)
    requires AllBelow(trace, criticality)
    ensures Replay(cores, trace).Keys == cores.Keys
    ensures LowerOn(Replay(cores, trace), id, criticality, name) <==> LeftOn(cores, trace, id, criticality, name)
  {
    if trace != [] {
      var before := trace[..|trace| - 1];
      ReplayLeaves(cores, before, id, criticality, name);
      LowerAfterStep(Replay(cores, before), trace[|trace| - 1], id, criticality, name);
    }
  }

  /** After a whole check a core records a lower-criticality pod exactly when the pod's last move
      left it there; a later target can so put a pod back on a core already handled. */
  lemma LowerPodsLeft(cores: Cores, targets: seq<CoreId>, demand: int, criticality: string,
                      traces: seq<seq<Preemption>>, id: CoreId, name: string)
    requires Preempts(cores, targets, demand, criticality, traces)
    ensures LowerOn(Replay(cores, Flatten(traces)), id, criticality, name)
            <==> LeftOn(cores, Flatten(traces), id, criticality, name)
  {
    CheckIsPermitted(cores, targets, demand, criticality, traces);
    ReplayLeaves(cores, Flatten(traces), id, criticality, name);
  }
}
