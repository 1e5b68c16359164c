/** Outcomes that a preemption check can have: how its traces grow, and traces in which chosen things
    happen. */
module PreemptionOutcomes {
  import opened Wrappers
  import opened CpuPool
  import opened PreemptionTraces

  // ----- traces grow at the end -----

  lemma FlattenAppend(traces: seq<seq<Preemption>>, trace: seq<Preemption>)
    ensures Flatten(traces + [trace]) == Flatten(traces) + trace
  {
    assert (traces + [trace])[..|traces|] == traces;
  }

  lemma PreemptsAppend(cores: Cores, targets: seq<CoreId>, demand: int, criticality: string,
                       traces: seq<seq<Preemption>>, id: CoreId, trace: seq<Preemption>)
    requires Preempts(cores, targets, demand, criticality, traces)
    requires PreemptsOnCore(Replay(cores, Flatten(traces)), id, demand, criticality, trace)
    ensures Preempts(cores, targets + [id], demand, criticality, traces + [trace])
  {
    forall k | 0 <= k < |targets + [id]|
      ensures PreemptsOnCore(Replay(cores, Flatten((traces + [trace])[..k])), (targets + [id])[k], demand,
                             criticality, (traces + [trace])[k])
    {
      assert (traces + [trace])[..k] == traces[..k];
      assert traces[..|traces|] == traces;
    }
  }

  lemma PermittedAppend(cores: Cores, trace: seq<Preemption>, p: Preemption)
    requires AllPermitted(cores, trace) && Permitted(Replay(cores, trace), p)
    ensures AllPermitted(cores, trace + [p])
    ensures Replay(cores, trace + [p]) == ApplyPreemption(Replay(cores, trace), p)
  {
    forall k | 0 <= k < |trace + [p]|
      ensures Permitted(Replay(cores, (trace + [p])[..k]), (trace + [p])[k])
    {
      assert (trace + [p])[..k] == trace[..k];
      assert trace[..|trace|] == trace;
    }
    assert (trace + [p])[..|trace|] == trace;
  }

  /** The first `n` victims of core `id` are handled and the others are still recorded there. */
  ghost predicate HandledSome(start: Cores, trace: seq<Preemption>, victims: seq<PodInfo>, n: nat, id: CoreId) {
    && |trace| == n <= |victims|
    && (forall k | 0 <= k < n :: trace[k].victim == victims[k] && trace[k].from == id)
    && AllPermitted(start, trace)
    && forall k | n <= k < |victims| ::
         && Holds(Replay(start, trace), id, victims[k].name)
         && Replay(start, trace)[id].pods[victims[k].name] == victims[k]
  }

  lemma HandledOneMore(start: Cores, trace: seq<Preemption>, victims: seq<PodInfo>, n: nat, id: CoreId, p: Preemption)
    requires HandledSome(start, trace, victims, n, id) && n < |victims|
    requires forall j, k | 0 <= j < k < |victims| :: victims[j].name != victims[k].name
    requires p.victim == victims[n] && p.from == id && Permitted(Replay(start, trace), p)
    ensures HandledSome(start, trace + [p], victims, n + 1, id)
    ensures Replay(start, trace + [p]) == ApplyPreemption(Replay(start, trace), p)
  {
    PermittedAppend(start, trace, p);
    forall k | n < k < |victims|
      ensures Holds(Replay(start, trace + [p]), id, victims[k].name)
      ensures Replay(start, trace + [p])[id].pods[victims[k].name] == victims[k]
    {
      assert victims[k].name != victims[n].name;
    }
  }

  // ----- the check in which no victim can be fetched -----

  ghost predicate NameKeyed(pods: map<string, PodInfo>) {
    forall name | name in pods :: pods[name].name == name
  }

  /** Every map of pods can be listed. */
  lemma {:induction false} PodsCanBeListed(pods: map<string, PodInfo>) returns (list: seq<PodInfo>)
    requires NameKeyed(pods)
    ensures Lists(list, pods)
    decreases |pods|
  {
    if pods == map[] {
      list := [];
    } else {
      var name :| name in pods;
      var rest := PodsCanBeListed(pods - {name});
      list := rest + [pods[name]];
      assert list[|rest|] == pods[name];
      forall other | other in pods
        ensures pods[other] in list
      {
        if other != name { assert (pods - {name})[other] in rest; }
      }
    }
  }

  predicate NoneFetched(trace: seq<Preemption>) {
    forall k | 0 <= k < |trace| :: trace[k].outcome.Unreachable?
  }

  lemma {:induction false} NoneFetchedChangesNothing(cores: Cores, trace: seq<Preemption>)
    requires NoneFetched(trace)
    ensures Replay(cores, trace) == cores
  {
    if trace != [] {
      NoneFetchedChangesNothing(cores, trace[..|trace| - 1]);
    }
  }

  lemma CoreWithoutFetch(cores: Cores, id: CoreId, demand: int, criticality: string) returns (trace: seq<Preemption>)
    requires KeyedByName(cores)
    ensures PreemptsOnCore(cores, id, demand, criticality, trace) && NoneFetched(trace)
  {
    trace := [];
    if Overloads(cores, id, demand) {
      var victims := PodsCanBeListed(PreemptablePods(PodsOn(cores, id), criticality));
      trace := seq(|victims|, k requires 0 <= k < |victims| => Preemption(victims[k], id, Unreachable));
      assert Victims(trace) == victims;
      forall k | 0 <= k < |trace|
        ensures Permitted(Replay(cores, trace[..k]), trace[k])
      {
        NoneFetchedChangesNothing(cores, trace[..k]);
        assert victims[k].name in PreemptablePods(PodsOn(cores, id), criticality);
      }
    }
  }

  /** A check may find every victim unreachable; it then leaves the pool as it is. */
  lemma {:induction false} CheckWithoutFetch(cores: Cores, targets: seq<CoreId>, demand: int, criticality: string)
    returns (traces: seq<seq<Preemption>>)
    requires KeyedByName(cores)
    ensures Preempts(cores, targets, demand, criticality, traces)
    ensures NoneFetched(Flatten(traces)) && Replay(cores, Flatten(traces)) == cores
  {
    if targets == [] {
      traces := [];
    } else {
      var n := |targets| - 1;
      var before := CheckWithoutFetch(cores, targets[..n], demand, criticality);
      var trace := CoreWithoutFetch(cores, targets[n], demand, criticality);
      PreemptsAppend(cores, targets[..n], demand, criticality, before, targets[n], trace);
      assert targets[..n] + [targets[n]] == targets;
      FlattenAppend(before, trace);
      traces := before + [trace];
    }
    NoneFetchedChangesNothing(cores, Flatten(traces));
  }

  /** In such a check each target is looked at on the pool as it was at the start. */
  lemma {:induction false} NoneFetchedUpTo(cores: Cores, traces: seq<seq<Preemption>>, k: nat)
    requires NoneFetched(Flatten(traces)) && k <= |traces|
    ensures Replay(cores, Flatten(traces[..k])) == cores
  {
    if k == |traces| {
      assert traces[..k] == traces;
      NoneFetchedChangesNothing(cores, Flatten(traces));
    } else {
      var n := |traces| - 1;
      var all, before := Flatten(traces), Flatten(traces[..n]);
      assert all == before + traces[n];
      assert forall j | 0 <= j < |before| :: before[j] == all[j];
      NoneFetchedUpTo(cores, traces[..n], k);
      assert traces[..n][..k] == traces[..k];
    }
  }

  // ----- a trace with a chosen start -----

  lemma {:induction false} LowestOf(cores: Cores, ids: set<CoreId>) returns (low: CoreId)
    requires ids != {} && forall id | id in ids :: id in cores
    ensures low in ids && forall id | id in ids :: cores[low].usage <= cores[id].usage
    decreases |ids|
  {
    low :| low in ids;
    if ids != {low} {
      var rest := LowestOf(cores, ids - {low});
      if cores[rest].usage < cores[low].usage {
        low := rest;
      }
    }
  }

  /** The search for the least-loaded core always has a result. */
  lemma SomeLeastLoaded(cores: Cores) returns (id: CoreId)
    ensures IsLeastLoaded(cores, id)
  {
    id := -1;
    if exists other :: other in cores && cores[other].usage < MAX_INT64 {
      id := LowestOf(cores, cores.Keys);
    }
  }

  /** A victim that can be fetched has some outcome. */
  lemma SomeDecision(cores: Cores, victim: PodInfo, from: CoreId) returns (p: Preemption)
    ensures p.victim == victim && p.from == from && !p.outcome.Unreachable? && Decided(cores, p)
  {
    var vacated := Vacated(cores, Preemption(victim, from, Unreachable));
    var core := SomeLeastLoaded(vacated);
    var fits := Usage(vacated, core) + victim.cpuMillis <= THRESHOLD_MILLIS;
    p := Preemption(victim, from, if fits then Migrated(core, None) else Evicted);
    assert Vacated(cores, p) == vacated;
  }

  lemma HandleNext(start: Cores, trace: seq<Preemption>, victims: seq<PodInfo>, id: CoreId, fetched: bool)
    returns (p: Preemption)
    requires HandledSome(start, trace, victims, |trace|, id) && |trace| < |victims|
    requires forall j, k | 0 <= j < k < |victims| :: victims[j].name != victims[k].name
    ensures HandledSome(start, trace + [p], victims, |trace| + 1, id)
    ensures p.outcome.Unreachable? <==> !fetched
  {
    p := Preemption(victims[|trace|], id, Unreachable);
    if fetched {
      p := SomeDecision(Replay(start, trace), victims[|trace|], id);
    }
    HandledOneMore(start, trace, victims, |trace|, id, p);
  }

  /** The remaining victims are handled in turn, all of them fetched or none. */
  lemma {:induction false} HandleRest(start: Cores, first: seq<Preemption>, victims: seq<PodInfo>, id: CoreId,
                                      fetched: bool)
    returns (trace: seq<Preemption>)
    requires HandledSome(start, first, victims, |first|, id)
    requires forall j, k | 0 <= j < k < |victims| :: victims[j].name != victims[k].name
    ensures first <= trace && HandledSome(start, trace, victims, |victims|, id)
    ensures forall k | |first| <= k < |trace| :: trace[k].outcome.Unreachable? <==> !fetched
    decreases |victims| - |first|
  {
    if |first| == |victims| {
      trace := first;
    } else {
      var p := HandleNext(start, first, victims, id, fetched);
      trace := HandleRest(start, first + [p], victims, id, fetched);
      assert trace[|first|] == (first + [p])[|first|];
    }
  }

  lemma VictimsFrom(pods: map<string, PodInfo>, victim: PodInfo) returns (victims: seq<PodInfo>)
    requires NameKeyed(pods) && victim.name in pods && pods[victim.name] == victim
    ensures Lists(victims, pods) && victims != [] && victims[0] == victim
  {
    var others := PodsCanBeListed(pods - {victim.name});
    victims := [victim] + others;
    forall name | name in pods
      ensures pods[name] in victims
    {
      if name != victim.name { assert (pods - {victim.name})[name] in others; }
    }
  }

  lemma HandledAll(cores: Cores, demand: int, criticality: string, victims: seq<PodInfo>, trace: seq<Preemption>,
                   id: CoreId)
    requires Overloads(cores, id, demand) && Lists(victims, PreemptablePods(PodsOn(cores, id), criticality))
    requires HandledSome(cores, trace, victims, |victims|, id)
    ensures PreemptsOnCore(cores, id, demand, criticality, trace)
  {
    assert Victims(trace) == victims;
  }

  lemma ListedAreRecorded(cores: Cores, id: CoreId, criticality: string, victims: seq<PodInfo>)
    requires Lists(victims, PreemptablePods(PodsOn(cores, id), criticality))
    ensures HandledSome(cores, [], victims, 0, id)
  {
    forall k | 0 <= k < |victims|
      ensures Holds(cores, id, victims[k].name) && cores[id].pods[victims[k].name] == victims[k]
    {
      assert victims[k].name in PreemptablePods(PodsOn(cores, id), criticality);
    }
  }

  lemma HandledFirst(cores: Cores, criticality: string, victims: seq<PodInfo>, p: Preemption)
    requires Lists(victims, PreemptablePods(PodsOn(cores, p.from), criticality))
    requires Permitted(cores, p) && victims != [] && victims[0] == p.victim
    ensures HandledSome(cores, [p], victims, 1, p.from)
    ensures Replay(cores, [p]) == ApplyPreemption(cores, p)
  {
    ListedAreRecorded(cores, p.from, criticality, victims);
    HandledOneMore(cores, [], victims, 0, p.from, p);
    assert [] + [p] == [p];
  }

  lemma NamedOnce(cores: Cores, id: CoreId, demand: int, criticality: string, trace: seq<Preemption>, j: nat, k: nat)
    requires PreemptsOnCore(cores, id, demand, criticality, trace) && j < k < |trace|
    ensures trace[j].victim.name != trace[k].victim.name
  {
    assert Victims(trace)[j].name != Victims(trace)[k].name;
  }

  lemma CoreTraceFrom(cores: Cores, demand: int, criticality: string, p: Preemption, fetched: bool)
    returns (trace: seq<Preemption>)
    requires KeyedByName(cores) && Overloads(cores, p.from, demand) && Permitted(cores, p)
    requires LowerOn(cores, p.from, criticality, p.victim.name)
    ensures PreemptsOnCore(cores, p.from, demand, criticality, trace) && [p] <= trace
    ensures forall k | 1 <= k < |trace| ::
              trace[k].victim.name != p.victim.name && (trace[k].outcome.Unreachable? <==> !fetched)
  {
    var victims := VictimsFrom(PreemptablePods(PodsOn(cores, p.from), criticality), p.victim);
    HandledFirst(cores, criticality, victims, p);
    trace := HandleRest(cores, [p], victims, p.from, fetched);
    HandledAll(cores, demand, criticality, victims, trace, p.from);
    forall k | 1 <= k < |trace|
      ensures trace[k].victim.name != p.victim.name
    {
      NamedOnce(cores, p.from, demand, criticality, trace, 0, k);
    }
  }

  lemma ReplayFirst(cores: Cores, p: Preemption, rest: seq<Preemption>)
    ensures Replay(cores, [p] + rest) == Replay(ApplyPreemption(cores, p), rest)
  {
    ReplayConcat(cores, [p], rest);
    assert [p][..0] == [];
  }

  lemma SplitCheck(cores: Cores, id: CoreId, demand: int, criticality: string, trace: seq<Preemption>,
                   p: Preemption, rest: seq<Preemption>)
    requires trace == [p] + rest && PreemptsOnCore(cores, id, demand, criticality, trace)
    ensures PreemptsOnCore(cores, id, demand, criticality, [p] + rest)
  {
  }

  lemma SplitOutcomes(trace: seq<Preemption>, p: Preemption, rest: seq<Preemption>, fetched: bool)
    requires trace == [p] + rest
    requires forall k | 1 <= k < |trace| ::
               trace[k].victim.name != p.victim.name && (trace[k].outcome.Unreachable? <==> !fetched)
    ensures forall k | 0 <= k < |rest| ::
              rest[k].victim.name != p.victim.name && (rest[k].outcome.Unreachable? <==> !fetched)
  {
    forall k | 0 <= k < |rest|
      ensures rest[k].victim.name != p.victim.name && (rest[k].outcome.Unreachable? <==> !fetched)
    {
      assert rest[k] == trace[k + 1];
    }
  }

  /** Any permitted preemption of a lower pod on an overloaded core can come first, with all other
      victims fetched after it or none. */
  lemma CoreStartingWith(cores: Cores, demand: int, criticality: string, p: Preemption, fetched: bool)
    returns (rest: seq<Preemption>)
    requires KeyedByName(cores) && Overloads(cores, p.from, demand) && Permitted(cores, p)
    requires LowerOn(cores, p.from, criticality, p.victim.name)
    ensures PreemptsOnCore(cores, p.from, demand, criticality, [p] + rest)
    ensures forall k | 0 <= k < |rest| ::
              && rest[k].victim.name != p.victim.name
              && (rest[k].outcome.Unreachable? <==> !fetched)
    ensures Replay(cores, [p] + rest) == Replay(ApplyPreemption(cores, p), rest)
  {
    var trace := CoreTraceFrom(cores, demand, criticality, p, fetched);
    rest := trace[1..];
    assert trace == [p] + rest;
    SplitCheck(cores, p.from, demand, criticality, trace, p, rest);
    SplitOutcomes(trace, p, rest, fetched);
    ReplayFirst(cores, p, rest);
  }

  // ----- what a trace publishes -----

  function Silent(p: Preemption): Preemption {
    if p.outcome.Migrated? then p.(outcome := Migrated(p.outcome.core, None)) else p
  }

  function SilentTrace(trace: seq<Preemption>): (silent: seq<Preemption>)
    ensures |silent| == |trace|
    ensures forall k | 0 <= k < |trace| :: silent[k] == Silent(trace[k])
  {
    seq(|trace|, k requires 0 <= k < |trace| => Silent(trace[k]))
  }

  function SilentTraces(traces: seq<seq<Preemption>>): (silent: seq<seq<Preemption>>)
    ensures |silent| == |traces|
    ensures forall k | 0 <= k < |traces| :: silent[k] == SilentTrace(traces[k])
  {
    seq(|traces|, k requires 0 <= k < |traces| => SilentTrace(traces[k]))
  }

  lemma {:induction false} SilentReplay(cores: Cores, trace: seq<Preemption>)
    ensures Replay(cores, SilentTrace(trace)) == Replay(cores, trace)
  {
    if trace != [] {
      var n := |trace| - 1;
      SilentReplay(cores, trace[..n]);
      assert SilentTrace(trace)[..n] == SilentTrace(trace[..n]);
    }
  }

  lemma SilentPermitted(cores: Cores, p: Preemption)
    ensures Permitted(cores, Silent(p)) <==> Permitted(cores, p)
  {
    assert Vacated(cores, Silent(p)) == Vacated(cores, p);
  }

  lemma SilentOnCore(cores: Cores, id: CoreId, demand: int, criticality: string, trace: seq<Preemption>)
    requires PreemptsOnCore(cores, id, demand, criticality, trace)
    ensures PreemptsOnCore(cores, id, demand, criticality, SilentTrace(trace))
  {
    var silent := SilentTrace(trace);
    assert Victims(silent) == Victims(trace);
    if Overloads(cores, id, demand) {
      forall k | 0 <= k < |silent|
        ensures Permitted(Replay(cores, silent[..k]), silent[k])
      {
        assert silent[..k] == SilentTrace(trace[..k]);
        SilentReplay(cores, trace[..k]);
        SilentPermitted(Replay(cores, trace[..k]), trace[k]);
      }
    } else {
      assert silent == [];
    }
  }

  lemma {:induction false} SilentFlatten(traces: seq<seq<Preemption>>)
    ensures Flatten(SilentTraces(traces)) == SilentTrace(Flatten(traces))
  {
    if traces != [] {
      var n := |traces| - 1;
      SilentFlatten(traces[..n]);
      assert SilentTraces(traces)[..n] == SilentTraces(traces[..n]);
    }
  }

  /** Whatever a check does to the pool it can also do without publishing anything. */
  lemma CheckWithoutPublishing(cores: Cores, targets: seq<CoreId>, demand: int, criticality: string,
                               traces: seq<seq<Preemption>>)
    requires Preempts(cores, targets, demand, criticality, traces)
    ensures Preempts(cores, targets, demand, criticality, SilentTraces(traces))
    ensures Replay(cores, Flatten(SilentTraces(traces))) == Replay(cores, Flatten(traces))
    ensures forall p | p in Flatten(SilentTraces(traces)) :: p.outcome.Migrated? ==> p.outcome.published == None
  {
    var silent := SilentTraces(traces);
    forall k | 0 <= k < |targets|
      ensures PreemptsOnCore(Replay(cores, Flatten(silent[..k])), targets[k], demand, criticality, silent[k])
    {
      assert silent[..k] == SilentTraces(traces[..k]);
      SilentFlatten(traces[..k]);
      SilentReplay(cores, Flatten(traces[..k]));
      SilentOnCore(Replay(cores, Flatten(traces[..k])), targets[k], demand, criticality, traces[k]);
    }
    SilentFlatten(traces);
    SilentReplay(cores, Flatten(traces));
  }
}
