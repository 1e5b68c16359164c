/** What a preemption check can promise whatever the map orders and API answers are, as conditions
    on the pool before the check. */
module PreemptionGuarantees {
  import opened Wrappers
  import opened CpuPool
  import opened PreemptionTraces
  import opened PreemptionOutcomes
  import opened Registration

  // ----- the check that has nothing to do -----

  /** No pod below the preemptor's rank is on a target core that the demand would overload. */
  predicate NothingToClear(cores: Cores, targets: seq<CoreId>, demand: int, criticality: string) {
    forall k | 0 <= k < |targets| && Overloads(cores, targets[k], demand) ::
      PreemptablePods(PodsOn(cores, targets[k]), criticality) == map[]
  }

  lemma TraceHasVictims(cores: Cores, id: CoreId, demand: int, criticality: string, trace: seq<Preemption>)
    requires PreemptsOnCore(cores, id, demand, criticality, trace) && trace != []
    ensures Overloads(cores, id, demand) && PreemptablePods(PodsOn(cores, id), criticality) != map[]
  {
    assert Victims(trace)[0].name in PreemptablePods(PodsOn(cores, id), criticality);
  }

  lemma NobodyToPreempt(cores: Cores, id: CoreId, demand: int, criticality: string, trace: seq<Preemption>)
    requires PreemptsOnCore(cores, id, demand, criticality, trace)
    requires Overloads(cores, id, demand) ==> PreemptablePods(PodsOn(cores, id), criticality) == map[]
    ensures trace == []
  {
    if trace != [] {
      TraceHasVictims(cores, id, demand, criticality, trace);
    }
  }

  lemma {:induction false} NothingToClearNothingDone(cores: Cores, targets: seq<CoreId>, demand: int,
                                                     criticality: string, traces: seq<seq<Preemption>>)
    requires Preempts(cores, targets, demand, criticality, traces)
    requires NothingToClear(cores, targets, demand, criticality)
    ensures Flatten(traces) == []
  {
    if traces != [] {
      var n := |traces| - 1;
      PreemptsPrefix(cores, targets, demand, criticality, traces);
      NothingToClearNothingDone(cores, targets[..n], demand, criticality, traces[..n]);
      NobodyToPreempt(cores, targets[n], demand, criticality, traces[n]);
    }
  }

  /** After the check, no target core that was overloaded before it records a lower pod. */
  predicate Cleared(before: Cores, after: Cores, targets: seq<CoreId>, demand: int, criticality: string) {
    forall k | 0 <= k < |targets| && Overloads(before, targets[k], demand) ::
      PreemptablePods(PodsOn(after, targets[k]), criticality) == map[]
  }

  /** A check is sure to clear its overloaded targets of lower-criticality pods, whatever the
      answers of the API server, if and only if there was nothing to clear. */
  lemma ClearsForSureExactly(cores: Cores, targets: seq<CoreId>, demand: int, criticality: string)
    requires KeyedByName(cores)
    ensures (forall traces | Preempts(cores, targets, demand, criticality, traces) ::
               Cleared(cores, Replay(cores, Flatten(traces)), targets, demand, criticality))
            <==> NothingToClear(cores, targets, demand, criticality)
  {
    if NothingToClear(cores, targets, demand, criticality) {
      forall traces | Preempts(cores, targets, demand, criticality, traces)
        ensures Cleared(cores, Replay(cores, Flatten(traces)), targets, demand, criticality)
      {
        NothingToClearNothingDone(cores, targets, demand, criticality, traces);
      }
    } else {
      var traces := CheckWithoutFetch(cores, targets, demand, criticality);
      assert !Cleared(cores, Replay(cores, Flatten(traces)), targets, demand, criticality);
    }
  }

  /** The same for a single overloaded core. */
  lemma CoreClearsForSureExactly(cores: Cores, id: CoreId, demand: int, criticality: string)
    requires KeyedByName(cores) && Overloads(cores, id, demand)
    ensures (forall trace | PreemptsOnCore(cores, id, demand, criticality, trace) ::
               PreemptablePods(PodsOn(Replay(cores, trace), id), criticality) == map[])
            <==> PreemptablePods(PodsOn(cores, id), criticality) == map[]
  {
    if PreemptablePods(PodsOn(cores, id), criticality) == map[] {
      forall trace | PreemptsOnCore(cores, id, demand, criticality, trace)
        ensures trace == []
      {
        NobodyToPreempt(cores, id, demand, criticality, trace);
      }
    } else {
      var trace := CoreWithoutFetch(cores, id, demand, criticality);
      NoneFetchedChangesNothing(cores, trace);
    }
  }

  /** The threshold in millicores: a check preempts on a core exactly when the demand would bring it above
      900 and it has a lower pod, and then takes every such pod. */
  lemma ChecksAgainstNineHundred(cores: Cores, id: CoreId, demand: int, criticality: string, trace: seq<Preemption>)
    requires PreemptsOnCore(cores, id, demand, criticality, trace)
    ensures trace != [] <==>
            Usage(cores, id) + demand > 900 && PreemptablePods(PodsOn(cores, id), criticality) != map[]
  {
    var lower := PreemptablePods(PodsOn(cores, id), criticality);
    if Usage(cores, id) + demand > 900 && lower != map[] {
      var name :| name in lower;
      assert lower[name] in Victims(trace);
    }
    if trace != [] {
      TraceHasVictims(cores, id, demand, criticality, trace);
    }
  }

  /** A fetched victim is evicted exactly when it would bring every core, its own without it included,
      above 900. */
  lemma EvictedAboveNineHundred(cores: Cores, p: Preemption)
    requires Permitted(cores, p) && !p.outcome.Unreachable? && InRange(Vacated(cores, p))
    ensures p.outcome.Evicted? <==>
            forall id | id in cores ::
              cores[id].usage + (if id == p.from then 0 else p.victim.cpuMillis) > 900
  {
    EvictedIffNothingFits(cores, p);
    var vacated := Vacated(cores, p);
    assert vacated.Keys == cores.Keys;
    forall id | id in cores
      ensures Fits(vacated, id, p.victim)
              <==> cores[id].usage + (if id == p.from then 0 else p.victim.cpuMillis) <= 900
    {
      assert vacated[id].usage == cores[id].usage - if id == p.from then p.victim.cpuMillis else 0;
    }
  }

  // ----- when a fetched victim can come back -----

  /** The core, once relieved of the pod's demand, has the lowest usage of the pool. */
  predicate LowestWithout(cores: Cores, id: CoreId, millis: int)
    requires id in cores
  {
    forall other | other in cores && other != id :: cores[id].usage - millis <= cores[other].usage
  }

  /** A fetched victim can be put back on the core it was taken from exactly when that core,
      counting the victim, is within the threshold and without it has the lowest usage. */
  lemma PutBackExactly(cores: Cores, id: CoreId, victim: PodInfo, published: Option<string>)
    requires Recorded(cores, Preemption(victim, id, Unreachable))
    requires InRange(Vacated(cores, Preemption(victim, id, Unreachable)))
    ensures Permitted(cores, Preemption(victim, id, Migrated(id, published))) <==>
            cores[id].usage <= THRESHOLD_MILLIS && LowestWithout(cores, id, victim.cpuMillis)
  {
    var vacated := Vacated(cores, Preemption(victim, id, Unreachable));
    assert vacated[id].usage == cores[id].usage - victim.cpuMillis;
    assert forall other | other in cores && other != id :: vacated[other] == cores[other];
  }

  /** If it is then strictly the lowest and within the threshold, a fetched victim does come back. */
  lemma PutBackForSure(cores: Cores, p: Preemption)
    requires Permitted(cores, p) && !p.outcome.Unreachable? && InRange(Vacated(cores, p))
    requires cores[p.from].usage <= THRESHOLD_MILLIS
    requires forall other | other in cores && other != p.from ::
               cores[p.from].usage - p.victim.cpuMillis < cores[other].usage
    ensures p.outcome.Migrated? && p.outcome.core == p.from
  {
    var vacated := Vacated(cores, p);
    assert vacated[p.from].usage == cores[p.from].usage - p.victim.cpuMillis;
    assert forall other | other in cores && other != p.from :: vacated[other] == cores[other];
    EvictedIffNothingFits(cores, p);
    assert Fits(vacated, p.from, p.victim);
  }

  // ----- where a victim can go -----

  /** A victim of core `id` can move to another core: that one has the lowest usage of all once the
      victim has left its core, and takes the victim within the threshold. */
  predicate MayTake(cores: Cores, id: CoreId, victim: PodInfo, to: CoreId) {
    && id in cores && to in cores && to != id
    && cores[to].usage + victim.cpuMillis <= THRESHOLD_MILLIS
    && cores[to].usage <= cores[id].usage - victim.cpuMillis
    && forall other | other in cores && other != id :: cores[to].usage <= cores[other].usage
  }

  lemma MigratesIfTaken(cores: Cores, id: CoreId, victim: PodInfo, to: CoreId, published: Option<string>)
    requires NonNegative(cores) && Recorded(cores, Preemption(victim, id, Unreachable)) && to in cores && to != id
    ensures Permitted(cores, Preemption(victim, id, Migrated(to, published))) <==> MayTake(cores, id, victim, to)
  {
    var p := Preemption(victim, id, Migrated(to, published));
    var vacated := Vacated(cores, p);
    assert 0 <= cores[id].pods[victim.name].cpuMillis;
    assert vacated[id].usage == cores[id].usage - victim.cpuMillis;
    assert forall other | other in cores && other != id :: vacated[other] == cores[other];
    assert vacated.Keys == cores.Keys;
  }

  /** Another core is low enough, and has the room, for a victim of core `id`. */
  predicate CanTake(cores: Cores, id: CoreId, victim: PodInfo, to: CoreId) {
    && id in cores && to in cores && to != id
    && cores[to].usage + victim.cpuMillis <= THRESHOLD_MILLIS
    && cores[to].usage <= cores[id].usage - victim.cpuMillis
  }

  lemma LowestTakes(cores: Cores, id: CoreId, victim: PodInfo, to: CoreId) returns (lowest: CoreId)
    requires CanTake(cores, id, victim, to)
    ensures MayTake(cores, id, victim, lowest)
  {
    lowest := LowestOf(cores, cores.Keys - {id});
  }

  /** Preemptions on one core only lower it, and only raise the other cores. */
  lemma {:induction false} OneCoreMovesOut(cores: Cores, id: CoreId, trace: seq<Preemption>)
    requires NonNegative(cores) && KeyedByName(cores) && AllPermitted(cores, trace) && id in cores
    requires forall k | 0 <= k < |trace| :: trace[k].from == id
    ensures Replay(cores, trace).Keys == cores.Keys
    ensures Replay(cores, trace)[id].usage <= cores[id].usage
    ensures forall other | other in cores && other != id :: cores[other].usage <= Replay(cores, trace)[other].usage
  {
    if trace != [] {
      var before, p := trace[..|trace| - 1], trace[|trace| - 1];
      PermittedPrefix(cores, trace);
      OneCoreMovesOut(cores, id, before);
      ReplayKeepsBound(cores, before);
      StepMovesOut(Replay(cores, before), p);
    }
  }

  lemma StepMovesOut(cores: Cores, p: Preemption)
    requires NonNegative(cores) && Permitted(cores, p)
    ensures ApplyPreemption(cores, p).Keys == cores.Keys
    ensures ApplyPreemption(cores, p)[p.from].usage <= cores[p.from].usage
    ensures forall other | other in cores && other != p.from ::
              cores[other].usage <= ApplyPreemption(cores, p)[other].usage <= cores[other].usage + p.victim.cpuMillis
  {
    assert 0 <= cores[p.from].pods[p.victim.name].cpuMillis;
  }

  predicate Moves(p: Preemption, id: CoreId, name: string) {
    p.victim.name == name && p.outcome.Migrated? && p.outcome.core != id
  }

  /** The pod is moved away from core `id`. */
  predicate MovedElsewhere(trace: seq<Preemption>, id: CoreId, name: string) {
    exists k :: 0 <= k < |trace| && Moves(trace[k], id, name)
  }

  /** The victim as the core records it when the check starts, and the pool at its turn. */
  lemma AtItsTurn(cores: Cores, id: CoreId, demand: int, criticality: string, trace: seq<Preemption>, k: nat)
    requires KeyedByName(cores) && NonNegative(cores)
    requires PreemptsOnCore(cores, id, demand, criticality, trace) && k < |trace|
    ensures LowerOn(cores, id, criticality, trace[k].victim.name) && trace[k].from == id
    ensures PodsOn(cores, id)[trace[k].victim.name] == trace[k].victim
    ensures var now := Replay(cores, trace[..k]);
            && Permitted(now, trace[k]) && KeyedByName(now) && NonNegative(now) && WithinBound(cores, now)
            && now[id].usage <= cores[id].usage
            && forall other | other in cores && other != id :: cores[other].usage <= now[other].usage
  {
    assert Victims(trace)[k].name in PreemptablePods(PodsOn(cores, id), criticality);
    PermittedUpTo(cores, trace, k);
    OneCoreMovesOut(cores, id, trace[..k]);
    ReplayKeepsBound(cores, trace[..k]);
  }

  lemma MovedHasRoom(cores: Cores, p: Preemption)
    requires NonNegative(cores) && Permitted(cores, p) && p.outcome.Migrated? && p.outcome.core != p.from
    requires InRange(cores) || p.outcome.core in cores
    ensures CanTake(cores, p.from, p.victim, p.outcome.core)
  {
    assert 0 <= cores[p.from].pods[p.victim.name].cpuMillis;
    if InRange(cores) {
      assert InRange(Vacated(cores, p));
      EvictedIffNothingFits(cores, p);
    }
    MigratesIfTaken(cores, p.from, p.victim, p.outcome.core, p.outcome.published);
  }

  lemma MovedIsTaken(cores: Cores, id: CoreId, demand: int, criticality: string, trace: seq<Preemption>, k: nat)
    requires KeyedByName(cores) && NonNegative(cores)
    requires PreemptsOnCore(cores, id, demand, criticality, trace) && k < |trace|
    requires trace[k].outcome.Migrated? && trace[k].outcome.core != id
    requires InRange(cores) || trace[k].outcome.core in cores
    ensures LowerOn(cores, id, criticality, trace[k].victim.name)
    ensures PodsOn(cores, id)[trace[k].victim.name] == trace[k].victim
    ensures CanTake(cores, id, trace[k].victim, trace[k].outcome.core)
  {
    AtItsTurn(cores, id, demand, criticality, trace, k);
    MovedHasRoom(Replay(cores, trace[..k]), trace[k]);
  }

  /** A pod that can be taken elsewhere can be the first to go, and the others unreachable. */
  lemma MoveFirst(cores: Cores, id: CoreId, demand: int, criticality: string, victim: PodInfo, to: CoreId,
                  published: Option<string>)
    returns (lowest: CoreId, rest: seq<Preemption>)
    requires KeyedByName(cores) && NonNegative(cores) && Overloads(cores, id, demand)
    requires LowerOn(cores, id, criticality, victim.name) && PodsOn(cores, id)[victim.name] == victim
    requires CanTake(cores, id, victim, to)
    ensures MayTake(cores, id, victim, lowest) && NoneFetched(rest)
    ensures var p := Preemption(victim, id, Migrated(lowest, published));
            && Permitted(cores, p)
            && PreemptsOnCore(cores, id, demand, criticality, [p] + rest)
            && Replay(cores, [p] + rest) == ApplyPreemption(cores, p)
  {
    lowest := LowestTakes(cores, id, victim, to);
    var p := Preemption(victim, id, Migrated(lowest, published));
    MigratesIfTaken(cores, id, victim, lowest, published);
    rest := CoreStartingWith(cores, demand, criticality, p, false);
    NoneFetchedChangesNothing(ApplyPreemption(cores, p), rest);
  }

  lemma TakenIsMoved(cores: Cores, id: CoreId, demand: int, criticality: string, victim: PodInfo, to: CoreId)
    returns (trace: seq<Preemption>)
    requires KeyedByName(cores) && NonNegative(cores) && Overloads(cores, id, demand)
    requires LowerOn(cores, id, criticality, victim.name) && PodsOn(cores, id)[victim.name] == victim
    requires CanTake(cores, id, victim, to)
    ensures PreemptsOnCore(cores, id, demand, criticality, trace) && MovedElsewhere(trace, id, victim.name)
  {
    var lowest, rest := MoveFirst(cores, id, demand, criticality, victim, to, None);
    trace := [Preemption(victim, id, Migrated(lowest, None))] + rest;
    assert Moves(trace[0], id, victim.name);
  }

  /** Some outcome of a check on one core moves a given lower pod elsewhere if and only if, before the
      check, another core has room for it and no more usage than this core without it. */
  lemma MovesElsewhereExactly(cores: Cores, id: CoreId, demand: int, criticality: string, name: string)
    requires KeyedByName(cores) && NonNegative(cores) && InRange(cores)
    requires Overloads(cores, id, demand) && LowerOn(cores, id, criticality, name)
    ensures (exists trace :: PreemptsOnCore(cores, id, demand, criticality, trace) && MovedElsewhere(trace, id, name))
            <==> exists to :: CanTake(cores, id, PodsOn(cores, id)[name], to)
  {
    var victim := PodsOn(cores, id)[name];
    forall trace: seq<Preemption> | PreemptsOnCore(cores, id, demand, criticality, trace)
                                    && MovedElsewhere(trace, id, name)
      ensures exists to :: CanTake(cores, id, victim, to)
    {
      var k :| 0 <= k < |trace| && Moves(trace[k], id, name);
      MovedIsTaken(cores, id, demand, criticality, trace, k);
    }
    if to :| CanTake(cores, id, victim, to) {
      var trace := TakenIsMoved(cores, id, demand, criticality, victim, to);
    }
  }

  lemma OneTargetCheck(cores: Cores, id: CoreId, demand: int, criticality: string, trace: seq<Preemption>)
    requires PreemptsOnCore(cores, id, demand, criticality, trace)
    ensures Preempts(cores, [id], demand, criticality, [trace]) && Flatten([trace]) == trace
  {
    OneTargetFlat([trace]);
  }

  lemma OneTargetFlat(traces: seq<seq<Preemption>>)
    requires |traces| == 1
    ensures Flatten(traces) == traces[0] && Flatten(traces[..0]) == []
  {
    assert traces == [] + [traces[0]] && traces[..0] == [];
    FlattenAppend([], traces[0]);
  }

  predicate AtMostOneLower(cores: Cores, id: CoreId, criticality: string) {
    forall a, b | a in PreemptablePods(PodsOn(cores, id), criticality)
                  && b in PreemptablePods(PodsOn(cores, id), criticality) :: a == b
  }

  lemma TwoListed(list: seq<PodInfo>, pods: map<string, PodInfo>)
    requires Lists(list, pods) && |list| > 1
    ensures list[0].name in pods && list[1].name in pods && list[0].name != list[1].name
  {
  }

  lemma AtMostOneVictim(cores: Cores, id: CoreId, demand: int, criticality: string, trace: seq<Preemption>)
    requires PreemptsOnCore(cores, id, demand, criticality, trace) && AtMostOneLower(cores, id, criticality)
    ensures trace == [] || trace == [trace[0]]
    ensures trace != [] ==>
              && Overloads(cores, id, demand) && trace[0].from == id && Permitted(cores, trace[0])
              && LowerOn(cores, id, criticality, trace[0].victim.name)
  {
    if trace != [] {
      var lower := PreemptablePods(PodsOn(cores, id), criticality);
      assert Victims(trace)[0].name in lower;
      if |trace| > 1 {
        TwoListed(Victims(trace), lower);
      }
      assert trace[..0] == [] && Permitted(Replay(cores, trace[..0]), trace[0]);
    }
  }

  // ----- a core all of whose victims are fetched -----

  predicate AllFetched(trace: seq<Preemption>) {
    forall k | 0 <= k < |trace| :: !trace[k].outcome.Unreachable?
  }

  function LowerPods(cores: Cores, id: CoreId, criticality: string): map<string, PodInfo> {
    PreemptablePods(PodsOn(cores, id), criticality)
  }

  /** The core has no lower pod after any check that can fetch every victim. */
  ghost predicate ClearsWhenFetched(cores: Cores, id: CoreId, demand: int, criticality: string) {
    forall trace | PreemptsOnCore(cores, id, demand, criticality, trace) && AllFetched(trace) ::
      LowerPods(Replay(cores, trace), id, criticality) == map[]
  }

  /** The usage of the core that its lower pods do not account for. */
  ghost function UsageAboveLower(cores: Cores, id: CoreId, criticality: string): int {
    Usage(cores, id) - SumMillis(LowerPods(cores, id, criticality))
  }

  /** The victim cannot come back in any order: the rest of the core leaves it no room, or some other
      core stays lower even if it takes all the other lower pods. */
  ghost predicate StaysAway(cores: Cores, id: CoreId, criticality: string, victim: PodInfo) {
    || UsageAboveLower(cores, id, criticality) + victim.cpuMillis > THRESHOLD_MILLIS
    || exists other :: other in cores && other != id
                       && cores[other].usage + SumMillis(LowerPods(cores, id, criticality)) - victim.cpuMillis
                          < UsageAboveLower(cores, id, criticality)
  }

  /** The pool once some lower pods of the core are gone, compared with the start: what the core lost
      is what those pods recorded, and no other core gained more. */
  ghost predicate Cleaning(start: Cores, now: Cores, id: CoreId, criticality: string) {
    && now.Keys == start.Keys && KeyedByName(now) && NonNegative(now)
    && UsageAboveLower(now, id, criticality) == UsageAboveLower(start, id, criticality)
    && forall other | other in start && other != id ::
         now[other].usage <= start[other].usage + SumMillis(LowerPods(start, id, criticality))
                             - SumMillis(LowerPods(now, id, criticality))
  }

  lemma LowerWithout(cores: Cores, p: Preemption, criticality: string)
    requires Permitted(cores, p) && LowerOn(cores, p.from, criticality, p.victim.name)
    requires !p.outcome.Unreachable? && !(p.outcome.Migrated? && p.outcome.core == p.from)
    ensures p.from in ApplyPreemption(cores, p)
    ensures LowerPods(ApplyPreemption(cores, p), p.from, criticality)
            == LowerPods(cores, p.from, criticality) - {p.victim.name}
    ensures ApplyPreemption(cores, p)[p.from].usage == cores[p.from].usage - p.victim.cpuMillis
  {
    var after := ApplyPreemption(cores, p);
    assert after[p.from] == RemoveFromCore(cores[p.from], p.victim.name);
  }

  /** A victim that stays away does not come back now either. */
  lemma DoesNotReturn(start: Cores, now: Cores, p: Preemption, criticality: string)
    requires Cleaning(start, now, p.from, criticality) && Permitted(now, p)
    requires LowerOn(now, p.from, criticality, p.victim.name) && StaysAway(start, p.from, criticality, p.victim)
    ensures !(p.outcome.Migrated? && p.outcome.core == p.from)
  {
    var lower := LowerPods(now, p.from, criticality);
    SumMillisTake(lower, p.victim.name);
    SumMillisNonNegative(lower - {p.victim.name});
    var vacated := Vacated(now, p);
    assert vacated[p.from].usage == now[p.from].usage - p.victim.cpuMillis;
    assert forall other | other in now && other != p.from :: vacated[other] == now[other];
    assert 0 <= now[p.from].pods[p.victim.name].cpuMillis;
  }

  lemma CleaningStep(start: Cores, now: Cores, p: Preemption, criticality: string)
    requires Cleaning(start, now, p.from, criticality) && Permitted(now, p) && !p.outcome.Unreachable?
    requires LowerOn(now, p.from, criticality, p.victim.name) && StaysAway(start, p.from, criticality, p.victim)
    ensures Cleaning(start, ApplyPreemption(now, p), p.from, criticality)
    ensures LowerPods(ApplyPreemption(now, p), p.from, criticality)
            == LowerPods(now, p.from, criticality) - {p.victim.name}
  {
    DoesNotReturn(start, now, p, criticality);
    var after := ApplyPreemption(now, p);
    LowerWithout(now, p, criticality);
    SumMillisTake(LowerPods(now, p.from, criticality), p.victim.name);
    StepKeepsBound(now, p);
    StepMovesOut(now, p);
    CleaningCarriesOn(start, now, after, p.from, criticality, p.victim.cpuMillis);
  }

  lemma CleaningCarriesOn(start: Cores, now: Cores, after: Cores, id: CoreId, criticality: string, millis: int)
    requires Cleaning(start, now, id, criticality) && id in now
    requires after.Keys == now.Keys && KeyedByName(after) && NonNegative(after)
    requires Usage(after, id) == Usage(now, id) - millis
    requires SumMillis(LowerPods(after, id, criticality)) == SumMillis(LowerPods(now, id, criticality)) - millis
    requires forall other | other in now && other != id :: after[other].usage <= now[other].usage + millis
    ensures Cleaning(start, after, id, criticality)
  {
  }

  /** Every lower pod of the core stays away once fetched. */
  ghost predicate AllStayAway(cores: Cores, id: CoreId, criticality: string) {
    forall name | name in LowerPods(cores, id, criticality) ::
      StaysAway(cores, id, criticality, LowerPods(cores, id, criticality)[name])
  }

  function NamesOf(trace: seq<Preemption>): set<string> {
    set k | 0 <= k < |trace| :: trace[k].victim.name
  }

  lemma OneMoreName(pods: map<string, PodInfo>, trace: seq<Preemption>, p: Preemption)
    ensures pods - NamesOf(trace + [p]) == pods - NamesOf(trace) - {p.victim.name}
  {
    assert forall k | 0 <= k < |trace| :: (trace + [p])[k] == trace[k];
    assert (trace + [p])[|trace|] == p;
    assert NamesOf(trace + [p]) == NamesOf(trace) + {p.victim.name};
  }

  lemma {:induction false} CleaningTrace(start: Cores, id: CoreId, demand: int, criticality: string,
                                         trace: seq<Preemption>, n: nat)
    requires KeyedByName(start) && NonNegative(start) && AllStayAway(start, id, criticality)
    requires PreemptsOnCore(start, id, demand, criticality, trace) && AllFetched(trace) && n <= |trace|
    ensures Cleaning(start, Replay(start, trace[..n]), id, criticality)
    ensures LowerPods(Replay(start, trace[..n]), id, criticality)
            == LowerPods(start, id, criticality) - NamesOf(trace[..n])
  {
    if n > 0 {
      CleaningTrace(start, id, demand, criticality, trace, n - 1);
      AtItsTurn(start, id, demand, criticality, trace, n - 1);
      HandledOnce(trace, n - 1);
      CleaningNext(start, Replay(start, trace[..n - 1]), NamesOf(trace[..n - 1]), trace[n - 1], criticality);
      OneMoreName(LowerPods(start, id, criticality), trace[..n - 1], trace[n - 1]);
      ReplayNext(start, trace, n - 1);
    }
  }

  lemma CleaningNext(start: Cores, now: Cores, names: set<string>, p: Preemption, criticality: string)
    requires Cleaning(start, now, p.from, criticality) && Permitted(now, p) && !p.outcome.Unreachable?
    requires AllStayAway(start, p.from, criticality)
    requires LowerOn(start, p.from, criticality, p.victim.name) && PodsOn(start, p.from)[p.victim.name] == p.victim
    requires LowerPods(now, p.from, criticality) == LowerPods(start, p.from, criticality) - names
    requires p.victim.name !in names
    ensures Cleaning(start, ApplyPreemption(now, p), p.from, criticality)
    ensures LowerPods(ApplyPreemption(now, p), p.from, criticality)
            == LowerPods(start, p.from, criticality) - names - {p.victim.name}
  {
    assert p.victim.name in LowerPods(now, p.from, criticality);
    assert LowerPods(start, p.from, criticality)[p.victim.name] == p.victim;
    CleaningStep(start, now, p, criticality);
  }

  lemma ReplayNext(cores: Cores, trace: seq<Preemption>, k: nat)
    requires k < |trace|
    ensures trace[..k + 1] == trace[..k] + [trace[k]]
    ensures Replay(cores, trace[..k + 1]) == ApplyPreemption(Replay(cores, trace[..k]), trace[k])
  {
    assert trace[..k + 1][..k] == trace[..k];
  }

  lemma HandledOnce(trace: seq<Preemption>, k: nat)
    requires k < |trace| && forall i, j | 0 <= i < j < |trace| :: Victims(trace)[i].name != Victims(trace)[j].name
    ensures trace[k].victim.name !in NamesOf(trace[..k])
  {
    assert forall i | 0 <= i < k :: trace[..k][i].victim.name == Victims(trace)[i].name;
    assert trace[k].victim.name == Victims(trace)[k].name;
  }

  /** It is enough that every lower pod stays away. */
  lemma StayingAwayClears(cores: Cores, id: CoreId, demand: int, criticality: string)
    requires KeyedByName(cores) && NonNegative(cores) && Overloads(cores, id, demand)
    requires AllStayAway(cores, id, criticality)
    ensures ClearsWhenFetched(cores, id, demand, criticality)
  {
    forall trace: seq<Preemption> | PreemptsOnCore(cores, id, demand, criticality, trace) && AllFetched(trace)
      ensures LowerPods(Replay(cores, trace), id, criticality) == map[]
    {
      CleaningTrace(cores, id, demand, criticality, trace, |trace|);
      assert trace[..|trace|] == trace;
      forall name | name in LowerPods(cores, id, criticality)
        ensures name in NamesOf(trace)
      {
        assert LowerPods(cores, id, criticality)[name] in Victims(trace);
        var k :| 0 <= k < |trace| && Victims(trace)[k] == LowerPods(cores, id, criticality)[name];
        assert trace[k].victim.name == name;
      }
    }
  }

  /** The core without the pod is too full for it or above another core. */
  predicate LeavesFirst(cores: Cores, id: CoreId, victim: PodInfo) {
    id in cores && (cores[id].usage > THRESHOLD_MILLIS || !LowestWithout(cores, id, victim.cpuMillis))
  }

  lemma ReturnsIfLowest(cores: Cores, p: Preemption)
    requires NonNegative(cores) && Recorded(cores, p) && p.outcome.Migrated? && p.outcome.core == p.from
    requires cores[p.from].usage <= THRESHOLD_MILLIS && LowestWithout(cores, p.from, p.victim.cpuMillis)
    ensures Permitted(cores, p) && p.from in ApplyPreemption(cores, p)
    ensures ApplyPreemption(cores, p)[p.from].pods == cores[p.from].pods
  {
    var vacated := Vacated(cores, p);
    assert 0 <= cores[p.from].pods[p.victim.name].cpuMillis;
    assert vacated[p.from].usage == cores[p.from].usage - p.victim.cpuMillis;
    assert forall other | other in cores && other != p.from :: vacated[other] == cores[other];
  }

  lemma FirstCanReturn(cores: Cores, id: CoreId, demand: int, criticality: string, name: string)
    returns (trace: seq<Preemption>)
    requires KeyedByName(cores) && NonNegative(cores) && Overloads(cores, id, demand)
    requires LowerOn(cores, id, criticality, name) && !LeavesFirst(cores, id, PodsOn(cores, id)[name])
    ensures PreemptsOnCore(cores, id, demand, criticality, trace) && AllFetched(trace)
    ensures name in LowerPods(Replay(cores, trace), id, criticality)
  {
    var p := Preemption(PodsOn(cores, id)[name], id, Migrated(id, None));
    ReturnsIfLowest(cores, p);
    var rest := CoreStartingWith(cores, demand, criticality, p, true);
    trace := [p] + rest;
    ReplayKeepsEntries(ApplyPreemption(cores, p), rest, name);
  }

  /** It is necessary that no lower pod comes back if it is the first to be fetched. */
  lemma ClearingNeedsFirstMoves(cores: Cores, id: CoreId, demand: int, criticality: string, name: string)
    requires KeyedByName(cores) && NonNegative(cores) && Overloads(cores, id, demand)
    requires ClearsWhenFetched(cores, id, demand, criticality) && LowerOn(cores, id, criticality, name)
    ensures LeavesFirst(cores, id, PodsOn(cores, id)[name])
  {
    if !LeavesFirst(cores, id, PodsOn(cores, id)[name]) {
      var trace := FirstCanReturn(cores, id, demand, criticality, name);
    }
  }

  /** For a core with one lower pod both coincide. */
  lemma OneLowerClearsExactly(cores: Cores, id: CoreId, demand: int, criticality: string, name: string)
    requires KeyedByName(cores) && NonNegative(cores) && Overloads(cores, id, demand)
    requires LowerOn(cores, id, criticality, name) && AtMostOneLower(cores, id, criticality)
    ensures ClearsWhenFetched(cores, id, demand, criticality) <==> LeavesFirst(cores, id, PodsOn(cores, id)[name])
  {
    var lower := LowerPods(cores, id, criticality);
    SumMillisTake(lower, name);
    assert lower - {name} == map[];
    if ClearsWhenFetched(cores, id, demand, criticality) {
      ClearingNeedsFirstMoves(cores, id, demand, criticality, name);
    }
    if LeavesFirst(cores, id, PodsOn(cores, id)[name]) {
      assert StaysAway(cores, id, criticality, lower[name]);
      StayingAwayClears(cores, id, demand, criticality);
    }
  }

  // ----- the preemptor as its own victim -----

  /** A check on one core chooses the preemptor itself under some outcome, and then under all,
      exactly when the core would be overloaded and records the pod with a lower criticality. On
      several cores ChosenExactly says the same of each at its turn. */
  lemma OwnVictimExactly(cores: Cores, id: CoreId, pod: PodInfo)
    requires KeyedByName(cores)
    ensures (exists traces :: Preempts(cores, [id], pod.cpuMillis, pod.criticality, traces)
                              && Chooses(Flatten(traces), pod.name))
            <==> Overloads(cores, id, pod.cpuMillis) && LowerOn(cores, id, pod.criticality, pod.name)
    ensures Overloads(cores, id, pod.cpuMillis) && LowerOn(cores, id, pod.criticality, pod.name) ==>
              forall traces | Preempts(cores, [id], pod.cpuMillis, pod.criticality, traces) ::
                Chooses(Flatten(traces), pod.name)
  {
    forall traces | Preempts(cores, [id], pod.cpuMillis, pod.criticality, traces)
      ensures Chooses(Flatten(traces), pod.name)
              <==> Overloads(cores, id, pod.cpuMillis) && LowerOn(cores, id, pod.criticality, pod.name)
    {
      assert traces == [traces[0]] && traces[..0] == [];
      FlattenAppend([], traces[0]);
      assert [] + [traces[0]] == traces && Flatten([]) + traces[0] == traces[0];
      ChosenExactly(cores, id, pod.cpuMillis, pod.criticality, traces[0], pod.name);
    }
    var traces := CheckWithoutFetch(cores, [id], pod.cpuMillis, pod.criticality);
  }

  /** On several cores one overloaded target that records the pod with a lower criticality is enough
      for some outcome, and a target that records it so is necessary. */
  lemma OwnVictimOnSomeTarget(cores: Cores, targets: seq<CoreId>, pod: PodInfo)
    requires KeyedByName(cores)
    ensures (exists k :: 0 <= k < |targets| && Overloads(cores, targets[k], pod.cpuMillis)
                         && LowerOn(cores, targets[k], pod.criticality, pod.name)) ==>
              exists traces :: Preempts(cores, targets, pod.cpuMillis, pod.criticality, traces)
                               && Chooses(Flatten(traces), pod.name)
    ensures (exists traces :: Preempts(cores, targets, pod.cpuMillis, pod.criticality, traces)
                              && Chooses(Flatten(traces), pod.name)) ==>
              !LowerOnNone(cores, targets, pod.criticality, pod.name)
  {
    if k :| 0 <= k < |targets| && Overloads(cores, targets[k], pod.cpuMillis)
            && LowerOn(cores, targets[k], pod.criticality, pod.name) {
      var traces := CheckWithoutFetch(cores, targets, pod.cpuMillis, pod.criticality);
      NoneFetchedUpTo(cores, traces, k);
      ChosenExactly(cores, targets[k], pod.cpuMillis, pod.criticality, traces[k], pod.name);
      ChosenInFlat(traces, k, pod.name);
    }
    if traces :| Preempts(cores, targets, pod.cpuMillis, pod.criticality, traces)
                 && Chooses(Flatten(traces), pod.name) {
      if LowerOnNone(cores, targets, pod.criticality, pod.name) {
        CheckKeepsEntries(cores, targets, pod.cpuMillis, pod.criticality, traces, pod.name);
      }
    }
  }

  lemma {:induction false} ChosenInFlat(traces: seq<seq<Preemption>>, k: nat, name: string)
    requires k < |traces| && Chooses(traces[k], name)
    ensures Chooses(Flatten(traces), name)
  {
    var n := |traces| - 1;
    var all, before := Flatten(traces), Flatten(traces[..n]);
    if k < n {
      ChosenInFlat(traces[..n], k, name);
      var j :| 0 <= j < |before| && before[j].victim.name == name;
      assert all[j] == before[j];
    } else {
      var j :| 0 <= j < |traces[n]| && traces[n][j].victim.name == name;
      assert all[|before| + j] == traces[n][j];
    }
  }

  /** What a registration looks like after any check, its own victim included: the requested cores
      record the pod as it is now, and another core records it with a lower criticality exactly
      when its last move left it there. */
  lemma RegistrationAfterCheck(start: Cores, targets: seq<CoreId>, pod: PodInfo, traces: seq<seq<Preemption>>,
                               id: CoreId)
    requires Preempts(start, targets, pod.cpuMillis, pod.criticality, traces) && id in start
    ensures var end := Register(Replay(start, Flatten(traces)), pod);
            && id in end
            && if id in pod.coreSet then Matches(end, id, pod.name, pod.cpuMillis, pod.criticality)
               else LowerOn(end, id, pod.criticality, pod.name)
                    <==> LeftOn(start, Flatten(traces), id, pod.criticality, pod.name)
  {
    var checked := Replay(start, Flatten(traces));
    CheckIsPermitted(start, targets, pod.cpuMillis, pod.criticality, traces);
    ReplayLeaves(start, Flatten(traces), id, pod.criticality, pod.name);
    ReinstallMeaning(checked, pod.coreSet, pod);
    if id in pod.coreSet && Registered(checked, pod.coreSet, pod.name, pod.cpuMillis, pod.criticality) {
      var k :| 0 <= k < |pod.coreSet| && pod.coreSet[k] == id;
      assert Matches(checked, pod.coreSet[k], pod.name, pod.cpuMillis, pod.criticality);
    }
  }
}
