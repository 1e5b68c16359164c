/** What one pressure event does, in the terms of the source: seconds, requests in millicores and the
    names of the levels. */
module PressureActions {
  import opened Wrappers
  import opened Criticality
  import opened Degradation
  import opened Tiers
  import opened Pressure
  import opened PressureRuns

  // ----- which tier -----

  /** Some pod carries the level. */
  predicate SomeCarries(e: Situation, level: string) {
    exists p | p in e.pods :: p.app != "" && p.app in e.rtData && e.rtData[p.app] == level
  }

  /** Those of the three levels that are present, Low before Middle before High. */
  function Levels(low: bool, middle: bool, high: bool): seq<string> {
    (if low then ["Low"] else []) + (if middle then ["Middle"] else []) + (if high then ["High"] else [])
  }

  lemma LevelsAscend(low: bool, middle: bool, high: bool)
    ensures Ascending(Levels(low, middle, high), CRITICALITY_RANK)
    ensures Levels(true, true, true) == ["Low", "Middle", "High"]
  {
    KnownRanksAreValid();
  }

  lemma LevelsListed(low: bool, middle: bool, high: bool, level: string)
    ensures level in Levels(low, middle, high) <==>
            (level == "Low" && low) || (level == "Middle" && middle) || (level == "High" && high)
  {
  }

  lemma ListedIffCarried(e: Situation, level: string)
    ensures level in TiersIn(e) <==>
            (level == "Low" || level == "Middle" || level == "High") && SomeCarries(e, level)
  {
    KnownRanksAreValid();
    assert SomeCarries(e, level) <==> exists p | p in e.pods :: Carries(p, e.rtData, level);
    assert level in TiersIn(e) <==> Present(e.pods, e.rtData, CRITICALITY_RANK, level);
  }

  /** The tiers of an event are the levels carried, Low before Middle before High. */
  lemma TiersInByName(e: Situation)
    ensures TiersIn(e) == Levels(SomeCarries(e, "Low"), SomeCarries(e, "Middle"), SomeCarries(e, "High"))
    ensures SomeCarries(e, "Low") && SomeCarries(e, "Middle") && SomeCarries(e, "High") ==>
              TiersIn(e) == ["Low", "Middle", "High"]
  {
    var low, middle, high := SomeCarries(e, "Low"), SomeCarries(e, "Middle"), SomeCarries(e, "High");
    LevelsAscend(low, middle, high);
    forall level
      ensures level in Levels(low, middle, high) <==> level in TiersIn(e)
    {
      ListedIffCarried(e, level);
      LevelsListed(low, middle, high, level);
    }
    TierListUnique(TiersIn(e), Levels(low, middle, high), CRITICALITY_RANK);
  }

  /** The tier an event acts on: the current one while it is present, else the lowest. */
  function ActedOn(s: Option<NodeState>, e: Situation): string
    requires TiersIn(e) != []
  {
    if s.Some? && s.value.currentTier in TiersIn(e) then s.value.currentTier else TiersIn(e)[0]
  }

  lemma ActedOnIsCurrent(s: Option<NodeState>, e: Situation)
    requires TiersIn(e) != []
    ensures Refreshed(s, e).currentTier == ActedOn(s, e)
  {
    CurrentTierHasPods(s, e);
    assert "" !in TiersIn(e);
  }

  // ----- what is done -----

  /** The highest request recorded for a pod of the tier. */
  predicate HighestRecorded(e: Situation, tier: string, milli: int) {
    && milli > -1
    && (exists p | p in PodsOfTier(e.pods, e.rtData, tier) :: p.name in e.podMilli && e.podMilli[p.name] == milli)
    && forall p | p in PodsOfTier(e.pods, e.rtData, tier) && p.name in e.podMilli :: e.podMilli[p.name] <= milli
  }

  /** No container of the pod asks for anything, so that lowering it needs no patch. */
  predicate AsksForNothing(p: Pod) {
    forall c | c in p.containers :: c.request.None? || c.request.value == 0
  }

  /** The attempt on the pod: it succeeds unless the pod needs a patch and the patch fails. */
  predicate LoweredOrFailed(ts: TierState, after: TierState, tier: string, e: Situation, p: Pod, action: Action) {
    if e.patchOk || AsksForNothing(p) then
      && action == Degraded(tier, p.name, e.overSec)
      && after.degradeCount == ts.degradeCount + 1 && after.lastDegradeTime == e.overSec
    else
      && action == DegradeFailed(tier, p.name, e.overSec)
      && after.degradeCount == ts.degradeCount && after.lastDegradeTime == ts.lastDegradeTime
  }

  /** The latches and actions on a tier whose highest recorded request is `milli`: an attempt is due from
      the first second on, until an eviction was tried, at first or 3 seconds after the last success; at
      10 or less the tier is marked, above it the highest pod is lowered, and a failed patch changes no
      latch. An eviction follows at 10 seconds if anything was lowered or marked. */
  lemma ActDecided(ts: TierState, tier: string, e: Situation, milli: int)
    requires HighestRecorded(e, tier, milli)
    ensures var (after, actions) := Act(ts, tier, e);
            var due := e.overSec >= 1 && !ts.evictTried
                       && (ts.degradeCount == 0 || e.overSec - ts.lastDegradeTime >= 3);
            && (Attempts(actions) <==> due)
            && (!due ==> after.degradeCount == ts.degradeCount && after.lastDegradeTime == ts.lastDegradeTime)
            && (due && milli <= 10 ==>
                  && actions != [] && actions[0] == FloorMarked(tier, e.overSec)
                  && after.degradeCount == 999 && after.lastDegradeTime == ts.lastDegradeTime)
            && (due && milli > 10 ==>
                  && actions != []
                  && exists p | p in PodsOfTier(e.pods, e.rtData, tier) ::
                       && p.name in e.podMilli && e.podMilli[p.name] == milli
                       && LoweredOrFailed(ts, after, tier, e, p, actions[0]))
            && (Evicts(actions) <==> e.overSec >= 10 && !ts.evictTried && after.degradeCount > 0)
            && (after.evictTried <==> ts.evictTried || Evicts(actions))
            && after.missingTicks == 0
  {
    var targets := PodsOfTier(e.pods, e.rtData, tier);
    var top := HighestCPU(targets, e.podMilli);
    var ready := ts.(missingTicks := 0);
    var (degraded, first) := DegradeStep(ready, tier, top, e);
    var (evicted, second) := EvictStep(degraded, tier, top, e);
    var p :| p in targets && p.name in e.podMilli && e.podMilli[p.name] == milli;
    assert top.Some? && e.podMilli[top.value.name] == milli;
    assert Act(ts, tier, e) == (evicted, first + second);
    assert first != [] ==> first[0] in first + second;
    assert second != [] ==> second[0] in first + second;
    assert DegradeSucceeds(top.value, e.patchOk) <==> e.patchOk || AsksForNothing(top.value);
  }

  /** Nothing is done to a tier of which no request is recorded. */
  lemma UnrecordedIsLeftAlone(ts: TierState, tier: string, e: Situation)
    requires !Measured(e, tier)
    ensures Act(ts, tier, e) == (ts.(missingTicks := 0), [])
  {
    var none: seq<Action> := [];
    assert none + none == none;
  }

  /** The same over every run, in terms of what was done before. */
  lemma EventDecided(signals: seq<Signal>, e: Situation, milli: int)
    requires e.pods != [] && TiersIn(e) != []
    requires HighestRecorded(e, ActedOn(HistoryOf(signals).state, e), milli)
    ensures var h, after := HistoryOf(signals), HistoryOf(signals + [Pressed(e)]);
            var tier := ActedOn(h.state, e);
            var due := e.overSec >= 1 && !EvictedFrom(h.log, tier)
                       && (!Started(h.log, tier) || e.overSec - LastSuccess(h.log, tier) >= 3);
            && h.log <= after.log
            && var actions := after.log[|h.log|..];
            && (Attempts(actions) <==> due)
            && (due ==> actions != []
                        && (actions[0].FloorMarked? <==> milli <= 10)
                        && (milli > 10 ==> exists p | p in PodsOfTier(e.pods, e.rtData, tier) ::
                              && p.name in e.podMilli && e.podMilli[p.name] == milli
                              && actions[0] == if e.patchOk || AsksForNothing(p) then Degraded(tier, p.name, e.overSec)
                                               else DegradeFailed(tier, p.name, e.overSec)))
            && (Evicts(actions) <==> e.overSec >= 10 && !EvictedFrom(h.log, tier) && Started(after.log, tier))
  {
    var h := HistoryOf(signals);
    var tier := ActedOn(h.state, e);
    assert (signals + [Pressed(e)])[..|signals|] == signals;
    ActedOnIsCurrent(h.state, e);
    HandleActsOnCurrent(h.state, e);
    RefreshedKeepsLatches(h.state, e, tier);
    RunsAreFaithful(signals);
    RunsAreFaithful(signals + [Pressed(e)]);
    ActDecided(LatchOf(h.state, tier), tier, e, milli);
    HandleLatches(h.state, e, tier);
    assert LatchesTell(LatchOf(h.state, tier), h.log, tier);
    var after := HistoryOf(signals + [Pressed(e)]);
    assert LatchesTell(LatchOf(after.state, tier), after.log, tier);
    assert after.log[|h.log|..] == Act(LatchOf(h.state, tier), tier, e).1;
  }

  /** A failed patch leaves the count, the clock and so the pacing as they were. */
  lemma FailedPatchChangesNoLatch(s: Option<NodeState>, e: Situation, milli: int)
    requires e.pods != [] && TiersIn(e) != [] && HighestRecorded(e, ActedOn(s, e), milli)
    requires exists a | a in Handle(s, e).1 :: a.DegradeFailed?
    ensures var before, after := LatchOf(s, ActedOn(s, e)), LatchOf(Handle(s, e).0, ActedOn(s, e));
            after.degradeCount == before.degradeCount && after.lastDegradeTime == before.lastDegradeTime
  {
    var tier := ActedOn(s, e);
    ActedOnIsCurrent(s, e);
    HandleActsOnCurrent(s, e);
    RefreshedKeepsLatches(s, e, tier);
    HandleLatches(s, e, tier);
    FirstActionFails(LatchOf(s, tier), tier, e);
  }

  lemma FirstActionFails(ts: TierState, tier: string, e: Situation)
    requires exists a | a in Act(ts, tier, e).1 :: a.DegradeFailed?
    ensures Act(ts, tier, e).0.degradeCount == ts.degradeCount
    ensures Act(ts, tier, e).0.lastDegradeTime == ts.lastDegradeTime
  {
    var top := HighestCPU(PodsOfTier(e.pods, e.rtData, tier), e.podMilli);
    var (degraded, first) := DegradeStep(ts.(missingTicks := 0), tier, top, e);
    var (evicted, second) := EvictStep(degraded, tier, top, e);
    assert Act(ts, tier, e) == (evicted, first + second);
  }

  // ----- the climb -----

  /** The pod was lowered by the event. */
  predicate WasLowered(actions: seq<Action>, podName: string) {
    actions != [] && actions[0].Degraded? && actions[0].podName == podName
  }

  /** After the event some container of the tier still asks for more than 10: it asked for more than 10,
      or more than 13 if its pod was just lowered by a fifth. */
  predicate StillAsks(e: Situation, tier: string, actions: seq<Action>) {
    exists p, c | p in e.pods && c in p.containers ::
      && p.app != "" && p.app in e.rtData && e.rtData[p.app] == tier
      && c.request.Some? && c.request.value > if WasLowered(actions, p.name) then 13 else 10
  }

  lemma ContainerStillAsks(c: Container)
    ensures RequestOf(DegradedContainer(c)) > 10 <==> c.request.Some? && c.request.value > 13
  {
  }

  lemma PatchedAt(e: Situation, actions: seq<Action>, k: nat)
    requires k < |e.pods|
    ensures |Patched(e, actions).pods| == |e.pods|
    ensures Patched(e, actions).pods[k]
            == if WasLowered(actions, e.pods[k].name) then DegradedPod(e.pods[k]) else e.pods[k]
  {
  }

  /** Position by position: a container asks for more than 10 afterwards. */
  lemma AskedAt(e: Situation, actions: seq<Action>, k: nat, j: nat)
    requires k < |e.pods| && j < |e.pods[k].containers|
    ensures var after := Patched(e, actions).pods[k];
            && after.app == e.pods[k].app && |after.containers| == |e.pods[k].containers|
            && (RequestOf(after.containers[j]) > 10 <==>
                && e.pods[k].containers[j].request.Some?
                && e.pods[k].containers[j].request.value > if WasLowered(actions, e.pods[k].name) then 13 else 10)
  {
    PatchedAt(e, actions, k);
    ContainerStillAsks(e.pods[k].containers[j]);
  }

  lemma ActionableStillAsks(e: Situation, tier: string, actions: seq<Action>)
    requires HasActionable(Patched(e, actions).pods, e.rtData, tier)
    ensures StillAsks(e, tier, actions)
  {
    var after := Patched(e, actions).pods;
    var p, c :| p in PodsOfTier(after, e.rtData, tier) && c in p.containers && RequestOf(c) > MIN_MILLI;
    var k :| 0 <= k < |after| && after[k] == p;
    var j :| 0 <= j < |p.containers| && p.containers[j] == c;
    PatchedAt(e, actions, k);
    AskedAt(e, actions, k, j);
    assert e.pods[k] in e.pods && e.pods[k].containers[j] in e.pods[k].containers;
  }

  lemma StillAskingIsActionable(e: Situation, tier: string, actions: seq<Action>, p: Pod, c: Container)
    requires p in e.pods && c in p.containers && Carries(p, e.rtData, tier)
    requires c.request.Some? && c.request.value > if WasLowered(actions, p.name) then 13 else 10
    ensures HasActionable(Patched(e, actions).pods, e.rtData, tier)
  {
    var after := Patched(e, actions).pods;
    var k :| 0 <= k < |e.pods| && e.pods[k] == p;
    var j :| 0 <= j < |p.containers| && p.containers[j] == c;
    PatchedAt(e, actions, k);
    AskedAt(e, actions, k, j);
    assert after[k] in PodsOfTier(after, e.rtData, tier);
    assert after[k].containers[j] in after[k].containers;
  }

  lemma StillAsksIsActionable(e: Situation, tier: string, actions: seq<Action>)
    ensures HasActionable(Patched(e, actions).pods, e.rtData, tier) <==> StillAsks(e, tier, actions)
  {
    if HasActionable(Patched(e, actions).pods, e.rtData, tier) {
      ActionableStillAsks(e, tier, actions);
    }
    if p, c :| p in e.pods && c in p.containers && Carries(p, e.rtData, tier)
               && c.request.Some? && c.request.value > if WasLowered(actions, p.name) then 13 else 10 {
      StillAskingIsActionable(e, tier, actions, p, c);
    }
  }

  /** An event moves on to the next tier if and only if the tier it acted on was lowered or marked, had its
      eviction, no container of it still asks for more than 10, and a higher tier is present. */
  lemma ClimbDecided(s: Option<NodeState>, e: Situation)
    requires e.pods != [] && TiersIn(e) != []
    ensures var tier := ActedOn(s, e);
            var latch := LatchOf(Handle(s, e).0, tier);
            && Handle(s, e).0.Some? && tier in TiersIn(e)
            && var i := FirstIndex(TiersIn(e), tier);
            && Handle(s, e).0.value.currentTier ==
               if latch.degradeCount > 0 && latch.evictTried && !StillAsks(e, tier, Handle(s, e).1)
                  && i + 1 < |TiersIn(e)|
               then TiersIn(e)[i + 1] else tier
  {
    ActedOnIsCurrent(s, e);
    HandleMovesIndex(s, e);
    StillAsksIsActionable(e, ActedOn(s, e), Handle(s, e).1);
    assert Refreshed(s, e).currentTierIdx == FirstIndex(TiersIn(e), ActedOn(s, e)) by {
      CurrentTierHasPods(s, e);
      KnownRanksAreValid();
    }
  }

  // ----- a tier without pods -----

  /** From any state: a current tier without pods is counted, and given up for the next higher one when it
      is missing for the second time. */
  lemma GivenUpAtTheSecondTime(s: NodeState, e: Situation)
    requires PodsOfTier(e.pods, e.rtData, s.currentTier) == []
    ensures var missed := TierOf(s, s.currentTier).missingTicks + 1;
            var next := NextHigherTier(s.currentTier, s.tiers, CRITICALITY_RANK);
            if missed < 2 || next.None? then
              && Process(s, e).1 == [] && Process(s, e).0.currentTier == s.currentTier
              && TierOf(Process(s, e).0, s.currentTier).missingTicks == missed
            else
              Process(s, e) == Process(SwitchTo(CountMissed(EnsureTier(s, s.currentTier)), next.value), e)
  {
    var ready := EnsureTier(s, s.currentTier);
    assert TierOf(ready, s.currentTier) == TierOf(s, s.currentTier);
    assert Process(s, e) == ProcessReady(ready, e);
  }
}
