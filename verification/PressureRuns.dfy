/** What holds over every run of pressure events: the missing-tier branch is dead, degradations
    are paced, evictions are latched, and higher tiers wait for lower ones. */
module PressureRuns {
  import opened Wrappers
  import opened Criticality
  import opened Degradation
  import opened Tiers
  import opened Pressure

  function LatchOf(s: Option<NodeState>, tier: string): TierState {
    if s.Some? then TierOf(s.value, tier) else FRESH_TIER
  }

  /** Looking the current tier up again changes no tier's latches. */
  lemma RefreshedKeepsLatches(s: Option<NodeState>, e: Situation, tier: string)
    ensures TierOf(Refreshed(s, e), tier) == LatchOf(s, tier)
  {
  }

  // ----- the missing-tier branch is dead -----

  /** Whenever the handler reaches the current tier, the tier is listed and has a pod. */
  lemma CurrentTierHasPods(s: Option<NodeState>, e: Situation)
    requires Refreshed(s, e).tiers != []
    ensures var cur := Refreshed(s, e).currentTier;
            && Guarded(Refreshed(s, e)) == Refreshed(s, e)
            && cur in TiersIn(e) && cur in CRITICALITY_RANK
            && PodsOfTier(e.pods, e.rtData, cur) != []
  {
  }

  lemma ProcessWithPods(s: NodeState, e: Situation)
    requires PodsOfTier(e.pods, e.rtData, s.currentTier) != []
    ensures var (acted, actions) := ActCurrent(s, e);
            Process(s, e) == (Climb(acted, Patched(e, actions)), actions)
  {
    var ready := EnsureTier(s, s.currentTier);
    assert TierOf(ready, s.currentTier) == TierOf(s, s.currentTier);
    assert ActCurrent(ready, e).0.perTier == ActCurrent(s, e).0.perTier;
    assert Process(s, e) == ProcessReady(ready, e);
  }

  /** So one event acts on the current tier once and may climb once. */
  lemma HandleActsOnCurrent(s: Option<NodeState>, e: Situation)
    requires e.pods != [] && TiersIn(e) != []
    ensures var (acted, actions) := ActCurrent(Refreshed(s, e), e);
            Handle(s, e) == (Some(Climb(acted, Patched(e, actions))), actions)
  {
    CurrentTierHasPods(s, e);
    ProcessWithPods(Refreshed(s, e), e);
  }

  /** No tier of the node was ever counted as missing. */
  ghost predicate NeverMissing(s: NodeState) {
    forall tier :: TierOf(s, tier).missingTicks == 0
  }

  /** Climbing changes no tier's latches. */
  lemma ClimbKeepsLatches(s: NodeState, e: Situation, tier: string)
    ensures TierOf(Climb(s, e), tier) == TierOf(s, tier)
    ensures Climb(s, e).tiers == s.tiers
  {
  }

  lemma HandleLatches(s: Option<NodeState>, e: Situation, tier: string)
    ensures e.pods == [] ==> Handle(s, e) == (s, [])
    ensures e.pods != [] ==> Handle(s, e).0.Some?
    ensures e.pods != [] ==>
              var cur := Refreshed(s, e).currentTier;
              TierOf(Handle(s, e).0.value, tier)
              == if TiersIn(e) != [] && tier == cur then Act(LatchOf(s, cur), cur, e).0 else LatchOf(s, tier)
  {
    if e.pods != [] {
      RefreshedKeepsLatches(s, e, tier);
      if TiersIn(e) != [] {
        HandleActsOnCurrent(s, e);
        ClimbKeepsLatches(ActCurrent(Refreshed(s, e), e).0, Patched(e, ActCurrent(Refreshed(s, e), e).1), tier);
        RefreshedKeepsLatches(s, e, Refreshed(s, e).currentTier);
      }
    }
  }

  lemma ActNeverMisses(ts: TierState, tier: string, e: Situation)
    ensures Act(ts, tier, e).0.missingTicks == 0
  {
  }

  lemma HandleNeverMisses(s: Option<NodeState>, e: Situation)
    requires s.Some? ==> NeverMissing(s.value)
    ensures Handle(s, e).0.Some? ==> NeverMissing(Handle(s, e).0.value)
  {
    var cur := Refreshed(s, e).currentTier;
    ActNeverMisses(LatchOf(s, cur), cur, e);
    forall tier {
      HandleLatches(s, e, tier);
    }
  }

  /** Over every run from the empty state. */
  lemma {:induction false} MissingTicksStayZero(signals: seq<Signal>)
    ensures HistoryOf(signals).state.Some? ==> NeverMissing(HistoryOf(signals).state.value)
  {
    if signals != [] {
      var before, last := signals[..|signals| - 1], signals[|signals| - 1];
      MissingTicksStayZero(before);
      if last.Pressed? {
        HandleNeverMisses(HistoryOf(before).state, last.e);
      }
    }
  }

  // ----- pacing and latching -----

  function Successes(log: seq<Action>, tier: string): nat {
    if log == [] then 0
    else
      var last := log[|log| - 1];
      Successes(log[..|log| - 1], tier) + if last.Degraded? && last.tier == tier then 1 else 0
  }

  /** When the tier was last degraded; 0 before the first time. */
  function LastSuccess(log: seq<Action>, tier: string): int {
    if log == [] then 0
    else
      var last := log[|log| - 1];
      if last.Degraded? && last.tier == tier then last.at else LastSuccess(log[..|log| - 1], tier)
  }

  /** The tier was degraded or marked as being at its floor. */
  predicate Started(log: seq<Action>, tier: string) {
    exists k :: 0 <= k < |log| && log[k].tier == tier && (log[k].Degraded? || log[k].FloorMarked?)
  }

  predicate EvictedFrom(log: seq<Action>, tier: string) {
    exists k :: 0 <= k < |log| && log[k].tier == tier && log[k].EvictionTried?
  }

  /** What a tier's latches say about what was done since the state was cleared. */
  predicate LatchesTell(ts: TierState, log: seq<Action>, tier: string) {
    && 0 <= ts.degradeCount
    && (ts.degradeCount > 0 <==> Started(log, tier))
    && (ts.evictTried <==> EvictedFrom(log, tier))
    && ts.lastDegradeTime == LastSuccess(log, tier)
    && (Successes(log, tier) >= 1 ==> ts.degradeCount > 0 && ts.lastDegradeTime >= 3 * Successes(log, tier) - 2)
  }

  /** What may be done to a tier after what was done before. */
  predicate AllowedNext(log: seq<Action>, a: Action) {
    && !EvictedFrom(log, a.tier)
    && (a.Degraded? ==> a.at >= 1 && (Successes(log, a.tier) >= 1 ==> a.at - LastSuccess(log, a.tier) >= 3))
    && (a.EvictionTried? ==> a.at >= 10 && Started(log, a.tier))
  }

  /** Each action was allowed after those before it. */
  ghost predicate Lawful(log: seq<Action>) {
    forall k | 0 <= k < |log| :: AllowedNext(log[..k], log[k])
  }

  lemma LawfulAppend(log: seq<Action>, a: Action)
    requires Lawful(log) && AllowedNext(log, a)
    ensures Lawful(log + [a])
  {
    forall k | 0 <= k < |log + [a]|
      ensures AllowedNext((log + [a])[..k], (log + [a])[k])
    {
      assert (log + [a])[..k] == log[..k];
      assert log[..|log|] == log;
    }
  }

  /** How one more action changes what a log says of a tier. */
  lemma LogAppend(log: seq<Action>, a: Action, tier: string)
    ensures var mine := a.tier == tier;
            && Successes(log + [a], tier) == Successes(log, tier) + (if mine && a.Degraded? then 1 else 0)
            && LastSuccess(log + [a], tier) == (if mine && a.Degraded? then a.at else LastSuccess(log, tier))
            && (Started(log + [a], tier) <==> Started(log, tier) || (mine && (a.Degraded? || a.FloorMarked?)))
            && (EvictedFrom(log + [a], tier) <==> EvictedFrom(log, tier) || (mine && a.EvictionTried?))
  {
  }

  /** The latches after one action on the tier. */
  predicate LatchedBy(ts: TierState, a: Action, after: TierState) {
    match a
    case Degraded(_, _, at) => after == ts.(degradeCount := ts.degradeCount + 1, lastDegradeTime := at)
    case DegradeFailed(_, _, _) => after == ts
    case FloorMarked(_, _) => after == ts.(degradeCount := FLOOR_MARK)
    case EvictionTried(_, _, _) => after == ts.(evictTried := true)
  }

  lemma OneMoreAction(ts: TierState, log: seq<Action>, a: Action, after: TierState)
    requires Lawful(log) && LatchesTell(ts, log, a.tier)
    requires AllowedNext(log, a) && LatchedBy(ts, a, after)
    ensures Lawful(log + [a]) && LatchesTell(after, log + [a], a.tier)
  {
    LogAppend(log, a, a.tier);
    LawfulAppend(log, a);
  }

  lemma DegradeStepLawful(ts: TierState, log: seq<Action>, tier: string, top: Option<Pod>, e: Situation)
    requires top.Some? ==> top.value.name in e.podMilli
    requires Lawful(log) && LatchesTell(ts, log, tier)
    ensures var (after, actions) := DegradeStep(ts, tier, top, e);
            && Lawful(log + actions) && LatchesTell(after, log + actions, tier)
            && forall a | a in actions :: a.tier == tier
  {
    var (after, actions) := DegradeStep(ts, tier, top, e);
    if actions == [] {
      assert log + actions == log;
    } else {
      OneMoreAction(ts, log, actions[0], after);
    }
  }

  lemma EvictStepLawful(ts: TierState, log: seq<Action>, tier: string, top: Option<Pod>, e: Situation)
    requires Lawful(log) && LatchesTell(ts, log, tier)
    ensures var (after, actions) := EvictStep(ts, tier, top, e);
            && Lawful(log + actions) && LatchesTell(after, log + actions, tier)
            && forall a | a in actions :: a.tier == tier
  {
    var (after, actions) := EvictStep(ts, tier, top, e);
    if actions == [] {
      assert log + actions == log;
    } else {
      OneMoreAction(ts, log, actions[0], after);
    }
  }

  lemma ActLawful(ts: TierState, log: seq<Action>, tier: string, e: Situation)
    requires Lawful(log) && LatchesTell(ts, log, tier)
    ensures var (after, actions) := Act(ts, tier, e);
            && Lawful(log + actions) && LatchesTell(after, log + actions, tier)
            && forall a | a in actions :: a.tier == tier
  {
    var top := HighestCPU(PodsOfTier(e.pods, e.rtData, tier), e.podMilli);
    var ready := ts.(missingTicks := 0);
    DegradeStepLawful(ready, log, tier, top, e);
    var (degraded, first) := DegradeStep(ready, tier, top, e);
    EvictStepLawful(degraded, log + first, tier, top, e);
    var (evicted, second) := EvictStep(degraded, tier, top, e);
    assert log + (first + second) == log + first + second;
  }

  /** Actions on one tier say nothing new about another. */
  lemma {:induction false} OtherTierUnaffected(ts: TierState, log: seq<Action>, actions: seq<Action>, tier: string)
    requires LatchesTell(ts, log, tier) && forall a | a in actions :: a.tier != tier
    ensures LatchesTell(ts, log + actions, tier)
  {
    if actions == [] {
      assert log + actions == log;
    } else {
      var before, last := actions[..|actions| - 1], actions[|actions| - 1];
      OtherTierUnaffected(ts, log, before, tier);
      assert log + actions == log + before + [last];
      LogAppend(log + before, last, tier);
    }
  }

  /** The log is lawful and the latches of every tier agree with it. */
  ghost predicate Faithful(h: History) {
    Lawful(h.log) && forall tier :: LatchesTell(LatchOf(h.state, tier), h.log, tier)
  }

  lemma HandleFaithful(h: History, e: Situation)
    requires Faithful(h)
    ensures Faithful(StepHistory(h, Pressed(e)))
  {
    var after := StepHistory(h, Pressed(e));
    var actions := Handle(h.state, e).1;
    var cur := Refreshed(h.state, e).currentTier;
    if e.pods != [] && TiersIn(e) != [] {
      HandleActsOnCurrent(h.state, e);
      RefreshedKeepsLatches(h.state, e, cur);
      ActLawful(LatchOf(h.state, cur), h.log, cur, e);
    } else {
      assert actions == [] && h.log + [] == h.log;
    }
    forall tier
      ensures LatchesTell(LatchOf(after.state, tier), after.log, tier)
    {
      HandleLatches(h.state, e, tier);
      if tier != cur || TiersIn(e) == [] {
        OtherTierUnaffected(LatchOf(h.state, tier), h.log, actions, tier);
      }
    }
  }

  lemma {:induction false} RunsAreFaithful(signals: seq<Signal>)
    ensures Faithful(HistoryOf(signals))
  {
    if signals == [] {
    } else {
      var before, last := signals[..|signals| - 1], signals[|signals| - 1];
      RunsAreFaithful(before);
      if last.Pressed? {
        HandleFaithful(HistoryOf(before), last.e);
      }
    }
  }

  /** The last success of a lawful log is no earlier than any other. */
  lemma {:induction false} LastSuccessIsLatest(log: seq<Action>, j: nat)
    requires Lawful(log) && j < |log| && log[j].Degraded?
    ensures Successes(log, log[j].tier) >= 1 && log[j].at <= LastSuccess(log, log[j].tier)
  {
    var before, last := log[..|log| - 1], log[|log| - 1];
    assert AllowedNext(log[..|log| - 1], log[|log| - 1]);
    assert forall k | 0 <= k < |before| :: before[..k] == log[..k] && before[k] == log[k];
    if j < |before| {
      LastSuccessIsLatest(before, j);
    }
  }

  /** Two successful degradations of a tier since the state was cleared are at least 3 seconds
      apart in the pressure durations they were made at, whatever happened in between. */
  lemma DegradationsArePaced(signals: seq<Signal>, j: nat, k: nat)
    requires j < k < |HistoryOf(signals).log|
    requires HistoryOf(signals).log[j].Degraded? && HistoryOf(signals).log[k].Degraded?
    requires HistoryOf(signals).log[j].tier == HistoryOf(signals).log[k].tier
    ensures HistoryOf(signals).log[k].at - HistoryOf(signals).log[j].at >= 3
  {
    RunsAreFaithful(signals);
    var log := HistoryOf(signals).log;
    var before := log[..k];
    assert forall i | 0 <= i < k :: before[..i] == log[..i] && before[i] == log[i];
    LastSuccessIsLatest(before, j);
    LawfulUpTo(log, k);
  }

  lemma LawfulUpTo(log: seq<Action>, k: nat)
    requires Lawful(log) && k < |log|
    ensures AllowedNext(log[..k], log[k])
  {
  }

  lemma EvictedBefore(log: seq<Action>, k: nat, j: nat)
    requires k < j <= |log| && log[k].EvictionTried?
    ensures EvictedFrom(log[..j], log[k].tier)
  {
  }

  /** An eviction is tried only after 10 seconds of pressure and after the tier was degraded or
      marked, and since the state was cleared nothing at all is done to the tier after it. */
  lemma EvictionIsLatched(signals: seq<Signal>, k: nat)
    requires k < |HistoryOf(signals).log| && HistoryOf(signals).log[k].EvictionTried?
    ensures var log := HistoryOf(signals).log;
            && log[k].at >= 10 && Started(log[..k], log[k].tier)
            && forall j | 0 <= j < |log| && j != k && log[j].tier == log[k].tier :: j < k && !log[j].EvictionTried?
  {
    RunsAreFaithful(signals);
    var log := HistoryOf(signals).log;
    LawfulUpTo(log, k);
    forall j | 0 <= j < |log| && j != k && log[j].tier == log[k].tier
      ensures j < k && !log[j].EvictionTried?
    {
      LawfulUpTo(log, j);
      if j < k {
        assert log[..k][j] == log[j];
      } else {
        EvictedBefore(log, k, j);
      }
    }
  }

  /** After n successful degradations of a tier since the state was cleared, n at least 1, the
      tier's clock shows at least 3n - 2. */
  lemma ClockShowsPacing(signals: seq<Signal>, tier: string)
    requires Successes(HistoryOf(signals).log, tier) >= 1
    ensures LatchOf(HistoryOf(signals).state, tier).lastDegradeTime >= 3 * Successes(HistoryOf(signals).log, tier) - 2
  {
    RunsAreFaithful(signals);
    assert LatchesTell(LatchOf(HistoryOf(signals).state, tier), HistoryOf(signals).log, tier);
  }

  // ----- lower tiers first -----

  predicate Below(t: string, cur: string) {
    t in CRITICALITY_RANK && cur in CRITICALITY_RANK && CRITICALITY_RANK[t] < CRITICALITY_RANK[cur]
  }

  /** Every listed tier below the current one is exhausted. */
  predicate Ordered(s: NodeState) {
    forall t | t in s.tiers && Below(t, s.currentTier) :: Exhausted(TierOf(s, t))
  }

  /** No tier that is not exhausted is present below the current one, if that is still present. */
  predicate BelowExhausted(s: Option<NodeState>, e: Situation) {
    s.Some? && s.value.currentTier in TiersIn(e) ==>
      forall t | t in TiersIn(e) && Below(t, s.value.currentTier) :: Exhausted(TierOf(s.value, t))
  }

  /** Where an event starts, the tiers below the current one are exhausted exactly when no
      tier that is not has appeared there. */
  lemma RefreshedOrder(s: Option<NodeState>, e: Situation)
    ensures Ordered(Refreshed(s, e)) <==> BelowExhausted(s, e)
  {
  }

  /** Climbing one step up the list keeps the order: the tier left behind is exhausted. */
  lemma ClimbKeepsOrder(s: NodeState, e: Situation)
    requires Ascending(s.tiers, CRITICALITY_RANK) && s.currentTier in s.tiers
    ensures Ordered(Climb(s, e)) <==> Ordered(s)
  {
  }

  /** After an event the tiers below the current one are exhausted exactly when none appeared
      there that was not: only a newcomer can break the order. */
  lemma HandleOrder(s: Option<NodeState>, e: Situation)
    requires e.pods != []
    ensures Handle(s, e).0.Some? && (Ordered(Handle(s, e).0.value) <==> BelowExhausted(s, e))
  {
    var start := Refreshed(s, e);
    RefreshedOrder(s, e);
    if TiersIn(e) != [] {
      HandleActsOnCurrent(s, e);
      CurrentTierHasPods(s, e);
      var cur := start.currentTier;
      var mid := ActCurrent(start, e).0;
      assert forall t | t != cur :: TierOf(mid, t) == TierOf(start, t);
      assert Ordered(mid) <==> Ordered(start);
      ClimbKeepsOrder(mid, Patched(e, ActCurrent(start, e).1));
    }
  }

  /** No tier newly appears below the current one, if that is still present. */
  predicate NoNewcomerBelow(s: Option<NodeState>, e: Situation) {
    s.Some? && s.value.currentTier in TiersIn(e) ==>
      forall t | t in TiersIn(e) && Below(t, s.value.currentTier) :: t in s.value.tiers
  }

  /** No event of the run brings a newcomer below the tier that is current then. */
  predicate NoNewcomers(signals: seq<Signal>) {
    signals != [] ==>
      var before, last := signals[..|signals| - 1], signals[|signals| - 1];
      NoNewcomers(before) && (last.Pressed? && last.e.pods != [] ==> NoNewcomerBelow(HistoryOf(before).state, last.e))
  }

  lemma {:induction false} OrderOverRuns(signals: seq<Signal>)
    requires NoNewcomers(signals)
    ensures HistoryOf(signals).state.Some? ==> Ordered(HistoryOf(signals).state.value)
  {
    if signals != [] {
      var before, last := signals[..|signals| - 1], signals[|signals| - 1];
      OrderOverRuns(before);
      if last.Pressed? && last.e.pods != [] {
        HandleOrder(HistoryOf(before).state, last.e);
      }
    }
  }

  /** In a run without newcomers below the current tier, whatever an event does is done to a
      tier all of whose lower present tiers were degraded or marked, and had their eviction,
      before. */
  lemma LowerTiersFirst(signals: seq<Signal>, e: Situation, a: Action, lower: string)
    requires NoNewcomers(signals) && (e.pods != [] ==> NoNewcomerBelow(HistoryOf(signals).state, e))
    requires a in Handle(HistoryOf(signals).state, e).1
    requires lower in TiersIn(e) && Below(lower, a.tier)
    ensures Started(HistoryOf(signals).log, lower) && EvictedFrom(HistoryOf(signals).log, lower)
  {
    var h := HistoryOf(signals);
    OrderOverRuns(signals);
    RunsAreFaithful(signals);
    RefreshedOrder(h.state, e);
    HandleActsOnCurrent(h.state, e);
    var start := Refreshed(h.state, e);
    var cur := start.currentTier;
    RefreshedKeepsLatches(h.state, e, cur);
    ActLawful(LatchOf(h.state, cur), h.log, cur, e);
    assert a.tier == cur;
    RefreshedKeepsLatches(h.state, e, lower);
    assert LatchesTell(LatchOf(h.state, lower), h.log, lower);
  }

  // ----- what an event must do -----

  /** Some pod of the tier has a recorded request. */
  predicate Measured(e: Situation, tier: string) {
    exists p | p in PodsOfTier(e.pods, e.rtData, tier) :: p.name in e.podMilli && e.podMilli[p.name] > -1
  }

  /** The pod is one of the tier's with the highest recorded request. */
  predicate IsHighest(e: Situation, tier: string, podName: string) {
    && podName in e.podMilli
    && (exists p | p in PodsOfTier(e.pods, e.rtData, tier) :: p.name == podName)
    && forall p | p in PodsOfTier(e.pods, e.rtData, tier) && p.name in e.podMilli ::
         e.podMilli[p.name] <= e.podMilli[podName]
  }

  predicate Evicts(actions: seq<Action>) {
    exists a | a in actions :: a.EvictionTried?
  }

  predicate Lowers(actions: seq<Action>) {
    exists a | a in actions :: a.Degraded? || a.FloorMarked?
  }

  predicate Attempts(actions: seq<Action>) {
    exists a | a in actions :: !a.EvictionTried?
  }

  /** A tier with a recorded pod is degraded, or marked, whenever that is due, and evicted from
      as soon as 10 seconds are over unless nothing was ever degraded or marked. */
  lemma ActWhenDue(ts: TierState, tier: string, e: Situation)
    requires Measured(e, tier)
    ensures var actions := Act(ts, tier, e).1;
            && (Attempts(actions) <==> DegradeDue(ts, e.overSec))
            && (ts.degradeCount >= 0 ==>
                  (Evicts(actions) <==> e.overSec >= 10 && !ts.evictTried && (ts.degradeCount > 0 || Lowers(actions))))
  {
    var top := HighestCPU(PodsOfTier(e.pods, e.rtData, tier), e.podMilli);
    var (degraded, first) := DegradeStep(ts.(missingTicks := 0), tier, top, e);
    var (evicted, second) := EvictStep(degraded, tier, top, e);
    assert top.Some?;
    assert Act(ts, tier, e).1 == first + second;
    assert first != [] ==> first[0] in first + second;
    assert second != [] ==> second[0] in first + second;
  }

  /** Each time the pod with the highest request is taken, and a tier is marked only when even
      that pod is at the minimum. */
  lemma ActOnHighest(ts: TierState, tier: string, e: Situation, a: Action)
    requires a in Act(ts, tier, e).1
    ensures a.tier == tier && a.at == e.overSec
    ensures !a.FloorMarked? ==> IsHighest(e, tier, a.podName)
    ensures a.FloorMarked? ==>
              forall p | p in PodsOfTier(e.pods, e.rtData, tier) && p.name in e.podMilli ::
                e.podMilli[p.name] <= MIN_MILLI
  {
  }

  /** The state points at the given tier of its list. */
  predicate PointsAt(s: NodeState, i: int) {
    s.currentTierIdx == i && 0 <= i < |s.tiers| && s.tiers[i] == s.currentTier
  }

  /** The tier acted on is exhausted, nothing in it can be lowered, and a higher tier is present. */
  predicate MovesUp(start: NodeState, after: NodeState, e: Situation) {
    && Exhausted(TierOf(after, start.currentTier))
    && !HasActionable(e.pods, e.rtData, start.currentTier)
    && start.currentTierIdx + 1 < |after.tiers|
  }

  /** Before and after the tier is handled the index points at the current tier; it moves up by
      one exactly when the tier acted on is done with and a higher one is present. */
  lemma HandleMovesIndex(s: Option<NodeState>, e: Situation)
    requires e.pods != [] && TiersIn(e) != []
    ensures Handle(s, e).0.Some?
    ensures Handle(s, e).0.value.tiers == TiersIn(e) && PointsAt(Refreshed(s, e), Refreshed(s, e).currentTierIdx)
    ensures var start, after := Refreshed(s, e), Handle(s, e).0.value;
            PointsAt(after, start.currentTierIdx + if MovesUp(start, after, Patched(e, Handle(s, e).1)) then 1 else 0)
  {
    HandleActsOnCurrent(s, e);
    CurrentTierHasPods(s, e);
    KnownRanksAreValid();
    var start := Refreshed(s, e);
    var cur := start.currentTier;
    var mid := ActCurrent(start, e).0;
    ClimbKeepsLatches(mid, Patched(e, ActCurrent(start, e).1), cur);
    NextIsSuccessor(start.tiers, start.currentTierIdx, CRITICALITY_RANK);
    ListedOnce(start.tiers, start.currentTierIdx);
  }

  lemma ListedOnce(tiers: seq<string>, i: nat)
    requires Ascending(tiers, CRITICALITY_RANK)
    ensures i + 1 < |tiers| ==> FirstIndex(tiers, tiers[i + 1]) == i + 1
  {
  }

  // ----- when the escalation stalls -----

  /** The signal leaves an exhausted current tier where it is: the tier is still present and some
      container of it asks for more than the minimum, or no higher tier is present. */
  predicate Stalls(signal: Signal, tier: string) {
    match signal
    case Pressed(e) =>
      || e.pods == []
      || (tier in TiersIn(e) && (HasActionable(e.pods, e.rtData, tier)
                                 || NextHigherTier(tier, TiersIn(e), CRITICALITY_RANK).None?))
    case Ignored => true
    case Cleared => false
  }

  lemma ExhaustedDoesNothing(ts: TierState, tier: string, e: Situation)
    requires Exhausted(ts)
    ensures Act(ts, tier, e) == (ts.(missingTicks := 0), [])
  {
    var none: seq<Action> := [];
    assert none + none == none;
  }

  /** One event on an exhausted current tier that is still present. */
  lemma StalledEvent(s: NodeState, e: Situation)
    requires e.pods != [] && s.currentTier in TiersIn(e) && Exhausted(TierOf(s, s.currentTier))
    ensures var (after, actions) := Handle(Some(s), e);
            && actions == [] && after.Some? && Exhausted(TierOf(after.value, s.currentTier))
            && (after.value.currentTier == s.currentTier <==> Stalls(Pressed(e), s.currentTier))
  {
    HandleActsOnCurrent(Some(s), e);
    RefreshedKeepsLatches(Some(s), e, s.currentTier);
    ExhaustedDoesNothing(TierOf(s, s.currentTier), s.currentTier, e);
    ClimbKeepsLatches(ActCurrent(Refreshed(Some(s), e), e).0, e, s.currentTier);
  }

  /** The eviction of the current tier was tried. */
  predicate EvictionDone(h: History) {
    && h.state.Some? && h.state.value.currentTier in CRITICALITY_RANK
    && EvictedFrom(h.log, h.state.value.currentTier)
  }

  lemma EvictionDoneMeansExhausted(signals: seq<Signal>)
    requires EvictionDone(HistoryOf(signals))
    ensures var s := HistoryOf(signals).state.value; Exhausted(TierOf(s, s.currentTier))
  {
    var h := HistoryOf(signals);
    RunsAreFaithful(signals);
    var cur := h.state.value.currentTier;
    assert LatchesTell(LatchOf(h.state, cur), h.log, cur);
    var k :| 0 <= k < |h.log| && h.log[k].tier == cur && h.log[k].EvictionTried?;
    EvictionIsLatched(signals, k);
    var j :| 0 <= j < k && h.log[..k][j].tier == cur && (h.log[..k][j].Degraded? || h.log[..k][j].FloorMarked?);
    assert h.log[j] == h.log[..k][j];
  }

  /** Once the eviction of the current tier was tried, a signal that finds the tier present does
      nothing to any pod, and the tier stays current exactly when the signal stalls. */
  lemma StallEndsExactly(signals: seq<Signal>, signal: Signal)
    requires EvictionDone(HistoryOf(signals))
    ensures var h, after := HistoryOf(signals), HistoryOf(signals + [signal]);
            var cur := h.state.value.currentTier;
            && (after.state.Some? && after.state.value.currentTier == cur <==> Stalls(signal, cur))
            && (Stalls(signal, cur) ==> after.log == h.log && EvictionDone(after))
  {
    assert (signals + [signal])[..|signals|] == signals;
    var h := HistoryOf(signals);
    var s := h.state.value;
    if signal.Pressed? && signal.e.pods != [] {
      EvictionDoneMeansExhausted(signals);
      if s.currentTier in TiersIn(signal.e) {
        StalledEvent(s, signal.e);
      } else if TiersIn(signal.e) != [] {
        HandleMovesIndex(h.state, signal.e);
      }
    }
  }

  /** So the escalation stalls: nothing is done to any pod of the node until the state is cleared,
      the tier disappears, or nothing in it can be lowered while a higher one is present. */
  lemma {:induction false} StallLasts(signals: seq<Signal>, more: seq<Signal>)
    requires EvictionDone(HistoryOf(signals))
    requires forall signal | signal in more :: Stalls(signal, HistoryOf(signals).state.value.currentTier)
    ensures var h, after := HistoryOf(signals), HistoryOf(signals + more);
            && after.log == h.log && EvictionDone(after)
            && after.state.value.currentTier == h.state.value.currentTier
  {
    if more == [] {
      assert signals + more == signals;
    } else {
      var before, last := more[..|more| - 1], more[|more| - 1];
      StallLasts(signals, before);
      StallEndsExactly(signals + before, last);
      assert signals + before + [last] == signals + more;
    }
  }

  /** One pod of the lowest tier that asks for a whole core and can be patched. */
  function OneGreedyPod(overSec: nat): Situation {
    Situation([Pod("p", "a", [Container("c", Some(1000))])], map["a" := "Low"], map["p" := 1000], overSec, true)
  }

  lemma GreedyTier(overSec: nat)
    ensures TiersIn(OneGreedyPod(overSec)) == ["Low"]
    ensures PodsOfTier(OneGreedyPod(overSec).pods, OneGreedyPod(overSec).rtData, "Low") == OneGreedyPod(overSec).pods
    ensures HasActionable(OneGreedyPod(overSec).pods, OneGreedyPod(overSec).rtData, "Low")
  {
    var e := OneGreedyPod(overSec);
    assert e.pods[..0] == [];
    assert Carries(e.pods[0], e.rtData, "Low");
    var c := e.pods[0].containers[0];
    assert e.pods[0] in e.pods && c in e.pods[0].containers && RequestOf(c) > MIN_MILLI;
  }

  /** The stall is reached at once: after one event at 10 seconds such a pod was degraded once and its
      eviction tried, and however many events follow nothing more is done while it keeps asking. */
  lemma StallIsReached(more: seq<Signal>)
    requires forall signal | signal in more :: signal.Pressed? && signal.e == OneGreedyPod(signal.e.overSec)
    ensures var h := HistoryOf([Pressed(OneGreedyPod(10))]);
            && EvictionDone(h) && h.state.value.currentTier == "Low"
            && HistoryOf([Pressed(OneGreedyPod(10))] + more).log == h.log
  {
    var first := [Pressed(OneGreedyPod(10))];
    GreedyTier(10);
    FirstGreedyEvent();
    forall signal | signal in more
      ensures Stalls(signal, "Low")
    {
      GreedyTier(signal.e.overSec);
    }
    StallLasts(first, more);
  }

  lemma HighestOfOne(p: Pod, podMilli: map<string, int>)
    requires p.name in podMilli && podMilli[p.name] > -1
    ensures HighestCPU([p], podMilli) == Some(p)
  {
    assert [p][..0] == [];
  }

  /** A fresh tier with one pod above the minimum is degraded and evicted from at 10 seconds. */
  lemma FirstActions(e: Situation, tier: string, p: Pod)
    requires PodsOfTier(e.pods, e.rtData, tier) == [p] && e.overSec >= 10 && e.patchOk
    requires p.name in e.podMilli && e.podMilli[p.name] > MIN_MILLI
    ensures Act(FRESH_TIER, tier, e).1
            == [Degraded(tier, p.name, e.overSec), EvictionTried(tier, p.name, e.overSec)]
  {
    HighestOfOne(p, e.podMilli);
  }

  /** The first event on a node with a single tier. */
  lemma FirstEvent(e: Situation, tier: string, p: Pod)
    requires e.pods != [] && TiersIn(e) == [tier] && tier != ""
    requires PodsOfTier(e.pods, e.rtData, tier) == [p] && e.overSec >= 10 && e.patchOk
    requires p.name in e.podMilli && e.podMilli[p.name] > MIN_MILLI
    ensures Handle(None, e).0.Some? && Handle(None, e).0.value.currentTier == tier
    ensures Handle(None, e).1 == [Degraded(tier, p.name, e.overSec), EvictionTried(tier, p.name, e.overSec)]
  {
    FirstActions(e, tier, p);
    HandleActsOnCurrent(None, e);
    HandleMovesIndex(None, e);
    assert Refreshed(None, e).currentTier == tier;
  }

  lemma FirstGreedyEvent()
    ensures EvictionDone(HistoryOf([Pressed(OneGreedyPod(10))]))
    ensures HistoryOf([Pressed(OneGreedyPod(10))]).state.value.currentTier == "Low"
  {
    GreedyTier(10);
    FirstEvent(OneGreedyPod(10), "Low", OneGreedyPod(10).pods[0]);
    OneSignal(OneGreedyPod(10), "Low");
  }

  lemma OneSignal(e: Situation, tier: string)
    requires Handle(None, e).0.Some? && Handle(None, e).0.value.currentTier == tier && tier in CRITICALITY_RANK
    requires |Handle(None, e).1| == 2 && Handle(None, e).1[1].EvictionTried? && Handle(None, e).1[1].tier == tier
    ensures EvictionDone(HistoryOf([Pressed(e)])) && HistoryOf([Pressed(e)]).state.value.currentTier == tier
  {
    assert [Pressed(e)][..0] == [];
    assert HistoryOf([Pressed(e)]).log == Handle(None, e).1;
  }
}
