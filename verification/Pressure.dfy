/** The pressure escalation of one node as a function of its state and of what an event finds:
    the tier acted on, what is done to its pods, and the climb to the next tier. */
module Pressure {
  import opened Wrappers
  import opened Criticality
  import opened Degradation
  import opened Tiers

  /** Latches and clocks of one tier. */
  datatype TierState = TierState(degradeCount: int, evictTried: bool, missingTicks: int, lastDegradeTime: int)

  datatype NodeState = NodeState(
    aboveSec: int,
    tiers: seq<string>,
    currentTierIdx: int,
    currentTier: string,
    perTier: map<string, TierState>)

  const FRESH_TIER: TierState := TierState(0, false, 0, 0)
  const FRESH_NODE: NodeState := NodeState(0, [], 0, "", map[])

  const MISSING_TOLERANCE: int := 2

  /** Marks a tier in which no request can be lowered any more. */
  const FLOOR_MARK: int := 999

  /** What one pressure event finds: the node's pods, their criticalities and total requests,
      how long the pressure has lasted, and whether a resize patch would succeed. */
  datatype Situation = Situation(
    pods: seq<Pod>,
    rtData: map<string, string>,
    podMilli: map<string, int>,
    overSec: nat,
    patchOk: bool)

  /** What the handler does to a tier, and after how many seconds of pressure. */
  datatype Action =
    | Degraded(tier: string, podName: string, at: int)
    | DegradeFailed(tier: string, podName: string, at: int)
    | FloorMarked(tier: string, at: int)
    | EvictionTried(tier: string, podName: string, at: int)

  // ----- acting on the current tier -----

  predicate DegradeDue(ts: TierState, overSec: int) {
    overSec >= 1 && !ts.evictTried && (ts.degradeCount == 0 || overSec - ts.lastDegradeTime >= 3)
  }

  /** A degradation succeeds unless the pod needs a patch and the patch fails. */
  predicate DegradeSucceeds(pod: Pod, patchOk: bool) {
    patchOk || forall c | c in pod.containers :: !IsPatched(c)
  }

  function DegradeStep(ts: TierState, tier: string, top: Option<Pod>, e: Situation): (TierState, seq<Action>)
    requires top.Some? ==> top.value.name in e.podMilli
  {
    if !DegradeDue(ts, e.overSec) || top.None? then (ts, [])
    else if e.podMilli[top.value.name] <= MIN_MILLI then
      (ts.(degradeCount := FLOOR_MARK), [FloorMarked(tier, e.overSec)])
    else if DegradeSucceeds(top.value, e.patchOk) then
      (ts.(degradeCount := ts.degradeCount + 1, lastDegradeTime := e.overSec),
       [Degraded(tier, top.value.name, e.overSec)])
    else (ts, [DegradeFailed(tier, top.value.name, e.overSec)])
  }

  function EvictStep(ts: TierState, tier: string, top: Option<Pod>, e: Situation): (TierState, seq<Action>) {
    if e.overSec >= 10 && ts.degradeCount > 0 && !ts.evictTried && top.Some? then
      (ts.(evictTried := true), [EvictionTried(tier, top.value.name, e.overSec)])
    else (ts, [])
  }

  function Act(ts: TierState, tier: string, e: Situation): (TierState, seq<Action>) {
    var top := HighestCPU(PodsOfTier(e.pods, e.rtData, tier), e.podMilli);
    var (degraded, first) := DegradeStep(ts.(missingTicks := 0), tier, top, e);
    var (evicted, second) := EvictStep(degraded, tier, top, e);
    (evicted, first + second)
  }

  // ----- moving between tiers -----

  function FirstIndex(tiers: seq<string>, tier: string): (i: nat)
    requires tier in tiers
    ensures i < |tiers| && tiers[i] == tier && tier !in tiers[..i]
  {
    if tiers[0] == tier then 0 else 1 + FirstIndex(tiers[1..], tier)
  }

  function TierOf(s: NodeState, tier: string): TierState {
    if tier in s.perTier then s.perTier[tier] else FRESH_TIER
  }

  /** Gives a tier its state if it has none. */
  function EnsureTier(s: NodeState, tier: string): NodeState {
    s.(perTier := s.perTier[tier := TierOf(s, tier)])
  }

  function SwitchTo(s: NodeState, next: string): NodeState
    requires next in s.tiers
  {
    EnsureTier(s.(currentTier := next, currentTierIdx := FirstIndex(s.tiers, next)), next)
  }

  /** Exhausted tiers: degraded or marked, and one eviction tried. */
  predicate Exhausted(ts: TierState) {
    ts.degradeCount > 0 && ts.evictTried
  }

  function LowerNamed(pods: seq<Pod>, podName: string): (lowered: seq<Pod>)
    ensures |lowered| == |pods|
    ensures forall k | 0 <= k < |pods| ::
              lowered[k] == if pods[k].name == podName then DegradedPod(pods[k]) else pods[k]
  {
    seq(|pods|, k requires 0 <= k < |pods| => if pods[k].name == podName then DegradedPod(pods[k]) else pods[k])
  }

  /** The situation as the handler sees it after its actions: a successful patch returns the
      patched pod into the pod list. Pod names on a node are distinct. */
  function Patched(e: Situation, actions: seq<Action>): Situation {
    if actions != [] && actions[0].Degraded? then e.(pods := LowerNamed(e.pods, actions[0].podName)) else e
  }

  function Climb(s: NodeState, e: Situation): NodeState {
    if Exhausted(TierOf(s, s.currentTier)) && !HasActionable(e.pods, e.rtData, s.currentTier) then
      match NextHigherTier(s.currentTier, s.tiers, CRITICALITY_RANK)
      case Some(next) => SwitchTo(s, next)
      case None => s
    else s
  }

  /** The listed tiers above the current one: what bounds the climb. */
  function TiersAbove(cur: string, tiers: seq<string>): set<string> {
    set t | t in tiers && Above(t, cur, tiers, CRITICALITY_RANK)
  }

  lemma ClimbShrinks(cur: string, tiers: seq<string>, next: string)
    requires NextHigherTier(cur, tiers, CRITICALITY_RANK) == Some(next)
    ensures TiersAbove(next, tiers) < TiersAbove(cur, tiers)
  {
    assert next in TiersAbove(cur, tiers) && next !in TiersAbove(next, tiers);
  }

  /** The current tier found no pods once more. */
  function CountMissed(s: NodeState): NodeState {
    var ts := TierOf(s, s.currentTier);
    s.(perTier := s.perTier[s.currentTier := ts.(missingTicks := ts.missingTicks + 1)])
  }

  function ActCurrent(s: NodeState, e: Situation): (NodeState, seq<Action>) {
    var (acted, actions) := Act(TierOf(s, s.currentTier), s.currentTier, e);
    (s.(perTier := s.perTier[s.currentTier := acted]), actions)
  }

  /** Handles the current tier; one without pods is given up after two events. From any state the
      recursion ends, since each level has fewer tiers above it. */
  function Process(s: NodeState, e: Situation): (NodeState, seq<Action>)
    decreases TiersAbove(s.currentTier, s.tiers), 1
  {
    ProcessReady(EnsureTier(s, s.currentTier), e)
  }

  function ProcessReady(s: NodeState, e: Situation): (NodeState, seq<Action>)
    decreases TiersAbove(s.currentTier, s.tiers), 0
  {
    if PodsOfTier(e.pods, e.rtData, s.currentTier) == [] then
      var missed := CountMissed(s);
      var next := NextHigherTier(s.currentTier, s.tiers, CRITICALITY_RANK);
      if TierOf(missed, s.currentTier).missingTicks < MISSING_TOLERANCE || next.None? then (missed, [])
      else
        ClimbShrinks(s.currentTier, s.tiers, next.value);
        Process(SwitchTo(missed, next.value), e)
    else
      var (acted, actions) := ActCurrent(s, e);
      (Climb(acted, Patched(e, actions)), actions)
  }

  // ----- one event -----

  /** Keeps the current tier if it is still listed, else starts over from the lowest. */
  function Reindex(s: NodeState): NodeState {
    if s.tiers == [] then s.(currentTier := "", currentTierIdx := 0)
    else if s.currentTier in s.tiers then s.(currentTierIdx := FirstIndex(s.tiers, s.currentTier))
    else s.(currentTier := s.tiers[0], currentTierIdx := 0)
  }

  function TiersIn(e: Situation): (tiers: seq<string>)
    ensures IsTierList(tiers, e.pods, e.rtData, CRITICALITY_RANK)
  {
    KnownRanksAreValid();
    TiersOf(e.pods, e.rtData, CRITICALITY_RANK)
  }

  /** The node state that an event starts from: new tiers, current tier looked up again. */
  function Refreshed(s: Option<NodeState>, e: Situation): NodeState {
    var base := if s.Some? then s.value else FRESH_NODE;
    Reindex(base.(tiers := TiersIn(e), aboveSec := e.overSec))
  }

  /** A last safeguard before the current tier is handled. */
  function Guarded(s: NodeState): NodeState
    requires s.tiers != []
  {
    if s.currentTier == "" || s.currentTierIdx >= |s.tiers|
    then EnsureTier(s.(currentTierIdx := 0, currentTier := s.tiers[0]), s.tiers[0]) else s
  }

  /** One pressure event; without pods on the node nothing happens. */
  function Handle(s: Option<NodeState>, e: Situation): (Option<NodeState>, seq<Action>) {
    if e.pods == [] then (s, [])
    else
      var refreshed := Refreshed(s, e);
      if refreshed.tiers == [] then (Some(refreshed), [])
      else
        var (processed, actions) := Process(Guarded(refreshed), e);
        (Some(processed), actions)
  }

  // ----- runs -----

  /** What happens to a node: a pressure event, one that ends early on missing or malformed
      data, or a recovery that clears the state. */
  datatype Signal = Pressed(e: Situation) | Ignored | Cleared

  /** A node's state and what was done since the state was last cleared. */
  datatype History = History(state: Option<NodeState>, log: seq<Action>)

  const START: History := History(None, [])

  function StepHistory(h: History, signal: Signal): History {
    match signal
    case Pressed(e) => var (state, actions) := Handle(h.state, e); History(state, h.log + actions)
    case Ignored => h
    case Cleared => START
  }

  function HistoryOf(signals: seq<Signal>): History {
    if signals == [] then START
    else StepHistory(HistoryOf(signals[..|signals| - 1]), signals[|signals| - 1])
  }
}
