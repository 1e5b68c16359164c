/** The handler object: it updates the pressure states of the nodes in place, one object per
    node and one per tier, and is proved against the functions of module Pressure. */
module EventHandler {
  import opened Wrappers
  import opened Criticality
  import opened Degradation
  import opened Tiers
  import opened Pressure

  class PerTierState {
    var degradeCount: int
    var evictTried: bool
    var missingTicks: int
    var lastDegradeTime: int

    ghost function Value(): TierState
      reads this
    {
      TierState(degradeCount, evictTried, missingTicks, lastDegradeTime)
    }

    constructor ()
      ensures Value() == FRESH_TIER
    {
      degradeCount, evictTried, missingTicks, lastDegradeTime := 0, false, 0, 0;
    }

    /** Lowers the requests of the tier's highest pod if that is due. */
    method DegradeTier(tier: string, targets: seq<Pod>, e: Situation) returns (actions: seq<Action>)
      requires forall p | p in targets :: DistinctNames(p.containers)
      modifies this
      ensures (Value(), actions) == DegradeStep(old(Value()), tier, HighestCPU(targets, e.podMilli), e)
    {
      actions := [];
      if e.overSec >= 1 && !evictTried {
        var shouldDegrade := degradeCount == 0 || e.overSec - lastDegradeTime >= 3;
        if shouldDegrade {
          var top := PickHighestCPUFromMilli(targets, e.podMilli);
          if top.Some? {
            var currentMilli := 0;
            if e.podMilli[top.value.name] > 0 {
              currentMilli := e.podMilli[top.value.name];
            }
            if currentMilli > MIN_MILLI {
              var ok, lowered := DegradePodRequests(top.value, e.patchOk);
              if !ok {
                actions := [DegradeFailed(tier, top.value.name, e.overSec)];
              } else {
                degradeCount := degradeCount + 1;
                lastDegradeTime := e.overSec;
                actions := [Degraded(tier, top.value.name, e.overSec)];
              }
            } else {
              degradeCount := FLOOR_MARK;
              actions := [FloorMarked(tier, e.overSec)];
            }
          }
        }
      }
    }

    /** Evicts the tier's highest pod if that is due; one attempt is all, even if it fails. */
    method EvictFromTier(tier: string, targets: seq<Pod>, e: Situation) returns (actions: seq<Action>)
      modifies this
      ensures (Value(), actions) == EvictStep(old(Value()), tier, HighestCPU(targets, e.podMilli), e)
    {
      actions := [];
      if e.overSec >= 10 && degradeCount > 0 && !evictTried {
        var victim := PickHighestCPUFromMilli(targets, e.podMilli);
        if victim.Some? {
          evictTried := true;
          actions := [EvictionTried(tier, victim.value.name, e.overSec)];
        }
      }
    }

    method ActOn(tier: string, targets: seq<Pod>, e: Situation) returns (actions: seq<Action>)
      requires targets == PodsOfTier(e.pods, e.rtData, tier)
      requires forall p | p in e.pods :: DistinctNames(p.containers)
      modifies this
      ensures (Value(), actions) == Act(old(Value()), tier, e)
    {
      missingTicks := 0;
      assert Value() == old(Value()).(missingTicks := 0);
      actions := DegradeTier(tier, targets, e);
      var more := EvictFromTier(tier, targets, e);
      actions := actions + more;
    }
  }

  class NodePressureState {
    var aboveSec: int
    var tiers: seq<string>
    var currentTierIdx: int
    var currentTier: string
    var perTier: map<string, PerTierState>

    /** No two tiers share their state object. */
    ghost predicate Valid()
      reads this
    {
      forall t, u | t in perTier && u in perTier && t != u :: perTier[t] != perTier[u]
    }

    ghost function TierValues(): map<string, TierState>
      reads this`perTier, perTier.Values
    {
      map t | t in perTier :: perTier[t].Value()
    }

    ghost function Value(): NodeState
      reads this, perTier.Values
    {
      NodeState(aboveSec, tiers, currentTierIdx, currentTier, TierValues())
    }

    constructor ()
      ensures Valid() && Value() == FRESH_NODE && perTier == map[]
    {
      aboveSec, tiers, currentTierIdx, currentTier, perTier := 0, [], 0, "", map[];
    }

    method ReindexCurrentTier()
      modifies this`currentTierIdx, this`currentTier
      ensures Value() == Reindex(old(Value()))
    {
      if |tiers| == 0 {
        currentTier := "";
        currentTierIdx := 0;
        return;
      }
      for i := 0 to |tiers|
        invariant currentTier == old(currentTier) && currentTier !in tiers[..i]
      {
        if tiers[i] == currentTier {
          FirstIndexIs(tiers, currentTier, i);
          currentTierIdx := i;
          return;
        }
      }
      assert tiers[..|tiers|] == tiers;
      currentTierIdx := 0;
      currentTier := tiers[0];
    }

    method EnsureTierState(tier: string)
      requires Valid()
      modifies this`perTier
      ensures Valid() && Value() == EnsureTier(old(Value()), tier)
      ensures tier in perTier
      ensures forall t | t in perTier :: perTier[t] in old(perTier.Values) || fresh(perTier[t])
    {
      if tier !in perTier {
        var state := new PerTierState();
        perTier := perTier[tier := state];
      }
      assert TierValues() == EnsureTier(old(Value()), tier).perTier;
    }

    /** Takes the tiers and the duration of a new event and looks the current tier up again. */
    method Refresh(e: Situation)
      modifies this`aboveSec, this`tiers, this`currentTier, this`currentTierIdx
      ensures Value() == Refreshed(Some(old(Value())), e)
    {
      KnownRanksAreValid();
      ghost var base := Value();
      tiers := CollectSortedTiers(e.pods, e.rtData, CRITICALITY_RANK);
      aboveSec := e.overSec;
      assert Value() == base.(tiers := TiersIn(e), aboveSec := e.overSec);
      ReindexCurrentTier();
    }

    /** The last safeguard before the current tier is handled. */
    method GuardCurrentTier()
      requires Valid() && tiers != []
      modifies this`currentTier, this`currentTierIdx, this`perTier
      ensures Valid() && Value() == Guarded(old(Value()))
      ensures forall t | t in perTier :: perTier[t] in old(perTier.Values) || fresh(perTier[t])
    {
      if currentTier == "" || currentTierIdx >= |tiers| {
        currentTierIdx := 0;
        currentTier := tiers[0];
        EnsureTierState(currentTier);
      }
    }

    method IndexOf(tier: string) returns (i: nat)
      requires tier in tiers
      ensures i == FirstIndex(tiers, tier)
    {
      i := 0;
      while tiers[i] != tier
        invariant i < |tiers| && tier !in tiers[..i] && tier in tiers[i..]
        decreases |tiers| - i
      {
        i := i + 1;
      }
      FirstIndexIs(tiers, tier, i);
    }

    /** Moves to another listed tier. */
    method SwitchToTier(next: string)
      requires Valid() && next in tiers
      modifies this`currentTier, this`currentTierIdx, this`perTier
      ensures Valid() && Value() == SwitchTo(old(Value()), next)
      ensures forall t | t in perTier :: perTier[t] in old(perTier.Values) || fresh(perTier[t])
    {
      currentTier := next;
      currentTierIdx := IndexOf(next);
      EnsureTierState(next);
    }

    /** If at most one tier's object changed, the values differ only there. */
    twostate lemma OneTierChanged(tier: string)
      requires old(Valid()) && perTier == old(perTier) && tier in perTier
      requires forall t | t in perTier && t != tier :: unchanged(perTier[t])
      ensures TierValues() == old(TierValues())[tier := perTier[tier].Value()]
    {
    }

    method CountMissing()
      requires Valid() && currentTier in perTier
      modifies perTier[currentTier]
      ensures Value() == CountMissed(old(Value()))
    {
      var pts := perTier[currentTier];
      pts.missingTicks := pts.missingTicks + 1;
      OneTierChanged(currentTier);
    }

    method ActOnCurrent(targets: seq<Pod>, e: Situation) returns (actions: seq<Action>)
      requires Valid() && currentTier in perTier
      requires targets == PodsOfTier(e.pods, e.rtData, currentTier)
      requires forall p | p in e.pods :: DistinctNames(p.containers)
      modifies perTier[currentTier]
      ensures (Value(), actions) == ActCurrent(old(Value()), e)
    {
      actions := perTier[currentTier].ActOn(currentTier, targets, e);
      OneTierChanged(currentTier);
    }

    /** Moves up from an exhausted tier in which nothing can be lowered. */
    method ClimbIfDone(e: Situation)
      requires Valid() && currentTier in perTier
      modifies this`currentTier, this`currentTierIdx, this`perTier
      ensures Valid() && Value() == Climb(old(Value()), e)
      ensures forall t | t in perTier :: perTier[t] in old(perTier.Values) || fresh(perTier[t])
    {
      var pts := perTier[currentTier];
      if pts.degradeCount > 0 && pts.evictTried {
        var actionable := HasActionableInTier(e.pods, e.rtData, currentTier);
        if !actionable {
          KnownRanksAreValid();
          var next := FindNextHigherTier(currentTier, tiers, CRITICALITY_RANK);
          if next.Some? {
            SwitchToTier(next.value);
          }
        }
      }
    }

    method ActAndClimb(targets: seq<Pod>, e: Situation) returns (actions: seq<Action>)
      requires Valid() && currentTier in perTier
      requires targets == PodsOfTier(e.pods, e.rtData, currentTier)
      requires forall p | p in e.pods :: DistinctNames(p.containers)
      modifies this`currentTier, this`currentTierIdx, this`perTier, perTier[currentTier]
      ensures Valid()
      ensures var (acted, done) := ActCurrent(old(Value()), e);
              Value() == Climb(acted, Patched(e, done)) && actions == done
      ensures forall t | t in perTier :: perTier[t] in old(perTier.Values) || fresh(perTier[t])
    {
      actions := ActOnCurrent(targets, e);
      ClimbIfDone(Patched(e, actions));
    }

    /** Counts the current tier as missing and gives it up once it was missing often enough. */
    method MissTier() returns (climbed: bool)
      requires Valid() && currentTier in perTier
      modifies this`currentTier, this`currentTierIdx, this`perTier, perTier[currentTier]
      ensures Valid() && tiers == old(tiers)
      ensures var missed := CountMissed(old(Value()));
              var next := NextHigherTier(missed.currentTier, missed.tiers, CRITICALITY_RANK);
              && climbed == !(TierOf(missed, missed.currentTier).missingTicks < MISSING_TOLERANCE || next.None?)
              && Value() == if climbed then SwitchTo(missed, next.value) else missed
      ensures climbed ==> TiersAbove(currentTier, tiers) < TiersAbove(old(currentTier), tiers)
      ensures forall t | t in perTier :: perTier[t] in old(perTier.Values) || fresh(perTier[t])
    {
      CountMissing();
      if perTier[currentTier].missingTicks >= MISSING_TOLERANCE {
        KnownRanksAreValid();
        var next := FindNextHigherTier(currentTier, tiers, CRITICALITY_RANK);
        if next.Some? {
          ClimbShrinks(currentTier, tiers, next.value);
          SwitchToTier(next.value);
          return true;
        }
      }
      return false;
    }

    /** Handles the current tier; see `Process`. The recursion ends from any state. */
    method ProcessCurrentTier(e: Situation) returns (actions: seq<Action>)
      requires Valid() && forall p | p in e.pods :: DistinctNames(p.containers)
      modifies this, perTier.Values
      ensures Valid() && (Value(), actions) == Process(old(Value()), e)
      ensures forall t | t in perTier :: perTier[t] in old(perTier.Values) || fresh(perTier[t])
      decreases TiersAbove(currentTier, tiers), 1
    {
      EnsureTierState(currentTier);
      actions := ProcessReadyTier(e);
    }

    method ProcessReadyTier(e: Situation) returns (actions: seq<Action>)
      requires Valid() && currentTier in perTier && forall p | p in e.pods :: DistinctNames(p.containers)
      modifies this, perTier.Values
      ensures Valid() && (Value(), actions) == ProcessReady(old(Value()), e)
      ensures forall t | t in perTier :: perTier[t] in old(perTier.Values) || fresh(perTier[t])
      decreases TiersAbove(currentTier, tiers), 0
    {
      var targets := FilterPodsByCriticality(e.pods, e.rtData, currentTier);
      if |targets| == 0 {
        var climbed := MissTier();
        actions := [];
        if climbed {
          actions := ProcessCurrentTier(e);
        }
      } else {
        actions := ActAndClimb(targets, e);
      }
    }
  }

  lemma FirstIndexIs(tiers: seq<string>, tier: string, i: nat)
    requires i < |tiers| && tiers[i] == tier && tier !in tiers[..i]
    ensures FirstIndex(tiers, tier) == i
  {
  }

  class Handler {
    var pressureState: map<string, NodePressureState>

    /** No two nodes share a state object, nor any of their tiers' objects. */
    ghost predicate Valid()
      reads this, pressureState.Values
    {
      && (forall n | n in pressureState :: pressureState[n].Valid())
      && forall n, m | n in pressureState && m in pressureState && n != m ::
           pressureState[n] != pressureState[m] && pressureState[n].perTier.Values !! pressureState[m].perTier.Values
    }

    ghost function Objects(node: string): set<object>
      reads this, pressureState.Values
    {
      if node in pressureState then {pressureState[node]} + pressureState[node].perTier.Values else {}
    }

    /** The state of one node, if it has any. */
    ghost function StateOf(node: string): Option<NodeState>
      reads this, pressureState.Values, Objects(node)
    {
      if node in pressureState then Some(pressureState[node].Value()) else None
    }

    constructor ()
      ensures Valid() && pressureState == map[]
    {
      pressureState := map[];
    }

    /** Gives a node its first state. */
    method CreateState(nodeName: string)
      requires Valid() && nodeName !in pressureState
      modifies this
      ensures Valid() && pressureState.Keys == old(pressureState).Keys + {nodeName}
      ensures StateOf(nodeName) == Some(FRESH_NODE) && fresh(Objects(nodeName))
      ensures forall n | n in old(pressureState) :: StateOf(n) == old(StateOf(n))
    {
      var state := new NodePressureState();
      pressureState := pressureState[nodeName := state];
    }

    method PressKnownNode(nodeName: string, e: Situation) returns (actions: seq<Action>)
      requires Valid() && nodeName in pressureState
      requires e.pods != [] && forall p | p in e.pods :: DistinctNames(p.containers)
      modifies Objects(nodeName)
      ensures Valid() && (StateOf(nodeName), actions) == Handle(old(StateOf(nodeName)), e)
      ensures forall n | n in pressureState && n != nodeName :: StateOf(n) == old(StateOf(n))
    {
      actions := HandleOn(pressureState[nodeName], e);
    }

    method PressNewNode(nodeName: string, e: Situation) returns (actions: seq<Action>)
      requires Valid() && nodeName !in pressureState
      requires e.pods != [] && forall p | p in e.pods :: DistinctNames(p.containers)
      modifies this
      ensures Valid() && (StateOf(nodeName), actions) == Handle(None, e)
      ensures forall n | n in old(pressureState) :: n in pressureState && StateOf(n) == old(StateOf(n))
    {
      FreshIsNone(e);
      CreateState(nodeName);
      actions := PressKnownNode(nodeName, e);
    }

    /** One pressure event on a node. `found` is what was looked up, or nothing when the node, its
        annotations, the realtime data or the pods could not be read. No other node is touched. */
    method HandleNodeCPUPressure(nodeName: string, found: Option<Situation>) returns (actions: seq<Action>)
      requires Valid()
      requires found.Some? ==> forall p | p in found.value.pods :: DistinctNames(p.containers)
      modifies this, Objects(nodeName)
      ensures Valid()
      ensures found.None? ==> actions == [] && StateOf(nodeName) == old(StateOf(nodeName))
      ensures found.Some? ==> (StateOf(nodeName), actions) == Handle(old(StateOf(nodeName)), found.value)
      ensures forall n | n in old(pressureState) && n != nodeName :: n in pressureState && StateOf(n) == old(StateOf(n))
    {
      actions := [];
      if found.None? || found.value.pods == [] {
        return;
      }
      if nodeName in pressureState {
        actions := PressKnownNode(nodeName, found.value);
      } else {
        actions := PressNewNode(nodeName, found.value);
      }
    }

    /** A node's first event starts from the fresh state. */
    static lemma FreshIsNone(e: Situation)
      requires e.pods != []
      ensures Handle(Some(FRESH_NODE), e) == Handle(None, e)
    {
    }

    static method HandleOn(state: NodePressureState, e: Situation) returns (actions: seq<Action>)
      requires state.Valid() && e.pods != [] && forall p | p in e.pods :: DistinctNames(p.containers)
      modifies state, state.perTier.Values
      ensures state.Valid()
      ensures (Some(state.Value()), actions) == Handle(Some(old(state.Value())), e)
      ensures forall t | t in state.perTier :: state.perTier[t] in old(state.perTier.Values) || fresh(state.perTier[t])
    {
      actions := [];
      state.Refresh(e);
      if |state.tiers| > 0 {
        state.GuardCurrentTier();
        actions := state.ProcessCurrentTier(e);
      }
    }

    /** A recovery forgets the node's state if it finds labelled pods on the node. */
    method HandleCPURecovery(nodeName: string, found: bool)
      requires Valid()
      modifies this
      ensures Valid()
      ensures StateOf(nodeName) == if found then None else old(StateOf(nodeName))
      ensures forall n | n in old(pressureState) && n != nodeName :: n in pressureState && StateOf(n) == old(StateOf(n))
    {
      if found && nodeName in pressureState {
        pressureState := pressureState - {nodeName};
      }
    }
  }
}
