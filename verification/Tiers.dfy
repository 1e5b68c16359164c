/** Criticality tiers of the pods on a node, for any table of ranks: which tiers are present in
    ascending order, the next higher one, and the pods of one tier. */
module Tiers {
  import opened Wrappers
  import opened Criticality
  import opened Degradation

  type Ranks = map<string, int>

  /** The criticality that the realtime data gives the pod's workload. */
  predicate Carries(p: Pod, rtData: map<string, string>, tier: string) {
    p.app != "" && p.app in rtData && rtData[p.app] == tier
  }

  /** Some pod carries this known tier. */
  predicate Present(pods: seq<Pod>, rtData: map<string, string>, rank: Ranks, tier: string) {
    tier in rank && exists p | p in pods :: Carries(p, rtData, tier)
  }

  predicate Ascending(tiers: seq<string>, rank: Ranks) {
    && (forall k | 0 <= k < |tiers| :: tiers[k] in rank)
    && forall j, k | 0 <= j < k < |tiers| :: rank[tiers[j]] < rank[tiers[k]]
  }

  /** Exactly the known tiers the pods carry, strictly ascending. */
  ghost predicate IsTierList(tiers: seq<string>, pods: seq<Pod>, rtData: map<string, string>, rank: Ranks) {
    && Ascending(tiers, rank)
    && forall t :: t in tiers <==> Present(pods, rtData, rank, t)
  }

  /** Puts a tier at its place in an ascending list, once. */
  function InsertTier(tiers: seq<string>, tier: string, rank: Ranks): (inserted: seq<string>)
    requires tier in rank && Ascending(tiers, rank)
    requires forall t, u | t in rank && u in rank && rank[t] == rank[u] :: t == u
    ensures Ascending(inserted, rank)
    ensures forall t :: t in inserted <==> t == tier || t in tiers
  {
    if tiers == [] then [tier]
    else
      var last := tiers[|tiers| - 1];
      if rank[last] < rank[tier] then tiers + [tier]
      else if last == tier then tiers
      else
        var front := InsertTier(tiers[..|tiers| - 1], tier, rank);
        assert forall t | t in front :: rank[t] < rank[last];
        front + [last]
  }

  lemma PresentLast(pods: seq<Pod>, rtData: map<string, string>, rank: Ranks)
    requires pods != []
    ensures forall t :: Present(pods, rtData, rank, t) <==>
                        || Present(pods[..|pods| - 1], rtData, rank, t)
                        || (t in rank && Carries(pods[|pods| - 1], rtData, t))
  {
  }

  /** The tier list of the pods. */
  function TiersOf(pods: seq<Pod>, rtData: map<string, string>, rank: Ranks): (tiers: seq<string>)
    requires ValidRanks(rank)
    ensures IsTierList(tiers, pods, rtData, rank)
  {
    if pods == [] then []
    else
      var p := pods[|pods| - 1];
      var before := TiersOf(pods[..|pods| - 1], rtData, rank);
      PresentLast(pods, rtData, rank);
      if p.app != "" && p.app in rtData && rtData[p.app] in rank
      then InsertTier(before, rtData[p.app], rank) else before
  }

  /** The last tier of a list is the one with the highest rank. */
  lemma LastIsHighest(a: seq<string>, b: seq<string>, rank: Ranks)
    requires Ascending(a, rank) && Ascending(b, rank) && a != [] && b != []
    requires forall t :: t in a <==> t in b
    ensures a[|a| - 1] == b[|b| - 1]
  {
    assert a[|a| - 1] in b && b[|b| - 1] in a;
  }

  lemma WithoutLast(a: seq<string>, rank: Ranks)
    requires Ascending(a, rank) && a != []
    ensures forall t :: t in a[..|a| - 1] <==> t in a && t != a[|a| - 1]
  {
  }

  /** The order of the tiers fixes the list. */
  lemma {:induction false} TierListUnique(a: seq<string>, b: seq<string>, rank: Ranks)
    requires Ascending(a, rank) && Ascending(b, rank) && forall t :: t in a <==> t in b
    ensures a == b
  {
    assert |a| > 0 ==> a[0] in b;
    assert |b| > 0 ==> b[0] in a;
    if a != [] && b != [] {
      LastIsHighest(a, b, rank);
      WithoutLast(a, rank);
      WithoutLast(b, rank);
      var restA, restB := a[..|a| - 1], b[..|b| - 1];
      forall t
        ensures t in restA <==> t in restB
      {
        assert t in restA <==> t in a && t != a[|a| - 1];
        assert t in restB <==> t in b && t != b[|b| - 1];
      }
      TierListUnique(restA, restB, rank);
    }
  }

  /** Collects the tiers in whatever order and sorts them by exchanging. */
  method CollectSortedTiers(pods: seq<Pod>, rtData: map<string, string>, rank: Ranks) returns (tiers: seq<string>)
    requires ValidRanks(rank)
    ensures tiers == TiersOf(pods, rtData, rank)
  {
    var seen: set<string> := {};
    for i := 0 to |pods|
      invariant forall t :: t in seen <==> Present(pods[..i], rtData, rank, t)
    {
      var p := pods[i];
      PresentLast(pods[..i + 1], rtData, rank);
      assert pods[..i + 1][..i] == pods[..i];
      if p.app != "" && p.app in rtData && rtData[p.app] in rank {
        seen := seen + {rtData[p.app]};
      }
    }
    assert pods[..|pods|] == pods;
    tiers := ListOf(seen);
    tiers := SortTiers(tiers, rank);
    TierListUnique(tiers, TiersOf(pods, rtData, rank), rank);
  }

  predicate Distinct(list: seq<string>) {
    forall j, k | 0 <= j < k < |list| :: list[j] != list[k]
  }

  /** The members of a set, in any order. */
  method ListOf(items: set<string>) returns (list: seq<string>)
    ensures Distinct(list) && forall t :: t in list <==> t in items
  {
    list := [];
    var todo := items;
    while |todo| > 0
      invariant todo <= items && Distinct(list)
      invariant forall t :: t in list <==> t in items && t !in todo
      decreases |todo|
    {
      var t :| t in todo;
      list := list + [t];
      todo := todo - {t};
    }
  }

  method SortTiers(list: seq<string>, rank: Ranks) returns (tiers: seq<string>)
    requires ValidRanks(rank) && Distinct(list) && forall t | t in list :: t in rank
    ensures Ascending(tiers, rank) && forall t :: t in tiers <==> t in list
  {
    tiers := list;
    for i := 0 to |list|
      invariant |tiers| == |list| && Distinct(tiers) && forall t :: t in tiers <==> t in list
      invariant forall a, b | 0 <= a < i && a < b < |tiers| :: rank[tiers[a]] < rank[tiers[b]]
    {
      for j := i + 1 to |list|
        invariant |tiers| == |list| && Distinct(tiers) && forall t :: t in tiers <==> t in list
        invariant forall a, b | 0 <= a < i && a < b < |tiers| :: rank[tiers[a]] < rank[tiers[b]]
        invariant forall b | i < b < j :: rank[tiers[i]] < rank[tiers[b]]
      {
        if rank[tiers[j]] < rank[tiers[i]] {
          SwapKeeps(tiers, i, j);
          tiers := tiers[i := tiers[j]][j := tiers[i]];
        }
      }
    }
  }

  lemma SwapKeeps(list: seq<string>, i: nat, j: nat)
    requires i < j < |list|
    ensures var swapped := list[i := list[j]][j := list[i]];
            && (Distinct(list) ==> Distinct(swapped))
            && forall t :: t in swapped <==> t in list
  {
    var swapped := list[i := list[j]][j := list[i]];
    forall t | t in list
      ensures t in swapped
    {
      var k :| 0 <= k < |list| && list[k] == t;
      assert swapped[if k == i then j else if k == j then i else k] == t;
    }
  }

  // ----- the next higher tier -----

  /** `t` is a listed tier ranked above `cur`. */
  predicate Above(t: string, cur: string, tiers: seq<string>, rank: Ranks) {
    t in tiers && t in rank && cur in rank && rank[t] > rank[cur]
  }

  lemma AboveLast(cur: string, tiers: seq<string>, rank: Ranks)
    requires tiers != []
    ensures forall u :: Above(u, cur, tiers, rank) <==>
                        Above(u, cur, tiers[..|tiers| - 1], rank) || Above(u, cur, [tiers[|tiers| - 1]], rank)
  {
  }

  /** The lowest listed tier ranked above the current one. */
  function NextHigherTier(cur: string, tiers: seq<string>, rank: Ranks): (next: Option<string>)
    ensures next.None? ==> forall t :: !Above(t, cur, tiers, rank)
    ensures next.Some? ==> Above(next.value, cur, tiers, rank)
    ensures next.Some? ==> forall t | Above(t, cur, tiers, rank) :: rank[next.value] <= rank[t]
  {
    if tiers == [] then None
    else
      var t := tiers[|tiers| - 1];
      var before := NextHigherTier(cur, tiers[..|tiers| - 1], rank);
      AboveLast(cur, tiers, rank);
      if Above(t, cur, [t], rank) && (before.None? || rank[t] < rank[before.value])
      then Some(t) else before
  }

  /** On a tier list the next higher tier is the next element, if there is one. */
  lemma NextIsSuccessor(tiers: seq<string>, i: nat, rank: Ranks)
    requires ValidRanks(rank) && Ascending(tiers, rank) && i < |tiers|
    ensures NextHigherTier(tiers[i], tiers, rank) == if i + 1 < |tiers| then Some(tiers[i + 1]) else None
  {
  }

  method FindNextHigherTier(cur: string, tiers: seq<string>, rank: Ranks) returns (next: Option<string>)
    requires ValidRanks(rank)
    ensures next == NextHigherTier(cur, tiers, rank)
  {
    if cur !in rank {
      return None;
    }
    var bestRank := RANK_LIMIT;
    var best := "";
    for i := 0 to |tiers|
      invariant match NextHigherTier(cur, tiers[..i], rank)
                case None => best == "" && bestRank == RANK_LIMIT
                case Some(t) => best == t && bestRank == rank[t]
    {
      assert tiers[..i + 1][..i] == tiers[..i];
      var t := tiers[i];
      if t in rank && rank[t] > rank[cur] && rank[t] < bestRank {
        bestRank := rank[t];
        best := t;
      }
    }
    assert tiers[..|tiers|] == tiers;
    next := if best == "" then None else Some(best);
  }

  // ----- the pods of a tier -----

  function PodsOfTier(pods: seq<Pod>, rtData: map<string, string>, tier: string): (targets: seq<Pod>)
    ensures forall p :: p in targets <==> p in pods && Carries(p, rtData, tier)
  {
    if pods == [] then []
    else
      var p := pods[|pods| - 1];
      var before := PodsOfTier(pods[..|pods| - 1], rtData, tier);
      assert forall q :: q in pods <==> q == p || q in pods[..|pods| - 1];
      if Carries(p, rtData, tier) then before + [p] else before
  }

  method FilterPodsByCriticality(pods: seq<Pod>, rtData: map<string, string>, tier: string) returns (targets: seq<Pod>)
    ensures targets == PodsOfTier(pods, rtData, tier)
  {
    targets := [];
    for i := 0 to |pods|
      invariant targets == PodsOfTier(pods[..i], rtData, tier)
    {
      assert pods[..i + 1][..i] == pods[..i];
      var p := pods[i];
      if p.app != "" && p.app in rtData && rtData[p.app] == tier {
        targets := targets + [p];
      }
    }
    assert pods[..|pods|] == pods;
  }

  /** Some pod of the tier has a container above the minimum request. */
  predicate HasActionable(pods: seq<Pod>, rtData: map<string, string>, tier: string) {
    AnyAboveMinimum(PodsOfTier(pods, rtData, tier))
  }

  method HasActionableInTier(pods: seq<Pod>, rtData: map<string, string>, tier: string) returns (actionable: bool)
    ensures actionable <==> HasActionable(pods, rtData, tier)
  {
    var targets := FilterPodsByCriticality(pods, rtData, tier);
    for i := 0 to |targets|
      invariant !AnyAboveMinimum(targets[..i])
    {
      var cs := targets[i].containers;
      for j := 0 to |cs|
        invariant forall c | c in cs[..j] :: RequestOf(c) <= MIN_MILLI
      {
        if cs[j].request.Some? && cs[j].request.value > MIN_MILLI {
          assert targets[i] in targets && cs[j] in targets[i].containers && RequestOf(cs[j]) > MIN_MILLI;
          return true;
        }
        assert cs[..j + 1] == cs[..j] + [cs[j]];
      }
      assert cs[..|cs|] == cs;
      assert targets[..i + 1] == targets[..i] + [targets[i]];
    }
    assert targets[..|targets|] == targets;
    return false;
  }

  // ----- the pod with the highest request -----

  /** The first of the listed pods with the highest recorded request. */
  function HighestCPU(pods: seq<Pod>, podMilli: map<string, int>): (best: Option<Pod>)
    ensures best.Some? ==> best.value in pods && best.value.name in podMilli && podMilli[best.value.name] > -1
    ensures forall p | p in pods && p.name in podMilli && podMilli[p.name] > -1 ::
              best.Some? && podMilli[p.name] <= podMilli[best.value.name]
  {
    if pods == [] then None
    else
      var p := pods[|pods| - 1];
      var before := HighestCPU(pods[..|pods| - 1], podMilli);
      assert forall q :: q in pods <==> q == p || q in pods[..|pods| - 1];
      if p.name in podMilli && podMilli[p.name] > (if before.Some? then podMilli[before.value.name] else -1)
      then Some(p) else before
  }

  method PickHighestCPUFromMilli(pods: seq<Pod>, podMilli: map<string, int>) returns (best: Option<Pod>)
    ensures best == HighestCPU(pods, podMilli)
  {
    best := None;
    var bestMilli := -1;
    for i := 0 to |pods|
      invariant best == HighestCPU(pods[..i], podMilli)
      invariant bestMilli == if best.Some? then podMilli[best.value.name] else -1
    {
      assert pods[..i + 1][..i] == pods[..i];
      var p := pods[i];
      if p.name in podMilli {
        var m := podMilli[p.name];
        if m > bestMilli {
          bestMilli := m;
          best := Some(p);
        }
      }
    }
    assert pods[..|pods|] == pods;
  }

  /** The pods of a tier keep their order and multiplicity. */
  lemma {:induction false} PodsOfTierConcat(a: seq<Pod>, b: seq<Pod>, rtData: map<string, string>, tier: string)
    ensures PodsOfTier(a + b, rtData, tier) == PodsOfTier(a, rtData, tier) + PodsOfTier(b, rtData, tier)
    ensures |b| == 1 ==> PodsOfTier(b, rtData, tier) == if Carries(b[0], rtData, tier) then b else []
  {
    if b == [] {
      assert a + b == a;
    } else {
      var n := |b| - 1;
      assert (a + b)[..|a| + n] == a + b[..n];
      PodsOfTierConcat(a, b[..n], rtData, tier);
    }
  }

  /** Among pods with equal requests the first one is taken. */
  lemma {:induction false} HighestIsFirst(pods: seq<Pod>, podMilli: map<string, int>) returns (k: nat)
    requires HighestCPU(pods, podMilli).Some?
    ensures k < |pods| && HighestCPU(pods, podMilli) == Some(pods[k])
    ensures forall j | 0 <= j < k && pods[j].name in podMilli :: podMilli[pods[j].name] < podMilli[pods[k].name]
  {
    var n := |pods| - 1;
    if HighestCPU(pods, podMilli) == HighestCPU(pods[..n], podMilli) {
      k := HighestIsFirst(pods[..n], podMilli);
    } else {
      k := n;
      forall j | 0 <= j < n && pods[j].name in podMilli
        ensures podMilli[pods[j].name] < podMilli[pods[n].name]
      {
        assert pods[j] in pods[..n];
      }
    }
  }
}
