/** Lowering the CPU requests of a pod's containers: one round, repeated rounds, and when a
    round still changes anything. Requests are whole millicores. */
module Degradation {
  import opened Wrappers

  /** No request is lowered below this. */
  const MIN_MILLI: int := 10

  /** A container and its CPU request, if it states one. */
  datatype Container = Container(name: string, request: Option<nat>)

  /** A pod; `app` is its workload label, empty when it has none. */
  datatype Pod = Pod(name: string, app: string, containers: seq<Container>)

  datatype ContainerPatch = ContainerPatch(name: string, milli: nat)

  /** 80% of a request, rounded down, but at least the minimum. */
  function DegradedMilli(milli: nat): nat {
    var lowered := 4 * milli / 5;
    if lowered < MIN_MILLI then MIN_MILLI else lowered
  }

  /** `lowered` is four fifths of `milli`, rounded down, but at least 10. */
  predicate IsFourFifths(milli: nat, lowered: nat) {
    if 4 * milli >= 50 then 5 * lowered <= 4 * milli < 5 * (lowered + 1) else lowered == 10
  }

  /** One round takes away a fifth, no less and no more than a millicore beyond. */
  lemma OneRound(milli: nat)
    ensures 4 * milli >= 50 ==> 5 * DegradedMilli(milli) <= 4 * milli < 5 * (DegradedMilli(milli) + 1)
    ensures 4 * milli < 50 ==> DegradedMilli(milli) == 10
    ensures IsFourFifths(milli, DegradedMilli(milli))
  {
  }

  /** A round raises exactly the requests below the minimum, to the minimum. */
  lemma RaisedBelowMinimum(milli: nat)
    ensures DegradedMilli(milli) > milli <==> milli < MIN_MILLI
    ensures milli < MIN_MILLI ==> DegradedMilli(milli) == MIN_MILLI
    ensures DegradedMilli(5) == 10
  {
  }

  predicate IsPatched(c: Container) {
    c.request.Some? && c.request.value != 0
  }

  function DegradedContainer(c: Container): Container {
    if IsPatched(c) then c.(request := Some(DegradedMilli(c.request.value))) else c
  }

  function DegradedContainers(cs: seq<Container>): (degraded: seq<Container>)
    ensures |degraded| == |cs|
    ensures forall k | 0 <= k < |cs| :: degraded[k] == DegradedContainer(cs[k])
  {
    seq(|cs|, k requires 0 <= k < |cs| => DegradedContainer(cs[k]))
  }

  function DegradedPod(pod: Pod): Pod {
    pod.(containers := DegradedContainers(pod.containers))
  }

  /** A container after a resize patch that may list it. */
  function PatchedContainer(c: Container, patch: seq<ContainerPatch>): Container {
    if patch == [] then c
    else if patch[|patch| - 1].name == c.name then c.(request := Some(patch[|patch| - 1].milli))
    else PatchedContainer(c, patch[..|patch| - 1])
  }

  function ApplyPatch(cs: seq<Container>, patch: seq<ContainerPatch>): (patched: seq<Container>)
    ensures |patched| == |cs|
    ensures forall k | 0 <= k < |cs| :: patched[k] == PatchedContainer(cs[k], patch)
  {
    seq(|cs|, k requires 0 <= k < |cs| => PatchedContainer(cs[k], patch))
  }

  predicate DistinctNames(cs: seq<Container>) {
    forall j, k | 0 <= j < k < |cs| :: cs[j].name != cs[k].name
  }

  /** A stated request is four fifths of what it was if the pod was lowered; else nothing changed. */
  predicate LoweredOrKept(before: Container, after: Container, lowered: bool) {
    if lowered && before.request.Some? && before.request.value > 0 then
      && after.name == before.name && after.request.Some?
      && IsFourFifths(before.request.value, after.request.value)
    else after == before
  }

  /** Lowers every stated request of the pod through one patch; `ok` unless that patch fails.
      A pod without requests needs no patch. Container names within a pod are distinct. */
  method DegradePodRequests(pod: Pod, patchOk: bool) returns (ok: bool, after: Pod)
    requires DistinctNames(pod.containers)
    ensures ok <==> patchOk || forall c | c in pod.containers :: !IsPatched(c)
    ensures after == if ok then DegradedPod(pod) else pod
    ensures after.name == pod.name && after.app == pod.app && |after.containers| == |pod.containers|
    ensures forall k | 0 <= k < |pod.containers| ::
              LoweredOrKept(pod.containers[k], after.containers[k], ok)
  {
    var patch: seq<ContainerPatch> := [];
    var cs := pod.containers;
    for i := 0 to |cs|
      invariant forall k | 0 <= k < |cs| ::
                  PatchedContainer(cs[k], patch) == if k < i then DegradedContainer(cs[k]) else cs[k]
      invariant patch == [] <==> forall k | 0 <= k < i :: !IsPatched(cs[k])
    {
      var c := cs[i];
      if c.request.Some? && c.request.value != 0 {
        var newMilli: nat := 4 * c.request.value / 5;
        if newMilli < MIN_MILLI {
          newMilli := MIN_MILLI;
        }
        ghost var before := patch;
        patch := patch + [ContainerPatch(c.name, newMilli)];
        assert patch[..|before|] == before;
      }
    }
    if patch == [] {
      assert DegradedContainers(cs) == cs;
      return true, pod;
    }
    if !patchOk {
      return false, pod;
    }
    ok, after := true, pod.(containers := ApplyPatch(cs, patch));
    assert after.containers == DegradedContainers(cs);
  }

  // ----- repeated rounds on one request -----

  function Rounds(milli: nat, k: nat): nat {
    if k == 0 then milli else DegradedMilli(Rounds(milli, k - 1))
  }

  /** A quantity after k reductions to 4/5 of it: x * (4/5)^k. */
  function Decayed(x: real, k: nat): real {
    if k == 0 then x else 0.8 * Decayed(x, k - 1)
  }

  function MaxReal(a: real, b: real): real {
    if a < b then b else a
  }

  lemma RoundDecay(milli: nat, bound: real)
    requires milli as real <= MaxReal(10.0, bound)
    ensures DegradedMilli(milli) as real <= MaxReal(10.0, 0.8 * bound)
  {
  }

  /** After k rounds a request is at most the geometric decay or the minimum, and at least the
      minimum once there was a round. */
  lemma {:induction false} RoundsDecay(milli: nat, k: nat)
    requires milli > 0
    ensures Rounds(milli, k) as real <= MaxReal(10.0, Decayed(milli as real, k))
    ensures k >= 1 ==> Rounds(milli, k) >= MIN_MILLI
  {
    if k > 0 {
      RoundsDecay(milli, k - 1);
      RoundDecay(Rounds(milli, k - 1), Decayed(milli as real, k - 1));
    }
  }

  /** Nor does it fall faster: after k rounds it is above the geometric decay less 5. */
  lemma {:induction false} RoundsFallNoFaster(milli: nat, k: nat)
    ensures Rounds(milli, k) as real > Decayed(milli as real, k) - 5.0
  {
    if k > 0 {
      RoundsFallNoFaster(milli, k - 1);
      var before := Rounds(milli, k - 1);
      OneRound(before);
      assert 5.0 * (DegradedMilli(before) as real + 1.0) > 4.0 * before as real;
    }
  }

  /** Requests fall strictly until the minimum, stay there, and reach it after finitely many rounds. */
  lemma {:induction false} RoundsReachMinimum(milli: nat, k: nat)
    requires milli > 0
    ensures Rounds(milli, k) > MIN_MILLI ==> Rounds(milli, k + 1) < Rounds(milli, k)
    ensures Rounds(milli, k) == MIN_MILLI ==> Rounds(milli, k + 1) == MIN_MILLI
    ensures k >= 1 ==> MIN_MILLI <= Rounds(milli, k) <= if milli - k > MIN_MILLI then milli - k else MIN_MILLI
    ensures k >= milli ==> Rounds(milli, k) == MIN_MILLI
  {
    if k > 0 {
      RoundsReachMinimum(milli, k - 1);
    }
  }

  // ----- whether a round changes anything -----

  function RequestOf(c: Container): nat {
    if c.request.Some? then c.request.value else 0
  }

  function RequestSum(cs: seq<Container>): nat {
    if cs == [] then 0 else RequestSum(cs[..|cs| - 1]) + RequestOf(cs[|cs| - 1])
  }

  /** Some container of some pod asks for more than the minimum. */
  predicate AnyAboveMinimum(pods: seq<Pod>) {
    exists p, c | p in pods && c in p.containers :: RequestOf(c) > MIN_MILLI
  }

  /** A request between zero and the minimum, which a round raises. */
  predicate AnyBelowMinimum(pods: seq<Pod>) {
    exists p, c | p in pods && c in p.containers :: 0 < RequestOf(c) < MIN_MILLI
  }

  predicate NothingChanges(pods: seq<Pod>) {
    forall p | p in pods :: DegradedPod(p) == p
  }

  lemma UnchangedIff(p: Pod)
    ensures DegradedPod(p) == p <==>
            forall c | c in p.containers :: RequestOf(c) == 0 || RequestOf(c) == MIN_MILLI
  {
    if DegradedPod(p) == p {
      forall c | c in p.containers
        ensures RequestOf(c) == 0 || RequestOf(c) == MIN_MILLI
      {
        var k :| 0 <= k < |p.containers| && p.containers[k] == c;
        assert DegradedContainers(p.containers)[k] == c;
      }
    }
    if forall c | c in p.containers :: RequestOf(c) == 0 || RequestOf(c) == MIN_MILLI {
      forall k | 0 <= k < |p.containers|
        ensures DegradedContainer(p.containers[k]) == p.containers[k]
      {
        assert p.containers[k] in p.containers;
      }
      assert DegradedContainers(p.containers) == p.containers;
    }
  }

  /** "Nothing above the minimum" means that another round changes nothing, exactly when it does
      not hide a request below the minimum, which a round would raise. */
  lemma ActionableMeansProgress(pods: seq<Pod>)
    ensures (AnyAboveMinimum(pods) <==> !NothingChanges(pods)) <==>
            (AnyAboveMinimum(pods) || !AnyBelowMinimum(pods))
  {
    forall p | p in pods {
      UnchangedIff(p);
    }
  }

  predicate NoneBelowMinimum(cs: seq<Container>) {
    forall c | c in cs :: RequestOf(c) == 0 || RequestOf(c) >= MIN_MILLI
  }

  function CountNonZero(cs: seq<Container>): nat {
    if cs == [] then 0 else CountNonZero(cs[..|cs| - 1]) + if RequestOf(cs[|cs| - 1]) != 0 then 1 else 0
  }

  /** A round lowers a pod's total exactly when some container is above the minimum, and never
      below the minimum for each container that asks for anything. */
  lemma {:induction false} RoundLowersSum(cs: seq<Container>)
    requires NoneBelowMinimum(cs)
    ensures MIN_MILLI * CountNonZero(cs) <= RequestSum(DegradedContainers(cs)) <= RequestSum(cs)
    ensures RequestSum(DegradedContainers(cs)) < RequestSum(cs) <==>
            exists c | c in cs :: RequestOf(c) > MIN_MILLI
  {
    if cs != [] {
      var before, last := cs[..|cs| - 1], cs[|cs| - 1];
      RoundLowersSum(before);
      assert DegradedContainers(cs)[..|cs| - 1] == DegradedContainers(before);
      assert forall c :: c in cs <==> c in before || c == last;
      assert last in cs;
    }
  }
}
