/** What the API server's answers make of a preemption: who is moved, and which status shows it. */
module LifecycleStatus {
  import opened Wrappers
  import opened CpuPool
  import opened CoreSets
  import opened PreemptionTraces
  import opened PreemptionGuarantees
  import opened Lifecycle

  predicate Names(mckubes: map<string, McKube>, key: string, podName: string) {
    key in mckubes && mckubes[key].podName == podName
  }

  /** A victim is unreachable exactly when it cannot be fetched. A migration is shown only on a McKube that
      names the victim and has settings, with listing and update granted; and it is shown when they are
      granted, some McKube names the victim and each that does has settings. */
  lemma AnswersDecide(mckubes: map<string, McKube>, p: Preemption, a: Answers)
    requires Answered(mckubes, p, a)
    ensures p.outcome.Unreachable? <==> !a.getOk
    ensures p.outcome.Migrated? && p.outcome.published.Some? ==>
              && a.listOk && a.updateOk && Names(mckubes, p.outcome.published.value, p.victim.name)
              && mckubes[p.outcome.published.value].settings.Some?
    ensures p.outcome.Migrated? && p.outcome.published.None? && a.listOk && a.updateOk ==>
              (forall key :: !Names(mckubes, key, p.victim.name))
              || exists key | Names(mckubes, key, p.victim.name) :: mckubes[key].settings.None?
    ensures p.outcome.Migrated? && (forall key | Names(mckubes, key, p.victim.name) :: mckubes[key].settings.Some?) ==>
              (p.outcome.published.None? <==>
                 !a.listOk || !a.updateOk || forall key :: !Names(mckubes, key, p.victim.name))
  {
    if p.outcome.Migrated? {
      var ok: bool :| AffinityUpdated(mckubes, p.victim.name, a, p.outcome.published, ok);
      AffinityDecided(mckubes, p.victim.name, a, p.outcome.published, ok);
    }
  }

  /** The update of the status succeeds as a whole exactly when it was not needed, or everything was
      granted and the node is known. */
  lemma AffinityDecided(mckubes: map<string, McKube>, podName: string, a: Answers, published: Option<string>, ok: bool)
    requires AffinityUpdated(mckubes, podName, a, published, ok)
    ensures published.Some? ==>
              && a.listOk && a.updateOk && Names(mckubes, published.value, podName)
              && mckubes[published.value].settings.Some? && (ok <==> a.hostKnown)
    ensures published.None? && a.listOk && a.updateOk ==>
              && ok
              && ((forall key :: !Names(mckubes, key, podName))
                  || exists key | Names(mckubes, key, podName) :: mckubes[key].settings.None?)
    ensures !a.listOk ==> !ok
    ensures (forall key | Names(mckubes, key, podName) :: mckubes[key].settings.Some?)
            && (exists key :: Names(mckubes, key, podName)) ==>
              (ok <==> a.listOk && a.updateOk && a.hostKnown)
  {
    var found: Option<string> :| Finds(mckubes, podName, found)
      && published == (if a.listOk && HasSettings(mckubes, found) && a.updateOk then found else None)
      && (ok <==> a.listOk && (HasSettings(mckubes, found) ==> a.updateOk && a.hostKnown));
    if found.Some? {
      assert Names(mckubes, found.value, podName);
    }
  }

  /** What may be published is what some answers lead to. */
  lemma PublishableIffAnswered(mckubes: map<string, McKube>, p: Preemption)
    ensures PublishesTo(mckubes, p) <==> exists a :: Answered(mckubes, p, a)
  {
    if PublishesTo(mckubes, p) {
      var a := Answers(!p.outcome.Unreachable?, p.outcome.Migrated? && p.outcome.published.Some?, true, true, true);
      if p.outcome.Migrated? {
        var found := p.outcome.published;
        if found.None? {
          found := SomeFind(mckubes, p.victim.name);
        }
        assert Finds(mckubes, p.victim.name, found);
        assert AffinityUpdated(mckubes, p.victim.name, a, p.outcome.published, a.listOk);
      }
      assert Answered(mckubes, p, a);
    }
    if a :| Answered(mckubes, p, a) {
      AnswersDecide(mckubes, p, a);
    }
  }

  /** The trace shows a core on the McKube at position `k`. */
  predicate ShowsAt(trace: seq<Preemption>, k: nat, key: string)
    requires k < |trace|
  {
    trace[k].outcome.Migrated? && trace[k].outcome.published == Some(key)
  }

  /** A status shows what the last migration published on it wrote, else what it showed before. */
  lemma {:induction false} LastPublishedStays(mckubes: map<string, McKube>, trace: seq<Preemption>, key: string, k: nat)
    requires key in mckubes && k <= |trace|
    requires forall j | k <= j < |trace| :: !ShowsAt(trace, j, key)
    ensures k == 0 ==> Publish(mckubes, trace)[key].allocatedCore == mckubes[key].allocatedCore
    ensures k > 0 && ShowsAt(trace, k - 1, key) ==>
              Publish(mckubes, trace)[key].allocatedCore == FormatInt(trace[k - 1].outcome.core)
  {
    if k < |trace| {
      var before := trace[..|trace| - 1];
      assert !ShowsAt(trace, |trace| - 1, key);
      assert forall j | 0 <= j < |before| :: ShowsAt(before, j, key) <==> ShowsAt(trace, j, key);
      LastPublishedStays(mckubes, before, key, k);
    }
  }

  lemma MovedIsHeld(cores: Cores, p: Preemption)
    requires p.outcome.Migrated? && p.outcome.core in cores
    ensures Holds(ApplyPreemption(cores, p), p.outcome.core, p.victim.name)
    ensures ApplyPreemption(cores, p)[p.outcome.core].pods[p.victim.name] == p.victim
  {
    assert p.outcome.core in Vacated(cores, p);
  }

  lemma ReplayFrom(cores: Cores, trace: seq<Preemption>, k: nat)
    requires k < |trace|
    ensures Replay(cores, trace) == Replay(ApplyPreemption(Replay(cores, trace[..k]), trace[k]), trace[k + 1..])
  {
    ReplayConcat(cores, trace[..k + 1], trace[k + 1..]);
    assert trace[..k + 1] + trace[k + 1..] == trace;
    ReplayNext(cores, trace, k);
  }

  lemma HeldAfter(now: Cores, rest: seq<Preemption>, id: CoreId, victim: PodInfo)
    requires Holds(now, id, victim.name) && now[id].pods[victim.name] == victim
    requires forall j | 0 <= j < |rest| :: rest[j].victim.name != victim.name
    ensures Holds(Replay(now, rest), id, victim.name) && Replay(now, rest)[id].pods[victim.name] == victim
  {
    ReplayKeepsEntries(now, rest, victim.name);
    assert id in Replay(now, rest).Keys;
  }

  /** The last preemption of a pod, if it moved the pod to a core of the pool, is where the pool has it. */
  lemma LastMoveHolds(cores: Cores, trace: seq<Preemption>, k: nat)
    requires AllPermitted(cores, trace) && k < |trace|
    requires trace[k].outcome.Migrated? && trace[k].outcome.core in cores
    requires forall j | k < j < |trace| :: trace[j].victim.name != trace[k].victim.name
    ensures Holds(Replay(cores, trace), trace[k].outcome.core, trace[k].victim.name)
    ensures Replay(cores, trace)[trace[k].outcome.core].pods[trace[k].victim.name] == trace[k].victim
  {
    var now := Replay(cores, trace[..k]);
    ReplayFrom(cores, trace, k);
    PermittedUpTo(cores, trace, k);
    ReplayConserves(cores, trace[..k]);
    assert trace[k].outcome.core in now.Keys;
    MovedIsHeld(now, trace[k]);
    HeldAfter(ApplyPreemption(now, trace[k]), trace[k + 1..], trace[k].outcome.core, trace[k].victim);
  }

  /** Status and pool agree: when the last preemption of a pod moved it and the answers then granted listing
      and update, the one McKube that names the pod shows a core set that reads as the core on which the
      pool has the pod. */
  lemma StatusAgreesWithPool(cores: Cores, mckubes: map<string, McKube>, trace: seq<Preemption>,
                             answers: nat -> Answers, key: string, k: nat)
    requires AllPermitted(cores, trace) && AllAnswered(mckubes, trace, answers, 0) && k < |trace|
    requires trace[k].outcome.Migrated? && trace[k].outcome.core in cores && 0 <= trace[k].outcome.core
    requires forall j | k < j < |trace| :: trace[j].victim.name != trace[k].victim.name
    requires answers(k).listOk && answers(k).updateOk
    requires forall other :: Names(mckubes, other, trace[k].victim.name) <==> other == key
    requires key in mckubes && mckubes[key].settings.Some?
    ensures Publish(mckubes, trace)[key].allocatedCore == FormatInt(trace[k].outcome.core)
    ensures CoreSet(Publish(mckubes, trace)[key].allocatedCore) == [trace[k].outcome.core]
    ensures Holds(Replay(cores, trace), trace[k].outcome.core, trace[k].victim.name)
  {
    assert Names(mckubes, key, trace[k].victim.name);
    ShownOnItsMcKube(mckubes, trace, answers, key, k);
    forall j | k < j < |trace|
      ensures !ShowsAt(trace, j, key)
    {
      NotShownForOthers(mckubes, trace, answers, key, j);
    }
    LastPublishedStays(mckubes, trace, key, k + 1);
    LastMoveHolds(cores, trace, k);
    AllocatedCoreReadsBack(trace[k].outcome.core);
  }

  lemma ShownOnItsMcKube(mckubes: map<string, McKube>, trace: seq<Preemption>, answers: nat -> Answers, key: string,
                         k: nat)
    requires AllAnswered(mckubes, trace, answers, 0) && k < |trace| && trace[k].outcome.Migrated?
    requires answers(k).listOk && answers(k).updateOk
    requires forall other :: Names(mckubes, other, trace[k].victim.name) <==> other == key
    requires key in mckubes && mckubes[key].settings.Some?
    ensures ShowsAt(trace, k, key)
  {
    assert Answered(mckubes, trace[k], answers(0 + k));
    assert Names(mckubes, key, trace[k].victim.name);
    AnswersDecide(mckubes, trace[k], answers(k));
  }

  lemma NotShownForOthers(mckubes: map<string, McKube>, trace: seq<Preemption>, answers: nat -> Answers, key: string,
                          j: nat)
    requires AllAnswered(mckubes, trace, answers, 0) && j < |trace|
    requires key in mckubes && mckubes[key].podName != trace[j].victim.name
    ensures !ShowsAt(trace, j, key)
  {
    assert Answered(mckubes, trace[j], answers(0 + j));
    AnswersDecide(mckubes, trace[j], answers(j));
  }
}
