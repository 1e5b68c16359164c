/** The ordering of criticality levels that preemption and pressure handling share. */
module Criticality {

  /** The three levels the controller knows, lowest first. */
  const CRITICALITY_RANK: map<string, int> := map["Low" := 0, "Middle" := 1, "High" := 2]

  /** The rank of a level as a map lookup gives it: an unknown level counts as 0. */
  function Rank(level: string): int {
    if level in CRITICALITY_RANK then CRITICALITY_RANK[level] else 0
  }

  /** Above every rank; the starting point of a search for the lowest one. */
  const RANK_LIMIT: int := 0x4000_0000

  /** What the tier functions need of a rank table: distinct levels have distinct ranks,
      the empty string is no level and every rank is below the search limit. */
  ghost predicate ValidRanks(rank: map<string, int>) {
    && "" !in rank
    && (forall t | t in rank :: rank[t] < RANK_LIMIT)
    && (forall t, u | t in rank && u in rank && rank[t] == rank[u] :: t == u)
  }

  /** The table suits the tier functions and orders the three levels by name. */
  lemma KnownRanksAreValid()
    ensures ValidRanks(CRITICALITY_RANK)
    ensures forall level :: level in CRITICALITY_RANK <==> level == "Low" || level == "Middle" || level == "High"
    ensures CRITICALITY_RANK["Low"] < CRITICALITY_RANK["Middle"] < CRITICALITY_RANK["High"]
  {
  }

  /** Which level may preempt which, by name. */
  predicate MayPreempt(preemptor: string, victim: string) {
    || (preemptor == "High" && victim != "High")
    || (preemptor == "Middle" && victim != "Middle" && victim != "High")
  }

  /** A Middle pod outranks every pod that is neither Middle nor High, a High one every pod that is
      not High; a Low pod, or one of an unknown level, outranks none. */
  lemma OutranksByName(preemptor: string, victim: string)
    ensures preemptor == "High" ==> (Rank(preemptor) > Rank(victim) <==> victim != "High")
    ensures preemptor == "Middle" ==> (Rank(preemptor) > Rank(victim) <==> victim != "Middle" && victim != "High")
    ensures preemptor != "High" && preemptor != "Middle" ==> !(Rank(preemptor) > Rank(victim))
    ensures Rank(preemptor) > Rank(victim) <==> MayPreempt(preemptor, victim)
  {
    assert "Low" != "Middle" && "Low" != "High" && "Middle" != "High";
  }
}
