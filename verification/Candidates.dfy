/** Normalised candidates: the bundles that the ensemble hands to the allocator. */
module Candidates {
  import opened Prelude
  import opened Rules

  datatype Leg = Leg(entity: Id, instrument: string, sector: string, weight: real)

  /** `registry` stands for the hash of the registry the candidate was scored against. */
  datatype Candidate = Candidate(
    signal: Id,
    alpha: AlphaFamily,
    timestamp: Instant,
    strength: real,
    legs: seq<Leg>,
    registry: Id)

  function LegGross(legs: seq<Leg>): real {
    if legs == [] then 0.0 else LegGross(legs[..|legs| - 1]) + Abs(legs[|legs| - 1].weight)
  }

  predicate DistinctEntities(legs: seq<Leg>) {
    forall i, j :: 0 <= i < j < |legs| ==> legs[i].entity != legs[j].entity
  }

  predicate NonzeroWeights(legs: seq<Leg>) {
    forall i :: 0 <= i < |legs| ==> legs[i].weight != 0.0
  }

  /** What the candidate constructor checks. */
  predicate WellFormed(c: Candidate) {
    && c.legs != []
    && 0.0 <= c.strength <= 1.0
    && DistinctEntities(c.legs)
    && NonzeroWeights(c.legs)
    && Abs(LegGross(c.legs) - 1.0) <= TOLERANCE
  }

  function Entities(c: Candidate): set<Id> {
    set i | 0 <= i < |c.legs| :: c.legs[i].entity
  }

  /** Some security is long in one bundle and short in the other. */
  predicate Opposes(a: Candidate, b: Candidate) {
    exists i, j :: 0 <= i < |a.legs| && 0 <= j < |b.legs| &&
      a.legs[i].entity == b.legs[j].entity && a.legs[i].weight * b.legs[j].weight < 0.0
  }

  /** Strongest first, ties by signal id. */
  predicate Stronger(a: Candidate, b: Candidate) {
    a.strength > b.strength || (a.strength == b.strength && a.signal <= b.signal)
  }
}
