/**
 The allocation at which the recheck earns its keep: for every candidate that the constructor admits with a
 leg gross above one there are valid inputs on which it is sized to a positive amount and then refused.
 */
module OverGross {
  import opened Prelude
  import opened Sorting
  import opened Rules
  import opened Candidates
  import opened Clip
  import opened Allocator
  import opened AllocatorProofs

  /** All of equity is budgeted to one alpha. */
  function SoleBudget(a: AlphaFamily, b: AlphaFamily): Registration {
    Registration(if a == b then 1.0 else 0.0, true)
  }

  function SoleRegistry(a: AlphaFamily): map<AlphaFamily, Registration> {
    map[CrossSectionalMomentum := SoleBudget(a, CrossSectionalMomentum), MomentumBreakout := SoleBudget(a, MomentumBreakout),
        PairsStatArb := SoleBudget(a, PairsStatArb), VwapMeanReversion := SoleBudget(a, VwapMeanReversion),
        SectorRelativeValue := SoleBudget(a, SectorRelativeValue)]
  }

  /** A capacity for each leg that lets the symbol cap decide. */
  function Capacities(legs: seq<Leg>, at: Instant): (qs: seq<Capacity>)
    ensures |qs| == |legs|
    ensures forall i :: 0 <= i < |qs| ==> qs[i] == Capacity(legs[i].entity, at, at, 1.0, 1.0, 1.0, 1.0, true)
  {
    seq(|legs|, i requires 0 <= i < |legs| => Capacity(legs[i].entity, at, at, 1.0, 1.0, 1.0, 1.0, true))
  }

  /** An empty portfolio, a single candidate, and nothing in its way but the alpha cap. */
  function SoleInputs(c: Candidate): Inputs {
    var at := c.timestamp;
    Inputs(
      at, false, Some((at, at + 1)), SoleRegistry(c.alpha), c.registry,
      [HealthView(c.alpha, at, 1.0, 0.0, 1.0, 0, 0)],
      [], 1.0, at, true, false,
      Capacities(c.legs, at),
      [Estimate(c.signal, at, 1.0, 1.0)],
      [], at, at - 1,
      [c], at,
      Regime(at, TrendUp, 1.0, [c.alpha], true, true, false, at, 0, 0),
      Allocator.Settings(TickCaps(), 1.0, 1.0, 0, 0.0, 0.0, 0.0))
  }

  lemma SoleInputsValid(c: Candidate)
    requires WellFormed(c)
    ensures SoleInputs(c).Valid()
  {
    var r := SoleRegistry(c.alpha);
    forall a: AlphaFamily
      ensures a in r && 0.0 <= r[a].baseBudget <= 1.0
    {
      match a {
        case CrossSectionalMomentum =>
        case MomentumBreakout =>
        case PairsStatArb =>
        case VwapMeanReversion =>
        case SectorRelativeValue =>
      }
    }
    assert TotalBudget(r) == 1.0;
  }

  function EntitiesOf(qs: seq<Capacity>): set<Id> {
    set i | 0 <= i < |qs| :: qs[i].entity
  }

  ghost predicate EntitiesDiffer(qs: seq<Capacity>) {
    forall j, k :: 0 <= j < k < |qs| ==> qs[j].entity != qs[k].entity
  }

  lemma EntitiesNext(before: seq<Capacity>, q: Capacity)
    ensures EntitiesOf(before + [q]) == EntitiesOf(before) + {q.entity}
    ensures EntitiesDiffer(before + [q]) ==> EntitiesDiffer(before) && q.entity !in EntitiesOf(before)
  {
    var all := before + [q];
    assert all[|before|] == q && forall i :: 0 <= i < |before| ==> all[i] == before[i];
    forall e | e in EntitiesOf(before) + {q.entity}
      ensures e in EntitiesOf(all)
    {
      if e == q.entity {
        assert all[|before|].entity == e;
      } else {
        var i :| 0 <= i < |before| && before[i].entity == e;
        assert all[i].entity == e;
      }
    }
  }

  /** Distinct keys: the dictionary has one entry for every item. */
  lemma {:induction false} IndexSize(qs: seq<Capacity>)
    requires EntitiesDiffer(qs)
    ensures Index(qs, CapacityKey).Keys == EntitiesOf(qs) && |Index(qs, CapacityKey)| == |qs|
  {
    if qs != [] {
      var before, q := qs[..|qs| - 1], qs[|qs| - 1];
      assert qs == before + [q];
      EntitiesNext(before, q);
      IndexSize(before);
      assert Index(qs, CapacityKey).Keys == Index(before, CapacityKey).Keys + {q.entity};
    }
  }

  lemma IndexLookup(qs: seq<Capacity>, i: nat)
    requires EntitiesDiffer(qs) && i < |qs|
    ensures qs[i].entity in Index(qs, CapacityKey) && Index(qs, CapacityKey)[qs[i].entity] == qs[i]
  {
    IndexSize(qs);
    assert qs[i].entity in EntitiesOf(qs);
    var found := Index(qs, CapacityKey)[qs[i].entity];
    var j :| 0 <= j < |qs| && qs[j] == found;
  }

  lemma OneEntry<K, V>(x: V, key: V -> K)
    ensures Index([x], key) == map[key(x) := x]
  {
    assert [x][..0] == [];
  }

  lemma SoleBook(c: Candidate)
    requires WellFormed(c)
    ensures var b := BookOf(SoleInputs(c));
            && b.health == map[c.alpha := SoleInputs(c).health[0]]
            && b.estimates == map[c.signal := SoleInputs(c).estimates[0]]
            && b.correlations == map[]
            && |b.capacities| == |SoleInputs(c).capacities|
            && forall i :: 0 <= i < |c.legs| ==>
                 c.legs[i].entity in b.capacities && b.capacities[c.legs[i].entity] == SoleInputs(c).capacities[i]
  {
    var inp := SoleInputs(c);
    OneEntry(inp.health[0], HealthKey);
    OneEntry(inp.estimates[0], EstimateKey);
    var qs := inp.capacities;
    assert EntitiesDiffer(qs);
    forall i | 0 <= i < |c.legs|
      ensures qs[i].entity in Index(qs, CapacityKey) && Index(qs, CapacityKey)[qs[i].entity] == qs[i]
    {
      IndexLookup(qs, i);
    }
    IndexSize(qs);
  }

  lemma SoleGateOpen(c: Candidate, inp: Inputs)
    requires WellFormed(c) && inp == SoleInputs(c)
    requires |BookOf(inp).health| == 1 && |BookOf(inp).estimates| == 1 && |BookOf(inp).correlations| == 0
    requires |BookOf(inp).capacities| == |inp.capacities|
    ensures Gate(inp).None?
  {
    OpenRoom(c);
  }

  /** What the leg scan reads of the inputs. */
  ghost predicate OpenLegs(inp: Inputs, book: Book, legs: seq<Leg>) {
    && inp.equity == 1.0 && inp.settings.caps == TickCaps()
    && inp.settings.maxAdvParticipation == 1.0 && inp.settings.maxTurnoverParticipation == 1.0
    && forall i :: 0 <= i < |legs| ==> legs[i].entity in book.capacities && OpenCapacity(inp, book.capacities[legs[i].entity])
  }

  ghost predicate OpenCapacity(inp: Inputs, q: Capacity) {
    Liquid(inp, q) && q.maxNotional == 1.0 && q.advShares == 1.0 && q.price == 1.0 && q.turnover == 1.0
  }

  lemma OpenCapacityIsOne(inp: Inputs, q: Capacity)
    requires inp.equity == 1.0 && inp.settings.caps == TickCaps() && OpenCapacity(inp, q)
    requires inp.settings.maxAdvParticipation == 1.0 && inp.settings.maxTurnoverParticipation == 1.0
    ensures LegCap(inp, q) == 1.0
  {
  }

  /** Open capacities give every leg the whole symbol cap. */
  lemma {:induction false} OpenLegCaps(inp: Inputs, book: Book, legs: seq<Leg>, n: nat)
    requires OpenLegs(inp, book, legs) && n <= |legs|
    ensures var r := LegCaps(inp, book, legs, n);
            r.Ok? && |r.value| == n && forall i :: 0 <= i < n ==> r.value[i] == 1.0
  {
    if n > 0 {
      OpenLegCaps(inp, book, legs, n - 1);
      OpenCapacityIsOne(inp, book.capacities[legs[n - 1].entity]);
    }
  }

  lemma SoleLegsOpen(c: Candidate, inp: Inputs, book: Book)
    requires inp == SoleInputs(c)
    requires forall i :: 0 <= i < |c.legs| ==> c.legs[i].entity in book.capacities && book.capacities[c.legs[i].entity] == inp.capacities[i]
    ensures OpenLegs(inp, book, c.legs)
  {
  }

  lemma SoleScore(c: Candidate)
    requires WellFormed(c)
    ensures ScoreSum([c], c.alpha) == 1.0
  {
    assert [c][..0] == [];
    assert StrengthSum([c], c.alpha) == c.strength;
  }

  lemma NoCorrelations(book: Book, legs: seq<Leg>)
    ensures Correlated(book, legs, [], |legs|) == Some(0.0)
  {
    CorrelatedMeaning(book, legs, [], |legs|);
    assert legs[..|legs|] == legs;
  }

  lemma SolePenalty(s: Allocator.Settings, e: Estimate)
    requires s.correlationThreshold == 0.0 && s.correlationPenalty == 0.0 && s.sectorPenalty == 0.0 && e.volatilityPenalty == 1.0
    ensures Penalty(s, e, 0, 0.0) == 1.0
  {
    assert Times(0.0, 0.0) == 0.0 && Times(1.0, 1.0) == 1.0;
  }

  lemma SoleBudgetIsEquity(c: Candidate)
    ensures AlphaBudget(SoleInputs(c), 1.0, c.alpha) == 1.0
  {
    assert BudgetOf(SoleRegistry(c.alpha), c.alpha) == 1.0;
    assert Times(1.0, 1.0) == 1.0;
  }

  /** The lookups and guards that lead to sizing, for inputs with an empty portfolio. */
  lemma ReachesSizing(
      inp: Inputs, book: Book, c: Candidate, h: HealthView, e: Estimate, legCaps: seq<real>)
    requires inp.Valid() && WellFormed(c) && book == BookOf(inp)
    requires c.alpha in book.health && book.health[c.alpha] == h && c.signal in book.estimates && book.estimates[c.signal] == e
    requires Usable(inp, c, h, e) && RoomRefusal(inp.settings.caps, [], c).None?
    requires LegCaps(inp, book, c.legs, |c.legs|) == Ok(legCaps) && Penalty(inp.settings, e, 0, 0.0) == 1.0
    ensures var t := TermsOf(inp, [c], c, h, e, 1.0, legCaps);
            && SizingTerms(inp, [c], [], c) == Some(t) && ValidTerms(c, t, inp.settings.caps)
            && Evaluate(inp, book, [c], [], c) == Size(inp, [], c, t, h.multiplier, 1.0)
  {
    NoCorrelations(book, c.legs);
    assert SectorNeighbours([], c) == {};
  }

  /** What a sole candidate wants is its strength, and nothing else binds. */
  lemma SoleTermsOpen(c: Candidate, inp: Inputs, h: HealthView, e: Estimate, legCaps: seq<real>)
    requires WellFormed(c) && c.strength >= 1.0 / TICKS && h.multiplier == 1.0 && e.loss == 1.0
    requires AlphaBudget(inp, 1.0, c.alpha) == 1.0
    requires |legCaps| == |c.legs| && forall i :: 0 <= i < |legCaps| ==> legCaps[i] == 1.0
    ensures Open(TermsOf(inp, [c], c, h, e, 1.0, legCaps), |c.legs|)
  {
    SoleScore(c);
    assert Times(1.0, c.strength) == c.strength;
  }

  /** The terms a sole candidate is sized on. */
  lemma SoleTerms(c: Candidate, inp: Inputs, book: Book, h: HealthView, e: Estimate) returns (t: Terms)
    requires WellFormed(c) && c.strength >= 1.0 / TICKS && inp.Valid() && book == BookOf(inp)
    requires c.alpha in book.health && book.health[c.alpha] == h && h.multiplier == 1.0
    requires c.signal in book.estimates && book.estimates[c.signal] == e && e.loss == 1.0
    requires Usable(inp, c, h, e) && RoomRefusal(inp.settings.caps, [], c).None?
    requires OpenLegs(inp, book, c.legs) && Penalty(inp.settings, e, 0, 0.0) == 1.0 && AlphaBudget(inp, 1.0, c.alpha) == 1.0
    ensures SizingTerms(inp, [c], [], c) == Some(t)
    ensures Open(t, |c.legs|) && ValidTerms(c, t, TickCaps())
    ensures Evaluate(inp, book, [c], [], c) == Size(inp, [], c, t, 1.0, 1.0)
  {
    OpenLegCaps(inp, book, c.legs, |c.legs|);
    var legCaps := LegCaps(inp, book, c.legs, |c.legs|).value;
    ReachesSizing(inp, book, c, h, e, legCaps);
    SoleTermsOpen(c, inp, h, e, legCaps);
    t := TermsOf(inp, [c], c, h, e, 1.0, legCaps);
  }

  lemma SoleUsable(c: Candidate, inp: Inputs)
    requires inp == SoleInputs(c)
    ensures Usable(inp, c, inp.health[0], inp.estimates[0]) && RoomRefusal(inp.settings.caps, [], c).None?
  {
    OpenRoom(c);
  }

  lemma SortOfOne(c: Candidate)
    ensures Sort([c], Stronger) == [c]
  {
    assert [c][1..] == [];
  }

  lemma SolePass(c: Candidate, inp: Inputs, v: Verdict)
    requires WellFormed(c) && inp.Valid() && inp.positions == [] && inp.candidates == [c]
    requires Gate(inp).None? && v == Evaluate(inp, BookOf(inp), [c], [], c)
    ensures Allocation(inp) == Decision(Extend(([], []), c, v).0, Extend(([], []), c, v).1, ProposalsOnly)
  {
    SortOfOne(c);
    assert AllWellFormed([c]);
    Allocator.PassStep(inp, [c], 0, v);
  }

  /** The allocation sizes the candidate to one tick, and the recheck turns that into NO_CAPACITY. */
  lemma AllocationRejectsOverGross(c: Candidate) returns (t: Terms)
    requires WellFormed(c) && LegGross(c.legs) > 1.0 && c.strength >= 1.0 / TICKS
    ensures SoleInputs(c).Valid() && SizingTerms(SoleInputs(c), [c], [], c) == Some(t)
    ensures ValidTerms(c, t, TickCaps()) && Amount(TickCaps(), [], c, t) == 1.0 / TICKS
    ensures var d := Allocation(SoleInputs(c));
            d.status.ProposalsOnly? && d.targets == [] && |d.records| == 1 && d.records[0].amount == 0.0 && d.records[0].reason.NoCapacity?
  {
    var inp := SoleInputs(c);
    SoleInputsValid(c);
    SoleBook(c);
    SoleGateOpen(c, inp);
    SoleLegsOpen(c, inp, BookOf(inp));
    SoleUsable(c, inp);
    SolePenalty(inp.settings, inp.estimates[0]);
    SoleBudgetIsEquity(c);
    t := SoleTerms(c, inp, BookOf(inp), inp.health[0], inp.estimates[0]);
    OverGrossRejected(c, t);
    SolePass(c, inp, Evaluate(inp, BookOf(inp), [c], [], c));
  }
}
