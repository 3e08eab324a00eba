/**
 What an allocation amounts to, told in its inputs: when it may propose, why it refuses a candidate, and how it
 sizes one, down to the last tick.
 */
module Sizing {
  import opened Prelude
  import opened Sorting
  import opened Rules
  import opened Candidates
  import opened Portfolio
  import opened Exposure
  import opened Clip
  import opened Fitting
  import opened Allocator
  import opened AllocatorProofs

  ghost predicate KeysDiffer<K, V>(items: seq<V>, key: V -> K) {
    forall i, j :: 0 <= i < j < |items| ==> key(items[i]) != key(items[j])
  }

  /** A dictionary has every key of its list, and as many entries exactly when no key repeats. */
  lemma {:induction false} IndexMeaning<K, V>(items: seq<V>, key: V -> K)
    ensures forall x :: x in items ==> key(x) in Index(items, key)
    ensures |Index(items, key)| <= |items|
    ensures |Index(items, key)| == |items| <==> KeysDiffer(items, key)
  {
    if items != [] {
      var before, x := items[..|items| - 1], items[|items| - 1];
      assert items == before + [x];
      IndexMeaning(before, key);
      var m := Index(before, key);
      assert m[key(x) := x].Keys == m.Keys + {key(x)};
      KeysStep(before, x, key);
    }
  }

  lemma KeysStep<K, V>(items: seq<V>, x: V, key: V -> K)
    requires forall y :: y in items ==> key(y) in Index(items, key)
    ensures KeysDiffer(items + [x], key) <==> KeysDiffer(items, key) && key(x) !in Index(items, key)
  {
    var all, m := items + [x], Index(items, key);
    assert forall i :: 0 <= i < |items| ==> all[i] == items[i];
    if KeysDiffer(all, key) {
      assert forall i, j :: 0 <= i < j < |items| ==> key(all[i]) != key(all[j]);
      forall y | y in items
        ensures key(y) != key(x)
      {
        var i :| 0 <= i < |items| && items[i] == y;
        assert key(all[i]) != key(all[|items|]);
      }
    }
    if KeysDiffer(items, key) && key(x) !in m {
      forall i, j | 0 <= i < j < |all|
        ensures key(all[i]) != key(all[j])
      {
        assert all[i] in items;
      }
    }
  }

  /** Without repeated keys the entry of a key is the item that has it. */
  lemma EntryIsItem<K, V>(items: seq<V>, key: V -> K, x: V)
    requires KeysDiffer(items, key) && x in items
    ensures key(x) in Index(items, key) && Index(items, key)[key(x)] == x
  {
    IndexMeaning(items, key);
    var y := Index(items, key)[key(x)];
    var i :| 0 <= i < |items| && items[i] == x;
    var j :| 0 <= j < |items| && items[j] == y;
  }

  ghost predicate During(at: Instant, start: Instant, maxAge: nat) {
    start <= at <= start + maxAge * SECOND
  }

  ghost predicate EntryOpen(inp: Inputs) {
    match inp.entryWindow
    case None => false
    case Some((open, close)) => open <= inp.at < close
  }

  /** Not live, with a complete and current portfolio, and an open market judged now by a healthy system. */
  ghost predicate MayAllocate(inp: Inputs) {
    var r := inp.regime;
    && !inp.live && inp.portfolioComplete && !inp.portfolioBlocks
    && During(inp.at, inp.portfolioTime, inp.settings.maxInputAge)
    && inp.ensembleTime == inp.at && r.timestamp == inp.at
    && r.state != RiskOff && r.state != OpenShock && r.multiplier > 0.0
    && !r.blocksNewEntries && r.systemHealthy && r.riskHealthy
    && During(inp.at, r.observedAt, r.healthMaxAge)
  }

  ghost predicate IsPair(x: Correlation, a: Id, b: Id) {
    (x.left == a && x.right == b) || (x.left == b && x.right == a)
  }

  /**
   One health snapshot an alpha, one capacity a security, one estimate a signal, one correlation a pair; trained in
   the past.
   */
  ghost predicate Unambiguous(inp: Inputs) {
    && (forall i, j :: 0 <= i < j < |inp.health| ==> inp.health[i].alpha != inp.health[j].alpha)
    && (forall i, j :: 0 <= i < j < |inp.capacities| ==> inp.capacities[i].entity != inp.capacities[j].entity)
    && (forall i, j :: 0 <= i < j < |inp.estimates| ==> inp.estimates[i].signal != inp.estimates[j].signal)
    && (forall i, j :: 0 <= i < j < |inp.correlations| ==>
          !IsPair(inp.correlations[i], inp.correlations[j].left, inp.correlations[j].right))
    && inp.trainingEnd < inp.at && inp.trainingEnd <= inp.correlationTime
    && During(inp.at, inp.correlationTime, inp.settings.maxInputAge)
  }

  ghost predicate SignalsOnce(cs: seq<Candidate>) {
    forall i, j :: 0 <= i < j < |cs| ==> cs[i].signal != cs[j].signal
  }

  lemma PairMeaning(x: Correlation, a: Id, b: Id)
    ensures CorrelationKey(x) == {a, b} <==> IsPair(x, a, b)
  {
    assert x.left in CorrelationKey(x) && x.right in CorrelationKey(x);
    if CorrelationKey(x) == {a, b} {
      assert a in CorrelationKey(x) && b in CorrelationKey(x);
    }
  }

  lemma PairsDiffer(inp: Inputs)
    ensures KeysDiffer(inp.correlations, CorrelationKey) <==>
            forall i, j :: 0 <= i < j < |inp.correlations| ==>
              !IsPair(inp.correlations[i], inp.correlations[j].left, inp.correlations[j].right)
  {
    forall i, j | 0 <= i < j < |inp.correlations|
      ensures CorrelationKey(inp.correlations[i]) != CorrelationKey(inp.correlations[j])
              <==> !IsPair(inp.correlations[i], inp.correlations[j].left, inp.correlations[j].right)
    {
      PairMeaning(inp.correlations[i], inp.correlations[j].left, inp.correlations[j].right);
    }
  }

  lemma UnambiguousMeaning(inp: Inputs)
    ensures Unambiguous(inp) <==>
            && |BookOf(inp).health| == |inp.health| && |BookOf(inp).capacities| == |inp.capacities|
            && |BookOf(inp).estimates| == |inp.estimates| && |BookOf(inp).correlations| == |inp.correlations|
            && inp.trainingEnd < inp.at && inp.trainingEnd <= inp.correlationTime
            && Fresh(inp.at, inp.correlationTime, inp.settings.maxInputAge)
  {
    IndexMeaning(inp.health, HealthKey);
    IndexMeaning(inp.capacities, CapacityKey);
    IndexMeaning(inp.estimates, EstimateKey);
    IndexMeaning(inp.correlations, CorrelationKey);
    PairsDiffer(inp);
  }

  lemma GateMeaning(inp: Inputs)
    requires inp.Valid()
    ensures Gate(inp) ==
            if !EntryOpen(inp) then Some(CalendarBlocked)
            else if !MayAllocate(inp) then Some(NewAllocationBlocked)
            else if !WithinCaps(inp.positions, inp.settings.caps) then Some(ExistingExposureReview)
            else if !Unambiguous(inp) then Some(InputAmbiguous)
            else if !SignalsOnce(inp.candidates) then Some(DuplicateCandidate)
            else None
  {
    if EntryOpen(inp) && MayAllocate(inp) && WithinCaps(inp.positions, inp.settings.caps) {
      UnambiguousMeaning(inp);
    }
  }

  /** The status of an allocation; there are proposals only when nothing stands in the way. */
  lemma StatusMeaning(inp: Inputs)
    requires inp.Valid()
    ensures Allocation(inp).status ==
            if !EntryOpen(inp) then CalendarBlocked
            else if !MayAllocate(inp) then NewAllocationBlocked
            else if !InCaps(inp.positions, inp.settings.caps) then ExistingExposureReview
            else if !Unambiguous(inp) then InputAmbiguous
            else if !SignalsOnce(inp.candidates) then DuplicateCandidate
            else ProposalsOnly
  {
    GateMeaning(inp);
    CapsMeaning(inp.positions, inp.settings.caps);
    SortMembers(inp.candidates, Stronger);
  }

  /** A usable snapshot and estimate for the candidate, of now, of the same origin, and allowed today. */
  ghost predicate IsInput(inp: Inputs, c: Candidate, h: HealthView, e: Estimate) {
    && h in inp.health && h.alpha == c.alpha && e in inp.estimates && e.signal == c.signal
    && c.alpha in inp.registry && inp.registry[c.alpha].enabled && c.registry == inp.registryHash
    && c.timestamp == inp.at && c.alpha in inp.regime.families
    && During(inp.at, h.timestamp, h.maxAge) && h.provenance == inp.regime.provenance
    && h.minimum <= h.multiplier <= h.maximum
    && During(inp.at, e.timestamp, inp.settings.maxInputAge)
  }

  ghost predicate Overlaps(targets: seq<Position>, c: Candidate) {
    exists i, j :: 0 <= i < |targets| && 0 <= j < |c.legs| && targets[i].entity == c.legs[j].entity
  }

  ghost predicate GroupsFull(caps: Caps, targets: seq<Position>) {
    |set i | 0 <= i < |targets| :: targets[i].group| >= caps.maxGroups
  }

  ghost predicate SomeSectorFull(caps: Caps, targets: seq<Position>, c: Candidate) {
    exists j :: 0 <= j < |c.legs| && |GroupsOf(targets, c.legs[j].sector)| >= caps.maxSectorGroups
  }

  ghost predicate PairGiven(inp: Inputs, a: Id, b: Id) {
    exists x :: x in inp.correlations && IsPair(x, a, b)
  }

  ghost predicate PairsGiven(inp: Inputs, targets: seq<Position>, c: Candidate) {
    forall i, j :: 0 <= i < |c.legs| && 0 <= j < |targets| ==> PairGiven(inp, c.legs[i].entity, targets[j].entity)
  }

  /** The figure relates a leg of the candidate to a target. */
  ghost predicate Relates(targets: seq<Position>, c: Candidate, x: Correlation) {
    exists i, j :: 0 <= i < |c.legs| && 0 <= j < |targets| && IsPair(x, c.legs[i].entity, targets[j].entity)
  }

  /** The size of the largest correlation with the targets, zero if there is none. */
  ghost predicate IsTop(inp: Inputs, targets: seq<Position>, c: Candidate, top: real) {
    && (forall x :: x in inp.correlations && Relates(targets, c, x) ==> -top <= x.value <= top)
    && (top == 0.0 || exists x :: x in inp.correlations && Relates(targets, c, x) && (x.value == top || x.value == -top))
    && top >= 0.0
  }

  /** A group with a position in a sector of the candidate. */
  ghost predicate IsNeighbour(targets: seq<Position>, c: Candidate, g: Id) {
    exists i, j :: 0 <= i < |targets| && 0 <= j < |c.legs| && targets[i].sector == c.legs[j].sector && targets[i].group == g
  }

  /** The volatility penalty, raised for each neighbour and for the correlation above the threshold. */
  ghost predicate IsPenalty(s: Allocator.Settings, volatility: real, neighbours: nat, top: real, x: real) {
    var base := volatility * (1.0 + s.sectorPenalty * neighbours as real);
    if top <= s.correlationThreshold then x == base
    else (x - base) * (1.0 - s.correlationThreshold) == volatility * (s.correlationPenalty * (top - s.correlationThreshold))
  }

  /** The sum of the strengths of an alpha, or one if that is more. */
  ghost predicate IsDivisor(cs: seq<Candidate>, a: AlphaFamily, x: real) {
    var sum := Sum(seq(|cs|, i requires 0 <= i < |cs| => if cs[i].alpha == a then cs[i].strength else 0.0));
    x == if sum > 1.0 then sum else 1.0
  }

  /** A capacity that may be used now. */
  ghost predicate Serves(inp: Inputs, q: Capacity, entity: Id) {
    && q in inp.capacities && q.entity == entity && q.eligible
    && q.timestamp <= inp.at <= q.validUntil && inp.at <= q.timestamp + inp.settings.maxInputAge * SECOND
  }

  ghost predicate IsServed(inp: Inputs, entity: Id) {
    exists q :: Serves(inp, q, entity)
  }

  /** `i` is the first leg without a usable capacity; the reason tells whether it has one at all. */
  ghost predicate IsShort(inp: Inputs, c: Candidate, i: int, reason: Reason) {
    && 0 <= i < |c.legs| && !IsServed(inp, c.legs[i].entity)
    && (forall k :: 0 <= k < i ==> IsServed(inp, c.legs[k].entity))
    && reason == if exists q :: q in inp.capacities && q.entity == c.legs[i].entity then LiquidityUnavailable
                 else CandidateInputUnavailable
  }

  /** The share of equity a security may take: the least of the symbol cap and what its capacity allows. */
  ghost predicate IsShareCap(inp: Inputs, entity: Id, x: real) {
    exists q :: Serves(inp, q, entity) && IsLeastShare(inp, q, x)
  }

  ghost predicate IsLeastShare(inp: Inputs, q: Capacity, x: real) {
    var notional, adv, turnover :=
      q.maxNotional, q.advShares * q.price * inp.settings.maxAdvParticipation, q.turnover * inp.settings.maxTurnoverParticipation;
    var y := x * inp.equity;
    && x <= inp.settings.caps.maxSymbol && y <= notional && y <= adv && y <= turnover
    && (x == inp.settings.caps.maxSymbol || y == notional || y == adv || y == turnover)
  }

  /** The figures a verdict rests on. */
  datatype Basis = Basis(
    health: HealthView, estimate: Estimate, neighbours: set<Id>, top: real, divisor: real, terms: Terms, amount: real)

  /** The penalty comes from the neighbours and the correlations of the candidate among the targets. */
  ghost predicate IsPenalised(inp: Inputs, targets: seq<Position>, c: Candidate, b: Basis, penalty: real) {
    && (forall g :: g in b.neighbours <==> IsNeighbour(targets, c, g))
    && IsTop(inp, targets, c, b.top)
    && IsPenalty(inp.settings, b.estimate.volatilityPenalty, |b.neighbours|, b.top, penalty)
  }

  /** The budget of today and the share of it that the strength of the candidate earns at that penalty. */
  ghost predicate IsTerms(inp: Inputs, sorted: seq<Candidate>, c: Candidate, b: Basis, penalty: real)
    requires c.alpha in inp.registry
  {
    && b.terms.budget == inp.registry[c.alpha].baseBudget * inp.regime.multiplier * b.health.multiplier
    && IsDivisor(sorted, c.alpha, b.divisor)
    && b.terms.desired * penalty * b.divisor == b.terms.budget * c.strength
    && b.terms.loss == b.estimate.loss
    && |b.terms.legCaps| == |c.legs| && forall i :: 0 <= i < |c.legs| ==> IsShareCap(inp, c.legs[i].entity, b.terms.legCaps[i])
  }

  /** The largest fitting amount, proposed if it is more than nothing and the enlarged portfolio is within its caps. */
  ghost predicate IsSized(
      inp: Inputs, sorted: seq<Candidate>, targets: seq<Position>, c: Candidate, b: Basis, v: Verdict)
    requires c.alpha in inp.registry
  {
    && IsTerms(inp, sorted, c, b, v.penalty)
    && IsLargestFit(inp.settings.caps, targets, c, b.terms, b.amount)
    && (if b.amount > 0.0 && InCaps(targets + Bundle(c, b.amount, b.estimate.loss), inp.settings.caps)
        then v.reason == ProposedRequiresRisk && v.amount == b.amount
        else v.reason == NoCapacity && v.amount == 0.0)
  }

  ghost predicate Refused(v: Verdict, reason: Reason, penalty: real) {
    v.reason == reason && v.amount == 0.0 && v.penalty == penalty
  }

  /** The verdict on a candidate among the targets so far: the first thing in its way, or its size. */
  ghost predicate IsVerdict(
      inp: Inputs, sorted: seq<Candidate>, targets: seq<Position>, c: Candidate, b: Basis, v: Verdict) {
    if forall h, e :: !IsInput(inp, c, h, e) then v == Verdict(0.0, 0.0, 1.0, 0.0, CandidateInputUnavailable)
    else
      && IsInput(inp, c, b.health, b.estimate) && v.multiplier == b.health.multiplier && v.loss == b.estimate.loss
      && if Overlaps(targets, c) then Refused(v, SymbolOverlap, 1.0)
         else if GroupsFull(inp.settings.caps, targets) then Refused(v, PositionGroupCap, 1.0)
         else if SomeSectorFull(inp.settings.caps, targets, c) then Refused(v, SectorGroupCap, 1.0)
         else if !PairsGiven(inp, targets, c) then Refused(v, CorrelationUnavailable, 1.0)
         else
           && IsPenalised(inp, targets, c, b, v.penalty)
           && if forall i :: 0 <= i < |c.legs| ==> IsServed(inp, c.legs[i].entity) then IsSized(inp, sorted, targets, c, b, v)
              else v.amount == 0.0 && exists i :: IsShort(inp, c, i, v.reason)
  }

  lemma InputMeaning(inp: Inputs, c: Candidate, h: HealthView, e: Estimate)
    requires Unambiguous(inp)
    ensures var book := BookOf(inp);
            IsInput(inp, c, h, e) <==>
            && c.alpha in book.health && h == book.health[c.alpha] && c.signal in book.estimates && e == book.estimates[c.signal]
            && Usable(inp, c, h, e)
  {
    HealthInBook(inp, c.alpha, h);
    EstimateInBook(inp, c.signal, e);
    UsableMeaning(inp, c, h, e);
  }

  lemma HealthInBook(inp: Inputs, a: AlphaFamily, h: HealthView)
    requires Unambiguous(inp)
    ensures h in inp.health && h.alpha == a <==> a in BookOf(inp).health && h == BookOf(inp).health[a]
  {
    if h in inp.health {
      EntryIsItem(inp.health, HealthKey, h);
    }
  }

  lemma EstimateInBook(inp: Inputs, signal: Id, e: Estimate)
    requires Unambiguous(inp)
    ensures e in inp.estimates && e.signal == signal <==> signal in BookOf(inp).estimates && e == BookOf(inp).estimates[signal]
  {
    if e in inp.estimates {
      EntryIsItem(inp.estimates, EstimateKey, e);
    }
  }

  lemma UsableMeaning(inp: Inputs, c: Candidate, h: HealthView, e: Estimate)
    ensures IsInput(inp, c, h, e) <==>
            h in inp.health && h.alpha == c.alpha && e in inp.estimates && e.signal == c.signal && Usable(inp, c, h, e)
  {
  }

  lemma RoomMeaning(caps: Caps, targets: seq<Position>, c: Candidate)
    ensures RoomRefusal(caps, targets, c) ==
            if Overlaps(targets, c) then Some(SymbolOverlap)
            else if GroupsFull(caps, targets) then Some(PositionGroupCap)
            else if SomeSectorFull(caps, targets, c) then Some(SectorGroupCap)
            else None
  {
    assert Occupied(targets, c) <==> Overlaps(targets, c) by {
      assert forall i :: 0 <= i < |targets| ==> targets[i] in targets;
    }
    GroupsMeaning(targets, "");
    forall j | 0 <= j < |c.legs|
      ensures SectorGroups(targets, c.legs[j].sector) == GroupsOf(targets, c.legs[j].sector)
    {
      GroupsMeaning(targets, c.legs[j].sector);
    }
  }

  lemma PairInBook(inp: Inputs, x: Leg, p: Position)
    requires Unambiguous(inp)
    ensures PairKnown(BookOf(inp), x, p) <==> PairGiven(inp, x.entity, p.entity)
    ensures forall k :: k in inp.correlations && IsPair(k, x.entity, p.entity) ==>
                          PairKnown(BookOf(inp), x, p) && k == BookOf(inp).correlations[{x.entity, p.entity}]
  {
    PairsDiffer(inp);
    IndexMeaning(inp.correlations, CorrelationKey);
    forall k | k in inp.correlations && IsPair(k, x.entity, p.entity)
      ensures PairKnown(BookOf(inp), x, p) && k == BookOf(inp).correlations[{x.entity, p.entity}]
    {
      PairMeaning(k, x.entity, p.entity);
      EntryIsItem(inp.correlations, CorrelationKey, k);
    }
    if PairKnown(BookOf(inp), x, p) {
      var k := BookOf(inp).correlations[{x.entity, p.entity}];
      PairMeaning(k, x.entity, p.entity);
    }
  }

  lemma PairsInBook(inp: Inputs, targets: seq<Position>, c: Candidate)
    requires Unambiguous(inp)
    ensures AllPairsKnown(BookOf(inp), c.legs, targets) <==> PairsGiven(inp, targets, c)
  {
    forall i, j | 0 <= i < |c.legs| && 0 <= j < |targets|
      ensures PairKnown(BookOf(inp), c.legs[i], targets[j]) <==> PairGiven(inp, c.legs[i].entity, targets[j].entity)
    {
      PairInBook(inp, c.legs[i], targets[j]);
    }
  }

  lemma TopMeaning(inp: Inputs, targets: seq<Position>, c: Candidate, top: real)
    requires Unambiguous(inp) && AllPairsKnown(BookOf(inp), c.legs, targets)
    requires IsLargestCorrelation(BookOf(inp), c.legs, targets, top)
    ensures IsTop(inp, targets, c, top)
  {
    forall x | x in inp.correlations && Relates(targets, c, x)
      ensures -top <= x.value <= top
    {
      var i, j :| 0 <= i < |c.legs| && 0 <= j < |targets| && IsPair(x, c.legs[i].entity, targets[j].entity);
      PairInBook(inp, c.legs[i], targets[j]);
      assert PairCorrelation(BookOf(inp), c.legs[i], targets[j]) <= top;
    }
    if top != 0.0 {
      var i, j :| 0 <= i < |c.legs| && 0 <= j < |targets| && PairCorrelation(BookOf(inp), c.legs[i], targets[j]) == top;
      PairInBook(inp, c.legs[i], targets[j]);
      var x :| x in inp.correlations && IsPair(x, c.legs[i].entity, targets[j].entity);
      assert Relates(targets, c, x);
    }
  }

  lemma NeighbourMeaning(targets: seq<Position>, c: Candidate)
    ensures forall g :: g in SectorNeighbours(targets, c) <==> IsNeighbour(targets, c, g)
  {
    forall g
      ensures g in SectorNeighbours(targets, c) <==> IsNeighbour(targets, c, g)
    {
      if IsNeighbour(targets, c, g) {
        var i, j :| 0 <= i < |targets| && 0 <= j < |c.legs| && targets[i].sector == c.legs[j].sector && targets[i].group == g;
        assert targets[i] in targets;
      }
    }
  }

  lemma Product(v: real, a: real, q: real, d: real, y: real)
    requires d != 0.0 && q == y / d
    ensures Times(v, a + q) - v * a == v * q
    ensures (v * q) * d == v * y
  {
    assert q * d == y;
    calc {
      (v * q) * d;
    ==
      v * (q * d);
    }
  }

  lemma PenaltyMeaning(s: Allocator.Settings, e: Estimate, neighbours: nat, top: real)
    requires s.Valid()
    ensures IsPenalty(s, e.volatilityPenalty, neighbours, top, Penalty(s, e, neighbours, top))
  {
    var excess := MaxReal(0.0, top - s.correlationThreshold);
    var d, y := 1.0 - s.correlationThreshold, Times(s.correlationPenalty, excess);
    Product(e.volatilityPenalty, 1.0 + Times(s.sectorPenalty, neighbours as real), y / d, d, y);
    if top <= s.correlationThreshold {
      assert y == 0.0;
    }
  }

  lemma {:induction false} StrengthsMeaning(cs: seq<Candidate>, a: AlphaFamily)
    ensures StrengthSum(cs, a) == Sum(seq(|cs|, i requires 0 <= i < |cs| => if cs[i].alpha == a then cs[i].strength else 0.0))
  {
    if cs != [] {
      var n := |cs| - 1;
      StrengthsMeaning(cs[..n], a);
      var strengths := seq(|cs|, i requires 0 <= i < |cs| => if cs[i].alpha == a then cs[i].strength else 0.0);
      assert strengths[..n] == seq(n, i requires 0 <= i < n => if cs[..n][i].alpha == a then cs[..n][i].strength else 0.0);
    }
  }

  lemma DivisorMeaning(cs: seq<Candidate>, a: AlphaFamily)
    ensures IsDivisor(cs, a, ScoreSum(cs, a))
  {
    StrengthsMeaning(cs, a);
  }

  lemma ServesMeaning(inp: Inputs, x: Leg, q: Capacity)
    requires Unambiguous(inp)
    ensures var book := BookOf(inp);
            Serves(inp, q, x.entity) <==> x.entity in book.capacities && q == book.capacities[x.entity] && LegFault(inp, book, x).None?
    ensures (x.entity in BookOf(inp).capacities) == (exists p :: p in inp.capacities && p.entity == x.entity)
  {
    IndexMeaning(inp.capacities, CapacityKey);
    if q in inp.capacities {
      EntryIsItem(inp.capacities, CapacityKey, q);
    }
    if p :| p in inp.capacities && p.entity == x.entity {
      EntryIsItem(inp.capacities, CapacityKey, p);
    }
  }

  lemma ServedMeaning(inp: Inputs, x: Leg)
    requires Unambiguous(inp)
    ensures LegFault(inp, BookOf(inp), x) ==
            if IsServed(inp, x.entity) then None
            else if exists q :: q in inp.capacities && q.entity == x.entity then Some(LiquidityUnavailable)
            else Some(CandidateInputUnavailable)
  {
    if x.entity in BookOf(inp).capacities {
      ServesMeaning(inp, x, BookOf(inp).capacities[x.entity]);
    }
    if q :| Serves(inp, q, x.entity) {
      ServesMeaning(inp, x, q);
    }
    IndexMeaning(inp.capacities, CapacityKey);
  }

  lemma ShortMeaning(inp: Inputs, c: Candidate, reason: Reason)
    requires Unambiguous(inp) && IsFirstFault(inp, BookOf(inp), c.legs, reason)
    ensures exists i :: IsShort(inp, c, i, reason)
  {
    var i :| 0 <= i < |c.legs| && LegFault(inp, BookOf(inp), c.legs[i]) == Some(reason) && NoFaults(inp, BookOf(inp), c.legs[..i]);
    ServedMeaning(inp, c.legs[i]);
    forall k | 0 <= k < i
      ensures IsServed(inp, c.legs[k].entity)
    {
      assert c.legs[..i][k] == c.legs[k];
      ServedMeaning(inp, c.legs[k]);
    }
    assert IsShort(inp, c, i, reason);
  }

  lemma ShareMeaning(inp: Inputs, x: Leg, q: Capacity, cap: real)
    requires inp.equity > 0.0 && Unambiguous(inp) && Serves(inp, q, x.entity) && IsLeastCap(inp, q, cap)
    ensures IsShareCap(inp, x.entity, cap)
  {
    var adv, turnover := q.advShares * q.price * inp.settings.maxAdvParticipation, q.turnover * inp.settings.maxTurnoverParticipation;
    Cleared(cap, q.maxNotional, inp.equity, q.maxNotional / inp.equity);
    Cleared(cap, adv, inp.equity, adv / inp.equity);
    Cleared(cap, turnover, inp.equity, turnover / inp.equity);
    assert (q.maxNotional / inp.equity) * inp.equity == q.maxNotional;
    assert (adv / inp.equity) * inp.equity == adv;
    assert (turnover / inp.equity) * inp.equity == turnover;
    assert IsLeastShare(inp, q, cap);
  }

  lemma QuotientMeaning(x: real, s: real, p: real, d: real)
    requires s > 0.0 && p > 0.0 && d == x / s / p
    ensures d * p * s == x
  {
    assert d * p == x / s;
  }

  lemma SharesMeaning(inp: Inputs, c: Candidate, caps: seq<real>)
    requires inp.equity > 0.0 && Unambiguous(inp) && NoFaults(inp, BookOf(inp), c.legs) && CapsOfLegs(inp, BookOf(inp), c.legs, caps)
    ensures |caps| == |c.legs| && forall i :: 0 <= i < |c.legs| ==> IsShareCap(inp, c.legs[i].entity, caps[i])
  {
    forall i | 0 <= i < |c.legs|
      ensures IsShareCap(inp, c.legs[i].entity, caps[i])
    {
      var q := BookOf(inp).capacities[c.legs[i].entity];
      ServesMeaning(inp, c.legs[i], q);
      ShareMeaning(inp, c.legs[i], q, caps[i]);
    }
  }

  lemma TermsMeaning(inp: Inputs, sorted: seq<Candidate>, c: Candidate, b: Basis, penalty: real)
    requires c.alpha in inp.registry && penalty > 0.0
    requires b.divisor == ScoreSum(sorted, c.alpha)
    requires b.terms == TermsOf(inp, sorted, c, b.health, b.estimate, penalty, b.terms.legCaps)
    requires |b.terms.legCaps| == |c.legs| && forall i :: 0 <= i < |c.legs| ==> IsShareCap(inp, c.legs[i].entity, b.terms.legCaps[i])
    ensures IsTerms(inp, sorted, c, b, penalty)
  {
    DivisorMeaning(sorted, c.alpha);
    QuotientMeaning(Times(b.terms.budget, c.strength), b.divisor, penalty, b.terms.desired);
  }

  lemma SizeMeaning(inp: Inputs, sorted: seq<Candidate>, targets: seq<Position>, c: Candidate, b: Basis, v: Verdict)
    requires inp.Valid() && WellFormed(c) && c.alpha in inp.registry && IsTerms(inp, sorted, c, b, v.penalty)
    requires ValidTerms(c, b.terms, inp.settings.caps) && b.amount == Amount(inp.settings.caps, targets, c, b.terms)
    requires v == Allocator.Size(inp, targets, c, b.terms, v.multiplier, v.penalty)
    ensures IsSized(inp, sorted, targets, c, b, v)
  {
    AmountIsLargestFit(inp.settings.caps, targets, c, b.terms);
    CapsMeaning(targets + Bundle(c, b.amount, b.terms.loss), inp.settings.caps);
  }

  /** The figures of a candidate whose inputs are there. */
  ghost function Drawn(
      inp: Inputs, sorted: seq<Candidate>, targets: seq<Position>, c: Candidate, h: HealthView, e: Estimate,
      top: real): Basis {
    Basis(h, e, SectorNeighbours(targets, c), top, ScoreSum(sorted, c.alpha), Terms(0.0, 0.0, 0.0, []), 0.0)
  }

  lemma PenalisedMeaning(inp: Inputs, targets: seq<Position>, c: Candidate, b: Basis)
    requires inp.Valid() && Unambiguous(inp)
    requires b.neighbours == SectorNeighbours(targets, c) && Correlated(BookOf(inp), c.legs, targets, |c.legs|) == Some(b.top)
    ensures IsPenalised(inp, targets, c, b, Penalty(inp.settings, b.estimate, |b.neighbours|, b.top))
  {
    CorrelatedMeaning(BookOf(inp), c.legs, targets, |c.legs|);
    assert c.legs[..|c.legs|] == c.legs;
    TopMeaning(inp, targets, c, b.top);
    NeighbourMeaning(targets, c);
    PenaltyMeaning(inp.settings, b.estimate, |b.neighbours|, b.top);
  }

  lemma KnownMeaning(inp: Inputs, targets: seq<Position>, c: Candidate)
    requires Unambiguous(inp)
    ensures Correlated(BookOf(inp), c.legs, targets, |c.legs|).Some? <==> PairsGiven(inp, targets, c)
  {
    CorrelatedMeaning(BookOf(inp), c.legs, targets, |c.legs|);
    assert c.legs[..|c.legs|] == c.legs;
    PairsInBook(inp, targets, c);
  }

  lemma ServedOrShort(inp: Inputs, c: Candidate)
    requires inp.Valid() && Unambiguous(inp)
    ensures var r := LegCaps(inp, BookOf(inp), c.legs, |c.legs|);
            && (r.Ok? <==> forall i :: 0 <= i < |c.legs| ==> IsServed(inp, c.legs[i].entity))
            && (r.Ok? ==> |r.value| == |c.legs| && forall i :: 0 <= i < |c.legs| ==> IsShareCap(inp, c.legs[i].entity, r.value[i]))
            && (r.Err? ==> exists i :: IsShort(inp, c, i, r.error))
  {
    var r := LegCaps(inp, BookOf(inp), c.legs, |c.legs|);
    LegCapsMeaning(inp, BookOf(inp), c.legs, |c.legs|);
    assert c.legs[..|c.legs|] == c.legs;
    forall i | 0 <= i < |c.legs|
      ensures LegFault(inp, BookOf(inp), c.legs[i]).None? <==> IsServed(inp, c.legs[i].entity)
    {
      ServedMeaning(inp, c.legs[i]);
    }
    if r.Ok? {
      SharesMeaning(inp, c, r.value);
    } else {
      ShortMeaning(inp, c, r.error);
    }
  }

  /** The verdict on a candidate that nothing refused up to its correlations. */
  lemma PricedMeaning(
      inp: Inputs, sorted: seq<Candidate>, targets: seq<Position>, c: Candidate, drawn: Basis,
      v: Verdict) returns (b: Basis)
    requires inp.Valid() && Unambiguous(inp) && WellFormed(c) && c.alpha in inp.registry && 0.0 < drawn.estimate.loss <= 1.0
    requires v.penalty >= 1.0 && drawn.divisor == ScoreSum(sorted, c.alpha)
    requires var legCaps := LegCaps(inp, BookOf(inp), c.legs, |c.legs|);
             v == if legCaps.Err? then Verdict(0.0, v.multiplier, v.penalty, drawn.estimate.loss, legCaps.error)
                  else Allocator.Size(inp, targets, c, TermsOf(inp, sorted, c, drawn.health, drawn.estimate, v.penalty, legCaps.value), v.multiplier, v.penalty)
    ensures b == drawn.(terms := b.terms, amount := b.amount)
    ensures if forall i :: 0 <= i < |c.legs| ==> IsServed(inp, c.legs[i].entity) then IsSized(inp, sorted, targets, c, b, v)
            else v.amount == 0.0 && exists i :: IsShort(inp, c, i, v.reason)
  {
    b := drawn;
    ServedOrShort(inp, c);
    var legCaps := LegCaps(inp, BookOf(inp), c.legs, |c.legs|);
    if legCaps.Ok? {
      var terms := TermsOf(inp, sorted, c, drawn.health, drawn.estimate, v.penalty, legCaps.value);
      b := drawn.(terms := terms, amount := Amount(inp.settings.caps, targets, c, terms));
      TermsMeaning(inp, sorted, c, b, v.penalty);
      SizeMeaning(inp, sorted, targets, c, b, v);
    }
  }

  /** How the evaluation ends once nothing refused the candidate up to its correlations. */
  lemma OpenEvaluation(
      inp: Inputs, sorted: seq<Candidate>, targets: seq<Position>, c: Candidate, h: HealthView, e: Estimate, top: real,
      v: Verdict)
    requires inp.Valid() && WellFormed(c) && RoomRefusal(inp.settings.caps, targets, c).None?
    requires c.alpha in BookOf(inp).health && h == BookOf(inp).health[c.alpha]
    requires c.signal in BookOf(inp).estimates && e == BookOf(inp).estimates[c.signal] && Usable(inp, c, h, e)
    requires Correlated(BookOf(inp), c.legs, targets, |c.legs|) == Some(top) && v == Evaluate(inp, BookOf(inp), sorted, targets, c)
    ensures v.multiplier == h.multiplier && v.loss == e.loss
    ensures v.penalty == Penalty(inp.settings, e, |SectorNeighbours(targets, c)|, top) && v.penalty >= 1.0
    ensures var legCaps := LegCaps(inp, BookOf(inp), c.legs, |c.legs|);
            v == if legCaps.Err? then Verdict(0.0, v.multiplier, v.penalty, e.loss, legCaps.error)
                 else Allocator.Size(inp, targets, c, TermsOf(inp, sorted, c, h, e, v.penalty, legCaps.value), v.multiplier, v.penalty)
  {
    PenaltyAtLeastOne(inp.settings, e, |SectorNeighbours(targets, c)|, top);
  }

  lemma ClosedEvaluation(
      inp: Inputs, sorted: seq<Candidate>, targets: seq<Position>, c: Candidate, h: HealthView, e: Estimate, v: Verdict)
    requires inp.Valid() && WellFormed(c) && v == Evaluate(inp, BookOf(inp), sorted, targets, c)
    requires c.alpha in BookOf(inp).health && h == BookOf(inp).health[c.alpha]
    requires c.signal in BookOf(inp).estimates && e == BookOf(inp).estimates[c.signal] && Usable(inp, c, h, e)
    ensures var refusal := RoomRefusal(inp.settings.caps, targets, c);
            && (refusal.Some? ==> v == Verdict(0.0, h.multiplier, 1.0, e.loss, refusal.value))
            && (refusal.None? && Correlated(BookOf(inp), c.legs, targets, |c.legs|).None? ==>
                  v == Verdict(0.0, h.multiplier, 1.0, e.loss, CorrelationUnavailable))
  {
  }

  lemma OpenMeaning(
      inp: Inputs, sorted: seq<Candidate>, targets: seq<Position>, c: Candidate, h: HealthView, e: Estimate, top: real,
      v: Verdict)
      returns (b: Basis)
    requires inp.Valid() && Unambiguous(inp) && WellFormed(c) && IsInput(inp, c, h, e) && RoomRefusal(inp.settings.caps, targets, c).None?
    requires Correlated(BookOf(inp), c.legs, targets, |c.legs|) == Some(top) && v == Evaluate(inp, BookOf(inp), sorted, targets, c)
    ensures IsVerdict(inp, sorted, targets, c, b, v)
  {
    InputMeaning(inp, c, h, e);
    OpenEvaluation(inp, sorted, targets, c, h, e, top, v);
    b := PricedMeaning(inp, sorted, targets, c, Drawn(inp, sorted, targets, c, h, e, top), v);
    PenalisedMeaning(inp, targets, c, b);
    KnownMeaning(inp, targets, c);
    RoomMeaning(inp.settings.caps, targets, c);
  }

  lemma ClosedMeaning(
      inp: Inputs, sorted: seq<Candidate>, targets: seq<Position>, c: Candidate, h: HealthView, e: Estimate, b: Basis,
      v: Verdict)
    requires inp.Valid() && Unambiguous(inp) && WellFormed(c) && IsInput(inp, c, h, e) && b.health == h && b.estimate == e
    requires RoomRefusal(inp.settings.caps, targets, c).Some? || Correlated(BookOf(inp), c.legs, targets, |c.legs|).None?
    requires v == Evaluate(inp, BookOf(inp), sorted, targets, c)
    ensures IsVerdict(inp, sorted, targets, c, b, v)
  {
    InputMeaning(inp, c, h, e);
    ClosedEvaluation(inp, sorted, targets, c, h, e, v);
    KnownMeaning(inp, targets, c);
    RoomMeaning(inp.settings.caps, targets, c);
  }

  /** Every verdict, on any targets, with the figures it rests on. */
  lemma VerdictMeaning(inp: Inputs, sorted: seq<Candidate>, targets: seq<Position>, c: Candidate) returns (b: Basis)
    requires inp.Valid() && Unambiguous(inp) && WellFormed(c)
    ensures IsVerdict(inp, sorted, targets, c, b, Evaluate(inp, BookOf(inp), sorted, targets, c))
  {
    var book, v := BookOf(inp), Evaluate(inp, BookOf(inp), sorted, targets, c);
    if h, e :| IsInput(inp, c, h, e) {
      var correlation := Correlated(book, c.legs, targets, |c.legs|);
      if RoomRefusal(inp.settings.caps, targets, c).None? && correlation.Some? {
        b := OpenMeaning(inp, sorted, targets, c, h, e, correlation.value, v);
      } else {
        b := Drawn(inp, sorted, targets, c, h, e, 0.0);
        ClosedMeaning(inp, sorted, targets, c, h, e, b, v);
      }
    } else {
      b := Drawn(inp, sorted, targets, c, HealthView(c.alpha, 0, 0.0, 0.0, 0.0, 0, 0), Estimate(c.signal, 0, 0.0, 0.0), 0.0);
      if c.alpha in book.health && c.signal in book.estimates {
        InputMeaning(inp, c, book.health[c.alpha], book.estimates[c.signal]);
      }
    }
  }

  /** Strongest first, ties by signal. */
  ghost predicate IsByStrength(cs: seq<Candidate>, sorted: seq<Candidate>) {
    && multiset(sorted) == multiset(cs)
    && forall i, j :: 0 <= i < j < |sorted| ==>
         sorted[i].strength > sorted[j].strength || (sorted[i].strength == sorted[j].strength && sorted[i].signal <= sorted[j].signal)
  }

  lemma OrderMeaning(inp: Inputs)
    ensures IsByStrength(inp.candidates, Ordered(inp))
  {
    StrongerIsOrder();
    SortSorts(inp.candidates, Stronger);
    var sorted := Ordered(inp);
    forall i, j | 0 <= i < j < |sorted|
      ensures sorted[i].strength > sorted[j].strength || (sorted[i].strength == sorted[j].strength && sorted[i].signal <= sorted[j].signal)
    {
      assert Stronger(sorted[i], sorted[j]);
    }
  }

  lemma StrongerIsOrder()
    ensures TotalPreorder(Stronger)
  {
  }

  /** A record is of its candidate, with its verdict. */
  ghost predicate Reports(c: Candidate, v: Verdict, r: Record) {
    r == Record(c.signal, c.alpha, v.amount, v.multiplier, v.penalty, v.loss, v.reason)
  }

  ghost function RecordAt(inp: Inputs, sorted: seq<Candidate>, i: nat): Record
    requires inp.Valid() && AllWellFormed(sorted) && i < |sorted|
  {
    RecordOf(sorted[i], VerdictAt(inp, sorted, i))
  }

  lemma RecordStep(inp: Inputs, sorted: seq<Candidate>, i: nat)
    requires inp.Valid() && AllWellFormed(sorted) && i < |sorted|
    ensures Pass(inp, sorted, i + 1).1 == Pass(inp, sorted, i).1 + [RecordAt(inp, sorted, i)]
  {
    PassStep(inp, sorted, i, VerdictAt(inp, sorted, i));
  }

  /** The pass makes one record at a time. */
  lemma {:induction false} RecordsSoFar(inp: Inputs, sorted: seq<Candidate>, rs: seq<Record>, n: nat)
    requires inp.Valid() && AllWellFormed(sorted) && n <= |sorted|
    requires |rs| == |sorted| && forall i :: 0 <= i < |rs| ==> rs[i] == RecordAt(inp, sorted, i)
    ensures Pass(inp, sorted, n).1 == rs[..n]
  {
    if n > 0 {
      RecordsSoFar(inp, sorted, rs, n - 1);
      RecordStep(inp, sorted, n - 1);
      assert rs[..n] == rs[..n - 1] + [rs[n - 1]];
    }
  }

  /** The targets before a candidate are the positions and the bundles of the records before it. */
  lemma TargetsBefore(inp: Inputs, sorted: seq<Candidate>, k: nat, records: seq<Record>)
    requires inp.Valid() && AllWellFormed(sorted) && k < |sorted| && records == Pass(inp, sorted, |sorted|).1
    ensures |records| == |sorted| && records[k] == RecordAt(inp, sorted, k)
    ensures Pass(inp, sorted, k).0 == inp.positions + Additions(sorted[..k], records[..k])
  {
    var rs := seq(|sorted|, i requires 0 <= i < |sorted| => RecordAt(inp, sorted, i));
    RecordsSoFar(inp, sorted, rs, |sorted|);
    RecordsSoFar(inp, sorted, rs, k);
    assert records == rs;
    TargetsAreExistingPlusBundles(inp, sorted, k);
  }

  /**
   Every record of an allocation that proposes: the verdict on the candidate of its rank, strongest first, among the
   positions there were and the bundles of the records before it.
   */
  lemma RecordMeaning(inp: Inputs, k: nat) returns (b: Basis, v: Verdict)
    requires inp.Valid() && Allocation(inp).status == ProposalsOnly && k < |inp.candidates|
    ensures var d, sorted := Allocation(inp), Ordered(inp);
            && IsByStrength(inp.candidates, sorted) && |d.records| == |sorted| == |inp.candidates|
            && Reports(sorted[k], v, d.records[k])
            && IsVerdict(inp, sorted, inp.positions + Additions(sorted[..k], d.records[..k]), sorted[k], b, v)
  {
    var sorted, records := Ordered(inp), Allocation(inp).records;
    OrderMeaning(inp);
    StatusMeaning(inp);
    ProposalsArePass(inp);
    TargetsBefore(inp, sorted, k, records);
    v := VerdictAt(inp, sorted, k);
    b := VerdictMeaning(inp, sorted, inp.positions + Additions(sorted[..k], records[..k]), sorted[k]);
  }

  lemma Cancel(x: real, y: real, d: real)
    requires d > 0.0 && x * d == y * d
    ensures x == y
  {
    assert (x - y) * d == 0.0;
  }

  lemma Keeps(x: real, y: real, d: real)
    requires d > 0.0
    ensures x >= y ==> x * d >= y * d
  {
    if x >= y {
      assert (x - y) * d >= 0.0;
    }
  }

  /**
   One neighbour more adds the sector penalty on the volatility penalty; with none and no correlation there is
   nothing more.
   */
  lemma NeighboursRaise(s: Allocator.Settings, volatility: real, n: nat, top: real, x: real, y: real)
    requires s.Valid() && IsPenalty(s, volatility, n, top, x) && IsPenalty(s, volatility, n + 1, top, y)
    ensures y - x == volatility * s.sectorPenalty
    ensures n == 0 && top <= s.correlationThreshold ==> x == volatility
  {
    var d := 1.0 - s.correlationThreshold;
    var base, next := volatility * (1.0 + s.sectorPenalty * n as real), volatility * (1.0 + s.sectorPenalty * (n + 1) as real);
    assert next - base == volatility * s.sectorPenalty;
    if top > s.correlationThreshold {
      var excess := volatility * (s.correlationPenalty * (top - s.correlationThreshold));
      assert (x - base) * d == excess && (y - next) * d == excess;
      Cancel(x - base, y - next, d);
    }
  }

  lemma ExcessRises(v: real, c: real, threshold: real, low: real, high: real, x: real, y: real)
    requires v > 0.0 && c >= 0.0 && threshold < 1.0 && low < high
    requires x * (1.0 - threshold) == v * (c * (low - threshold)) && y * (1.0 - threshold) == v * (c * (high - threshold))
    ensures c > 0.0 ==> x < y
    ensures low == threshold && high == 1.0 ==> y - x == v * c
  {
    var d := 1.0 - threshold;
    if c > 0.0 {
      Rises(v, c * (low - threshold), c * (high - threshold), x * d, y * d);
      Keeps(x, y, d);
    }
    if low == threshold && high == 1.0 {
      assert y * d == (v * c) * d;
      Cancel(y, v * c, d);
      Cancel(x, 0.0, d);
    }
  }

  lemma Rises(v: real, p: real, q: real, x: real, y: real)
    requires v > 0.0 && p < q && x == v * p && y == v * q
    ensures x < y
  {
    assert v * (q - p) > 0.0;
  }

  /**
   Above the threshold the penalty rises strictly with the correlation, by the whole correlation penalty at
   correlation one.
   */
  lemma CorrelationRaises(s: Allocator.Settings, volatility: real, n: nat, low: real, high: real, x: real, y: real)
    requires s.Valid() && IsPenalty(s, volatility, n, low, x) && IsPenalty(s, volatility, n, high, y)
    requires volatility > 0.0 && s.correlationThreshold <= low < high
    ensures s.correlationPenalty > 0.0 ==> x < y
    ensures low == s.correlationThreshold && high == 1.0 ==> y - x == volatility * s.correlationPenalty
  {
    var base := volatility * (1.0 + s.sectorPenalty * n as real);
    ExcessRises(volatility, s.correlationPenalty, s.correlationThreshold, low, high, x - base, y - base);
  }
}
