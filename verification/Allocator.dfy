/**
 The allocator: gates on the inputs, then one greedy pass over the candidates that sizes each bundle
 against every cap and extends the targets. Its output is a proposal.
 */
module Allocator {
  import opened Prelude
  import opened Sorting
  import opened Rules
  import opened Candidates
  import opened Portfolio
  import opened Clip

  datatype Registration = Registration(baseBudget: real, enabled: bool)

  /** `provenance` stands for the code, configuration and data identity. */
  datatype HealthView = HealthView(
    alpha: AlphaFamily, timestamp: Instant, multiplier: real, minimum: real, maximum: real, maxAge: nat, provenance: Id)

  datatype Estimate = Estimate(signal: Id, timestamp: Instant, loss: real, volatilityPenalty: real)

  datatype Capacity = Capacity(
    entity: Id, timestamp: Instant, validUntil: Instant, price: real, advShares: real, turnover: real,
    maxNotional: real, eligible: bool)

  datatype Correlation = Correlation(left: Id, right: Id, value: real)

  datatype Settings = Settings(
    caps: Caps,
    maxAdvParticipation: real,
    maxTurnoverParticipation: real,
    maxInputAge: nat,
    correlationThreshold: real,
    correlationPenalty: real,
    sectorPenalty: real)
  {
    predicate Valid() {
      && caps.Valid() && maxAdvParticipation > 0.0 && maxTurnoverParticipation > 0.0
      && 0.0 <= correlationThreshold < 1.0 && correlationPenalty >= 0.0 && sectorPenalty >= 0.0
    }
  }

  /** The routing decision and its health evidence, as far as the allocator reads them. */
  datatype Regime = Regime(
    timestamp: Instant, state: MarketState, multiplier: real, families: seq<AlphaFamily>,
    systemHealthy: bool, riskHealthy: bool, blocksNewEntries: bool, observedAt: Instant, healthMaxAge: nat, provenance: Id)

  datatype Inputs = Inputs(
    at: Instant,
    live: bool,
    entryWindow: Option<(Instant, Instant)>,
    registry: map<AlphaFamily, Registration>,
    registryHash: Id,
    health: seq<HealthView>,
    positions: seq<Position>,
    equity: real,
    portfolioTime: Instant,
    portfolioComplete: bool,
    portfolioBlocks: bool,
    capacities: seq<Capacity>,
    estimates: seq<Estimate>,
    correlations: seq<Correlation>,
    correlationTime: Instant,
    trainingEnd: Instant,
    candidates: seq<Candidate>,
    ensembleTime: Instant,
    regime: Regime,
    settings: Settings)
  {
    /** What the input models themselves enforce. */
    ghost predicate Valid() {
      && settings.Valid() && equity > 0.0
      && (forall a :: a in registry && 0.0 <= registry[a].baseBudget <= 1.0)
      && TotalBudget(registry) <= 1.0
      && (forall h :: h in health ==> 0.0 <= h.multiplier <= 1.0)
      && (forall e :: e in estimates ==> 0.0 < e.loss <= 1.0 && e.volatilityPenalty >= 1.0)
      && (forall c :: c in candidates ==> WellFormed(c))
      && 0.0 <= regime.multiplier <= 1.0
    }
  }

  function BudgetOf(registry: map<AlphaFamily, Registration>, a: AlphaFamily): real {
    if a in registry then registry[a].baseBudget else 0.0
  }

  function TotalBudget(registry: map<AlphaFamily, Registration>): real {
    BudgetOf(registry, CrossSectionalMomentum) + BudgetOf(registry, MomentumBreakout) + BudgetOf(registry, PairsStatArb) +
    BudgetOf(registry, VwapMeanReversion) + BudgetOf(registry, SectorRelativeValue)
  }

  datatype Reason =
    | CandidateInputUnavailable
    | SymbolOverlap
    | PositionGroupCap
    | SectorGroupCap
    | CorrelationUnavailable
    | LiquidityUnavailable
    | NoCapacity
    | ProposedRequiresRisk

  datatype Record = Record(signal: Id, alpha: AlphaFamily, amount: real, multiplier: real, penalty: real, loss: real, reason: Reason)

  datatype Status =
    | CalendarBlocked
    | NewAllocationBlocked
    | ExistingExposureReview
    | InputAmbiguous
    | DuplicateCandidate
    | ProposalsOnly

  datatype Decision = Decision(targets: seq<Position>, records: seq<Record>, status: Status)

  /** A dictionary built from a list; a repeated key keeps its last entry. */
  function Index<K(==), V>(items: seq<V>, key: V -> K): (m: map<K, V>)
    ensures forall k :: k in m ==> m[k] in items && key(m[k]) == k
  {
    if items == [] then map[] else Index(items[..|items| - 1], key)[key(items[|items| - 1]) := items[|items| - 1]]
  }

  function HealthKey(h: HealthView): AlphaFamily { h.alpha }
  function CapacityKey(c: Capacity): Id { c.entity }
  function EstimateKey(e: Estimate): Id { e.signal }
  function CorrelationKey(x: Correlation): set<Id> { {x.left, x.right} }

  /** The lookups of one call. */
  datatype Book = Book(
    health: map<AlphaFamily, HealthView>,
    capacities: map<Id, Capacity>,
    estimates: map<Id, Estimate>,
    correlations: map<set<Id>, Correlation>)

  function BookOf(inp: Inputs): Book {
    Book(Index(inp.health, HealthKey), Index(inp.capacities, CapacityKey), Index(inp.estimates, EstimateKey),
         Index(inp.correlations, CorrelationKey))
  }

  predicate Fresh(at: Instant, timestamp: Instant, maxAge: nat) {
    0 <= at - timestamp <= maxAge * SECOND
  }

  /** The gates before the pass, in order; `None` lets it start. */
  function Gate(inp: Inputs): Option<Status> {
    var r := inp.regime;
    var book := BookOf(inp);
    if inp.entryWindow.None? || !(inp.entryWindow.value.0 <= inp.at < inp.entryWindow.value.1) then Some(CalendarBlocked)
    else if inp.live || !inp.portfolioComplete || inp.portfolioBlocks || !Fresh(inp.at, inp.portfolioTime, inp.settings.maxInputAge)
            || inp.ensembleTime != inp.at || r.timestamp != inp.at || r.state.RiskOff? || r.state.OpenShock? || r.multiplier <= 0.0
            || r.blocksNewEntries || !r.systemHealthy || !r.riskHealthy || !Fresh(inp.at, r.observedAt, r.healthMaxAge) then
      Some(NewAllocationBlocked)
    else if !WithinCaps(inp.positions, inp.settings.caps) then Some(ExistingExposureReview)
    else if |book.health| != |inp.health| || |book.capacities| != |inp.capacities| || |book.estimates| != |inp.estimates|
            || |book.correlations| != |inp.correlations| || inp.trainingEnd >= inp.at || inp.trainingEnd > inp.correlationTime
            || !Fresh(inp.at, inp.correlationTime, inp.settings.maxInputAge) then
      Some(InputAmbiguous)
    else if exists i, j :: 0 <= i < j < |inp.candidates| && inp.candidates[i].signal == inp.candidates[j].signal then
      Some(DuplicateCandidate)
    else None
  }

  function StrengthSum(cs: seq<Candidate>, a: AlphaFamily): real {
    if cs == [] then 0.0
    else StrengthSum(cs[..|cs| - 1], a) + (if cs[|cs| - 1].alpha == a then cs[|cs| - 1].strength else 0.0)
  }

  /** The divisor that keeps an alpha's shares from summing to more than one. */
  function ScoreSum(cs: seq<Candidate>, a: AlphaFamily): (r: real)
    ensures r >= 1.0 && r >= StrengthSum(cs, a)
  {
    MaxReal(1.0, StrengthSum(cs, a))
  }

  function AlphaBudget(inp: Inputs, multiplier: real, a: AlphaFamily): real {
    Times(Times(BudgetOf(inp.registry, a), inp.regime.multiplier), multiplier)
  }

  predicate Usable(inp: Inputs, c: Candidate, h: HealthView, e: Estimate) {
    && c.alpha in inp.registry && inp.registry[c.alpha].enabled
    && c.registry == inp.registryHash
    && c.timestamp == inp.at
    && c.alpha in inp.regime.families
    && Fresh(inp.at, h.timestamp, h.maxAge)
    && h.provenance == inp.regime.provenance
    && h.minimum <= h.multiplier <= h.maximum
    && Fresh(inp.at, e.timestamp, inp.settings.maxInputAge)
  }

  predicate Occupied(targets: seq<Position>, c: Candidate) {
    exists p, i :: p in targets && 0 <= i < |c.legs| && p.entity == c.legs[i].entity
  }

  predicate SectorsFull(caps: Caps, targets: seq<Position>, c: Candidate) {
    exists i :: 0 <= i < |c.legs| && |SectorGroups(targets, c.legs[i].sector)| >= caps.maxSectorGroups
  }

  /** The largest known correlation of one leg with the first `n` targets; `None` when one is missing. */
  function LegCorrelation(book: Book, x: Leg, targets: seq<Position>, n: nat, start: real): Option<real>
    requires n <= |targets|
  {
    if n == 0 then Some(start)
    else
      var before := LegCorrelation(book, x, targets, n - 1, start);
      var key := {x.entity, targets[n - 1].entity};
      if before.None? || key !in book.correlations then None
      else Some(MaxReal(before.value, Abs(book.correlations[key].value)))
  }

  /** ... of the first `n` legs with all targets. */
  function Correlated(book: Book, legs: seq<Leg>, targets: seq<Position>, n: nat): Option<real>
    requires n <= |legs|
  {
    if n == 0 then Some(0.0)
    else
      var before := Correlated(book, legs, targets, n - 1);
      if before.None? then None else LegCorrelation(book, legs[n - 1], targets, |targets|, before.value)
  }

  function SectorNeighbours(targets: seq<Position>, c: Candidate): set<Id> {
    set p, i | p in targets && 0 <= i < |c.legs| && p.sector == c.legs[i].sector :: p.group
  }

  function Penalty(s: Settings, e: Estimate, neighbours: nat, correlation: real): real
    requires s.correlationThreshold < 1.0
  {
    Times(e.volatilityPenalty,
          1.0 + Times(s.sectorPenalty, neighbours as real)
          + Times(s.correlationPenalty, MaxReal(0.0, correlation - s.correlationThreshold)) / (1.0 - s.correlationThreshold))
  }

  predicate Liquid(inp: Inputs, q: Capacity) {
    q.eligible && q.timestamp <= inp.at <= q.validUntil && inp.at - q.timestamp <= inp.settings.maxInputAge * SECOND
  }

  function LegCap(inp: Inputs, q: Capacity): real
    requires inp.equity != 0.0
  {
    MinReal(inp.settings.caps.maxSymbol,
    MinReal(q.maxNotional / inp.equity,
    MinReal(q.advShares * q.price * inp.settings.maxAdvParticipation / inp.equity,
            q.turnover * inp.settings.maxTurnoverParticipation / inp.equity)))
  }

  /** Caps for the first `n` legs; the first leg without usable capacity ends the scan. */
  function LegCaps(inp: Inputs, book: Book, legs: seq<Leg>, n: nat): (r: Result<seq<real>, Reason>)
    requires n <= |legs| && inp.equity != 0.0
    ensures r.Ok? ==> |r.value| == n && forall i :: 0 <= i < n ==> r.value[i] <= inp.settings.caps.maxSymbol
    ensures r.Err? ==> r.error.CandidateInputUnavailable? || r.error.LiquidityUnavailable?
  {
    if n == 0 then Ok([])
    else
      var before := LegCaps(inp, book, legs, n - 1);
      var e := legs[n - 1].entity;
      if before.Err? then before
      else if e !in book.capacities then Err(CandidateInputUnavailable)
      else if !Liquid(inp, book.capacities[e]) then Err(LiquidityUnavailable)
      else Ok(before.value + [LegCap(inp, book.capacities[e])])
  }

  /** What is known of a candidate when its evaluation ends. */
  datatype Verdict = Verdict(amount: real, multiplier: real, penalty: real, loss: real, reason: Reason)

  /** The guards on the portfolio, in order. */
  function RoomRefusal(caps: Caps, targets: seq<Position>, c: Candidate): Option<Reason> {
    if Occupied(targets, c) then Some(SymbolOverlap)
    else if |Groups(targets)| >= caps.maxGroups then Some(PositionGroupCap)
    else if SectorsFull(caps, targets, c) then Some(SectorGroupCap)
    else None
  }

  function TermsOf(
      inp: Inputs, sorted: seq<Candidate>, c: Candidate, h: HealthView, e: Estimate, penalty: real,
      legCaps: seq<real>): Terms
    requires penalty != 0.0
  {
    var budget := AlphaBudget(inp, h.multiplier, c.alpha);
    Terms(Times(budget, c.strength) / ScoreSum(sorted, c.alpha) / penalty, budget, e.loss, legCaps)
  }

  lemma PenaltyAtLeastOne(s: Settings, e: Estimate, neighbours: nat, correlation: real)
    requires s.Valid() && e.volatilityPenalty >= 1.0
    ensures Penalty(s, e, neighbours, correlation) >= 1.0
  {
    var excess := MaxReal(0.0, correlation - s.correlationThreshold);
    Nonnegative(s.sectorPenalty, neighbours as real);
    Nonnegative(s.correlationPenalty, excess);
    QuotientNonnegative(Times(s.correlationPenalty, excess), 1.0 - s.correlationThreshold);
    var factor := 1.0 + Times(s.sectorPenalty, neighbours as real) + Times(s.correlationPenalty, excess) / (1.0 - s.correlationThreshold);
    ProductAtLeastOne(e.volatilityPenalty, factor);
  }

  lemma QuotientNonnegative(x: real, y: real)
    requires x >= 0.0 && y > 0.0
    ensures x / y >= 0.0
  {
  }

  lemma ProductAtLeastOne(x: real, y: real)
    requires x >= 1.0 && y >= 1.0
    ensures Times(x, y) >= 1.0
  {
    assert (x - 1.0) * y >= 0.0;
  }

  /** Sizing and recheck of a candidate that passed every lookup. */
  function Size(inp: Inputs, targets: seq<Position>, c: Candidate, t: Terms, multiplier: real, penalty: real): Verdict
    requires ValidTerms(c, t, inp.settings.caps) && WellFormed(c)
  {
    var amount := Amount(inp.settings.caps, targets, c, t);
    if amount > 0.0 && WithinCaps(targets + Bundle(c, amount, t.loss), inp.settings.caps) then
      Verdict(amount, multiplier, penalty, t.loss, ProposedRequiresRisk)
    else Verdict(0.0, multiplier, penalty, t.loss, NoCapacity)
  }

  /** The evaluation of one candidate against the targets so far. */
  function Evaluate(inp: Inputs, book: Book, sorted: seq<Candidate>, targets: seq<Position>, c: Candidate): Verdict
    requires inp.Valid() && book == BookOf(inp) && WellFormed(c)
  {
    if c.alpha !in book.health || c.signal !in book.estimates then Verdict(0.0, 0.0, 1.0, 0.0, CandidateInputUnavailable)
    else
      var h, e := book.health[c.alpha], book.estimates[c.signal];
      if !Usable(inp, c, h, e) then Verdict(0.0, 0.0, 1.0, 0.0, CandidateInputUnavailable)
      else
        var refusal := RoomRefusal(inp.settings.caps, targets, c);
        var correlation := Correlated(book, c.legs, targets, |c.legs|);
        if refusal.Some? then Verdict(0.0, h.multiplier, 1.0, e.loss, refusal.value)
        else if correlation.None? then Verdict(0.0, h.multiplier, 1.0, e.loss, CorrelationUnavailable)
        else
          PenaltyAtLeastOne(inp.settings, e, |SectorNeighbours(targets, c)|, correlation.value);
          var penalty := Penalty(inp.settings, e, |SectorNeighbours(targets, c)|, correlation.value);
          var legCaps := LegCaps(inp, book, c.legs, |c.legs|);
          if legCaps.Err? then Verdict(0.0, h.multiplier, penalty, e.loss, legCaps.error)
          else Size(inp, targets, c, TermsOf(inp, sorted, c, h, e, penalty, legCaps.value), h.multiplier, penalty)
  }

  function RecordOf(c: Candidate, v: Verdict): Record {
    Record(c.signal, c.alpha, v.amount, v.multiplier, v.penalty, v.loss, v.reason)
  }

  /** The pass so far, extended by the verdict on one more candidate. */
  function Extend(soFar: (seq<Position>, seq<Record>), c: Candidate, v: Verdict): (seq<Position>, seq<Record>) {
    (if v.reason.ProposedRequiresRisk? then soFar.0 + Bundle(c, v.amount, v.loss) else soFar.0, soFar.1 + [RecordOf(c, v)])
  }

  /** Targets and records after the first `n` candidates. */
  function Pass(inp: Inputs, sorted: seq<Candidate>, n: nat): (seq<Position>, seq<Record>)
    requires inp.Valid() && n <= |sorted| && forall c :: c in sorted ==> WellFormed(c)
  {
    if n == 0 then (inp.positions, [])
    else
      var before := Pass(inp, sorted, n - 1);
      Extend(before, sorted[n - 1], Evaluate(inp, BookOf(inp), sorted, before.0, sorted[n - 1]))
  }

  function Ordered(inp: Inputs): seq<Candidate> {
    Sort(inp.candidates, Stronger)
  }

  /** The whole decision. */
  function Allocation(inp: Inputs): Decision
    requires inp.Valid()
  {
    SortMembers(inp.candidates, Stronger);
    var gate := Gate(inp);
    if gate.Some? then Decision(inp.positions, [], gate.value)
    else
      var result := Pass(inp, Ordered(inp), |inp.candidates|);
      Decision(result.0, result.1, ProposalsOnly)
  }

  predicate PairKnown(book: Book, x: Leg, p: Position) {
    {x.entity, p.entity} in book.correlations
  }

  function PairCorrelation(book: Book, x: Leg, p: Position): real
    requires PairKnown(book, x, p)
  {
    Abs(book.correlations[{x.entity, p.entity}].value)
  }

  ghost predicate AllPairsKnown(book: Book, legs: seq<Leg>, targets: seq<Position>) {
    forall i, j :: 0 <= i < |legs| && 0 <= j < |targets| ==> PairKnown(book, legs[i], targets[j])
  }

  /** `r` bounds every correlation of a leg with a target, and is zero or one of them. */
  ghost predicate IsLargestCorrelation(book: Book, legs: seq<Leg>, targets: seq<Position>, r: real)
    requires AllPairsKnown(book, legs, targets)
  {
    && r >= 0.0
    && (forall i, j :: 0 <= i < |legs| && 0 <= j < |targets| ==> PairCorrelation(book, legs[i], targets[j]) <= r)
    && (r == 0.0 || exists i, j :: 0 <= i < |legs| && 0 <= j < |targets| && PairCorrelation(book, legs[i], targets[j]) == r)
  }

  lemma {:induction false} LegCorrelationMeaning(book: Book, x: Leg, targets: seq<Position>, n: nat, start: real)
    requires n <= |targets|
    ensures var r := LegCorrelation(book, x, targets, n, start);
            && (r.Some? <==> forall j :: 0 <= j < n ==> PairKnown(book, x, targets[j]))
            && (r.Some? ==>
                  && r.value >= start
                  && (forall j :: 0 <= j < n ==> PairCorrelation(book, x, targets[j]) <= r.value)
                  && (r.value == start || exists j :: 0 <= j < n && PairCorrelation(book, x, targets[j]) == r.value))
  {
    if n > 0 {
      LegCorrelationMeaning(book, x, targets, n - 1, start);
      assert PairKnown(book, x, targets[n - 1]) <==> {x.entity, targets[n - 1].entity} in book.correlations;
    }
  }

  /** The scan fails exactly on an unknown pair, and otherwise finds the largest correlation. */
  lemma {:induction false} CorrelatedMeaning(book: Book, legs: seq<Leg>, targets: seq<Position>, n: nat)
    requires n <= |legs|
    ensures var r := Correlated(book, legs, targets, n);
            && (r.Some? <==> AllPairsKnown(book, legs[..n], targets))
            && (r.Some? ==> IsLargestCorrelation(book, legs[..n], targets, r.value))
  {
    if n > 0 {
      CorrelatedMeaning(book, legs, targets, n - 1);
      var before := Correlated(book, legs, targets, n - 1);
      var x := legs[n - 1];
      assert legs[..n] == legs[..n - 1] + [x];
      if before.Some? {
        LegCorrelationMeaning(book, x, targets, |targets|, before.value);
        LargestNext(book, legs[..n - 1], x, targets, before.value, LegCorrelation(book, x, targets, |targets|, before.value));
      }
    }
  }

  lemma LargestNext(book: Book, legs: seq<Leg>, x: Leg, targets: seq<Position>, before: real, r: Option<real>)
    requires AllPairsKnown(book, legs, targets) && IsLargestCorrelation(book, legs, targets, before)
    requires r.Some? <==> forall j :: 0 <= j < |targets| ==> PairKnown(book, x, targets[j])
    requires r.Some? ==>
               && r.value >= before
               && (forall j :: 0 <= j < |targets| ==> PairCorrelation(book, x, targets[j]) <= r.value)
               && (r.value == before || exists j :: 0 <= j < |targets| && PairCorrelation(book, x, targets[j]) == r.value)
    ensures r.Some? <==> AllPairsKnown(book, legs + [x], targets)
    ensures r.Some? ==> IsLargestCorrelation(book, legs + [x], targets, r.value)
  {
    var all := legs + [x];
    assert all[|legs|] == x && forall i :: 0 <= i < |legs| ==> all[i] == legs[i];
    if r.Some? {
      forall i, j | 0 <= i < |all| && 0 <= j < |targets|
        ensures PairKnown(book, all[i], targets[j]) && PairCorrelation(book, all[i], targets[j]) <= r.value
      {
        if i < |legs| {
          assert PairKnown(book, legs[i], targets[j]);
        }
      }
      if r.value != before {
        var j :| 0 <= j < |targets| && PairCorrelation(book, x, targets[j]) == r.value;
        assert PairCorrelation(book, all[|legs|], targets[j]) == r.value;
      } else if before != 0.0 {
        var i, j :| 0 <= i < |legs| && 0 <= j < |targets| && PairCorrelation(book, legs[i], targets[j]) == before;
        assert PairCorrelation(book, all[i], targets[j]) == r.value;
      }
    }
  }

  /** The largest correlation of the bundle with the portfolio; `None` exactly when a pair is unknown. */
  method ScanCorrelations(book: Book, legs: seq<Leg>, targets: seq<Position>) returns (r: Option<real>)
    ensures r == Correlated(book, legs, targets, |legs|)
    ensures r.Some? <==> AllPairsKnown(book, legs, targets)
    ensures r.Some? ==> IsLargestCorrelation(book, legs, targets, r.value)
  {
    CorrelatedMeaning(book, legs, targets, |legs|);
    assert legs[..|legs|] == legs;
    var corr := 0.0;
    for m := 0 to |legs|
      invariant Correlated(book, legs, targets, m) == Some(corr)
    {
      ghost var start := corr;
      for n := 0 to |targets|
        invariant LegCorrelation(book, legs[m], targets, n, start) == Some(corr)
      {
        var key := {legs[m].entity, targets[n].entity};
        if key !in book.correlations {
          MissingLeg(book, legs[m], targets, n + 1, start);
          MissingPair(book, legs, targets, m + 1);
          return None;
        }
        corr := MaxReal(corr, Abs(book.correlations[key].value));
      }
    }
    return Some(corr);
  }

  lemma {:induction false} MissingLeg(book: Book, x: Leg, targets: seq<Position>, n: nat, start: real)
    requires n <= |targets| && LegCorrelation(book, x, targets, n, start).None?
    ensures LegCorrelation(book, x, targets, |targets|, start).None?
    decreases |targets| - n
  {
    if n < |targets| {
      MissingLeg(book, x, targets, n + 1, start);
    }
  }

  lemma {:induction false} MissingPair(book: Book, legs: seq<Leg>, targets: seq<Position>, m: nat)
    requires m <= |legs| && Correlated(book, legs, targets, m).None?
    ensures Correlated(book, legs, targets, |legs|).None?
    decreases |legs| - m
  {
    if m < |legs| {
      MissingPair(book, legs, targets, m + 1);
    }
  }

  /** The clip: the running minimum of the limits, leg by leg, rounded down. It gives away no whole tick. */
  method ClipAmount(caps: Caps, targets: seq<Position>, c: Candidate, t: Terms) returns (amount: real)
    requires ValidTerms(c, t, caps) && NonzeroWeights(c.legs)
    ensures amount == Amount(caps, targets, c, t)
    ensures IsTight(caps, targets, c, t, amount)
  {
    AmountIsTight(caps, targets, c, t);
    var least := WithNetLimit(caps, targets, c, PortfolioLimit(caps, targets, c, t));
    for n := 0 to |c.legs|
      invariant least == Limit(caps, targets, c, t, n)
    {
      SectorWeightPositive(c.legs, c.alpha, n);
      least := MinReal(least, MinReal(SectorLimit(caps, targets, c, c.legs[n].sector), t.legCaps[n] / Abs(c.legs[n].weight)));
    }
    amount := Quantize(MaxReal(0.0, least));
  }

  /** Why a leg has no usable capacity, if it has none. */
  function LegFault(inp: Inputs, book: Book, x: Leg): Option<Reason> {
    if x.entity !in book.capacities then Some(CandidateInputUnavailable)
    else if !Liquid(inp, book.capacities[x.entity]) then Some(LiquidityUnavailable)
    else None
  }

  /** `reason` is the fault of the first faulty leg. */
  ghost predicate IsFirstFault(inp: Inputs, book: Book, legs: seq<Leg>, reason: Reason) {
    exists i :: 0 <= i < |legs| && LegFault(inp, book, legs[i]) == Some(reason) && NoFaults(inp, book, legs[..i])
  }

  ghost predicate NoFaults(inp: Inputs, book: Book, legs: seq<Leg>) {
    forall i :: 0 <= i < |legs| ==> LegFault(inp, book, legs[i]).None?
  }

  /** Each leg's cap is the least of the symbol cap and what its capacity allows. */
  ghost predicate CapsOfLegs(inp: Inputs, book: Book, legs: seq<Leg>, caps: seq<real>)
    requires inp.equity != 0.0 && NoFaults(inp, book, legs)
  {
    |caps| == |legs| && forall i :: 0 <= i < |legs| ==> legs[i].entity in book.capacities && IsLeastCap(inp, book.capacities[legs[i].entity], caps[i])
  }

  ghost predicate IsLeastCap(inp: Inputs, q: Capacity, x: real)
    requires inp.equity != 0.0
  {
    var a, b, d := q.maxNotional / inp.equity, q.advShares * q.price * inp.settings.maxAdvParticipation / inp.equity,
                   q.turnover * inp.settings.maxTurnoverParticipation / inp.equity;
    && x <= inp.settings.caps.maxSymbol && x <= a && x <= b && x <= d
    && (x == inp.settings.caps.maxSymbol || x == a || x == b || x == d)
  }

  lemma LegCapIsLeast(inp: Inputs, q: Capacity)
    requires inp.equity != 0.0
    ensures IsLeastCap(inp, q, LegCap(inp, q))
  {
  }

  /** The scan succeeds exactly when no leg is faulty, and otherwise names the first fault. */
  lemma {:induction false} LegCapsMeaning(inp: Inputs, book: Book, legs: seq<Leg>, n: nat)
    requires inp.equity != 0.0 && n <= |legs|
    ensures var r := LegCaps(inp, book, legs, n);
            && (r.Ok? <==> NoFaults(inp, book, legs[..n]))
            && (r.Ok? ==> CapsOfLegs(inp, book, legs[..n], r.value))
            && (r.Err? ==> IsFirstFault(inp, book, legs[..n], r.error))
  {
    if n > 0 {
      LegCapsMeaning(inp, book, legs, n - 1);
      var before, x := LegCaps(inp, book, legs, n - 1), legs[n - 1];
      assert legs[..n] == legs[..n - 1] + [x];
      if before.Err? {
        LaterLegsDoNotMatter(inp, book, legs[..n - 1], x, before.error);
      } else if LegFault(inp, book, x).Some? {
        FaultFound(inp, book, legs[..n - 1], x);
      } else {
        CapAdded(inp, book, legs[..n - 1], x, before.value);
      }
    }
  }

  lemma LaterLegsDoNotMatter(inp: Inputs, book: Book, legs: seq<Leg>, x: Leg, reason: Reason)
    requires IsFirstFault(inp, book, legs, reason)
    ensures IsFirstFault(inp, book, legs + [x], reason) && !NoFaults(inp, book, legs + [x])
  {
    var all := legs + [x];
    var i :| 0 <= i < |legs| && LegFault(inp, book, legs[i]) == Some(reason) && NoFaults(inp, book, legs[..i]);
    assert all[i] == legs[i] && all[..i] == legs[..i];
  }

  lemma FaultFound(inp: Inputs, book: Book, legs: seq<Leg>, x: Leg)
    requires NoFaults(inp, book, legs) && LegFault(inp, book, x).Some?
    ensures IsFirstFault(inp, book, legs + [x], LegFault(inp, book, x).value) && !NoFaults(inp, book, legs + [x])
  {
    var all := legs + [x];
    assert all[|legs|] == x && all[..|legs|] == legs;
  }

  lemma CapAdded(inp: Inputs, book: Book, legs: seq<Leg>, x: Leg, caps: seq<real>)
    requires inp.equity != 0.0 && NoFaults(inp, book, legs) && CapsOfLegs(inp, book, legs, caps)
    requires LegFault(inp, book, x).None?
    ensures NoFaults(inp, book, legs + [x])
    ensures CapsOfLegs(inp, book, legs + [x], caps + [LegCap(inp, book.capacities[x.entity])])
  {
    LegCapIsLeast(inp, book.capacities[x.entity]);
  }

  /** The cap of every leg, or the fault of the first leg that has no usable capacity. */
  method ScanLegCaps(inp: Inputs, book: Book, legs: seq<Leg>) returns (r: Result<seq<real>, Reason>)
    requires inp.equity != 0.0
    ensures r == LegCaps(inp, book, legs, |legs|)
    ensures r.Ok? <==> NoFaults(inp, book, legs)
    ensures r.Ok? ==> CapsOfLegs(inp, book, legs, r.value)
    ensures r.Err? ==> IsFirstFault(inp, book, legs, r.error)
  {
    LegCapsMeaning(inp, book, legs, |legs|);
    assert legs[..|legs|] == legs;
    var caps: seq<real> := [];
    for n := 0 to |legs|
      invariant LegCaps(inp, book, legs, n) == Ok(caps)
    {
      var e := legs[n].entity;
      if e !in book.capacities {
        RefusedLeg(inp, book, legs, n + 1);
        return Err(CandidateInputUnavailable);
      }
      if !Liquid(inp, book.capacities[e]) {
        RefusedLeg(inp, book, legs, n + 1);
        return Err(LiquidityUnavailable);
      }
      caps := caps + [LegCap(inp, book.capacities[e])];
    }
    return Ok(caps);
  }

  lemma {:induction false} RefusedLeg(inp: Inputs, book: Book, legs: seq<Leg>, n: nat)
    requires inp.equity != 0.0 && n <= |legs| && LegCaps(inp, book, legs, n).Err?
    ensures LegCaps(inp, book, legs, |legs|) == LegCaps(inp, book, legs, n)
    decreases |legs| - n
  {
    if n < |legs| {
      RefusedLeg(inp, book, legs, n + 1);
    }
  }

  /** One candidate, with the additions it earns. */
  method EvaluateCandidate(inp: Inputs, book: Book, sorted: seq<Candidate>, targets: seq<Position>, c: Candidate)
      returns (v: Verdict, additions: seq<Position>)
    requires inp.Valid() && book == BookOf(inp) && WellFormed(c)
    ensures v == Evaluate(inp, book, sorted, targets, c)
    ensures additions == if v.reason.ProposedRequiresRisk? then Bundle(c, v.amount, v.loss) else []
  {
    additions := [];
    if c.alpha !in book.health || c.signal !in book.estimates {
      return Verdict(0.0, 0.0, 1.0, 0.0, CandidateInputUnavailable), [];
    }
    var h, e := book.health[c.alpha], book.estimates[c.signal];
    if !Usable(inp, c, h, e) {
      return Verdict(0.0, 0.0, 1.0, 0.0, CandidateInputUnavailable), [];
    }
    var refusal := RoomRefusal(inp.settings.caps, targets, c);
    if refusal.Some? {
      return Verdict(0.0, h.multiplier, 1.0, e.loss, refusal.value), [];
    }
    var correlation := ScanCorrelations(book, c.legs, targets);
    if correlation.None? {
      return Verdict(0.0, h.multiplier, 1.0, e.loss, CorrelationUnavailable), [];
    }
    PenaltyAtLeastOne(inp.settings, e, |SectorNeighbours(targets, c)|, correlation.value);
    var penalty := Penalty(inp.settings, e, |SectorNeighbours(targets, c)|, correlation.value);
    var legCaps := ScanLegCaps(inp, book, c.legs);
    if legCaps.Err? {
      return Verdict(0.0, h.multiplier, penalty, e.loss, legCaps.error), [];
    }
    var t := TermsOf(inp, sorted, c, h, e, penalty, legCaps.value);
    var amount := ClipAmount(inp.settings.caps, targets, c, t);
    var bundle := Bundle(c, amount, e.loss);
    if amount > 0.0 && WithinCaps(targets + bundle, inp.settings.caps) {
      return Verdict(amount, h.multiplier, penalty, e.loss, ProposedRequiresRisk), bundle;
    }
    return Verdict(0.0, h.multiplier, penalty, e.loss, NoCapacity), [];
  }

  /** The loop that extends targets and records. */
  method RunPass(inp: Inputs, sorted: seq<Candidate>) returns (targets: seq<Position>, records: seq<Record>)
    requires inp.Valid() && forall c :: c in sorted ==> WellFormed(c)
    ensures (targets, records) == Pass(inp, sorted, |sorted|)
  {
    var book := BookOf(inp);
    targets, records := inp.positions, [];
    for n := 0 to |sorted|
      invariant (targets, records) == Pass(inp, sorted, n)
    {
      var c := sorted[n];
      var v, additions := EvaluateCandidate(inp, book, sorted, targets, c);
      PassStep(inp, sorted, n, v);
      assert targets + [] == targets;
      targets := targets + additions;
      records := records + [RecordOf(c, v)];
    }
  }

  lemma PassStep(inp: Inputs, sorted: seq<Candidate>, n: nat, v: Verdict)
    requires inp.Valid() && n < |sorted| && forall c :: c in sorted ==> WellFormed(c)
    requires v == Evaluate(inp, BookOf(inp), sorted, Pass(inp, sorted, n).0, sorted[n])
    ensures Pass(inp, sorted, n + 1) == Extend(Pass(inp, sorted, n), sorted[n], v)
  {
  }

  /** The operation. */
  method Allocate(inp: Inputs) returns (d: Decision)
    requires inp.Valid()
    ensures d == Allocation(inp)
  {
    var gate := Gate(inp);
    if gate.Some? {
      return Decision(inp.positions, [], gate.value);
    }
    SortMembers(inp.candidates, Stronger);
    var targets, records := RunPass(inp, Sort(inp.candidates, Stronger));
    return Decision(targets, records, ProposalsOnly);
  }
}
