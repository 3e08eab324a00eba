/** The sector relative-value alpha: who may be traded, who leads and lags each sector, and the baskets that follow. */
module Sectors {
  import opened Prelude
  import opened Sorting
  import opened Rules
  import opened Beta
  import opened Basket
  import Aggregation
  import Ranking

  datatype Instrument = Instrument(token: Id, entity: Id, sector: Id, eligible: bool, futures: bool)

  datatype Universe = Universe(longTokens: seq<Id>, shortTokens: seq<Id>)

  /** `gate` is the verdict of the context, provenance, liquidity and feature checks. */
  datatype Observation = Observation(
    token: Id, at: Instant, gate: Option<Id>, sectorResidual: real, marketResidual: real, stock: Ref, market: Ref, history: seq<BetaObservation>)

  datatype Session = Session(opening: Instant, finalEntry: Instant, flatten: Instant)

  datatype Reason =
    | InstrumentIneligible
    | InventoryOverlap
    | Gated(gate: Id)
    | BetaRefused(error: BetaError)
    | SectorWarmup
    | TailsOrGapInsufficient

  datatype Report = OnInstrument(token: Id, reason: Reason) | OnSector(sector: Id, reason: Reason)

  datatype Status = EntryWindowBlocked | CrossSectionAmbiguous | InconsistentMarketTraining | EvaluationComplete

  datatype Evaluation = Evaluation(intents: seq<Intent>, reports: seq<Report>, status: Status)

  type Estimator = Observation -> Result<BetaEstimate, BetaError>

  datatype Context = Context(
    cfg: RelativeValueSettings, at: Instant, session: Session, universe: Universe, master: seq<Instrument>, reserved: set<Id>, estimator: Estimator)
  {
    ghost predicate Valid() {
      cfg.Valid() && Admits(estimator, at, cfg)
    }
  }

  /** An estimator accepts only betas in range that were trained before the decision. */
  ghost predicate Admits(estimator: Estimator, at: Instant, cfg: RelativeValueSettings) {
    forall o :: estimator(o).Ok? ==> cfg.minBeta <= estimator(o).value.beta <= cfg.maxBeta && estimator(o).value.trainingEnd < at
  }

  /** The estimator in use, over a way to fit closes. */
  function EstimatorFor(fitter: Fitter, at: Instant, opening: Instant, count: nat): Estimator
    requires count > 0
  {
    (o: Observation) => EstimateBeta(o.history, o.stock, o.market, at, opening, count, fitter)
  }

  lemma EstimatorAdmits(fitter: Fitter, at: Instant, opening: Instant, count: nat, cfg: RelativeValueSettings)
    requires count > 0 && KeepsRange(fitter, cfg)
    ensures Admits(EstimatorFor(fitter, at, opening, count), at, cfg)
  {
    forall o: Observation | EstimatorFor(fitter, at, opening, count)(o).Ok?
      ensures var e := EstimatorFor(fitter, at, opening, count)(o).value; cfg.minBeta <= e.beta <= cfg.maxBeta && e.trainingEnd < at
    {
      AcceptedRange(o.history, o.stock, o.market, at, opening, count, fitter, cfg);
    }
  }

  /** The returns fitter of the settings makes such an estimator. */
  lemma ReturnEstimatorAdmits(at: Instant, opening: Instant, cfg: RelativeValueSettings)
    requires cfg.Valid()
    ensures Admits(EstimatorFor(ReturnFitter(cfg), at, opening, cfg.trainingReturns + 1), at, cfg)
  {
    ReturnFitterKeepsRange(cfg);
    EstimatorAdmits(ReturnFitter(cfg), at, opening, cfg.trainingReturns + 1, cfg);
  }

  /** The master by token; a later entry replaces an earlier one. */
  function ByToken(master: seq<Instrument>): (m: map<Id, Instrument>)
    ensures forall t :: t in m ==> m[t] in master && m[t].token == t
  {
    if master == [] then map[]
    else
      var n := |master| - 1;
      assert master == master[..n] + [master[n]];
      ByToken(master[..n])[master[n].token := master[n]]
  }

  function Keys<T>(s: seq<T>, key: T -> Id): set<Id> {
    set i | 0 <= i < |s| :: key(s[i])
  }

  lemma {:induction false} KeysAtMost<T>(s: seq<T>, key: T -> Id)
    ensures |Keys(s, key)| <= |s|
  {
    if s != [] {
      var n := |s| - 1;
      KeysAtMost(s[..n], key);
      assert s == s[..n] + [s[n]];
      assert Keys(s, key) == Keys(s[..n], key) + {key(s[n])};
    }
  }

  /** As many keys as elements: no key repeats. */
  lemma {:induction false} KeysDiffer<T>(s: seq<T>, key: T -> Id, i: nat, j: nat)
    requires |Keys(s, key)| == |s| && i < j < |s|
    ensures key(s[i]) != key(s[j])
    decreases |s|
  {
    var n := |s| - 1;
    KeysAtMost(s[..n], key);
    assert s == s[..n] + [s[n]];
    assert Keys(s, key) == Keys(s[..n], key) + {key(s[n])};
    if j < n {
      KeysDiffer(s[..n], key, i, j);
    } else {
      assert key(s[..n][i]) in Keys(s[..n], key);
    }
  }

  function InstrumentEntity(i: Instrument): Id { i.entity }
  function ObservedToken(o: Observation): Id { o.token }
  function Itself(t: Id): Id { t }

  /** Master and cross-section identify every security of the universe once. */
  predicate Unambiguous(ctx: Context, selected: seq<Observation>) {
    var expected := Keys(ctx.universe.longTokens, Itself);
    && |ByToken(ctx.master)| == |ctx.master|
    && |Keys(ctx.master, InstrumentEntity)| == |ctx.master|
    && |expected| == |ctx.universe.longTokens|
    && Keys(ctx.universe.shortTokens, Itself) <= expected
    && Keys(selected, ObservedToken) == expected && |selected| == |expected|
    && expected <= ByToken(ctx.master).Keys
  }

  /** One observation and its beta: a security with its strength, or the reason it is left out. */
  function Rate(
      ctx: Context, i: Instrument, o: Observation, beta: Result<BetaEstimate, BetaError>): Result<Security, Reason> {
    if !i.eligible then Err(InstrumentIneligible)
    else if i.entity in ctx.reserved then Err(InventoryOverlap)
    else if o.gate.Some? then Err(Gated(o.gate.value))
    else if beta.Err? then Err(BetaRefused(beta.error))
    else
      var w := ctx.cfg.sectorResidualWeight;
      Ok(Security(i.token, i.entity, i.sector, Times(w, o.sectorResidual) + Times(1.0 - w, o.marketResidual), 0.0,
                  i.token in ctx.universe.shortTokens && i.futures, beta.value))
  }

  function Judge(ctx: Context, o: Observation): Result<Security, Reason>
    requires ctx.cfg.Valid() && o.token in ByToken(ctx.master)
  {
    Rate(ctx, ByToken(ctx.master)[o.token], o, ctx.estimator(o))
  }

  /** A strength lies between the two residuals; a weight of one keeps the sector's, a weight of zero the market's. */
  lemma StrengthBlends(ctx: Context, i: Instrument, o: Observation, beta: Result<BetaEstimate, BetaError>)
    requires ctx.cfg.Valid() && Rate(ctx, i, o, beta).Ok?
    ensures var c, w := Rate(ctx, i, o, beta).value, ctx.cfg.sectorResidualWeight;
            && MinReal(o.sectorResidual, o.marketResidual) <= c.strength <= MaxReal(o.sectorResidual, o.marketResidual)
            && (w == 1.0 ==> c.strength == o.sectorResidual)
            && (w == 0.0 ==> c.strength == o.marketResidual)
  {
    Blend(ctx.cfg.sectorResidualWeight, o.sectorResidual, o.marketResidual);
  }

  lemma Blend(w: real, x: real, y: real)
    requires 0.0 <= w <= 1.0
    ensures MinReal(x, y) <= Times(w, x) + Times(1.0 - w, y) <= MaxReal(x, y)
    ensures w == 1.0 ==> Times(w, x) + Times(1.0 - w, y) == x
    ensures w == 0.0 ==> Times(w, x) + Times(1.0 - w, y) == y
  {
    var d := x - y;
    assert Times(w, x) + Times(1.0 - w, y) == y + w * d;
    if d >= 0.0 {
      assert 0.0 <= w * d <= d;
    } else {
      assert d <= w * d <= 0.0;
    }
  }

  ghost predicate AllListed(ctx: Context, os: seq<Observation>) {
    forall o :: o in os ==> o.token in ByToken(ctx.master)
  }

  /** What a candidate owes to its observation. */
  ghost predicate From(ctx: Context, o: Observation, c: Security)
    requires o.token in ByToken(ctx.master)
  {
    c.instrument == o.token && c.entity == ByToken(ctx.master)[o.token].entity && Accepted(c, ctx.at, ctx.cfg)
  }

  lemma JudgedIsAccepted(ctx: Context, o: Observation)
    requires ctx.Valid() && o.token in ByToken(ctx.master) && Judge(ctx, o).Ok?
    ensures From(ctx, o, Judge(ctx, o).value)
  {
    var beta := ctx.estimator(o);
    RatedHasBeta(ctx, ByToken(ctx.master)[o.token], o, beta);
  }

  lemma RatedHasBeta(ctx: Context, i: Instrument, o: Observation, beta: Result<BetaEstimate, BetaError>)
    requires Rate(ctx, i, o, beta).Ok?
    ensures var c := Rate(ctx, i, o, beta).value;
            beta.Ok? && c.beta == beta.value && c.instrument == i.token && c.entity == i.entity
  {
  }

  ghost predicate SomeFrom(ctx: Context, os: seq<Observation>, c: Security)
    requires AllListed(ctx, os)
  {
    exists o :: o in os && From(ctx, o, c)
  }

  ghost predicate TokensDiffer(os: seq<Observation>) {
    forall i, j :: 0 <= i < j < |os| ==> os[i].token != os[j].token
  }

  ghost predicate EntitiesTell(ctx: Context) {
    var m := ByToken(ctx.master);
    forall s, t :: s in m && t in m && m[s].entity == m[t].entity ==> s == t
  }

  lemma UnambiguousFacts(ctx: Context, selected: seq<Observation>)
    requires Unambiguous(ctx, selected)
    ensures AllListed(ctx, selected) && TokensDiffer(selected) && EntitiesTell(ctx)
  {
    forall o | o in selected
      ensures o.token in ByToken(ctx.master)
    {
      var i :| 0 <= i < |selected| && selected[i] == o;
      assert ObservedToken(selected[i]) in Keys(selected, ObservedToken);
    }
    forall i, j | 0 <= i < j < |selected|
      ensures selected[i].token != selected[j].token
    {
      KeysDiffer(selected, ObservedToken, i, j);
    }
    EntitiesAreUnique(ctx);
  }

  lemma EntitiesAreUnique(ctx: Context)
    requires |Keys(ctx.master, InstrumentEntity)| == |ctx.master|
    ensures EntitiesTell(ctx)
  {
    var m := ByToken(ctx.master);
    forall s, t | s in m && t in m && m[s].entity == m[t].entity
      ensures s == t
    {
      var i :| 0 <= i < |ctx.master| && ctx.master[i] == m[s];
      var j :| 0 <= j < |ctx.master| && ctx.master[j] == m[t];
      if i < j {
        KeysDiffer(ctx.master, InstrumentEntity, i, j);
      } else if j < i {
        KeysDiffer(ctx.master, InstrumentEntity, j, i);
      }
    }
  }

  /** The candidates of a cross-section, in its order. */
  function CandidatesOf(ctx: Context, os: seq<Observation>): seq<Security>
    requires ctx.cfg.Valid() && AllListed(ctx, os)
  {
    if os == [] then []
    else
      var before, judged := CandidatesOf(ctx, os[..|os| - 1]), Judge(ctx, os[|os| - 1]);
      if judged.Ok? then before + [judged.value] else before
  }

  /** The reasons for those left out, in its order. */
  function RefusalsOf(ctx: Context, os: seq<Observation>): seq<Report>
    requires ctx.cfg.Valid() && AllListed(ctx, os)
  {
    if os == [] then []
    else
      var before, o := RefusalsOf(ctx, os[..|os| - 1]), os[|os| - 1];
      if Judge(ctx, o).Err? then before + [OnInstrument(o.token, Judge(ctx, o).error)] else before
  }

  /** Judges the cross-section, one observation after the other. */
  method Gather(ctx: Context, selected: seq<Observation>) returns (candidates: seq<Security>, reports: seq<Report>)
    requires ctx.cfg.Valid() && AllListed(ctx, selected)
    ensures candidates == CandidatesOf(ctx, selected) && reports == RefusalsOf(ctx, selected)
  {
    candidates, reports := [], [];
    for n := 0 to |selected|
      invariant candidates == CandidatesOf(ctx, selected[..n]) && reports == RefusalsOf(ctx, selected[..n])
    {
      assert selected[..n + 1][..n] == selected[..n];
      var judged := Judge(ctx, selected[n]);
      if judged.Ok? {
        candidates := candidates + [judged.value];
      } else {
        reports := reports + [OnInstrument(selected[n].token, judged.error)];
      }
    }
    assert selected[..|selected|] == selected;
  }

  /** Candidates are accepted and no two are the same security. */
  lemma {:induction false} CandidateFacts(ctx: Context, selected: seq<Observation>)
    requires ctx.Valid() && AllListed(ctx, selected) && TokensDiffer(selected) && EntitiesTell(ctx)
    ensures Apart(CandidatesOf(ctx, selected))
    ensures forall c :: c in CandidatesOf(ctx, selected) ==> SomeFrom(ctx, selected, c)
  {
    if selected != [] {
      var n := |selected| - 1;
      var before, o := selected[..n], selected[n];
      CandidateFacts(ctx, before);
      SomeFromGrows(ctx, before, o, CandidatesOf(ctx, before));
      assert selected == before + [o];
      if Judge(ctx, o).Ok? {
        JudgedIsAccepted(ctx, o);
        NewEntity(ctx, selected, n, CandidatesOf(ctx, before), Judge(ctx, o).value);
      }
    }
  }

  lemma SomeFromGrows(ctx: Context, os: seq<Observation>, o: Observation, candidates: seq<Security>)
    requires AllListed(ctx, os) && o.token in ByToken(ctx.master) && forall c :: c in candidates ==> SomeFrom(ctx, os, c)
    ensures AllListed(ctx, os + [o]) && forall c :: c in candidates ==> SomeFrom(ctx, os + [o], c)
  {
    forall c | c in candidates
      ensures SomeFrom(ctx, os + [o], c)
    {
      var p :| p in os && From(ctx, p, c);
      assert p in os + [o];
    }
  }

  lemma NewEntity(ctx: Context, selected: seq<Observation>, n: nat, candidates: seq<Security>, c: Security)
    requires AllListed(ctx, selected) && TokensDiffer(selected) && EntitiesTell(ctx) && n < |selected|
    requires From(ctx, selected[n], c) && Apart(candidates)
    requires AllListed(ctx, selected[..n]) && forall d :: d in candidates ==> SomeFrom(ctx, selected[..n], d)
    ensures Apart(candidates + [c])
  {
    forall d | d in candidates
      ensures d.entity != c.entity
    {
      var o :| o in selected[..n] && From(ctx, o, d);
      var i :| 0 <= i < n && selected[i] == o;
    }
  }

  function OfSector(candidates: seq<Security>, sector: Id): seq<Security> {
    if candidates == [] then []
    else
      var n := |candidates| - 1;
      if candidates[n].sector == sector then OfSector(candidates[..n], sector) + [candidates[n]] else OfSector(candidates[..n], sector)
  }

  function Strengths(group: seq<Security>): (vs: seq<real>)
    ensures |vs| == |group| && forall i :: 0 <= i < |vs| ==> vs[i] == group[i].strength
  {
    seq(|group|, i requires 0 <= i < |group| => group[i].strength)
  }

  /** The group with each member's rank filled in. */
  function Ranked(group: seq<Security>): (r: seq<Security>)
    requires group != []
    ensures |r| == |group|
    ensures forall i :: 0 <= i < |r| ==> r[i] == group[i].(percentile := Ranking.Percentile(Strengths(group), group[i].strength))
  {
    seq(|group|, i requires 0 <= i < |group| => group[i].(percentile := Ranking.Percentile(Strengths(group), group[i].strength)))
  }

  predicate InTail(side: Side, tail: real, c: Security) {
    if side.Long? then c.percentile >= 1.0 - tail else c.percentile <= tail && c.shortable
  }

  function Tail(ranked: seq<Security>, side: Side, tail: real): seq<Security> {
    if ranked == [] then []
    else
      var n := |ranked| - 1;
      if InTail(side, tail, ranked[n]) then Tail(ranked[..n], side, tail) + [ranked[n]] else Tail(ranked[..n], side, tail)
  }

  predicate StrongFirst(a: Security, b: Security) {
    a.strength > b.strength || (a.strength == b.strength && a.entity <= b.entity)
  }

  predicate WeakFirst(a: Security, b: Security) {
    a.strength < b.strength || (a.strength == b.strength && a.entity <= b.entity)
  }

  function First(side: Side): (Security, Security) -> bool {
    if side.Long? then StrongFirst else WeakFirst
  }

  /** The extreme members of a side, at most as many as it takes. */
  function Chosen(ranked: seq<Security>, side: Side, cfg: RelativeValueSettings): seq<Security> {
    var ordered := Sort(Tail(ranked, side, cfg.tailFraction), First(side));
    if |ordered| <= SideSize(cfg) then ordered else ordered[..SideSize(cfg)]
  }

  function MinStrength(cs: seq<Security>): real
    requires cs != []
  {
    if |cs| == 1 then cs[0].strength else MinReal(MinStrength(cs[..|cs| - 1]), cs[|cs| - 1].strength)
  }

  function MaxStrength(cs: seq<Security>): real
    requires cs != []
  {
    if |cs| == 1 then cs[0].strength else MaxReal(MaxStrength(cs[..|cs| - 1]), cs[|cs| - 1].strength)
  }

  lemma WeightsPositive(lb: real, sb: real, cfg: RelativeValueSettings)
    requires cfg.Valid() && NeutralWeights(lb, sb, cfg).Ok?
    ensures NeutralWeights(lb, sb, cfg).value.long > 0.0
  {
    BalancedShare(lb, sb);
  }

  /** The basket of two complete sides. */
  function BasketOf(
      cfg: RelativeValueSettings, leaders: seq<Security>, laggards: seq<Security>, sector: Id, at: Instant,
      flatten: Instant)
      : Result<Intent, Reason>
    requires cfg.Valid() && leaders != [] && laggards != []
  {
    var w := NeutralWeights(MeanBeta(leaders), MeanBeta(laggards), cfg);
    if w.Err? then Err(BetaRefused(w.error))
    else
      WeightsPositive(MeanBeta(leaders), MeanBeta(laggards), cfg);
      Ok(Assemble(leaders, laggards, w.value, sector, at, flatten, cfg))
  }

  /** One sector: its basket or the reason there is none. */
  function SectorOutcome(
      cfg: RelativeValueSettings, candidates: seq<Security>, sector: Id, at: Instant,
      flatten: Instant): Result<Intent, Reason>
    requires cfg.Valid()
  {
    var group := OfSector(candidates, sector);
    if |group| < cfg.minimumSectorSize then Err(SectorWarmup)
    else
      var ranked, n := Ranked(group), SideSize(cfg);
      var leaders, laggards := Chosen(ranked, Long, cfg), Chosen(ranked, Short, cfg);
      if |leaders| != n || |laggards| != n || MinStrength(leaders) - MaxStrength(laggards) < cfg.minResidualGap then Err(TailsOrGapInsufficient)
      else BasketOf(cfg, leaders, laggards, sector, at, flatten)
  }

  lemma {:induction false} SectorMembers(candidates: seq<Security>, sector: Id)
    ensures forall c :: c in OfSector(candidates, sector) <==> c in candidates && c.sector == sector
    ensures Apart(candidates) ==> Apart(OfSector(candidates, sector))
  {
    if candidates != [] {
      var n := |candidates| - 1;
      assert candidates == candidates[..n] + [candidates[n]];
      SectorMembers(candidates[..n], sector);
    }
  }

  lemma {:induction false} TailMembers(ranked: seq<Security>, side: Side, tail: real)
    ensures forall c :: c in Tail(ranked, side, tail) <==> c in ranked && InTail(side, tail, c)
    ensures Distinct(ranked) ==> Distinct(Tail(ranked, side, tail))
  {
    if ranked != [] {
      var n := |ranked| - 1;
      assert ranked == ranked[..n] + [ranked[n]];
      TailMembers(ranked[..n], side, tail);
    }
  }

  lemma FirstIsOrder(side: Side)
    ensures TotalPreorder(First(side))
  {
  }

  /** Chosen members come from the tail, in order, without repeats. */
  lemma ChosenFacts(ranked: seq<Security>, side: Side, cfg: RelativeValueSettings)
    requires Distinct(ranked)
    ensures Distinct(Chosen(ranked, side, cfg)) && Sorted(Chosen(ranked, side, cfg), First(side))
    ensures forall c :: c in Chosen(ranked, side, cfg) ==> c in ranked && InTail(side, cfg.tailFraction, c)
    ensures forall c, d :: c in Chosen(ranked, side, cfg) && d in ranked && InTail(side, cfg.tailFraction, d) && d !in Chosen(ranked, side, cfg) ==>
                             First(side)(c, d)
  {
    var tail := Tail(ranked, side, cfg.tailFraction);
    TailMembers(ranked, side, cfg.tailFraction);
    FirstIsOrder(side);
    SortSorts(tail, First(side));
    SortMembers(tail, First(side));
    SortKeepsDistinct(tail, First(side));
    PrefixFirst(Sort(tail, First(side)), side, SideSize(cfg));
  }

  lemma PrefixFirst(ordered: seq<Security>, side: Side, n: nat)
    requires Sorted(ordered, First(side)) && Distinct(ordered)
    ensures var chosen := if |ordered| <= n then ordered else ordered[..n];
            && Distinct(chosen) && Sorted(chosen, First(side))
            && (forall c, d :: c in chosen && d in ordered && d !in chosen ==> First(side)(c, d))
  {
    var chosen := if |ordered| <= n then ordered else ordered[..n];
    forall c, d | c in chosen && d in ordered && d !in chosen
      ensures First(side)(c, d)
    {
      var i :| 0 <= i < |chosen| && chosen[i] == c;
      var j :| 0 <= j < |ordered| && ordered[j] == d;
      assert forall k :: 0 <= k < |chosen| ==> chosen[k] in chosen && chosen[k] == ordered[k];
      assert i < j;
      assert First(side)(ordered[i], ordered[j]);
    }
  }

  ghost predicate EntitiesName(cs: seq<Security>) {
    forall c, d :: c in cs && d in cs && c.entity == d.entity ==> c == d
  }

  lemma RankedFacts(group: seq<Security>, cfg: RelativeValueSettings, at: Instant)
    requires group != [] && Apart(group) && forall c :: c in group ==> Accepted(c, at, cfg)
    ensures Distinct(Ranked(group)) && EntitiesName(Ranked(group))
    ensures forall c :: c in Ranked(group) ==> Accepted(c, at, cfg) && 0.0 < c.percentile < 1.0
  {
    var r, vs := Ranked(group), Strengths(group);
    forall i | 0 <= i < |r|
      ensures Accepted(r[i], at, cfg) && 0.0 < r[i].percentile < 1.0 && r[i].entity == group[i].entity
    {
      assert group[i] in group;
      assert vs[i] == group[i].strength;
      Ranking.PercentileInside(vs, vs[i]);
    }
  }

  lemma ApartSides(leaders: seq<Security>, laggards: seq<Security>, ranked: seq<Security>, tail: real)
    requires Distinct(leaders) && Distinct(laggards) && EntitiesName(ranked) && 0.0 < tail < 0.5
    requires forall c :: c in leaders ==> c in ranked && c.percentile >= 1.0 - tail
    requires forall c :: c in laggards ==> c in ranked && c.percentile <= tail
    ensures Apart(leaders + laggards)
  {
    var all := leaders + laggards;
    forall i, j | 0 <= i < j < |all|
      ensures all[i].entity != all[j].entity
    {
      assert all[i] in ranked && all[j] in ranked;
      assert i < |leaders| ==> all[i] in leaders;
      assert j >= |leaders| ==> all[j] in laggards;
    }
  }

  /** The sides a sector offers are fit to be weighted. */
  lemma ChosenSidesFit(cfg: RelativeValueSettings, group: seq<Security>, at: Instant)
    requires cfg.Valid() && group != [] && Apart(group) && forall c :: c in group ==> Accepted(c, at, cfg)
    requires |Chosen(Ranked(group), Long, cfg)| == |Chosen(Ranked(group), Short, cfg)| == SideSize(cfg)
    ensures SidesFit(Chosen(Ranked(group), Long, cfg), Chosen(Ranked(group), Short, cfg), at, cfg)
  {
    var ranked := Ranked(group);
    RankedFacts(group, cfg, at);
    ChosenFacts(ranked, Long, cfg);
    ChosenFacts(ranked, Short, cfg);
    ApartSides(Chosen(ranked, Long, cfg), Chosen(ranked, Short, cfg), ranked, cfg.tailFraction);
  }

  /** The leaders are the strongest of the whole sector: nobody left out comes before one of them. */
  lemma LeadersAreStrongest(group: seq<Security>, cfg: RelativeValueSettings, leader: Security, other: Security)
    requires cfg.Valid() && group != [] && Distinct(Ranked(group))
    requires leader in Chosen(Ranked(group), Long, cfg) && other in Ranked(group) && other !in Chosen(Ranked(group), Long, cfg)
    ensures StrongFirst(leader, other)
  {
    var ranked, vs := Ranked(group), Strengths(group);
    ChosenFacts(ranked, Long, cfg);
    if !InTail(Long, cfg.tailFraction, other) {
      var i :| 0 <= i < |ranked| && ranked[i] == leader;
      var j :| 0 <= j < |ranked| && ranked[j] == other;
      assert vs[i] in vs && vs[j] in vs;
      Ranking.PercentileOrder(vs, vs[j], vs[i]);
    }
  }

  /** Likewise the laggards are the weakest of those that can be sold short. */
  lemma LaggardsAreWeakest(group: seq<Security>, cfg: RelativeValueSettings, laggard: Security, other: Security)
    requires cfg.Valid() && group != [] && Distinct(Ranked(group))
    requires laggard in Chosen(Ranked(group), Short, cfg)
    requires other in Ranked(group) && other.shortable && other !in Chosen(Ranked(group), Short, cfg)
    ensures WeakFirst(laggard, other)
  {
    var ranked, vs := Ranked(group), Strengths(group);
    ChosenFacts(ranked, Short, cfg);
    if !InTail(Short, cfg.tailFraction, other) {
      var i :| 0 <= i < |ranked| && ranked[i] == laggard;
      var j :| 0 <= j < |ranked| && ranked[j] == other;
      assert vs[i] in vs && vs[j] in vs;
      Ranking.PercentileOrder(vs, vs[i], vs[j]);
    }
  }

  /** A fit pair of sides gives a coherent and exact basket, or too much net exposure; nothing else can go wrong. */
  lemma BasketIsCoherent(
      cfg: RelativeValueSettings, leaders: seq<Security>, laggards: seq<Security>, sector: Id, at: Instant,
      flatten: Instant)
    requires cfg.Valid() && leaders != [] && laggards != [] && SidesFit(leaders, laggards, at, cfg) && at < flatten
    ensures var r := BasketOf(cfg, leaders, laggards, sector, at, flatten);
            && (r.Ok? ==> Coherent(r.value) && Exact(r.value) && r.value.sector == sector && r.value.at == at)
            && (r.Err? ==> r.error == BetaRefused(NetInfeasible))
  {
    var lb, sb := MeanBeta(leaders), MeanBeta(laggards);
    MeanBetaInRange(leaders, cfg);
    MeanBetaInRange(laggards, cfg);
    NeutralWeightsCharacterised(lb, sb, cfg);
    var r := BasketOf(cfg, leaders, laggards, sector, at, flatten);
    if r.Ok? {
      ConstructionIsCoherent(leaders, laggards, NeutralWeights(lb, sb, cfg).value, sector, at, flatten, cfg, r.value);
    }
  }

  /**
   Every sector of accepted candidates ends in a basket that passes its validator, or in one of three refusals;
   the range and beta-exposure refusals of the weights are out of reach.
   */
  lemma SectorIsSound(cfg: RelativeValueSettings, candidates: seq<Security>, sector: Id, at: Instant, flatten: Instant)
    requires cfg.Valid() && at < flatten && Apart(candidates) && forall c :: c in candidates ==> Accepted(c, at, cfg)
    ensures var r := SectorOutcome(cfg, candidates, sector, at, flatten);
            && (r.Ok? ==> Coherent(r.value) && Exact(r.value) && r.value.sector == sector && r.value.at == at)
            && (r.Err? ==> r.error in {SectorWarmup, TailsOrGapInsufficient, BetaRefused(NetInfeasible)})
  {
    var group := OfSector(candidates, sector);
    SectorMembers(candidates, sector);
    if |group| >= cfg.minimumSectorSize {
      var leaders, laggards := Chosen(Ranked(group), Long, cfg), Chosen(Ranked(group), Short, cfg);
      if |leaders| == |laggards| == SideSize(cfg) {
        ChosenSidesFit(cfg, group, at);
        BasketIsCoherent(cfg, leaders, laggards, sector, at, flatten);
      }
    }
  }

  lemma {:induction false} MinStrengthBound(cs: seq<Security>, i: nat)
    requires i < |cs|
    ensures MinStrength(cs) <= cs[i].strength
  {
    var n := |cs| - 1;
    if i < n {
      MinStrengthBound(cs[..n], i);
    }
  }

  lemma {:induction false} MaxStrengthBound(cs: seq<Security>, i: nat)
    requires i < |cs|
    ensures cs[i].strength <= MaxStrength(cs)
  {
    var n := |cs| - 1;
    if i < n {
      MaxStrengthBound(cs[..n], i);
    }
  }

  /** A leg stands for a candidate of the sector, and a short leg for one that can be sold short. */
  ghost predicate StandsFor(x: Leg, c: Security) {
    && x.instrument == c.instrument && x.entity == c.entity && x.sector == c.sector && x.beta == c.beta && x.strength == c.strength
    && (x.side.Short? ==> c.shortable)
  }

  ghost predicate HasSource(x: Leg, candidates: seq<Security>) {
    exists c :: c in candidates && StandsFor(x, c)
  }

  lemma MemberSource(candidates: seq<Security>, sector: Id, side: Side, cfg: RelativeValueSettings, f: real, x: Leg)
    requires OfSector(candidates, sector) != [] && Distinct(Ranked(OfSector(candidates, sector)))
    requires x in LegsOf(Chosen(Ranked(OfSector(candidates, sector)), side, cfg), side, f, sector)
    ensures HasSource(x, candidates)
    ensures exists m :: m in Chosen(Ranked(OfSector(candidates, sector)), side, cfg) && m.strength == x.strength
    ensures x.side == side
  {
    var group := OfSector(candidates, sector);
    var ranked := Ranked(group);
    var chosen := Chosen(ranked, side, cfg);
    var legs := LegsOf(chosen, side, f, sector);
    var i :| 0 <= i < |legs| && legs[i] == x;
    ChosenFacts(ranked, side, cfg);
    SectorMembers(candidates, sector);
    assert chosen[i] in chosen;
    var j :| 0 <= j < |ranked| && ranked[j] == chosen[i];
    assert group[j] in group;
    assert StandsFor(x, group[j]);
  }

  lemma GapBetween(leaders: seq<Security>, laggards: seq<Security>, gap: real, a: real, b: real)
    requires leaders != [] && laggards != [] && MinStrength(leaders) - MaxStrength(laggards) >= gap
    requires (exists c :: c in leaders && c.strength == a) && (exists c :: c in laggards && c.strength == b)
    ensures a - b >= gap
  {
    var c :| c in leaders && c.strength == a;
    var d :| d in laggards && d.strength == b;
    var i :| 0 <= i < |leaders| && leaders[i] == c;
    var j :| 0 <= j < |laggards| && laggards[j] == d;
    MinStrengthBound(leaders, i);
    MaxStrengthBound(laggards, j);
  }

  /**
   The basket of a sector trades its own candidates, and every long leg is stronger than every short one by the gap.
   */
  lemma SectorLegs(
      cfg: RelativeValueSettings, candidates: seq<Security>, sector: Id, at: Instant, flatten: Instant, it: Intent)
    requires cfg.Valid() && Apart(candidates) && (forall c :: c in candidates ==> Accepted(c, at, cfg))
    requires SectorOutcome(cfg, candidates, sector, at, flatten) == Ok(it)
    ensures forall x :: x in it.legs ==> HasSource(x, candidates)
    ensures forall x, y :: x in it.legs && y in it.legs && x.side.Long? && y.side.Short? ==> x.strength - y.strength >= cfg.minResidualGap
  {
    var group := OfSector(candidates, sector);
    SectorMembers(candidates, sector);
    RankedFacts(group, cfg, at);
    var leaders, laggards := Chosen(Ranked(group), Long, cfg), Chosen(Ranked(group), Short, cfg);
    var w := NeutralWeights(MeanBeta(leaders), MeanBeta(laggards), cfg).value;
    var f, g := w.long / SideSize(cfg) as real, w.short / SideSize(cfg) as real;
    var longs, shorts := LegsOf(leaders, Long, f, sector), LegsOf(laggards, Short, g, sector);
    assert it.legs == longs + shorts;
    LegSources(cfg, candidates, sector, f, g, longs, shorts);
    forall x, y | x in it.legs && y in it.legs && x.side.Long? && y.side.Short?
      ensures x.strength - y.strength >= cfg.minResidualGap
    {
      GapBetween(leaders, laggards, cfg.minResidualGap, x.strength, y.strength);
    }
  }

  lemma LegSources(
      cfg: RelativeValueSettings, candidates: seq<Security>, sector: Id, f: real, g: real, longs: seq<Leg>,
      shorts: seq<Leg>)
    requires OfSector(candidates, sector) != [] && Distinct(Ranked(OfSector(candidates, sector)))
    requires longs == LegsOf(Chosen(Ranked(OfSector(candidates, sector)), Long, cfg), Long, f, sector)
    requires shorts == LegsOf(Chosen(Ranked(OfSector(candidates, sector)), Short, cfg), Short, g, sector)
    ensures forall x :: x in longs + shorts ==> HasSource(x, candidates)
    ensures forall x :: x in longs + shorts && x.side.Long? ==>
              exists m :: m in Chosen(Ranked(OfSector(candidates, sector)), Long, cfg) && m.strength == x.strength
    ensures forall x :: x in longs + shorts && x.side.Short? ==>
              exists m :: m in Chosen(Ranked(OfSector(candidates, sector)), Short, cfg) && m.strength == x.strength
  {
    forall x | x in longs + shorts
      ensures HasSource(x, candidates)
      ensures x.side.Long? ==> exists m :: m in Chosen(Ranked(OfSector(candidates, sector)), Long, cfg) && m.strength == x.strength
      ensures x.side.Short? ==> exists m :: m in Chosen(Ranked(OfSector(candidates, sector)), Short, cfg) && m.strength == x.strength
    {
      if x in longs {
        MemberSource(candidates, sector, Long, cfg, f, x);
      } else {
        MemberSource(candidates, sector, Short, cfg, g, x);
      }
    }
  }

  predicate IdBefore(a: Id, b: Id) {
    a <= b
  }

  function SectorSet(candidates: seq<Security>): set<Id> {
    set c | c in candidates :: c.sector
  }

  /** The sectors of the candidates, in order. */
  method SortedSectors(candidates: seq<Security>) returns (sectors: seq<Id>)
    ensures Lists(SectorSet(candidates), sectors, IdBefore)
  {
    var found: seq<Id> := [];
    for n := 0 to |candidates|
      invariant Distinct(found) && forall x :: x in found <==> x in SectorSet(candidates[..n])
    {
      assert candidates[..n + 1] == candidates[..n] + [candidates[n]];
      assert SectorSet(candidates[..n + 1]) == SectorSet(candidates[..n]) + {candidates[n].sector};
      if candidates[n].sector !in found {
        found := found + [candidates[n].sector];
      }
    }
    assert candidates[..|candidates|] == candidates;
    sectors := Sort(found, IdBefore);
    SortSorts(found, IdBefore);
    SortMembers(found, IdBefore);
    SortKeepsDistinct(found, IdBefore);
  }

  function IntentsOf(ctx: Context, candidates: seq<Security>, sectors: seq<Id>): seq<Intent>
    requires ctx.cfg.Valid()
  {
    if sectors == [] then []
    else
      var n := |sectors| - 1;
      var r := SectorOutcome(ctx.cfg, candidates, sectors[n], ctx.at, ctx.session.flatten);
      if r.Ok? then IntentsOf(ctx, candidates, sectors[..n]) + [r.value] else IntentsOf(ctx, candidates, sectors[..n])
  }

  function SectorReports(ctx: Context, candidates: seq<Security>, sectors: seq<Id>): seq<Report>
    requires ctx.cfg.Valid()
  {
    if sectors == [] then []
    else
      var n := |sectors| - 1;
      var r := SectorOutcome(ctx.cfg, candidates, sectors[n], ctx.at, ctx.session.flatten);
      if r.Err? then SectorReports(ctx, candidates, sectors[..n]) + [OnSector(sectors[n], r.error)] else SectorReports(ctx, candidates, sectors[..n])
  }

  method BuildBaskets(
      ctx: Context, candidates: seq<Security>, sectors: seq<Id>) returns (intents: seq<Intent>, reports: seq<Report>)
    requires ctx.cfg.Valid()
    ensures intents == IntentsOf(ctx, candidates, sectors) && reports == SectorReports(ctx, candidates, sectors)
  {
    intents, reports := [], [];
    for n := 0 to |sectors|
      invariant intents == IntentsOf(ctx, candidates, sectors[..n]) && reports == SectorReports(ctx, candidates, sectors[..n])
    {
      assert sectors[..n + 1][..n] == sectors[..n];
      var r := SectorOutcome(ctx.cfg, candidates, sectors[n], ctx.at, ctx.session.flatten);
      match r
      case Ok(intent) => intents := intents + [intent];
      case Err(reason) => reports := reports + [OnSector(sectors[n], reason)];
    }
    assert sectors[..|sectors|] == sectors;
  }

  predicate SameMarket(candidates: seq<Security>) {
    forall a, b :: a in candidates && b in candidates ==> a.beta.market == b.beta.market
  }

  predicate EntryOpen(ctx: Context) {
    && ctx.session.opening < ctx.at < ctx.session.finalEntry && ctx.at < ctx.session.flatten
    && (ctx.at - ctx.session.opening) % Aggregation.WINDOW == 0
  }

  predicate TokenBefore(a: Observation, b: Observation) {
    a.token <= b.token
  }

  function Current(observations: seq<Observation>, at: Instant): (r: seq<Observation>)
    ensures forall o :: o in r ==> o in observations && o.at == at
  {
    if observations == [] then []
    else
      var n := |observations| - 1;
      if observations[n].at == at then Current(observations[..n], at) + [observations[n]] else Current(observations[..n], at)
  }

  function SelectedOf(observations: seq<Observation>, at: Instant): seq<Observation> {
    Sort(Current(observations, at), TokenBefore)
  }

  /** What holds of every intent and report of an evaluation. */
  ghost predicate SoundOutput(intents: seq<Intent>, reports: seq<Report>, at: Instant) {
    && (forall it :: it in intents ==> Coherent(it) && Exact(it) && it.at == at)
    && (forall i, j :: 0 <= i < j < |intents| ==> intents[i].sector < intents[j].sector)
    && (forall r :: r in reports && r.OnSector? ==> r.reason in {SectorWarmup, TailsOrGapInsufficient, BetaRefused(NetInfeasible)})
  }

  /** The alpha. Every basket it proposes has passed its validator, one sector at a time, in sector order. */
  method Evaluate(ctx: Context, observations: seq<Observation>) returns (e: Evaluation)
    requires ctx.Valid()
    ensures e.status == EntryWindowBlocked <==> !EntryOpen(ctx)
    ensures e.status == CrossSectionAmbiguous <==> EntryOpen(ctx) && !Unambiguous(ctx, SelectedOf(observations, ctx.at))
    ensures SoundOutput(e.intents, e.reports, ctx.at)
    ensures !e.status.EvaluationComplete? ==> e.intents == []
    ensures e.status.InconsistentMarketTraining? || e.status.EvaluationComplete? ==>
              AllListed(ctx, SelectedOf(observations, ctx.at)) && Concludes(ctx, SelectedOf(observations, ctx.at), e)
  {
    if !EntryOpen(ctx) {
      return Evaluation([], [], EntryWindowBlocked);
    }
    var selected := SelectedOf(observations, ctx.at);
    if !Unambiguous(ctx, selected) {
      return Evaluation([], [], CrossSectionAmbiguous);
    }
    UnambiguousFacts(ctx, selected);
    SortMembers(Current(observations, ctx.at), TokenBefore);
    var candidates, reports := Gather(ctx, selected);
    CandidateFacts(ctx, selected);
    InstrumentReports(ctx, selected);
    if !SameMarket(candidates) {
      return Evaluation([], reports, InconsistentMarketTraining);
    }
    var sectors := SortedSectors(candidates);
    var intents, more := BuildBaskets(ctx, candidates, sectors);
    AcceptedCandidates(ctx, selected, candidates);
    AscendingSectors(sectors);
    BasketsAreSound(ctx, candidates, sectors);
    e := Evaluation(intents, reports + more, EvaluationComplete);
    assert ConcludesWith(ctx, selected, e, sectors);
  }

  /** The outcome of a cross-section whose instruments are all identified. */
  ghost predicate Concludes(ctx: Context, selected: seq<Observation>, e: Evaluation)
    requires ctx.cfg.Valid() && AllListed(ctx, selected)
  {
    var candidates := CandidatesOf(ctx, selected);
    if !SameMarket(candidates) then e == Evaluation([], RefusalsOf(ctx, selected), InconsistentMarketTraining)
    else exists sectors :: ConcludesWith(ctx, selected, e, sectors)
  }

  ghost predicate ConcludesWith(ctx: Context, selected: seq<Observation>, e: Evaluation, sectors: seq<Id>)
    requires ctx.cfg.Valid() && AllListed(ctx, selected)
  {
    var candidates := CandidatesOf(ctx, selected);
    && Lists(SectorSet(candidates), sectors, IdBefore)
    && e == Evaluation(IntentsOf(ctx, candidates, sectors), RefusalsOf(ctx, selected) + SectorReports(ctx, candidates, sectors), EvaluationComplete)
  }

  lemma AcceptedCandidates(ctx: Context, selected: seq<Observation>, candidates: seq<Security>)
    requires AllListed(ctx, selected) && forall c :: c in candidates ==> SomeFrom(ctx, selected, c)
    ensures forall c :: c in candidates ==> Accepted(c, ctx.at, ctx.cfg)
  {
  }

  lemma {:induction false} InstrumentReports(ctx: Context, os: seq<Observation>)
    requires ctx.cfg.Valid() && AllListed(ctx, os)
    ensures forall r :: r in RefusalsOf(ctx, os) ==> r.OnInstrument?
  {
    if os != [] {
      InstrumentReports(ctx, os[..|os| - 1]);
    }
  }

  lemma AscendingSectors(sectors: seq<Id>)
    requires Sorted(sectors, IdBefore) && Distinct(sectors)
    ensures forall i, j :: 0 <= i < j < |sectors| ==> sectors[i] < sectors[j]
  {
    forall i, j | 0 <= i < j < |sectors|
      ensures sectors[i] < sectors[j]
    {
      assert IdBefore(sectors[i], sectors[j]);
    }
  }

  lemma {:induction false} BasketsAreSound(ctx: Context, candidates: seq<Security>, sectors: seq<Id>)
    requires ctx.cfg.Valid() && ctx.at < ctx.session.flatten && Apart(candidates)
    requires forall c :: c in candidates ==> Accepted(c, ctx.at, ctx.cfg)
    requires forall i, j :: 0 <= i < j < |sectors| ==> sectors[i] < sectors[j]
    ensures SoundOutput(IntentsOf(ctx, candidates, sectors), SectorReports(ctx, candidates, sectors), ctx.at)
    ensures forall it :: it in IntentsOf(ctx, candidates, sectors) ==> it.sector in sectors
  {
    if sectors != [] {
      var n := |sectors| - 1;
      BasketsAreSound(ctx, candidates, sectors[..n]);
      var r := SectorOutcome(ctx.cfg, candidates, sectors[n], ctx.at, ctx.session.flatten);
      SectorIsSound(ctx.cfg, candidates, sectors[n], ctx.at, ctx.session.flatten);
      AddSector(IntentsOf(ctx, candidates, sectors[..n]), SectorReports(ctx, candidates, sectors[..n]), ctx.at, sectors, r);
    }
  }

  lemma AddSector(intents: seq<Intent>, reports: seq<Report>, at: Instant, sectors: seq<Id>, r: Result<Intent, Reason>)
    requires SoundOutput(intents, reports, at) && sectors != []
    requires forall i, j :: 0 <= i < j < |sectors| ==> sectors[i] < sectors[j]
    requires forall it :: it in intents ==> it.sector in sectors[..|sectors| - 1]
    requires r.Ok? ==> Coherent(r.value) && Exact(r.value) && r.value.sector == sectors[|sectors| - 1] && r.value.at == at
    requires r.Err? ==> r.error in {SectorWarmup, TailsOrGapInsufficient, BetaRefused(NetInfeasible)}
    ensures r.Ok? ==> SoundOutput(intents + [r.value], reports, at) && forall it :: it in intents + [r.value] ==> it.sector in sectors
    ensures r.Err? ==> SoundOutput(intents, reports + [OnSector(sectors[|sectors| - 1], r.error)], at)
    ensures forall it :: it in intents ==> it.sector in sectors
  {
    assert forall i :: 0 <= i < |intents| ==> intents[i] in intents;
  }
}
