/** What the sector alpha proposes, told in its observations, its master and its universe. */
module Leaders {
  import opened Prelude
  import opened Sorting
  import opened Rules
  import opened Beta
  import opened Basket
  import opened Sectors
  import Ranking
  import Training

  /** On a session five-minute mark after the opening, and before the last entry and the flattening. */
  ghost predicate InEntryWindow(ctx: Context) {
    && ctx.session.opening < ctx.at && ctx.at < ctx.session.finalEntry && ctx.at < ctx.session.flatten
    && (ctx.at - ctx.session.opening) % (5 * MINUTE) == 0
  }

  /** The observations of now, by token. */
  ghost predicate AreCurrent(observations: seq<Observation>, at: Instant, selected: seq<Observation>) {
    && (forall o :: multiset(selected)[o] == if o.at == at then multiset(observations)[o] else 0)
    && forall i, j :: 0 <= i < j < |selected| ==> selected[i].token <= selected[j].token
  }

  ghost predicate Differ(ids: seq<Id>) {
    forall i, j :: 0 <= i < j < |ids| ==> ids[i] != ids[j]
  }

  ghost predicate IsListed(master: seq<Instrument>, token: Id) {
    exists i :: i in master && i.token == token
  }

  ghost predicate ListedOnce(master: seq<Instrument>) {
    forall i, j :: 0 <= i < j < |master| ==> master[i].token != master[j].token && master[i].entity != master[j].entity
  }

  /** Each token is observed once, and nothing else is. */
  ghost predicate ObservedOnce(tokens: seq<Id>, selected: seq<Observation>) {
    && (forall i, j :: 0 <= i < j < |selected| ==> selected[i].token != selected[j].token)
    && (forall o :: o in selected ==> o.token in tokens)
    && (forall t :: t in tokens ==> exists o :: o in selected && o.token == t)
  }

  /** Every security of the universe is in the master once and observed once, and nothing else is observed. */
  ghost predicate IsIdentified(ctx: Context, selected: seq<Observation>) {
    && ListedOnce(ctx.master) && Differ(ctx.universe.longTokens)
    && (forall t :: t in ctx.universe.shortTokens ==> t in ctx.universe.longTokens)
    && ObservedOnce(ctx.universe.longTokens, selected)
    && (forall t :: t in ctx.universe.longTokens ==> IsListed(ctx.master, t))
  }

  lemma {:induction false} CurrentCounts(observations: seq<Observation>, at: Instant)
    ensures forall o :: multiset(Current(observations, at))[o] == if o.at == at then multiset(observations)[o] else 0
  {
    if observations != [] {
      var n := |observations| - 1;
      assert observations == observations[..n] + [observations[n]];
      CurrentCounts(observations[..n], at);
    }
  }

  lemma SelectedMeaning(observations: seq<Observation>, at: Instant)
    ensures AreCurrent(observations, at, SelectedOf(observations, at))
  {
    CurrentCounts(observations, at);
    assert TotalPreorder(TokenBefore);
    SortSorts(Current(observations, at), TokenBefore);
    var selected := SelectedOf(observations, at);
    forall i, j | 0 <= i < j < |selected|
      ensures selected[i].token <= selected[j].token
    {
      assert TokenBefore(selected[i], selected[j]);
    }
  }

  ghost predicate KeysApart<T>(s: seq<T>, key: T -> Id) {
    forall i, j :: 0 <= i < j < |s| ==> key(s[i]) != key(s[j])
  }

  lemma KeysStep<T>(s: seq<T>, x: T, key: T -> Id)
    ensures Keys(s + [x], key) == Keys(s, key) + {key(x)}
    ensures KeysApart(s + [x], key) <==> KeysApart(s, key) && key(x) !in Keys(s, key)
  {
    var all := s + [x];
    assert forall i :: 0 <= i < |s| ==> all[i] == s[i];
    assert forall i :: 0 <= i < |all| ==> key(all[i]) in Keys(all, key);
    assert key(all[|s|]) == key(x);
    if KeysApart(all, key) {
      forall i, j | 0 <= i < j < |s|
        ensures key(s[i]) != key(s[j])
      {
        assert key(all[i]) != key(all[j]);
      }
      forall i | 0 <= i < |s|
        ensures key(s[i]) != key(x)
      {
        assert key(all[i]) != key(all[|s|]);
      }
    }
  }

  /** As many keys as elements exactly when no key repeats. */
  lemma {:induction false} KeysMeaning<T>(s: seq<T>, key: T -> Id)
    ensures |Keys(s, key)| == |s| <==> KeysApart(s, key)
  {
    if s != [] {
      var before, x := s[..|s| - 1], s[|s| - 1];
      assert s == before + [x];
      KeysMeaning(before, key);
      KeysAtMost(before, key);
      KeysStep(before, x, key);
    }
  }

  function TokenOf(i: Instrument): Id { i.token }

  lemma {:induction false} MasterKeys(master: seq<Instrument>)
    ensures ByToken(master).Keys == Keys(master, TokenOf)
  {
    if master != [] {
      var before, x := master[..|master| - 1], master[|master| - 1];
      assert master == before + [x];
      MasterKeys(before);
      KeysStep(before, x, TokenOf);
    }
  }

  lemma MasterMeaning(master: seq<Instrument>)
    ensures forall t :: t in ByToken(master) <==> IsListed(master, t)
    ensures |ByToken(master)| == |master| <==> KeysApart(master, TokenOf)
  {
    MasterKeys(master);
    KeysMeaning(master, TokenOf);
    assert |ByToken(master)| == |ByToken(master).Keys|;
    forall t | IsListed(master, t)
      ensures t in ByToken(master)
    {
      var i :| i in master && i.token == t;
      var k :| 0 <= k < |master| && master[k] == i;
      assert TokenOf(master[k]) in Keys(master, TokenOf);
    }
  }

  lemma ItselfKeys(ts: seq<Id>)
    ensures forall t :: t in Keys(ts, Itself) <==> t in ts
    ensures KeysApart(ts, Itself) <==> Differ(ts)
  {
    forall t | t in ts
      ensures t in Keys(ts, Itself)
    {
      var i :| 0 <= i < |ts| && ts[i] == t;
      assert Itself(ts[i]) in Keys(ts, Itself);
    }
  }

  lemma ObservedKeys(os: seq<Observation>)
    ensures forall t :: t in Keys(os, ObservedToken) <==> exists o :: o in os && o.token == t
  {
    forall t | exists o :: o in os && o.token == t
      ensures t in Keys(os, ObservedToken)
    {
      var o :| o in os && o.token == t;
      var i :| 0 <= i < |os| && os[i] == o;
      assert ObservedToken(os[i]) in Keys(os, ObservedToken);
    }
  }

  lemma ListedOnceMeaning(master: seq<Instrument>)
    ensures |ByToken(master)| == |master| && |Keys(master, InstrumentEntity)| == |master| <==> ListedOnce(master)
  {
    MasterMeaning(master);
    KeysMeaning(master, InstrumentEntity);
  }

  lemma ObservedOnceMeaning(tokens: seq<Id>, selected: seq<Observation>)
    ensures Keys(selected, ObservedToken) == Keys(tokens, Itself) && |selected| == |Keys(tokens, Itself)| <==> ObservedOnce(tokens, selected)
  {
    ItselfKeys(tokens);
    ObservedKeys(selected);
    KeysMeaning(selected, ObservedToken);
    assert KeysApart(selected, ObservedToken) <==> forall i, j :: 0 <= i < j < |selected| ==> selected[i].token != selected[j].token;
    if ObservedOnce(tokens, selected) {
      assert Keys(selected, ObservedToken) == Keys(tokens, Itself);
    }
    if Keys(selected, ObservedToken) == Keys(tokens, Itself) {
      forall o | o in selected
        ensures o.token in tokens
      {
        assert o.token in Keys(selected, ObservedToken);
      }
      forall t | t in tokens
        ensures exists o :: o in selected && o.token == t
      {
        assert t in Keys(tokens, Itself);
      }
    }
  }

  lemma UniverseMeaning(ctx: Context)
    ensures |Keys(ctx.universe.longTokens, Itself)| == |ctx.universe.longTokens| <==> Differ(ctx.universe.longTokens)
    ensures Keys(ctx.universe.shortTokens, Itself) <= Keys(ctx.universe.longTokens, Itself) <==>
            forall t :: t in ctx.universe.shortTokens ==> t in ctx.universe.longTokens
    ensures Keys(ctx.universe.longTokens, Itself) <= ByToken(ctx.master).Keys <==>
            forall t :: t in ctx.universe.longTokens ==> IsListed(ctx.master, t)
  {
    ItselfKeys(ctx.universe.longTokens);
    ItselfKeys(ctx.universe.shortTokens);
    KeysMeaning(ctx.universe.longTokens, Itself);
    MasterMeaning(ctx.master);
  }

  lemma UnambiguousMeaning(ctx: Context, selected: seq<Observation>)
    ensures Unambiguous(ctx, selected) <==> IsIdentified(ctx, selected)
  {
    ListedOnceMeaning(ctx.master);
    UniverseMeaning(ctx);
    ObservedOnceMeaning(ctx.universe.longTokens, selected);
  }

  /** The instrument of an observation may be traded: eligible, held by nobody, past every gate. */
  ghost predicate IsTradable(ctx: Context, o: Observation, i: Instrument) {
    i in ctx.master && i.token == o.token && i.eligible && i.entity !in ctx.reserved && o.gate == None
  }

  /** The candidate an observation makes. */
  ghost predicate IsSecurity(ctx: Context, o: Observation, i: Instrument, c: Security) {
    && IsTradable(ctx, o, i) && ctx.estimator(o) == Ok(c.beta)
    && c.instrument == i.token && c.entity == i.entity && c.sector == i.sector
    && c.strength == ctx.cfg.sectorResidualWeight * o.sectorResidual + (1.0 - ctx.cfg.sectorResidualWeight) * o.marketResidual
    && (c.shortable <==> i.token in ctx.universe.shortTokens && i.futures)
  }

  /** Why an observation makes none. */
  ghost predicate IsLeftOut(ctx: Context, o: Observation, i: Instrument, reason: Reason) {
    && i in ctx.master && i.token == o.token
    && if !i.eligible then reason == InstrumentIneligible
       else if i.entity in ctx.reserved then reason == InventoryOverlap
       else if o.gate != None then reason == Gated(o.gate.value)
       else ctx.estimator(o).Err? && reason == BetaRefused(ctx.estimator(o).error)
  }

  lemma EstimatorIs(o: Observation, fitter: Fitter, at: Instant, opening: Instant, count: nat)
    requires count > 0
    ensures EstimatorFor(fitter, at, opening, count)(o) == EstimateBeta(o.history, o.stock, o.market, at, opening, count, fitter)
  {
  }

  /** The estimator in use estimates from the observation's own history of its own stock and market. */
  lemma EstimatorMeaning(
      o: Observation, at: Instant, opening: Instant, count: nat, cfg: RelativeValueSettings, fitter: Fitter,
      e: Result<BetaEstimate, BetaError>)
      returns (s: Training.Sample)
    requires cfg.Valid() && count > 0 && fitter == ReturnFitter(cfg) && e == EstimatorFor(fitter, at, opening, count)(o)
    ensures Training.IsEstimate(o.history, o.stock, o.market, at, opening, count, cfg, s, e)
  {
    EstimatorIs(o, fitter, at, opening, count);
    s := EstimatedFrom(o.history, o.stock, o.market, at, opening, count, cfg, e);
  }

  lemma EstimatedFrom(
      history: seq<BetaObservation>, stock: Ref, market: Ref, at: Instant, opening: Instant, count: nat,
      cfg: RelativeValueSettings, e: Result<BetaEstimate, BetaError>)
      returns (s: Training.Sample)
    requires cfg.Valid() && count > 0 && e == EstimateBeta(history, stock, market, at, opening, count, ReturnFitter(cfg))
    ensures Training.IsEstimate(history, stock, market, at, opening, count, cfg, s, e)
  {
    s := Training.EstimateMeaning(history, stock, market, at, opening, count, cfg);
  }

  lemma JudgeMeaning(ctx: Context, o: Observation)
    requires ctx.cfg.Valid() && o.token in ByToken(ctx.master)
    ensures var i := ByToken(ctx.master)[o.token];
            && (Judge(ctx, o).Ok? ==> IsSecurity(ctx, o, i, Judge(ctx, o).value))
            && (Judge(ctx, o).Err? ==> IsLeftOut(ctx, o, i, Judge(ctx, o).error))
  {
  }

  ghost predicate HasObservation(ctx: Context, os: seq<Observation>, c: Security) {
    exists o, i :: o in os && IsSecurity(ctx, o, i, c)
  }

  /** An observation makes a candidate or a report with the reason. */
  ghost predicate IsHandled(ctx: Context, o: Observation, candidates: seq<Security>, reports: seq<Report>) {
    || (exists i, c :: c in candidates && IsSecurity(ctx, o, i, c))
    || (exists i, reason :: OnInstrument(o.token, reason) in reports && IsLeftOut(ctx, o, i, reason))
  }

  lemma {:induction false} CandidatesMeaning(ctx: Context, os: seq<Observation>)
    requires ctx.cfg.Valid() && AllListed(ctx, os)
    ensures forall c :: c in CandidatesOf(ctx, os) ==> HasObservation(ctx, os, c)
    ensures forall o :: o in os ==> IsHandled(ctx, o, CandidatesOf(ctx, os), RefusalsOf(ctx, os))
    ensures |CandidatesOf(ctx, os)| + |RefusalsOf(ctx, os)| == |os|
  {
    if os != [] {
      var before, o := os[..|os| - 1], os[|os| - 1];
      assert os == before + [o];
      CandidatesMeaning(ctx, before);
      JudgeMeaning(ctx, o);
      HandleStep(ctx, before, o);
    }
  }

  lemma HandleStep(ctx: Context, before: seq<Observation>, o: Observation)
    requires ctx.cfg.Valid() && AllListed(ctx, before) && o.token in ByToken(ctx.master) && AllListed(ctx, before + [o])
    requires forall c :: c in CandidatesOf(ctx, before) ==> HasObservation(ctx, before, c)
    requires forall p :: p in before ==> IsHandled(ctx, p, CandidatesOf(ctx, before), RefusalsOf(ctx, before))
    ensures forall c :: c in CandidatesOf(ctx, before + [o]) ==> HasObservation(ctx, before + [o], c)
    ensures forall p :: p in before + [o] ==> IsHandled(ctx, p, CandidatesOf(ctx, before + [o]), RefusalsOf(ctx, before + [o]))
  {
    var os := before + [o];
    assert os[..|os| - 1] == before;
    JudgeMeaning(ctx, o);
    var i := ByToken(ctx.master)[o.token];
    forall c | c in CandidatesOf(ctx, os)
      ensures HasObservation(ctx, os, c)
    {
      if c in CandidatesOf(ctx, before) {
        var p, k :| p in before && IsSecurity(ctx, p, k, c);
        assert p in os;
      } else {
        assert o in os && IsSecurity(ctx, o, i, c);
      }
    }
    forall p | p in os
      ensures IsHandled(ctx, p, CandidatesOf(ctx, os), RefusalsOf(ctx, os))
    {
      if p in before {
        KeptHandled(ctx, p, CandidatesOf(ctx, before), RefusalsOf(ctx, before), CandidatesOf(ctx, os), RefusalsOf(ctx, os));
      } else if Judge(ctx, o).Ok? {
        assert Judge(ctx, o).value in CandidatesOf(ctx, os) && IsSecurity(ctx, o, i, Judge(ctx, o).value);
      } else {
        assert OnInstrument(o.token, Judge(ctx, o).error) in RefusalsOf(ctx, os) && IsLeftOut(ctx, o, i, Judge(ctx, o).error);
      }
    }
  }

  lemma KeptHandled(
      ctx: Context, o: Observation, cs: seq<Security>, rs: seq<Report>, cs': seq<Security>, rs': seq<Report>)
    requires IsHandled(ctx, o, cs, rs) && (forall c :: c in cs ==> c in cs') && (forall r :: r in rs ==> r in rs')
    ensures IsHandled(ctx, o, cs', rs')
  {
    if i, c :| c in cs && IsSecurity(ctx, o, i, c) {
      assert c in cs';
    } else {
      var i, reason :| OnInstrument(o.token, reason) in rs && IsLeftOut(ctx, o, i, reason);
      assert OnInstrument(o.token, reason) in rs';
    }
  }

  ghost predicate IsGroup(candidates: seq<Security>, sector: Id, group: seq<Security>) {
    forall c :: multiset(group)[c] == if c.sector == sector then multiset(candidates)[c] else 0
  }

  ghost function Weaker(group: seq<Security>, x: real): set<int> {
    set i | 0 <= i < |group| && group[i].strength < x
  }

  ghost function Level(group: seq<Security>, x: real): set<int> {
    set i | 0 <= i < |group| && group[i].strength == x
  }

  /** The share of the group that is weaker, with half of those level with it. */
  ghost predicate IsRank(group: seq<Security>, x: real, rank: real) {
    rank * |group| as real == |Weaker(group, x)| as real + |Level(group, x)| as real / 2.0
  }

  /** The group with the rank of each filled in. */
  ghost predicate IsRanked(group: seq<Security>, ranked: seq<Security>) {
    && |ranked| == |group|
    && forall i :: 0 <= i < |group| ==> ranked[i] == group[i].(percentile := ranked[i].percentile) && IsRank(group, group[i].strength, ranked[i].percentile)
  }

  /** Strong enough to lead, or weak enough to lag and fit to be sold short. */
  ghost predicate MaySide(cfg: RelativeValueSettings, side: Side, c: Security) {
    if side == Long then c.percentile >= 1.0 - cfg.tailFraction else c.percentile <= cfg.tailFraction && c.shortable
  }

  ghost predicate Ahead(side: Side, c: Security, d: Security) {
    || (side == Long && c.strength > d.strength) || (side == Short && c.strength < d.strength)
    || (c.strength == d.strength && c.entity <= d.entity)
  }

  ghost function Size(cfg: RelativeValueSettings): nat {
    if cfg.pair then 1 else cfg.membersPerSide
  }

  /** The furthest ahead of those who may take the side, in order, as many as it takes if there are as many. */
  ghost predicate IsSide(cfg: RelativeValueSettings, ranked: seq<Security>, side: Side, chosen: seq<Security>) {
    && |chosen| <= Size(cfg)
    && (forall c :: c in chosen ==> c in ranked && MaySide(cfg, side, c))
    && (forall i, j :: 0 <= i < j < |chosen| ==> chosen[i] != chosen[j] && Ahead(side, chosen[i], chosen[j]))
    && (forall d :: d in ranked && MaySide(cfg, side, d) && d !in chosen ==>
          |chosen| == Size(cfg) && forall c :: c in chosen ==> Ahead(side, c, d))
  }

  /** Some leader is not stronger than some laggard by the gap. */
  ghost predicate TooClose(leaders: seq<Security>, laggards: seq<Security>, gap: real) {
    exists c, d :: c in leaders && d in laggards && c.strength - d.strength < gap
  }

  ghost predicate IsMeanBeta(members: seq<Security>, beta: real) {
    beta * |members| as real == Sum(seq(|members|, i requires 0 <= i < |members| => members[i].beta.beta))
  }

  lemma {:induction false} GroupMeaning(candidates: seq<Security>, sector: Id)
    ensures IsGroup(candidates, sector, OfSector(candidates, sector))
  {
    if candidates != [] {
      var n := |candidates| - 1;
      assert candidates == candidates[..n] + [candidates[n]];
      GroupMeaning(candidates[..n], sector);
    }
  }

  lemma RankMeaning(group: seq<Security>, x: real)
    requires group != []
    ensures IsRank(group, x, Ranking.Percentile(Strengths(group), x))
  {
    var vs := Strengths(group);
    Ranking.PercentileMeaning(vs, x);
    assert Ranking.Below(vs, x) == Weaker(group, x);
    assert Ranking.Ties(vs, x) == Level(group, x);
  }

  lemma RankedMeaning(group: seq<Security>)
    requires group != []
    ensures IsRanked(group, Ranked(group))
  {
    forall i | 0 <= i < |group|
      ensures IsRank(group, group[i].strength, Ranked(group)[i].percentile)
    {
      RankMeaning(group, group[i].strength);
    }
  }

  lemma SideMeaning(cfg: RelativeValueSettings, ranked: seq<Security>, side: Side)
    requires Distinct(ranked)
    ensures IsSide(cfg, ranked, side, Chosen(ranked, side, cfg))
  {
    var chosen := Chosen(ranked, side, cfg);
    ChosenFacts(ranked, side, cfg);
    forall c
      ensures InTail(side, cfg.tailFraction, c) <==> MaySide(cfg, side, c)
    {
    }
    forall c, d | First(side)(c, d)
      ensures Ahead(side, c, d)
    {
    }
    if |chosen| < Size(cfg) {
      ShortSide(cfg, ranked, side);
    }
  }

  /** A side that is not full holds everybody who may take it. */
  lemma ShortSide(cfg: RelativeValueSettings, ranked: seq<Security>, side: Side)
    requires |Chosen(ranked, side, cfg)| < Size(cfg)
    ensures forall c :: c in ranked && InTail(side, cfg.tailFraction, c) ==> c in Chosen(ranked, side, cfg)
  {
    TailMembers(ranked, side, cfg.tailFraction);
    SortMembers(Tail(ranked, side, cfg.tailFraction), First(side));
  }

  lemma {:induction false} BetaSumMeaning(members: seq<Security>)
    ensures BetaSum(members) == Sum(seq(|members|, i requires 0 <= i < |members| => members[i].beta.beta))
  {
    if members != [] {
      var n := |members| - 1;
      BetaSumMeaning(members[..n]);
      var all := seq(|members|, i requires 0 <= i < |members| => members[i].beta.beta);
      assert all[..n] == seq(n, i requires 0 <= i < n => members[..n][i].beta.beta);
    }
  }

  lemma MeanBetaMeaning(members: seq<Security>)
    requires members != []
    ensures IsMeanBeta(members, MeanBeta(members))
  {
    BetaSumMeaning(members);
    Quotient(BetaSum(members), |members| as real, MeanBeta(members));
  }

  lemma Quotient(x: real, d: real, q: real)
    requires d != 0.0 && q == x / d
    ensures q * d == x
  {
  }

  lemma {:induction false} ExtremesReached(cs: seq<Security>)
    requires cs != []
    ensures (exists c :: c in cs && c.strength == MinStrength(cs)) && (exists c :: c in cs && c.strength == MaxStrength(cs))
  {
    var n := |cs| - 1;
    assert cs[n] in cs;
    if n > 0 {
      ExtremesReached(cs[..n]);
      assert cs == cs[..n] + [cs[n]];
      var c :| c in cs[..n] && c.strength == MinStrength(cs[..n]);
      var d :| d in cs[..n] && d.strength == MaxStrength(cs[..n]);
      assert c in cs && d in cs;
    }
  }

  lemma CloseMeaning(leaders: seq<Security>, laggards: seq<Security>, gap: real)
    requires leaders != [] && laggards != []
    ensures TooClose(leaders, laggards, gap) <==> MinStrength(leaders) - MaxStrength(laggards) < gap
  {
    ExtremesReached(leaders);
    ExtremesReached(laggards);
    if c, d :| c in leaders && d in laggards && c.strength - d.strength < gap {
      var i :| 0 <= i < |leaders| && leaders[i] == c;
      var j :| 0 <= j < |laggards| && laggards[j] == d;
      MinStrengthBound(leaders, i);
      MaxStrengthBound(laggards, j);
    }
  }

  ghost predicate IsLeg(x: Leg, c: Security, side: Side, sector: Id, n: nat, weight: real) {
    && x.entity == c.entity && x.instrument == c.instrument && x.sector == sector && x.side == side
    && x.strength == c.strength && x.percentile == c.percentile && x.beta == c.beta
    && x.fraction * n as real == weight
  }

  /** Unit gross, both sides positive, and no beta left. */
  ghost predicate AreWeights(w: Weights, longBeta: real, shortBeta: real) {
    w.long > 0.0 && w.short > 0.0 && w.long + w.short == 1.0 && w.long * longBeta == w.short * shortBeta
  }

  ghost predicate IsRatio(ratio: real, w: Weights) {
    ratio * w.long == w.short
  }

  /** Each side shares its weight equally among its members. */
  ghost predicate AreLegs(m: Match, n: nat, sector: Id, legs: seq<Leg>) {
    && |legs| == 2 * n && |m.leaders| == |m.laggards| == n
    && (forall k :: 0 <= k < n ==> IsLeg(legs[k], m.leaders[k], Long, sector, n, m.weights.long))
    && (forall k :: 0 <= k < n ==> IsLeg(legs[n + k], m.laggards[k], Short, sector, n, m.weights.short))
  }

  ghost predicate IsBasket(
      cfg: RelativeValueSettings, m: Match, sector: Id, at: Instant, flatten: Instant, it: Intent) {
    && AreWeights(m.weights, m.longBeta, m.shortBeta) && AreLegs(m, Size(cfg), sector, it.legs)
    && it.at == at && it.sector == sector && it.flattenBy == flatten && it.settings == cfg && it.maxLegLag == cfg.maxLegLag
    && it.longBeta == m.longBeta && it.shortBeta == m.shortBeta
    && IsRatio(it.hedgeRatio, m.weights) && it.signedNet == m.weights.long - m.weights.short && it.signedBeta == 0.0
  }

  /** The figures the outcome of a sector rests on. */
  datatype Match = Match(
    group: seq<Security>, ranked: seq<Security>, leaders: seq<Security>, laggards: seq<Security>, longBeta: real, shortBeta: real, weights: Weights)

  /** Neutral weights would leave too much net exposure. */
  ghost predicate TooFar(cfg: RelativeValueSettings, longBeta: real, shortBeta: real) {
    var most := (cfg.maxNetGross + TOLERANCE) * (longBeta + shortBeta);
    longBeta - shortBeta > most || shortBeta - longBeta > most
  }

  /** What a sector comes to: too few, no two sides far enough apart, betas too far apart, or a basket. */
  ghost predicate IsOutcome(
      cfg: RelativeValueSettings, candidates: seq<Security>, sector: Id, at: Instant, flatten: Instant, m: Match,
      r: Result<Intent, Reason>)
  {
    && IsGroup(candidates, sector, m.group)
    && if |m.group| < cfg.minimumSectorSize then r == Err(SectorWarmup)
       else
         && IsRanked(m.group, m.ranked) && IsSide(cfg, m.ranked, Long, m.leaders) && IsSide(cfg, m.ranked, Short, m.laggards)
         && if |m.leaders| < Size(cfg) || |m.laggards| < Size(cfg) || TooClose(m.leaders, m.laggards, cfg.minResidualGap) then
              r == Err(TailsOrGapInsufficient)
            else
              && IsMeanBeta(m.leaders, m.longBeta) && IsMeanBeta(m.laggards, m.shortBeta)
              && if TooFar(cfg, m.longBeta, m.shortBeta) then r == Err(BetaRefused(NetInfeasible))
                 else r.Ok? && IsBasket(cfg, m, sector, at, flatten, r.value)
  }

  lemma LegMeaning(members: seq<Security>, side: Side, weight: real, n: nat, sector: Id, k: nat)
    requires n > 0 && k < |members|
    ensures IsLeg(LegsOf(members, side, weight / n as real, sector)[k], members[k], side, sector, n, weight)
  {
    Quotient(weight, n as real, weight / n as real);
  }

  lemma LegsMeaning(m: Match, n: nat, sector: Id)
    requires n > 0 && |m.leaders| == |m.laggards| == n
    ensures AreLegs(m, n, sector, LegsOf(m.leaders, Long, m.weights.long / n as real, sector) + LegsOf(m.laggards, Short, m.weights.short / n as real, sector))
  {
    forall k | 0 <= k < n
      ensures IsLeg(LegsOf(m.leaders, Long, m.weights.long / n as real, sector)[k], m.leaders[k], Long, sector, n, m.weights.long)
      ensures IsLeg(LegsOf(m.laggards, Short, m.weights.short / n as real, sector)[k], m.laggards[k], Short, sector, n, m.weights.short)
    {
      LegMeaning(m.leaders, Long, m.weights.long, n, sector, k);
      LegMeaning(m.laggards, Short, m.weights.short, n, sector, k);
    }
  }

  lemma WeightsMeaning(w: Weights, longBeta: real, shortBeta: real)
    requires Neutral(w, longBeta, shortBeta)
    ensures AreWeights(w, longBeta, shortBeta) && IsRatio(w.short / w.long, w)
    ensures Times(w.long, longBeta) - Times(w.short, shortBeta) == 0.0
  {
    Quotient(w.short, w.long, w.short / w.long);
  }

  /** The fields of an assembled basket. */
  lemma Assembled(
      leaders: seq<Security>, laggards: seq<Security>, w: Weights, sector: Id, at: Instant, flatten: Instant,
      cfg: RelativeValueSettings, n: nat)
    requires cfg.Valid() && leaders != [] && laggards != [] && w.long > 0.0 && n == SideSize(cfg)
    ensures var it := Assemble(leaders, laggards, w, sector, at, flatten, cfg);
            && it.legs == LegsOf(leaders, Long, w.long / n as real, sector) + LegsOf(laggards, Short, w.short / n as real, sector)
            && it.at == at && it.sector == sector && it.flattenBy == flatten && it.settings == cfg && it.maxLegLag == cfg.maxLegLag
            && it.longBeta == MeanBeta(leaders) && it.shortBeta == MeanBeta(laggards)
            && it.hedgeRatio == w.short / w.long && it.signedNet == w.long - w.short
            && it.signedBeta == Times(w.long, it.longBeta) - Times(w.short, it.shortBeta)
  {
  }

  lemma BasketMeaning(cfg: RelativeValueSettings, m: Match, sector: Id, at: Instant, flatten: Instant, it: Intent)
    requires cfg.Valid() && |m.leaders| == |m.laggards| == SideSize(cfg)
    requires m.longBeta == MeanBeta(m.leaders) && m.shortBeta == MeanBeta(m.laggards)
    requires Neutral(m.weights, m.longBeta, m.shortBeta)
    requires it == Assemble(m.leaders, m.laggards, m.weights, sector, at, flatten, cfg)
    ensures IsBasket(cfg, m, sector, at, flatten, it)
  {
    LegsMeaning(m, SideSize(cfg), sector);
    WeightsMeaning(m.weights, m.longBeta, m.shortBeta);
    Assembled(m.leaders, m.laggards, m.weights, sector, at, flatten, cfg, SideSize(cfg));
  }

  lemma FarMeaning(cfg: RelativeValueSettings, longBeta: real, shortBeta: real)
    ensures TooFar(cfg, longBeta, shortBeta) <==> Abs(longBeta - shortBeta) > Times(cfg.maxNetGross + TOLERANCE, longBeta + shortBeta)
  {
  }

  lemma WeighedMeaning(cfg: RelativeValueSettings, longBeta: real, shortBeta: real)
    requires cfg.Valid() && cfg.minBeta <= longBeta <= cfg.maxBeta && cfg.minBeta <= shortBeta <= cfg.maxBeta
    ensures var w := NeutralWeights(longBeta, shortBeta, cfg);
            if TooFar(cfg, longBeta, shortBeta) then w == Err(NetInfeasible) else w.Ok? && Neutral(w.value, longBeta, shortBeta)
  {
    NeutralWeightsCharacterised(longBeta, shortBeta, cfg);
    FarMeaning(cfg, longBeta, shortBeta);
  }

  lemma MatchedMeaning(
      cfg: RelativeValueSettings, m: Match, sector: Id, at: Instant, flatten: Instant, w: Result<Weights, BetaError>,
      r: Result<Intent, Reason>)
      returns (m': Match)
    requires cfg.Valid() && |m.leaders| == |m.laggards| == SideSize(cfg)
    requires m.longBeta == MeanBeta(m.leaders) && m.shortBeta == MeanBeta(m.laggards)
    requires w == NeutralWeights(m.longBeta, m.shortBeta, cfg) && r == BasketOf(cfg, m.leaders, m.laggards, sector, at, flatten)
    requires if TooFar(cfg, m.longBeta, m.shortBeta) then w == Err(NetInfeasible) else w.Ok? && Neutral(w.value, m.longBeta, m.shortBeta)
    ensures m' == m.(weights := m'.weights)
    ensures if TooFar(cfg, m.longBeta, m.shortBeta) then r == Err(BetaRefused(NetInfeasible))
            else r.Ok? && IsBasket(cfg, m', sector, at, flatten, r.value)
  {
    m' := m;
    if w.Ok? {
      m' := m.(weights := w.value);
      BasketMeaning(cfg, m', sector, at, flatten, r.value);
    }
  }

  /** How the outcome of a sector follows from its two sides. */
  lemma OutcomeSteps(
      cfg: RelativeValueSettings, candidates: seq<Security>, sector: Id, at: Instant, flatten: Instant, m: Match)
    requires cfg.Valid() && m.group == OfSector(candidates, sector) && |m.group| >= cfg.minimumSectorSize && m.ranked == Ranked(m.group)
    requires m.leaders == Chosen(m.ranked, Long, cfg) && m.laggards == Chosen(m.ranked, Short, cfg)
    ensures var r := SectorOutcome(cfg, candidates, sector, at, flatten);
            r == if |m.leaders| != SideSize(cfg) || |m.laggards| != SideSize(cfg)
                    || MinStrength(m.leaders) - MaxStrength(m.laggards) < cfg.minResidualGap then Err(TailsOrGapInsufficient)
                 else BasketOf(cfg, m.leaders, m.laggards, sector, at, flatten)
  {
  }

  lemma OutcomeFrom(
      cfg: RelativeValueSettings, candidates: seq<Security>, sector: Id, at: Instant, flatten: Instant, m: Match,
      r: Result<Intent, Reason>)
    requires IsGroup(candidates, sector, m.group) && |m.group| >= cfg.minimumSectorSize
    requires IsRanked(m.group, m.ranked) && IsSide(cfg, m.ranked, Long, m.leaders) && IsSide(cfg, m.ranked, Short, m.laggards)
    requires |m.leaders| < Size(cfg) || |m.laggards| < Size(cfg) ==> r == Err(TailsOrGapInsufficient)
    requires |m.leaders| == |m.laggards| == Size(cfg) ==>
               && (TooClose(m.leaders, m.laggards, cfg.minResidualGap) ==> r == Err(TailsOrGapInsufficient))
               && IsMeanBeta(m.leaders, m.longBeta) && IsMeanBeta(m.laggards, m.shortBeta)
               && (!TooClose(m.leaders, m.laggards, cfg.minResidualGap) ==>
                     if TooFar(cfg, m.longBeta, m.shortBeta) then r == Err(BetaRefused(NetInfeasible))
                     else r.Ok? && IsBasket(cfg, m, sector, at, flatten, r.value))
    ensures IsOutcome(cfg, candidates, sector, at, flatten, m, r)
  {
  }

  /** The sides a sector offers. */
  lemma OfferedSides(cfg: RelativeValueSettings, group: seq<Security>, at: Instant) returns (m: Match)
    requires cfg.Valid() && group != [] && Apart(group) && forall c :: c in group ==> Accepted(c, at, cfg)
    ensures m.group == group && m.ranked == Ranked(group)
    ensures m.leaders == Chosen(m.ranked, Long, cfg) && m.laggards == Chosen(m.ranked, Short, cfg)
    ensures IsRanked(group, m.ranked) && IsSide(cfg, m.ranked, Long, m.leaders) && IsSide(cfg, m.ranked, Short, m.laggards)
    ensures forall c :: c in m.leaders || c in m.laggards ==> Accepted(c, at, cfg)
  {
    var ranked := Ranked(group);
    m := Match(group, ranked, Chosen(ranked, Long, cfg), Chosen(ranked, Short, cfg), 0.0, 0.0, Weights(0.0, 0.0));
    RankedMeaning(group);
    RankedFacts(group, cfg, at);
    SideMeaning(cfg, ranked, Long);
    SideMeaning(cfg, ranked, Short);
  }

  /** The outcome of every sector of accepted candidates, with the figures it rests on. */
  lemma OutcomeMeaning(
      cfg: RelativeValueSettings, candidates: seq<Security>, sector: Id, at: Instant,
      flatten: Instant) returns (m: Match)
    requires cfg.Valid() && Apart(candidates) && forall c :: c in candidates ==> Accepted(c, at, cfg)
    ensures IsOutcome(cfg, candidates, sector, at, flatten, m, SectorOutcome(cfg, candidates, sector, at, flatten))
  {
    var group := OfSector(candidates, sector);
    GroupMeaning(candidates, sector);
    SectorMembers(candidates, sector);
    if |group| < cfg.minimumSectorSize {
      m := Match(group, [], [], [], 0.0, 0.0, Weights(0.0, 0.0));
    } else {
      m := OfferedSides(cfg, group, at);
      OutcomeSteps(cfg, candidates, sector, at, flatten, m);
      if |m.leaders| == |m.laggards| == SideSize(cfg) {
        m := SidesMeaning(cfg, m, sector, at, flatten);
      }
      OutcomeFrom(cfg, candidates, sector, at, flatten, m, SectorOutcome(cfg, candidates, sector, at, flatten));
    }
  }

  lemma SidesMeaning(
      cfg: RelativeValueSettings, m: Match, sector: Id, at: Instant, flatten: Instant) returns (m': Match)
    requires cfg.Valid() && |m.leaders| == |m.laggards| == SideSize(cfg)
    requires forall c :: c in m.leaders || c in m.laggards ==> Accepted(c, at, cfg)
    ensures m' == m.(longBeta := m'.longBeta, shortBeta := m'.shortBeta, weights := m'.weights)
    ensures IsMeanBeta(m.leaders, m'.longBeta) && IsMeanBeta(m.laggards, m'.shortBeta)
    ensures TooClose(m.leaders, m.laggards, cfg.minResidualGap) <==> MinStrength(m.leaders) - MaxStrength(m.laggards) < cfg.minResidualGap
    ensures var r := BasketOf(cfg, m.leaders, m.laggards, sector, at, flatten);
            if TooFar(cfg, m'.longBeta, m'.shortBeta) then r == Err(BetaRefused(NetInfeasible))
            else r.Ok? && IsBasket(cfg, m', sector, at, flatten, r.value)
  {
    CloseMeaning(m.leaders, m.laggards, cfg.minResidualGap);
    MeanBetaMeaning(m.leaders);
    MeanBetaMeaning(m.laggards);
    MeanBetaInRange(m.leaders, cfg);
    MeanBetaInRange(m.laggards, cfg);
    var lb, sb := MeanBeta(m.leaders), MeanBeta(m.laggards);
    WeighedMeaning(cfg, lb, sb);
    m' := MatchedMeaning(cfg, m.(longBeta := lb, shortBeta := sb), sector, at, flatten, NeutralWeights(lb, sb, cfg),
                         BasketOf(cfg, m.leaders, m.laggards, sector, at, flatten));
  }

  lemma EntryMeaning(ctx: Context)
    ensures EntryOpen(ctx) <==> InEntryWindow(ctx)
  {
  }

  ghost predicate HasIntent(ctx: Context, candidates: seq<Security>, sectors: seq<Id>, it: Intent)
    requires ctx.cfg.Valid()
  {
    exists k :: 0 <= k < |sectors| && SectorOutcome(ctx.cfg, candidates, sectors[k], ctx.at, ctx.session.flatten) == Ok(it)
  }

  /** A sector makes a basket or a report. */
  ghost predicate IsSettled(
      ctx: Context, candidates: seq<Security>, sector: Id, intents: seq<Intent>, reports: seq<Report>)
    requires ctx.cfg.Valid()
  {
    var r := SectorOutcome(ctx.cfg, candidates, sector, ctx.at, ctx.session.flatten);
    if r.Ok? then r.value in intents else OnSector(sector, r.error) in reports
  }

  ghost predicate AllSettled(
      ctx: Context, candidates: seq<Security>, sectors: seq<Id>, intents: seq<Intent>, reports: seq<Report>)
    requires ctx.cfg.Valid()
  {
    forall k :: 0 <= k < |sectors| ==> IsSettled(ctx, candidates, sectors[k], intents, reports)
  }

  ghost predicate AllIntents(ctx: Context, candidates: seq<Security>, sectors: seq<Id>, intents: seq<Intent>)
    requires ctx.cfg.Valid()
  {
    forall it :: it in intents ==> HasIntent(ctx, candidates, sectors, it)
  }

  lemma {:induction false} IntentsMeaning(ctx: Context, candidates: seq<Security>, sectors: seq<Id>)
    requires ctx.cfg.Valid()
    ensures AllIntents(ctx, candidates, sectors, IntentsOf(ctx, candidates, sectors))
    ensures AllSettled(ctx, candidates, sectors, IntentsOf(ctx, candidates, sectors), SectorReports(ctx, candidates, sectors))
    ensures |IntentsOf(ctx, candidates, sectors)| + |SectorReports(ctx, candidates, sectors)| == |sectors|
  {
    if sectors != [] {
      var before, sector := sectors[..|sectors| - 1], sectors[|sectors| - 1];
      assert sectors == before + [sector];
      IntentsMeaning(ctx, candidates, before);
      SettleStep(ctx, candidates, before, sector, IntentsOf(ctx, candidates, before), SectorReports(ctx, candidates, before),
                 SectorOutcome(ctx.cfg, candidates, sector, ctx.at, ctx.session.flatten));
    }
  }

  lemma SettleStep(
      ctx: Context, candidates: seq<Security>, before: seq<Id>, sector: Id, intents: seq<Intent>, reports: seq<Report>,
      r: Result<Intent, Reason>)
    requires ctx.cfg.Valid() && r == SectorOutcome(ctx.cfg, candidates, sector, ctx.at, ctx.session.flatten)
    requires AllIntents(ctx, candidates, before, intents) && AllSettled(ctx, candidates, before, intents, reports)
    ensures var intents', reports' := if r.Ok? then intents + [r.value] else intents, if r.Ok? then reports else reports + [OnSector(sector, r.error)];
            AllIntents(ctx, candidates, before + [sector], intents') && AllSettled(ctx, candidates, before + [sector], intents', reports')
  {
    var sectors := before + [sector];
    assert sectors[|before|] == sector && forall k :: 0 <= k < |before| ==> sectors[k] == before[k];
    forall it | it in intents
      ensures HasIntent(ctx, candidates, sectors, it)
    {
      var k :| 0 <= k < |before| && SectorOutcome(ctx.cfg, candidates, before[k], ctx.at, ctx.session.flatten) == Ok(it);
      assert sectors[k] == before[k];
    }
    forall k | 0 <= k < |before|
      ensures IsSettled(ctx, candidates, sectors[k], if r.Ok? then intents + [r.value] else intents, if r.Ok? then reports else reports + [OnSector(sector, r.error)])
    {
      assert IsSettled(ctx, candidates, before[k], intents, reports);
    }
    assert r.Ok? ==> SectorOutcome(ctx.cfg, candidates, sectors[|before|], ctx.at, ctx.session.flatten) == Ok(r.value);
  }

  /** The leg trades an observed security that may be traded, at its blended strength and its own beta. */
  ghost predicate IsTrade(ctx: Context, selected: seq<Observation>, x: Leg) {
    exists o, i, c :: o in selected && IsSecurity(ctx, o, i, c) && StandsFor(x, c)
  }

  lemma LegIsTrade(ctx: Context, selected: seq<Observation>, candidates: seq<Security>, x: Leg)
    requires HasSource(x, candidates) && forall c :: c in candidates ==> HasObservation(ctx, selected, c)
    ensures IsTrade(ctx, selected, x)
  {
    var c :| c in candidates && StandsFor(x, c);
    var o, i :| o in selected && IsSecurity(ctx, o, i, c);
  }

  /**
   A complete evaluation: each observation makes a candidate or a report with its reason, each sector a basket or a
   report, and no leg trades a security that is ineligible, held elsewhere or gated.
   */
  lemma EvaluationMeaning(
      ctx: Context, selected: seq<Observation>, e: Evaluation) returns (candidates: seq<Security>, sectors: seq<Id>)
    requires ctx.Valid() && IsIdentified(ctx, selected) && AllListed(ctx, selected) && Concludes(ctx, selected, e) && e.status == EvaluationComplete
    ensures (forall c :: c in candidates ==> HasObservation(ctx, selected, c)) && SameMarket(candidates)
    ensures forall o :: o in selected ==> IsHandled(ctx, o, candidates, e.reports)
    ensures Lists(SectorSet(candidates), sectors, IdBefore)
    ensures AllSettled(ctx, candidates, sectors, e.intents, e.reports)
    ensures forall it :: it in e.intents ==> HasIntent(ctx, candidates, sectors, it) && forall x :: x in it.legs ==> IsTrade(ctx, selected, x)
  {
    UnambiguousMeaning(ctx, selected);
    UnambiguousFacts(ctx, selected);
    CandidateFacts(ctx, selected);
    CandidatesMeaning(ctx, selected);
    candidates := CandidatesOf(ctx, selected);
    AcceptedCandidates(ctx, selected, candidates);
    sectors :| ConcludesWith(ctx, selected, e, sectors);
    IntentsMeaning(ctx, candidates, sectors);
    ReportsMeaning(ctx, selected, candidates, sectors, e);
    forall it | it in e.intents
      ensures HasIntent(ctx, candidates, sectors, it) && forall x :: x in it.legs ==> IsTrade(ctx, selected, x)
    {
      IntentIsTrades(ctx, selected, candidates, sectors, it);
    }
  }

  lemma ReportsMeaning(
      ctx: Context, selected: seq<Observation>, candidates: seq<Security>, sectors: seq<Id>, e: Evaluation)
    requires ctx.cfg.Valid() && AllListed(ctx, selected) && candidates == CandidatesOf(ctx, selected) && ConcludesWith(ctx, selected, e, sectors)
    requires forall o :: o in selected ==> IsHandled(ctx, o, candidates, RefusalsOf(ctx, selected))
    requires AllSettled(ctx, candidates, sectors, IntentsOf(ctx, candidates, sectors), SectorReports(ctx, candidates, sectors))
    ensures forall o :: o in selected ==> IsHandled(ctx, o, candidates, e.reports)
    ensures AllSettled(ctx, candidates, sectors, e.intents, e.reports)
  {
    forall o | o in selected
      ensures IsHandled(ctx, o, candidates, e.reports)
    {
      KeptHandled(ctx, o, candidates, RefusalsOf(ctx, selected), candidates, e.reports);
    }
    forall k | 0 <= k < |sectors|
      ensures IsSettled(ctx, candidates, sectors[k], e.intents, e.reports)
    {
      assert IsSettled(ctx, candidates, sectors[k], IntentsOf(ctx, candidates, sectors), SectorReports(ctx, candidates, sectors));
    }
  }

  lemma IntentIsTrades(
      ctx: Context, selected: seq<Observation>, candidates: seq<Security>, sectors: seq<Id>, it: Intent)
    requires ctx.cfg.Valid() && HasIntent(ctx, candidates, sectors, it)
    requires Apart(candidates) && (forall c :: c in candidates ==> Accepted(c, ctx.at, ctx.cfg))
    requires forall c :: c in candidates ==> HasObservation(ctx, selected, c)
    ensures forall x :: x in it.legs ==> IsTrade(ctx, selected, x)
  {
    var k :| 0 <= k < |sectors| && SectorOutcome(ctx.cfg, candidates, sectors[k], ctx.at, ctx.session.flatten) == Ok(it);
    SectorLegs(ctx.cfg, candidates, sectors[k], ctx.at, ctx.session.flatten, it);
    forall x | x in it.legs
      ensures IsTrade(ctx, selected, x)
    {
      LegIsTrade(ctx, selected, candidates, x);
    }
  }
}
