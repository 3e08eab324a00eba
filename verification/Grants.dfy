/** What a run of the router says of its evidence and what it permits, told in the figures of its inputs. */
module Grants {
  import opened Prelude
  import opened Rules
  import opened Router
  import opened RouterRuns

  ghost predicate Known(values: Features, f: Feature) {
    f in values && values[f].Some?
  }

  ghost predicate Over(values: Features, f: Feature, bound: real) {
    Known(values, f) && bound <= values[f].value
  }

  ghost predicate Under(values: Features, f: Feature, bound: real) {
    Known(values, f) && bound >= values[f].value
  }

  /** Within the opening minutes, or in an opening that gaps or is volatile. */
  ghost predicate Shock(cfg: Settings, values: Features, elapsed: int) {
    || elapsed <= cfg.stabilization * SECOND
    || (elapsed <= cfg.shockWindow * SECOND
        && (Over(values, OpeningGap, cfg.openingGap) || Under(values, OpeningGap, -cfg.openingGap) || Volatile(cfg, values)))
  }

  ghost predicate Volatile(cfg: Settings, values: Features) {
    || Over(values, RealizedVolatility, cfg.highRealizedVol)
    || Over(values, RangeVolatility, cfg.highRangeVol)
    || Over(values, VixLevel, cfg.highVix)
  }

  /** Full breadth coverage, and every figure the label rests on. */
  ghost predicate Covered(cfg: Settings, values: Features, elapsed: int) {
    && Known(values, BreadthCoverage) && values[BreadthCoverage].value == 1.0
    && Known(values, RealizedVolatility) && Known(values, RangeVolatility)
    && Known(values, VwapDistance) && Known(values, Slope15m) && Known(values, Slope30m)
    && Known(values, BreadthAdvancing) && Known(values, BreadthDeclining)
    && (elapsed <= cfg.shockWindow * SECOND ==> Known(values, OpeningGap))
  }

  ghost predicate Rising(cfg: Settings, values: Features) {
    && Over(values, VwapDistance, cfg.vwapDistance) && Over(values, Slope15m, cfg.slope15m) && Over(values, Slope30m, cfg.slope30m)
    && Over(values, BreadthAdvancing, cfg.breadthFraction)
  }

  ghost predicate Falling(cfg: Settings, values: Features) {
    && Under(values, VwapDistance, -cfg.vwapDistance) && Under(values, Slope15m, -cfg.slope15m) && Under(values, Slope30m, -cfg.slope30m)
    && Over(values, BreadthDeclining, cfg.breadthFraction)
  }

  ghost predicate Between(values: Features, f: Feature, bound: real) {
    Over(values, f, -bound) && Under(values, f, bound)
  }

  ghost predicate Level(cfg: Settings, values: Features) {
    && Between(values, VwapDistance, cfg.vwapDistance) && Between(values, Slope15m, cfg.slope15m) && Between(values, Slope30m, cfg.slope30m)
    && Under(values, BreadthAdvancing, cfg.breadthFraction) && Under(values, BreadthDeclining, cfg.breadthFraction)
  }

  /** The evidence is for that label, and for no other. */
  ghost predicate Supports(cfg: Settings, values: Features, elapsed: int, ruled: MarketState) {
    var shock, covered, volatile := Shock(cfg, values, elapsed), Covered(cfg, values, elapsed), Volatile(cfg, values);
    var calm := !shock && covered && !volatile;
    match ruled
    case OpenShock => shock
    case HighVol => !shock && covered && volatile
    case TrendUp => calm && Rising(cfg, values)
    case TrendDown => calm && Falling(cfg, values) && !Rising(cfg, values)
    case Chop => calm && Level(cfg, values) && !Rising(cfg, values) && !Falling(cfg, values)
    case RiskOff => !shock && (!covered || (calm && !Rising(cfg, values) && !Falling(cfg, values) && !Level(cfg, values)))
  }

  /** Health and features are good and of now, and the exchange is open. */
  ghost predicate Sound(cfg: Settings, cal: Calendar, i: Input) {
    && i.health.system == Healthy && i.health.risk == Healthy && !i.health.blocksNewEntries
    && i.health.observedAt <= i.at <= i.health.observedAt + cfg.healthMaxAge * SECOND
    && i.snapshot.timestamp <= i.at <= i.snapshot.timestamp + cfg.featureMaxAge * SECOND
    && match cal(i.at)
       case None => false
       case Some((open, close)) => open <= i.snapshot.timestamp && i.at < close
  }

  ghost predicate Labelled(cfg: Settings, cal: Calendar, i: Input, ruled: MarketState) {
    match cal(i.at)
    case None => ruled == RiskOff
    case Some((open, close)) => Supports(cfg, i.snapshot.values, i.at - open, ruled)
  }

  /** A decision is about its input: the label of the evidence, vetoed unless sound, with its reasons. */
  ghost predicate IsAbout(cfg: Settings, cal: Calendar, i: Input, d: Decision, ruled: MarketState) {
    && d.at == i.at && d.featureTime == i.snapshot.timestamp
    && (match cal(i.at) case None => d.sessionOpen == None case Some((open, close)) => d.sessionOpen == Some(open))
    && Labelled(cfg, cal, i, ruled)
    && d.candidate == (if Sound(cfg, cal, i) then ruled else RiskOff)
    && d.reasons == [Rule(ruled)] + (if Sound(cfg, cal, i) then [] else [SafetyVeto])
                    + (if d.state == d.candidate then [] else [TransitionPending])
  }

  lemma ThresholdsMean(values: Features, f: Feature, bound: real)
    ensures Holds(values, f, AtLeast, bound) <==> Over(values, f, bound)
    ensures Holds(values, f, AtMost, bound) <==> Under(values, f, bound)
    ensures Holds(values, f, MagnitudeAtLeast, bound) <==> Over(values, f, bound) || Under(values, f, -bound)
    ensures Holds(values, f, Equal, bound) <==> Known(values, f) && values[f].value == bound
    ensures ValueOf(values, f).Some? <==> Known(values, f)
  {
  }

  lemma VolatileMeans(cfg: Settings, values: Features)
    ensures AnyHigh(values, cfg) <==> Volatile(cfg, values)
  {
    ThresholdsMean(values, RealizedVolatility, cfg.highRealizedVol);
    ThresholdsMean(values, RangeVolatility, cfg.highRangeVol);
    ThresholdsMean(values, VixLevel, cfg.highVix);
  }

  lemma RisingMeans(cfg: Settings, values: Features)
    ensures AllUp(values, cfg) <==> Rising(cfg, values)
    ensures AllDown(values, cfg) <==> Falling(cfg, values)
  {
    ThresholdsMean(values, VwapDistance, cfg.vwapDistance);
    ThresholdsMean(values, Slope15m, cfg.slope15m);
    ThresholdsMean(values, Slope30m, cfg.slope30m);
    ThresholdsMean(values, VwapDistance, -cfg.vwapDistance);
    ThresholdsMean(values, Slope15m, -cfg.slope15m);
    ThresholdsMean(values, Slope30m, -cfg.slope30m);
    ThresholdsMean(values, BreadthAdvancing, cfg.breadthFraction);
    ThresholdsMean(values, BreadthDeclining, cfg.breadthFraction);
  }

  lemma LevelMeans(cfg: Settings, values: Features)
    ensures Balanced(values, cfg) <==> Level(cfg, values)
  {
  }

  lemma CoveredMeans(cfg: Settings, values: Features, elapsed: int)
    ensures Holds(values, BreadthCoverage, Equal, 1.0) && RequiredPresent(values, elapsed <= cfg.shockWindow * SECOND)
            <==> Covered(cfg, values, elapsed)
  {
  }

  /** The classification is the one label the evidence is for. */
  lemma ClassificationMeans(cfg: Settings, values: Features, elapsed: int, ruled: MarketState)
    ensures Classification(values, cfg, elapsed) == ruled <==> Supports(cfg, values, elapsed, ruled)
  {
    ThresholdsMean(values, OpeningGap, cfg.openingGap);
    VolatileMeans(cfg, values);
    RisingMeans(cfg, values);
    LevelMeans(cfg, values);
    CoveredMeans(cfg, values, elapsed);
  }

  lemma SoundMeans(cfg: Settings, cal: Calendar, i: Input)
    ensures Safe(cfg, i) && InSession(cal, i) <==> Sound(cfg, cal, i)
  {
  }

  lemma DecideIsAbout(cfg: Settings, cal: Calendar, m: Memory, i: Input)
    ensures IsAbout(cfg, cal, i, Decide(cfg, cal, m, i), RuleState(cfg, cal, i))
  {
    SoundMeans(cfg, cal, i);
    if cal(i.at).Some? {
      ClassificationMeans(cfg, i.snapshot.values, i.at - cal(i.at).value.0, RuleState(cfg, cal, i));
    }
  }

  /** Every decision of every run is about one of the inputs. */
  lemma {:induction false} EveryDecisionHasEvidence(cfg: Settings, cal: Calendar, inputs: seq<Input>, k: nat)
      returns (n: nat, ruled: MarketState)
    requires k < |Decisions(cfg, cal, inputs)|
    ensures n < |inputs| && IsAbout(cfg, cal, inputs[n], Decisions(cfg, cal, inputs)[k], ruled)
  {
    n := |inputs| - 1;
    var before := inputs[..n];
    if k < |Decisions(cfg, cal, before)| {
      n, ruled := EveryDecisionHasEvidence(cfg, cal, before, k);
    } else {
      ruled := RuleState(cfg, cal, inputs[n]);
      DecideIsAbout(cfg, cal, After(cfg, cal, before), inputs[n]);
    }
  }

  ghost predicate Blocked(s: MarketState) {
    s == RiskOff || s == OpenShock
  }

  /** The trend families need their trend, the reverting ones chop; only relative value may run in any open market. */
  ghost predicate MayRun(f: AlphaFamily, state: MarketState, candidate: MarketState) {
    match f
    case CrossSectionalMomentum => state == candidate && (state == TrendUp || state == TrendDown)
    case MomentumBreakout => state == candidate && (state == TrendUp || state == TrendDown)
    case PairsStatArb => state == candidate == Chop
    case VwapMeanReversion => state == candidate == Chop
    case SectorRelativeValue => !Blocked(state) && !Blocked(candidate)
  }

  ghost function Rank(f: AlphaFamily): nat {
    match f
    case CrossSectionalMomentum => 0
    case MomentumBreakout => 1
    case PairsStatArb => 2
    case VwapMeanReversion => 3
    case SectorRelativeValue => 4
  }

  ghost predicate Ranked(fs: seq<AlphaFamily>) {
    forall i, j :: 0 <= i < j < |fs| ==> Rank(fs[i]) < Rank(fs[j])
  }

  /** The lesser of the multipliers set for two open states: high volatility below chop below trend. */
  ghost function Lesser(cfg: Settings, state: MarketState, candidate: MarketState): real {
    if state == HighVol || candidate == HighVol then cfg.highVolMultiplier
    else if state == Chop || candidate == Chop then cfg.chopMultiplier
    else cfg.trendMultiplier
  }

  /** What a label may do while the evidence is for a candidate; the list of families is in one fixed order. */
  ghost predicate IsGranted(cfg: Settings, state: MarketState, candidate: MarketState, g: Grant) {
    && Ranked(g.families) && (forall f :: f in g.families <==> MayRun(f, state, candidate))
    && g.sides == (if state == candidate == TrendUp then [Long] else if state == candidate == TrendDown then [Short] else [])
    && g.multiplier == (if Blocked(state) || Blocked(candidate) then 0.0 else Lesser(cfg, state, candidate))
  }

  lemma {:induction false} FilterKeepsRank(fs: seq<AlphaFamily>, wanted: seq<AlphaFamily>, directional: bool)
    requires Ranked(fs)
    ensures Ranked(FilterFamilies(fs, wanted, directional))
  {
    if fs != [] {
      FilterKeepsRank(fs[1..], wanted, directional);
      forall f | f in FilterFamilies(fs[1..], wanted, directional)
        ensures Rank(fs[0]) < Rank(f)
      {
        var i :| 0 <= i < |fs[1..]| && fs[1..][i] == f;
      }
    }
  }

  lemma SidesMeaning(cfg: Settings, state: MarketState, candidate: MarketState)
    ensures FilterSides(Permissions(state, cfg).sides, Permissions(candidate, cfg).sides)
         == if state == candidate == TrendUp then [Long] else if state == candidate == TrendDown then [Short] else []
  {
    var sides := Permissions(state, cfg).sides;
    assert sides != [] ==> sides[1..] == [];
  }

  lemma FamilyMeaning(cfg: Settings, state: MarketState, candidate: MarketState, f: AlphaFamily, directional: bool)
    requires directional <==> state == candidate && (state == TrendUp || state == TrendDown)
    ensures f in Permissions(state, cfg).families && f in Permissions(candidate, cfg).families && (directional || !Directional(f))
            <==> MayRun(f, state, candidate)
  {
  }

  lemma PermissionsRanked(cfg: Settings, state: MarketState)
    ensures Ranked(Permissions(state, cfg).families)
  {
  }

  lemma FilterMeaning(
      held: seq<AlphaFamily>, wanted: seq<AlphaFamily>, directional: bool, state: MarketState, candidate: MarketState)
    requires Ranked(held)
    requires forall f :: f in held && f in wanted && (directional || !Directional(f)) <==> MayRun(f, state, candidate)
    ensures var fs := FilterFamilies(held, wanted, directional);
            && Ranked(fs)
            && (forall f :: f in fs <==> MayRun(f, state, candidate))
            && (fs == [] <==> Blocked(state) || Blocked(candidate))
  {
    var fs := FilterFamilies(held, wanted, directional);
    FilterKeepsRank(held, wanted, directional);
    assert fs != [] ==> fs[0] in fs;
    assert SectorRelativeValue in fs <==> MayRun(SectorRelativeValue, state, candidate);
  }

  lemma FamiliesMeaning(cfg: Settings, state: MarketState, candidate: MarketState, directional: bool)
    requires directional <==> state == candidate && (state == TrendUp || state == TrendDown)
    ensures var fs := FilterFamilies(Permissions(state, cfg).families, Permissions(candidate, cfg).families, directional);
            && Ranked(fs)
            && (forall f :: f in fs <==> MayRun(f, state, candidate))
            && (fs == [] <==> Blocked(state) || Blocked(candidate))
  {
    var held, wanted := Permissions(state, cfg).families, Permissions(candidate, cfg).families;
    PermissionsRanked(cfg, state);
    forall f
      ensures f in held && f in wanted && (directional || !Directional(f)) <==> MayRun(f, state, candidate)
    {
      FamilyMeaning(cfg, state, candidate, f, directional);
    }
    FilterMeaning(held, wanted, directional, state, candidate);
  }

  lemma MultiplierMeaning(cfg: Settings, state: MarketState, candidate: MarketState)
    requires cfg.Valid() && !Blocked(state) && !Blocked(candidate)
    ensures MinReal(Permissions(state, cfg).multiplier, Permissions(candidate, cfg).multiplier)
         == Lesser(cfg, state, candidate)
  {
  }

  lemma NarrowMeaning(
      cfg: Settings, held: Grant, evidence: Grant, state: MarketState, candidate: MarketState, sides: seq<Side>,
      families: seq<AlphaFamily>)
    requires sides == FilterSides(held.sides, evidence.sides)
    requires families == FilterFamilies(held.families, evidence.families, sides != [])
    requires Ranked(families) && (forall f :: f in families <==> MayRun(f, state, candidate))
    requires families == [] <==> Blocked(state) || Blocked(candidate)
    requires sides == if state == candidate == TrendUp then [Long] else if state == candidate == TrendDown then [Short] else []
    requires families != [] ==> MinReal(held.multiplier, evidence.multiplier) == Lesser(cfg, state, candidate)
    ensures IsGranted(cfg, state, candidate, Narrow(held, evidence))
  {
    assert Narrow(held, evidence).families == families && Narrow(held, evidence).sides == sides;
  }

  lemma GrantMeaning(cfg: Settings, state: MarketState, candidate: MarketState)
    requires cfg.Valid()
    ensures IsGranted(cfg, state, candidate, GrantFor(cfg, state, candidate))
  {
    SidesMeaning(cfg, state, candidate);
    var held, evidence := Permissions(state, cfg), Permissions(candidate, cfg);
    var sides := FilterSides(held.sides, evidence.sides);
    FamiliesMeaning(cfg, state, candidate, sides != []);
    if !Blocked(state) && !Blocked(candidate) {
      MultiplierMeaning(cfg, state, candidate);
    }
    NarrowMeaning(cfg, held, evidence, state, candidate, sides, FilterFamilies(held.families, evidence.families, sides != []));
  }

  /**
   What every decision of every run permits. Longs need a rising label and rising evidence, shorts falling ones;
   the multiplier is the smaller of the two states'. A veto is in force at once.
   */
  lemma EveryGrantIsEarned(cfg: Settings, cal: Calendar, inputs: seq<Input>, k: nat)
    requires cfg.Valid() && k < |Decisions(cfg, cal, inputs)|
    ensures var d := Decisions(cfg, cal, inputs)[k];
            && IsGranted(cfg, d.state, d.candidate, d.grant)
            && (Long in d.grant.sides <==> d.state == d.candidate == TrendUp)
            && (Short in d.grant.sides <==> d.state == d.candidate == TrendDown)
            && (d.candidate in {RiskOff, OpenShock, HighVol} ==> d.state == d.candidate)
  {
    var d := Decisions(cfg, cal, inputs)[k];
    EveryGrantIsNarrowed(cfg, cal, inputs, k);
    GrantMeaning(cfg, d.state, d.candidate);
    EveryRunFollows(cfg, cal, inputs);
    assert Follows(cfg, Decisions(cfg, cal, inputs), k);
  }
}
