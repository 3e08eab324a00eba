/** Classification of market evidence and the fixed mapping from a market state to what it permits. */
module Rules {
  import opened Prelude

  datatype MarketState = TrendUp | TrendDown | Chop | HighVol | OpenShock | RiskOff

  datatype AlphaFamily =
    | CrossSectionalMomentum
    | MomentumBreakout
    | PairsStatArb
    | VwapMeanReversion
    | SectorRelativeValue

  datatype Side = Long | Short

  datatype Feature =
    | OpeningGap
    | RealizedVolatility
    | RangeVolatility
    | VixLevel
    | VwapDistance
    | Slope15m
    | Slope30m
    | BreadthAdvancing
    | BreadthDeclining
    | BreadthCoverage

  /** A feature may be absent, or present without a value. */
  type Features = map<Feature, Option<real>>

  /** Durations are in seconds; the other bounds are in the unit of their feature. */
  datatype Settings = Settings(
    vwapDistance: real,
    slope15m: real,
    slope30m: real,
    breadthFraction: real,
    highRealizedVol: real,
    highRangeVol: real,
    highVix: real,
    openingGap: real,
    stabilization: nat,
    shockWindow: nat,
    confirmationCount: nat,
    minDuration: nat,
    maxConfirmationGap: nat,
    featureMaxAge: nat,
    healthMaxAge: nat,
    trendMultiplier: real,
    chopMultiplier: real,
    highVolMultiplier: real)
  {
    predicate Valid() {
      && vwapDistance > 0.0 && slope15m > 0.0 && slope30m > 0.0
      && 0.5 < breadthFraction <= 1.0
      && stabilization <= shockWindow
      && confirmationCount >= 1
      && 0.0 <= highVolMultiplier <= chopMultiplier <= trendMultiplier <= 1.0
    }
  }

  datatype Operator = AtLeast | AtMost | Equal | MagnitudeAtLeast

  datatype Subject =
    | FeatureValue(feature: Feature)
    | SystemStatus
    | RiskStatus
    | BlocksNewEntries
    | HealthAge
    | FeatureAge
    | SessionActive
    | SessionElapsed
    | Confirmations
    | Dwell

  datatype Threshold = Threshold(subject: Subject, value: Option<real>, operator: Operator, bound: real, passed: bool)

  /** A missing value passes no check. */
  predicate Passes(value: Option<real>, operator: Operator, bound: real) {
    value.Some? &&
    match operator
    case AtLeast => value.value >= bound
    case AtMost => value.value <= bound
    case Equal => value.value == bound
    case MagnitudeAtLeast => Abs(value.value) >= bound
  }

  function ValueOf(values: Features, f: Feature): Option<real> {
    if f in values then values[f] else None
  }

  predicate Holds(values: Features, f: Feature, operator: Operator, bound: real) {
    Passes(ValueOf(values, f), operator, bound)
  }

  /** The audit trail tells the truth: each entry's verdict is that of its own value and bound. */
  predicate Truthful(values: Features, t: Threshold) {
    && t.passed == Passes(t.value, t.operator, t.bound)
    && (t.subject.FeatureValue? ==> t.value == ValueOf(values, t.subject.feature))
  }

  predicate AnyHigh(values: Features, cfg: Settings) {
    || Holds(values, RealizedVolatility, AtLeast, cfg.highRealizedVol)
    || Holds(values, RangeVolatility, AtLeast, cfg.highRangeVol)
    || Holds(values, VixLevel, AtLeast, cfg.highVix)
  }

  predicate AllUp(values: Features, cfg: Settings) {
    && Holds(values, VwapDistance, AtLeast, cfg.vwapDistance)
    && Holds(values, Slope15m, AtLeast, cfg.slope15m)
    && Holds(values, Slope30m, AtLeast, cfg.slope30m)
    && Holds(values, BreadthAdvancing, AtLeast, cfg.breadthFraction)
  }

  predicate AllDown(values: Features, cfg: Settings) {
    && Holds(values, VwapDistance, AtMost, -cfg.vwapDistance)
    && Holds(values, Slope15m, AtMost, -cfg.slope15m)
    && Holds(values, Slope30m, AtMost, -cfg.slope30m)
    && Holds(values, BreadthDeclining, AtLeast, cfg.breadthFraction)
  }

  predicate Balanced(values: Features, cfg: Settings) {
    && Holds(values, VwapDistance, AtMost, cfg.vwapDistance) && Holds(values, VwapDistance, AtLeast, -cfg.vwapDistance)
    && Holds(values, Slope15m, AtMost, cfg.slope15m) && Holds(values, Slope15m, AtLeast, -cfg.slope15m)
    && Holds(values, Slope30m, AtMost, cfg.slope30m) && Holds(values, Slope30m, AtLeast, -cfg.slope30m)
    && Holds(values, BreadthAdvancing, AtMost, cfg.breadthFraction)
    && Holds(values, BreadthDeclining, AtMost, cfg.breadthFraction)
  }

  predicate RequiredPresent(values: Features, shockWindow: bool) {
    && ValueOf(values, RealizedVolatility).Some? && ValueOf(values, RangeVolatility).Some?
    && ValueOf(values, VwapDistance).Some? && ValueOf(values, Slope15m).Some? && ValueOf(values, Slope30m).Some?
    && ValueOf(values, BreadthAdvancing).Some? && ValueOf(values, BreadthDeclining).Some?
    && (shockWindow ==> ValueOf(values, OpeningGap).Some?)
  }

  /** The label the evidence supports, `elapsed` microseconds into the session. */
  function Classification(values: Features, cfg: Settings, elapsed: int): MarketState {
    var opening := elapsed <= cfg.shockWindow * SECOND;
    if elapsed <= cfg.stabilization * SECOND ||
       (opening && (Holds(values, OpeningGap, MagnitudeAtLeast, cfg.openingGap) || AnyHigh(values, cfg))) then OpenShock
    else if !Holds(values, BreadthCoverage, Equal, 1.0) || !RequiredPresent(values, opening) then RiskOff
    else if AnyHigh(values, cfg) then HighVol
    else if AllUp(values, cfg) then TrendUp
    else if AllDown(values, cfg) then TrendDown
    else if Balanced(values, cfg) then Chop
    else RiskOff
  }

  /** Collects every threshold it is asked to judge. */
  class EvidenceBuilder {
    const values: Features
    var checks: seq<Threshold>

    ghost predicate Valid()
      reads this
    {
      forall i :: 0 <= i < |checks| ==> Truthful(values, checks[i])
    }

    constructor (features: Features)
      ensures values == features && checks == [] && Valid()
    {
      values := features;
      checks := [];
    }

    method Record(subject: Subject, value: Option<real>, operator: Operator, bound: real) returns (passed: bool)
      requires Valid() && (subject.FeatureValue? ==> value == ValueOf(values, subject.feature))
      modifies this
      ensures Valid()
      ensures passed == Passes(value, operator, bound)
      ensures checks == old(checks) + [Threshold(subject, value, operator, bound, passed)]
    {
      passed := Passes(value, operator, bound);
      checks := checks + [Threshold(subject, value, operator, bound, passed)];
    }

    method Check(feature: Feature, operator: Operator, bound: real) returns (passed: bool)
      requires Valid()
      modifies this
      ensures Valid()
      ensures passed == Holds(values, feature, operator, bound)
      ensures checks == old(checks) + [Threshold(FeatureValue(feature), ValueOf(values, feature), operator, bound, passed)]
    {
      passed := Record(FeatureValue(feature), ValueOf(values, feature), operator, bound);
    }

    /** Both sides of a band. */
    method CheckBoth(feature: Feature, upper: real, lower: real) returns (passed: bool)
      requires Valid()
      modifies this
      ensures Valid() && old(checks) <= checks
      ensures passed == (Holds(values, feature, AtMost, upper) && Holds(values, feature, AtLeast, lower))
    {
      var below := Check(feature, AtMost, upper);
      var above := Check(feature, AtLeast, lower);
      return below && above;
    }
  }

  /** Classifies while recording: the verdict is the classification, the trail only grows and stays truthful. */
  method Classify(e: EvidenceBuilder, cfg: Settings, elapsed: int) returns (state: MarketState)
    requires e.Valid()
    modifies e
    ensures e.Valid() && old(e.checks) <= e.checks
    ensures state == Classification(e.values, cfg, elapsed)
  {
    var stabilizing, opening, gap := OpeningBattery(e, cfg, elapsed);
    var high := HighBattery(e, cfg);
    var up := UpBattery(e, cfg);
    var down := DownBattery(e, cfg);
    var coverage := e.Check(BreadthCoverage, Equal, 1.0);
    if stabilizing || (opening && (gap || high)) {
      return OpenShock;
    }
    if !coverage || !RequiredPresent(e.values, opening) {
      return RiskOff;
    }
    if high {
      return HighVol;
    }
    if up {
      return TrendUp;
    }
    if down {
      return TrendDown;
    }
    var balanced := BalanceBattery(e, cfg);
    return if balanced then Chop else RiskOff;
  }

  method OpeningBattery(
      e: EvidenceBuilder, cfg: Settings, elapsed: int) returns (stabilizing: bool, opening: bool, gap: bool)
    requires e.Valid()
    modifies e
    ensures e.Valid() && old(e.checks) <= e.checks
    ensures stabilizing == (elapsed <= cfg.stabilization * SECOND)
    ensures opening == (elapsed <= cfg.shockWindow * SECOND)
    ensures gap == Holds(e.values, OpeningGap, MagnitudeAtLeast, cfg.openingGap)
  {
    var micros := Some(elapsed as real);
    stabilizing := e.Record(SessionElapsed, micros, AtMost, (cfg.stabilization * SECOND) as real);
    opening := e.Record(SessionElapsed, micros, AtMost, (cfg.shockWindow * SECOND) as real);
    gap := e.Check(OpeningGap, MagnitudeAtLeast, cfg.openingGap);
  }

  method BalanceBattery(e: EvidenceBuilder, cfg: Settings) returns (all: bool)
    requires e.Valid()
    modifies e
    ensures e.Valid() && old(e.checks) <= e.checks
    ensures all == Balanced(e.values, cfg)
  {
    var a := e.CheckBoth(VwapDistance, cfg.vwapDistance, -cfg.vwapDistance);
    var b := e.CheckBoth(Slope15m, cfg.slope15m, -cfg.slope15m);
    var c := e.CheckBoth(Slope30m, cfg.slope30m, -cfg.slope30m);
    var d := e.Check(BreadthAdvancing, AtMost, cfg.breadthFraction);
    var f := e.Check(BreadthDeclining, AtMost, cfg.breadthFraction);
    return a && b && c && d && f;
  }

  method HighBattery(e: EvidenceBuilder, cfg: Settings) returns (any: bool)
    requires e.Valid()
    modifies e
    ensures e.Valid() && old(e.checks) <= e.checks
    ensures any == AnyHigh(e.values, cfg)
  {
    var a := e.Check(RealizedVolatility, AtLeast, cfg.highRealizedVol);
    var b := e.Check(RangeVolatility, AtLeast, cfg.highRangeVol);
    var c := e.Check(VixLevel, AtLeast, cfg.highVix);
    return a || b || c;
  }

  method UpBattery(e: EvidenceBuilder, cfg: Settings) returns (all: bool)
    requires e.Valid()
    modifies e
    ensures e.Valid() && old(e.checks) <= e.checks
    ensures all == AllUp(e.values, cfg)
  {
    var a := e.Check(VwapDistance, AtLeast, cfg.vwapDistance);
    var b := e.Check(Slope15m, AtLeast, cfg.slope15m);
    var c := e.Check(Slope30m, AtLeast, cfg.slope30m);
    var d := e.Check(BreadthAdvancing, AtLeast, cfg.breadthFraction);
    return a && b && c && d;
  }

  method DownBattery(e: EvidenceBuilder, cfg: Settings) returns (all: bool)
    requires e.Valid()
    modifies e
    ensures e.Valid() && old(e.checks) <= e.checks
    ensures all == AllDown(e.values, cfg)
  {
    var a := e.Check(VwapDistance, AtMost, -cfg.vwapDistance);
    var b := e.Check(Slope15m, AtMost, -cfg.slope15m);
    var c := e.Check(Slope30m, AtMost, -cfg.slope30m);
    var d := e.Check(BreadthDeclining, AtLeast, cfg.breadthFraction);
    return a && b && c && d;
  }

  datatype Grant = Grant(families: seq<AlphaFamily>, sides: seq<Side>, multiplier: real)

  function Permissions(state: MarketState, cfg: Settings): Grant {
    match state
    case RiskOff => Grant([], [], 0.0)
    case OpenShock => Grant([], [], 0.0)
    case Chop => Grant([PairsStatArb, VwapMeanReversion, SectorRelativeValue], [], cfg.chopMultiplier)
    case HighVol => Grant([SectorRelativeValue], [], cfg.highVolMultiplier)
    case TrendUp => Grant([CrossSectionalMomentum, MomentumBreakout, SectorRelativeValue], [Long], cfg.trendMultiplier)
    case TrendDown => Grant([CrossSectionalMomentum, MomentumBreakout, SectorRelativeValue], [Short], cfg.trendMultiplier)
  }

  predicate Directional(f: AlphaFamily) {
    f.CrossSectionalMomentum? || f.MomentumBreakout?
  }
}
