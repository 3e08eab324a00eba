/**
 Sector baskets: leaders against laggards of one sector, weighted to unit gross and no fitted beta, and the
 validator every basket has to pass.
 */
module Basket {
  import opened Prelude
  import opened Rules
  import opened Beta

  datatype Security = Security(
    instrument: Id, entity: Id, sector: Id, strength: real, percentile: real, shortable: bool, beta: BetaEstimate)

  datatype Leg = Leg(
    entity: Id, instrument: Id, sector: Id, side: Side, fraction: real, strength: real, percentile: real, beta: BetaEstimate)
  {
    predicate Valid() {
      0.0 < fraction < 1.0 && 0.0 <= percentile <= 1.0
    }
  }

  datatype Intent = Intent(
    at: Instant,
    sector: Id,
    legs: seq<Leg>,
    hedgeRatio: real,
    signedNet: real,
    signedBeta: real,
    longBeta: real,
    shortBeta: real,
    flattenBy: Instant,
    maxLegLag: real,
    settings: RelativeValueSettings)

  function OfSide(legs: seq<Leg>, side: Side): seq<Leg> {
    if legs == [] then []
    else
      var n := |legs| - 1;
      if legs[n].side == side then OfSide(legs[..n], side) + [legs[n]] else OfSide(legs[..n], side)
  }

  function Total(legs: seq<Leg>, amount: Leg -> real): real {
    if legs == [] then 0.0 else Total(legs[..|legs| - 1], amount) + amount(legs[|legs| - 1])
  }

  /** Long amounts less short amounts. */
  function SignedTotal(legs: seq<Leg>, amount: Leg -> real): real {
    if legs == [] then 0.0
    else
      var x := legs[|legs| - 1];
      SignedTotal(legs[..|legs| - 1], amount) + (if x.side.Long? then amount(x) else -amount(x))
  }

  function Fraction(x: Leg): real {
    x.fraction
  }

  /** The fitted beta a leg brings. */
  function BetaShare(x: Leg): real {
    Times(x.fraction, x.beta.beta)
  }

  function Gross(legs: seq<Leg>): real {
    Total(legs, Fraction)
  }

  function BetaGross(legs: seq<Leg>): real {
    Total(legs, BetaShare)
  }

  function Net(legs: seq<Leg>): real {
    SignedTotal(legs, Fraction)
  }

  function NetBeta(legs: seq<Leg>): real {
    SignedTotal(legs, BetaShare)
  }

  function PercentileSum(legs: seq<Leg>): real {
    if legs == [] then 0.0 else PercentileSum(legs[..|legs| - 1]) + legs[|legs| - 1].percentile
  }

  /** How far apart the two sides rank on average. */
  function Score(legs: seq<Leg>): real
    requires OfSide(legs, Long) != [] && OfSide(legs, Short) != []
  {
    MeanPercentile(OfSide(legs, Long)) - MeanPercentile(OfSide(legs, Short))
  }

  function EntitySet(legs: seq<Leg>): set<Id> {
    set x | x in legs :: x.entity
  }

  const RELATIVE: real := 0.000000001

  /** Equal up to one part in a billion, or up to the absolute tolerance. */
  predicate IsClose(a: real, b: real, absolute: real) {
    Abs(a - b) <= MaxReal(RELATIVE * MaxReal(Abs(a), Abs(b)), absolute)
  }

  function SideSize(cfg: RelativeValueSettings): nat {
    if cfg.pair then 1 else cfg.membersPerSide
  }

  lemma {:induction false} SideMembers(legs: seq<Leg>, side: Side)
    ensures forall x :: x in OfSide(legs, side) ==> x in legs
  {
    if legs != [] {
      var n := |legs| - 1;
      assert legs == legs[..n] + [legs[n]];
      SideMembers(legs[..n], side);
    }
  }

  lemma {:induction false} GrossPositive(legs: seq<Leg>)
    requires forall x :: x in legs ==> x.Valid()
    ensures legs != [] ==> Gross(legs) > 0.0
  {
    if legs != [] {
      var n := |legs| - 1;
      GrossPositive(legs[..n]);
      assert legs[n] in legs;
      assert Gross(legs) == Gross(legs[..n]) + legs[n].fraction;
      assert n == 0 ==> legs[..n] == [];
    }
  }

  /**
   The validator: both sides present and of the right size, no security twice, and every reported figure matches the
   legs.
   */
  predicate Coherent(it: Intent) {
    var longs, shorts, n := OfSide(it.legs, Long), OfSide(it.legs, Short), SideSize(it.settings);
    && |it.legs| >= 2 && it.hedgeRatio > 0.0 && it.longBeta > 0.0 && it.shortBeta > 0.0
    && (forall x :: x in it.legs ==> x.Valid())
    && longs != [] && shorts != []
    && (SideMembers(it.legs, Long); SideMembers(it.legs, Short); GrossPositive(longs); GrossPositive(shorts);
        && |EntitySet(it.legs)| == |it.legs| && |longs| == n && |shorts| == n
        && 0.0 <= Score(it.legs) <= 1.0
        && IsClose(BetaGross(longs) / Gross(longs), it.longBeta, 0.0)
        && IsClose(BetaGross(shorts) / Gross(shorts), it.shortBeta, 0.0)
        && it.maxLegLag == it.settings.maxLegLag
        && (forall x :: x in it.legs ==> x.sector == it.sector && x.beta.trainingEnd < it.at)
        && IsClose(Gross(it.legs), 1.0, TOLERANCE)
        && IsClose(Gross(shorts) / Gross(longs), it.hedgeRatio, 0.0)
        && IsClose(Net(it.legs), it.signedNet, TOLERANCE)
        && IsClose(NetBeta(it.legs), it.signedBeta, TOLERANCE)
        && Abs(Net(it.legs)) <= it.settings.maxNetGross + TOLERANCE
        && Abs(NetBeta(it.legs)) <= it.settings.maxBetaGross + TOLERANCE
        && it.at < it.flattenBy)
  }

  function LegsOf(members: seq<Security>, side: Side, fraction: real, sector: Id): (legs: seq<Leg>)
    ensures |legs| == |members|
    ensures forall i :: 0 <= i < |legs| ==> legs[i] == LegOf(members[i], side, fraction, sector)
  {
    if members == [] then []
    else
      var n := |members| - 1;
      LegsOf(members[..n], side, fraction, sector) + [LegOf(members[n], side, fraction, sector)]
  }

  function LegOf(c: Security, side: Side, fraction: real, sector: Id): Leg {
    Leg(c.entity, c.instrument, sector, side, fraction, c.strength, c.percentile, c.beta)
  }

  function BetaSum(members: seq<Security>): real {
    if members == [] then 0.0 else BetaSum(members[..|members| - 1]) + members[|members| - 1].beta.beta
  }

  function MeanBeta(members: seq<Security>): real
    requires members != []
  {
    BetaSum(members) / |members| as real
  }

  /** The basket of two sides under given weights. */
  function Assemble(
      leaders: seq<Security>, laggards: seq<Security>, w: Weights, sector: Id, at: Instant, flatten: Instant,
      cfg: RelativeValueSettings): Intent
    requires leaders != [] && laggards != [] && w.long > 0.0
  {
    var n := SideSize(cfg) as real;
    var lb, sb := MeanBeta(leaders), MeanBeta(laggards);
    Intent(
      at, sector,
      if n > 0.0 then LegsOf(leaders, Long, w.long / n, sector) + LegsOf(laggards, Short, w.short / n, sector) else [],
      w.short / w.long, w.long - w.short, Times(w.long, lb) - Times(w.short, sb), lb, sb, flatten, cfg.maxLegLag, cfg)
  }

  lemma OfSideStep(legs: seq<Leg>, x: Leg, side: Side)
    ensures OfSide(legs + [x], side) == if x.side == side then OfSide(legs, side) + [x] else OfSide(legs, side)
  {
    assert (legs + [x])[..|legs|] == legs;
  }

  /** Totals add up over the sides; signed totals are long less short. */
  lemma {:induction false} SidesPartition(legs: seq<Leg>, amount: Leg -> real)
    ensures Total(legs, amount) == Total(OfSide(legs, Long), amount) + Total(OfSide(legs, Short), amount)
    ensures SignedTotal(legs, amount) == Total(OfSide(legs, Long), amount) - Total(OfSide(legs, Short), amount)
  {
    if legs != [] {
      var n := |legs| - 1;
      SidesPartition(legs[..n], amount);
      var own := OfSide(legs[..n], legs[n].side);
      assert (own + [legs[n]])[..|own|] == own;
    }
  }

  lemma {:induction false} OfSideConcat(a: seq<Leg>, b: seq<Leg>, side: Side)
    ensures OfSide(a + b, side) == OfSide(a, side) + OfSide(b, side)
  {
    if b == [] {
      assert a + b == a && OfSide(a, side) + [] == OfSide(a, side);
    } else {
      var before, x := b[..|b| - 1], b[|b| - 1];
      OfSideConcat(a, before, side);
      OfSideStep(before, x, side);
      OfSideStep(a + before, x, side);
      Regroup(a, before, [x]);
      Regroup(OfSide(a, side), OfSide(before, side), [x]);
      assert b == before + [x];
    }
  }

  lemma Regroup(a: seq<Leg>, b: seq<Leg>, c: seq<Leg>)
    ensures (a + b) + c == a + (b + c)
  {
  }

  lemma {:induction false} OfOneSide(legs: seq<Leg>, own: Side, side: Side)
    requires forall x :: x in legs ==> x.side == own
    ensures OfSide(legs, side) == if side == own then legs else []
  {
    if legs != [] {
      var n := |legs| - 1;
      assert legs == legs[..n] + [legs[n]];
      OfOneSide(legs[..n], own, side);
      assert legs[n].side == own;
    }
  }

  lemma AllLegsOn(members: seq<Security>, side: Side, fraction: real, sector: Id)
    ensures forall x :: x in LegsOf(members, side, fraction, sector) ==> x.side == side && x.sector == sector && x.fraction == fraction
  {
  }

  lemma SidesOf(leaders: seq<Security>, laggards: seq<Security>, f: real, g: real, sector: Id)
    ensures var longs, shorts := LegsOf(leaders, Long, f, sector), LegsOf(laggards, Short, g, sector);
            OfSide(longs + shorts, Long) == longs && OfSide(longs + shorts, Short) == shorts
  {
    var longs, shorts := LegsOf(leaders, Long, f, sector), LegsOf(laggards, Short, g, sector);
    AllLegsOn(leaders, Long, f, sector);
    AllLegsOn(laggards, Short, g, sector);
    forall side
      ensures OfSide(longs + shorts, side) == if side == Long then longs else shorts
    {
      OfSideConcat(longs, shorts, side);
      OfOneSide(longs, Long, side);
      OfOneSide(shorts, Short, side);
    }
  }

  lemma TimesNext(k: real, f: real)
    ensures Times(k + 1.0, f) == Times(k, f) + f
  {
  }

  lemma TimesSplits(f: real, x: real, y: real)
    ensures Times(f, x + y) == Times(f, x) + Times(f, y)
  {
  }

  lemma TotalStep(legs: seq<Leg>, x: Leg, amount: Leg -> real)
    ensures Total(legs + [x], amount) == Total(legs, amount) + amount(x)
  {
    assert (legs + [x])[..|legs|] == legs;
  }

  lemma {:induction false} SideGross(members: seq<Security>, side: Side, f: real, sector: Id)
    ensures Gross(LegsOf(members, side, f, sector)) == Times(|members| as real, f)
  {
    if members == [] {
      assert Times(0.0, f) == 0.0;
    } else {
      var n := |members| - 1;
      SideGross(members[..n], side, f, sector);
      TotalStep(LegsOf(members[..n], side, f, sector), LegOf(members[n], side, f, sector), Fraction);
      TimesNext(n as real, f);
    }
  }

  lemma {:induction false} SideBeta(members: seq<Security>, side: Side, f: real, sector: Id)
    ensures BetaGross(LegsOf(members, side, f, sector)) == Times(f, BetaSum(members))
  {
    if members == [] {
      assert Times(f, 0.0) == 0.0;
    } else {
      var n := |members| - 1;
      SideBeta(members[..n], side, f, sector);
      TotalStep(LegsOf(members[..n], side, f, sector), LegOf(members[n], side, f, sector), BetaShare);
      TimesSplits(f, BetaSum(members[..n]), members[n].beta.beta);
    }
  }

  lemma ShareOf(w: real, n: real, sum: real)
    requires n > 0.0 && w > 0.0
    ensures Times(n, w / n) == w && Times(w / n, sum) == Times(w, sum / n)
    ensures Times(w, sum / n) / w == sum / n
  {
    var q, m := w / n, sum / n;
    assert q * n == w && m * n == sum;
    assert q * sum == q * (m * n) == (q * n) * m;
    assert (w * m) / w == m;
  }

  /** A side of `n` members under weight `w` has gross `w` and the members' mean beta. */
  lemma SideFigures(members: seq<Security>, side: Side, w: real, n: nat, sector: Id)
    requires members != [] && |members| == n && w > 0.0
    ensures var legs := LegsOf(members, side, w / n as real, sector);
            && Gross(legs) == w && BetaGross(legs) == Times(w, MeanBeta(members))
            && BetaGross(legs) / Gross(legs) == MeanBeta(members)
  {
    SideGross(members, side, w / n as real, sector);
    SideBeta(members, side, w / n as real, sector);
    ShareOf(w, n as real, BetaSum(members));
  }

  lemma {:induction false} PercentileBounds(legs: seq<Leg>, lo: real, hi: real)
    requires forall x :: x in legs ==> lo <= x.percentile <= hi
    ensures Times(|legs| as real, lo) <= PercentileSum(legs) <= Times(|legs| as real, hi)
  {
    if legs == [] {
      assert Times(0.0, lo) == 0.0 && Times(0.0, hi) == 0.0;
    } else {
      var n := |legs| - 1;
      assert legs == legs[..n] + [legs[n]];
      PercentileBounds(legs[..n], lo, hi);
      TimesNext(n as real, lo);
      TimesNext(n as real, hi);
    }
  }

  lemma MeanBounds(sum: real, n: real, lo: real, hi: real)
    requires n > 0.0 && Times(n, lo) <= sum <= Times(n, hi)
    ensures lo <= sum / n <= hi
  {
    var m := sum / n;
    assert m * n == sum;
    assert (m - lo) * n >= 0.0 && (hi - m) * n >= 0.0;
  }

  ghost predicate RanksWithin(legs: seq<Leg>, lo: real, hi: real) {
    forall x :: x in legs ==> lo <= x.percentile <= hi
  }

  function MeanPercentile(legs: seq<Leg>): real
    requires legs != []
  {
    PercentileSum(legs) / |legs| as real
  }

  lemma MeanWithin(legs: seq<Leg>, lo: real, hi: real)
    requires legs != [] && RanksWithin(legs, lo, hi)
    ensures lo <= MeanPercentile(legs) <= hi
  {
    PercentileBounds(legs, lo, hi);
    MeanBounds(PercentileSum(legs), |legs| as real, lo, hi);
  }

  /** Tails below one half keep the sides apart: the score is positive and at most one. */
  lemma ScoreBounds(legs: seq<Leg>, tail: real)
    requires 0.0 < tail < 0.5 && OfSide(legs, Long) != [] && OfSide(legs, Short) != []
    requires RanksWithin(OfSide(legs, Long), 1.0 - tail, 1.0) && RanksWithin(OfSide(legs, Short), 0.0, tail)
    ensures 1.0 - 2.0 * tail <= Score(legs) <= 1.0
  {
    MeanWithin(OfSide(legs, Long), 1.0 - tail, 1.0);
    MeanWithin(OfSide(legs, Short), 0.0, tail);
  }

  ghost predicate EntitiesDiffer(legs: seq<Leg>) {
    forall i, j :: 0 <= i < j < |legs| ==> legs[i].entity != legs[j].entity
  }

  lemma {:induction false} EntityCount(legs: seq<Leg>)
    requires EntitiesDiffer(legs)
    ensures |EntitySet(legs)| == |legs|
  {
    if legs != [] {
      var n := |legs| - 1;
      EntityCount(legs[..n]);
      assert legs == legs[..n] + [legs[n]];
      assert EntitySet(legs) == EntitySet(legs[..n]) + {legs[n].entity};
      assert legs[n].entity !in EntitySet(legs[..n]);
    }
  }

  lemma {:induction false} BetaSumBounds(members: seq<Security>, lo: real, hi: real)
    requires forall c :: c in members ==> lo <= c.beta.beta <= hi
    ensures Times(|members| as real, lo) <= BetaSum(members) <= Times(|members| as real, hi)
  {
    if members == [] {
      assert Times(0.0, lo) == 0.0 && Times(0.0, hi) == 0.0;
    } else {
      var n := |members| - 1;
      assert members == members[..n] + [members[n]];
      BetaSumBounds(members[..n], lo, hi);
      TimesNext(n as real, lo);
      TimesNext(n as real, hi);
    }
  }

  lemma MeanBetaInRange(members: seq<Security>, cfg: RelativeValueSettings)
    requires members != [] && forall c :: c in members ==> cfg.minBeta <= c.beta.beta <= cfg.maxBeta
    ensures cfg.minBeta <= MeanBeta(members) <= cfg.maxBeta
  {
    BetaSumBounds(members, cfg.minBeta, cfg.maxBeta);
    MeanBounds(BetaSum(members), |members| as real, cfg.minBeta, cfg.maxBeta);
  }

  /**
   Two sides fit to be weighted: right size, betas accepted before `at`, ranks in opposite tails, no security twice.
   */
  ghost predicate SidesFit(leaders: seq<Security>, laggards: seq<Security>, at: Instant, cfg: RelativeValueSettings) {
    && |leaders| == |laggards| == SideSize(cfg)
    && (forall c :: c in leaders ==> Accepted(c, at, cfg) && 1.0 - cfg.tailFraction <= c.percentile <= 1.0)
    && (forall c :: c in laggards ==> Accepted(c, at, cfg) && 0.0 <= c.percentile <= cfg.tailFraction)
    && Apart(leaders + laggards)
  }

  ghost predicate Apart(members: seq<Security>) {
    forall i, j :: 0 <= i < j < |members| ==> members[i].entity != members[j].entity
  }

  predicate Accepted(c: Security, at: Instant, cfg: RelativeValueSettings) {
    cfg.minBeta <= c.beta.beta <= cfg.maxBeta && c.beta.trainingEnd < at
  }

  /** Exactly what the basket is for: unit gross, no fitted beta, and a positive score. */
  ghost predicate Exact(it: Intent) {
    var longs, shorts := OfSide(it.legs, Long), OfSide(it.legs, Short);
    && it.legs == longs + shorts
    && Gross(it.legs) == 1.0 && NetBeta(it.legs) == 0.0 == it.signedBeta && Net(it.legs) == it.signedNet
    && Gross(longs) > 0.0 && Gross(shorts) == Times(it.hedgeRatio, Gross(longs))
    && BetaGross(longs) == Times(it.longBeta, Gross(longs)) && BetaGross(shorts) == Times(it.shortBeta, Gross(shorts))
    && longs != [] && shorts != [] && 0.0 < Score(it.legs) <= 1.0
  }

  lemma FractionBounds(w: real, n: real)
    requires 0.0 < w < 1.0 && n >= 1.0
    ensures 0.0 < w / n < 1.0
  {
    var q := w / n;
    assert q * n == w;
    assert q > 0.0;
    assert q * (n - 1.0) >= 0.0;
  }

  lemma LegsAreValid(members: seq<Security>, side: Side, w: real, n: nat, sector: Id)
    requires n >= 1 && 0.0 < w < 1.0 && forall c :: c in members ==> 0.0 <= c.percentile <= 1.0
    ensures forall x :: x in LegsOf(members, side, w / n as real, sector) ==> x.Valid()
  {
    FractionBounds(w, n as real);
    var legs := LegsOf(members, side, w / n as real, sector);
    forall i | 0 <= i < |legs|
      ensures legs[i].Valid()
    {
      assert members[i] in members;
    }
  }

  lemma LegsFromMembers(
      leaders: seq<Security>, laggards: seq<Security>, f: real, g: real, sector: Id, at: Instant,
      cfg: RelativeValueSettings)
    requires SidesFit(leaders, laggards, at, cfg)
    ensures var legs := LegsOf(leaders, Long, f, sector) + LegsOf(laggards, Short, g, sector);
            && EntitiesDiffer(legs)
            && (forall x :: x in legs ==> x.sector == sector && x.beta.trainingEnd < at)
            && RanksWithin(LegsOf(leaders, Long, f, sector), 1.0 - cfg.tailFraction, 1.0)
            && RanksWithin(LegsOf(laggards, Short, g, sector), 0.0, cfg.tailFraction)
  {
    var longs, shorts := LegsOf(leaders, Long, f, sector), LegsOf(laggards, Short, g, sector);
    var legs, members := longs + shorts, leaders + laggards;
    assert forall i :: 0 <= i < |legs| ==> legs[i].entity == members[i].entity;
    forall x | x in legs
      ensures x.sector == sector && x.beta.trainingEnd < at
      ensures x in longs ==> 1.0 - cfg.tailFraction <= x.percentile <= 1.0
      ensures x in shorts ==> 0.0 <= x.percentile <= cfg.tailFraction
    {
      if x in longs {
        var i :| 0 <= i < |longs| && longs[i] == x;
        assert leaders[i] in leaders;
      }
      if x in shorts {
        var i :| 0 <= i < |shorts| && shorts[i] == x;
        assert laggards[i] in laggards;
      }
    }
  }

  lemma RatioTimes(x: real, y: real)
    requires y > 0.0
    ensures Times(x / y, y) == x
  {
  }

  lemma TimesCommutes(x: real, y: real)
    ensures Times(x, y) == Times(y, x)
  {
  }

  /** The figures of two sides under neutral weights. */
  ghost predicate Balanced(legs: seq<Leg>, longs: seq<Leg>, shorts: seq<Leg>, w: Weights, lb: real, sb: real) {
    && legs == longs + shorts && OfSide(legs, Long) == longs && OfSide(legs, Short) == shorts
    && Gross(longs) == w.long && Gross(shorts) == w.short
    && BetaGross(longs) == Times(w.long, lb) && BetaGross(shorts) == Times(w.short, sb)
    && Gross(legs) == 1.0 && NetBeta(legs) == 0.0 && Net(legs) == w.long - w.short
  }

  lemma LegsBalance(leaders: seq<Security>, laggards: seq<Security>, w: Weights, sector: Id, n: nat, lb: real, sb: real)
    requires leaders != [] && |leaders| == |laggards| == n && lb == MeanBeta(leaders) && sb == MeanBeta(laggards) && Neutral(w, lb, sb)
    ensures var longs, shorts := LegsOf(leaders, Long, w.long / n as real, sector), LegsOf(laggards, Short, w.short / n as real, sector);
            && Balanced(longs + shorts, longs, shorts, w, lb, sb)
            && BetaGross(longs) / Gross(longs) == lb && BetaGross(shorts) / Gross(shorts) == sb
  {
    var f, g := w.long / n as real, w.short / n as real;
    SidesOf(leaders, laggards, f, g, sector);
    SideFigures(leaders, Long, w.long, n, sector);
    SideFigures(laggards, Short, w.short, n, sector);
    SidesPartition(LegsOf(leaders, Long, f, sector) + LegsOf(laggards, Short, g, sector), Fraction);
    SidesPartition(LegsOf(leaders, Long, f, sector) + LegsOf(laggards, Short, g, sector), BetaShare);
  }

  /** The figures of an assembled basket. */
  lemma AssembledFigures(
      leaders: seq<Security>, laggards: seq<Security>, w: Weights, sector: Id, at: Instant, flatten: Instant,
      cfg: RelativeValueSettings, it: Intent)
    requires cfg.Valid() && SidesFit(leaders, laggards, at, cfg)
    requires leaders != [] && laggards != [] && Neutral(w, MeanBeta(leaders), MeanBeta(laggards))
    requires it == Assemble(leaders, laggards, w, sector, at, flatten, cfg)
    ensures it.longBeta == MeanBeta(leaders) && it.shortBeta == MeanBeta(laggards)
    ensures var longs, shorts := OfSide(it.legs, Long), OfSide(it.legs, Short);
            && Balanced(it.legs, longs, shorts, w, it.longBeta, it.shortBeta) && |longs| == |shorts| == SideSize(cfg)
            && BetaGross(longs) / Gross(longs) == it.longBeta && BetaGross(shorts) / Gross(shorts) == it.shortBeta
            && it.signedBeta == 0.0
  {
    LegsBalance(leaders, laggards, w, sector, SideSize(cfg), it.longBeta, it.shortBeta);
  }

  lemma AssembledIsExact(
      leaders: seq<Security>, laggards: seq<Security>, w: Weights, sector: Id, at: Instant, flatten: Instant,
      cfg: RelativeValueSettings, it: Intent)
    requires cfg.Valid() && SidesFit(leaders, laggards, at, cfg)
    requires leaders != [] && laggards != [] && Neutral(w, MeanBeta(leaders), MeanBeta(laggards))
    requires it == Assemble(leaders, laggards, w, sector, at, flatten, cfg)
    ensures Exact(it)
  {
    AssembledFigures(leaders, laggards, w, sector, at, flatten, cfg, it);
    SidesOf(leaders, laggards, w.long / SideSize(cfg) as real, w.short / SideSize(cfg) as real, sector);
    LegsFromMembers(leaders, laggards, w.long / SideSize(cfg) as real, w.short / SideSize(cfg) as real, sector, at, cfg);
    ScoreBounds(it.legs, cfg.tailFraction);
    RatioTimes(w.short, w.long);
    TimesCommutes(w.long, it.longBeta);
    TimesCommutes(w.short, it.shortBeta);
  }

  lemma CloseToItself(a: real, tolerance: real)
    requires tolerance >= 0.0
    ensures IsClose(a, a, tolerance)
  {
  }

  /** Any basket that reaches construction passes its own validator, with nothing left to the tolerances. */
  lemma ConstructionIsCoherent(
      leaders: seq<Security>, laggards: seq<Security>, w: Weights, sector: Id, at: Instant, flatten: Instant,
      cfg: RelativeValueSettings, it: Intent)
    requires cfg.Valid() && SidesFit(leaders, laggards, at, cfg) && at < flatten
    requires leaders != [] && laggards != [] && NeutralWeights(MeanBeta(leaders), MeanBeta(laggards), cfg) == Ok(w)
    requires Neutral(w, MeanBeta(leaders), MeanBeta(laggards)) && Abs(w.long - w.short) <= cfg.maxNetGross + TOLERANCE
    requires it == Assemble(leaders, laggards, w, sector, at, flatten, cfg)
    ensures Coherent(it) && Exact(it)
  {
    AssembledFigures(leaders, laggards, w, sector, at, flatten, cfg, it);
    AssembledIsExact(leaders, laggards, w, sector, at, flatten, cfg, it);
    MeanBetaInRange(leaders, cfg);
    MeanBetaInRange(laggards, cfg);
    AssembledLegs(leaders, laggards, w, sector, at, flatten, cfg, it);
    PositiveRatio(w.short, w.long);
    CloseToItself(it.longBeta, 0.0);
    CloseToItself(it.shortBeta, 0.0);
    CloseToItself(1.0, TOLERANCE);
    CloseToItself(it.hedgeRatio, 0.0);
    CloseToItself(it.signedNet, TOLERANCE);
    CloseToItself(it.signedBeta, TOLERANCE);
  }

  lemma PositiveRatio(x: real, y: real)
    requires x > 0.0 && y > 0.0
    ensures x / y > 0.0
  {
  }

  lemma AssembledLegs(
      leaders: seq<Security>, laggards: seq<Security>, w: Weights, sector: Id, at: Instant, flatten: Instant,
      cfg: RelativeValueSettings, it: Intent)
    requires cfg.Valid() && SidesFit(leaders, laggards, at, cfg)
    requires leaders != [] && laggards != [] && Neutral(w, MeanBeta(leaders), MeanBeta(laggards))
    requires it == Assemble(leaders, laggards, w, sector, at, flatten, cfg)
    ensures |it.legs| >= 2 && |EntitySet(it.legs)| == |it.legs|
    ensures forall x :: x in it.legs ==> x.Valid() && x.sector == sector && x.beta.trainingEnd < at
  {
    var n := SideSize(cfg);
    LegsAreValid(leaders, Long, w.long, n, sector);
    LegsAreValid(laggards, Short, w.short, n, sector);
    LegsFromMembers(leaders, laggards, w.long / n as real, w.short / n as real, sector, at, cfg);
    EntityCount(it.legs);
  }
}
