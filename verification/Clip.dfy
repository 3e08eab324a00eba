/**
 Sizing one bundle: the least of its limits, floored to a tick, and how that relates to checking the
 caps again on the enlarged portfolio.
 */
module Clip {
  import opened Prelude
  import opened Rules
  import opened Candidates
  import opened Portfolio

  /** The candidate's own figures: wanted gross, alpha budget, loss per unit gross, and a cap for each leg. */
  datatype Terms = Terms(desired: real, budget: real, loss: real, legCaps: seq<real>)

  predicate ValidTerms(c: Candidate, t: Terms, caps: Caps) {
    && 0.0 < t.loss <= 1.0
    && |t.legCaps| == |c.legs|
    && forall i :: 0 <= i < |t.legCaps| ==> t.legCaps[i] <= caps.maxSymbol
  }

  /** The limits that do not look at single legs. */
  function PortfolioLimit(caps: Caps, targets: seq<Position>, c: Candidate, t: Terms): real
    requires t.loss > 0.0
  {
    var held := Gross(targets, OfAlpha(c.alpha));
    MinReal(t.desired,
    MinReal(t.budget - held,
    MinReal(caps.maxGross - Gross(targets, Everything),
    MinReal((caps.maxOpenRisk - Risk(targets)) / t.loss,
    MinReal(caps.maxCandidateRisk / t.loss,
            caps.maxAlpha - held)))))
  }

  function WithNetLimit(caps: Caps, targets: seq<Position>, c: Candidate, limit: real): real {
    var w := NetWeight(c.legs);
    if w > 0.0 then MinReal(limit, (caps.maxNet - Net(targets)) / w)
    else if w < 0.0 then MinReal(limit, (caps.maxNet + Net(targets)) / (-w))
    else limit
  }

  function SectorLimit(caps: Caps, targets: seq<Position>, c: Candidate, sector: string): real
    requires WeightIn(c.legs, c.alpha, OfSector(sector)) != 0.0
  {
    (caps.maxSector - Gross(targets, OfSector(sector))) / WeightIn(c.legs, c.alpha, OfSector(sector))
  }

  lemma {:induction false} SectorWeightPositive(legs: seq<Leg>, alpha: AlphaFamily, i: nat)
    requires NonzeroWeights(legs) && i < |legs|
    ensures WeightIn(legs, alpha, OfSector(legs[i].sector)) > 0.0
  {
    var n := |legs| - 1;
    WeightBounds(legs[..n], alpha, OfSector(legs[i].sector));
    if i < n {
      SectorWeightPositive(legs[..n], alpha, i);
    }
  }

  /** The least limit once the sector and symbol limits of the first `n` legs are in. */
  function Limit(caps: Caps, targets: seq<Position>, c: Candidate, t: Terms, n: nat): real
    requires ValidTerms(c, t, caps) && NonzeroWeights(c.legs) && n <= |c.legs|
  {
    if n == 0 then WithNetLimit(caps, targets, c, PortfolioLimit(caps, targets, c, t))
    else
      SectorWeightPositive(c.legs, c.alpha, n - 1);
      var x := c.legs[n - 1];
      MinReal(Limit(caps, targets, c, t, n - 1),
      MinReal(SectorLimit(caps, targets, c, x.sector), t.legCaps[n - 1] / Abs(x.weight)))
  }

  const TICKS: real := 1000000000000.0

  /** Rounds a nonnegative amount down to a whole number of ticks. */
  function Quantize(x: real): (q: real)
    requires x >= 0.0
    ensures 0.0 <= q <= x < q + 1.0 / TICKS
    ensures q * TICKS == (q * TICKS).Floor as real
  {
    (x * TICKS).Floor as real / TICKS
  }

  function Amount(caps: Caps, targets: seq<Position>, c: Candidate, t: Terms): (a: real)
    requires ValidTerms(c, t, caps) && NonzeroWeights(c.legs)
    ensures a >= 0.0
    ensures a > 0.0 ==> a <= Limit(caps, targets, c, t, |c.legs|)
  {
    Quantize(MaxReal(0.0, Limit(caps, targets, c, t, |c.legs|)))
  }

  /** A limit that leg `i` brings: its sector's room or its own cap, per unit of its weight. */
  predicate IsLegLimit(caps: Caps, targets: seq<Position>, c: Candidate, t: Terms, i: nat, x: real)
    requires ValidTerms(c, t, caps) && NonzeroWeights(c.legs) && i < |c.legs|
  {
    SectorWeightPositive(c.legs, c.alpha, i);
    x == SectorLimit(caps, targets, c, c.legs[i].sector) || x == t.legCaps[i] / Abs(c.legs[i].weight)
  }

  /** One of the limits that do not look at single legs. */
  predicate IsPortfolioLimit(caps: Caps, targets: seq<Position>, c: Candidate, t: Terms, x: real)
    requires t.loss > 0.0
  {
    var held, w := Gross(targets, OfAlpha(c.alpha)), NetWeight(c.legs);
    || x == t.desired || x == t.budget - held || x == caps.maxAlpha - held
    || x == caps.maxGross - Gross(targets, Everything)
    || x == (caps.maxOpenRisk - Risk(targets)) / t.loss || x == caps.maxCandidateRisk / t.loss
    || (w > 0.0 && x == (caps.maxNet - Net(targets)) / w)
    || (w < 0.0 && x == (caps.maxNet + Net(targets)) / (-w))
  }

  /** One of the limits on a candidate. */
  ghost predicate IsLimit(caps: Caps, targets: seq<Position>, c: Candidate, t: Terms, x: real)
    requires ValidTerms(c, t, caps) && NonzeroWeights(c.legs)
  {
    IsPortfolioLimit(caps, targets, c, t, x) || exists i :: 0 <= i < |c.legs| && IsLegLimit(caps, targets, c, t, i, x)
  }

  lemma PortfolioLimitIsLeast(caps: Caps, targets: seq<Position>, c: Candidate, t: Terms)
    requires t.loss > 0.0
    ensures var least := WithNetLimit(caps, targets, c, PortfolioLimit(caps, targets, c, t));
            && IsPortfolioLimit(caps, targets, c, t, least)
            && forall x :: IsPortfolioLimit(caps, targets, c, t, x) ==> least <= x
  {
  }

  lemma {:induction false} LimitReached(caps: Caps, targets: seq<Position>, c: Candidate, t: Terms, n: nat)
    requires ValidTerms(c, t, caps) && NonzeroWeights(c.legs) && n <= |c.legs|
    ensures IsLimit(caps, targets, c, t, Limit(caps, targets, c, t, n))
  {
    if n == 0 {
      PortfolioLimitIsLeast(caps, targets, c, t);
    } else {
      LimitReached(caps, targets, c, t, n - 1);
      var limit := Limit(caps, targets, c, t, n);
      assert limit == Limit(caps, targets, c, t, n - 1) || IsLegLimit(caps, targets, c, t, n - 1, limit);
    }
  }

  /** The limit is the least of all: one of them, and none is below it. */
  lemma LimitIsLeast(caps: Caps, targets: seq<Position>, c: Candidate, t: Terms)
    requires ValidTerms(c, t, caps) && NonzeroWeights(c.legs)
    ensures var least := Limit(caps, targets, c, t, |c.legs|);
            && IsLimit(caps, targets, c, t, least)
            && forall x :: IsLimit(caps, targets, c, t, x) ==> least <= x
  {
    LimitReached(caps, targets, c, t, |c.legs|);
    LimitBelowPortfolio(caps, targets, c, t, |c.legs|);
    PortfolioLimitIsLeast(caps, targets, c, t);
    forall x | IsLimit(caps, targets, c, t, x)
      ensures Limit(caps, targets, c, t, |c.legs|) <= x
    {
      if !IsPortfolioLimit(caps, targets, c, t, x) {
        var i :| 0 <= i < |c.legs| && IsLegLimit(caps, targets, c, t, i, x);
        LimitBelowLeg(caps, targets, c, t, |c.legs|, i);
      }
    }
  }

  /** A whole number of ticks, within every limit unless it is zero, and less than one tick from a limit. */
  ghost predicate IsTight(caps: Caps, targets: seq<Position>, c: Candidate, t: Terms, amount: real)
    requires ValidTerms(c, t, caps) && NonzeroWeights(c.legs)
  {
    && amount >= 0.0 && amount * TICKS == (amount * TICKS).Floor as real
    && (amount > 0.0 ==> forall x :: IsLimit(caps, targets, c, t, x) ==> amount <= x)
    && (exists x :: IsLimit(caps, targets, c, t, x) && x < amount + 1.0 / TICKS)
  }

  /** The clip gives away no tick: a tick more would break one of the limits. */
  lemma AmountIsTight(caps: Caps, targets: seq<Position>, c: Candidate, t: Terms)
    requires ValidTerms(c, t, caps) && NonzeroWeights(c.legs)
    ensures IsTight(caps, targets, c, t, Amount(caps, targets, c, t))
  {
    LimitIsLeast(caps, targets, c, t);
    assert IsLimit(caps, targets, c, t, Limit(caps, targets, c, t, |c.legs|));
  }

  /** The guards passed before sizing. */
  predicate RoomFor(caps: Caps, targets: seq<Position>, c: Candidate) {
    && (forall p, i :: p in targets && 0 <= i < |c.legs| ==> p.entity != c.legs[i].entity)
    && |Groups(targets)| < caps.maxGroups
    && (forall i :: 0 <= i < |c.legs| ==> |SectorGroups(targets, c.legs[i].sector)| < caps.maxSectorGroups)
  }

  lemma {:induction false} LimitBelowPortfolio(caps: Caps, targets: seq<Position>, c: Candidate, t: Terms, n: nat)
    requires ValidTerms(c, t, caps) && NonzeroWeights(c.legs) && n <= |c.legs|
    ensures Limit(caps, targets, c, t, n) <= WithNetLimit(caps, targets, c, PortfolioLimit(caps, targets, c, t))
  {
    if n > 0 {
      LimitBelowPortfolio(caps, targets, c, t, n - 1);
    }
  }

  lemma {:induction false} LimitBelowLeg(caps: Caps, targets: seq<Position>, c: Candidate, t: Terms, n: nat, i: nat)
    requires ValidTerms(c, t, caps) && NonzeroWeights(c.legs) && i < n <= |c.legs|
    ensures WeightIn(c.legs, c.alpha, OfSector(c.legs[i].sector)) > 0.0
    ensures Limit(caps, targets, c, t, n) <= SectorLimit(caps, targets, c, c.legs[i].sector)
    ensures Limit(caps, targets, c, t, n) <= t.legCaps[i] / Abs(c.legs[i].weight)
  {
    SectorWeightPositive(c.legs, c.alpha, i);
    if i < n - 1 {
      LimitBelowLeg(caps, targets, c, t, n - 1, i);
    }
  }

  lemma ClearDivision(a: real, x: real, w: real)
    requires w > 0.0 && a <= x / w
    ensures Times(a, w) <= x
  {
    assert (x / w) * w == x;
    assert (x / w - a) * w >= 0.0;
  }

  lemma {:induction false} GroupsConcat(a: seq<Position>, b: seq<Position>)
    ensures Groups(a + b) == Groups(a) + Groups(b)
    ensures forall s :: SectorGroups(a + b, s) == SectorGroups(a, s) + SectorGroups(b, s)
  {
  }

  /** A bundle is one group. */
  lemma BundleGroups(c: Candidate, b: seq<Position>)
    requires IsBundle(c, b)
    ensures Groups(b) <= {c.signal}
    ensures forall s :: SectorGroups(b, s) <= {c.signal}
    ensures forall s :: (forall i :: 0 <= i < |c.legs| ==> c.legs[i].sector != s) ==> SectorGroups(b, s) == {}
  {
  }

  lemma AddOne(a: set<Id>, b: set<Id>, x: Id)
    requires b <= {x}
    ensures |a + b| <= |a| + 1
    ensures b == {} ==> a + b == a
  {
    assert b == {} || b == {x};
    if b == {x} && x in a {
      assert a + b == a;
    }
  }

  /** The group caps after adding a bundle for which there was room. */
  lemma GroupCapsHold(caps: Caps, targets: seq<Position>, c: Candidate, b: seq<Position>)
    requires RoomFor(caps, targets, c) && IsBundle(c, b)
    requires forall p :: p in targets ==> |SectorGroups(targets, p.sector)| <= caps.maxSectorGroups
    ensures |Groups(targets + b)| <= caps.maxGroups
    ensures forall p :: p in targets + b ==> |SectorGroups(targets + b, p.sector)| <= caps.maxSectorGroups
  {
    var after := targets + b;
    GroupsConcat(targets, b);
    BundleGroups(c, b);
    AddOne(Groups(targets), Groups(b), c.signal);
    forall p | p in after
      ensures |SectorGroups(after, p.sector)| <= caps.maxSectorGroups
    {
      AddOne(SectorGroups(targets, p.sector), SectorGroups(b, p.sector), c.signal);
      if i :| 0 <= i < |c.legs| && c.legs[i].sector == p.sector {
        assert |SectorGroups(targets, c.legs[i].sector)| < caps.maxSectorGroups;
      } else {
        assert p in targets;
      }
    }
  }

  lemma NetBound(net: real, amount: real, w: real, cap: real)
    requires amount >= 0.0 && -cap <= net <= cap
    requires w > 0.0 ==> amount <= (cap - net) / w
    requires w < 0.0 ==> amount <= (cap + net) / (-w)
    ensures -cap <= net + Times(amount, w) <= cap
  {
    if w > 0.0 {
      ClearDivision(amount, cap - net, w);
      assert amount * w >= 0.0;
    } else if w < 0.0 {
      ClearDivision(amount, cap + net, -w);
      assert amount * (-w) >= 0.0;
      assert amount * w == -(amount * (-w));
    } else {
      assert amount * w == 0.0;
    }
  }

  /** What the limits say of the bundle itself, with `charge` the risk of the amount at unit gross. */
  ghost predicate Respects(
      caps: Caps, targets: seq<Position>, c: Candidate, b: seq<Position>, amount: real, charge: real) {
    && Gross(targets, Everything) + amount <= caps.maxGross
    && Gross(targets, OfAlpha(c.alpha)) + amount <= caps.maxAlpha
    && Risk(targets) + charge <= caps.maxOpenRisk
    && -caps.maxNet <= Net(targets) + Net(b) <= caps.maxNet
    && (forall i :: 0 <= i < |c.legs| ==> LegRespects(caps, targets, b, c.legs[i]))
  }

  ghost predicate LegRespects(caps: Caps, targets: seq<Position>, b: seq<Position>, x: Leg) {
    && Gross(targets, OfSector(x.sector)) + Gross(b, OfSector(x.sector)) <= caps.maxSector
    && Gross(b, OfEntity(x.entity)) <= caps.maxSymbol
  }

  /** `b` adds `amount` in proportion to the candidate's weights. */
  ghost predicate Proportional(c: Candidate, b: seq<Position>, amount: real) {
    && (forall k :: Gross(b, k) == Times(amount, WeightIn(c.legs, c.alpha, k)))
    && Net(b) == Times(amount, NetWeight(c.legs))
  }

  lemma BundleProportional(c: Candidate, amount: real, loss: real)
    requires amount >= 0.0
    ensures Proportional(c, Bundle(c, amount, loss), amount)
    ensures IsBundle(c, Bundle(c, amount, loss))
  {
    BundleNet(c.legs, c.signal, c.alpha, amount, loss);
    forall k
      ensures Gross(Bundle(c, amount, loss), k) == Times(amount, WeightIn(c.legs, c.alpha, k))
    {
      BundleGross(c.legs, c.signal, c.alpha, amount, loss, k);
    }
  }

  lemma SectorCleared(caps: Caps, targets: seq<Position>, c: Candidate, b: seq<Position>, amount: real, sector: string)
    requires Proportional(c, b, amount) && WeightIn(c.legs, c.alpha, OfSector(sector)) > 0.0
    requires amount <= SectorLimit(caps, targets, c, sector)
    ensures Gross(targets, OfSector(sector)) + Gross(b, OfSector(sector)) <= caps.maxSector
  {
    ClearDivision(amount, caps.maxSector - Gross(targets, OfSector(sector)), WeightIn(c.legs, c.alpha, OfSector(sector)));
  }

  lemma SymbolCleared(c: Candidate, b: seq<Position>, amount: real, cap: real, i: nat)
    requires Proportional(c, b, amount) && i < |c.legs| && c.legs[i].weight != 0.0 && DistinctEntities(c.legs)
    requires amount <= cap / Abs(c.legs[i].weight)
    ensures Gross(b, OfEntity(c.legs[i].entity)) <= cap
  {
    EntityWeight(c.legs, c.alpha, i);
    ClearDivision(amount, cap, Abs(c.legs[i].weight));
  }

  lemma NetCleared(caps: Caps, targets: seq<Position>, c: Candidate, b: seq<Position>, amount: real, limit: real)
    requires Proportional(c, b, amount) && amount >= 0.0 && -caps.maxNet <= Net(targets) <= caps.maxNet
    requires amount <= WithNetLimit(caps, targets, c, limit)
    ensures -caps.maxNet <= Net(targets) + Net(b) <= caps.maxNet
    ensures amount <= limit
  {
    NetBound(Net(targets), amount, NetWeight(c.legs), caps.maxNet);
  }

  lemma PortfolioCleared(caps: Caps, targets: seq<Position>, c: Candidate, t: Terms, amount: real)
    requires t.loss > 0.0 && amount <= PortfolioLimit(caps, targets, c, t)
    ensures amount <= t.desired
    ensures Gross(targets, Everything) + amount <= caps.maxGross
    ensures Gross(targets, OfAlpha(c.alpha)) + amount <= caps.maxAlpha
    ensures Gross(targets, OfAlpha(c.alpha)) + amount <= t.budget
    ensures Risk(targets) + Times(amount, t.loss) <= caps.maxOpenRisk
    ensures Times(amount, t.loss) <= caps.maxCandidateRisk
  {
    ClearDivision(amount, caps.maxOpenRisk - Risk(targets), t.loss);
    ClearDivision(amount, caps.maxCandidateRisk, t.loss);
  }

  /** A clipped amount respects every limit. */
  lemma ClipRespects(caps: Caps, targets: seq<Position>, c: Candidate, t: Terms, amount: real, b: seq<Position>)
    requires ValidTerms(c, t, caps) && NonzeroWeights(c.legs) && DistinctEntities(c.legs) && Abs(Net(targets)) <= caps.maxNet
    requires 0.0 <= amount <= Limit(caps, targets, c, t, |c.legs|)
    requires Proportional(c, b, amount)
    ensures Respects(caps, targets, c, b, amount, Times(amount, t.loss))
    ensures amount <= t.desired && Gross(targets, OfAlpha(c.alpha)) + amount <= t.budget && Times(amount, t.loss) <= caps.maxCandidateRisk
  {
    LimitBelowPortfolio(caps, targets, c, t, |c.legs|);
    NetCleared(caps, targets, c, b, amount, PortfolioLimit(caps, targets, c, t));
    PortfolioCleared(caps, targets, c, t, amount);
    forall i | 0 <= i < |c.legs|
      ensures LegRespects(caps, targets, b, c.legs[i])
    {
      LimitBelowLeg(caps, targets, c, t, |c.legs|, i);
      SectorCleared(caps, targets, c, b, amount, c.legs[i].sector);
      SymbolCleared(c, b, amount, t.legCaps[i], i);
    }
  }

  /** `b` holds one position of the candidate's group for each leg, on that leg's security and sector. */
  ghost predicate IsBundle(c: Candidate, b: seq<Position>) {
    && |b| == |c.legs|
    && forall i :: 0 <= i < |b| ==>
         && b[i].entity == c.legs[i].entity && b[i].sector == c.legs[i].sector
         && b[i].alpha == c.alpha && b[i].group == c.signal
  }

  lemma {:induction false} UncoveredGross(b: seq<Position>, k: Scope)
    requires forall i :: 0 <= i < |b| ==> !Covers(k, b[i].entity, b[i].sector, b[i].alpha)
    ensures Gross(b, k) == 0.0
  {
    if b != [] {
      UncoveredGross(b[..|b| - 1], k);
    }
  }

  lemma SectorAfter(caps: Caps, targets: seq<Position>, c: Candidate, b: seq<Position>, p: Position)
    requires IsBundle(c, b) && p in targets + b
    requires p in targets ==> Gross(targets, OfSector(p.sector)) <= caps.maxSector
    requires forall i :: 0 <= i < |c.legs| ==> LegRespects(caps, targets, b, c.legs[i])
    ensures Gross(targets + b, OfSector(p.sector)) <= caps.maxSector
  {
    GrossConcat(targets, b, OfSector(p.sector));
    if i :| 0 <= i < |c.legs| && c.legs[i].sector == p.sector {
      assert LegRespects(caps, targets, b, c.legs[i]);
    } else {
      UncoveredGross(b, OfSector(p.sector));
    }
  }

  lemma SymbolAfter(caps: Caps, targets: seq<Position>, c: Candidate, b: seq<Position>, p: Position)
    requires IsBundle(c, b) && p in targets + b
    requires forall p, i :: p in targets && 0 <= i < |c.legs| ==> p.entity != c.legs[i].entity
    requires p in targets ==> Gross(targets, OfEntity(p.entity)) <= caps.maxSymbol
    requires forall i :: 0 <= i < |c.legs| ==> LegRespects(caps, targets, b, c.legs[i])
    ensures Gross(targets + b, OfEntity(p.entity)) <= caps.maxSymbol
  {
    GrossConcat(targets, b, OfEntity(p.entity));
    if i :| 0 <= i < |c.legs| && c.legs[i].entity == p.entity {
      NotHeld(targets, p.entity);
      assert LegRespects(caps, targets, b, c.legs[i]);
    } else {
      UncoveredGross(b, OfEntity(p.entity));
    }
  }

  lemma AlphaAfter(caps: Caps, targets: seq<Position>, c: Candidate, b: seq<Position>, p: Position)
    requires IsBundle(c, b) && p in targets + b
    requires p in targets ==> Gross(targets, OfAlpha(p.alpha)) <= caps.maxAlpha
    requires Gross(targets + b, OfAlpha(c.alpha)) <= caps.maxAlpha
    ensures Gross(targets + b, OfAlpha(p.alpha)) <= caps.maxAlpha
  {
    if p.alpha != c.alpha {
      GrossConcat(targets, b, OfAlpha(p.alpha));
      UncoveredGross(b, OfAlpha(p.alpha));
    }
  }

  lemma AttributesAfter(
      caps: Caps, targets: seq<Position>, c: Candidate, b: seq<Position>, amount: real, charge: real, p: Position)
    requires IsBundle(c, b) && WithinCaps(targets, caps) && RoomFor(caps, targets, c)
    requires Respects(caps, targets, c, b, amount, charge)
    requires Gross(targets + b, OfAlpha(c.alpha)) <= caps.maxAlpha
    requires p in targets + b
    ensures AttributeCaps(targets + b, caps, p)
  {
    assert forall q :: q in targets ==> AttributeCaps(targets, caps, q);
    GroupCapsHold(caps, targets, c, b);
    AlphaAfter(caps, targets, c, b, p);
    SectorAfter(caps, targets, c, b, p);
    SymbolAfter(caps, targets, c, b, p);
  }

  /** The three caps that the clip charges as if the legs had unit gross. */
  predicate UnitGrossCaps(caps: Caps, after: seq<Position>, alpha: AlphaFamily) {
    && Gross(after, Everything) <= caps.maxGross
    && Gross(after, OfAlpha(alpha)) <= caps.maxAlpha
    && Risk(after) <= caps.maxOpenRisk
  }

  lemma RecheckOfRespectful(
      caps: Caps, targets: seq<Position>, c: Candidate, b: seq<Position>, amount: real, charge: real)
    requires IsBundle(c, b) && b != [] && WithinCaps(targets, caps) && RoomFor(caps, targets, c)
    requires Respects(caps, targets, c, b, amount, charge)
    ensures WithinCaps(targets + b, caps) <==> UnitGrossCaps(caps, targets + b, c.alpha)
  {
    var after := targets + b;
    assert forall q :: q in targets ==> AttributeCaps(targets, caps, q);
    GroupCapsHold(caps, targets, c, b);
    NetConcat(targets, b);
    assert b[0] in after && b[0].alpha == c.alpha;
    assert WithinCaps(after, caps) ==> AttributeCaps(after, caps, b[0]);
    if UnitGrossCaps(caps, after, c.alpha) {
      forall p | p in after
        ensures AttributeCaps(after, caps, p)
      {
        AttributesAfter(caps, targets, c, b, amount, charge, p);
      }
    }
  }

  /** The gross, alpha and risk caps leave room for the amount at the true gross of the legs. */
  predicate FitsTrueGross(caps: Caps, targets: seq<Position>, c: Candidate, loss: real, amount: real) {
    var added := Times(amount, LegGross(c.legs));
    && Gross(targets, Everything) + added <= caps.maxGross
    && Gross(targets, OfAlpha(c.alpha)) + added <= caps.maxAlpha
    && Risk(targets) + Times(Times(amount, loss), LegGross(c.legs)) <= caps.maxOpenRisk
  }

  lemma TrueGrossAdds(caps: Caps, targets: seq<Position>, c: Candidate, loss: real, amount: real, charge: real)
    requires amount >= 0.0 && charge == Times(amount, loss) && charge >= 0.0
    ensures UnitGrossCaps(caps, targets + Bundle(c, amount, loss), c.alpha) <==> FitsTrueGross(caps, targets, c, loss, amount)
  {
    var b := Bundle(c, amount, loss);
    GrossConcat(targets, b, Everything);
    GrossConcat(targets, b, OfAlpha(c.alpha));
    RiskConcat(targets, b);
    BundleGross(c.legs, c.signal, c.alpha, amount, loss, Everything);
    BundleGross(c.legs, c.signal, c.alpha, amount, loss, OfAlpha(c.alpha));
    BundleRisk(c.legs, c.signal, c.alpha, amount, loss, charge);
    WeightBounds(c.legs, c.alpha, Everything);
    WeightBounds(c.legs, c.alpha, OfAlpha(c.alpha));
  }

  /**
   What the recheck can find: a clipped bundle with room passes exactly when the portfolio has room for it at
   the true gross of its legs. Every other cap already holds.
   */
  lemma RecheckCharacterised(caps: Caps, targets: seq<Position>, c: Candidate, t: Terms, amount: real)
    requires ValidTerms(c, t, caps) && NonzeroWeights(c.legs) && DistinctEntities(c.legs) && c.legs != []
    requires WithinCaps(targets, caps) && RoomFor(caps, targets, c)
    requires 0.0 <= amount <= Limit(caps, targets, c, t, |c.legs|)
    ensures WithinCaps(targets + Bundle(c, amount, t.loss), caps) <==> FitsTrueGross(caps, targets, c, t.loss, amount)
  {
    Nonnegative(amount, t.loss);
    BundleProportional(c, amount, t.loss);
    ClipRespects(caps, targets, c, t, amount, Bundle(c, amount, t.loss));
    RecheckOfRespectful(caps, targets, c, Bundle(c, amount, t.loss), amount, Times(amount, t.loss));
    TrueGrossAdds(caps, targets, c, t.loss, amount, Times(amount, t.loss));
  }

  lemma ShrinkByWeight(a: real, w: real)
    requires a >= 0.0 && w <= 1.0
    ensures Times(a, w) <= a
  {
    assert a * (1.0 - w) >= 0.0;
  }

  /** What a bundle of at most unit gross adds is at most its amount. */
  lemma UnitGrossAdds(c: Candidate, b: seq<Position>, amount: real)
    requires Proportional(c, b, amount) && amount >= 0.0 && LegGross(c.legs) <= 1.0
    ensures Gross(b, Everything) <= amount && Gross(b, OfAlpha(c.alpha)) <= amount
  {
    WeightBounds(c.legs, c.alpha, Everything);
    WeightBounds(c.legs, c.alpha, OfAlpha(c.alpha));
    ShrinkByWeight(amount, LegGross(c.legs));
  }

  lemma UnitGrossRisk(c: Candidate, amount: real, loss: real, charge: real)
    requires charge == Times(amount, loss) && charge >= 0.0 && LegGross(c.legs) <= 1.0
    ensures Risk(Bundle(c, amount, loss)) <= charge
  {
    BundleRisk(c.legs, c.signal, c.alpha, amount, loss, charge);
    ShrinkByWeight(charge, LegGross(c.legs));
  }

  lemma Nonnegative(x: real, y: real)
    requires x >= 0.0 && y >= 0.0
    ensures Times(x, y) >= 0.0
  {
  }

  lemma UnitGrossSuffices(
      caps: Caps, targets: seq<Position>, c: Candidate, b: seq<Position>, amount: real, charge: real)
    requires Respects(caps, targets, c, b, amount, charge)
    requires Gross(b, Everything) <= amount && Gross(b, OfAlpha(c.alpha)) <= amount && Risk(b) <= charge
    ensures UnitGrossCaps(caps, targets + b, c.alpha)
  {
    GrossConcat(targets, b, Everything);
    GrossConcat(targets, b, OfAlpha(c.alpha));
    RiskConcat(targets, b);
  }

  /** With legs of at most unit gross the clip alone implies the recheck: it can reject no positive amount. */
  lemma ClipImpliesRecheck(caps: Caps, targets: seq<Position>, c: Candidate, t: Terms, amount: real)
    requires ValidTerms(c, t, caps) && NonzeroWeights(c.legs) && DistinctEntities(c.legs) && c.legs != []
    requires WithinCaps(targets, caps) && RoomFor(caps, targets, c)
    requires LegGross(c.legs) <= 1.0
    requires 0.0 <= amount <= Limit(caps, targets, c, t, |c.legs|)
    ensures WithinCaps(targets + Bundle(c, amount, t.loss), caps)
  {
    var b, charge := Bundle(c, amount, t.loss), Times(amount, t.loss);
    Nonnegative(amount, t.loss);
    BundleProportional(c, amount, t.loss);
    ClipRespects(caps, targets, c, t, amount, b);
    UnitGrossAdds(c, b, amount);
    UnitGrossRisk(c, amount, t.loss, charge);
    UnitGrossSuffices(caps, targets, c, b, amount, charge);
    RecheckOfRespectful(caps, targets, c, b, amount, charge);
  }

  /** A clipped amount never exceeds what the candidate wanted. */
  lemma AmountWithinDesired(caps: Caps, targets: seq<Position>, c: Candidate, t: Terms)
    requires ValidTerms(c, t, caps) && NonzeroWeights(c.legs) && Amount(caps, targets, c, t) > 0.0
    ensures Amount(caps, targets, c, t) <= t.desired
  {
    LimitBelowPortfolio(caps, targets, c, t, |c.legs|);
  }

  /** Caps that leave an alpha a single tick and are wide open otherwise. */
  function TickCaps(): Caps {
    Caps(1.0 / TICKS, 1.0, 1.0, 1.0, 1.0, 1.0, 1.0, 1, 1)
  }

  /** Terms under which nothing but the caps matters, for any amount that is not dust. */
  ghost predicate Open(t: Terms, n: nat) {
    && t.desired >= 1.0 / TICKS && t.budget == 1.0 && t.loss == 1.0
    && |t.legCaps| == n && forall i :: 0 <= i < n ==> t.legCaps[i] == 1.0
  }

  lemma {:induction false} SingleWeights(legs: seq<Leg>, i: nat)
    requires i < |legs|
    ensures Abs(legs[i].weight) <= LegGross(legs)
    ensures Abs(NetWeight(legs)) <= LegGross(legs)
  {
    var n := |legs| - 1;
    WeightBounds(legs[..n], PairsStatArb, Everything);
    if n > 0 {
      SingleWeights(legs[..n], if i < n then i else 0);
    }
  }

  lemma RatioAboveTick(x: real, w: real)
    requires x == 1.0 && 0.0 < w <= 1.0 + TOLERANCE
    ensures x / w >= 1.0 / TICKS
  {
    var q, tick := x / w, 1.0 / TICKS;
    assert q * w == x;
    assert (q - tick) * w == x - tick * w > 0.0;
  }

  lemma OpenLimits(c: Candidate, t: Terms, x: real)
    requires WellFormed(c) && Open(t, |c.legs|) && ValidTerms(c, t, TickCaps()) && IsLimit(TickCaps(), [], c, t, x)
    ensures x >= 1.0 / TICKS
  {
    var caps, w := TickCaps(), NetWeight(c.legs);
    SingleWeights(c.legs, 0);
    if w > 0.0 {
      RatioAboveTick(caps.maxNet - Net([]), w);
    }
    if w < 0.0 {
      RatioAboveTick(caps.maxNet + Net([]), -w);
    }
    if !IsPortfolioLimit(caps, [], c, t, x) {
      var i :| 0 <= i < |c.legs| && IsLegLimit(caps, [], c, t, i, x);
      OpenLegLimits(c, t, i, x);
    }
  }

  lemma OpenLegLimits(c: Candidate, t: Terms, i: nat, x: real)
    requires WellFormed(c) && Open(t, |c.legs|) && ValidTerms(c, t, TickCaps())
    requires i < |c.legs| && IsLegLimit(TickCaps(), [], c, t, i, x)
    ensures x >= 1.0 / TICKS
  {
    var k := OfSector(c.legs[i].sector);
    SectorWeightPositive(c.legs, c.alpha, i);
    WeightBounds(c.legs, c.alpha, k);
    SingleWeights(c.legs, i);
    RatioAboveTick(1.0 - Gross([], k), WeightIn(c.legs, c.alpha, k));
    RatioAboveTick(t.legCaps[i], Abs(c.legs[i].weight));
  }

  /** On an empty portfolio under open terms the clip grants the one tick that the alpha cap leaves. */
  lemma OpenAmount(c: Candidate, t: Terms)
    requires WellFormed(c) && Open(t, |c.legs|)
    ensures ValidTerms(c, t, TickCaps()) && Limit(TickCaps(), [], c, t, |c.legs|) == 1.0 / TICKS
    ensures Amount(TickCaps(), [], c, t) == 1.0 / TICKS
  {
    var caps := TickCaps();
    LimitIsLeast(caps, [], c, t);
    OpenLimits(c, t, Limit(caps, [], c, t, |c.legs|));
    assert IsLimit(caps, [], c, t, caps.maxAlpha - Gross([], OfAlpha(c.alpha)));
    TickIsWhole();
  }

  lemma OpenRoom(c: Candidate)
    ensures TickCaps().Valid() && WithinCaps([], TickCaps()) && RoomFor(TickCaps(), [], c)
  {
    assert forall s :: SectorGroups([], s) == {};
    assert Groups([]) == {};
  }

  lemma TickDoesNotFit(c: Candidate)
    requires LegGross(c.legs) > 1.0
    ensures !FitsTrueGross(TickCaps(), [], c, 1.0, 1.0 / TICKS)
  {
    GrowByWeight(1.0 / TICKS, LegGross(c.legs));
  }

  /**
   The converse: whatever the legs are, as long as they gross more than one, there is a clip to a positive
   amount that the recheck rejects.
   */
  lemma OverGrossRejected(c: Candidate, t: Terms)
    requires WellFormed(c) && LegGross(c.legs) > 1.0 && Open(t, |c.legs|)
    ensures TickCaps().Valid() && ValidTerms(c, t, TickCaps())
    ensures WithinCaps([], TickCaps()) && RoomFor(TickCaps(), [], c)
    ensures Amount(TickCaps(), [], c, t) == 1.0 / TICKS
    ensures !WithinCaps([] + Bundle(c, 1.0 / TICKS, t.loss), TickCaps())
  {
    OpenAmount(c, t);
    OpenRoom(c);
    TickDoesNotFit(c);
    RecheckCharacterised(TickCaps(), [], c, t, 1.0 / TICKS);
  }

  lemma TickIsWhole()
    ensures Quantize(1.0 / TICKS) == 1.0 / TICKS
  {
    assert (1.0 / TICKS) * TICKS == 1.0;
  }

  lemma GrowByWeight(a: real, w: real)
    requires a > 0.0 && w > 1.0
    ensures Times(a, w) > a
  {
    assert a * (w - 1.0) > 0.0;
  }

  /** A candidate has been clipped to a positive amount. */
  ghost predicate Clipped(caps: Caps, targets: seq<Position>, c: Candidate, t: Terms) {
    && caps.Valid() && ValidTerms(c, t, caps) && NonzeroWeights(c.legs)
    && WithinCaps(targets, caps) && RoomFor(caps, targets, c)
    && Amount(caps, targets, c, t) > 0.0
  }

  /** The recheck passes whatever the clip granted. */
  ghost predicate PassesRecheck(caps: Caps, targets: seq<Position>, c: Candidate, t: Terms)
    requires Clipped(caps, targets, c, t)
  {
    WithinCaps(targets + Bundle(c, Amount(caps, targets, c, t), t.loss), caps)
  }

  /** The recheck of a well-formed candidate is redundant exactly when its legs gross at most one. */
  lemma RedundantIffUnitGross(c: Candidate)
    requires WellFormed(c)
    ensures (forall caps, targets, t :: Clipped(caps, targets, c, t) ==> PassesRecheck(caps, targets, c, t)) <==> LegGross(c.legs) <= 1.0
  {
    if LegGross(c.legs) <= 1.0 {
      forall caps, targets, t | Clipped(caps, targets, c, t)
        ensures PassesRecheck(caps, targets, c, t)
      {
        ClipImpliesRecheck(caps, targets, c, t, Amount(caps, targets, c, t));
      }
    } else {
      var t := Terms(1.0, 1.0, 1.0, seq(|c.legs|, i => 1.0));
      OverGrossRejected(c, t);
      assert Clipped(TickCaps(), [], c, t) && !PassesRecheck(TickCaps(), [], c, t);
    }
  }

  function TiltedPair(): Candidate {
    Candidate(1, PairsStatArb, 0, 1.0, [Leg(10, "A", "S", 0.5000000000005), Leg(11, "B", "S", -0.5000000000005)], 0)
  }

  /**
   The tolerance on unit gross is where the recheck earns its keep: a well-formed pair whose legs gross
   one tick more than one is clipped to a positive amount and then rejected.
   */
  lemma RecheckCanReject()
    ensures var caps := Caps(1.0, 0.1, 0.1, 1.0, 1.0, 1.0, 1.0, 4, 2);
            var c, t := TiltedPair(), Terms(1.0, 1.0, 0.5, [1.0, 1.0]);
            && caps.Valid() && WellFormed(c) && ValidTerms(c, t, caps)
            && WithinCaps([], caps) && RoomFor(caps, [], c)
            && Amount(caps, [], c, t) == 0.1
            && !WithinCaps(Bundle(c, 0.1, 0.5), caps)
  {
    var caps := Caps(1.0, 0.1, 0.1, 1.0, 1.0, 1.0, 1.0, 4, 2);
    var c, t := TiltedPair(), Terms(1.0, 1.0, 0.5, [1.0, 1.0]);
    TiltedWeights();
    TiltedAmount(caps, t);
    BundleGross(c.legs, c.signal, c.alpha, 0.1, 0.5, Everything);
    WeightBounds(c.legs, c.alpha, Everything);
    assert Gross(Bundle(c, 0.1, 0.5), Everything) > 0.1;
  }

  lemma TiltedWeights()
    ensures var c := TiltedPair();
            && LegGross(c.legs) == 1.000000000001 && NetWeight(c.legs) == 0.0
            && WeightIn(c.legs, c.alpha, OfSector("S")) == 1.000000000001
  {
    var c := TiltedPair();
    var one := c.legs[..1];
    assert one[..0] == [];
    assert LegGross(one) == 0.5000000000005;
    assert NetWeight(one) == 0.5000000000005;
    assert WeightIn(one, c.alpha, OfSector("S")) == 0.5000000000005;
  }

  lemma TiltedAmount(caps: Caps, t: Terms)
    requires caps == Caps(1.0, 0.1, 0.1, 1.0, 1.0, 1.0, 1.0, 4, 2) && t == Terms(1.0, 1.0, 0.5, [1.0, 1.0])
    ensures caps.Valid() && WellFormed(TiltedPair()) && ValidTerms(TiltedPair(), t, caps)
    ensures Amount(caps, [], TiltedPair(), t) == 0.1
  {
    var c := TiltedPair();
    TiltedWeights();
    assert Limit(caps, [], c, t, 0) == 0.1;
    assert Limit(caps, [], c, t, 1) == 0.1;
    assert Limit(caps, [], c, t, 2) == 0.1;
    assert (0.1 * TICKS).Floor == 100000000000;
  }
}
