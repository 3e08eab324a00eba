/** The clip, told as room: an amount fits when it leaves every total within its cap. */
module Fitting {
  import opened Prelude
  import opened Rules
  import opened Candidates
  import opened Portfolio
  import opened Exposure
  import opened Clip

  ghost function Magnitude(x: Leg): real {
    if x.weight >= 0.0 then x.weight else -x.weight
  }

  /** Signed weight of a list of legs. */
  ghost function SignedWeight(legs: seq<Leg>): real {
    Sum(seq(|legs|, i requires 0 <= i < |legs| => legs[i].weight))
  }

  /** Gross weight of the legs in a sector. */
  ghost function SectorWeight(legs: seq<Leg>, sector: string): real {
    Sum(seq(|legs|, i requires 0 <= i < |legs| => if legs[i].sector == sector then Magnitude(legs[i]) else 0.0))
  }

  lemma {:induction false} WeightMeaning(legs: seq<Leg>, alpha: AlphaFamily, sector: string)
    ensures NetWeight(legs) == SignedWeight(legs)
    ensures WeightIn(legs, alpha, OfSector(sector)) == SectorWeight(legs, sector)
  {
    if legs != [] {
      var n := |legs| - 1;
      WeightMeaning(legs[..n], alpha, sector);
      var signed := seq(|legs|, i requires 0 <= i < |legs| => legs[i].weight);
      var gross := seq(|legs|, i requires 0 <= i < |legs| => if legs[i].sector == sector then Magnitude(legs[i]) else 0.0);
      assert signed[..n] == seq(n, i requires 0 <= i < n => legs[..n][i].weight);
      assert gross[..n] == seq(n, i requires 0 <= i < n => if legs[..n][i].sector == sector then Magnitude(legs[..n][i]) else 0.0);
    }
  }

  /** Open risk and candidate risk keep within their caps with an amount `x` more at that loss. */
  ghost predicate FitsRisk(caps: Caps, risk: real, loss: real, x: real) {
    risk + x * loss <= caps.maxOpenRisk && x * loss <= caps.maxCandidateRisk
  }

  /** The net keeps within its cap on the side that legs of net weight `w` push it to. */
  ghost predicate FitsNet(caps: Caps, net: real, w: real, x: real) {
    && (w > 0.0 ==> net + x * w <= caps.maxNet)
    && (w < 0.0 ==> -caps.maxNet <= net + x * w)
  }

  /** The book keeps within its totals with an amount `x` more of the candidate. */
  ghost predicate FitsBook(caps: Caps, targets: seq<Position>, c: Candidate, t: Terms, x: real) {
    var held := Total(targets, OfItsAlpha(c.alpha));
    && x <= t.desired && held + x <= t.budget && held + x <= caps.maxAlpha
    && Total(targets, Size) + x <= caps.maxGross
    && FitsRisk(caps, Total(targets, (p: Position) => p.risk), t.loss, x)
    && FitsNet(caps, Total(targets, (p: Position) => p.signed), SignedWeight(c.legs), x)
  }

  /** The sector and the security of a leg keep within their caps. */
  ghost predicate FitsLeg(caps: Caps, targets: seq<Position>, c: Candidate, t: Terms, i: nat, x: real)
    requires i < |c.legs| == |t.legCaps|
  {
    && Total(targets, OfItsSector(c.legs[i].sector)) + x * SectorWeight(c.legs, c.legs[i].sector) <= caps.maxSector
    && x * Magnitude(c.legs[i]) <= t.legCaps[i]
  }

  ghost predicate Fits(caps: Caps, targets: seq<Position>, c: Candidate, t: Terms, x: real)
    requires |t.legCaps| == |c.legs|
  {
    && FitsBook(caps, targets, c, t, x)
    && forall i :: 0 <= i < |c.legs| ==> FitsLeg(caps, targets, c, t, i, x)
  }

  ghost function Ticks(n: nat): real {
    n as real * 0.000000000001
  }

  ghost predicate WholeTicks(x: real) {
    exists n: nat :: x == Ticks(n)
  }

  /** The largest whole number of ticks that fits, or nothing when not even one does. */
  ghost predicate IsLargestFit(caps: Caps, targets: seq<Position>, c: Candidate, t: Terms, x: real)
    requires |t.legCaps| == |c.legs|
  {
    && WholeTicks(x) && (x > 0.0 ==> Fits(caps, targets, c, t, x))
    && forall y :: WholeTicks(y) && y > x ==> !Fits(caps, targets, c, t, y)
  }

  lemma Cleared(x: real, a: real, w: real, q: real)
    requires w > 0.0 && q == a / w
    ensures x <= q <==> x * w <= a
  {
    assert a == q * w;
    if x <= q {
      assert (q - x) * w >= 0.0;
    } else {
      assert (x - q) * w > 0.0;
    }
  }

  lemma FitsRiskMeaning(caps: Caps, risk: real, loss: real, x: real)
    requires loss > 0.0
    ensures FitsRisk(caps, risk, loss, x) <==> x <= (caps.maxOpenRisk - risk) / loss && x <= caps.maxCandidateRisk / loss
  {
    Cleared(x, caps.maxOpenRisk - risk, loss, (caps.maxOpenRisk - risk) / loss);
    Cleared(x, caps.maxCandidateRisk, loss, caps.maxCandidateRisk / loss);
  }

  lemma FitsNetMeaning(caps: Caps, net: real, w: real, x: real)
    ensures w > 0.0 ==> (FitsNet(caps, net, w, x) <==> x <= (caps.maxNet - net) / w)
    ensures w < 0.0 ==> (FitsNet(caps, net, w, x) <==> x <= (caps.maxNet + net) / (-w))
  {
    if w > 0.0 {
      Cleared(x, caps.maxNet - net, w, (caps.maxNet - net) / w);
    }
    if w < 0.0 {
      Cleared(x, caps.maxNet + net, -w, (caps.maxNet + net) / (-w));
      assert x * (-w) == -(x * w);
    }
  }

  lemma FitsBookMeaning(caps: Caps, targets: seq<Position>, c: Candidate, t: Terms, x: real)
    requires t.loss > 0.0
    ensures FitsBook(caps, targets, c, t, x) <==> x <= WithNetLimit(caps, targets, c, PortfolioLimit(caps, targets, c, t))
  {
    TotalsMeaning(targets, OfAlpha(c.alpha));
    TotalsMeaning(targets, Everything);
    WeightMeaning(c.legs, c.alpha, "");
    FitsRiskMeaning(caps, Risk(targets), t.loss, x);
    FitsNetMeaning(caps, Net(targets), NetWeight(c.legs), x);
  }

  lemma FitsLegMeaning(caps: Caps, targets: seq<Position>, c: Candidate, t: Terms, i: nat, x: real)
    requires ValidTerms(c, t, caps) && NonzeroWeights(c.legs) && i < |c.legs|
    ensures WeightIn(c.legs, c.alpha, OfSector(c.legs[i].sector)) > 0.0
    ensures FitsLeg(caps, targets, c, t, i, x) <==>
            x <= SectorLimit(caps, targets, c, c.legs[i].sector) && x <= t.legCaps[i] / Abs(c.legs[i].weight)
  {
    var s := c.legs[i].sector;
    SectorWeightPositive(c.legs, c.alpha, i);
    TotalsMeaning(targets, OfSector(s));
    WeightMeaning(c.legs, c.alpha, s);
    var w := WeightIn(c.legs, c.alpha, OfSector(s));
    Cleared(x, caps.maxSector - Gross(targets, OfSector(s)), w, SectorLimit(caps, targets, c, s));
    Cleared(x, t.legCaps[i], Abs(c.legs[i].weight), t.legCaps[i] / Abs(c.legs[i].weight));
  }

  /** What fits is what the running minimum admits. */
  lemma {:induction false} LimitMeaning(caps: Caps, targets: seq<Position>, c: Candidate, t: Terms, n: nat, x: real)
    requires ValidTerms(c, t, caps) && NonzeroWeights(c.legs) && n <= |c.legs|
    ensures x <= Limit(caps, targets, c, t, n) <==>
            FitsBook(caps, targets, c, t, x) && forall i :: 0 <= i < n ==> FitsLeg(caps, targets, c, t, i, x)
  {
    if n == 0 {
      FitsBookMeaning(caps, targets, c, t, x);
    } else {
      LimitMeaning(caps, targets, c, t, n - 1, x);
      FitsLegMeaning(caps, targets, c, t, n - 1, x);
    }
  }

  lemma TicksMeaning(x: real, q: real)
    requires 0.0 <= q <= x < q + 1.0 / TICKS && q * TICKS == (q * TICKS).Floor as real
    ensures WholeTicks(q) && forall y :: WholeTicks(y) && y > q ==> y > x
  {
    var n := (q * TICKS).Floor;
    assert q == Ticks(n);
    forall y | WholeTicks(y) && y > q
      ensures y > x
    {
      var m: nat :| y == Ticks(m);
      assert m > n;
    }
  }

  /** The amount is the largest whole number of ticks that fits. */
  lemma AmountIsLargestFit(caps: Caps, targets: seq<Position>, c: Candidate, t: Terms)
    requires ValidTerms(c, t, caps) && NonzeroWeights(c.legs)
    ensures IsLargestFit(caps, targets, c, t, Amount(caps, targets, c, t))
  {
    var limit, amount := Limit(caps, targets, c, t, |c.legs|), Amount(caps, targets, c, t);
    TicksMeaning(MaxReal(0.0, limit), amount);
    forall y
      ensures y <= limit <==> Fits(caps, targets, c, t, y)
    {
      LimitMeaning(caps, targets, c, t, |c.legs|, y);
    }
  }
}
