/** The regression and the pair fit, told in sums over their samples. */
module Fits {
  import opened Prelude
  import opened Regression

  ghost predicate IsMean(vs: seq<real>, m: real) {
    m * |vs| as real == Sum(vs)
  }

  ghost function Square(x: real): real {
    x * x
  }

  /** The sum of squared distances from a level. */
  ghost function SquaresAbout(vs: seq<real>, m: real): real {
    Sum(seq(|vs|, i requires 0 <= i < |vs| => Square(vs[i] - m)))
  }

  ghost function Residual(y: real, x: real, l: Line): real {
    y - (l.intercept + l.slope * x)
  }

  /** The sum of squared residuals of a line. */
  ghost function Misfit(ys: seq<real>, xs: seq<real>, l: Line): real
    requires |ys| == |xs|
  {
    Sum(seq(|ys|, i requires 0 <= i < |ys| => Square(Residual(ys[i], xs[i], l))))
  }

  ghost predicate IsBestLine(ys: seq<real>, xs: seq<real>, l: Line) {
    |ys| == |xs| && forall other: Line :: other != l ==> Misfit(ys, xs, l) < Misfit(ys, xs, other)
  }

  /** The mean of the squared distances from the mean is above the floor. */
  ghost predicate Varies(vs: seq<real>) {
    vs != [] && forall m :: IsMean(vs, m) ==> SquaresAbout(vs, m) > VARIANCE_FLOOR * |vs| as real
  }

  /** The best line of two samples of one length that are long enough and where the regressor varies. */
  ghost predicate IsFit(ys: seq<real>, xs: seq<real>, r: Result<Line, Error>) {
    if |ys| != |xs| || |ys| < 3 then r == Err(Insufficient)
    else if !Varies(xs) then r == Err(Degenerate)
    else r.Ok? && IsBestLine(ys, xs, r.value)
  }

  lemma MeanMeaning(vs: seq<real>, m: real)
    requires vs != []
    ensures IsMean(vs, m) <==> m == Mean(vs)
  {
    var n := |vs| as real;
    assert Mean(vs) * n == Sum(vs);
    assert (m - Mean(vs)) * n == m * n - Sum(vs);
  }

  lemma {:induction false} SquaresMeaning(vs: seq<real>, m: real)
    ensures Cross(vs, vs, m, m) == SquaresAbout(vs, m)
  {
    if vs != [] {
      var n := |vs| - 1;
      SquaresMeaning(vs[..n], m);
      var all := seq(|vs|, i requires 0 <= i < |vs| => Square(vs[i] - m));
      assert all[..n] == seq(n, i requires 0 <= i < n => Square(vs[..n][i] - m));
    }
  }

  lemma {:induction false} MisfitMeaning(ys: seq<real>, xs: seq<real>, l: Line)
    requires |ys| == |xs|
    ensures SquaredError(ys, xs, l.intercept, l.slope) == Misfit(ys, xs, l)
  {
    if ys != [] {
      var n := |ys| - 1;
      MisfitMeaning(ys[..n], xs[..n], l);
      var all := seq(|ys|, i requires 0 <= i < |ys| => Square(Residual(ys[i], xs[i], l)));
      assert all[..n] == seq(n, i requires 0 <= i < n => Square(Residual(ys[..n][i], xs[..n][i], l)));
      var r := ys[n] - l.intercept - Times(l.slope, xs[n]);
      assert r == Residual(ys[n], xs[n], l);
    }
  }

  lemma VariesMeaning(vs: seq<real>)
    requires vs != []
    ensures Varies(vs) <==> Covariance(vs, vs) > VARIANCE_FLOOR
  {
    var m, n := Mean(vs), |vs| as real;
    MeanMeaning(vs, m);
    SquaresMeaning(vs, m);
    AboveFloor(SquaresAbout(vs, m), n, Covariance(vs, vs), VARIANCE_FLOOR);
    forall k | IsMean(vs, k)
      ensures k == m
    {
      MeanMeaning(vs, k);
    }
  }

  lemma AboveFloor(x: real, n: real, q: real, floor: real)
    requires n > 0.0 && q == x / n
    ensures q > floor <==> x > floor * n
  {
    assert x == q * n;
    if q > floor {
      assert (q - floor) * n > 0.0;
    } else {
      assert (floor - q) * n >= 0.0;
    }
  }

  /** What a regression answers. */
  lemma FitMeaning(ys: seq<real>, xs: seq<real>)
    ensures IsFit(ys, xs, Ols(ys, xs))
  {
    if |ys| == |xs| && |ys| >= 3 {
      VariesMeaning(xs);
      if Ols(ys, xs).Ok? {
        var l := Ols(ys, xs).value;
        forall other: Line | other != l
          ensures Misfit(ys, xs, l) < Misfit(ys, xs, other)
        {
          OlsIsOptimal(ys, xs, other.intercept, other.slope);
          MisfitMeaning(ys, xs, l);
          MisfitMeaning(ys, xs, other);
        }
      }
    }
  }

  /** The mean of the squared distances from the mean is the square of the deviation. */
  ghost predicate IsDeviation(vs: seq<real>, d: real) {
    d >= 0.0 && forall m :: IsMean(vs, m) ==> d * d * |vs| as real == SquaresAbout(vs, m)
  }

  lemma DeviationMeaning(vs: seq<real>, root: real -> real)
    requires vs != [] && IsRoot(root)
    ensures IsDeviation(vs, PopulationStd(vs, root))
  {
    var m, n, d := Mean(vs), |vs| as real, PopulationStd(vs, root);
    CrossNonnegative(vs, m);
    QuotientSign(Cross(vs, vs, m, m), n);
    SquaresMeaning(vs, m);
    assert Times(d, d) == Covariance(vs, vs);
    assert Covariance(vs, vs) * n == Cross(vs, vs, m, m);
    forall k | IsMean(vs, k)
      ensures d * d * n == SquaresAbout(vs, k)
    {
      MeanMeaning(vs, k);
    }
  }

  /** The figures a pair fit rests on. */
  datatype Moments = Moments(
    line: Result<Line, Error>, spread: seq<real>, deviation: real,
    first: Result<Line, Error>, second: Result<Line, Error>, firstDeviation: real, secondDeviation: real,
    firstMean: real, secondMean: real, lagged: Result<Line, Error>)

  ghost predicate IsSpread(ys: seq<real>, xs: seq<real>, beta: real, spread: seq<real>) {
    |spread| == |ys| == |xs| && forall i :: 0 <= i < |ys| ==> spread[i] == ys[i] - beta * xs[i]
  }

  /** The figures are those of the samples, of their halves, and of the spread against its own past. */
  ghost predicate AreMoments(ys: seq<real>, xs: seq<real>, beta: real, m: Moments) {
    var half := |ys| / 2;
    && IsSpread(ys, xs, beta, m.spread) && IsDeviation(m.spread, m.deviation)
    && |xs| == |ys| && IsFit(ys[..half], xs[..half], m.first) && IsFit(ys[half..], xs[half..], m.second)
    && IsDeviation(m.spread[..half], m.firstDeviation) && IsDeviation(m.spread[half..], m.secondDeviation)
    && IsMean(m.spread[..half], m.firstMean) && IsMean(m.spread[half..], m.secondMean)
    && m.spread != [] && IsFit(m.spread[1..], m.spread[..|m.spread| - 1], m.lagged)
  }

  /** The stability figures of an accepted fit. */
  ghost predicate AreStability(m: Moments, f: PairFit)
    requires m.first.Ok? && m.second.Ok? && m.lagged.Ok?
  {
    var less, more := if m.firstDeviation <= m.secondDeviation then m.firstDeviation else m.secondDeviation,
                      if m.firstDeviation <= m.secondDeviation then m.secondDeviation else m.firstDeviation;
    && f.splitBetaDrift * f.beta == Distance(m.first.value.slope, m.second.value.slope)
    && f.stdRatio * less == more
    && f.meanShift * m.deviation == Distance(m.firstMean, m.secondMean)
    && f.phi == m.lagged.value.slope
  }

  ghost function Distance(x: real, y: real): real {
    if x >= y then x - y else y - x
  }

  /** The answer of a pair fit: the first thing in its way, or the fit with its figures. */
  ghost predicate IsPairFit(
      ys: seq<real>, xs: seq<real>, bars: nat, minStd: real, m: Moments, r: Result<PairFit, Error>) {
    if |ys| != bars then r == Err(WindowMismatch)
    else
      && IsFit(ys, xs, m.line)
      && if m.line.Err? then r == Err(m.line.error)
         else if m.line.value.slope <= 0.0 then r == Err(NonpositiveHedge)
         else
           && AreMoments(ys, xs, m.line.value.slope, m)
           && if m.deviation <= minStd then r == Err(DegenerateSpread)
              else if m.first.Err? then r == Err(m.first.error)
              else if m.second.Err? then r == Err(m.second.error)
              else if m.firstDeviation <= minStd || m.secondDeviation <= minStd then r == Err(DegenerateSpread)
              else if m.lagged.Err? then r == Err(m.lagged.error)
              else
                && r.Ok? && r.value.beta == m.line.value.slope && r.value.intercept == m.line.value.intercept
                && IsMean(m.spread, r.value.spreadMean) && r.value.spreadStd == m.deviation && AreStability(m, r.value)
  }

  lemma {:induction false} SpreadMeaning(ys: seq<real>, xs: seq<real>, beta: real)
    requires |ys| == |xs|
    ensures IsSpread(ys, xs, beta, Spread(ys, xs, beta))
  {
    if ys != [] {
      SpreadMeaning(ys[..|ys| - 1], xs[..|xs| - 1], beta);
    }
  }

  ghost function MomentsOf(ys: seq<real>, xs: seq<real>, beta: real, root: real -> real): Moments
    requires |ys| == |xs| >= 3
  {
    var spread, half := Spread(ys, xs, beta), |ys| / 2;
    Moments(Ols(ys, xs), spread, PopulationStd(spread, root), Ols(ys[..half], xs[..half]), Ols(ys[half..], xs[half..]),
            PopulationStd(spread[..half], root), PopulationStd(spread[half..], root), Mean(spread[..half]), Mean(spread[half..]),
            Ols(spread[1..], spread[..|spread| - 1]))
  }

  lemma MomentsMeaning(ys: seq<real>, xs: seq<real>, beta: real, root: real -> real)
    requires |ys| == |xs| >= 3 && IsRoot(root)
    ensures AreMoments(ys, xs, beta, MomentsOf(ys, xs, beta, root))
  {
    var spread, half := Spread(ys, xs, beta), |ys| / 2;
    SpreadMeaning(ys, xs, beta);
    DeviationMeaning(spread, root);
    DeviationMeaning(spread[..half], root);
    DeviationMeaning(spread[half..], root);
    MeanMeaning(spread[..half], Mean(spread[..half]));
    MeanMeaning(spread[half..], Mean(spread[half..]));
    FitMeaning(ys[..half], xs[..half]);
    FitMeaning(ys[half..], xs[half..]);
    FitMeaning(spread[1..], spread[..|spread| - 1]);
  }

  lemma Quotient(x: real, d: real, q: real)
    requires d != 0.0 && q == x / d
    ensures q * d == x
  {
  }

  lemma StabilityMeaning(m: Moments, f: PairFit)
    requires m.first.Ok? && m.second.Ok? && m.lagged.Ok?
    requires f.beta > 0.0 && m.deviation > 0.0 && m.firstDeviation > 0.0 && m.secondDeviation > 0.0
    requires f.splitBetaDrift == Abs(m.first.value.slope - m.second.value.slope) / Abs(f.beta)
    requires f.stdRatio == MaxReal(m.firstDeviation, m.secondDeviation) / MinReal(m.firstDeviation, m.secondDeviation)
    requires f.meanShift == Abs(m.firstMean - m.secondMean) / m.deviation && f.phi == m.lagged.value.slope
    ensures AreStability(m, f)
  {
    Quotient(Abs(m.first.value.slope - m.second.value.slope), f.beta, f.splitBetaDrift);
    Quotient(MaxReal(m.firstDeviation, m.secondDeviation), MinReal(m.firstDeviation, m.secondDeviation), f.stdRatio);
    Quotient(Abs(m.firstMean - m.secondMean), m.deviation, f.meanShift);
  }

  /** Every pair fit, with the figures it rests on. */
  lemma PairFitMeaning(ys: seq<real>, xs: seq<real>, bars: nat, minStd: real, root: real -> real) returns (m: Moments)
    requires |ys| == |xs| && minStd >= 0.0 && IsRoot(root)
    ensures IsPairFit(ys, xs, bars, minStd, m, FitPair(ys, xs, bars, minStd, root))
  {
    FitMeaning(ys, xs);
    var line := Ols(ys, xs);
    m := Moments(line, [], 0.0, line, line, 0.0, 0.0, 0.0, 0.0, line);
    if line.Ok? {
      m := MomentsOf(ys, xs, line.value.slope, root);
      MomentsMeaning(ys, xs, line.value.slope, root);
      MeanMeaning(m.spread, Mean(m.spread));
      FitOfMoments(ys, xs, bars, minStd, root, m, FitPair(ys, xs, bars, minStd, root));
    }
  }

  lemma FitOfMoments(
      ys: seq<real>, xs: seq<real>, bars: nat, minStd: real, root: real -> real, m: Moments, r: Result<PairFit, Error>)
    requires |ys| == |xs| >= 3 && minStd >= 0.0 && Ols(ys, xs).Ok? && m == MomentsOf(ys, xs, Ols(ys, xs).value.slope, root)
    requires r == FitPair(ys, xs, bars, minStd, root)
    ensures if |ys| != bars then r == Err(WindowMismatch)
            else if m.line.value.slope <= 0.0 then r == Err(NonpositiveHedge)
            else if m.deviation <= minStd then r == Err(DegenerateSpread)
            else if m.first.Err? then r == Err(m.first.error)
            else if m.second.Err? then r == Err(m.second.error)
            else if m.firstDeviation <= minStd || m.secondDeviation <= minStd then r == Err(DegenerateSpread)
            else if m.lagged.Err? then r == Err(m.lagged.error)
            else
              && r.Ok? && r.value.beta == m.line.value.slope && r.value.intercept == m.line.value.intercept
              && r.value.spreadMean == Mean(m.spread) && r.value.spreadStd == m.deviation && AreStability(m, r.value)
  {
    if r.Ok? {
      StabilityMeaning(m, r.value);
    }
  }
}
