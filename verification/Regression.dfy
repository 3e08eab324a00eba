/** Least squares on two aligned samples, and the pair fit built on it. */
module Regression {
  import opened Prelude

  function Mean(vs: seq<real>): real
    requires vs != []
  {
    Sum(vs) / |vs| as real
  }

  function SumFrom(vs: seq<real>, m: real): real {
    if vs == [] then 0.0 else SumFrom(vs[..|vs| - 1], m) + (vs[|vs| - 1] - m)
  }

  /** Sum of products of deviations from given centres. */
  function Cross(ys: seq<real>, xs: seq<real>, my: real, mx: real): real
    requires |ys| == |xs|
  {
    if ys == [] then 0.0
    else Cross(ys[..|ys| - 1], xs[..|xs| - 1], my, mx) + Times(ys[|ys| - 1] - my, xs[|xs| - 1] - mx)
  }

  function Covariance(ys: seq<real>, xs: seq<real>): real
    requires |ys| == |xs| && ys != []
  {
    Cross(ys, xs, Mean(ys), Mean(xs)) / |ys| as real
  }

  /** Sum of squared residuals of the line `a + b * x`. */
  function SquaredError(ys: seq<real>, xs: seq<real>, a: real, b: real): real
    requires |ys| == |xs|
  {
    if ys == [] then 0.0
    else
      var r := ys[|ys| - 1] - a - Times(b, xs[|xs| - 1]);
      SquaredError(ys[..|ys| - 1], xs[..|xs| - 1], a, b) + Times(r, r)
  }

  datatype Line = Line(intercept: real, slope: real)

  datatype Error = Insufficient | Degenerate | NonpositiveHedge | DegenerateSpread | WindowMismatch

  const VARIANCE_FLOOR: real := 0.000000000000001

  function Ols(ys: seq<real>, xs: seq<real>): Result<Line, Error> {
    if |ys| != |xs| || |ys| < 3 then Err(Insufficient)
    else
      var variance := Covariance(xs, xs);
      if variance <= VARIANCE_FLOOR then Err(Degenerate)
      else
        var slope := Covariance(ys, xs) / variance;
        Ok(Line(Mean(ys) - Times(slope, Mean(xs)), slope))
  }

  lemma {:induction false} SumFromCentre(vs: seq<real>, m: real)
    ensures SumFrom(vs, m) == Sum(vs) - |vs| as real * m
  {
    if vs != [] {
      var n := |vs| - 1;
      SumFromCentre(vs[..n], m);
      assert |vs| as real * m == n as real * m + m;
    }
  }

  /** Deviations from the mean cancel. */
  lemma DeviationsCancel(vs: seq<real>)
    requires vs != []
    ensures SumFrom(vs, Mean(vs)) == 0.0
  {
    SumFromCentre(vs, Mean(vs));
    assert |vs| as real * (Sum(vs) / |vs| as real) == Sum(vs);
  }

  /** The squared error as a polynomial in the moments of a sample. */
  function Polynomial(b: real, k: real, n: real, cyy: real, cyx: real, cxx: real, sy: real, sx: real): real {
    cyy - 2.0 * Times(b, cyx) + Times(Times(b, b), cxx) + Times(n, Times(k, k)) + 2.0 * Times(k, sy) - 2.0 * Times(Times(k, b), sx)
  }

  lemma PolynomialStep(b: real, k: real, n: real, cyy: real, cyx: real, cxx: real, sy: real, sx: real, y: real, x: real)
    ensures Polynomial(b, k, n + 1.0, cyy + Times(y, y), cyx + Times(y, x), cxx + Times(x, x), sy + y, sx + x)
         == Polynomial(b, k, n, cyy, cyx, cxx, sy, sx) + Times(y - Times(b, x) + k, y - Times(b, x) + k)
  {
  }

  /** ... of the sample, about given centres. */
  function Expanded(ys: seq<real>, xs: seq<real>, my: real, mx: real, b: real, k: real): real
    requires |ys| == |xs|
  {
    Polynomial(b, k, |ys| as real, Cross(ys, ys, my, my), Cross(ys, xs, my, mx), Cross(xs, xs, mx, mx), SumFrom(ys, my), SumFrom(xs, mx))
  }

  lemma ExpandedStep(ys: seq<real>, xs: seq<real>, my: real, mx: real, b: real, k: real, r: real)
    requires |ys| == |xs| && ys != []
    requires r == (ys[|ys| - 1] - my) - Times(b, xs[|xs| - 1] - mx) + k
    ensures Expanded(ys, xs, my, mx, b, k) == Expanded(ys[..|ys| - 1], xs[..|xs| - 1], my, mx, b, k) + Times(r, r)
  {
    var n := |ys| - 1;
    PolynomialStep(b, k, n as real, Cross(ys[..n], ys[..n], my, my), Cross(ys[..n], xs[..n], my, mx), Cross(xs[..n], xs[..n], mx, mx),
                   SumFrom(ys[..n], my), SumFrom(xs[..n], mx), ys[n] - my, xs[n] - mx);
  }

  lemma TimesDifference(b: real, x: real, y: real)
    ensures Times(b, x - y) == Times(b, x) - Times(b, y)
  {
  }

  lemma {:induction false} ErrorExpands(ys: seq<real>, xs: seq<real>, my: real, mx: real, a: real, b: real, k: real)
    requires |ys| == |xs| && k == my - a - Times(b, mx)
    ensures SquaredError(ys, xs, a, b) == Expanded(ys, xs, my, mx, b, k)
  {
    if ys != [] {
      var n := |ys| - 1;
      ErrorExpands(ys[..n], xs[..n], my, mx, a, b, k);
      TimesDifference(b, xs[n], mx);
      ExpandedStep(ys, xs, my, mx, b, k, ys[n] - a - Times(b, xs[n]));
    } else {
      EmptyPolynomial(b, k);
    }
  }

  lemma EmptyPolynomial(b: real, k: real)
    ensures Polynomial(b, k, 0.0, 0.0, 0.0, 0.0, 0.0, 0.0) == 0.0
  {
  }

  /** About the means, with the slope that balances the cross moment, the error is a constant plus two squares. */
  lemma CompleteSquare(b: real, k: real, n: real, cyy: real, cyx: real, cxx: real, slope: real)
    requires cyx == Times(slope, cxx)
    ensures Polynomial(b, k, n, cyy, cyx, cxx, 0.0, 0.0)
         == Polynomial(slope, 0.0, n, cyy, cyx, cxx, 0.0, 0.0) + Times(Times(b - slope, b - slope), cxx) + Times(n, Times(k, k))
  {
  }

  lemma FittedMoments(ys: seq<real>, xs: seq<real>)
    requires Ols(ys, xs).Ok?
    ensures Cross(xs, xs, Mean(xs), Mean(xs)) > 0.0
    ensures Cross(ys, xs, Mean(ys), Mean(xs)) == Times(Ols(ys, xs).value.slope, Cross(xs, xs, Mean(xs), Mean(xs)))
  {
    RatioOfMeans(Cross(ys, xs, Mean(ys), Mean(xs)), Cross(xs, xs, Mean(xs), Mean(xs)), |ys| as real);
  }

  lemma RatioOfMeans(p: real, q: real, n: real)
    requires n > 0.0 && q / n > 0.0
    ensures q > 0.0 && p == Times((p / n) / (q / n), q)
  {
    var u, v := p / n, q / n;
    assert p == u * n && q == v * n;
    assert (u / v) * v == u;
    assert (u / v) * (v * n) == ((u / v) * v) * n;
  }

  /** What a line loses against the fitted one. */
  function Excess(xs: seq<real>, fitted: Line, b: real, k: real): real
    requires xs != []
  {
    Times(Times(b - fitted.slope, b - fitted.slope), Cross(xs, xs, Mean(xs), Mean(xs))) + Times(|xs| as real, Times(k, k))
  }

  /** The error of any line is the fitted error plus its excess. */
  lemma ErrorDecomposes(ys: seq<real>, xs: seq<real>, a: real, b: real)
    requires Ols(ys, xs).Ok?
    ensures var f := Ols(ys, xs).value;
            SquaredError(ys, xs, a, b) ==
            SquaredError(ys, xs, f.intercept, f.slope) + Excess(xs, f, b, Mean(ys) - a - Times(b, Mean(xs)))
  {
    var f, my, mx := Ols(ys, xs).value, Mean(ys), Mean(xs);
    var k := my - a - Times(b, mx);
    DeviationsCancel(ys);
    DeviationsCancel(xs);
    FittedMoments(ys, xs);
    ErrorExpands(ys, xs, my, mx, a, b, k);
    ErrorExpands(ys, xs, my, mx, f.intercept, f.slope, 0.0);
    CompleteSquare(b, k, |xs| as real, Cross(ys, ys, my, my), Cross(ys, xs, my, mx), Cross(xs, xs, mx, mx), f.slope);
  }

  lemma PositiveSquare(d: real, c: real)
    requires c > 0.0
    ensures Times(Times(d, d), c) >= 0.0 && (Times(Times(d, d), c) == 0.0 ==> d == 0.0)
    ensures Times(c, Times(d, d)) == Times(Times(d, d), c)
  {
    if d > 0.0 {
      Positive(d, d);
      Positive(Times(d, d), c);
    } else if d < 0.0 {
      Positive(-d, -d);
      assert Times(-d, -d) == Times(d, d);
      Positive(Times(d, d), c);
    }
  }

  lemma Positive(x: real, y: real)
    requires x > 0.0 && y > 0.0
    ensures Times(x, y) > 0.0
  {
  }

  /** Least squares: no other line has a smaller error, and only the fitted one attains it. */
  lemma OlsIsOptimal(ys: seq<real>, xs: seq<real>, a: real, b: real)
    requires Ols(ys, xs).Ok?
    ensures var f := Ols(ys, xs).value;
            && SquaredError(ys, xs, f.intercept, f.slope) <= SquaredError(ys, xs, a, b)
            && (SquaredError(ys, xs, f.intercept, f.slope) == SquaredError(ys, xs, a, b) ==> Line(a, b) == f)
  {
    var f := Ols(ys, xs).value;
    ErrorDecomposes(ys, xs, a, b);
    FittedMoments(ys, xs);
    PositiveSquare(b - f.slope, Cross(xs, xs, Mean(xs), Mean(xs)));
    PositiveSquare(Mean(ys) - a - Times(b, Mean(xs)), |xs| as real);
  }

  /** A square root is all the standard deviation needs to be. */
  ghost predicate IsRoot(root: real -> real) {
    forall v :: v >= 0.0 ==> root(v) >= 0.0 && Times(root(v), root(v)) == v
  }

  function PopulationStd(vs: seq<real>, root: real -> real): real
    requires vs != []
  {
    root(Covariance(vs, vs))
  }

  function Spread(ys: seq<real>, xs: seq<real>, beta: real): (s: seq<real>)
    requires |ys| == |xs|
    ensures |s| == |ys|
  {
    if ys == [] then [] else Spread(ys[..|ys| - 1], xs[..|xs| - 1], beta) + [ys[|ys| - 1] - Times(beta, xs[|xs| - 1])]
  }

  datatype PairFit = PairFit(
    beta: real, intercept: real, spreadMean: real, spreadStd: real, splitBetaDrift: real, stdRatio: real, meanShift: real, phi: real)

  /** The fit of log prices `ys` on `xs`, with its stability figures; every degenerate split is refused. */
  function FitPair(
      ys: seq<real>, xs: seq<real>, trainingBars: nat, minStd: real, root: real -> real): Result<PairFit, Error>
    requires |ys| == |xs| && minStd >= 0.0
  {
    if |ys| != trainingBars then Err(WindowMismatch)
    else
      var line := Ols(ys, xs);
      if line.Err? then Err(line.error)
      else if line.value.slope <= 0.0 then Err(NonpositiveHedge)
      else
        var beta := line.value.slope;
        var spread := Spread(ys, xs, beta);
        var std := PopulationStd(spread, root);
        var m := |ys| / 2;
        if std <= minStd then Err(DegenerateSpread)
        else
          var a, b := Ols(ys[..m], xs[..m]), Ols(ys[m..], xs[m..]);
          if a.Err? || b.Err? then Err(if a.Err? then a.error else b.error)
          else
            var stdA, stdB := PopulationStd(spread[..m], root), PopulationStd(spread[m..], root);
            var lagged := Ols(spread[1..], spread[..|spread| - 1]);
            if MinReal(stdA, stdB) <= minStd then Err(DegenerateSpread)
            else if lagged.Err? then Err(lagged.error)
            else Ok(PairFit(
              beta, line.value.intercept, Mean(spread), std, Abs(a.value.slope - b.value.slope) / Abs(beta),
              MaxReal(stdA, stdB) / MinReal(stdA, stdB), Abs(Mean(spread[..m]) - Mean(spread[m..])) / std, lagged.value.slope))
  }

  lemma {:induction false} SpreadSum(ys: seq<real>, xs: seq<real>, beta: real)
    requires |ys| == |xs|
    ensures Sum(Spread(ys, xs, beta)) == Sum(ys) - Times(beta, Sum(xs))
  {
    if ys != [] {
      var n := |ys| - 1;
      SpreadSum(ys[..n], xs[..n], beta);
      assert Spread(ys, xs, beta)[..n] == Spread(ys[..n], xs[..n], beta);
      TimesSum(beta, Sum(xs[..n]), xs[n]);
    }
  }

  lemma TimesSum(b: real, x: real, y: real)
    ensures Times(b, x + y) == Times(b, x) + Times(b, y)
  {
  }

  lemma MeanOfDifference(sy: real, sx: real, beta: real, n: real)
    requires n > 0.0
    ensures (sy - Times(beta, sx)) / n == sy / n - Times(beta, sx / n)
  {
    assert beta * (sx / n) == (beta * sx) / n;
  }

  /** The fitted intercept is the level the spread reverts to. */
  lemma SpreadMeanIsIntercept(ys: seq<real>, xs: seq<real>)
    requires Ols(ys, xs).Ok?
    ensures Mean(Spread(ys, xs, Ols(ys, xs).value.slope)) == Ols(ys, xs).value.intercept
  {
    var beta := Ols(ys, xs).value.slope;
    SpreadSum(ys, xs, beta);
    MeanOfDifference(Sum(ys), Sum(xs), beta, |ys| as real);
  }

  /** Standard scores against a mean and a deviation. */
  function ZScores(vs: seq<real>, mean: real, std: real): (zs: seq<real>)
    requires std != 0.0
    ensures |zs| == |vs|
  {
    if vs == [] then [] else ZScores(vs[..|vs| - 1], mean, std) + [(vs[|vs| - 1] - mean) / std]
  }

  function SumSquares(vs: seq<real>): real {
    if vs == [] then 0.0 else SumSquares(vs[..|vs| - 1]) + Times(vs[|vs| - 1], vs[|vs| - 1])
  }

  lemma {:induction false} ScoresScale(vs: seq<real>, mean: real, std: real)
    requires std > 0.0
    ensures Times(std, Sum(ZScores(vs, mean, std))) == SumFrom(vs, mean)
    ensures Times(Times(std, std), SumSquares(ZScores(vs, mean, std))) == Cross(vs, vs, mean, mean)
  {
    if vs == [] {
      assert Times(std, 0.0) == 0.0 && Times(Times(std, std), 0.0) == 0.0;
    } else {
      var n := |vs| - 1;
      ScoresScale(vs[..n], mean, std);
      var before, d := ZScores(vs[..n], mean, std), vs[n] - mean;
      assert ZScores(vs, mean, std)[..n] == before;
      TimesSum(std, Sum(before), d / std);
      TimesSum(Times(std, std), SumSquares(before), Times(d / std, d / std));
      ScoreProducts(std, d);
    }
  }

  lemma ScoreProducts(std: real, d: real)
    requires std > 0.0
    ensures Times(std, d / std) == d
    ensures Times(Times(std, std), Times(d / std, d / std)) == Times(d, d)
  {
    var q := d / std;
    assert std * q == d;
    assert (std * std) * (q * q) == (std * q) * (std * q);
  }

  lemma ZeroProduct(x: real, y: real)
    requires x > 0.0 && Times(x, y) == 0.0
    ensures y == 0.0
  {
  }

  lemma CancelFactor(v: real, y: real, c: real, n: real)
    requires v > 0.0 && n > 0.0 && v == c / n && Times(v, y) == c
    ensures y == n
  {
    assert v * n == c;
    assert v * (y - n) == 0.0;
  }

  /** Over their own sample the standard scores sum to zero and their squares to the sample size. */
  lemma ScoresAreStandard(vs: seq<real>, root: real -> real)
    requires vs != [] && IsRoot(root) && PopulationStd(vs, root) > 0.0 && Covariance(vs, vs) >= 0.0
    ensures var zs := ZScores(vs, Mean(vs), PopulationStd(vs, root));
            Sum(zs) == 0.0 && SumSquares(zs) == |vs| as real
  {
    var std, mean := PopulationStd(vs, root), Mean(vs);
    var zs := ZScores(vs, mean, std);
    ScoresScale(vs, mean, std);
    DeviationsCancel(vs);
    ZeroProduct(std, Sum(zs));
    Positive(std, std);
    CancelFactor(Times(std, std), SumSquares(zs), Cross(vs, vs, mean, mean), |vs| as real);
  }

  lemma {:induction false} CrossNonnegative(vs: seq<real>, m: real)
    ensures Cross(vs, vs, m, m) >= 0.0
  {
    if vs != [] {
      CrossNonnegative(vs[..|vs| - 1], m);
      var d := vs[|vs| - 1] - m;
      assert Times(d, d) >= 0.0;
    }
  }

  /** What an accepted pair fit guarantees of its training sample. */
  lemma AcceptedFit(ys: seq<real>, xs: seq<real>, trainingBars: nat, minStd: real, root: real -> real)
    requires |ys| == |xs| && minStd >= 0.0 && IsRoot(root)
    requires FitPair(ys, xs, trainingBars, minStd, root).Ok?
    ensures var f := FitPair(ys, xs, trainingBars, minStd, root).value;
            var spread := Spread(ys, xs, f.beta);
            && f.beta > 0.0 && f.spreadStd > minStd
            && f.spreadMean == f.intercept
            && (forall a, b :: SquaredError(ys, xs, f.intercept, f.beta) <= SquaredError(ys, xs, a, b))
            && Sum(ZScores(spread, f.spreadMean, f.spreadStd)) == 0.0
            && SumSquares(ZScores(spread, f.spreadMean, f.spreadStd)) == trainingBars as real
  {
    var f := FitPair(ys, xs, trainingBars, minStd, root).value;
    var spread := Spread(ys, xs, f.beta);
    SpreadMeanIsIntercept(ys, xs);
    CrossNonnegative(spread, Mean(spread));
    QuotientSign(Cross(spread, spread, Mean(spread), Mean(spread)), |spread| as real);
    ScoresAreStandard(spread, root);
    forall a, b
      ensures SquaredError(ys, xs, f.intercept, f.beta) <= SquaredError(ys, xs, a, b)
    {
      OlsIsOptimal(ys, xs, a, b);
    }
  }

  lemma QuotientSign(x: real, n: real)
    requires x >= 0.0 && n > 0.0
    ensures x / n >= 0.0
  {
  }
}
