/** The market beta of a security, fitted on past windows only, and the weights that cancel it. */
module Beta {
  import opened Prelude
  import opened Sorting
  import opened Bars
  import opened Aggregation
  import Regression

  /** The bounds are those the settings model validates. */
  datatype RelativeValueSettings = RelativeValueSettings(
    pair: bool,
    membersPerSide: nat,
    minimumSectorSize: nat,
    tailFraction: real,
    sectorResidualWeight: real,
    minResidualGap: real,
    trainingReturns: nat,
    minBeta: real,
    maxBeta: real,
    maxSplitDrift: real,
    maxNetGross: real,
    maxBetaGross: real,
    maxLegLag: real)
  {
    predicate Valid() {
      && 1 <= membersPerSide <= 5 && minimumSectorSize >= 2
      && 0.0 < tailFraction < 0.5 && 0.0 <= sectorResidualWeight <= 1.0 && minResidualGap > 0.0
      && trainingReturns >= 8
      && 0.0 < minBeta < maxBeta && maxSplitDrift > 0.0
      && 0.0 <= maxNetGross < 1.0 && 0.0 <= maxBetaGross < 1.0 && maxLegLag > 0.0
    }
  }

  datatype BetaObservation = BetaObservation(stock: Bar, market: Bar) {
    predicate Valid() {
      stock.Valid() && market.Valid()
    }
  }

  datatype Ref = Ref(instrument: Id, source: Id)

  /** `market` stands for the digest of the market bars trained on. */
  datatype BetaEstimate = BetaEstimate(
    beta: real, intercept: real, splitDrift: real, trainingStart: Instant, trainingEnd: Instant, sample: nat, market: seq<Bar>)

  datatype BetaError =
    | Warmup
    | HistoryStale
    | NotReady
    | FeedMismatch
    | GapOrDuplicate
    | FitFailed(error: Regression.Error)
    | BetaOutOfRange
    | Unstable
    | NetInfeasible
    | BetaExposureInfeasible

  /** In the session and known one window before the decision. */
  predicate Usable(row: BetaObservation, opening: Instant, cutoff: Instant) {
    row.stock.start >= opening && Available(row.stock, cutoff) && Available(row.market, cutoff)
  }

  function UsableRows(history: seq<BetaObservation>, opening: Instant, cutoff: Instant): seq<BetaObservation> {
    if history == [] then []
    else
      var n := |history| - 1;
      if Usable(history[n], opening, cutoff) then UsableRows(history[..n], opening, cutoff) + [history[n]]
      else UsableRows(history[..n], opening, cutoff)
  }

  lemma {:induction false} UsableMembers(history: seq<BetaObservation>, opening: Instant, cutoff: Instant)
    ensures forall x :: x in UsableRows(history, opening, cutoff) <==> x in history && Usable(x, opening, cutoff)
  {
    if history != [] {
      var n := |history| - 1;
      assert history == history[..n] + [history[n]];
      UsableMembers(history[..n], opening, cutoff);
    }
  }

  predicate EndsBefore(a: BetaObservation, b: BetaObservation) {
    a.stock.end <= b.stock.end
  }

  /** The last `count` rows in order of their ends, or all of them when there are fewer. */
  function Latest(rows: seq<BetaObservation>, count: nat): seq<BetaObservation> {
    var ordered := Sort(rows, EndsBefore);
    if |ordered| < count then ordered else ordered[|ordered| - count..]
  }

  function Training(
      history: seq<BetaObservation>, opening: Instant, cutoff: Instant, count: nat): seq<BetaObservation> {
    Latest(UsableRows(history, opening, cutoff), count)
  }

  predicate Matches(b: Bar, ref: Ref, kind: FeedKind) {
    b.instrument == ref.instrument && b.source == ref.source && b.feed == kind
  }

  /** What is wrong with one row, in the order the checks are made. */
  function RowFault(
      rows: seq<BetaObservation>, i: nat, stock: Ref, market: Ref, opening: Instant, cutoff: Instant): Option<BetaError>
    requires i < |rows|
  {
    var row := rows[i];
    if !StrategyReady(row.stock, cutoff) then Some(NotReady)
    else if !Matches(row.stock, stock, Equity) then Some(FeedMismatch)
    else if !StrategyReady(row.market, cutoff) then Some(NotReady)
    else if !Matches(row.market, market, IndexFeed) then Some(FeedMismatch)
    else if || row.stock.start != row.market.start || row.stock.end != row.market.end
            || (row.stock.start - opening) % WINDOW != 0
            || (i > 0 && rows[i - 1].stock.end != row.stock.start) then Some(GapOrDuplicate)
    else None
  }

  /** The fault of the first faulty row. */
  function FirstFault(
      rows: seq<BetaObservation>, n: nat, stock: Ref, market: Ref, opening: Instant, cutoff: Instant): Option<BetaError>
    requires n <= |rows|
  {
    if n == 0 then None
    else
      var before := FirstFault(rows, n - 1, stock, market, opening, cutoff);
      if before.Some? then before else RowFault(rows, n - 1, stock, market, opening, cutoff)
  }

  lemma {:induction false} FaultlessRow(
      rows: seq<BetaObservation>, n: nat, stock: Ref, market: Ref, opening: Instant, cutoff: Instant, i: nat)
    requires i < n <= |rows| && FirstFault(rows, n, stock, market, opening, cutoff).None?
    ensures RowFault(rows, i, stock, market, opening, cutoff).None?
  {
    if i < n - 1 {
      FaultlessRow(rows, n - 1, stock, market, opening, cutoff, i);
    }
  }

  function StockCloses(rows: seq<BetaObservation>): (r: seq<real>)
    ensures |r| == |rows| && forall i :: 0 <= i < |r| ==> r[i] == rows[i].stock.close
  {
    seq(|rows|, i requires 0 <= i < |rows| => rows[i].stock.close)
  }

  function MarketCloses(rows: seq<BetaObservation>): (r: seq<real>)
    ensures |r| == |rows| && forall i :: 0 <= i < |r| ==> r[i] == rows[i].market.close
  {
    seq(|rows|, i requires 0 <= i < |rows| => rows[i].market.close)
  }

  function MarketBars(rows: seq<BetaObservation>): (r: seq<Bar>)
    ensures |r| == |rows| && forall i :: 0 <= i < |r| ==> r[i] == rows[i].market
  {
    seq(|rows|, i requires 0 <= i < |rows| => rows[i].market)
  }

  predicate AllPositive(vs: seq<real>) {
    forall i :: 0 <= i < |vs| ==> vs[i] > 0.0
  }

  /** Simple returns between neighbours. */
  function Returns(closes: seq<real>): (r: seq<real>)
    requires closes != [] && AllPositive(closes)
    ensures |r| == |closes| - 1
  {
    var n := |closes| - 1;
    if n == 0 then [] else Returns(closes[..n]) + [closes[n] / closes[n - 1] - 1.0]
  }

  lemma ReadyCloses(b: Bar, at: Instant)
    requires StrategyReady(b, at)
    ensures b.close > 0.0
  {
    assert InvalidPrice !in PriceFlags(b);
  }

  lemma FaultlessCloses(rows: seq<BetaObservation>, stock: Ref, market: Ref, opening: Instant, cutoff: Instant)
    requires FirstFault(rows, |rows|, stock, market, opening, cutoff).None?
    ensures AllPositive(StockCloses(rows)) && AllPositive(MarketCloses(rows))
  {
    forall i | 0 <= i < |rows|
      ensures rows[i].stock.close > 0.0 && rows[i].market.close > 0.0
    {
      FaultlessRow(rows, |rows|, stock, market, opening, cutoff, i);
      ReadyCloses(rows[i].stock, cutoff);
      ReadyCloses(rows[i].market, cutoff);
    }
  }

  /** The training rows, if they are complete, current and without faults. */
  function Validated(rows: seq<BetaObservation>, stock: Ref, market: Ref, cutoff: Instant, opening: Instant, count: nat)
      : (r: Result<seq<BetaObservation>, BetaError>)
    requires count > 0
    ensures r.Ok? ==> r.value != []
  {
    if |rows| != count then Err(Warmup)
    else if rows[|rows| - 1].stock.end != cutoff then Err(HistoryStale)
    else
      var fault := FirstFault(rows, |rows|, stock, market, opening, cutoff);
      if fault.Some? then Err(fault.value) else Ok(rows)
  }

  /** The rows a beta is fitted on: they end one window before the decision. */
  function TrainingRows(
      history: seq<BetaObservation>, stock: Ref, market: Ref, at: Instant, opening: Instant, count: nat)
      : (r: Result<seq<BetaObservation>, BetaError>)
    requires count > 0
    ensures r.Ok? ==> r.value != []
  {
    Validated(Training(history, opening, at - WINDOW, count), stock, market, at - WINDOW, opening, count)
  }

  datatype Fit = Fit(beta: real, intercept: real, splitDrift: real)

  /** Fits the returns: the slope must be in range and must not drift between the two halves. */
  function FitReturns(left: seq<real>, right: seq<real>, cfg: RelativeValueSettings): Result<Fit, BetaError>
    requires cfg.Valid()
  {
    var line := Regression.Ols(left, right);
    if line.Err? then Err(FitFailed(line.error))
    else
      var beta, half := line.value.slope, |left| / 2;
      if !(cfg.minBeta <= beta <= cfg.maxBeta) then Err(BetaOutOfRange)
      else
        var first, second := Regression.Ols(left[..half], right[..half]), Regression.Ols(left[half..], right[half..]);
        if first.Err? then Err(FitFailed(first.error))
        else if second.Err? then Err(FitFailed(second.error))
        else
          var drift := Abs(first.value.slope - second.value.slope) / beta;
          if drift > cfg.maxSplitDrift then Err(Unstable) else Ok(Fit(beta, line.value.intercept, drift))
  }

  /** Fits the returns over two lists of closes, which the row checks have found positive. */
  function FitCloses(stock: seq<real>, market: seq<real>, cfg: RelativeValueSettings): Result<Fit, BetaError>
    requires cfg.Valid()
  {
    if stock == [] || market == [] || !AllPositive(stock) || !AllPositive(market) then Err(NotReady)
    else FitReturns(Returns(stock), Returns(market), cfg)
  }

  /** How the estimator fits a sample of closes; the rest of it does not look inside. */
  type Fitter = (seq<real>, seq<real>) -> Result<Fit, BetaError>

  function ReturnFitter(cfg: RelativeValueSettings): Fitter
    requires cfg.Valid()
  {
    (stock, market) => FitCloses(stock, market, cfg)
  }

  function EstimateBeta(
      history: seq<BetaObservation>, stock: Ref, market: Ref, at: Instant, opening: Instant, count: nat, fitter: Fitter)
      : Result<BetaEstimate, BetaError>
    requires count > 0
  {
    var training := TrainingRows(history, stock, market, at, opening, count);
    if training.Err? then Err(training.error)
    else
      var rows := training.value;
      var fit := fitter(StockCloses(rows), MarketCloses(rows));
      if fit.Err? then Err(fit.error)
      else Ok(BetaEstimate(fit.value.beta, fit.value.intercept, fit.value.splitDrift,
                           rows[0].stock.start, rows[|rows| - 1].stock.end, |rows| - 1, MarketBars(rows)))
  }

  lemma {:induction false} UsableRowsConcat(
      a: seq<BetaObservation>, b: seq<BetaObservation>, opening: Instant, cutoff: Instant)
    ensures UsableRows(a + b, opening, cutoff) == UsableRows(a, opening, cutoff) + UsableRows(b, opening, cutoff)
  {
    if b == [] {
      assert a + b == a;
    } else {
      var n := |b| - 1;
      UsableRowsConcat(a, b[..n], opening, cutoff);
      assert (a + b)[..|a| + n] == a + b[..n];
    }
  }

  lemma {:induction false} NoUsableRows(rows: seq<BetaObservation>, opening: Instant, cutoff: Instant)
    requires forall x :: x in rows ==> !Usable(x, opening, cutoff)
    ensures UsableRows(rows, opening, cutoff) == []
  {
    if rows != [] {
      NoUsableRows(rows[..|rows| - 1], opening, cutoff);
      assert !Usable(rows[|rows| - 1], opening, cutoff);
    }
  }

  /** Unusable rows anywhere in a history are as good as absent. */
  lemma LateRowsDrop(
      a: seq<BetaObservation>, late: seq<BetaObservation>, b: seq<BetaObservation>, opening: Instant, cutoff: Instant)
    requires forall x :: x in late ==> !Usable(x, opening, cutoff)
    ensures UsableRows(a + late + b, opening, cutoff) == UsableRows(a + b, opening, cutoff)
  {
    NoUsableRows(late, opening, cutoff);
    UsableRowsConcat(a + late, b, opening, cutoff);
    UsableRowsConcat(a, late, opening, cutoff);
    UsableRowsConcat(a, b, opening, cutoff);
  }

  lemma SameTraining(a: seq<BetaObservation>, b: seq<BetaObservation>, opening: Instant, cutoff: Instant, count: nat)
    requires UsableRows(a, opening, cutoff) == UsableRows(b, opening, cutoff)
    ensures Training(a, opening, cutoff, count) == Training(b, opening, cutoff, count)
  {
  }

  /** Histories with the same usable rows give the same estimate: nothing later, and nothing overnight, moves it. */
  lemma EstimateIsCausal(
      a: seq<BetaObservation>, b: seq<BetaObservation>, stock: Ref, market: Ref, at: Instant, opening: Instant,
      count: nat, fitter: Fitter)
    requires count > 0 && UsableRows(a, opening, at - WINDOW) == UsableRows(b, opening, at - WINDOW)
    ensures EstimateBeta(a, stock, market, at, opening, count, fitter) == EstimateBeta(b, stock, market, at, opening, count, fitter)
  {
    SameTraining(a, b, opening, at - WINDOW, count);
  }

  /** The rows are the consecutive windows that end at `last`, the same for stock and market. */
  ghost predicate Contiguous(rows: seq<BetaObservation>, last: Instant) {
    forall i :: 0 <= i < |rows| ==> Occupies(rows[i], last - (|rows| - i) * WINDOW)
  }

  ghost predicate Occupies(row: BetaObservation, start: Instant) {
    row.stock.start == row.market.start == start && row.stock.end == row.market.end == start + WINDOW
  }

  lemma {:induction false} FaultlessIsContiguous(
      rows: seq<BetaObservation>, n: nat, stock: Ref, market: Ref, opening: Instant, cutoff: Instant)
    requires n < |rows| && (forall r :: r in rows ==> r.Valid()) && rows[|rows| - 1].stock.end == cutoff
    requires FirstFault(rows, |rows|, stock, market, opening, cutoff).None?
    ensures Occupies(rows[n], cutoff - (|rows| - n) * WINDOW)
    decreases |rows| - n
  {
    FaultlessRow(rows, |rows|, stock, market, opening, cutoff, n);
    assert rows[n].Valid();
    if n < |rows| - 1 {
      FaultlessIsContiguous(rows, n + 1, stock, market, opening, cutoff);
      FaultlessRow(rows, |rows|, stock, market, opening, cutoff, n + 1);
      assert (|rows| - n) * WINDOW == (|rows| - (n + 1)) * WINDOW + WINDOW;
    }
  }

  /** The training rows are usable rows of the history. */
  lemma TrainingIsUsable(history: seq<BetaObservation>, opening: Instant, cutoff: Instant, count: nat)
    ensures forall r :: r in Training(history, opening, cutoff, count) ==> r in history && Usable(r, opening, cutoff)
  {
    UsableMembers(history, opening, cutoff);
    SortMembers(UsableRows(history, opening, cutoff), EndsBefore);
  }

  lemma FaultlessWindows(rows: seq<BetaObservation>, stock: Ref, market: Ref, cutoff: Instant, opening: Instant)
    requires rows != [] && (forall r :: r in rows ==> r.Valid()) && rows[|rows| - 1].stock.end == cutoff
    requires FirstFault(rows, |rows|, stock, market, opening, cutoff).None?
    ensures Contiguous(rows, cutoff) && rows[0].stock.start == cutoff - |rows| * WINDOW
  {
    forall i | 0 <= i < |rows|
      ensures Occupies(rows[i], cutoff - (|rows| - i) * WINDOW)
    {
      FaultlessIsContiguous(rows, i, stock, market, opening, cutoff);
    }
    FaultlessIsContiguous(rows, 0, stock, market, opening, cutoff);
  }

  /**
   Accepted rows: `count` consecutive windows of the session, known one window before the decision, at positive
   prices.
   */
  ghost predicate Sound(
      rows: seq<BetaObservation>, history: seq<BetaObservation>, at: Instant, opening: Instant, count: nat) {
    && |rows| == count > 0
    && (forall r :: r in rows ==> r in history && Usable(r, opening, at - WINDOW))
    && Contiguous(rows, at - WINDOW)
    && AllPositive(StockCloses(rows)) && AllPositive(MarketCloses(rows))
  }

  lemma AcceptedRows(history: seq<BetaObservation>, stock: Ref, market: Ref, at: Instant, opening: Instant, count: nat)
    requires count > 0 && (forall r :: r in history ==> r.Valid())
    requires TrainingRows(history, stock, market, at, opening, count).Ok?
    ensures var rows := TrainingRows(history, stock, market, at, opening, count).value;
            && Sound(rows, history, at, opening, count)
            && rows[0].stock.start == at - WINDOW - count * WINDOW >= opening && rows[count - 1].stock.end == at - WINDOW
  {
    var rows := Training(history, opening, at - WINDOW, count);
    TrainingIsUsable(history, opening, at - WINDOW, count);
    FaultlessCloses(rows, stock, market, opening, at - WINDOW);
    FaultlessWindows(rows, stock, market, at - WINDOW, opening);
    assert rows[0] in rows;
  }

  ghost predicate BestLine(ys: seq<real>, xs: seq<real>, intercept: real, slope: real) {
    |ys| == |xs| && forall a, b :: Regression.SquaredError(ys, xs, intercept, slope) <= Regression.SquaredError(ys, xs, a, b)
  }

  /** What a fitter owes: the best line, with a slope in range that does not drift. */
  ghost predicate Reliable(fitter: Fitter, cfg: RelativeValueSettings) {
    forall ys, xs :: fitter(ys, xs).Ok? ==> ReliableFit(ys, xs, fitter(ys, xs).value, cfg)
  }

  ghost predicate ReliableFit(stock: seq<real>, market: seq<real>, fit: Fit, cfg: RelativeValueSettings) {
    && stock != [] && market != [] && AllPositive(stock) && AllPositive(market)
    && BestLine(Returns(stock), Returns(market), fit.intercept, fit.beta)
    && cfg.minBeta <= fit.beta <= cfg.maxBeta && 0.0 <= fit.splitDrift <= cfg.maxSplitDrift
  }

  lemma OlsIsBest(ys: seq<real>, xs: seq<real>, line: Regression.Line)
    requires Regression.Ols(ys, xs) == Ok(line)
    ensures BestLine(ys, xs, line.intercept, line.slope)
  {
    forall a, b
      ensures Regression.SquaredError(ys, xs, line.intercept, line.slope) <= Regression.SquaredError(ys, xs, a, b)
    {
      Regression.OlsIsOptimal(ys, xs, a, b);
    }
  }

  lemma FitIsReliable(stock: seq<real>, market: seq<real>, cfg: RelativeValueSettings)
    requires cfg.Valid() && FitCloses(stock, market, cfg).Ok?
    ensures ReliableFit(stock, market, FitCloses(stock, market, cfg).value, cfg)
  {
    ReturnsFitBest(Returns(stock), Returns(market), cfg);
  }

  lemma ReturnsFitBest(left: seq<real>, right: seq<real>, cfg: RelativeValueSettings)
    requires cfg.Valid() && FitReturns(left, right, cfg).Ok?
    ensures var fit := FitReturns(left, right, cfg).value;
            && BestLine(left, right, fit.intercept, fit.beta)
            && cfg.minBeta <= fit.beta <= cfg.maxBeta && 0.0 <= fit.splitDrift <= cfg.maxSplitDrift
  {
    OlsIsBest(left, right, Regression.Ols(left, right).value);
  }

  lemma ReturnFitterIsReliable(cfg: RelativeValueSettings)
    requires cfg.Valid()
    ensures Reliable(ReturnFitter(cfg), cfg)
  {
    forall ys, xs | ReturnFitter(cfg)(ys, xs).Ok?
      ensures ReliableFit(ys, xs, ReturnFitter(cfg)(ys, xs).value, cfg)
    {
      FitIsReliable(ys, xs, cfg);
    }
  }

  /**
   An accepted estimate ends its training one window before the decision, its slope is in range and stable,
   and no other line fits the training returns better.
   */
  lemma AcceptedBeta(
      history: seq<BetaObservation>, stock: Ref, market: Ref, at: Instant, opening: Instant, count: nat, fitter: Fitter,
      cfg: RelativeValueSettings)
    requires count > 0 && (forall r :: r in history ==> r.Valid()) && Reliable(fitter, cfg)
    requires EstimateBeta(history, stock, market, at, opening, count, fitter).Ok?
    ensures var e := EstimateBeta(history, stock, market, at, opening, count, fitter).value;
            var training := TrainingRows(history, stock, market, at, opening, count);
            && training.Ok? && Sound(training.value, history, at, opening, count)
            && opening <= e.trainingStart == at - WINDOW - count * WINDOW && e.trainingEnd == at - WINDOW
            && e.sample == count - 1 && e.market == MarketBars(training.value)
            && ReliableFit(StockCloses(training.value), MarketCloses(training.value), Fit(e.beta, e.intercept, e.splitDrift), cfg)
  {
    AcceptedRows(history, stock, market, at, opening, count);
  }

  /** The part of reliability that the baskets rest on. */
  ghost predicate KeepsRange(fitter: Fitter, cfg: RelativeValueSettings) {
    forall ys, xs :: fitter(ys, xs).Ok? ==> cfg.minBeta <= fitter(ys, xs).value.beta <= cfg.maxBeta
  }

  lemma ReliableKeepsRange(fitter: Fitter, cfg: RelativeValueSettings)
    requires Reliable(fitter, cfg)
    ensures KeepsRange(fitter, cfg)
  {
    forall ys, xs | fitter(ys, xs).Ok?
      ensures cfg.minBeta <= fitter(ys, xs).value.beta <= cfg.maxBeta
    {
      assert ReliableFit(ys, xs, fitter(ys, xs).value, cfg);
    }
  }

  lemma ReturnFitterKeepsRange(cfg: RelativeValueSettings)
    requires cfg.Valid()
    ensures KeepsRange(ReturnFitter(cfg), cfg)
  {
    ReturnFitterIsReliable(cfg);
    ReliableKeepsRange(ReturnFitter(cfg), cfg);
  }

  /** What the basket needs of an accepted beta. */
  lemma AcceptedRange(
      history: seq<BetaObservation>, stock: Ref, market: Ref, at: Instant, opening: Instant, count: nat, fitter: Fitter,
      cfg: RelativeValueSettings)
    requires count > 0 && KeepsRange(fitter, cfg)
    requires EstimateBeta(history, stock, market, at, opening, count, fitter).Ok?
    ensures var e := EstimateBeta(history, stock, market, at, opening, count, fitter).value;
            cfg.minBeta <= e.beta <= cfg.maxBeta && e.trainingEnd < at
  {
  }

  /** Gross weights of the two sides. */
  datatype Weights = Weights(long: real, short: real)

  function NeutralWeights(longBeta: real, shortBeta: real, cfg: RelativeValueSettings): Result<Weights, BetaError>
    requires cfg.Valid()
  {
    if !(cfg.minBeta <= MinReal(longBeta, shortBeta) && MaxReal(longBeta, shortBeta) <= cfg.maxBeta) then Err(BetaOutOfRange)
    else
      var long := shortBeta / (longBeta + shortBeta);
      var short := 1.0 - long;
      if Abs(long - short) > cfg.maxNetGross + TOLERANCE then Err(NetInfeasible)
      else if Abs(Times(long, longBeta) - Times(short, shortBeta)) > cfg.maxBetaGross + TOLERANCE then Err(BetaExposureInfeasible)
      else Ok(Weights(long, short))
  }

  /** Unit gross, both sides positive, no fitted beta. */
  ghost predicate Neutral(w: Weights, longBeta: real, shortBeta: real) {
    && w.long > 0.0 && w.short > 0.0 && w.long + w.short == 1.0
    && Times(w.long, longBeta) == Times(w.short, shortBeta)
  }

  lemma BalancedShare(p: real, q: real)
    requires p > 0.0 && q > 0.0
    ensures var s := q / (p + q); 0.0 < s < 1.0 && Times(s, p) == Times(1.0 - s, q)
    ensures var s := q / (p + q); Times(s - (1.0 - s), p + q) == q - p
  {
    var t := p + q;
    var s := q / t;
    assert s * t == q;
    assert s * p + s * q == q;
    assert s > 0.0;
    Complement(p, t, s);
  }

  lemma Complement(p: real, t: real, s: real)
    requires 0.0 < p && 0.0 < t && s * t == t - p
    ensures s < 1.0
  {
    assert (1.0 - s) * t == p;
  }

  lemma UniqueShare(p: real, q: real, s: real, t: real)
    requires p > 0.0 && q > 0.0 && Times(s, p) == Times(1.0 - s, q) && Times(t, p) == Times(1.0 - t, q)
    ensures s == t
  {
    assert s * (p + q) == q && t * (p + q) == q;
    assert (s - t) * (p + q) == 0.0;
  }

  lemma ScaledBound(d: real, t: real, bound: real)
    requires t > 0.0
    ensures Abs(d) <= bound <==> Abs(Times(d, t)) <= Times(bound, t)
  {
    if Abs(d) <= bound {
      assert d * t <= bound * t && -d * t <= bound * t;
    } else if d > bound {
      assert (d - bound) * t > 0.0;
    } else {
      assert (-d - bound) * t > 0.0;
    }
  }

  predicate InRange(beta: real, cfg: RelativeValueSettings) {
    cfg.minBeta <= beta <= cfg.maxBeta
  }

  /** Betas are refused as out of range if and only if one of them is. */
  lemma OutOfRangeIsRefused(longBeta: real, shortBeta: real, cfg: RelativeValueSettings)
    requires cfg.Valid()
    ensures NeutralWeights(longBeta, shortBeta, cfg) == Err(BetaOutOfRange) <==> !InRange(longBeta, cfg) || !InRange(shortBeta, cfg)
  {
    if InRange(longBeta, cfg) && InRange(shortBeta, cfg) {
      NeutralWeightsCharacterised(longBeta, shortBeta, cfg);
    }
  }

  /**
   For betas in range the range and beta-exposure refusals cannot happen: the weights exist exactly when the
   betas are close enough for the net limit, and they are the only neutral weights there are.
   */
  lemma NeutralWeightsCharacterised(longBeta: real, shortBeta: real, cfg: RelativeValueSettings)
    requires cfg.Valid() && InRange(longBeta, cfg) && InRange(shortBeta, cfg)
    ensures var r := NeutralWeights(longBeta, shortBeta, cfg);
            && (r.Ok? || r == Err(NetInfeasible))
            && (r.Ok? <==> Abs(longBeta - shortBeta) <= Times(cfg.maxNetGross + TOLERANCE, longBeta + shortBeta))
            && (r.Ok? ==> Neutral(r.value, longBeta, shortBeta) && Abs(r.value.long - r.value.short) <= cfg.maxNetGross + TOLERANCE)
            && (r.Ok? ==> forall w :: Neutral(w, longBeta, shortBeta) ==> w == r.value)
  {
    var long := shortBeta / (longBeta + shortBeta);
    BalancedShare(longBeta, shortBeta);
    ScaledBound(long - (1.0 - long), longBeta + shortBeta, cfg.maxNetGross + TOLERANCE);
    forall w | Neutral(w, longBeta, shortBeta)
      ensures w == Weights(long, 1.0 - long)
    {
      assert w.short == 1.0 - w.long;
      UniqueShare(longBeta, shortBeta, w.long, long);
    }
  }

  /** The net refusal does happen. */
  lemma NetCanBeInfeasible(cfg: RelativeValueSettings)
    requires cfg.Valid() && Times(cfg.maxNetGross + TOLERANCE, cfg.minBeta + cfg.maxBeta) < cfg.maxBeta - cfg.minBeta
    ensures NeutralWeights(cfg.minBeta, cfg.maxBeta, cfg) == Err(NetInfeasible)
  {
    NeutralWeightsCharacterised(cfg.minBeta, cfg.maxBeta, cfg);
  }
}
