/** The beta estimate, told in the rows it trains on. */
module Training {
  import opened Prelude
  import opened Sorting
  import opened Bars
  import opened Flags
  import opened Fits
  import opened Beta
  import Regression

  /** Both bars are known by the cutoff, and the stock bar is of the session. */
  ghost predicate InTime(row: BetaObservation, opening: Instant, cutoff: Instant) {
    opening <= row.stock.start && KnownBy(row.stock, cutoff) && KnownBy(row.market, cutoff)
  }

  /** The rows in time, in the order they ended. */
  ghost predicate AreInTime(
      history: seq<BetaObservation>, opening: Instant, cutoff: Instant, ordered: seq<BetaObservation>) {
    && (forall r :: multiset(ordered)[r] == if InTime(r, opening, cutoff) then multiset(history)[r] else 0)
    && forall i, j :: 0 <= i < j < |ordered| ==> ordered[i].stock.end <= ordered[j].stock.end
  }

  /** The last `count` of a list, or all of it. */
  ghost predicate AreLast(ordered: seq<BetaObservation>, count: nat, rows: seq<BetaObservation>) {
    if |ordered| < count then rows == ordered
    else |rows| == count && forall i :: 0 <= i < count ==> rows[i] == ordered[|ordered| - count + i]
  }

  ghost predicate IsOf(b: Bar, ref: Ref, kind: FeedKind) {
    b.instrument == ref.instrument && b.source == ref.source && b.feed == kind
  }

  /** Stock and market cover one window counted from the opening, straight after the row before. */
  ghost predicate InStep(rows: seq<BetaObservation>, i: nat, opening: Instant)
    requires i < |rows|
  {
    var row := rows[i];
    && row.stock.start == row.market.start && row.stock.end == row.market.end && (row.stock.start - opening) % (5 * MINUTE) == 0
    && (i == 0 || rows[i - 1].stock.end == row.stock.start)
  }

  ghost predicate IsFaultless(
      rows: seq<BetaObservation>, i: nat, stock: Ref, market: Ref, opening: Instant, cutoff: Instant)
    requires i < |rows|
  {
    && IsReady(rows[i].stock, cutoff) && IsOf(rows[i].stock, stock, Equity)
    && IsReady(rows[i].market, cutoff) && IsOf(rows[i].market, market, IndexFeed) && InStep(rows, i, opening)
  }

  /** Row `i` is the first with a fault, and `e` says which. */
  ghost predicate IsFirstFault(
      rows: seq<BetaObservation>, i: int, stock: Ref, market: Ref, opening: Instant, cutoff: Instant, e: BetaError) {
    && 0 <= i < |rows| && (forall k :: 0 <= k < i ==> IsFaultless(rows, k, stock, market, opening, cutoff))
    && !IsFaultless(rows, i, stock, market, opening, cutoff)
    && e == if !IsReady(rows[i].stock, cutoff) then NotReady
            else if !IsOf(rows[i].stock, stock, Equity) then FeedMismatch
            else if !IsReady(rows[i].market, cutoff) then NotReady
            else if !IsOf(rows[i].market, market, IndexFeed) then FeedMismatch
            else GapOrDuplicate
  }

  ghost predicate AllFaultless(rows: seq<BetaObservation>, stock: Ref, market: Ref, opening: Instant, cutoff: Instant) {
    forall i :: 0 <= i < |rows| ==> IsFaultless(rows, i, stock, market, opening, cutoff)
  }

  ghost predicate IsFault(
      rows: seq<BetaObservation>, stock: Ref, market: Ref, opening: Instant, cutoff: Instant, e: BetaError) {
    exists i :: IsFirstFault(rows, i, stock, market, opening, cutoff, e)
  }

  /** Each return takes a close to the next. */
  ghost predicate AreReturns(closes: seq<real>, rs: seq<real>) {
    |rs| == |closes| - 1 && forall i :: 0 <= i < |rs| ==> Leads(closes[i], rs[i], closes[i + 1])
  }

  /** A return takes a level to another. */
  ghost predicate Leads(x: real, r: real, y: real) {
    (1.0 + r) * x == y
  }

  /** The drift is more than that share of the slope. */
  ghost predicate Exceeds(drift: real, share: real, slope: real) {
    drift > share * slope
  }

  ghost predicate IsShare(drift: real, share: real, slope: real) {
    drift == share * slope
  }

  /** The regressions of a fit: of all returns, and of each half. */
  datatype Lines = Lines(
    whole: Result<Regression.Line, Regression.Error>, first: Result<Regression.Line, Regression.Error>,
    second: Result<Regression.Line, Regression.Error>)

  ghost predicate AreLines(left: seq<real>, right: seq<real>, ls: Lines) {
    var half := |left| / 2;
    && |left| == |right| && IsFit(left, right, ls.whole)
    && IsFit(left[..half], right[..half], ls.first) && IsFit(left[half..], right[half..], ls.second)
  }

  /** The answer of a fit: the first thing in its way, or the best line with the drift between the halves. */
  ghost predicate IsReturnFit(ls: Lines, cfg: RelativeValueSettings, r: Result<Fit, BetaError>) {
    if ls.whole.Err? then r == Err(FitFailed(ls.whole.error))
    else
      var beta := ls.whole.value.slope;
      if beta < cfg.minBeta || cfg.maxBeta < beta then r == Err(BetaOutOfRange)
      else if ls.first.Err? then r == Err(FitFailed(ls.first.error))
      else if ls.second.Err? then r == Err(FitFailed(ls.second.error))
      else
        var drift := Distance(ls.first.value.slope, ls.second.value.slope);
        if Exceeds(drift, cfg.maxSplitDrift, beta) then r == Err(Unstable)
        else
          && r.Ok? && r.value.beta == beta && r.value.intercept == ls.whole.value.intercept
          && IsShare(drift, r.value.splitDrift, beta)
  }

  /** What an estimate rests on. */
  datatype Sample = Sample(ordered: seq<BetaObservation>, rows: seq<BetaObservation>, left: seq<real>, right: seq<real>, lines: Lines, fit: Result<Fit, BetaError>)

  ghost predicate IsEstimate(
      history: seq<BetaObservation>, stock: Ref, market: Ref, at: Instant, opening: Instant, count: nat, cfg: RelativeValueSettings,
      s: Sample, r: Result<BetaEstimate, BetaError>)
  {
    var cutoff := at - 5 * MINUTE;
    && AreInTime(history, opening, cutoff, s.ordered) && AreLast(s.ordered, count, s.rows)
    && if |s.rows| != count || count == 0 then r == Err(Warmup)
       else if s.rows[count - 1].stock.end != cutoff then r == Err(HistoryStale)
       else if AllFaultless(s.rows, stock, market, opening, cutoff) then
         && AreReturns(StockCloses(s.rows), s.left) && AreReturns(MarketCloses(s.rows), s.right)
         && AreLines(s.left, s.right, s.lines) && IsReturnFit(s.lines, cfg, s.fit)
         && r == if s.fit.Err? then Err(s.fit.error)
                 else Ok(BetaEstimate(s.fit.value.beta, s.fit.value.intercept, s.fit.value.splitDrift, s.rows[0].stock.start, cutoff,
                                      count - 1, MarketBars(s.rows)))
       else r.Err? && IsFault(s.rows, stock, market, opening, cutoff, r.error)
  }

  lemma {:induction false} UsableCounts(history: seq<BetaObservation>, opening: Instant, cutoff: Instant)
    ensures forall r :: multiset(UsableRows(history, opening, cutoff))[r] == if InTime(r, opening, cutoff) then multiset(history)[r] else 0
  {
    if history != [] {
      var n := |history| - 1;
      assert history == history[..n] + [history[n]];
      UsableCounts(history[..n], opening, cutoff);
      assert Usable(history[n], opening, cutoff) <==> InTime(history[n], opening, cutoff);
    }
  }

  lemma LatestMeaning(
      history: seq<BetaObservation>, opening: Instant, cutoff: Instant,
      count: nat) returns (ordered: seq<BetaObservation>)
    ensures AreInTime(history, opening, cutoff, ordered) && AreLast(ordered, count, Beta.Training(history, opening, cutoff, count))
  {
    var usable := UsableRows(history, opening, cutoff);
    ordered := Sort(usable, EndsBefore);
    UsableCounts(history, opening, cutoff);
    assert TotalPreorder(EndsBefore);
    SortSorts(usable, EndsBefore);
    forall i, j | 0 <= i < j < |ordered|
      ensures ordered[i].stock.end <= ordered[j].stock.end
    {
      assert EndsBefore(ordered[i], ordered[j]);
    }
  }

  lemma RowMeaning(rows: seq<BetaObservation>, i: nat, stock: Ref, market: Ref, opening: Instant, cutoff: Instant)
    requires i < |rows|
    ensures var f := RowFault(rows, i, stock, market, opening, cutoff);
            && (f.None? <==> IsFaultless(rows, i, stock, market, opening, cutoff))
            && (f.Some? ==> f.value == if !IsReady(rows[i].stock, cutoff) then NotReady
                                       else if !IsOf(rows[i].stock, stock, Equity) then FeedMismatch
                                       else if !IsReady(rows[i].market, cutoff) then NotReady
                                       else if !IsOf(rows[i].market, market, IndexFeed) then FeedMismatch
                                       else GapOrDuplicate)
  {
    ReadyMeaning(rows[i].stock, cutoff);
    ReadyMeaning(rows[i].market, cutoff);
  }

  lemma {:induction false} FaultMeaning(
      rows: seq<BetaObservation>, n: nat, stock: Ref, market: Ref, opening: Instant, cutoff: Instant)
    requires n <= |rows|
    ensures var f := FirstFault(rows, n, stock, market, opening, cutoff);
            && (f.None? <==> forall i :: 0 <= i < n ==> IsFaultless(rows, i, stock, market, opening, cutoff))
            && (f.Some? ==> IsFault(rows, stock, market, opening, cutoff, f.value))
  {
    if n > 0 {
      FaultMeaning(rows, n - 1, stock, market, opening, cutoff);
      RowMeaning(rows, n - 1, stock, market, opening, cutoff);
      var before, f := FirstFault(rows, n - 1, stock, market, opening, cutoff), RowFault(rows, n - 1, stock, market, opening, cutoff);
      if before.None? && f.Some? {
        assert IsFirstFault(rows, n - 1, stock, market, opening, cutoff, f.value);
      }
    }
  }

  lemma {:induction false} ReturnsMeaning(closes: seq<real>)
    requires closes != [] && AllPositive(closes)
    ensures AreReturns(closes, Beta.Returns(closes))
  {
    var n := |closes| - 1;
    if n > 0 {
      ReturnsMeaning(closes[..n]);
      NextClose(closes[n - 1], closes[n], closes[n] / closes[n - 1] - 1.0);
    }
  }

  lemma NextClose(x: real, y: real, r: real)
    requires x > 0.0 && r == y / x - 1.0
    ensures Leads(x, r, y)
  {
    var q := y / x;
    assert q * x == y;
  }

  lemma DriftMeaning(drift: real, beta: real, q: real, most: real)
    requires beta > 0.0 && q == drift / beta
    ensures IsShare(drift, q, beta) && (q > most <==> Exceeds(drift, most, beta))
  {
    AboveFloor(drift, beta, q, most);
  }

  lemma ReturnFitMeaning(left: seq<real>, right: seq<real>, cfg: RelativeValueSettings) returns (ls: Lines)
    requires cfg.Valid() && |left| == |right|
    ensures AreLines(left, right, ls) && IsReturnFit(ls, cfg, FitReturns(left, right, cfg))
  {
    var half := |left| / 2;
    ls := Lines(Regression.Ols(left, right), Regression.Ols(left[..half], right[..half]), Regression.Ols(left[half..], right[half..]));
    FitMeaning(left, right);
    FitMeaning(left[..half], right[..half]);
    FitMeaning(left[half..], right[half..]);
    if ls.whole.Ok? && ls.first.Ok? && ls.second.Ok? && cfg.minBeta <= ls.whole.value.slope {
      var drift, beta := Abs(ls.first.value.slope - ls.second.value.slope), ls.whole.value.slope;
      DriftMeaning(drift, beta, drift / beta, cfg.maxSplitDrift);
    }
  }

  /** The estimate once its rows have been judged. */
  lemma EstimateFrom(
      history: seq<BetaObservation>, stock: Ref, market: Ref, at: Instant, opening: Instant, count: nat, cfg: RelativeValueSettings,
      rows: seq<BetaObservation>, r: Result<BetaEstimate, BetaError>)
    requires cfg.Valid() && count > 0 && rows == Beta.Training(history, opening, at - 5 * MINUTE, count)
    requires r == EstimateBeta(history, stock, market, at, opening, count, ReturnFitter(cfg))
    ensures |rows| != count ==> r == Err(Warmup)
    ensures |rows| == count && rows[count - 1].stock.end != at - 5 * MINUTE ==> r == Err(HistoryStale)
    ensures |rows| == count && rows[count - 1].stock.end == at - 5 * MINUTE ==>
              var fault := FirstFault(rows, |rows|, stock, market, opening, at - 5 * MINUTE);
              r == if fault.Some? then Err(fault.value)
                   else Made(rows, at - 5 * MINUTE, FitCloses(StockCloses(rows), MarketCloses(rows), cfg))
  {
  }

  ghost function Made(
      rows: seq<BetaObservation>, cutoff: Instant, fit: Result<Fit, BetaError>): Result<BetaEstimate, BetaError>
    requires rows != []
  {
    if fit.Err? then Err(fit.error)
    else Ok(BetaEstimate(fit.value.beta, fit.value.intercept, fit.value.splitDrift, rows[0].stock.start, cutoff, |rows| - 1, MarketBars(rows)))
  }

  lemma SampleMeaning(
      rows: seq<BetaObservation>, cfg: RelativeValueSettings) returns (left: seq<real>, right: seq<real>, ls: Lines)
    requires cfg.Valid() && rows != [] && AllPositive(StockCloses(rows)) && AllPositive(MarketCloses(rows))
    ensures AreReturns(StockCloses(rows), left) && AreReturns(MarketCloses(rows), right)
    ensures AreLines(left, right, ls) && IsReturnFit(ls, cfg, FitCloses(StockCloses(rows), MarketCloses(rows), cfg))
  {
    left, right := Beta.Returns(StockCloses(rows)), Beta.Returns(MarketCloses(rows));
    ReturnsMeaning(StockCloses(rows));
    ReturnsMeaning(MarketCloses(rows));
    ls := ReturnFitMeaning(left, right, cfg);
  }

  /** Every estimate, with the rows, returns and lines it rests on. */
  lemma EstimateMeaning(
      history: seq<BetaObservation>, stock: Ref, market: Ref, at: Instant, opening: Instant, count: nat,
      cfg: RelativeValueSettings)
      returns (s: Sample)
    requires cfg.Valid() && count > 0
    ensures IsEstimate(history, stock, market, at, opening, count, cfg, s,
                       EstimateBeta(history, stock, market, at, opening, count, ReturnFitter(cfg)))
  {
    var cutoff := at - 5 * MINUTE;
    var ordered := LatestMeaning(history, opening, cutoff, count);
    var rows := Beta.Training(history, opening, cutoff, count);
    var r := EstimateBeta(history, stock, market, at, opening, count, ReturnFitter(cfg));
    FaultMeaning(rows, |rows|, stock, market, opening, cutoff);
    assert FirstFault(rows, |rows|, stock, market, opening, cutoff).None? <==> AllFaultless(rows, stock, market, opening, cutoff);
    EstimateFrom(history, stock, market, at, opening, count, cfg, rows, r);
    s := Sample(ordered, rows, [], [], Lines(Err(Regression.Insufficient), Err(Regression.Insufficient), Err(Regression.Insufficient)), Err(Warmup));
    if |rows| == count && FirstFault(rows, |rows|, stock, market, opening, cutoff).None? {
      FaultlessCloses(rows, stock, market, opening, cutoff);
      var left, right, ls := SampleMeaning(rows, cfg);
      s := Sample(ordered, rows, left, right, ls, FitCloses(StockCloses(rows), MarketCloses(rows), cfg));
    }
    SampleIsEstimate(history, stock, market, at, opening, count, cfg, s, cutoff, r);
  }

  lemma SampleIsEstimate(
      history: seq<BetaObservation>, stock: Ref, market: Ref, at: Instant, opening: Instant, count: nat, cfg: RelativeValueSettings,
      s: Sample, cutoff: Instant, r: Result<BetaEstimate, BetaError>)
    requires count > 0 && cutoff == at - 5 * MINUTE && AreInTime(history, opening, cutoff, s.ordered) && AreLast(s.ordered, count, s.rows)
    requires |s.rows| != count ==> r == Err(Warmup)
    requires |s.rows| == count && s.rows[count - 1].stock.end != cutoff ==> r == Err(HistoryStale)
    requires |s.rows| == count && s.rows[count - 1].stock.end == cutoff && AllFaultless(s.rows, stock, market, opening, cutoff) ==>
               r == Made(s.rows, cutoff, s.fit)
    requires |s.rows| == count && s.rows[count - 1].stock.end == cutoff && !AllFaultless(s.rows, stock, market, opening, cutoff) ==>
               r.Err? && IsFault(s.rows, stock, market, opening, cutoff, r.error)
    requires |s.rows| == count && AllFaultless(s.rows, stock, market, opening, cutoff) ==>
               && AreReturns(StockCloses(s.rows), s.left) && AreReturns(MarketCloses(s.rows), s.right)
               && AreLines(s.left, s.right, s.lines) && IsReturnFit(s.lines, cfg, s.fit)
    ensures IsEstimate(history, stock, market, at, opening, count, cfg, s, r)
  {
  }
}
