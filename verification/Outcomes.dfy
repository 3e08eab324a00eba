/** What a health measurement says, told in the trades that were visible and the snapshot before. */
module Outcomes {
  import opened Prelude
  import opened Sorting
  import opened Rules
  import opened Health

  /** A trade of the alpha, closed and received by now. */
  ghost predicate IsSeen(alpha: AlphaFamily, outcomes: seq<Trade>, at: Instant, t: Trade) {
    t in outcomes && t.alpha == alpha && t.closedAt <= at && t.receivedAt <= at
  }

  ghost predicate Conflict(alpha: AlphaFamily, outcomes: seq<Trade>, at: Instant) {
    exists t, u :: IsSeen(alpha, outcomes, at, t) && IsSeen(alpha, outcomes, at, u) && t.tradeId == u.tradeId && t != u
  }

  /** Closed before the other, or together with it and of a lower id. */
  ghost predicate Precedes(t: Trade, u: Trade) {
    t.closedAt < u.closedAt || (t.closedAt == u.closedAt && t.tradeId < u.tradeId)
  }

  /** The last `n` of the trades seen, in the order they closed. */
  ghost predicate IsLatest(alpha: AlphaFamily, outcomes: seq<Trade>, at: Instant, n: nat, ts: seq<Trade>) {
    && |ts| <= n
    && (forall i, j :: 0 <= i < j < |ts| ==> Precedes(ts[i], ts[j]))
    && (forall i :: 0 <= i < |ts| ==> IsSeen(alpha, outcomes, at, ts[i]))
    && (forall t :: IsSeen(alpha, outcomes, at, t) && t !in ts ==> |ts| == n && forall u :: u in ts ==> Precedes(t, u))
  }

  ghost predicate IsLastClose(ts: seq<Trade>, last: Option<Instant>) {
    if ts == [] then last == None else last == Some(ts[|ts| - 1].closedAt)
  }

  /** The net return of each trade on its capital. */
  ghost predicate AreReturns(ts: seq<Trade>, rs: seq<real>) {
    |rs| == |ts| && forall i :: 0 <= i < |ts| ==> rs[i] * ts[i].capital == ts[i].grossPnl - ts[i].costs - ts[i].slippage
  }

  ghost predicate IsAverage(rs: seq<real>, average: Option<real>) {
    if rs == [] then average == None else average.Some? && average.value * |rs| as real == Sum(rs)
  }

  ghost function SumOf(ts: seq<Trade>, column: Trade -> real): real {
    Sum(seq(|ts|, i requires 0 <= i < |ts| => column(ts[i])))
  }

  ghost function Kept(t: Trade): real {
    t.grossPnl - (t.costs + t.slippage)
  }

  ghost function Spent(t: Trade): real {
    t.costs
  }

  ghost function Slipped(t: Trade): real {
    t.slippage
  }

  ghost predicate AreFigures(ts: seq<Trade>, rs: seq<real>, s: Snapshot) {
    && IsAverage(rs, s.expectancy) && IsDrawdown(rs, s.drawdown)
    && s.netPnl == SumOf(ts, Kept) && s.costs == SumOf(ts, Spent) && s.slippage == SumOf(ts, Slipped)
    && IsLastClose(ts, s.lastTradeAt)
  }

  ghost predicate Losing(p: Policy, s: Snapshot) {
    s.expectancy.Some? && (s.expectancy.value <= 0.0 || s.drawdown >= p.maxDrawdown)
  }

  /** Enough trades, one of them newer than any before, and a full interval since the last increase. */
  ghost predicate Earns(p: Policy, trades: nat, s: Snapshot, previous: Option<Snapshot>) {
    && previous.Some? && trades >= p.minimumTrades && s.lastTradeAt.Some?
    && (previous.value.lastTradeAt.Some? ==> previous.value.lastTradeAt.value < s.lastTradeAt.value)
    && previous.value.lastIncreaseAt + p.increaseInterval * SECOND <= s.timestamp
  }

  /**
   Cut to the minimum when losing, raised by one step when earned, and otherwise carried, if not above the start too
   soon.
   */
  ghost predicate IsAdjusted(p: Policy, trades: nat, s: Snapshot, previous: Option<Snapshot>) {
    var carried, increased := if previous.Some? then previous.value.multiplier else p.initial,
                              if previous.Some? then previous.value.lastIncreaseAt else s.timestamp;
    if Losing(p, s) then s.multiplier == p.minimum && s.lastIncreaseAt == increased
    else if Earns(p, trades, s, previous) then
      && s.lastIncreaseAt == s.timestamp
      && s.multiplier == if carried + p.maxIncrease <= p.maximum then carried + p.maxIncrease else p.maximum
    else
      && s.lastIncreaseAt == increased
      && s.multiplier == if trades < p.minimumTrades && p.initial < carried then p.initial else carried
  }

  /** The outcome of a measurement over the latest trades and their returns. */
  ghost predicate IsMeasured(
      alpha: AlphaFamily, outcomes: seq<Trade>, at: Instant, p: Policy, previous: Option<Snapshot>, ts: seq<Trade>, rs: seq<real>,
      r: Result<Snapshot, Error>)
  {
    if Conflict(alpha, outcomes, at) then r == Err(ConflictingOutcome)
    else if previous.Some? && (previous.value.alpha != alpha || previous.value.policy != p || at <= previous.value.timestamp) then
      r == Err(InvalidPredecessor)
    else
      && IsLatest(alpha, outcomes, at, p.windowTrades, ts)
      && if previous.Some? && previous.value.lastTradeAt.Some? && (ts == [] || ts[|ts| - 1].closedAt < previous.value.lastTradeAt.value) then
           r == Err(HistoryRegressed)
         else
           && r.Ok? && r.value.alpha == alpha && r.value.timestamp == at && r.value.policy == p && r.value.outcomes == ts
           && AreReturns(ts, rs) && AreFigures(ts, rs, r.value)
           && IsAdjusted(p, |ts|, r.value, previous)
  }

  lemma SeenMeaning(alpha: AlphaFamily, outcomes: seq<Trade>, at: Instant)
    ensures forall t :: t in VisibleSet(alpha, outcomes, at) <==> IsSeen(alpha, outcomes, at, t)
    ensures ConflictFree(VisibleSet(alpha, outcomes, at)) <==> !Conflict(alpha, outcomes, at)
  {
    assert forall t :: t in VisibleSet(alpha, outcomes, at) <==> IsSeen(alpha, outcomes, at, t);
  }

  lemma LatestMeaning(alpha: AlphaFamily, outcomes: seq<Trade>, at: Instant, s: set<Trade>, ts: seq<Trade>, n: nat)
    requires ConflictFree(s) && Lists(s, ts, ClosedBefore) && forall t :: t in s <==> IsSeen(alpha, outcomes, at, t)
    ensures IsLatest(alpha, outcomes, at, n, Last(ts, n))
  {
    forall i, j | 0 <= i < j < |ts|
      ensures Precedes(ts[i], ts[j])
    {
      assert ClosedBefore(ts[i], ts[j]) && ts[i] in s && ts[j] in s;
    }
    var last := Last(ts, n);
    var from := |ts| - |last|;
    assert forall i :: 0 <= i < |last| ==> last[i] == ts[from + i];
    forall t | IsSeen(alpha, outcomes, at, t) && t !in last
      ensures |last| == n && forall u :: u in last ==> Precedes(t, u)
    {
      var i :| 0 <= i < |ts| && ts[i] == t;
      assert i < from by {
        assert forall k :: from <= k < |ts| ==> ts[k] == last[k - from];
      }
    }
  }

  lemma {:induction false} ColumnMeaning(ts: seq<Trade>, column: Trade -> real, figure: Trade -> real)
    requires forall t: Trade :: column(t) == figure(t)
    ensures Total(ts, column) == SumOf(ts, figure)
  {
    if ts != [] {
      var n := |ts| - 1;
      ColumnMeaning(ts[..n], column, figure);
      var all := seq(|ts|, i requires 0 <= i < |ts| => figure(ts[i]));
      assert all[..n] == seq(n, i requires 0 <= i < n => figure(ts[..n][i]));
    }
  }

  lemma ReturnsMeaning(ts: seq<Trade>)
    requires forall t :: t in ts ==> t.capital != 0.0
    ensures AreReturns(ts, Returns(ts))
  {
    var rs := Returns(ts);
    forall i | 0 <= i < |ts|
      ensures rs[i] * ts[i].capital == ts[i].grossPnl - ts[i].costs - ts[i].slippage
    {
      assert ts[i] in ts;
      Quotient(NetPnl(ts[i]), ts[i].capital, rs[i]);
    }
  }

  lemma Quotient(x: real, d: real, q: real)
    requires d != 0.0 && q == x / d
    ensures q * d == x
  {
  }

  lemma ColumnsMeaning(ts: seq<Trade>)
    ensures Total(ts, NetPnl) == SumOf(ts, Kept)
    ensures Total(ts, (t: Trade) => t.costs) == SumOf(ts, Spent)
    ensures Total(ts, (t: Trade) => t.slippage) == SumOf(ts, Slipped)
  {
    ColumnMeaning(ts, NetPnl, Kept);
    ColumnMeaning(ts, (t: Trade) => t.costs, Spent);
    ColumnMeaning(ts, (t: Trade) => t.slippage, Slipped);
  }

  lemma FiguresMeaning(ts: seq<Trade>, rs: seq<real>, s: Snapshot)
    requires s.expectancy == Expectancy(rs) && |rs| == |ts| && s.drawdown == WorstFall(rs) && s.lastTradeAt == LastClose(ts)
    requires s.netPnl == SumOf(ts, Kept) && s.costs == SumOf(ts, Spent) && s.slippage == SumOf(ts, Slipped)
    ensures AreFigures(ts, rs, s)
  {
    WorstFallIsDrawdown(rs);
    AverageMeaning(rs, s.expectancy);
  }

  lemma AverageMeaning(rs: seq<real>, expectancy: Option<real>)
    requires expectancy == Expectancy(rs)
    ensures IsAverage(rs, expectancy)
  {
    if rs != [] {
      Quotient(Sum(rs), |rs| as real, expectancy.value);
    }
  }

  lemma AdjustmentMeaning(
      alpha: AlphaFamily, ts: seq<Trade>, at: Instant, p: Policy, previous: Option<Snapshot>, s: Snapshot)
    requires s.alpha == alpha && s.timestamp == at && s.lastTradeAt == LastClose(ts)
    requires (s.multiplier, s.lastIncreaseAt) == Adjust(p, ts, s.expectancy, s.drawdown, at, previous)
    ensures IsAdjusted(p, |ts|, s, previous)
  {
  }

  lemma ReportMeaning(
      alpha: AlphaFamily, ts: seq<Trade>, at: Instant, p: Policy, previous: Option<Snapshot>, s: Snapshot)
    requires (forall t :: t in ts ==> t.capital != 0.0) && s == Report(alpha, ts, at, p, previous)
    ensures s.alpha == alpha && s.timestamp == at && s.policy == p && s.outcomes == ts
    ensures AreReturns(ts, Returns(ts)) && AreFigures(ts, Returns(ts), s) && IsAdjusted(p, |ts|, s, previous)
  {
    ReturnsMeaning(ts);
    ColumnsMeaning(ts);
    FiguresMeaning(ts, Returns(ts), s);
    AdjustmentMeaning(alpha, ts, at, p, previous, s);
  }

  lemma RefusalMeaning(
      alpha: AlphaFamily, s: set<Trade>, ts: seq<Trade>, at: Instant, p: Policy, previous: Option<Snapshot>)
    requires AllValid(s) && ts == Last(Chronicle(s), p.windowTrades) && forall t :: t in ts ==> t.capital != 0.0
    ensures Measure(alpha, s, at, p, previous) == Answer(!ConflictFree(s), alpha, at, p, previous, ts, Report(alpha, ts, at, p, previous))
  {
  }

  /** The snapshot, unless something is in the way of it. */
  ghost function Answer(
      conflict: bool, alpha: AlphaFamily, at: Instant, p: Policy, previous: Option<Snapshot>, ts: seq<Trade>,
      s: Snapshot): Result<Snapshot, Error>
  {
    if conflict then Err(ConflictingOutcome)
    else if previous.Some? && (previous.value.alpha != alpha || previous.value.policy != p || at <= previous.value.timestamp) then
      Err(InvalidPredecessor)
    else if previous.Some? && previous.value.lastTradeAt.Some? && (ts == [] || ts[|ts| - 1].closedAt < previous.value.lastTradeAt.value) then
      Err(HistoryRegressed)
    else Ok(s)
  }

  lemma AnswerIsMeasured(
      alpha: AlphaFamily, outcomes: seq<Trade>, at: Instant, p: Policy, previous: Option<Snapshot>, ts: seq<Trade>,
      rs: seq<real>, s: Snapshot)
    requires !Conflict(alpha, outcomes, at) ==> IsLatest(alpha, outcomes, at, p.windowTrades, ts)
    requires s.alpha == alpha && s.timestamp == at && s.policy == p && s.outcomes == ts
    requires AreReturns(ts, rs) && AreFigures(ts, rs, s) && IsAdjusted(p, |ts|, s, previous)
    ensures IsMeasured(alpha, outcomes, at, p, previous, ts, rs, Answer(Conflict(alpha, outcomes, at), alpha, at, p, previous, ts, s))
  {
  }

  lemma LastAreMembers(s: set<Trade>, all: seq<Trade>, n: nat)
    requires Lists(s, all, ClosedBefore) && AllValid(s)
    ensures forall t :: t in Last(all, n) ==> t.Valid()
  {
    forall t | t in Last(all, n)
      ensures t in all
    {
    }
  }

  /** Every measurement, with the trades and the returns it is made of. */
  lemma MeasurementMeaning(alpha: AlphaFamily, outcomes: seq<Trade>, at: Instant, p: Policy, previous: Option<Snapshot>)
      returns (ts: seq<Trade>, rs: seq<real>)
    requires forall t :: t in outcomes ==> t.Valid()
    ensures IsMeasured(alpha, outcomes, at, p, previous, ts, rs, Measure(alpha, VisibleSet(alpha, outcomes, at), at, p, previous))
  {
    var s := VisibleSet(alpha, outcomes, at);
    SeenMeaning(alpha, outcomes, at);
    ts := Last(Chronicle(s), p.windowTrades);
    LastAreMembers(s, Chronicle(s), p.windowTrades);
    rs := Returns(ts);
    var snapshot := Report(alpha, ts, at, p, previous);
    RefusalMeaning(alpha, s, ts, at, p, previous);
    ReportMeaning(alpha, ts, at, p, previous, snapshot);
    if ConflictFree(s) {
      LatestMeaning(alpha, outcomes, at, s, Chronicle(s), p.windowTrades);
    }
    AnswerIsMeasured(alpha, outcomes, at, p, previous, ts, rs, snapshot);
  }
}
