/**
 Rolling alpha health: a causal window of trade outcomes, an additive drawdown, and a multiplier that
 is cut at once and raised slowly along a chain of snapshots.
 */
module Health {
  import opened Prelude
  import opened Sorting
  import opened Rules

  datatype Trade = Trade(
    tradeId: Id,
    alpha: AlphaFamily,
    closedAt: Instant,
    receivedAt: Instant,
    grossPnl: real,
    costs: real,
    slippage: real,
    capital: real)
  {
    predicate Valid() {
      closedAt <= receivedAt && costs >= 0.0 && slippage >= 0.0 && capital > 0.0
    }
  }

  datatype Policy = Policy(
    windowTrades: nat,
    minimumTrades: nat,
    minimum: real,
    initial: real,
    maximum: real,
    maxIncrease: real,
    increaseInterval: nat,
    maxDrawdown: real)
  {
    predicate Valid() {
      && 1 <= minimumTrades <= windowTrades && 2 <= windowTrades
      && 0.0 <= minimum <= initial <= maximum <= 1.0
      && 0.0 < maxIncrease && 3600 <= increaseInterval && 0.0 < maxDrawdown
    }
  }

  /** `outcomes` stands for the hash of the window it lists. */
  datatype Snapshot = Snapshot(
    alpha: AlphaFamily,
    timestamp: Instant,
    expectancy: Option<real>,
    netPnl: real,
    drawdown: real,
    costs: real,
    slippage: real,
    multiplier: real,
    lastIncreaseAt: Instant,
    lastTradeAt: Option<Instant>,
    policy: Policy,
    outcomes: seq<Trade>)

  datatype Error = ConflictingOutcome | InvalidPredecessor | HistoryRegressed

  predicate Visible(alpha: AlphaFamily, at: Instant, t: Trade) {
    t.alpha == alpha && t.receivedAt <= at && t.closedAt <= at
  }

  /** All that a measurement may depend on. */
  function VisibleSet(alpha: AlphaFamily, outcomes: seq<Trade>, at: Instant): set<Trade> {
    set t | t in outcomes && Visible(alpha, at, t)
  }

  ghost predicate ConflictFree(s: set<Trade>) {
    forall t, u :: t in s && u in s && t.tradeId == u.tradeId ==> t == u
  }

  predicate ClosedBefore(t: Trade, u: Trade) {
    t.closedAt < u.closedAt || (t.closedAt == u.closedAt && t.tradeId <= u.tradeId)
  }

  lemma ClosedBeforeIsOrder()
    ensures TotalPreorder(ClosedBefore)
  {
  }

  /** The trades in closing order. */
  ghost function Chronicle(s: set<Trade>): (ts: seq<Trade>)
    ensures Lists(s, ts, ClosedBefore)
  {
    ClosedBeforeIsOrder();
    Arrange(s, ClosedBefore)
  }

  function Last(ts: seq<Trade>, n: nat): seq<Trade> {
    if |ts| <= n then ts else ts[|ts| - n..]
  }

  function NetPnl(t: Trade): real {
    t.grossPnl - t.costs - t.slippage
  }

  function Returns(ts: seq<Trade>): (rs: seq<real>)
    requires forall t :: t in ts ==> t.capital != 0.0
    ensures |rs| == |ts|
  {
    seq(|ts|, i requires 0 <= i < |ts| => NetPnl(ts[i]) / ts[i].capital)
  }

  /** Total of one column of the window. */
  function Total(ts: seq<Trade>, column: Trade -> real): real {
    if ts == [] then 0.0 else Total(ts[..|ts| - 1], column) + column(ts[|ts| - 1])
  }

  /** `d` is the largest fall of the running sum from any point to any later one. */
  ghost predicate IsDrawdown(rs: seq<real>, d: real) {
    && (forall i, j :: 0 <= i <= j <= |rs| ==> Sum(rs[..i]) - Sum(rs[..j]) <= d)
    && (exists i, j :: 0 <= i <= j <= |rs| && Sum(rs[..i]) - Sum(rs[..j]) == d)
  }

  function Peak(rs: seq<real>): real {
    if rs == [] then 0.0 else MaxReal(Peak(rs[..|rs| - 1]), Sum(rs))
  }

  function WorstFall(rs: seq<real>): real {
    if rs == [] then 0.0 else MaxReal(WorstFall(rs[..|rs| - 1]), Peak(rs) - Sum(rs))
  }

  lemma {:induction false} PeakIsHighest(rs: seq<real>) returns (at: nat)
    ensures at <= |rs| && Sum(rs[..at]) == Peak(rs)
    ensures forall i :: 0 <= i <= |rs| ==> Sum(rs[..i]) <= Peak(rs)
  {
    assert rs[..|rs|] == rs;
    if rs == [] {
      at := 0;
    } else {
      var before := rs[..|rs| - 1];
      at := PeakIsHighest(before);
      forall i | 0 <= i <= |rs|
        ensures Sum(rs[..i]) <= Peak(rs)
      {
        if i < |rs| {
          assert before[..i] == rs[..i];
        }
      }
      assert before[..at] == rs[..at];
      if Peak(before) < Sum(rs) {
        at := |rs|;
      }
    }
  }

  lemma {:induction false} FallBounded(rs: seq<real>, i: nat, j: nat)
    requires i <= j <= |rs|
    ensures Sum(rs[..i]) - Sum(rs[..j]) <= WorstFall(rs)
  {
    if rs == [] {
    } else if j < |rs| {
      var before := rs[..|rs| - 1];
      FallBounded(before, i, j);
      assert before[..i] == rs[..i] && before[..j] == rs[..j];
    } else {
      assert rs[..j] == rs;
      var top := PeakIsHighest(rs);
    }
  }

  lemma {:induction false} FallReached(rs: seq<real>) returns (i: nat, j: nat)
    ensures i <= j <= |rs| && Sum(rs[..i]) - Sum(rs[..j]) == WorstFall(rs)
  {
    if rs == [] {
      i, j := 0, 0;
    } else {
      var before := rs[..|rs| - 1];
      i, j := FallReached(before);
      assert before[..i] == rs[..i] && before[..j] == rs[..j];
      if WorstFall(before) < Peak(rs) - Sum(rs) {
        i := PeakIsHighest(rs);
        j := |rs|;
        assert rs[..j] == rs;
      }
    }
  }

  /** The one-pass figure is the maximum over all pairs of points. */
  lemma WorstFallIsDrawdown(rs: seq<real>)
    ensures IsDrawdown(rs, WorstFall(rs))
  {
    forall i, j | 0 <= i <= j <= |rs|
      ensures Sum(rs[..i]) - Sum(rs[..j]) <= WorstFall(rs)
    {
      FallBounded(rs, i, j);
    }
    var i, j := FallReached(rs);
  }

  function Expectancy(rs: seq<real>): Option<real> {
    if rs == [] then None else Some(Sum(rs) / |rs| as real)
  }

  function LastClose(ts: seq<Trade>): Option<Instant> {
    if ts == [] then None else Some(ts[|ts| - 1].closedAt)
  }

  /** The multiplier and the instant of the last increase. */
  function Adjust(
      p: Policy, ts: seq<Trade>, expectancy: Option<real>, drawdown: real, at: Instant,
      previous: Option<Snapshot>): (real, Instant) {
    var carried := if previous.Some? then previous.value.multiplier else p.initial;
    var base := if |ts| < p.minimumTrades then MinReal(carried, p.initial) else carried;
    var lastIncrease := if previous.Some? then previous.value.lastIncreaseAt else at;
    if expectancy.Some? && (expectancy.value <= 0.0 || drawdown >= p.maxDrawdown) then (p.minimum, lastIncrease)
    else if previous.Some? && |ts| >= p.minimumTrades && LastClose(ts).Some?
            && (previous.value.lastTradeAt.None? || LastClose(ts).value > previous.value.lastTradeAt.value)
            && at - lastIncrease >= p.increaseInterval * SECOND then
      (MinReal(p.maximum, base + p.maxIncrease), at)
    else (base, lastIncrease)
  }

  predicate BadPredecessor(alpha: AlphaFamily, at: Instant, p: Policy, previous: Option<Snapshot>) {
    previous.Some? && (previous.value.alpha != alpha || previous.value.policy != p || previous.value.timestamp >= at)
  }

  predicate Regressed(last: Option<Instant>, previous: Option<Snapshot>) {
    && previous.Some? && previous.value.lastTradeAt.Some?
    && (last.None? || last.value < previous.value.lastTradeAt.value)
  }

  /** The snapshot of a window. */
  function Report(alpha: AlphaFamily, ts: seq<Trade>, at: Instant, p: Policy, previous: Option<Snapshot>): Snapshot
    requires forall t :: t in ts ==> t.capital != 0.0
  {
    var rs := Returns(ts);
    var (multiplier, lastIncrease) := Adjust(p, ts, Expectancy(rs), WorstFall(rs), at, previous);
    Snapshot(alpha, at, Expectancy(rs), Total(ts, NetPnl), WorstFall(rs),
             Total(ts, (t: Trade) => t.costs), Total(ts, (t: Trade) => t.slippage),
             multiplier, lastIncrease, LastClose(ts), p, ts)
  }

  ghost predicate AllValid(s: set<Trade>) {
    forall t :: t in s ==> t.Valid()
  }

  /** The measurement as a function of the visible set and nothing else. */
  ghost function Measure(
      alpha: AlphaFamily, s: set<Trade>, at: Instant, p: Policy, previous: Option<Snapshot>): Result<Snapshot, Error>
    requires AllValid(s)
  {
    var ts := Last(Chronicle(s), p.windowTrades);
    if !ConflictFree(s) then Err(ConflictingOutcome)
    else if BadPredecessor(alpha, at, p, previous) then Err(InvalidPredecessor)
    else if Regressed(LastClose(ts), previous) then Err(HistoryRegressed)
    else
      assert forall t :: t in ts ==> t in Chronicle(s) && t.Valid();
      Ok(Report(alpha, ts, at, p, previous))
  }

  /** The single pass over the returns. */
  method ScanDrawdown(rs: seq<real>) returns (drawdown: real)
    ensures drawdown == WorstFall(rs)
    ensures IsDrawdown(rs, drawdown)
  {
    var curve, peak := 0.0, 0.0;
    drawdown := 0.0;
    for n := 0 to |rs|
      invariant curve == Sum(rs[..n]) && peak == Peak(rs[..n]) && drawdown == WorstFall(rs[..n])
    {
      assert rs[..n + 1][..n] == rs[..n];
      curve := curve + rs[n];
      peak := MaxReal(peak, curve);
      drawdown := MaxReal(drawdown, peak - curve);
    }
    assert rs[..|rs|] == rs;
    WorstFallIsDrawdown(rs);
  }

  /** Deduplicates the visible outcomes; `None` when two of them conflict. */
  method Deduplicate(alpha: AlphaFamily, outcomes: seq<Trade>, at: Instant) returns (kept: Option<seq<Trade>>)
    ensures kept.Some? <==> ConflictFree(VisibleSet(alpha, outcomes, at))
    ensures kept.Some? ==> forall t :: t in kept.value <==> t in VisibleSet(alpha, outcomes, at)
    ensures kept.Some? ==> Distinct(kept.value)
  {
    var unique: map<Id, Trade> := map[];
    var order: seq<Trade> := [];
    for n := 0 to |outcomes|
      invariant forall t :: t in order <==> t in VisibleSet(alpha, outcomes[..n], at)
      invariant forall t :: t in order ==> t.tradeId in unique && unique[t.tradeId] == t
      invariant forall k :: k in unique ==> unique[k] in order && unique[k].tradeId == k
      invariant Distinct(order)
    {
      var trade := outcomes[n];
      assert outcomes[..n + 1] == outcomes[..n] + [trade];
      if !Visible(alpha, at, trade) {
        continue;
      }
      if trade.tradeId in unique {
        if unique[trade.tradeId] != trade {
          assert unique[trade.tradeId] in VisibleSet(alpha, outcomes, at) && trade in VisibleSet(alpha, outcomes, at);
          return None;
        }
      } else {
        order := order + [trade];
        unique := unique[trade.tradeId := trade];
      }
    }
    assert outcomes[..|outcomes|] == outcomes;
    return Some(order);
  }

  method MeasureHealth(alpha: AlphaFamily, outcomes: seq<Trade>, at: Instant, p: Policy, previous: Option<Snapshot>)
      returns (r: Result<Snapshot, Error>)
    requires forall t :: t in outcomes ==> t.Valid()
    ensures r == Measure(alpha, VisibleSet(alpha, outcomes, at), at, p, previous)
  {
    ghost var s := VisibleSet(alpha, outcomes, at);
    var kept := Deduplicate(alpha, outcomes, at);
    if kept.None? {
      return Err(ConflictingOutcome);
    }
    var sorted := Sort(kept.value, ClosedBefore);
    SortedKept(s, kept.value);
    var trades := Last(sorted, p.windowTrades);
    if BadPredecessor(alpha, at, p, previous) {
      return Err(InvalidPredecessor);
    }
    assert forall t :: t in trades ==> t in sorted;
    var returns' := Returns(trades);
    var drawdown := ScanDrawdown(returns');
    var lastTrade := LastClose(trades);
    if Regressed(lastTrade, previous) {
      return Err(HistoryRegressed);
    }
    var (multiplier, lastIncrease) := Adjust(p, trades, Expectancy(returns'), drawdown, at, previous);
    return Ok(Report(alpha, trades, at, p, previous).(drawdown := drawdown, multiplier := multiplier, lastIncreaseAt := lastIncrease));
  }

  lemma SortedKept(s: set<Trade>, kept: seq<Trade>)
    requires ConflictFree(s) && Distinct(kept)
    requires forall t :: t in kept <==> t in s
    ensures Sort(kept, ClosedBefore) == Chronicle(s)
  {
    ClosedBeforeIsOrder();
    SortFindsArrangement(s, kept, ClosedBefore);
  }

  /** Reordering, repeating, or adding trades that are not visible leaves the visible set, so the measurement, alone. */
  lemma OnlyVisibleOutcomesCount(
      alpha: AlphaFamily, a: seq<Trade>, b: seq<Trade>, at: Instant, p: Policy, previous: Option<Snapshot>)
    requires forall t :: t in a || t in b ==> t.Valid()
    requires forall t :: Visible(alpha, at, t) ==> (t in a <==> t in b)
    ensures Measure(alpha, VisibleSet(alpha, a, at), at, p, previous) == Measure(alpha, VisibleSet(alpha, b, at), at, p, previous)
  {
    assert VisibleSet(alpha, a, at) == VisibleSet(alpha, b, at);
  }

  /** The last close a measurement sees. */
  ghost function LastSeen(s: set<Trade>, p: Policy): Option<Instant> {
    LastClose(Last(Chronicle(s), p.windowTrades))
  }

  /** When a measurement succeeds, and what it then says of its identity. */
  lemma WhenMeasured(alpha: AlphaFamily, s: set<Trade>, at: Instant, p: Policy, previous: Option<Snapshot>)
    requires AllValid(s)
    ensures var r := Measure(alpha, s, at, p, previous);
            && (r.Ok? <==> ConflictFree(s) && !BadPredecessor(alpha, at, p, previous) && !Regressed(LastSeen(s, p), previous))
            && (r.Ok? ==> r.value.alpha == alpha && r.value.timestamp == at && r.value.policy == p && r.value.lastTradeAt == LastSeen(s, p))
  {
  }

  lemma LastListedGrows(u: set<Trade>, v: set<Trade>, ts: seq<Trade>, ts': seq<Trade>)
    requires u <= v && Lists(u, ts, ClosedBefore) && Lists(v, ts', ClosedBefore)
    ensures ts != [] ==> ts' != [] && ts[|ts| - 1].closedAt <= ts'[|ts'| - 1].closedAt
  {
    if ts != [] {
      var last := ts[|ts| - 1];
      assert last in u && last in ts';
      var i :| 0 <= i < |ts'| && ts'[i] == last;
      assert i < |ts'| - 1 ==> ClosedBefore(ts'[i], ts'[|ts'| - 1]);
    }
  }

  lemma LastCloseOfWindow(ts: seq<Trade>, n: nat)
    requires n >= 1
    ensures LastClose(Last(ts, n)) == LastClose(ts)
  {
  }

  lemma LastSeenGrows(u: set<Trade>, v: set<Trade>, p: Policy)
    requires u <= v && p.Valid()
    ensures LastSeen(u, p).Some? ==> LastSeen(v, p).Some? && LastSeen(u, p).value <= LastSeen(v, p).value
  {
    LastListedGrows(u, v, Chronicle(u), Chronicle(v));
    LastCloseOfWindow(Chronicle(u), p.windowTrades);
    LastCloseOfWindow(Chronicle(v), p.windowTrades);
  }

  lemma AcceptedAfter(
      alpha: AlphaFamily, u: set<Trade>, v: set<Trade>, at: Instant, later: Instant, p: Policy, s: Snapshot)
    requires p.Valid() && AllValid(v) && u <= v && ConflictFree(v) && at < later
    requires s.alpha == alpha && s.timestamp == at && s.policy == p && s.lastTradeAt == LastSeen(u, p)
    ensures Measure(alpha, v, later, p, Some(s)).Ok?
  {
    LastSeenGrows(u, v, p);
    WhenMeasured(alpha, v, later, p, Some(s));
  }

  /** A history that only grows is never refused as regressed: the next measurement succeeds. */
  lemma GrowingHistoryIsAccepted(
      alpha: AlphaFamily, a: seq<Trade>, at: Instant, p: Policy, previous: Option<Snapshot>, s: Snapshot, b: seq<Trade>,
      later: Instant)
    requires p.Valid() && forall t :: t in b ==> t.Valid()
    requires forall t :: t in a ==> t in b
    requires Measure(alpha, VisibleSet(alpha, a, at), at, p, previous) == Ok(s)
    requires at < later && ConflictFree(VisibleSet(alpha, b, later))
    ensures Measure(alpha, VisibleSet(alpha, b, later), later, p, Some(s)).Ok?
  {
    var u, v := VisibleSet(alpha, a, at), VisibleSet(alpha, b, later);
    assert u <= v;
    WhenMeasured(alpha, u, at, p, previous);
    AcceptedAfter(alpha, u, v, at, later, p, s);
  }

  function Before(ss: seq<Snapshot>, k: nat): Option<Snapshot>
    requires k < |ss|
  {
    if k == 0 then None else Some(ss[k - 1])
  }

  /** A chain: each snapshot measured, from whatever was visible, on top of the one before. */
  ghost predicate IsChain(alpha: AlphaFamily, p: Policy, ss: seq<Snapshot>) {
    forall k {:trigger Before(ss, k)} :: 0 <= k < |ss| ==> Measured(alpha, p, Before(ss, k), ss[k])
  }

  ghost predicate Measured(alpha: AlphaFamily, p: Policy, previous: Option<Snapshot>, s: Snapshot) {
    exists seen: set<Trade> :: AllValid(seen) && Measure(alpha, seen, s.timestamp, p, previous) == Ok(s)
  }

  /** The part of a measurement the chain results rest on. */
  ghost predicate Linked(alpha: AlphaFamily, p: Policy, previous: Option<Snapshot>, s: Snapshot) {
    && (s.multiplier, s.lastIncreaseAt) == Adjust(p, s.outcomes, s.expectancy, s.drawdown, s.timestamp, previous)
    && s.lastTradeAt == LastClose(s.outcomes)
    && !BadPredecessor(alpha, s.timestamp, p, previous)
    && !Regressed(s.lastTradeAt, previous)
  }

  ghost predicate LinkedUp(alpha: AlphaFamily, p: Policy, ss: seq<Snapshot>) {
    forall k {:trigger Before(ss, k)} :: 0 <= k < |ss| ==> Linked(alpha, p, Before(ss, k), ss[k])
  }

  lemma MeasuredIsLinked(alpha: AlphaFamily, p: Policy, previous: Option<Snapshot>, s: Snapshot)
    requires Measured(alpha, p, previous, s)
    ensures Linked(alpha, p, previous, s)
  {
  }

  lemma ChainIsLinkedUp(alpha: AlphaFamily, p: Policy, ss: seq<Snapshot>)
    requires IsChain(alpha, p, ss)
    ensures LinkedUp(alpha, p, ss)
  {
    forall k | 0 <= k < |ss|
      ensures Linked(alpha, p, Before(ss, k), ss[k])
    {
      MeasuredIsLinked(alpha, p, Before(ss, k), ss[k]);
    }
  }

  /** What one link of a chain does. */
  lemma LinkFacts(alpha: AlphaFamily, p: Policy, previous: Snapshot, s: Snapshot)
    requires p.Valid() && Linked(alpha, p, Some(previous), s)
    requires p.minimum <= previous.multiplier <= p.maximum
    ensures p.minimum <= s.multiplier <= p.maximum && previous.timestamp < s.timestamp
    ensures previous.lastTradeAt.Some? ==> s.lastTradeAt.Some? && previous.lastTradeAt.value <= s.lastTradeAt.value
    ensures s.lastIncreaseAt == previous.lastIncreaseAt ==> s.multiplier <= previous.multiplier
    ensures s.lastIncreaseAt != previous.lastIncreaseAt ==>
              && s.lastIncreaseAt == s.timestamp
              && s.timestamp - previous.lastIncreaseAt >= p.increaseInterval * SECOND
              && s.multiplier <= previous.multiplier + p.maxIncrease
              && s.lastTradeAt.Some?
              && (previous.lastTradeAt.Some? ==> previous.lastTradeAt.value < s.lastTradeAt.value)
  {
  }

  /** In every snapshot of a chain the multiplier is within its bounds and the last increase is not in the future. */
  lemma {:induction false} ChainBounds(alpha: AlphaFamily, p: Policy, ss: seq<Snapshot>, k: nat)
    requires p.Valid() && LinkedUp(alpha, p, ss) && k < |ss|
    ensures p.minimum <= ss[k].multiplier <= p.maximum
    ensures ss[k].lastIncreaseAt <= ss[k].timestamp
  {
    assert Linked(alpha, p, Before(ss, k), ss[k]);
    if k > 0 {
      ChainBounds(alpha, p, ss, k - 1);
      LinkFacts(alpha, p, ss[k - 1], ss[k]);
    }
  }

  /** Whole intervals in a span of time. */
  function Intervals(span: int, p: Policy): int
    requires p.Valid()
  {
    span / (p.increaseInterval * SECOND)
  }

  lemma QuotientAtLeast(q: int, unit: int, b: int)
    requires unit > 0 && q * unit <= b
    ensures q <= b / unit
  {
    var r := b / unit;
    assert b < (r + 1) * unit;
    if r < q {
      assert false;
    }
  }

  lemma IntervalsGrow(a: int, b: int, p: Policy)
    requires p.Valid() && a <= b
    ensures Intervals(a, p) <= Intervals(b, p)
    ensures a + p.increaseInterval * SECOND <= b ==> Intervals(a, p) + 1 <= Intervals(b, p)
  {
    var unit := p.increaseInterval * SECOND;
    assert a == (a / unit) * unit + a % unit;
    QuotientAtLeast(a / unit, unit, b);
    if a + unit <= b {
      assert (a / unit + 1) * unit == (a / unit) * unit + unit;
      QuotientAtLeast(a / unit + 1, unit, b);
    }
  }

  /** How far the multiplier may rise over a span of time. */
  function Allowance(span: int, p: Policy): real
    requires p.Valid()
  {
    p.maxIncrease * Intervals(span, p) as real
  }

  lemma ProductNonnegative(x: real, y: real)
    requires x >= 0.0 && y >= 0.0
    ensures x * y >= 0.0
  {
  }

  lemma AllowanceGrows(a: int, b: int, p: Policy)
    requires p.Valid() && a <= b
    ensures Allowance(a, p) <= Allowance(b, p)
    ensures a + p.increaseInterval * SECOND <= b ==> Allowance(a, p) + p.maxIncrease <= Allowance(b, p)
  {
    IntervalsGrow(a, b, p);
    var x, y, step := Intervals(a, p) as real, Intervals(b, p) as real, p.maxIncrease;
    assert step * (y - x) >= 0.0 && step * (y - x) == step * y - step * x;
    if a + p.increaseInterval * SECOND <= b {
      var d := y - x - 1.0;
      assert d >= 0.0;
      ProductNonnegative(step, d);
      assert step * d == step * y - step * x - step;
    }
  }

  /** Between any two snapshots of a chain the multiplier rises by at most one step for each whole interval. */
  lemma {:induction false} RateLimited(alpha: AlphaFamily, p: Policy, ss: seq<Snapshot>, i: nat, j: nat)
    requires p.Valid() && LinkedUp(alpha, p, ss) && i <= j < |ss|
    ensures ss[i].lastIncreaseAt <= ss[j].lastIncreaseAt <= ss[j].timestamp
    ensures ss[j].multiplier <=
            ss[i].multiplier + Allowance(ss[j].lastIncreaseAt - ss[i].lastIncreaseAt, p)
    decreases j
  {
    ChainBounds(alpha, p, ss, j);
    if i < j {
      RateLimited(alpha, p, ss, i, j - 1);
      ChainBounds(alpha, p, ss, j - 1);
      assert Linked(alpha, p, Before(ss, j), ss[j]);
      LinkFacts(alpha, p, ss[j - 1], ss[j]);
      var before, after := ss[j - 1].lastIncreaseAt - ss[i].lastIncreaseAt, ss[j].lastIncreaseAt - ss[i].lastIncreaseAt;
      AllowanceGrows(before, after, p);
    }
  }

  /**
   The rate limit over any chain, through cuts and warm-up resets: the multiplier is at most the
   initial one plus one step for each whole interval since the first snapshot.
   */
  lemma MultiplierRateLimit(alpha: AlphaFamily, p: Policy, ss: seq<Snapshot>, k: nat)
    requires p.Valid() && IsChain(alpha, p, ss) && k < |ss|
    ensures p.minimum <= ss[k].multiplier <= p.maximum
    ensures ss[k].multiplier <=
            p.initial + Allowance(ss[k].timestamp - ss[0].timestamp, p)
  {
    ChainIsLinkedUp(alpha, p, ss);
    LinkedRateLimit(alpha, p, ss, k);
  }

  lemma LinkedRateLimit(alpha: AlphaFamily, p: Policy, ss: seq<Snapshot>, k: nat)
    requires p.Valid() && LinkedUp(alpha, p, ss) && k < |ss|
    ensures p.minimum <= ss[k].multiplier <= p.maximum
    ensures ss[k].multiplier <=
            p.initial + Allowance(ss[k].timestamp - ss[0].timestamp, p)
  {
    assert Linked(alpha, p, Before(ss, 0), ss[0]);
    ChainBounds(alpha, p, ss, k);
    RateLimited(alpha, p, ss, 0, k);
    var inner, outer := ss[k].lastIncreaseAt - ss[0].timestamp, ss[k].timestamp - ss[0].timestamp;
    AllowanceGrows(inner, outer, p);
  }

  lemma {:induction false} LastTradeMonotone(alpha: AlphaFamily, p: Policy, ss: seq<Snapshot>, i: nat, k: nat)
    requires p.Valid() && LinkedUp(alpha, p, ss) && i <= k < |ss|
    ensures ss[i].lastTradeAt.Some? ==> ss[k].lastTradeAt.Some? && ss[i].lastTradeAt.value <= ss[k].lastTradeAt.value
    decreases k
  {
    if i < k {
      LastTradeMonotone(alpha, p, ss, i, k - 1);
      assert Linked(alpha, p, Before(ss, k), ss[k]);
    }
  }

  /** Every increase consumes a last trade strictly later than that of every earlier snapshot, after a full interval. */
  lemma IncreaseConsumesTrade(alpha: AlphaFamily, p: Policy, ss: seq<Snapshot>, i: nat, k: nat)
    requires p.Valid() && IsChain(alpha, p, ss) && i < k < |ss|
    requires ss[k].multiplier > ss[k - 1].multiplier
    ensures ss[k].lastTradeAt.Some?
    ensures ss[i].lastTradeAt.Some? ==> ss[i].lastTradeAt.value < ss[k].lastTradeAt.value
    ensures ss[k].timestamp - ss[k - 1].lastIncreaseAt >= p.increaseInterval * SECOND
  {
    ChainIsLinkedUp(alpha, p, ss);
    LinkedIncrease(alpha, p, ss, i, k);
  }

  lemma LinkedIncrease(alpha: AlphaFamily, p: Policy, ss: seq<Snapshot>, i: nat, k: nat)
    requires p.Valid() && LinkedUp(alpha, p, ss) && i < k < |ss|
    requires ss[k].multiplier > ss[k - 1].multiplier
    ensures ss[k].lastTradeAt.Some?
    ensures ss[i].lastTradeAt.Some? ==> ss[i].lastTradeAt.value < ss[k].lastTradeAt.value
    ensures ss[k].timestamp - ss[k - 1].lastIncreaseAt >= p.increaseInterval * SECOND
  {
    assert Linked(alpha, p, Before(ss, k), ss[k]);
    ChainBounds(alpha, p, ss, k - 1);
    LinkFacts(alpha, p, ss[k - 1], ss[k]);
    LastTradeMonotone(alpha, p, ss, i, k - 1);
  }
}
