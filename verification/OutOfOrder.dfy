/**
 Receipt order matters to the health check. A bar that was received first but ingested last can become the
 predecessor of a bar already stored: the aggregate then finds a gap that ingestion could not see.
 */
module OutOfOrder {
  import opened Prelude
  import opened Sorting
  import opened Bars
  import opened Aggregation
  import opened Windows
  import opened Service
  import opened Readiness

  function OneSession(): Checker {
    Checker((t: Instant) => Some((0, 100 * MINUTE)), 0.1, 10.0, (b: Bar) => 0.0)
  }

  function Minute(i: int, price: real, receivedAt: Instant): Bar {
    Bar(1, 1, receivedAt, {}, Equity, i * MINUTE, (i + 1) * MINUTE, 1, price, price, price, price, 1.0, true)
  }

  /** A full window at one price, received together. */
  function WindowBars(q: real): seq<Bar> {
    [Minute(5, 2.0 * q, 20 * MINUTE), Minute(6, 2.0 * q, 20 * MINUTE), Minute(7, 2.0 * q, 20 * MINUTE),
     Minute(8, 2.0 * q, 20 * MINUTE), Minute(9, 2.0 * q, 20 * MINUTE)]
  }

  /** An earlier minute at half the price, received before them. */
  function Straggler(q: real): Bar {
    Minute(0, q, 6 * MINUTE)
  }

  /** A bar without faults of its own, after a bar like it or after none. */
  lemma NothingFound(b: Bar, i: int, price: real, receivedAt: Instant, p: Option<Bar>)
    requires 0 <= i < 50 && price > 0.0 && receivedAt >= (i + 1) * MINUTE && b == Minute(i, price, receivedAt)
    requires p.Some? ==> p.value.close == price && p.value.volume == 1.0
    ensures Findings(OneSession(), b, p) == {}
  {
    assert PriceFlags(b) == {};
    assert i * MINUTE % MINUTE == 0;
    assert SessionFlags(OneSession(), b) == {};
    assert p.Some? ==> b.open / p.value.close == 1.0;
    assert HistoryFlags(OneSession(), b, p) == {};
  }

  ghost predicate AtPrice(bars: seq<Bar>, price: real) {
    forall b :: b in bars ==> b.close == price && b.volume == 1.0
  }

  lemma PreviousAtPrice(history: seq<Bar>, b: Bar, price: real)
    requires AtPrice(history, price)
    ensures var p := PreviousOf(history, b); p.Some? ==> p.value.close == price && p.value.volume == 1.0
  {
    PreviousEndsLast(history, b);
  }

  lemma StoredWithoutFlags(q: real)
    requires q > 0.0
    ensures WellStored(OneSession(), WindowBars(q) + [Straggler(q)])
  {
    var ck, bars := OneSession(), WindowBars(q) + [Straggler(q)];
    forall i | 0 <= i < |bars|
      ensures StoredAt(ck, bars, i)
    {
      UnflaggedAt(q, i, PreviousOf(bars[..i], bars[i]));
    }
  }

  lemma UnflaggedAt(q: real, i: nat, p: Option<Bar>)
    requires q > 0.0 && i < 6
    requires var bars := WindowBars(q) + [Straggler(q)]; p == PreviousOf(bars[..i], bars[i])
    ensures Findings(OneSession(), (WindowBars(q) + [Straggler(q)])[i], p) == {}
  {
    var bars := WindowBars(q) + [Straggler(q)];
    if i < 5 {
      assert AtPrice(bars[..i], 2.0 * q);
      PreviousAtPrice(bars[..i], bars[i], 2.0 * q);
      NothingFound(bars[i], i + 5, 2.0 * q, 20 * MINUTE, p);
    } else {
      PreviousEndsLast(bars[..i], bars[i]);
      assert forall h :: h in bars[..i] ==> !Precedes(h, bars[i]);
      NothingFound(bars[i], 0, q, 6 * MINUTE, p);
    }
  }

  ghost predicate Strict(bars: seq<Bar>) {
    forall i, j :: 0 <= i < j < |bars| ==> ReceiptBefore(bars[i], bars[j]) && !ReceiptBefore(bars[j], bars[i])
  }

  /** Sorting by receipt moves a bar that was received before all others to the front. */
  lemma EarliestMovesUp(rest: seq<Bar>, x: Bar)
    requires Strict([x] + rest)
    ensures Sort(rest + [x], ReceiptBefore) == [x] + rest
  {
    var a, b := Sort(rest + [x], ReceiptBefore), [x] + rest;
    ReceiptBeforeIsOrder();
    SortSorts(rest + [x], ReceiptBefore);
    assert multiset(a) == multiset(rest) + multiset{x} == multiset(b);
    NoTies(b);
    SortedUnique(b, a, ReceiptBefore);
  }

  lemma NoTies(b: seq<Bar>)
    requires Strict(b)
    ensures forall y, z :: y in b && z in b && ReceiptBefore(y, z) && ReceiptBefore(z, y) ==> y == z
  {
    forall y, z | y in b && z in b && ReceiptBefore(y, z) && ReceiptBefore(z, y)
      ensures y == z
    {
      var i :| 0 <= i < |b| && b[i] == y;
      var j :| 0 <= j < |b| && b[j] == z;
    }
  }

  lemma SortedByReceipt(q: real)
    ensures Sort(WindowBars(q) + [Straggler(q)], ReceiptBefore) == [Straggler(q)] + WindowBars(q)
  {
    EarliestMovesUp(WindowBars(q), Straggler(q));
  }

  /** After the straggler, the first bar of the window has jumped. */
  lemma GapFound(q: real, first: Bar, p: Bar)
    requires q > 0.0 && first == Minute(5, 2.0 * q, 20 * MINUTE) && Bare(p) == Straggler(q)
    ensures var c := Check(OneSession(), first, Some(p));
            AbnormalGap in c.flags && BucketOf(OneSession(), c) == Some(Key(1, 1, 5 * MINUTE))
  {
    assert p.close == Bare(p).close && p.volume == Bare(p).volume && p.receivedAt == Bare(p).receivedAt;
    assert Precedes(p, first);
    assert first.open / p.close == 2.0;
    assert PriceFlags(first) == {} && SessionFlags(OneSession(), first) == {};
  }

  lemma TwoChecked(ck: Checker, x: Bar, y: Bar) returns (p: Bar)
    requires OneMinute([x]) && OneMinute([x] + [y]) && y.minutes == 1 && Precedes(x, y)
    ensures Bare(p) == Bare(x) && CheckAll(ck, [x] + [y]) == [p] + [Check(ck, y, Some(p))]
  {
    CheckAllStep(ck, [x], y);
    CheckedBars(ck, [x], 0);
    p := CheckAll(ck, [x])[0];
    assert CheckAll(ck, [x]) == [p];
    assert p.end == Bare(p).end && p.instrument == Bare(p).instrument && p.source == Bare(p).source;
    OnlyPredecessor(p, y);
  }

  lemma OnlyPredecessor(p: Bar, y: Bar)
    requires Precedes(p, y)
    ensures PreviousOf([p], y) == Some(p)
  {
    assert [p][..0] == [];
  }

  lemma SecondChecked(ck: Checker, x: Bar, y: Bar, rest: seq<Bar>, bars: seq<Bar>) returns (p: Bar)
    requires bars == [x] + [y] + rest && OneMinute(bars) && OneMinute([x]) && OneMinute([x] + [y]) && OneMinute(rest) && Precedes(x, y)
    ensures Bare(p) == Bare(x) && |bars| > 1 && CheckAll(ck, bars)[1] == Check(ck, y, Some(p))
  {
    assert y in [x] + [y];
    p := TwoChecked(ck, x, y);
    CheckedPrefix(ck, [x] + [y], rest);
  }

  lemma GapAppears(q: real, checked: seq<Bar>)
    requires q > 0.0
    requires OneMinute([Straggler(q)] + WindowBars(q))
    requires checked == CheckAll(OneSession(), [Straggler(q)] + WindowBars(q))
    ensures |checked| == 6 && AbnormalGap in checked[1].flags && BucketOf(OneSession(), checked[1]) == Some(Key(1, 1, 5 * MINUTE))
  {
    var ck, x, ws := OneSession(), Straggler(q), WindowBars(q);
    assert [x] + ws == [x] + [ws[0]] + ws[1..];
    var p := SecondChecked(ck, x, ws[0], ws[1..], [x] + ws);
    GapFound(q, ws[0], p);
  }

  lemma WindowIsHealthy(q: real, now: Instant)
    requires now == 20 * MINUTE
    ensures HealthyBucket(OneSession(), WindowBars(q) + [Straggler(q)], now, Key(1, 1, 5 * MINUTE))
  {
    var ws, key := WindowBars(q), Key(1, 1, 5 * MINUTE);
    var bars := ws + [Straggler(q)];
    var g := BarsOf(bars, key);
    forall t | t in Expected(key.start)
      ensures HasCompleteBar(g, t)
    {
      var k := (t - key.start) / MINUTE;
      assert 0 <= k < 5 && t == key.start + k * MINUTE;
      assert ws[k] in bars && InBucket(ws[k], key) && ws[k].start == t;
      assert ws[k] in g;
    }
    assert HasCompleteBar(g, key.start);
    BucketIsHealthy(OneSession(), bars, now, key, key.start + WINDOW, g);
  }

  /** A store the health check calls healthy, whose canonical bar is not ready. */
  lemma HealthyButNotReady(q: real, out: seq<Bar>)
    requires q > 0.0
    requires OneMinute(WindowBars(q) + [Straggler(q)])
    requires IsAggregate(OneSession(), CheckedHistory(OneSession(), WindowBars(q) + [Straggler(q)], 20 * MINUTE), 20 * MINUTE, out)
    ensures var ck, bars, now, key := OneSession(), WindowBars(q) + [Straggler(q)], 20 * MINUTE, Key(1, 1, 5 * MINUTE);
            && WellStored(ck, bars) && AllAvailable(bars, now) && SessionWindow(ck, key.start)
            && HealthyBucket(ck, bars, now, key) && !HasReadyBar(out, now, key)
  {
    var ck, bars, now, key := OneSession(), WindowBars(q) + [Straggler(q)], 20 * MINUTE, Key(1, 1, 5 * MINUTE);
    StoredWithoutFlags(q);
    EverythingInTime(q);
    FirstWindow();
    WindowIsHealthy(q, now);
    var checked := HistoryWithGap(q);
    NotReadyWithFlag(ck, checked, now, key, out, checked[1]);
  }

  lemma EverythingInTime(q: real)
    ensures AllAvailable(WindowBars(q) + [Straggler(q)], 20 * MINUTE)
  {
  }

  lemma FirstWindow()
    ensures SessionWindow(OneSession(), 5 * MINUTE)
  {
  }

  lemma HistoryWithGap(q: real) returns (checked: seq<Bar>)
    requires q > 0.0
    requires OneMinute(WindowBars(q) + [Straggler(q)])
    ensures checked == CheckedHistory(OneSession(), WindowBars(q) + [Straggler(q)], 20 * MINUTE)
    ensures |checked| == 6 && AbnormalGap in checked[1].flags && BucketOf(OneSession(), checked[1]) == Some(Key(1, 1, 5 * MINUTE))
  {
    var sorted := [Straggler(q)] + WindowBars(q);
    SortedByReceipt(q);
    LiveOfAvailable(sorted, 20 * MINUTE);
    checked := CheckAll(OneSession(), sorted);
    GapAppears(q, checked);
  }

  lemma NotReadyWithFlag(ck: Checker, checked: seq<Bar>, now: Instant, key: Key, out: seq<Bar>, b: Bar)
    requires IsAggregate(ck, checked, now, out) && b in checked && BucketOf(ck, b) == Some(key) && AbnormalGap in b.flags
    ensures !HasReadyBar(out, now, key)
  {
    forall o | o in out && KeyOf(o) == key
      ensures !StrategyReady(o, now)
    {
      assert IsWindow(ck, checked, now, o);
      var g := Group(ck, checked, key);
      assert b in g;
      assert AbnormalGap in UnionFlags(g);
      assert AbnormalGap in o.flags;
    }
  }
}
