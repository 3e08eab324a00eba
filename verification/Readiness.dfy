/**
 The cheap health check against the aggregate. On a session window the check is HEALTHY, and rechecking in
 receipt order finds nothing more in its bars, exactly when the canonical bars hold a strategy-ready bar for it
 and no stray bar of the feed starts in it. A store filled in receipt order has nothing more to find.
 */
module Readiness {
  import opened Prelude
  import opened Sorting
  import opened Bars
  import opened Flags
  import opened Aggregation
  import opened Windows
  import opened Causality
  import opened Service

  /** Five minutes of one session, counted from its opening. */
  ghost predicate SessionWindow(ck: Checker, start: Instant) {
    var bounds := ck.cal(start);
    && bounds.Some? && bounds.value.0 <= start && start + WINDOW <= bounds.value.1
    && (start - bounds.value.0) % WINDOW == 0
    && forall t :: start <= t < start + WINDOW ==> ck.cal(t) == bounds
  }

  predicate InBucket(b: Bar, key: Key) {
    InWindow(b, key.instrument, key.source, key.start, key.start + WINDOW)
  }

  function BarsOf(bars: seq<Bar>, key: Key): seq<Bar> {
    Window(bars, key.instrument, key.source, key.start, key.start + WINDOW)
  }

  ghost predicate HealthyBucket(ck: Checker, bars: seq<Bar>, now: Instant, key: Key) {
    Healthy(ck, bars, now, key.instrument, key.source, key.start, key.start + WINDOW)
  }

  lemma StoredPrefix(ck: Checker, bars: seq<Bar>, n: nat)
    requires WellStored(ck, bars) && n <= |bars|
    ensures WellStored(ck, bars[..n])
  {
    forall i | 0 <= i < n
      ensures StoredAt(ck, bars[..n], i)
    {
      assert bars[..n][..i] == bars[..i];
      assert StoredAt(ck, bars, i);
    }
  }

  lemma CheckedAgain(ck: Checker, before: seq<Bar>, b: Bar)
    requires OneMinute(before) && CheckAll(ck, before) == before
    requires b.minutes == 1 && b.Valid() && Findings(ck, b, PreviousOf(before, b)) <= b.flags
    ensures OneMinute(before + [b]) && CheckAll(ck, before + [b]) == before + [b]
  {
    CheckAllStep(ck, before, b);
    assert b.flags + Findings(ck, b, PreviousOf(before, b)) == b.flags;
  }

  lemma StoredAreMinutes(ck: Checker, bars: seq<Bar>)
    requires WellStored(ck, bars)
    ensures OneMinute(bars)
  {
    forall b | b in bars
      ensures b.minutes == 1 && b.Valid()
    {
      var i :| 0 <= i < |bars| && bars[i] == b;
      assert StoredAt(ck, bars, i);
    }
  }

  lemma StoredLast(ck: Checker, before: seq<Bar>, b: Bar)
    requires WellStored(ck, before + [b])
    ensures WellStored(ck, before) && b.minutes == 1 && b.Valid()
    ensures Findings(ck, b, PreviousOf(before, b)) <= b.flags
  {
    var bars := before + [b];
    StoredPrefix(ck, bars, |before|);
    assert bars[..|before|] == before;
    assert StoredAt(ck, bars, |before|);
  }

  /** Checking a store again finds nothing new. */
  lemma {:induction false} StoredIsChecked(ck: Checker, bars: seq<Bar>)
    requires WellStored(ck, bars) && OneMinute(bars)
    ensures CheckAll(ck, bars) == bars
    decreases |bars|
  {
    if bars != [] {
      var n := |bars| - 1;
      var before, b := bars[..n], bars[n];
      assert bars == before + [b];
      StoredLast(ck, before, b);
      StoredAreMinutes(ck, before);
      StoredIsChecked(ck, before);
      CheckedAgain(ck, before, b);
    }
  }

  lemma {:induction false} LiveOfAvailable(bars: seq<Bar>, now: Instant)
    requires AllAvailable(bars, now)
    ensures Live(bars, now) == bars
  {
    if bars != [] {
      var n := |bars| - 1;
      assert bars == bars[..n] + [bars[n]];
      LiveOfAvailable(bars[..n], now);
    }
  }

  /** A store filled in receipt order is its own checked history. */
  lemma StoreIsHistory(ck: Checker, bars: seq<Bar>, now: Instant)
    requires WellStored(ck, bars) && AllAvailable(bars, now) && Sorted(bars, ReceiptBefore)
    ensures OneMinute(bars) && CheckedHistory(ck, bars, now) == bars
    ensures AllJudged(ck, bars)
  {
    StoredAreMinutes(ck, bars);
    StoredIsChecked(ck, bars);
    SortOfSorted(bars, ReceiptBefore);
    LiveOfAvailable(bars, now);
    CheckedAreJudged(ck, bars);
  }

  lemma {:induction false} CheckedPrefix(ck: Checker, a: seq<Bar>, b: seq<Bar>)
    requires OneMinute(a) && OneMinute(b) && OneMinute(a + b)
    ensures CheckAll(ck, a) <= CheckAll(ck, a + b)
  {
    if b == [] {
      assert a + b == a;
    } else {
      var before, x := b[..|b| - 1], b[|b| - 1];
      assert b == before + [x];
      assert a + b == (a + before) + [x];
      MinutesConcat(a, before);
      CheckedPrefix(ck, a, before);
      CheckAllStep(ck, a + before, x);
    }
  }

  lemma MinutesConcat(a: seq<Bar>, b: seq<Bar>)
    requires OneMinute(a) && OneMinute(b)
    ensures OneMinute(a + b)
  {
  }

  lemma CheckedAt(ck: Checker, bars: seq<Bar>, i: nat)
    requires OneMinute(bars) && i < |bars|
    ensures OneMinute(bars[..i])
    ensures CheckAll(ck, bars)[i] == Check(ck, bars[i], PreviousOf(CheckAll(ck, bars[..i]), bars[i]))
  {
    var before, x, rest := bars[..i], bars[i], bars[i + 1..];
    assert bars == (before + [x]) + rest;
    assert OneMinute(before + [x]) && OneMinute(rest);
    CheckedPrefix(ck, before + [x], rest);
    CheckAllStep(ck, before, x);
  }

  /** Checking changes flags alone, so it changes nothing in who precedes whom. */
  lemma {:induction false} PreviousOfChecked(ck: Checker, bars: seq<Bar>, b: Bar)
    requires OneMinute(bars)
    ensures BareOption(PreviousOf(CheckAll(ck, bars), b)) == BareOption(PreviousOf(bars, b))
  {
    if bars != [] {
      var before, last := bars[..|bars| - 1], bars[|bars| - 1];
      assert bars == before + [last];
      PreviousOfChecked(ck, before, b);
      CheckAllStep(ck, before, last);
      var checked := Check(ck, last, PreviousOf(CheckAll(ck, before), last));
      PreviousNext(CheckAll(ck, before), before, checked, last, b);
    }
  }

  lemma PreviousNext(as': seq<Bar>, bs: seq<Bar>, x: Bar, y: Bar, b: Bar)
    requires x == y.(flags := x.flags) && BareOption(PreviousOf(as', b)) == BareOption(PreviousOf(bs, b))
    ensures BareOption(PreviousOf(as' + [x], b)) == BareOption(PreviousOf(bs + [y], b))
  {
    assert (as' + [x])[..|as'|] == as' && (bs + [y])[..|bs|] == bs;
    var p, q := PreviousOf(as', b), PreviousOf(bs, b);
    if p.Some? {
      assert Bare(p.value).end == p.value.end && Bare(q.value).end == q.value.end;
    }
  }

  /**
   What a recheck in receipt order finds in a stored bar beyond its own faults: a gap or a volume against its
   predecessor.
   */
  function Late(ck: Checker, sorted: seq<Bar>, i: nat): set<Flag>
    requires i < |sorted|
  {
    HistoryFlags(ck, sorted[i], PreviousOf(sorted[..i], sorted[i]))
  }

  /** A late finding is a jump from the bar the feed had before, in order of receipt. */
  lemma LateMeaning(ck: Checker, sorted: seq<Bar>, i: nat)
    requires i < |sorted| && sorted[i].minutes > 0
    ensures forall f :: f in Late(ck, sorted, i) <==>
                          (f.AbnormalGap? || f.AbnormalVolume?) && Shows(ck, sorted[..i], sorted[i], f)
  {
    HistoryShows(ck, sorted[..i], sorted[i]);
  }

  /** The checked history of a store, bar by bar: the store in receipt order, with the late findings added. */
  ghost predicate Rechecked(ck: Checker, sorted: seq<Bar>, h: seq<Bar>) {
    |h| == |sorted| && forall i :: 0 <= i < |h| ==> h[i] == sorted[i].(flags := sorted[i].flags + Late(ck, sorted, i))
  }

  lemma OwnFindingsStored(ck: Checker, bars: seq<Bar>, b: Bar)
    requires WellStored(ck, bars) && b in bars
    ensures b.minutes > 0 && OwnFindings(ck, b) <= b.flags
  {
    var i :| 0 <= i < |bars| && bars[i] == b;
    assert StoredAt(ck, bars, i);
  }

  lemma RecheckedAt(ck: Checker, sorted: seq<Bar>, i: nat)
    requires OneMinute(sorted) && i < |sorted| && OwnFindings(ck, sorted[i]) <= sorted[i].flags
    ensures CheckAll(ck, sorted)[i] == sorted[i].(flags := sorted[i].flags + Late(ck, sorted, i))
  {
    CheckedAt(ck, sorted, i);
    PreviousOfChecked(ck, sorted[..i], sorted[i]);
    HistoryIgnoresFlags(ck, sorted[i], PreviousOf(CheckAll(ck, sorted[..i]), sorted[i]), PreviousOf(sorted[..i], sorted[i]));
    assert sorted[i].flags + Findings(ck, sorted[i], PreviousOf(CheckAll(ck, sorted[..i]), sorted[i])) == sorted[i].flags + Late(ck, sorted, i);
  }

  /** The checked history of any store: nothing is lost and only late findings are new. */
  lemma CheckedStore(ck: Checker, bars: seq<Bar>, now: Instant) returns (sorted: seq<Bar>, h: seq<Bar>)
    requires WellStored(ck, bars) && AllAvailable(bars, now)
    ensures OneMinute(bars) && sorted == Sort(bars, ReceiptBefore) && h == CheckedHistory(ck, bars, now)
    ensures multiset(sorted) == multiset(bars) && (forall b :: b in sorted <==> b in bars)
    ensures Rechecked(ck, sorted, h) && AllJudged(ck, h)
  {
    StoredAreMinutes(ck, bars);
    SortMembers(bars, ReceiptBefore);
    sorted := Sort(bars, ReceiptBefore);
    LiveOfAvailable(sorted, now);
    CheckedAreJudged(ck, sorted);
    h := CheckAll(ck, sorted);
    forall i | 0 <= i < |sorted|
      ensures h[i] == sorted[i].(flags := sorted[i].flags + Late(ck, sorted, i))
    {
      assert sorted[i] in bars;
      OwnFindingsStored(ck, bars, sorted[i]);
      RecheckedAt(ck, sorted, i);
    }
  }

  lemma BucketArithmetic(open: Instant, start: Instant, t: Instant)
    requires (start - open) % WINDOW == 0 && start <= t < start + WINDOW
    ensures open + WINDOW * ((t - open) / WINDOW) == start
  {
    var q := (start - open) / WINDOW;
    assert start - open == WINDOW * q;
    assert t - open == WINDOW * q + (t - start);
    assert (t - open) / WINDOW == q;
  }

  predicate Stray(b: Bar) {
    OutOfSession in b.flags || Misaligned in b.flags
  }

  /** A bar is filed under a session window exactly when it starts in it and is not a stray. */
  lemma FiledIffInBucket(ck: Checker, b: Bar, key: Key)
    requires Judged(ck, b) && SessionWindow(ck, key.start)
    ensures BucketOf(ck, b) == Some(key) <==> InBucket(b, key) && !Stray(b)
  {
    if InBucket(b, key) && !Stray(b) {
      BucketArithmetic(ck.cal(key.start).value.0, key.start, b.start);
    }
    if BucketOf(ck, b) == Some(key) {
      BucketHoldsMinute(ck, b, key);
    }
  }

  lemma {:induction false} GroupIsWindow(ck: Checker, bars: seq<Bar>, key: Key)
    requires forall b :: b in bars ==> (BucketOf(ck, b) == Some(key) <==> InBucket(b, key))
    ensures Group(ck, bars, key) == BarsOf(bars, key)
  {
    if bars != [] {
      var n := |bars| - 1;
      assert bars == bars[..n] + [bars[n]];
      GroupIsWindow(ck, bars[..n], key);
    }
  }

  ghost predicate NoStrays(bars: seq<Bar>, key: Key) {
    forall b :: b in bars && InBucket(b, key) ==> !Stray(b)
  }

  lemma WindowIsGroup(ck: Checker, bars: seq<Bar>, key: Key)
    requires AllJudged(ck, bars) && SessionWindow(ck, key.start) && NoStrays(bars, key)
    ensures Group(ck, bars, key) == BarsOf(bars, key)
  {
    forall b | b in bars
      ensures BucketOf(ck, b) == Some(key) <==> InBucket(b, key)
    {
      FiledIffInBucket(ck, b, key);
    }
    GroupIsWindow(ck, bars, key);
  }

  ghost predicate DistinctStarts(g: seq<Bar>) {
    forall i, j :: 0 <= i < j < |g| ==> g[i].start != g[j].start
  }

  /** Repeats in a window would be flagged. */
  lemma {:induction false} UnflaggedAreDistinct(ck: Checker, bars: seq<Bar>, key: Key)
    requires WellStored(ck, bars) && forall b :: b in bars && InBucket(b, key) ==> b.flags == {}
    ensures DistinctStarts(BarsOf(bars, key))
  {
    if bars != [] {
      var n := |bars| - 1;
      var before, b := bars[..n], bars[n];
      assert bars == before + [b];
      StoredPrefix(ck, bars, n);
      UnflaggedAreDistinct(ck, before, key);
      if InBucket(b, key) {
        assert StoredAt(ck, bars, n);
        forall x | x in BarsOf(before, key)
          ensures x.start != b.start
        {
          var j :| 0 <= j < n && before[j] == x;
          assert bars[j] == x;
        }
      }
    }
  }

  /** When no minute repeats, the values are the group itself, rearranged. */
  lemma ValuesOfDistinct(ck: Checker, g: seq<Bar>)
    requires DistinctStarts(g)
    ensures multiset(Values(ck, g)) == multiset(g) && |Values(ck, g)| == |g|
  {
    var vs := Values(ck, g);
    ValuesAreValues(ck, g);
    forall b
      ensures b in vs <==> b in g
    {
      if b in g {
        assert HasStart(vs, b.start);
        var v :| v in vs && v.start == b.start;
        assert Least(ck, g, v);
        var i :| 0 <= i < |g| && g[i] == b;
        var j :| 0 <= j < |g| && g[j] == v;
      }
    }
    AscendingFacts(vs);
    assert Distinct(g);
    DistinctSameMembers(vs, g);
    assert |multiset(vs)| == |multiset(g)|;
  }

  /** The five minutes of a window, in order. */
  ghost predicate FiveMinutes(vs: seq<Bar>, start: Instant) {
    |vs| == 5 && forall i :: 0 <= i < 5 ==> vs[i].start == start + i * MINUTE
  }

  lemma IndexOfStart(vs: seq<Bar>, t: Instant) returns (i: nat)
    requires t in StartsOf(vs)
    ensures i < |vs| && vs[i].start == t
  {
    var v :| v in vs && v.start == t;
    i :| 0 <= i < |vs| && vs[i] == v;
  }

  lemma AscendingFive(vs: seq<Bar>, start: Instant)
    requires AscendingStarts(vs) && StartsOf(vs) == Expected(start)
    ensures FiveMinutes(vs, start)
  {
    var i0 := IndexOfStart(vs, start);
    var i1 := IndexOfStart(vs, start + MINUTE);
    var i2 := IndexOfStart(vs, start + 2 * MINUTE);
    var i3 := IndexOfStart(vs, start + 3 * MINUTE);
    var i4 := IndexOfStart(vs, start + 4 * MINUTE);
    forall i | 0 <= i < |vs|
      ensures vs[i].start in Expected(start)
    {
      assert vs[i] in vs;
      assert vs[i].start in StartsOf(vs);
    }
    assert i0 < i1 < i2 < i3 < i4;
    assert vs[0].start in Expected(start) && vs[0].start <= vs[i0].start;
    assert i0 == 0;
    assert vs[1].start in Expected(start) && vs[1].start <= vs[i1].start;
    assert i1 == 1;
    assert vs[2].start in Expected(start) && vs[2].start <= vs[i2].start;
    assert i2 == 2;
    assert vs[3].start in Expected(start) && vs[3].start <= vs[i3].start;
    assert i3 == 3;
    assert vs[4].start in Expected(start) && vs[4].start <= vs[i4].start;
    assert i4 == 4;
    var last := |vs| - 1;
    assert vs[last].start in Expected(start) && vs[i4].start <= vs[last].start;
    assert i4 == last;
  }

  lemma {:induction false} ExtremesAreReached(vs: seq<Bar>)
    requires vs != []
    ensures forall v :: v in vs ==> MinLow(vs) <= v.low && v.high <= MaxHigh(vs) && v.receivedAt <= LastReceipt(vs)
    ensures exists v :: v in vs && v.high == MaxHigh(vs)
    ensures exists v :: v in vs && v.low == MinLow(vs)
    ensures exists v :: v in vs && v.receivedAt == LastReceipt(vs)
  {
    if |vs| == 1 {
      assert vs[0] in vs;
    } else {
      var n := |vs| - 1;
      assert vs == vs[..n] + [vs[n]];
      ExtremesAreReached(vs[..n]);
      assert vs[n] in vs;
    }
  }

  lemma SumOfFive(vs: seq<Bar>)
    requires |vs| == 5
    ensures SumVolume(vs) == vs[0].volume + vs[1].volume + vs[2].volume + vs[3].volume + vs[4].volume
  {
    assert vs[..4][..3] == vs[..3] && vs[..3][..2] == vs[..2] && vs[..2][..1] == vs[..1] && vs[..1][..0] == [];
    assert SumVolume(vs) == SumVolume(vs[..4]) + vs[4].volume;
    assert SumVolume(vs[..4]) == SumVolume(vs[..3]) + vs[3].volume;
    assert SumVolume(vs[..3]) == SumVolume(vs[..2]) + vs[2].volume;
    assert SumVolume(vs[..2]) == SumVolume(vs[..1]) + vs[1].volume;
  }

  /** First open, highest high, lowest low, last close, summed volume and latest receipt of five bars. */
  ghost predicate Summarises(o: Bar, vs: seq<Bar>)
    requires |vs| == 5
  {
    && o.open == vs[0].open && o.close == vs[4].close
    && (forall v :: v in vs ==> o.low <= v.low && v.high <= o.high && v.receivedAt <= o.receivedAt)
    && (exists v :: v in vs && v.high == o.high)
    && (exists v :: v in vs && v.low == o.low)
    && (exists v :: v in vs && v.receivedAt == o.receivedAt)
    && o.volume == vs[0].volume + vs[1].volume + vs[2].volume + vs[3].volume + vs[4].volume
  }

  ghost predicate Clean(v: Bar, now: Instant) {
    v.flags == {} && PriceFlags(v) == {} && v.complete && Available(v, now)
  }

  lemma ReducedSummarises(key: Key, vs: seq<Bar>, now: Instant, o: Bar)
    requires |vs| == 5 && o == Reduce(key, vs, {}, false, now)
    ensures Summarises(o, vs)
  {
    ExtremesAreReached(vs);
    SumOfFive(vs);
  }

  /** Five clean bars have a clean summary. */
  lemma SummaryIsClean(o: Bar, vs: seq<Bar>, now: Instant)
    requires |vs| == 5 && Summarises(o, vs) && forall v :: v in vs ==> Clean(v, now)
    ensures PriceFlags(o) == {} && o.receivedAt <= now
  {
    CleanFigures(vs, now);
    var v :| v in vs && v.low == o.low;
    var w :| w in vs && w.receivedAt == o.receivedAt;
    assert Clean(w, now);
    SaneFigures(o);
  }

  lemma SaneFigures(o: Bar)
    requires 0.0 < o.low <= o.open <= o.high && o.low <= o.close <= o.high && o.volume > 0.0
    ensures PriceFlags(o) == {}
  {
  }

  lemma ReducedIsReady(key: Key, vs: seq<Bar>, now: Instant, o: Bar)
    requires |vs| == 5 && (forall v :: v in vs ==> Clean(v, now)) && key.start + WINDOW <= now
    requires StartsOf(vs) == Expected(key.start) && o == Reduce(key, vs, {}, false, now)
    ensures StrategyReady(o, now) && Summarises(o, vs) && KeyOf(o) == key
  {
    ReducedSummarises(key, vs, now, o);
    SummaryIsClean(o, vs, now);
    assert Completed(key, vs, now);
  }

  lemma CleanFigures(vs: seq<Bar>, now: Instant)
    requires forall v :: v in vs ==> Clean(v, now)
    ensures forall v :: v in vs ==> 0.0 < v.low <= v.open <= v.high && v.low <= v.close <= v.high && v.volume > 0.0
    ensures forall i :: 0 <= i < |vs| ==> vs[i].volume > 0.0 && vs[i] in vs
  {
    forall v | v in vs
      ensures 0.0 < v.low <= v.open <= v.high && v.low <= v.close <= v.high && v.volume > 0.0
    {
      CleanBar(v);
    }
  }

  lemma CleanBar(v: Bar)
    requires PriceFlags(v) == {}
    ensures 0.0 < v.low <= v.open <= v.high && v.low <= v.close <= v.high && v.volume > 0.0
  {
    assert InvalidPrice !in PriceFlags(v) && ImpossibleOhlc !in PriceFlags(v);
    assert InvalidVolume !in PriceFlags(v) && ZeroVolume !in PriceFlags(v);
  }

  /** The canonical bars hold a ready bar for the window. */
  ghost predicate HasReadyBar(out: seq<Bar>, now: Instant, key: Key) {
    exists o :: o in out && KeyOf(o) == key && StrategyReady(o, now)
  }

  /** A ready bar that summarises the five bars of its window and no others. */
  ghost predicate HasFaithfulBar(bars: seq<Bar>, out: seq<Bar>, now: Instant, key: Key) {
    exists o, vs :: IsFaithful(bars, out, now, key, o, vs)
  }

  ghost predicate IsFaithful(bars: seq<Bar>, out: seq<Bar>, now: Instant, key: Key, o: Bar, vs: seq<Bar>) {
    && o in out && KeyOf(o) == key && StrategyReady(o, now)
    && FiveMinutes(vs, key.start) && multiset(vs) == multiset(BarsOf(bars, key)) && Summarises(o, vs)
  }

  lemma UnflaggedIsClean(ck: Checker, bars: seq<Bar>, now: Instant, b: Bar)
    requires WellStored(ck, bars) && AllAvailable(bars, now) && b in bars && b.flags == {}
    ensures Clean(b, now)
  {
    var i :| 0 <= i < |bars| && bars[i] == b;
    assert StoredAt(ck, bars, i);
    assert Findings(ck, b, PreviousOf(bars[..i], b)) == {};
    assert PriceFlags(b) <= Findings(ck, b, PreviousOf(bars[..i], b));
    assert Incomplete !in Findings(ck, b, PreviousOf(bars[..i], b));
  }

  /** No minute of a healthy session window is without a bar. */
  lemma EveryMinuteHasBar(ck: Checker, bars: seq<Bar>, now: Instant, key: Key, t: Instant)
    requires SessionWindow(ck, key.start) && HealthyBucket(ck, bars, now, key) && t in Expected(key.start)
    ensures exists b :: b in BarsOf(bars, key) && b.start == t
  {
    assert !IsMissing(ck, BarsOf(bars, key), key.start, key.start + WINDOW, now, t);
    MinuteIsOnGrid(ck.cal(key.start).value.0, key.start, t);
    assert t in Present(BarsOf(bars, key), now);
  }

  lemma MinuteIsOnGrid(open: Instant, start: Instant, t: Instant)
    requires (start - open) % WINDOW == 0 && t in Expected(start)
    ensures OnGrid(start, t) && (t - open) % MINUTE == 0 && start <= t && t + MINUTE <= start + WINDOW
  {
    var q := (start - open) / WINDOW;
    assert start - open == MINUTE * (5 * q);
    var k := (t - start) / MINUTE;
    assert 0 <= k < 5 && t == start + k * MINUTE;
    assert t - open == MINUTE * (5 * q + k);
  }

  /** A group that makes a bar: clean bars, one for each of the five minutes. */
  ghost predicate SoundGroup(g: seq<Bar>, key: Key, now: Instant) {
    && key.start + WINDOW <= now && DistinctStarts(g)
    && (forall b :: b in g ==> Clean(b, now) && b.start in Expected(key.start))
    && (forall t :: t in Expected(key.start) ==> HasStart(g, t))
  }

  lemma SoundValues(ck: Checker, key: Key, g: seq<Bar>, now: Instant)
    requires SoundGroup(g, key, now)
    ensures g != []
    ensures var vs := Values(ck, g);
            && multiset(vs) == multiset(g) && |vs| == |g|
            && StartsOf(vs) == Expected(key.start) && FiveMinutes(vs, key.start)
            && forall v :: v in vs ==> Clean(v, now)
  {
    assert HasStart(g, key.start);
    var vs := Values(ck, g);
    ValuesOfDistinct(ck, g);
    SameElements(vs, g);
    SoundStarts(g, vs, key, now);
    ValuesAreValues(ck, g);
    AscendingFive(vs, key.start);
  }

  lemma SoundStarts(g: seq<Bar>, vs: seq<Bar>, key: Key, now: Instant)
    requires SoundGroup(g, key, now) && forall v :: v in vs <==> v in g
    ensures StartsOf(vs) == Expected(key.start)
  {
    forall t | t in Expected(key.start)
      ensures t in StartsOf(vs)
    {
      assert HasStart(g, t);
      var b :| b in g && b.start == t;
      assert b in vs;
    }
  }

  /** A sound group makes a ready bar that summarises it. */
  lemma SoundGroupIsReady(ck: Checker, key: Key, g: seq<Bar>, now: Instant)
    requires SoundGroup(g, key, now)
    ensures g != []
    ensures var o, vs := Five(ck, key, g, now), Values(ck, g);
            StrategyReady(o, now) && FiveMinutes(vs, key.start) && multiset(vs) == multiset(g) && Summarises(o, vs)
  {
    SoundValues(ck, key, g, now);
    UnionOfUnflagged(g);
    ReducedIsReady(key, Values(ck, g), now, Five(ck, key, g, now));
  }

  lemma SameElements(a: seq<Bar>, b: seq<Bar>)
    requires multiset(a) == multiset(b)
    ensures forall x :: x in a <==> x in b
  {
    assert forall x :: x in a <==> x in multiset(a);
    assert forall x :: x in b <==> x in multiset(b);
  }

  lemma BarStartsOnMinute(ck: Checker, key: Key, v: Bar)
    requires Judged(ck, v) && SessionWindow(ck, key.start) && InBucket(v, key) && v.flags == {}
    ensures v.start in Expected(key.start)
  {
    FiledIffInBucket(ck, v, key);
    BucketHoldsMinute(ck, v, key);
  }

  lemma UnionOfUnflagged(g: seq<Bar>)
    requires forall b :: b in g ==> b.flags == {}
    ensures UnionFlags(g) == {}
  {
  }

  lemma FiledWindow(ck: Checker, checked: seq<Bar>, now: Instant, key: Key, out: seq<Bar>) returns (o: Bar)
    requires IsAggregate(ck, checked, now, out) && Group(ck, checked, key) != []
    ensures o in out && KeyOf(o) == key && o == Five(ck, key, Group(ck, checked, key), now)
  {
    var g := Group(ck, checked, key);
    assert g[0] in g;
    assert HasWindow(out, key);
    o :| o in out && KeyOf(o) == key;
    assert IsWindow(ck, checked, now, o);
  }

  lemma {:induction false} WindowCounts(bars: seq<Bar>, key: Key, b: Bar)
    ensures multiset(BarsOf(bars, key))[b] == if InBucket(b, key) then multiset(bars)[b] else 0
  {
    if bars != [] {
      var before, x := bars[..|bars| - 1], bars[|bars| - 1];
      assert bars == before + [x];
      WindowCounts(before, key, b);
      assert BarsOf(bars, key) == BarsOf(before, key) + if InBucket(x, key) then [x] else [];
    }
  }

  lemma WindowOfPermutation(a: seq<Bar>, b: seq<Bar>, key: Key)
    requires multiset(a) == multiset(b)
    ensures multiset(BarsOf(a, key)) == multiset(BarsOf(b, key))
  {
    forall x
      ensures multiset(BarsOf(a, key))[x] == multiset(BarsOf(b, key))[x]
    {
      WindowCounts(a, key, x);
      WindowCounts(b, key, x);
    }
  }

  lemma StartsOfPermutation(a: seq<Bar>, b: seq<Bar>)
    requires multiset(a) == multiset(b) && DistinctStarts(a)
    ensures DistinctStarts(b)
  {
    assert Distinct(a);
    DistinctCounts(a);
    CountsDistinct(b);
    SameElements(a, b);
    forall i, j | 0 <= i < j < |b|
      ensures b[i].start != b[j].start
    {
      assert b[i] in a && b[j] in a;
      var k :| 0 <= k < |a| && a[k] == b[i];
      var l :| 0 <= l < |a| && a[l] == b[j];
    }
  }

  lemma {:induction false} SameWindowBars(a: seq<Bar>, b: seq<Bar>, key: Key)
    requires |a| == |b|
    requires forall i :: 0 <= i < |a| ==> (InBucket(a[i], key) <==> InBucket(b[i], key)) && (InBucket(a[i], key) ==> a[i] == b[i])
    ensures BarsOf(a, key) == BarsOf(b, key)
  {
    if a != [] {
      SameWindowBars(a[..|a| - 1], b[..|b| - 1], key);
    }
  }

  /** Rechecking in receipt order finds nothing more in the bars of the window. */
  ghost predicate NothingLate(ck: Checker, sorted: seq<Bar>, key: Key) {
    forall i :: 0 <= i < |sorted| && InBucket(sorted[i], key) ==> Late(ck, sorted, i) == {}
  }

  /** With nothing late, the window of the checked history is that of the store, rearranged. */
  lemma WindowUnchanged(ck: Checker, bars: seq<Bar>, sorted: seq<Bar>, h: seq<Bar>, key: Key)
    requires multiset(sorted) == multiset(bars) && Rechecked(ck, sorted, h) && NothingLate(ck, sorted, key)
    ensures multiset(BarsOf(h, key)) == multiset(BarsOf(bars, key))
  {
    forall i | 0 <= i < |h|
      ensures (InBucket(h[i], key) <==> InBucket(sorted[i], key)) && (InBucket(h[i], key) ==> h[i] == sorted[i])
    {
      assert InBucket(sorted[i], key) ==> sorted[i].flags + Late(ck, sorted, i) == sorted[i].flags;
    }
    SameWindowBars(h, sorted, key);
    WindowOfPermutation(sorted, bars, key);
  }

  /** The window of a healthy store is a sound group. */
  lemma HealthyGroup(ck: Checker, bars: seq<Bar>, h: seq<Bar>, now: Instant, key: Key)
    requires WellStored(ck, bars) && AllAvailable(bars, now) && AllJudged(ck, h)
    requires SessionWindow(ck, key.start) && HealthyBucket(ck, bars, now, key)
    requires multiset(BarsOf(h, key)) == multiset(BarsOf(bars, key))
    ensures Group(ck, h, key) == BarsOf(h, key) && SoundGroup(BarsOf(h, key), key, now)
  {
    var g := BarsOf(h, key);
    SameElements(g, BarsOf(bars, key));
    forall b | b in g
      ensures b.flags == {} && Clean(b, now) && b.start in Expected(key.start)
    {
      assert b in bars && InBucket(b, key);
      UnflaggedIsClean(ck, bars, now, b);
      assert Judged(ck, b);
      BarStartsOnMinute(ck, key, b);
    }
    assert NoStrays(h, key) by {
      forall b | b in h && InBucket(b, key)
        ensures !Stray(b)
      {
        assert b in g;
      }
    }
    WindowIsGroup(ck, h, key);
    UnflaggedAreDistinct(ck, bars, key);
    StartsOfPermutation(BarsOf(bars, key), g);
    forall t | t in Expected(key.start)
      ensures HasStart(g, t)
    {
      EveryMinuteHasBar(ck, bars, now, key, t);
      var b :| b in BarsOf(bars, key) && b.start == t;
      assert b in g;
    }
  }

  /** A healthy session window in which nothing is late has a faithful bar among the canonical bars. */
  lemma HealthyWindowIsReady(ck: Checker, bars: seq<Bar>, now: Instant, key: Key, out: seq<Bar>)
    requires WellStored(ck, bars) && AllAvailable(bars, now) && OneMinute(bars)
    requires SessionWindow(ck, key.start) && HealthyBucket(ck, bars, now, key)
    requires NothingLate(ck, Sort(bars, ReceiptBefore), key)
    requires IsAggregate(ck, CheckedHistory(ck, bars, now), now, out)
    ensures HasFaithfulBar(bars, out, now, key)
  {
    var sorted, h := CheckedStore(ck, bars, now);
    WindowUnchanged(ck, bars, sorted, h, key);
    HealthyGroup(ck, bars, h, now, key);
    var g := BarsOf(h, key);
    SoundGroupIsReady(ck, key, g, now);
    var o := FiledWindow(ck, h, now, key, out);
    assert IsFaithful(bars, out, now, key, o, Values(ck, g));
  }

  /** What readiness says about the group behind a bar. */
  lemma ReadyGroup(ck: Checker, key: Key, g: seq<Bar>, now: Instant)
    requires g != [] && StrategyReady(Five(ck, key, g, now), now)
    ensures key.start + WINDOW <= now
    ensures forall b :: b in g ==> b.flags == {}
    ensures forall t :: t in Expected(key.start) ==> HasCompleteBar(g, t)
  {
    var o, vs := Five(ck, key, g, now), Values(ck, g);
    assert Completed(key, vs, now);
    ValuesAreValues(ck, g);
    forall b | b in g
      ensures b.flags == {}
    {
      assert forall x :: x in b.flags ==> x in UnionFlags(g) && x in o.flags;
    }
    forall t | t in Expected(key.start)
      ensures HasCompleteBar(g, t)
    {
      var i := IndexOfStart(vs, t);
      assert Least(ck, g, vs[i]);
    }
  }

  ghost predicate HasCompleteBar(g: seq<Bar>, t: Instant) {
    exists b :: b in g && b.start == t && b.complete
  }

  lemma NotMissing(ck: Checker, g: seq<Bar>, start: Instant, end: Instant, now: Instant, t: Instant)
    requires OneMinute(g) && AllAvailable(g, now) && end == start + WINDOW
    requires forall t :: t in Expected(start) ==> HasCompleteBar(g, t)
    ensures !IsMissing(ck, g, start, end, now, t)
  {
    if start <= t && OnGrid(start, t) && t + MINUTE <= end {
      GridIsExpected(start, t);
      assert HasCompleteBar(g, t);
      var b :| b in g && b.start == t && b.complete;
      assert b.start in Present(g, now);
    }
  }

  lemma BucketIsHealthy(ck: Checker, bars: seq<Bar>, now: Instant, key: Key, end: Instant, g: seq<Bar>)
    requires OneMinute(bars) && AllAvailable(bars, now) && end == key.start + WINDOW <= now && g == BarsOf(bars, key) != []
    requires forall b :: b in g ==> b.flags == {}
    requires forall t :: t in Expected(key.start) ==> HasCompleteBar(g, t)
    ensures HealthyBucket(ck, bars, now, key)
  {
    forall t
      ensures !IsMissing(ck, g, key.start, end, now, t)
    {
      NotMissing(ck, g, key.start, end, now, t);
    }
    assert g[0] in g;
  }

  lemma GridIsExpected(start: Instant, t: Instant)
    requires start <= t && OnGrid(start, t) && t + MINUTE <= start + WINDOW
    ensures t in Expected(start)
  {
    var k := (t - start) / MINUTE;
    assert t == start + k * MINUTE;
    assert 0 <= k < 5;
  }

  /** A ready bar's window, seen in the checked history: unflagged, with a complete bar for each minute. */
  lemma ReadyHistory(ck: Checker, h: seq<Bar>, now: Instant, key: Key, out: seq<Bar>)
    requires AllJudged(ck, h) && SessionWindow(ck, key.start) && NoStrays(h, key)
    requires IsAggregate(ck, h, now, out) && HasReadyBar(out, now, key)
    ensures key.start + WINDOW <= now
    ensures forall b :: b in h && InBucket(b, key) ==> b.flags == {}
    ensures forall t :: t in Expected(key.start) ==> HasCompleteBar(BarsOf(h, key), t)
  {
    WindowIsGroup(ck, h, key);
    var o :| o in out && KeyOf(o) == key && StrategyReady(o, now);
    assert IsWindow(ck, h, now, o);
    ReadyGroup(ck, key, BarsOf(h, key), now);
    assert forall b :: b in h && InBucket(b, key) ==> b in BarsOf(h, key);
  }

  /** Late findings make no strays. */
  lemma StraysUnchanged(ck: Checker, bars: seq<Bar>, sorted: seq<Bar>, h: seq<Bar>, key: Key)
    requires (forall b :: b in sorted <==> b in bars) && Rechecked(ck, sorted, h) && NoStrays(bars, key)
    ensures NoStrays(h, key)
  {
    forall b | b in h && InBucket(b, key)
      ensures !Stray(b)
    {
      var i :| 0 <= i < |h| && h[i] == b;
      assert sorted[i] in bars && InBucket(sorted[i], key);
      assert Late(ck, sorted, i) <= {AbnormalGap, AbnormalVolume};
    }
  }

  /** An unflagged window of the checked history was stored unflagged, and nothing in it is late. */
  lemma UnflaggedHistory(ck: Checker, bars: seq<Bar>, sorted: seq<Bar>, h: seq<Bar>, key: Key)
    requires (forall b :: b in sorted <==> b in bars) && Rechecked(ck, sorted, h)
    requires forall b :: b in h && InBucket(b, key) ==> b.flags == {}
    ensures NothingLate(ck, sorted, key)
    ensures forall b :: b in BarsOf(bars, key) ==> b.flags == {}
  {
    forall i | 0 <= i < |sorted| && InBucket(sorted[i], key)
      ensures sorted[i].flags == {} && Late(ck, sorted, i) == {}
    {
      assert h[i] in h && InBucket(h[i], key);
      assert sorted[i].flags <= h[i].flags && Late(ck, sorted, i) <= h[i].flags;
    }
    forall b | b in BarsOf(bars, key)
      ensures b.flags == {}
    {
      assert b in sorted;
      var i :| 0 <= i < |sorted| && sorted[i] == b;
    }
  }

  lemma CompleteInStore(ck: Checker, bars: seq<Bar>, sorted: seq<Bar>, h: seq<Bar>, key: Key, t: Instant)
    requires (forall b :: b in sorted <==> b in bars) && Rechecked(ck, sorted, h) && HasCompleteBar(BarsOf(h, key), t)
    ensures HasCompleteBar(BarsOf(bars, key), t)
  {
    var b :| b in BarsOf(h, key) && b.start == t && b.complete;
    var i :| 0 <= i < |h| && h[i] == b;
    assert sorted[i] in bars && sorted[i] in BarsOf(bars, key);
  }

  /** A ready window without strays is healthy, and nothing in it is late. */
  lemma ReadyWindowIsHealthy(ck: Checker, bars: seq<Bar>, now: Instant, key: Key, out: seq<Bar>)
    requires WellStored(ck, bars) && AllAvailable(bars, now) && OneMinute(bars)
    requires SessionWindow(ck, key.start) && HasReadyBar(out, now, key) && NoStrays(bars, key)
    requires IsAggregate(ck, CheckedHistory(ck, bars, now), now, out)
    ensures HealthyBucket(ck, bars, now, key) && NothingLate(ck, Sort(bars, ReceiptBefore), key)
  {
    var sorted, h := CheckedStore(ck, bars, now);
    StraysUnchanged(ck, bars, sorted, h, key);
    ReadyHistory(ck, h, now, key, out);
    UnflaggedHistory(ck, bars, sorted, h, key);
    var g := BarsOf(bars, key);
    forall t | t in Expected(key.start)
      ensures HasCompleteBar(g, t)
    {
      CompleteInStore(ck, bars, sorted, h, key, t);
    }
    assert HasCompleteBar(g, key.start);
    BucketIsHealthy(ck, bars, now, key, key.start + WINDOW, g);
  }

  lemma FaithfulIsReady(bars: seq<Bar>, out: seq<Bar>, now: Instant, key: Key)
    requires HasFaithfulBar(bars, out, now, key)
    ensures HasReadyBar(out, now, key)
  {
    var o, vs :| IsFaithful(bars, out, now, key, o, vs);
  }

  lemma HealthyHasNoStrays(ck: Checker, bars: seq<Bar>, now: Instant, key: Key)
    requires HealthyBucket(ck, bars, now, key)
    ensures NoStrays(bars, key)
  {
  }

  /**
   The check and the aggregate on every session window of any store, in whatever order it was filled: a healthy
   window with nothing late is the same as a ready bar and no strays.
   */
  lemma HealthDecidesReadiness(ck: Checker, bars: seq<Bar>, now: Instant, key: Key, out: seq<Bar>)
    requires WellStored(ck, bars) && AllAvailable(bars, now) && OneMinute(bars)
    requires SessionWindow(ck, key.start)
    requires IsAggregate(ck, CheckedHistory(ck, bars, now), now, out)
    ensures HealthyBucket(ck, bars, now, key) && NothingLate(ck, Sort(bars, ReceiptBefore), key)
            <==> HasReadyBar(out, now, key) && NoStrays(bars, key)
  {
    if HealthyBucket(ck, bars, now, key) && NothingLate(ck, Sort(bars, ReceiptBefore), key) {
      HealthyWindowIsReady(ck, bars, now, key, out);
      FaithfulIsReady(bars, out, now, key);
      HealthyHasNoStrays(ck, bars, now, key);
    }
    if HasReadyBar(out, now, key) && NoStrays(bars, key) {
      ReadyWindowIsHealthy(ck, bars, now, key, out);
    }
  }

  /** For a healthy window, readiness turns on the late findings alone. */
  lemma HealthyIsReadyIffNothingLate(ck: Checker, bars: seq<Bar>, now: Instant, key: Key, out: seq<Bar>)
    requires WellStored(ck, bars) && AllAvailable(bars, now) && OneMinute(bars)
    requires SessionWindow(ck, key.start) && HealthyBucket(ck, bars, now, key)
    requires IsAggregate(ck, CheckedHistory(ck, bars, now), now, out)
    ensures HasReadyBar(out, now, key) <==> NothingLate(ck, Sort(bars, ReceiptBefore), key)
  {
    HealthDecidesReadiness(ck, bars, now, key, out);
    HealthyHasNoStrays(ck, bars, now, key);
  }

  /** A store filled in receipt order has nothing late in a healthy window: ingestion has found it all. */
  lemma NothingLateInOrder(ck: Checker, bars: seq<Bar>, now: Instant, key: Key)
    requires WellStored(ck, bars) && Sorted(bars, ReceiptBefore) && HealthyBucket(ck, bars, now, key)
    ensures NothingLate(ck, Sort(bars, ReceiptBefore), key)
  {
    SortOfSorted(bars, ReceiptBefore);
    forall i | 0 <= i < |bars| && InBucket(bars[i], key)
      ensures Late(ck, bars, i) == {}
    {
      assert StoredAt(ck, bars, i);
      assert bars[i] in bars && bars[i].flags == {};
      assert Late(ck, bars, i) <= Findings(ck, bars[i], PreviousOf(bars[..i], bars[i]));
    }
  }

  /** The check and the aggregate agree on every session window of a store filled in receipt order. */
  lemma HealthAgreesWithAggregate(ck: Checker, bars: seq<Bar>, now: Instant, key: Key, out: seq<Bar>)
    requires WellStored(ck, bars) && AllAvailable(bars, now) && Sorted(bars, ReceiptBefore) && OneMinute(bars)
    requires SessionWindow(ck, key.start)
    requires IsAggregate(ck, CheckedHistory(ck, bars, now), now, out)
    ensures HealthyBucket(ck, bars, now, key) <==> HasReadyBar(out, now, key) && NoStrays(bars, key)
  {
    HealthDecidesReadiness(ck, bars, now, key, out);
    if HealthyBucket(ck, bars, now, key) {
      NothingLateInOrder(ck, bars, now, key);
    }
  }
}
