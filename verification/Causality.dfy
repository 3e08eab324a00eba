/** Nothing from the future reaches an aggregate, and a complete window never changes its figures. */
module Causality {
  import opened Prelude
  import opened Sorting
  import opened Bars
  import opened Aggregation
  import opened Windows

  predicate WindowBefore(a: Bar, b: Bar) {
    KeyBefore(KeyOf(a), KeyOf(b))
  }

  lemma SameWindow(ck: Checker, checked: seq<Bar>, cutoff: Instant, a: seq<Bar>, b: seq<Bar>, o: Bar)
    requires IsAggregate(ck, checked, cutoff, a) && IsAggregate(ck, checked, cutoff, b) && o in a
    ensures o in b
  {
    var key := KeyOf(o);
    var g := Group(ck, checked, key);
    assert IsWindow(ck, checked, cutoff, o);
    assert g[0] in g;
    assert HasWindow(b, key);
    var w :| w in b && KeyOf(w) == key;
    assert IsWindow(ck, checked, cutoff, w);
  }

  /** A checked history has one aggregate at a cutoff. */
  lemma AggregateUnique(ck: Checker, checked: seq<Bar>, cutoff: Instant, a: seq<Bar>, b: seq<Bar>)
    requires IsAggregate(ck, checked, cutoff, a) && IsAggregate(ck, checked, cutoff, b)
    ensures a == b
  {
    forall o
      ensures o in a <==> o in b
    {
      if o in a {
        SameWindow(ck, checked, cutoff, a, b, o);
      }
      if o in b {
        SameWindow(ck, checked, cutoff, b, a, o);
      }
    }
    DistinctSameMembers(a, b);
    SortedUnique(a, b, WindowBefore);
  }

  /** Whatever is not available at the cutoff, however much of it there is, leaves the output as it is. */
  lemma FutureDoesNotMatter(ck: Checker, bars: seq<Bar>, others: seq<Bar>, cutoff: Instant, a: seq<Bar>, b: seq<Bar>)
    requires OneMinute(bars) && OneMinute(others) && Live(bars, cutoff) == Live(others, cutoff)
    requires IsAggregate(ck, CheckedHistory(ck, bars, cutoff), cutoff, a)
    requires IsAggregate(ck, CheckedHistory(ck, others, cutoff), cutoff, b)
    ensures a == b
  {
    LiveOfSorted(bars, cutoff);
    LiveOfSorted(others, cutoff);
    AggregateUnique(ck, CheckedHistory(ck, bars, cutoff), cutoff, a, b);
  }

  /** A one-minute bar that carries every flag its session check finds. */
  ghost predicate Judged(ck: Checker, b: Bar) {
    b.minutes == 1 && b.Valid() && SessionFlags(ck, b) <= b.flags
  }

  ghost predicate AllJudged(ck: Checker, bars: seq<Bar>) {
    forall b :: b in bars ==> Judged(ck, b)
  }

  lemma {:induction false} CheckedAreJudged(ck: Checker, bars: seq<Bar>)
    requires OneMinute(bars)
    ensures AllJudged(ck, CheckAll(ck, bars))
  {
    if bars != [] {
      var n := |bars| - 1;
      assert bars == bars[..n] + [bars[n]];
      CheckedAreJudged(ck, bars[..n]);
      CheckAllStep(ck, bars[..n], bars[n]);
      CheckedIsJudged(ck, bars[n], PreviousOf(CheckAll(ck, bars[..n]), bars[n]));
    }
  }

  lemma CheckedIsJudged(ck: Checker, b: Bar, previous: Option<Bar>)
    requires b.minutes == 1 && b.Valid()
    ensures Judged(ck, Check(ck, b, previous))
  {
  }

  /** The checked history at a cutoff is the available part of one fixed history. */
  lemma HistoryAt(ck: Checker, bars: seq<Bar>, cutoff: Instant) returns (h: seq<Bar>)
    requires OneMinute(bars)
    ensures OneMinute(Sort(bars, ReceiptBefore)) && h == CheckAll(ck, Sort(bars, ReceiptBefore))
    ensures CheckedHistory(ck, bars, cutoff) == Live(h, cutoff)
    ensures AllJudged(ck, h)
  {
    SortMembers(bars, ReceiptBefore);
    ReceiptBeforeIsOrder();
    SortSorts(bars, ReceiptBefore);
    var sorted := Sort(bars, ReceiptBefore);
    ChecksAreCausal(ck, sorted, cutoff);
    CheckedAreJudged(ck, sorted);
    h := CheckAll(ck, sorted);
  }

  /** A grouped bar starts on one of the five minutes of its window. */
  lemma BucketHoldsMinute(ck: Checker, b: Bar, key: Key)
    requires Judged(ck, b) && BucketOf(ck, b) == Some(key)
    ensures b.start in Expected(key.start) && InSession(ck, b)
    ensures b.instrument == key.instrument && b.source == key.source
  {
    var offset := b.start - ck.cal(b.start).value.0;
    assert SessionFlags(ck, b) == {} by {
      assert SessionFlags(ck, b) <= {OutOfSession, Misaligned};
    }
    MinuteOfWindow(offset);
  }

  lemma MinuteOfWindow(offset: int)
    requires offset % MINUTE == 0
    ensures offset - WINDOW * (offset / WINDOW) in {0, MINUTE, 2 * MINUTE, 3 * MINUTE, 4 * MINUTE}
  {
    var q := offset / MINUTE;
    assert offset == q * MINUTE;
    assert q == 5 * (q / 5) + q % 5;
    assert offset == WINDOW * (q / 5) + MINUTE * (q % 5);
  }

  lemma {:induction false} GroupsGrow(ck: Checker, h: seq<Bar>, key: Key, c: Instant, d: Instant)
    requires c <= d
    ensures |Group(ck, Live(h, c), key)| <= |Group(ck, Live(h, d), key)|
    ensures forall b :: b in Group(ck, Live(h, c), key) ==> b in Group(ck, Live(h, d), key)
  {
    if h != [] {
      var n := |h| - 1;
      assert h == h[..n] + [h[n]];
      GroupsGrow(ck, h[..n], key, c, d);
      GroupStep(ck, Live(h[..n], c), h[n], key);
      GroupStep(ck, Live(h[..n], d), h[n], key);
    }
  }

  lemma {:induction false} FirstPerMinuteLength(ordered: seq<Bar>)
    ensures |FirstPerMinute(ordered)| <= |ordered|
  {
    if ordered != [] {
      FirstPerMinuteLength(ordered[..|ordered| - 1]);
    }
  }

  /** A bar that becomes available only later cannot win a minute already taken. */
  lemma LateBarLoses(ck: Checker, v: Bar, b: Bar, c: Instant)
    requires Judged(ck, v) && Judged(ck, b) && v.start == b.start
    requires Available(v, c) && !Available(b, c)
    ensures Earlier(ck, v, b)
  {
  }

  /** `late` adds to `early` only bars unavailable at `c`. */
  ghost predicate AddsLateBars(early: seq<Bar>, late: seq<Bar>, c: Instant) {
    && (forall b :: b in early ==> b in late && Available(b, c))
    && (forall b :: b in late && Available(b, c) ==> b in early)
  }

  lemma StillLeast(ck: Checker, early: seq<Bar>, late: seq<Bar>, c: Instant, v: Bar)
    requires AllJudged(ck, late) && AddsLateBars(early, late, c) && Least(ck, early, v)
    ensures Least(ck, late, v)
  {
    forall b | b in late && b.start == v.start
      ensures Earlier(ck, v, b)
    {
      if !Available(b, c) {
        LateBarLoses(ck, v, b, c);
      }
    }
  }

  /** Once the five minutes of a window are there, its values are settled. */
  lemma ValuesSettled(ck: Checker, early: seq<Bar>, late: seq<Bar>, c: Instant, start: Instant)
    requires TextDistinguishes(ck) && AllJudged(ck, late) && AddsLateBars(early, late, c)
    requires StartsOf(Values(ck, early)) == Expected(start)
    requires forall b :: b in late ==> b.start in Expected(start)
    ensures Values(ck, late) == Values(ck, early)
  {
    var vs := Values(ck, early);
    ValuesAreValues(ck, early);
    ValuesAreValues(ck, late);
    forall v | v in vs
      ensures Least(ck, late, v)
    {
      StillLeast(ck, early, late, c, v);
    }
    forall b | b in late
      ensures HasStart(vs, b.start)
    {
      assert b.start in StartsOf(vs);
    }
    ValuesUnique(ck, late, vs, Values(ck, late));
  }

  lemma FlagsGrow(early: seq<Bar>, late: seq<Bar>)
    requires forall b :: b in early ==> b in late
    ensures UnionFlags(early) <= UnionFlags(late)
  {
  }

  lemma ReduceGrows(key: Key, vs: seq<Bar>, f: set<Flag>, f': set<Flag>, r: bool, r': bool, c: Instant, d: Instant)
    requires vs != [] && f <= f' && (r ==> r') && c <= d && Reduce(key, vs, f, r, c).complete
    ensures Bare(Reduce(key, vs, f', r', d)) == Bare(Reduce(key, vs, f, r, c))
    ensures Reduce(key, vs, f, r, c).flags <= Reduce(key, vs, f', r', d).flags
  {
    assert Completed(key, vs, c) && Completed(key, vs, d);
  }

  /** A complete window of a group stays complete in a group that adds late bars. */
  lemma FiveSettled(ck: Checker, key: Key, early: seq<Bar>, late: seq<Bar>, c: Instant, d: Instant)
    requires TextDistinguishes(ck) && AllJudged(ck, late) && AddsLateBars(early, late, c)
    requires forall b :: b in late ==> b.start in Expected(key.start)
    requires early != [] && |early| <= |late| && c <= d && Five(ck, key, early, c).complete
    ensures Bare(Five(ck, key, late, d)) == Bare(Five(ck, key, early, c))
    ensures Five(ck, key, early, c).flags <= Five(ck, key, late, d).flags
  {
    var vs := Values(ck, early);
    assert Completed(key, vs, c);
    ValuesSettled(ck, early, late, c, key.start);
    FlagsGrow(early, late);
    FirstPerMinuteLength(Sort(early, MinuteBefore(ck)));
    ReduceGrows(key, vs, UnionFlags(early), UnionFlags(late), |vs| != |early|, |vs| != |late|, c, d);
  }

  ghost predicate Refines(out: seq<Bar>, o: Bar) {
    exists w :: w in out && Bare(w) == Bare(o) && o.flags <= w.flags
  }

  /**
   A window complete at one cutoff is in the output of every later cutoff, complete,
   with the same prices, volume and receipt time, and at most more flags.
   */
  lemma CompleteWindowsAreStable(
      ck: Checker, bars: seq<Bar>, c: Instant, d: Instant, early: seq<Bar>, late: seq<Bar>, o: Bar)
    requires TextDistinguishes(ck) && OneMinute(bars) && c <= d
    requires IsAggregate(ck, CheckedHistory(ck, bars, c), c, early)
    requires IsAggregate(ck, CheckedHistory(ck, bars, d), d, late)
    requires o in early && o.complete
    ensures Refines(late, o)
  {
    var h := HistoryAt(ck, bars, c);
    var h' := HistoryAt(ck, bars, d);
    var key := KeyOf(o);
    assert IsWindow(ck, Live(h, c), c, o);
    var g, g' := Group(ck, Live(h, c), key), Group(ck, Live(h, d), key);
    GroupsGrow(ck, h, key, c, d);
    assert g[0] in g';
    assert HasWindow(late, key);
    var w :| w in late && KeyOf(w) == key;
    assert IsWindow(ck, Live(h, d), d, w);
    forall b | b in g'
      ensures b.start in Expected(key.start)
    {
      BucketHoldsMinute(ck, b, key);
    }
    FiveSettled(ck, key, g, g', c, d);
  }

  /**
   The interval of a bar is checked before its availability, so a five-minute bar from the future
   makes the aggregator refuse: nothing can be aggregated that was aggregated without it.
   */
  method FutureFiveMinuteBarRefused(ck: Checker, bars: seq<Bar>, future: Bar, cutoff: Instant)
      returns (without: Result<seq<Bar>, AggregationError>, with: Result<seq<Bar>, AggregationError>)
    requires OneMinute(bars) && future.Valid() && future.minutes == 5 && !Available(future, cutoff)
    ensures Live(bars + [future], cutoff) == Live(bars, cutoff)
    ensures without.Ok? && with == Err(NotOneMinute)
  {
    LiveStep(bars, future, cutoff);
    without := Aggregate(ck, bars, cutoff);
    with := Aggregate(ck, bars + [future], cutoff);
    assert future in bars + [future];
    assert !AllMinutes(bars + [future]);
    assert with.error == NotOneMinute;
  }
}
