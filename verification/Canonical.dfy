/** The five-minute bars the aggregator puts out, told in the one-minute bars that went in. */
module Canonical {
  import opened Prelude
  import opened Sorting
  import opened Bars
  import opened Flags
  import opened Aggregation
  import opened Windows
  import opened Causality
  import opened Readiness

  /** `raw` holds the bars known by the cutoff, received in order, those received together by their minute. */
  ghost predicate IsReceipts(bars: seq<Bar>, cutoff: Instant, raw: seq<Bar>) {
    && (forall b :: multiset(raw)[b] == if KnownBy(b, cutoff) then multiset(bars)[b] else 0)
    && forall i, j :: 0 <= i < j < |raw| ==>
         raw[i].receivedAt < raw[j].receivedAt || (raw[i].receivedAt == raw[j].receivedAt && raw[i].start <= raw[j].start)
  }

  /** `h` holds the bars of `raw`, each checked behind those before it. */
  ghost predicate IsHistory(ck: Checker, raw: seq<Bar>, h: seq<Bar>) {
    |h| == |raw| && forall i :: 0 <= i < |h| ==> raw[i].minutes == 1 && IsChecked(ck, h[..i], raw[i], h[i])
  }

  /** What the aggregator works on. */
  lemma HistoryMeaning(ck: Checker, bars: seq<Bar>, cutoff: Instant) returns (raw: seq<Bar>)
    requires OneMinute(bars)
    ensures IsReceipts(bars, cutoff, raw) && IsHistory(ck, raw, CheckedHistory(ck, bars, cutoff))
  {
    var sorted := Sort(bars, ReceiptBefore);
    SortMembers(bars, ReceiptBefore);
    ReceiptBeforeIsOrder();
    SortSorts(bars, ReceiptBefore);
    raw := Live(sorted, cutoff);
    LiveCounts(sorted, cutoff);
    LiveSorted(sorted, cutoff);
    forall i, j | 0 <= i < j < |raw|
      ensures raw[i].receivedAt < raw[j].receivedAt || (raw[i].receivedAt == raw[j].receivedAt && raw[i].start <= raw[j].start)
    {
      assert ReceiptBefore(raw[i], raw[j]);
    }
    CheckedHistoryMeaning(ck, raw);
  }

  lemma {:induction false} LiveCounts(bars: seq<Bar>, cutoff: Instant)
    ensures forall b :: multiset(Live(bars, cutoff))[b] == if KnownBy(b, cutoff) then multiset(bars)[b] else 0
  {
    if bars != [] {
      var n := |bars| - 1;
      assert bars == bars[..n] + [bars[n]];
      LiveCounts(bars[..n], cutoff);
    }
  }

  lemma {:induction false} LiveSorted(bars: seq<Bar>, cutoff: Instant)
    requires Sorted(bars, ReceiptBefore)
    ensures Sorted(Live(bars, cutoff), ReceiptBefore)
  {
    if bars != [] {
      var n := |bars| - 1;
      LiveSorted(bars[..n], cutoff);
      forall x | x in Live(bars[..n], cutoff)
        ensures ReceiptBefore(x, bars[n])
      {
        var i :| 0 <= i < n && bars[i] == x;
      }
    }
  }

  lemma {:induction false} CheckedHistoryMeaning(ck: Checker, raw: seq<Bar>)
    requires OneMinute(raw)
    ensures IsHistory(ck, raw, CheckAll(ck, raw))
  {
    if raw != [] {
      var before, b := raw[..|raw| - 1], raw[|raw| - 1];
      assert raw == before + [b];
      CheckedHistoryMeaning(ck, before);
      CheckedShows(ck, CheckAll(ck, before), b);
      CheckAllStep(ck, before, b);
      HistoryStep(ck, before, CheckAll(ck, before), b, Check(ck, b, PreviousOf(CheckAll(ck, before), b)));
    }
  }

  lemma HistoryStep(ck: Checker, raw: seq<Bar>, h: seq<Bar>, b: Bar, c: Bar)
    requires IsHistory(ck, raw, h) && b.minutes == 1 && IsChecked(ck, h, b, c)
    ensures IsHistory(ck, raw + [b], h + [c])
  {
    var raw', h' := raw + [b], h + [c];
    forall i | 0 <= i < |h'|
      ensures raw'[i].minutes == 1 && IsChecked(ck, h'[..i], raw'[i], h'[i])
    {
      if i < |h| {
        assert h'[..i] == h[..i];
      } else {
        assert h'[..i] == h;
      }
    }
  }

  /**
   `b` is in session, aligned, of the feed of `o`, and starts in the five minutes counted from the opening that
   begin with `o`.
   */
  ghost predicate IsFiled(ck: Checker, b: Bar, o: Bar) {
    && ck.cal(b.start).Some? && OutOfSession !in b.flags && Misaligned !in b.flags
    && b.instrument == o.instrument && b.source == o.source
    && o.start <= b.start < o.start + 5 * MINUTE && (o.start - ck.cal(b.start).value.0) % (5 * MINUTE) == 0
  }

  lemma FiledMeaning(ck: Checker, b: Bar, o: Bar)
    ensures BucketOf(ck, b) == Some(KeyOf(o)) <==> IsFiled(ck, b, o)
  {
    if ck.cal(b.start).Some? {
      var open := ck.cal(b.start).value.0;
      if (o.start - open) % WINDOW == 0 && o.start <= b.start < o.start + WINDOW {
        BucketArithmetic(open, o.start, b.start);
      }
      FloorFacts(open, b.start);
    }
  }

  lemma FloorFacts(open: Instant, t: Instant)
    ensures var s := open + WINDOW * ((t - open) / WINDOW); s <= t < s + WINDOW && (s - open) % WINDOW == 0
  {
    var q := (t - open) / WINDOW;
    assert (WINDOW * q) % WINDOW == 0;
  }

  /** `v` came first of the filed bars of its minute; the serialised form breaks ties. */
  ghost predicate CameFirst(ck: Checker, h: seq<Bar>, o: Bar, v: Bar) {
    && v in h && IsFiled(ck, v, o)
    && forall b :: b in h && IsFiled(ck, b, o) && b.start == v.start ==>
         v.receivedAt < b.receivedAt || (v.receivedAt == b.receivedAt && ck.text(v) <= ck.text(b))
  }

  /** One bar per filed minute, in order, each the first of its minute. */
  ghost predicate IsMinutes(ck: Checker, h: seq<Bar>, o: Bar, vs: seq<Bar>) {
    && vs != []
    && (forall i, j :: 0 <= i < j < |vs| ==> vs[i].start < vs[j].start)
    && (forall v :: v in vs ==> CameFirst(ck, h, o, v))
    && forall b :: b in h && IsFiled(ck, b, o) ==> exists v :: v in vs && v.start == b.start
  }

  ghost predicate HasMinute(vs: seq<Bar>, t: Instant) {
    exists v :: v in vs && v.start == t && v.complete
  }

  /** All five minutes are there and complete, and the last is over. */
  ghost predicate IsWhole(vs: seq<Bar>, start: Instant, cutoff: Instant) {
    (forall m :: 0 <= m < 5 ==> HasMinute(vs, start + m * MINUTE)) && start + 5 * MINUTE <= cutoff
  }

  /** Two filed bars are of the same minute. */
  ghost predicate SharesMinute(ck: Checker, h: seq<Bar>, o: Bar) {
    exists i, j :: 0 <= i < j < |h| && IsFiled(ck, h[i], o) && IsFiled(ck, h[j], o) && h[i].start == h[j].start
  }

  /** First open, last close, extremes, total volume, latest receipt. */
  ghost predicate HasFigures(o: Bar, vs: seq<Bar>)
    requires vs != []
  {
    && o.open == vs[0].open && o.close == vs[|vs| - 1].close && o.feed == vs[0].feed
    && (forall v :: v in vs ==> o.low <= v.low && v.high <= o.high && v.receivedAt <= o.receivedAt)
    && (exists v :: v in vs && v.high == o.high)
    && (exists v :: v in vs && v.low == o.low)
    && (exists v :: v in vs && v.receivedAt == o.receivedAt)
    && o.volume == Sum(seq(|vs|, i requires 0 <= i < |vs| => vs[i].volume))
  }

  /** Flags of any filed bar, of repeats, and of a window that is not whole. */
  ghost predicate HasFlags(ck: Checker, h: seq<Bar>, o: Bar) {
    forall f :: f in o.flags <==>
      || (exists b :: b in h && IsFiled(ck, b, o) && f in b.flags)
      || (f == Duplicate && SharesMinute(ck, h, o))
      || ((f == Incomplete || f == MissingInterval) && !o.complete)
  }

  /** A five-minute bar for what is filed under it. */
  ghost predicate IsCanonical(ck: Checker, h: seq<Bar>, cutoff: Instant, o: Bar, vs: seq<Bar>) {
    && o.minutes == 5 && o.end == o.start + 5 * MINUTE
    && IsMinutes(ck, h, o, vs) && HasFigures(o, vs) && HasFlags(ck, h, o)
    && (o.complete <==> IsWhole(vs, o.start, cutoff))
  }

  ghost predicate InOrder(out: seq<Bar>) {
    forall i, j :: 0 <= i < j < |out| ==>
      || out[i].instrument < out[j].instrument
      || (out[i].instrument == out[j].instrument && out[i].source < out[j].source)
      || (out[i].instrument == out[j].instrument && out[i].source == out[j].source && out[i].start < out[j].start)
  }

  ghost predicate HasMeaning(ck: Checker, h: seq<Bar>, cutoff: Instant, o: Bar) {
    exists vs :: IsCanonical(ck, h, cutoff, o, vs)
  }

  /** Every filed bar has its window among the output. */
  ghost predicate CoversFiled(ck: Checker, h: seq<Bar>, out: seq<Bar>) {
    forall b :: b in h && ck.cal(b.start).Some? && OutOfSession !in b.flags && Misaligned !in b.flags ==>
      exists o :: o in out && IsFiled(ck, b, o)
  }

  lemma {:induction false} SumsAgree(vs: seq<Bar>)
    ensures SumVolume(vs) == Sum(seq(|vs|, i requires 0 <= i < |vs| => vs[i].volume))
  {
    var volumes := seq(|vs|, i requires 0 <= i < |vs| => vs[i].volume);
    if vs != [] {
      var n := |vs| - 1;
      SumsAgree(vs[..n]);
      assert volumes[..n] == seq(n, i requires 0 <= i < n => vs[..n][i].volume);
    }
  }

  ghost predicate Starts(g: seq<Bar>, t: Instant) {
    exists v :: v in g && v.start == t
  }

  lemma DistinctStep(g: seq<Bar>, b: Bar)
    ensures DistinctStarts(g + [b]) <==> DistinctStarts(g) && !Starts(g, b.start)
  {
    var all := g + [b];
    assert forall i :: 0 <= i < |g| ==> all[i] == g[i];
    if DistinctStarts(all) {
      assert forall i, j :: 0 <= i < j < |g| ==> all[i].start != all[j].start;
      forall v | v in g
        ensures v.start != b.start
      {
        var i :| 0 <= i < |g| && g[i] == v;
        assert all[i].start != all[|g|].start;
      }
    }
    if DistinctStarts(g) && !Starts(g, b.start) {
      forall i, j | 0 <= i < j < |all|
        ensures all[i].start != all[j].start
      {
        assert all[i] in g;
      }
    }
  }

  lemma {:induction false} StartsCount(g: seq<Bar>)
    ensures |StartsOf(g)| <= |g|
    ensures |StartsOf(g)| == |g| <==> DistinctStarts(g)
  {
    if g != [] {
      var before, b := g[..|g| - 1], g[|g| - 1];
      assert g == before + [b];
      StartsCount(before);
      DistinctStep(before, b);
      assert StartsOf(g) == StartsOf(before) + {b.start};
      assert Starts(before, b.start) <==> b.start in StartsOf(before);
    }
  }

  /** A group is longer than its values exactly when a minute repeats. */
  lemma LongerIffRepeats(ck: Checker, g: seq<Bar>)
    ensures |Values(ck, g)| != |g| <==> !DistinctStarts(g)
  {
    var vs := Values(ck, g);
    ValuesAreValues(ck, g);
    StartsCount(g);
    StartsCount(vs);
    assert DistinctStarts(vs);
    assert StartsOf(vs) == StartsOf(g) by {
      forall v | v in vs
        ensures v.start in StartsOf(g)
      {
        assert Least(ck, g, v);
      }
      forall b | b in g
        ensures b.start in StartsOf(vs)
      {
        assert HasStart(vs, b.start);
      }
    }
  }

  ghost predicate FiledStarts(ck: Checker, h: seq<Bar>, o: Bar, t: Instant) {
    exists b :: b in h && IsFiled(ck, b, o) && b.start == t
  }

  lemma SharesLast(ck: Checker, h: seq<Bar>, b: Bar, o: Bar)
    requires SharesMinute(ck, h + [b], o) && !SharesMinute(ck, h, o)
    ensures IsFiled(ck, b, o) && FiledStarts(ck, h, o, b.start)
  {
    var all := h + [b];
    var i, j :| 0 <= i < j < |all| && IsFiled(ck, all[i], o) && IsFiled(ck, all[j], o) && all[i].start == all[j].start;
    assert h[i] in h;
  }

  lemma SharesStep(ck: Checker, h: seq<Bar>, b: Bar, o: Bar)
    ensures SharesMinute(ck, h + [b], o) <==> SharesMinute(ck, h, o) || (IsFiled(ck, b, o) && FiledStarts(ck, h, o, b.start))
  {
    var all := h + [b];
    if SharesMinute(ck, h, o) {
      var i, j :| 0 <= i < j < |h| && IsFiled(ck, h[i], o) && IsFiled(ck, h[j], o) && h[i].start == h[j].start;
      assert all[i].start == all[j].start;
    } else if SharesMinute(ck, all, o) {
      SharesLast(ck, h, b, o);
    }
    if IsFiled(ck, b, o) && FiledStarts(ck, h, o, b.start) {
      var x :| x in h && IsFiled(ck, x, o) && x.start == b.start;
      var i :| 0 <= i < |h| && h[i] == x;
      assert all[i].start == all[|h|].start;
    }
  }

  lemma GroupMeaning(ck: Checker, h: seq<Bar>, o: Bar)
    ensures forall b :: b in Group(ck, h, KeyOf(o)) <==> b in h && IsFiled(ck, b, o)
  {
    forall b | b in h
      ensures b in Group(ck, h, KeyOf(o)) <==> IsFiled(ck, b, o)
    {
      FiledMeaning(ck, b, o);
    }
  }

  lemma {:induction false} RepeatsInGroup(ck: Checker, h: seq<Bar>, o: Bar)
    ensures !DistinctStarts(Group(ck, h, KeyOf(o))) <==> SharesMinute(ck, h, o)
  {
    if h != [] {
      var before, b := h[..|h| - 1], h[|h| - 1];
      assert h == before + [b];
      var g := Group(ck, before, KeyOf(o));
      RepeatsInGroup(ck, before, o);
      SharesStep(ck, before, b, o);
      DistinctStep(g, b);
      FiledMeaning(ck, b, o);
      GroupMeaning(ck, before, o);
      assert Starts(g, b.start) <==> FiledStarts(ck, before, o, b.start);
    }
  }

  /** The values of the group are the first bars of its minutes. */
  lemma ValuesMeaning(ck: Checker, h: seq<Bar>, o: Bar)
    requires Group(ck, h, KeyOf(o)) != []
    ensures IsMinutes(ck, h, o, Values(ck, Group(ck, h, KeyOf(o))))
  {
    var g := Group(ck, h, KeyOf(o));
    var vs := Values(ck, g);
    ValuesAreValues(ck, g);
    ValuesNonempty(ck, g);
    GroupMeaning(ck, h, o);
    forall v | v in vs
      ensures CameFirst(ck, h, o, v)
    {
      assert Least(ck, g, v);
    }
    forall b | b in h && IsFiled(ck, b, o)
      ensures exists v :: v in vs && v.start == b.start
    {
      assert HasStart(vs, b.start);
    }
  }

  lemma CompletedIsWhole(key: Key, vs: seq<Bar>, cutoff: Instant)
    requires Completed(key, vs, cutoff)
    ensures IsWhole(vs, key.start, cutoff)
  {
    forall m | 0 <= m < 5
      ensures HasMinute(vs, key.start + m * MINUTE)
    {
      var t := key.start + m * MINUTE;
      assert t in Expected(key.start);
      assert t in StartsOf(vs);
      var v :| v in vs && v.start == t;
    }
  }

  lemma WholeIsCompleted(key: Key, vs: seq<Bar>, cutoff: Instant)
    requires AscendingStarts(vs) && (forall v :: v in vs ==> v.start in Expected(key.start)) && IsWhole(vs, key.start, cutoff)
    ensures Completed(key, vs, cutoff)
  {
    forall t | t in Expected(key.start)
      ensures HasMinute(vs, t)
    {
      var m := (t - key.start) / MINUTE;
      assert 0 <= m < 5 && t == key.start + m * MINUTE;
    }
    assert StartsOf(vs) == Expected(key.start);
    forall v | v in vs
      ensures v.complete
    {
      assert HasMinute(vs, v.start);
      var w :| w in vs && w.start == v.start && w.complete;
      SameStart(vs, v, w);
    }
  }

  lemma SameStart(vs: seq<Bar>, v: Bar, w: Bar)
    requires AscendingStarts(vs) && v in vs && w in vs && v.start == w.start
    ensures v == w
  {
    var i :| 0 <= i < |vs| && vs[i] == v;
    var j :| 0 <= j < |vs| && vs[j] == w;
  }

  lemma FiguresMeaning(key: Key, vs: seq<Bar>, flags: set<Flag>, repeats: bool, cutoff: Instant)
    requires vs != []
    ensures HasFigures(Reduce(key, vs, flags, repeats, cutoff), vs)
  {
    ExtremesAreReached(vs);
    SumsAgree(vs);
  }

  /** The flags of the group, member by member. */
  lemma UnionMeaning(ck: Checker, h: seq<Bar>, o: Bar, f: Flag)
    ensures f in UnionFlags(Group(ck, h, KeyOf(o))) <==> exists b :: b in h && IsFiled(ck, b, o) && f in b.flags
  {
    GroupMeaning(ck, h, o);
  }

  lemma ReducedFlags(key: Key, vs: seq<Bar>, flags: set<Flag>, repeats: bool, cutoff: Instant, o: Bar, f: Flag)
    requires vs != [] && o == Reduce(key, vs, flags, repeats, cutoff)
    ensures f in o.flags <==>
            f in flags || (f == Duplicate && repeats) || ((f == Incomplete || f == MissingInterval) && !o.complete)
  {
  }

  lemma FlagsMeaning(ck: Checker, h: seq<Bar>, o: Bar, vs: seq<Bar>, flags: set<Flag>, repeats: bool, cutoff: Instant)
    requires vs != [] && o == Reduce(KeyOf(o), vs, flags, repeats, cutoff) && flags == UnionFlags(Group(ck, h, KeyOf(o)))
    requires repeats <==> SharesMinute(ck, h, o)
    ensures HasFlags(ck, h, o)
  {
    forall f
      ensures f in o.flags <==>
              || (exists b :: b in h && IsFiled(ck, b, o) && f in b.flags)
              || (f == Duplicate && SharesMinute(ck, h, o))
              || ((f == Incomplete || f == MissingInterval) && !o.complete)
    {
      ReducedFlags(KeyOf(o), vs, flags, repeats, cutoff, o, f);
      UnionMeaning(ck, h, o, f);
    }
  }

  lemma WholeMeaning(ck: Checker, h: seq<Bar>, o: Bar, vs: seq<Bar>, cutoff: Instant)
    requires AllJudged(ck, h) && IsMinutes(ck, h, o, vs)
    ensures Completed(KeyOf(o), vs, cutoff) <==> IsWhole(vs, o.start, cutoff)
  {
    forall v | v in vs
      ensures v.start in Expected(o.start)
    {
      assert CameFirst(ck, h, o, v);
      FiledMeaning(ck, v, o);
      BucketHoldsMinute(ck, v, KeyOf(o));
    }
    if Completed(KeyOf(o), vs, cutoff) {
      CompletedIsWhole(KeyOf(o), vs, cutoff);
    }
    if IsWhole(vs, o.start, cutoff) {
      WholeIsCompleted(KeyOf(o), vs, cutoff);
    }
  }

  lemma ReducedFields(key: Key, vs: seq<Bar>, flags: set<Flag>, repeats: bool, cutoff: Instant, o: Bar)
    requires vs != [] && o == Reduce(key, vs, flags, repeats, cutoff)
    ensures o.minutes == 5 && o.end == o.start + 5 * MINUTE && (o.complete <==> Completed(key, vs, cutoff))
  {
  }

  lemma ReducedMeaning(ck: Checker, h: seq<Bar>, cutoff: Instant, o: Bar, vs: seq<Bar>, flags: set<Flag>, repeats: bool)
    requires AllJudged(ck, h) && IsMinutes(ck, h, o, vs) && o == Reduce(KeyOf(o), vs, flags, repeats, cutoff)
    requires flags == UnionFlags(Group(ck, h, KeyOf(o))) && (repeats <==> SharesMinute(ck, h, o))
    ensures IsCanonical(ck, h, cutoff, o, vs)
  {
    WholeMeaning(ck, h, o, vs, cutoff);
    FiguresMeaning(KeyOf(o), vs, flags, repeats, cutoff);
    FlagsMeaning(ck, h, o, vs, flags, repeats, cutoff);
    ReducedFields(KeyOf(o), vs, flags, repeats, cutoff, o);
  }

  lemma GroupedMeaning(ck: Checker, h: seq<Bar>, cutoff: Instant, o: Bar, g: seq<Bar>, vs: seq<Bar>, repeats: bool)
    requires AllJudged(ck, h) && g == Group(ck, h, KeyOf(o)) && g != [] && vs == Values(ck, g) && vs != []
    requires repeats == (|vs| != |g|) && o == Reduce(KeyOf(o), vs, UnionFlags(g), repeats, cutoff)
    ensures HasMeaning(ck, h, cutoff, o)
  {
    ValuesMeaning(ck, h, o);
    LongerIffRepeats(ck, g);
    RepeatsInGroup(ck, h, o);
    ReducedMeaning(ck, h, cutoff, o, vs, UnionFlags(g), repeats);
  }

  lemma WindowMeaning(ck: Checker, h: seq<Bar>, cutoff: Instant, o: Bar)
    requires AllJudged(ck, h) && IsWindow(ck, h, cutoff, o)
    ensures HasMeaning(ck, h, cutoff, o)
  {
    var g := Group(ck, h, KeyOf(o));
    ValuesNonempty(ck, g);
    var vs := Values(ck, g);
    GroupedMeaning(ck, h, cutoff, o, g, vs, |vs| != |g|);
  }

  /**
   The output, bar by bar: each window with a filed bar once, in order, with figures and flags of what is filed
   under it.
   */
  lemma OutputMeaning(ck: Checker, bars: seq<Bar>, cutoff: Instant, out: seq<Bar>)
    requires OneMinute(bars) && IsAggregate(ck, CheckedHistory(ck, bars, cutoff), cutoff, out)
    ensures InOrder(out)
    ensures forall o :: o in out ==> HasMeaning(ck, CheckedHistory(ck, bars, cutoff), cutoff, o)
    ensures CoversFiled(ck, CheckedHistory(ck, bars, cutoff), out)
  {
    var h := CheckedHistory(ck, bars, cutoff);
    var full := HistoryAt(ck, bars, cutoff);
    forall o | o in out
      ensures HasMeaning(ck, h, cutoff, o)
    {
      assert IsWindow(ck, h, cutoff, o);
      WindowMeaning(ck, h, cutoff, o);
    }
    forall b | b in h && ck.cal(b.start).Some? && OutOfSession !in b.flags && Misaligned !in b.flags
      ensures exists o :: o in out && IsFiled(ck, b, o)
    {
      assert HasWindow(out, BucketOf(ck, b).value);
      var o :| o in out && KeyOf(o) == BucketOf(ck, b).value;
      FiledMeaning(ck, b, o);
    }
    OrderMeaning(out);
  }

  lemma OrderMeaning(out: seq<Bar>)
    requires KeysAscend(out)
    ensures InOrder(out)
  {
  }
}
