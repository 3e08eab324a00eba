/**
 The reduction of one-minute bars to five-minute bars at an availability cutoff: earlier arrivals win,
 later ones can only add flags, and nothing from the future matters.
 */
module Aggregation {
  import opened Prelude
  import opened Sorting
  import opened Bars

  const WINDOW: int := 5 * MINUTE

  predicate ReceiptBefore(a: Bar, b: Bar) {
    a.receivedAt < b.receivedAt || (a.receivedAt == b.receivedAt && a.start <= b.start)
  }

  lemma ReceiptBeforeIsOrder()
    ensures TotalPreorder(ReceiptBefore)
  {
  }

  ghost predicate OneMinute(bars: seq<Bar>) {
    forall b :: b in bars ==> b.minutes == 1 && b.Valid()
  }

  /** The bars available at a cutoff, in their order. */
  function Live(bars: seq<Bar>, cutoff: Instant): (r: seq<Bar>)
    ensures forall b :: b in r <==> b in bars && Available(b, cutoff)
  {
    if bars == [] then []
    else
      var n := |bars| - 1;
      assert bars == bars[..n] + [bars[n]];
      if Available(bars[n], cutoff) then Live(bars[..n], cutoff) + [bars[n]] else Live(bars[..n], cutoff)
  }

  lemma LiveStep(bars: seq<Bar>, b: Bar, cutoff: Instant)
    ensures Live(bars + [b], cutoff) == if Available(b, cutoff) then Live(bars, cutoff) + [b] else Live(bars, cutoff)
  {
    assert (bars + [b])[..|bars|] == bars;
  }

  /** Checks each bar against those checked before it. */
  function CheckAll(ck: Checker, bars: seq<Bar>): (r: seq<Bar>)
    requires forall b :: b in bars ==> b.minutes > 0
    ensures |r| == |bars|
  {
    if bars == [] then []
    else
      var n := |bars| - 1;
      var before := CheckAll(ck, bars[..n]);
      before + [Check(ck, bars[n], PreviousOf(before, bars[n]))]
  }

  lemma {:induction false} CheckedBars(ck: Checker, bars: seq<Bar>, i: nat)
    requires forall b :: b in bars ==> b.minutes > 0
    requires i < |bars|
    ensures Bare(CheckAll(ck, bars)[i]) == Bare(bars[i])
    ensures bars[i].flags <= CheckAll(ck, bars)[i].flags
  {
    if i < |bars| - 1 {
      CheckedBars(ck, bars[..|bars| - 1], i);
    }
  }

  lemma {:induction false} LiveKeepsPrevious(history: seq<Bar>, b: Bar, cutoff: Instant)
    requires forall h :: h in history && Precedes(h, b) ==> Available(h, cutoff)
    ensures PreviousOf(Live(history, cutoff), b) == PreviousOf(history, b)
  {
    if history != [] {
      var n := |history| - 1;
      LiveKeepsPrevious(history[..n], b, cutoff);
      assert history == history[..n] + [history[n]];
      var l := Live(history[..n], cutoff);
      assert (l + [history[n]])[..|l|] == l;
    }
  }

  /** A bar received no later, ending before an available bar starts, is available. */
  lemma PredecessorsAvailable(ck: Checker, before: seq<Bar>, b: Bar, cutoff: Instant)
    requires OneMinute(before) && b.minutes == 1 && b.Valid() && Available(b, cutoff)
    requires forall x :: x in before ==> x.receivedAt <= b.receivedAt
    ensures forall h :: h in CheckAll(ck, before) && Precedes(h, b) ==> Available(h, cutoff)
  {
    var done := CheckAll(ck, before);
    forall h | h in done && Precedes(h, b)
      ensures Available(h, cutoff)
    {
      var i :| 0 <= i < |done| && done[i] == h;
      CheckedBars(ck, before, i);
      assert h.receivedAt == Bare(h).receivedAt == Bare(before[i]).receivedAt == before[i].receivedAt;
      assert before[i] in before;
    }
  }

  /**
   Checks are causal: checking what is available gives the available part of the checked history,
   because an earlier receipt that ends before a bar starts is itself available.
   */
  lemma {:induction false} ChecksAreCausal(ck: Checker, bars: seq<Bar>, cutoff: Instant)
    requires OneMinute(bars) && Sorted(bars, ReceiptBefore)
    ensures CheckAll(ck, Live(bars, cutoff)) == Live(CheckAll(ck, bars), cutoff)
  {
    if bars != [] {
      var n := |bars| - 1;
      var before, b := bars[..n], bars[n];
      assert bars == before + [b];
      ChecksAreCausal(ck, before, cutoff);
      assert forall i :: 0 <= i < n ==> ReceiptBefore(bars[i], b);
      CausalStep(ck, before, b, cutoff);
    }
  }

  lemma CausalStep(ck: Checker, before: seq<Bar>, b: Bar, cutoff: Instant)
    requires OneMinute(before) && b.minutes == 1 && b.Valid()
    requires forall x :: x in before ==> x.receivedAt <= b.receivedAt
    requires CheckAll(ck, Live(before, cutoff)) == Live(CheckAll(ck, before), cutoff)
    ensures OneMinute(before + [b])
    ensures CheckAll(ck, Live(before + [b], cutoff)) == Live(CheckAll(ck, before + [b]), cutoff)
  {
    var done := CheckAll(ck, before);
    var checked := Check(ck, b, PreviousOf(done, b));
    CheckAllStep(ck, before, b);
    LiveStep(done, checked, cutoff);
    LiveStep(before, b, cutoff);
    if Available(b, cutoff) {
      PredecessorsAvailable(ck, before, b, cutoff);
      LiveKeepsPrevious(done, b, cutoff);
      CheckAllStep(ck, Live(before, cutoff), b);
    }
  }

  lemma CheckAllStep(ck: Checker, bars: seq<Bar>, b: Bar)
    requires b.minutes > 0 && forall x :: x in bars ==> x.minutes > 0
    ensures CheckAll(ck, bars + [b]) == CheckAll(ck, bars) + [Check(ck, b, PreviousOf(CheckAll(ck, bars), b))]
  {
    assert (bars + [b])[..|bars|] == bars;
  }

  lemma {:induction false} LiveInsert(b: Bar, bars: seq<Bar>, cutoff: Instant)
    requires Sorted(bars, ReceiptBefore)
    ensures Live(Insert(b, bars, ReceiptBefore), cutoff) ==
            if Available(b, cutoff) then Insert(b, Live(bars, cutoff), ReceiptBefore) else Live(bars, cutoff)
  {
    if bars == [] || ReceiptBefore(b, bars[0]) {
      LivePrepend(b, bars, cutoff);
      InsertInFront(b, Live(bars, cutoff), bars);
    } else {
      var first, rest := bars[0], bars[1..];
      assert bars == [first] + rest;
      LiveInsert(b, rest, cutoff);
      LivePrepend(first, Insert(b, rest, ReceiptBefore), cutoff);
      LivePrepend(first, rest, cutoff);
      if Available(first, cutoff) {
        InsertBehind(b, first, Live(rest, cutoff));
      } else {
        assert [] + Live(rest, cutoff) == Live(rest, cutoff);
      }
    }
  }

  lemma InsertBehind(b: Bar, first: Bar, rest: seq<Bar>)
    requires !ReceiptBefore(b, first)
    ensures Insert(b, [first] + rest, ReceiptBefore) == [first] + Insert(b, rest, ReceiptBefore)
  {
    assert ([first] + rest)[1..] == rest;
  }

  lemma {:induction false} LivePrepend(b: Bar, bars: seq<Bar>, cutoff: Instant)
    ensures Live([b] + bars, cutoff) == (if Available(b, cutoff) then [b] else []) + Live(bars, cutoff)
  {
    if bars == [] {
      assert [b] + bars == [b] && [b][..0] == [];
    } else {
      var n := |bars| - 1;
      LivePrepend(b, bars[..n], cutoff);
      assert ([b] + bars)[..n + 1] == [b] + bars[..n];
    }
  }

  lemma InsertInFront(b: Bar, part: seq<Bar>, bars: seq<Bar>)
    requires Sorted(bars, ReceiptBefore) && (bars == [] || ReceiptBefore(b, bars[0])) && forall x :: x in part ==> x in bars
    ensures Insert(b, part, ReceiptBefore) == [b] + part
  {
    if part != [] {
      assert part[0] in bars;
      var i :| 0 <= i < |bars| && bars[i] == part[0];
      assert i > 0 ==> ReceiptBefore(bars[0], bars[i]);
    }
  }

  /** Sorting and dropping unavailable bars commute. */
  lemma {:induction false} LiveOfSorted(bars: seq<Bar>, cutoff: Instant)
    ensures Live(Sort(bars, ReceiptBefore), cutoff) == Sort(Live(bars, cutoff), ReceiptBefore)
  {
    if bars != [] {
      var first, rest := bars[0], bars[1..];
      assert bars == [first] + rest;
      ReceiptBeforeIsOrder();
      SortSorts(rest, ReceiptBefore);
      LiveOfSorted(rest, cutoff);
      LiveInsert(first, Sort(rest, ReceiptBefore), cutoff);
      LivePrepend(first, rest, cutoff);
      if Available(first, cutoff) {
        SortPrepend(first, Live(rest, cutoff));
      } else {
        assert [] + Live(rest, cutoff) == Live(rest, cutoff);
      }
    }
  }

  lemma SortPrepend(first: Bar, rest: seq<Bar>)
    ensures Sort([first] + rest, ReceiptBefore) == Insert(first, Sort(rest, ReceiptBefore), ReceiptBefore)
  {
    assert ([first] + rest)[1..] == rest;
  }

  datatype Key = Key(instrument: Id, source: Id, start: Instant)

  predicate KeyBefore(a: Key, b: Key) {
    || a.instrument < b.instrument
    || (a.instrument == b.instrument && a.source < b.source)
    || (a.instrument == b.instrument && a.source == b.source && a.start <= b.start)
  }

  lemma KeyBeforeIsOrder()
    ensures TotalPreorder(KeyBefore)
  {
  }

  /** The window a checked bar belongs to, if it is in session and aligned. */
  function BucketOf(ck: Checker, b: Bar): Option<Key> {
    var bounds := ck.cal(b.start);
    if bounds.None? || OutOfSession in b.flags || Misaligned in b.flags then None
    else Some(Key(b.instrument, b.source, bounds.value.0 + WINDOW * ((b.start - bounds.value.0) / WINDOW)))
  }

  function Group(ck: Checker, checked: seq<Bar>, key: Key): (g: seq<Bar>)
    ensures forall b :: b in g <==> b in checked && BucketOf(ck, b) == Some(key)
  {
    if checked == [] then []
    else
      var n := |checked| - 1;
      assert checked == checked[..n] + [checked[n]];
      if BucketOf(ck, checked[n]) == Some(key) then Group(ck, checked[..n], key) + [checked[n]] else Group(ck, checked[..n], key)
  }

  /** Earlier minute first, then earlier receipt, then by serialised form. */
  predicate Earlier(ck: Checker, a: Bar, b: Bar) {
    || a.start < b.start
    || (a.start == b.start && a.receivedAt < b.receivedAt)
    || (a.start == b.start && a.receivedAt == b.receivedAt && ck.text(a) <= ck.text(b))
  }

  function MinuteBefore(ck: Checker): (Bar, Bar) -> bool {
    (a: Bar, b: Bar) => Earlier(ck, a, b)
  }

  lemma MinuteBeforeIsOrder(ck: Checker)
    ensures TotalPreorder(MinuteBefore(ck))
  {
  }

  /** The first bar of each minute of a list in order. */
  function FirstPerMinute(ordered: seq<Bar>): seq<Bar> {
    if ordered == [] then []
    else
      var before, b := FirstPerMinute(ordered[..|ordered| - 1]), ordered[|ordered| - 1];
      if before != [] && before[|before| - 1].start == b.start then before else before + [b]
  }

  /** One bar per minute of a window: the earliest received. */
  function Values(ck: Checker, g: seq<Bar>): seq<Bar> {
    FirstPerMinute(Sort(g, MinuteBefore(ck)))
  }

  ghost predicate AscendingStarts(vs: seq<Bar>) {
    forall i, j :: 0 <= i < j < |vs| ==> vs[i].start < vs[j].start
  }

  /** `v` is the bar of its minute that arrived first. */
  ghost predicate Least(ck: Checker, g: seq<Bar>, v: Bar) {
    v in g && forall b :: b in g && b.start == v.start ==> Earlier(ck, v, b)
  }

  ghost predicate HasStart(vs: seq<Bar>, start: Instant) {
    exists v :: v in vs && v.start == start
  }

  /** What makes a list the values of a window, told without sorting. */
  ghost predicate IsValues(ck: Checker, g: seq<Bar>, vs: seq<Bar>) {
    && AscendingStarts(vs)
    && (forall v :: v in vs ==> Least(ck, g, v))
    && (forall b :: b in g ==> HasStart(vs, b.start))
  }

  ghost predicate EndsWith(vs: seq<Bar>, start: Instant) {
    vs != [] && vs[|vs| - 1].start == start
  }

  lemma {:induction false} FirstPerMinuteFacts(ck: Checker, ordered: seq<Bar>)
    requires Sorted(ordered, MinuteBefore(ck))
    ensures IsValues(ck, ordered, FirstPerMinute(ordered))
    ensures ordered != [] ==> EndsWith(FirstPerMinute(ordered), ordered[|ordered| - 1].start)
  {
    if ordered != [] {
      var n := |ordered| - 1;
      var before, b := ordered[..n], ordered[n];
      assert ordered == before + [b];
      SortedLast(ck, before, b);
      FirstPerMinuteFacts(ck, before);
      AddLast(ck, before, FirstPerMinute(before), b);
      FirstPerMinuteStep(before, b);
    }
  }

  lemma SortedLast(ck: Checker, before: seq<Bar>, b: Bar)
    requires Sorted(before + [b], MinuteBefore(ck))
    ensures Sorted(before, MinuteBefore(ck)) && forall x :: x in before ==> Earlier(ck, x, b)
  {
    var all := before + [b];
    forall i, j | 0 <= i < j < |before|
      ensures MinuteBefore(ck)(before[i], before[j])
    {
      assert MinuteBefore(ck)(all[i], all[j]);
    }
    forall x | x in before
      ensures Earlier(ck, x, b)
    {
      var i :| 0 <= i < |before| && before[i] == x;
      assert MinuteBefore(ck)(all[i], all[|before|]);
    }
  }

  lemma FirstPerMinuteStep(before: seq<Bar>, b: Bar)
    ensures var vs := FirstPerMinute(before);
            FirstPerMinute(before + [b]) == if EndsWith(vs, b.start) then vs else vs + [b]
  {
    assert (before + [b])[..|before|] == before;
  }

  /** Adding a bar that comes after all others, to a list and to its values. */
  lemma AddLast(ck: Checker, g: seq<Bar>, vs: seq<Bar>, b: Bar)
    requires IsValues(ck, g, vs) && forall x :: x in g ==> Earlier(ck, x, b)
    requires g != [] ==> EndsWith(vs, g[|g| - 1].start)
    ensures var ws := if EndsWith(vs, b.start) then vs else vs + [b];
            IsValues(ck, g + [b], ws) && EndsWith(ws, b.start)
  {
    forall v | v in vs
      ensures Least(ck, g + [b], v)
    {
      assert Least(ck, g, v);
    }
    if EndsWith(vs, b.start) {
      assert vs[|vs| - 1] in vs;
      assert forall x :: x in g + [b] ==> x in g || x == b;
    } else {
      forall i | 0 <= i < |vs|
        ensures vs[i].start < b.start
      {
        LastBound(ck, g, vs, b, i);
      }
      NewMinute(ck, g, vs, b);
    }
  }

  lemma LastBound(ck: Checker, g: seq<Bar>, vs: seq<Bar>, b: Bar, i: nat)
    requires IsValues(ck, g, vs) && (forall x :: x in g ==> Earlier(ck, x, b)) && i < |vs| && !EndsWith(vs, b.start)
    ensures vs[i].start < b.start
  {
    var n := |vs| - 1;
    assert vs[n] in vs && Least(ck, g, vs[n]);
    assert Earlier(ck, vs[n], b);
    assert i < n ==> vs[i].start < vs[n].start;
  }

  lemma NewMinute(ck: Checker, g: seq<Bar>, vs: seq<Bar>, b: Bar)
    requires IsValues(ck, g, vs) && forall i :: 0 <= i < |vs| ==> vs[i].start < b.start
    requires forall v :: v in vs ==> Least(ck, g + [b], v)
    ensures IsValues(ck, g + [b], vs + [b])
  {
    var ws := vs + [b];
    forall x | x in g
      ensures x.start < b.start
    {
      assert HasStart(vs, x.start);
      var v :| v in vs && v.start == x.start;
      var i :| 0 <= i < |vs| && vs[i] == v;
    }
    assert Least(ck, g + [b], b);
    forall x | x in g + [b]
      ensures HasStart(ws, x.start)
    {
      if x in g {
        var v :| v in vs && v.start == x.start;
        assert v in ws;
      } else {
        assert b in ws;
      }
    }
  }

  lemma ValuesAreValues(ck: Checker, g: seq<Bar>)
    ensures IsValues(ck, g, Values(ck, g))
  {
    MinuteBeforeIsOrder(ck);
    SortSorts(g, MinuteBefore(ck));
    SortMembers(g, MinuteBefore(ck));
    FirstPerMinuteFacts(ck, Sort(g, MinuteBefore(ck)));
  }

  predicate StartsBefore(a: Bar, b: Bar) {
    a.start <= b.start
  }

  lemma ValuesUnique(ck: Checker, g: seq<Bar>, vs: seq<Bar>, ws: seq<Bar>)
    requires TextDistinguishes(ck) && IsValues(ck, g, vs) && IsValues(ck, g, ws)
    ensures vs == ws
  {
    forall v
      ensures v in vs <==> v in ws
    {
      if v in vs {
        SameWinner(ck, g, vs, ws, v);
      }
      if v in ws {
        SameWinner(ck, g, ws, vs, v);
      }
    }
    AscendingFacts(vs);
    AscendingFacts(ws);
    DistinctSameMembers(vs, ws);
    SortedUnique(vs, ws, StartsBefore);
  }

  lemma SameWinner(ck: Checker, g: seq<Bar>, vs: seq<Bar>, ws: seq<Bar>, v: Bar)
    requires TextDistinguishes(ck) && IsValues(ck, g, vs) && IsValues(ck, g, ws) && v in vs
    ensures v in ws
  {
    assert Least(ck, g, v) && HasStart(ws, v.start);
    var w :| w in ws && w.start == v.start;
    assert Least(ck, g, w);
    EarlierAntisymmetric(ck, v, w);
  }

  lemma EarlierAntisymmetric(ck: Checker, a: Bar, b: Bar)
    requires TextDistinguishes(ck) && Earlier(ck, a, b) && Earlier(ck, b, a)
    ensures a == b
  {
    assert ck.text(a) == ck.text(b);
  }

  lemma AscendingFacts(vs: seq<Bar>)
    requires AscendingStarts(vs)
    ensures Distinct(vs) && Sorted(vs, StartsBefore)
    ensures forall x, y :: x in vs && y in vs && StartsBefore(x, y) && StartsBefore(y, x) ==> x == y
  {
  }
}
