/** Five-minute windows: how a group of checked bars becomes one bar, and the aggregate as a whole. */
module Windows {
  import opened Prelude
  import opened Sorting
  import opened Bars
  import opened Aggregation

  function MaxHigh(vs: seq<Bar>): real
    requires vs != []
  {
    if |vs| == 1 then vs[0].high else MaxReal(MaxHigh(vs[..|vs| - 1]), vs[|vs| - 1].high)
  }

  function MinLow(vs: seq<Bar>): real
    requires vs != []
  {
    if |vs| == 1 then vs[0].low else MinReal(MinLow(vs[..|vs| - 1]), vs[|vs| - 1].low)
  }

  function SumVolume(vs: seq<Bar>): real {
    if vs == [] then 0.0 else SumVolume(vs[..|vs| - 1]) + vs[|vs| - 1].volume
  }

  function LastReceipt(vs: seq<Bar>): Instant
    requires vs != []
  {
    if |vs| == 1 then vs[0].receivedAt else Max(LastReceipt(vs[..|vs| - 1]), vs[|vs| - 1].receivedAt)
  }

  function UnionFlags(bs: seq<Bar>): (f: set<Flag>)
    ensures forall x :: x in f <==> exists b :: b in bs && x in b.flags
  {
    if bs == [] then {}
    else
      assert bs == bs[..|bs| - 1] + [bs[|bs| - 1]];
      UnionFlags(bs[..|bs| - 1]) + bs[|bs| - 1].flags
  }

  function Expected(start: Instant): set<Instant> {
    {start, start + MINUTE, start + 2 * MINUTE, start + 3 * MINUTE, start + 4 * MINUTE}
  }

  function StartsOf(vs: seq<Bar>): set<Instant> {
    set v | v in vs :: v.start
  }

  predicate Completed(key: Key, vs: seq<Bar>, cutoff: Instant) {
    StartsOf(vs) == Expected(key.start) && key.start + WINDOW <= cutoff && forall v :: v in vs ==> v.complete
  }

  /** The bar of a window from its values, with the flags of the whole group. */
  function Reduce(key: Key, vs: seq<Bar>, flags: set<Flag>, repeats: bool, cutoff: Instant): Bar
    requires vs != []
  {
    var complete := Completed(key, vs, cutoff);
    Bar(key.instrument, key.source, LastReceipt(vs),
        flags + (if repeats then {Duplicate} else {}) + (if complete then {} else {Incomplete, MissingInterval}),
        vs[0].feed, key.start, key.start + WINDOW, 5, vs[0].open, MaxHigh(vs), MinLow(vs), vs[|vs| - 1].close, SumVolume(vs), complete)
  }

  lemma ValuesNonempty(ck: Checker, g: seq<Bar>)
    requires g != []
    ensures Values(ck, g) != []
  {
    ValuesAreValues(ck, g);
    assert g[0] in g;
    assert HasStart(Values(ck, g), g[0].start);
  }

  function Five(ck: Checker, key: Key, g: seq<Bar>, cutoff: Instant): Bar
    requires g != []
  {
    ValuesNonempty(ck, g);
    Reduce(key, Values(ck, g), UnionFlags(g), |Values(ck, g)| != |g|, cutoff)
  }

  function KeyOf(o: Bar): Key {
    Key(o.instrument, o.source, o.start)
  }

  ghost predicate KeysAscend(out: seq<Bar>) {
    forall i, j :: 0 <= i < j < |out| ==> KeyBefore(KeyOf(out[i]), KeyOf(out[j])) && KeyOf(out[i]) != KeyOf(out[j])
  }

  /** `o` is the bar of its own window. */
  ghost predicate IsWindow(ck: Checker, checked: seq<Bar>, cutoff: Instant, o: Bar) {
    var g := Group(ck, checked, KeyOf(o));
    g != [] && o == Five(ck, KeyOf(o), g, cutoff)
  }

  ghost predicate HasWindow(out: seq<Bar>, key: Key) {
    exists o :: o in out && KeyOf(o) == key
  }

  /** The aggregate of a checked history: one bar for each window with a bar in it, in key order. */
  ghost predicate IsAggregate(ck: Checker, checked: seq<Bar>, cutoff: Instant, out: seq<Bar>) {
    && KeysAscend(out)
    && (forall o :: o in out ==> IsWindow(ck, checked, cutoff, o))
    && (forall b :: b in checked && BucketOf(ck, b).Some? ==> HasWindow(out, BucketOf(ck, b).value))
  }

  /** The history as the aggregator sees it at a cutoff. */
  function CheckedHistory(ck: Checker, bars: seq<Bar>, cutoff: Instant): seq<Bar>
    requires forall b :: b in bars ==> b.minutes > 0
  {
    SortMembers(bars, ReceiptBefore);
    CheckAll(ck, Live(Sort(bars, ReceiptBefore), cutoff))
  }

  /** `groups` holds every nonempty group of the history, `order` its keys. */
  ghost predicate Grouped(ck: Checker, checked: seq<Bar>, groups: map<Key, seq<Bar>>, order: seq<Key>) {
    && Distinct(order)
    && (forall k :: k in order <==> k in groups)
    && (forall k :: k in groups ==> groups[k] == Group(ck, checked, k) && groups[k] != [])
    && (forall k :: k !in groups ==> Group(ck, checked, k) == [])
  }

  lemma GroupStep(ck: Checker, checked: seq<Bar>, b: Bar, k: Key)
    ensures Group(ck, checked + [b], k) == if BucketOf(ck, b) == Some(k) then Group(ck, checked, k) + [b] else Group(ck, checked, k)
  {
    assert (checked + [b])[..|checked|] == checked;
  }

  /** Files one more checked bar. */
  method AddToGroup(ck: Checker, ghost checked: seq<Bar>, groups: map<Key, seq<Bar>>, order: seq<Key>, b: Bar)
      returns (groups': map<Key, seq<Bar>>, order': seq<Key>)
    requires Grouped(ck, checked, groups, order)
    ensures Grouped(ck, checked + [b], groups', order')
  {
    forall k
      ensures Group(ck, checked + [b], k) == if BucketOf(ck, b) == Some(k) then Group(ck, checked, k) + [b] else Group(ck, checked, k)
    {
      GroupStep(ck, checked, b, k);
    }
    groups', order' := groups, order;
    var bucket := BucketOf(ck, b);
    if bucket.Some? {
      var key := bucket.value;
      if key in groups {
        groups' := groups[key := groups[key] + [b]];
      } else {
        groups' := groups[key := [b]];
        order' := order + [key];
      }
    }
  }

  /** Checks one more available bar and files it. */
  method TakeIn(
      ck: Checker, ghost raw: seq<Bar>, available: seq<Bar>, groups: map<Key, seq<Bar>>, order: seq<Key>, bar: Bar)
      returns (available': seq<Bar>, groups': map<Key, seq<Bar>>, order': seq<Key>)
    requires OneMinute(raw) && bar.minutes == 1 && bar.Valid()
    requires available == CheckAll(ck, raw) && Grouped(ck, available, groups, order)
    ensures OneMinute(raw + [bar])
    ensures available' == CheckAll(ck, raw + [bar]) && Grouped(ck, available', groups', order')
  {
    var previous := FindPrevious(available, bar);
    var checked := Check(ck, bar, previous);
    CheckAllStep(ck, raw, bar);
    groups', order' := AddToGroup(ck, available, groups, order, checked);
    available' := available + [checked];
  }

  ghost predicate AllMinutes(bars: seq<Bar>) {
    forall b :: b in bars ==> b.minutes == 1
  }

  /** Where the pass is after the bars `seen`, of which `raw` are available. */
  ghost predicate Absorbed(
      ck: Checker, seen: seq<Bar>, cutoff: Instant, raw: seq<Bar>, checked: seq<Bar>, groups: map<Key, seq<Bar>>,
      order: seq<Key>)
  {
    && AllMinutes(seen) && raw == Live(seen, cutoff) && OneMinute(raw)
    && checked == CheckAll(ck, raw) && Grouped(ck, checked, groups, order)
  }

  /** Passes over one more bar. */
  method Absorb(
      ck: Checker, ghost seen: seq<Bar>, cutoff: Instant, ghost raw: seq<Bar>, checked: seq<Bar>, groups: map<Key, seq<Bar>>,
      order: seq<Key>, bar: Bar)
      returns (ghost raw': seq<Bar>, checked': seq<Bar>, groups': map<Key, seq<Bar>>, order': seq<Key>)
    requires Absorbed(ck, seen, cutoff, raw, checked, groups, order) && bar.minutes == 1 && bar.Valid()
    ensures Absorbed(ck, seen + [bar], cutoff, raw', checked', groups', order')
    ensures |checked'| == |checked| + if Available(bar, cutoff) then 1 else 0
  {
    LiveStep(seen, bar, cutoff);
    raw', checked', groups', order' := raw, checked, groups, order;
    if Available(bar, cutoff) {
      checked', groups', order' := TakeIn(ck, raw, checked, groups, order, bar);
      raw' := raw + [bar];
    }
  }

  /** Checks and files the available bars of a list in receipt order, unless one is not a one-minute bar. */
  method TakeInAll(ck: Checker, sorted: seq<Bar>, cutoff: Instant)
      returns (ok: bool, ghost available: seq<Bar>, groups: map<Key, seq<Bar>>, order: seq<Key>)
    requires forall b :: b in sorted ==> b.Valid()
    ensures ok <==> AllMinutes(sorted)
    ensures ok ==> available == CheckAll(ck, Live(sorted, cutoff)) && Grouped(ck, available, groups, order)
  {
    var checked: seq<Bar> := [];
    ghost var raw: seq<Bar> := [];
    groups, order, available := map[], [], [];
    for n := 0 to |sorted|
      invariant Absorbed(ck, sorted[..n], cutoff, raw, checked, groups, order)
    {
      var bar := sorted[n];
      assert bar in sorted;
      if bar.minutes != 1 {
        return false, available, groups, order;
      }
      assert sorted[..n + 1] == sorted[..n] + [bar];
      raw, checked, groups, order := Absorb(ck, sorted[..n], cutoff, raw, checked, groups, order, bar);
    }
    assert sorted[..|sorted|] == sorted;
    return true, checked, groups, order;
  }

  /** The aggregator. It refuses any input that is not one-minute, available or not. */
  method Aggregate(ck: Checker, bars: seq<Bar>, cutoff: Instant) returns (r: Result<seq<Bar>, AggregationError>)
    requires forall b :: b in bars ==> b.Valid()
    ensures r.Ok? <==> AllMinutes(bars)
    ensures r.Ok? ==> IsAggregate(ck, CheckedHistory(ck, bars, cutoff), cutoff, r.value)
  {
    SortMembers(bars, ReceiptBefore);
    var ok, checked, groups, order := TakeInAll(ck, Sort(bars, ReceiptBefore), cutoff);
    if !ok {
      return Err(NotOneMinute);
    }
    var result := ReduceAll(ck, checked, groups, order, cutoff);
    return Ok(result);
  }

  datatype AggregationError = NotOneMinute

  /** One bar per group, in key order. */
  method ReduceAll(ck: Checker, ghost checked: seq<Bar>, groups: map<Key, seq<Bar>>, order: seq<Key>, cutoff: Instant)
      returns (result: seq<Bar>)
    requires Grouped(ck, checked, groups, order)
    ensures IsAggregate(ck, checked, cutoff, result)
  {
    var keys := Sort(order, KeyBefore);
    SortedKeys(order);
    result := [];
    for n := 0 to |keys|
      invariant |result| == n
      invariant forall i :: 0 <= i < n ==> KeyOf(result[i]) == keys[i] && IsWindow(ck, checked, cutoff, result[i])
    {
      assert keys[n] in groups;
      result := result + [Five(ck, keys[n], groups[keys[n]], cutoff)];
    }
    EveryWindowReduced(ck, checked, groups, order, keys, result);
  }

  lemma EveryWindowReduced(
      ck: Checker, checked: seq<Bar>, groups: map<Key, seq<Bar>>, order: seq<Key>, keys: seq<Key>, result: seq<Bar>)
    requires Grouped(ck, checked, groups, order) && (forall k :: k in keys <==> k in order)
    requires |result| == |keys| && forall i :: 0 <= i < |keys| ==> KeyOf(result[i]) == keys[i]
    ensures forall b :: b in checked && BucketOf(ck, b).Some? ==> HasWindow(result, BucketOf(ck, b).value)
  {
    forall b | b in checked && BucketOf(ck, b).Some?
      ensures HasWindow(result, BucketOf(ck, b).value)
    {
      var key := BucketOf(ck, b).value;
      assert b in Group(ck, checked, key);
      assert key in groups;
      var i :| 0 <= i < |keys| && keys[i] == key;
      assert result[i] in result;
    }
  }

  lemma SortedKeys(order: seq<Key>)
    requires Distinct(order)
    ensures var keys := Sort(order, KeyBefore);
            && (forall k :: k in keys <==> k in order)
            && forall i, j :: 0 <= i < j < |keys| ==> KeyBefore(keys[i], keys[j]) && keys[i] != keys[j]
  {
    KeyBeforeIsOrder();
    SortSorts(order, KeyBefore);
    SortMembers(order, KeyBefore);
    SortKeepsDistinct(order, KeyBefore);
  }
}
