/**
 A bar that starts inside a window off the minute is left out of the aggregate but not of the health check: a
 window can be ready and yet UNHEALTHY.
 */
module Strays {
  import opened Prelude
  import opened Sorting
  import opened Bars
  import opened Aggregation
  import opened Windows
  import opened Causality
  import opened Service
  import opened Readiness
  import opened OutOfOrder

  /** A bar at the price of the window that starts thirty seconds into its first minute, as the store flags it. */
  function OffMinute(q: real): Bar {
    Minute(5, 2.0 * q, 20 * MINUTE).(start := 5 * MINUTE + 30 * SECOND, end := 6 * MINUTE + 30 * SECOND, flags := {Misaligned})
  }

  function StoreWithStray(q: real): seq<Bar> {
    [WindowBars(q)[0]] + [OffMinute(q)] + WindowBars(q)[1..]
  }

  lemma StrayFindings(q: real, p: Option<Bar>)
    requires q > 0.0 && (p.Some? ==> p.value.close == 2.0 * q && p.value.volume == 1.0)
    ensures Findings(OneSession(), OffMinute(q), p) == {Misaligned}
  {
    var b := OffMinute(q);
    assert PriceFlags(b) == {};
    assert SessionFlags(OneSession(), b) == {Misaligned};
    assert p.Some? ==> b.open / p.value.close == 1.0;
    assert HistoryFlags(OneSession(), b, p) == {};
  }

  lemma StrayStored(q: real)
    requires q > 0.0
    ensures WellStored(OneSession(), StoreWithStray(q))
  {
    var ck, bars := OneSession(), StoreWithStray(q);
    forall i | 0 <= i < |bars|
      ensures StoredAt(ck, bars, i)
    {
      StrayStoredAt(q, i, PreviousOf(bars[..i], bars[i]));
    }
  }

  lemma StrayInOrder(q: real)
    ensures AllAvailable(StoreWithStray(q), 20 * MINUTE) && Sorted(StoreWithStray(q), ReceiptBefore)
  {
  }

  lemma StrayStoredAt(q: real, i: nat, p: Option<Bar>)
    requires q > 0.0 && i < 6 && p == PreviousOf(StoreWithStray(q)[..i], StoreWithStray(q)[i])
    ensures Findings(OneSession(), StoreWithStray(q)[i], p) == if i == 1 then {Misaligned} else {}
  {
    var bars := StoreWithStray(q);
    assert AtPrice(bars[..i], 2.0 * q);
    PreviousAtPrice(bars[..i], bars[i], 2.0 * q);
    if i == 1 {
      StrayFindings(q, p);
    } else {
      NothingFound(bars[i], if i == 0 then 5 else i + 4, 2.0 * q, 20 * MINUTE, p);
    }
  }

  lemma {:induction false} GroupKeepsDistinct(ck: Checker, bars: seq<Bar>, key: Key)
    requires DistinctStarts(bars)
    ensures DistinctStarts(Group(ck, bars, key))
  {
    if bars != [] {
      var before, b := bars[..|bars| - 1], bars[|bars| - 1];
      assert bars == before + [b];
      GroupKeepsDistinct(ck, before, key);
      forall x | x in Group(ck, before, key)
        ensures x.start != b.start
      {
        var i :| 0 <= i < |before| && before[i] == x;
        assert bars[i] == x;
      }
    }
  }

  /** A store in receipt order whose window has five good bars and, off the minute, a stray. */
  ghost predicate FiveAndAStray(ck: Checker, bars: seq<Bar>, now: Instant, key: Key) {
    && WellStored(ck, bars) && AllAvailable(bars, now) && Sorted(bars, ReceiptBefore)
    && SessionWindow(ck, key.start) && key.start + WINDOW <= now && DistinctStarts(bars)
    && (forall b :: b in bars && InBucket(b, key) && !Stray(b) ==> b.flags == {})
    && (forall t :: t in Expected(key.start) ==> HasGoodBar(bars, key, t))
    && !NoStrays(bars, key)
  }

  ghost predicate HasGoodBar(bars: seq<Bar>, key: Key, t: Instant) {
    exists b :: b in bars && InBucket(b, key) && !Stray(b) && b.start == t
  }

  lemma GoodGroup(ck: Checker, bars: seq<Bar>, now: Instant, key: Key, g: seq<Bar>)
    requires FiveAndAStray(ck, bars, now, key) && AllJudged(ck, bars) && g == Group(ck, bars, key)
    ensures SoundGroup(g, key, now)
  {
    forall b | b in g
      ensures Clean(b, now) && b.start in Expected(key.start)
    {
      assert Judged(ck, b);
      FiledIffInBucket(ck, b, key);
      BucketHoldsMinute(ck, b, key);
      UnflaggedIsClean(ck, bars, now, b);
    }
    GroupKeepsDistinct(ck, bars, key);
    forall t | t in Expected(key.start)
      ensures HasStart(g, t)
    {
      assert HasGoodBar(bars, key, t);
      var b :| b in bars && InBucket(b, key) && !Stray(b) && b.start == t;
      assert Judged(ck, b);
      FiledIffInBucket(ck, b, key);
    }
  }

  /** Such a window is ready and not healthy. */
  lemma StrayWindowIsReady(ck: Checker, bars: seq<Bar>, now: Instant, key: Key, out: seq<Bar>)
    requires FiveAndAStray(ck, bars, now, key) && OneMinute(bars)
    requires IsAggregate(ck, CheckedHistory(ck, bars, now), now, out)
    ensures HasReadyBar(out, now, key) && !HealthyBucket(ck, bars, now, key)
  {
    StoreIsHistory(ck, bars, now);
    var g := Group(ck, bars, key);
    GoodGroup(ck, bars, now, key, g);
    SoundGroupIsReady(ck, key, g, now);
    var o := FiledWindow(ck, bars, now, key, out);
    if HealthyBucket(ck, bars, now, key) {
      HealthyHasNoStrays(ck, bars, now, key);
    }
  }

  lemma StrayStarts(q: real, t: Instant)
    requires t in Expected(5 * MINUTE)
    ensures HasGoodBar(StoreWithStray(q), Key(1, 1, 5 * MINUTE), t)
  {
    var bars, key := StoreWithStray(q), Key(1, 1, 5 * MINUTE);
    var k := (t - key.start) / MINUTE;
    assert 0 <= k < 5 && t == key.start + k * MINUTE;
    var b := bars[if k == 0 then 0 else k + 1];
    assert b in bars && InBucket(b, key) && !Stray(b) && b.start == t;
  }

  lemma StrayFlags(q: real)
    ensures DistinctStarts(StoreWithStray(q)) && !NoStrays(StoreWithStray(q), Key(1, 1, 5 * MINUTE))
    ensures forall b :: b in StoreWithStray(q) && !Stray(b) ==> b.flags == {}
  {
    var bars, key := StoreWithStray(q), Key(1, 1, 5 * MINUTE);
    assert bars[1] in bars && InBucket(bars[1], key) && Stray(bars[1]);
  }

  lemma StrayScene(q: real)
    requires q > 0.0
    ensures FiveAndAStray(OneSession(), StoreWithStray(q), 20 * MINUTE, Key(1, 1, 5 * MINUTE))
  {
    StrayStored(q);
    StrayInOrder(q);
    FirstWindow();
    StrayFlags(q);
    forall t | t in Expected(5 * MINUTE)
      ensures HasGoodBar(StoreWithStray(q), Key(1, 1, 5 * MINUTE), t)
    {
      StrayStarts(q, t);
    }
  }

  /** At any price there is a store with a window that is ready, not healthy, and in receipt order. */
  lemma ReadyButNotHealthy(q: real, ck: Checker, bars: seq<Bar>, now: Instant, key: Key, out: seq<Bar>)
    requires q > 0.0 && ck == OneSession() && bars == StoreWithStray(q) && now == 20 * MINUTE && key == Key(1, 1, 5 * MINUTE)
    requires OneMinute(bars) && IsAggregate(ck, CheckedHistory(ck, bars, now), now, out)
    ensures FiveAndAStray(ck, bars, now, key) && HasReadyBar(out, now, key) && !HealthyBucket(ck, bars, now, key)
  {
    StrayScene(q);
    StrayWindowIsReady(ck, bars, now, key, out);
  }
}
