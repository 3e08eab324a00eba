/** The ingestion service: stored bars, the window health check and the canonical bars. */
module Service {
  import opened Prelude
  import opened Bars
  import opened Flags
  import opened Aggregation
  import opened Windows

  datatype IngestError = NotRaw | Unavailable | StorageRefused

  datatype WindowError = BadWindow | MixedFeeds

  /** Feed and minute of a raw bar. */
  function Slot(b: Bar): Key {
    Key(b.instrument, b.source, b.start)
  }

  /** The flags of a bar on the way into the store. */
  function Admit(ck: Checker, history: seq<Bar>, b: Bar): Bar
    requires b.minutes > 0
  {
    var checked := Check(ck, b, PreviousOf(history, b));
    if exists h :: h in history && Slot(h) == Slot(b) then checked.(flags := checked.flags + {Duplicate}) else checked
  }

  /** A bar of the same feed and minute is there already. */
  ghost predicate Repeats(history: seq<Bar>, b: Bar) {
    exists i :: 0 <= i < |history|
                && history[i].instrument == b.instrument && history[i].source == b.source && history[i].start == b.start
  }

  /** How `b` is stored behind `history`: flagged with what it shows and as a repeat, and otherwise as it came. */
  ghost predicate IsStored(ck: Checker, history: seq<Bar>, b: Bar, c: Bar)
    requires b.minutes > 0
  {
    && c == b.(flags := c.flags)
    && forall f :: f in c.flags <==> f in b.flags || Shows(ck, history, b, f) || (f == Duplicate && Repeats(history, b))
  }

  /** What is stored, flag by flag. */
  lemma AdmitStores(ck: Checker, history: seq<Bar>, b: Bar)
    requires b.minutes > 0
    ensures IsStored(ck, history, b, Admit(ck, history, b))
  {
    CheckedShows(ck, history, b);
    if Repeats(history, b) {
      var i :| 0 <= i < |history|
               && history[i].instrument == b.instrument && history[i].source == b.source && history[i].start == b.start;
      assert history[i] in history && Slot(history[i]) == Slot(b);
    }
  }

  /** Every stored bar has the flags its check found when it came in, and repeats are flagged. */
  ghost predicate StoredAt(ck: Checker, bars: seq<Bar>, i: nat)
    requires i < |bars|
  {
    && bars[i].minutes == 1 && bars[i].Valid()
    && Findings(ck, bars[i], PreviousOf(bars[..i], bars[i])) <= bars[i].flags
    && (forall j :: 0 <= j < i && Slot(bars[j]) == Slot(bars[i]) ==> Duplicate in bars[i].flags)
  }

  ghost predicate WellStored(ck: Checker, bars: seq<Bar>) {
    forall i :: 0 <= i < |bars| ==> StoredAt(ck, bars, i)
  }

  ghost predicate AllAvailable(bars: seq<Bar>, now: Instant) {
    forall b :: b in bars ==> Available(b, now)
  }

  lemma AdmitKeepsStored(ck: Checker, bars: seq<Bar>, b: Bar)
    requires WellStored(ck, bars) && b.minutes == 1 && b.Valid()
    ensures WellStored(ck, bars + [Admit(ck, bars, b)])
  {
    var stored := Admit(ck, bars, b);
    var all := bars + [stored];
    forall i | 0 <= i < |all|
      ensures StoredAt(ck, all, i)
    {
      if i < |bars| {
        assert all[..i] == bars[..i];
        assert StoredAt(ck, bars, i);
      } else {
        assert all[..i] == bars;
        SameFindings(ck, bars, b, stored);
        assert forall j :: 0 <= j < i ==> all[j] == bars[j] && bars[j] in bars;
      }
    }
  }

  lemma SameFindings(ck: Checker, bars: seq<Bar>, b: Bar, c: Bar)
    requires b.minutes > 0 && c == b.(flags := c.flags)
    ensures c.minutes > 0 && PreviousOf(bars, c) == PreviousOf(bars, b)
    ensures Findings(ck, c, PreviousOf(bars, c)) == Findings(ck, b, PreviousOf(bars, b))
  {
    SamePrevious(bars, b, c);
  }

  lemma {:induction false} SamePrevious(bars: seq<Bar>, b: Bar, c: Bar)
    requires c == b.(flags := c.flags)
    ensures PreviousOf(bars, c) == PreviousOf(bars, b)
  {
    if bars != [] {
      SamePrevious(bars[..|bars| - 1], b, c);
    }
  }

  /** A minute of a session that a feed should have a bar for. */
  predicate SessionMinute(ck: Checker, t: Instant) {
    var bounds := ck.cal(t);
    bounds.Some? && bounds.value.0 <= t && t + MINUTE <= bounds.value.1 && (t - bounds.value.0) % MINUTE == 0
  }

  function Present(bars: seq<Bar>, now: Instant): set<Instant> {
    set b | b in bars && b.minutes == 1 && b.complete && Available(b, now) :: b.start
  }

  /** A whole number of minutes apart. */
  predicate OnGrid(start: Instant, t: Instant) {
    (t - start) % MINUTE == 0
  }

  /** A session minute of the window, over by `now`, without a complete bar. */
  ghost predicate IsMissing(ck: Checker, bars: seq<Bar>, start: Instant, end: Instant, now: Instant, t: Instant) {
    && start <= t && OnGrid(start, t) && t + MINUTE <= end && t + MINUTE <= now
    && ck.cal(t).Some?
    && (var (open, close) := ck.cal(t).value; open <= t && t + MINUTE <= close && (t - open) % MINUTE == 0)
    && forall b :: b in bars && b.start == t && b.minutes == 1 && b.complete ==> b.end > now || b.receivedAt > now
  }

  predicate SingleFeed(bars: seq<Bar>) {
    forall a, b :: a in bars && b in bars ==> a.instrument == b.instrument && a.source == b.source
  }

  ghost predicate Ascending(ts: seq<Instant>) {
    forall i, j :: 0 <= i < j < |ts| ==> ts[i] < ts[j]
  }

  /** The minutes missing from a window, in order. */
  method MissingIntervals(ck: Checker, bars: seq<Bar>, start: Instant, end: Instant, now: Instant)
      returns (r: Result<seq<Instant>, WindowError>)
    ensures r == Err(BadWindow) <==> start >= end || start % MINUTE != 0
    ensures r.Ok? <==> start < end && start % MINUTE == 0 &&
                       forall a, b :: a in bars && b in bars ==> a.instrument == b.instrument && a.source == b.source
    ensures r.Ok? ==> Ascending(r.value) && forall t :: t in r.value <==> IsMissing(ck, bars, start, end, now, t)
  {
    if start >= end || start % MINUTE != 0 {
      return Err(BadWindow);
    }
    if !SingleFeed(bars) {
      return Err(MixedFeeds);
    }
    var cursor, stop := start, if end <= now then end else now;
    var present := Present(bars, now);
    var missing: seq<Instant> := [];
    while cursor + MINUTE <= stop
      invariant start <= cursor && OnGrid(start, cursor)
      invariant Ascending(missing) && forall i :: 0 <= i < |missing| ==> missing[i] < cursor
      invariant forall t :: t in missing <==> t < cursor && IsMissing(ck, bars, start, end, now, t)
      decreases stop - cursor
    {
      GridGap(start, cursor);
      if SessionMinute(ck, cursor) && cursor !in present {
        missing := missing + [cursor];
      }
      cursor := cursor + MINUTE;
    }
    return Ok(missing);
  }

  /** The minutes counted from `start` have nothing strictly between neighbours. */
  lemma GridGap(start: Instant, cursor: Instant)
    requires OnGrid(start, cursor)
    ensures OnGrid(start, cursor + MINUTE)
    ensures forall t :: cursor < t < cursor + MINUTE ==> !OnGrid(start, t)
  {
  }

  /** The stored bars of a feed that start in a window. */
  function Window(bars: seq<Bar>, instrument: Id, source: Id, start: Instant, end: Instant): (w: seq<Bar>)
    ensures forall b :: b in w <==> b in bars && InWindow(b, instrument, source, start, end)
  {
    if bars == [] then []
    else
      var n := |bars| - 1;
      assert bars == bars[..n] + [bars[n]];
      Window(bars[..n], instrument, source, start, end)
      + if InWindow(bars[n], instrument, source, start, end) then [bars[n]] else []
  }

  predicate InWindow(b: Bar, instrument: Id, source: Id, start: Instant, end: Instant) {
    b.instrument == instrument && b.source == source && start <= b.start < end
  }

  /** The verdict of the health check, told over the stored bars. */
  ghost predicate Healthy(
      ck: Checker, bars: seq<Bar>, now: Instant, instrument: Id, source: Id, start: Instant, end: Instant) {
    && end <= now
    && (exists b :: b in bars && b.instrument == instrument && b.source == source && start <= b.start && b.start < end)
    && (forall b :: b in bars && b.instrument == instrument && b.source == source && start <= b.start && b.start < end ==> b.flags == {})
    && (forall t :: !IsMissing(ck, Window(bars, instrument, source, start, end), start, end, now, t))
  }

  ghost function MissingSet(ck: Checker, bars: seq<Bar>, start: Instant, end: Instant, now: Instant): set<Instant> {
    set t | start <= t < end && IsMissing(ck, bars, start, end, now, t)
  }

  lemma {:induction false} AscendingCounts(ts: seq<Instant>, s: set<Instant>)
    requires Ascending(ts) && forall t :: t in ts <==> t in s
    ensures |ts| == |s|
  {
    if ts == [] {
      assert forall t :: t !in s;
    } else {
      var n := |ts| - 1;
      assert ts == ts[..n] + [ts[n]];
      AscendingCounts(ts[..n], s - {ts[n]});
    }
  }

  datatype Verdict = Verdict(healthy: bool, missing: nat)

  class MarketDataService {
    const ck: Checker
    var now: Instant
    var bars: seq<Bar>
    var seen: set<Key>
    var reportedMissing: set<Key>

    ghost predicate Valid()
      reads this
    {
      && WellStored(ck, bars)
      && AllAvailable(bars, now)
      && seen == set b | b in bars :: Slot(b)
    }

    constructor (ck: Checker, now: Instant)
      ensures Valid() && this.ck == ck && this.now == now && bars == [] && reportedMissing == {}
    {
      this.ck := ck;
      this.now := now;
      bars, seen, reportedMissing := [], {}, {};
    }

    /** Time passes. */
    method Tick(to: Instant)
      requires Valid() && now <= to
      modifies this`now
      ensures Valid() && now == to
    {
      now := to;
    }

    /** Checks and stores a raw bar; `accepted` is the storage's answer, and a refusal of any kind changes nothing. */
    method IngestBar(bar: Bar, accepted: bool) returns (r: Result<(), IngestError>)
      requires Valid() && bar.Valid()
      modifies this`bars, this`seen
      ensures Valid()
      ensures r == Err(NotRaw) <==> bar.minutes != 1
      ensures r == Err(Unavailable) <==> bar.minutes == 1 && (bar.end > now || bar.receivedAt > now)
      ensures r.Ok? <==> bar.minutes == 1 && bar.end <= now && bar.receivedAt <= now && accepted
      ensures r.Ok? ==> bars == old(bars) + [Admit(ck, old(bars), bar)] && seen == old(seen) + {Slot(bar)}
      ensures r.Ok? ==> IsStored(ck, old(bars), bar, bars[|old(bars)|])
      ensures r.Err? ==> bars == old(bars) && seen == old(seen)
    {
      if bar.minutes != 1 {
        return Err(NotRaw);
      }
      if Max(bar.end, bar.receivedAt) > now {
        return Err(Unavailable);
      }
      var previous := FindPrevious(bars, bar);
      var checked := Check(ck, bar, previous);
      var key := Key(bar.instrument, bar.source, bar.start);
      if key in seen {
        checked := checked.(flags := checked.flags + {Duplicate});
      }
      if !accepted {
        return Err(StorageRefused);
      }
      AdmitKeepsStored(ck, bars, bar);
      AdmitStores(ck, bars, bar);
      assert checked == Admit(ck, bars, bar);
      assert Slot(checked) == key;
      seen := seen + {key};
      bars := bars + [checked];
      return Ok(());
    }

    /** The scheduled check of a window. */
    method WindowHealth(
        instrument: Id, source: Id, start: Instant, end: Instant) returns (r: Result<Verdict, WindowError>)
      requires Valid()
      modifies this`reportedMissing
      ensures Valid()
      ensures r.Ok? <==> start < end && start % MINUTE == 0
      ensures r.Ok? ==> r.value.healthy == Healthy(ck, bars, now, instrument, source, start, end)
      ensures r.Ok? ==> r.value.missing == |MissingSet(ck, Window(bars, instrument, source, start, end), start, end, now)|
      ensures r.Err? ==> reportedMissing == old(reportedMissing)
      ensures r.Ok? ==> forall k :: k in reportedMissing <==>
                || k in old(reportedMissing)
                || (k.instrument == instrument && k.source == source
                    && IsMissing(ck, Window(bars, instrument, source, start, end), start, end, now, k.start))
    {
      var window := Window(bars, instrument, source, start, end);
      var missing := MissingIntervals(ck, window, start, end, now);
      if missing.Err? {
        return Err(missing.error);
      }
      AscendingCounts(missing.value, MissingSet(ck, window, start, end, now));
      var fresh' := (set t | t in missing.value :: Key(instrument, source, t)) - reportedMissing;
      reportedMissing := reportedMissing + fresh';
      var bad := exists b :: b in window && b.flags != {};
      var ready := end <= now && window != [] && missing.value == [] && !bad;
      assert missing.value != [] ==> missing.value[0] in missing.value;
      assert window != [] ==> window[0] in window;
      return Ok(Verdict(ready, |missing.value|));
    }

    /** The aggregate of everything stored: never refused. */
    method CanonicalBars() returns (out: seq<Bar>)
      requires Valid()
      ensures OneMinute(bars)
      ensures IsAggregate(ck, CheckedHistory(ck, bars, now), now, out)
    {
      forall b | b in bars
        ensures b.minutes == 1 && b.Valid()
      {
        var i :| 0 <= i < |bars| && bars[i] == b;
        assert StoredAt(ck, bars, i);
      }
      var r := Aggregate(ck, bars, now);
      out := r.value;
    }
  }
}
