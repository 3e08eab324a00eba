/** One-minute and five-minute bars and the causal checks on them. */
module Bars {
  import opened Prelude

  datatype Flag =
    | InvalidPrice
    | ImpossibleOhlc
    | InvalidVolume
    | ZeroVolume
    | AbnormalGap
    | AbnormalVolume
    | Duplicate
    | MissingInterval
    | OutOfSession
    | Misaligned
    | Incomplete
    | Stale
    | FutureTimestamp
    | CrossedQuote

  datatype FeedKind = Equity | IndexFeed | SectorFeed | Vix

  datatype Bar = Bar(
    instrument: Id,
    source: Id,
    receivedAt: Instant,
    flags: set<Flag>,
    feed: FeedKind,
    start: Instant,
    end: Instant,
    minutes: int,
    open: real,
    high: real,
    low: real,
    close: real,
    volume: real,
    complete: bool)
  {
    predicate Valid() {
      (minutes == 1 || minutes == 5) && end - start == minutes * MINUTE
    }
  }

  /** The instant a bar can first be used. */
  predicate Available(b: Bar, cutoff: Instant) {
    Max(b.end, b.receivedAt) <= cutoff
  }

  function PriceFlags(b: Bar): set<Flag> {
    var least := MinReal(MinReal(b.open, b.high), MinReal(b.low, b.close));
    (if least <= 0.0 then {InvalidPrice} else {})
    + (if b.low <= MinReal(b.open, b.close) && MaxReal(b.open, b.close) <= b.high then {} else {ImpossibleOhlc})
    + (if b.volume < 0.0 then {InvalidVolume} else {})
    + (if b.volume == 0.0 then {ZeroVolume} else {})
  }

  /** What a strategy demands of a bar at an instant. */
  predicate StrategyReady(b: Bar, at: Instant) {
    b.minutes == 5 && b.complete && b.flags == {} && PriceFlags(b) == {} && Available(b, at)
  }

  /** `text` stands for the serialised form, which breaks the last ties. */
  datatype Checker = Checker(cal: Calendar, gapFraction: real, volumeMultiple: real, text: Bar -> real)

  ghost predicate TextDistinguishes(ck: Checker) {
    forall a, b :: ck.text(a) == ck.text(b) ==> a == b
  }

  predicate InSession(ck: Checker, b: Bar) {
    ck.cal(b.start).Some? && ck.cal(b.start).value.0 <= b.start && b.end <= ck.cal(b.start).value.1
  }

  function SessionFlags(ck: Checker, b: Bar): set<Flag>
    requires b.minutes > 0
  {
    if !InSession(ck, b) then {OutOfSession}
    else if (b.start - ck.cal(b.start).value.0) % (b.minutes * MINUTE) != 0 then {Misaligned}
    else {}
  }

  function HistoryFlags(ck: Checker, b: Bar, previous: Option<Bar>): set<Flag> {
    if previous.Some? && Precedes(previous.value, b) && previous.value.receivedAt <= b.receivedAt then
      (if previous.value.close > 0.0 && Abs(b.open / previous.value.close - 1.0) > ck.gapFraction then {AbnormalGap} else {})
      + (if previous.value.volume > 0.0 && b.volume / previous.value.volume > ck.volumeMultiple then {AbnormalVolume} else {})
    else {}
  }

  predicate Precedes(p: Bar, b: Bar) {
    p.instrument == b.instrument && p.source == b.source && p.end <= b.start
  }

  /** What a check finds in the bar alone. */
  function OwnFindings(ck: Checker, b: Bar): set<Flag>
    requires b.minutes > 0
  {
    PriceFlags(b) + SessionFlags(ck, b)
    + (if b.complete then {} else {Incomplete})
    + (if b.receivedAt < b.end then {FutureTimestamp} else {})
  }

  /** The flags a check finds by itself. */
  function Findings(ck: Checker, b: Bar, previous: Option<Bar>): set<Flag>
    requires b.minutes > 0
  {
    OwnFindings(ck, b) + HistoryFlags(ck, b, previous)
  }

  function Check(ck: Checker, b: Bar, previous: Option<Bar>): Bar
    requires b.minutes > 0
  {
    b.(flags := b.flags + Findings(ck, b, previous))
  }

  /** The latest-ending bar before `b` on the same feed; the first of several. */
  function PreviousOf(history: seq<Bar>, b: Bar): Option<Bar> {
    if history == [] then None
    else
      var best, last := PreviousOf(history[..|history| - 1], b), history[|history| - 1];
      if Precedes(last, b) && (best.None? || last.end > best.value.end) then Some(last) else best
  }

  /** A bar without regard to its flags. */
  function Bare(b: Bar): Bar {
    b.(flags := {})
  }

  function BareOption(b: Option<Bar>): Option<Bar> {
    if b.Some? then Some(Bare(b.value)) else None
  }

  /** A check looks at its predecessor's figures, never at its flags. */
  lemma HistoryIgnoresFlags(ck: Checker, b: Bar, p: Option<Bar>, q: Option<Bar>)
    requires BareOption(p) == BareOption(q)
    ensures HistoryFlags(ck, b, p) == HistoryFlags(ck, b, q)
  {
    if p.Some? {
      assert Bare(p.value) == Bare(q.value);
      assert p.value.close == Bare(p.value).close && p.value.volume == Bare(p.value).volume;
    }
  }

  /** The method that scans for the predecessor, as ingestion and aggregation both do. */
  method FindPrevious(history: seq<Bar>, b: Bar) returns (best: Option<Bar>)
    ensures best == PreviousOf(history, b)
  {
    best := None;
    for n := 0 to |history|
      invariant best == PreviousOf(history[..n], b)
    {
      assert history[..n + 1][..n] == history[..n];
      if Precedes(history[n], b) && (best.None? || history[n].end > best.value.end) {
        best := Some(history[n]);
      }
    }
    assert history[..|history|] == history;
  }

  /** What the scan finds: a predecessor that ends last, or none when there is none. */
  lemma {:induction false} PreviousEndsLast(history: seq<Bar>, b: Bar)
    ensures var p := PreviousOf(history, b);
            && (p.Some? ==> p.value in history && Precedes(p.value, b))
            && (forall h :: h in history && Precedes(h, b) ==> p.Some? && h.end <= p.value.end)
  {
    if history != [] {
      var n := |history| - 1;
      PreviousEndsLast(history[..n], b);
      assert history == history[..n] + [history[n]];
    }
  }
}
