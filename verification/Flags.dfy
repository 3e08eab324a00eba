/** What a check flags, told in the figures of the bar, its session and the bars its feed had before it. */
module Flags {
  import opened Prelude
  import opened Bars

  /** `p` is of the same feed and over when `b` starts. */
  ghost predicate OverBefore(p: Bar, b: Bar) {
    p.instrument == b.instrument && p.source == b.source && b.start - p.end >= 0
  }

  /** Position `j` holds the bar that `b` follows: none of the feed was over later, and no earlier one as late. */
  ghost predicate IsFollowed(history: seq<Bar>, j: nat, b: Bar)
    requires j < |history|
  {
    && OverBefore(history[j], b)
    && forall i :: 0 <= i < |history| && OverBefore(history[i], b) ==>
         history[i].end <= history[j].end && (i < j ==> history[i].end < history[j].end)
  }

  /** The opening is away from the last close by more than the fraction of that close. */
  ghost predicate GapJump(ck: Checker, p: Bar, b: Bar) {
    && p.receivedAt <= b.receivedAt && p.close > 0.0
    && (b.open - p.close > ck.gapFraction * p.close || p.close - b.open > ck.gapFraction * p.close)
  }

  /** More than the multiple of the last volume was traded. */
  ghost predicate VolumeJump(ck: Checker, p: Bar, b: Bar) {
    p.receivedAt <= b.receivedAt && p.volume > 0.0 && b.volume > ck.volumeMultiple * p.volume
  }

  ghost predicate WithinSession(ck: Checker, b: Bar) {
    match ck.cal(b.start)
    case None => false
    case Some((open, close)) => open <= b.start && b.end <= close
  }

  /** What there is to flag in a bar, flag by flag. */
  ghost predicate Shows(ck: Checker, history: seq<Bar>, b: Bar, f: Flag)
    requires b.minutes > 0
  {
    match f
    case InvalidPrice => b.open <= 0.0 || b.high <= 0.0 || b.low <= 0.0 || b.close <= 0.0
    case ImpossibleOhlc => b.low > b.open || b.low > b.close || b.high < b.open || b.high < b.close
    case InvalidVolume => b.volume < 0.0
    case ZeroVolume => b.volume == 0.0
    case AbnormalGap => exists j :: 0 <= j < |history| && IsFollowed(history, j, b) && GapJump(ck, history[j], b)
    case AbnormalVolume => exists j :: 0 <= j < |history| && IsFollowed(history, j, b) && VolumeJump(ck, history[j], b)
    case OutOfSession => !WithinSession(ck, b)
    case Misaligned => WithinSession(ck, b) && (b.start - ck.cal(b.start).value.0) % (b.minutes * MINUTE) != 0
    case Incomplete => !b.complete
    case FutureTimestamp => b.end > b.receivedAt
    case _ => false
  }

  /** `c` is `b` with what it shows flagged. */
  ghost predicate IsChecked(ck: Checker, history: seq<Bar>, b: Bar, c: Bar)
    requires b.minutes > 0
  {
    && c == b.(flags := c.flags)
    && forall f :: f in c.flags <==> f in b.flags || Shows(ck, history, b, f)
  }

  /** The scan for the predecessor finds the followed bar, and nothing when there is none. */
  lemma {:induction false} PreviousIsFollowed(history: seq<Bar>, b: Bar) returns (j: int)
    ensures PreviousOf(history, b).None? ==> forall i :: 0 <= i < |history| ==> !OverBefore(history[i], b)
    ensures PreviousOf(history, b).Some? ==>
              0 <= j < |history| && IsFollowed(history, j, b) && PreviousOf(history, b) == Some(history[j])
  {
    j := -1;
    if history != [] {
      var n := |history| - 1;
      j := PreviousIsFollowed(history[..n], b);
      var best := PreviousOf(history[..n], b);
      if Precedes(history[n], b) && (best.None? || history[n].end > best.value.end) {
        j := n;
      }
      assert forall i :: 0 <= i < n ==> history[..n][i] == history[i];
    }
  }

  lemma OneFollowed(history: seq<Bar>, i: nat, j: nat, b: Bar)
    requires i < |history| && j < |history| && IsFollowed(history, i, b) && IsFollowed(history, j, b)
    ensures i == j
  {
  }

  lemma Ratio(x: real, y: real, q: real, m: real)
    requires y > 0.0 && q == x / y
    ensures q > m <==> x > m * y
    ensures Abs(q - 1.0) > m <==> x - y > m * y || y - x > m * y
  {
    assert x == q * y;
    Scale(q, x, m, y);
    Scale(q - 1.0, x - y, m, y);
    Scale(1.0 - q, y - x, m, y);
  }

  lemma Scale(a: real, ay: real, m: real, y: real)
    requires y > 0.0 && ay == a * y
    ensures a > m <==> ay > m * y
  {
    if a > m {
      assert (a - m) * y > 0.0;
    } else {
      assert (m - a) * y >= 0.0;
    }
  }

  /** A jump from the followed bar is what the history flags say. */
  lemma JumpFlags(ck: Checker, b: Bar, p: Bar)
    requires OverBefore(p, b)
    ensures AbnormalGap in HistoryFlags(ck, b, Some(p)) <==> GapJump(ck, p, b)
    ensures AbnormalVolume in HistoryFlags(ck, b, Some(p)) <==> VolumeJump(ck, p, b)
  {
    if p.close > 0.0 {
      Ratio(b.open, p.close, b.open / p.close, ck.gapFraction);
    }
    if p.volume > 0.0 {
      Ratio(b.volume, p.volume, b.volume / p.volume, ck.volumeMultiple);
    }
  }

  lemma HistoryShows(ck: Checker, history: seq<Bar>, b: Bar)
    requires b.minutes > 0
    ensures forall f :: f in HistoryFlags(ck, b, PreviousOf(history, b)) <==>
                          (f.AbnormalGap? || f.AbnormalVolume?) && Shows(ck, history, b, f)
  {
    var j := PreviousIsFollowed(history, b);
    if PreviousOf(history, b).Some? {
      JumpFlags(ck, b, history[j]);
      forall i | 0 <= i < |history| && IsFollowed(history, i, b)
        ensures i == j
      {
        OneFollowed(history, i, j, b);
      }
    }
  }

  lemma OwnShows(ck: Checker, history: seq<Bar>, b: Bar)
    requires b.minutes > 0
    ensures forall f :: f in OwnFindings(ck, b) <==> !f.AbnormalGap? && !f.AbnormalVolume? && Shows(ck, history, b, f)
  {
  }

  /** A check adds exactly the flags of what the bar shows, and changes nothing else. */
  lemma CheckedShows(ck: Checker, history: seq<Bar>, b: Bar)
    requires b.minutes > 0
    ensures IsChecked(ck, history, b, Check(ck, b, PreviousOf(history, b)))
  {
    HistoryShows(ck, history, b);
    OwnShows(ck, history, b);
  }

  ghost predicate KnownBy(b: Bar, at: Instant) {
    b.end <= at && b.receivedAt <= at
  }

  /** A complete five-minute bar known by now, with nothing flagged and figures that make sense. */
  ghost predicate IsReady(b: Bar, at: Instant) {
    && b.minutes == 5 && b.complete && b.flags == {} && KnownBy(b, at)
    && b.low > 0.0 && b.low <= b.open <= b.high && b.low <= b.close <= b.high && b.volume > 0.0
  }

  /** What a strategy may rely on in a ready bar. */
  lemma ReadyMeaning(b: Bar, at: Instant)
    ensures StrategyReady(b, at) <==> IsReady(b, at)
  {
    assert PriceFlags(b) == {} <==>
      InvalidPrice !in PriceFlags(b) && ImpossibleOhlc !in PriceFlags(b) && InvalidVolume !in PriceFlags(b) && ZeroVolume !in PriceFlags(b);
  }
}
