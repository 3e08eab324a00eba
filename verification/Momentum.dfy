/** The momentum alpha's choice of names: a ranked tail, a cap, and a rule that never splits a tie. */
module Momentum {
  import opened Prelude
  import opened Sorting
  import opened Rules
  import opened Ranking

  datatype Card = Card(instrument: Id, strength: real, percentile: real)

  function Strengths(cards: seq<Card>): (vs: seq<real>)
    ensures |vs| == |cards| && forall i :: 0 <= i < |cards| ==> vs[i] == cards[i].strength
  {
    seq(|cards|, i requires 0 <= i < |cards| => cards[i].strength)
  }

  /** Each card carries the rank of its strength in the cross-section. */
  ghost predicate Ranked(cards: seq<Card>) {
    cards != [] && forall c :: c in cards ==> c.percentile == Percentile(Strengths(cards), c.strength)
  }

  /** Cards with the percentiles filled in. */
  function Rank(cards: seq<Card>): (r: seq<Card>)
    requires cards != []
    ensures |r| == |cards| && Ranked(r)
    ensures forall i :: 0 <= i < |r| ==> r[i].instrument == cards[i].instrument && r[i].strength == cards[i].strength
  {
    var vs := Strengths(cards);
    var r := seq(|cards|, i requires 0 <= i < |cards| => cards[i].(percentile := Percentile(vs, cards[i].strength)));
    assert Strengths(r) == vs;
    r
  }

  /** The sort key: small is better. */
  function Key(side: Side, c: Card): real {
    if side.Long? then -c.strength else c.strength
  }

  predicate InTail(side: Side, fraction: real, c: Card) {
    if side.Long? then c.percentile >= 1.0 - fraction else c.percentile <= fraction
  }

  predicate LongBefore(a: Card, b: Card) {
    Key(Long, a) < Key(Long, b) || (Key(Long, a) == Key(Long, b) && a.instrument <= b.instrument)
  }

  predicate ShortBefore(a: Card, b: Card) {
    Key(Short, a) < Key(Short, b) || (Key(Short, a) == Key(Short, b) && a.instrument <= b.instrument)
  }

  function Best(side: Side): (Card, Card) -> bool {
    if side.Long? then LongBefore else ShortBefore
  }

  lemma BestIsOrder(side: Side)
    ensures TotalPreorder(Best(side))
  {
  }

  function Cap(maxPerSide: nat, size: nat, fraction: real): nat
    requires fraction >= 0.0
  {
    var quota := (size as real * fraction).Floor;
    assert size as real * fraction >= 0.0;
    if maxPerSide < quota then maxPerSide else quota
  }

  function Tail(cards: seq<Card>, side: Side, fraction: real): seq<Card> {
    if cards == [] then []
    else
      var n := |cards| - 1;
      if InTail(side, fraction, cards[n]) then Tail(cards[..n], side, fraction) + [cards[n]] else Tail(cards[..n], side, fraction)
  }

  lemma {:induction false} TailMembers(cards: seq<Card>, side: Side, fraction: real)
    ensures forall c :: c in Tail(cards, side, fraction) <==> c in cards && InTail(side, fraction, c)
  {
    if cards != [] {
      var n := |cards| - 1;
      TailMembers(cards[..n], side, fraction);
      assert cards == cards[..n] + [cards[n]];
    }
  }

  /** How many cards do at least as well as the key. */
  function AsGood(cards: seq<Card>, side: Side, key: real): nat {
    if cards == [] then 0 else AsGood(cards[..|cards| - 1], side, key) + (if Key(side, cards[|cards| - 1]) <= key then 1 else 0)
  }

  /** The choice told without sorting and without ids: in the tail, and not outnumbered. */
  predicate Chosen(cards: seq<Card>, side: Side, fraction: real, cap: nat, c: Card) {
    c in cards && InTail(side, fraction, c) && AsGood(cards, side, Key(side, c)) <= cap
  }

  ghost predicate KeysAscend(s: seq<Card>, side: Side) {
    forall i, j :: 0 <= i < j < |s| ==> Key(side, s[i]) <= Key(side, s[j])
  }

  /** In ascending order the cards that do at least as well as a key form a prefix. */
  lemma {:induction false} AsGoodIsPrefix(s: seq<Card>, side: Side, key: real)
    requires KeysAscend(s, side)
    ensures AsGood(s, side, key) <= |s|
    ensures forall i :: 0 <= i < |s| ==> (Key(side, s[i]) <= key <==> i < AsGood(s, side, key))
  {
    if s != [] {
      AsGoodIsPrefix(s[..|s| - 1], side, key);
    }
  }

  lemma {:induction false} AsGoodSplit(a: seq<Card>, b: seq<Card>, v: Card, side: Side, key: real)
    ensures AsGood(a + [v] + b, side, key) == AsGood(a + b, side, key) + (if Key(side, v) <= key then 1 else 0)
  {
    if b == [] {
      assert a + [v] + b == a + [v] && (a + [v])[..|a|] == a && a + b == a;
    } else {
      var n := |b| - 1;
      AsGoodSplit(a, b[..n], v, side, key);
      assert (a + [v] + b)[..|a| + 1 + n] == a + [v] + b[..n];
      assert (a + b)[..|a| + n] == a + b[..n];
    }
  }

  lemma {:induction false} AsGoodOfPermutation(a: seq<Card>, b: seq<Card>, side: Side, key: real)
    requires multiset(a) == multiset(b)
    ensures AsGood(a, side, key) == AsGood(b, side, key)
  {
    assert |multiset(a)| == |multiset(b)|;
    if a != [] {
      var i := TakeOut(a, b);
      AsGoodOfPermutation(a[..|a| - 1], b[..i] + b[i + 1..], side, key);
      AsGoodSplit(b[..i], b[i + 1..], b[i], side, key);
    }
  }

  /** Doing at least as well as a tail member puts a card in the tail: ranks follow strengths. */
  lemma TailIsClosed(cards: seq<Card>, side: Side, fraction: real, c: Card, d: Card)
    requires Ranked(cards) && c in cards && d in cards && InTail(side, fraction, c) && Key(side, d) <= Key(side, c)
    ensures InTail(side, fraction, d)
  {
    var vs := Strengths(cards);
    var i :| 0 <= i < |cards| && cards[i] == c;
    var j :| 0 <= j < |cards| && cards[j] == d;
    assert vs[i] in vs && vs[j] in vs;
    PercentileOrder(vs, c.strength, d.strength);
    PercentileOrder(vs, d.strength, c.strength);
  }

  lemma {:induction false} AsGoodInTail(part: seq<Card>, side: Side, fraction: real, key: real)
    requires forall c :: c in part && Key(side, c) <= key ==> InTail(side, fraction, c)
    ensures AsGood(Tail(part, side, fraction), side, key) == AsGood(part, side, key)
  {
    if part != [] {
      var n := |part| - 1;
      AsGoodInTail(part[..n], side, fraction, key);
      var t := Tail(part[..n], side, fraction);
      assert (t + [part[n]])[..|t|] == t;
    }
  }

  ghost predicate AtLeastAsGood(side: Side, d: Card, c: Card) {
    if side == Long then d.strength >= c.strength else d.strength <= c.strength
  }

  /** Where the cards are that do at least as well as a card. */
  ghost function Matching(cards: seq<Card>, side: Side, c: Card): set<int> {
    set i | 0 <= i < |cards| && AtLeastAsGood(side, cards[i], c)
  }

  /** In the tail of its side, and no more do at least as well than the limit and the fraction of all allow. */
  ghost predicate IsPicked(cards: seq<Card>, side: Side, fraction: real, maxPerSide: nat, c: Card) {
    && c in cards && (if side == Long then c.percentile >= 1.0 - fraction else c.percentile <= fraction)
    && var n := |Matching(cards, side, c)|;
       n <= maxPerSide && n as real <= |cards| as real * fraction
  }

  /** Best first, ties by instrument. */
  ghost predicate IsBestFirst(side: Side, picked: seq<Card>) {
    forall i, j :: 0 <= i < j < |picked| ==>
      || (side == Long && picked[i].strength > picked[j].strength)
      || (side == Short && picked[i].strength < picked[j].strength)
      || (picked[i].strength == picked[j].strength && picked[i].instrument <= picked[j].instrument)
  }

  lemma {:induction false} AsGoodMeaning(cards: seq<Card>, side: Side, c: Card)
    ensures AsGood(cards, side, Key(side, c)) == |Matching(cards, side, c)|
  {
    if cards != [] {
      var n := |cards| - 1;
      AsGoodMeaning(cards[..n], side, c);
      MatchingStep(cards, side, c);
    }
  }

  lemma MatchingStep(cards: seq<Card>, side: Side, c: Card)
    requires cards != []
    ensures var before, n := Matching(cards[..|cards| - 1], side, c), |cards| - 1;
            Matching(cards, side, c) == if AtLeastAsGood(side, cards[n], c) then before + {n} else before
  {
    assert forall i :: 0 <= i < |cards| - 1 ==> cards[..|cards| - 1][i] == cards[i];
  }

  lemma CapMeaning(maxPerSide: nat, size: nat, fraction: real, n: nat)
    requires fraction >= 0.0
    ensures n <= Cap(maxPerSide, size, fraction) <==> n <= maxPerSide && n as real <= size as real * fraction
  {
    assert size as real * fraction >= 0.0;
    Floored(n, size as real * fraction);
  }

  lemma Floored(n: nat, x: real)
    ensures n <= x.Floor <==> n as real <= x
  {
  }

  /** The choice by figures is the choice by counts. */
  lemma ChosenMeaning(cards: seq<Card>, side: Side, fraction: real, maxPerSide: nat, c: Card)
    requires fraction >= 0.0
    ensures Chosen(cards, side, fraction, Cap(maxPerSide, |cards|, fraction), c) <==> IsPicked(cards, side, fraction, maxPerSide, c)
  {
    AsGoodMeaning(cards, side, c);
    CapMeaning(maxPerSide, |cards|, fraction, AsGood(cards, side, Key(side, c)));
  }

  lemma OrderMeaning(side: Side, picked: seq<Card>)
    requires Sorted(picked, Best(side))
    ensures IsBestFirst(side, picked)
  {
    forall i, j | 0 <= i < j < |picked|
      ensures Best(side)(picked[i], picked[j])
    {
    }
  }

  /**
   The selection: sort the tail, keep up to the cap, and drop the whole boundary tie if the cap would
   split it. The result is exactly the cards that are chosen in the sense above, best first.
   */
  method SelectTail(cards: seq<Card>, side: Side, fraction: real, maxPerSide: nat) returns (picked: seq<Card>)
    requires Ranked(cards) && Distinct(cards) && 0.0 < fraction < 0.5
    ensures var cap := Cap(maxPerSide, |cards|, fraction);
            && |picked| <= cap
            && (forall c :: c in picked <==> Chosen(cards, side, fraction, cap, c))
            && Sorted(picked, Best(side)) && Distinct(picked)
    ensures |picked| <= maxPerSide && |picked| as real <= |cards| as real * fraction
    ensures forall c :: c in picked <==> IsPicked(cards, side, fraction, maxPerSide, c)
    ensures IsBestFirst(side, picked)
  {
    var tail := Tail(cards, side, fraction);
    var cap := Cap(maxPerSide, |cards|, fraction);
    var ordered := Sort(tail, Best(side));
    OrderedTail(cards, side, fraction, ordered);
    picked := Cut(ordered, side, cap);
    PickedAreChosen(cards, side, fraction, ordered, cap, picked);
    CapMeaning(maxPerSide, |cards|, fraction, |picked|);
    forall c
      ensures Chosen(cards, side, fraction, cap, c) <==> IsPicked(cards, side, fraction, maxPerSide, c)
    {
      ChosenMeaning(cards, side, fraction, maxPerSide, c);
    }
    OrderMeaning(side, picked);
  }

  predicate SplitsTie(ordered: seq<Card>, cap: nat) {
    0 < cap < |ordered| && ordered[cap - 1].strength == ordered[cap].strength
  }

  /** Keeps up to the cap, less the boundary tie if the cap would split it. */
  method Cut(ordered: seq<Card>, side: Side, cap: nat) returns (picked: seq<Card>)
    requires Sorted(ordered, Best(side)) && Distinct(ordered)
    ensures |picked| <= cap && Sorted(picked, Best(side)) && Distinct(picked)
    ensures SplitsTie(ordered, cap) ==> forall c :: c in picked <==> c in ordered[..cap] && c.strength != ordered[cap].strength
    ensures !SplitsTie(ordered, cap) ==> picked == if cap <= |ordered| then ordered[..cap] else ordered
  {
    if SplitsTie(ordered, cap) {
      picked := WithoutTies(ordered[..cap], side, ordered[cap].strength);
    } else {
      picked := if cap <= |ordered| then ordered[..cap] else ordered;
    }
  }

  /** Drops the cards of one strength, keeping the order of the rest. */
  method WithoutTies(ordered: seq<Card>, side: Side, boundary: real) returns (picked: seq<Card>)
    requires Sorted(ordered, Best(side)) && Distinct(ordered)
    ensures |picked| <= |ordered|
    ensures forall c :: c in picked <==> c in ordered && c.strength != boundary
    ensures Sorted(picked, Best(side)) && Distinct(picked)
  {
    picked := [];
    for n := 0 to |ordered|
      invariant |picked| <= n
      invariant forall c :: c in picked <==> c in ordered[..n] && c.strength != boundary
      invariant Sorted(picked, Best(side)) && Distinct(picked)
    {
      assert ordered[..n + 1] == ordered[..n] + [ordered[n]];
      if ordered[n].strength != boundary {
        forall i | 0 <= i < |picked|
          ensures Best(side)(picked[i], ordered[n]) && picked[i] != ordered[n]
        {
          assert picked[i] in picked && picked[i] in ordered[..n];
        }
        picked := picked + [ordered[n]];
      }
    }
    assert ordered[..|ordered|] == ordered;
  }

  /** What the sorted tail is good for. */
  ghost predicate TailInOrder(cards: seq<Card>, side: Side, fraction: real, ordered: seq<Card>) {
    && KeysAscend(ordered, side) && Sorted(ordered, Best(side)) && Distinct(ordered)
    && (forall c :: c in ordered <==> c in cards && InTail(side, fraction, c))
    && (forall c :: c in ordered ==> AsGood(ordered, side, Key(side, c)) == AsGood(cards, side, Key(side, c)))
  }

  lemma OrderedTail(cards: seq<Card>, side: Side, fraction: real, ordered: seq<Card>)
    requires Ranked(cards) && Distinct(cards) && ordered == Sort(Tail(cards, side, fraction), Best(side))
    ensures TailInOrder(cards, side, fraction, ordered)
  {
    var tail := Tail(cards, side, fraction);
    BestIsOrder(side);
    SortSorts(tail, Best(side));
    SortMembers(tail, Best(side));
    TailMembers(cards, side, fraction);
    TailDistinct(cards, side, fraction);
    SortKeepsDistinct(tail, Best(side));
    forall i, j | 0 <= i < j < |ordered|
      ensures Key(side, ordered[i]) <= Key(side, ordered[j])
    {
      assert Best(side)(ordered[i], ordered[j]);
    }
    forall c | c in ordered
      ensures AsGood(ordered, side, Key(side, c)) == AsGood(cards, side, Key(side, c))
    {
      AsGoodOfPermutation(ordered, tail, side, Key(side, c));
      forall d | d in cards && Key(side, d) <= Key(side, c)
        ensures InTail(side, fraction, d)
      {
        TailIsClosed(cards, side, fraction, c, d);
      }
      AsGoodInTail(cards, side, fraction, Key(side, c));
    }
  }

  lemma {:induction false} TailDistinct(cards: seq<Card>, side: Side, fraction: real)
    requires Distinct(cards)
    ensures Distinct(Tail(cards, side, fraction))
  {
    if cards != [] {
      var n := |cards| - 1;
      TailDistinct(cards[..n], side, fraction);
      TailMembers(cards[..n], side, fraction);
      assert cards[n] !in cards[..n];
    }
  }

  lemma PickedAreChosen(cards: seq<Card>, side: Side, fraction: real, ordered: seq<Card>, cap: nat, picked: seq<Card>)
    requires TailInOrder(cards, side, fraction, ordered)
    requires SplitsTie(ordered, cap) ==> forall c :: c in picked <==> c in ordered[..cap] && c.strength != ordered[cap].strength
    requires !SplitsTie(ordered, cap) ==> picked == if cap <= |ordered| then ordered[..cap] else ordered
    ensures forall c :: c in picked <==> Chosen(cards, side, fraction, cap, c)
  {
    forall c
      ensures c in picked <==> Chosen(cards, side, fraction, cap, c)
    {
      if c in ordered {
        var i :| 0 <= i < |ordered| && ordered[i] == c;
        AsGoodIsPrefix(ordered, side, Key(side, c));
        if cap < |ordered| {
          assert AsGood(cards, side, Key(side, c)) <= cap <==> Key(side, c) < Key(side, ordered[cap]);
          assert i >= cap ==> Key(side, ordered[cap]) <= Key(side, c);
          assert i < cap ==> c == ordered[..cap][i] && Key(side, c) <= Key(side, ordered[cap - 1]);
          assert c in ordered[..cap] <==> i < cap;
        }
      }
    }
  }

  /** The selection is closed: whoever does at least as well as a chosen card is chosen too, ties included. */
  lemma SelectionIsClosed(cards: seq<Card>, side: Side, fraction: real, cap: nat, c: Card, d: Card)
    requires Ranked(cards) && Chosen(cards, side, fraction, cap, c) && d in cards && Key(side, d) <= Key(side, c)
    ensures Chosen(cards, side, fraction, cap, d)
  {
    TailIsClosed(cards, side, fraction, c, d);
    AsGoodMonotone(cards, side, Key(side, d), Key(side, c));
  }

  lemma {:induction false} AsGoodMonotone(cards: seq<Card>, side: Side, x: real, y: real)
    requires x <= y
    ensures AsGood(cards, side, x) <= AsGood(cards, side, y)
  {
    if cards != [] {
      AsGoodMonotone(cards[..|cards| - 1], side, x, y);
    }
  }

  /** Two cross-sections with the same strengths choose the same positions, whatever the instruments are called. */
  lemma SelectionIgnoresIds(a: seq<Card>, b: seq<Card>, side: Side, fraction: real, cap: nat, i: nat)
    requires Ranked(a) && Ranked(b) && Strengths(a) == Strengths(b) && i < |a|
    ensures i < |b| && (Chosen(a, side, fraction, cap, a[i]) <==> Chosen(b, side, fraction, cap, b[i]))
  {
    assert |Strengths(a)| == |Strengths(b)|;
    assert Strengths(a)[i] == Strengths(b)[i];
    assert a[i] in a && b[i] in b;
    AsGoodOfStrengths(a, b, side, Key(side, a[i]));
    ChosenByFigures(a, b, side, fraction, cap, a[i], b[i]);
  }

  lemma ChosenByFigures(a: seq<Card>, b: seq<Card>, side: Side, fraction: real, cap: nat, c: Card, d: Card)
    requires c in a && d in b && c.strength == d.strength && c.percentile == d.percentile
    requires AsGood(a, side, Key(side, c)) == AsGood(b, side, Key(side, c))
    ensures Chosen(a, side, fraction, cap, c) <==> Chosen(b, side, fraction, cap, d)
  {
  }

  lemma {:induction false} AsGoodOfStrengths(a: seq<Card>, b: seq<Card>, side: Side, key: real)
    requires Strengths(a) == Strengths(b)
    ensures AsGood(a, side, key) == AsGood(b, side, key)
  {
    assert |Strengths(a)| == |Strengths(b)|;
    if a != [] {
      var n := |a| - 1;
      assert Strengths(a)[n] == Strengths(b)[n];
      assert Strengths(a[..n]) == Strengths(a)[..n] && Strengths(b[..n]) == Strengths(b)[..n];
      AsGoodOfStrengths(a[..n], b[..n], side, key);
    }
  }
}
