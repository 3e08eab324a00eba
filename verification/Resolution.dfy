/**
 What the ensemble decides, told in the intents: their candidates, who is opposed, and who keeps a shared security.
 */
module Resolution {
  import opened Prelude
  import opened Sorting
  import opened Rules
  import opened Candidates
  import opened Ensemble

  ghost predicate Tradable(ctx: Context, t: Token) {
    && t.instrument in ctx.listings && ctx.listings[t.instrument].longOk
    && (t.weight >= 0.0 || ctx.listings[t.instrument].shortOk)
  }

  ghost predicate SameSecurity(ctx: Context, t: Token, u: Token) {
    && t.instrument in ctx.listings && u.instrument in ctx.listings
    && ctx.listings[t.instrument].entity == ctx.listings[u.instrument].entity
  }

  ghost predicate NamesTwice(ctx: Context, i: Intent) {
    exists j, k :: 0 <= j < k < |i.tokens| && SameSecurity(ctx, i.tokens[j], i.tokens[k])
  }

  /**
   None at or below the floor, full at or above the ceiling, and between them in proportion to the height over the
   floor.
   */
  ghost predicate IsStrength(score: real, anchor: Anchor, x: real) {
    if score <= anchor.floor then x == 0.0
    else if score >= anchor.ceiling then x == 1.0
    else x * (anchor.ceiling - anchor.floor) == score - anchor.floor
  }

  ghost function Weights(tokens: seq<Token>): real {
    Sum(seq(|tokens|, k requires 0 <= k < |tokens| => if tokens[k].weight >= 0.0 then tokens[k].weight else -tokens[k].weight))
  }

  /** The leg stands for the token, at its share of the gross. */
  ghost predicate StandsFor(ctx: Context, t: Token, gross: real, x: Leg) {
    && t.instrument in ctx.listings && x.instrument == t.instrument
    && x.entity == ctx.listings[t.instrument].entity && x.sector == ctx.listings[t.instrument].sector
    && x.weight * gross == t.weight
  }

  /** The intent passes on its own, and `c` is its candidate. */
  ghost predicate IsCandidate(ctx: Context, i: Intent, c: Candidate) {
    && ctx.screen(i) == None && (forall k :: 0 <= k < |i.tokens| ==> Tradable(ctx, i.tokens[k])) && !NamesTwice(ctx, i)
    && c.signal == i.signal && c.alpha == i.alpha && c.timestamp == ctx.at && c.registry == ctx.registry
    && i.alpha in ctx.anchors && IsStrength(i.score, ctx.anchors[i.alpha], c.strength)
    && |c.legs| == |i.tokens| && Weights(i.tokens) > 0.0
    && forall k :: 0 <= k < |c.legs| ==> StandsFor(ctx, i.tokens[k], Weights(i.tokens), c.legs[k])
  }

  /** The intent fails on its own. */
  ghost predicate IsFault(ctx: Context, i: Intent, reason: Reason) {
    if ctx.screen(i) != None then reason == Screened(ctx.screen(i).value)
    else if exists k :: 0 <= k < |i.tokens| && !Tradable(ctx, i.tokens[k]) then reason == IneligibleLeg
    else NamesTwice(ctx, i) && reason == MalformedWeights
  }

  lemma StrengthMeaning(score: real, anchor: Anchor)
    requires anchor.floor < anchor.ceiling
    ensures IsStrength(score, anchor, Strength(score, anchor))
  {
    var d, x := anchor.ceiling - anchor.floor, score - anchor.floor;
    var q := x / d;
    assert q * d == x;
    if score <= anchor.floor {
      assert (0.0 - q) * d >= 0.0;
    } else if score >= anchor.ceiling {
      assert (q - 1.0) * d >= 0.0;
    } else {
      assert (1.0 - q) * d > 0.0;
    }
  }

  lemma {:induction false} WeightsMeaning(tokens: seq<Token>)
    ensures TokenGross(tokens) == Weights(tokens)
  {
    if tokens != [] {
      var n := |tokens| - 1;
      WeightsMeaning(tokens[..n]);
      var all := seq(|tokens|, k requires 0 <= k < |tokens| => if tokens[k].weight >= 0.0 then tokens[k].weight else -tokens[k].weight);
      assert all[..n] == seq(n, k requires 0 <= k < n => if tokens[..n][k].weight >= 0.0 then tokens[..n][k].weight else -tokens[..n][k].weight);
    }
  }

  lemma LegMeaning(ctx: Context, t: Token, gross: real)
    requires gross > 0.0 && Eligible(ctx, t)
    ensures StandsFor(ctx, t, gross, LegOf(ctx, t, gross))
  {
  }

  lemma BuildMeaning(ctx: Context, i: Intent)
    requires ctx.Valid() && i.Valid() && ctx.screen(i).None? && AllEligible(ctx, i.tokens) && !NamesTwice(ctx, i)
    ensures IsCandidate(ctx, i, Build(ctx, i))
  {
    var c := Build(ctx, i);
    StrengthMeaning(i.score, ctx.anchors[i.alpha]);
    WeightsMeaning(i.tokens);
    TokenGrossPositive(i.tokens);
    forall k | 0 <= k < |c.legs|
      ensures StandsFor(ctx, i.tokens[k], Weights(i.tokens), c.legs[k])
    {
      LegMeaning(ctx, i.tokens[k], Weights(i.tokens));
    }
  }

  /** What becomes of each intent on its own. */
  lemma NormaliseMeaning(ctx: Context, i: Intent)
    requires ctx.Valid() && i.Valid()
    ensures Normalise(ctx, i).Ok? ==> IsCandidate(ctx, i, Normalise(ctx, i).value)
    ensures Normalise(ctx, i).Err? ==> IsFault(ctx, i, Normalise(ctx, i).error)
  {
    WhenNormalised(ctx, i);
    if ctx.screen(i).None? && AllEligible(ctx, i.tokens) {
      assert NamesDiffer(ctx, i.tokens) <==> !NamesTwice(ctx, i);
      if !NamesTwice(ctx, i) {
        BuildMeaning(ctx, i);
      }
    }
  }

  ghost predicate Passes(ctx: Context, i: Intent) {
    ctx.screen(i) == None && (forall k :: 0 <= k < |i.tokens| ==> Tradable(ctx, i.tokens[k])) && !NamesTwice(ctx, i)
  }

  lemma Cancel(x: real, y: real, d: real)
    requires d > 0.0 && x * d == y * d
    ensures x == y
  {
    assert (x - y) * d == 0.0;
  }

  lemma SameStrength(score: real, anchor: Anchor, x: real, y: real)
    requires anchor.floor < anchor.ceiling && IsStrength(score, anchor, x) && IsStrength(score, anchor, y)
    ensures x == y
  {
    if anchor.floor < score < anchor.ceiling {
      Cancel(x, y, anchor.ceiling - anchor.floor);
    }
  }

  /** An intent has one candidate. */
  lemma OneCandidate(ctx: Context, i: Intent, c: Candidate, e: Candidate)
    requires ctx.Valid() && IsCandidate(ctx, i, c) && IsCandidate(ctx, i, e)
    ensures c == e
  {
    SameStrength(i.score, ctx.anchors[i.alpha], c.strength, e.strength);
    forall k | 0 <= k < |c.legs|
      ensures c.legs[k] == e.legs[k]
    {
      SameLeg(ctx, i.tokens[k], Weights(i.tokens), c.legs[k], e.legs[k]);
    }
    assert c.legs == e.legs;
  }

  lemma SameLeg(ctx: Context, t: Token, gross: real, x: Leg, y: Leg)
    requires gross > 0.0 && StandsFor(ctx, t, gross, x) && StandsFor(ctx, t, gross, y)
    ensures x == y
  {
    Cancel(x.weight, y.weight, gross);
  }

  /** The candidates in play are those of the intents that pass. */
  lemma ValidsMeaning(ctx: Context, s: set<Intent>, i: Intent, c: Candidate)
    requires ctx.Valid() && AllValid(s) && i in s
    ensures IsCandidate(ctx, i, c) <==> Normalise(ctx, i) == Ok(c)
    ensures Normalise(ctx, i).Ok? <==> Passes(ctx, i)
    ensures IsCandidate(ctx, i, c) ==> c in Valids(ctx, s)
  {
    NormaliseMeaning(ctx, i);
    if IsCandidate(ctx, i, c) && Normalise(ctx, i).Ok? {
      OneCandidate(ctx, i, c, Normalise(ctx, i).value);
    }
  }

  /** One is long and the other short in a security. */
  ghost predicate Opposite(ctx: Context, i: Intent, j: Intent) {
    exists a, b :: 0 <= a < |i.tokens| && 0 <= b < |j.tokens| && SameSecurity(ctx, i.tokens[a], j.tokens[b])
                   && (i.tokens[a].weight > 0.0) != (j.tokens[b].weight > 0.0)
  }

  /** Another intent that passes takes the other side of one of its securities. */
  ghost predicate Opposed(ctx: Context, s: set<Intent>, i: Intent) {
    exists j :: j in s && j.signal != i.signal && Passes(ctx, j) && Opposite(ctx, i, j)
  }

  ghost predicate Comes(c: Candidate, e: Candidate) {
    c.strength > e.strength || (c.strength == e.strength && c.signal < e.signal)
  }

  ghost predicate Shares(c: Candidate, e: Candidate) {
    exists a, b :: 0 <= a < |c.legs| && 0 <= b < |e.legs| && c.legs[a].entity == e.legs[b].entity
  }

  /** A selected candidate that comes first shares a security. */
  ghost predicate Beaten(selected: seq<Candidate>, c: Candidate) {
    exists e :: e in selected && Comes(e, c) && Shares(e, c)
  }

  /** What becomes of an intent: opposed, beaten to a security, or selected; or its own fault. */
  ghost predicate IsSettled(ctx: Context, s: set<Intent>, d: Decision, i: Intent) {
    && (forall c :: IsCandidate(ctx, i, c) ==>
          if Opposed(ctx, s, i) then c !in d.candidates && Given(d, i.signal, OppositeDirectionConflict)
          else if Beaten(d.candidates, c) then c !in d.candidates && Given(d, i.signal, SameSecurityDuplicate)
          else c in d.candidates && i.signal !in d.rejections)
    && (forall reason :: IsFault(ctx, i, reason) ==> Given(d, i.signal, reason))
  }

  ghost predicate Given(d: Decision, signal: Id, reason: Reason) {
    signal in d.rejections && d.rejections[signal] == reason
  }

  /** Every intent is settled, everything selected is the candidate of one, and the selection is in order. */
  ghost predicate IsResolved(ctx: Context, s: set<Intent>, d: Decision) {
    && (forall i :: i in s ==> IsSettled(ctx, s, d, i))
    && (forall c :: c in d.candidates ==> exists i :: i in s && IsCandidate(ctx, i, c))
    && InOrder(d.candidates)
  }

  ghost predicate InOrder(cs: seq<Candidate>) {
    forall j, k :: 0 <= j < k < |cs| ==> Comes(cs[j], cs[k])
  }

  lemma SidesMeaning(ctx: Context, i: Intent, c: Candidate)
    requires IsCandidate(ctx, i, c) && i.Valid()
    ensures forall k :: 0 <= k < |c.legs| ==> c.legs[k].weight != 0.0 && (c.legs[k].weight > 0.0 <==> i.tokens[k].weight > 0.0)
  {
    forall k | 0 <= k < |c.legs|
      ensures c.legs[k].weight != 0.0 && (c.legs[k].weight > 0.0 <==> i.tokens[k].weight > 0.0)
    {
      assert StandsFor(ctx, i.tokens[k], Weights(i.tokens), c.legs[k]);
      Side(c.legs[k].weight, Weights(i.tokens), i.tokens[k].weight);
    }
  }

  lemma Side(x: real, d: real, y: real)
    requires d > 0.0 && x * d == y
    ensures (x > 0.0 <==> y > 0.0) && (x == 0.0 <==> y == 0.0)
  {
  }

  lemma ProductSign(x: real, y: real)
    requires x != 0.0 && y != 0.0
    ensures x * y < 0.0 <==> (x > 0.0) != (y > 0.0)
  {
  }

  lemma OpposesMeaning(ctx: Context, i: Intent, c: Candidate, j: Intent, e: Candidate)
    requires i.Valid() && j.Valid() && IsCandidate(ctx, i, c) && IsCandidate(ctx, j, e)
    ensures Opposes(c, e) <==> Opposite(ctx, i, j)
  {
    SidesMeaning(ctx, i, c);
    SidesMeaning(ctx, j, e);
    forall a, b | 0 <= a < |c.legs| && 0 <= b < |e.legs|
      ensures c.legs[a].weight * e.legs[b].weight < 0.0 <==> (i.tokens[a].weight > 0.0) != (j.tokens[b].weight > 0.0)
      ensures c.legs[a].entity == e.legs[b].entity <==> SameSecurity(ctx, i.tokens[a], j.tokens[b])
    {
      assert StandsFor(ctx, i.tokens[a], Weights(i.tokens), c.legs[a]) && StandsFor(ctx, j.tokens[b], Weights(j.tokens), e.legs[b]);
      ProductSign(c.legs[a].weight, e.legs[b].weight);
    }
  }

  lemma ConflictMeaning(ctx: Context, s: set<Intent>, i: Intent, c: Candidate)
    requires ctx.Valid() && AllValid(s) && ConflictFree(s) && i in s && IsCandidate(ctx, i, c)
    ensures c.signal in Conflicted(Valids(ctx, s)) <==> Opposed(ctx, s, i)
  {
    var valids := Valids(ctx, s);
    ValidsMeaning(ctx, s, i, c);
    if c.signal in Conflicted(valids) {
      var x, e :| x in valids && e in valids && x.signal != e.signal && Opposes(x, e) && x.signal == c.signal;
      ValidSignalsDistinct(ctx, s);
      var j :| j in s && Normalise(ctx, j).Ok? && Normalise(ctx, j).value == e;
      ValidsMeaning(ctx, s, j, e);
      OpposesMeaning(ctx, i, c, j, e);
    }
    if j :| j in s && j.signal != i.signal && Passes(ctx, j) && Opposite(ctx, i, j) {
      var e := Normalise(ctx, j).value by {
        ValidsMeaning(ctx, s, j, c);
      }
      ValidsMeaning(ctx, s, j, e);
      OpposesMeaning(ctx, i, c, j, e);
    }
  }

  lemma SharesMeaning(c: Candidate, e: Candidate)
    ensures Shares(c, e) <==> Entities(c) * Entities(e) != {}
  {
    if Shares(c, e) {
      var a, b :| 0 <= a < |c.legs| && 0 <= b < |e.legs| && c.legs[a].entity == e.legs[b].entity;
      assert c.legs[a].entity in Entities(c) * Entities(e);
    }
    if Entities(c) * Entities(e) != {} {
      var x :| x in Entities(c) * Entities(e);
      var a :| 0 <= a < |c.legs| && c.legs[a].entity == x;
      var b :| 0 <= b < |e.legs| && e.legs[b].entity == x;
    }
  }

  lemma SelectedDisjoint(selected: seq<Candidate>, c: Candidate, e: Candidate)
    requires PairwiseDisjoint(selected) && c in selected && e in selected && c != e
    ensures !Shares(c, e)
  {
    var i :| 0 <= i < |selected| && selected[i] == c;
    var j :| 0 <= j < |selected| && selected[j] == e;
    SharesMeaning(c, e);
    assert Entities(c) * Entities(e) == Entities(e) * Entities(c);
  }

  /** A candidate that nobody opposes is selected exactly when it is not beaten; one that is opposed never is. */
  lemma SelectionMeaning(valids: set<Candidate>, c: Candidate)
    requires c in valids && forall x, y :: x in valids && y in valids && x.signal == y.signal ==> x == y
    ensures c in Selected(valids) <==> c.signal !in Conflicted(valids) && !Beaten(Selected(valids), c)
  {
    var selected := Selected(valids);
    SelectionResolvesConflicts(valids);
    StrongerIsOrder();
    GreedyDisjoint(Arrange(valids, Stronger), Conflicted(valids));
    if c in selected {
      forall e | e in selected && Comes(e, c)
        ensures !Shares(e, c)
      {
        SelectedDisjoint(selected, e, c);
      }
    } else if c.signal !in Conflicted(valids) {
      var e :| e in selected && Stronger(e, c) && Entities(c) * Entities(e) != {};
      SharesMeaning(c, e);
      assert Shares(e, c);
      assert e.signal != c.signal;
    }
  }

  lemma SettledMeaning(ctx: Context, s: set<Intent>, d: Decision, i: Intent)
    requires ctx.Valid() && AllValid(s) && Decides(ctx, s, d) && d.status == ConflictsResolved && i in s && ConflictFree(s)
    ensures IsSettled(ctx, s, d, i)
  {
    var valids := Valids(ctx, s);
    NormaliseMeaning(ctx, i);
    IdsPartition(ctx, s, d);
    forall c | IsCandidate(ctx, i, c)
      ensures if Opposed(ctx, s, i) then c !in d.candidates && Given(d, i.signal, OppositeDirectionConflict)
              else if Beaten(d.candidates, c) then c !in d.candidates && Given(d, i.signal, SameSecurityDuplicate)
              else c in d.candidates && i.signal !in d.rejections
    {
      ValidsMeaning(ctx, s, i, c);
      ValidSignalsDistinct(ctx, s);
      ConflictMeaning(ctx, s, i, c);
      SelectionMeaning(valids, c);
      RejectedUnlessSelected(ctx, s, d, i, c);
    }
    forall reason | IsFault(ctx, i, reason)
      ensures Given(d, i.signal, reason)
    {
      FaultGiven(ctx, s, d, i, reason);
    }
  }

  lemma RejectedUnlessSelected(ctx: Context, s: set<Intent>, d: Decision, i: Intent, c: Candidate)
    requires ctx.Valid() && AllValid(s) && ConflictFree(s) && Decides(ctx, s, d) && d.status == ConflictsResolved
    requires i in s && Normalise(ctx, i) == Ok(c) && c.signal == i.signal
    ensures c in d.candidates <==> i.signal !in d.rejections
    ensures i.signal in d.rejections ==> d.rejections[i.signal] == DropReason(c, Conflicted(Valids(ctx, s)))
  {
    ValidSignalsDistinct(ctx, s);
    SelectionResolvesConflicts(Valids(ctx, s));
    assert c in Valids(ctx, s);
    assert i.signal in SignalsOf(s);
  }

  lemma FaultGiven(ctx: Context, s: set<Intent>, d: Decision, i: Intent, reason: Reason)
    requires ctx.Valid() && AllValid(s) && ConflictFree(s) && Decides(ctx, s, d) && d.status == ConflictsResolved
    requires i in s && IsFault(ctx, i, reason)
    ensures Given(d, i.signal, reason)
  {
    FaultMeaning(ctx, i, reason);
    UnnormalisedGiven(ctx, s, d, i, reason);
  }

  lemma FaultMeaning(ctx: Context, i: Intent, reason: Reason)
    requires ctx.Valid() && i.Valid() && IsFault(ctx, i, reason)
    ensures Normalise(ctx, i) == Err(reason)
  {
    NormaliseMeaning(ctx, i);
  }

  lemma UnnormalisedGiven(ctx: Context, s: set<Intent>, d: Decision, i: Intent, reason: Reason)
    requires ctx.Valid() && AllValid(s) && ConflictFree(s) && Decides(ctx, s, d) && d.status == ConflictsResolved
    requires i in s && Normalise(ctx, i) == Err(reason)
    ensures Given(d, i.signal, reason)
  {
    SelectionResolvesConflicts(Valids(ctx, s));
    forall c | c in d.candidates
      ensures c.signal != i.signal
    {
      var j :| j in s && Normalise(ctx, j).Ok? && Normalise(ctx, j).value == c;
      assert c.signal == j.signal;
    }
    assert i.signal in SignalsOf(s);
  }

  lemma {:induction false} GreedyOrder(cs: seq<Candidate>, conflicted: set<Id>)
    requires InOrder(cs)
    ensures InOrder(Greedy(cs, conflicted))
  {
    if cs != [] {
      var before, c := cs[..|cs| - 1], cs[|cs| - 1];
      var g := Greedy(before, conflicted);
      GreedyOrder(before, conflicted);
      GreedyDisjoint(before, conflicted);
      forall e | e in g
        ensures Comes(e, c)
      {
        var k :| 0 <= k < |before| && before[k] == e;
        assert cs[k] == e;
      }
      OrderStep(g, c);
      assert Greedy(cs, conflicted) == g || Greedy(cs, conflicted) == g + [c];
    }
  }

  lemma OrderStep(g: seq<Candidate>, c: Candidate)
    requires InOrder(g) && forall e :: e in g ==> Comes(e, c)
    ensures InOrder(g + [c])
  {
  }

  lemma ArrangedInOrder(valids: set<Candidate>, cs: seq<Candidate>)
    requires Lists(valids, cs, Stronger) && forall x, y :: x in valids && y in valids && x.signal == y.signal ==> x == y
    ensures InOrder(cs)
  {
    forall j, k | 0 <= j < k < |cs|
      ensures Comes(cs[j], cs[k])
    {
      assert Stronger(cs[j], cs[k]) && cs[j] in valids && cs[k] in valids && cs[j] != cs[k];
    }
  }

  lemma SelectedInOrder(valids: set<Candidate>)
    requires forall x, y :: x in valids && y in valids && x.signal == y.signal ==> x == y
    ensures InOrder(Selected(valids))
  {
    StrongerIsOrder();
    ArrangedInOrder(valids, Arrange(valids, Stronger));
    GreedyOrder(Arrange(valids, Stronger), Conflicted(valids));
  }

  /** Every resolved decision, intent by intent. */
  lemma ResolutionMeaning(ctx: Context, s: set<Intent>, d: Decision)
    requires ctx.Valid() && AllValid(s) && Decides(ctx, s, d)
    ensures d.status == if !ctx.metadataAvailable then MetadataUnavailable
                        else if exists i, j :: i in s && j in s && i.signal == j.signal && i != j then ConflictingSignalId
                        else ConflictsResolved
    ensures d.status == ConflictsResolved ==> IsResolved(ctx, s, d)
  {
    if d.status == ConflictsResolved {
      forall i | i in s
        ensures IsSettled(ctx, s, d, i)
      {
        SettledMeaning(ctx, s, d, i);
      }
      ValidSignalsDistinct(ctx, s);
      SelectedInOrder(Valids(ctx, s));
      SelectionResolvesConflicts(Valids(ctx, s));
      forall c | c in d.candidates
        ensures exists i :: i in s && IsCandidate(ctx, i, c)
      {
        var i :| i in s && Normalise(ctx, i).Ok? && Normalise(ctx, i).value == c;
        NormaliseMeaning(ctx, i);
      }
    }
  }

  lemma Below(x: real, y: real, d: real, xd: real, yd: real)
    requires d > 0.0 && x * d == xd && y * d == yd && xd < yd
    ensures x < y
  {
    assert x * d - y * d == (x - y) * d;
  }

  lemma StrengthRises(low: real, high: real, anchor: Anchor, x: real, y: real)
    requires anchor.floor < anchor.ceiling && IsStrength(low, anchor, x) && IsStrength(high, anchor, y)
    requires low < high && low < anchor.ceiling && anchor.floor < high
    ensures x < y
  {
    var d := anchor.ceiling - anchor.floor;
    Below(x, y, d, if low <= anchor.floor then 0.0 else low - anchor.floor, if high >= anchor.ceiling then d else high - anchor.floor);
  }

  /** Who shares the one security of the one shares the one security of the other. */
  lemma SharedAlike(ctx: Context, i: Intent, j: Intent, c: Candidate, e: Candidate)
    requires IsCandidate(ctx, i, c) && IsCandidate(ctx, j, e)
    requires |i.tokens| == |j.tokens| == 1 && SameSecurity(ctx, i.tokens[0], j.tokens[0])
    ensures Shares(c, e) && forall x :: Shares(x, c) ==> Shares(x, e)
  {
    assert StandsFor(ctx, i.tokens[0], Weights(i.tokens), c.legs[0]) && StandsFor(ctx, j.tokens[0], Weights(j.tokens), e.legs[0]);
    assert c.legs[0].entity == e.legs[0].entity;
  }

  /**
   Of two intents of one alpha on one security that nobody opposes, the lower score never keeps it from the higher.
   */
  lemma HigherScoreWins(ctx: Context, s: set<Intent>, d: Decision, i: Intent, j: Intent, c: Candidate, e: Candidate)
    requires ctx.Valid() && AllValid(s) && Decides(ctx, s, d) && d.status == ConflictsResolved
    requires i in s && j in s && IsCandidate(ctx, i, c) && IsCandidate(ctx, j, e) && !Opposed(ctx, s, i) && !Opposed(ctx, s, j)
    requires i.alpha == j.alpha && |i.tokens| == |j.tokens| == 1 && SameSecurity(ctx, i.tokens[0], j.tokens[0])
    requires j.score < i.score && j.score < ctx.anchors[i.alpha].ceiling && ctx.anchors[i.alpha].floor < i.score
    ensures e !in d.candidates && Given(d, j.signal, SameSecurityDuplicate)
  {
    ResolutionMeaning(ctx, s, d);
    StrengthRises(j.score, i.score, ctx.anchors[i.alpha], e.strength, c.strength);
    assert IsSettled(ctx, s, d, i) && IsSettled(ctx, s, d, j);
    SharedAlike(ctx, i, j, c, e);
    BeatenAlike(d.candidates, c, e);
  }

  lemma BeatenAlike(selected: seq<Candidate>, c: Candidate, e: Candidate)
    requires c.strength > e.strength && Shares(c, e) && (forall x :: Shares(x, c) ==> Shares(x, e))
    requires c in selected || Beaten(selected, c)
    ensures Beaten(selected, e)
  {
    if c in selected {
      assert Comes(c, e);
    } else {
      var x :| x in selected && Comes(x, c) && Shares(x, c);
      assert Comes(x, e);
    }
  }
}
