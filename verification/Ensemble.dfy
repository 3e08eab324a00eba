/**
 Normalisation of alpha intents into candidates and the resolution of their conflicts: opposite
 directions block every bundle involved, and overlapping bundles keep the strongest.
 */
module Ensemble {
  import opened Prelude
  import opened Sorting
  import opened Rules
  import opened Candidates

  /** A signed gross fraction of one instrument. */
  datatype Token = Token(instrument: string, weight: real)

  /** `digest` stands for the content hash of the intent. */
  datatype Intent = Intent(signal: Id, digest: Id, alpha: AlphaFamily, score: real, tokens: seq<Token>)
  {
    predicate Valid() {
      tokens != [] && forall i :: 0 <= i < |tokens| ==> tokens[i].weight != 0.0
    }
  }

  /** An instrument as the universe and the master see it on the day. */
  datatype Listing = Listing(entity: Id, sector: string, longOk: bool, shortOk: bool)

  datatype Anchor = Anchor(floor: real, ceiling: real)

  /**
   Everything but the intents. `screen` is the outcome of the checks that look at one intent alone:
   registration, evidence, provenance.
   */
  datatype Context = Context(
    at: Instant,
    registry: Id,
    metadataAvailable: bool,
    listings: map<string, Listing>,
    anchors: map<AlphaFamily, Anchor>,
    screen: Intent -> Option<string>)
  {
    ghost predicate Valid() {
      forall a :: a in anchors && anchors[a].floor < anchors[a].ceiling
    }
  }

  datatype Reason =
    | Screened(code: string)
    | IneligibleLeg
    | MalformedWeights
    | OppositeDirectionConflict
    | SameSecurityDuplicate
    | NoMetadata
    | ConflictingId

  datatype Status = MetadataUnavailable | ConflictingSignalId | ConflictsResolved

  /** Rejections carry the reason given for each signal id. */
  datatype Decision = Decision(candidates: seq<Candidate>, rejections: map<Id, Reason>, status: Status)

  function TokenGross(tokens: seq<Token>): real {
    if tokens == [] then 0.0 else TokenGross(tokens[..|tokens| - 1]) + Abs(tokens[|tokens| - 1].weight)
  }

  predicate Eligible(ctx: Context, t: Token) {
    && t.instrument in ctx.listings
    && ctx.listings[t.instrument].longOk
    && (t.weight < 0.0 ==> ctx.listings[t.instrument].shortOk)
  }

  function LegOf(ctx: Context, t: Token, total: real): Leg
    requires total != 0.0 && Eligible(ctx, t)
  {
    var listing := ctx.listings[t.instrument];
    Leg(listing.entity, t.instrument, listing.sector, t.weight / total)
  }

  predicate AllEligible(ctx: Context, tokens: seq<Token>) {
    forall i :: 0 <= i < |tokens| ==> Eligible(ctx, tokens[i])
  }

  function LegsOf(ctx: Context, tokens: seq<Token>, total: real): (legs: seq<Leg>)
    requires total != 0.0 && AllEligible(ctx, tokens)
    ensures |legs| == |tokens|
    ensures forall i :: 0 <= i < |legs| ==> legs[i] == LegOf(ctx, tokens[i], total)
  {
    if tokens == [] then []
    else LegsOf(ctx, tokens[..|tokens| - 1], total) + [LegOf(ctx, tokens[|tokens| - 1], total)]
  }

  function Strength(score: real, anchor: Anchor): real
    requires anchor.floor < anchor.ceiling
  {
    MaxReal(0.0, MinReal(1.0, (score - anchor.floor) / (anchor.ceiling - anchor.floor)))
  }

  lemma {:induction false} TokenGrossPositive(tokens: seq<Token>)
    requires forall i :: 0 <= i < |tokens| ==> tokens[i].weight != 0.0
    ensures tokens != [] ==> TokenGross(tokens) > 0.0
  {
    if tokens != [] {
      TokenGrossPositive(tokens[..|tokens| - 1]);
    }
  }

  /** The bundle of an intent, its weights scaled to unit gross. */
  function Build(ctx: Context, i: Intent): Candidate
    requires ctx.Valid() && i.Valid() && AllEligible(ctx, i.tokens)
  {
    TokenGrossPositive(i.tokens);
    Candidate(i.signal, i.alpha, ctx.at, Strength(i.score, ctx.anchors[i.alpha]),
              LegsOf(ctx, i.tokens, TokenGross(i.tokens)), ctx.registry)
  }

  /** One intent on its own: a well-formed candidate or the reason it is rejected. */
  function Normalise(ctx: Context, i: Intent): Result<Candidate, Reason>
    requires ctx.Valid() && i.Valid()
  {
    if ctx.screen(i).Some? then Err(Screened(ctx.screen(i).value))
    else if !AllEligible(ctx, i.tokens) then Err(IneligibleLeg)
    else if WellFormed(Build(ctx, i)) then Ok(Build(ctx, i))
    else Err(MalformedWeights)
  }

  lemma Quotients(x: real, y: real, t: real)
    requires t > 0.0
    ensures x / t + y / t == (x + y) / t
    ensures Abs(x / t) == Abs(x) / t
    ensures x / t > 0.0 <==> x > 0.0
    ensures x / t < 0.0 <==> x < 0.0
  {
    assert (x / t) * t == x;
    assert (-x) / t == -(x / t);
  }

  lemma {:induction false} ScaledGross(ctx: Context, tokens: seq<Token>, total: real)
    requires total > 0.0 && AllEligible(ctx, tokens)
    ensures LegGross(LegsOf(ctx, tokens, total)) == TokenGross(tokens) / total
  {
    if tokens != [] {
      var n := |tokens| - 1;
      ScaledGross(ctx, tokens[..n], total);
      assert LegsOf(ctx, tokens, total)[..n] == LegsOf(ctx, tokens[..n], total);
      Quotients(tokens[n].weight, 0.0, total);
      Quotients(TokenGross(tokens[..n]), Abs(tokens[n].weight), total);
    }
  }

  /** The legs built from eligible tokens: exactly unit gross, each on the side of its token. */
  lemma BuiltLegs(ctx: Context, tokens: seq<Token>)
    requires AllEligible(ctx, tokens) && tokens != [] && forall i :: 0 <= i < |tokens| ==> tokens[i].weight != 0.0
    ensures TokenGross(tokens) > 0.0
    ensures var legs := LegsOf(ctx, tokens, TokenGross(tokens));
            && LegGross(legs) == 1.0 && NonzeroWeights(legs)
            && forall k :: 0 <= k < |legs| ==> (legs[k].weight > 0.0 <==> tokens[k].weight > 0.0)
  {
    TokenGrossPositive(tokens);
    var total := TokenGross(tokens);
    ScaledGross(ctx, tokens, total);
    assert total / total == 1.0;
    var legs := LegsOf(ctx, tokens, total);
    forall k | 0 <= k < |legs|
      ensures legs[k].weight != 0.0 && (legs[k].weight > 0.0 <==> tokens[k].weight > 0.0)
    {
      Quotients(tokens[k].weight, 0.0, total);
    }
  }

  /** Every normalised candidate has exactly unit gross, not just within the tolerance. */
  lemma NormalisedUnitGross(ctx: Context, i: Intent)
    requires ctx.Valid() && i.Valid() && Normalise(ctx, i).Ok?
    ensures var c := Normalise(ctx, i).value;
            && WellFormed(c) && LegGross(c.legs) == 1.0
            && c.signal == i.signal && c.alpha == i.alpha && |c.legs| == |i.tokens|
            && forall k :: 0 <= k < |c.legs| ==> (c.legs[k].weight > 0.0 <==> i.tokens[k].weight > 0.0)
  {
    BuiltLegs(ctx, i.tokens);
  }

  /** An intent becomes a candidate exactly when it passes its checks and names no security twice. */
  lemma WhenNormalised(ctx: Context, i: Intent)
    requires ctx.Valid() && i.Valid()
    ensures Normalise(ctx, i).Ok? <==>
            && ctx.screen(i).None?
            && AllEligible(ctx, i.tokens)
            && NamesDiffer(ctx, i.tokens)
  {
    if AllEligible(ctx, i.tokens) {
      BuiltCandidate(ctx, i, Build(ctx, i));
    }
  }

  lemma BuiltCandidate(ctx: Context, i: Intent, c: Candidate)
    requires ctx.Valid() && i.Valid() && AllEligible(ctx, i.tokens) && c == Build(ctx, i)
    ensures WellFormed(c) <==> NamesDiffer(ctx, i.tokens)
  {
    BuiltLegs(ctx, i.tokens);
    SameEntities(ctx, i.tokens, c.legs);
    StrengthBounds(i.score, ctx.anchors[i.alpha]);
    WellFormedIffDistinct(c);
  }

  /** No two tokens are listings of one security. */
  ghost predicate NamesDiffer(ctx: Context, tokens: seq<Token>)
    requires AllEligible(ctx, tokens)
  {
    forall j, k :: 0 <= j < k < |tokens| ==> ctx.listings[tokens[j].instrument].entity != ctx.listings[tokens[k].instrument].entity
  }

  lemma StrengthBounds(score: real, anchor: Anchor)
    requires anchor.floor < anchor.ceiling
    ensures 0.0 <= Strength(score, anchor) <= 1.0
  {
  }

  lemma WellFormedIffDistinct(c: Candidate)
    requires c.legs != [] && 0.0 <= c.strength <= 1.0 && NonzeroWeights(c.legs) && LegGross(c.legs) == 1.0
    ensures WellFormed(c) <==> DistinctEntities(c.legs)
  {
  }

  lemma SameEntities(ctx: Context, tokens: seq<Token>, legs: seq<Leg>)
    requires AllEligible(ctx, tokens) && |legs| == |tokens|
    requires forall k :: 0 <= k < |legs| ==> legs[k].entity == ctx.listings[tokens[k].instrument].entity
    ensures DistinctEntities(legs) <==> NamesDiffer(ctx, tokens)
  {
  }

  function Members(intents: seq<Intent>): set<Intent> {
    set i | i in intents
  }

  ghost predicate AllValid(s: set<Intent>) {
    forall i :: i in s ==> i.Valid()
  }

  ghost predicate ConflictFree(s: set<Intent>) {
    forall i, j :: i in s && j in s && i.signal == j.signal ==> i == j
  }

  function SignalsOf(s: set<Intent>): set<Id> {
    set i | i in s :: i.signal
  }

  ghost function Valids(ctx: Context, s: set<Intent>): set<Candidate>
    requires ctx.Valid() && AllValid(s)
  {
    set i | i in s && Normalise(ctx, i).Ok? :: Normalise(ctx, i).value
  }

  /** The signals some other valid candidate opposes. */
  function Conflicted(cs: set<Candidate>): set<Id> {
    set c, d | c in cs && d in cs && c.signal != d.signal && Opposes(c, d) :: c.signal
  }

  function EntitiesOf(cs: seq<Candidate>): set<Id> {
    if cs == [] then {} else EntitiesOf(cs[..|cs| - 1]) + Entities(cs[|cs| - 1])
  }

  predicate Overlaps(c: Candidate, taken: set<Id>) {
    Entities(c) * taken != {}
  }

  /** The greedy pass: strongest first, skipping conflicted bundles and securities already taken. */
  function Greedy(cs: seq<Candidate>, conflicted: set<Id>): seq<Candidate> {
    if cs == [] then []
    else
      var taken, c := Greedy(cs[..|cs| - 1], conflicted), cs[|cs| - 1];
      if c.signal in conflicted || Overlaps(c, EntitiesOf(taken)) then taken else taken + [c]
  }

  lemma StrongerIsOrder()
    ensures TotalPreorder(Stronger)
  {
  }

  ghost function Selected(cs: set<Candidate>): seq<Candidate> {
    StrongerIsOrder();
    Greedy(Arrange(cs, Stronger), Conflicted(cs))
  }

  function DropReason(c: Candidate, conflicted: set<Id>): Reason {
    if c.signal in conflicted then OppositeDirectionConflict else SameSecurityDuplicate
  }

  ghost predicate RejectsAll(s: set<Intent>, d: Decision, reason: Reason) {
    d.candidates == [] && d.rejections.Keys == SignalsOf(s) && forall id :: id in d.rejections ==> d.rejections[id] == reason
  }

  /** The decision that belongs to a set of intents: nothing here can tell their order or their copies. */
  ghost predicate Decides(ctx: Context, s: set<Intent>, d: Decision)
    requires ctx.Valid() && AllValid(s)
  {
    if !ctx.metadataAvailable then
      d.status.MetadataUnavailable? && RejectsAll(s, d, NoMetadata)
    else if !ConflictFree(s) then
      d.status.ConflictingSignalId? && RejectsAll(s, d, ConflictingId)
    else
      var valids := Valids(ctx, s);
      && d.status.ConflictsResolved?
      && d.candidates == Selected(valids)
      && d.rejections.Keys == SignalsOf(s) - (set c | c in d.candidates :: c.signal)
      && (forall i :: i in s && Normalise(ctx, i).Err? && i.signal in d.rejections ==> d.rejections[i.signal] == Normalise(ctx, i).error)
      && (forall c :: c in valids && c.signal in d.rejections ==> d.rejections[c.signal] == DropReason(c, Conflicted(valids)))
  }

  /** The reasons a decision must give, told of the outcome of each intent on its own. */
  ghost predicate Explained(
      valids: set<Candidate>, conflicted: set<Id>, rejections: map<Id, Reason>, id: Id, n: Result<Candidate, Reason>)
    requires id in rejections
  {
    && (n.Err? ==> rejections[id] == n.error)
    && (n.Ok? ==> n.value in valids && n.value.signal == id && rejections[id] == DropReason(n.value, conflicted))
  }

  lemma RejectionExplained(ctx: Context, s: set<Intent>, d: Decision, i: Intent)
    requires ctx.Valid() && AllValid(s) && Decides(ctx, s, d) && d.status.ConflictsResolved?
    requires i in s && i.signal in d.rejections
    ensures Explained(Valids(ctx, s), Conflicted(Valids(ctx, s)), d.rejections, i.signal, Normalise(ctx, i))
  {
    if Normalise(ctx, i).Ok? {
      NormalisedUnitGross(ctx, i);
      assert Normalise(ctx, i).value in Valids(ctx, s);
    }
  }

  /**
   A set of intents has one decision: order of arrival and repeated copies change neither candidates nor rejections.
   */
  lemma DecisionUnique(ctx: Context, s: set<Intent>, d: Decision, e: Decision)
    requires ctx.Valid() && AllValid(s)
    requires Decides(ctx, s, d) && Decides(ctx, s, e)
    ensures d == e
  {
    if d.status.ConflictsResolved? {
      ResolvedUnique(ctx, s, d, e);
    }
    assert d.rejections == e.rejections;
  }

  lemma ResolvedUnique(ctx: Context, s: set<Intent>, d: Decision, e: Decision)
    requires ctx.Valid() && AllValid(s) && Decides(ctx, s, d) && Decides(ctx, s, e) && d.status.ConflictsResolved?
    ensures d.rejections == e.rejections
  {
    forall id | id in d.rejections
      ensures id in e.rejections && d.rejections[id] == e.rejections[id]
    {
      var i :| i in s && i.signal == id;
      RejectionExplained(ctx, s, d, i);
      RejectionExplained(ctx, s, e, i);
    }
    assert d.rejections.Keys == e.rejections.Keys;
  }

  lemma {:induction false} EntityTaken(cs: seq<Candidate>, e: Id)
    ensures e in EntitiesOf(cs) <==> exists c :: c in cs && e in Entities(c)
  {
    if cs != [] {
      EntityTaken(cs[..|cs| - 1], e);
      assert cs == cs[..|cs| - 1] + [cs[|cs| - 1]];
    }
  }

  ghost predicate PairwiseDisjoint(cs: seq<Candidate>) {
    forall i, j :: 0 <= i < j < |cs| ==> Entities(cs[i]) * Entities(cs[j]) == {}
  }

  lemma {:induction false} GreedyDisjoint(cs: seq<Candidate>, conflicted: set<Id>)
    ensures PairwiseDisjoint(Greedy(cs, conflicted))
    ensures forall c :: c in Greedy(cs, conflicted) ==> c in cs && c.signal !in conflicted
  {
    if cs != [] {
      var n := |cs| - 1;
      GreedyDisjoint(cs[..n], conflicted);
      var taken, c := Greedy(cs[..n], conflicted), cs[n];
      if c.signal !in conflicted && Entities(c) * EntitiesOf(taken) == {} {
        forall i | 0 <= i < |taken|
          ensures Entities(taken[i]) * Entities(c) == {}
        {
          TakenCovers(taken, i);
          DisjointPart(Entities(taken[i]), EntitiesOf(taken), Entities(c));
        }
      }
    }
  }

  lemma TakenCovers(cs: seq<Candidate>, i: nat)
    requires i < |cs|
    ensures Entities(cs[i]) <= EntitiesOf(cs)
  {
    forall e | e in Entities(cs[i])
      ensures e in EntitiesOf(cs)
    {
      EntityTaken(cs, e);
      assert cs[i] in cs;
    }
  }

  lemma DisjointPart(part: set<Id>, whole: set<Id>, other: set<Id>)
    requires part <= whole && other * whole == {}
    ensures part * other == {}
  {
    assert part * other <= other * whole;
  }

  lemma {:induction false} GreedyGrows(cs: seq<Candidate>, conflicted: set<Id>, n: nat)
    requires n <= |cs|
    ensures Greedy(cs[..n], conflicted) <= Greedy(cs, conflicted)
  {
    if n == |cs| {
      assert cs[..n] == cs;
    } else {
      var before := cs[..|cs| - 1];
      GreedyGrows(before, conflicted, n);
      assert before[..n] == cs[..n];
    }
  }

  lemma DroppedOverlaps(cs: seq<Candidate>, conflicted: set<Id>, n: nat)
    requires n < |cs| && cs[n] !in Greedy(cs, conflicted) && cs[n].signal !in conflicted
    ensures Entities(cs[n]) * EntitiesOf(Greedy(cs[..n], conflicted)) != {}
  {
    GreedyGrows(cs, conflicted, n + 1);
    assert cs[..n + 1][..n] == cs[..n];
    var taken, c := Greedy(cs[..n], conflicted), cs[n];
    var upTo := Greedy(cs[..n + 1], conflicted);
    assert forall x :: x in upTo ==> x in Greedy(cs, conflicted);
    assert c in taken + [c];
  }

  /** A candidate the pass drops without a conflict overlaps one that was selected before it. */
  lemma DroppedOverlapsEarlier(cs: seq<Candidate>, conflicted: set<Id>, n: nat) returns (k: nat)
    requires n < |cs| && cs[n] !in Greedy(cs, conflicted) && cs[n].signal !in conflicted
    ensures k < n && cs[k] in Greedy(cs, conflicted) && Entities(cs[n]) * Entities(cs[k]) != {}
  {
    DroppedOverlaps(cs, conflicted, n);
    var taken := Greedy(cs[..n], conflicted);
    var e :| e in Entities(cs[n]) * EntitiesOf(taken);
    EntityTaken(taken, e);
    var d :| d in taken && e in Entities(d);
    GreedyDisjoint(cs[..n], conflicted);
    k :| 0 <= k < |cs[..n]| && cs[..n][k] == d;
    PrefixMember(taken, Greedy(cs, conflicted), d) by {
      GreedyGrows(cs, conflicted, n);
    }
    assert e in Entities(cs[n]) * Entities(cs[k]);
  }

  lemma PrefixMember(a: seq<Candidate>, b: seq<Candidate>, c: Candidate)
    requires a <= b && c in a
    ensures c in b
  {
  }

  /**
   Conflict resolution: the selected bundles share no security, none opposes any valid candidate,
   and every valid candidate left out was opposed or overlaps a selected one that is at least as strong.
   */
  lemma SelectionResolvesConflicts(cs: set<Candidate>)
    ensures var selected := Selected(cs);
            && PairwiseDisjoint(selected)
            && (forall c :: c in selected ==> c in cs)
            && (forall c, v :: c in selected && v in cs && c.signal != v.signal ==> !Opposes(c, v))
            && (forall v :: v in cs && v !in selected && v.signal !in Conflicted(cs) ==>
                  exists c :: c in selected && Stronger(c, v) && Entities(v) * Entities(c) != {})
  {
    StrongerIsOrder();
    var sorted, conflicted := Arrange(cs, Stronger), Conflicted(cs);
    var selected := Selected(cs);
    GreedyDisjoint(sorted, conflicted);
    forall v | v in cs && v !in selected && v.signal !in conflicted
      ensures exists c :: c in selected && Stronger(c, v) && Entities(v) * Entities(c) != {}
    {
      var n :| 0 <= n < |sorted| && sorted[n] == v;
      var k := DroppedOverlapsEarlier(sorted, conflicted, n);
      assert sorted[k] in selected && Stronger(sorted[k], v);
    }
  }

  lemma OpposesSymmetric(a: Candidate, b: Candidate)
    requires Opposes(a, b)
    ensures Opposes(b, a)
  {
    var i, j :| 0 <= i < |a.legs| && 0 <= j < |b.legs| &&
      a.legs[i].entity == b.legs[j].entity && a.legs[i].weight * b.legs[j].weight < 0.0;
    assert b.legs[j].weight * a.legs[i].weight < 0.0;
  }

  /** Selected and rejected ids partition the ids submitted, whatever the status. */
  lemma IdsPartition(ctx: Context, s: set<Intent>, d: Decision)
    requires ctx.Valid() && AllValid(s) && Decides(ctx, s, d)
    ensures var kept := set c | c in d.candidates :: c.signal;
            kept + d.rejections.Keys == SignalsOf(s) && kept !! d.rejections.Keys
  {
    if d.status.ConflictsResolved? {
      SelectionResolvesConflicts(Valids(ctx, s));
      ValidSignals(ctx, s);
    }
  }

  lemma ValidSignals(ctx: Context, s: set<Intent>)
    requires ctx.Valid() && AllValid(s)
    ensures forall c :: c in Valids(ctx, s) ==> c.signal in SignalsOf(s)
  {
    forall c | c in Valids(ctx, s)
      ensures c.signal in SignalsOf(s)
    {
      var i :| i in s && Normalise(ctx, i).Ok? && Normalise(ctx, i).value == c;
      assert i.signal == c.signal;
    }
  }

  lemma ValidSignalsDistinct(ctx: Context, s: set<Intent>)
    requires ctx.Valid() && AllValid(s) && ConflictFree(s)
    ensures forall c, d :: c in Valids(ctx, s) && d in Valids(ctx, s) && c.signal == d.signal ==> c == d
  {
  }

  predicate IntentBefore(i: Intent, j: Intent) {
    i.signal < j.signal || (i.signal == j.signal && i.digest <= j.digest)
  }

  lemma IntentBeforeIsOrder()
    ensures TotalPreorder(IntentBefore)
  {
  }

  /** In order of signal, and of content hash under the same signal. */
  ghost predicate InAuditOrder(audited: seq<Intent>) {
    forall i, j :: 0 <= i < j < |audited| ==>
      || audited[i].signal < audited[j].signal
      || (audited[i].signal == audited[j].signal && audited[i].digest <= audited[j].digest)
  }

  lemma AuditedOrder(intents: seq<Intent>, audited: seq<Intent>)
    requires audited == Sort(intents, IntentBefore)
    ensures InAuditOrder(audited) && multiset(audited) == multiset(intents) && Members(audited) == Members(intents)
  {
    IntentBeforeIsOrder();
    SortSorts(intents, IntentBefore);
    SortMembers(intents, IntentBefore);
    forall i, j | 0 <= i < j < |audited|
      ensures IntentBefore(audited[i], audited[j])
    {
    }
    SameMembers(audited, intents);
  }

  lemma SameMembers(a: seq<Intent>, b: seq<Intent>)
    requires forall i :: i in a <==> i in b
    ensures Members(a) == Members(b)
  {
  }

  /** The audited input list does not depend on the order of arrival, as long as content hashes do not collide. */
  lemma AuditedOrderIsCanonical(a: seq<Intent>, b: seq<Intent>)
    requires multiset(a) == multiset(b)
    requires forall i, j :: i in a && j in a && i.digest == j.digest ==> i == j
    ensures Sort(a, IntentBefore) == Sort(b, IntentBefore)
  {
    IntentBeforeIsOrder();
    SortSorts(a, IntentBefore);
    SortSorts(b, IntentBefore);
    SortMembers(a, IntentBefore);
    SortedUnique(Sort(a, IntentBefore), Sort(b, IntentBefore), IntentBefore);
  }

  /** Drops repeated intents; `None` when one signal id carries two contents. */
  method Deduplicate(ordered: seq<Intent>) returns (unique: Option<seq<Intent>>)
    ensures unique.Some? <==> ConflictFree(Members(ordered))
    ensures unique.Some? ==> Distinct(unique.value) && forall i :: i in unique.value <==> i in ordered
  {
    var byId: map<Id, Intent> := map[];
    var order: seq<Intent> := [];
    for n := 0 to |ordered|
      invariant forall i :: i in order <==> i in ordered[..n]
      invariant forall i :: i in order ==> i.signal in byId && byId[i.signal] == i
      invariant forall k :: k in byId ==> byId[k] in order && byId[k].signal == k
      invariant Distinct(order)
    {
      var intent := ordered[n];
      assert ordered[..n + 1] == ordered[..n] + [intent];
      if intent.signal in byId {
        if byId[intent.signal] != intent {
          assert byId[intent.signal] in ordered && intent in ordered;
          return None;
        }
      } else {
        order := order + [intent];
        byId := byId[intent.signal := intent];
      }
    }
    assert ordered[..|ordered|] == ordered;
    return Some(order);
  }

  /** The outcome of each intent on its own. */
  function Outcomes(ctx: Context, unique: seq<Intent>): (rs: seq<Result<Candidate, Reason>>)
    requires ctx.Valid() && forall k :: 0 <= k < |unique| ==> unique[k].Valid()
    ensures |rs| == |unique|
    ensures forall k :: 0 <= k < |rs| ==> rs[k] == Normalise(ctx, unique[k])
    ensures forall k :: 0 <= k < |rs| && rs[k].Ok? ==> rs[k].value.signal == unique[k].signal
  {
    seq(|unique|, k requires 0 <= k < |unique| => Normalise(ctx, unique[k]))
  }

  ghost predicate DistinctSignals(unique: seq<Intent>) {
    forall j, k :: 0 <= j < k < |unique| ==> unique[j].signal != unique[k].signal
  }

  /** Splits the outcomes into valid candidates and reasoned rejections. */
  method Split(
      unique: seq<Intent>,
      rs: seq<Result<Candidate, Reason>>) returns (candidates: seq<Candidate>, reasons: map<Id, Reason>)
    requires |rs| == |unique| && DistinctSignals(unique)
    requires forall k :: 0 <= k < |rs| && rs[k].Ok? ==> rs[k].value.signal == unique[k].signal
    ensures forall c :: c in candidates <==> Ok(c) in rs
    ensures SignalsDiffer(candidates)
    ensures forall id :: id in reasons <==> exists k :: 0 <= k < |rs| && unique[k].signal == id && rs[k].Err?
    ensures forall k :: 0 <= k < |rs| && rs[k].Err? ==> reasons[unique[k].signal] == rs[k].error
  {
    candidates, reasons := [], map[];
    for n := 0 to |unique|
      invariant forall c :: c in candidates <==> Ok(c) in rs[..n]
      invariant forall c :: c in candidates ==> exists k :: 0 <= k < n && unique[k].signal == c.signal
      invariant forall i, j :: 0 <= i < j < |candidates| ==> candidates[i].signal != candidates[j].signal
      invariant forall id :: id in reasons <==> exists k :: 0 <= k < n && unique[k].signal == id && rs[k].Err?
      invariant forall k :: 0 <= k < n && rs[k].Err? ==> reasons[unique[k].signal] == rs[k].error
    {
      assert rs[..n + 1] == rs[..n] + [rs[n]];
      match rs[n]
      case Ok(c) =>
        assert forall i :: 0 <= i < |candidates| ==> candidates[i] in candidates;
        candidates := candidates + [c];
      case Err(e) =>
        reasons := reasons[unique[n].signal := e];
    }
    assert rs[..|rs|] == rs;
  }

  /** The pairwise scan for opposite directions. */
  method FindConflicts(candidates: seq<Candidate>) returns (conflicted: set<Id>)
    ensures conflicted == Conflicted(set c | c in candidates)
  {
    conflicted := {};
    ghost var all := set c | c in candidates;
    for m := 0 to |candidates|
      invariant conflicted <= Conflicted(all)
      invariant forall a, b :: 0 <= a < m && 0 <= b < |candidates| && Clash(candidates[a], candidates[b]) ==>
                  candidates[a].signal in conflicted
    {
      for n := 0 to |candidates|
        invariant conflicted <= Conflicted(all)
        invariant forall a, b :: 0 <= a < m && 0 <= b < |candidates| && Clash(candidates[a], candidates[b]) ==>
                    candidates[a].signal in conflicted
        invariant forall b :: 0 <= b < n && Clash(candidates[m], candidates[b]) ==> candidates[m].signal in conflicted
      {
        var left, right := candidates[m], candidates[n];
        if Clash(left, right) {
          ClashIsConflict(all, left, right);
          conflicted := conflicted + {left.signal, right.signal};
        }
      }
    }
    forall id | id in Conflicted(all)
      ensures id in conflicted
    {
      var c, d :| c in all && d in all && c.signal != d.signal && Opposes(c, d) && id == c.signal;
      var a :| 0 <= a < |candidates| && candidates[a] == c;
      var b :| 0 <= b < |candidates| && candidates[b] == d;
      assert Clash(candidates[a], candidates[b]);
    }
  }

  lemma ClashIsConflict(all: set<Candidate>, a: Candidate, b: Candidate)
    requires a in all && b in all && Clash(a, b)
    ensures a.signal in Conflicted(all) && b.signal in Conflicted(all)
  {
    OpposesSymmetric(a, b);
  }

  predicate Clash(a: Candidate, b: Candidate) {
    a.signal != b.signal && Opposes(a, b)
  }

  /** The reasons the greedy pass gives for the bundles it drops. */
  function DropReasons(cs: seq<Candidate>, conflicted: set<Id>): map<Id, Reason> {
    if cs == [] then map[]
    else
      var before, c := cs[..|cs| - 1], cs[|cs| - 1];
      if c.signal in conflicted || Overlaps(c, EntitiesOf(Greedy(before, conflicted))) then
        DropReasons(before, conflicted)[c.signal := DropReason(c, conflicted)]
      else DropReasons(before, conflicted)
  }

  ghost predicate SignalsDiffer(cs: seq<Candidate>) {
    forall i, j :: 0 <= i < j < |cs| ==> cs[i].signal != cs[j].signal
  }

  /** `selected` and `reasons` share out the candidates. */
  ghost predicate SharedOut(
      cs: seq<Candidate>, conflicted: set<Id>, selected: seq<Candidate>, reasons: map<Id, Reason>) {
    && (forall c :: c in selected ==> c in cs && c.signal !in reasons)
    && (forall id :: id in reasons ==> exists c :: c in cs && c.signal == id)
    && (forall c :: c in cs && c !in selected ==> c.signal in reasons && reasons[c.signal] == DropReason(c, conflicted))
  }

  lemma ShareOutNext(
      cs: seq<Candidate>, conflicted: set<Id>, selected: seq<Candidate>, reasons: map<Id, Reason>, x: Candidate)
    requires SharedOut(cs, conflicted, selected, reasons) && forall c :: c in cs ==> c.signal != x.signal
    ensures SharedOut(cs + [x], conflicted, selected + [x], reasons)
    ensures SharedOut(cs + [x], conflicted, selected, reasons[x.signal := DropReason(x, conflicted)])
  {
    var all := cs + [x];
    assert forall c :: c in all <==> c in cs || c == x;
    forall id | id in reasons || id == x.signal
      ensures exists c :: c in all && c.signal == id
    {
      if id == x.signal {
        assert x in all;
      } else {
        var c :| c in cs && c.signal == id;
        assert c in all;
      }
    }
  }

  /** Every candidate in order is either selected or given its reason, never both. */
  lemma {:induction false} SelectedOrDropped(cs: seq<Candidate>, conflicted: set<Id>)
    requires SignalsDiffer(cs)
    ensures SharedOut(cs, conflicted, Greedy(cs, conflicted), DropReasons(cs, conflicted))
  {
    if cs != [] {
      var n := |cs| - 1;
      SelectedOrDropped(cs[..n], conflicted);
      assert forall c :: c in cs[..n] ==> c.signal != cs[n].signal;
      ShareOutNext(cs[..n], conflicted, Greedy(cs[..n], conflicted), DropReasons(cs[..n], conflicted), cs[n]);
      assert cs == cs[..n] + [cs[n]];
    }
  }

  /** The state of the greedy pass after some candidates. */
  ghost predicate PassedOver(
      cs: seq<Candidate>, conflicted: set<Id>, selected: seq<Candidate>, used: set<Id>, dropped: map<Id, Reason>) {
    selected == Greedy(cs, conflicted) && used == EntitiesOf(selected) && dropped == DropReasons(cs, conflicted)
  }

  lemma PassStep(
      cs: seq<Candidate>, c: Candidate, conflicted: set<Id>, selected: seq<Candidate>, used: set<Id>,
      dropped: map<Id, Reason>)
    requires PassedOver(cs, conflicted, selected, used, dropped)
    ensures if c.signal in conflicted || Overlaps(c, used)
            then PassedOver(cs + [c], conflicted, selected, used, dropped[c.signal := DropReason(c, conflicted)])
            else PassedOver(cs + [c], conflicted, selected + [c], used + Entities(c), dropped)
  {
    assert (cs + [c])[..|cs|] == cs;
    assert (selected + [c])[..|selected|] == selected;
  }

  lemma AddReason(failed: map<Id, Reason>, dropped: map<Id, Reason>, id: Id, reason: Reason)
    ensures (failed + dropped)[id := reason] == failed + dropped[id := reason]
  {
  }

  /** The greedy pass over candidates in order, adding a reason for each bundle it drops. */
  method Select(sorted: seq<Candidate>, conflicted: set<Id>, failed: map<Id, Reason>)
      returns (selected: seq<Candidate>, reasons: map<Id, Reason>)
    ensures selected == Greedy(sorted, conflicted)
    ensures reasons == failed + DropReasons(sorted, conflicted)
  {
    selected, reasons := [], failed;
    var used: set<Id> := {};
    ghost var done, dropped: map<Id, Reason> := [], map[];
    assert failed + map[] == failed;
    for n := 0 to |sorted|
      invariant done == sorted[..n]
      invariant PassedOver(done, conflicted, selected, used, dropped)
      invariant reasons == failed + dropped
    {
      var c := sorted[n];
      PassStep(done, c, conflicted, selected, used, dropped);
      done := done + [c];
      if c.signal in conflicted || Overlaps(c, used) {
        var reason := DropReason(c, conflicted);
        AddReason(failed, dropped, c.signal, reason);
        dropped := dropped[c.signal := reason];
        reasons := reasons[c.signal := reason];
      } else {
        selected := selected + [c];
        used := used + Entities(c);
      }
    }
    assert done == sorted;
  }

  lemma SplitIsValids(ctx: Context, unique: seq<Intent>, candidates: seq<Candidate>)
    requires ctx.Valid() && AllValid(Members(unique))
    requires forall k :: 0 <= k < |unique| ==> unique[k].Valid()
    requires forall c :: c in candidates <==> Ok(c) in Outcomes(ctx, unique)
    ensures (set c | c in candidates) == Valids(ctx, Members(unique))
  {
    var rs := Outcomes(ctx, unique);
    forall c
      ensures c in candidates <==> c in Valids(ctx, Members(unique))
    {
      if c in candidates {
        var k :| 0 <= k < |rs| && rs[k] == Ok(c);
        assert unique[k] in unique;
      }
      if c in Valids(ctx, Members(unique)) {
        var i :| i in unique && Normalise(ctx, i).Ok? && Normalise(ctx, i).value == c;
        var k :| 0 <= k < |unique| && unique[k] == i;
        assert rs[k] == Ok(c);
      }
    }
  }

  /** The same reason for every intent. */
  function Refused(intents: seq<Intent>, reason: Reason): (r: map<Id, Reason>)
    ensures r.Keys == SignalsOf(Members(intents)) && forall id :: id in r ==> r[id] == reason
  {
    map i | i in intents :: i.signal := reason
  }

  /** The whole operation. Besides the decision it returns the canonical input list that is hashed for audit. */
  method NormalizeIntents(ctx: Context, intents: seq<Intent>) returns (d: Decision, audited: seq<Intent>)
    requires ctx.Valid() && AllValid(Members(intents))
    ensures Decides(ctx, Members(intents), d)
    ensures audited == Sort(intents, IntentBefore) && multiset(audited) == multiset(intents) && InAuditOrder(audited)
  {
    audited := Sort(intents, IntentBefore);
    AuditedOrder(intents, audited);
    if !ctx.metadataAvailable {
      d := Decision([], Refused(intents, NoMetadata), MetadataUnavailable);
      return;
    }
    var unique := Deduplicate(audited);
    if unique.None? {
      d := Decision([], Refused(intents, ConflictingId), ConflictingSignalId);
      return;
    }
    SameMembers(unique.value, audited);
    d := ResolveUnique(ctx, unique.value);
  }

  /** The passes after deduplication. */
  method ResolveUnique(ctx: Context, unique: seq<Intent>) returns (d: Decision)
    requires ctx.Valid() && ctx.metadataAvailable && Distinct(unique)
    requires AllValid(Members(unique)) && ConflictFree(Members(unique))
    ensures Decides(ctx, Members(unique), d)
  {
    ghost var s := Members(unique);
    assert forall k :: 0 <= k < |unique| ==> unique[k] in s;
    var rs := Outcomes(ctx, unique);
    var candidates, failed := Split(unique, rs);
    SplitIsValids(ctx, unique, candidates);
    var conflicted := FindConflicts(candidates);
    var sorted := Sort(candidates, Stronger);
    SortedValids(Valids(ctx, s), candidates);
    var selected, reasons := Select(sorted, conflicted, failed);
    d := Decision(selected, reasons, ConflictsResolved);
    AssembledDecision(ctx, unique, rs, failed, sorted, conflicted, d);
  }

  lemma SortedValids(valids: set<Candidate>, candidates: seq<Candidate>)
    requires (set c | c in candidates) == valids && SignalsDiffer(candidates)
    ensures TotalPreorder(Stronger)
    ensures Sort(candidates, Stronger) == Arrange(valids, Stronger)
    ensures SignalsDiffer(Sort(candidates, Stronger))
    ensures forall c :: c in Sort(candidates, Stronger) <==> c in valids
  {
    StrongerIsOrder();
    assert forall c :: c in candidates <==> c in valids;
    assert Distinct(candidates);
    SortFindsArrangement(valids, candidates, Stronger);
    SortMembers(candidates, Stronger);
    SortKeepsDistinct(candidates, Stronger);
    SignalsStayApart(candidates, Sort(candidates, Stronger));
  }

  lemma SignalsStayApart(candidates: seq<Candidate>, sorted: seq<Candidate>)
    requires SignalsDiffer(candidates) && Distinct(sorted) && forall c :: c in sorted ==> c in candidates
    ensures SignalsDiffer(sorted)
  {
    forall i, j | 0 <= i < j < |sorted|
      ensures sorted[i].signal != sorted[j].signal
    {
      assert sorted[i] in candidates && sorted[j] in candidates;
    }
  }

  /** Put together, the results of the passes are the decision. */
  lemma AssembledDecision(
      ctx: Context, unique: seq<Intent>, rs: seq<Result<Candidate, Reason>>, failed: map<Id, Reason>,
      sorted: seq<Candidate>, conflicted: set<Id>, d: Decision)
    requires ctx.Valid() && ctx.metadataAvailable
    requires AllValid(Members(unique)) && ConflictFree(Members(unique))
    requires forall k :: 0 <= k < |unique| ==> unique[k].Valid()
    requires rs == Outcomes(ctx, unique)
    requires forall id :: id in failed <==> exists k :: 0 <= k < |rs| && unique[k].signal == id && rs[k].Err?
    requires forall k :: 0 <= k < |rs| && rs[k].Err? ==> failed[unique[k].signal] == rs[k].error
    requires SignalsDiffer(sorted)
    requires forall c :: c in sorted <==> c in Valids(ctx, Members(unique))
    requires conflicted == Conflicted(Valids(ctx, Members(unique)))
    requires d.status.ConflictsResolved?
    requires d.candidates == Greedy(sorted, conflicted) == Selected(Valids(ctx, Members(unique)))
    requires d.rejections == failed + DropReasons(sorted, conflicted)
    ensures Decides(ctx, Members(unique), d)
  {
    FailedAreNotValid(ctx, unique, rs, failed);
    RejectionKeys(ctx, unique, rs, failed, sorted, conflicted);
    RejectionReasons(failed, sorted, conflicted, Valids(ctx, Members(unique)));
  }

  lemma RejectionReasons(failed: map<Id, Reason>, sorted: seq<Candidate>, conflicted: set<Id>, valids: set<Candidate>)
    requires SignalsDiffer(sorted)
    requires forall c :: c in sorted <==> c in valids
    requires forall c :: c in valids ==> c.signal !in failed
    ensures var reasons := failed + DropReasons(sorted, conflicted);
            && (forall id :: id in failed ==> reasons[id] == failed[id])
            && (forall c :: c in valids && c.signal in reasons ==> reasons[c.signal] == DropReason(c, conflicted))
  {
    SelectedOrDropped(sorted, conflicted);
  }

  lemma RejectionKeys(
      ctx: Context, unique: seq<Intent>, rs: seq<Result<Candidate, Reason>>, failed: map<Id, Reason>,
      sorted: seq<Candidate>, conflicted: set<Id>)
    requires ctx.Valid() && AllValid(Members(unique))
    requires forall k :: 0 <= k < |unique| ==> unique[k].Valid()
    requires rs == Outcomes(ctx, unique)
    requires forall id :: id in failed <==> exists k :: 0 <= k < |rs| && unique[k].signal == id && rs[k].Err?
    requires SignalsDiffer(sorted)
    requires forall c :: c in sorted <==> c in Valids(ctx, Members(unique))
    requires forall c :: c in Valids(ctx, Members(unique)) ==> c.signal !in failed
    ensures (failed + DropReasons(sorted, conflicted)).Keys ==
            SignalsOf(Members(unique)) - (set c | c in Greedy(sorted, conflicted) :: c.signal)
  {
    SelectedOrDropped(sorted, conflicted);
    var dropped, g := DropReasons(sorted, conflicted), Greedy(sorted, conflicted);
    var kept := set c | c in g :: c.signal;
    forall id
      ensures id in failed || id in dropped <==> id in SignalsOf(Members(unique)) && id !in kept
    {
      SignalKind(ctx, unique, rs, failed, id);
    }
    assert (failed + dropped).Keys == failed.Keys + dropped.Keys;
  }

  /** Each submitted id is that of a failed intent or that of a valid candidate. */
  lemma SignalKind(
      ctx: Context, unique: seq<Intent>, rs: seq<Result<Candidate, Reason>>, failed: map<Id, Reason>, id: Id)
    requires ctx.Valid() && AllValid(Members(unique))
    requires forall k :: 0 <= k < |unique| ==> unique[k].Valid()
    requires rs == Outcomes(ctx, unique)
    requires forall id :: id in failed <==> exists k :: 0 <= k < |rs| && unique[k].signal == id && rs[k].Err?
    ensures id in SignalsOf(Members(unique)) <==>
            id in failed || exists c :: c in Valids(ctx, Members(unique)) && c.signal == id
  {
    var s := Members(unique);
    if id in SignalsOf(s) {
      var i :| i in s && i.signal == id;
      var k :| 0 <= k < |unique| && unique[k] == i;
      if rs[k].Ok? {
        assert rs[k].value in Valids(ctx, s);
      }
    }
    if id in failed {
      var k :| 0 <= k < |rs| && unique[k].signal == id && rs[k].Err?;
      assert unique[k] in s;
    }
  }

  lemma FailedAreNotValid(
      ctx: Context, unique: seq<Intent>, rs: seq<Result<Candidate, Reason>>, failed: map<Id, Reason>)
    requires ctx.Valid() && AllValid(Members(unique)) && ConflictFree(Members(unique))
    requires forall k :: 0 <= k < |unique| ==> unique[k].Valid()
    requires rs == Outcomes(ctx, unique)
    requires forall id :: id in failed <==> exists k :: 0 <= k < |rs| && unique[k].signal == id && rs[k].Err?
    requires forall k :: 0 <= k < |rs| && rs[k].Err? ==> failed[unique[k].signal] == rs[k].error
    ensures forall c :: c in Valids(ctx, Members(unique)) ==> c.signal !in failed
    ensures forall i :: i in unique && Normalise(ctx, i).Err? ==> i.signal in failed && failed[i.signal] == Normalise(ctx, i).error
  {
    var s := Members(unique);
    forall c | c in Valids(ctx, s)
      ensures c.signal !in failed
    {
      var i :| i in s && Normalise(ctx, i).Ok? && Normalise(ctx, i).value == c;
      forall k | 0 <= k < |rs| && unique[k].signal == c.signal
        ensures rs[k].Ok?
      {
        assert unique[k] in s;
      }
    }
    forall i | i in unique && Normalise(ctx, i).Err?
      ensures i.signal in failed && failed[i.signal] == Normalise(ctx, i).error
    {
      var k :| 0 <= k < |unique| && unique[k] == i;
      assert rs[k].Err?;
    }
  }
}
