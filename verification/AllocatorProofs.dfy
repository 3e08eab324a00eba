/** What every allocation keeps: caps, conservation, budgets, and the redundancy of the recheck. */
module AllocatorProofs {
  import opened Prelude
  import opened Sorting
  import opened Rules
  import opened Candidates
  import opened Portfolio
  import opened Clip
  import opened Allocator

  ghost predicate AllWellFormed(cs: seq<Candidate>) {
    forall c :: c in cs ==> WellFormed(c)
  }

  lemma OrderedWellFormed(inp: Inputs)
    requires inp.Valid()
    ensures AllWellFormed(Ordered(inp)) && |Ordered(inp)| == |inp.candidates|
  {
    SortMembers(inp.candidates, Stronger);
  }

  /** From a portfolio within caps, the targets stay within every cap after each candidate. */
  lemma {:induction false} PassStaysWithinCaps(inp: Inputs, sorted: seq<Candidate>, n: nat)
    requires inp.Valid() && AllWellFormed(sorted) && n <= |sorted|
    requires WithinCaps(inp.positions, inp.settings.caps)
    ensures WithinCaps(Pass(inp, sorted, n).0, inp.settings.caps)
  {
    if n > 0 {
      PassStaysWithinCaps(inp, sorted, n - 1);
      var before := Pass(inp, sorted, n - 1).0;
      ProposalIsWithinCaps(inp, sorted, before, sorted[n - 1]);
    }
  }

  /** What a proposal records: a clipped positive amount whose bundle passed the recheck. */
  lemma ProposalIsWithinCaps(inp: Inputs, sorted: seq<Candidate>, targets: seq<Position>, c: Candidate)
    requires inp.Valid() && WellFormed(c)
    ensures var v := Evaluate(inp, BookOf(inp), sorted, targets, c);
            && v.amount >= 0.0
            && (v.reason.ProposedRequiresRisk? ==> v.amount > 0.0 && WithinCaps(targets + Bundle(c, v.amount, v.loss), inp.settings.caps))
            && (!v.reason.ProposedRequiresRisk? ==> v.amount == 0.0)
  {
  }

  /**
   A decision either repeats the portfolio or is within every cap; existing exposure over a cap is left for review.
   */
  lemma AllocationWithinCaps(inp: Inputs)
    requires inp.Valid()
    ensures var d := Allocation(inp);
            && (d.status.ProposalsOnly? ==> WithinCaps(d.targets, inp.settings.caps))
            && (!d.status.ProposalsOnly? ==> d.targets == inp.positions && d.records == [])
  {
    OrderedWellFormed(inp);
    if Gate(inp).None? {
      PassStaysWithinCaps(inp, Ordered(inp), |inp.candidates|);
    }
  }

  /** The terms on which a candidate is sized, if its evaluation gets that far. */
  ghost function SizingTerms(inp: Inputs, sorted: seq<Candidate>, targets: seq<Position>, c: Candidate): Option<Terms>
    requires inp.Valid() && WellFormed(c)
  {
    var book := BookOf(inp);
    if c.alpha !in book.health || c.signal !in book.estimates then None
    else
      var h, e := book.health[c.alpha], book.estimates[c.signal];
      var correlation := Correlated(book, c.legs, targets, |c.legs|);
      var legCaps := LegCaps(inp, book, c.legs, |c.legs|);
      if !Usable(inp, c, h, e) || RoomRefusal(inp.settings.caps, targets, c).Some? || correlation.None? || legCaps.Err? then None
      else
        PenaltyAtLeastOne(inp.settings, e, |SectorNeighbours(targets, c)|, correlation.value);
        Some(TermsOf(inp, sorted, c, h, e, Penalty(inp.settings, e, |SectorNeighbours(targets, c)|, correlation.value), legCaps.value))
  }

  /** A verdict on capacity comes from sizing; anything else is a refusal with nothing allocated. */
  lemma VerdictFromTerms(inp: Inputs, sorted: seq<Candidate>, targets: seq<Position>, c: Candidate)
    requires inp.Valid() && WellFormed(c)
    ensures var v, t := Evaluate(inp, BookOf(inp), sorted, targets, c), SizingTerms(inp, sorted, targets, c);
            && (v.reason.NoCapacity? || v.reason.ProposedRequiresRisk? ==>
                  && t.Some? && ValidTerms(c, t.value, inp.settings.caps) && RoomFor(inp.settings.caps, targets, c)
                  && v == Size(inp, targets, c, t.value, v.multiplier, v.penalty))
            && (!v.reason.NoCapacity? && !v.reason.ProposedRequiresRisk? ==> v.amount == 0.0)
  {
  }

  /**
   With legs of exactly unit gross the recheck in the loop is redundant: wherever the pass reports no
   capacity, the clip itself left less than one tick.
   */
  lemma RecheckIsRedundant(inp: Inputs, sorted: seq<Candidate>, n: nat)
    requires inp.Valid() && AllWellFormed(sorted) && n < |sorted|
    requires WithinCaps(inp.positions, inp.settings.caps)
    requires LegGross(sorted[n].legs) == 1.0
    ensures var targets, c := Pass(inp, sorted, n).0, sorted[n];
            var t := SizingTerms(inp, sorted, targets, c);
            Evaluate(inp, BookOf(inp), sorted, targets, c).reason.NoCapacity? ==>
              t.Some? && ValidTerms(c, t.value, inp.settings.caps) && Amount(inp.settings.caps, targets, c, t.value) == 0.0
  {
    var targets, c := Pass(inp, sorted, n).0, sorted[n];
    PassStaysWithinCaps(inp, sorted, n);
    VerdictFromTerms(inp, sorted, targets, c);
    var t := SizingTerms(inp, sorted, targets, c);
    if Evaluate(inp, BookOf(inp), sorted, targets, c).reason.NoCapacity? && Amount(inp.settings.caps, targets, c, t.value) > 0.0 {
      ClipImpliesRecheck(inp.settings.caps, targets, c, t.value, Amount(inp.settings.caps, targets, c, t.value));
    }
  }

  /** The bundles that a list of records stands for, in candidate order. */
  function Additions(cs: seq<Candidate>, rs: seq<Record>): seq<Position>
    requires |cs| == |rs|
  {
    if rs == [] then []
    else
      var n := |rs| - 1;
      Additions(cs[..n], rs[..n]) + (if rs[n].amount > 0.0 then Bundle(cs[n], rs[n].amount, rs[n].loss) else [])
  }

  function AllocatedGross(rs: seq<Record>): real {
    if rs == [] then 0.0 else AllocatedGross(rs[..|rs| - 1]) + rs[|rs| - 1].amount
  }

  function AllocatedRisk(rs: seq<Record>): real {
    if rs == [] then 0.0 else AllocatedRisk(rs[..|rs| - 1]) + Times(rs[|rs| - 1].amount, rs[|rs| - 1].loss)
  }

  /** The targets are the positions followed by the bundles of the records, one record for each candidate. */
  ghost predicate Accounts(positions: seq<Position>, cs: seq<Candidate>, targets: seq<Position>, records: seq<Record>) {
    && |records| == |cs|
    && (forall i :: 0 <= i < |cs| ==> records[i].signal == cs[i].signal && records[i].alpha == cs[i].alpha && records[i].amount >= 0.0)
    && targets == positions + Additions(cs, records)
  }

  /** The pass over verdicts that are already known. */
  function Fold(positions: seq<Position>, cs: seq<Candidate>, vs: seq<Verdict>): (seq<Position>, seq<Record>)
    requires |vs| == |cs|
  {
    if cs == [] then (positions, [])
    else
      var n := |cs| - 1;
      Extend(Fold(positions, cs[..n], vs[..n]), cs[n], vs[n])
  }

  /** A rule that every verdict on a candidate keeps, whatever the targets. */
  type Rule = (Candidate, Verdict) -> bool

  ghost predicate Governs(rule: Rule, inp: Inputs, sorted: seq<Candidate>)
    requires inp.Valid() && AllWellFormed(sorted)
  {
    forall targets, c :: c in sorted ==> rule(c, Evaluate(inp, BookOf(inp), sorted, targets, c))
  }

  ghost predicate AllKeep(rule: Rule, cs: seq<Candidate>, vs: seq<Verdict>) {
    |vs| == |cs| && forall i :: 0 <= i < |cs| ==> rule(cs[i], vs[i])
  }

  /** States that grow by one verdict at a time reach the fold. */
  lemma {:induction false} StepsReachFold(
      positions: seq<Position>, cs: seq<Candidate>, vs: seq<Verdict>, states: seq<(seq<Position>, seq<Record>)>)
    requires |vs| == |cs| && |states| == |cs| + 1 && states[0] == (positions, [])
    requires forall i :: 0 <= i < |cs| ==> states[i + 1] == Extend(states[i], cs[i], vs[i])
    ensures states[|cs|] == Fold(positions, cs, vs)
  {
    if cs != [] {
      var n := |cs| - 1;
      StepsReachFold(positions, cs[..n], vs[..n], states[..n + 1]);
      assert states[n + 1] == Extend(states[n], cs[n], vs[n]);
    }
  }

  ghost function VerdictAt(inp: Inputs, sorted: seq<Candidate>, i: nat): Verdict
    requires inp.Valid() && AllWellFormed(sorted) && i < |sorted|
  {
    Evaluate(inp, BookOf(inp), sorted, Pass(inp, sorted, i).0, sorted[i])
  }

  lemma VerdictExtends(inp: Inputs, sorted: seq<Candidate>, i: nat, rule: Rule)
    requires inp.Valid() && AllWellFormed(sorted) && i < |sorted| && Governs(rule, inp, sorted)
    ensures Pass(inp, sorted, i + 1) == Extend(Pass(inp, sorted, i), sorted[i], VerdictAt(inp, sorted, i))
    ensures rule(sorted[i], VerdictAt(inp, sorted, i))
  {
    Allocator.PassStep(inp, sorted, i, VerdictAt(inp, sorted, i));
  }

  /** The pass is the fold of its verdicts, and they keep every rule that governs them. */
  lemma PassIsFold(inp: Inputs, sorted: seq<Candidate>, n: nat, rule: Rule) returns (vs: seq<Verdict>)
    requires inp.Valid() && AllWellFormed(sorted) && n <= |sorted| && Governs(rule, inp, sorted)
    ensures AllKeep(rule, sorted[..n], vs)
    ensures Pass(inp, sorted, n) == Fold(inp.positions, sorted[..n], vs)
  {
    vs := seq(n, i requires 0 <= i < n => VerdictAt(inp, sorted, i));
    var states := seq(n + 1, i requires 0 <= i < n + 1 => Pass(inp, sorted, i));
    forall i | 0 <= i < n
      ensures states[i + 1] == Extend(states[i], sorted[i], vs[i]) && rule(sorted[i], vs[i])
    {
      VerdictExtends(inp, sorted, i, rule);
    }
    StepsReachFold(inp.positions, sorted[..n], vs, states);
  }

  /** An amount exactly with a proposal, and no negative loss. */
  function Sizes(): Rule {
    (c: Candidate, v: Verdict) => v.amount >= 0.0 && v.loss >= 0.0 && (v.reason.ProposedRequiresRisk? <==> v.amount > 0.0)
  }

  lemma SizesGovern(inp: Inputs, sorted: seq<Candidate>)
    requires inp.Valid() && AllWellFormed(sorted)
    ensures Governs(Sizes(), inp, sorted)
  {
    forall targets, c | c in sorted
      ensures Sizes()(c, Evaluate(inp, BookOf(inp), sorted, targets, c))
    {
      ProposalIsWithinCaps(inp, sorted, targets, c);
      LossNonnegative(inp, sorted, targets, c);
    }
  }

  lemma {:induction false} FoldAccounts(positions: seq<Position>, cs: seq<Candidate>, vs: seq<Verdict>)
    requires AllKeep(Sizes(), cs, vs)
    ensures var (targets, records) := Fold(positions, cs, vs);
            Accounts(positions, cs, targets, records) && LossesNonnegative(records)
  {
    if cs == [] {
      assert positions + [] == positions;
    } else {
      var n := |cs| - 1;
      FoldAccounts(positions, cs[..n], vs[..n]);
      var before := Fold(positions, cs[..n], vs[..n]);
      assert Sizes()(cs[n], vs[n]);
      ExtendAccounts(positions, cs[..n], before.0, before.1, cs[n], vs[n]);
      assert cs == cs[..n] + [cs[n]];
    }
  }

  ghost predicate LossesNonnegative(records: seq<Record>) {
    forall i :: 0 <= i < |records| ==> records[i].loss >= 0.0
  }

  /**
   Conservation: the targets are the existing positions untouched, followed by whole bundles in
   candidate order, one for each record with an amount.
   */
  lemma TargetsAreExistingPlusBundles(inp: Inputs, sorted: seq<Candidate>, n: nat)
    requires inp.Valid() && AllWellFormed(sorted) && n <= |sorted|
    ensures Accounts(inp.positions, sorted[..n], Pass(inp, sorted, n).0, Pass(inp, sorted, n).1)
    ensures LossesNonnegative(Pass(inp, sorted, n).1)
  {
    SizesGovern(inp, sorted);
    var vs := PassIsFold(inp, sorted, n, Sizes());
    FoldAccounts(inp.positions, sorted[..n], vs);
  }

  lemma ExtendAccounts(
      positions: seq<Position>, cs: seq<Candidate>, targets: seq<Position>, records: seq<Record>, c: Candidate,
      v: Verdict)
    requires Accounts(positions, cs, targets, records)
    requires LossesNonnegative(records) && Sizes()(c, v)
    ensures var after := Extend((targets, records), c, v);
            Accounts(positions, cs + [c], after.0, after.1) && LossesNonnegative(after.1)
  {
    AdditionsStep(cs, records, c, RecordOf(c, v));
    if v.amount > 0.0 {
      Regroup(positions, Additions(cs, records), Bundle(c, v.amount, v.loss));
    }
  }

  lemma Regroup(a: seq<Position>, b: seq<Position>, c: seq<Position>)
    ensures (a + b) + c == a + (b + c)
  {
  }

  lemma AdditionsStep(cs: seq<Candidate>, rs: seq<Record>, c: Candidate, r: Record)
    requires |cs| == |rs|
    ensures Additions(cs + [c], rs + [r]) == if r.amount > 0.0 then Additions(cs, rs) + Bundle(c, r.amount, r.loss) else Additions(cs, rs)
  {
    assert (rs + [r])[..|rs|] == rs && (cs + [c])[..|cs|] == cs;
  }

  /** With unit-gross legs the gross and the risk the bundles add are the recorded ones. */
  lemma {:induction false} RecordedGrossIsAddedGross(cs: seq<Candidate>, rs: seq<Record>)
    requires |cs| == |rs| && forall i :: 0 <= i < |rs| ==> rs[i].amount >= 0.0 && rs[i].loss >= 0.0 && LegGross(cs[i].legs) == 1.0
    ensures Gross(Additions(cs, rs), Everything) == AllocatedGross(rs)
    ensures Risk(Additions(cs, rs)) == AllocatedRisk(rs)
  {
    if rs != [] {
      var n := |rs| - 1;
      RecordedGrossIsAddedGross(cs[..n], rs[..n]);
      var before, r := Additions(cs[..n], rs[..n]), rs[n];
      if r.amount > 0.0 {
        AddBundle(before, cs[n], r.amount, r.loss);
      } else {
        assert before + [] == before;
      }
    }
  }

  lemma AddBundle(before: seq<Position>, c: Candidate, amount: real, loss: real)
    requires amount >= 0.0 && loss >= 0.0 && LegGross(c.legs) == 1.0
    ensures Gross(before + Bundle(c, amount, loss), Everything) == Gross(before, Everything) + amount
    ensures Risk(before + Bundle(c, amount, loss)) == Risk(before) + Times(amount, loss)
  {
    var b := Bundle(c, amount, loss);
    GrossConcat(before, b, Everything);
    RiskConcat(before, b);
    UnitBundle(c, amount, loss);
  }

  lemma UnitBundle(c: Candidate, amount: real, loss: real)
    requires amount >= 0.0 && loss >= 0.0 && LegGross(c.legs) == 1.0
    ensures Gross(Bundle(c, amount, loss), Everything) == amount
    ensures Risk(Bundle(c, amount, loss)) == Times(amount, loss)
  {
    Nonnegative(amount, loss);
    BundleGross(c.legs, c.signal, c.alpha, amount, loss, Everything);
    WeightBounds(c.legs, c.alpha, Everything);
    BundleRisk(c.legs, c.signal, c.alpha, amount, loss, Times(amount, loss));
  }

  lemma LossNonnegative(inp: Inputs, sorted: seq<Candidate>, targets: seq<Position>, c: Candidate)
    requires inp.Valid() && WellFormed(c)
    ensures Evaluate(inp, BookOf(inp), sorted, targets, c).loss >= 0.0
  {
  }

  lemma AccountsConserve(positions: seq<Position>, cs: seq<Candidate>, targets: seq<Position>, records: seq<Record>)
    requires Accounts(positions, cs, targets, records) && LossesNonnegative(records)
    requires forall i :: 0 <= i < |cs| ==> LegGross(cs[i].legs) == 1.0
    ensures positions <= targets
    ensures Gross(targets, Everything) == Gross(positions, Everything) + AllocatedGross(records)
    ensures Risk(targets) == Risk(positions) + AllocatedRisk(records)
  {
    RecordedGrossIsAddedGross(cs, records);
    var added := Additions(cs, records);
    GrossConcat(positions, added, Everything);
    RiskConcat(positions, added);
  }

  /** Conservation over the whole decision: what the targets gain is what the records say. */
  lemma AllocationConserves(inp: Inputs)
    requires inp.Valid() && Allocation(inp).status.ProposalsOnly?
    requires forall c :: c in inp.candidates ==> LegGross(c.legs) == 1.0
    ensures var d := Allocation(inp);
            && inp.positions <= d.targets
            && Gross(d.targets, Everything) == Gross(inp.positions, Everything) + AllocatedGross(d.records)
            && Risk(d.targets) == Risk(inp.positions) + AllocatedRisk(d.records)
  {
    ProposalsArePass(inp);
    SortMembers(inp.candidates, Stronger);
    PassConserves(inp, Ordered(inp));
  }

  lemma PassConserves(inp: Inputs, sorted: seq<Candidate>)
    requires inp.Valid() && AllWellFormed(sorted) && forall c :: c in sorted ==> LegGross(c.legs) == 1.0
    ensures var (targets, records) := Pass(inp, sorted, |sorted|);
            && inp.positions <= targets
            && Gross(targets, Everything) == Gross(inp.positions, Everything) + AllocatedGross(records)
            && Risk(targets) == Risk(inp.positions) + AllocatedRisk(records)
  {
    TargetsAreExistingPlusBundles(inp, sorted, |sorted|);
    assert sorted[..|sorted|] == sorted;
    var so := Pass(inp, sorted, |sorted|);
    AccountsConserve(inp.positions, sorted, so.0, so.1);
  }

  lemma ProposalsArePass(inp: Inputs)
    requires inp.Valid() && Allocation(inp).status.ProposalsOnly?
    ensures AllWellFormed(Ordered(inp)) && |Ordered(inp)| == |inp.candidates|
    ensures (Allocation(inp).targets, Allocation(inp).records) == Pass(inp, Ordered(inp), |Ordered(inp)|)
  {
    OrderedWellFormed(inp);
  }

  function AmountFor(rs: seq<Record>, a: AlphaFamily): real {
    if rs == [] then 0.0
    else AmountFor(rs[..|rs| - 1], a) + (if rs[|rs| - 1].alpha == a then rs[|rs| - 1].amount else 0.0)
  }

  /** The budget an alpha has today: base budget, scaled by the regime and by its health. */
  function BudgetToday(inp: Inputs, a: AlphaFamily): real {
    var health := Index(inp.health, HealthKey);
    if a in health then AlphaBudget(inp, health[a].multiplier, a) else 0.0
  }

  lemma BudgetTodayBounds(inp: Inputs, a: AlphaFamily)
    requires inp.Valid()
    ensures 0.0 <= BudgetToday(inp, a) <= BudgetOf(inp.registry, a)
  {
    var health := Index(inp.health, HealthKey);
    if a in health {
      assert health[a] in inp.health;
      var base := BudgetOf(inp.registry, a);
      assert a in inp.registry;
      Nonnegative(base, inp.regime.multiplier);
      ShrinkByWeight(base, inp.regime.multiplier);
      Nonnegative(Times(base, inp.regime.multiplier), health[a].multiplier);
      ShrinkByWeight(Times(base, inp.regime.multiplier), health[a].multiplier);
    } else {
      assert a in inp.registry;
    }
  }

  lemma DividedShare(amount: real, x: real, s: real, p: real)
    requires s >= 1.0 && p >= 1.0 && x >= 0.0 && amount <= x / s / p
    ensures Times(amount, s) <= x
  {
    var q := x / s;
    assert q * s == x && q >= 0.0;
    assert (q / p) * p == q && q / p >= 0.0;
    assert (q / p) * (p - 1.0) >= 0.0;
    assert (q - amount) * s >= 0.0;
  }

  /** One candidate takes at most its strength's share of the alpha budget. */
  lemma CandidateShare(inp: Inputs, sorted: seq<Candidate>, targets: seq<Position>, c: Candidate)
    requires inp.Valid() && WellFormed(c)
    ensures var v := Evaluate(inp, BookOf(inp), sorted, targets, c);
            Times(v.amount, ScoreSum(sorted, c.alpha)) <= Times(BudgetToday(inp, c.alpha), c.strength)
  {
    VerdictFromTerms(inp, sorted, targets, c);
    BudgetTodayBounds(inp, c.alpha);
    Nonnegative(BudgetToday(inp, c.alpha), c.strength);
    var v, t := Evaluate(inp, BookOf(inp), sorted, targets, c), SizingTerms(inp, sorted, targets, c);
    if v.amount > 0.0 {
      AmountWithinDesired(inp.settings.caps, targets, c, t.value);
      DesiredShare(inp, sorted, targets, c, v.amount);
    }
  }

  lemma DesiredShare(inp: Inputs, sorted: seq<Candidate>, targets: seq<Position>, c: Candidate, amount: real)
    requires inp.Valid() && WellFormed(c) && SizingTerms(inp, sorted, targets, c).Some?
    requires amount <= SizingTerms(inp, sorted, targets, c).value.desired
    ensures Times(amount, ScoreSum(sorted, c.alpha)) <= Times(BudgetToday(inp, c.alpha), c.strength)
  {
    var book := BookOf(inp);
    var e := book.estimates[c.signal];
    var correlation := Correlated(book, c.legs, targets, |c.legs|);
    PenaltyAtLeastOne(inp.settings, e, |SectorNeighbours(targets, c)|, correlation.value);
    BudgetTodayBounds(inp, c.alpha);
    Nonnegative(BudgetToday(inp, c.alpha), c.strength);
    DividedShare(amount, Times(BudgetToday(inp, c.alpha), c.strength), ScoreSum(sorted, c.alpha),
                 Penalty(inp.settings, e, |SectorNeighbours(targets, c)|, correlation.value));
  }

  /** An amount within its strength's share, given the divisor and the budget of each alpha. */
  function Shares(total: AlphaFamily -> real, budget: AlphaFamily -> real): Rule {
    (c: Candidate, v: Verdict) => Times(v.amount, total(c.alpha)) <= Times(budget(c.alpha), c.strength)
  }

  ghost function TotalsOf(sorted: seq<Candidate>): AlphaFamily -> real {
    (a: AlphaFamily) => ScoreSum(sorted, a)
  }

  ghost function BudgetsOf(inp: Inputs): AlphaFamily -> real {
    (a: AlphaFamily) => BudgetToday(inp, a)
  }

  lemma SharesGovern(inp: Inputs, sorted: seq<Candidate>)
    requires inp.Valid() && AllWellFormed(sorted)
    ensures Governs(Shares(TotalsOf(sorted), BudgetsOf(inp)), inp, sorted)
  {
    forall targets, c | c in sorted
      ensures Shares(TotalsOf(sorted), BudgetsOf(inp))(c, Evaluate(inp, BookOf(inp), sorted, targets, c))
    {
      CandidateShare(inp, sorted, targets, c);
    }
  }

  lemma {:induction false} FoldShares(
      positions: seq<Position>, cs: seq<Candidate>, vs: seq<Verdict>, a: AlphaFamily, total: AlphaFamily -> real,
      budget: AlphaFamily -> real)
    requires AllKeep(Shares(total, budget), cs, vs)
    ensures Times(AmountFor(Fold(positions, cs, vs).1, a), total(a)) <= Times(budget(a), StrengthSum(cs, a))
  {
    if cs == [] {
      assert Times(0.0, total(a)) == 0.0 && Times(budget(a), 0.0) == 0.0;
    } else {
      var n := |cs| - 1;
      FoldShares(positions, cs[..n], vs[..n], a, total, budget);
      assert Shares(total, budget)(cs[n], vs[n]);
      ShareNext(Fold(positions, cs[..n], vs[..n]).1, RecordOf(cs[n], vs[n]), a, total(a), budget(a), cs[..n], cs[n]);
      assert cs == cs[..n] + [cs[n]];
    }
  }

  /**
   The shares add up: after any number of candidates an alpha has used at most the budget share of the strengths
   seen.
   */
  lemma SharesAddUp(inp: Inputs, sorted: seq<Candidate>, a: AlphaFamily, n: nat)
    requires inp.Valid() && AllWellFormed(sorted) && n <= |sorted|
    ensures Times(AmountFor(Pass(inp, sorted, n).1, a), ScoreSum(sorted, a)) <= Times(BudgetToday(inp, a), StrengthSum(sorted[..n], a))
  {
    SharesGovern(inp, sorted);
    var vs := PassIsFold(inp, sorted, n, Shares(TotalsOf(sorted), BudgetsOf(inp)));
    FoldShares(inp.positions, sorted[..n], vs, a, TotalsOf(sorted), BudgetsOf(inp));
  }

  lemma ShareNext(
      rs: seq<Record>, r: Record, a: AlphaFamily, total: real, budget: real, cs: seq<Candidate>, c: Candidate)
    requires Times(AmountFor(rs, a), total) <= Times(budget, StrengthSum(cs, a)) && r.alpha == c.alpha
    requires c.alpha == a ==> Times(r.amount, total) <= Times(budget, c.strength)
    ensures Times(AmountFor(rs + [r], a), total) <= Times(budget, StrengthSum(cs + [c], a))
  {
    AmountForStep(rs, r, a);
    StrengthSumStep(cs, c, a);
    if c.alpha == a {
      AddShares(AmountFor(rs, a), r.amount, StrengthSum(cs, a), c.strength, total, budget);
    }
  }

  lemma StrengthSumStep(cs: seq<Candidate>, c: Candidate, a: AlphaFamily)
    ensures StrengthSum(cs + [c], a) == StrengthSum(cs, a) + (if c.alpha == a then c.strength else 0.0)
  {
    assert (cs + [c])[..|cs|] == cs;
  }

  lemma AddShares(x: real, dx: real, s: real, ds: real, total: real, budget: real)
    requires Times(x, total) <= Times(budget, s) && Times(dx, total) <= Times(budget, ds)
    ensures Times(x + dx, total) <= Times(budget, s + ds)
  {
    Distribute(x, dx, total);
    Distribute(s, ds, budget);
  }

  lemma AmountForStep(rs: seq<Record>, r: Record, a: AlphaFamily)
    ensures AmountFor(rs + [r], a) == AmountFor(rs, a) + (if r.alpha == a then r.amount else 0.0)
  {
    assert (rs + [r])[..|rs|] == rs;
  }

  lemma Distribute(x: real, y: real, s: real)
    ensures Times(x + y, s) == Times(x, s) + Times(y, s)
    ensures Times(s, x + y) == Times(s, x) + Times(s, y)
  {
  }

  lemma CancelSum(x: real, b: real, y: real, s: real)
    requires s >= 1.0 && s >= y && b >= 0.0 && Times(x, s) <= Times(b, y)
    ensures x <= b
  {
    assert b * (s - y) >= 0.0;
    assert (x - b) * s <= 0.0;
  }

  /** Budget fairness: no alpha is ever proposed more than its budget for the day. */
  lemma AlphaStaysInBudget(inp: Inputs, sorted: seq<Candidate>, a: AlphaFamily)
    requires inp.Valid() && AllWellFormed(sorted)
    ensures AmountFor(Pass(inp, sorted, |sorted|).1, a) <= BudgetToday(inp, a)
  {
    SharesAddUp(inp, sorted, a, |sorted|);
    assert sorted[..|sorted|] == sorted;
    BudgetTodayBounds(inp, a);
    CancelSum(AmountFor(Pass(inp, sorted, |sorted|).1, a), BudgetToday(inp, a), StrengthSum(sorted, a), ScoreSum(sorted, a));
  }

  lemma {:induction false} AmountsByAlpha(rs: seq<Record>)
    ensures AllocatedGross(rs) ==
            AmountFor(rs, CrossSectionalMomentum) + AmountFor(rs, MomentumBreakout) + AmountFor(rs, PairsStatArb) +
            AmountFor(rs, VwapMeanReversion) + AmountFor(rs, SectorRelativeValue)
  {
    if rs != [] {
      AmountsByAlpha(rs[..|rs| - 1]);
    }
  }

  /** In total no decision proposes more than the registry's budget, hence never more than the equity. */
  lemma TotalStaysInBudget(inp: Inputs)
    requires inp.Valid()
    ensures AllocatedGross(Allocation(inp).records) <= TotalBudget(inp.registry) <= 1.0
  {
    OrderedWellFormed(inp);
    var sorted := Ordered(inp);
    var records := Pass(inp, sorted, |sorted|).1;
    AmountsByAlpha(records);
    forall a: AlphaFamily
      ensures AmountFor(records, a) <= BudgetOf(inp.registry, a) && BudgetOf(inp.registry, a) >= 0.0
    {
      AlphaStaysInBudget(inp, sorted, a);
      BudgetTodayBounds(inp, a);
    }
  }

  /** The records meet the checks of their own constructor, so building them never fails. */
  lemma RecordsAreValid(inp: Inputs, sorted: seq<Candidate>, targets: seq<Position>, c: Candidate)
    requires inp.Valid() && WellFormed(c)
    ensures var r := RecordOf(c, Evaluate(inp, BookOf(inp), sorted, targets, c));
            r.amount >= 0.0 && 0.0 <= r.multiplier <= 1.0 && r.penalty >= 1.0
  {
    var book := BookOf(inp);
    if c.alpha in book.health && c.signal in book.estimates {
      var correlation := Correlated(book, c.legs, targets, |c.legs|);
      if correlation.Some? {
        PenaltyAtLeastOne(inp.settings, book.estimates[c.signal], |SectorNeighbours(targets, c)|, correlation.value);
      }
    }
  }
}
