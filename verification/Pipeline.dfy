/** The ensemble and the allocator together: what the one hands over meets what the other's guarantees ask for. */
module Pipeline {
  import opened Prelude
  import opened Sorting
  import opened Candidates
  import opened Portfolio
  import opened Clip
  import Ensemble
  import Allocator
  import AllocatorProofs

  ghost predicate UnitBundles(cs: seq<Candidate>) {
    forall c :: c in cs ==> WellFormed(c) && LegGross(c.legs) == 1.0
  }

  lemma ValidsAreUnit(ctx: Ensemble.Context, s: set<Ensemble.Intent>, c: Candidate)
    requires ctx.Valid() && Ensemble.AllValid(s) && c in Ensemble.Valids(ctx, s)
    ensures WellFormed(c) && LegGross(c.legs) == 1.0
  {
    var i :| i in s && Ensemble.Normalise(ctx, i).Ok? && Ensemble.Normalise(ctx, i).value == c;
    Ensemble.NormalisedUnitGross(ctx, i);
  }

  lemma {:induction false} GreedySorted(cs: seq<Candidate>, conflicted: set<Id>)
    requires Sorted(cs, Stronger)
    ensures Sorted(Ensemble.Greedy(cs, conflicted), Stronger)
    ensures forall c :: c in Ensemble.Greedy(cs, conflicted) ==> c in cs
  {
    if cs != [] {
      var n := |cs| - 1;
      assert cs == cs[..n] + [cs[n]];
      GreedySorted(cs[..n], conflicted);
      var g := Ensemble.Greedy(cs[..n], conflicted);
      forall i | 0 <= i < |g|
        ensures Stronger(g[i], cs[n])
      {
        assert g[i] in cs[..n];
        var j :| 0 <= j < n && cs[j] == g[i];
        assert Stronger(cs[j], cs[n]);
      }
    }
  }

  lemma DisjointSignals(cs: seq<Candidate>)
    requires Ensemble.PairwiseDisjoint(cs) && (forall c :: c in cs ==> WellFormed(c))
    requires forall c, d :: c in cs && d in cs && c.signal == d.signal ==> c == d
    ensures Ensemble.SignalsDiffer(cs)
  {
    forall i, j | 0 <= i < j < |cs|
      ensures cs[i].signal != cs[j].signal
    {
      assert cs[i] in cs && cs[j] in cs;
      var e := cs[i].legs[0].entity;
      assert e in Entities(cs[i]);
      assert e !in Entities(cs[i]) * Entities(cs[j]);
      assert e !in Entities(cs[j]);
    }
  }

  /**
   Candidates the ensemble selects are well-formed, of exactly unit gross, strongest first and without repeated
   signals.
   */
  lemma SelectedAreAllocatable(ctx: Ensemble.Context, s: set<Ensemble.Intent>, d: Ensemble.Decision)
    requires ctx.Valid() && Ensemble.AllValid(s) && Ensemble.Decides(ctx, s, d)
    ensures UnitBundles(d.candidates) && Sorted(d.candidates, Stronger) && Ensemble.SignalsDiffer(d.candidates)
  {
    if d.status.ConflictsResolved? {
      var valids := Ensemble.Valids(ctx, s);
      Ensemble.SelectionResolvesConflicts(valids);
      forall c | c in d.candidates
        ensures WellFormed(c) && LegGross(c.legs) == 1.0
      {
        ValidsAreUnit(ctx, s, c);
      }
      Ensemble.ValidSignalsDistinct(ctx, s);
      DisjointSignals(d.candidates);
      Ensemble.StrongerIsOrder();
      GreedySorted(Arrange(valids, Stronger), Ensemble.Conflicted(valids));
    }
  }

  /**
   So on the ensemble's output the allocator takes the candidates in the order given, never stops at a
   duplicate, conserves gross and risk exactly, and stays within the caps and the registered budget.
   */
  lemma PipelineConserves(ctx: Ensemble.Context, s: set<Ensemble.Intent>, d: Ensemble.Decision, inp: Allocator.Inputs)
    requires ctx.Valid() && Ensemble.AllValid(s) && Ensemble.Decides(ctx, s, d)
    requires inp.Valid() && inp.candidates == d.candidates
    ensures var a := Allocator.Allocation(inp);
            && Allocator.Ordered(inp) == inp.candidates
            && !a.status.DuplicateCandidate?
            && inp.positions <= a.targets
            && Gross(a.targets, Everything) == Gross(inp.positions, Everything) + AllocatorProofs.AllocatedGross(a.records)
            && Risk(a.targets) == Risk(inp.positions) + AllocatorProofs.AllocatedRisk(a.records)
            && (a.status.ProposalsOnly? ==> WithinCaps(a.targets, inp.settings.caps))
            && AllocatorProofs.AllocatedGross(a.records) <= 1.0
  {
    SelectedAreAllocatable(ctx, s, d);
    InOrderWithoutDuplicates(inp);
    AllocatorProofs.AllocationWithinCaps(inp);
    AllocatorProofs.TotalStaysInBudget(inp);
    if Allocator.Allocation(inp).status.ProposalsOnly? {
      AllocatorProofs.AllocationConserves(inp);
    }
  }

  lemma InOrderWithoutDuplicates(inp: Allocator.Inputs)
    requires inp.Valid() && Sorted(inp.candidates, Stronger) && Ensemble.SignalsDiffer(inp.candidates)
    ensures Allocator.Ordered(inp) == inp.candidates
    ensures Allocator.Gate(inp) != Some(Allocator.DuplicateCandidate) && !Allocator.Allocation(inp).status.DuplicateCandidate?
  {
    SortOfSorted(inp.candidates, Stronger);
  }

  /** And wherever it reports no capacity, the clip alone left less than one tick: the recheck rejects nothing. */
  lemma PipelineRecheckIsRedundant(
      ctx: Ensemble.Context, s: set<Ensemble.Intent>, d: Ensemble.Decision, inp: Allocator.Inputs, n: nat)
    requires ctx.Valid() && Ensemble.AllValid(s) && Ensemble.Decides(ctx, s, d)
    requires inp.Valid() && inp.candidates == d.candidates && n < |inp.candidates| && Allocator.Gate(inp).None?
    ensures AllocatorProofs.AllWellFormed(inp.candidates)
    ensures var targets, c := Allocator.Pass(inp, inp.candidates, n).0, inp.candidates[n];
            var t := AllocatorProofs.SizingTerms(inp, inp.candidates, targets, c);
            Allocator.Evaluate(inp, Allocator.BookOf(inp), inp.candidates, targets, c).reason.NoCapacity? ==>
              t.Some? && ValidTerms(c, t.value, inp.settings.caps) && Amount(inp.settings.caps, targets, c, t.value) == 0.0
  {
    SelectedAreAllocatable(ctx, s, d);
    assert inp.candidates[n] in d.candidates;
    AllocatorProofs.RecheckIsRedundant(inp, inp.candidates, n);
  }
}
