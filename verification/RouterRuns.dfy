/** Guarantees of the router over whole runs: any inputs, including refused and repeated ones. */
module RouterRuns {
  import opened Prelude
  import opened Rules
  import opened Router

  function After(cfg: Settings, cal: Calendar, inputs: seq<Input>): Memory {
    if inputs == [] then FRESH
    else Route(cfg, cal, After(cfg, cal, inputs[..|inputs| - 1]), inputs[|inputs| - 1]).0
  }

  /** The decisions of a run, one for each input that was neither refused nor a repeat. */
  function Decisions(cfg: Settings, cal: Calendar, inputs: seq<Input>): seq<Decision> {
    if inputs == [] then []
    else
      var before, i := inputs[..|inputs| - 1], inputs[|inputs| - 1];
      var m := After(cfg, cal, before);
      Decisions(cfg, cal, before) +
      (if m.last.None? || m.last.value.at < i.at then [Decide(cfg, cal, m, i)] else [])
  }

  /** Decision `k` rests on a feature timestamp newer than all before it. */
  predicate Newer(ds: seq<Decision>, k: nat)
    requires k < |ds|
  {
    forall i :: 0 <= i < k ==> ds[i].featureTime < ds[k].featureTime
  }

  /** Decision `k` continues the candidate of the one before: same session, no over-long gap. */
  predicate Continues(cfg: Settings, ds: seq<Decision>, k: nat)
    requires k < |ds|
  {
    && k > 0
    && ds[k].candidate == ds[k - 1].candidate
    && ds[k].sessionOpen == ds[k - 1].sessionOpen
    && ds[k].at - ds[k - 1].at <= cfg.maxConfirmationGap * SECOND
  }

  predicate OpensSession(ds: seq<Decision>, k: nat)
    requires k < |ds|
  {
    k == 0 || ds[k].sessionOpen != ds[k - 1].sessionOpen
  }

  /** The state decision `k` found in force, and since when. */
  function Held(ds: seq<Decision>, k: nat): (MarketState, Instant)
    requires k < |ds|
  {
    if OpensSession(ds, k) then (RiskOff, ds[k].at) else (ds[k - 1].state, ds[k - 1].since)
  }

  /** How each decision follows from those before it. */
  predicate Follows(cfg: Settings, ds: seq<Decision>, k: nat)
    requires k < |ds|
  {
    var d, (held, since) := ds[k], Held(ds, k);
    var veto := d.candidate.RiskOff? || d.candidate.OpenShock? || d.candidate.HighVol?;
    var moves := d.candidate != held &&
                 (veto || (d.count >= cfg.confirmationCount && d.at - since >= cfg.minDuration * SECOND));
    && (k > 0 ==> ds[k - 1].at < d.at)
    && d.count == (if Continues(cfg, ds, k) then ds[k - 1].count else 0) + (if Newer(ds, k) then 1 else 0)
    && d.state == (if moves then d.candidate else held)
    && d.since == (if moves then d.at else since)
    && d.previousState == (if k > 0 then ds[k - 1].state else RiskOff)
  }

  ghost predicate IsRun(cfg: Settings, ds: seq<Decision>) {
    forall k :: 0 <= k < |ds| ==> Follows(cfg, ds, k)
  }

  /** The memory holds the last decision and the newest feature timestamp of the run. */
  ghost predicate Tracks(m: Memory, ds: seq<Decision>) {
    if ds == [] then
      m.last.None? && m.pending.None? && m.count == 0 && m.featureTime.None?
    else
      var d := ds[|ds| - 1];
      && m.last == Some(d) && m.pending == Some(d.candidate) && m.count == d.count
      && m.identity.Some? && m.identity.value.at == d.at
      && m.featureTime.Some?
      && (forall i :: 0 <= i < |ds| ==> ds[i].featureTime <= m.featureTime.value)
      && (exists i :: 0 <= i < |ds| && ds[i].featureTime == m.featureTime.value)
  }

  lemma DecideFollows(cfg: Settings, cal: Calendar, m: Memory, ds: seq<Decision>, i: Input)
    requires Tracks(m, ds) && IsRun(cfg, ds)
    requires m.last.None? || m.last.value.at < i.at
    ensures var d := Decide(cfg, cal, m, i);
            IsRun(cfg, ds + [d]) && Tracks(Remember(m, i, d), ds + [d])
  {
    var opening, candidate, ruled := OpeningOf(cal, i), Candidate(cfg, cal, i), Ruled(cfg, cal, i);
    var d := Conclude(cfg, m, i, opening, candidate, ruled);
    NewerThanAll(m, ds, d);
    ConcludeFollows(cfg, m, ds, i, opening, candidate, ruled);
    ExtendRun(cfg, ds, d);
    TracksNext(m, ds, i, d);
  }

  lemma NewerThanAll(m: Memory, ds: seq<Decision>, d: Decision)
    requires Tracks(m, ds)
    ensures Newer(ds + [d], |ds|) <==> m.featureTime.None? || d.featureTime > m.featureTime.value
  {
    var all := ds + [d];
    assert forall k :: 0 <= k < |ds| ==> all[k] == ds[k];
  }

  lemma ConcludeFollows(
      cfg: Settings, m: Memory, ds: seq<Decision>, i: Input, opening: Option<Instant>, candidate: MarketState,
      ruled: seq<Reason>)
    requires Tracks(m, ds) && (m.last.None? || m.last.value.at < i.at)
    requires var d := Conclude(cfg, m, i, opening, candidate, ruled);
             Newer(ds + [d], |ds|) <==> m.featureTime.None? || d.featureTime > m.featureTime.value
    ensures Follows(cfg, ds + [Conclude(cfg, m, i, opening, candidate, ruled)], |ds|)
  {
    var n := |ds|;
    var all := ds + [Conclude(cfg, m, i, opening, candidate, ruled)];
    assert n > 0 ==> all[n - 1] == ds[n - 1] == m.last.value;
  }

  lemma ExtendRun(cfg: Settings, ds: seq<Decision>, d: Decision)
    requires IsRun(cfg, ds) && Follows(cfg, ds + [d], |ds|)
    ensures IsRun(cfg, ds + [d])
  {
    var all := ds + [d];
    forall k | 0 <= k < |ds|
      ensures Follows(cfg, all, k)
    {
      assert Follows(cfg, ds, k);
      assert forall j :: 0 <= j <= k ==> all[j] == ds[j];
      assert Newer(all, k) == Newer(ds, k);
    }
  }

  lemma TracksNext(m: Memory, ds: seq<Decision>, i: Input, d: Decision)
    requires Tracks(m, ds) && d.featureTime == i.snapshot.timestamp && d.at == i.at
    ensures Tracks(Remember(m, i, d), ds + [d])
  {
    var all, n, top := ds + [d], |ds|, Remember(m, i, d).featureTime.value;
    if top == d.featureTime {
      assert all[n].featureTime == top;
    } else {
      var j :| 0 <= j < n && ds[j].featureTime == top;
      assert all[j].featureTime == top;
    }
  }

  /** Every run of the router is a run in the sense above. */
  lemma {:induction false} EveryRunFollows(cfg: Settings, cal: Calendar, inputs: seq<Input>)
    ensures IsRun(cfg, Decisions(cfg, cal, inputs))
    ensures Tracks(After(cfg, cal, inputs), Decisions(cfg, cal, inputs))
  {
    if inputs != [] {
      var before, i := inputs[..|inputs| - 1], inputs[|inputs| - 1];
      EveryRunFollows(cfg, cal, before);
      StepFollows(cfg, cal, After(cfg, cal, before), Decisions(cfg, cal, before), i);
    }
  }

  lemma StepFollows(cfg: Settings, cal: Calendar, m: Memory, ds: seq<Decision>, i: Input)
    requires Tracks(m, ds) && IsRun(cfg, ds)
    ensures var ds' := ds + (if m.last.None? || m.last.value.at < i.at then [Decide(cfg, cal, m, i)] else []);
            IsRun(cfg, ds') && Tracks(Route(cfg, cal, m, i).0, ds')
  {
    if m.last.None? || m.last.value.at < i.at {
      DecideFollows(cfg, cal, m, ds, i);
    } else {
      assert ds + [] == ds;
    }
  }

  /** The decisions of `j..k` that brought a newer feature timestamp. */
  function NewerCount(ds: seq<Decision>, j: nat, k: nat): nat
    requires j <= k < |ds|
    decreases k
  {
    (if Newer(ds, k) then 1 else 0) + (if j < k then NewerCount(ds, j, k - 1) else 0)
  }

  /** From `j` to `k` one candidate stood, in one session, without an over-long gap. */
  ghost predicate Unbroken(cfg: Settings, ds: seq<Decision>, j: nat, k: nat)
    requires j <= k < |ds|
  {
    && (forall i :: j < i <= k ==> Continues(cfg, ds, i))
    && (forall i :: j <= i <= k ==> ds[i].candidate == ds[k].candidate && ds[i].sessionOpen == ds[k].sessionOpen)
  }

  /** The recorded count is the number of newer observations in an unbroken stretch ending here. */
  lemma {:induction false} CountMeaning(cfg: Settings, ds: seq<Decision>, k: nat) returns (j: nat)
    requires IsRun(cfg, ds) && k < |ds|
    ensures j <= k && Unbroken(cfg, ds, j, k)
    ensures ds[k].count == NewerCount(ds, j, k)
  {
    assert Follows(cfg, ds, k);
    if Continues(cfg, ds, k) {
      j := CountMeaning(cfg, ds, k - 1);
    } else {
      j := k;
    }
  }

  predicate NeedsConfirmation(s: MarketState) {
    s.TrendUp? || s.TrendDown? || s.Chop?
  }

  /** A trend or chop label is taken up at decision `k`. */
  predicate Enters(ds: seq<Decision>, k: nat)
    requires k < |ds|
  {
    && NeedsConfirmation(ds[k].state)
    && (OpensSession(ds, k) || ds[k].state != ds[k - 1].state)
  }

  lemma EntryInRun(cfg: Settings, ds: seq<Decision>, k: nat)
    requires IsRun(cfg, ds) && k < |ds| && Enters(ds, k)
    ensures ds[k].count >= cfg.confirmationCount
    ensures ds[k].candidate == ds[k].state && ds[k].since == ds[k].at
    ensures ds[k].at - Held(ds, k).1 >= cfg.minDuration * SECOND
  {
    assert Follows(cfg, ds, k);
  }

  /**
   A trend or chop label is taken up only after the configured number of strictly newer feature
   timestamps, all for that label, in one session and without an over-long gap, and after the
   minimum stay in the state before it.
   */
  lemma EntryIsConfirmed(cfg: Settings, cal: Calendar, inputs: seq<Input>, k: nat)
    requires k < |Decisions(cfg, cal, inputs)|
    requires Enters(Decisions(cfg, cal, inputs), k)
    ensures var ds := Decisions(cfg, cal, inputs);
            && (exists j :: 0 <= j <= k && Unbroken(cfg, ds, j, k) && NewerCount(ds, j, k) >= cfg.confirmationCount)
            && ds[k].candidate == ds[k].state
            && ds[k].at - Held(ds, k).1 >= cfg.minDuration * SECOND
            && ds[k].since == ds[k].at
  {
    var ds := Decisions(cfg, cal, inputs);
    EveryRunFollows(cfg, cal, inputs);
    EntryInRun(cfg, ds, k);
    var j := CountMeaning(cfg, ds, k);
  }

  /** `since` is when the current stretch of one label within one session began. */
  lemma {:induction false} SinceMeaning(cfg: Settings, ds: seq<Decision>, k: nat) returns (j: nat)
    requires IsRun(cfg, ds) && k < |ds|
    ensures j <= k && ds[j].at == ds[k].since
    ensures forall i :: j <= i <= k ==> ds[i].state == ds[k].state && ds[i].sessionOpen == ds[k].sessionOpen
    ensures OpensSession(ds, j) || ds[j - 1].state != ds[j].state
  {
    assert Follows(cfg, ds, k);
    if OpensSession(ds, k) || ds[k].state != ds[k - 1].state {
      j := k;
    } else {
      j := SinceMeaning(cfg, ds, k - 1);
    }
  }

  lemma {:induction false} SinceMonotone(cfg: Settings, ds: seq<Decision>, a: nat, b: nat)
    requires IsRun(cfg, ds) && a <= b < |ds|
    ensures ds[a].since <= ds[b].since <= ds[b].at
    ensures ds[a].at <= ds[b].at
    decreases b
  {
    assert Follows(cfg, ds, b);
    if a < b {
      SinceMonotone(cfg, ds, a, b - 1);
    } else if b > 0 {
      SinceMonotone(cfg, ds, b - 1, b - 1);
    }
  }

  lemma EntriesApartInRun(cfg: Settings, ds: seq<Decision>, a: nat, b: nat)
    requires IsRun(cfg, ds) && a < b < |ds| && Enters(ds, a) && Enters(ds, b)
    ensures ds[b].at - ds[a].at >= cfg.minDuration * SECOND
  {
    EntryInRun(cfg, ds, a);
    EntryInRun(cfg, ds, b);
    SinceMonotone(cfg, ds, a, b - 1);
    SinceMonotone(cfg, ds, a, b);
  }

  /** Any two entries into a trend or chop label, in the whole run, are at least the minimum stay apart. */
  lemma EntriesAreApart(cfg: Settings, cal: Calendar, inputs: seq<Input>)
    ensures var ds := Decisions(cfg, cal, inputs);
            forall a, b :: 0 <= a < b < |ds| && Enters(ds, a) && Enters(ds, b) ==>
              ds[b].at - ds[a].at >= cfg.minDuration * SECOND
  {
    var ds := Decisions(cfg, cal, inputs);
    EveryRunFollows(cfg, cal, inputs);
    forall a, b | 0 <= a < b < |ds| && Enters(ds, a) && Enters(ds, b)
      ensures ds[b].at - ds[a].at >= cfg.minDuration * SECOND
    {
      EntriesApartInRun(cfg, ds, a, b);
    }
  }

  /** The grant of a decision never exceeds what its label grants nor what the evidence grants. */
  ghost predicate GrantBounded(cfg: Settings, d: Decision) {
    var held, evidence := Permissions(d.state, cfg), Permissions(d.candidate, cfg);
    && (forall f :: f in d.grant.families ==> f in held.families && f in evidence.families)
    && (forall s :: s in d.grant.sides ==> s in held.sides && s in evidence.sides)
    && 0.0 <= d.grant.multiplier <= held.multiplier
    && d.grant.multiplier <= evidence.multiplier <= 1.0
    && (forall f :: f in d.grant.families && Directional(f) ==>
          d.state == d.candidate && (d.state.TrendUp? || d.state.TrendDown?) && d.grant.sides != [])
    && (d.state.RiskOff? || d.state.OpenShock? || d.candidate.RiskOff? || d.candidate.OpenShock? ==>
          d.grant == Grant([], [], 0.0))
  }

  lemma NarrowBounds(cfg: Settings, state: MarketState, candidate: MarketState)
    requires cfg.Valid()
    ensures var held, evidence := Permissions(state, cfg), Permissions(candidate, cfg);
            var g := Narrow(held, evidence);
            && 0.0 <= g.multiplier <= held.multiplier && g.multiplier <= evidence.multiplier <= 1.0
            && (g.sides != [] ==> state == candidate && (state.TrendUp? || state.TrendDown?))
            && (held.families == [] || evidence.families == [] ==> g == Grant([], [], 0.0))
  {
    var held, evidence := Permissions(state, cfg), Permissions(candidate, cfg);
    MultiplierBounds(cfg, state);
    MultiplierBounds(cfg, candidate);
    NarrowedGrant(held, evidence);
    SidesAgree(cfg, state, candidate);
  }

  lemma MultiplierBounds(cfg: Settings, state: MarketState)
    requires cfg.Valid()
    ensures 0.0 <= Permissions(state, cfg).multiplier <= 1.0
    ensures Permissions(state, cfg).families == [] ==> Permissions(state, cfg).sides == []
  {
  }

  lemma NarrowedGrant(held: Grant, evidence: Grant)
    requires held.multiplier >= 0.0 && evidence.multiplier >= 0.0
    requires (held.families == [] ==> held.sides == []) && (evidence.families == [] ==> evidence.sides == [])
    ensures var g := Narrow(held, evidence);
            && 0.0 <= g.multiplier <= held.multiplier && g.multiplier <= evidence.multiplier
            && (g.sides != [] ==> g.sides[0] in held.sides && g.sides[0] in evidence.sides)
            && (held.families == [] || evidence.families == [] ==> g == Grant([], [], 0.0))
  {
    var g := Narrow(held, evidence);
    if g.sides != [] {
      assert g.sides[0] in g.sides;
    }
    if g.families != [] {
      assert g.families[0] in held.families && g.families[0] in evidence.families;
    }
  }

  /** A side that both states grant is the side of one trend. */
  lemma SidesAgree(cfg: Settings, state: MarketState, candidate: MarketState)
    ensures forall s :: s in Permissions(state, cfg).sides && s in Permissions(candidate, cfg).sides ==>
                          state == candidate && (state.TrendUp? || state.TrendDown?)
  {
  }

  lemma {:induction false} EveryGrantIsNarrowed(cfg: Settings, cal: Calendar, inputs: seq<Input>, k: nat)
    requires k < |Decisions(cfg, cal, inputs)|
    ensures var d := Decisions(cfg, cal, inputs)[k];
            d.grant == Narrow(Permissions(d.state, cfg), Permissions(d.candidate, cfg))
  {
    var before := inputs[..|inputs| - 1];
    if k < |Decisions(cfg, cal, before)| {
      EveryGrantIsNarrowed(cfg, cal, before, k);
    }
  }

  lemma NarrowedIsBounded(cfg: Settings, d: Decision)
    requires cfg.Valid() && d.grant == Narrow(Permissions(d.state, cfg), Permissions(d.candidate, cfg))
    ensures GrantBounded(cfg, d)
  {
    NarrowBounds(cfg, d.state, d.candidate);
  }

  /** Permission safety in every reachable decision. */
  lemma PermissionsAreSafe(cfg: Settings, cal: Calendar, inputs: seq<Input>, k: nat)
    requires cfg.Valid() && k < |Decisions(cfg, cal, inputs)|
    ensures var d := Decisions(cfg, cal, inputs)[k];
            GrantBounded(cfg, d) && d.since <= d.at
  {
    EveryRunFollows(cfg, cal, inputs);
    SinceMonotone(cfg, Decisions(cfg, cal, inputs), k, k);
    EveryGrantIsNarrowed(cfg, cal, inputs, k);
    NarrowedIsBounded(cfg, Decisions(cfg, cal, inputs)[k]);
  }

  /** A failed safety check, from any memory whatever, gives RISK_OFF with nothing granted, at once. */
  lemma FailedSafetyBlocks(cfg: Settings, cal: Calendar, m: Memory, i: Input)
    requires cfg.Valid() && (!Safe(cfg, i) || !InSession(cal, i))
    ensures var d := Decide(cfg, cal, m, i);
            d.state == RiskOff && d.grant == Grant([], [], 0.0) && SafetyVeto in d.reasons
  {
    NarrowBounds(cfg, RiskOff, RiskOff);
    assert Decide(cfg, cal, m, i).reasons[1] == SafetyVeto;
  }
}
