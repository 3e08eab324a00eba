/**
 The market-state router: hysteresis over classified evidence, with immediate vetoes and permissions
 that a pending transition can only narrow.
 */
module Router {
  import opened Prelude
  import opened Rules

  datatype Status = Healthy | Unknown | Degraded | Unhealthy
  {
    function Level(): real {
      match this case Healthy => 0.0 case Unknown => 1.0 case Degraded => 2.0 case Unhealthy => 3.0
    }
  }

  datatype RoutingHealth = RoutingHealth(observedAt: Instant, system: Status, risk: Status, blocksNewEntries: bool)

  datatype FeatureSnapshot = FeatureSnapshot(timestamp: Instant, values: Features)

  datatype Input = Input(snapshot: FeatureSnapshot, health: RoutingHealth, at: Instant)

  datatype Reason = Rule(state: MarketState) | SafetyVeto | TransitionPending

  datatype Decision = Decision(
    at: Instant,
    state: MarketState,
    candidate: MarketState,
    previousState: MarketState,
    since: Instant,
    count: nat,
    grant: Grant,
    sessionOpen: Option<Instant>,
    featureTime: Instant,
    reasons: seq<Reason>)

  datatype Memory = Memory(
    last: Option<Decision>,
    identity: Option<Input>,
    pending: Option<MarketState>,
    count: nat,
    featureTime: Option<Instant>)

  const FRESH := Memory(None, None, None, 0, None)

  datatype Error = TimeRegressed | ConflictingInput

  predicate Safe(cfg: Settings, i: Input) {
    && i.health.system.Healthy?
    && i.health.risk.Healthy?
    && !i.health.blocksNewEntries
    && 0 <= i.at - i.health.observedAt <= cfg.healthMaxAge * SECOND
    && 0 <= i.at - i.snapshot.timestamp <= cfg.featureMaxAge * SECOND
  }

  predicate InSession(cal: Calendar, i: Input) {
    cal(i.at).Some? && cal(i.at).value.0 <= i.snapshot.timestamp <= i.at < cal(i.at).value.1
  }

  function OpeningOf(cal: Calendar, i: Input): Option<Instant> {
    if cal(i.at).Some? then Some(cal(i.at).value.0) else None
  }

  function RuleState(cfg: Settings, cal: Calendar, i: Input): MarketState {
    if cal(i.at).Some? then Classification(i.snapshot.values, cfg, i.at - cal(i.at).value.0) else RiskOff
  }

  function Candidate(cfg: Settings, cal: Calendar, i: Input): MarketState {
    if Safe(cfg, i) && InSession(cal, i) then RuleState(cfg, cal, i) else RiskOff
  }

  predicate Immediate(s: MarketState) {
    s.RiskOff? || s.OpenShock? || s.HighVol?
  }

  function FilterFamilies(fs: seq<AlphaFamily>, wanted: seq<AlphaFamily>, directional: bool): (r: seq<AlphaFamily>)
    ensures forall f :: f in r <==> f in fs && f in wanted && (directional || !Directional(f))
  {
    if fs == [] then []
    else
      (if fs[0] in wanted && (directional || !Directional(fs[0])) then [fs[0]] else []) +
      FilterFamilies(fs[1..], wanted, directional)
  }

  function FilterSides(ss: seq<Side>, wanted: seq<Side>): (r: seq<Side>)
    ensures forall s :: s in r <==> s in ss && s in wanted
  {
    if ss == [] then [] else (if ss[0] in wanted then [ss[0]] else []) + FilterSides(ss[1..], wanted)
  }

  /** What the label grants, narrowed to what the current evidence also grants. */
  function Narrow(held: Grant, evidence: Grant): Grant {
    var sides := FilterSides(held.sides, evidence.sides);
    var families := FilterFamilies(held.families, evidence.families, sides != []);
    Grant(families, sides, if families != [] then MinReal(held.multiplier, evidence.multiplier) else 0.0)
  }

  /** The grant of a decision with that label and that candidate. */
  function GrantFor(cfg: Settings, state: MarketState, candidate: MarketState): Grant {
    Narrow(Permissions(state, cfg), Permissions(candidate, cfg))
  }

  predicate NewSession(m: Memory, opening: Option<Instant>) {
    m.last.None? || opening != m.last.value.sessionOpen
  }

  predicate LongGap(cfg: Settings, m: Memory, at: Instant) {
    m.last.Some? && at - m.last.value.at > cfg.maxConfirmationGap * SECOND
  }

  /** Confirmations gathered for the candidate once this input is counted. */
  function Confirmed(cfg: Settings, m: Memory, i: Input, opening: Option<Instant>, candidate: MarketState): nat {
    var kept := if NewSession(m, opening) || LongGap(cfg, m, i.at) || m.pending != Some(candidate)
                then 0 else m.count;
    if m.featureTime.None? || i.snapshot.timestamp > m.featureTime.value then kept + 1 else kept
  }

  /** Vetoes act at once; other states wait for confirmation and dwell. */
  predicate Moves(cfg: Settings, held: MarketState, candidate: MarketState, count: int, dwell: int) {
    candidate != held && (Immediate(candidate) || (count >= cfg.confirmationCount && dwell >= cfg.minDuration * SECOND))
  }

  /** The decision once the input has been judged. */
  function Conclude(
      cfg: Settings, m: Memory, i: Input, opening: Option<Instant>, candidate: MarketState,
      ruled: seq<Reason>): Decision {
    var reset := NewSession(m, opening);
    var held := if reset then RiskOff else m.last.value.state;
    var heldSince := if reset then i.at else m.last.value.since;
    var count := Confirmed(cfg, m, i, opening, candidate);
    var moves := Moves(cfg, held, candidate, count, i.at - heldSince);
    var state := if moves then candidate else held;
    Decision(
      i.at, state, candidate,
      if m.last.Some? then m.last.value.state else RiskOff,
      if moves then i.at else heldSince,
      count,
      GrantFor(cfg, state, candidate),
      opening,
      i.snapshot.timestamp,
      ruled + (if candidate != held && !moves then [TransitionPending] else []))
  }

  /** The rule for moving, from what a settled state guarantees. */
  lemma SettledMoves(
      cfg: Settings, candidate: MarketState, held: MarketState, heldSince: Instant, count: nat, at: Instant,
      state: MarketState, since: Instant, ruled: seq<Reason>, reasons: seq<Reason>)
    requires Immediate(candidate) ==> state == candidate
    requires count >= cfg.confirmationCount && at - heldSince >= cfg.minDuration * SECOND ==> state == candidate
    requires state != held ==> state == candidate && since == at
    requires state != held && !Immediate(candidate) ==> count >= cfg.confirmationCount && at - heldSince >= cfg.minDuration * SECOND
    requires state == held ==> since == heldSince
    requires reasons == if state == candidate then ruled else ruled + [TransitionPending]
    ensures var moves := Moves(cfg, held, candidate, count, at - heldSince);
            && state == (if moves then candidate else held)
            && since == (if moves then at else heldSince)
            && reasons == ruled + (if candidate != held && !moves then [TransitionPending] else [])
  {
    assert ruled + [] == ruled;
  }

  lemma SettledConcludes(
      cfg: Settings, m: Memory, i: Input, opening: Option<Instant>, candidate: MarketState, ruled: seq<Reason>,
      held: MarketState, heldSince: Instant, count: nat, state: MarketState, since: Instant, reasons: seq<Reason>)
    requires held == (if NewSession(m, opening) then RiskOff else m.last.value.state)
    requires heldSince == (if NewSession(m, opening) then i.at else m.last.value.since)
    requires count == Confirmed(cfg, m, i, opening, candidate)
    requires var moves := Moves(cfg, held, candidate, count, i.at - heldSince);
             && state == (if moves then candidate else held)
             && since == (if moves then i.at else heldSince)
             && reasons == ruled + (if candidate != held && !moves then [TransitionPending] else [])
    ensures Decision(i.at, state, candidate, if m.last.Some? then m.last.value.state else RiskOff, since, count,
                     GrantFor(cfg, state, candidate), opening, i.snapshot.timestamp, reasons)
         == Conclude(cfg, m, i, opening, candidate, ruled)
  {
  }

  /** The rule that fired, and the veto if safety overruled it. */
  function Ruled(cfg: Settings, cal: Calendar, i: Input): seq<Reason> {
    [Rule(RuleState(cfg, cal, i))] + (if Safe(cfg, i) && InSession(cal, i) then [] else [SafetyVeto])
  }

  /** The decision on an input that is neither a repeat nor out of order. */
  function Decide(cfg: Settings, cal: Calendar, m: Memory, i: Input): Decision {
    Conclude(cfg, m, i, OpeningOf(cal, i), Candidate(cfg, cal, i), Ruled(cfg, cal, i))
  }

  function Remember(m: Memory, i: Input, d: Decision): Memory {
    Memory(
      Some(d), Some(i), Some(d.candidate), d.count,
      Some(if m.featureTime.Some? then Max(i.snapshot.timestamp, m.featureTime.value) else i.snapshot.timestamp))
  }

  /** One call: a refusal and a repeat leave the memory as it was. */
  function Route(cfg: Settings, cal: Calendar, m: Memory, i: Input): (Memory, Result<Decision, Error>) {
    if m.last.Some? && i.at < m.last.value.at then (m, Err(TimeRegressed))
    else if m.last.Some? && m.identity == Some(i) then (m, Ok(m.last.value))
    else if m.last.Some? && i.at == m.last.value.at then (m, Err(ConflictingInput))
    else
      var d := Decide(cfg, cal, m, i);
      (Remember(m, i, d), Ok(d))
  }

  class MarketStateRouter {
    const cfg: Settings
    const cal: Calendar
    var last: Option<Decision>
    var identity: Option<Input>
    var pending: Option<MarketState>
    var count: nat
    var featureTime: Option<Instant>

    ghost function State(): Memory
      reads this
    {
      Memory(last, identity, pending, count, featureTime)
    }

    constructor (settings: Settings, calendar: Calendar)
      ensures cfg == settings && cal == calendar && State() == FRESH
    {
      cfg, cal := settings, calendar;
      last, identity, pending, count, featureTime := None, None, None, 0, None;
    }

    /** Records the safety battery and judges it. */
    method SafetyChecks(e: EvidenceBuilder, i: Input) returns (ok: bool)
      requires e.Valid()
      modifies e
      ensures e.Valid() && old(e.checks) <= e.checks
      ensures ok == (Safe(cfg, i) && InSession(cal, i))
    {
      var healthAge := Some((i.at - i.health.observedAt) as real);
      var featureAge := Some((i.at - i.snapshot.timestamp) as real);
      var a := e.Record(SystemStatus, Some(i.health.system.Level()), Equal, 0.0);
      var b := e.Record(RiskStatus, Some(i.health.risk.Level()), Equal, 0.0);
      var c := e.Record(BlocksNewEntries, Some(if i.health.blocksNewEntries then 1.0 else 0.0), Equal, 0.0);
      var d := e.Record(HealthAge, healthAge, AtLeast, 0.0);
      var f := e.Record(HealthAge, healthAge, AtMost, (cfg.healthMaxAge * SECOND) as real);
      var g := e.Record(FeatureAge, featureAge, AtLeast, 0.0);
      var h := e.Record(FeatureAge, featureAge, AtMost, (cfg.featureMaxAge * SECOND) as real);
      var inSession := InSession(cal, i);
      var s := e.Record(SessionActive, Some(if inSession then 1.0 else 0.0), Equal, 1.0);
      return a && b && c && d && f && g && h && inSession;
    }

    /** Classifies the input and applies the safety veto, recording every check. */
    method Judge(e: EvidenceBuilder, i: Input) returns (candidate: MarketState, reasons: seq<Reason>)
      requires e.Valid() && e.values == i.snapshot.values
      modifies e
      ensures e.Valid()
      ensures candidate == Candidate(cfg, cal, i)
      ensures reasons == Ruled(cfg, cal, i)
    {
      var safe := SafetyChecks(e, i);
      candidate := RiskOff;
      if cal(i.at).Some? {
        candidate := Classify(e, cfg, i.at - cal(i.at).value.0);
      }
      reasons := [Rule(candidate)];
      if !safe {
        candidate := RiskOff;
        reasons := reasons + [SafetyVeto];
      }
    }

    /** Updates the pending candidate and its count of fresh observations. */
    method Count(candidate: MarketState, opening: Option<Instant>, reset: bool, i: Input)
      requires reset == NewSession(State(), opening)
      modifies this`pending, this`count
      ensures pending == Some(candidate)
      ensures count == Confirmed(cfg, old(State()), i, opening, candidate)
    {
      var gap := last.Some? && i.at - last.value.at > cfg.maxConfirmationGap * SECOND;
      if reset || gap {
        pending, count := None, 0;
      }
      if Some(candidate) != pending {
        pending, count := Some(candidate), 0;
      }
      if featureTime.None? || i.snapshot.timestamp > featureTime.value {
        count := count + 1;
      }
    }

    /**
     Applies hysteresis to a candidate whose confirmations have been counted. A veto takes hold at once; any other
     candidate takes hold exactly when it is confirmed and the held state has dwelt; a candidate held back is reported.
     */
    method Settle(i: Input, candidate: MarketState, held: MarketState, heldSince: Instant, ruled: seq<Reason>)
        returns (state: MarketState, since: Instant, reasons: seq<Reason>)
      ensures Immediate(candidate) ==> state == candidate
      ensures count >= cfg.confirmationCount && i.at - heldSince >= cfg.minDuration * SECOND ==> state == candidate
      ensures state != held ==> state == candidate && since == i.at
      ensures state != held && !Immediate(candidate) ==>
                count >= cfg.confirmationCount && i.at - heldSince >= cfg.minDuration * SECOND
      ensures state == held ==> since == heldSince
      ensures reasons == if state == candidate then ruled else ruled + [TransitionPending]
    {
      state, since, reasons := held, heldSince, ruled;
      var dwell := i.at - since;
      if Moves(cfg, state, candidate, count, dwell) {
        state, since := candidate, i.at;
      } else if candidate != state {
        reasons := reasons + [TransitionPending];
      }
    }

    /** Decides on an input that is neither a repeat nor out of order. */
    method Transition(i: Input, candidate: MarketState, ruled: seq<Reason>) returns (decision: Decision)
      modifies this
      ensures decision == Conclude(cfg, old(State()), i, OpeningOf(cal, i), candidate, ruled)
      ensures State() == Remember(old(State()), i, decision)
    {
      var opening := if cal(i.at).Some? then Some(cal(i.at).value.0) else None;
      var reset := last.None? || opening != last.value.sessionOpen;
      Count(candidate, opening, reset, i);
      decision := Weigh(old(State()), i, candidate, opening, reset, ruled);
      last, identity := Some(decision), Some(i);
      featureTime := Some(if featureTime.Some? then Max(i.snapshot.timestamp, featureTime.value) else i.snapshot.timestamp);
    }

    /** The decision on a candidate whose confirmations have been counted. */
    method Weigh(
        ghost m: Memory, i: Input, candidate: MarketState, opening: Option<Instant>, reset: bool, ruled: seq<Reason>)
        returns (decision: Decision)
      requires m.last == last && reset == NewSession(m, opening) && count == Confirmed(cfg, m, i, opening, candidate)
      ensures decision == Conclude(cfg, m, i, opening, candidate, ruled)
    {
      var previous := if last.Some? then last.value.state else RiskOff;
      var held, heldSince := if reset then RiskOff else previous, if reset then i.at else last.value.since;
      var state, since, reasons := Settle(i, candidate, held, heldSince, ruled);
      SettledMoves(cfg, candidate, held, heldSince, count, i.at, state, since, ruled, reasons);
      SettledConcludes(cfg, m, i, opening, candidate, ruled, held, heldSince, count, state, since, reasons);
      decision := Decision(i.at, state, candidate, previous, since, count, GrantFor(cfg, state, candidate), opening, i.snapshot.timestamp, reasons);
    }

    /** One call, with the evidence it recorded. */
    method RouteInput(i: Input) returns (r: Result<Decision, Error>, evidence: seq<Threshold>)
      modifies this
      ensures (State(), r) == Route(cfg, cal, old(State()), i)
      ensures r == Err(TimeRegressed) <==> old(last).Some? && i.at < old(last).value.at
      ensures r == Err(ConflictingInput) <==> old(last).Some? && i.at == old(last).value.at && old(identity) != Some(i)
      ensures r.Err? || (old(last).Some? && old(identity) == Some(i)) ==> State() == old(State())
      ensures r.Ok? ==> last == Some(r.value)
      ensures forall t :: t in evidence ==> Truthful(i.snapshot.values, t)
    {
      if last.Some? && i.at < last.value.at {
        return Err(TimeRegressed), [];
      }
      if last.Some? && identity == Some(i) {
        return Ok(last.value), [];
      }
      if last.Some? && i.at == last.value.at {
        return Err(ConflictingInput), [];
      }
      var e := new EvidenceBuilder(i.snapshot.values);
      var candidate, reasons := Judge(e, i);
      var dwell := if NewSession(Memory(last, identity, pending, count, featureTime), OpeningOf(cal, i)) then 0
                   else i.at - last.value.since;
      var decision := Transition(i, candidate, reasons);
      var k := e.Record(Confirmations, Some(count as real), AtLeast, cfg.confirmationCount as real);
      var w := e.Record(Dwell, Some(dwell as real), AtLeast, (cfg.minDuration * SECOND) as real);
      return Ok(decision), e.checks;
    }
  }
}
