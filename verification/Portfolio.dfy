/** Positions as fractions of equity, their totals, and the caps a portfolio must stay within. */
module Portfolio {
  import opened Prelude
  import opened Rules
  import opened Candidates

  datatype Origin = ExistingOrPending | Proposed

  datatype Position = Position(
    entity: Id,
    instrument: string,
    sector: string,
    alpha: AlphaFamily,
    group: Id,
    signed: real,
    risk: real,
    origin: Origin)

  datatype Caps = Caps(
    maxAlpha: real,
    maxGross: real,
    maxNet: real,
    maxSymbol: real,
    maxSector: real,
    maxOpenRisk: real,
    maxCandidateRisk: real,
    maxGroups: nat,
    maxSectorGroups: nat)
  {
    predicate Valid() {
      && 0.0 < maxAlpha <= 1.0 && 0.0 < maxGross <= 1.0 && 0.0 <= maxNet <= maxGross
      && 0.0 < maxSymbol <= 1.0 && 0.0 < maxSector <= 1.0
      && 0.0 < maxOpenRisk <= 1.0 && 0.0 < maxCandidateRisk <= 1.0
      && 1 <= maxSectorGroups <= maxGroups
    }
  }

  /** What a gross cap ranges over. */
  datatype Scope = Everything | OfAlpha(alpha: AlphaFamily) | OfSector(sector: string) | OfEntity(entity: Id)

  predicate Covers(k: Scope, entity: Id, sector: string, alpha: AlphaFamily) {
    match k
    case Everything => true
    case OfAlpha(a) => a == alpha
    case OfSector(s) => s == sector
    case OfEntity(e) => e == entity
  }

  function Gross(ps: seq<Position>, k: Scope): real {
    if ps == [] then 0.0
    else
      var p := ps[|ps| - 1];
      Gross(ps[..|ps| - 1], k) + (if Covers(k, p.entity, p.sector, p.alpha) then Abs(p.signed) else 0.0)
  }

  function Net(ps: seq<Position>): real {
    if ps == [] then 0.0 else Net(ps[..|ps| - 1]) + ps[|ps| - 1].signed
  }

  function Risk(ps: seq<Position>): real {
    if ps == [] then 0.0 else Risk(ps[..|ps| - 1]) + ps[|ps| - 1].risk
  }

  function Groups(ps: seq<Position>): set<Id> {
    set p | p in ps :: p.group
  }

  function SectorGroups(ps: seq<Position>, sector: string): set<Id> {
    set p | p in ps && p.sector == sector :: p.group
  }

  /** The caps that apply to the values position `p` carries. */
  predicate AttributeCaps(ps: seq<Position>, caps: Caps, p: Position) {
    && Gross(ps, OfAlpha(p.alpha)) <= caps.maxAlpha
    && Gross(ps, OfSector(p.sector)) <= caps.maxSector
    && Gross(ps, OfEntity(p.entity)) <= caps.maxSymbol
    && |SectorGroups(ps, p.sector)| <= caps.maxSectorGroups
  }

  predicate TotalCaps(ps: seq<Position>, caps: Caps) {
    && Gross(ps, Everything) <= caps.maxGross
    && Abs(Net(ps)) <= caps.maxNet
    && Risk(ps) <= caps.maxOpenRisk
    && |Groups(ps)| <= caps.maxGroups
  }

  predicate WithinCaps(ps: seq<Position>, caps: Caps) {
    TotalCaps(ps, caps) && forall p :: p in ps ==> AttributeCaps(ps, caps, p)
  }

  function LegPosition(x: Leg, signal: Id, alpha: AlphaFamily, amount: real, loss: real): Position {
    Position(x.entity, x.instrument, x.sector, alpha, signal, Times(amount, x.weight), Times(Times(amount, loss), Abs(x.weight)), Proposed)
  }

  function LegPositions(legs: seq<Leg>, signal: Id, alpha: AlphaFamily, amount: real, loss: real): (ps: seq<Position>)
    ensures |ps| == |legs|
    ensures forall i :: 0 <= i < |ps| ==> ps[i] == LegPosition(legs[i], signal, alpha, amount, loss)
  {
    if legs == [] then []
    else
      LegPositions(legs[..|legs| - 1], signal, alpha, amount, loss) +
      [LegPosition(legs[|legs| - 1], signal, alpha, amount, loss)]
  }

  /** The positions of one bundle at a given gross amount. */
  function Bundle(c: Candidate, amount: real, loss: real): seq<Position> {
    LegPositions(c.legs, c.signal, c.alpha, amount, loss)
  }

  /** Gross weight of the legs a scope covers. */
  function WeightIn(legs: seq<Leg>, alpha: AlphaFamily, k: Scope): real {
    if legs == [] then 0.0
    else
      var x := legs[|legs| - 1];
      WeightIn(legs[..|legs| - 1], alpha, k) + (if Covers(k, x.entity, x.sector, alpha) then Abs(x.weight) else 0.0)
  }

  function NetWeight(legs: seq<Leg>): real {
    if legs == [] then 0.0 else NetWeight(legs[..|legs| - 1]) + legs[|legs| - 1].weight
  }

  lemma {:induction false} GrossConcat(a: seq<Position>, b: seq<Position>, k: Scope)
    ensures Gross(a + b, k) == Gross(a, k) + Gross(b, k)
  {
    if b == [] {
      assert a + b == a;
    } else {
      assert (a + b)[..|a + b| - 1] == a + b[..|b| - 1];
      GrossConcat(a, b[..|b| - 1], k);
    }
  }

  lemma {:induction false} NetConcat(a: seq<Position>, b: seq<Position>)
    ensures Net(a + b) == Net(a) + Net(b)
  {
    if b == [] {
      assert a + b == a;
    } else {
      assert (a + b)[..|a + b| - 1] == a + b[..|b| - 1];
      NetConcat(a, b[..|b| - 1]);
    }
  }

  lemma {:induction false} RiskConcat(a: seq<Position>, b: seq<Position>)
    ensures Risk(a + b) == Risk(a) + Risk(b)
  {
    if b == [] {
      assert a + b == a;
    } else {
      assert (a + b)[..|a + b| - 1] == a + b[..|b| - 1];
      RiskConcat(a, b[..|b| - 1]);
    }
  }

  lemma Scaled(amount: real, x: real, w: real)
    requires amount >= 0.0
    ensures Times(amount, x + w) == Times(amount, x) + Times(amount, w)
    ensures Abs(Times(amount, w)) == Times(amount, Abs(w))
  {
  }

  /** A bundle spreads its amount in proportion to its weights: gross in every scope. */
  lemma {:induction false} BundleGross(
      legs: seq<Leg>, signal: Id, alpha: AlphaFamily, amount: real, loss: real, k: Scope)
    requires amount >= 0.0
    ensures Gross(LegPositions(legs, signal, alpha, amount, loss), k) == Times(amount, WeightIn(legs, alpha, k))
  {
    if legs != [] {
      var n := |legs| - 1;
      BundleGross(legs[..n], signal, alpha, amount, loss, k);
      assert LegPositions(legs, signal, alpha, amount, loss)[..n] == LegPositions(legs[..n], signal, alpha, amount, loss);
      Scaled(amount, WeightIn(legs[..n], alpha, k), legs[n].weight);
      Scaled(amount, WeightIn(legs[..n], alpha, k), Abs(legs[n].weight));
    }
  }

  lemma NetStep(ps: seq<Position>, p: Position)
    ensures Net(ps + [p]) == Net(ps) + p.signed
  {
    assert (ps + [p])[..|ps|] == ps;
  }

  /** ... its signed net ... */
  lemma {:induction false} BundleNet(legs: seq<Leg>, signal: Id, alpha: AlphaFamily, amount: real, loss: real)
    requires amount >= 0.0
    ensures Net(LegPositions(legs, signal, alpha, amount, loss)) == Times(amount, NetWeight(legs))
  {
    if legs != [] {
      var n := |legs| - 1;
      BundleNet(legs[..n], signal, alpha, amount, loss);
      NetStep(LegPositions(legs[..n], signal, alpha, amount, loss), LegPosition(legs[n], signal, alpha, amount, loss));
      Scaled(amount, NetWeight(legs[..n]), legs[n].weight);
    }
  }

  /** ... and its bookkeeping risk, at `rate` per unit of weight. */
  lemma {:induction false} BundleRisk(
      legs: seq<Leg>, signal: Id, alpha: AlphaFamily, amount: real, loss: real, rate: real)
    requires rate == Times(amount, loss) && rate >= 0.0
    ensures Risk(LegPositions(legs, signal, alpha, amount, loss)) == Times(rate, LegGross(legs))
  {
    if legs != [] {
      var n := |legs| - 1;
      BundleRisk(legs[..n], signal, alpha, amount, loss, rate);
      assert LegPositions(legs, signal, alpha, amount, loss)[..n] == LegPositions(legs[..n], signal, alpha, amount, loss);
      Scaled(rate, LegGross(legs[..n]), Abs(legs[n].weight));
    }
  }

  lemma {:induction false} WeightBounds(legs: seq<Leg>, alpha: AlphaFamily, k: Scope)
    ensures 0.0 <= WeightIn(legs, alpha, k) <= LegGross(legs)
    ensures k == Everything || k == OfAlpha(alpha) ==> WeightIn(legs, alpha, k) == LegGross(legs)
    ensures (forall x :: x in legs ==> !Covers(k, x.entity, x.sector, alpha)) ==> WeightIn(legs, alpha, k) == 0.0
  {
    if legs != [] {
      WeightBounds(legs[..|legs| - 1], alpha, k);
      assert legs[|legs| - 1] in legs;
    }
  }

  /** With distinct securities, one security weighs what its leg weighs. */
  lemma {:induction false} EntityWeight(legs: seq<Leg>, alpha: AlphaFamily, i: nat)
    requires DistinctEntities(legs) && i < |legs|
    ensures WeightIn(legs, alpha, OfEntity(legs[i].entity)) == Abs(legs[i].weight)
  {
    var n := |legs| - 1;
    if i < n {
      EntityWeight(legs[..n], alpha, i);
    } else {
      WeightBounds(legs[..n], alpha, OfEntity(legs[i].entity));
    }
  }

  lemma {:induction false} NotHeld(ps: seq<Position>, e: Id)
    requires forall p :: p in ps ==> p.entity != e
    ensures Gross(ps, OfEntity(e)) == 0.0
  {
    if ps != [] {
      assert ps[|ps| - 1] in ps;
      NotHeld(ps[..|ps| - 1], e);
    }
  }
}
