/** The totals of a portfolio and its caps, told as sums over its positions. */
module Exposure {
  import opened Prelude
  import opened Rules
  import opened Portfolio

  /** The sum of a figure over positions. */
  ghost function Total(ps: seq<Position>, figure: Position -> real): real {
    Sum(seq(|ps|, i requires 0 <= i < |ps| => figure(ps[i])))
  }

  ghost function Size(p: Position): real {
    if p.signed >= 0.0 then p.signed else -p.signed
  }

  ghost function OfItsAlpha(a: AlphaFamily): Position -> real {
    (p: Position) => if p.alpha == a then Size(p) else 0.0
  }

  ghost function OfItsSector(sector: string): Position -> real {
    (p: Position) => if p.sector == sector then Size(p) else 0.0
  }

  ghost function OfItsEntity(e: Id): Position -> real {
    (p: Position) => if p.entity == e then Size(p) else 0.0
  }

  ghost function Figure(k: Scope): Position -> real {
    match k
    case Everything => Size
    case OfAlpha(a) => OfItsAlpha(a)
    case OfSector(s) => OfItsSector(s)
    case OfEntity(e) => OfItsEntity(e)
  }

  lemma TotalStep(ps: seq<Position>, figure: Position -> real)
    requires ps != []
    ensures Total(ps, figure) == Total(ps[..|ps| - 1], figure) + figure(ps[|ps| - 1])
  {
    var n := |ps| - 1;
    var all := seq(|ps|, i requires 0 <= i < |ps| => figure(ps[i]));
    assert all[..n] == seq(n, i requires 0 <= i < n => figure(ps[..n][i]));
  }

  /** Gross, net and risk are sums over the positions. */
  lemma {:induction false} TotalsMeaning(ps: seq<Position>, k: Scope)
    ensures Gross(ps, k) == Total(ps, Figure(k))
    ensures Net(ps) == Total(ps, (p: Position) => p.signed)
    ensures Risk(ps) == Total(ps, (p: Position) => p.risk)
  {
    if ps != [] {
      TotalsMeaning(ps[..|ps| - 1], k);
      TotalStep(ps, Figure(k));
      TotalStep(ps, (p: Position) => p.signed);
      TotalStep(ps, (p: Position) => p.risk);
    }
  }

  ghost function GroupsOf(ps: seq<Position>, sector: string): set<Id> {
    set i | 0 <= i < |ps| && ps[i].sector == sector :: ps[i].group
  }

  /** Every cap, for every family, sector and security there is. */
  ghost predicate InCaps(ps: seq<Position>, caps: Caps) {
    && Total(ps, Size) <= caps.maxGross
    && -caps.maxNet <= Total(ps, (p: Position) => p.signed) <= caps.maxNet
    && Total(ps, (p: Position) => p.risk) <= caps.maxOpenRisk
    && |set i | 0 <= i < |ps| :: ps[i].group| <= caps.maxGroups
    && (forall a: AlphaFamily :: Total(ps, OfItsAlpha(a)) <= caps.maxAlpha)
    && (forall x: string :: Total(ps, OfItsSector(x)) <= caps.maxSector && |GroupsOf(ps, x)| <= caps.maxSectorGroups)
    && (forall e: Id :: Total(ps, OfItsEntity(e)) <= caps.maxSymbol)
  }

  lemma {:induction false} NothingThere(ps: seq<Position>, figure: Position -> real)
    requires forall i :: 0 <= i < |ps| ==> figure(ps[i]) == 0.0
    ensures Total(ps, figure) == 0.0
  {
    if ps != [] {
      NothingThere(ps[..|ps| - 1], figure);
      TotalStep(ps, figure);
    }
  }

  lemma GroupsMeaning(ps: seq<Position>, sector: string)
    ensures SectorGroups(ps, sector) == GroupsOf(ps, sector)
    ensures Groups(ps) == set i | 0 <= i < |ps| :: ps[i].group
  {
  }

  lemma TotalCapsMeaning(ps: seq<Position>, caps: Caps)
    ensures TotalCaps(ps, caps) <==>
            && Total(ps, Size) <= caps.maxGross
            && -caps.maxNet <= Total(ps, (p: Position) => p.signed) <= caps.maxNet
            && Total(ps, (p: Position) => p.risk) <= caps.maxOpenRisk
            && |set i | 0 <= i < |ps| :: ps[i].group| <= caps.maxGroups
  {
    TotalsMeaning(ps, Everything);
    GroupsMeaning(ps, "");
  }

  lemma AttributeCapsMeaning(ps: seq<Position>, caps: Caps, p: Position)
    ensures AttributeCaps(ps, caps, p) <==>
            && Total(ps, OfItsAlpha(p.alpha)) <= caps.maxAlpha
            && Total(ps, OfItsSector(p.sector)) <= caps.maxSector
            && Total(ps, OfItsEntity(p.entity)) <= caps.maxSymbol
            && |GroupsOf(ps, p.sector)| <= caps.maxSectorGroups
  {
    TotalsMeaning(ps, OfAlpha(p.alpha));
    TotalsMeaning(ps, OfSector(p.sector));
    TotalsMeaning(ps, OfEntity(p.entity));
    GroupsMeaning(ps, p.sector);
  }

  lemma AlphaCapMeaning(ps: seq<Position>, caps: Caps, a: AlphaFamily)
    requires caps.Valid() && forall p :: p in ps ==> AttributeCaps(ps, caps, p)
    ensures Total(ps, OfItsAlpha(a)) <= caps.maxAlpha
  {
    if i :| 0 <= i < |ps| && ps[i].alpha == a {
      AttributeCapsMeaning(ps, caps, ps[i]);
    } else {
      NothingThere(ps, OfItsAlpha(a));
    }
  }

  lemma SectorCapMeaning(ps: seq<Position>, caps: Caps, x: string)
    requires caps.Valid() && forall p :: p in ps ==> AttributeCaps(ps, caps, p)
    ensures Total(ps, OfItsSector(x)) <= caps.maxSector && |GroupsOf(ps, x)| <= caps.maxSectorGroups
  {
    if i :| 0 <= i < |ps| && ps[i].sector == x {
      AttributeCapsMeaning(ps, caps, ps[i]);
    } else {
      NothingThere(ps, OfItsSector(x));
      assert GroupsOf(ps, x) == {};
    }
  }

  lemma EntityCapMeaning(ps: seq<Position>, caps: Caps, e: Id)
    requires caps.Valid() && forall p :: p in ps ==> AttributeCaps(ps, caps, p)
    ensures Total(ps, OfItsEntity(e)) <= caps.maxSymbol
  {
    if i :| 0 <= i < |ps| && ps[i].entity == e {
      AttributeCapsMeaning(ps, caps, ps[i]);
    } else {
      NothingThere(ps, OfItsEntity(e));
    }
  }

  /** The check of the caps, though it looks only at values that occur, is the check of all of them. */
  lemma CapsMeaning(ps: seq<Position>, caps: Caps)
    requires caps.Valid()
    ensures WithinCaps(ps, caps) <==> InCaps(ps, caps)
  {
    TotalCapsMeaning(ps, caps);
    if WithinCaps(ps, caps) {
      forall a: AlphaFamily { AlphaCapMeaning(ps, caps, a); }
      forall x: string { SectorCapMeaning(ps, caps, x); }
      forall e: Id { EntityCapMeaning(ps, caps, e); }
    }
    if InCaps(ps, caps) {
      forall p | p in ps
        ensures AttributeCaps(ps, caps, p)
      {
        AttributeCapsMeaning(ps, caps, p);
      }
    }
  }
}
