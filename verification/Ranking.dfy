/** Tie-aware mid-distribution ranks. */
module Ranking {
  import opened Prelude
  import opened Sorting

  function CountLess(vs: seq<real>, x: real): nat {
    if vs == [] then 0 else CountLess(vs[..|vs| - 1], x) + (if vs[|vs| - 1] < x then 1 else 0)
  }

  function CountEqual(vs: seq<real>, x: real): nat {
    if vs == [] then 0 else CountEqual(vs[..|vs| - 1], x) + (if vs[|vs| - 1] == x then 1 else 0)
  }

  /** Twice the mid-rank: two for each value below, one for each tie. */
  function Weight(vs: seq<real>, x: real): nat {
    2 * CountLess(vs, x) + CountEqual(vs, x)
  }

  function Percentile(vs: seq<real>, x: real): real
    requires vs != []
  {
    (CountLess(vs, x) as real + 0.5 * CountEqual(vs, x) as real) / |vs| as real
  }

  /** The positions of the values below `x`, and of those equal to it. */
  function Below(vs: seq<real>, x: real): set<int> {
    set i | 0 <= i < |vs| && vs[i] < x
  }

  function Ties(vs: seq<real>, x: real): set<int> {
    set i | 0 <= i < |vs| && vs[i] == x
  }

  lemma {:induction false} CountMeaning(vs: seq<real>, x: real)
    ensures CountLess(vs, x) == |Below(vs, x)| && CountEqual(vs, x) == |Ties(vs, x)|
  {
    if vs != [] {
      var n := |vs| - 1;
      CountMeaning(vs[..n], x);
      assert Below(vs, x) == Below(vs[..n], x) + if vs[n] < x then {n} else {};
      assert Ties(vs, x) == Ties(vs[..n], x) + if vs[n] == x then {n} else {};
    }
  }

  /** The share of the sample that is below, with half of the ties. */
  lemma PercentileMeaning(vs: seq<real>, x: real)
    requires vs != []
    ensures Percentile(vs, x) * |vs| as real == |Below(vs, x)| as real + |Ties(vs, x)| as real / 2.0
  {
    CountMeaning(vs, x);
  }

  function Percentiles(vs: seq<real>): (ps: seq<real>)
    requires vs != []
    ensures |ps| == |vs|
    ensures forall i :: 0 <= i < |ps| ==> ps[i] == Percentile(vs, vs[i])
  {
    seq(|vs|, i requires 0 <= i < |vs| => Percentile(vs, vs[i]))
  }

  lemma {:induction false} CountsOfMember(vs: seq<real>, x: real)
    ensures CountLess(vs, x) + CountEqual(vs, x) <= |vs|
    ensures x in vs ==> CountEqual(vs, x) >= 1
  {
    if vs != [] {
      CountsOfMember(vs[..|vs| - 1], x);
      assert vs == vs[..|vs| - 1] + [vs[|vs| - 1]];
    }
  }

  lemma PercentileFromWeight(vs: seq<real>, x: real)
    requires vs != []
    ensures Percentile(vs, x) == Weight(vs, x) as real / (2 * |vs|) as real
  {
    var n := |vs| as real;
    var w := Weight(vs, x) as real;
    assert (2 * |vs|) as real == 2.0 * n;
    assert CountLess(vs, x) as real + 0.5 * CountEqual(vs, x) as real == w / 2.0;
    HalveBoth(w, n);
  }

  lemma HalveBoth(w: real, n: real)
    requires n > 0.0
    ensures (w / 2.0) / n == w / (2.0 * n)
  {
    var q := w / (2.0 * n);
    assert q * (2.0 * n) == w;
    assert w / 2.0 == q * n;
  }

  lemma Ratio(x: real, n: real)
    requires n > 0.0
    ensures x > 0.0 <==> x / n > 0.0
    ensures x < n <==> x / n < 1.0
  {
    Scale(x, n, n);
    assert n / n == 1.0;
  }

  /** Every rank lies strictly between zero and one. */
  lemma PercentileInside(vs: seq<real>, x: real)
    requires x in vs
    ensures 0.0 < Percentile(vs, x) < 1.0
  {
    CountsOfMember(vs, x);
    Ratio(CountLess(vs, x) as real + 0.5 * CountEqual(vs, x) as real, |vs| as real);
  }

  lemma {:induction false} WeightMonotone(vs: seq<real>, x: real, y: real)
    requires x < y
    ensures Weight(vs, x) + CountEqual(vs, x) + CountEqual(vs, y) <= Weight(vs, y)
  {
    if vs != [] {
      WeightMonotone(vs[..|vs| - 1], x, y);
    }
  }

  lemma Scale(x: real, y: real, n: real)
    requires n > 0.0
    ensures x < y <==> x / n < y / n
  {
    assert (x / n) * n == x && (y / n) * n == y;
  }

  /** Ranks order members as their values do: strictly, and ties alike. */
  lemma PercentileOrder(vs: seq<real>, x: real, y: real)
    requires x in vs && y in vs
    ensures x < y <==> Percentile(vs, x) < Percentile(vs, y)
    ensures x == y <==> Percentile(vs, x) == Percentile(vs, y)
  {
    CountsOfMember(vs, x);
    CountsOfMember(vs, y);
    PercentileFromWeight(vs, x);
    PercentileFromWeight(vs, y);
    var n := (2 * |vs|) as real;
    Scale(Weight(vs, x) as real, Weight(vs, y) as real, n);
    Scale(Weight(vs, y) as real, Weight(vs, x) as real, n);
    if x < y {
      WeightMonotone(vs, x, y);
    } else if y < x {
      WeightMonotone(vs, y, x);
    }
  }

  function Negated(vs: seq<real>): (r: seq<real>)
    ensures |r| == |vs|
  {
    if vs == [] then [] else Negated(vs[..|vs| - 1]) + [-vs[|vs| - 1]]
  }

  lemma {:induction false} NegatedWeight(vs: seq<real>, x: real)
    ensures Weight(Negated(vs), -x) + Weight(vs, x) == 2 * |vs|
  {
    if vs != [] {
      NegatedWeight(vs[..|vs| - 1], x);
      assert Negated(vs)[..|vs| - 1] == Negated(vs[..|vs| - 1]);
    }
  }

  /** Reversing the scale reverses the ranks. */
  lemma NegationMirrors(vs: seq<real>, x: real)
    requires vs != []
    ensures Percentile(Negated(vs), -x) == 1.0 - Percentile(vs, x)
  {
    NegatedWeight(vs, x);
    PercentileFromWeight(vs, x);
    PercentileFromWeight(Negated(vs), -x);
    Complement(Weight(vs, x) as real, (2 * |vs|) as real, Percentile(vs, x), Percentile(Negated(vs), -x));
  }

  lemma Complement(w: real, n: real, p: real, q: real)
    requires n > 0.0 && p == w / n && q == (n - w) / n
    ensures q == 1.0 - p
  {
    assert p * n == w && q * n == n - w;
    Cancel(q, 1.0 - p, n);
  }

  lemma Cancel(x: real, y: real, d: real)
    requires d > 0.0 && x * d == y * d
    ensures x == y
  {
    assert (x - y) * d == 0.0;
  }

  function Mapped(vs: seq<real>, f: real -> real): (r: seq<real>)
    ensures |r| == |vs|
  {
    if vs == [] then [] else Mapped(vs[..|vs| - 1], f) + [f(vs[|vs| - 1])]
  }

  ghost predicate Increasing(f: real -> real) {
    forall x, y :: x < y ==> f(x) < f(y)
  }

  lemma {:induction false} MappedCounts(vs: seq<real>, f: real -> real, x: real)
    requires Increasing(f)
    ensures CountLess(Mapped(vs, f), f(x)) == CountLess(vs, x)
    ensures CountEqual(Mapped(vs, f), f(x)) == CountEqual(vs, x)
  {
    if vs != [] {
      MappedCounts(vs[..|vs| - 1], f, x);
      assert Mapped(vs, f)[..|vs| - 1] == Mapped(vs[..|vs| - 1], f);
      var v := vs[|vs| - 1];
      assert v < x ==> f(v) < f(x);
      assert x < v ==> f(x) < f(v);
    }
  }

  /** Only the order of the values matters: any strictly increasing rescaling leaves the ranks alone. */
  lemma RescalingInvariant(vs: seq<real>, f: real -> real, x: real)
    requires vs != [] && Increasing(f)
    ensures Percentile(Mapped(vs, f), f(x)) == Percentile(vs, x)
  {
    MappedCounts(vs, f, x);
  }

  lemma {:induction false} CountsFromMultiset(vs: seq<real>, ws: seq<real>, x: real)
    requires multiset(vs) == multiset(ws)
    ensures CountLess(vs, x) == CountLess(ws, x) && CountEqual(vs, x) == CountEqual(ws, x)
  {
    assert |multiset(vs)| == |multiset(ws)|;
    if vs != [] {
      var i := TakeOut(vs, ws);
      CountsFromMultiset(vs[..|vs| - 1], ws[..i] + ws[i + 1..], x);
      CountsSplit(ws[..i], ws[i + 1..], ws[i], x);
    }
  }

  lemma {:induction false} CountsSplit(a: seq<real>, b: seq<real>, v: real, x: real)
    ensures CountLess(a + [v] + b, x) == CountLess(a + b, x) + (if v < x then 1 else 0)
    ensures CountEqual(a + [v] + b, x) == CountEqual(a + b, x) + (if v == x then 1 else 0)
  {
    if b == [] {
      assert a + [v] + b == a + [v] && (a + [v])[..|a|] == a && a + b == a;
    } else {
      var n := |b| - 1;
      CountsSplit(a, b[..n], v, x);
      assert (a + [v] + b)[..|a| + 1 + n] == a + [v] + b[..n];
      assert (a + b)[..|a| + n] == a + b[..n];
    }
  }

  /** The order in which the values are listed does not matter. */
  lemma OrderInvariant(vs: seq<real>, ws: seq<real>, x: real)
    requires vs != [] && multiset(vs) == multiset(ws)
    ensures ws != [] && Percentile(vs, x) == Percentile(ws, x)
  {
    assert |multiset(vs)| == |multiset(ws)|;
    CountsFromMultiset(vs, ws, x);
  }

  /** Total weight of the values `xs` ranked among `vs`. */
  function TotalWeight(vs: seq<real>, xs: seq<real>): nat {
    if xs == [] then 0 else TotalWeight(vs, xs[..|xs| - 1]) + Weight(vs, xs[|xs| - 1])
  }

  lemma {:induction false} OneMoreValue(vs: seq<real>, v: real, xs: seq<real>)
    ensures TotalWeight(vs + [v], xs) + Weight(xs, v) == TotalWeight(vs, xs) + 2 * |xs|
  {
    if xs != [] {
      OneMoreValue(vs, v, xs[..|xs| - 1]);
      assert (vs + [v])[..|vs|] == vs;
    }
  }

  /** Double counting: every pair is split between its two members. */
  lemma {:induction false} PairsSplit(vs: seq<real>, xs: seq<real>)
    ensures TotalWeight(vs, xs) + TotalWeight(xs, vs) == 2 * (|vs| * |xs|)
    decreases |vs|
  {
    if vs == [] {
      NoValues(xs);
    } else {
      var n := |vs| - 1;
      PairsSplit(vs[..n], xs);
      OneMoreValue(vs[..n], vs[n], xs);
      assert vs == vs[..n] + [vs[n]];
      ProductNext(n, |xs|);
    }
  }

  lemma ProductNext(n: nat, m: nat)
    ensures (n + 1) * m == n * m + m
  {
  }

  lemma {:induction false} NoValues(xs: seq<real>)
    ensures TotalWeight([], xs) == 0
  {
    if xs != [] {
      NoValues(xs[..|xs| - 1]);
    }
  }

  lemma {:induction false} SumOfRanks(vs: seq<real>, xs: seq<real>, ps: seq<real>)
    requires vs != [] && |ps| == |xs| && forall i :: 0 <= i < |xs| ==> ps[i] == Percentile(vs, xs[i])
    ensures Sum(ps) == TotalWeight(vs, xs) as real / (2 * |vs|) as real
  {
    var d := (2 * |vs|) as real;
    if xs == [] {
      assert 0.0 / d == 0.0;
    } else {
      var n := |xs| - 1;
      SumOfRanks(vs, xs[..n], ps[..n]);
      PercentileFromWeight(vs, xs[n]);
      AddQuotients(TotalWeight(vs, xs[..n]) as real, Weight(vs, xs[n]) as real, d);
    }
  }

  lemma AddQuotients(x: real, y: real, d: real)
    requires d > 0.0
    ensures x / d + y / d == (x + y) / d
  {
  }

  /** The ranks of a cross-section sum to half its size. */
  lemma RanksSumToHalf(vs: seq<real>)
    requires vs != []
    ensures Sum(Percentiles(vs)) == |vs| as real / 2.0
  {
    SumOfRanks(vs, vs, Percentiles(vs));
    PairsSplit(vs, vs);
    var n := |vs| as real;
    assert TotalWeight(vs, vs) == |vs| * |vs|;
    assert (|vs| * |vs|) as real == n * n;
    SquareOverDouble(n);
  }

  lemma SquareOverDouble(n: real)
    requires n > 0.0
    ensures (n * n) / (2.0 * n) == n / 2.0
  {
    assert (n / 2.0) * (2.0 * n) == n * n;
  }
}
