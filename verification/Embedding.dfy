/** Cosine similarity of embeddings and its classification.
    Over the reals: the square roots of the norms are arguments that are only known to be roots. */
module Embeddings {
  import opened Reals

  type Embedding = seq<real>

  function Dot(a: seq<real>, b: seq<real>): real
    requires |a| == |b|
  {
    if a == [] then 0.0 else Times(a[|a| - 1], b[|b| - 1]) + Dot(a[..|a| - 1], b[..|b| - 1])
  }

  lemma DotLast(a: seq<real>, b: seq<real>)
    requires |a| == |b| && a != []
    ensures Dot(a, b) == Times(a[|a| - 1], b[|b| - 1]) + Dot(a[..|a| - 1], b[..|b| - 1])
  {
  }

  lemma {:induction false} DotSymmetric(a: seq<real>, b: seq<real>)
    requires |a| == |b|
    ensures Dot(a, b) == Dot(b, a)
    decreases |a|
  {
    if a != [] {
      DotSymmetric(a[..|a| - 1], b[..|b| - 1]);
    }
  }

  lemma SquareSign(x: real)
    ensures x * x >= 0.0
  {
  }

  lemma {:induction false} NormSign(a: seq<real>)
    ensures Dot(a, a) >= 0.0
    decreases |a|
  {
    if a != [] {
      NormSign(a[..|a| - 1]);
      SquareSign(a[|a| - 1]);
    }
  }

  lemma SquareOfProduct(x: real, y: real)
    ensures (x * y) * (x * y) == (x * x) * (y * y)
  {
  }

  lemma PositiveProduct(x: real, y: real)
    requires x > 0.0 && y > 0.0
    ensures x * y > 0.0
  {
  }

  lemma DifferenceOfSquares(x: real, y: real)
    ensures y * y - x * x == (y - x) * (y + x)
  {
    assert (y - x) * (y + x) == y * (y + x) - x * (y + x);
  }

  lemma SquareLess(x: real, y: real)
    requires 0.0 <= x < y
    ensures x * x < y * y
  {
    DifferenceOfSquares(x, y);
    PositiveProduct(y - x, y + x);
  }

  /** If w*w <= u*v for non-negative u and v, then 2w <= u + v. */
  lemma TwiceBelowSum(u: real, v: real, w: real)
    requires u >= 0.0 && v >= 0.0 && w * w <= u * v
    ensures 2.0 * w <= u + v
  {
    SquareSign(u - v);
    assert (u + v) * (u + v) == (u - v) * (u - v) + 4.0 * (u * v);
    assert (2.0 * w) * (2.0 * w) == 4.0 * (w * w);
    if 2.0 * w > u + v {
      SquareLess(u + v, 2.0 * w);
    }
  }

  /** One more coordinate keeps the inequality. */
  lemma CauchyStep(d: real, na: real, nb: real, x: real, y: real)
    requires na >= 0.0 && nb >= 0.0 && d * d <= na * nb
    ensures (x * y + d) * (x * y + d) <= (x * x + na) * (y * y + nb)
  {
    var u, v, w := (x * x) * nb, (y * y) * na, d * (x * y);
    SquareSign(x);
    SquareSign(y);
    ProductSign(x * x, nb);
    ProductSign(y * y, na);
    assert w * w <= u * v by {
      SquareOfProduct(d, x * y);
      SquareOfProduct(x, y);
      var p := (x * x) * (y * y);
      ProductSign(x * x, y * y);
      ProductSign(na * nb - d * d, p);
      assert w * w == (d * d) * p;
      assert u * v == (na * nb) * p;
      assert (na * nb - d * d) * p == (na * nb) * p - (d * d) * p;
    }
    TwiceBelowSum(u, v, w);
    assert (x * y + d) * (x * y + d) == (x * y) * (x * y) + 2.0 * w + d * d;
    assert (x * x + na) * (y * y + nb) == (x * x) * (y * y) + u + v + na * nb;
    SquareOfProduct(x, y);
  }

  ghost predicate WithinNorms(dot: real, na: real, nb: real) {
    dot * dot <= na * nb
  }

  lemma CauchyJoin(d: real, na: real, nb: real, x: real, y: real, d': real, na': real, nb': real)
    requires na >= 0.0 && nb >= 0.0 && WithinNorms(d, na, nb)
    requires d' == x * y + d && na' == x * x + na && nb' == y * y + nb
    ensures WithinNorms(d', na', nb')
  {
    CauchyStep(d, na, nb, x, y);
  }

  /** Cauchy-Schwarz for the accumulated sums, on all vectors of equal length. */
  lemma {:induction false} CauchySchwarz(a: seq<real>, b: seq<real>)
    requires |a| == |b|
    ensures WithinNorms(Dot(a, b), Dot(a, a), Dot(b, b))
    decreases |a|
  {
    if a == [] {
      assert Dot(a, b) == Dot(a, a) == Dot(b, b) == 0.0;
    } else {
      hide Dot, WithinNorms;
      var p, q := a[..|a| - 1], b[..|b| - 1];
      var x, y := a[|a| - 1], b[|b| - 1];
      CauchySchwarz(p, q);
      NormSign(p);
      NormSign(q);
      DotLast(a, b);
      DotLast(a, a);
      DotLast(b, b);
      CauchyJoin(Dot(p, q), Dot(p, p), Dot(q, q), x, y, Dot(a, b), Dot(a, a), Dot(b, b));
    }
  }

  ghost predicate IsRoot(r: real, x: real) { r >= 0.0 && r * r == x }

  /** The accumulator loop. */
  method Sums(a: seq<real>, b: seq<real>) returns (dot: real, na: real, nb: real)
    requires |a| == |b|
    ensures dot == Dot(a, b) && na == Dot(a, a) && nb == Dot(b, b)
  {
    dot, na, nb := 0.0, 0.0, 0.0;
    var i := 0;
    while i < |a|
      invariant 0 <= i <= |a|
      invariant dot == Dot(a[..i], b[..i]) && na == Dot(a[..i], a[..i]) && nb == Dot(b[..i], b[..i])
    {
      var x, y := a[i], b[i];
      assert a[..i + 1][..i] == a[..i] && b[..i + 1][..i] == b[..i];
      dot := dot + x * y;
      na := na + x * x;
      nb := nb + y * y;
      i := i + 1;
    }
    assert a[..i] == a && b[..i] == b;
  }

  /** `ra` and `rb` are the square roots of the two squared norms. */
  function Cosine(a: seq<real>, b: seq<real>, ra: real, rb: real): real {
    if |a| != |b| || a == [] then 0.0
    else if ra * rb == 0.0 then 0.0
    else Dot(a, b) / (ra * rb)
  }

  lemma QuotientInRange(x: real, y: real)
    requires y > 0.0 && x * x <= y * y
    ensures -1.0 <= x / y <= 1.0
  {
    if x > y { SquareLess(y, x); }
    if -x > y { SquareLess(y, -x); }
    assert x / y * y == x;
  }

  /** The similarity lies in [-1, 1] for all vectors, mismatched and zero ones included. */
  lemma CosineInRange(a: seq<real>, b: seq<real>, ra: real, rb: real)
    requires IsRoot(ra, Dot(a, a)) && IsRoot(rb, Dot(b, b))
    ensures -1.0 <= Cosine(a, b, ra, rb) <= 1.0
  {
    if |a| == |b| && a != [] && ra * rb != 0.0 {
      CauchySchwarz(a, b);
      ProductSign(ra, rb);
      SquareOfProduct(ra, rb);
      QuotientInRange(Dot(a, b), ra * rb);
    }
  }

  datatype Verdict = Equivalent(score: real) | Opposed(score: real) | Undecided(score: real)

  datatype Thresholds = Thresholds(equivalence: real, contradiction: real)

  function Classify(t: Thresholds, a: seq<real>, b: seq<real>, ra: real, rb: real): Verdict {
    var s := Cosine(a, b, ra, rb);
    if s >= t.equivalence then Equivalent(s) else if s <= t.contradiction then Opposed(s) else Undecided(s)
  }

  lemma RootUnique(r: real, s: real, x: real)
    requires IsRoot(r, x) && IsRoot(s, x)
    ensures r == s
  {
    if r < s { SquareLess(r, s); }
    if s < r { SquareLess(s, r); }
  }

  /** The verdict is symmetric, and does not depend on how the roots were computed. */
  lemma ClassifySymmetric(
    t: Thresholds, a: seq<real>, b: seq<real>, ra: real, rb: real, ra': real, rb': real)
    requires IsRoot(ra, Dot(a, a)) && IsRoot(rb, Dot(b, b))
    requires IsRoot(ra', Dot(a, a)) && IsRoot(rb', Dot(b, b))
    ensures Classify(t, a, b, ra, rb) == Classify(t, b, a, rb', ra')
  {
    RootUnique(ra, ra', Dot(a, a));
    RootUnique(rb, rb', Dot(b, b));
    if |a| == |b| { DotSymmetric(a, b); }
    assert ra * rb == rb * ra;
  }

  /** A vector is similar to itself by one, the zero vector by zero; so it counts as equivalent to
      itself, under a positive threshold up to one, exactly when it is not zero. */
  lemma SelfSimilarity(t: Thresholds, a: seq<real>, ra: real)
    requires IsRoot(ra, Dot(a, a)) && 0.0 < t.equivalence <= 1.0
    ensures Cosine(a, a, ra, ra) == if Dot(a, a) == 0.0 then 0.0 else 1.0
    ensures Classify(t, a, a, ra, ra).Equivalent? <==> Dot(a, a) != 0.0
  {
    assert ra * ra == Dot(a, a) && Dot([], []) == 0.0;
    if a == [] { assert Dot(a, a) == 0.0; }
    var x := Dot(a, a);
    if x != 0.0 { assert x / x == 1.0; }
  }

  /** The similarity scales back to the dot product, so it has the dot product's sign; vectors of different
      lengths, empty ones and zero ones have none. */
  lemma CosineScales(a: seq<real>, b: seq<real>, ra: real, rb: real)
    requires IsRoot(ra, Dot(a, a)) && IsRoot(rb, Dot(b, b))
    ensures |a| == |b| && ra * rb != 0.0 ==> Cosine(a, b, ra, rb) * (ra * rb) == Dot(a, b)
    ensures |a| != |b| || ra * rb == 0.0 ==> Cosine(a, b, ra, rb) == 0.0
  {
    if a == [] { assert Dot(a, a) == 0.0 && ra * ra == 0.0; }
    if |a| == |b| && ra * rb != 0.0 {
      QuotientBack(Dot(a, b), ra * rb);
    }
  }

  lemma QuotientBack(x: real, y: real)
    requires y != 0.0
    ensures x / y * y == x
  {
  }

  function Opposite(a: seq<real>): (r: seq<real>)
    ensures |r| == |a| && forall i :: 0 <= i < |a| ==> r[i] == -a[i]
  {
    seq(|a|, i requires 0 <= i < |a| => -a[i])
  }

  lemma {:induction false} DotOpposite(a: seq<real>)
    ensures Dot(a, Opposite(a)) == -Dot(a, a) && Dot(Opposite(a), Opposite(a)) == Dot(a, a)
    decreases |a|
  {
    if a != [] {
      var n := |a| - 1;
      assert Opposite(a)[..n] == Opposite(a[..n]);
      DotOpposite(a[..n]);
      DotLast(a, a);
      DotLast(a, Opposite(a));
      DotLast(Opposite(a), Opposite(a));
      hide Dot;
    }
  }

  /** A vector is opposed to its opposite. */
  lemma OppositesAreOpposed(t: Thresholds, a: seq<real>, r: real)
    requires IsRoot(r, Dot(a, a)) && r != 0.0
    requires -1.0 <= t.contradiction && -1.0 < t.equivalence
    ensures Classify(t, a, Opposite(a), r, r) == Opposed(-1.0)
  {
    DotOpposite(a);
    NonZeroRoot(r, Dot(a, a));
    MinusOne(Dot(a, Opposite(a)), Dot(a, a));
  }

  lemma NonZeroRoot(r: real, x: real)
    requires IsRoot(r, x) && r != 0.0
    ensures x > 0.0 && r * r == x
  {
    if x <= 0.0 {
      SquareLess(0.0, r);
    }
  }

  lemma MinusOne(x: real, y: real)
    requires y != 0.0 && x == -y
    ensures x / y == -1.0
  {
  }

  lemma NamedScale(a: seq<real>, b: seq<real>, ra: real, rb: real)
    requires IsRoot(ra, Dot(a, a)) && IsRoot(rb, Dot(b, b)) && |a| == |b| && ra > 0.0 && rb > 0.0
    ensures Times(ra, rb) > 0.0 && Times(Cosine(a, b, ra, rb), Times(ra, rb)) == Dot(a, b)
  {
    PositiveProduct(ra, rb);
    CosineScales(a, b, ra, rb);
    hide Dot, Cosine, IsRoot;
  }

  /** The verdict compares the dot product with the scaled thresholds, both of them included. */
  lemma ClassifyIff(t: Thresholds, a: seq<real>, b: seq<real>, ra: real, rb: real)
    requires IsRoot(ra, Dot(a, a)) && IsRoot(rb, Dot(b, b)) && |a| == |b| && ra > 0.0 && rb > 0.0
    ensures
      var v := Classify(t, a, b, ra, rb);
      && (v.Equivalent? <==> Times(t.equivalence, Times(ra, rb)) <= Dot(a, b))
      && (v.Opposed? <==> !v.Equivalent? && Dot(a, b) <= Times(t.contradiction, Times(ra, rb)))
      && Times(v.score, Times(ra, rb)) == Dot(a, b)
  {
    NamedScale(a, b, ra, rb);
    hide Dot, Cosine, IsRoot, Times;
    var c, k, d := Cosine(a, b, ra, rb), Times(ra, rb), Dot(a, b);
    ScaledOrder(t.equivalence, c, k, d);
    ScaledOrder(t.contradiction, c, k, d);
  }

  lemma ScaledOrder(x: real, c: real, k: real, d: real)
    requires k > 0.0 && Times(c, k) == d
    ensures x <= c <==> Times(x, k) <= d
    ensures c <= x <==> d <= Times(x, k)
  {
    assert (c - x) * k == c * k - x * k && (x - c) * k == x * k - c * k;
    if x < c {
      PositiveProduct(c - x, k);
    } else if c < x {
      PositiveProduct(x - c, k);
    }
  }
}
