/** Cosine similarity over the reals (util/cosine.go) and its bounds. */
module Cosine {
  import opened Prelude

  type Vector = seq<real>

  /** What the code relies on math.Sqrt for. */
  ghost predicate IsSqrt(sqrt: real -> real) {
    forall x: real :: x >= 0.0 ==> sqrt(x) >= 0.0 && sqrt(x) * sqrt(x) == x
  }

  /** The Cauchy-Schwarz inequality on a dot product and two squared lengths. */
  ghost predicate Bounded(dot: real, normA: real, normB: real) {
    normA >= 0.0 && normB >= 0.0 && dot * dot <= normA * normB
  }

  function Dot(a: Vector, b: Vector): real
    requires |a| == |b|
  {
    if a == [] then 0.0
    else Dot(a[..|a| - 1], b[..|b| - 1]) + a[|a| - 1] * b[|b| - 1]
  }

  /** 0 for a zero magnitude, otherwise the dot product over the product of the two lengths. */
  function Similarity(a: Vector, b: Vector, sqrt: real -> real): real
    requires |a| == |b|
  {
    RootRatio(Dot(a, b), Dot(a, a), Dot(b, b), sqrt)
  }

  function RootRatio(dot: real, normA: real, normB: real, sqrt: real -> real): real {
    Ratio(dot, sqrt(normA) * sqrt(normB))
  }

  function Ratio(dot: real, mag: real): real {
    if mag == 0.0 then 0.0 else dot / mag
  }

  method CosineSimilarity(a: Vector, b: Vector, sqrt: real -> real) returns (r: Result<real>)
    ensures r == if |a| != |b| then Err else Ok(Similarity(a, b, sqrt))
  {
    if |a| != |b| {
      return Err;
    }
    var dot, normA, normB := 0.0, 0.0, 0.0;
    for i := 0 to |a|
      invariant dot == Dot(a[..i], b[..i])
      invariant normA == Dot(a[..i], a[..i]) && normB == Dot(b[..i], b[..i])
    {
      assert a[..i + 1][..i] == a[..i] && b[..i + 1][..i] == b[..i];
      dot := dot + a[i] * b[i];
      normA := normA + a[i] * a[i];
      normB := normB + b[i] * b[i];
    }
    assert a[..|a|] == a && b[..|a|] == b;
    assert dot == Dot(a, b) && normA == Dot(a, a) && normB == Dot(b, b);
    var mag := sqrt(normA) * sqrt(normB);
    assert Similarity(a, b, sqrt) == Ratio(dot, mag);
    if mag == 0.0 {
      return Ok(0.0);
    }
    return Ok(dot / mag);
  }

  lemma {:induction false} DotSymmetric(a: Vector, b: Vector)
    requires |a| == |b|
    ensures Dot(a, b) == Dot(b, a)
  {
    if a != [] {
      DotSymmetric(a[..|a| - 1], b[..|b| - 1]);
    }
  }

  lemma {:induction false} NormNonNegative(a: Vector)
    ensures Dot(a, a) >= 0.0
  {
    if a != [] {
      NormNonNegative(a[..|a| - 1]);
      SquareNonNegative(a[|a| - 1]);
    }
  }

  lemma {:induction false} SquareNonNegative(x: real)
    ensures x * x >= 0.0
  {
    if x < 0.0 { assert x * x == (-x) * (-x); }
  }

  lemma {:induction false} ScaleLe(x: real, y: real, z: real)
    requires x <= y && z >= 0.0
    ensures x * z <= y * z
  {
    assert y * z - x * z == (y - x) * z;
  }

  /** From squares back to magnitudes. */
  lemma {:induction false} SquareBound(x: real, m: real)
    requires m >= 0.0 && x * x <= m * m
    ensures -m <= x <= m
  {
    if x > m {
      SquareGrows(x, m);
    } else if x < -m {
      SquareGrows(-x, m);
    }
  }

  lemma {:induction false} SquareGrows(x: real, m: real)
    requires x > m >= 0.0
    ensures x * x > m * m
  {
    var p, q := x - m, x + m;
    assert p * q > 0.0;
    assert p * q == x * x - m * m;
  }

  /** A non-negative multiple of a positive number has a non-negative factor. */
  lemma {:induction false} FactorNonNegative(a: real, g: real)
    requires a > 0.0 && a * g >= 0.0
    ensures g >= 0.0
  {
    assert g == (a * g) / a;
  }

  lemma {:induction false} ExpandSquare(a: real, d: real, x: real, y: real)
    ensures (a * y - d * x) * (a * y - d * x) == a * (a * (y * y)) - 2.0 * (a * (d * (x * y))) + (d * d) * (x * x)
  {
    var p, q := a * y, d * x;
    assert (p - q) * (p - q) == p * p - 2.0 * (p * q) + q * q;
    assert p * p == a * (a * (y * y));
    assert q * q == (d * d) * (x * x);
    assert p * q == a * (d * (x * y));
  }

  /** The cross terms never exceed the two mixed squares. */
  lemma {:induction false} CrossTerm(d: real, a: real, b: real, x: real, y: real)
    requires a >= 0.0 && b >= 0.0 && d * d <= a * b
    ensures 2.0 * (d * (x * y)) <= a * (y * y) + b * (x * x)
  {
    SquareNonNegative(x);
    if a == 0.0 {
      assert a * b == 0.0;
      SquareBound(d, 0.0);
      ScaleLe(0.0, b, x * x);
      assert d == 0.0;
    } else {
      var gap := a * (y * y) + b * (x * x) - 2.0 * (d * (x * y));
      SquareNonNegative(a * y - d * x);
      ExpandSquare(a, d, x, y);
      ScaleLe(d * d, a * b, x * x);
      assert (a * b) * (x * x) == a * (b * (x * x));
      assert a * gap == a * (a * (y * y)) + a * (b * (x * x)) - 2.0 * (a * (d * (x * y)));
      FactorNonNegative(a, gap);
    }
  }

  /** The induction step of Cauchy-Schwarz: one more coordinate (x, y). */
  lemma {:induction false} CauchySchwarzStep(d: real, a: real, b: real, x: real, y: real)
    requires Bounded(d, a, b)
    ensures Bounded(d + x * y, a + x * x, b + y * y)
  {
    SquareNonNegative(x);
    SquareNonNegative(y);
    CrossTerm(d, a, b, x, y);
    assert (x * x) * (y * y) == (x * y) * (x * y);
    assert (a + x * x) * (b + y * y) == a * b + a * (y * y) + b * (x * x) + (x * x) * (y * y);
    assert (d + x * y) * (d + x * y) == d * d + 2.0 * (d * (x * y)) + (x * y) * (x * y);
  }

  /** Cauchy-Schwarz on the loop's accumulated sums, for vectors of any length. */
  lemma {:induction false} CauchySchwarz(a: Vector, b: Vector)
    requires |a| == |b|
    ensures Bounded(Dot(a, b), Dot(a, a), Dot(b, b))
  {
    if a != [] {
      var a', b' := a[..|a| - 1], b[..|b| - 1];
      CauchySchwarz(a', b');
      CauchySchwarzStep(Dot(a', b'), Dot(a', a'), Dot(b', b'), a[|a| - 1], b[|b| - 1]);
    }
  }

  /** The dot product of one more coordinate, and of vectors put together. */
  lemma {:induction false} DotAdds(a: Vector, b: Vector, c: Vector, d: Vector)
    requires |a| == |b| && |c| == |d|
    ensures Dot(a + c, b + d) == Dot(a, b) + Dot(c, d)
    ensures forall x: real, y: real :: Dot([x], [y]) == x * y
  {
    forall x: real, y: real ensures Dot([x], [y]) == x * y {
      assert Dot([x][..0], [y][..0]) == 0.0;
    }
    if c == [] {
      assert a + c == a && b + d == b;
    } else {
      var c', d' := c[..|c| - 1], d[..|d| - 1];
      DotAdds(a, b, c', d');
      assert (a + c)[..|a + c| - 1] == a + c' && (b + d)[..|b + d| - 1] == b + d';
    }
  }

  /** The similarity is the quotient of the dot product and the two lengths, sign included, for any vectors. */
  lemma {:induction false} SimilarityTimesLengths(a: Vector, b: Vector, sqrt: real -> real)
    requires |a| == |b| && IsSqrt(sqrt)
    ensures Similarity(a, b, sqrt) * (sqrt(Dot(a, a)) * sqrt(Dot(b, b))) == Dot(a, b)
  {
    hide Dot, RootRatio;
    CauchySchwarz(a, b);
    RootRatioTimes(Dot(a, b), Dot(a, a), Dot(b, b), sqrt);
  }

  lemma {:induction false} RootRatioTimes(d: real, na: real, nb: real, sqrt: real -> real)
    requires IsSqrt(sqrt) && Bounded(d, na, nb)
    ensures RootRatio(d, na, nb, sqrt) * (sqrt(na) * sqrt(nb)) == d
  {
    RootProduct(na, nb, sqrt(na), sqrt(nb));
    RatioTimes(d, sqrt(na) * sqrt(nb), RootRatio(d, na, nb, sqrt));
  }

  lemma {:induction false} RatioTimes(d: real, mag: real, r: real)
    requires d * d <= mag * mag && r == Ratio(d, mag)
    ensures r * mag == d
  {
    if mag == 0.0 {
      SquareBound(d, 0.0);
    }
  }

  /** Similarity lies in [-1, 1] for vectors of any length. */
  lemma {:induction false} SimilarityInRange(a: Vector, b: Vector, sqrt: real -> real)
    requires |a| == |b| && IsSqrt(sqrt)
    ensures -1.0 <= Similarity(a, b, sqrt) <= 1.0
  {
    CauchySchwarz(a, b);
    RatioOfRoots(Dot(a, b), Dot(a, a), Dot(b, b), sqrt);
  }

  lemma {:induction false} RatioOfRoots(d: real, na: real, nb: real, sqrt: real -> real)
    requires IsSqrt(sqrt) && Bounded(d, na, nb)
    ensures -1.0 <= RootRatio(d, na, nb, sqrt) <= 1.0
  {
    RootProduct(na, nb, sqrt(na), sqrt(nb));
    RatioInRange(d, na * nb, sqrt(na) * sqrt(nb));
  }

  lemma {:induction false} RootProduct(na: real, nb: real, ra: real, rb: real)
    requires ra >= 0.0 && rb >= 0.0 && ra * ra == na && rb * rb == nb
    ensures ra * rb >= 0.0 && (ra * rb) * (ra * rb) == na * nb
  {
    ScaleLe(0.0, ra, rb);
    assert (ra * rb) * (ra * rb) == (ra * ra) * (rb * rb);
  }

  lemma {:induction false} RatioInRange(d: real, n: real, mag: real)
    requires mag >= 0.0 && mag * mag == n && d * d <= n
    ensures -1.0 <= Ratio(d, mag) <= 1.0
  {
    SquareBound(d, mag);
    if mag != 0.0 {
      QuotientInRange(d, mag);
    }
  }

  lemma {:induction false} QuotientInRange(d: real, m: real)
    requires m > 0.0 && -m <= d <= m
    ensures -1.0 <= d / m <= 1.0
  {
    FactorNonNegative(m, 1.0 - d / m);
    FactorNonNegative(m, 1.0 + d / m);
  }

  lemma {:induction false} SimilaritySymmetric(a: Vector, b: Vector, sqrt: real -> real)
    requires |a| == |b|
    ensures Similarity(a, b, sqrt) == Similarity(b, a, sqrt)
  {
    DotSymmetric(a, b);
  }

  /** Why a unit diagonal is right: a non-zero vector has similarity 1 with itself. */
  lemma {:induction false} SelfSimilarity(a: Vector, sqrt: real -> real)
    requires IsSqrt(sqrt)
    ensures Similarity(a, a, sqrt) == if Dot(a, a) == 0.0 then 0.0 else 1.0
  {
    NormNonNegative(a);
    SelfRatio(Dot(a, a), sqrt(Dot(a, a)));
  }

  lemma {:induction false} SelfRatio(n: real, r: real)
    requires r >= 0.0 && r * r == n
    ensures Ratio(n, r * r) == if n == 0.0 then 0.0 else 1.0
  {
    var mag := r * r;
    assert mag == n;
  }
}
