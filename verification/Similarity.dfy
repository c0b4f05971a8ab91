/** Cosine similarity over real vectors. The square root is a parameter, known
    only to be one on the non-negative reals. */
module Similarity {
  import opened Wrappers

  type Vector = seq<real>

  predicate IsRoot(r: real, x: real) { r >= 0.0 && r * r == x }

  ghost predicate IsSqrt(sqrt: real -> real) {
    forall x | x >= 0.0 :: IsRoot(sqrt(x), x)
  }

  function Dot(a: Vector, b: Vector): real
    requires |a| == |b|
  {
    if a == [] then 0.0 else a[0] * b[0] + Dot(a[1..], b[1..])
  }

  function Norm(sqrt: real -> real, a: Vector): real { sqrt(Dot(a, a)) }

  function CosineSimilarity(sqrt: real -> real, a: Vector, b: Vector): real
    requires |a| == |b|
  {
    Cosine(Dot(a, b), Norm(sqrt, a), Norm(sqrt, b))
  }

  /** The quotient of a dot product by two norms, 0 when a norm is. */
  function Cosine(dot: real, p: real, q: real): real { GuardedDiv(dot, p * q) }

  function GuardedDiv(x: real, y: real): real { if y == 0.0 then 0.0 else x / y }

  // ----- products of reals -----

  lemma PositiveProduct(x: real, y: real)
    requires x > 0.0 && y > 0.0
    ensures x * y > 0.0
  {
  }

  lemma SquarePositive(x: real)
    ensures x * x >= 0.0
    ensures x != 0.0 ==> x * x > 0.0
  {
  }

  lemma ScaleLe(c: real, x: real, y: real)
    requires c >= 0.0 && x <= y
    ensures c * x <= c * y
  {
  }

  lemma CancelScale(c: real, x: real, y: real)
    requires c > 0.0 && c * x <= c * y
    ensures x <= y
  {
  }

  lemma AbsFromSquares(d: real, m: real)
    requires m >= 0.0 && d * d <= m * m
    ensures -m <= d <= m
  {
    assert (d - m) * (d + m) == d * d - m * m;
    assert (-d - m) * (-d + m) == d * d - m * m;
    if d > m {
      PositiveProduct(d - m, d + m);
    } else if d < -m {
      PositiveProduct(-d - m, -d + m);
    }
  }

  lemma QuotientBounds(d: real, m: real)
    requires m > 0.0 && -m <= d <= m
    ensures -1.0 <= GuardedDiv(d, m) <= 1.0
  {
  }

  /** A product by name, for facts about its sign and to keep factors apart. */
  function Times(x: real, y: real): real { x * y }

  // ----- the dot product -----

  function Zero(n: nat): (z: Vector)
    ensures |z| == n
  {
    seq(n, _ => 0.0)
  }

  /** The `i`-th coordinate vector. */
  function Unit(i: nat, n: nat): (u: Vector)
    ensures |u| == n
  {
    seq(n, j => if j == i then 1.0 else 0.0)
  }

  function Plus(a: Vector, b: Vector): (c: Vector)
    requires |a| == |b|
    ensures |c| == |a|
  {
    seq(|a|, i requires 0 <= i < |a| => a[i] + b[i])
  }

  function Scale(k: real, a: Vector): (c: Vector)
    ensures |c| == |a|
  {
    seq(|a|, i requires 0 <= i < |a| => Times(k, a[i]))
  }

  function Neg(a: Vector): (c: Vector)
    ensures |c| == |a|
  {
    seq(|a|, i requires 0 <= i < |a| => -a[i])
  }

  lemma {:induction false} DotZeroVector(b: Vector)
    ensures Dot(Zero(|b|), b) == 0.0
  {
    if b != [] {
      DotZeroVector(b[1..]);
      assert Zero(|b|)[1..] == Zero(|b[1..]|);
    }
  }

  /** The dot product with a coordinate vector reads that coordinate. */
  lemma {:induction false} DotUnit(i: nat, b: Vector)
    requires i < |b|
    ensures Dot(Unit(i, |b|), b) == b[i]
  {
    if i == 0 {
      DotZeroVector(b[1..]);
      assert Unit(0, |b|)[1..] == Zero(|b[1..]|);
    } else {
      DotUnit(i - 1, b[1..]);
      assert Unit(i, |b|)[1..] == Unit(i - 1, |b[1..]|);
    }
  }

  /** It is additive, */
  lemma {:induction false} DotPlus(a: Vector, c: Vector, b: Vector)
    requires |a| == |c| == |b|
    ensures Dot(Plus(a, c), b) == Dot(a, b) + Dot(c, b)
  {
    if a != [] {
      DotPlus(a[1..], c[1..], b[1..]);
      assert Plus(a, c)[1..] == Plus(a[1..], c[1..]);
      SpreadSum(a[0], c[0], b[0]);
    }
  }

  lemma SpreadSum(x: real, y: real, z: real)
    ensures (x + y) * z == x * z + y * z
  {
  }

  /** homogeneous, */
  lemma {:induction false} DotScale(k: real, a: Vector, b: Vector)
    requires |a| == |b|
    ensures Dot(Scale(k, a), b) == Times(k, Dot(a, b))
  {
    if a != [] {
      DotScale(k, a[1..], b[1..]);
      assert Scale(k, a)[1..] == Scale(k, a[1..]);
      SpreadFactor(k, a[0], b[0], Dot(a[1..], b[1..]));
    }
  }

  lemma SpreadFactor(k: real, x: real, y: real, d: real)
    ensures Times(k, x) * y + Times(k, d) == Times(k, x * y + d)
  {
  }

  /** and so changes sign with either argument. */
  lemma {:induction false} DotNeg(a: Vector, b: Vector)
    requires |a| == |b|
    ensures Dot(a, Neg(b)) == -Dot(a, b)
    ensures Dot(Neg(a), b) == -Dot(a, b)
  {
    if a != [] {
      DotNeg(a[1..], b[1..]);
      assert Neg(a)[1..] == Neg(a[1..]) && Neg(b)[1..] == Neg(b[1..]);
      NegateFactor(a[0], b[0]);
    }
  }

  lemma NegateFactor(x: real, y: real)
    ensures x * -y == -(x * y) && -x * y == -(x * y)
  {
  }

  // ----- Cauchy-Schwarz -----

  lemma {:induction false} DotSymmetric(a: Vector, b: Vector)
    requires |a| == |b|
    ensures Dot(a, b) == Dot(b, a)
  {
    if a != [] {
      DotSymmetric(a[1..], b[1..]);
    }
  }

  lemma {:induction false} DotSelf(a: Vector)
    ensures Dot(a, a) >= 0.0
  {
    if a != [] {
      DotSelf(a[1..]);
      SquarePositive(a[0]);
    }
  }

  lemma TimesPositive(x: real, y: real)
    requires (x > 0.0 && y > 0.0) || (x < 0.0 && y < 0.0)
    ensures Times(x, y) > 0.0
  {
  }

  lemma SquareAndMore(x: real, s: real)
    requires x != 0.0 && s >= 0.0
    ensures Times(x, x) + s > 0.0
  {
    TimesPositive(x, x);
  }

  lemma {:induction false} DotSelfPositive(a: Vector, i: nat)
    requires i < |a| && a[i] != 0.0
    ensures Dot(a, a) > 0.0
  {
    SquarePositive(a[0]);
    if i == 0 {
      DotSelf(a[1..]);
      SquareAndMore(a[0], Dot(a[1..], a[1..]));
    } else {
      DotSelfPositive(a[1..], i - 1);
    }
  }

  lemma {:induction false} DotZero(a: Vector)
    requires forall i | 0 <= i < |a| :: a[i] == 0.0
    ensures Dot(a, a) == 0.0
  {
    if a != [] {
      DotZero(a[1..]);
    }
  }

  /** The cross term of one induction step: `2xyd <= x^2 B + y^2 A` when
      `d^2 <= AB`. */
  lemma CrossTerm(x: real, y: real, d: real, A: real, B: real)
    requires A >= 0.0 && B >= 0.0 && d * d <= A * B
    ensures 2.0 * (x * y * d) <= x * x * B + y * y * A
  {
    SquarePositive(y);
    if B == 0.0 {
      BelowZeroProduct(d, A, B);
      ScaleLe(y * y, 0.0, A);
      ZeroTerm(x, y, d);
    } else {
      SquareOfDifference(x, y, d, B);
      ScaleLe(y * y, d * d, A * B);
      Distribute(x, y, A, B);
      var lhs, rhs := 2.0 * (x * y * d), x * x * B + y * y * A;
      assert B * lhs == 2.0 * (x * y * d) * B;
      CancelScale(B, lhs, rhs);
    }
  }

  lemma ZeroTerm(x: real, y: real, d: real)
    requires d == 0.0
    ensures x * y * d == 0.0
  {
  }

  lemma BelowZeroProduct(d: real, A: real, B: real)
    requires B == 0.0 && d * d <= A * B
    ensures d == 0.0
  {
    assert A * B == 0.0;
    if d != 0.0 {
      TimesPositive(d, d);
    }
  }

  lemma SquareOfDifference(x: real, y: real, d: real, B: real)
    ensures 2.0 * (x * y * d) * B <= (x * x * B) * B + (y * y) * (d * d)
  {
  }

  lemma Distribute(x: real, y: real, A: real, B: real)
    ensures B * (x * x * B + y * y * A) == (x * x * B) * B + (y * y) * (A * B)
  {
  }

  predicate SquareWithin(d: real, A: real, B: real) { d * d <= A * B }

  /** The square of a dot product never exceeds the product of the vectors' own
      dot products. */
  lemma {:induction false} CauchySchwarz(a: Vector, b: Vector)
    requires |a| == |b|
    ensures SquareWithin(Dot(a, b), Dot(a, a), Dot(b, b))
  {
    if a != [] {
      CauchySchwarz(a[1..], b[1..]);
      DotSelf(a[1..]);
      DotSelf(b[1..]);
      SchwarzStep(a[0], b[0], Dot(a[1..], b[1..]), Dot(a[1..], a[1..]), Dot(b[1..], b[1..]));
    }
  }

  lemma SchwarzStep(x: real, y: real, d: real, A: real, B: real)
    requires A >= 0.0 && B >= 0.0 && SquareWithin(d, A, B)
    ensures SquareWithin(x * y + d, x * x + A, y * y + B)
  {
    CrossTerm(x, y, d, A, B);
    ExpandProducts(x, y, d, A, B);
  }

  lemma ExpandProducts(x: real, y: real, d: real, A: real, B: real)
    ensures (x * y + d) * (x * y + d) == (x * y) * (x * y) + 2.0 * (x * y * d) + d * d
    ensures (x * x + A) * (y * y + B) == (x * y) * (x * y) + x * x * B + y * y * A + A * B
  {
  }

  lemma NormIsRoot(sqrt: real -> real, a: Vector)
    requires IsSqrt(sqrt)
    ensures IsRoot(Norm(sqrt, a), Dot(a, a))
  {
  }

  /** From `d^2 <= AB` to the bound on `d / pq`, with `p`, `q` the roots. */
  lemma BoundByRoots(d: real, p: real, q: real, A: real, B: real)
    requires IsRoot(p, A) && IsRoot(q, B) && SquareWithin(d, A, B)
    ensures p == 0.0 || q == 0.0 ==> d == 0.0
    ensures -1.0 <= Cosine(d, p, q) <= 1.0
  {
    var m := p * q;
    assert m * m == (p * p) * (q * q) == A * B;
    if p > 0.0 && q > 0.0 {
      PositiveProduct(p, q);
    }
    AbsFromSquares(d, m);
    if m > 0.0 {
      QuotientBounds(d, m);
    }
  }

  lemma DotWithinNorms(sqrt: real -> real, a: Vector, b: Vector)
    requires IsSqrt(sqrt) && |a| == |b|
    ensures Norm(sqrt, a) == 0.0 || Norm(sqrt, b) == 0.0 ==> Dot(a, b) == 0.0
    ensures -1.0 <= CosineSimilarity(sqrt, a, b) <= 1.0
  {
    NormIsRoot(sqrt, a);
    NormIsRoot(sqrt, b);
    var p, q := Norm(sqrt, a), Norm(sqrt, b);
    DotWithinRoots(a, b, p, q);
  }

  lemma DotWithinRoots(a: Vector, b: Vector, p: real, q: real)
    requires |a| == |b| && IsRoot(p, Dot(a, a)) && IsRoot(q, Dot(b, b))
    ensures p == 0.0 || q == 0.0 ==> Dot(a, b) == 0.0
    ensures -1.0 <= Cosine(Dot(a, b), p, q) <= 1.0
  {
    CauchySchwarz(a, b);
    BoundByRoots(Dot(a, b), p, q, Dot(a, a), Dot(b, b));
  }

  /** Cosine similarity lies in [-1, 1]. */
  lemma CosineBounded(sqrt: real -> real, a: Vector, b: Vector)
    requires IsSqrt(sqrt) && |a| == |b|
    ensures -1.0 <= CosineSimilarity(sqrt, a, b) <= 1.0
  {
    DotWithinNorms(sqrt, a, b);
  }

  ghost predicate Nonzero(a: Vector) { exists i :: 0 <= i < |a| && a[i] != 0.0 }

  /** A vector other than zero is at similarity exactly 1 to itself, and the
      zero vector at 0. */
  lemma CosineSelf(sqrt: real -> real, a: Vector)
    requires IsSqrt(sqrt)
    ensures CosineSimilarity(sqrt, a, a) == if Nonzero(a) then 1.0 else 0.0
  {
    NormIsRoot(sqrt, a);
    if i :| 0 <= i < |a| && a[i] != 0.0 {
      DotSelfPositive(a, i);
    } else {
      DotZero(a);
    }
    CosineOfRoot(Dot(a, a), Norm(sqrt, a));
  }

  lemma CosineOfRoot(d: real, p: real)
    requires IsRoot(p, d)
    ensures Cosine(d, p, p) == if d == 0.0 then 0.0 else 1.0
  {
    DivideBySelf(d);
  }

  lemma DivideBySelf(x: real)
    ensures GuardedDiv(x, x) == if x == 0.0 then 0.0 else 1.0
  {
  }

  // ----- what the similarity measures -----

  /** Its defining equation: the dot product is the similarity times the two
      lengths, each the non-negative root of the vector's own dot product. */
  lemma CosineEquation(sqrt: real -> real, a: Vector, b: Vector)
    requires IsSqrt(sqrt) && |a| == |b|
    ensures exists p, q :: IsRoot(p, Dot(a, a)) && IsRoot(q, Dot(b, b))
                           && Dot(a, b) == Times(CosineSimilarity(sqrt, a, b), Times(p, q))
  {
    NormIsRoot(sqrt, a);
    NormIsRoot(sqrt, b);
    var p, q := Norm(sqrt, a), Norm(sqrt, b);
    DotWithinRoots(a, b, p, q);
    if p != 0.0 && q != 0.0 {
      PositiveProduct(p, q);
    }
    TimesQuotient(Dot(a, b), p, q);
    assert IsRoot(p, Dot(a, a)) && IsRoot(q, Dot(b, b));
  }

  lemma TimesQuotient(d: real, p: real, q: real)
    requires p == 0.0 || q == 0.0 ==> d == 0.0
    requires p != 0.0 && q != 0.0 ==> p * q > 0.0
    ensures d == Times(Cosine(d, p, q), Times(p, q))
  {
    var m := p * q;
    if m != 0.0 {
      assert GuardedDiv(d, m) * m == d;
    }
  }

  /** For vectors of length one it is the dot product itself. */
  lemma NormalizedIsDot(sqrt: real -> real, a: Vector, b: Vector)
    requires IsSqrt(sqrt) && |a| == |b| && Dot(a, a) == 1.0 && Dot(b, b) == 1.0
    ensures CosineSimilarity(sqrt, a, b) == Dot(a, b)
  {
    NormIsRoot(sqrt, a);
    NormIsRoot(sqrt, b);
    RootOfOne(Norm(sqrt, a));
    RootOfOne(Norm(sqrt, b));
  }

  lemma RootOfOne(p: real)
    requires IsRoot(p, 1.0)
    ensures p == 1.0
  {
    if p < 1.0 {
      ScaleLe(p, p, 1.0);
    } else {
      ScaleLe(p, 1.0, p);
    }
  }

  /** It changes sign with an argument; a vector is at -1 to its opposite. */
  lemma CosineOpposite(sqrt: real -> real, a: Vector, b: Vector)
    requires IsSqrt(sqrt) && |a| == |b|
    ensures CosineSimilarity(sqrt, a, Neg(b)) == -CosineSimilarity(sqrt, a, b)
    ensures Nonzero(a) ==> CosineSimilarity(sqrt, a, Neg(a)) == -1.0
  {
    OppositeSimilarity(sqrt, a, b);
    OppositeSimilarity(sqrt, a, a);
    CosineSelf(sqrt, a);
  }

  lemma OppositeSimilarity(sqrt: real -> real, a: Vector, b: Vector)
    requires |a| == |b|
    ensures CosineSimilarity(sqrt, a, Neg(b)) == -CosineSimilarity(sqrt, a, b)
  {
    DotNeg(a, b);
    DotNeg(b, b);
    DotNeg(Neg(b), b);
    DotSymmetric(Neg(b), b);
    assert Norm(sqrt, Neg(b)) == Norm(sqrt, b);
    NegateQuotient(Dot(a, b), Norm(sqrt, a) * Norm(sqrt, b));
  }

  lemma NegateQuotient(d: real, m: real)
    ensures GuardedDiv(-d, m) == -GuardedDiv(d, m)
  {
  }

  /** Only the direction of a vector counts. */
  lemma CosineScaled(sqrt: real -> real, a: Vector, b: Vector, k: real)
    requires IsSqrt(sqrt) && |a| == |b| && k > 0.0
    ensures CosineSimilarity(sqrt, a, Scale(k, b)) == CosineSimilarity(sqrt, a, b)
  {
    DotScaleRight(k, a, b);
    ScaledNorm(sqrt, k, b);
    ScaledQuotient(k, Dot(a, b), Norm(sqrt, a), Norm(sqrt, b));
  }

  lemma DotScaleRight(k: real, a: Vector, b: Vector)
    requires |a| == |b|
    ensures Dot(a, Scale(k, b)) == Times(k, Dot(a, b))
  {
    DotSymmetric(a, Scale(k, b));
    DotScale(k, b, a);
    DotSymmetric(b, a);
  }

  lemma ScaledNorm(sqrt: real -> real, k: real, b: Vector)
    requires IsSqrt(sqrt) && k > 0.0
    ensures Norm(sqrt, Scale(k, b)) == Times(k, Norm(sqrt, b))
  {
    DotScale(k, b, Scale(k, b));
    DotScaleRight(k, b, b);
    NormIsRoot(sqrt, b);
    NormIsRoot(sqrt, Scale(k, b));
    ScaledRoot(k, Norm(sqrt, b), Norm(sqrt, Scale(k, b)), Dot(b, b));
  }

  lemma ScaledRoot(k: real, q: real, r: real, B: real)
    requires k > 0.0 && IsRoot(q, B) && IsRoot(r, Times(k, Times(k, B)))
    ensures r == Times(k, q)
  {
    var s := k * q;
    ScaleLe(k, 0.0, q);
    assert s * s == k * (k * (q * q));
    if r < s {
      SmallerSquare(r, s);
    } else if s < r {
      SmallerSquare(s, r);
    }
  }

  lemma SmallerSquare(x: real, y: real)
    requires 0.0 <= x < y
    ensures x * x < y * y
  {
    assert (y - x) * (y + x) == y * y - x * x;
    PositiveProduct(y - x, y + x);
  }

  lemma ScaledQuotient(k: real, d: real, p: real, q: real)
    requires k > 0.0
    ensures Cosine(Times(k, d), p, Times(k, q)) == Cosine(d, p, q)
  {
    var m := p * q;
    assert p * (k * q) == k * m;
    CancelFactor(k, d, m);
  }

  lemma CancelFactor(k: real, d: real, m: real)
    requires k > 0.0
    ensures GuardedDiv(k * d, k * m) == GuardedDiv(d, m)
  {
    if m != 0.0 {
      var x := d / m;
      assert x * m == d;
      assert k * d == x * (k * m);
      if k * m == 0.0 {
        FactorIsZero(k, m);
      }
      QuotientIs(k * d, k * m, x);
    }
  }

  lemma FactorIsZero(k: real, m: real)
    requires k > 0.0 && k * m == 0.0
    ensures m == 0.0
  {
    if m > 0.0 {
      PositiveProduct(k, m);
    } else if m < 0.0 {
      PositiveProduct(k, -m);
    }
  }

  lemma QuotientIs(n: real, m: real, x: real)
    requires m != 0.0 && n == x * m
    ensures n / m == x
  {
  }

  // ----- the matrix form -----

  /** `matrix.size == 0`: no row, or rows of no column. */
  predicate SizeZero(matrix: seq<Vector>) { matrix == [] || matrix[0] == [] }

  /** A norm of zero counts as one (`q_norm or 1.0`). */
  function OrOne(x: real): (y: real)
    ensures y != 0.0
  { if x == 0.0 then 1.0 else x }

  /** The matrix cell's denominator before zeros are replaced. */
  function Denominator(p: real, q: real): real { q * OrOne(p) }

  /** `denom = row_norms * (q_norm or 1.0)` with its zero cells overwritten. */
  method Denominators(rowNorms: seq<real>, qNorm: real) returns (d: seq<real>)
    ensures |d| == |rowNorms|
    ensures forall j | 0 <= j < |d| :: d[j] == OrOne(Denominator(qNorm, rowNorms[j]))
  {
    var n := |rowNorms|;
    var denom := new real[n](i requires 0 <= i < n => Denominator(qNorm, rowNorms[i]));
    for i := 0 to n
      invariant forall j | 0 <= j < i :: denom[j] == OrOne(Denominator(qNorm, rowNorms[j]))
      invariant forall j | i <= j < n :: denom[j] == Denominator(qNorm, rowNorms[j])
    {
      if denom[i] == 0.0 {
        denom[i] := 1.0;
      }
    }
    d := denom[..];
  }

  /** What `np.asarray` makes an array of. */
  predicate Rectangular(matrix: seq<Vector>) { forall i | 0 <= i < |matrix| :: |matrix[i]| == |matrix[0]| }

  /** Every row of the matrix form is the pairwise form, zero query and zero
      rows included; an empty matrix scores nothing, even when it has rows.
      `None` is the ValueError for rows that do not fit the query. */
  method CosineSimilarityMatrix(sqrt: real -> real, query: Vector, matrix: seq<Vector>) returns (r: Option<seq<real>>)
    requires IsSqrt(sqrt) && Rectangular(matrix)
    ensures r.None? <==> !SizeZero(matrix) && |matrix[0]| != |query|
    ensures r.Some? ==> |r.value| == if SizeZero(matrix) then 0 else |matrix|
    ensures r.Some? ==> forall i | 0 <= i < |r.value| ::
              |matrix[i]| == |query| && r.value[i] == CosineSimilarity(sqrt, query, matrix[i])
  {
    if SizeZero(matrix) {
      return Some([]);
    }
    var rowNorms := seq(|matrix|, i requires 0 <= i < |matrix| => Norm(sqrt, matrix[i]));
    var denom := Denominators(rowNorms, Norm(sqrt, query));
    if |matrix[0]| != |query| {
      return None;
    }
    forall i | 0 <= i < |matrix|
      ensures Dot(matrix[i], query) / denom[i] == CosineSimilarity(sqrt, query, matrix[i])
    {
      RowIsPairwise(sqrt, query, matrix[i]);
    }
    r := Some(seq(|matrix|, i requires 0 <= i < |matrix| => Dot(matrix[i], query) / denom[i]));
  }

  lemma RowIsPairwise(sqrt: real -> real, query: Vector, row: Vector)
    requires IsSqrt(sqrt) && |query| == |row|
    ensures Dot(row, query) / OrOne(Denominator(Norm(sqrt, query), Norm(sqrt, row)))
            == CosineSimilarity(sqrt, query, row)
  {
    DotSymmetric(row, query);
    DotWithinNorms(sqrt, query, row);
    CellIsCosine(Dot(row, query), Norm(sqrt, query), Norm(sqrt, row));
  }

  lemma CellIsCosine(d: real, p: real, q: real)
    requires p == 0.0 || q == 0.0 ==> d == 0.0
    ensures d / OrOne(Denominator(p, q)) == Cosine(d, p, q)
  {
  }
}
