/** Euclidean norm, normalisation of a vector and column-wise normalisation of
    a matrix (`modulo`, `moduloVector`, `moduloMat`). The square root is a
    parameter `sqrt` of which only the two defining facts are known. */
module Norms {
  import opened Sums
  import opened Matrices

  /** `sqrt` is a square root on the non-negative reals. */
  ghost predicate IsSqrt(sqrt: real -> real)
  {
    forall x :: x >= 0.0 ==> sqrt(x) >= 0.0 && sqrt(x) * sqrt(x) == x
  }

  /** Entry k of v, or 0 outside it. */
  function AtV(v: Vector, k: int): real
  {
    if 0 <= k < |v| then v[k] else 0.0
  }

  function Squares(v: Vector): int -> real
  {
    k => AtV(v, k) * AtV(v, k)
  }

  /** v[0]^2 + ... + v[|v| - 1]^2 */
  function SumSq(v: Vector): real
  {
    Sum(|v|, Squares(v))
  }

  function Norm(v: Vector, sqrt: real -> real): real
  {
    sqrt(SumSq(v))
  }

  predicate IsZero(v: Vector)
  {
    forall k :: 0 <= k < |v| ==> v[k] == 0.0
  }

  predicate IsUnit(v: Vector)
  {
    SumSq(v) == 1.0
  }

  /** moduloVector: v unchanged when its norm is 0, otherwise every entry
      multiplied by 1 / norm. */
  function Normalized(v: Vector, sqrt: real -> real): Vector
  {
    if Norm(v, sqrt) == 0.0 then v else seq(|v|, k requires 0 <= k < |v| => v[k] * (1.0 / Norm(v, sqrt)))
  }

  /** Column j of M. */
  function Column(M: Matrix, j: int): Vector
  {
    seq(|M|, i => At(M, i, j))
  }

  /** moduloMat: transpose, normalise every row, transpose back. */
  function ColumnsNormalized(A: Matrix, sqrt: real -> real): Matrix
  {
    var C := Transposed(A);
    Transposed(seq(|C|, j requires 0 <= j < |C| => Normalized(C[j], sqrt)))
  }

  /** modulo(v): the sum of squares accumulated in a loop, then its square root. */
  method Modulo(v: Vector, sqrt: real -> real) returns (r: real)
    requires IsSqrt(sqrt)
    ensures r == Norm(v, sqrt)
    ensures r >= 0.0 && r * r == SumSq(v)
    ensures r == 0.0 <==> IsZero(v)
  {
    var sum := 0.0;
    for i := 0 to |v|
      invariant sum == Sum(i, Squares(v))
    {
      sum := sum + v[i] * v[i];
    }
    r := sqrt(sum);
    NormFacts(v, sqrt);
  }

  /** moduloVector(v): normalises the list in place; a zero vector is left as it is. */
  method ModuloVector(v: array<real>, sqrt: real -> real)
    requires IsSqrt(sqrt)
    modifies v
    ensures v[..] == Normalized(old(v[..]), sqrt)
    ensures IsZero(old(v[..])) ==> v[..] == old(v[..])
    ensures !IsZero(old(v[..])) ==> IsUnit(v[..])
  {
    ghost var v0 := v[..];
    var m := Modulo(v[..], sqrt);
    if m == 0.0 {
      NormalizedUnitOrZero(v0, sqrt);
      return;
    }
    var mod := Modulo(v[..], sqrt);
    mod := 1.0 / mod;
    for i := 0 to v.Length
      invariant forall k :: 0 <= k < i ==> v[k] == v0[k] * mod
      invariant forall k :: i <= k < v.Length ==> v[k] == v0[k]
    {
      v[i] := v[i] * mod;
    }
    NormalizedFromScaled(v0, sqrt, mod, v[..]);
    NormalizedUnitOrZero(v0, sqrt);
  }

  /** A vector of non-zero norm with every entry multiplied by 1 / modulo(v) is
      the normalised vector. */
  lemma NormalizedFromScaled(v: Vector, sqrt: real -> real, mod: real, s: Vector)
    requires Norm(v, sqrt) != 0.0 && mod == 1.0 / Norm(v, sqrt)
    requires |s| == |v| && forall k :: 0 <= k < |v| ==> s[k] == v[k] * mod
    ensures s == Normalized(v, sqrt)
  {
    var u := Normalized(v, sqrt);
    assert |u| == |s|;
    forall k | 0 <= k < |s|
      ensures s[k] == u[k]
    {
      assert u[k] == v[k] * (1.0 / Norm(v, sqrt));
    }
  }

  /** moduloMat(A): the columns of a square A normalised one by one; the
      inner loop normalises each row of the transpose as many times as it has
      entries, which changes nothing after the first time. */
  method ModuloMat(A: Matrix, sqrt: real -> real) returns (D: Matrix)
    requires |A| > 0 && IsSquare(A, |A|)
    requires IsSqrt(sqrt)
    ensures IsSquare(D, |A|)
    ensures forall i, j :: 0 <= i < |A| && 0 <= j < |A| ==> D[i][j] == Normalized(Column(A, j), sqrt)[i]
    ensures D == ColumnsNormalized(A, sqrt)
  {
    var n := |A|;
    var C := Transpose(A);
    ghost var T := C;
    for i := 0 to |C|
      invariant IsSquare(C, n)
      invariant forall i' :: 0 <= i' < i ==> C[i'] == Normalized(T[i'], sqrt)
      invariant forall i' :: i <= i' < n ==> C[i'] == T[i']
    {
      var row := new real[|C[i]|](k requires 0 <= k < |C[i]| => C[i][k]);
      assert row[..] == T[i];
      ghost var C0 := C;
      for j := 0 to |C[i]|
        invariant |C| == n && row.Length == n
        invariant forall i' :: 0 <= i' < n && i' != i ==> C[i'] == C0[i']
        invariant j == 0 ==> row[..] == T[i] && C[i] == T[i]
        invariant j > 0 ==> row[..] == Normalized(T[i], sqrt) && C[i] == row[..]
      {
        NormalizedIdempotent(T[i], sqrt);
        ModuloVector(row, sqrt);
        C := C[i := row[..]];
      }
    }
    TransposedSquare(A, n);
    MatrixExt(C, seq(n, j requires 0 <= j < n => Normalized(T[j], sqrt)), n, n);
    D := Transpose(C);
    ColumnsNormalizedAt(A, n, sqrt);
  }

  /** A product of a non-zero real with itself is positive. */
  lemma ProductPositive(x: real, y: real)
    requires x == y && x != 0.0
    ensures x * y > 0.0
  {
  }

  /** The square of a non-zero real is non-zero. */
  lemma SquareNonZero(x: real)
    ensures x != 0.0 ==> x * x != 0.0
  {
    if x != 0.0 {
      assert x == (x * x) / x;
    }
  }

  /** A product of a real with itself is zero only for zero. */
  lemma ProductZero(x: real, y: real)
    requires x == y && x * y == 0.0
    ensures x == 0.0
  {
    SquareNonZero(x);
  }

  lemma SquarePositive(x: real)
    requires x != 0.0
    ensures x * x > 0.0
  {
    ProductPositive(x, x);
  }

  lemma SquareNonNegative(x: real)
    ensures x * x >= 0.0
  {
    if x != 0.0 {
      SquarePositive(x);
    }
  }

  lemma SquareZero(x: real)
    requires x * x == 0.0
    ensures x == 0.0
  {
    ProductZero(x, x);
  }

  lemma MulPositive(x: real, y: real)
    ensures x > 0.0 && y > 0.0 ==> x * y > 0.0
  {
  }

  /** Squares of non-negative reals are ordered as the reals. */
  lemma SquareMonotone(a: real, b: real)
    ensures 0.0 <= a < b ==> a * a < b * b
  {
    MulPositive(b - a, b + a);
  }

  /** A sum of squares is non-negative, and zero exactly for the zero vector. */
  lemma SumSqZero(v: Vector)
    ensures SumSq(v) >= 0.0
    ensures SumSq(v) == 0.0 <==> IsZero(v)
  {
    forall k | 0 <= k < |v|
      ensures Squares(v)(k) >= 0.0
    {
      SquareNonNegative(v[k]);
    }
    SumNonNegative(|v|, Squares(v));
    if IsZero(v) {
      SumZero(|v|, Squares(v));
    }
    if SumSq(v) == 0.0 {
      forall k | 0 <= k < |v|
        ensures v[k] == 0.0
      {
        assert Squares(v)(k) == 0.0;
        SquareZero(v[k]);
      }
    }
  }

  /** modulo(v) is non-negative, squares to the sum of squares and is zero
      exactly when every entry is zero. */
  lemma NormFacts(v: Vector, sqrt: real -> real)
    requires IsSqrt(sqrt)
    ensures Norm(v, sqrt) >= 0.0
    ensures Norm(v, sqrt) * Norm(v, sqrt) == SumSq(v)
    ensures Norm(v, sqrt) == 0.0 <==> IsZero(v)
  {
    SumSqZero(v);
    var r := sqrt(SumSq(v));
    assert r >= 0.0 && r * r == SumSq(v);
    if IsZero(v) {
      SquareZero(r);
    }
  }

  lemma SqrtOfOne(sqrt: real -> real)
    requires IsSqrt(sqrt)
    ensures sqrt(1.0) == 1.0
  {
    var r := sqrt(1.0);
    assert r >= 0.0 && r * r == 1.0;
    SquareMonotone(r, 1.0);
    SquareMonotone(1.0, r);
  }

  /** The result of moduloVector has the length of its input, is the input
      itself when that is zero, and has sum of squares 1 otherwise. */
  lemma NormalizedUnitOrZero(v: Vector, sqrt: real -> real)
    requires IsSqrt(sqrt)
    ensures |Normalized(v, sqrt)| == |v|
    ensures IsZero(v) ==> Normalized(v, sqrt) == v
    ensures !IsZero(v) ==> IsUnit(Normalized(v, sqrt))
    ensures IsZero(Normalized(v, sqrt)) <==> IsZero(v)
  {
    NormFacts(v, sqrt);
    if !IsZero(v) {
      var N := Norm(v, sqrt);
      var w := Normalized(v, sqrt);
      var r := 1.0 / N;
      var c := r * r;
      forall k | 0 <= k < |v|
        ensures Squares(w)(k) == c * Squares(v)(k)
      {
        assert w[k] == v[k] * r;
        ScaledSquare(v[k], r);
      }
      SumScale(|v|, c, Squares(v), Squares(w));
      InverseSquare(N, r);
      SumSqZero(w);
    }
  }

  /** (x r)^2 == r^2 x^2 */
  lemma ScaledSquare(x: real, r: real)
    ensures (x * r) * (x * r) == (r * r) * (x * x)
  {
  }

  /** With r = 1 / N: r^2 N^2 == 1. */
  lemma InverseSquare(N: real, r: real)
    requires N != 0.0 && r == 1.0 / N
    ensures (r * r) * (N * N) == 1.0
  {
    assert r * N == 1.0;
    assert (r * r) * (N * N) == (r * N) * (r * N);
  }

  /** A unit vector is left unchanged by normalisation. */
  lemma NormalizedOfUnit(v: Vector, sqrt: real -> real)
    requires IsSqrt(sqrt)
    requires IsUnit(v)
    ensures Normalized(v, sqrt) == v
  {
    SqrtOfOne(sqrt);
    assert Norm(v, sqrt) == 1.0;
  }

  /** Normalising twice is normalising once. */
  lemma NormalizedIdempotent(v: Vector, sqrt: real -> real)
    requires IsSqrt(sqrt)
    ensures Normalized(Normalized(v, sqrt), sqrt) == Normalized(v, sqrt)
  {
    NormalizedUnitOrZero(v, sqrt);
    if !IsZero(v) {
      NormalizedOfUnit(Normalized(v, sqrt), sqrt);
    }
  }

  /** Column j of the column-normalised matrix is column j of A normalised. */
  lemma ColumnsNormalizedAt(A: Matrix, n: nat, sqrt: real -> real)
    requires IsSquare(A, n)
    requires IsSqrt(sqrt)
    ensures IsSquare(ColumnsNormalized(A, sqrt), n)
    ensures forall j :: 0 <= j < n ==> Column(ColumnsNormalized(A, sqrt), j) == Normalized(Column(A, j), sqrt)
    ensures forall i, j :: 0 <= i < n && 0 <= j < n ==>
              ColumnsNormalized(A, sqrt)[i][j] == Normalized(Column(A, j), sqrt)[i]
  {
    var C := Transposed(A);
    var N := seq(|C|, j requires 0 <= j < |C| => Normalized(C[j], sqrt));
    TransposedSquare(A, n);
    forall j | 0 <= j < n
      ensures C[j] == Column(A, j) && |N[j]| == n
    {
      NormalizedUnitOrZero(C[j], sqrt);
    }
    assert IsSquare(N, n);
    TransposedSquare(N, n);
    forall j | 0 <= j < n
      ensures Column(ColumnsNormalized(A, sqrt), j) == Normalized(Column(A, j), sqrt)
    {
    }
  }

  /** Every column of the result of moduloMat is a unit vector or zero. */
  lemma ColumnsNormalizedUnitOrZero(A: Matrix, n: nat, sqrt: real -> real, j: int)
    requires IsSquare(A, n)
    requires IsSqrt(sqrt)
    requires 0 <= j < n
    ensures IsUnit(Column(ColumnsNormalized(A, sqrt), j)) || IsZero(Column(ColumnsNormalized(A, sqrt), j))
    ensures IsZero(Column(ColumnsNormalized(A, sqrt), j)) <==> IsZero(Column(A, j))
  {
    ColumnsNormalizedAt(A, n, sqrt);
    NormalizedUnitOrZero(Column(A, j), sqrt);
  }

  /** Normalising the columns a second time changes nothing. */
  lemma ColumnsNormalizedIdempotent(A: Matrix, n: nat, sqrt: real -> real)
    requires IsSquare(A, n)
    requires IsSqrt(sqrt)
    ensures ColumnsNormalized(ColumnsNormalized(A, sqrt), sqrt) == ColumnsNormalized(A, sqrt)
  {
    var D := ColumnsNormalized(A, sqrt);
    ColumnsNormalizedAt(A, n, sqrt);
    ColumnsNormalizedAt(D, n, sqrt);
    forall i, j | 0 <= i < n && 0 <= j < n
      ensures ColumnsNormalized(D, sqrt)[i][j] == D[i][j]
    {
      NormalizedIdempotent(Column(A, j), sqrt);
    }
    MatrixExt(ColumnsNormalized(D, sqrt), D, n, n);
  }

  /** Column j of an orthogonal matrix has sum of squares 1 (entry (j, j) of M^T.M). */
  lemma OrthogonalColumnUnit(M: Matrix, n: nat, j: int)
    requires IsOrthogonal(M, n)
    requires 0 <= j < n
    ensures IsUnit(Column(M, j))
  {
    TransposedSquare(M, n);
    ProductSquare(Transposed(M), M, n);
    assert Product(Transposed(M), M)[j][j] == 1.0;
    SumExt(n, MulTerm(Transposed(M), M, j, j), Squares(Column(M, j)));
  }

  /** The columns of an orthogonal matrix are already unit vectors, so
      moduloMat returns it unchanged. */
  lemma ColumnsNormalizedOfOrthogonal(M: Matrix, n: nat, sqrt: real -> real)
    requires IsOrthogonal(M, n)
    requires IsSqrt(sqrt)
    ensures ColumnsNormalized(M, sqrt) == M
  {
    ColumnsNormalizedAt(M, n, sqrt);
    forall i, j | 0 <= i < n && 0 <= j < n
      ensures ColumnsNormalized(M, sqrt)[i][j] == M[i][j]
    {
      OrthogonalColumnUnit(M, n, j);
      NormalizedOfUnit(Column(M, j), sqrt);
    }
    MatrixExt(ColumnsNormalized(M, sqrt), M, n, n);
  }
}
