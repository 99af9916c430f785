/** Dense real matrices as lists of rows: construction, transpose and product,
    and the algebra the factorisation relies on (units, associativity,
    transpose of a product, orthogonality). */
module Matrices {
  import opened Sums

  type Vector = seq<real>
  type Matrix = seq<seq<real>>

  datatype Option<T> = None | Some(value: T)

  /** M has `rows` rows of `cols` entries each. */
  predicate IsMatrix(M: Matrix, rows: nat, cols: nat)
  {
    |M| == rows && forall i :: 0 <= i < rows ==> |M[i]| == cols
  }

  predicate IsSquare(M: Matrix, n: nat)
  {
    IsMatrix(M, n, n)
  }

  /** Number of columns, read from the first row (0 for no rows). */
  function Cols(M: Matrix): nat
  {
    if |M| == 0 then 0 else |M[0]|
  }

  /** Entry (i, j), or 0 outside the matrix, so that sum terms are total. */
  function At(M: Matrix, i: int, j: int): real
  {
    if 0 <= i < |M| && 0 <= j < |M[i]| then M[i][j] else 0.0
  }

  /** Kronecker delta, the entries of the identity. */
  function Delta(i: int, j: int): real
  {
    if i == j then 1.0 else 0.0
  }

  /** The k-th term A[i][k] * B[k][j] of the inner product giving entry (i, j) of A.B. */
  function MulTerm(A: Matrix, B: Matrix, i: int, j: int): int -> real
  {
    k => At(A, i, k) * At(B, k, j)
  }

  /** The matrix product: entry (i, j) is the sum over k of A[i][k] * B[k][j]. */
  function Product(A: Matrix, B: Matrix): (C: Matrix)
    ensures IsMatrix(C, |A|, Cols(B))
  {
    seq(|A|, i => seq(Cols(B), j => Sum(|B|, MulTerm(A, B, i, j))))
  }

  /** The transpose: row j is column j of M. */
  function Transposed(M: Matrix): (T: Matrix)
    ensures IsMatrix(T, Cols(M), |M|)
  {
    seq(Cols(M), j => seq(|M|, i => At(M, i, j)))
  }

  function Identity(n: nat): (I: Matrix)
    ensures IsSquare(I, n)
  {
    seq(n, i => seq(n, j => Delta(i, j)))
  }

  predicate IsSymmetric(M: Matrix, n: nat)
  {
    IsSquare(M, n) && Transposed(M) == M
  }

  /** M is n x n and its transpose is both a left and a right inverse. */
  predicate IsOrthogonal(M: Matrix, n: nat)
  {
    IsSquare(M, n) && Product(Transposed(M), M) == Identity(n) && Product(M, Transposed(M)) == Identity(n)
  }

  /** makeZero(m, n): the m x n zero matrix. */
  function MakeZero(m: nat, n: nat): (Z: Matrix)
    ensures IsMatrix(Z, m, n)
    ensures forall i, j :: 0 <= i < m && 0 <= j < n ==> Z[i][j] == 0.0
  {
    seq(m, _ => seq(n, _ => 0.0))
  }

  /** signal(a, b): the three-way comparison (a > b) - (a < b). */
  function Signal(a: real, b: real): (s: int)
    ensures -1 <= s <= 1
    ensures s == 1 <==> a > b
    ensures s == -1 <==> a < b
    ensures s == 0 <==> a == b
  {
    (if a > b then 1 else 0) - (if a < b then 1 else 0)
  }

  lemma SignalAntisymmetric(a: real, b: real)
    ensures Signal(a, b) == -Signal(b, a)
  {
  }

  /** matrixmult(A, B): fails (None) exactly when A's column count differs
      from B's row count; otherwise the product, accumulated entry by entry. */
  method Multiply(A: Matrix, B: Matrix) returns (result: Option<Matrix>)
    requires |A| > 0 && IsMatrix(A, |A|, |A[0]|)
    requires |B| > 0 ==> IsMatrix(B, |B|, |B[0]|)
    requires |A[0]| == |B| ==> |B| > 0
    ensures result.None? <==> |A[0]| != |B|
    ensures result.Some? ==> IsMatrix(result.value, |A|, |B[0]|)
    ensures result.Some? ==> forall i, j :: 0 <= i < |A| && 0 <= j < |B[0]| ==>
              result.value[i][j] == Sum(|B|, MulTerm(A, B, i, j))
    ensures result.Some? ==> result.value == Product(A, B)
  {
    if |A[0]| != |B| {
      // the source reports the mismatch and returns no matrix
      return None;
    }
    var m, p, q := |A|, |B|, |B[0]|;
    var C := MakeZero(m, q);
    for i := 0 to m
      invariant IsMatrix(C, m, q)
      invariant forall i', j' :: 0 <= i' < i && 0 <= j' < q ==> C[i'][j'] == Sum(p, MulTerm(A, B, i', j'))
      invariant forall i', j' :: i <= i' < m && 0 <= j' < q ==> C[i'][j'] == 0.0
    {
      for j := 0 to q
        invariant IsMatrix(C, m, q)
        invariant forall i', j' :: 0 <= i' < i && 0 <= j' < q ==> C[i'][j'] == Sum(p, MulTerm(A, B, i', j'))
        invariant forall j' :: 0 <= j' < j ==> C[i][j'] == Sum(p, MulTerm(A, B, i, j'))
        invariant forall j' :: j <= j' < q ==> C[i][j'] == 0.0
        invariant forall i', j' :: i < i' < m && 0 <= j' < q ==> C[i'][j'] == 0.0
      {
        for k := 0 to p
          invariant IsMatrix(C, m, q)
          invariant forall i', j' :: 0 <= i' < i && 0 <= j' < q ==> C[i'][j'] == Sum(p, MulTerm(A, B, i', j'))
          invariant forall j' :: 0 <= j' < j ==> C[i][j'] == Sum(p, MulTerm(A, B, i, j'))
          invariant C[i][j] == Sum(k, MulTerm(A, B, i, j))
          invariant forall j' :: j < j' < q ==> C[i][j'] == 0.0
          invariant forall i', j' :: i < i' < m && 0 <= j' < q ==> C[i'][j'] == 0.0
        {
          C := C[i := C[i][j := C[i][j] + A[i][k] * B[k][j]]];
        }
      }
    }
    MatrixExt(C, Product(A, B), m, q);
    return Some(C);
  }

  /** transposta(M) for a square M: T[j][i] = M[i][j], filled entry by entry. */
  method Transpose(M: Matrix) returns (T: Matrix)
    requires |M| > 0 && IsSquare(M, |M|)
    ensures IsSquare(T, |M|)
    ensures forall i, j :: 0 <= i < |M| && 0 <= j < |M| ==> T[j][i] == M[i][j]
    ensures T == Transposed(M)
  {
    var n := |M|;
    T := MakeZero(|M[0]|, |M|);
    for i := 0 to n
      invariant IsSquare(T, n)
      invariant forall i', j' :: 0 <= i' < i && 0 <= j' < n ==> T[j'][i'] == M[i'][j']
    {
      for j := 0 to n
        invariant IsSquare(T, n)
        invariant forall i', j' :: 0 <= i' < i && 0 <= j' < n ==> T[j'][i'] == M[i'][j']
        invariant forall j' :: 0 <= j' < j ==> T[j'][i] == M[i][j']
      {
        T := T[j := T[j][i := M[i][j]]];
      }
    }
    MatrixExt(T, Transposed(M), n, n);
  }

  /** makeId(m): the m x m identity, C[i][j] = 1 exactly when i == j. */
  method MakeId(m: nat) returns (C: Matrix)
    ensures IsSquare(C, m)
    ensures forall i, j :: 0 <= i < m && 0 <= j < m ==> (C[i][j] == 1.0 <==> i == j)
    ensures forall i, j :: 0 <= i < m && 0 <= j < m && i != j ==> C[i][j] == 0.0
    ensures C == Identity(m)
  {
    C := MakeZero(m, m);
    for i := 0 to m
      invariant IsSquare(C, m)
      invariant forall i', j' :: 0 <= i' < i && 0 <= j' < m ==> C[i'][j'] == Delta(i', j')
    {
      for j := 0 to m
        invariant IsSquare(C, m)
        invariant forall i', j' :: 0 <= i' < i && 0 <= j' < m ==> C[i'][j'] == Delta(i', j')
        invariant forall j' :: 0 <= j' < j ==> C[i][j'] == Delta(i, j')
      {
        C := C[i := C[i][j := if i == j then 1.0 else 0.0]];
      }
    }
    MatrixExt(C, Identity(m), m, m);
  }

  /** Two m x n matrices with equal entries are equal. */
  lemma MatrixExt(M: Matrix, N: Matrix, m: nat, n: nat)
    requires IsMatrix(M, m, n) && IsMatrix(N, m, n)
    requires forall i, j :: 0 <= i < m && 0 <= j < n ==> M[i][j] == N[i][j]
    ensures M == N
  {
    forall i | 0 <= i < m
      ensures M[i] == N[i]
    {
      assert forall j :: 0 <= j < n ==> M[i][j] == N[i][j];
    }
  }

  lemma SquareCols(M: Matrix, n: nat)
    requires IsSquare(M, n)
    ensures Cols(M) == n
  {
    if n > 0 {
      assert |M[0]| == n;
    }
  }

  /** The product of two n x n matrices is n x n, entry by entry the inner products. */
  lemma ProductSquare(A: Matrix, B: Matrix, n: nat)
    requires IsSquare(A, n) && IsSquare(B, n)
    ensures IsSquare(Product(A, B), n)
    ensures forall i, j :: 0 <= i < n && 0 <= j < n ==> Product(A, B)[i][j] == Sum(n, MulTerm(A, B, i, j))
  {
    SquareCols(B, n);
  }

  lemma TransposedSquare(M: Matrix, n: nat)
    requires IsSquare(M, n)
    ensures IsSquare(Transposed(M), n)
    ensures forall i, j :: 0 <= i < n && 0 <= j < n ==> Transposed(M)[j][i] == M[i][j]
  {
    SquareCols(M, n);
  }

  /** The identity is a left unit of the product. */
  lemma IdentityLeftUnit(M: Matrix, n: nat, cols: nat)
    requires IsMatrix(M, n, cols)
    ensures Product(Identity(n), M) == M
  {
    var P := Product(Identity(n), M);
    assert n > 0 ==> Cols(M) == cols by {
      if n > 0 { assert |M[0]| == cols; }
    }
    forall i, j | 0 <= i < n && 0 <= j < cols
      ensures P[i][j] == M[i][j]
    {
      SumSingle(n, MulTerm(Identity(n), M, i, j), i);
    }
    MatrixExt(P, M, n, cols);
  }

  /** The identity is a right unit of the product. */
  lemma IdentityRightUnit(M: Matrix, rows: nat, n: nat)
    requires IsMatrix(M, rows, n)
    ensures Product(M, Identity(n)) == M
  {
    var P := Product(M, Identity(n));
    SquareCols(Identity(n), n);
    forall i, j | 0 <= i < rows && 0 <= j < n
      ensures P[i][j] == M[i][j]
    {
      SumSingle(n, MulTerm(M, Identity(n), i, j), j);
    }
    MatrixExt(P, M, rows, n);
  }

  /** Transposing a square matrix twice gives it back. */
  lemma TransposeInvolution(M: Matrix, n: nat)
    requires IsSquare(M, n)
    ensures Transposed(Transposed(M)) == M
  {
    TransposedSquare(M, n);
    TransposedSquare(Transposed(M), n);
    MatrixExt(Transposed(Transposed(M)), M, n, n);
  }

  lemma IdentitySymmetric(n: nat)
    ensures IsSymmetric(Identity(n), n)
  {
    TransposedSquare(Identity(n), n);
    MatrixExt(Transposed(Identity(n)), Identity(n), n, n);
  }

  /** The terms A[i][k] * B[k][l] * C[l][j] of entry (i, j) of A.B.C, grouped by l. */
  function TermsByMiddle(A: Matrix, B: Matrix, C: Matrix, i: int, j: int): int -> int -> real
  {
    l => k => At(A, i, k) * At(B, k, l) * At(C, l, j)
  }

  /** The same terms, grouped by k. */
  function TermsByFirst(A: Matrix, B: Matrix, C: Matrix, i: int, j: int): int -> int -> real
  {
    k => l => At(A, i, k) * At(B, k, l) * At(C, l, j)
  }

  lemma AssociativeLeftAt(A: Matrix, B: Matrix, C: Matrix, n: nat, i: int, j: int)
    requires IsSquare(A, n) && IsSquare(B, n) && IsSquare(C, n)
    requires 0 <= i < n && 0 <= j < n
    ensures IsSquare(Product(Product(A, B), C), n)
    ensures Product(Product(A, B), C)[i][j] == Sum(n, RowSums(n, TermsByMiddle(A, B, C, i, j)))
  {
    var AB, F := Product(A, B), TermsByMiddle(A, B, C, i, j);
    ProductSquare(A, B, n);
    ProductSquare(AB, C, n);
    forall l | 0 <= l < n
      ensures MulTerm(AB, C, i, j)(l) == RowSums(n, F)(l)
    {
      SumScale(n, At(C, l, j), MulTerm(A, B, i, l), F(l));
    }
    SumExt(n, MulTerm(AB, C, i, j), RowSums(n, F));
  }

  lemma AssociativeRightAt(A: Matrix, B: Matrix, C: Matrix, n: nat, i: int, j: int)
    requires IsSquare(A, n) && IsSquare(B, n) && IsSquare(C, n)
    requires 0 <= i < n && 0 <= j < n
    ensures IsSquare(Product(A, Product(B, C)), n)
    ensures Product(A, Product(B, C))[i][j] == Sum(n, RowSums(n, TermsByFirst(A, B, C, i, j)))
  {
    var BC, G := Product(B, C), TermsByFirst(A, B, C, i, j);
    ProductSquare(B, C, n);
    ProductSquare(A, BC, n);
    forall k | 0 <= k < n
      ensures MulTerm(A, BC, i, j)(k) == RowSums(n, G)(k)
    {
      SumScale(n, At(A, i, k), MulTerm(B, C, k, j), G(k));
    }
    SumExt(n, MulTerm(A, BC, i, j), RowSums(n, G));
  }

  /** The product of square matrices is associative. */
  lemma ProductAssociative(A: Matrix, B: Matrix, C: Matrix, n: nat)
    requires IsSquare(A, n) && IsSquare(B, n) && IsSquare(C, n)
    ensures Product(Product(A, B), C) == Product(A, Product(B, C))
  {
    ProductSquare(A, B, n);
    ProductSquare(B, C, n);
    ProductSquare(Product(A, B), C, n);
    ProductSquare(A, Product(B, C), n);
    forall i, j | 0 <= i < n && 0 <= j < n
      ensures Product(Product(A, B), C)[i][j] == Product(A, Product(B, C))[i][j]
    {
      AssociativeLeftAt(A, B, C, n, i, j);
      AssociativeRightAt(A, B, C, n, i, j);
      SumSwap(n, n, TermsByMiddle(A, B, C, i, j), TermsByFirst(A, B, C, i, j));
    }
    MatrixExt(Product(Product(A, B), C), Product(A, Product(B, C)), n, n);
  }

  /** (A.B)^T == B^T.A^T. */
  lemma TransposeProduct(A: Matrix, B: Matrix, n: nat)
    requires IsSquare(A, n) && IsSquare(B, n)
    ensures Transposed(Product(A, B)) == Product(Transposed(B), Transposed(A))
  {
    var AT, BT := Transposed(A), Transposed(B);
    ProductSquare(A, B, n);
    TransposedSquare(A, n);
    TransposedSquare(B, n);
    TransposedSquare(Product(A, B), n);
    ProductSquare(BT, AT, n);
    forall i, j | 0 <= i < n && 0 <= j < n
      ensures Transposed(Product(A, B))[i][j] == Product(BT, AT)[i][j]
    {
      SumExt(n, MulTerm(A, B, j, i), MulTerm(BT, AT, i, j));
    }
    MatrixExt(Transposed(Product(A, B)), Product(BT, AT), n, n);
  }

  lemma IdentityOrthogonal(n: nat)
    ensures IsOrthogonal(Identity(n), n)
  {
    IdentitySymmetric(n);
    IdentityLeftUnit(Identity(n), n, n);
  }

  /** The transpose of an orthogonal matrix is orthogonal. */
  lemma OrthogonalTranspose(M: Matrix, n: nat)
    requires IsOrthogonal(M, n)
    ensures IsOrthogonal(Transposed(M), n)
  {
    TransposedSquare(M, n);
    TransposeInvolution(M, n);
  }

  /** The product of orthogonal matrices is orthogonal. */
  lemma OrthogonalProduct(U: Matrix, W: Matrix, n: nat)
    requires IsOrthogonal(U, n) && IsOrthogonal(W, n)
    ensures IsOrthogonal(Product(U, W), n)
  {
    var UT, WT := Transposed(U), Transposed(W);
    var UW := Product(U, W);
    ProductSquare(U, W, n);
    TransposedSquare(U, n);
    TransposedSquare(W, n);
    TransposeProduct(U, W, n);
    calc {
      Product(Transposed(UW), UW);
      Product(Product(WT, UT), UW);
      { ProductAssociative(WT, UT, UW, n); }
      Product(WT, Product(UT, UW));
      { ProductAssociative(UT, U, W, n); }
      Product(WT, Product(Product(UT, U), W));
      { IdentityLeftUnit(W, n, n); }
      Product(WT, W);
      Identity(n);
    }
    ProductSquare(WT, UT, n);
    calc {
      Product(UW, Transposed(UW));
      Product(UW, Product(WT, UT));
      { ProductAssociative(U, W, Product(WT, UT), n); }
      Product(U, Product(W, Product(WT, UT)));
      { ProductAssociative(W, WT, UT, n); }
      Product(U, Product(Product(W, WT), UT));
      { IdentityLeftUnit(UT, n, n); }
      Product(U, UT);
      Identity(n);
    }
  }
}
