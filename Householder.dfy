/** The Householder step `HH(R, column)`: the direction v built from the
    column of R below the diagonal, and the reflector Q_i that is the identity
    outside the lower-right block and I - 2 v v^T inside it. */
module Householder {
  import opened Sums
  import opened Matrices
  import opened Norms

  /** a = transposta(R)[column][column:]: column `column` of R from the diagonal down. */
  function SubColumn(R: Matrix, column: nat): (a: Vector)
    requires column < |R|
    ensures |a| == |R| - column
    ensures forall i :: 0 <= i < |a| ==> a[i] == At(R, column + i, column)
  {
    seq(|R| - column, i => At(R, column + i, column))
  }

  /** e = transposta(I)[column][column:]: the first unit vector of length m. */
  function FirstUnit(m: nat): (e: Vector)
    ensures |e| == m
    ensures forall i :: 0 <= i < m ==> (e[i] == 1.0 <==> i == 0)
    ensures forall i :: 0 < i < m ==> e[i] == 0.0
  {
    seq(m, i => Delta(i, 0))
  }

  /** delta = -signal(a[0], 0). */
  function ReflectionSign(a: Vector): (delta: int)
    requires |a| > 0
    ensures delta == -1 <==> a[0] > 0.0
    ensures delta == 1 <==> a[0] < 0.0
    ensures delta == 0 <==> a[0] == 0.0
  {
    -Signal(a[0], 0.0)
  }

  /** v = a + delta * modulo(a) * e, before normalisation. */
  function RawDirection(a: Vector, sqrt: real -> real): (u: Vector)
    requires |a| > 0
    ensures |u| == |a|
  {
    var e := FirstUnit(|a|);
    seq(|a|, i requires 0 <= i < |a| => a[i] + (ReflectionSign(a) as real) * Norm(a, sqrt) * e[i])
  }

  /** Entry i of the raw direction, for delta, modulo(a) and e[i] computed apart. */
  lemma RawDirectionAt(a: Vector, sqrt: real -> real, i: int, delta: int, m: real, ei: real)
    requires 0 <= i < |a|
    requires delta == ReflectionSign(a) && m == Norm(a, sqrt) && ei == FirstUnit(|a|)[i]
    ensures RawDirection(a, sqrt)[i] == a[i] + (delta as real) * m * ei
  {
  }

  /** v = moduloVector(a + delta * modulo(a) * e). */
  function Direction(a: Vector, sqrt: real -> real): Vector
    requires |a| > 0
  {
    Normalized(RawDirection(a, sqrt), sqrt)
  }

  /** v preceded by c zeros. */
  function Pad(c: nat, v: Vector): (w: Vector)
    ensures |w| == c + |v|
    ensures forall i :: 0 <= i < c ==> w[i] == 0.0
    ensures forall i :: c <= i < |w| ==> w[i] == v[i - c]
  {
    seq(c + |v|, i requires 0 <= i < c + |v| => if i < c then 0.0 else v[i - c])
  }

  /** I - 2 w w^T. */
  function Reflection(w: Vector): (H: Matrix)
    ensures IsSquare(H, |w|)
  {
    seq(|w|, i => seq(|w|, j => Delta(i, j) - 2.0 * AtV(w, i) * AtV(w, j)))
  }

  /** Q_i_cortada of HH: the n x n matrix holding I[i][j] - 2 v[i] v[j] for
      i, j < |v| and zero elsewhere. */
  function Block(n: nat, v: Vector): (B: Matrix)
    ensures IsSquare(B, n)
  {
    seq(n, i requires 0 <= i < n => seq(n, j requires 0 <= j < n =>
      if i < |v| && j < |v| then Delta(i, j) - 2.0 * v[i] * v[j] else 0.0))
  }

  /** Q_i of HH built around the block B: float(i == j) when i < c or j < c,
      else B[i - c][j - c]. */
  function Embedded(n: nat, c: nat, B: Matrix): (H: Matrix)
    requires IsSquare(B, n)
    ensures IsSquare(H, n)
  {
    seq(n, i requires 0 <= i < n => seq(n, j requires 0 <= j < n =>
      if i < c || j < c then Delta(i, j) else B[i - c][j - c]))
  }

  /** The Q_i that HH returns for the direction v. */
  function Reflector(n: nat, c: nat, v: Vector): (H: Matrix)
    ensures IsSquare(H, n)
  {
    Embedded(n, c, Block(n, v))
  }

  /** The matrix HH(R, column) returns. */
  function HouseholderOf(R: Matrix, column: nat, sqrt: real -> real): Matrix
    requires column < |R|
  {
    Reflector(|R|, column, Direction(SubColumn(R, column), sqrt))
  }

  /** HH(R, column): the direction v, the block Q_i_cortada and finally Q_i. */
  method HH(R: Matrix, column: nat, sqrt: real -> real) returns (Qi: Matrix)
    requires IsSquare(R, |R|) && column < |R|
    requires IsSqrt(sqrt)
    ensures Qi == HouseholderOf(R, column, sqrt)
    ensures IsSymmetric(Qi, |R|)
    ensures IsOrthogonal(Qi, |R|)
  {
    var n := |R|;
    var I := MakeId(n);
    var v := HouseholderVector(R, I, column, sqrt);
    var Qc := TruncatedBlock(I, v, n);
    Qi := EmbedBlock(Qc, n, column);
    HouseholderOrthogonal(R, column, sqrt);
  }

  /** The first part of HH: the sub-column a, the unit vector e, the sign
      delta, v accumulated entry by entry (with `modulo(a)` recomputed for
      every entry) and then `moduloVector(v)`. */
  method HouseholderVector(R: Matrix, I: Matrix, column: nat, sqrt: real -> real) returns (v: Vector)
    requires IsSquare(R, |R|) && column < |R|
    requires I == Identity(|R|)
    requires IsSqrt(sqrt)
    ensures v == Direction(SubColumn(R, column), sqrt)
  {
    var n := |R|;
    var RT := Transpose(R);
    var IT := Transpose(I);
    var a := RT[column][column..];
    var e := IT[column][column..];
    SubColumnIsSlice(R, column);
    FirstUnitIsSlice(n, column);
    var delta := -Signal(a[0], 0.0);
    v := RawVector(a, e, delta, sqrt);
    var va := new real[|v|](k requires 0 <= k < |v| => v[k]);
    assert va[..] == v;
    ModuloVector(va, sqrt);
    v := va[..];
  }

  /** The loop `v.append(a[i] + delta * modulo(a) * e[i])` of HH. */
  method RawVector(a: Vector, e: Vector, delta: int, sqrt: real -> real) returns (v: Vector)
    requires |a| > 0 && e == FirstUnit(|a|) && delta == ReflectionSign(a)
    requires IsSqrt(sqrt)
    ensures v == RawDirection(a, sqrt)
  {
    ghost var u := RawDirection(a, sqrt);
    v := [];
    for i := 0 to |a|
      invariant v == u[..i]
    {
      var m := Modulo(a, sqrt);
      RawDirectionAt(a, sqrt, i, delta, m, e[i]);
      v := v + [a[i] + (delta as real) * m * e[i]];
    }
    assert v == u[..|a|];
  }

  /** Q_i_cortada = makeZero(n, n), then I[i][j] - 2 v[i] v[j] written for i, j < |v|. */
  method TruncatedBlock(I: Matrix, v: Vector, n: nat) returns (Qc: Matrix)
    requires I == Identity(n) && |v| <= n
    ensures Qc == Block(n, v)
  {
    ghost var B := Block(n, v);
    ghost var Z := MakeZero(n, n);
    var m := |v|;
    Qc := MakeZero(n, n);
    for i := 0 to m
      invariant IsSquare(Qc, n)
      invariant forall i', j' :: 0 <= i' < i && 0 <= j' < n ==> Qc[i'][j'] == B[i'][j']
      invariant forall i' :: i <= i' < n ==> Qc[i'] == Z[i']
    {
      for j := 0 to m
        invariant IsSquare(Qc, n)
        invariant forall i', j' :: 0 <= i' < i && 0 <= j' < n ==> Qc[i'][j'] == B[i'][j']
        invariant forall i' :: i < i' < n ==> Qc[i'] == Z[i']
        invariant forall j' :: 0 <= j' < j ==> Qc[i][j'] == B[i][j']
        invariant forall j' :: j <= j' < n ==> Qc[i][j'] == 0.0
      {
        assert I[i][j] - 2.0 * v[i] * v[j] == B[i][j];
        Qc := Qc[i := Qc[i][j := I[i][j] - 2.0 * v[i] * v[j]]];
      }
    }
    MatrixExt(Qc, B, n, n);
  }

  /** Q_i = makeZero(n, n), then float(i == j) outside the block and
      Q_i_cortada[i - column][j - column] inside it. */
  method EmbedBlock(Qc: Matrix, n: nat, column: nat) returns (Qi: Matrix)
    requires IsSquare(Qc, n)
    ensures Qi == Embedded(n, column, Qc)
  {
    ghost var H := Embedded(n, column, Qc);
    Qi := MakeZero(n, n);
    for i := 0 to n
      invariant IsSquare(Qi, n)
      invariant forall i', j' :: 0 <= i' < i && 0 <= j' < n ==> Qi[i'][j'] == H[i'][j']
    {
      for j := 0 to n
        invariant IsSquare(Qi, n)
        invariant forall i', j' :: 0 <= i' < i && 0 <= j' < n ==> Qi[i'][j'] == H[i'][j']
        invariant forall j' :: 0 <= j' < j ==> Qi[i][j'] == H[i][j']
      {
        if i < column || j < column {
          Qi := Qi[i := Qi[i][j := if i == j then 1.0 else 0.0]];
        } else {
          Qi := Qi[i := Qi[i][j := Qc[i - column][j - column]]];
        }
      }
    }
    MatrixExt(Qi, H, n, n);
  }

  /** The reflector is I - 2 w w^T for the padded direction w. */
  lemma ReflectorIsReflection(n: nat, c: nat, v: Vector)
    requires c + |v| == n
    ensures Reflector(n, c, v) == Reflection(Pad(c, v))
  {
    var w := Pad(c, v);
    forall i, j | 0 <= i < n && 0 <= j < n
      ensures Reflector(n, c, v)[i][j] == Reflection(w)[i][j]
    {
      if i >= c && j >= c {
        var x, y := v[i - c], v[j - c];
        assert AtV(w, i) == x && AtV(w, j) == y;
        assert Reflection(w)[i][j] == Delta(i, j) - 2.0 * x * y;
        assert Block(n, v)[i - c][j - c] == Delta(i - c, j - c) - 2.0 * x * y;
      }
    }
    MatrixExt(Reflector(n, c, v), Reflection(w), n, n);
  }

  /** Padding with zeros keeps the sum of squares. */
  lemma PadSumSq(c: nat, v: Vector)
    ensures SumSq(Pad(c, v)) == SumSq(v)
    ensures IsZero(Pad(c, v)) <==> IsZero(v)
  {
    var w := Pad(c, v);
    SumZero(c, Squares(w));
    SumExt(|v|, Squares(v), k => Squares(w)(c + k));
    SumSplit(c, |v|, Squares(w), k => Squares(w)(c + k));
    assert forall k :: 0 <= k < |v| ==> v[k] == w[c + k];
  }

  /** I - 2 w w^T is symmetric. */
  lemma ReflectionSymmetric(w: Vector)
    ensures IsSymmetric(Reflection(w), |w|)
  {
    var H := Reflection(w);
    TransposedSquare(H, |w|);
    forall i, j | 0 <= i < |w| && 0 <= j < |w|
      ensures Transposed(H)[i][j] == H[i][j]
    {
      var x, y := AtV(w, i), AtV(w, j);
      assert Transposed(H)[i][j] == H[j][i];
      assert H[i][j] == Delta(i, j) - 2.0 * x * y;
      assert H[j][i] == Delta(j, i) - 2.0 * y * x;
    }
    MatrixExt(Transposed(H), H, |w|, |w|);
  }

  /** Entry (i, j) of I - 2 w w^T. */
  lemma ReflectionAt(w: Vector, i: int, j: int)
    requires 0 <= i < |w| && 0 <= j < |w|
    ensures At(Reflection(w), i, j) == Delta(i, j) - 2.0 * w[i] * w[j]
  {
  }

  /** h (d - 2 x y) == 1 (h d) + (-2 y) (h x) */
  lemma ExpandTerm(h: real, d: real, x: real, y: real)
    ensures h * (d - 2.0 * x * y) == 1.0 * (h * d) + (-2.0 * y) * (h * x)
  {
  }

  /** (d - 2 x y) y == 1 (d y) + (-2 x) (y y) */
  lemma ExpandWeight(d: real, x: real, y: real)
    ensures (d - 2.0 * x * y) * y == 1.0 * (d * y) + (-2.0 * x) * (y * y)
  {
  }

  lemma Cancel(d: real, x: real, y: real)
    ensures 1.0 * (d - 2.0 * x * y) + (-2.0 * y) * (1.0 * x + (-2.0 * x) * 1.0) == d
  {
  }

  /** k => H[i][k] * I[k][j] */
  function ColumnTerms(H: Matrix, i: int, j: int): int -> real
  {
    k => At(H, i, k) * Delta(k, j)
  }

  /** k => H[i][k] * w[k] */
  function WeightTerms(H: Matrix, w: Vector, i: int): int -> real
  {
    k => At(H, i, k) * AtV(w, k)
  }

  /** k => I[i][k] * w[k] */
  function DiagonalTerms(w: Vector, i: int): int -> real
  {
    k => Delta(i, k) * AtV(w, k)
  }

  /** The k-th term of entry (i, j) of H.H, split along H[k][j] = I[k][j] - 2 w[k] w[j]. */
  lemma SquareTermAt(w: Vector, i: int, j: int, k: int)
    requires 0 <= i < |w| && 0 <= j < |w| && 0 <= k < |w|
    ensures MulTerm(Reflection(w), Reflection(w), i, j)(k)
              == 1.0 * ColumnTerms(Reflection(w), i, j)(k) + (-2.0 * w[j]) * WeightTerms(Reflection(w), w, i)(k)
  {
    var H := Reflection(w);
    var h := At(H, i, k);
    ReflectionAt(w, k, j);
    ExpandTerm(h, Delta(k, j), w[k], w[j]);
  }

  /** H[i][k] w[k], split along H[i][k] = I[i][k] - 2 w[i] w[k]. */
  lemma WeightTermAt(w: Vector, i: int, k: int)
    requires 0 <= i < |w| && 0 <= k < |w|
    ensures WeightTerms(Reflection(w), w, i)(k)
              == 1.0 * DiagonalTerms(w, i)(k) + (-2.0 * w[i]) * Squares(w)(k)
  {
    ReflectionAt(w, i, k);
    ExpandWeight(Delta(i, k), w[i], w[k]);
  }

  /** The terms of entry (i, j) of H.H for H = I - 2 w w^T, split along column j. */
  lemma ReflectionTermsByColumn(w: Vector, i: int, j: int)
    requires 0 <= i < |w| && 0 <= j < |w|
    ensures IsCombination(|w|, 1.0, ColumnTerms(Reflection(w), i, j), -2.0 * w[j], WeightTerms(Reflection(w), w, i),
                          MulTerm(Reflection(w), Reflection(w), i, j))
  {
    var H := Reflection(w);
    forall k | 0 <= k < |w|
      ensures MulTerm(H, H, i, j)(k) == 1.0 * ColumnTerms(H, i, j)(k) + (-2.0 * w[j]) * WeightTerms(H, w, i)(k)
    {
      SquareTermAt(w, i, j, k);
    }
  }

  /** The terms H[i][k] w[k], split along row i of H. */
  lemma ReflectionTermsByWeight(w: Vector, i: int)
    requires 0 <= i < |w|
    ensures IsCombination(|w|, 1.0, DiagonalTerms(w, i), -2.0 * w[i], Squares(w), WeightTerms(Reflection(w), w, i))
  {
    forall k | 0 <= k < |w|
      ensures WeightTerms(Reflection(w), w, i)(k) == 1.0 * DiagonalTerms(w, i)(k) + (-2.0 * w[i]) * Squares(w)(k)
    {
      WeightTermAt(w, i, k);
    }
  }

  /** The sums that pick out a single entry. */
  lemma ReflectionSingleSums(w: Vector, i: int, j: int)
    requires 0 <= i < |w| && 0 <= j < |w|
    ensures Sum(|w|, ColumnTerms(Reflection(w), i, j)) == Delta(i, j) - 2.0 * w[i] * w[j]
    ensures Sum(|w|, DiagonalTerms(w, i)) == w[i]
  {
    SumSingle(|w|, ColumnTerms(Reflection(w), i, j), j);
    SumSingle(|w|, DiagonalTerms(w, i), i);
    ReflectionAt(w, i, j);
  }

  /** The arithmetic of the sums: with sum of squares 1, the cross terms cancel. */
  lemma CombinedSum(n: nat, T: int -> real, C: int -> real, W: int -> real, D: int -> real, S: int -> real,
                    d: real, x: real, y: real)
    requires IsCombination(n, 1.0, C, -2.0 * y, W, T)
    requires IsCombination(n, 1.0, D, -2.0 * x, S, W)
    requires Sum(n, C) == d - 2.0 * x * y
    requires Sum(n, D) == x
    requires Sum(n, S) == 1.0
    ensures Sum(n, T) == d
  {
    SumLinear(n, 1.0, C, -2.0 * y, W, T);
    SumLinear(n, 1.0, D, -2.0 * x, S, W);
    Cancel(d, x, y);
  }

  /** Entry (i, j) of H.H from the splittings of its terms. */
  lemma SquareEntryFromSums(H: Matrix, w: Vector, i: int, j: int)
    requires IsUnit(w)
    requires 0 <= i < |w| && 0 <= j < |w|
    requires IsCombination(|w|, 1.0, ColumnTerms(H, i, j), -2.0 * w[j], WeightTerms(H, w, i), MulTerm(H, H, i, j))
    requires IsCombination(|w|, 1.0, DiagonalTerms(w, i), -2.0 * w[i], Squares(w), WeightTerms(H, w, i))
    requires Sum(|w|, ColumnTerms(H, i, j)) == Delta(i, j) - 2.0 * w[i] * w[j]
    requires Sum(|w|, DiagonalTerms(w, i)) == w[i]
    ensures Sum(|w|, MulTerm(H, H, i, j)) == Delta(i, j)
  {
    CombinedSum(|w|, MulTerm(H, H, i, j), ColumnTerms(H, i, j), WeightTerms(H, w, i), DiagonalTerms(w, i), Squares(w),
                Delta(i, j), w[i], w[j]);
  }

  /** Entry (i, j) of (I - 2 w w^T)^2 for a unit w is the identity's. */
  lemma ReflectionSquareAt(w: Vector, i: int, j: int)
    requires IsUnit(w)
    requires 0 <= i < |w| && 0 <= j < |w|
    ensures Sum(|w|, MulTerm(Reflection(w), Reflection(w), i, j)) == Delta(i, j)
  {
    ReflectionTermsByColumn(w, i, j);
    ReflectionTermsByWeight(w, i);
    ReflectionSingleSums(w, i, j);
    SquareEntryFromSums(Reflection(w), w, i, j);
  }

  /** A reflection in a unit vector, or the identity for the zero vector, is
      its own inverse. */
  lemma ReflectionInvolution(w: Vector)
    requires IsUnit(w) || IsZero(w)
    ensures Product(Reflection(w), Reflection(w)) == Identity(|w|)
  {
    var n := |w|;
    var H := Reflection(w);
    ProductSquare(H, H, n);
    if IsZero(w) {
      MatrixExt(H, Identity(n), n, n);
      IdentityLeftUnit(H, n, n);
    } else {
      forall i, j | 0 <= i < n && 0 <= j < n
        ensures Product(H, H)[i][j] == Identity(n)[i][j]
      {
        ReflectionSquareAt(w, i, j);
      }
      MatrixExt(Product(H, H), Identity(n), n, n);
    }
  }

  /** The reflector of HH is symmetric, and orthogonal when v is a unit
      vector or zero (the two outcomes of moduloVector). */
  lemma ReflectorOrthogonal(n: nat, c: nat, v: Vector)
    requires c + |v| == n
    requires IsUnit(v) || IsZero(v)
    ensures IsSymmetric(Reflector(n, c, v), n)
    ensures IsOrthogonal(Reflector(n, c, v), n)
    ensures Product(Reflector(n, c, v), Reflector(n, c, v)) == Identity(n)
  {
    ReflectorIsReflection(n, c, v);
    PadSumSq(c, v);
    ReflectionSymmetric(Pad(c, v));
    ReflectionInvolution(Pad(c, v));
  }

  /** The Householder direction is a unit vector, or zero exactly when the
      sub-column is zero. */
  lemma DirectionUnitOrZero(a: Vector, sqrt: real -> real)
    requires |a| > 0
    requires IsSqrt(sqrt)
    ensures |Direction(a, sqrt)| == |a|
    ensures IsUnit(Direction(a, sqrt)) || IsZero(Direction(a, sqrt))
  {
    NormalizedUnitOrZero(RawDirection(a, sqrt), sqrt);
  }

  /** HH(R, column) is symmetric and orthogonal. */
  lemma HouseholderOrthogonal(R: Matrix, column: nat, sqrt: real -> real)
    requires column < |R|
    requires IsSqrt(sqrt)
    ensures IsSymmetric(HouseholderOf(R, column, sqrt), |R|)
    ensures IsOrthogonal(HouseholderOf(R, column, sqrt), |R|)
  {
    var a := SubColumn(R, column);
    DirectionUnitOrZero(a, sqrt);
    ReflectorOrthogonal(|R|, column, Direction(a, sqrt));
  }
  /** Column `column` of the identity, from the diagonal down, is e. */
  lemma SubColumnOfIdentity(n: nat, column: nat)
    requires column < n
    ensures SubColumn(Identity(n), column) == FirstUnit(n - column)
  {
    var a := SubColumn(Identity(n), column);
    var e := FirstUnit(n - column);
    forall i | 0 <= i < |a|
      ensures a[i] == e[i]
    {
      assert a[i] == Delta(column + i, column);
    }
  }

  /** a = transposta(R)[column][column:]: the sub-column is that slice of the transpose. */
  lemma SubColumnIsSlice(R: Matrix, column: nat)
    requires IsSquare(R, |R|) && column < |R|
    ensures SubColumn(R, column) == Transposed(R)[column][column..]
  {
    TransposedSquare(R, |R|);
  }

  /** e = transposta(I)[column][column:]: the first unit vector is that slice
      of the transposed identity. */
  lemma FirstUnitIsSlice(n: nat, column: nat)
    requires column < n
    ensures FirstUnit(n - column) == Transposed(Identity(n))[column][column..]
  {
    SubColumnIsSlice(Identity(n), column);
    SubColumnOfIdentity(n, column);
  }

  /** e has norm 1. */
  lemma FirstUnitNorm(m: nat, sqrt: real -> real)
    requires m > 0
    requires IsSqrt(sqrt)
    ensures Norm(FirstUnit(m), sqrt) == 1.0
  {
    var e := FirstUnit(m);
    SumSingle(m, Squares(e), 0);
    assert SumSq(e) == 1.0;
    SqrtOfOne(sqrt);
  }

  /** For a = e the raw direction a - modulo(a) e is zero, so HH returns the identity. */
  lemma HouseholderOfIdentity(n: nat, column: nat, sqrt: real -> real)
    requires column < n
    requires IsSqrt(sqrt)
    ensures HouseholderOf(Identity(n), column, sqrt) == Identity(n)
  {
    SubColumnOfIdentity(n, column);
    var a := FirstUnit(n - column);
    FirstUnitNorm(n - column, sqrt);
    var u := RawDirection(a, sqrt);
    forall i | 0 <= i < |u|
      ensures u[i] == 0.0
    {
      RawDirectionAt(a, sqrt, i, -1, 1.0, a[i]);
    }
    NormFacts(u, sqrt);
    ZeroReflector(n, column, u);
  }

  /** The reflector for a zero direction is the identity. */
  lemma ZeroReflector(n: nat, c: nat, v: Vector)
    requires c + |v| == n && IsZero(v)
    ensures Reflector(n, c, v) == Identity(n)
  {
    ReflectorIsReflection(n, c, v);
    var w := Pad(c, v);
    forall i, j | 0 <= i < n && 0 <= j < n
      ensures Reflection(w)[i][j] == Identity(n)[i][j]
    {
      ReflectionAt(w, i, j);
    }
    MatrixExt(Reflection(w), Identity(n), n, n);
  }
}
