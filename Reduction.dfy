/** What each Householder step of QR does to R: it zeroes the pivot column
    below the diagonal, and keeps zero the columns before it, whenever the pivot
    is non-zero or the column below it is already zero. With a zero pivot over
    a non-zero column, delta = -signal(0, 0) = 0 and the column is not reduced. */
module Reduction {
  import opened Sums
  import opened Matrices
  import opened Norms
  import opened Householder
  import opened QRFactor
  import opened ScalarProduct

  /** delta * modulo(a): the multiple of e added to a. */
  function Shift(a: Vector, sqrt: real -> real): real
    requires |a| > 0
  {
    (ReflectionSign(a) as real) * Norm(a, sqrt)
  }

  /** Entry i of the raw direction is a[i] + shift * e[i]. */
  lemma RawEntry(a: Vector, sqrt: real -> real, i: int)
    requires 0 <= i < |a|
    ensures RawDirection(a, sqrt)[i] == a[i] + Shift(a, sqrt) * FirstUnit(|a|)[i]
    ensures i > 0 ==> RawDirection(a, sqrt)[i] == a[i]
    ensures i == 0 ==> RawDirection(a, sqrt)[i] == a[0] + Shift(a, sqrt)
  {
    RawDirectionAt(a, sqrt, i, ReflectionSign(a), Norm(a, sqrt), FirstUnit(|a|)[i]);
  }

  /** (x + c y) z, spread over its two terms. */
  lemma SpreadProduct(p: real, x: real, c: real, y: real, z: real)
    requires p == x + c * y
    ensures p * z == 1.0 * (x * z) + c * (y * z)
  {
  }

  /** (x + c y)^2, spread over the two terms of one factor. */
  lemma SpreadSquare(p: real, x: real, c: real, y: real)
    requires p == x + c * y
    ensures p * p == 1.0 * (p * x) + c * (p * y)
  {
  }

  /** For u = a + c e: u . a = |a|^2 + c a[0]. */
  lemma ShiftedDot(a: Vector, u: Vector, c: real)
    requires |a| > 0 && |u| == |a|
    requires forall k :: 0 <= k < |a| ==> u[k] == a[k] + c * FirstUnit(|a|)[k]
    ensures Dot(u, a) == SumSq(a) + c * a[0]
  {
    var e := FirstUnit(|a|);
    forall k | 0 <= k < |a|
      ensures DotTerms(u, a)(k) == 1.0 * Squares(a)(k) + c * DotTerms(e, a)(k)
    {
      SpreadProduct(u[k], a[k], c, e[k], a[k]);
    }
    SumLinear(|a|, 1.0, Squares(a), c, DotTerms(e, a), DotTerms(u, a));
    forall k | 0 <= k < |a| && k != 0
      ensures DotTerms(e, a)(k) == 0.0
    {
      assert e[k] == 0.0;
    }
    SumSingle(|a|, DotTerms(e, a), 0);
    assert DotTerms(e, a)(0) == a[0];
  }

  /** For u = a + c e: |u|^2 = u . a + c u[0]. */
  lemma ShiftedSumSq(a: Vector, u: Vector, c: real)
    requires |a| > 0 && |u| == |a|
    requires forall k :: 0 <= k < |a| ==> u[k] == a[k] + c * FirstUnit(|a|)[k]
    ensures SumSq(u) == Dot(u, a) + c * u[0]
  {
    var e := FirstUnit(|a|);
    forall k | 0 <= k < |a|
      ensures Squares(u)(k) == 1.0 * DotTerms(u, a)(k) + c * DotTerms(u, e)(k)
    {
      SpreadSquare(u[k], a[k], c, e[k]);
    }
    SumLinear(|a|, 1.0, DotTerms(u, a), c, DotTerms(u, e), Squares(u));
    forall k | 0 <= k < |a| && k != 0
      ensures DotTerms(u, e)(k) == 0.0
    {
      assert e[k] == 0.0;
    }
    SumSingle(|a|, DotTerms(u, e), 0);
    assert DotTerms(u, e)(0) == u[0];
  }

  /** The raw direction is a + shift * e. */
  lemma RawIsShifted(a: Vector, sqrt: real -> real)
    requires |a| > 0
    ensures forall k :: 0 <= k < |a| ==> RawDirection(a, sqrt)[k] == a[k] + Shift(a, sqrt) * FirstUnit(|a|)[k]
  {
    forall k | 0 <= k < |a|
      ensures RawDirection(a, sqrt)[k] == a[k] + Shift(a, sqrt) * FirstUnit(|a|)[k]
    {
      RawEntry(a, sqrt, k);
    }
  }

  /** With d = +-1, m^2 = s and c = d m: (s + c x) + c (x + c) = 2 (s + c x). */
  lemma Balance(d: real, m: real, s: real, x: real, c: real)
    requires d * d == 1.0 && m * m == s && c == d * m
    ensures (s + c * x) + c * (x + c) == 2.0 * (s + c * x)
  {
    assert c * c == (d * d) * (m * m);
  }

  /** For u = a + c e with c = d m, d = +-1 and m = |a|: |u|^2 = 2 (u . a). */
  lemma ShiftedBalance(a: Vector, u: Vector, c: real, d: real, m: real)
    requires |a| > 0 && |u| == |a|
    requires forall k :: 0 <= k < |a| ==> u[k] == a[k] + c * FirstUnit(|a|)[k]
    requires d * d == 1.0 && m * m == SumSq(a) && c == d * m
    ensures SumSq(u) == 2.0 * Dot(u, a)
  {
    ShiftedDot(a, u, c);
    ShiftedSumSq(a, u, c);
    assert u[0] == a[0] + c * FirstUnit(|a|)[0];
    Balance(d, m, SumSq(a), a[0], c);
  }

  /** For a non-zero pivot, |u|^2 = 2 (u . a): the identity that makes the
      reflection map a onto a multiple of e. */
  lemma RawBalance(a: Vector, sqrt: real -> real)
    requires |a| > 0 && a[0] != 0.0
    requires IsSqrt(sqrt)
    ensures SumSq(RawDirection(a, sqrt)) == 2.0 * Dot(RawDirection(a, sqrt), a)
  {
    var d := ReflectionSign(a) as real;
    assert d * d == 1.0;
    RawIsShifted(a, sqrt);
    NormFacts(a, sqrt);
    ShiftedBalance(a, RawDirection(a, sqrt), Shift(a, sqrt), d, Norm(a, sqrt));
  }

  /** With a = u, v = u r, v . a = r d, r n = 1 and n^2 = 2 d:
      a - 2 v (v . a) = 0. */
  lemma ReflectedEntryZero(ai: real, ui: real, vi: real, dotv: real, r: real, n: real, d: real)
    requires ai == ui && vi == ui * r && dotv == r * d
    requires r * n == 1.0 && n * n == 2.0 * d
    ensures ai - 2.0 * vi * dotv == 0.0
  {
    var rr := r * r;
    assert rr * (n * n) == 1.0 by {
      assert rr * (n * n) == (r * n) * (r * n);
    }
    assert 2.0 * vi * dotv == ui * (rr * (2.0 * d));
  }

  /** For u with u[i] = a[i] and |u|^2 = 2 (u . a), and v = u / N with N = |u|
      (v = u when N = 0, u then being zero): a[i] - 2 v[i] (v . a) = 0. */
  lemma NormalizedReduces(a: Vector, u: Vector, v: Vector, N: real, i: int)
    requires |u| == |a| && |v| == |a| && 0 <= i < |a|
    requires u[i] == a[i] && SumSq(u) == 2.0 * Dot(u, a) && N * N == SumSq(u)
    requires N == 0.0 ==> v == u && u[i] == 0.0
    requires N != 0.0 ==> forall k :: 0 <= k < |a| ==> v[k] == u[k] * (1.0 / N)
    ensures a[i] - 2.0 * v[i] * Dot(v, a) == 0.0
  {
    if N != 0.0 {
      var r := 1.0 / N;
      forall k | 0 <= k < |a|
        ensures DotTerms(v, a)(k) == r * DotTerms(u, a)(k)
      {
        assert v[k] == u[k] * r;
      }
      SumScale(|a|, r, DotTerms(u, a), DotTerms(v, a));
      ReflectedEntryZero(a[i], u[i], v[i], Dot(v, a), r, N, Dot(u, a));
    }
  }

  /** A zero sub-column is its own raw direction and its own direction. */
  lemma ZeroDirection(a: Vector, sqrt: real -> real)
    requires |a| > 0 && IsZero(a)
    requires IsSqrt(sqrt)
    ensures Direction(a, sqrt) == a
  {
    var u := RawDirection(a, sqrt);
    forall k | 0 <= k < |a|
      ensures u[k] == a[k]
    {
      RawEntry(a, sqrt, k);
    }
    assert u == a;
    NormFacts(a, sqrt);
  }

  /** Entry i >= 1 of the reflection of a by the direction v that HH builds,
      a[i] - 2 v[i] (v . a), is zero when the pivot a[0] is non-zero or a is zero. */
  lemma DirectionReduces(a: Vector, sqrt: real -> real, i: int)
    requires 1 <= i < |a|
    requires a[0] != 0.0 || IsZero(a)
    requires IsSqrt(sqrt)
    ensures a[i] - 2.0 * Direction(a, sqrt)[i] * Dot(Direction(a, sqrt), a) == 0.0
  {
    if a[0] == 0.0 {
      ZeroDirection(a, sqrt);
      assert a[i] == 0.0;
    } else {
      NonZeroPivotReduces(a, sqrt, i);
    }
  }

  /** DirectionReduces for a non-zero pivot. */
  lemma NonZeroPivotReduces(a: Vector, sqrt: real -> real, i: int)
    requires 1 <= i < |a| && a[0] != 0.0
    requires IsSqrt(sqrt)
    ensures a[i] - 2.0 * Direction(a, sqrt)[i] * Dot(Direction(a, sqrt), a) == 0.0
  {
    var u, v := RawDirection(a, sqrt), Direction(a, sqrt);
    var N := Norm(u, sqrt);
    NormFacts(u, sqrt);
    RawEntry(a, sqrt, i);
    RawBalance(a, sqrt);
    assert N != 0.0 ==> forall k :: 0 <= k < |a| ==> v[k] == u[k] * (1.0 / N);
    NormalizedReduces(a, u, v, N, i);
  }

  /** The terms w[k] * R[k][j] of (w^T R)[j]. */
  function ColumnWeights(w: Vector, R: Matrix, j: int): int -> real
  {
    k => AtV(w, k) * At(R, k, j)
  }

  /** The terms Delta(i, k) * R[k][j] of (I R)[i][j]. */
  function IdentityTerms(R: Matrix, i: int, j: int): int -> real
  {
    k => Delta(i, k) * At(R, k, j)
  }

  /** (d - 2 x y) z == 1 (d z) + (-2 x) (y z) */
  lemma ReflectionTerm(d: real, x: real, y: real, z: real)
    ensures (d - 2.0 * x * y) * z == 1.0 * (d * z) + (-2.0 * x) * (y * z)
  {
  }

  /** Term k of (H R)[i][j] when row i of H is that of I - 2 w w^T, split
      into its identity part and its w part. */
  lemma ReflectionLikeTerm(H: Matrix, w: Vector, R: Matrix, i: int, j: int, k: int)
    requires 0 <= i < |w| && 0 <= k < |w|
    requires At(H, i, k) == Delta(i, k) - 2.0 * w[i] * w[k]
    ensures MulTerm(H, R, i, j)(k) == 1.0 * IdentityTerms(R, i, j)(k) + (-2.0 * w[i]) * ColumnWeights(w, R, j)(k)
  {
    ReflectionTerm(Delta(i, k), w[i], w[k], At(R, k, j));
  }

  /** (H R)[i][j] = R[i][j] - 2 w[i] (w^T R)[j] for any H whose row i is
      that of I - 2 w w^T. */
  lemma ReflectionLikeTimesAt(H: Matrix, w: Vector, R: Matrix, i: int, j: int)
    requires IsSquare(H, |w|) && IsSquare(R, |w|) && 0 <= i < |w| && 0 <= j < |w|
    requires forall k :: 0 <= k < |w| ==> At(H, i, k) == Delta(i, k) - 2.0 * w[i] * w[k]
    ensures Product(H, R)[i][j] == R[i][j] - 2.0 * w[i] * Sum(|w|, ColumnWeights(w, R, j))
  {
    ProductSquare(H, R, |w|);
    forall k | 0 <= k < |w|
      ensures MulTerm(H, R, i, j)(k) == 1.0 * IdentityTerms(R, i, j)(k) + (-2.0 * w[i]) * ColumnWeights(w, R, j)(k)
    {
      ReflectionLikeTerm(H, w, R, i, j, k);
    }
    SumLinear(|w|, 1.0, IdentityTerms(R, i, j), -2.0 * w[i], ColumnWeights(w, R, j), MulTerm(H, R, i, j));
    forall k | 0 <= k < |w| && k != i
      ensures IdentityTerms(R, i, j)(k) == 0.0
    {
    }
    SumSingle(|w|, IdentityTerms(R, i, j), i);
    assert IdentityTerms(R, i, j)(i) == R[i][j];
    CombineReflected(R[i][j], w[i], Sum(|w|, ColumnWeights(w, R, j)));
  }

  /** 1 r + (-2 x) s == r - 2 x s */
  lemma CombineReflected(r: real, x: real, s: real)
    ensures 1.0 * r + (-2.0 * x) * s == r - 2.0 * x * s
  {
  }

  /** ((I - 2 w w^T) R)[i][j] = R[i][j] - 2 w[i] (w^T R)[j]. */
  lemma ReflectionTimesAt(w: Vector, R: Matrix, i: int, j: int)
    requires IsSquare(R, |w|) && 0 <= i < |w| && 0 <= j < |w|
    ensures Product(Reflection(w), R)[i][j] == R[i][j] - 2.0 * w[i] * Sum(|w|, ColumnWeights(w, R, j))
  {
    forall k | 0 <= k < |w|
      ensures At(Reflection(w), i, k) == Delta(i, k) - 2.0 * w[i] * w[k]
    {
      ReflectionAt(w, i, k);
    }
    ReflectionLikeTimesAt(Reflection(w), w, R, i, j);
  }

  /** The terms v[k] * R[c + k][j]: column j of R below row c, weighted by v. */
  function ShiftedWeights(v: Vector, R: Matrix, c: nat, j: int): int -> real
  {
    k => AtV(v, k) * At(R, c + k, j)
  }

  /** Padding v with c zeros drops rows above c from the weighted column sum. */
  lemma PaddedWeights(c: nat, v: Vector, R: Matrix, j: int)
    ensures Sum(c + |v|, ColumnWeights(Pad(c, v), R, j)) == Sum(|v|, ShiftedWeights(v, R, c, j))
  {
    var w := Pad(c, v);
    forall k | 0 <= k < c
      ensures ColumnWeights(w, R, j)(k) == 0.0
    {
      assert AtV(w, k) == 0.0;
    }
    SumZero(c, ColumnWeights(w, R, j));
    forall k | 0 <= k < |v|
      ensures ShiftedWeights(v, R, c, j)(k) == ColumnWeights(w, R, j)(c + k)
    {
      assert AtV(w, c + k) == AtV(v, k);
    }
    SumSplit(c, |v|, ColumnWeights(w, R, j), ShiftedWeights(v, R, c, j));
  }

  /** Entry (i, j) of Q_i R for the reflector Q_i built around the direction v
      from row and column c on. */
  lemma ReflectorTimesAt(n: nat, c: nat, v: Vector, R: Matrix, i: int, j: int)
    requires c + |v| == n && IsSquare(R, n) && 0 <= i < n && 0 <= j < n
    ensures Product(Reflector(n, c, v), R)[i][j] == R[i][j] - 2.0 * Pad(c, v)[i] * Sum(|v|, ShiftedWeights(v, R, c, j))
  {
    var w := Pad(c, v);
    ReflectorIsReflection(n, c, v);
    ReflectionTimesAt(w, R, i, j);
    PaddedWeights(c, v, R, j);
  }

  /** Column j of R is zero below the diagonal. */
  predicate ZeroBelow(R: Matrix, j: int)
  {
    forall i :: j < i < |R| ==> At(R, i, j) == 0.0
  }

  /** Columns 0 .. c - 1 of R are zero below the diagonal. */
  predicate ReducedUpTo(R: Matrix, c: int)
  {
    forall j :: 0 <= j < c ==> ZeroBelow(R, j)
  }

  predicate UpperTriangular(R: Matrix)
  {
    forall i, j :: 0 <= j < i < |R| ==> At(R, i, j) == 0.0
  }

  /** The step on column c reduces it: its pivot R[c][c] is non-zero, or the
      column is zero from the diagonal down. */
  predicate PivotUsable(R: Matrix, c: nat)
    requires c < |R|
  {
    At(R, c, c) != 0.0 || IsZero(SubColumn(R, c))
  }

  /** Any reflector acting on rows c and up keeps zero a column j < c that
      is zero below its diagonal. */
  lemma ReflectorKeepsColumn(n: nat, c: nat, v: Vector, R: Matrix, j: int)
    requires c + |v| == n && IsSquare(R, n) && 0 <= j < c
    requires ZeroBelow(R, j)
    ensures ZeroBelow(Product(Reflector(n, c, v), R), j)
  {
    var P := Product(Reflector(n, c, v), R);
    ProductSquare(Reflector(n, c, v), R, n);
    forall i | j < i < n
      ensures At(P, i, j) == 0.0
    {
      forall k | 0 <= k < |v|
        ensures ShiftedWeights(v, R, c, j)(k) == 0.0
      {
        assert At(R, c + k, j) == 0.0;
      }
      SumZero(|v|, ShiftedWeights(v, R, c, j));
      ReflectorTimesAt(n, c, v, R, i, j);
      assert R[i][j] == At(R, i, j);
    }
  }

  /** Entry i > c of column c after a reflector acting on rows c and up:
      a[i - c] - 2 v[i - c] (v . a), a being column c from the diagonal down. */
  lemma ReflectorPivotAt(n: nat, c: nat, v: Vector, R: Matrix, i: int)
    requires c + |v| == n && IsSquare(R, n) && c < i < n
    ensures Product(Reflector(n, c, v), R)[i][c]
      == SubColumn(R, c)[i - c] - 2.0 * v[i - c] * Dot(v, SubColumn(R, c))
  {
    var a := SubColumn(R, c);
    forall k | 0 <= k < |v|
      ensures ShiftedWeights(v, R, c, c)(k) == DotTerms(v, a)(k)
    {
    }
    SumExt(|v|, ShiftedWeights(v, R, c, c), DotTerms(v, a));
    ReflectorTimesAt(n, c, v, R, i, c);
    assert Pad(c, v)[i] == v[i - c] && R[i][c] == a[i - c];
  }

  /** A reflector acting on rows c and up whose direction v gives
      a[i] - 2 v[i] (v . a) = 0 for every i >= 1, a being column c from the
      diagonal down, zeroes column c below the diagonal. */
  lemma ReflectorZeroesPivot(n: nat, c: nat, v: Vector, R: Matrix)
    requires c + |v| == n && IsSquare(R, n)
    requires forall i :: 1 <= i < |v| ==> SubColumn(R, c)[i] - 2.0 * v[i] * Dot(v, SubColumn(R, c)) == 0.0
    ensures ZeroBelow(Product(Reflector(n, c, v), R), c)
  {
    var H := Reflector(n, c, v);
    ProductSquare(H, R, n);
    forall i | c < i < n
      ensures At(Product(H, R), i, c) == 0.0
    {
      ReflectorPivotAt(n, c, v, R, i);
    }
  }

  /** DirectionReduces for every entry below the pivot. */
  lemma DirectionReducesAll(a: Vector, sqrt: real -> real)
    requires |a| > 0 && (a[0] != 0.0 || IsZero(a))
    requires IsSqrt(sqrt)
    ensures |Direction(a, sqrt)| == |a|
    ensures forall i :: 1 <= i < |a| ==> a[i] - 2.0 * Direction(a, sqrt)[i] * Dot(Direction(a, sqrt), a) == 0.0
  {
    DirectionUnitOrZero(a, sqrt);
    forall i | 1 <= i < |a|
      ensures a[i] - 2.0 * Direction(a, sqrt)[i] * Dot(Direction(a, sqrt), a) == 0.0
    {
      DirectionReduces(a, sqrt, i);
    }
  }

  /** With a usable pivot, the step on column c zeroes column c below the diagonal. */
  lemma ReducesPivotColumn(R: Matrix, c: nat, sqrt: real -> real)
    requires IsSquare(R, |R|) && c < |R|
    requires PivotUsable(R, c)
    requires IsSqrt(sqrt)
    ensures ZeroBelow(Product(HouseholderOf(R, c, sqrt), R), c)
  {
    DirectionReducesAll(SubColumn(R, c), sqrt);
    ReflectorZeroesPivot(|R|, c, Direction(SubColumn(R, c), sqrt), R);
  }

  /** The step on column c, after columns 0 .. c - 1 are reduced and with a
      usable pivot, leaves columns 0 .. c reduced. */
  lemma StepReduces(R: Matrix, c: nat, sqrt: real -> real)
    requires IsSquare(R, |R|) && c < |R|
    requires ReducedUpTo(R, c) && PivotUsable(R, c)
    requires IsSqrt(sqrt)
    ensures ReducedUpTo(Product(HouseholderOf(R, c, sqrt), R), c + 1)
  {
    var v := Direction(SubColumn(R, c), sqrt);
    assert |v| == |R| - c;
    ReducesPivotColumn(R, c, sqrt);
    forall j | 0 <= j < c
      ensures ZeroBelow(Product(HouseholderOf(R, c, sqrt), R), j)
    {
      ReflectorKeepsColumn(|R|, c, v, R, j);
    }
  }

  /** The R of every state of QR is square. */
  lemma QRStateSquare(A: Matrix, sqrt: real -> real, k: nat)
    requires IsSquare(A, |A|) && (k < |A| || k == 0)
    requires IsSqrt(sqrt)
    ensures IsSquare(QRState(A, sqrt, k).R, |A|)
  {
    QRStateInvariant(A, sqrt, k);
  }

  /** One step of QR on a reduced state with a usable pivot. */
  lemma StepStateReduces(s: QRPair, c: nat, sqrt: real -> real)
    requires IsSquare(s.R, |s.R|) && c < |s.R|
    requires ReducedUpTo(s.R, c) && PivotUsable(s.R, c)
    requires IsSqrt(sqrt)
    ensures ReducedUpTo(Step(s, c, sqrt).R, c + 1)
  {
    StepReduces(s.R, c, sqrt);
  }

  /** State k of QR is the step on column k - 1 of state k - 1. */
  lemma QRStateStep(A: Matrix, sqrt: real -> real, k: nat)
    requires 0 < k < |A|
    ensures QRState(A, sqrt, k) == Step(QRState(A, sqrt, k - 1), k - 1, sqrt)
  {
  }

  /** Step k of QR on a reduced state with a usable pivot. */
  lemma NextStateReduced(A: Matrix, sqrt: real -> real, k: nat)
    requires IsSquare(A, |A|) && 0 < k < |A|
    requires IsSqrt(sqrt)
    requires ReducedUpTo(QRState(A, sqrt, k - 1).R, k - 1)
    requires PivotUsable(QRState(A, sqrt, k - 1).R, k - 1)
    ensures ReducedUpTo(QRState(A, sqrt, k).R, k)
  {
    QRStateSquare(A, sqrt, k - 1);
    QRStateStep(A, sqrt, k);
    StepStateReduces(QRState(A, sqrt, k - 1), k - 1, sqrt);
  }

  /** After k steps of QR, columns 0 .. k - 1 of R are zero below the
      diagonal, provided every pivot met so far was usable. */
  lemma {:induction false} QRStateReduced(A: Matrix, sqrt: real -> real, k: nat)
    requires IsSquare(A, |A|) && (k < |A| || k == 0)
    requires IsSqrt(sqrt)
    requires forall m :: 0 <= m < k ==> PivotUsable(QRState(A, sqrt, m).R, m)
    ensures ReducedUpTo(QRState(A, sqrt, k).R, k)
  {
    if k > 0 {
      QRStateReduced(A, sqrt, k - 1);
      NextStateReduced(A, sqrt, k);
    }
  }

  /** A matrix whose columns 0 .. n - 2 are reduced is upper triangular. */
  lemma ReducedIsTriangular(R: Matrix)
    requires |R| > 0 && ReducedUpTo(R, |R| - 1)
    ensures UpperTriangular(R)
  {
    forall i, j | 0 <= j < i < |R|
      ensures At(R, i, j) == 0.0
    {
      assert ZeroBelow(R, j);
    }
  }

  /** The R of QR is upper triangular whenever every pivot the loop meets is
      usable. */
  lemma QRTriangular(A: Matrix, sqrt: real -> real)
    requires |A| > 0 && IsSquare(A, |A|)
    requires IsSqrt(sqrt)
    requires forall m :: 0 <= m < |A| - 1 ==> PivotUsable(QRState(A, sqrt, m).R, m)
    ensures UpperTriangular(Factor(A, sqrt).R)
  {
    QRStateReduced(A, sqrt, |A| - 1);
    ReducedIsTriangular(QRState(A, sqrt, |A| - 1).R);
  }

  /** HH keeps the unit column [0, 1]: delta is 0 and its norm is 1. */
  lemma UnitColumnDirection(sqrt: real -> real)
    requires IsSqrt(sqrt)
    ensures Direction([0.0, 1.0], sqrt) == [0.0, 1.0]
  {
    var a: Vector := [0.0, 1.0];
    assert RawDirection(a, sqrt) == a by {
      RawEntry(a, sqrt, 0);
      RawEntry(a, sqrt, 1);
    }
    assert Norm(a, sqrt) == 1.0 by {
      assert SumSq(a) == Sum(1, Squares(a)) + Squares(a)(1);
      SqrtOfOne(sqrt);
    }
  }

  /** A zero pivot over a non-zero column is not reduced: for A = [[0, 1], [1, 0]]
      the R of QR is [[0, 1], [-1, 0]], with -1 below the diagonal. */
  lemma ZeroPivotNotReduced(sqrt: real -> real)
    requires IsSqrt(sqrt)
    ensures !PivotUsable([[0.0, 1.0], [1.0, 0.0]], 0)
    ensures At(Factor([[0.0, 1.0], [1.0, 0.0]], sqrt).R, 1, 0) == -1.0
  {
    var A: Matrix := [[0.0, 1.0], [1.0, 0.0]];
    var v: Vector := [0.0, 1.0];
    assert SubColumn(A, 0) == v;
    assert v[1] != 0.0;
    UnitColumnDirection(sqrt);
    var H := Reflector(2, 0, v);
    assert HouseholderOf(A, 0, sqrt) == H;
    assert QRState(A, sqrt, 1).R == Product(H, A);
    ProductSquare(H, A, 2);
    ReflectorTimesAt(2, 0, v, A, 1, 0);
    var f := ShiftedWeights(v, A, 0, 0);
    assert Sum(2, f) == Sum(1, f) + f(1);
  }
}
