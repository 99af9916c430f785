/** QR(A): the Householder factorisation A = Q.R, with Q orthogonal, built by
    applying HH to the columns 0 .. n - 2 in turn. */
module QRFactor {
  import opened Sums
  import opened Matrices
  import opened Norms
  import opened Householder

  /** A pair of matrices: the Q and R of the factorisation, or of one of
      its intermediate states. */
  datatype QRPair = QRPair(Q: Matrix, R: Matrix)

  /** One pass of the loop of QR: both matrices multiplied on the left by the
      Householder reflector that HH builds from column `column` of R. */
  function Step(s: QRPair, column: nat, sqrt: real -> real): (t: QRPair)
    requires column < |s.R|
    ensures |t.R| == |s.R|
  {
    var H := HouseholderOf(s.R, column, sqrt);
    QRPair(Product(H, s.Q), Product(H, s.R))
  }

  /** The accumulated product of reflectors and the partly reduced matrix
      after the first k columns: Q_k = H_{k-1} ... H_0 and R_k = Q_k.A.
      Facts are stated about QRState, which is not recursive, so that a fact
      proved once is recognised where it is used. */
  function QRState(A: Matrix, sqrt: real -> real, k: nat): (s: QRPair)
    requires k < |A| || k == 0
    ensures |s.R| == |A|
  {
    StateAfter(A, sqrt, k)
  }

  /** The recursion behind QRState, which lemmas speak about (as for Sum). */
  function StateAfter(A: Matrix, sqrt: real -> real, k: nat): (s: QRPair)
    requires k < |A| || k == 0
    ensures |s.R| == |A|
  {
    if k == 0 then QRPair(Identity(|A|), A)
    else Step(StateAfter(A, sqrt, k - 1), k - 1, sqrt)
  }

  /** The pair QR(A) returns: the transpose of the accumulated product, and R. */
  function Factor(A: Matrix, sqrt: real -> real): (f: QRPair)
    requires |A| > 0
    ensures |f.R| == |A|
  {
    var s := QRState(A, sqrt, |A| - 1);
    QRPair(Transposed(s.Q), s.R)
  }

  /** QR(A) for a square A: R starts as a copy of A and Q as the identity; for
      each column but the last, both are multiplied on the left by HH(R, column);
      the result is (transposta(Q), R). */
  method QR(A: Matrix, sqrt: real -> real) returns (Q: Matrix, R: Matrix)
    requires |A| > 0 && IsSquare(A, |A|)
    requires IsSqrt(sqrt)
    ensures QRPair(Q, R) == Factor(A, sqrt)
    ensures IsOrthogonal(Q, |A|) && IsSquare(R, |A|)
    ensures Product(Q, R) == A
  {
    var n := |A|;
    R := A;
    Q := MakeId(n);
    for column := 0 to n - 1
      invariant QRPair(Q, R) == QRState(A, sqrt, column)
    {
      Q, R := ReduceColumn(A, Q, R, column, sqrt);
    }
    QRStateInvariant(A, sqrt, n - 1);
    Q := Transpose(Q);
    FactorCorrect(A, sqrt);
  }

  /** The body of the loop of QR: Q_i = HH(R, column), then Q := Q_i.Q and
      R := Q_i.R, which takes the state after `column` columns to the next. */
  method ReduceColumn(ghost A: Matrix, Q: Matrix, R: Matrix, column: nat, sqrt: real -> real)
    returns (Q': Matrix, R': Matrix)
    requires IsSquare(A, |A|) && column + 1 < |A|
    requires QRPair(Q, R) == QRState(A, sqrt, column)
    requires IsSqrt(sqrt)
    ensures QRPair(Q', R') == QRState(A, sqrt, column + 1)
  {
    QRStateInvariant(A, sqrt, column);
    var Qi := HH(R, column, sqrt);
    var nextQ := Multiply(Qi, Q);
    Q' := nextQ.value;
    var nextR := Multiply(Qi, R);
    R' := nextR.value;
  }

  /** The relation the loop of QR keeps: R = Q.A with Q orthogonal. */
  predicate Valid(A: Matrix, s: QRPair)
  {
    IsOrthogonal(s.Q, |A|) && IsSquare(s.R, |A|) && s.R == Product(s.Q, A)
  }

  /** Every intermediate state is valid. */
  lemma {:induction false} QRStateInvariant(A: Matrix, sqrt: real -> real, k: nat)
    requires IsSquare(A, |A|) && (k < |A| || k == 0)
    requires IsSqrt(sqrt)
    ensures Valid(A, QRState(A, sqrt, k))
  {
    var n := |A|;
    if k == 0 {
      IdentityOrthogonal(n);
      IdentityLeftUnit(A, n, n);
    } else {
      QRStateInvariant(A, sqrt, k - 1);
      StepInvariant(A, QRState(A, sqrt, k - 1), k - 1, sqrt);
    }
  }

  /** One step keeps the state valid. */
  lemma StepInvariant(A: Matrix, s: QRPair, column: nat, sqrt: real -> real)
    requires IsSquare(A, |A|) && column < |A| && |s.R| == |A|
    requires Valid(A, s)
    requires IsSqrt(sqrt)
    ensures Valid(A, Step(s, column, sqrt))
  {
    HouseholderOrthogonal(s.R, column, sqrt);
    ProductByOrthogonal(A, s.Q, s.R, HouseholderOf(s.R, column, sqrt), |A|);
  }

  /** Multiplying both Q and R = Q.A on the left by an orthogonal H keeps the
      relation, and keeps Q orthogonal. */
  lemma ProductByOrthogonal(A: Matrix, Q: Matrix, R: Matrix, H: Matrix, n: nat)
    requires IsSquare(A, n) && IsOrthogonal(Q, n) && IsOrthogonal(H, n)
    requires R == Product(Q, A)
    ensures IsOrthogonal(Product(H, Q), n)
    ensures IsSquare(Product(H, R), n)
    ensures Product(H, R) == Product(Product(H, Q), A)
  {
    OrthogonalProduct(H, Q, n);
    ProductSquare(Q, A, n);
    ProductSquare(H, R, n);
    ProductAssociative(H, Q, A, n);
  }

  /** QR(A) returns an orthogonal Q and a square R whose product is A. */
  lemma FactorCorrect(A: Matrix, sqrt: real -> real)
    requires |A| > 0 && IsSquare(A, |A|)
    requires IsSqrt(sqrt)
    ensures IsOrthogonal(Factor(A, sqrt).Q, |A|)
    ensures IsSquare(Factor(A, sqrt).R, |A|)
    ensures Product(Factor(A, sqrt).Q, Factor(A, sqrt).R) == A
  {
    QRStateInvariant(A, sqrt, |A| - 1);
    TransposeUndoes(A, QRState(A, sqrt, |A| - 1));
  }

  /** For a valid state, the transpose of Q undoes it: Q^T.R = A. */
  lemma TransposeUndoes(A: Matrix, s: QRPair)
    requires IsSquare(A, |A|) && Valid(A, s)
    ensures IsOrthogonal(Transposed(s.Q), |A|)
    ensures Product(Transposed(s.Q), s.R) == A
  {
    var n := |A|;
    OrthogonalTranspose(s.Q, n);
    TransposedSquare(s.Q, n);
    ProductAssociative(Transposed(s.Q), s.Q, A, n);
    IdentityLeftUnit(A, n, n);
  }
  /** Every intermediate state of the factorisation of the identity is (I, I). */
  lemma {:induction false} QRStateOfIdentity(n: nat, sqrt: real -> real, k: nat)
    requires k < n || k == 0
    requires IsSqrt(sqrt)
    ensures QRState(Identity(n), sqrt, k) == QRPair(Identity(n), Identity(n))
  {
    if k > 0 {
      QRStateOfIdentity(n, sqrt, k - 1);
      StepOfIdentity(n, k - 1, sqrt, QRState(Identity(n), sqrt, k - 1));
    }
  }

  /** A step applied to (I, I) gives (I, I). */
  lemma StepOfIdentity(n: nat, column: nat, sqrt: real -> real, s: QRPair)
    requires column < n && s == QRPair(Identity(n), Identity(n))
    requires IsSqrt(sqrt)
    ensures Step(s, column, sqrt) == s
  {
    HouseholderOfIdentity(n, column, sqrt);
    IdentityLeftUnit(Identity(n), n, n);
  }

  /** QR(I) = (I, I): every reflector applied to the identity is the identity. */
  lemma QRIdentity(n: nat, sqrt: real -> real)
    requires n > 0
    requires IsSqrt(sqrt)
    ensures Factor(Identity(n), sqrt) == QRPair(Identity(n), Identity(n))
  {
    QRStateOfIdentity(n, sqrt, n - 1);
    IdentitySymmetric(n);
    var s := QRState(Identity(n), sqrt, n - 1);
    assert Transposed(s.Q) == Identity(n);
  }
}
