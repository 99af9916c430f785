/** The unshifted QR algorithm: eigvalues(A, n) factors X = Q.R and replaces X
    by R.Q, n times; eigvector(A, n) does the same and accumulates the Q's in V. */
module Eigen {
  import opened Matrices
  import opened Norms
  import opened QRFactor

  /** The iterate X_k and the accumulated product V_k = Q_1 ... Q_k. */
  datatype EigPair = EigPair(X: Matrix, V: Matrix)

  /** One iteration: QR(X) = (Q, R), then X := R.Q and V := V.Q. */
  function EigStep(p: EigPair, sqrt: real -> real): (q: EigPair)
    requires |p.X| > 0
    ensures |q.X| == |p.X|
  {
    var F := Factor(p.X, sqrt);
    EigPair(Product(F.R, F.Q), Product(p.V, F.Q))
  }

  /** The state after k iterations. Facts are stated about IterState, which is
      not recursive, so that a fact proved once is recognised where it is used. */
  function IterState(A: Matrix, sqrt: real -> real, k: nat): (p: EigPair)
    requires |A| > 0 || k == 0
    ensures |p.X| == |A|
  {
    IterAfter(A, sqrt, k)
  }

  /** The recursion behind IterState, which lemmas speak about (as for Sum). */
  function IterAfter(A: Matrix, sqrt: real -> real, k: nat): (p: EigPair)
    requires |A| > 0 || k == 0
    ensures |p.X| == |A|
  {
    if k == 0 then EigPair(A, Identity(|A|))
    else EigStep(IterAfter(A, sqrt, k - 1), sqrt)
  }

  /** What every iteration keeps: X is square, V is orthogonal and A.V = V.X,
      so that X = V^T.A.V is similar to A. */
  predicate Similar(A: Matrix, p: EigPair)
  {
    IsSquare(p.X, |A|) && IsOrthogonal(p.V, |A|) && Product(A, p.V) == Product(p.V, p.X)
  }

  /** eigvalues(A, n): X starts as a copy of A; each of the n iterations
      factors X and replaces it by R.Q. */
  method EigValues(A: Matrix, iterations: nat, sqrt: real -> real) returns (X: Matrix)
    requires IsSquare(A, |A|) && (|A| > 0 || iterations == 0)
    requires IsSqrt(sqrt)
    ensures X == IterState(A, sqrt, iterations).X
  {
    X := A;
    for i := 0 to iterations
      invariant X == IterState(A, sqrt, i).X
    {
      X := IterateValues(A, X, i, sqrt);
    }
  }

  /** The body of the loop of eigvalues. */
  method IterateValues(ghost A: Matrix, X: Matrix, i: nat, sqrt: real -> real) returns (X': Matrix)
    requires IsSquare(A, |A|) && |A| > 0
    requires X == IterState(A, sqrt, i).X
    requires IsSqrt(sqrt)
    ensures X' == IterState(A, sqrt, i + 1).X
  {
    IterStateSimilar(A, sqrt, i);
    var Q, R := QR(X, sqrt);
    var P := Multiply(R, Q);
    X' := P.value;
  }

  /** eigvector(A, n): the same iteration, with V := V.Q at each step starting
      from the identity, and moduloMat(V) returned. */
  method EigVector(A: Matrix, iterations: nat, sqrt: real -> real) returns (V: Matrix)
    requires |A| > 0 && IsSquare(A, |A|)
    requires IsSqrt(sqrt)
    ensures V == ColumnsNormalized(IterState(A, sqrt, iterations).V, sqrt)
    ensures V == IterState(A, sqrt, iterations).V
    ensures IsOrthogonal(V, |A|)
    ensures Product(A, V) == Product(V, IterState(A, sqrt, iterations).X)
  {
    var X := A;
    V := MakeId(|A|);
    for i := 0 to iterations
      invariant EigPair(X, V) == IterState(A, sqrt, i)
    {
      X, V := IterateVectors(A, X, V, i, sqrt);
    }
    IterStateSimilar(A, sqrt, iterations);
    ColumnsNormalizedOfOrthogonal(V, |A|, sqrt);
    V := ModuloMat(V, sqrt);
  }

  /** The body of the loop of eigvector. */
  method IterateVectors(ghost A: Matrix, X: Matrix, V: Matrix, i: nat, sqrt: real -> real)
    returns (X': Matrix, V': Matrix)
    requires IsSquare(A, |A|) && |A| > 0
    requires EigPair(X, V) == IterState(A, sqrt, i)
    requires IsSqrt(sqrt)
    ensures EigPair(X', V') == IterState(A, sqrt, i + 1)
  {
    IterStateSimilar(A, sqrt, i);
    var Q, R := QR(X, sqrt);
    var P := Multiply(R, Q);
    X' := P.value;
    var W := Multiply(V, Q);
    V' := W.value;
  }

  /** Every iterate is similar to A through the orthogonal V_k. */
  lemma {:induction false} IterStateSimilar(A: Matrix, sqrt: real -> real, k: nat)
    requires |A| > 0 && IsSquare(A, |A|)
    requires IsSqrt(sqrt)
    ensures Similar(A, IterState(A, sqrt, k))
  {
    if k == 0 {
      InitialSimilar(A);
    } else {
      IterStateSimilar(A, sqrt, k - 1);
      IterStateStep(A, sqrt, k);
      EigStepSimilar(A, IterState(A, sqrt, k - 1), sqrt);
    }
  }

  /** A is similar to itself through the identity. */
  lemma InitialSimilar(A: Matrix)
    requires |A| > 0 && IsSquare(A, |A|)
    ensures Similar(A, EigPair(A, Identity(|A|)))
  {
    var n := |A|;
    IdentityOrthogonal(n);
    IdentityLeftUnit(A, n, n);
    IdentityRightUnit(A, n, n);
  }

  /** Iterate k is one iteration applied to iterate k - 1. */
  lemma IterStateStep(A: Matrix, sqrt: real -> real, k: nat)
    requires |A| > 0 && k > 0
    ensures IterState(A, sqrt, k) == EigStep(IterState(A, sqrt, k - 1), sqrt)
  {
  }

  /** One iteration keeps the iterate similar to A. */
  lemma EigStepSimilar(A: Matrix, p: EigPair, sqrt: real -> real)
    requires |A| > 0 && IsSquare(A, |A|) && Similar(A, p)
    requires IsSqrt(sqrt)
    ensures Similar(A, EigStep(p, sqrt))
  {
    var n := |A|;
    FactorCorrect(p.X, sqrt);
    var F := Factor(p.X, sqrt);
    SimilarityStep(A, p.V, p.X, F.Q, F.R, n);
  }

  /** With A.V = V.X and X = Q.R for an orthogonal Q: A.(V.Q) = (V.Q).(R.Q),
      V.Q is orthogonal and R.Q is square. */
  lemma SimilarityStep(A: Matrix, V: Matrix, X: Matrix, Q: Matrix, R: Matrix, n: nat)
    requires IsSquare(A, n) && IsSquare(X, n) && IsSquare(R, n)
    requires IsOrthogonal(V, n) && IsOrthogonal(Q, n)
    requires Product(A, V) == Product(V, X) && Product(Q, R) == X
    ensures IsOrthogonal(Product(V, Q), n) && IsSquare(Product(R, Q), n)
    ensures Product(A, Product(V, Q)) == Product(Product(V, Q), Product(R, Q))
  {
    OrthogonalProduct(V, Q, n);
    ProductSquare(R, Q, n);
    calc {
      Product(A, Product(V, Q));
      { ProductAssociative(A, V, Q, n); }
      Product(Product(V, X), Q);
      { ProductAssociative(V, X, Q, n); }
      Product(V, Product(Product(Q, R), Q));
      { ProductAssociative(Q, R, Q, n); }
      Product(V, Product(Q, Product(R, Q)));
      { ProductAssociative(V, Q, Product(R, Q), n); }
      Product(Product(V, Q), Product(R, Q));
    }
  }

  /** X_k = V_k^T.A.V_k: the iterate is an orthogonal similarity transform of A,
      so it has the eigenvalues of A. */
  lemma IterateIsSimilarity(A: Matrix, sqrt: real -> real, k: nat)
    requires |A| > 0 && IsSquare(A, |A|)
    requires IsSqrt(sqrt)
    ensures IterState(A, sqrt, k).X == Product(Transposed(IterState(A, sqrt, k).V), Product(A, IterState(A, sqrt, k).V))
  {
    IterStateSimilar(A, sqrt, k);
    Conjugate(A, IterState(A, sqrt, k), |A|);
  }

  /** From A.V = V.X with V orthogonal: V^T.(A.V) = X. */
  lemma Conjugate(A: Matrix, p: EigPair, n: nat)
    requires n == |A| && IsSquare(A, n) && Similar(A, p)
    ensures p.X == Product(Transposed(p.V), Product(A, p.V))
  {
    var VT := Transposed(p.V);
    TransposedSquare(p.V, n);
    calc {
      Product(VT, Product(A, p.V));
      Product(VT, Product(p.V, p.X));
      { ProductAssociative(VT, p.V, p.X, n); }
      Product(Product(VT, p.V), p.X);
      Product(Identity(n), p.X);
      { IdentityLeftUnit(p.X, n, n); }
      p.X;
    }
  }

  /** For a symmetric A every iterate is symmetric. */
  lemma IterateSymmetric(A: Matrix, sqrt: real -> real, k: nat)
    requires |A| > 0 && IsSymmetric(A, |A|)
    requires IsSqrt(sqrt)
    ensures IsSymmetric(IterState(A, sqrt, k).X, |A|)
  {
    IterateIsSimilarity(A, sqrt, k);
    IterStateSimilar(A, sqrt, k);
    var p := IterState(A, sqrt, k);
    ConjugateSymmetric(A, p.V, |A|);
  }

  /** V^T.A.V is symmetric when A is. */
  lemma ConjugateSymmetric(A: Matrix, V: Matrix, n: nat)
    requires IsSymmetric(A, n) && IsSquare(V, n)
    ensures IsSymmetric(Product(Transposed(V), Product(A, V)), n)
  {
    var VT := Transposed(V);
    TransposedSquare(V, n);
    ProductSquare(A, V, n);
    ProductSquare(VT, Product(A, V), n);
    calc {
      Transposed(Product(VT, Product(A, V)));
      { TransposeProduct(VT, Product(A, V), n); }
      Product(Transposed(Product(A, V)), Transposed(VT));
      { TransposeProduct(A, V, n); TransposeInvolution(V, n); }
      Product(Product(VT, Transposed(A)), V);
      Product(Product(VT, A), V);
      { ProductAssociative(VT, A, V, n); }
      Product(VT, Product(A, V));
    }
  }
}
