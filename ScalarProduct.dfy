/** scalVector(u, v), documented as the scalar product of u and v, and the
    scalar product it describes. */
module ScalarProduct {
  import opened Sums
  import opened Matrices
  import opened Norms

  /** The terms u[k] + v[k] that scalVector adds up. */
  function PairTerms(u: Vector, v: Vector): int -> real
  {
    k => AtV(u, k) + AtV(v, k)
  }

  /** The value scalVector computes: the sum over k < |u| of u[k] + v[k]. */
  function PairwiseSum(u: Vector, v: Vector): real
  {
    Sum(|u|, PairTerms(u, v))
  }

  /** The entries of v as sum terms. */
  function Entries(v: Vector): int -> real
  {
    k => AtV(v, k)
  }

  /** The terms u[k] * v[k] of the scalar product. */
  function DotTerms(u: Vector, v: Vector): int -> real
  {
    k => AtV(u, k) * AtV(v, k)
  }

  /** The scalar product u . v over the indices of u. */
  function Dot(u: Vector, v: Vector): real
  {
    Sum(|u|, DotTerms(u, v))
  }

  /** scalVector(u, v) as written: soma += u[i] + v[i] for each i < len(u). */
  method ScalVector(u: Vector, v: Vector) returns (soma: real)
    requires |u| <= |v|
    ensures soma == PairwiseSum(u, v)
  {
    soma := 0.0;
    for i := 0 to |u|
      invariant soma == Sum(i, PairTerms(u, v))
    {
      soma := soma + (u[i] + v[i]);
    }
  }

  /** scalVector with the scalar product it is documented to return:
      soma += u[i] * v[i]. */
  method DotProduct(u: Vector, v: Vector) returns (soma: real)
    requires |u| <= |v|
    ensures soma == Dot(u, v)
  {
    soma := 0.0;
    for i := 0 to |u|
      invariant soma == Sum(i, DotTerms(u, v))
    {
      soma := soma + u[i] * v[i];
    }
  }

  /** What scalVector computes is the sum of the entries of u plus the sum of
      the first |u| entries of v. */
  lemma PairwiseSumSplits(u: Vector, v: Vector)
    ensures PairwiseSum(u, v) == Sum(|u|, Entries(u)) + Sum(|u|, Entries(v))
  {
    SumLinear(|u|, 1.0, Entries(u), 1.0, Entries(v), PairTerms(u, v));
  }

  /** For u = v = [1] scalVector gives 2, while the scalar product is 1. */
  lemma PairwiseSumIsNotDot()
    ensures PairwiseSum([1.0], [1.0]) == 2.0
    ensures Dot([1.0], [1.0]) == 1.0
  {
    assert Sum(1, PairTerms([1.0], [1.0])) == Sum(0, PairTerms([1.0], [1.0])) + PairTerms([1.0], [1.0])(0);
    assert Sum(1, DotTerms([1.0], [1.0])) == Sum(0, DotTerms([1.0], [1.0])) + DotTerms([1.0], [1.0])(0);
  }

  /** The scalar product is symmetric on vectors of one length. */
  lemma DotSymmetric(u: Vector, v: Vector)
    requires |u| == |v|
    ensures Dot(u, v) == Dot(v, u)
  {
    SumExt(|u|, DotTerms(u, v), DotTerms(v, u));
  }

  /** v . v is the sum of squares under the square root of modulo(v). */
  lemma DotSelf(v: Vector, sqrt: real -> real)
    requires IsSqrt(sqrt)
    ensures Dot(v, v) == SumSq(v)
    ensures Norm(v, sqrt) * Norm(v, sqrt) == Dot(v, v)
  {
    SumExt(|v|, DotTerms(v, v), Squares(v));
    NormFacts(v, sqrt);
  }
}
