/** Finite sums of real terms, accumulated left to right as the loops of the
    factorisation accumulate them (`sum = 0; sum += t(0); sum += t(1); ...`). */
module Sums {

  /** f(0) + f(1) + ... + f(n - 1). */
  function Sum(n: nat, f: int -> real): real
  {
    SumUpTo(n, f)
  }

  /** The recursion behind Sum. Facts are stated about Sum, which is not
      recursive, so that a fact proved once is recognised where it is used. */
  function SumUpTo(n: nat, f: int -> real): real
  {
    if n == 0 then 0.0 else SumUpTo(n - 1, f) + f(n - 1)
  }

  /** Sums of terms that agree on the range agree. */
  lemma {:induction false} SumExt(n: nat, f: int -> real, g: int -> real)
    requires forall k :: 0 <= k < n ==> f(k) == g(k)
    ensures Sum(n, f) == Sum(n, g)
  {
    if n > 0 {
      SumExt(n - 1, f, g);
    }
  }

  /** A sum of zero terms is zero. */
  lemma {:induction false} SumZero(n: nat, f: int -> real)
    requires forall k :: 0 <= k < n ==> f(k) == 0.0
    ensures Sum(n, f) == 0.0
  {
    if n > 0 {
      SumZero(n - 1, f);
    }
  }

  /** On [0, n), h is the combination a*f + b*g. */
  predicate IsCombination(n: nat, a: real, f: int -> real, b: real, g: int -> real, h: int -> real)
  {
    forall k :: 0 <= k < n ==> h(k) == a * f(k) + b * g(k)
  }

  /** Linearity: the sum of a*f + b*g is a * Sum f + b * Sum g. */
  lemma {:induction false} SumLinear(n: nat, a: real, f: int -> real, b: real, g: int -> real, h: int -> real)
    requires IsCombination(n, a, f, b, g, h)
    ensures Sum(n, h) == a * Sum(n, f) + b * Sum(n, g)
  {
    if n > 0 {
      SumLinear(n - 1, a, f, b, g, h);
      calc {
        Sum(n, h);
        Sum(n - 1, h) + h(n - 1);
        (a * Sum(n - 1, f) + b * Sum(n - 1, g)) + (a * f(n - 1) + b * g(n - 1));
        a * (Sum(n - 1, f) + f(n - 1)) + b * (Sum(n - 1, g) + g(n - 1));
      }
    }
  }

  /** Scaling every term scales the sum. */
  lemma SumScale(n: nat, c: real, f: int -> real, g: int -> real)
    requires forall k :: 0 <= k < n ==> g(k) == c * f(k)
    ensures Sum(n, g) == c * Sum(n, f)
  {
    SumLinear(n, c, f, 0.0, f, g);
  }

  /** When only the term at index i can be non-zero, the sum is that term. */
  lemma {:induction false} SumSingle(n: nat, f: int -> real, i: int)
    requires 0 <= i < n
    requires forall k :: 0 <= k < n && k != i ==> f(k) == 0.0
    ensures Sum(n, f) == f(i)
  {
    if i == n - 1 {
      SumZero(n - 1, f);
    } else {
      SumSingle(n - 1, f, i);
    }
  }

  /** A sum of non-negative terms is non-negative, and it is zero only when
      every term is zero. */
  lemma {:induction false} SumNonNegative(n: nat, f: int -> real)
    requires forall k :: 0 <= k < n ==> f(k) >= 0.0
    ensures Sum(n, f) >= 0.0
    ensures Sum(n, f) == 0.0 ==> forall k :: 0 <= k < n ==> f(k) == 0.0
  {
    if n > 0 {
      SumNonNegative(n - 1, f);
    }
  }

  /** Splitting the range [0, c + m) into [0, c) and [c, c + m). */
  lemma {:induction false} SumSplit(c: nat, m: nat, f: int -> real, g: int -> real)
    requires forall k :: 0 <= k < m ==> g(k) == f(c + k)
    ensures Sum(c + m, f) == Sum(c, f) + Sum(m, g)
  {
    if m > 0 {
      SumSplit(c, m - 1, f, g);
    }
  }

  /** The function giving, for each i, the sum of the i-th family of terms. */
  function RowSums(m: nat, F: int -> int -> real): int -> real
  {
    i => Sum(m, F(i))
  }

  /** Exchanging the order of a double sum: when G(j)(i) == F(i)(j) on the
      rectangle, summing F by rows gives the same as summing G by rows. */
  lemma {:induction false} SumSwap(n: nat, m: nat, F: int -> int -> real, G: int -> int -> real)
    requires forall i, j :: 0 <= i < n && 0 <= j < m ==> G(j)(i) == F(i)(j)
    ensures Sum(n, RowSums(m, F)) == Sum(m, RowSums(n, G))
  {
    if n > 0 {
      SumSwap(n - 1, m, F, G);
      forall j | 0 <= j < m
        ensures RowSums(n, G)(j) == 1.0 * RowSums(n - 1, G)(j) + 1.0 * F(n - 1)(j)
      {
      }
      SumLinear(m, 1.0, RowSums(n - 1, G), 1.0, F(n - 1), RowSums(n, G));
      calc {
        Sum(n, RowSums(m, F));
        Sum(n - 1, RowSums(m, F)) + RowSums(m, F)(n - 1);
        Sum(m, RowSums(n - 1, G)) + Sum(m, F(n - 1));
        Sum(m, RowSums(n, G));
      }
    } else {
      forall j | 0 <= j < m
        ensures RowSums(n, G)(j) == 0.0
      {
        assert RowSums(n, G)(j) == Sum(0, G(j));
      }
      SumZero(m, RowSums(n, G));
    }
  }
}
