/** Finite sums over the script's index lists, the `quicksum` of a list
    comprehension. A flattened two-level comprehension is a sum of sums. */
module Sums {

  /** The sum of `f` over the list `xs`, one term per position (a name that
      occurs twice in the list contributes twice, as in a list comprehension). */
  function Sum<T>(xs: seq<T>, f: T -> int): int
  {
    if |xs| == 0 then 0 else f(xs[0]) + Sum(xs[1..], f)
  }

  /** The number of positions of `xs` whose element satisfies `p`. */
  function Count<T>(xs: seq<T>, p: T -> bool): (n: nat)
    ensures n <= |xs|
    ensures n == 0 <==> forall i :: 0 <= i < |xs| ==> !p(xs[i])
  {
    if |xs| == 0 then 0 else (if p(xs[0]) then 1 else 0) + Count(xs[1..], p)
  }

  lemma {:induction false} SumNonNegative<T>(xs: seq<T>, f: T -> int)
    requires forall x :: x in xs ==> f(x) >= 0
    ensures Sum(xs, f) >= 0
  {
    if |xs| > 0 {
      SumNonNegative(xs[1..], f);
    }
  }

  lemma {:induction false} SumOfZeros<T>(xs: seq<T>, f: T -> int)
    requires forall x :: x in xs ==> f(x) == 0
    ensures Sum(xs, f) == 0
  {
    if |xs| > 0 {
      SumOfZeros(xs[1..], f);
    }
  }

  /** With non-negative terms, the sum bounds every single term. */
  lemma {:induction false} SumBoundsTerm<T>(xs: seq<T>, f: T -> int, i: int)
    requires forall x :: x in xs ==> f(x) >= 0
    requires 0 <= i < |xs|
    ensures Sum(xs, f) >= f(xs[i])
  {
    if i == 0 {
      SumNonNegative(xs[1..], f);
    } else {
      SumBoundsTerm(xs[1..], f, i - 1);
    }
  }

  /** With non-negative terms, the sum bounds the sum of any two terms taken
      at different positions. */
  lemma {:induction false} SumBoundsTwoTerms<T>(xs: seq<T>, f: T -> int, i: int, k: int)
    requires forall x :: x in xs ==> f(x) >= 0
    requires 0 <= i < |xs| && 0 <= k < |xs| && i != k
    ensures Sum(xs, f) >= f(xs[i]) + f(xs[k])
  {
    if i == 0 {
      SumBoundsTerm(xs[1..], f, k - 1);
    } else if k == 0 {
      SumBoundsTerm(xs[1..], f, i - 1);
    } else {
      SumBoundsTwoTerms(xs[1..], f, i - 1, k - 1);
    }
  }

  /** Sums of functions that agree on the list are equal. */
  lemma {:induction false} SumPointwise<T>(xs: seq<T>, f: T -> int, g: T -> int)
    requires forall x :: x in xs ==> f(x) == g(x)
    ensures Sum(xs, f) == Sum(xs, g)
  {
    if |xs| > 0 {
      SumPointwise(xs[1..], f, g);
    }
  }

  /** A common factor of every term comes out of the sum. */
  lemma {:induction false} SumScale<T>(xs: seq<T>, f: T -> int, g: T -> int, c: int)
    requires forall x :: x in xs ==> f(x) == c * g(x)
    ensures Sum(xs, f) == c * Sum(xs, g)
  {
    if |xs| > 0 {
      SumScale(xs[1..], f, g, c);
    }
  }

  /** A sum of 0/1 terms counts the positions whose term is 1. */
  lemma {:induction false} SumOfBinaryIsCount<T>(xs: seq<T>, f: T -> int, p: T -> bool)
    requires forall x :: x in xs ==> (f(x) == 0 || f(x) == 1) && (p(x) <==> f(x) == 1)
    ensures Sum(xs, f) == Count(xs, p)
  {
    if |xs| > 0 {
      SumOfBinaryIsCount(xs[1..], f, p);
    }
  }

  /** Counts of predicates that agree on the list are equal. */
  lemma {:induction false} CountPointwise<T>(xs: seq<T>, p: T -> bool, p': T -> bool)
    requires forall x :: x in xs ==> (p(x) <==> p'(x))
    ensures Count(xs, p) == Count(xs, p')
  {
    if |xs| > 0 {
      CountPointwise(xs[1..], p, p');
    }
  }

  lemma SumSingleton<T>(x: T, f: T -> int)
    ensures Sum([x], f) == f(x)
  {
    assert [x][1..] == [];
  }
}
