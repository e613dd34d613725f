/** `Calculator::factorial`: `(1..=n).product()` over `u64`. */
module Factorial {
  import Decimal

  /** The product 1 * 2 * ... * n, multiplied left to right as the iterator folds it. */
  function Factorial(n: nat): (r: nat)
    ensures r >= 1
    ensures n >= 1 ==> r >= n
  {
    if n == 0 then 1 else Factorial(n - 1) * n
  }

  /** The `u64` the product yields: the true product reduced modulo 2^64, which is what
      wrapping multiplication (a release build) computes. */
  function FactorialU64(n: nat): (r: nat)
    ensures r < Decimal.U64_LIMIT
  {
    Factorial(n) % Decimal.U64_LIMIT
  }

  lemma FactorialExamples()
    ensures Factorial(0) == 1 && Factorial(5) == 120 && Factorial(10) == 3628800
  {
  }

  lemma FactorialRecurrence(n: nat)
    requires n >= 1
    ensures Factorial(n) == n * Factorial(n - 1)
  {
  }

  lemma {:induction false} FactorialMonotone(m: nat, n: nat)
    requires m <= n
    ensures Factorial(m) <= Factorial(n)
    decreases n - m
  {
    if m < n {
      FactorialMonotone(m, n - 1);
      MulGrows(Factorial(n - 1), n);
    }
  }

  lemma MulGrows(a: nat, b: nat)
    requires b >= 1
    ensures a <= a * b
  {
  }

  /** Up to 20! the product fits in a `u64`, so no wrap-around happens. */
  lemma FactorialFitsU64(n: nat)
    requires n <= 20
    ensures Factorial(n) < Decimal.U64_LIMIT
    ensures FactorialU64(n) == Factorial(n)
  {
    FactorialMonotone(n, 20);
    assert Factorial(10) == 3628800;
    assert Factorial(15) == 1307674368000;
    assert Factorial(20) == 2432902008176640000;
  }

  /** 21! no longer fits: from there on the `u64` result differs from n!. */
  lemma FactorialOverflowsAt21()
    ensures Factorial(21) >= Decimal.U64_LIMIT
    ensures FactorialU64(21) != Factorial(21)
  {
    assert Factorial(10) == 3628800;
    assert Factorial(15) == 1307674368000;
    assert Factorial(20) == 2432902008176640000;
    assert Factorial(21) == 51090942171709440000;
  }

  /** From 21 on no factorial fits: the `u64` result differs from n! for every n >= 21. */
  lemma FactorialOverflowsFrom21(n: nat)
    requires n >= 21
    ensures Factorial(n) >= Decimal.U64_LIMIT
    ensures FactorialU64(n) != Factorial(n)
  {
    FactorialOverflowsAt21();
    FactorialMonotone(21, n);
  }
}
