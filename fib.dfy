/**
 * The offset Fibonacci numbers of myning/utilities/fib.py: the sequence
 * 0, 1, 3, 5, 8, 13, …, seeded by its first four terms and continued by the
 * Fibonacci recurrence, and the sums of its first terms.
 */
module Fib {
  /** The `n`th term, counting from 1. */
  function Fib(n: nat): nat
    requires n >= 1
  {
    if n == 1 then 0
    else if n == 2 then 1
    else if n == 3 then 3
    else if n == 4 then 5
    else Fib(n - 1) + Fib(n - 2)
  }

  /** The sum of the first `n` terms; no terms for `n <= 0`. */
  function FibSum(n: int): nat
    decreases if n <= 0 then 0 else n
  {
    if n <= 0 then 0 else FibSum(n - 1) + Fib(n)
  }

  /** The usual Fibonacci numbers, 0, 1, 1, 2, 3, 5, …, as a reference. */
  function StandardFib(n: nat): nat {
    if n < 2 then n else StandardFib(n - 1) + StandardFib(n - 2)
  }

  /** From the third term on, the sequence is the usual one shifted by one place. */
  lemma {:induction false} ShiftedFibonacci(n: nat)
    requires n >= 3
    ensures Fib(n) == StandardFib(n + 1)
  {
    if n == 3 || n == 4 {
      assert StandardFib(2) == 1 && StandardFib(3) == 2 && StandardFib(4) == 3 && StandardFib(5) == 5;
    } else {
      ShiftedFibonacci(n - 1);
      ShiftedFibonacci(n - 2);
    }
  }

  /** The terms strictly increase. */
  lemma {:induction false} FibIncreasing(n: nat)
    requires n >= 1
    ensures Fib(n) < Fib(n + 1)
  {
    if n >= 4 {
      FibIncreasing(n - 1);
    }
  }

  /** From two terms on, the sum of the first `n` terms is the (n+2)th term less 4. */
  lemma {:induction false} FibSumClosedForm(n: nat)
    requires n >= 2
    ensures FibSum(n) + 4 == Fib(n + 2)
  {
    if n == 2 {
      assert FibSum(1) == 0;
    } else {
      FibSumClosedForm(n - 1);
    }
  }

  /**
   * `fibonacci(n)`: the four seeds, then `n - 4` turns of the recurrence; for
   * `n <= 0` the loop does not run and the fourth seed is returned.
   */
  method Fibonacci(n: int) returns (r: nat)
    ensures n >= 1 ==> r == Fib(n)
    ensures n <= 0 ==> r == 5
  {
    if n == 1 {
      return 0;
    } else if n == 2 {
      return 1;
    } else if n == 3 {
      return 3;
    } else if n == 4 {
      return 5;
    }
    var a, b := 3, 5;
    var k := 0;
    while k < n - 4
      invariant 0 <= k && (n >= 5 ==> k <= n - 4) && (n <= 0 ==> k == 0)
      invariant a == Fib(k + 3) && b == Fib(k + 4)
      decreases n - 4 - k
    {
      a, b := b, a + b;
      k := k + 1;
    }
    return b;
  }

  /** `fibonacci_sum(n)`: the sum of the first `n` terms. */
  method FibonacciSum(n: int) returns (total: nat)
    ensures total == FibSum(n)
  {
    if n <= 0 {
      return 0;
    }
    var base := [0, 1, 3, 5];
    total := 0;
    var m := if n < 4 then n else 4;
    for i := 0 to m
      invariant total == FibSum(i)
    {
      total := total + base[i];
    }
    if n <= 4 {
      return total;
    }
    var a, b := 3, 5;
    for k := 0 to n - 4
      invariant a == Fib(k + 3) && b == Fib(k + 4)
      invariant total == FibSum(k + 4)
    {
      a, b := b, a + b;
      total := total + b;
    }
  }
}
