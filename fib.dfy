/**
 * The plain recursive Fibonacci program that serves as the simulator's
 * reference: `fib(n, d)` returns the value and, as side effects, counts its
 * calls in the global `calls` and records the deepest base case in `maxd`.
 */
module FibOracle {

  function Max(a: int, b: int): int
  {
    if a < b then b else a
  }

  /** The value `fib(n, d)` returns (the depth `d` does not affect it). */
  function Fib(n: int): int
    decreases n
  {
    if n <= 1 then n else Fib(n - 1) + Fib(n - 2)
  }

  /** How much one call `fib(n, d)` adds to `calls`. */
  function Calls(n: int): int
    decreases n
  {
    if n <= 1 then 1 else 1 + Calls(n - 1) + Calls(n - 2)
  }

  /** The largest `d` at which a base case of `fib(n, d)` runs. */
  function LeafDepth(n: int, d: int): int
    decreases n
  {
    if n <= 1 then d else Max(LeafDepth(n - 1, d + 1), LeafDepth(n - 2, d + 1))
  }

  /** An independent, linear definition of the Fibonacci pair (F(k), F(k+1)). */
  function FibPair(k: nat): (int, int)
  {
    if k == 0 then (0, 1) else var p := FibPair(k - 1); (p.1, p.0 + p.1)
  }

  /** The Fibonacci numbers with F(0) = 0 and F(1) = 1. */
  function F(k: nat): int
  {
    FibPair(k).0
  }

  /** `fib(n)` is the n-th Fibonacci number. */
  lemma {:induction false} FibIsFibonacci(n: nat)
    ensures Fib(n) == F(n)
    ensures Fib(n + 1) == FibPair(n).1
  {
    if n > 0 {
      FibIsFibonacci(n - 1);
    }
  }

  /** For non-negative `n` the value is non-negative, and below 2 it is `n` itself. */
  lemma {:induction false} FibNonNegative(n: int)
    requires 0 <= n
    ensures 0 <= Fib(n)
    ensures 2 <= n ==> 1 <= Fib(n)
    decreases n
  {
    if 2 <= n {
      FibNonNegative(n - 1);
      FibNonNegative(n - 2);
    }
  }

  /** The call-count law: C(n) = 2 F(n+1) - 1. */
  lemma {:induction false} CallsClosedForm(n: int)
    requires 0 <= n
    ensures Calls(n) == 2 * Fib(n + 1) - 1
    decreases n
  {
    if 2 <= n {
      CallsClosedForm(n - 1);
      CallsClosedForm(n - 2);
    }
  }

  /** Every call counts at least itself. */
  lemma {:induction false} CallsPositive(n: int)
    ensures 1 <= Calls(n)
    decreases n
  {
    if 1 < n {
      CallsPositive(n - 1);
      CallsPositive(n - 2);
    }
  }

  /** The depth law: the deepest base case lies n - 1 levels below the first call. */
  lemma {:induction false} LeafDepthClosedForm(n: int, d: int)
    ensures LeafDepth(n, d) == d + Max(n - 1, 0)
    decreases n
  {
    if 1 < n {
      LeafDepthClosedForm(n - 1, d + 1);
      LeafDepthClosedForm(n - 2, d + 1);
    }
  }

  /** The global counters of the program. */
  class Globals {
    var maxd: int
    var calls: int

    constructor ()
      ensures maxd == 0 && calls == 0
    {
      maxd := 0;
      calls := 0;
    }

    /**
     * `fib(n, d)`: each call increments `calls`, and each base case raises
     * `maxd` to its depth.  `calls` strictly grows and `maxd` never falls.
     */
    method CountedFib(n: int, d: int) returns (r: int)
      modifies this
      ensures r == Fib(n)
      ensures calls == old(calls) + Calls(n)
      ensures maxd == Max(old(maxd), LeafDepth(n, d))
      ensures calls > old(calls) && maxd >= old(maxd)
      decreases n
    {
      calls := calls + 1;
      if n <= 1 {
        if d > maxd {
          maxd := d;
        }
        return n;
      }
      var r1 := CountedFib(n - 1, d + 1);
      var r2 := CountedFib(n - 2, d + 1);
      r := r1 + r2;
      CallsPositive(n - 1);
      CallsPositive(n - 2);
    }
  }

  /**
   * `main` of the reference program, with `n` already parsed: it resets the
   * counters, calls `fib(n)` at depth 1 and reports the value, the number of
   * calls and the maximum depth.
   */
  method FibMain(n: int) returns (a: int, calls: int, maxd: int)
    ensures a == Fib(n)
    ensures calls == Calls(n) && maxd == LeafDepth(n, 1)
    ensures 0 <= n ==> calls == 2 * F(n + 1) - 1
    ensures maxd == Max(n, 1)
  {
    var g := new Globals();
    a := g.CountedFib(n, 1);
    calls, maxd := g.calls, g.maxd;
    LeafDepthClosedForm(n, 1);
    assert maxd == Max(n, 1);
    if 0 <= n {
      CallsClosedForm(n);
      FibIsFibonacci(n + 1);
      assert Fib(n + 1) == F(n + 1);
    }
  }
}
