/** Exact combinations and permutations: the loops the command-line tools fall back on when Python's
    math module lacks them. */
module Binomials {
  import opened Arithmetic

  /** Pascal's rule, for all integers. */
  function Binomial(n: int, k: int): nat
    decreases if n < 0 then 0 else n
  {
    if k < 0 || k > n then 0
    else if k == 0 || k == n then 1
    else Binomial(n - 1, k - 1) + Binomial(n - 1, k)
  }

  function Factorial(n: nat): (f: nat)
    ensures f > 0
  {
    if n == 0 then 1 else n * Factorial(n - 1)
  }

  /** n * (n - 1) * ... with k factors. */
  function Falling(n: int, k: nat): int {
    if k == 0 then 1 else Falling(n, k - 1) * (n - k + 1)
  }

  lemma {:induction false} FallingFirst(n: int, k: nat)
    requires k > 0
    ensures Falling(n, k) == n * Falling(n - 1, k - 1)
  {
    if k > 1 {
      FallingFirst(n, k - 1);
      var f := Falling(n - 1, k - 2);
      assert Falling(n, k) == n * f * (n - k + 1);
      assert Falling(n - 1, k - 1) == f * (n - k + 1);
      MulAssociative(n, f, n - k + 1);
    }
  }

  lemma {:induction false} FallingAll(n: nat)
    ensures Falling(n, n) == Factorial(n)
  {
    if n > 0 {
      FallingFirst(n, n);
      FallingAll(n - 1);
    }
  }

  /** The falling factorial is exactly the binomial times k!. */
  lemma {:induction false} FallingIsBinomialTimesFactorial(n: nat, k: nat)
    requires k <= n
    ensures Falling(n, k) == Binomial(n, k) * Factorial(k)
  {
    if k == n {
      FallingAll(n);
    } else if k > 0 {
      FallingFirst(n, k);
      FallingIsBinomialTimesFactorial(n - 1, k - 1);
      FallingIsBinomialTimesFactorial(n - 1, k);
      var f, b, c, g := Falling(n - 1, k - 1), Binomial(n - 1, k - 1), Binomial(n - 1, k), Factorial(k - 1);
      assert Falling(n - 1, k) == f * (n - k);
      Distribute(n, k, f, b, c, g);
    }
  }

  lemma Distribute(n: int, k: int, f: int, b: int, c: int, g: int)
    requires f == b * g && f * (n - k) == c * (k * g)
    ensures n * f == (b + c) * (k * g)
  {
    calc {
      (b + c) * (k * g);
      b * (k * g) + c * (k * g);
      { assert b * (k * g) == k * (b * g); }
      k * f + f * (n - k);
      n * f;
    }
  }

  lemma {:induction false} BinomialSymmetric(n: nat, k: nat)
    requires k <= n
    ensures Binomial(n, k) == Binomial(n, n - k)
  {
    if 0 < k < n {
      BinomialSymmetric(n - 1, k - 1);
      BinomialSymmetric(n - 1, k);
    }
  }

  method ComputeFactorial(n: nat) returns (f: nat)
    ensures f == Factorial(n)
  {
    f := 1;
    for i := 0 to n
      invariant f == Factorial(i)
    {
      f := (i + 1) * f;
    }
  }

  /** `combs` without math.comb, for all integers: the division leaves no remainder, and choosing the
      smaller of k and n - k changes nothing. */
  method Combs(total: int, choice: int) returns (r: nat)
    ensures r == Binomial(total, choice)
  {
    if choice < 0 || choice > total {
      return 0;
    }
    if choice == 0 || choice == total {
      return 1;
    }
    var k := choice;
    if k > total / 2 {
      k := total - k;
      BinomialSymmetric(total, choice);
    }
    var numerator := 1;
    var i := total;
    while i > total - k
      invariant total - k <= i <= total
      invariant numerator == Falling(total, total - i)
    {
      numerator := numerator * i;
      i := i - 1;
    }
    var denominator := ComputeFactorial(k);
    FallingIsBinomialTimesFactorial(total, k);
    DivisionIsUnique(numerator, Binomial(total, k), 0, denominator);
    assert numerator % denominator == 0;
    r := numerator / denominator;
  }

  /** `perms` without math.perm: the falling factorial, zero outside 0..total. */
  method Perms(total: int, choice: int) returns (r: int)
    ensures choice < 0 || choice > total ==> r == 0
    ensures 0 <= choice <= total ==> r == Binomial(total, choice) * Factorial(choice)
    ensures 0 <= choice <= total ==> r * Factorial(total - choice) == Factorial(total)
  {
    if choice < 0 || choice > total {
      return 0;
    }
    r := 1;
    for x := 0 to choice
      invariant r == Falling(total, x)
    {
      r := r * (total - x);
    }
    FallingIsBinomialTimesFactorial(total, choice);
    FallingSplit(total, choice);
  }

  /** n! in two steps: the first k factors, then the others. */
  lemma {:induction false} FallingSplit(n: nat, k: nat)
    requires k <= n
    ensures Falling(n, k) * Factorial(n - k) == Factorial(n)
  {
    if k > 0 {
      FallingFirst(n, k);
      FallingSplit(n - 1, k - 1);
      MulAssociative(n, Falling(n - 1, k - 1), Factorial(n - k));
    }
  }

  /** Both tools at once: n! / (k! (n - k)!) without division. */
  lemma BinomialOfFactorials(n: nat, k: nat)
    requires k <= n
    ensures Binomial(n, k) * Factorial(k) * Factorial(n - k) == Factorial(n)
  {
    FallingIsBinomialTimesFactorial(n, k);
    FallingSplit(n, k);
  }
}
