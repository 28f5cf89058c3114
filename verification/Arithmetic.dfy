/** Facts of integer arithmetic that the solver needs spelled out. */
module Arithmetic {
  function Min(a: nat, b: nat): nat { if a < b then a else b }

  lemma AtLeast(a: int, d: nat)
    requires a >= 1
    ensures a * d >= d
  {
    assert (a - 1) * d >= 0;
    assert a * d == (a - 1) * d + d;
  }

  /** Quotient and remainder are determined by the division equation. */
  lemma DivisionIsUnique(x: nat, q: int, r: nat, n: nat)
    requires n > 0 && x == q * n + r && r < n
    ensures x / n == q && x % n == r
  {
    var diff := x / n - q;
    assert diff * n == r - x % n;
    if diff >= 1 {
      AtLeast(diff, n);
    } else if diff <= -1 {
      AtLeast(-diff, n);
    }
  }

  lemma ModStep(k: nat, n: nat)
    requires n > 0
    ensures (k + 1) % n == if k % n + 1 == n then 0 else k % n + 1
  {
    var q, r := k / n, k % n;
    if r + 1 == n {
      assert k + 1 == (q + 1) * n;
      DivisionIsUnique(k + 1, q + 1, 0, n);
    } else {
      DivisionIsUnique(k + 1, q, r + 1, n);
    }
  }

  lemma WrapStep(k: nat, n: nat)
    requires k < n
    ensures (k + 1) % n == if k + 1 == n then 0 else k + 1
  {
    DivisionIsUnique(k + 1, if k + 1 == n then 1 else 0, if k + 1 == n then 0 else k + 1, n);
  }

  lemma MulAssociative(a: int, b: int, c: int)
    ensures a * b * c == a * (b * c)
  {
  }

  lemma MulMono(m: nat, a: nat, b: nat)
    requires a <= b
    ensures m * a <= m * b
  {
    assert m * b == m * a + m * (b - a);
  }
}
