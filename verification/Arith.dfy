/** Products and quotients of natural numbers. */
module Arith {

  lemma Scale(n: nat, a: nat, b: nat)
    requires a <= b
    ensures n * a <= n * b
  {
    assert n * b == n * a + n * (b - a);
  }

  lemma Successor(n: nat, a: nat)
    ensures (n + 1) * a == n * a + a
  {
  }

  lemma TimesMonotone(a: int, b: int, n: nat)
    requires a <= b
    ensures a * n <= b * n
  {
    assert b * n - a * n == (b - a) * n;
  }

  lemma SquareMonotone(a: nat, b: nat)
    requires a <= b
    ensures a * a <= b * b
  {
    assert b * b - a * a == (b - a) * (b + a);
  }

  /** Cancelling a positive factor. */
  lemma AtMost(n: nat, a: nat, b: nat)
    requires n > 0 && n * a < n * b + n
    ensures a <= b
  {
    assert n * (b + 1) == n * b + n;
    if a > b {
      Scale(n, b + 1, a);
    }
  }

  lemma DivisionBelow(total: nat, n: nat)
    requires n > 0
    ensures n * (total / n) <= total < n * (total / n + 1)
  {
    assert total == n * (total / n) + total % n;
    assert n * (total / n + 1) == n * (total / n) + n;
  }

  lemma QuotientAtLeast(n: nat, q: nat, total: nat)
    requires n > 0 && n * q <= total
    ensures q <= total / n
  {
    var r := total / n;
    DivisionBelow(total, n);
    assert n * (r + 1) == n * r + n;
    AtMost(n, q, r);
  }

  lemma QuotientAtMost(n: nat, q: nat, total: nat)
    requires n > 0 && total < n * q + n
    ensures total / n <= q
  {
    var r := total / n;
    DivisionBelow(total, n);
    AtMost(n, r, q);
  }

  lemma QuotientAntitone(total: nat, a: nat, b: nat)
    requires 0 < a <= b
    ensures total / b <= total / a
  {
    var q := total / b;
    DivisionBelow(total, b);
    Scale(q, a, b);
    QuotientAtLeast(a, q, total);
  }
}
