/** The size of a machine word, and division facts that the solver does not find on its own. */
module Arithmetic {

  const UINT64: nat := 0x1_0000_0000_0000_0000

  lemma Grows(n: nat, a: int, b: int)
    requires a <= b
    ensures n * a <= n * b
  {
  }

  /** Quotient and remainder are unique. */
  lemma Quotient(x: int, n: int, q: int, r: int)
    requires x == n * q + r && 0 <= r < n
    ensures x / n == q && x % n == r
  {
    var d := x / n - q;
    assert n * d == n * (x / n) - n * q;
    assert n * d == r - x % n;
    if d >= 1 {
      Grows(n, 1, d);
    } else if d <= -1 {
      Grows(n, d, -1);
    }
  }

  /** Dividing by a product is dividing twice. */
  lemma DivideTwice(x: nat, a: nat, b: nat)
    requires a > 0 && b > 0
    ensures a * b > 0 && x / (a * b) == x / a / b
  {
    var q, r, s := x / a / b, x / a % b, x % a;
    assert x == a * (b * q + r) + s;
    assert a * (b * q + r) == (a * b) * q + a * r;
    Grows(a, r, b - 1);
    assert a * (b - 1) == a * b - a;
    assert a * r >= 0;
    Quotient(x, a * b, q, a * r + s);
  }
}
