/** Integer division facts the solver needs one at a time. */
module Arith {

  lemma MultipleBounds(z: int, n: int)
    requires n > 0
    ensures z <= 0 ==> z * n <= 0
    ensures z >= 1 ==> z * n >= n
    ensures z <= -1 ==> z * n <= -n
  {}

  lemma Times(a: int, b: int, c: int)
    ensures a * (b * c) == (a * b) * c == (a * c) * b
    ensures (a + b) * c == a * c + b * c && (a - b) * c == a * c - b * c
  {}

  lemma ScaledLe(x: nat, y: nat, z: nat)
    requires x <= y
    ensures x * z <= y * z
  {}

  /** Quotient and remainder are the only pair of their kind. */
  lemma QuotientOf(x: int, n: int, q: int, r: int)
    requires x == q * n + r && 0 <= r < n
    ensures q == x / n && r == x % n
  {
    Times(x / n, q, n);
    MultipleBounds(x / n - q, n);
  }

  lemma SameRemainder(a: int, b: int, k: int, n: int)
    requires n > 0 && a - b == k * n
    ensures a % n == b % n
  {
    Times(b / n, k, n);
    QuotientOf(a, n, b / n + k, b % n);
  }

  lemma SmallRemainder(x: int, n: int)
    requires 0 <= x < n
    ensures x % n == x
  {}

  lemma QuotientLe(x: nat, y: nat, n: nat)
    requires n > 0 && x <= y
    ensures x / n <= y / n
  {
    Times(x / n, y / n, n);
    MultipleBounds(x / n - y / n, n);
  }

  function CeilDiv(a: nat, b: nat): nat
    requires b > 0
  {
    (a + b - 1) / b
  }

  /** q is a / b, rounded up. */
  predicate IsCeiling(q: nat, a: nat, b: nat) {
    (q - 1) * b < a <= q * b
  }

  lemma CeilDivIs(q: nat, a: nat, b: nat)
    requires b > 0
    ensures q == CeilDiv(a, b) <==> IsCeiling(q, a, b)
  {
    var c := CeilDiv(a, b);
    Times(c, 1, b);
    Times(q, 1, b);
    assert a + b - 1 == c * b + (a + b - 1) % b;
    if IsCeiling(q, a, b) {
      QuotientOf(a + b - 1, b, q, a + b - 1 - q * b);
    }
  }

  lemma CeilBelow(a: nat, b: nat, q: nat)
    requires b > 0 && a <= q * b
    ensures CeilDiv(a, b) <= q
  {
    QuotientLe(a + b - 1, q * b + b - 1, b);
    QuotientOf(q * b + b - 1, b, q, b - 1);
  }

  lemma QuotientScaled(x: nat, m: nat, k: nat)
    requires m > 0 && k > 0
    ensures m * k > 0 && (x * k) / (m * k) == x / m
  {
    var q, r := x / m, x % m;
    MultipleBounds(m, k);
    Times(q, m, k);
    Times(q * m, r, k);
    MultipleBounds(m - r, k);
    Times(m, r, k);
    QuotientOf(x * k, m * k, q, r * k);
  }
}
