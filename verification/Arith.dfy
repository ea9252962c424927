/** Facts about products and quotients that the solver is not left to find. */
module Arith {

  lemma Associates(x: int, y: int, z: int)
    ensures x * (y * z) == x * y * z
  {
  }

  lemma MulMonotone(a: nat, b: nat, x: nat, y: nat)
    requires a <= b && x <= y
    ensures a * x <= b * y
  {
    assert a * x <= b * x;
    assert b * x <= b * y;
  }

  lemma Commutes(x: int, y: int)
    ensures x * y == y * x
  {
  }

  lemma CancelFactor(x: nat, y: nat, p: nat)
    requires p > 0 && x * p <= y * p
    ensures x <= y
  {
    assert (y + 1) * p == y * p + p;
    if x > y {
      MulMonotone(y + 1, x, p, p);
    }
  }

  lemma CancelFactorLeft(x: nat, y: nat, p: nat)
    requires p > 0 && p * x <= p * y
    ensures x <= y
  {
    CancelFactor(x, y, p);
  }

  lemma FloorTimes(x: nat, p: nat)
    requires p > 0
    ensures x / p * p <= x < (x / p + 1) * p
  {
    assert (x / p + 1) * p == x / p * p + p;
  }

  /** Quotient and remainder are unique. */
  lemma QuotientIs(n: nat, d: nat, q: nat, r: nat)
    requires d > 0 && n == q * d + r && r < d
    ensures n / d == q && n % d == r
  {
    var q', r' := n / d, n % d;
    assert n == q' * d + r' && 0 <= r' < d;
    assert (q + 1) * d == q * d + d && (q' + 1) * d == q' * d + d;
    if q' > q {
      MulMonotone(q + 1, q', d, d);
    } else if q' < q {
      MulMonotone(q' + 1, q, d, d);
    }
  }

  /** Dividing twice is dividing once by the product. */
  lemma QuotientOfQuotient(n: nat, p: nat, k: nat)
    requires p > 0 && k > 0
    ensures k * p > 0 && n / p / k == n / (k * p)
  {
    MulMonotone(1, k, 1, p);
    var a, b := n / p, n % p;
    var q, c := a / k, a % k;
    assert n == a * p + b && a == q * k + c;
    Regroup(n, p, k, a, b, q, c);
    QuotientIs(n, k * p, q, c * p + b);
  }

  lemma Regroup(n: nat, p: nat, k: nat, a: nat, b: nat, q: nat, c: nat)
    requires n == a * p + b && b < p && a == q * k + c && c < k
    ensures n == q * (k * p) + (c * p + b) && c * p + b < k * p
  {
    assert (q * k + c) * p == q * (k * p) + c * p;
    MulMonotone(c + 1, k, p, p);
    assert (c + 1) * p == c * p + p;
  }
}
