/**
 Facts about integer division and multiplication that the solver does not find on its own, stated
 for the division of natural numbers.
 */
module Arithmetic {
  lemma DivDiv(n: nat, a: nat, b: nat)
    requires a > 0 && b > 0
    ensures a * b > 0 && n / a / b == n / (a * b)
  {
    MulMono(a, 1, b);
    DivParts(n, a);
    DivParts(n / a, b);
    DivDivOfParts(n, a, b, n % a, n / a / b, n / a % b);
  }

  lemma DivParts(n: nat, a: nat)
    requires a > 0
    ensures n == a * (n / a) + n % a && 0 <= n % a < a
  {
  }

  lemma DivDivOfParts(n: nat, a: nat, b: nat, s: nat, q: nat, r: nat)
    requires a > 0 && b > 0 && a * b > 0 && n == a * (b * q + r) + s && s < a && r < b
    ensures n / (a * b) == q
  {
    Regroup(a, b, q, r);
    MulMono(a, r, b - 1);
    QuotientIs(n, a * b, q, a * r + s);
  }

  lemma Regroup(a: int, b: int, q: int, r: int)
    ensures a * (b * q + r) == (a * b) * q + a * r && a * (b - 1) == a * b - a
  {
  }

  lemma MulMono(a: nat, x: int, y: int)
    requires x <= y
    ensures a * x <= a * y
  {
  }

  lemma QuotientIs(n: int, d: int, q: int, r: int)
    requires d > 0 && 0 <= r < d && n == d * q + r
    ensures n / d == q
  {
    var q' := n / d;
    assert n == d * q' + n % d;
    if q' < q {
      MulMono(d, q' + 1, q);
    } else if q' > q {
      MulMono(d, q + 1, q');
    }
  }

  lemma DivStep(n: nat, d: nat)
    requires d > 0
    ensures (n + d) / d == n / d + 1
  {
    DivParts(n, d);
    MulStep(d, n / d);
    QuotientIs(n + d, d, n / d + 1, n % d);
  }

  lemma MulStep(d: int, q: int)
    ensures d * (q + 1) == d * q + d
  {
  }

  lemma DivSmall(n: nat, d: nat)
    requires n < d
    ensures n / d == 0 && (n + d) / d == 1
  {
    QuotientIs(n, d, 0, n);
    DivStep(n, d);
  }
}
