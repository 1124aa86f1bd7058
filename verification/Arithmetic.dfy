/** Small facts about products, quotients, remainders and sizes that the solver needs spelled out. */
module Arithmetic {

  lemma MulGrows(d: nat, n: int)
    requires n >= 1
    ensures d * n >= d
  {
  }

  lemma Sandwich(d: nat, n: int)
    requires 0 - d < d * n < d
    ensures n == 0
  {
    if n >= 1 {
      MulGrows(d, n);
    } else if n <= -1 {
      MulGrows(d, -n);
    }
  }

  /** Quotient and remainder are the only way to write a number as a multiple and a rest. */
  lemma DivModUnique(x: nat, d: nat, q: int, r: int)
    requires d > 0 && x == d * q + r && 0 <= r < d
    ensures x / d == q && x % d == r
  {
    var n := x / d - q;
    assert d * n == r - x % d;
    Sandwich(d, n);
  }

  lemma ExactQuotient(q: nat, d: nat)
    requires d > 0
    ensures q * d / d == q
  {
    DivModUnique(q * d, d, q, 0);
  }

  lemma RemainderOfMultiple(a: nat, d: nat, m: nat)
    requires d > 0
    ensures (a + d * m) % d == a % d
  {
    var q := a / d + m;
    assert d * q == d * (a / d) + d * m;
    DivModUnique(a + d * m, d, q, a % d);
  }

  lemma MulMonotone(a: nat, b: nat, c: nat)
    requires a <= b
    ensures a * c <= b * c && c * a <= c * b
  {
  }

  lemma CancelFactor(a: nat, b: nat, p: nat)
    requires p > 0
    ensures a * p <= b * p ==> a <= b
    ensures a * p < b * p ==> a < b
  {
    if a >= b { MulMonotone(b, a, p); }
    if a > b { MulMonotone(b + 1, a, p); }
  }

  lemma SubsetSize<T>(a: set<T>, b: set<T>)
    requires a <= b
    ensures |a| <= |b| && (|a| == |b| ==> a == b)
  {
    assert b == a + (b - a) && |b| == |a| + |b - a|;
  }
}
