/** Facts about integer division and multiplication that the payout and sampling proofs share. */
module Arith {

  /** Writing v as q * range + k with 0 <= k < range fixes both quotient and remainder. */
  lemma DivModOfBlock(q: int, range: nat, k: nat, v: int)
    requires k < range && v == q * range + k
    ensures v / range == q && v % range == k
  {
    var d, r := v / range, v % range;
    assert (d - q) * range == k - r;
    assert d == q by {
      if d - q >= 1 {
        MulAtLeast(d - q, range);
      } else if q - d >= 1 {
        MulAtLeast(q - d, range);
      }
    }
  }

  lemma ExactQuotient(c: int, d: int)
    requires d > 0 && c % d == 0
    ensures c == (c / d) * d
    ensures c >= 0 ==> c / d >= 0
  {
  }

  lemma MulAtLeast(a: int, b: nat)
    requires a >= 1
    ensures a * b >= b
  {
    assert a * b == (a - 1) * b + b;
  }

  /** Integer division by a positive divisor is the floor of the exact quotient. */
  lemma FloorOfQuotient(n: int, d: int)
    requires d > 0
    ensures (n / d) as real <= n as real / d as real < (n / d) as real + 1.0
  {
    var q, r := n / d, n % d;
    assert n as real == q as real * d as real + r as real;
    assert n as real / d as real == q as real + r as real / d as real;
    assert 0.0 <= r as real / d as real < 1.0;
  }

  lemma MulMonotone(a: nat, b: nat, c: nat)
    requires a <= b
    ensures a * c <= b * c
  {
    assert b * c == a * c + (b - a) * c;
  }

  lemma DivMonotone(a: int, b: int, d: int)
    requires a <= b && d > 0
    ensures a / d <= b / d
  {
    var qa, qb := a / d, b / d;
    if qa > qb {
      MulAtLeast(qa - qb, d);
    }
  }
}
