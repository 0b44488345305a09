/** Powers of two, and division by them, in small steps. */
module Arithmetic {
  function Pow2(n: nat): nat {
    if n == 0 then 1 else 2 * Pow2(n - 1)
  }

  lemma ProductAtLeast(a: int, b: int)
    requires a >= 1 && b > 0
    ensures a * b >= b
  {
  }

  lemma QuotientAndRest(x: int, b: int, q: int, r: int)
    requires b > 0 && x == q * b + r && 0 <= r < b
    ensures x / b == q && x % b == r
  {
    var d, e := x / b, x % b;
    assert x == d * b + e;
    assert (d - q) * b == r - e;
    if d > q { ProductAtLeast(d - q, b); }
    if d < q { ProductAtLeast(q - d, b); }
  }

  lemma RestAndQuotient(x: int, b: int, q: int, r: int)
    requires b > 0 && x == r + b * q && 0 <= r < b
    ensures x / b == q && x % b == r
  {
    QuotientAndRest(x, b, q, r);
  }

  lemma RemainderIsUnique(x: int, b: int, r: int)
    requires 0 <= r < b
    ensures r == x % b <==> (x - r) % b == 0
  {
    var q, m := x / b, (x - r) / b;
    if r == x % b {
      assert x == q * b + r;
      QuotientAndRest(x - r, b, q, 0);
    } else if (x - r) % b == 0 {
      assert x - r == m * b;
      QuotientAndRest(x, b, m, r);
    }
  }

  lemma TwiceProduct(p: int, v: int)
    ensures 2 * (p * v) == (2 * p) * v
  {
  }

  lemma ProductOfTwice(p: int, v: int)
    ensures p * (2 * v) == 2 * (p * v)
  {
  }

  lemma ProductOfSum(p: int, x: int, y: int)
    ensures p * (x + y) == p * x + p * y
  {
  }

  lemma {:induction false} Pow2Double(a: nat, b: nat)
    ensures Pow2(a + b) == Pow2(a) * Pow2(b)
  {
    if b > 0 {
      Pow2Double(a, b - 1);
      ProductOfTwice(Pow2(a), Pow2(b - 1));
    }
  }
}
