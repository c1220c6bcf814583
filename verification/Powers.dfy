module Powers {
  function Pow2(n: nat): (p: nat)
    ensures p > 0
  {
    if n == 0 then 1 else 2 * Pow2(n - 1)
  }

  lemma {:induction false} PowAdd(a: nat, b: nat)
    ensures Pow2(a + b) == Pow2(a) * Pow2(b)
  {
    if b > 0 {
      PowAdd(a, b - 1);
      assert Pow2(a) * (2 * Pow2(b - 1)) == 2 * (Pow2(a) * Pow2(b - 1));
    }
  }

  lemma AtLeast(k: int, d: int)
    requires k >= 1 && d > 0
    ensures k * d >= d
  {
    assert k * d == (k - 1) * d + d;
  }

  /** Quotient and remainder are unique. */
  lemma Divides(x: int, d: int, q: int, r: int)
    requires 0 <= r < d && x == q * d + r
    ensures x / d == q && x % d == r
  {
    var q', r' := x / d, x % d;
    DivBounds(x, d);
    Distributes(q, q', d);
    if q > q' {
      AtLeast(q - q', d);
    } else if q < q' {
      Distributes(q', q, d);
      AtLeast(q' - q, d);
    }
  }

  lemma DivBounds(x: int, d: int)
    requires d > 0
    ensures x == x / d * d + x % d && 0 <= x % d < d
  {
  }

  lemma LessProduct(q: int, r: int, a: int, b: int)
    requires 0 <= q < b && 0 <= r < a
    ensures 0 <= q * a + r < b * a
  {
    assert q * a <= (b - 1) * a;
    assert (b - 1) * a == b * a - a;
    assert 0 <= q * a;
  }

  /** Scaling by `a` scales the remainder and leaves the quotient. */
  lemma Scaled(x: int, a: int, b: int)
    requires a > 0 && b > 0
    ensures b * a > 0 && x * a % (b * a) == x % b * a && x * a / (b * a) == x / b
  {
    var q, r := x / b, x % b;
    DivBounds(x, b);
    LessProduct(r, 0, a, b);
    assert x * a == q * (b * a) + r * a by {
      assert (q * b + r) * a == q * b * a + r * a;
      assert q * b * a == q * (b * a);
    }
    assert b * a > 0 by { LessProduct(0, 0, a, b); }
    Divides(x * a, b * a, q, r * a);
  }

  /** The quotient of a remainder is the remainder of the quotient. */
  lemma Nested(x: int, a: int, b: int)
    requires a > 0 && b > 0
    ensures b * a > 0 && x % (b * a) / a == x / a % b && x / (b * a) == x / a / b
    ensures x % (b * a) % a == x % a
  {
    var q, r := x / a, x % a;
    DivBounds(x, a);
    var q2, r2 := q / b, q % b;
    DivBounds(q, b);
    LessProduct(r2, r, a, b);
    assert b * a > 0 by { LessProduct(0, 0, a, b); }
    assert x == q2 * (b * a) + (r2 * a + r) by {
      assert (q2 * b + r2) * a == q2 * b * a + r2 * a;
      assert q2 * b * a == q2 * (b * a);
    }
    Divides(x, b * a, q2, r2 * a + r);
    Divides(r2 * a + r, a, r2, r);
  }

  lemma Distributes(a: int, b: int, c: int)
    ensures (a + b) * c == a * c + b * c && (a - b) * c == a * c - b * c
  {
  }

  lemma Associates(a: int, b: int, c: int)
    ensures a * b * c == a * (b * c)
  {
  }

  lemma Grows(x: int, y: int, a: int)
    requires x <= y && 0 <= a
    ensures x * a <= y * a
  {
    assert y * a == x * a + (y - x) * a;
    NatProduct(y - x, a);
  }

  lemma NatProduct(x: int, y: int)
    requires x >= 0 && y >= 0
    ensures x * y >= 0
  {
  }

  lemma NatQuotient(x: int, d: int)
    requires x >= 0 && d > 0
    ensures x / d >= 0
  {
  }
}
