/** Sign and order facts about real products that the proofs cite by name. */
module RealFacts {

  function Abs(x: real): real {
    if x >= 0.0 then x else -x
  }

  function Min(x: real, y: real): real {
    if x < y then x else y
  }

  function Max(x: real, y: real): real {
    if x > y then x else y
  }

  function Clamp01(x: real): real {
    if x < 0.0 then 0.0 else if x > 1.0 then 1.0 else x
  }

  predicate InUnit(x: real) {
    0.0 <= x <= 1.0
  }

  /** A product under a name, so that composing lemmas can `hide` its definition and
      leave the solver with linear arithmetic. */
  function Times(x: real, y: real): real {
    x * y
  }

  function Square(x: real): real {
    Times(x, x)
  }

  // Strict signs of products are written `!(a * b <= 0.0)`: the solver rewrites a
  // strict comparison of a product with zero into sign cases and loses its magnitude.

  lemma MulPositive(a: real, b: real)
    requires a > 0.0 && b > 0.0
    ensures !(a * b <= 0.0)
  {
  }

  lemma MulNonNegative(a: real, b: real)
    requires a >= 0.0 && b >= 0.0
    ensures a * b >= 0.0
  {
  }

  /** Scaling an inequality by a non-negative factor.  The gap is returned as a
      variable because `k * a <= k * b` would be factored into sign cases too. */
  lemma MulMonotone(k: real, a: real, b: real) returns (gap: real)
    requires k >= 0.0 && a <= b
    ensures gap >= 0.0 && k * b == k * a + gap
  {
    gap := k * (b - a);
    MulNonNegative(k, b - a);
  }

  lemma MulStrict(k: real, a: real, b: real) returns (gap: real)
    requires k > 0.0 && a < b
    ensures gap > 0.0 && k * b == k * a + gap
  {
    gap := k * (b - a);
    MulPositive(k, b - a);
  }

  lemma SquareSign(x: real)
    ensures x * x >= 0.0
    ensures x * x <= 0.0 ==> x == 0.0
  {
    if x > 0.0 {
      MulPositive(x, x);
    } else if x < 0.0 {
      MulPositive(-x, -x);
      assert (-x) * (-x) == x * x;
    }
  }

  /** Squaring preserves and reflects the order of non-negative numbers. */
  lemma SquareOrder(x: real, y: real)
    requires x >= 0.0 && y >= 0.0
    ensures x < y <==> x * x < y * y
  {
    assert (y - x) * (y + x) == y * y - x * x;
    if x < y {
      MulPositive(y - x, y + x);
    } else {
      MulNonNegative(x - y, y + x);
      assert (x - y) * (y + x) == x * x - y * y;
    }
  }

  lemma AbsProduct(a: real, b: real)
    ensures Abs(a * b) == Abs(a) * Abs(b)
  {
    if a >= 0.0 && b >= 0.0 {
      MulNonNegative(a, b);
    } else if a >= 0.0 {
      MulNonNegative(a, -b);
      assert a * (-b) == -(a * b);
    } else if b >= 0.0 {
      MulNonNegative(-a, b);
      assert (-a) * b == -(a * b);
    } else {
      MulNonNegative(-a, -b);
      assert (-a) * (-b) == a * b;
    }
  }

  lemma Quotient(p: real, k: real)
    requires k > 0.0
    ensures (p / k) * k == p
  {
  }

  lemma QuotientNonNegative(k: real, d: real)
    requires k >= 0.0 && d > 0.0
    ensures k / d >= 0.0
  {
  }

  lemma NegativeFactor(k: real, q: real)
    requires k > 0.0
    ensures q < 0.0 ==> !(k * q >= 0.0)
  {
    if q < 0.0 {
      MulPositive(k, -q);
      assert k * (-q) == -(k * q);
    }
  }

  lemma SimpleQuotients(k: real)
    requires k > 0.0
    ensures 0.0 / k == 0.0 && k / k == 1.0
  {
  }
}
