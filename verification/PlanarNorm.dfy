/** The Euclidean norm in the plane, given a square root. */
module PlanarNorm {
  import opened RealFacts
  import opened Geometry

  function Norm(f: real -> real, x: real, y: real): real {
    f(x * x + y * y)
  }

  lemma NormSquare(f: real -> real, x: real, y: real)
    requires IsSquareRoot(f)
    ensures Norm(f, x, y) >= 0.0 && Norm(f, x, y) * Norm(f, x, y) == x * x + y * y
  {
    SquareSign(x);
    SquareSign(y);
  }

  /** Non-negative numbers are ordered like their squares. */
  lemma ByTheirSquares(x: real, y: real)
    requires y >= 0.0 && x * x <= y * y
    ensures x <= y
  {
    if x > 0.0 {
      SquareOrder(y, x);
    }
  }

  lemma LagrangeIdentity(x1: real, y1: real, x2: real, y2: real)
    ensures (x1 * x1 + y1 * y1) * (x2 * x2 + y2 * y2)
            == (x1 * x2 + y1 * y2) * (x1 * x2 + y1 * y2) + (x1 * y2 - x2 * y1) * (x1 * y2 - x2 * y1)
  {
  }

  lemma SquareOfProduct(a: real, b: real)
    ensures (a * b) * (a * b) == (a * a) * (b * b)
  {
  }

  lemma CauchySchwarz(f: real -> real, x1: real, y1: real, x2: real, y2: real)
    requires IsSquareRoot(f)
    ensures x1 * x2 + y1 * y2 <= Norm(f, x1, y1) * Norm(f, x2, y2)
  {
    var n1, n2 := Norm(f, x1, y1), Norm(f, x2, y2);
    NormSquare(f, x1, y1);
    NormSquare(f, x2, y2);
    LagrangeIdentity(x1, y1, x2, y2);
    SquareSign(x1 * y2 - x2 * y1);
    SquareOfProduct(n1, n2);
    MulNonNegative(n1, n2);
    ByTheirSquares(x1 * x2 + y1 * y2, n1 * n2);
  }

  lemma SquareOfSum(a: real, b: real)
    ensures (a + b) * (a + b) == a * a + b * b + 2.0 * (a * b)
  {
  }

  lemma Triangle(f: real -> real, x1: real, y1: real, x2: real, y2: real)
    requires IsSquareRoot(f)
    ensures Norm(f, x1 + x2, y1 + y2) <= Norm(f, x1, y1) + Norm(f, x2, y2)
  {
    hide Norm;
    var n, n1, n2 := Norm(f, x1 + x2, y1 + y2), Norm(f, x1, y1), Norm(f, x2, y2);
    NormSquare(f, x1 + x2, y1 + y2);
    NormSquare(f, x1, y1);
    NormSquare(f, x2, y2);
    CauchySchwarz(f, x1, y1, x2, y2);
    SquareOfSum(x1, x2);
    SquareOfSum(y1, y2);
    SquareOfSum(n1, n2);
    ByTheirSquares(n, n1 + n2);
  }

  lemma Scaling(f: real -> real, k: real, x: real, y: real)
    requires IsSquareRoot(f) && k >= 0.0
    ensures Norm(f, k * x, k * y) == k * Norm(f, x, y)
  {
    var n, m := Norm(f, k * x, k * y), Norm(f, x, y);
    NormSquare(f, k * x, k * y);
    NormSquare(f, x, y);
    SquareOfProduct(k, x);
    SquareOfProduct(k, y);
    SquareOfProduct(k, m);
    MulNonNegative(k, m);
    assert n * n == (k * m) * (k * m);
    ByTheirSquares(n, k * m);
    ByTheirSquares(k * m, n);
  }

  lemma SquareGrows(x: real, y: real)
    requires 0.0 <= x <= y
    ensures x * x <= y * y
  {
    if x < y {
      SquareOrder(x, y);
    }
  }

  /** Larger legs, larger hypotenuse. */
  lemma NormMonotone(f: real -> real, x1: real, y1: real, x2: real, y2: real)
    requires IsSquareRoot(f) && 0.0 <= x1 <= x2 && 0.0 <= y1 <= y2
    ensures Norm(f, x1, y1) <= Norm(f, x2, y2)
  {
    hide Norm;
    NormSquare(f, x1, y1);
    NormSquare(f, x2, y2);
    SquareGrows(x1, x2);
    SquareGrows(y1, y2);
    ByTheirSquares(Norm(f, x1, y1), Norm(f, x2, y2));
  }

  lemma NormOfSquares(f: real -> real, x: real, y: real, s: real)
    requires s == x * x + y * y
    ensures f(s) == Norm(f, x, y)
  {
  }
}
