/** Three-vectors over exact reals, and the square root as a parameter.

    The source computes in binary64.  The model computes over the reals, so every
    number is finite; `sqrt` is passed in and constrained by `IsSquareRoot`. */
module Geometry {
  import opened RealFacts

  datatype Vec3 = Vec3(x: real, y: real, z: real)

  function Dot(a: Vec3, b: Vec3): real {
    a.x * b.x + a.y * b.y + a.z * b.z
  }

  function Subtract(a: Vec3, b: Vec3): Vec3 {
    Vec3(a.x - b.x, a.y - b.y, a.z - b.z)
  }

  function AddScaled(a: Vec3, b: Vec3, scale: real): Vec3 {
    Vec3(a.x + b.x * scale, a.y + b.y * scale, a.z + b.z * scale)
  }

  /** `f` is the square root on the non-negative reals. */
  ghost predicate IsSquareRoot(f: real -> real) {
    forall x: real :: x >= 0.0 ==> f(x) >= 0.0 && f(x) * f(x) == x
  }

  lemma SquareRootMonotone(f: real -> real, x: real, y: real)
    requires IsSquareRoot(f) && 0.0 <= x <= y
    ensures f(x) <= f(y)
  {
    SquareOrder(f(y), f(x));
  }

  lemma DotSelfNonNegative(p: Vec3)
    ensures Dot(p, p) >= 0.0
  {
    SquareSign(p.x);
    SquareSign(p.y);
    SquareSign(p.z);
  }

  lemma SumOfSquares(s: real, u: real, v: real, w: real)
    requires s == u * u + v * v + w * w
    ensures s >= 0.0
    ensures s <= 0.0 ==> u == 0.0 && v == 0.0 && w == 0.0
  {
    SquareSign(u);
    SquareSign(v);
    SquareSign(w);
  }

  /** Lagrange's identity, hence the Cauchy-Schwarz inequality; the determinant
      vanishes only for parallel vectors. */
  lemma GramDeterminant(p: Vec3, q: Vec3)
    ensures Dot(p, q) * Dot(p, q) <= Dot(p, p) * Dot(q, q)
    ensures Dot(p, p) * Dot(q, q) <= Dot(p, q) * Dot(p, q) ==>
              p.x * q.y == p.y * q.x && p.x * q.z == p.z * q.x && p.y * q.z == p.z * q.y
  {
    SumOfSquares(Dot(p, p) * Dot(q, q) - Dot(p, q) * Dot(p, q),
                 p.x * q.y - p.y * q.x, p.x * q.z - p.z * q.x, p.y * q.z - p.z * q.y);
  }
}
