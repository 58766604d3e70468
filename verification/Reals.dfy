/** Products, squares and three-dimensional vectors over reals. */
module Reals {
  import opened Folding

  /** A product, kept as one term where its sign or order is what matters. */
  function Times(a: real, b: real): real {
    a * b
  }

  lemma {:induction false} ProductNonNegative(a: real, b: real)
    requires a >= 0.0 && b >= 0.0
    ensures Times(a, b) >= 0.0 && a * b >= 0.0
  {
  }

  lemma {:induction false} ProductPositive(a: real, b: real)
    requires a > 0.0 && b > 0.0
    ensures Times(a, b) > 0.0 && a * b > 0.0
  {
  }

  lemma {:induction false} Square(x: real)
    ensures Times(x, x) >= 0.0 && (x != 0.0 ==> Times(x, x) > 0.0)
  {
    if x > 0.0 {
      ProductPositive(x, x);
    } else if x < 0.0 {
      ProductPositive(-x, -x);
      assert Times(-x, -x) == Times(x, x);
    }
  }

  lemma {:induction false} SquareDifference(a: real, b: real)
    ensures Times(a, a) - Times(b, b) == Times(a - b, a + b)
  {
  }

  /** On numbers that are not negative, squaring keeps the order. */
  lemma {:induction false} SquareOrder(a: real, b: real)
    requires a >= 0.0 && b >= 0.0
    ensures a <= b <==> Times(a, a) <= Times(b, b)
  {
    SquareDifference(a, b);
    SquareDifference(b, a);
    if a > b {
      ProductPositive(a - b, a + b);
    } else {
      ProductNonNegative(b - a, b + a);
    }
  }

  lemma {:induction false} Expand3(a: real, b: real, c: real, d: real)
    ensures (a + b + c) * d == a * d + b * d + c * d
  {
  }

  lemma {:induction false} DividesTo(s: real, d: real, q: real)
    requires d > 0.0 && q * d == s
    ensures s / d == q
  {
    var e := s / d;
    assert e * d == s;
    if e > q {
      ProductPositive(e - q, d);
    } else if e < q {
      ProductPositive(q - e, d);
    }
  }

  // ---- Vectors ----

  datatype Vec = Vec(x: real, y: real, z: real)

  const ZERO_VEC: Vec := Vec(0.0, 0.0, 0.0)

  function Plus(a: Vec, b: Vec): Vec {
    Vec(a.x + b.x, a.y + b.y, a.z + b.z)
  }

  function Minus(a: Vec, b: Vec): Vec {
    Vec(a.x - b.x, a.y - b.y, a.z - b.z)
  }

  function Scale(k: real, a: Vec): Vec {
    Vec(k * a.x, k * a.y, k * a.z)
  }

  function Dot(a: Vec, b: Vec): real {
    Times(a.x, b.x) + Times(a.y, b.y) + Times(a.z, b.z)
  }

  function Norm2(a: Vec): real {
    Dot(a, a)
  }

  lemma {:induction false} NormNonNegative(a: Vec)
    ensures Norm2(a) >= 0.0
  {
    Square(a.x);
    Square(a.y);
    Square(a.z);
  }

  /** Lagrange's identity. */
  lemma {:induction false} Lagrange(a: real, b: real, c: real, d: real, e: real, f: real)
    ensures (a * a + b * b + c * c) * (d * d + e * e + f * f) - (a * d + b * e + c * f) * (a * d + b * e + c * f)
         == (a * e - b * d) * (a * e - b * d) + (b * f - c * e) * (b * f - c * e) + (c * d - a * f) * (c * d - a * f)
  {
  }

  /** Lagrange's identity on vectors: the gap in the Cauchy-Schwarz inequality is a sum of squares. */
  lemma {:induction false} Gap(a: Vec, b: Vec)
    ensures var u, v, w := a.x * b.y - a.y * b.x, a.y * b.z - a.z * b.y, a.z * b.x - a.x * b.z;
            Times(Norm2(a), Norm2(b)) - Times(Dot(a, b), Dot(a, b)) == Times(u, u) + Times(v, v) + Times(w, w)
  {
    Lagrange(a.x, a.y, a.z, b.x, b.y, b.z);
  }

  /** The Cauchy-Schwarz inequality. */
  lemma {:induction false} CauchySchwarz(a: Vec, b: Vec)
    ensures Times(Dot(a, b), Dot(a, b)) <= Times(Norm2(a), Norm2(b))
  {
    Gap(a, b);
    Square(a.x * b.y - a.y * b.x);
    Square(a.y * b.z - a.z * b.y);
    Square(a.z * b.x - a.x * b.z);
  }

  lemma {:induction false} NormOfSum(a: Vec, b: Vec)
    ensures Norm2(Plus(a, b)) == Norm2(a) + 2.0 * Dot(a, b) + Norm2(b)
  {
  }

  /** `a` is no longer than `r`, which is not negative. */
  ghost predicate InBall(a: Vec, r: real) {
    r >= 0.0 && forall k :: Folding.Open(k) ==> Norm2(a) <= Times(r, r)
  }

  /** The triangle inequality. */
  lemma {:induction false} BallSum(a: Vec, b: Vec, r: real, s: real)
    requires InBall(a, r) && InBall(b, s)
    ensures InBall(Plus(a, b), r + s)
  {
    assert Folding.Open(0);
    NormNonNegative(a);
    NormNonNegative(b);
    CauchySchwarz(a, b);
    ProductOrder(Norm2(a), Times(r, r), Norm2(b), Times(s, s));
    ProductNonNegative(r, s);
    TimesSquares(r, s);
    if Dot(a, b) > r * s {
      SquareOrder(Dot(a, b), r * s);
    }
    NormOfSum(a, b);
    SquareOfSum(r, s);
  }

  lemma {:induction false} TimesSquares(r: real, s: real)
    ensures Times(Times(r, r), Times(s, s)) == Times(r * s, r * s)
  {
  }

  lemma {:induction false} SquareOfSum(r: real, s: real)
    ensures Times(r + s, r + s) == Times(r, r) + 2.0 * (r * s) + Times(s, s)
  {
  }

  lemma {:induction false} ProductOrder(a: real, b: real, c: real, d: real)
    requires 0.0 <= a <= b && 0.0 <= c <= d
    ensures Times(a, c) <= Times(b, d)
  {
    ProductNonNegative(b - a, c);
    ProductNonNegative(b, d - c);
    assert b * d - a * c == (b - a) * c + b * (d - c);
  }
}
