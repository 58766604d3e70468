/** The output position filter: three independent position-velocity Kalman filters with gating and reset, over reals. */
module PoseFilter {
  import opened Options
  import opened Reals

  datatype Params = Params(enabled: bool, sigmaA: real, sigmaR: real, gateThresh: real, maxRejects: int,
      extrapMax: real)

  /** One axis: position, velocity and their covariance. */
  datatype Axis = Axis(p: real, v: real, P00: real, P01: real, P10: real, P11: real)

  /** The measurement variance r^2. */
  function Noise(c: Params): real {
    Times(c.sigmaR, c.sigmaR)
  }

  /** The acceleration variance. */
  function Drive(c: Params): real {
    Times(c.sigmaA, c.sigmaA)
  }

  function ResetAxis(z: real, c: Params): Axis {
    Axis(z, 0.0, Noise(c), 0.0, 0.0, 25.0)
  }

  function PredictAxis(a: Axis, dt: real, c: Params): Axis {
    if dt <= 0.0 then a
    else
      var q := Drive(c);
      var dt2 := Times(dt, dt);
      Axis(a.p + a.v * dt, a.v,
           a.P00 + dt * (a.P10 + a.P01) + dt2 * a.P11 + q * dt2 * dt2 / 4.0,
           a.P01 + dt * a.P11 + q * dt2 * dt / 2.0,
           a.P10 + dt * a.P11 + q * dt2 * dt / 2.0,
           a.P11 + q * dt2)
  }

  /** The variance of the innovation. */
  function Innovation(a: Axis, c: Params): real {
    a.P00 + Noise(c)
  }

  function UpdateAxis(a: Axis, z: real, c: Params): Axis
    requires Innovation(a, c) != 0.0
  {
    var S := Innovation(a, c);
    var K0, K1, y := a.P00 / S, a.P10 / S, z - a.p;
    Axis(a.p + K0 * y, a.v + K1 * y,
         (1.0 - K0) * a.P00, (1.0 - K0) * a.P01, a.P10 - K1 * a.P00, a.P11 - K1 * a.P01)
  }

  function Det(a: Axis): real {
    a.P00 * a.P11 - a.P01 * a.P10
  }

  /** A symmetric positive definite covariance whose correlation is not negative. */
  predicate Sound(a: Axis) {
    a.P01 == a.P10 && a.P01 >= 0.0 && a.P00 > 0.0 && a.P11 > 0.0 && Det(a) > 0.0
  }

  // ---- The estimate of one axis ----

  /** A two-by-two matrix. */
  datatype Matrix = Matrix(a: real, b: real, c: real, d: real)

  function Product(m: Matrix, n: Matrix): Matrix {
    Matrix(m.a * n.a + m.b * n.c, m.a * n.b + m.b * n.d, m.c * n.a + m.d * n.c, m.c * n.b + m.d * n.d)
  }

  function Total(m: Matrix, n: Matrix): Matrix {
    Matrix(m.a + n.a, m.b + n.b, m.c + n.c, m.d + n.d)
  }

  function Covariance(a: Axis): Matrix {
    Matrix(a.P00, a.P01, a.P10, a.P11)
  }

  /**
    Between messages an axis moves at constant velocity, and its covariance becomes F P F' + Q: F moves a
    position and a velocity over `dt`, and Q is what an acceleration of variance sigma_a^2 does to them over `dt`.
   */
  lemma {:induction false} PredictIsKalman(a: Axis, dt: real, c: Params)
    requires dt >= 0.0
    ensures var b, q := PredictAxis(a, dt, c), c.sigmaA * c.sigmaA;
            var F, F' := Matrix(1.0, dt, 0.0, 1.0), Matrix(1.0, 0.0, dt, 1.0);
            var Q := Matrix(q * (dt * dt / 2.0 * (dt * dt / 2.0)), q * (dt * dt / 2.0 * dt),
                            q * (dt * (dt * dt / 2.0)), q * (dt * dt));
            && b.p == a.p + a.v * dt && b.v == a.v
            && Covariance(b) == Total(Product(Product(F, Covariance(a)), F'), Q)
  {
    var q := c.sigmaA * c.sigmaA;
    TransportedCovariance(a.P00, a.P01, a.P10, a.P11, dt);
    NoiseTerms(q, dt);
    PredictedEntries(a, dt, c);
  }

  lemma {:induction false} PredictedEntries(a: Axis, t: real, c: Params)
    requires t >= 0.0
    ensures var q := c.sigmaA * c.sigmaA;
            Covariance(PredictAxis(a, t, c)) ==
            Matrix(a.P00 + t * (a.P10 + a.P01) + t * t * a.P11 + q * (t * t) * (t * t) / 4.0,
                   a.P01 + t * a.P11 + q * (t * t) * t / 2.0, a.P10 + t * a.P11 + q * (t * t) * t / 2.0,
                   a.P11 + q * (t * t))
  {
  }

  lemma {:induction false} TransportedCovariance(A: real, B: real, C: real, D: real, t: real)
    ensures var F, F' := Matrix(1.0, t, 0.0, 1.0), Matrix(1.0, 0.0, t, 1.0);
            Product(Product(F, Matrix(A, B, C, D)), F') ==
            Matrix(A + t * (C + B) + t * t * D, B + t * D, C + t * D, D)
  {
    assert (B + t * D) * t == t * B + t * t * D;
  }

  lemma {:induction false} NoiseTerms(q: real, t: real)
    ensures q * (t * t / 2.0 * (t * t / 2.0)) == q * (t * t) * (t * t) / 4.0
    ensures q * (t * t / 2.0 * t) == q * (t * t) * t / 2.0 == q * (t * (t * t / 2.0))
  {
    var u := t * t;
    assert u / 2.0 * (u / 2.0) == u * u / 4.0;
    assert q * (u * u / 4.0) == q * (u * u) / 4.0 == q * u * u / 4.0;
    assert u / 2.0 * t == u * t / 2.0 == t * (u / 2.0);
    assert q * (u * t / 2.0) == q * (u * t) / 2.0 == q * u * t / 2.0;
  }

  /** `b` is `a` with position and velocity pulled by their covariances with the measured one, out of its variance. */
  predicate Pulled(a: Axis, b: Axis, z: real, c: Params) {
    var S := a.P00 + c.sigmaR * c.sigmaR;
    S * (b.p - a.p) == a.P00 * (z - a.p) && S * (b.v - a.v) == a.P10 * (z - a.p)
  }

  lemma {:induction false} UpdatePull(a: Axis, z: real, c: Params)
    requires a.P00 + c.sigmaR * c.sigmaR != 0.0
    ensures Pulled(a, UpdateAxis(a, z, c), z, c)
  {
    var b, S, y := UpdateAxis(a, z, c), a.P00 + c.sigmaR * c.sigmaR, z - a.p;
    Share(S, a.P00, y);
    Share(S, a.P10, y);
  }

  lemma {:induction false} Share(S: real, A: real, y: real)
    requires S != 0.0
    ensures S * (A / S * y) == A * y
  {
    assert S * (A / S * y) == (A / S * S) * y;
  }

  /** The covariance after a measurement is (I - K H) P, with the gain K = P H' / S. */
  lemma {:induction false} UpdateIsKalman(a: Axis, z: real, c: Params)
    requires Innovation(a, c) != 0.0
    ensures Innovation(a, c) == a.P00 + c.sigmaR * c.sigmaR
    ensures var S := Innovation(a, c);
            Covariance(UpdateAxis(a, z, c)) ==
            Product(Matrix(1.0 - a.P00 / S, 0.0, -(a.P10 / S), 1.0), Covariance(a))
  {
    var b, k, h := UpdateAxis(a, z, c), a.P00 / Innovation(a, c), a.P10 / Innovation(a, c);
    RowProducts(k, h, Covariance(a));
    assert b.P00 == (1.0 - k) * a.P00 && b.P01 == (1.0 - k) * a.P01;
    assert b.P10 == a.P10 - h * a.P00 && b.P11 == a.P11 - h * a.P01;
  }

  lemma {:induction false} RowProducts(k: real, h: real, m: Matrix)
    ensures Product(Matrix(1.0 - k, 0.0, -h, 1.0), m)
         == Matrix((1.0 - k) * m.a, (1.0 - k) * m.b, m.c - h * m.a, m.d - h * m.b)
  {
    assert -h * m.a == -(h * m.a) && -h * m.b == -(h * m.b);
  }

  predicate Between(a: real, x: real, b: real) {
    a <= x <= b || b <= x <= a
  }

  /** The estimate never leaves the stretch from the prediction to the measurement. */
  lemma {:induction false} UpdateBetween(a: Axis, z: real, c: Params)
    requires a.P00 > 0.0 && c.sigmaR > 0.0
    ensures Between(a.p, UpdateAxis(a, z, c).p, z)
    ensures a.p != z ==> UpdateAxis(a, z, c).p != a.p && UpdateAxis(a, z, c).p != z
  {
    Square(c.sigmaR);
    UpdatePull(a, z, c);
    Ratios(a.P00, 0.0, Noise(c), Innovation(a, c));
    WeightedBetween(a.P00 / Innovation(a, c), z - a.p);
  }

  lemma {:induction false} WeightedBetween(k: real, y: real)
    requires 0.0 < k < 1.0
    ensures Between(0.0, k * y, y) && (y != 0.0 ==> k * y != 0.0 && k * y != y)
  {
    var g := 1.0 - k;
    assert y - k * y == g * y;
    if y > 0.0 {
      ProductPositive(k, y);
      ProductPositive(g, y);
    } else if y < 0.0 {
      ProductPositive(k, -y);
      ProductPositive(g, -y);
    }
  }

  /** A squared error, weighed by its variance. */
  function Weighed(error: real, variance: real): real
    requires variance > 0.0
  {
    Times(error, error) / variance
  }

  /** How badly a position fits both the prediction and the measurement. */
  function Misfit(a: Axis, z: real, c: Params, x: real): real
    requires a.P00 > 0.0 && Noise(c) > 0.0
  {
    Weighed(x - a.p, a.P00) + Weighed(x - z, Noise(c))
  }

  /** The new position is the least-squares estimate from prediction and measurement. */
  lemma {:induction false} UpdateLeastSquares(a: Axis, z: real, c: Params, x: real)
    requires a.P00 > 0.0 && Noise(c) > 0.0
    ensures Misfit(a, z, c, UpdateAxis(a, z, c).p) <= Misfit(a, z, c, x)
  {
    var R, e := Noise(c), UpdateAxis(a, z, c).p;
    assert (a.P00 + R) * (e - a.p) == a.P00 * (z - a.p) by {
      UpdatePull(a, z, c);
    }
    LeastSquares(a.P00, R, a.p, z, e, x);
  }

  lemma {:induction false} LeastSquares(A: real, R: real, p: real, z: real, e: real, x: real)
    requires A > 0.0 && R > 0.0 && (A + R) * (e - p) == A * (z - p)
    ensures Weighed(e - p, A) + Weighed(e - z, R) <= Weighed(x - p, A) + Weighed(x - z, R)
  {
    var d, f, g := x - e, (e - p) / A, (e - z) / R;
    assert f * A == e - p && g * R == e - z;
    Opposed(A, R, f, g, z - p);
    Moved(d, e - p, A, f);
    Moved(d, e - z, R, g);
    assert x - p == d + (e - p) && x - z == d + (e - z);
    assert d * f + d * g == d * (f + g);
  }

  /** At the estimate the two errors, each over its variance, cancel. */
  lemma {:induction false} Opposed(A: real, R: real, f: real, g: real, y: real)
    requires A > 0.0 && R > 0.0 && (A + R) * (f * A) == A * y && g * R == f * A - y
    ensures f + g == 0.0
  {
    ProductPositive(A, R);
    assert A * (g * R) == A * (f * A) - A * y;
    assert (A * R) * (f + g) == R * (f * A) + A * (g * R);
    if f + g > 0.0 {
      ProductPositive(A * R, f + g);
    } else if f + g < 0.0 {
      ProductPositive(A * R, -(f + g));
    }
  }

  /** An error `u` that moves by `d` costs at least what its square grows by in the first order. */
  lemma {:induction false} Moved(d: real, u: real, A: real, f: real)
    requires A > 0.0 && f * A == u
    ensures Weighed(d + u, A) >= 2.0 * (d * f) + Weighed(u, A)
  {
    var w, v := Weighed(d, A), Weighed(u, A);
    Square(d);
    assert w * A == Times(d, d) && v * A == Times(u, u);
    if w < 0.0 {
      ProductPositive(-w, A);
    }
    var q := w + 2.0 * (d * f) + v;
    Expand3(w, 2.0 * (d * f), v, A);
    assert 2.0 * (d * f) * A == 2.0 * (d * u);
    assert q * A == Times(d + u, d + u);
    DividesTo(Times(d + u, d + u), A, q);
  }

  /**
    No other gains do better: with gains k for the position and h for the velocity the error variances would be
    (1 - k)^2 P00 + k^2 r^2 and P11 - 2 h P10 + h^2 S.
   */
  lemma {:induction false} GainOptimal(a: Axis, z: real, c: Params, k: real, h: real)
    requires a.P00 > 0.0 && c.sigmaR > 0.0 && a.P01 == a.P10
    ensures var b, r2 := UpdateAxis(a, z, c), c.sigmaR * c.sigmaR;
            && b.P00 <= (1.0 - k) * (1.0 - k) * a.P00 + k * k * r2
            && b.P11 <= a.P11 - 2.0 * (h * a.P10) + h * h * (a.P00 + r2)
  {
    Square(c.sigmaR);
    var r2 := c.sigmaR * c.sigmaR;
    var S := a.P00 + r2;
    var k0, h0 := a.P00 / S, a.P10 / S;
    assert k0 * S == a.P00 && h0 * S == a.P10;
    Completed(k, k0, a.P00, S);
    Completed(h, h0, a.P10, S);
    assert (1.0 - k) * (1.0 - k) * a.P00 + k * k * r2 == a.P00 - 2.0 * (k * a.P00) + k * k * S by {
      assert (1.0 - k) * (1.0 - k) == 1.0 - 2.0 * k + k * k;
      assert (1.0 - 2.0 * k + k * k) * a.P00 == a.P00 - 2.0 * (k * a.P00) + k * k * a.P00;
      assert k * k * S == k * k * a.P00 + k * k * r2;
    }
    assert (1.0 - k0) * a.P00 == a.P00 - k0 * a.P00;
  }

  /** A quadratic in the gain `k` is least at `k0`, where its derivative vanishes. */
  lemma {:induction false} Completed(k: real, k0: real, B: real, S: real)
    requires S > 0.0 && k0 * S == B
    ensures -(k0 * B) <= k * k * S - 2.0 * (k * B)
  {
    var d := k - k0;
    Square(d);
    ProductNonNegative(d * d, S);
    assert d * d == k * k - 2.0 * (k * k0) + k0 * k0;
    assert d * d * S == k * k * S - 2.0 * (k * (k0 * S)) + k0 * (k0 * S);
  }

  // ---- Covariance, one axis ----

  lemma {:induction false} ResetSound(z: real, c: Params)
    requires c.sigmaR > 0.0
    ensures Sound(ResetAxis(z, c))
    ensures Covariance(ResetAxis(z, c)) == Matrix(c.sigmaR * c.sigmaR, 0.0, 0.0, 25.0)
  {
    Square(c.sigmaR);
    assert Det(ResetAxis(z, c)) == 25.0 * Noise(c);
  }

  /** Prediction without process noise keeps the determinant. */
  lemma {:induction false} TransportDet(P00: real, P01: real, P11: real, dt: real)
    ensures (P00 + dt * (P01 + P01) + dt * dt * P11) * P11 - (P01 + dt * P11) * (P01 + dt * P11)
            == P00 * P11 - P01 * P01
  {
    var A := dt * P11;
    assert dt * dt * P11 == dt * A;
    assert dt * (P01 + P01) * P11 == 2.0 * (P01 * A);
    assert dt * A * P11 == A * A;
    Expand3(P00, dt * (P01 + P01), dt * A, P11);
    assert (P01 + A) * (P01 + A) == P01 * P01 + 2.0 * (P01 * A) + A * A;
  }

  /** What process noise adds to the determinant of a transported covariance. */
  lemma {:induction false} NoiseDet(A: real, B: real, D: real, n: real, dt: real)
    ensures (A + n * (dt * dt) / 4.0) * (D + n) - (B + n * dt / 2.0) * (B + n * dt / 2.0)
         == A * D - B * B + n * (A - dt * B + dt * dt * D / 4.0)
  {
    var u, w := n * (dt * dt) / 4.0, n * dt / 2.0;
    assert w * w == n * u;
    assert (A + u) * (D + n) == A * D + A * n + u * D + u * n;
    assert (B + w) * (B + w) == B * B + 2.0 * (B * w) + w * w;
    assert 2.0 * (B * w) == n * (dt * B);
    assert u * D == n * (dt * dt * D / 4.0);
    Expand3(A, -(dt * B), dt * dt * D / 4.0, n);
  }

  /** The determinant after a prediction, exactly: it grows by the process noise alone. */
  lemma {:induction false} PredictDet(a: Axis, dt: real, c: Params)
    requires a.P01 == a.P10 && dt > 0.0
    ensures Det(PredictAxis(a, dt, c))
         == Det(a) + Drive(c) * Times(dt, dt) * (a.P00 + dt * a.P01 + Times(dt, dt) * a.P11 / 4.0)
  {
    var n := Drive(c) * (dt * dt);
    var A, B, D := a.P00 + dt * (a.P01 + a.P01) + dt * dt * a.P11, a.P01 + dt * a.P11, a.P11;
    var b := PredictAxis(a, dt, c);
    assert b.P00 == A + n * (dt * dt) / 4.0 && b.P01 == B + n * dt / 2.0 && b.P10 == b.P01 && b.P11 == D + n;
    NoiseDet(A, B, D, n, dt);
    TransportDet(a.P00, a.P01, a.P11, dt);
    assert dt * B == dt * a.P01 + dt * dt * a.P11;
    assert A - dt * B + dt * dt * D / 4.0 == a.P00 + dt * a.P01 + dt * dt * a.P11 / 4.0;
  }

  /** Prediction keeps the covariance sound and never lowers its determinant or the innovation variance. */
  lemma {:induction false} PredictSound(a: Axis, dt: real, c: Params)
    requires Sound(a)
    ensures var b := PredictAxis(a, dt, c);
            Sound(b) && Det(b) >= Det(a) && b.P00 >= a.P00
  {
    if dt > 0.0 {
      var q, dt2 := Drive(c), dt * dt;
      Square(c.sigmaA);
      Square(dt);
      ProductNonNegative(dt, a.P01);
      ProductNonNegative(dt2, a.P11);
      ProductNonNegative(dt, a.P11);
      ProductNonNegative(q, dt2);
      ProductNonNegative(q * dt2, dt2);
      ProductNonNegative(q * dt2, dt);
      ProductNonNegative(q * dt2, a.P00 + dt * a.P01 + dt2 * a.P11 / 4.0);
      PredictDet(a, dt, c);
    }
  }

  /** The gains of a measurement: between zero and one, and what is left over. */
  lemma {:induction false} Ratios(A: real, B: real, r2: real, S: real)
    requires A > 0.0 && r2 > 0.0 && S == A + r2 && B >= 0.0
    ensures var k, g, h := A / S, r2 / S, B / S;
            && k + g == 1.0 && 0.0 < k < 1.0 && 0.0 < g < 1.0 && h >= 0.0
            && h * A == B * k && (1.0 - k) * A == g * A == r2 * k && g * A < A && g * A < r2
            && (1.0 - k) * B == g * B == B - h * A
  {
    var w := 1.0 / S;
    assert w * S == 1.0;
    assert A / S == A * w && r2 / S == r2 * w && B / S == B * w;
    assert w > 0.0;
    ProductPositive(A, w);
    ProductPositive(r2, w);
    ProductNonNegative(B, w);
    var k, g, h := A * w, r2 * w, B * w;
    assert k + g == 1.0 by {
      assert (A + r2) * w == A * w + r2 * w;
    }
    assert h * A == B * k;
    assert g * A == r2 * k;
    ProductPositive(r2, g);
    assert r2 * k + r2 * g == r2 by {
      assert r2 * (k + g) == r2 * k + r2 * g;
    }
    ProductPositive(A, k);
    assert A * k + A * g == A by {
      assert A * (k + g) == A * k + A * g;
    }
    assert B * k + B * g == B by {
      assert B * (k + g) == B * k + B * g;
    }
  }

  lemma {:induction false} UpdateDet(A: real, B: real, D: real, k: real, g: real, h: real)
    requires k + g == 1.0 && h * A == B * k
    ensures (g * A) * (D - h * B) - (g * B) * (g * B) == g * (A * D - B * B)
  {
    assert A * (h * B) == (h * A) * B == (B * B) * k;
    assert (g * A) * (D - h * B) == g * (A * D - A * (h * B));
    assert (g * B) * (g * B) == g * ((B * B) * g);
    assert (B * B) * k + (B * B) * g == B * B;
  }

  /** With a positive variance, a positive determinant makes the other variance positive. */
  lemma {:induction false} DetPositive(b: Axis)
    requires b.P00 > 0.0 && b.P01 == b.P10 && Det(b) > 0.0
    ensures b.P11 > 0.0
  {
    assert b.P01 * b.P10 >= 0.0;
    if b.P11 <= 0.0 {
      ProductNonNegative(b.P00, -b.P11);
    }
  }

  /** The covariance after a measurement, in terms of the share `g` of the innovation variance that is noise. */
  lemma {:induction false} UpdateShape(a: Axis, z: real, c: Params)
    requires a.P01 == a.P10 && a.P01 >= 0.0 && a.P00 > 0.0 && Noise(c) > 0.0
    ensures var b, g, h := UpdateAxis(a, z, c), Noise(c) / Innovation(a, c), a.P10 / Innovation(a, c);
            && b.P00 == g * a.P00 && b.P01 == g * a.P01 && b.P10 == g * a.P01 && b.P11 == a.P11 - h * a.P01
  {
    Ratios(a.P00, a.P01, Noise(c), Innovation(a, c));
  }

  /** An accepted measurement multiplies the determinant by exactly r^2 / S and brings the variance below r^2. */
  lemma {:induction false} UpdateSound(a: Axis, z: real, c: Params)
    requires Sound(a) && c.sigmaR > 0.0
    ensures var b, S := UpdateAxis(a, z, c), Innovation(a, c);
            && S > 0.0 && Sound(b)
            && Det(b) == Noise(c) / S * Det(a)
            && b.P00 < Noise(c) && b.P00 < a.P00
            && 0.0 < a.P00 / S < 1.0 && a.P10 / S >= 0.0
  {
    Square(c.sigmaR);
    var b, S := UpdateAxis(a, z, c), Innovation(a, c);
    var k, g, h := a.P00 / S, Noise(c) / S, a.P10 / S;
    Ratios(a.P00, a.P01, Noise(c), S);
    UpdateShape(a, z, c);
    UpdateDet(a.P00, a.P01, a.P11, k, g, h);
    ProductPositive(g, a.P00);
    ProductPositive(g, Det(a));
    ProductNonNegative(g, a.P01);
    DetPositive(b);
  }

  // ---- The three axes together ----

  datatype Filter = Filter(x: Axis, y: Axis, z: Axis, initialized: bool, lastUpdate: real, rejects: int)

  datatype Position = Position(x: real, y: real, z: real)

  /** A measured position with its time; None stands for a coordinate that is not a number. */
  datatype Reading = Reading(x: Option<real>, y: Option<real>, z: Option<real>, t: real)

  datatype Outcome = Ignored | Started | Accepted | Coasting | Followed

  predicate SameCovariance(a: Axis, b: Axis) {
    a.P00 == b.P00 && a.P01 == b.P01 && a.P10 == b.P10 && a.P11 == b.P11
  }

  function RejectLimit(c: Params): int {
    if c.maxRejects > 1 then c.maxRejects else 1
  }

  /** What every reachable state keeps. */
  predicate Consistent(f: Filter, c: Params) {
    f.initialized ==>
      && Sound(f.x) && SameCovariance(f.x, f.y) && SameCovariance(f.x, f.z)
      && 0 <= f.rejects < RejectLimit(c)
  }

  predicate Measured(r: Reading) {
    r.x.Some? && r.y.Some? && r.z.Some?
  }

  function PositionOf(r: Reading): Position
    requires Measured(r)
  {
    Position(r.x.value, r.y.value, r.z.value)
  }

  function ResetAt(m: Position, t: real, c: Params): Filter {
    Filter(ResetAxis(m.x, c), ResetAxis(m.y, c), ResetAxis(m.z, c), true, t, 0)
  }

  /** The prediction to time t; a time in the past predicts nothing. */
  function Predicted(f: Filter, t: real, c: Params): Filter {
    var dt := if t - f.lastUpdate < 0.0 then 0.0 else t - f.lastUpdate;
    f.(x := PredictAxis(f.x, dt, c), y := PredictAxis(f.y, dt, c), z := PredictAxis(f.z, dt, c), lastUpdate := t)
  }

  function Term(a: Axis, z: real, c: Params): real
    requires Innovation(a, c) != 0.0
  {
    Times(z - a.p, z - a.p) / Innovation(a, c)
  }

  predicate Divisible(f: Filter, c: Params) {
    Innovation(f.x, c) != 0.0 && Innovation(f.y, c) != 0.0 && Innovation(f.z, c) != 0.0
  }

  /** The squared Mahalanobis distance of a measurement from a predicted state. */
  function Distance2(f: Filter, m: Position, c: Params): real
    requires Divisible(f, c)
  {
    Term(f.x, m.x, c) + Term(f.y, m.y, c) + Term(f.z, m.z, c)
  }

  function Updated(f: Filter, m: Position, c: Params): Filter
    requires Divisible(f, c)
  {
    f.(x := UpdateAxis(f.x, m.x, c), y := UpdateAxis(f.y, m.y, c), z := UpdateAxis(f.z, m.z, c), rejects := 0)
  }

  lemma {:induction false} PredictedConsistent(f: Filter, t: real, c: Params)
    requires f.initialized && Consistent(f, c) && c.sigmaR > 0.0
    ensures Consistent(Predicted(f, t, c), c) && Divisible(Predicted(f, t, c), c)
    ensures Innovation(Predicted(f, t, c).x, c) >= Innovation(f.x, c) > 0.0
  {
    var dt := if t - f.lastUpdate < 0.0 then 0.0 else t - f.lastUpdate;
    PredictSound(f.x, dt, c);
    PredictSame(f.x, f.y, dt, c);
    PredictSame(f.x, f.z, dt, c);
    Square(c.sigmaR);
  }

  /** Equal covariances stay equal: nothing but positions and velocities differs between the axes. */
  lemma {:induction false} PredictSame(a: Axis, b: Axis, dt: real, c: Params)
    requires SameCovariance(a, b)
    ensures SameCovariance(PredictAxis(a, dt, c), PredictAxis(b, dt, c))
  {
  }

  lemma {:induction false} UpdateSame(a: Axis, b: Axis, za: real, zb: real, c: Params)
    requires SameCovariance(a, b) && Innovation(a, c) != 0.0
    ensures SameCovariance(UpdateAxis(a, za, c), UpdateAxis(b, zb, c))
  {
  }

  /** What becomes of a predicted state and a measurement. */
  function Judged(g: Filter, m: Position, t: real, c: Params): (Filter, Outcome)
    requires Divisible(g, c)
  {
    if Distance2(g, m, c) > c.gateThresh then
      if g.rejects + 1 >= c.maxRejects then (ResetAt(m, t, c), Followed)
      else (g.(rejects := g.rejects + 1), Coasting)
    else (Updated(g, m, c), Accepted)
  }

  /** One odometry message. */
  function Step(f: Filter, r: Reading, c: Params): (Filter, Outcome)
    requires Consistent(f, c) && c.sigmaR > 0.0
  {
    if !c.enabled || !Measured(r) then (f, Ignored)
    else if !f.initialized then (ResetAt(PositionOf(r), r.t, c), Started)
    else
      PredictedConsistent(f, r.t, c);
      Judged(Predicted(f, r.t, c), PositionOf(r), r.t, c)
  }

  /** Every step keeps the covariances sound and equal, and the count of rejects below the limit. */
  lemma {:induction false} StepConsistent(f: Filter, r: Reading, c: Params)
    requires Consistent(f, c) && c.sigmaR > 0.0
    ensures Consistent(Step(f, r, c).0, c)
  {
    var (g, o) := Step(f, r, c);
    match o
    case Ignored =>
    case Started => ResetSound(r.x.value, c);
    case Followed => ResetSound(r.x.value, c);
    case Coasting => PredictedConsistent(f, r.t, c);
    case Accepted =>
      var h, m := Predicted(f, r.t, c), PositionOf(r);
      PredictedConsistent(f, r.t, c);
      UpdateSound(h.x, m.x, c);
      UpdateSame(h.x, h.y, m.x, m.y, c);
      UpdateSame(h.x, h.z, m.x, m.z, c);
  }

  /** The gate is a ball: a measurement is accepted by its distance from the prediction alone. */
  lemma {:induction false} GateIsBall(f: Filter, r: Reading, c: Params)
    requires Consistent(f, c) && c.sigmaR > 0.0 && c.enabled && Measured(r) && f.initialized
    ensures var g, m := Predicted(f, r.t, c), PositionOf(r);
            Step(f, r, c).1 == Accepted <==>
              Times(m.x - g.x.p, m.x - g.x.p) + Times(m.y - g.y.p, m.y - g.y.p) + Times(m.z - g.z.p, m.z - g.z.p)
              <= c.gateThresh * Innovation(g.x, c)
  {
    var g, m := Predicted(f, r.t, c), PositionOf(r);
    PredictedConsistent(f, r.t, c);
    GateDistance(g, m, c, Innovation(g.x, c));
  }

  lemma {:induction false} GateDistance(g: Filter, m: Position, c: Params, S: real)
    requires S > 0.0 && Innovation(g.x, c) == S && Innovation(g.y, c) == S && Innovation(g.z, c) == S
    ensures Distance2(g, m, c) <= c.gateThresh <==>
              Times(m.x - g.x.p, m.x - g.x.p) + Times(m.y - g.y.p, m.y - g.y.p) + Times(m.z - g.z.p, m.z - g.z.p)
              <= c.gateThresh * S
  {
    Common(Times(m.x - g.x.p, m.x - g.x.p), Times(m.y - g.y.p, m.y - g.y.p), Times(m.z - g.z.p, m.z - g.z.p), S,
        c.gateThresh);
  }

  lemma {:induction false} Common(a: real, b: real, d: real, S: real, gate: real)
    requires S > 0.0
    ensures a / S + b / S + d / S <= gate <==> a + b + d <= gate * S
  {
    var q := a / S + b / S + d / S;
    assert q * S == a + b + d by {
      assert a / S * S == a && b / S * S == b && d / S * S == d;
      Expand3(a / S, b / S, d / S, S);
    }
    if q <= gate {
      ProductNonNegative(gate - q, S);
    } else {
      ProductPositive(q - gate, S);
    }
  }

  /** The seconds a message lies ahead of the last one; none if it lies behind. */
  function Elapsed(f: Filter, t: real): real {
    if t <= f.lastUpdate then 0.0 else t - f.lastUpdate
  }

  /** What a step makes of the reject count. */
  predicate CountFollows(f: Filter, g: Filter, o: Outcome, c: Params) {
    match o
    case Ignored => g.rejects == f.rejects
    case Coasting => g.rejects == f.rejects + 1 < c.maxRejects
    case Followed => f.initialized && g.rejects == 0 && f.rejects + 1 >= c.maxRejects
    case _ => g.rejects == 0
  }

  /** What a step makes of one axis that measures `z`, `dt` after the last message. */
  predicate AxisFollows(a: Axis, b: Axis, z: real, dt: real, o: Outcome) {
    match o
    case Ignored => b == a
    // A start or a restart at the measurement, at rest.
    case Started => b.p == z && b.v == 0.0
    case Followed => b.p == z && b.v == 0.0
    // The prediction at constant velocity.
    case Coasting => b.p == a.p + a.v * dt && b.v == a.v
    // Between that prediction and the measurement.
    case Accepted => Between(a.p + a.v * dt, b.p, z) && (a.p + a.v * dt != z ==> b.p != a.p + a.v * dt && b.p != z)
  }

  /** What one message makes of the estimate. */
  predicate Follows(f: Filter, r: Reading, g: Filter, o: Outcome, c: Params) {
    && (o == Ignored <==> !c.enabled || !Measured(r))
    && (o == Started <==> c.enabled && Measured(r) && !f.initialized)
    && CountFollows(f, g, o, c)
    && (if o == Ignored then g == f
        else
          && g.initialized && g.lastUpdate == r.t
          && AxisFollows(f.x, g.x, r.x.value, Elapsed(f, r.t), o)
          && AxisFollows(f.y, g.y, r.y.value, Elapsed(f, r.t), o)
          && AxisFollows(f.z, g.z, r.z.value, Elapsed(f, r.t), o))
  }

  lemma {:induction false} AxisStep(a: Axis, z: real, dt: real, c: Params)
    requires dt >= 0.0 && c.sigmaR > 0.0
    ensures AxisFollows(a, PredictAxis(a, dt, c), z, dt, Coasting)
    ensures PredictAxis(a, dt, c).P00 > 0.0 ==>
              && Innovation(PredictAxis(a, dt, c), c) != 0.0
              && AxisFollows(a, UpdateAxis(PredictAxis(a, dt, c), z, c), z, dt, Accepted)
  {
    Square(c.sigmaR);
    if PredictAxis(a, dt, c).P00 > 0.0 {
      UpdateBetween(PredictAxis(a, dt, c), z, c);
    }
  }

  /** Every message leads the estimate to the measurement, along the constant-velocity prediction, or in between. */
  lemma {:induction false} StepFollows(f: Filter, r: Reading, c: Params)
    requires Consistent(f, c) && c.sigmaR > 0.0
    ensures Follows(f, r, Step(f, r, c).0, Step(f, r, c).1, c)
  {
    if c.enabled && Measured(r) && f.initialized {
      var dt, m := Elapsed(f, r.t), PositionOf(r);
      PredictedConsistent(f, r.t, c);
      AxisStep(f.x, m.x, dt, c);
      AxisStep(f.y, m.y, dt, c);
      AxisStep(f.z, m.z, dt, c);
    }
  }

  // ---- Whole runs ----

  /** The states before, between and after the messages, and what became of each message. */
  function Outcomes(f: Filter, rs: seq<Reading>, c: Params): seq<Outcome>
    requires Consistent(f, c) && c.sigmaR > 0.0
    decreases rs
  {
    if rs == [] then []
    else
      StepConsistent(f, rs[0], c);
      [Step(f, rs[0], c).1] + Outcomes(Step(f, rs[0], c).0, rs[1..], c)
  }

  function After(f: Filter, rs: seq<Reading>, c: Params): (g: Filter)
    requires Consistent(f, c) && c.sigmaR > 0.0
    ensures Consistent(g, c)
    decreases rs
  {
    if rs == [] then f
    else
      StepConsistent(f, rs[0], c);
      After(Step(f, rs[0], c).0, rs[1..], c)
  }

  /** Only rejected and ignored messages. */
  predicate AllCoast(os: seq<Outcome>) {
    forall i :: 0 <= i < |os| ==> os[i] == Coasting || os[i] == Ignored
  }

  /** The gate never shrinks while the filter coasts. */
  lemma {:induction false} CoastingGrowsGate(f: Filter, rs: seq<Reading>, c: Params)
    requires Consistent(f, c) && c.sigmaR > 0.0 && f.initialized && AllCoast(Outcomes(f, rs, c))
    ensures After(f, rs, c).initialized && Innovation(After(f, rs, c).x, c) >= Innovation(f.x, c)
    decreases rs
  {
    if rs != [] {
      var os := Outcomes(f, rs, c);
      var g := Step(f, rs[0], c).0;
      StepConsistent(f, rs[0], c);
      assert os[0] == Step(f, rs[0], c).1 && os[1..] == Outcomes(g, rs[1..], c);
      if os[0] == Coasting {
        PredictedConsistent(f, rs[0].t, c);
      }
      CoastingGrowsGate(g, rs[1..], c);
    }
  }

  function Count(os: seq<Outcome>): nat {
    if os == [] then 0 else (if os[0] == Coasting then 1 else 0) + Count(os[1..])
  }

  /** While the filter coasts, its count of rejects counts them. */
  lemma {:induction false} RejectsCounted(f: Filter, rs: seq<Reading>, c: Params)
    requires Consistent(f, c) && c.sigmaR > 0.0 && f.initialized && AllCoast(Outcomes(f, rs, c))
    ensures After(f, rs, c).initialized && After(f, rs, c).rejects == f.rejects + Count(Outcomes(f, rs, c))
    decreases rs
  {
    if rs != [] {
      var os := Outcomes(f, rs, c);
      var g := Step(f, rs[0], c).0;
      StepConsistent(f, rs[0], c);
      assert os[0] == Step(f, rs[0], c).1 && os[1..] == Outcomes(g, rs[1..], c);
      if os[0] == Coasting {
        PredictedConsistent(f, rs[0].t, c);
      }
      RejectsCounted(g, rs[1..], c);
    }
  }

  /** A reset onto the measurement comes exactly with the reject that fills the limit. */
  lemma {:induction false} FollowedWhenFull(f: Filter, rs: seq<Reading>, c: Params, n: nat)
    requires Consistent(f, c) && c.sigmaR > 0.0 && f.initialized && n < |Outcomes(f, rs, c)|
    requires AllCoast(Outcomes(f, rs, c)[..n]) && Outcomes(f, rs, c)[n] == Followed
    ensures f.rejects + Count(Outcomes(f, rs, c)[..n]) + 1 == RejectLimit(c)
    decreases rs
  {
    var os := Outcomes(f, rs, c);
    StepConsistent(f, rs[0], c);
    StepFollows(f, rs[0], c);
    var g := Step(f, rs[0], c).0;
    assert os[0] == Step(f, rs[0], c).1 && os[1..] == Outcomes(g, rs[1..], c);
    if n > 0 {
      assert os[..n][0] == os[0] && os[..n][1..] == os[1..][..n - 1];
      FollowedWhenFull(g, rs[1..], c, n - 1);
    }
  }

  predicate AllUsable(rs: seq<Reading>, c: Params) {
    c.enabled && forall i :: 0 <= i < |rs| ==> Measured(rs[i])
  }

  lemma {:induction false} UsableCoastCount(f: Filter, rs: seq<Reading>, c: Params)
    requires Consistent(f, c) && c.sigmaR > 0.0 && AllUsable(rs, c) && AllCoast(Outcomes(f, rs, c))
    ensures Count(Outcomes(f, rs, c)) == |rs|
    decreases rs
  {
    if rs != [] {
      var os := Outcomes(f, rs, c);
      StepConsistent(f, rs[0], c);
      assert os[0] == Step(f, rs[0], c).1 && os[1..] == Outcomes(Step(f, rs[0], c).0, rs[1..], c);
      UsableCoastCount(Step(f, rs[0], c).0, rs[1..], c);
    }
  }

  /** Among any maxRejects consecutive messages at least one is accepted or reset onto. */
  lemma {:induction false} NeverStuck(f: Filter, rs: seq<Reading>, c: Params)
    requires Consistent(f, c) && c.sigmaR > 0.0 && f.initialized
    requires AllUsable(rs, c) && |rs| >= RejectLimit(c)
    ensures exists i ::
              0 <= i < |rs| && i < |Outcomes(f, rs, c)|
              && (Outcomes(f, rs, c)[i] == Accepted || Outcomes(f, rs, c)[i] == Followed)
  {
    var os := Outcomes(f, rs, c);
    OutcomeKinds(f, rs, c);
    if AllCoast(os) {
      RejectsCounted(f, rs, c);
      UsableCoastCount(f, rs, c);
    }
  }

  lemma {:induction false} OutcomeKinds(f: Filter, rs: seq<Reading>, c: Params)
    requires Consistent(f, c) && c.sigmaR > 0.0 && f.initialized
    ensures |Outcomes(f, rs, c)| == |rs| && forall i :: 0 <= i < |rs| ==> Outcomes(f, rs, c)[i] != Started
    decreases rs
  {
    if rs != [] {
      StepConsistent(f, rs[0], c);
      if Step(f, rs[0], c).1 == Coasting {
        PredictedConsistent(f, rs[0].t, c);
      }
      OutcomeKinds(Step(f, rs[0], c).0, rs[1..], c);
    }
  }

  // ---- Published stamps ----

  function Lead(f: Filter, clock: real, c: Params): real {
    var dt := if clock - f.lastUpdate < 0.0 then 0.0 else clock - f.lastUpdate;
    if dt > c.extrapMax then c.extrapMax else dt
  }

  function Stamp(f: Filter, clock: real, c: Params): real {
    f.lastUpdate + Lead(f, clock, c)
  }

  /**
    A stamp depends on the last update and the clock only, and falls with neither; it never leads by more than
    extrapMax.
   */
  lemma {:induction false} StampMonotone(f: Filter, clock: real, g: Filter, later: real, c: Params)
    requires f.lastUpdate <= g.lastUpdate && clock <= later
    ensures Stamp(f, clock, c) <= Stamp(g, later, c)
    ensures Stamp(g, later, c) - g.lastUpdate <= c.extrapMax
  {
  }

  /** A stamp is the clock reading, held within extrapMax behind the last update. */
  lemma {:induction false} StampMeaning(f: Filter, clock: real, c: Params)
    requires c.extrapMax >= 0.0
    ensures f.lastUpdate <= clock <= f.lastUpdate + c.extrapMax ==> Stamp(f, clock, c) == clock
    ensures clock <= f.lastUpdate ==> Stamp(f, clock, c) == f.lastUpdate
    ensures f.lastUpdate + c.extrapMax <= clock ==> Stamp(f, clock, c) == f.lastUpdate + c.extrapMax
  {
  }

  datatype Event = Odometry(r: Reading) | Publish(clock: real)

  /** Message times and clock readings never go back. */
  predicate Forward(last: real, clock: real, es: seq<Event>)
    decreases es
  {
    es != [] ==>
      match es[0]
      case Odometry(r) => last <= r.t && Forward(r.t, clock, es[1..])
      case Publish(now) => clock <= now && Forward(last, now, es[1..])
  }

  /** The stamps published over a run. */
  function Stamps(f: Filter, es: seq<Event>, c: Params): seq<real>
    requires Consistent(f, c) && c.sigmaR > 0.0
    decreases es
  {
    if es == [] then []
    else
      match es[0]
      case Odometry(r) =>
        StepConsistent(f, r, c);
        Stamps(Step(f, r, c).0, es[1..], c)
      case Publish(now) => [Stamp(f, now, c)] + Stamps(f, es[1..], c)
  }

  predicate Sorted(s: seq<real>) {
    forall i, j :: 0 <= i < j < |s| ==> s[i] <= s[j]
  }

  predicate AllFrom(s: seq<real>, low: real) {
    forall i :: 0 <= i < |s| ==> low <= s[i]
  }

  lemma {:induction false} StepTime(f: Filter, r: Reading, c: Params)
    requires Consistent(f, c) && c.sigmaR > 0.0 && f.initialized && f.lastUpdate <= r.t
    ensures Step(f, r, c).0.initialized && f.lastUpdate <= Step(f, r, c).0.lastUpdate <= r.t
  {
    if c.enabled && Measured(r) {
      PredictedConsistent(f, r.t, c);
    }
  }

  /** Published stamps never go backwards, whatever the filter does with the messages between them. */
  lemma {:induction false} StampsNeverGoBack(f: Filter, es: seq<Event>, c: Params, last: real, clock: real)
    requires Consistent(f, c) && c.sigmaR > 0.0 && f.initialized && f.lastUpdate <= last && Forward(last, clock, es)
    ensures Sorted(Stamps(f, es, c)) && AllFrom(Stamps(f, es, c), Stamp(f, clock, c))
    decreases es
  {
    if es != [] {
      match es[0]
      case Odometry(r) =>
        StepConsistent(f, r, c);
        StepTime(f, r, c);
        StampMonotone(f, clock, Step(f, r, c).0, clock, c);
        StampsNeverGoBack(Step(f, r, c).0, es[1..], c, r.t, clock);
      case Publish(now) =>
        StampMonotone(f, clock, f, now, c);
        StampsNeverGoBack(f, es[1..], c, last, now);
        var rest := Stamps(f, es[1..], c);
        assert Stamps(f, es, c) == [Stamp(f, now, c)] + rest;
    }
  }

  // ---- The filter object ----

  class PoseEKF {
    const c: Params
    const ax: array<Axis>
    var initialized: bool
    var lastUpdateT: real
    var rejectCount: int

    ghost function State(): Filter
      requires ax.Length == 3
      reads this, ax
    {
      Filter(ax[0], ax[1], ax[2], initialized, lastUpdateT, rejectCount)
    }

    ghost predicate Valid()
      reads this, ax
    {
      ax.Length == 3 && c.sigmaR > 0.0 && Consistent(State(), c)
    }

    constructor (c: Params)
      requires c.sigmaR > 0.0
      ensures Valid() && fresh(ax) && this.c == c && !initialized
    {
      this.c := c;
      ax := new Axis[3](_ => Axis(0.0, 0.0, 0.0, 0.0, 0.0, 0.0));
      initialized, lastUpdateT, rejectCount := false, 0.0, 0;
    }

    /** Starts over at a measurement. */
    method Reset(m: Position, t: real)
      requires ax.Length == 3 && c.sigmaR > 0.0
      modifies this, ax
      ensures Valid() && State() == ResetAt(m, t, c)
    {
      var z := [m.x, m.y, m.z];
      for i := 0 to 3
        invariant forall k :: 0 <= k < i ==> ax[k] == ResetAxis(z[k], c)
      {
        ax[i] := ResetAxis(z[i], c);
      }
      initialized, lastUpdateT, rejectCount := true, t, 0;
      ResetSound(m.x, c);
    }

    method Predict(dt: real)
      requires ax.Length == 3
      modifies ax
      ensures forall k :: 0 <= k < 3 ==> ax[k] == PredictAxis(old(ax[k]), dt, c)
    {
      if dt <= 0.0 {
        return;
      }
      for i := 0 to 3
        invariant forall k :: 0 <= k < 3 ==> ax[k] == if k < i then PredictAxis(old(ax[k]), dt, c) else old(ax[k])
      {
        ax[i] := PredictAxis(ax[i], dt, c);
      }
    }

    /** One odometry position: predict to its time, gate it, update or coast; the filtered position is written back. */
    method FilterPosition(r: Reading) returns (out: Reading, ghost outcome: Outcome)
      requires Valid()
      modifies this, ax
      ensures Valid() && (State(), outcome) == Step(old(State()), r, c)
      ensures Follows(old(State()), r, State(), outcome, c)
      ensures out == if outcome == Ignored then r else Reading(Some(ax[0].p), Some(ax[1].p), Some(ax[2].p), r.t)
    {
      StepConsistent(State(), r, c);
      StepFollows(State(), r, c);
      ghost var f := State();
      if !c.enabled || r.x.None? || r.y.None? || r.z.None? {
        return r, Ignored;
      }
      var m := Position(r.x.value, r.y.value, r.z.value);
      if !initialized {
        Reset(m, r.t);
        outcome := Started;
        out := WriteBack(r.t);
        return;
      }
      var dt := r.t - lastUpdateT;
      if dt < 0.0 {
        dt := 0.0;
      }
      PredictedConsistent(f, r.t, c);
      Predict(dt);
      lastUpdateT := r.t;
      assert State() == Predicted(f, r.t, c);
      outcome := Judge(m, r.t);
      out := WriteBack(r.t);
    }

    /** The gate, and what follows from it. */
    method Judge(m: Position, t: real) returns (ghost outcome: Outcome)
      requires ax.Length == 3 && c.sigmaR > 0.0 && Divisible(State(), c)
      modifies this, ax
      ensures (State(), outcome) == Judged(old(State()), m, t, c)
    {
      var d2 := Term(ax[0], m.x, c) + Term(ax[1], m.y, c) + Term(ax[2], m.z, c);
      if d2 > c.gateThresh {
        rejectCount := rejectCount + 1;
        outcome := Coasting;
        if rejectCount >= c.maxRejects {
          Reset(m, t);
          outcome := Followed;
        }
      } else {
        outcome := Accepted;
        rejectCount := 0;
        Update(m);
      }
    }

    method Update(m: Position)
      requires ax.Length == 3 && Divisible(State(), c)
      modifies ax
      ensures State() == Updated(old(State()), m, c).(rejects := rejectCount)
      ensures Pulled(old(ax[0]), ax[0], m.x, c) && Pulled(old(ax[1]), ax[1], m.y, c)
              && Pulled(old(ax[2]), ax[2], m.z, c)
    {
      UpdatePull(ax[0], m.x, c);
      UpdatePull(ax[1], m.y, c);
      UpdatePull(ax[2], m.z, c);
      var z := [m.x, m.y, m.z];
      ghost var before := ax[..];
      for i := 0 to 3
        invariant Divisible(Filter(before[0], before[1], before[2], initialized, lastUpdateT, rejectCount), c)
        invariant forall k :: 0 <= k < 3 ==> Innovation(before[k], c) != 0.0
        invariant forall k :: 0 <= k < 3 ==> ax[k] == if k < i then UpdateAxis(before[k], z[k], c) else before[k]
      {
        ax[i] := UpdateAxis(ax[i], z[i], c);
      }
    }

    method WriteBack(t: real) returns (out: Reading)
      requires ax.Length == 3
      ensures out == Reading(Some(ax[0].p), Some(ax[1].p), Some(ax[2].p), t)
    {
      out := Reading(Some(ax[0].p), Some(ax[1].p), Some(ax[2].p), t);
    }

    /** The position and stamp to publish at a clock reading; the filter does not change. */
    method ExtrapolateTo(clock: real) returns (pos: Position, stamp: real)
      requires Valid()
      ensures stamp == Stamp(State(), clock, c) <= lastUpdateT + c.extrapMax
      ensures c.extrapMax >= 0.0 ==> lastUpdateT <= stamp
      ensures lastUpdateT <= clock <= lastUpdateT + c.extrapMax ==> stamp == clock
      ensures pos == Position(ax[0].p + ax[0].v * (stamp - lastUpdateT),
                              ax[1].p + ax[1].v * (stamp - lastUpdateT),
                              ax[2].p + ax[2].v * (stamp - lastUpdateT))
    {
      var dt := clock - lastUpdateT;
      if dt < 0.0 {
        dt := 0.0;
      }
      if dt > c.extrapMax {
        dt := c.extrapMax;
      }
      pos := Position(ax[0].p + ax[0].v * dt, ax[1].p + ax[1].v * dt, ax[2].p + ax[2].v * dt);
      stamp := lastUpdateT + dt;
      assert stamp - lastUpdateT == dt;
    }
  }
}
