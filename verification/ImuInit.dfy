/** The accumulation of inertial samples over restartable windows, and the acceptance of a still window. */
module ImuInit {
  import Folding
  import opened Reals

  /** Message times are unsigned. */
  type Time = t: real | t >= 0.0 witness 0.0

  datatype Imu = Imu(stamp: Time, acc: Vec, gyr: Vec)

  datatype Limits = Limits(duration: real, expectedAccNorm: real, accNormTolerance: real,
                           maxGyrNorm: real, maxAccStd: real, maxGyrStd: real)

  // ---- Statistics of one channel ----

  function Sum(xs: seq<real>): real {
    if xs == [] then 0.0 else Sum(xs[..|xs| - 1]) + xs[|xs| - 1]
  }

  /** The sum of squared deviations from `m`. */
  function Deviations(xs: seq<real>, m: real): real {
    if xs == [] then 0.0 else Deviations(xs[..|xs| - 1], m) + Times(xs[|xs| - 1] - m, xs[|xs| - 1] - m)
  }

  function Mean(xs: seq<real>): real {
    if xs == [] then 0.0 else Sum(xs) / |xs| as real
  }

  /** The unbiased sample variance; zero for fewer than two samples. */
  function Variance(xs: seq<real>): real {
    if |xs| < 2 then 0.0 else Deviations(xs, Mean(xs)) / (|xs| as real - 1.0)
  }

  /** The squared differences of all pairs of a sample of `xs` and one of `ys`, summed up. */
  function Pairs(xs: seq<real>, ys: seq<real>): real {
    if xs == [] then 0.0 else Pairs(xs[..|xs| - 1], ys) + Deviations(ys, xs[|xs| - 1])
  }

  /** The running mean and the running sum M2 are those of the samples as a batch. */
  ghost predicate Tracks(xs: seq<real>, mean: real, m2: real) {
    forall k :: Folding.Open(k) ==> mean == Mean(xs) && m2 == Deviations(xs, mean)
  }

  lemma {:induction false} SumStep(xs: seq<real>, x: real)
    ensures Sum(xs + [x]) == Sum(xs) + x
  {
    assert (xs + [x])[..|xs|] == xs;
  }

  lemma {:induction false} DeviationsStep(xs: seq<real>, x: real, m: real)
    ensures Deviations(xs + [x], m) == Deviations(xs, m) + Times(x - m, x - m)
  {
    assert (xs + [x])[..|xs|] == xs;
  }

  /** How sums of squared deviations from two centres `m` and `q` differ, for n samples with sum s. */
  ghost predicate Shifted(fromQ: real, fromM: real, s: real, n: real, m: real, q: real) {
    forall k :: Folding.Open(k) ==> fromQ == fromM + 2.0 * (s - n * m) * (m - q) + n * Times(m - q, m - q)
  }

  lemma {:induction false} ShiftOne(x: real, m: real, q: real)
    ensures Times(x - q, x - q) == Times(x - m, x - m) + 2.0 * (x - m) * (m - q) + Times(m - q, m - q)
  {
  }

  lemma {:induction false} ShiftTotal(s: real, x: real, n: real, m: real, q: real)
    ensures 2.0 * (s - (n - 1.0) * m) * (m - q) + (n - 1.0) * Times(m - q, m - q)
            + 2.0 * (x - m) * (m - q) + Times(m - q, m - q)
         == 2.0 * (s + x - n * m) * (m - q) + n * Times(m - q, m - q)
  {
  }

  lemma {:induction false} ShiftStep(fromQ: real, fromM: real, s: real, x: real, n: real, m: real, q: real)
    requires Shifted(fromQ, fromM, s, n - 1.0, m, q)
    ensures Shifted(fromQ + Times(x - q, x - q), fromM + Times(x - m, x - m), s + x, n, m, q)
  {
    assert Folding.Open(0);
    ShiftOne(x, m, q);
    ShiftTotal(s, x, n, m, q);
  }

  lemma {:induction false} ShiftNone(m: real, q: real)
    ensures Shifted(0.0, 0.0, 0.0, 0.0, m, q)
  {
    assert 2.0 * (0.0 - 0.0 * m) * (m - q) == 0.0;
  }

  lemma {:induction false} Shift(xs: seq<real>, n: nat, m: real, q: real)
    requires n == |xs|
    ensures Shifted(Deviations(xs, q), Deviations(xs, m), Sum(xs), n as real, m, q)
  {
    if n == 0 {
      ShiftNone(m, q);
    } else {
      var x, rest := xs[n - 1], xs[..n - 1];
      Shift(rest, n - 1, m, q);
      ShiftStep(Deviations(rest, q), Deviations(rest, m), Sum(rest), x, n as real, m, q);
    }
  }

  lemma {:induction false} MeanStep(s: real, x: real, n: real, mean: real)
    requires n >= 1.0 && (n - 1.0) * mean == s
    ensures mean + (x - mean) / n == (s + x) / n
  {
    assert n * mean + (x - mean) == s + x;
    assert (n * mean + (x - mean)) / n == mean + (x - mean) / n;
  }

  lemma {:induction false} SpreadStep(n: real, x: real, mean: real, next: real)
    requires n >= 1.0 && next == mean + (x - mean) / n
    ensures (n - 1.0) * Times(mean - next, mean - next) + Times(x - next, x - next) == (x - mean) * (x - next)
  {
    var e := (x - mean) / n;
    assert x - mean == n * e;
    assert mean - next == -e;
    assert x - next == n * e - e;
    assert Times(-e, -e) == e * e;
    assert Times(n * e - e, n * e - e) == (n - 1.0) * ((n - 1.0) * (e * e));
    assert (n * e) * (n * e - e) == n * ((n - 1.0) * (e * e));
    assert (n - 1.0) * (e * e) + (n - 1.0) * ((n - 1.0) * (e * e)) == n * ((n - 1.0) * (e * e));
  }

  lemma {:induction false} MeanTotal(xs: seq<real>, n: nat)
    requires n == |xs|
    ensures n as real * Mean(xs) == Sum(xs)
  {
  }

  /** A sum over pairs, k of one side with deviations e from a centre, n of the other with deviations d. */
  ghost predicate PairsSplit(p: real, k: real, n: real, d: real, e: real) {
    forall j :: Folding.Open(j) ==> p == k * d + n * e
  }

  lemma {:induction false} PairsNone(n: real, d: real)
    ensures PairsSplit(0.0, 0.0, n, d, 0.0)
  {
  }

  /** One more sample `q` on the first side; `fromQ` are the deviations of the other side from it. */
  lemma {:induction false} PairsStep(p: real, k: real, n: real, d: real, e: real, fromQ: real, s: real, m: real,
                                     q: real)
    requires PairsSplit(p, k - 1.0, n, d, e) && Shifted(fromQ, d, s, n, m, q) && n * m == s
    ensures PairsSplit(p + fromQ, k, n, d, e + Times(q - m, q - m))
  {
    assert Folding.Open(0);
    var t := Times(q - m, q - m);
    assert t == Times(m - q, m - q);
    assert 2.0 * (s - n * m) * (m - q) == 0.0;
    assert (k - 1.0) * d == k * d - d && n * (e + t) == n * e + n * t;
  }

  lemma {:induction false} PairsAround(xs: seq<real>, k: nat, ys: seq<real>, n: nat, m: real)
    requires k == |xs| && n == |ys| && m == Mean(ys)
    ensures PairsSplit(Pairs(xs, ys), k as real, n as real, Deviations(ys, m), Deviations(xs, m))
  {
    if k == 0 {
      PairsNone(n as real, Deviations(ys, m));
    } else {
      var q, rest := xs[k - 1], xs[..k - 1];
      PairsAround(rest, k - 1, ys, n, m);
      Shift(ys, n, m, q);
      MeanTotal(ys, n);
      PairsStep(Pairs(rest, ys), k as real, n as real, Deviations(ys, m), Deviations(rest, m), Deviations(ys, q),
          Sum(ys),
                m, q);
    }
  }

  /** The sample variance without the mean: 2 n (n - 1) times it is the sum over all pairs of squared differences. */
  lemma {:induction false} VarianceOfPairs(xs: seq<real>, n: nat)
    requires n == |xs| > 1
    ensures 2.0 * n as real * (n as real - 1.0) * Variance(xs) == Pairs(xs, xs)
  {
    PairsAround(xs, n, xs, n, Mean(xs));
    PairsTotal(Pairs(xs, xs), n as real, Deviations(xs, Mean(xs)), Variance(xs));
  }

  lemma {:induction false} PairsTotal(p: real, n: real, d: real, v: real)
    requires PairsSplit(p, n, n, d, d) && n > 1.0 && v == d / (n - 1.0)
    ensures 2.0 * n * (n - 1.0) * v == p
  {
    assert Folding.Open(0);
    assert (n - 1.0) * v == d;
    assert 2.0 * n * (n - 1.0) * v == 2.0 * n * ((n - 1.0) * v);
  }

  /** The running mean after one more sample, the n-th. */
  function NextMean(mean: real, x: real, n: nat): real
    requires n > 0
  {
    mean + (x - mean) / n as real
  }

  /** The running sum M2 after one more sample: the old deviation times the new one. */
  function NextM2(m2: real, mean: real, x: real, next: real): real {
    m2 + (x - mean) * (x - next)
  }

  /** The new sum of squared deviations, once the mean is known to be the batch mean. */
  lemma {:induction false} SpreadShift(fromQ: real, fromM: real, s: real, n: nat, x: real, mean: real, next: real)
    requires Shifted(fromQ, fromM, s, n as real, mean, next)
    requires n as real * mean == s && next == NextMean(mean, x, n + 1)
    ensures fromQ + Times(x - next, x - next) == NextM2(fromM, mean, x, next)
  {
    assert Folding.Open(0);
    var c := (n + 1) as real;
    assert 2.0 * (s - (c - 1.0) * mean) * (mean - next) == 0.0;
    SpreadStep(c, x, mean, next);
  }

  lemma {:induction false} BatchMeanStep(xs: seq<real>, n: nat, mean: real, x: real)
    requires n == |xs| && mean == Mean(xs)
    ensures NextMean(mean, x, n + 1) == Mean(xs + [x])
  {
    MeanTotal(xs, n);
    SumStep(xs, x);
    MeanStep(Sum(xs), x, (n + 1) as real, mean);
  }

  lemma {:induction false} BatchM2Step(xs: seq<real>, n: nat, mean: real, x: real, next: real)
    requires n == |xs| && mean == Mean(xs) && next == NextMean(mean, x, n + 1)
    ensures Deviations(xs + [x], next) == NextM2(Deviations(xs, mean), mean, x, next)
  {
    MeanTotal(xs, n);
    DeviationsStep(xs, x, next);
    Shift(xs, n, mean, next);
    SpreadShift(Deviations(xs, next), Deviations(xs, mean), Sum(xs), n, x, mean, next);
  }

  /** One step of Welford's algorithm keeps the running values equal to the batch values. */
  lemma {:induction false} WelfordStep(xs: seq<real>, n: nat, mean: real, m2: real, x: real)
    requires Tracks(xs, mean, m2) && n == |xs|
    ensures var next := NextMean(mean, x, n + 1); Tracks(xs + [x], next, NextM2(m2, mean, x, next))
  {
    assert Folding.Open(0);
    BatchMeanStep(xs, n, mean, x);
    BatchM2Step(xs, n, mean, x, NextMean(mean, x, n + 1));
  }

  // ---- Six channels: three of acceleration, three of angular velocity ----

  type Channel = i: int | 0 <= i < 6

  function Component(acc: Vec, gyr: Vec, k: Channel): real {
    if k == 0 then acc.x else if k == 1 then acc.y else if k == 2 then acc.z
    else if k == 3 then gyr.x else if k == 4 then gyr.y else gyr.z
  }

  function Values(w: seq<Imu>, k: Channel): (xs: seq<real>)
    ensures |xs| == |w|
  {
    seq(|w|, i requires 0 <= i < |w| => Component(w[i].acc, w[i].gyr, k))
  }

  function NextMeans(mean: Vec, cur: Vec, n: nat): Vec
    requires n > 0
  {
    Vec(NextMean(mean.x, cur.x, n), NextMean(mean.y, cur.y, n), NextMean(mean.z, cur.z, n))
  }

  function NextM2s(m2: Vec, mean: Vec, cur: Vec, next: Vec): Vec {
    Vec(NextM2(m2.x, mean.x, cur.x, next.x), NextM2(m2.y, mean.y, cur.y, next.y), NextM2(m2.z, mean.z, cur.z, next.z))
  }

  /** The running statistics of all channels are those of the window as a batch. */
  ghost predicate WindowTracks(w: seq<Imu>, meanAcc: Vec, meanGyr: Vec, accM2: Vec, gyrM2: Vec) {
    forall k: Channel :: Tracks(Values(w, k), Component(meanAcc, meanGyr, k), Component(accM2, gyrM2, k))
  }

  lemma {:induction false} EmptyTracks()
    ensures WindowTracks([], ZERO_VEC, ZERO_VEC, ZERO_VEC, ZERO_VEC)
  {
  }

  lemma {:induction false} ValuesStep(w: seq<Imu>, s: Imu, k: Channel)
    ensures Values(w + [s], k) == Values(w, k) + [Component(s.acc, s.gyr, k)]
  {
  }

  lemma {:induction false} ChannelStep(w: seq<Imu>, n: nat, s: Imu, xs: seq<real>, x: real, mean: real, m2: real,
                                       k: Channel)
    requires n == |w| && xs == Values(w, k) && x == Component(s.acc, s.gyr, k) && Tracks(xs, mean, m2)
    ensures var next := NextMean(mean, x, n + 1); Tracks(Values(w + [s], k), next, NextM2(m2, mean, x, next))
  {
    ValuesStep(w, s, k);
    WelfordStep(xs, n, mean, m2, x);
  }

  lemma {:induction false} WindowStep(w: seq<Imu>, n: nat, s: Imu, meanAcc: Vec, meanGyr: Vec, accM2: Vec, gyrM2: Vec)
    requires WindowTracks(w, meanAcc, meanGyr, accM2, gyrM2) && n == |w|
    ensures var a, g := NextMeans(meanAcc, s.acc, n + 1), NextMeans(meanGyr, s.gyr, n + 1);
            WindowTracks(w + [s], a, g, NextM2s(accM2, meanAcc, s.acc, a), NextM2s(gyrM2, meanGyr, s.gyr, g))
  {
    var a, g := NextMeans(meanAcc, s.acc, n + 1), NextMeans(meanGyr, s.gyr, n + 1);
    var p, q := NextM2s(accM2, meanAcc, s.acc, a), NextM2s(gyrM2, meanGyr, s.gyr, g);
    forall k: Channel ensures Tracks(Values(w + [s], k), Component(a, g, k), Component(p, q, k)) {
      ChannelStep(w, n, s, Values(w, k), Component(s.acc, s.gyr, k), Component(meanAcc, meanGyr, k), Component(accM2,
          gyrM2, k), k);
    }
  }

  // ---- Acceptance, on batch statistics ----

  function MeanAcc(w: seq<Imu>): Vec {
    Vec(Mean(Values(w, 0)), Mean(Values(w, 1)), Mean(Values(w, 2)))
  }

  function MeanGyr(w: seq<Imu>): Vec {
    Vec(Mean(Values(w, 3)), Mean(Values(w, 4)), Mean(Values(w, 5)))
  }

  /** A norm, given by its square, lies within `t` of `e`. */
  predicate NormWithin(norm2: real, e: real, t: real) {
    && t >= 0.0 && (e - t <= 0.0 || norm2 >= Times(e - t, e - t))
    && e + t >= 0.0 && norm2 <= Times(e + t, e + t)
  }

  lemma {:induction false} NormWithinMeans(norm: real, e: real, t: real)
    requires norm >= 0.0
    ensures NormWithin(Times(norm, norm), e, t) <==> -t <= norm - e <= t
  {
    if t >= 0.0 {
      if e - t > 0.0 {
        SquareOrder(e - t, norm);
      }
      if e + t >= 0.0 {
        SquareOrder(norm, e + t);
      }
    }
  }

  /** A square root, given by its square, is at most `limit`; a negative square counts as zero. */
  predicate RootAtMost(square: real, limit: real) {
    limit >= 0.0 && (square <= 0.0 || square <= Times(limit, limit))
  }

  lemma {:induction false} RootAtMostMeans(square: real, root: real, limit: real)
    requires root >= 0.0 && Times(root, root) == if square > 0.0 then square else 0.0
    ensures RootAtMost(square, limit) <==> root <= limit
  {
    if limit >= 0.0 {
      SquareOrder(root, limit);
      Square(limit);
    }
  }

  function StdLimit(c: Limits, k: Channel): real {
    if k < 3 then c.maxAccStd else c.maxGyrStd
  }

  /** The means are those of a sensor at rest, and every channel's true sample variance is within its limit. */
  ghost predicate Steady(w: seq<Imu>, c: Limits) {
    && Norm2(MeanAcc(w)) > 0.000000000001
    && NormWithin(Norm2(MeanAcc(w)), c.expectedAccNorm, c.accNormTolerance)
    && RootAtMost(Norm2(MeanGyr(w)), c.maxGyrNorm)
    && forall k: Channel :: RootAtMost(Variance(Values(w, k)), StdLimit(c, k))
  }

  /** `norm` is the length of `v`. */
  ghost predicate IsNorm(norm: real, v: Vec) {
    norm >= 0.0 && norm * norm == v.x * v.x + v.y * v.y + v.z * v.z
  }

  /** The test in norms and standard deviations: five limits, the last two for three channels each. */
  lemma {:induction false} SteadyMeaning(w: seq<Imu>, c: Limits, acc: real, gyr: real, std: seq<real>)
    requires IsNorm(acc, MeanAcc(w)) && IsNorm(gyr, MeanGyr(w)) && |std| == 6
    requires forall k: Channel :: IsRoot(std[k], Variance(Values(w, k)))
    ensures Steady(w, c) <==>
              && acc > 0.000001
              && -c.accNormTolerance <= acc - c.expectedAccNorm <= c.accNormTolerance
              && gyr <= c.maxGyrNorm
              && std[0] <= c.maxAccStd && std[1] <= c.maxAccStd && std[2] <= c.maxAccStd
              && std[3] <= c.maxGyrStd && std[4] <= c.maxGyrStd && std[5] <= c.maxGyrStd
  {
    NormAway(acc, MeanAcc(w));
    NormWithinMeans(acc, c.expectedAccNorm, c.accNormTolerance);
    NormRoot(gyr, MeanGyr(w), c.maxGyrNorm);
    RootsMean(w, c, std);
  }

  lemma {:induction false} NormAway(norm: real, v: Vec)
    requires IsNorm(norm, v)
    ensures Norm2(v) == Times(norm, norm) && (Norm2(v) > 0.000000000001 <==> norm > 0.000001)
  {
    SquareOrder(norm, 0.000001);
  }

  lemma {:induction false} NormRoot(norm: real, v: Vec, limit: real)
    requires IsNorm(norm, v)
    ensures RootAtMost(Norm2(v), limit) <==> norm <= limit
  {
    Square(norm);
    RootAtMostMeans(Norm2(v), norm, limit);
  }

  /** `root` is the square root of `square`. */
  ghost predicate IsRoot(root: real, square: real) {
    root >= 0.0 && root * root == square
  }

  lemma {:induction false} RootsMean(w: seq<Imu>, c: Limits, std: seq<real>)
    requires |std| == 6 && forall k: Channel :: IsRoot(std[k], Variance(Values(w, k)))
    ensures (forall k: Channel :: RootAtMost(Variance(Values(w, k)), StdLimit(c, k))) <==>
              && std[0] <= c.maxAccStd && std[1] <= c.maxAccStd && std[2] <= c.maxAccStd
              && std[3] <= c.maxGyrStd && std[4] <= c.maxGyrStd && std[5] <= c.maxGyrStd
  {
    forall k: Channel
      ensures RootAtMost(Variance(Values(w, k)), StdLimit(c, k)) <==> std[k] <= StdLimit(c, k)
    {
      assert IsRoot(std[k], Variance(Values(w, k)));
      Square(std[k]);
      RootAtMostMeans(Variance(Values(w, k)), std[k], StdLimit(c, k));
    }
    var good := forall k: Channel :: RootAtMost(Variance(Values(w, k)), StdLimit(c, k));
    if good {
      assert RootAtMost(Variance(Values(w, 0)), StdLimit(c, 0)) && RootAtMost(Variance(Values(w, 1)), StdLimit(c, 1));
      assert RootAtMost(Variance(Values(w, 2)), StdLimit(c, 2)) && RootAtMost(Variance(Values(w, 3)), StdLimit(c, 3));
      assert RootAtMost(Variance(Values(w, 4)), StdLimit(c, 4)) && RootAtMost(Variance(Values(w, 5)), StdLimit(c, 5));
    }
  }

  /** When the window begins: with its first sample, or with the last sample of the window rejected before it. */
  function Begin(before: seq<Imu>, w: seq<Imu>): Time
    requires w != []
  {
    if before == [] then w[0].stamp else before[|before| - 1].stamp
  }

  /** The window spans the configured duration. */
  predicate Long(before: seq<Imu>, w: seq<Imu>, c: Limits)
    requires w != []
  {
    w[|w| - 1].stamp - Begin(before, w) >= c.duration
  }

  predicate AllRootsAtMost(a: Vec, limit: real) {
    RootAtMost(a.x, limit) && RootAtMost(a.y, limit) && RootAtMost(a.z, limit)
  }

  /** The variance of a channel, from its running M2. */
  lemma {:induction false} RunningVariance(xs: seq<real>, n: nat, mean: real, m2: real)
    requires Tracks(xs, mean, m2) && n == |xs| > 1
    ensures m2 / (n as real - 1.0) == Variance(xs)
  {
    assert Folding.Open(0);
  }

  function Quotient(a: Vec, n: real): Vec
    requires n != 0.0
  {
    Vec(a.x / n, a.y / n, a.z / n)
  }

  /** The running covariances are the batch variances. */
  ghost predicate CovTracks(w: seq<Imu>, covAcc: Vec, covGyr: Vec) {
    forall k: Channel :: Component(covAcc, covGyr, k) == Variance(Values(w, k))
  }

  /** What IMU_init leaves in the covariances: unchanged, and still zero, for a single sample. */
  lemma {:induction false} CovStep(w: seq<Imu>, n: nat, meanAcc: Vec, meanGyr: Vec, accM2: Vec, gyrM2: Vec)
    requires WindowTracks(w, meanAcc, meanGyr, accM2, gyrM2) && n == |w|
    ensures n > 1 ==> CovTracks(w, Quotient(accM2, n as real - 1.0), Quotient(gyrM2, n as real - 1.0))
  {
    if n > 1 {
      var d := n as real - 1.0;
      var a, g := Quotient(accM2, d), Quotient(gyrM2, d);
      forall k: Channel ensures Component(a, g, k) == Variance(Values(w, k)) {
        assert Component(a, g, k) == Component(accM2, gyrM2, k) / d;
        RunningVariance(Values(w, k), n, Component(meanAcc, meanGyr, k), Component(accM2, gyrM2, k));
      }
    }
  }

  /** The running means and covariances decide as the batch statistics do. */
  lemma {:induction false} SteadyByRunning(w: seq<Imu>, c: Limits, meanAcc: Vec, meanGyr: Vec, accM2: Vec, gyrM2: Vec,
                                           covAcc: Vec, covGyr: Vec)
    requires WindowTracks(w, meanAcc, meanGyr, accM2, gyrM2) && CovTracks(w, covAcc, covGyr)
    ensures meanAcc == MeanAcc(w) && meanGyr == MeanGyr(w)
    ensures AllRootsAtMost(covAcc, c.maxAccStd) && AllRootsAtMost(covGyr, c.maxGyrStd)
       <==> forall k: Channel :: RootAtMost(Variance(Values(w, k)), StdLimit(c, k))
  {
    forall k: Channel ensures Component(meanAcc, meanGyr, k) == Mean(Values(w, k)) {
      assert Tracks(Values(w, k), Component(meanAcc, meanGyr, k), Component(accM2, gyrM2, k));
      assert Folding.Open(0);
    }
    assert Component(meanAcc, meanGyr, 0) == meanAcc.x && Component(meanAcc, meanGyr, 1) == meanAcc.y
        && Component(meanAcc, meanGyr, 2) == meanAcc.z;
    assert Component(meanAcc, meanGyr, 3) == meanGyr.x && Component(meanAcc, meanGyr, 4) == meanGyr.y
        && Component(meanAcc, meanGyr, 5) == meanGyr.z;
    var good := forall k: Channel :: RootAtMost(Variance(Values(w, k)), StdLimit(c, k));
    forall k: Channel ensures Variance(Values(w, k)) == Component(covAcc, covGyr, k) {
    }
    if AllRootsAtMost(covAcc, c.maxAccStd) && AllRootsAtMost(covGyr, c.maxGyrStd) {
      forall k: Channel ensures RootAtMost(Variance(Values(w, k)), StdLimit(c, k)) {
        assert RootAtMost(Component(covAcc, covGyr, k), StdLimit(c, k));
      }
    }
    if good {
      assert RootAtMost(Variance(Values(w, 0)), StdLimit(c, 0)) && RootAtMost(Variance(Values(w, 1)), StdLimit(c, 1));
      assert RootAtMost(Variance(Values(w, 2)), StdLimit(c, 2)) && RootAtMost(Variance(Values(w, 3)), StdLimit(c, 3));
      assert RootAtMost(Variance(Values(w, 4)), StdLimit(c, 4)) && RootAtMost(Variance(Values(w, 5)), StdLimit(c, 5));
    }
  }

  class ImuProcess {
    const c: Limits
    var firstFrame: bool
    var needInit: bool
    var iterNum: nat
    var startTime: real
    var meanAcc: Vec
    var meanGyr: Vec
    var accM2: Vec
    var gyrM2: Vec
    var covAcc: Vec
    var covGyr: Vec
    /** The samples of the current window, and all samples before it since the last reset. */
    ghost var window: seq<Imu>
    ghost var before: seq<Imu>

    ghost predicate Accumulated()
      reads this
    {
      iterNum == |window| && WindowTracks(window, meanAcc, meanGyr, accM2, gyrM2)
    }

    ghost predicate Valid()
      reads this
    {
      && (firstFrame ==> before == [] && window == [] && needInit)
      && (needInit ==>
            && Accumulated() && CovTracks(window, covAcc, covGyr)
            && startTime == if window != [] then Begin(before, window)
                            else if before != [] then before[|before| - 1].stamp else -1.0)
    }

    constructor (c: Limits)
      ensures Valid() && firstFrame && needInit && window == [] && before == [] && this.c == c
    {
      this.c := c;
      firstFrame, needInit, iterNum, startTime := true, true, 0, -1.0;
      meanAcc, meanGyr, accM2, gyrM2, covAcc, covGyr := ZERO_VEC, ZERO_VEC, ZERO_VEC, ZERO_VEC, ZERO_VEC, ZERO_VEC;
      window, before := [], [];
      EmptyTracks();
    }

    method Reset()
      modifies this
      ensures firstFrame == old(firstFrame) && needInit && window == [] && before == []
      ensures Valid()
    {
      meanAcc, meanGyr, covAcc, covGyr, accM2, gyrM2 := ZERO_VEC, ZERO_VEC, ZERO_VEC, ZERO_VEC, ZERO_VEC, ZERO_VEC;
      needInit, iterNum, startTime := true, 0, -1.0;
      window, before := [], [];
      EmptyTracks();
    }

    /** Adds one sample to the running statistics. */
    method Accumulate(s: Imu)
      requires Accumulated()
      modifies `iterNum, `meanAcc, `meanGyr, `accM2, `gyrM2, `window
      ensures Accumulated() && window == old(window) + [s]
    {
      WindowStep(window, iterNum, s, meanAcc, meanGyr, accM2, gyrM2);
      iterNum := iterNum + 1;
      var a, g := NextMeans(meanAcc, s.acc, iterNum), NextMeans(meanGyr, s.gyr, iterNum);
      accM2, gyrM2 := NextM2s(accM2, meanAcc, s.acc, a), NextM2s(gyrM2, meanGyr, s.gyr, g);
      meanAcc, meanGyr := a, g;
      window := window + [s];
    }

    /** IMU_init: the samples of one message group join the window. */
    method Collect(meas: seq<Imu>)
      requires Valid() && needInit && meas != []
      modifies this
      ensures Valid() && needInit && !firstFrame
      ensures window == old(window) + meas && before == old(before)
    {
      if firstFrame {
        Reset();
        firstFrame := false;
        startTime := meas[0].stamp;
      } else if startTime < 0.0 {
        startTime := meas[0].stamp;
      }
      ghost var w := window;
      var i := 0;
      while i < |meas|
        invariant i <= |meas| && Accumulated() && window == w + meas[..i]
        invariant CovTracks(w, covAcc, covGyr) && needInit && !firstFrame && before == old(before)
        invariant startTime == if w != [] || before != [] then old(startTime) else meas[0].stamp
      {
        Accumulate(meas[i]);
        assert meas[..i + 1] == meas[..i] + [meas[i]];
        i := i + 1;
      }
      assert meas[..i] == meas;
      CovStep(window, iterNum, meanAcc, meanGyr, accM2, gyrM2);
      if iterNum > 1 {
        covAcc, covGyr := Quotient(accM2, iterNum as real - 1.0), Quotient(gyrM2, iterNum as real - 1.0);
      } else {
        SingleCov(w, covAcc, covGyr);
      }
    }

    /** Discards the window; the next one begins at the latest sample. */
    method RejectInitWindow(latest: Time)
      requires Valid() && needInit && !firstFrame && window != [] && window[|window| - 1].stamp == latest
      modifies this
      ensures Valid() && needInit && firstFrame == old(firstFrame)
      ensures window == [] && before == old(before) + old(window)
    {
      iterNum := 0;
      meanAcc, meanGyr, covAcc, covGyr, accM2, gyrM2 := ZERO_VEC, ZERO_VEC, ZERO_VEC, ZERO_VEC, ZERO_VEC, ZERO_VEC;
      startTime := latest;
      before, window := before + window, [];
      EmptyTracks();
    }

    /**
      One group of samples during initialization. `mountOk` says whether the tilt estimated from the mean
      acceleration is within its limit.
     */
    method Process(meas: seq<Imu>, mountOk: bool) returns (accepted: bool)
      requires Valid()
      modifies this
      ensures Valid()
      ensures meas == [] || !old(needInit) ==>
                !accepted && needInit == old(needInit) && window == old(window) && before == old(before)
      ensures meas != [] && old(needInit) ==>
                var w := old(window) + meas;
                && (accepted <==> Long(old(before), w, c) && Steady(w, c) && mountOk)
                && (Long(old(before), w, c) <==>
                      w[|w| - 1].stamp - (if old(before) == [] then w[0].stamp else old(before[|before| - 1]).stamp)
                      >= c.duration)
                && needInit == !accepted
                && (accepted || !Long(old(before), w, c) ==> window == w && before == old(before))
                && (!accepted && Long(old(before), w, c) ==> window == [] && before == old(before) + w)
    {
      accepted := false;
      if meas == [] || !needInit {
        return;
      }
      Collect(meas);
      var elapsed := meas[|meas| - 1].stamp - startTime;
      if elapsed >= c.duration {
        var stationary :=
          && Norm2(meanAcc) > 0.000000000001
          && NormWithin(Norm2(meanAcc), c.expectedAccNorm, c.accNormTolerance)
          && RootAtMost(Norm2(meanGyr), c.maxGyrNorm)
          && AllRootsAtMost(covAcc, c.maxAccStd) && AllRootsAtMost(covGyr, c.maxGyrStd);
        SteadyByRunning(window, c, meanAcc, meanGyr, accM2, gyrM2, covAcc, covGyr);
        if !stationary || !mountOk {
          RejectInitWindow(meas[|meas| - 1].stamp);
          return;
        }
        needInit := false;
        accepted := true;
      }
    }
  }

  /** With at most one sample in all, the covariances are still those of the empty window. */
  lemma {:induction false} SingleCov(w: seq<Imu>, covAcc: Vec, covGyr: Vec)
    requires CovTracks(w, covAcc, covGyr) && |w| <= 1
    ensures forall v: seq<Imu> :: |v| <= 1 ==> CovTracks(v, covAcc, covGyr)
  {
  }
}
