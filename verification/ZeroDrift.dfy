/** The start-up calibration of the position offset: the mean of a window of still samples becomes the offset. */
module ZeroDrift {
  import Folding
  import opened Reals

  /** Whether a displacement is longer than a threshold, without taking the root. */
  predicate Exceeds(a: Vec, thresh: real) {
    thresh < 0.0 || Norm2(a) > Times(thresh, thresh)
  }

  /** `v` is no further than the threshold from the first position. */
  ghost predicate Still(v: Vec, first: Vec, thresh: real) {
    InBall(Minus(v, first), thresh)
  }

  lemma {:induction false} NotExceeding(v: Vec, first: Vec, thresh: real)
    ensures Still(v, first, thresh) <==> !Exceeds(Minus(v, first), thresh)
  {
    assert Folding.Open(0);
  }

  /** Comparing squares is comparing the norm itself: `norm` is the square root the program takes. */
  lemma {:induction false} StillIsNorm(v: Vec, first: Vec, thresh: real, norm: real)
    requires norm >= 0.0
    requires norm * norm == (v.x - first.x) * (v.x - first.x) + (v.y - first.y) * (v.y - first.y)
                            + (v.z - first.z) * (v.z - first.z)
    ensures Still(v, first, thresh) <==> norm <= thresh
  {
    assert Folding.Open(0);
    if thresh >= 0.0 {
      SquareOrder(norm, thresh);
    }
  }

  function Sum(samples: seq<Vec>): Vec {
    if samples == [] then ZERO_VEC else Plus(Sum(samples[..|samples| - 1]), samples[|samples| - 1])
  }

  /** No sample is further than the threshold from the first position. */
  ghost predicate AllStill(samples: seq<Vec>, first: Vec, thresh: real) {
    forall i :: 0 <= i < |samples| ==> Still(samples[i], first, thresh)
  }

  function Average(sum: Vec, n: nat): Vec
    requires n > 0
  {
    Vec(sum.x / n as real, sum.y / n as real, sum.z / n as real)
  }

  function Mean(samples: seq<Vec>): Vec
    requires samples != []
  {
    Average(Sum(samples), |samples|)
  }

  lemma {:induction false} SumStep(samples: seq<Vec>, v: Vec)
    ensures Sum(samples + [v]) == Plus(Sum(samples), v)
  {
    assert (samples + [v])[..|samples|] == samples;
  }

  /** How far a sum of n samples is from n times the first position. */
  function Drift(sum: Vec, n: real, first: Vec): Vec {
    Minus(sum, Scale(n, first))
  }

  lemma {:induction false} DriftStep(sum: Vec, v: Vec, n: real, first: Vec)
    ensures Drift(Plus(sum, v), n + 1.0, first) == Plus(Drift(sum, n, first), Minus(v, first))
  {
  }

  lemma {:induction false} DriftZero(first: Vec)
    ensures InBall(Drift(ZERO_VEC, 0.0, first), 0.0)
  {
    assert Drift(ZERO_VEC, 0.0, first) == ZERO_VEC;
  }

  lemma {:induction false} RadiusStep(n: real, thresh: real)
    ensures Times(n, thresh) + thresh == Times(n + 1.0, thresh)
  {
  }

  /** The sum of n still samples lies within n times the threshold of n times the first position. */
  lemma {:induction false} SumInBall(samples: seq<Vec>, n: nat, first: Vec, thresh: real)
    requires thresh >= 0.0 && AllStill(samples, first, thresh) && n == |samples|
    ensures InBall(Drift(Sum(samples), n as real, first), Times(n as real, thresh))
  {
    if n == 0 {
      DriftZero(first);
    } else {
      var v, m := samples[n - 1], (n - 1) as real;
      var before := Sum(samples[..n - 1]);
      SumInBall(samples[..n - 1], n - 1, first, thresh);
      BallSum(Drift(before, m, first), Minus(v, first), Times(m, thresh), thresh);
      RadiusStep(m, thresh);
      DriftStep(before, v, m, first);
    }
  }

  lemma {:induction false} ScaleNorm(k: real, a: Vec)
    ensures Norm2(Scale(k, a)) == Times(k, k) * Norm2(a)
  {
    assert Times(k * a.x, k * a.x) == Times(k, k) * Times(a.x, a.x);
    assert Times(k * a.y, k * a.y) == Times(k, k) * Times(a.y, a.y);
    assert Times(k * a.z, k * a.z) == Times(k, k) * Times(a.z, a.z);
    Expand3(Times(a.x, a.x), Times(a.y, a.y), Times(a.z, a.z), Times(k, k));
  }

  lemma {:induction false} Shrink(d: Vec, n: real, thresh: real)
    requires n > 0.0 && thresh >= 0.0 && InBall(Scale(n, d), Times(n, thresh))
    ensures InBall(d, thresh)
  {
    assert Folding.Open(0);
    ScaleNorm(n, d);
    ScaleSquare(n, thresh);
    ProductPositive(n, n);
    if Norm2(d) > Times(thresh, thresh) {
      ProductPositive(Times(n, n), Norm2(d) - Times(thresh, thresh));
    }
  }

  lemma {:induction false} ScaleSquare(n: real, t: real)
    ensures Times(Times(n, t), Times(n, t)) == Times(n, n) * Times(t, t)
  {
  }

  /** n times the distance of the average from the first position is the drift of the sum. */
  lemma {:induction false} AverageDrift(sum: Vec, n: nat, first: Vec)
    requires n > 0
    ensures Scale(n as real, Minus(Average(sum, n), first)) == Drift(sum, n as real, first)
  {
    AverageCoordinate(sum.x, first.x, n as real);
    AverageCoordinate(sum.y, first.y, n as real);
    AverageCoordinate(sum.z, first.z, n as real);
  }

  lemma {:induction false} AverageCoordinate(s: real, f: real, n: real)
    requires n > 0.0
    ensures n * (s / n - f) == s - n * f
  {
  }

  /** The ball around the first position is convex: the mean of any number of still samples lies in it. */
  lemma {:induction false} MeanInBall(samples: seq<Vec>, first: Vec, thresh: real)
    requires samples != [] && AllStill(samples, first, thresh)
    ensures Still(Mean(samples), first, thresh)
  {
    assert Still(samples[0], first, thresh);
    var n := |samples|;
    SumInBall(samples, n, first, thresh);
    AverageDrift(Sum(samples), n, first);
    Shrink(Minus(Mean(samples), first), n as real, thresh);
  }

  datatype State = Waiting | Calibrating | Done | Failed

  class ZeroDriftCalibrator {
    const enabled: bool
    const calibTime: real
    const motionThresh: real
    var state: State
    var startTime: real
    var sum: Vec
    var count: int
    var offset: Vec
    var first: Vec
    /** The samples summed up so far. */
    ghost var samples: seq<Vec>

    ghost predicate Valid()
      reads this
    {
      && count == |samples| && sum == Sum(samples)
      && (state == Waiting ==> samples == [])
      && (state == Calibrating ==> AllStill(samples, first, motionThresh))
      && (state == Done ==>
            samples != [] && AllStill(samples, first, motionThresh)
            && offset == Mean(samples) && Still(offset, first, motionThresh))
    }

    constructor (enabled: bool, calibTime: real, motionThresh: real)
      ensures Valid() && state == Waiting
      ensures this.enabled == enabled && this.calibTime == calibTime && this.motionThresh == motionThresh
    {
      this.enabled, this.calibTime, this.motionThresh := enabled, calibTime, motionThresh;
      state, startTime, sum, count := Waiting, 0.0, ZERO_VEC, 0;
      offset, first, samples := ZERO_VEC, ZERO_VEC, [];
    }

    /** One position at clock reading `now`; the result is the position to use. */
    method Process(pos: Vec, now: real) returns (out: Vec)
      requires Valid()
      modifies this
      ensures Valid()
      ensures !enabled ==> out == pos && state == old(state) && samples == old(samples)
      // The order of states; the last two are absorbing.
      ensures old(state) == Done || old(state) == Failed ==>
                state == old(state) && samples == old(samples) && offset == old(offset) && first == old(first)
      ensures enabled && old(state) == Waiting ==>
                state == Calibrating && first == pos && startTime == now && samples == []
      ensures enabled && old(state) == Calibrating ==>
                && samples == old(samples) + [pos] && first == old(first) && startTime == old(startTime)
                && state == (if !Still(pos, first, motionThresh) then Failed
                             else if now - startTime >= calibTime then Done else Calibrating)
      // On reaching the end the offset is within the threshold of the first position; afterwards it is subtracted.
      ensures state == Done ==> count > 0 && offset == Mean(samples) && Still(offset, first, motionThresh)
      ensures if enabled && old(state) == Done
              then out.x + offset.x == pos.x && out.y + offset.y == pos.y && out.z + offset.z == pos.z
              else out == pos
    {
      out := pos;
      if !enabled {
        return;
      }
      match state {
        case Waiting =>
          startTime, first, state := now, pos, Calibrating;
        case Calibrating =>
          SumStep(samples, pos);
          NotExceeding(pos, first, motionThresh);
          sum, count, samples := Plus(sum, pos), count + 1, samples + [pos];
          if Exceeds(Minus(pos, first), motionThresh) {
            state := Failed;
          } else if now - startTime >= calibTime {
            offset, state := Average(sum, count), Done;
            MeanInBall(samples, first, motionThresh);
          }
        case Done =>
          out := Minus(pos, offset);
        case Failed =>
      }
    }
  }
}
