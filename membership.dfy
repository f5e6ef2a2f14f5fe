/** Triangular fuzzy membership: the leaf function every taste contribution
    is built from (webfinal13.py, `fuzzy`). */
module Membership {
  import opened Ratio

  function Max(a: real, b: real): real { if a >= b then a else b }

  function Min(a: real, b: real): real { if a <= b then a else b }

  /** Degree to which `v` belongs to the triangular fuzzy set whose support is
      the open interval (low, high) and whose peak is at `mid`. Total over all
      reals: a degenerate triple never divides by zero, because each ramp is
      only taken when its denominator is positive. */
  function Fuzzy(v: real, low: real, mid: real, high: real): (r: real)
    ensures 0.0 <= r <= 1.0
    ensures v <= low || v >= high ==> r == 0.0
    ensures low < v < high && v == mid ==> r == 1.0
  {
    if v <= low || v >= high then 0.0
    else if v == mid then 1.0
    else if v < mid then
      RatioMonotone(0.0, v - low, mid - low);
      RatioMonotone(v - low, mid - low, mid - low);
      UnitRatio(mid - low);
      (v - low) / (mid - low)
    else
      RatioMonotone(0.0, high - v, high - mid);
      RatioMonotone(high - v, high - mid, high - mid);
      UnitRatio(high - mid);
      (high - v) / (high - mid)
  }

  /** For a well-formed triple the degree is positive exactly on the open
      support (low, high). */
  lemma FuzzySupport(v: real, low: real, mid: real, high: real)
    requires low < mid < high
    ensures Fuzzy(v, low, mid, high) > 0.0 <==> low < v < high
  {
    if low < v < mid {
      assert v - low > 0.0 && mid - low > 0.0;
      assert (v - low) / (mid - low) > 0.0;
    } else if mid < v < high {
      assert high - v > 0.0 && high - mid > 0.0;
      assert (high - v) / (high - mid) > 0.0;
    }
  }

  /** The degree reaches 1 at the peak and nowhere else. */
  lemma FuzzyPeak(v: real, low: real, mid: real, high: real)
    requires low < mid < high
    ensures Fuzzy(v, low, mid, high) == 1.0 <==> v == mid
  {
    if low < v < mid {
      RatioStrict(v - low, mid - low, mid - low);
    } else if mid < v < high {
      RatioStrict(high - v, high - mid, high - mid);
    }
  }

  /** Monotone non-decreasing up to the peak. */
  lemma FuzzyRising(v1: real, v2: real, low: real, mid: real, high: real)
    requires low < mid < high
    requires v1 <= v2 <= mid
    ensures Fuzzy(v1, low, mid, high) <= Fuzzy(v2, low, mid, high)
  {
    if low < v1 && v2 < mid {
      RatioMonotone(v1 - low, v2 - low, mid - low);
    }
  }

  /** Monotone non-increasing after the peak. */
  lemma FuzzyFalling(v1: real, v2: real, low: real, mid: real, high: real)
    requires low < mid < high
    requires mid <= v1 <= v2
    ensures Fuzzy(v1, low, mid, high) >= Fuzzy(v2, low, mid, high)
  {
    if mid < v1 && v2 < high {
      RatioMonotone(high - v2, high - v1, high - mid);
    }
  }

  /** Independent reference: the standard closed form of a triangular
      membership function, the lower of the two ramps clipped at 0. The
      piecewise definition agrees with it everywhere, which also shows that
      it is continuous and linear on each side of the peak. */
  lemma FuzzyIsTriangle(v: real, low: real, mid: real, high: real)
    requires low < mid < high
    ensures Fuzzy(v, low, mid, high)
            == Max(0.0, Min((v - low) / (mid - low), (high - v) / (high - mid)))
  {
    var up, down := (v - low) / (mid - low), (high - v) / (high - mid);
    UnitRatio(mid - low);
    UnitRatio(high - mid);
    if v <= mid {
      RatioMonotone(v - low, mid - low, mid - low);
      RatioMonotone(high - mid, high - v, high - mid);
      RatioMonotone(v - low, 0.0, mid - low);
      Clip(Fuzzy(v, low, mid, high), up, down);
    } else {
      RatioMonotone(mid - low, v - low, mid - low);
      RatioMonotone(high - v, high - mid, high - mid);
      RatioMonotone(high - v, 0.0, high - mid);
      Clip(Fuzzy(v, low, mid, high), down, up);
      assert Min(down, up) == Min(up, down);
    }
  }

  /** Linear core of FuzzyIsTriangle: a degree that equals the rising ramp
      where that ramp lies in (0, 1], and 0 where it is not positive, is the
      clipped minimum of the two ramps when the other is at least 1. */
  lemma Clip(f: real, near: real, far: real)
    requires near <= 1.0 <= far
    requires near <= 0.0 ==> f == 0.0
    requires near > 0.0 ==> f == near
    ensures f == Max(0.0, Min(near, far))
  {
  }
}
