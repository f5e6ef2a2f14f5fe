/** Elementary facts about dividing reals by a positive divisor, shared by
    the membership ramps and the percentage normalisation. */
module Ratio {

  lemma UnitRatio(d: real)
    requires d > 0.0
    ensures d / d == 1.0
  {
  }

  lemma RatioMonotone(a: real, b: real, d: real)
    requires d > 0.0
    ensures a <= b ==> a / d <= b / d
  {
    assert b / d - a / d == (b - a) / d;
  }

  lemma RatioStrict(a: real, b: real, d: real)
    requires d > 0.0 && a < b
    ensures a / d < b / d
  {
    assert b / d - a / d == (b - a) / d;
    assert (b - a) / d > 0.0;
  }
}
