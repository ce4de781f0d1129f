/** The level meter mapping of the AIDA-X widgets: a level in decibels
    relative to full scale becomes a meter position between 0 (empty) and
    1 (full). The curve is piecewise linear with breakpoints at -70, -60,
    -50, -40, -30, -20 and 0 dB, and gives more of the meter to loud levels
    than to quiet ones. The source works on single-precision floats; this
    model works on exact reals. */
module Widgets {
  import opened PiecewiseLinear

  /** The meter curve as a table: each breakpoint in dB with the meter
      position it is mapped to. */
  const MeterCurve: seq<Point> := [
    Point(-70.0, 0.0),
    Point(-60.0, 0.025),
    Point(-50.0, 0.075),
    Point(-40.0, 0.15),
    Point(-30.0, 0.30),
    Point(-20.0, 0.50),
    Point(0.0, 1.0)
  ]

  /** Meter movement per dB on each of the six segments of the curve. */
  const MeterSlopes: seq<real> := [0.0025, 0.005, 0.0075, 0.015, 0.02, 0.025]

  /** Decibels to meter position. Every input is accepted: quiet levels
      below -70 dB leave the meter empty, levels of 0 dB and above fill it. */
  function NormalizedLevelMeterValue(db: real): (r: real)
    ensures 0.0 <= r <= 1.0
    ensures db < -70.0 ==> r == 0.0
    ensures db >= 0.0 ==> r == 1.0
  {
    (if db < -70.0 then 0.0
     else if db < -60.0 then (db + 70.0) * 0.25
     else if db < -50.0 then (db + 60.0) * 0.50 + 2.5
     else if db < -40.0 then (db + 50.0) * 0.75 + 7.5
     else if db < -30.0 then (db + 40.0) * 1.50 + 15.0
     else if db < -20.0 then (db + 30.0) * 2.00 + 30.0
     else if db < 0.0 then (db + 20.0) * 2.50 + 50.0
     else 100.0
    ) / 100.0
  }

  /** The breakpoint table is a valid table with strictly rising meter
      positions. */
  lemma MeterCurveIsRising()
    ensures IsRisingTable(MeterCurve) && StrictlyIncreasingY(MeterCurve)
    ensures MeterCurve[0].x == -70.0 && Last(MeterCurve).x == 0.0
  {
  }

  /** The nested conditional is exactly the interpolation through the
      breakpoint table. */
  lemma MatchesMeterCurve(db: real)
    ensures NormalizedLevelMeterValue(db) == Interpolate(MeterCurve, db)
  {
    MeterCurveIsRising();
    if db < -70.0 {
      InterpolateBelowFirst(MeterCurve, db);
    } else if db < 0.0 {
      var i :=
        if db < -60.0 then 0
        else if db < -50.0 then 1
        else if db < -40.0 then 2
        else if db < -30.0 then 3
        else if db < -20.0 then 4
        else 5;
      InterpolateOnSegment(MeterCurve, i, db);
    } else {
      InterpolateFromLast(MeterCurve, db);
    }
  }

  /** Each breakpoint is mapped to its own meter position. */
  lemma BreakpointValues()
    ensures NormalizedLevelMeterValue(-70.0) == 0.0
    ensures NormalizedLevelMeterValue(-60.0) == 0.025
    ensures NormalizedLevelMeterValue(-50.0) == 0.075
    ensures NormalizedLevelMeterValue(-40.0) == 0.15
    ensures NormalizedLevelMeterValue(-30.0) == 0.30
    ensures NormalizedLevelMeterValue(-20.0) == 0.50
    ensures NormalizedLevelMeterValue(0.0) == 1.0
  {
  }

  /** Continuity at breakpoint i: the segment to the left of it, evaluated
      at its right edge, reaches the value the curve takes there. */
  lemma ContinuousAtBreakpoint(i: nat)
    requires 0 < i < |MeterCurve|
    ensures Lerp(MeterCurve[i - 1], MeterCurve[i], MeterCurve[i].x)
            == NormalizedLevelMeterValue(MeterCurve[i].x)
            == MeterCurve[i].y
  {
    MeterCurveIsRising();
    LerpEnds(MeterCurve[i - 1], MeterCurve[i]);
    MatchesMeterCurve(MeterCurve[i].x);
    InterpolateAtBreakpoint(MeterCurve, i);
  }

  /** On [x_i, x_{i+1}) the meter follows the straight segment between
      breakpoints i and i+1, with the gradient listed in MeterSlopes. */
  lemma SegmentFormula(i: nat, db: real)
    requires i + 1 < |MeterCurve|
    requires MeterCurve[i].x <= db < MeterCurve[i + 1].x
    ensures Slope(MeterCurve[i], MeterCurve[i + 1]) == MeterSlopes[i] > 0.0
    ensures NormalizedLevelMeterValue(db) == Lerp(MeterCurve[i], MeterCurve[i + 1], db)
  {
    MeterCurveIsRising();
    MatchesMeterCurve(db);
    InterpolateOnSegment(MeterCurve, i, db);
  }

  /** A louder level never moves the meter down. */
  lemma Monotone(a: real, b: real)
    requires a <= b
    ensures NormalizedLevelMeterValue(a) <= NormalizedLevelMeterValue(b)
  {
    MeterCurveIsRising();
    MatchesMeterCurve(a);
    MatchesMeterCurve(b);
    InterpolateMonotone(MeterCurve, a, b);
  }

  /** Between -70 dB and 0 dB a louder level always moves the meter up. */
  lemma StrictlyIncreasingInRange(a: real, b: real)
    requires -70.0 <= a < b <= 0.0
    ensures NormalizedLevelMeterValue(a) < NormalizedLevelMeterValue(b)
  {
    MeterCurveIsRising();
    MatchesMeterCurve(a);
    MatchesMeterCurve(b);
    InterpolateStrict(MeterCurve, a, b);
  }

  /** Distinct levels in [-70, 0] dB give distinct meter positions. */
  lemma InjectiveInRange(a: real, b: real)
    requires -70.0 <= a <= 0.0 && -70.0 <= b <= 0.0
    requires NormalizedLevelMeterValue(a) == NormalizedLevelMeterValue(b)
    ensures a == b
  {
    if a < b {
      StrictlyIncreasingInRange(a, b);
    } else if b < a {
      StrictlyIncreasingInRange(b, a);
    }
  }

  /** The meter never moves faster than the steepest segment (0.025 per
      dB), so the curve is continuous everywhere; within [-70, 0] dB it
      never moves slower than the flattest segment (0.0025 per dB). */
  lemma SlopeBounds(a: real, b: real)
    requires a <= b
    ensures NormalizedLevelMeterValue(b) - NormalizedLevelMeterValue(a) <= 0.025 * (b - a)
    ensures -70.0 <= a && b <= 0.0 ==>
              0.0025 * (b - a) <= NormalizedLevelMeterValue(b) - NormalizedLevelMeterValue(a)
  {
  }
}
