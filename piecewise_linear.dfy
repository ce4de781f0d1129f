/** Clamped piecewise-linear interpolation through a table of breakpoints.
    This is the reference definition the level meter curve is checked
    against: below the first breakpoint the curve holds the first value,
    from the last breakpoint on it holds the last value, and between two
    neighbouring breakpoints it follows the straight line joining them. */
module PiecewiseLinear {

  /** A breakpoint: input `x` is mapped to output `y`. */
  datatype Point = Point(x: real, y: real)

  /** The breakpoints are listed in strictly increasing input order. */
  predicate StrictlyIncreasingX(pts: seq<Point>) {
    forall i, j :: 0 <= i < j < |pts| ==> pts[i].x < pts[j].x
  }

  /** The outputs at the breakpoints never decrease. */
  predicate NonDecreasingY(pts: seq<Point>) {
    forall i, j :: 0 <= i < j < |pts| ==> pts[i].y <= pts[j].y
  }

  /** The outputs at the breakpoints strictly increase. */
  predicate StrictlyIncreasingY(pts: seq<Point>) {
    forall i, j :: 0 <= i < j < |pts| ==> pts[i].y < pts[j].y
  }

  /** A table that `Interpolate` accepts. */
  predicate IsTable(pts: seq<Point>) {
    |pts| >= 1 && StrictlyIncreasingX(pts)
  }

  /** A table describing a non-decreasing curve. */
  predicate IsRisingTable(pts: seq<Point>) {
    IsTable(pts) && NonDecreasingY(pts)
  }

  function Last(pts: seq<Point>): Point
    requires |pts| >= 1
  {
    pts[|pts| - 1]
  }

  /** Gradient of the segment from `p` to `q`. */
  function Slope(p: Point, q: Point): real
    requires p.x < q.x
  {
    (q.y - p.y) / (q.x - p.x)
  }

  /** The line through `p` and `q`, evaluated at `x`. */
  function Lerp(p: Point, q: Point, x: real): real
    requires p.x < q.x
  {
    p.y + (x - p.x) * Slope(p, q)
  }

  function Interpolate(pts: seq<Point>, x: real): real
    requires IsTable(pts)
    decreases |pts|
  {
    if x < pts[0].x || |pts| == 1 then pts[0].y
    else if x < pts[1].x then Lerp(pts[0], pts[1], x)
    else Interpolate(pts[1..], x)
  }

  // ---------------------------------------------------------------------------
  // One segment

  lemma MulMonotone(u: real, v: real, s: real)
    requires u <= v && 0.0 <= s
    ensures u * s <= v * s
  {
  }

  lemma MulStrict(u: real, v: real, s: real)
    requires u < v && 0.0 < s
    ensures u * s < v * s
  {
  }

  /** A segment passes through both of its end points. */
  lemma LerpEnds(p: Point, q: Point)
    requires p.x < q.x
    ensures Lerp(p, q, p.x) == p.y
    ensures Lerp(p, q, q.x) == q.y
  {
    var w := q.x - p.x;
    assert w * ((q.y - p.y) / w) == q.y - p.y;
  }

  lemma LerpMonotone(p: Point, q: Point, a: real, b: real)
    requires p.x < q.x && p.y <= q.y && a <= b
    ensures Lerp(p, q, a) <= Lerp(p, q, b)
  {
    assert 0.0 <= Slope(p, q);
    MulMonotone(a - p.x, b - p.x, Slope(p, q));
  }

  lemma LerpStrict(p: Point, q: Point, a: real, b: real)
    requires p.x < q.x && p.y < q.y && a < b
    ensures Lerp(p, q, a) < Lerp(p, q, b)
  {
    assert 0.0 < Slope(p, q);
    MulStrict(a - p.x, b - p.x, Slope(p, q));
  }

  /** On its own interval a rising segment stays between its end values. */
  lemma LerpWithin(p: Point, q: Point, x: real)
    requires p.x < q.x && p.y <= q.y && p.x <= x <= q.x
    ensures p.y <= Lerp(p, q, x) <= q.y
  {
    LerpEnds(p, q);
    LerpMonotone(p, q, p.x, x);
    LerpMonotone(p, q, x, q.x);
  }

  // ---------------------------------------------------------------------------
  // The whole table

  lemma TailIsTable(pts: seq<Point>)
    requires IsTable(pts) && |pts| >= 2
    ensures IsTable(pts[1..])
    ensures NonDecreasingY(pts) ==> NonDecreasingY(pts[1..])
    ensures StrictlyIncreasingY(pts) ==> StrictlyIncreasingY(pts[1..])
    ensures Last(pts[1..]) == Last(pts)
  {
  }

  /** Below the first breakpoint the curve holds the first value. */
  lemma {:induction false} InterpolateBelowFirst(pts: seq<Point>, x: real)
    requires IsTable(pts) && x < pts[0].x
    ensures Interpolate(pts, x) == pts[0].y
  {
  }

  /** From the last breakpoint on the curve holds the last value. */
  lemma {:induction false} InterpolateFromLast(pts: seq<Point>, x: real)
    requires IsTable(pts) && Last(pts).x <= x
    ensures Interpolate(pts, x) == Last(pts).y
  {
    if |pts| > 1 {
      assert pts[0].x < pts[1].x <= Last(pts).x;
      TailIsTable(pts);
      InterpolateFromLast(pts[1..], x);
    }
  }

  /** The curve passes through every breakpoint of the table. */
  lemma {:induction false} InterpolateAtBreakpoint(pts: seq<Point>, i: nat)
    requires IsTable(pts) && i < |pts|
    ensures Interpolate(pts, pts[i].x) == pts[i].y
  {
    if i == 0 {
      if |pts| > 1 {
        LerpEnds(pts[0], pts[1]);
      }
    } else {
      assert pts[0].x < pts[1].x <= pts[i].x;
      TailIsTable(pts);
      InterpolateAtBreakpoint(pts[1..], i - 1);
    }
  }

  /** On the half-open interval [x_i, x_{i+1}) the curve is the segment
      joining breakpoints i and i+1. */
  lemma {:induction false} InterpolateOnSegment(pts: seq<Point>, i: nat, x: real)
    requires IsTable(pts) && i + 1 < |pts|
    requires pts[i].x <= x < pts[i + 1].x
    ensures Interpolate(pts, x) == Lerp(pts[i], pts[i + 1], x)
  {
    if i > 0 {
      assert pts[0].x < pts[1].x <= pts[i].x;
      TailIsTable(pts);
      InterpolateOnSegment(pts[1..], i - 1, x);
    }
  }

  /** A rising table gives a curve bounded by its first and last values. */
  lemma {:induction false} InterpolateBounds(pts: seq<Point>, x: real)
    requires IsRisingTable(pts)
    ensures pts[0].y <= Interpolate(pts, x) <= Last(pts).y
  {
    if x < pts[0].x || |pts| == 1 {
    } else if x < pts[1].x {
      LerpWithin(pts[0], pts[1], x);
    } else {
      TailIsTable(pts);
      InterpolateBounds(pts[1..], x);
    }
  }

  /** A rising table gives a non-decreasing curve. */
  lemma {:induction false} InterpolateMonotone(pts: seq<Point>, a: real, b: real)
    requires IsRisingTable(pts) && a <= b
    ensures Interpolate(pts, a) <= Interpolate(pts, b)
  {
    if a < pts[0].x || |pts| == 1 {
      InterpolateBounds(pts, b);
    } else if b < pts[1].x {
      LerpMonotone(pts[0], pts[1], a, b);
    } else if a < pts[1].x {
      LerpWithin(pts[0], pts[1], a);
      TailIsTable(pts);
      InterpolateBounds(pts[1..], b);
    } else {
      TailIsTable(pts);
      InterpolateMonotone(pts[1..], a, b);
    }
  }

  /** A table with strictly rising outputs gives a curve that strictly
      increases between its first and last breakpoints. */
  lemma {:induction false} InterpolateStrict(pts: seq<Point>, a: real, b: real)
    requires IsRisingTable(pts) && StrictlyIncreasingY(pts)
    requires pts[0].x <= a < b <= Last(pts).x
    ensures Interpolate(pts, a) < Interpolate(pts, b)
  {
    if b < pts[1].x {
      LerpStrict(pts[0], pts[1], a, b);
    } else if a < pts[1].x {
      LerpEnds(pts[0], pts[1]);
      LerpStrict(pts[0], pts[1], a, pts[1].x);
      TailIsTable(pts);
      InterpolateBounds(pts[1..], b);
    } else {
      TailIsTable(pts);
      InterpolateStrict(pts[1..], a, b);
    }
  }
}
