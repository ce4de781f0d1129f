# AIDA-X level meter curve

A Dafny model of `normalizedLevelMeterValue`, the one piece of original logic
in the AIDA-X widget header of the Knobs example. It maps a signal level in
decibels relative to full scale to a meter position in [0, 1] along a fixed
piecewise-linear curve. The breakpoints are at -70, -60, -50, -40, -30, -20
and 0 dB. Quiet levels get little of the meter and loud levels get most of it.
The source computes a percentage with one nested conditional and divides it by
100.

The project has two modules:

- `PiecewiseLinear` (`piecewise_linear.dfy`) is an independent reference
  definition: clamped linear interpolation through a table of breakpoints.
  It proves, by induction over the table, that the interpolated curve passes
  through every breakpoint and follows the joining segment between two
  breakpoints. It also proves the curve is bounded and non-decreasing, and
  strictly increasing when the table's outputs strictly rise.
- `Widgets` (`widgets.dfy`) holds `NormalizedLevelMeterValue`, written branch
  for branch as in the source but over exact reals. It proves that the
  function equals interpolation through the seven-point table `MeterCurve`,
  and from that derives the meter's range, saturation, breakpoint values,
  continuity, monotonicity and per-segment gradients.

## Model

| member | source | states |
|---|---|---|
| Widgets.NormalizedLevelMeterValue | examples/Knobs/Widgets.hpp:21-34 | every input is accepted; the result lies in [0, 1]; below -70 dB it is exactly 0 and from 0 dB on it is exactly 1 |
| Widgets.MeterCurveIsRising | examples/Knobs/Widgets.hpp:25-32 | the breakpoints -70, -60, -50, -40, -30, -20, 0 dB rise strictly, and so do their meter positions 0, 0.025, 0.075, 0.15, 0.30, 0.50, 1 |
| Widgets.MatchesMeterCurve | examples/Knobs/Widgets.hpp:24-33 | for every level, the nested conditional equals linear interpolation through the breakpoint table, held flat below the first and from the last breakpoint |
| Widgets.BreakpointValues | examples/Knobs/Widgets.hpp:25-32 | -70 dB gives 0, -60 gives 0.025, -50 gives 0.075, -40 gives 0.15, -30 gives 0.30, -20 gives 0.50, 0 gives 1 |
| Widgets.ContinuousAtBreakpoint | examples/Knobs/Widgets.hpp:26-32 | at each breakpoint, the segment to its left evaluated at its right edge equals the value the function takes at the breakpoint |
| Widgets.SegmentFormula | examples/Knobs/Widgets.hpp:26-31 | on each half-open interval between breakpoints the result is the straight line joining them, with gradients 0.0025, 0.005, 0.0075, 0.015, 0.02 and 0.025 per dB, all positive |
| Widgets.Monotone | examples/Knobs/Widgets.hpp:25-32 | a <= b implies f(a) <= f(b) |
| Widgets.StrictlyIncreasingInRange | examples/Knobs/Widgets.hpp:26-31 | on [-70, 0] dB, a < b implies f(a) < f(b) |
| Widgets.InjectiveInRange | examples/Knobs/Widgets.hpp:26-31 | two levels in [-70, 0] dB with the same meter position are equal |
| Widgets.SlopeBounds | examples/Knobs/Widgets.hpp:25-32 | for a <= b the meter rises by at most 0.025·(b - a), so the curve is continuous everywhere; inside [-70, 0] dB it rises by at least 0.0025·(b - a) |
| PiecewiseLinear.InterpolateBelowFirst | examples/Knobs/Widgets.hpp:25 | below the first breakpoint the interpolated curve is the first value |
| PiecewiseLinear.InterpolateFromLast | examples/Knobs/Widgets.hpp:31-32 | at and above the last breakpoint the interpolated curve is the last value |
| PiecewiseLinear.InterpolateAtBreakpoint | examples/Knobs/Widgets.hpp:25-32 | the interpolated curve passes through every breakpoint of the table |
| PiecewiseLinear.InterpolateOnSegment | examples/Knobs/Widgets.hpp:26-31 | on [x_i, x_{i+1}) the interpolated curve is the segment joining breakpoints i and i+1 |
| PiecewiseLinear.InterpolateBounds | examples/Knobs/Widgets.hpp:24-33 | with non-decreasing outputs the curve stays between the first and the last output |
| PiecewiseLinear.InterpolateMonotone | examples/Knobs/Widgets.hpp:25-32 | with non-decreasing outputs the curve is non-decreasing |
| PiecewiseLinear.InterpolateStrict | examples/Knobs/Widgets.hpp:26-31 | with strictly rising outputs the curve strictly increases between the first and the last breakpoint |
| PiecewiseLinear.LerpEnds | examples/Knobs/Widgets.hpp:26-31 | each segment passes through both of its end points |
| PiecewiseLinear.LerpWithin | examples/Knobs/Widgets.hpp:26-31 | on its own interval a rising segment stays between its two end values |

## Left out

- Widgets.NormalizedLevelMeterValue: single-precision float arithmetic is not modelled; the model computes over exact reals, so rounding of the segment formulas and of the division by 100 is not captured.
- Widgets.NormalizedLevelMeterValue: NaN and infinite inputs are not modelled. In the source a NaN fails every comparison and falls through to 100/100 = 1; +inf gives 1 and -inf gives 0. Reals have no such values.
- The `AidaKnob` widget (examples/Knobs/Widgets.hpp:39-139): vector drawing, rotation of the knob image and value text formatting, plus event forwarding to a toolkit event handler that is not part of this model.
- examples/Knobs/KnobsPlugin.cpp: plugin metadata, parameter set-up, a parameter setter that stores nothing, and an audio pass-through by memory copy; the host owns buffers and callbacks.
- examples/Knobs/KnobsUI.cpp: loading images and fonts, constructing knobs and forwarding their callbacks to the framework.
- tests/Demo.cpp: an OpenGL demo window whose sidebar hover and page tracking rely on toolkit rectangle tests and repainting.
