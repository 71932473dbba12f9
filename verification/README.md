# Needle guide: per-frame needle detection logic in Dafny

This project models the decision logic of the puncture-guide simulator's
video processor (`NeedleGuideSimulator.recv` in `app.py`). Each camera frame
passes through edge detection and a probabilistic Hough transform. The model
starts from the line segments that transform returns. It then does what the
processor does with them:

- gives each segment an insertion angle. A vertical segment gets 90°. Any
  other segment gets `degrees(atan2(|Δy|, |Δx|))`;
- keeps only the segments whose angle lies strictly between 10° and 85°;
- picks the longest segment that was kept. The comparison is strict, so the
  first of several equally long segments wins. That segment's angle becomes
  the reported angle;
- takes the endpoint higher on screen (smaller `y`) as the needle tip and the
  other as the tail. On a level segment the second endpoint is the tip;
- tags the angle on-target (orange) when 20° ≤ angle ≤ 40°, else off-target
  (yellow);
- when the guide is switched on, extends the tail-to-tip direction beyond the
  tip by `guide_len_mm * 20` pixels. The end is truncated to integer pixels.
  No guide is drawn when the direction vector has zero length.

Modules:

- `Geometry` (`geometry.dfy`): points, Hough segments and integer squared
  lengths. Selection compares squared lengths. `GuideLine.SqrtOrder` proves
  that this orders segments the same way as comparing their square roots.
- `Selection` (`selection.dfy`): the angle, the acceptance band, and the
  selection loop as a fold (`ScanFrom`). The fold's state is the loop's
  variables `best_line`, `max_len` and `current_angle`. `IsBest` is an
  independent reference definition of the needle: the earliest accepted
  segment of maximal length.
- `TipResolver` (`tip.dfy`): tip/tail choice.
- `Classification` (`classification.dfy`): the status band.
- `GuideLine` (`guide.dfy`): guide extrapolation over `real`, and `int()` as
  truncation toward zero. The guide end is also characterised independently:
  for a positive length it is the unique point on the tail-to-tip line, ahead
  of the tip, at distance exactly `guide_len_mm * 20` from it.
- `NeedleFrame` (`frame.dfy`): the whole per-frame computation, from the
  detector's output (or Python `None`) to the overlay it produces.

Floating-point functions are parameters, not fixed definitions. The arc
tangent `Atan2Deg` takes the magnitudes `|Δy|` and `|Δx|` as `nat`, so the
angle depends on those magnitudes only. `AtanLaw` assumes just one more fact
about it: a horizontal, non-degenerate segment has angle 0. The square root
`Sqrt` is constrained by `SqrtLaw` to be the non-negative root.

## Model

| member | source | states |
|---|---|---|
| Geometry.SqLen | app.py:88 | the squared length is zero exactly when both endpoints coincide; a non-vertical segment's is positive |
| GuideLine.SqrtOrder | app.py:88-90 | for any lawful square root, one squared length has the larger root iff it is the larger squared length, so comparing squared lengths selects the same segment as comparing lengths |
| Geometry.SqLenReversed | app.py:88 | the length does not depend on which endpoint the detector lists first |
| Selection.Angle | app.py:81-84 | (definition, no ensures) a segment with Δx = 0 gets 90; any other gets the arc tangent, in degrees, of the magnitudes of Δy and Δx |
| Selection.Accepted | app.py:87 | (definition, no ensures) a segment passes the filter iff its angle lies strictly between 10 and 85 |
| Selection.Initial | app.py:72-74 | (definition, no ensures) the scan starts with no needle, zero length and zero angle |
| Selection.VerticalRejected | app.py:81-87 | a segment with Δx = 0 gets angle exactly 90 and is never accepted, since 90 ≥ 85 |
| Selection.HorizontalRejected | app.py:83-87 | a segment with Δy = 0 and Δx ≠ 0 gets angle 0 and is never accepted |
| Selection.AcceptedIsOblique | app.py:80-87 | an accepted segment is neither horizontal nor vertical, so it has positive length |
| Selection.BandBoundsRejected | app.py:87 | the acceptance band is open: angles of exactly 10 or exactly 85 are rejected |
| Selection.AngleReversed | app.py:80-87 | the angle, and so acceptance, is the same with the endpoints listed in either order |
| Selection.ScanFrom | app.py:76-93 | the loop keeps its invariant: no best line and nothing accepted so far; or the best line is accepted, no accepted segment seen so far is longer, every earlier accepted one is strictly shorter, `max_len` is its length and `current_angle` its angle |
| Selection.SelectNeedle | app.py:72-93 | nothing is selected iff no segment passes the filter; otherwise the selected segment is the earliest longest accepted one, and the reported angle is its angle |
| Selection.BestUnique | app.py:88-93 | at most one segment is the earliest longest accepted one |
| Selection.SelectNeedleIsBest | app.py:88-93 | index i is selected iff it is the earliest longest accepted segment (both directions) |
| Selection.SelectedIsLongest | app.py:88-93 | if any segment is accepted, a needle is selected; no accepted segment is longer than it, and every accepted segment before it is strictly shorter |
| Selection.TieGoesToFirst | app.py:90-93 | of two accepted segments of equal length, the later one is never selected |
| TipResolver.ResolveTip | app.py:99-103 | tip and tail are the segment's two endpoints with tip.y ≤ tail.y; on a level segment the second endpoint is the tip |
| TipResolver.ResolveTipDetermined | app.py:99-103 | those three facts fix the answer: any tip/tail pair that has them is the one chosen |
| TipResolver.ResolveTipReversed | app.py:100-103 | unless the segment is level, listing its endpoints the other way round gives the same tip and tail; on a level one it swaps them |
| TipResolver.AcceptedTipStrictlyAbove | app.py:87-103 | for a segment that passed the filter, the tip is strictly above the tail, so they are distinct points |
| Classification.Classify | app.py:105-108 | the status is on-target iff 20 ≤ angle ≤ 40, both bounds inclusive; otherwise off-target |
| Classification.OnTargetWithinAcceptance | app.py:105-108 | both band ends are on-target, and every on-target angle lies inside the open acceptance band (10, 85) |
| Classification.OffTargetOutsideBand | app.py:105-108 | an accepted angle is off-target iff it is below 20 or above 40 |
| GuideLine.VecLen | app.py:115-117 | (definition, no ensures) the needle's length is the square root of the squared norm of the tail-to-tip vector |
| GuideLine.PixelLength | app.py:123 | (definition, no ensures) the guide length in pixels is the length in millimetres times the assumed calibration of 20 pixels per millimetre (set at app.py:48) |
| GuideLine.GuideRay | app.py:115-124 | (definition, no ensures) the un-truncated guide end: nothing when the needle's length is not positive; otherwise the tip moved along the unit needle direction by the pixel length |
| GuideLine.VecLenPositive | app.py:115-119 | `vec_len` is the non-negative root of `vec_x² + vec_y²`, and it is positive exactly when tip and tail differ |
| GuideLine.GuideRayDefined | app.py:117-126 | the zero-length guard skips the guide exactly when tip = tail |
| GuideLine.GuideRayGeometry | app.py:115-124 | when tip ≠ tail, the end lies on the needle's line at squared distance (guide_len_mm·20)² from the tip, ahead of the tip exactly when the length is positive |
| GuideLine.GuideRayCharacterised | app.py:115-124 | for tip ≠ tail and a positive length, a point is the guide end iff it is on the needle's line, ahead of the tip, at distance guide_len_mm·20 |
| GuideLine.OnRayIsGuideEnd | app.py:115-124 | any point on the needle's line, ahead of the tip, at distance guide_len_mm·20 is the computed guide end |
| GuideLine.Truncate | app.py:125-126 | `int()` truncates toward zero: the result is within one of the real value, no farther from zero than it |
| GuideLine.TruncatesToUnique | app.py:125-126 | truncation toward zero has exactly one answer |
| GuideLine.GuideEnd | app.py:114-126 | a guide end exists iff the guide is switched on and tip ≠ tail; its coordinates are the real end point truncated toward zero |
| GuideLine.GuideExample | app.py:114-126 | tip (100,100), tail (100,150) and a 3 mm guide give the end point (100,40) |
| NeedleFrame.ProcessFrame | app.py:72-131 | no needle iff the detector returned nothing or no segment passed the filter; otherwise the needle is the earliest longest accepted segment (its position in the input is reported with it), its angle is in (10,85), tip and tail are its endpoints with the tip strictly higher, the status follows the 20–40 band, and the guide is present iff switched on |
| NeedleFrame.NoLinesIsEmpty | app.py:72-76 | a `None` result from the detector and an empty batch both give no needle |
| NeedleFrame.ConfigOnlyAffectsGuide | app.py:105-126 | the guide settings change only the guide: the needle and its position in the input, tip, tail, angle and status are the same under any settings |
| NeedleFrame.DefaultGuideLength | app.py:45-48 | with the initial settings (guide on, 3 mm, 20 px/mm) every detected needle gets a guide. Its un-truncated end lies on the needle's line, 60 pixels ahead of the tip. The drawn end is that point truncated toward zero, so it differs from that point by less than one pixel in each coordinate and need not lie on the line |

## Left out

- Page setup, the sidebar widgets and the `update_settings` call (app.py:9-39, 50-53, 161-163). They are UI glue. The settings they deliver are the `Config` parameter of `ProcessFrame`.
- The WebRTC/STUN configuration, `webrtc_streamer`, and the `av` frame conversions (app.py:57-58, 137, 147-159). They are transport plumbing.
- Grayscale, Gaussian blur, Canny and `HoughLinesP` (app.py:61-70). These are OpenCV calls, so their output is an arbitrary input sequence.
- The debug mode that returns the edge image early (app.py:65-67). It only switches what is rendered.
- All drawing: `cv2.line`, `cv2.circle`, `cv2.putText`, the colours and the `Angle: …` text (app.py:111, 129-135). These are side effects on pixel buffers. The status is kept as an enum in place of a colour.
- The catch-all exception handler that returns the raw frame (app.py:139-142). The model has no failing operation. The only division is guarded by the same `vec_len > 0` test as the source.
- Exact floating-point behaviour of `atan2`, `degrees`, `sqrt`, the divisions and the multiplications. Angles, the square root and the guide computation use exact reals and the abstract functions described above. Selection compares exact integer squared lengths; `GuideLine.SqrtOrder` shows this agrees with comparing exact square roots. That correctly rounded `np.sqrt` keeps the order for pixel-sized coordinates is not proved.
- Fixed-width integer arithmetic on the Hough output (numpy `int32` deltas and squares). Pixel coordinates stay far below the overflow range, so the model uses unbounded integers.
- `best_line` is modelled as an index into the input, not as the numpy row object.
- The vessel projection, ROI masking, tip-inversion flag and angle-recording session belong to other variants of the application. They do not occur in app.py and are not modelled.
