/** The per-frame body of `NeedleGuideSimulator.recv` once drawing is
    stripped (app.py:72-131): from the Hough segments of one frame to the
    overlay that would be drawn on it. */
module NeedleFrame {
  import opened Geometry
  import opened Selection
  import opened TipResolver
  import opened Classification
  import opened GuideLine

  /** The processor settings read by the per-frame logic: `show_guide` and
      `guide_len_mm`. */
  datatype Config = Config(showGuide: bool, guideLenMm: real)

  /** The values the processor starts with (app.py:45-46). */
  const DefaultConfig: Config := Config(true, 3.0)

  /** What one frame's overlay shows: nothing, or the needle line from tail
      to tip in its status colour, its angle, and possibly a guide line from
      the tip to `guideEnd`. */
  datatype Overlay =
    | NoNeedle
    | Needle(index: nat, segment: Segment, tip: Point, tail: Point, angle: real, status: Status, guideEnd: Option<Point>)

  /** `lines` is what `cv2.HoughLinesP` returned; `None` when it found
      nothing. */
  function ProcessFrame(lines: Option<seq<Segment>>, cfg: Config, atan: Atan2Deg, sqrt: Sqrt): (r: Overlay)
    requires AtanLaw(atan) && SqrtLaw(sqrt)
    ensures r.NoNeedle? <==> lines.None? || NoneAccepted(lines.value, atan)
    ensures r.Needle? ==> lines.Some? && IsBest(lines.value, atan, r.index) && r.segment == lines.value[r.index]
    ensures r.Needle? ==> r.angle == Angle(r.segment, atan) && MinAngle < r.angle < MaxAngle
    ensures r.Needle? ==> EndpointsOf(Ends(r.tip, r.tail), r.segment) && r.tip.y < r.tail.y
    ensures r.Needle? ==> (r.status == OnTarget <==> OnTargetLow <= r.angle <= OnTargetHigh)
    ensures r.Needle? ==> (r.guideEnd.Some? <==> cfg.showGuide)
    ensures r.Needle? ==> r.guideEnd == GuideEnd(r.tip, r.tail, cfg.showGuide, cfg.guideLenMm, sqrt)
  {
    match lines
    case None => NoNeedle
    case Some(ls) =>
      match SelectNeedle(ls, atan)
      case None => NoNeedle
      case Some(sel) =>
        var ends := ResolveTip(sel.segment);
        AcceptedTipStrictlyAbove(sel.segment, atan);
        Needle(sel.index, sel.segment, ends.tip, ends.tail, sel.angle, Classify(sel.angle),
               GuideEnd(ends.tip, ends.tail, cfg.showGuide, cfg.guideLenMm, sqrt))
  }

  /** Python's `None` from the detector and an empty batch give the same,
      empty, overlay. */
  lemma NoLinesIsEmpty(cfg: Config, atan: Atan2Deg, sqrt: Sqrt)
    requires AtanLaw(atan) && SqrtLaw(sqrt)
    ensures ProcessFrame(None, cfg, atan, sqrt) == NoNeedle
    ensures ProcessFrame(Some([]), cfg, atan, sqrt) == NoNeedle
  {
  }

  /** The guide settings change only the guide: the needle, its ends, its
      angle and its status are the same under any configuration. */
  lemma ConfigOnlyAffectsGuide(lines: Option<seq<Segment>>, c1: Config, c2: Config, atan: Atan2Deg, sqrt: Sqrt)
    requires AtanLaw(atan) && SqrtLaw(sqrt)
    ensures ProcessFrame(lines, c1, atan, sqrt).NoNeedle? == ProcessFrame(lines, c2, atan, sqrt).NoNeedle?
    ensures ProcessFrame(lines, c1, atan, sqrt).Needle? ==>
      var r1 := ProcessFrame(lines, c1, atan, sqrt);
      var r2 := ProcessFrame(lines, c2, atan, sqrt);
      r1.index == r2.index && r1.segment == r2.segment && r1.tip == r2.tip && r1.tail == r2.tail
      && r1.angle == r2.angle && r1.status == r2.status
  {
  }

  /** With the default settings every detected needle gets a guide. Before
      truncation its end lies 60 pixels (3 mm at 20 px/mm) beyond the tip
      along the needle's line; the drawn end is that point truncated. */
  lemma DefaultGuideLength(lines: Option<seq<Segment>>, atan: Atan2Deg, sqrt: Sqrt)
    requires AtanLaw(atan) && SqrtLaw(sqrt)
    ensures
      var r := ProcessFrame(lines, DefaultConfig, atan, sqrt);
      r.Needle? ==>
        var e := GuideRay(r.tip, r.tail, DefaultConfig.guideLenMm, sqrt);
        && r.guideEnd.Some?
        && e.Some?
        && Dist2(r.tip, e.value) == 60.0 * 60.0
        && Cross(r.tip, r.tail, e.value) == 0.0
        && 0.0 < Dot(r.tip, r.tail, e.value)
        && TruncatesTo(e.value.x, r.guideEnd.value.x)
        && TruncatesTo(e.value.y, r.guideEnd.value.y)
  {
    var r := ProcessFrame(lines, DefaultConfig, atan, sqrt);
    if r.Needle? {
      GuideRayGeometry(r.tip, r.tail, DefaultConfig.guideLenMm, sqrt);
    }
  }
}
