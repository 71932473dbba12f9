/** Needle selection: the angle of each Hough segment, the acceptance band
    that filters out near-horizontal and near-vertical clutter, and the
    longest-accepted-segment choice with first-seen tie-breaking
    (app.py:72-93). */
module Selection {
  import opened Geometry

  /** `degrees(atan2(dy, dx))` applied to the magnitudes of a segment's
      deltas. Taking `nat` arguments makes every angle depend on `|dy|` and
      `|dx|` only. The floating-point function itself is not modelled; it is
      a parameter constrained by `AtanLaw`. */
  type Atan2Deg = (nat, nat) -> real

  /** What the model assumes of the arc tangent: a horizontal, non-degenerate
      segment has angle 0. */
  ghost predicate AtanLaw(atan: Atan2Deg) {
    forall dx: nat :: 0 < dx ==> atan(0, dx) == 0.0
  }

  /** Open acceptance band for a plausible insertion angle, in degrees. */
  const MinAngle: real := 10.0
  const MaxAngle: real := 85.0

  /** The angle of a segment from horizontal, fixed at 90 for a vertical one
      so that no division by zero can occur. */
  function Angle(s: Segment, atan: Atan2Deg): real {
    if s.x2 - s.x1 == 0 then 90.0
    else atan(Abs(s.y2 - s.y1), Abs(s.x2 - s.x1))
  }

  /** A segment survives the filter iff its angle lies strictly inside the band. */
  predicate Accepted(s: Segment, atan: Atan2Deg) {
    MinAngle < Angle(s, atan) < MaxAngle
  }

  /** A vertical segment gets angle exactly 90 and is never selectable. */
  lemma VerticalRejected(s: Segment, atan: Atan2Deg)
    requires s.x1 == s.x2
    ensures Angle(s, atan) == 90.0
    ensures !Accepted(s, atan)
  {
  }

  /** A horizontal, non-degenerate segment gets angle 0 and is never selectable. */
  lemma HorizontalRejected(s: Segment, atan: Atan2Deg)
    requires AtanLaw(atan)
    requires s.y1 == s.y2 && s.x1 != s.x2
    ensures Angle(s, atan) == 0.0
    ensures !Accepted(s, atan)
  {
    assert Abs(s.y2 - s.y1) == 0;
  }

  /** An accepted segment is neither horizontal nor vertical, so it has
      positive length. */
  lemma AcceptedIsOblique(s: Segment, atan: Atan2Deg)
    requires AtanLaw(atan)
    requires Accepted(s, atan)
    ensures s.x1 != s.x2 && s.y1 != s.y2
    ensures SqLen(s) > 0
  {
    if s.x1 != s.x2 && s.y1 == s.y2 {
      HorizontalRejected(s, atan);
    }
  }

  /** The band is open: exactly 10 and exactly 85 degrees are rejected. */
  lemma BandBoundsRejected(s: Segment, atan: Atan2Deg)
    requires Angle(s, atan) == MinAngle || Angle(s, atan) == MaxAngle
    ensures !Accepted(s, atan)
  {
  }

  /** The angle, and so acceptance, ignores the order of the endpoints. */
  lemma AngleReversed(s: Segment, atan: Atan2Deg)
    ensures Angle(s.Reversed(), atan) == Angle(s, atan)
    ensures Accepted(s.Reversed(), atan) <==> Accepted(s, atan)
  {
    assert Abs(s.x1 - s.x2) == Abs(s.x2 - s.x1);
    assert Abs(s.y1 - s.y2) == Abs(s.y2 - s.y1);
  }

  /** `i` is the segment the scan keeps after looking at `lines[..k]`: it is
      accepted, no accepted segment so far is longer, and every accepted
      segment before it is strictly shorter (the first of equals wins). */
  ghost predicate BestAmong(lines: seq<Segment>, atan: Atan2Deg, k: nat, i: nat)
    requires k <= |lines|
  {
    && i < k
    && Accepted(lines[i], atan)
    && (forall j | 0 <= j < k && Accepted(lines[j], atan) :: SqLen(lines[j]) <= SqLen(lines[i]))
    && (forall j | 0 <= j < i && Accepted(lines[j], atan) :: SqLen(lines[j]) < SqLen(lines[i]))
  }

  /** Reference definition of the needle: the earliest longest accepted segment. */
  ghost predicate IsBest(lines: seq<Segment>, atan: Atan2Deg, i: nat) {
    BestAmong(lines, atan, |lines|, i)
  }

  ghost predicate NoneAccepted(lines: seq<Segment>, atan: Atan2Deg) {
    forall j | 0 <= j < |lines| :: !Accepted(lines[j], atan)
  }

  /** The loop variables of app.py:72-74: `best_line` (as an index),
      `max_len` (squared) and `current_angle`. */
  datatype Scan = Scan(best: Option<nat>, maxSq: nat, angle: real)

  /** The scan state before any segment is seen: no needle, zero length
      and zero angle. */
  const Initial: Scan := Scan(None, 0, 0.0)

  /** Loop invariant of the scan after `k` segments. */
  ghost predicate ScanInv(lines: seq<Segment>, atan: Atan2Deg, k: nat, st: Scan) {
    && k <= |lines|
    && match st.best
       case None =>
         st.maxSq == 0 && st.angle == 0.0
         && forall j | 0 <= j < k :: !Accepted(lines[j], atan)
       case Some(i) =>
         BestAmong(lines, atan, k, i)
         && st.maxSq == SqLen(lines[i])
         && st.angle == Angle(lines[i], atan)
  }

  /** One pass of the `for line in lines` loop from position `k` on. */
  function ScanFrom(lines: seq<Segment>, atan: Atan2Deg, k: nat, st: Scan): (r: Scan)
    requires k <= |lines|
    requires ScanInv(lines, atan, k, st)
    ensures ScanInv(lines, atan, |lines|, r)
    decreases |lines| - k
  {
    if k == |lines| then st
    else
      var s := lines[k];
      var next :=
        if Accepted(s, atan) && SqLen(s) > st.maxSq
        then Scan(Some(k), SqLen(s), Angle(s, atan))
        else st;
      ScanFrom(lines, atan, k + 1, next)
  }

  /** The selected needle: its position in the input, the segment and the
      angle carried along as `current_angle`. */
  datatype Selected = Selected(index: nat, segment: Segment, angle: real)

  /** Runs the scan over the whole input. */
  function SelectNeedle(lines: seq<Segment>, atan: Atan2Deg): (r: Option<Selected>)
    ensures r.None? <==> NoneAccepted(lines, atan)
    ensures r.Some? ==>
      && r.value.index < |lines|
      && IsBest(lines, atan, r.value.index)
      && r.value.segment == lines[r.value.index]
      && r.value.angle == Angle(r.value.segment, atan)
  {
    var st := ScanFrom(lines, atan, 0, Initial);
    match st.best
    case None => None
    case Some(i) => Some(Selected(i, lines[i], st.angle))
  }

  /** At most one index meets the reference definition. */
  lemma {:induction false} BestUnique(lines: seq<Segment>, atan: Atan2Deg, i: nat, j: nat)
    requires IsBest(lines, atan, i) && IsBest(lines, atan, j)
    ensures i == j
  {
    // Each is at least as long as the other, so neither can precede the
    // other: the earlier one would have to be strictly shorter.
    assert SqLen(lines[j]) <= SqLen(lines[i]);
    assert SqLen(lines[i]) <= SqLen(lines[j]);
  }

  /** The scan selects exactly the segment the reference definition names:
      index `i` is selected iff it is the earliest longest accepted segment. */
  lemma SelectNeedleIsBest(lines: seq<Segment>, atan: Atan2Deg, i: nat)
    ensures (SelectNeedle(lines, atan).Some? && SelectNeedle(lines, atan).value.index == i)
            <==> IsBest(lines, atan, i)
  {
    var r := SelectNeedle(lines, atan);
    if IsBest(lines, atan, i) {
      assert Accepted(lines[i], atan);
      assert r.Some?;
      BestUnique(lines, atan, i, r.value.index);
    }
  }

  /** No accepted segment anywhere in the input is strictly longer than the
      selected one, and none before it is as long. */
  lemma SelectedIsLongest(lines: seq<Segment>, atan: Atan2Deg, j: nat)
    requires j < |lines| && Accepted(lines[j], atan)
    ensures SelectNeedle(lines, atan).Some?
    ensures SqLen(lines[j]) <= SqLen(SelectNeedle(lines, atan).value.segment)
    ensures j < SelectNeedle(lines, atan).value.index ==>
              SqLen(lines[j]) < SqLen(SelectNeedle(lines, atan).value.segment)
  {
  }

  /** Strict `>` on the length: of two accepted segments of equal length
      the later one is never selected. */
  lemma TieGoesToFirst(lines: seq<Segment>, atan: Atan2Deg, i: nat, j: nat)
    requires i < j < |lines|
    requires Accepted(lines[i], atan) && Accepted(lines[j], atan)
    requires SqLen(lines[i]) == SqLen(lines[j])
    ensures SelectNeedle(lines, atan).Some?
    ensures SelectNeedle(lines, atan).value.index != j
  {
  }
}
