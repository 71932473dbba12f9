/** Tip/tail resolution (app.py:99-103): the endpoint higher on screen
    (smaller `y`) is taken as the needle tip, the other as the hand end. */
module TipResolver {
  import opened Geometry
  import opened Selection

  datatype Ends = Ends(tip: Point, tail: Point)

  /** The two endpoints in either order. */
  predicate EndpointsOf(e: Ends, s: Segment) {
    (e.tip == s.P1() && e.tail == s.P2()) || (e.tip == s.P2() && e.tail == s.P1())
  }

  /** The first endpoint is the tip only when it is strictly higher; on a
      level segment the second endpoint becomes the tip. */
  function ResolveTip(s: Segment): (r: Ends)
    ensures EndpointsOf(r, s)
    ensures r.tip.y <= r.tail.y
    ensures s.y1 == s.y2 ==> r.tip == s.P2() && r.tail == s.P1()
  {
    if s.y1 < s.y2 then Ends(s.P1(), s.P2()) else Ends(s.P2(), s.P1())
  }

  /** The three facts `ResolveTip` promises pin its answer down: any pair
      with the same properties is the one it returns. */
  lemma ResolveTipDetermined(s: Segment, e: Ends)
    requires EndpointsOf(e, s)
    requires e.tip.y <= e.tail.y
    requires s.y1 == s.y2 ==> e.tip == s.P2() && e.tail == s.P1()
    ensures e == ResolveTip(s)
  {
  }

  /** Unless the segment is level, the choice does not depend on the order
      in which the detector lists the endpoints. */
  lemma ResolveTipReversed(s: Segment)
    ensures s.y1 != s.y2 ==> ResolveTip(s.Reversed()) == ResolveTip(s)
    ensures s.y1 == s.y2 ==>
      ResolveTip(s.Reversed()) == Ends(ResolveTip(s).tail, ResolveTip(s).tip)
  {
  }

  /** A segment that passed the angle filter is never level, so its tip is
      strictly above its tail and the two are distinct points. */
  lemma AcceptedTipStrictlyAbove(s: Segment, atan: Atan2Deg)
    requires AtanLaw(atan)
    requires Accepted(s, atan)
    ensures ResolveTip(s).tip.y < ResolveTip(s).tail.y
    ensures ResolveTip(s).tip != ResolveTip(s).tail
  {
    AcceptedIsOblique(s, atan);
  }
}
