/** Image-space geometry shared by the needle pipeline: integer pixel points,
    the line segments a probabilistic Hough transform reports, and their
    squared lengths. */
module Geometry {

  /** The conventional Some/None datatype; `None` stands for Python's `None`. */
  datatype Option<+T> = None | Some(value: T)

  /** A pixel position; `y` grows downwards, as in image coordinates. */
  datatype Point = Point(x: int, y: int)

  /** One Hough segment `(x1, y1, x2, y2)`, endpoints in detector order. */
  datatype Segment = Segment(x1: int, y1: int, x2: int, y2: int) {

    /** The first endpoint as reported by the detector. */
    function P1(): Point { Point(x1, y1) }

    /** The second endpoint as reported by the detector. */
    function P2(): Point { Point(x2, y2) }

    /** The same segment with its endpoints listed the other way round. */
    function Reversed(): (r: Segment)
      ensures r.P1() == P2() && r.P2() == P1()
    {
      Segment(x2, y2, x1, y1)
    }
  }

  function Abs(n: int): (r: nat)
    ensures r == n || r == -n
  {
    if n < 0 then -n else n
  }

  /** Squared Euclidean length. Comparing these integers orders segments
      exactly as comparing their square roots does. */
  function SqLen(s: Segment): (r: nat)
    ensures r == 0 <==> s.P1() == s.P2()
    ensures s.x1 != s.x2 ==> r >= Abs(s.x2 - s.x1)
  {
    var dx := Abs(s.x2 - s.x1);
    var dy := Abs(s.y2 - s.y1);
    NatSquareFacts(dx);
    NatSquareFacts(dy);
    dx * dx + dy * dy
  }

  lemma NatSquareFacts(n: nat)
    ensures n * n == 0 <==> n == 0
    ensures n > 0 ==> n * n >= n
  {
    if n > 0 {
      assert n * n >= n * 1;
    }
  }

  /** Length does not depend on which endpoint the detector lists first. */
  lemma SqLenReversed(s: Segment)
    ensures SqLen(s.Reversed()) == SqLen(s)
  {
    assert Abs(s.x1 - s.x2) == Abs(s.x2 - s.x1);
    assert Abs(s.y1 - s.y2) == Abs(s.y2 - s.y1);
  }
}
