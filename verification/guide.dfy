/** Guide extrapolation (app.py:114-126): a virtual needle continuing the
    tail-to-tip direction beyond the tip by a physical length converted to
    pixels, its end truncated to integer pixels. */
module GuideLine {
  import opened Geometry

  /** The square root used for the needle's length. It is not modelled in
      floating point; it is a parameter constrained by `SqrtLaw`. */
  type Sqrt = real -> real

  /** What the model assumes of the square root: it is the non-negative root. */
  ghost predicate SqrtLaw(sqrt: Sqrt) {
    forall x: real :: 0.0 <= x ==> 0.0 <= sqrt(x) && sqrt(x) * sqrt(x) == x
  }

  /** Assumed camera calibration, pixels per millimetre (app.py:48). */
  const PxPerMm: real := 20.0

  /** The guide length converted from millimetres to pixels. */
  function PixelLength(lenMm: real): real {
    lenMm * PxPerMm
  }

  /** A point before the truncation to integer pixels. */
  datatype RealPoint = RealPoint(x: real, y: real)

  /** The two components of the needle vector, from the tail to the tip. */
  function Dx(tip: Point, tail: Point): real { (tip.x - tail.x) as real }
  function Dy(tip: Point, tail: Point): real { (tip.y - tail.y) as real }

  /** The needle vector's squared norm. */
  function SqNorm(tip: Point, tail: Point): real {
    Dx(tip, tail) * Dx(tip, tail) + Dy(tip, tail) * Dy(tip, tail)
  }

  /** The needle vector's length: the square root of its squared norm. */
  function VecLen(tip: Point, tail: Point, sqrt: Sqrt): real {
    sqrt(SqNorm(tip, tail))
  }

  /** The two components of the offset from the integer point `p` to `e`. */
  function OffX(p: Point, e: RealPoint): real { e.x - p.x as real }
  function OffY(p: Point, e: RealPoint): real { e.y - p.y as real }

  /** Squared distance from `p` to `e`. */
  function Dist2(p: Point, e: RealPoint): real {
    OffX(p, e) * OffX(p, e) + OffY(p, e) * OffY(p, e)
  }

  /** Cross product of the offset `e - tip` with the needle `tip - tail`;
      zero iff `e` lies on the needle's line. */
  function Cross(tip: Point, tail: Point, e: RealPoint): real {
    OffX(tip, e) * Dy(tip, tail) - OffY(tip, e) * Dx(tip, tail)
  }

  /** Dot product of the offset `e - tip` with the needle `tip - tail`;
      positive iff `e` lies ahead of the tip. */
  function Dot(tip: Point, tail: Point, e: RealPoint): real {
    OffX(tip, e) * Dx(tip, tail) + OffY(tip, e) * Dy(tip, tail)
  }

  lemma ProductPositive(a: real, b: real)
    requires 0.0 < a && 0.0 < b
    ensures 0.0 < a * b
  {
  }

  lemma SquarePositive(a: real)
    ensures 0.0 <= a * a
    ensures a != 0.0 ==> 0.0 < a * a
  {
    if a < 0.0 {
      ProductPositive(-a, -a);
      assert a * a == (-a) * (-a);
    } else if 0.0 < a {
      ProductPositive(a, a);
    }
  }

  lemma ProductNonZero(a: real, b: real)
    ensures a != 0.0 && b != 0.0 ==> a * b != 0.0
  {
    if 0.0 < a && 0.0 < b {
      ProductPositive(a, b);
    } else if a < 0.0 && 0.0 < b {
      ProductPositive(-a, b);
      assert a * b == -((-a) * b);
    } else if 0.0 < a && b < 0.0 {
      ProductPositive(a, -b);
      assert a * b == -(a * (-b));
    } else if a < 0.0 && b < 0.0 {
      ProductPositive(-a, -b);
      assert a * b == (-a) * (-b);
    }
  }

  /** Two non-negative numbers with equal squares are equal. */
  lemma {:induction false} SquareRootUnique(a: real, b: real)
    requires 0.0 <= a && 0.0 <= b && a * a == b * b
    ensures a == b
  {
    assert (a - b) * (a + b) == a * a - b * b;
    ProductNonZero(a - b, a + b);
  }

  /** The root of a positive number is positive and of zero is zero. */
  lemma SqrtSign(sqrt: Sqrt, x: real)
    requires SqrtLaw(sqrt)
    requires 0.0 <= x
    ensures 0.0 < sqrt(x) ==> 0.0 < x
    ensures 0.0 < x ==> 0.0 < sqrt(x)
  {
    var s := sqrt(x);
    assert 0.0 <= s && s * s == x;
    SquarePositive(s);
    if 0.0 < s {
      calc {
        x;
        s * s;
      > { ProductPositive(s, s); }
        0.0;
      }
    } else {
      assert x == 0.0 * 0.0;
    }
  }

  /** The lawful root of `a * a` is `a` for non-negative `a`. */
  lemma SqrtOfSquare(sqrt: Sqrt, a: real)
    requires SqrtLaw(sqrt)
    requires 0.0 <= a
    ensures sqrt(a * a) == a
  {
    SquarePositive(a);
    SquareRootUnique(sqrt(a * a), a);
  }

  /** Squaring is strictly increasing on the non-negative reals. */
  lemma SquareMonotone(u: real, v: real)
    requires 0.0 <= v < u
    ensures v * v < u * u
  {
    assert u * u - v * v == (u - v) * (u + v);
    ProductPositive(u - v, u + v);
  }

  /** Comparing the roots of two squared lengths orders them exactly as
      comparing the squared lengths themselves, so the scan may keep
      integer squared lengths in place of their square roots. */
  lemma {:induction false} SqrtOrder(sqrt: Sqrt, a: nat, b: nat)
    requires SqrtLaw(sqrt)
    ensures sqrt(a as real) > sqrt(b as real) <==> a > b
  {
    var u, v := sqrt(a as real), sqrt(b as real);
    assert 0.0 <= u && u * u == a as real;
    assert 0.0 <= v && v * v == b as real;
    if v < u {
      SquareMonotone(u, v);
    } else if u < v {
      SquareMonotone(v, u);
    }
  }

  /** The offset `(v / len) * L` of a unit-vector step: its length is `|L|`,
      it is parallel to `v`, and its projection on `v` is `L * len`. */
  lemma {:induction false} StepFacts(vx: real, vy: real, len: real, L: real, ox: real, oy: real)
    requires 0.0 < len && len * len == vx * vx + vy * vy
    requires ox == vx / len * L && oy == vy / len * L
    ensures ox * ox + oy * oy == L * L
    ensures ox * vy - oy * vx == 0.0
    ensures ox * vx + oy * vy == L * len
  {
    var k := L / len;
    assert k * len == L;
    assert ox == k * vx;
    assert oy == k * vy;
    assert ox * ox + oy * oy == (k * k) * (vx * vx + vy * vy);
    assert (k * k) * (vx * vx + vy * vy) == (k * k) * (len * len);
    assert (k * k) * (len * len) == (k * len) * (k * len);
    assert ox * vx + oy * vy == k * (vx * vx + vy * vy);
    assert k * (len * len) == (k * len) * len;
  }

  /** An offset parallel to a non-zero vector `v` is the multiple
      `d / |v|^2` of it, where `d` is its projection on `v`. */
  lemma {:induction false} ParallelIsMultiple(ox: real, oy: real, vx: real, vy: real, n2: real, d: real)
    requires ox * vy == oy * vx
    requires n2 == vx * vx + vy * vy && 0.0 < n2
    requires d == ox * vx + oy * vy
    ensures ox == d / n2 * vx
    ensures oy == d / n2 * vy
  {
    assert ox * n2 == vx * d by {
      assert ox * n2 == ox * vx * vx + (ox * vy) * vy;
      assert (ox * vy) * vy == (oy * vx) * vy;
    }
    assert oy * n2 == vy * d by {
      assert oy * n2 == (oy * vx) * vx + oy * vy * vy;
      assert (oy * vx) * vx == (ox * vy) * vx;
    }
  }

  /** Conversely to `StepFacts`: an offset parallel to `v`, pointing the
      same way, of length `L > 0`, is the step `(v / len) * L`. */
  lemma {:induction false} StepDetermined(vx: real, vy: real, len: real, L: real, ox: real, oy: real)
    requires 0.0 < len && len * len == vx * vx + vy * vy
    requires 0.0 < L && ox * ox + oy * oy == L * L
    requires ox * vy - oy * vx == 0.0
    requires 0.0 < ox * vx + oy * vy
    ensures ox == vx / len * L && oy == vy / len * L
  {
    var n2 := vx * vx + vy * vy;
    var d := ox * vx + oy * vy;
    ProductPositive(len, len);
    ParallelIsMultiple(ox, oy, vx, vy, n2, d);
    var t := d / n2;
    assert 0.0 < t;
    assert (t * len) * (t * len) == L * L by {
      assert (t * len) * (t * len) == (t * t) * n2;
      assert (t * t) * n2 == (t * vx) * (t * vx) + (t * vy) * (t * vy);
    }
    ProductPositive(t, len);
    SquareRootUnique(t * len, L);
    assert t == L / len;
  }

  /** The un-truncated guide end: the tip moved along the needle's unit
      direction by the guide's pixel length, or nothing when the needle
      vector has zero length. */
  function GuideRay(tip: Point, tail: Point, lenMm: real, sqrt: Sqrt): Option<RealPoint> {
    var len := VecLen(tip, tail, sqrt);
    if 0.0 < len then
      var L := PixelLength(lenMm);
      Some(RealPoint(tip.x as real + Dx(tip, tail) / len * L, tip.y as real + Dy(tip, tail) / len * L))
    else
      None
  }

  /** The needle vector has positive length exactly when tip and tail differ. */
  lemma VecLenPositive(tip: Point, tail: Point, sqrt: Sqrt)
    requires SqrtLaw(sqrt)
    ensures 0.0 <= SqNorm(tip, tail)
    ensures 0.0 < VecLen(tip, tail, sqrt) <==> tip != tail
    ensures VecLen(tip, tail, sqrt) * VecLen(tip, tail, sqrt) == SqNorm(tip, tail)
  {
    SquarePositive(Dx(tip, tail));
    SquarePositive(Dy(tip, tail));
    SqrtSign(sqrt, SqNorm(tip, tail));
  }

  /** The zero-length guard fires exactly when tip and tail coincide. */
  lemma GuideRayDefined(tip: Point, tail: Point, lenMm: real, sqrt: Sqrt)
    requires SqrtLaw(sqrt)
    ensures GuideRay(tip, tail, lenMm, sqrt).None? <==> tip == tail
  {
    VecLenPositive(tip, tail, sqrt);
  }

  /** Where the guide ends: on the needle's line, at distance
      `guide_len_mm * 20` from the tip, ahead of it exactly when the length
      is positive. */
  lemma GuideRayGeometry(tip: Point, tail: Point, lenMm: real, sqrt: Sqrt)
    requires SqrtLaw(sqrt)
    requires tip != tail
    ensures GuideRay(tip, tail, lenMm, sqrt).Some?
    ensures
      var e := GuideRay(tip, tail, lenMm, sqrt).value;
      && Dist2(tip, e) == PixelLength(lenMm) * PixelLength(lenMm)
      && Cross(tip, tail, e) == 0.0
      && (0.0 < Dot(tip, tail, e) <==> 0.0 < lenMm)
      && (0.0 == Dot(tip, tail, e) <==> 0.0 == lenMm)
  {
    VecLenPositive(tip, tail, sqrt);
    var len := VecLen(tip, tail, sqrt);
    var L := PixelLength(lenMm);
    var e := GuideRay(tip, tail, lenMm, sqrt).value;
    StepFacts(Dx(tip, tail), Dy(tip, tail), len, L, OffX(tip, e), OffY(tip, e));
    SignOfProduct(L, len);
  }

  lemma SignOfProduct(a: real, b: real)
    requires 0.0 < b
    ensures 0.0 < a * b <==> 0.0 < a
    ensures 0.0 == a * b <==> 0.0 == a
  {
    if 0.0 < a {
      ProductPositive(a, b);
    } else if a < 0.0 {
      ProductPositive(-a, b);
      assert a * b == -((-a) * b);
    }
  }

  /** Independent description of the guide end: for a positive length it is
      the one point on the tail-to-tip ray, ahead of the tip, at distance
      exactly `guide_len_mm * 20` from it. */
  lemma {:induction false} GuideRayCharacterised(tip: Point, tail: Point, lenMm: real, sqrt: Sqrt, e: RealPoint)
    requires SqrtLaw(sqrt)
    requires tip != tail && 0.0 < lenMm
    ensures e == GuideRay(tip, tail, lenMm, sqrt).value <==>
              && Dist2(tip, e) == PixelLength(lenMm) * PixelLength(lenMm)
              && Cross(tip, tail, e) == 0.0
              && 0.0 < Dot(tip, tail, e)
  {
    GuideRayGeometry(tip, tail, lenMm, sqrt);
    if && Dist2(tip, e) == PixelLength(lenMm) * PixelLength(lenMm)
       && Cross(tip, tail, e) == 0.0
       && 0.0 < Dot(tip, tail, e)
    {
      OnRayIsGuideEnd(tip, tail, lenMm, sqrt, e);
    }
  }

  lemma {:induction false} OnRayIsGuideEnd(tip: Point, tail: Point, lenMm: real, sqrt: Sqrt, e: RealPoint)
    requires SqrtLaw(sqrt)
    requires tip != tail && 0.0 < lenMm
    requires Dist2(tip, e) == PixelLength(lenMm) * PixelLength(lenMm)
    requires Cross(tip, tail, e) == 0.0
    requires 0.0 < Dot(tip, tail, e)
    ensures e == GuideRay(tip, tail, lenMm, sqrt).value
  {
    VecLenPositive(tip, tail, sqrt);
    StepDetermined(Dx(tip, tail), Dy(tip, tail), VecLen(tip, tail, sqrt), PixelLength(lenMm),
                   OffX(tip, e), OffY(tip, e));
  }

  /** Python's `int()` on a float: truncation toward zero. */
  predicate TruncatesTo(x: real, n: int) {
    if 0.0 <= x then n as real <= x < n as real + 1.0
    else n as real - 1.0 < x <= n as real
  }

  function Truncate(x: real): (r: int)
    ensures TruncatesTo(x, r)
  {
    if 0.0 <= x then x.Floor else -((-x).Floor)
  }

  /** Truncation has one answer, so `Truncate` is `int()`. */
  lemma TruncatesToUnique(x: real, n: int, m: int)
    requires TruncatesTo(x, n) && TruncatesTo(x, m)
    ensures n == m
  {
  }

  /** The drawn guide end, or nothing when the guide is switched off or the
      direction vector has zero length. */
  function GuideEnd(tip: Point, tail: Point, showGuide: bool, lenMm: real, sqrt: Sqrt): (r: Option<Point>)
    requires SqrtLaw(sqrt)
    ensures r.Some? <==> showGuide && tip != tail
    ensures r.Some? ==>
      var e := GuideRay(tip, tail, lenMm, sqrt).value;
      TruncatesTo(e.x, r.value.x) && TruncatesTo(e.y, r.value.y)
  {
    GuideRayDefined(tip, tail, lenMm, sqrt);
    if !showGuide then None
    else
      match GuideRay(tip, tail, lenMm, sqrt)
      case None => None
      case Some(e) => Some(Point(Truncate(e.x), Truncate(e.y)))
  }

  /** A needle pointing straight up from (100,150) to (100,100) with a 3 mm
      guide ends 60 pixels higher, at (100,40). */
  lemma GuideExample(sqrt: Sqrt)
    requires SqrtLaw(sqrt)
    ensures GuideEnd(Point(100, 100), Point(100, 150), true, 3.0, sqrt) == Some(Point(100, 40))
  {
    SqrtOfSquare(sqrt, 50.0);
    assert 0.0 * 0.0 + (-50.0) * (-50.0) == 50.0 * 50.0;
    assert GuideRay(Point(100, 100), Point(100, 150), 3.0, sqrt) == Some(RealPoint(100.0, 40.0));
  }
}
