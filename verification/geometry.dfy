/**
 * Core Graphics geometry used by the canvas: points, rectangles with a signed
 * size, and the small helpers (midpoint, box tests, bounding boxes) the
 * drawing code relies on. Coordinates are exact reals; floating point
 * rounding is not modelled.
 */
module Geometry {

  /** A `CGPoint`. */
  datatype Point = Point(x: real, y: real)

  /** `CGPoint()` / `CGPoint.zero`. */
  const Origin: Point := Point(0.0, 0.0)

  /** A `CGRect`: an origin and a size whose width and height may be negative. */
  datatype Rect = Rect(origin: Point, width: real, height: real)

  /** `CGRect()`: the zero rectangle. */
  const ZeroRect: Rect := Rect(Origin, 0.0, 0.0)

  function Abs(v: real): (r: real)
    ensures r >= 0.0
    ensures r == v || r == -v
  {
    if v < 0.0 then -v else v
  }

  function Min(a: real, b: real): (r: real)
    ensures r <= a && r <= b
    ensures r == a || r == b
  {
    if a <= b then a else b
  }

  function Max(a: real, b: real): (r: real)
    ensures r >= a && r >= b
    ensures r == a || r == b
  {
    if a <= b then b else a
  }

  /**
   * The `midpoint(a:b:)` helper of the library. Its body is not part of this
   * model; it is taken to be the arithmetic mean of the two points.
   */
  function Midpoint(a: Point, b: Point): (m: Point)
    ensures m.x - a.x == b.x - m.x
    ensures m.y - a.y == b.y - m.y
  {
    Point((a.x + b.x) / 2.0, (a.y + b.y) / 2.0)
  }

  /** The hit test's box check: `pt` lies within `t` of `v` on both axes. */
  predicate WithinBox(pt: Point, v: Point, t: real)
  {
    Abs(pt.x - v.x) <= t && Abs(pt.y - v.y) <= t
  }

  /** `CGRect.minX` / `minY`: the smaller edge, whatever the sign of the size. */
  function MinX(r: Rect): real { Min(r.origin.x, r.origin.x + r.width) }
  function MinY(r: Rect): real { Min(r.origin.y, r.origin.y + r.height) }

  /** A point inside (or on the edge of) a rectangle with non-negative size. */
  predicate InRect(r: Rect, p: Point)
  {
    && r.origin.x <= p.x <= r.origin.x + r.width
    && r.origin.y <= p.y <= r.origin.y + r.height
  }

  function LeastX(ps: seq<Point>): real
    requires |ps| > 0
  {
    if |ps| == 1 then ps[0].x else Min(ps[0].x, LeastX(ps[1..]))
  }

  function GreatestX(ps: seq<Point>): real
    requires |ps| > 0
  {
    if |ps| == 1 then ps[0].x else Max(ps[0].x, GreatestX(ps[1..]))
  }

  function LeastY(ps: seq<Point>): real
    requires |ps| > 0
  {
    if |ps| == 1 then ps[0].y else Min(ps[0].y, LeastY(ps[1..]))
  }

  function GreatestY(ps: seq<Point>): real
    requires |ps| > 0
  {
    if |ps| == 1 then ps[0].y else Max(ps[0].y, GreatestY(ps[1..]))
  }

  lemma {:induction false} ExtremesBound(ps: seq<Point>, i: int)
    requires 0 <= i < |ps|
    ensures LeastX(ps) <= ps[i].x <= GreatestX(ps)
    ensures LeastY(ps) <= ps[i].y <= GreatestY(ps)
  {
    if i > 0 {
      ExtremesBound(ps[1..], i - 1);
    }
  }

  /** Each extreme of a non-empty list of points is the coordinate of one of them. */
  lemma {:induction false} ExtremesAttained(ps: seq<Point>)
    requires |ps| > 0
    ensures exists i :: 0 <= i < |ps| && ps[i].x == LeastX(ps)
    ensures exists i :: 0 <= i < |ps| && ps[i].x == GreatestX(ps)
    ensures exists i :: 0 <= i < |ps| && ps[i].y == LeastY(ps)
    ensures exists i :: 0 <= i < |ps| && ps[i].y == GreatestY(ps)
  {
    if |ps| > 1 {
      var tail := ps[1..];
      ExtremesAttained(tail);
      var a :| 0 <= a < |tail| && tail[a].x == LeastX(tail);
      var b :| 0 <= b < |tail| && tail[b].x == GreatestX(tail);
      var c :| 0 <= c < |tail| && tail[c].y == LeastY(tail);
      var d :| 0 <= d < |tail| && tail[d].y == GreatestY(tail);
      assert ps[a + 1] == tail[a] && ps[b + 1] == tail[b];
      assert ps[c + 1] == tail[c] && ps[d + 1] == tail[d];
    } else {
      assert ps[0].x == LeastX(ps) == GreatestX(ps);
      assert ps[0].y == LeastY(ps) == GreatestY(ps);
    }
  }

  /**
   * `r` is the smallest rectangle holding every point of `ps`: its size is
   * non-negative, it holds them all, and each of its four edges touches one
   * of them.
   */
  predicate IsBoundingBox(r: Rect, ps: seq<Point>)
  {
    && r.width >= 0.0 && r.height >= 0.0
    && (forall i :: 0 <= i < |ps| ==> InRect(r, ps[i]))
    && (exists i :: 0 <= i < |ps| && ps[i].x == r.origin.x)
    && (exists i :: 0 <= i < |ps| && ps[i].x == r.origin.x + r.width)
    && (exists i :: 0 <= i < |ps| && ps[i].y == r.origin.y)
    && (exists i :: 0 <= i < |ps| && ps[i].y == r.origin.y + r.height)
  }

  /** A list of points has at most one bounding box. */
  lemma BoundingBoxUnique(r1: Rect, r2: Rect, ps: seq<Point>)
    requires IsBoundingBox(r1, ps) && IsBoundingBox(r2, ps)
    ensures r1 == r2
  {
    var a1 :| 0 <= a1 < |ps| && ps[a1].x == r1.origin.x;
    var a2 :| 0 <= a2 < |ps| && ps[a2].x == r2.origin.x;
    assert InRect(r1, ps[a2]) && InRect(r2, ps[a1]);
    var b1 :| 0 <= b1 < |ps| && ps[b1].x == r1.origin.x + r1.width;
    var b2 :| 0 <= b2 < |ps| && ps[b2].x == r2.origin.x + r2.width;
    assert InRect(r1, ps[b2]) && InRect(r2, ps[b1]);
    var c1 :| 0 <= c1 < |ps| && ps[c1].y == r1.origin.y;
    var c2 :| 0 <= c2 < |ps| && ps[c2].y == r2.origin.y;
    assert InRect(r1, ps[c2]) && InRect(r2, ps[c1]);
    var d1 :| 0 <= d1 < |ps| && ps[d1].y == r1.origin.y + r1.height;
    var d2 :| 0 <= d2 < |ps| && ps[d2].y == r2.origin.y + r2.height;
    assert InRect(r1, ps[d2]) && InRect(r2, ps[d1]);
  }

  /**
   * `CGPath.boundingBox` of a path whose points (control points included) are
   * `ps`: the smallest rectangle holding all of them. The platform body is not
   * part of this model; this is the documented meaning.
   */
  function ControlBounds(ps: seq<Point>): (r: Rect)
    requires |ps| > 0
    ensures IsBoundingBox(r, ps)
  {
    var r := Rect(Point(LeastX(ps), LeastY(ps)), GreatestX(ps) - LeastX(ps), GreatestY(ps) - LeastY(ps));
    forall i | 0 <= i < |ps| ensures InRect(r, ps[i]) {
      ExtremesBound(ps, i);
    }
    ExtremesAttained(ps);
    r
  }
}
