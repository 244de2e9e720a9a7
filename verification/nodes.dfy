/**
 * A node on the canvas: one curve, line or shape, its path, its first and
 * last points, its bounding box and the shape layer that styles it; with the
 * incremental path builder, the hit test, the bounding-box setter, the SVG
 * writer and the copy.
 */
module Nodes {
  import opened Wrappers
  import opened Geometry
  import opened Paths
  import Svg

  /** The drawing tools the node code distinguishes. */
  datatype Tool = Pen | Eraser | Line | Rectangle | Ellipse

  /** A colour, as the list of its components (`CGColor.rgba`). */
  datatype Color = Color(components: seq<real>)

  /** The `CAShapeLayer` properties a node keeps and serialises. */
  datatype ShapeLayer = ShapeLayer(
    path: Option<Path>,
    fillColor: Option<Color>,
    strokeColor: Option<Color>,
    lineCap: string,
    lineJoin: string,
    lineWidth: real,
    miterLimit: real,
    bounds: Rect,
    position: Point)

  /**
   * `CAShapeLayer()`: the platform's defaults (no path, opaque black fill, no
   * stroke, width 1, miter limit 10, butt caps, miter joins, zero geometry).
   */
  const FreshShapeLayer: ShapeLayer :=
    ShapeLayer(None, Some(Color([0.0, 0.0, 0.0, 1.0])), None, "butt", "miter", 1.0, 10.0, ZeroRect, Origin)

  datatype Node = Node(
    mutablePath: Path,
    firstPoint: Point,
    lastPoint: Point,
    boundingBox: Rect,
    shapeLayer: ShapeLayer,
    isMovable: bool)

  /** `Node()`: an empty, movable node at the origin whose layer has no path yet. */
  function NewNode(): (n: Node)
    ensures n.mutablePath == [] && n.shapeLayer.path.None?
    ensures n.firstPoint == n.lastPoint == Origin
    ensures n.boundingBox.width == 0.0 && n.boundingBox.height == 0.0
    ensures n.isMovable
  {
    Node([], Origin, Origin, ZeroRect, FreshShapeLayer, true)
  }

  // ---------------------------------------------------------------------
  // Incremental construction
  // ---------------------------------------------------------------------

  /** `setInitialPoint(point:)`: records the first point and moves the path there. */
  function SetInitialPoint(n: Node, p: Point): (r: Node)
    ensures r.firstPoint == p
    ensures |r.mutablePath| == |n.mutablePath| + 1
    ensures r.mutablePath[..|n.mutablePath|] == n.mutablePath
    ensures r.mutablePath[|n.mutablePath|] == MoveTo(p)
    ensures r.lastPoint == n.lastPoint && r.boundingBox == n.boundingBox
    ensures r.shapeLayer == n.shapeLayer && r.isMovable == n.isMovable
  {
    n.(firstPoint := p, mutablePath := n.mutablePath + [MoveTo(p)])
  }

  /**
   * `move(from:to:tool:)`: records the last point; with the pen, smooths the
   * stroke by adding a quadratic curve whose control point is the previous
   * sample and whose end is the midpoint of the two samples.
   */
  function Move(n: Node, from: Point, to: Point, tool: Tool): (r: Node)
    ensures r.lastPoint == to
    ensures r.firstPoint == n.firstPoint && r.boundingBox == n.boundingBox
    ensures r.shapeLayer == n.shapeLayer && r.isMovable == n.isMovable
    ensures tool == Pen ==>
      |r.mutablePath| == |n.mutablePath| + 1
      && r.mutablePath[..|n.mutablePath|] == n.mutablePath
      && r.mutablePath[|n.mutablePath|].QuadCurveTo?
      && r.mutablePath[|n.mutablePath|].control == from
      && r.mutablePath[|n.mutablePath|].end.x - from.x == to.x - r.mutablePath[|n.mutablePath|].end.x
      && r.mutablePath[|n.mutablePath|].end.y - from.y == to.y - r.mutablePath[|n.mutablePath|].end.y
    ensures tool != Pen ==> r.mutablePath == n.mutablePath
  {
    var n' := n.(lastPoint := to);
    match tool
    case Pen => n'.(mutablePath := n.mutablePath + [QuadCurveTo(from, Midpoint(from, to))])
    case _ => n'
  }

  /**
   * `addPath(p1:p2:currentPoint:tool:)`: with the pen, appends a sub-path from
   * the midpoint of `p1`,`p2` curving (control `p2`) to the midpoint of
   * `currentPoint`,`p2`, and returns that sub-path's bounding box. The
   * sub-path is closed only after it was added, so no close element reaches
   * the node's path. Every other tool leaves the node alone and returns the
   * zero rectangle.
   */
  function AddPath(n: Node, p1: Point, p2: Point, currentPoint: Point, tool: Tool): (r: (Node, Rect))
    ensures tool == Pen ==>
      var k := |n.mutablePath|;
      && |r.0.mutablePath| == k + 2
      && r.0.mutablePath[..k] == n.mutablePath
      && r.0.mutablePath[k] == MoveTo(Midpoint(p1, p2))
      && r.0.mutablePath[k + 1] == QuadCurveTo(p2, Midpoint(currentPoint, p2))
      && (forall i :: k <= i < k + 2 ==> !r.0.mutablePath[i].CloseSubpath?)
      && r.0 == n.(mutablePath := r.0.mutablePath)
      && IsBoundingBox(r.1, [Midpoint(p1, p2), p2, Midpoint(currentPoint, p2)])
    ensures tool != Pen ==> r.0 == n && r.1 == ZeroRect
  {
    match tool
    case Pen =>
      var mid1 := Midpoint(p1, p2);
      var mid2 := Midpoint(currentPoint, p2);
      var subpath := [MoveTo(mid1), QuadCurveTo(p2, mid2)];
      var bounds := ControlBounds(PathPoints(subpath));
      assert subpath[1..] == [QuadCurveTo(p2, mid2)];
      assert PathPoints([QuadCurveTo(p2, mid2)]) == [p2, mid2] + PathPoints([]);
      assert PathPoints(subpath) == [mid1] + [p2, mid2];
      assert [mid1] + [p2, mid2] == [mid1, p2, mid2];
      (n.(mutablePath := n.mutablePath + subpath), bounds)
    case _ => (n, ZeroRect)
  }

  // ---------------------------------------------------------------------
  // Hit test
  // ---------------------------------------------------------------------

  /** Whether some point of `ps` passes the box test around `pt`. */
  function AnyWithin(ps: seq<Point>, pt: Point, t: real): (r: bool)
    ensures r <==> exists i :: 0 <= i < |ps| && WithinBox(pt, ps[i], t)
  {
    if ps == [] then false
    else if WithinBox(pt, ps[0], t) then true
    else
      var rest := AnyWithin(ps[1..], pt, t);
      assert forall i :: 1 <= i < |ps| ==> ps[i] == ps[1..][i - 1];
      rest
  }

  function Square(v: real): real { v * v }

  /**
   * `contains(point:tool:canvas:)`, with the canvas reduced to what the test
   * reads: the current brush's `thickness`, the `pointsOnLine` helper, and
   * the answer of the platform hit test for the ellipse arm (`Some(b)` when
   * the canvas hit-test found a layer whose path answers `b`, `None` when it
   * found none).
   */
  function Contains(n: Node, pt: Point, tool: Tool, thickness: real,
                    pointsOnLine: (Point, Point) -> seq<Point>,
                    platformHit: Option<bool>): (r: bool)
    ensures tool == Pen ==>
      (r <==> exists v :: v in PathPoints(n.mutablePath) && WithinBox(pt, v, thickness))
    ensures tool == Line ==>
      (r <==> (exists v :: v in pointsOnLine(n.firstPoint, n.lastPoint) && WithinBox(pt, v, thickness))
              || (exists v :: v in PathPoints(n.mutablePath) && WithinBox(pt, v, thickness)))
    ensures tool == Rectangle || tool == Eraser ==> !r
    ensures tool == Ellipse && platformHit.Some? ==> r == platformHit.value
    ensures tool == Ellipse && platformHit.None? ==>
      var w := n.boundingBox.width;
      var h := n.boundingBox.height;
      var cx := n.boundingBox.origin.x + w / 2.0;
      var cy := n.boundingBox.origin.y + h / 2.0;
      (r <==> Square(pt.x - cx) + Square(pt.y - cy) <= Square(w / 2.0))
  {
    match tool
    case Pen => AnyWithin(PathPoints(n.mutablePath), pt, thickness)
    case Line =>
      AnyWithin(pointsOnLine(n.firstPoint, n.lastPoint), pt, thickness)
      || AnyWithin(PathPoints(n.mutablePath), pt, thickness)
    case Rectangle => false
    case Ellipse =>
      var box := n.boundingBox;
      var center := Point(MinX(box) + Abs(box.width) / 2.0, MinY(box) + Abs(box.height) / 2.0);
      var radius := Abs(box.width) / 2.0;
      var dx := pt.x - center.x;
      var dy := pt.y - center.y;
      (match platformHit
       case Some(b) => b
       case None => Square(dx) + Square(dy) <= Square(radius))
    case Eraser => false
  }

  // ---------------------------------------------------------------------
  // Bounding box, copy and SVG
  // ---------------------------------------------------------------------

  /**
   * `setBoundingBox(rect:absolute:)`: an explicit rectangle is stored as
   * given; otherwise the box starts at the first point and spans to the last
   * point, with a signed size, or with the size's absolute value when
   * `absolute` is set.
   */
  function SetBoundingBox(n: Node, rect: Option<Rect>, absolute: bool): (r: Node)
    ensures r == n.(boundingBox := r.boundingBox)
    ensures rect.Some? ==> r.boundingBox == rect.value
    ensures rect.None? ==> r.boundingBox.origin == n.firstPoint
    ensures rect.None? && !absolute ==>
      r.boundingBox.origin.x + r.boundingBox.width == n.lastPoint.x
      && r.boundingBox.origin.y + r.boundingBox.height == n.lastPoint.y
    ensures rect.None? && absolute ==>
      && r.boundingBox.width >= 0.0 && r.boundingBox.height >= 0.0
      && (r.boundingBox.width == n.lastPoint.x - n.firstPoint.x || r.boundingBox.width == n.firstPoint.x - n.lastPoint.x)
      && (r.boundingBox.height == n.lastPoint.y - n.firstPoint.y || r.boundingBox.height == n.firstPoint.y - n.lastPoint.y)
  {
    match rect
    case Some(box) => n.(boundingBox := box)
    case None =>
      if absolute then
        n.(boundingBox := Rect(n.firstPoint, Abs(n.lastPoint.x - n.firstPoint.x), Abs(n.lastPoint.y - n.firstPoint.y)))
      else
        n.(boundingBox := Rect(n.firstPoint, n.lastPoint.x - n.firstPoint.x, n.lastPoint.y - n.firstPoint.y))
  }

  /**
   * `copy()`: a fresh node carrying the path, points, box and movability.
   * `layerCopied` tells whether the platform's `mutableCopy()` of the shape
   * layer came back as a shape layer; when it did not, the copy gets a fresh
   * layer.
   */
  function Copy(n: Node, layerCopied: bool): (r: Node)
    ensures r.mutablePath == n.mutablePath
    ensures r.firstPoint == n.firstPoint && r.lastPoint == n.lastPoint
    ensures r.boundingBox == n.boundingBox && r.isMovable == n.isMovable
    ensures layerCopied ==> r == n
    ensures !layerCopied ==> r.shapeLayer.path.None?
  {
    var blank := NewNode();
    blank.(
      mutablePath := n.mutablePath,
      firstPoint := n.firstPoint,
      lastPoint := n.lastPoint,
      boundingBox := n.boundingBox,
      shapeLayer := if layerCopied then n.shapeLayer else FreshShapeLayer,
      isMovable := n.isMovable)
  }

  /** `toSVG()`: the `d` string of the shape layer's path, `""` when it has none. */
  function ToSvg(n: Node, fmt: Svg.Formatter): (s: string)
    ensures n.shapeLayer.path.None? ==> s == ""
    ensures n.shapeLayer.path.Some? ==> s == Svg.PathData(n.shapeLayer.path.value, fmt)
  {
    Svg.LayerPathData(n.shapeLayer.path, fmt)
  }

  /**
   * A node's `d` string reads back as one command per element of its shape
   * layer's path, in order, each with the element's letter and its formatted
   * coordinates.
   */
  lemma ToSvgReadsBack(n: Node, fmt: Svg.Formatter)
    requires Svg.Separable(fmt)
    requires n.shapeLayer.path.Some?
    ensures var path := n.shapeLayer.path.value;
      && |Svg.ReadPathData(ToSvg(n, fmt))| == |path|
      && forall i :: 0 <= i < |path| ==>
           Svg.ReadPathData(ToSvg(n, fmt))[i].letter == Svg.Letter(Kind(path[i]))
           && Svg.ReadPathData(ToSvg(n, fmt))[i].numbers == Svg.FormatAll(Svg.Coordinates(path[i]), fmt)
  {
    Svg.ReadBackPathData(n.shapeLayer.path.value, fmt);
  }

  // ---------------------------------------------------------------------
  // Pen gestures: `setInitialPoint` followed by one `move` per new sample
  // ---------------------------------------------------------------------

  /** The curves the pen adds for a run of samples: one per consecutive pair. */
  function SmoothedCurves(samples: seq<Point>): (cs: Path)
    ensures |cs| == if |samples| == 0 then 0 else |samples| - 1
  {
    if |samples| < 2 then []
    else seq(|samples| - 1, i requires 0 <= i < |samples| - 1 => QuadCurveTo(samples[i], Midpoint(samples[i], samples[i + 1])))
  }

  /** Feeds every consecutive pair of samples to `move(from:to:tool:)`, in order. */
  function MoveThrough(n: Node, samples: seq<Point>, tool: Tool): Node
    decreases |samples|
  {
    if |samples| < 2 then n else MoveThrough(Move(n, samples[0], samples[1], tool), samples[1..], tool)
  }

  /**
   * A pen gesture extends the path by exactly one smoothing curve per new
   * sample (control point the earlier sample, end the midpoint), keeps
   * everything drawn before, ends at the last sample, and never changes the
   * first point.
   */
  lemma {:induction false} MoveThroughPen(n: Node, samples: seq<Point>)
    ensures MoveThrough(n, samples, Pen).mutablePath == n.mutablePath + SmoothedCurves(samples)
    ensures MoveThrough(n, samples, Pen).firstPoint == n.firstPoint
    ensures MoveThrough(n, samples, Pen).boundingBox == n.boundingBox
    ensures MoveThrough(n, samples, Pen).shapeLayer == n.shapeLayer
    ensures |samples| >= 2 ==> MoveThrough(n, samples, Pen).lastPoint == samples[|samples| - 1]
    ensures |samples| < 2 ==> MoveThrough(n, samples, Pen) == n
    decreases |samples|
  {
    if |samples| >= 2 {
      var m := Move(n, samples[0], samples[1], Pen);
      MoveThroughPen(m, samples[1..]);
      var head := QuadCurveTo(samples[0], Midpoint(samples[0], samples[1]));
      assert m.mutablePath == n.mutablePath + [head];
      assert SmoothedCurves(samples) == [head] + SmoothedCurves(samples[1..]);
    }
  }

  /** With any tool but the pen, a gesture moves the last point and leaves the path alone. */
  lemma {:induction false} MoveThroughOtherTool(n: Node, samples: seq<Point>, tool: Tool)
    requires tool != Pen
    ensures MoveThrough(n, samples, tool).mutablePath == n.mutablePath
    ensures MoveThrough(n, samples, tool).firstPoint == n.firstPoint
    ensures |samples| >= 2 ==> MoveThrough(n, samples, tool).lastPoint == samples[|samples| - 1]
    decreases |samples|
  {
    if |samples| >= 2 {
      MoveThroughOtherTool(Move(n, samples[0], samples[1], tool), samples[1..], tool);
    }
  }

  /** A whole pen gesture on node `n` through `samples`. */
  function PenGesture(n: Node, samples: seq<Point>): Node
    requires |samples| > 0
  {
    MoveThrough(SetInitialPoint(n, samples[0]), samples, Pen)
  }

  /** A vertex of the path within the box around `pt` makes the pen hit test succeed. */
  lemma PenHitsNearVertex(n: Node, v: Point, pt: Point, t: real,
                          pointsOnLine: (Point, Point) -> seq<Point>, hit: Option<bool>)
    requires v in PathPoints(n.mutablePath) && WithinBox(pt, v, t)
    ensures Contains(n, pt, Pen, t, pointsOnLine, hit)
  {
  }

  /**
   * The vertices a pen gesture leaves in the path: every sample but the last
   * (as the start point or a control point) and the midpoint of the last step.
   */
  lemma PenGestureVertices(n: Node, samples: seq<Point>)
    requires |samples| > 0
    ensures samples[0] in PathPoints(PenGesture(n, samples).mutablePath)
    ensures forall i :: 0 <= i < |samples| - 1 ==> samples[i] in PathPoints(PenGesture(n, samples).mutablePath)
    ensures |samples| >= 2 ==>
      Midpoint(samples[|samples| - 2], samples[|samples| - 1]) in PathPoints(PenGesture(n, samples).mutablePath)
  {
    var start := SetInitialPoint(n, samples[0]);
    var path := PenGesture(n, samples).mutablePath;
    var k := |start.mutablePath|;
    MoveThroughPen(start, samples);
    assert path[k - 1] == MoveTo(samples[0]);
    ElementPointInPathPoints(path, k - 1, 0);
    forall i | 0 <= i < |samples| - 1
      ensures samples[i] in PathPoints(path)
    {
      assert path[k + i] == SmoothedCurves(samples)[i];
      ElementPointInPathPoints(path, k + i, 0);
    }
    if |samples| >= 2 {
      var c := |samples| - 2;
      assert path[k + c] == SmoothedCurves(samples)[c];
      ElementPointInPathPoints(path, k + c, 1);
    }
  }

  /**
   * After a pen gesture, the pen hit test finds every sample but the last at
   * any non-negative thickness, and finds the last sample once the thickness
   * covers half the last step on each axis (the path ends at the last
   * midpoint, not at the last sample).
   */
  lemma PenGestureHitsSamples(n: Node, samples: seq<Point>, t: real,
                              pointsOnLine: (Point, Point) -> seq<Point>, hit: Option<bool>)
    requires |samples| > 0 && t >= 0.0
    ensures forall i :: 0 <= i < |samples| - 1 ==>
      Contains(PenGesture(n, samples), samples[i], Pen, t, pointsOnLine, hit)
    ensures Contains(PenGesture(n, samples), samples[0], Pen, t, pointsOnLine, hit)
    ensures |samples| >= 2 ==>
      var last := samples[|samples| - 1];
      var prev := samples[|samples| - 2];
      Abs(last.x - prev.x) <= 2.0 * t && Abs(last.y - prev.y) <= 2.0 * t ==>
        Contains(PenGesture(n, samples), last, Pen, t, pointsOnLine, hit)
  {
    var m := PenGesture(n, samples);
    PenGestureVertices(n, samples);
    PenHitsNearVertex(m, samples[0], samples[0], t, pointsOnLine, hit);
    forall i | 0 <= i < |samples| - 1
      ensures Contains(m, samples[i], Pen, t, pointsOnLine, hit)
    {
      PenHitsNearVertex(m, samples[i], samples[i], t, pointsOnLine, hit);
    }
    if |samples| >= 2 {
      var last := samples[|samples| - 1];
      var prev := samples[|samples| - 2];
      if Abs(last.x - prev.x) <= 2.0 * t && Abs(last.y - prev.y) <= 2.0 * t {
        PenHitsNearVertex(m, Midpoint(prev, last), last, t, pointsOnLine, hit);
      }
    }
  }

  /** The node of the worked example: a pen stroke from (0,0) moved to (10,0). */
  function ExampleNode(): Node
  {
    Move(SetInitialPoint(NewNode(), Origin), Origin, Point(10.0, 0.0), Pen)
  }

  /**
   * Worked example: starting a pen stroke at (0,0) and moving to (10,0) gives
   * a move to (0,0) and a curve with control (0,0) ending at (5,0).
   */
  lemma ExamplePath()
    ensures ExampleNode().mutablePath == [MoveTo(Origin), QuadCurveTo(Origin, Point(5.0, 0.0))]
    ensures PathPoints(ExampleNode().mutablePath) == [Origin, Origin, Point(5.0, 0.0)]
  {
    var start := SetInitialPoint(NewNode(), Origin);
    assert start.mutablePath == [MoveTo(Origin)];
    ExampleMove(start);
    ExamplePathPoints();
  }

  lemma ExampleMove(n: Node)
    requires n.mutablePath == [MoveTo(Origin)]
    ensures Move(n, Origin, Point(10.0, 0.0), Pen).mutablePath == [MoveTo(Origin), QuadCurveTo(Origin, Point(5.0, 0.0))]
  {
  }

  lemma ExamplePathPoints()
    ensures PathPoints([MoveTo(Origin), QuadCurveTo(Origin, Point(5.0, 0.0))]) == [Origin, Origin, Point(5.0, 0.0)]
  {
    var end := Point(5.0, 0.0);
    var path := [MoveTo(Origin), QuadCurveTo(Origin, end)];
    assert path[1..] == [QuadCurveTo(Origin, end)];
    assert PathPoints([QuadCurveTo(Origin, end)]) == [Origin, end] + PathPoints([]);
    assert PathPoints(path) == [Origin] + [Origin, end];
  }

  /** With no vertex of the path near `pt`, the pen hit test fails. */
  lemma PenMissesAwayFromVertices(n: Node, pt: Point, t: real,
                                  pointsOnLine: (Point, Point) -> seq<Point>, hit: Option<bool>)
    requires forall v :: v in PathPoints(n.mutablePath) ==> !WithinBox(pt, v, t)
    ensures !Contains(n, pt, Pen, t, pointsOnLine, hit)
  {
  }

  /** A node whose vertices are those of the worked example: (5,0) hits, (50,50) misses. */
  lemma ExampleVerticesHitTest(n: Node, pointsOnLine: (Point, Point) -> seq<Point>, hit: Option<bool>)
    requires PathPoints(n.mutablePath) == [Origin, Origin, Point(5.0, 0.0)]
    ensures Contains(n, Point(5.0, 0.0), Pen, 2.0, pointsOnLine, hit)
    ensures !Contains(n, Point(50.0, 50.0), Pen, 2.0, pointsOnLine, hit)
  {
    var end := Point(5.0, 0.0);
    var far := Point(50.0, 50.0);
    assert end in PathPoints(n.mutablePath);
    PenHitsNearVertex(n, end, end, 2.0, pointsOnLine, hit);
    assert !WithinBox(far, Origin, 2.0);
    assert !WithinBox(far, end, 2.0);
    PenMissesAwayFromVertices(n, far, 2.0, pointsOnLine, hit);
  }

  /** In the worked example, thickness 2 hits (5,0) and misses (50,50). */
  lemma ExampleHitTest(pointsOnLine: (Point, Point) -> seq<Point>, hit: Option<bool>)
    ensures Contains(ExampleNode(), Point(5.0, 0.0), Pen, 2.0, pointsOnLine, hit)
    ensures !Contains(ExampleNode(), Point(50.0, 50.0), Pen, 2.0, pointsOnLine, hit)
  {
    ExamplePath();
    ExampleVerticesHitTest(ExampleNode(), pointsOnLine, hit);
  }
}
