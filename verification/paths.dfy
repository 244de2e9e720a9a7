/**
 * The elements of a Core Graphics path, as the node code walks them with
 * `bezierPointsAndTypes`, and the raw `CGPathElementType` codes the node codec
 * stores them under.
 */
module Paths {
  import opened Wrappers
  import opened Geometry

  /** One element of a `CGPath`. */
  datatype PathElement =
    | MoveTo(to: Point)
    | LineTo(to: Point)
    | QuadCurveTo(control: Point, end: Point)
    | CurveTo(control1: Point, control2: Point, end: Point)
    | CloseSubpath

  /** A path is its ordered list of elements. */
  type Path = seq<PathElement>

  /** `CGPathElementType`. */
  datatype ElementKind =
    | MoveToPoint
    | AddLineToPoint
    | AddQuadCurveToPoint
    | AddCurveToPoint
    | CloseSubpathKind

  /** A signed 32-bit integer, the codec's storage type for element kinds. */
  newtype int32 = x: int | -0x8000_0000 <= x < 0x8000_0000

  function Kind(e: PathElement): ElementKind
  {
    match e
    case MoveTo(_) => MoveToPoint
    case LineTo(_) => AddLineToPoint
    case QuadCurveTo(_, _) => AddQuadCurveToPoint
    case CurveTo(_, _, _) => AddCurveToPoint
    case CloseSubpath => CloseSubpathKind
  }

  /** How many points an element of each kind carries. */
  function Arity(k: ElementKind): nat
  {
    match k
    case MoveToPoint => 1
    case AddLineToPoint => 1
    case AddQuadCurveToPoint => 2
    case AddCurveToPoint => 3
    case CloseSubpathKind => 0
  }

  /** The points of one element, control points first and end point last. */
  function ElementPoints(e: PathElement): (ps: seq<Point>)
    ensures |ps| == Arity(Kind(e))
    ensures e.MoveTo? || e.LineTo? ==> ps == [e.to]
    ensures e.QuadCurveTo? ==> ps == [e.control, e.end]
    ensures e.CurveTo? ==> ps == [e.control1, e.control2, e.end]
  {
    match e
    case MoveTo(p) => [p]
    case LineTo(p) => [p]
    case QuadCurveTo(c, p) => [c, p]
    case CurveTo(c1, c2, p) => [c1, c2, p]
    case CloseSubpath => []
  }

  /** `bezierPoints`: every point of every element of the path, in order. */
  function PathPoints(path: Path): seq<Point>
  {
    if path == [] then [] else ElementPoints(path[0]) + PathPoints(path[1..])
  }

  lemma {:induction false} PathPointsAppend(a: Path, b: Path)
    ensures PathPoints(a + b) == PathPoints(a) + PathPoints(b)
  {
    if a == [] {
      assert a + b == b;
    } else {
      assert (a + b)[1..] == a[1..] + b;
      PathPointsAppend(a[1..], b);
    }
  }

  /** Every point of every element of the path occurs among its `bezierPoints`. */
  lemma {:induction false} ElementPointInPathPoints(path: Path, i: int, j: int)
    requires 0 <= i < |path| && 0 <= j < |ElementPoints(path[i])|
    ensures ElementPoints(path[i])[j] in PathPoints(path)
  {
    if i > 0 {
      ElementPointInPathPoints(path[1..], i - 1, j);
    }
  }

  /** `CGPathElementType.rawValue`. */
  function RawValue(k: ElementKind): int32
  {
    match k
    case MoveToPoint => 0
    case AddLineToPoint => 1
    case AddQuadCurveToPoint => 2
    case AddCurveToPoint => 3
    case CloseSubpathKind => 4
  }

  /**
   * The decoder's `CGPathElementType(rawValue:) ?? .moveToPoint`: a known raw
   * code gives back its kind, and any other code falls back to a move.
   */
  function KindOfRaw(raw: int32): (k: ElementKind)
    ensures 0 <= raw <= 4 ==> RawValue(k) == raw
    ensures !(0 <= raw <= 4) ==> k == MoveToPoint
  {
    if raw == 0 then MoveToPoint
    else if raw == 1 then AddLineToPoint
    else if raw == 2 then AddQuadCurveToPoint
    else if raw == 3 then AddCurveToPoint
    else if raw == 4 then CloseSubpathKind
    else MoveToPoint
  }

  lemma KindOfRawInvertsRawValue(k: ElementKind)
    ensures KindOfRaw(RawValue(k)) == k
  {
  }

  /**
   * One element rebuilt from its kind and its point group. A group with too
   * few points for the kind yields nothing; surplus points are ignored.
   */
  function MakeElement(k: ElementKind, ps: seq<Point>): (r: Option<PathElement>)
    ensures r.Some? <==> |ps| >= Arity(k)
    ensures r.Some? ==> Kind(r.value) == k && ElementPoints(r.value) == ps[..Arity(k)]
  {
    if |ps| < Arity(k) then None
    else
      match k
      case MoveToPoint => Some(MoveTo(ps[0]))
      case AddLineToPoint => Some(LineTo(ps[0]))
      case AddQuadCurveToPoint => Some(QuadCurveTo(ps[0], ps[1]))
      case AddCurveToPoint => Some(CurveTo(ps[0], ps[1], ps[2]))
      case CloseSubpathKind => Some(CloseSubpath)
  }

  /** An element is determined by its kind and its points. */
  lemma MakeElementInverts(e: PathElement)
    ensures MakeElement(Kind(e), ElementPoints(e)) == Some(e)
  {
  }

  /** The element kinds of a path, in order (the `.1` of `bezierPointsAndTypes`). */
  function Kinds(path: Path): (ks: seq<ElementKind>)
    ensures |ks| == |path|
    ensures forall i :: 0 <= i < |path| ==> ks[i] == Kind(path[i])
  {
    seq(|path|, i requires 0 <= i < |path| => Kind(path[i]))
  }

  /** The point groups of a path, in order (the `.0` of `bezierPointsAndTypes`). */
  function PointGroups(path: Path): (gs: seq<seq<Point>>)
    ensures |gs| == |path|
    ensures forall i :: 0 <= i < |path| ==> gs[i] == ElementPoints(path[i])
  {
    seq(|path|, i requires 0 <= i < |path| => ElementPoints(path[i]))
  }

  /**
   * The library's `buildPath(from:bPoints:)`, whose body is not part of this
   * model: it pairs kinds with point groups in order, stops at the shorter
   * list, and skips a pair whose group is too short for its kind.
   */
  function BuildPath(kinds: seq<ElementKind>, groups: seq<seq<Point>>): (path: Path)
    ensures |path| <= |kinds| && |path| <= |groups|
  {
    if kinds == [] || groups == [] then []
    else
      match MakeElement(kinds[0], groups[0])
      case Some(e) => [e] + BuildPath(kinds[1..], groups[1..])
      case None => BuildPath(kinds[1..], groups[1..])
  }

  /** Rebuilding a path from its own kinds and point groups gives it back. */
  lemma {:induction false} BuildPathRoundTrip(path: Path)
    ensures BuildPath(Kinds(path), PointGroups(path)) == path
  {
    if path != [] {
      MakeElementInverts(path[0]);
      assert Kinds(path)[1..] == Kinds(path[1..]);
      assert PointGroups(path)[1..] == PointGroups(path[1..]);
      BuildPathRoundTrip(path[1..]);
    }
  }
}
