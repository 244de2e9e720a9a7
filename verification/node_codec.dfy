/**
 * A node's `Codable` conformance: `encode(to:)` writes the points, box,
 * movability, colours, style and the path as parallel lists of point groups
 * and raw element codes; `init(from:)` reads them back, rebuilds the path and
 * recomputes the bounding box from the first and last points.
 */
module NodeCodec {
  import opened Wrappers
  import opened Geometry
  import opened Paths
  import opened Nodes

  /** The keyed container a node is encoded into, one field per coding key. */
  datatype EncodedNode = EncodedNode(
    nodeFirstPoint: Point,
    nodeLastPoint: Point,
    nodeBoundingBox: Rect,
    nodeMovable: bool,
    nodeFill: seq<real>,
    nodeStroke: seq<real>,
    nodeBezPoints: seq<seq<Point>>,
    nodeBezTypes: seq<int32>,
    nodeLineCap: string,
    nodeLineJoin: string,
    nodeLineWidth: real,
    nodeMiter: real,
    nodeBounds: Rect,
    nodePosition: Point)

  /** The components written in place of a missing colour. */
  const NilColor: seq<real> := [-1.0, -1.0, -1.0, -1.0]

  /** A missing colour is written as the sentinel, a present one as its components. */
  function EncodeColor(c: Option<Color>): seq<real>
  {
    match c
    case None => NilColor
    case Some(color) => color.components
  }

  /** The sentinel reads back as no colour; anything else as the colour with those components. */
  function DecodeColor(s: seq<real>): (c: Option<Color>)
    ensures c.None? <==> s == NilColor
    ensures c.Some? ==> c.value.components == s
  {
    if s == NilColor then None else Some(Color(s))
  }

  /** A colour survives encoding unless its components are the sentinel itself. */
  lemma ColorRoundTrip(c: Option<Color>)
    requires c.None? || c.value.components != NilColor
    ensures DecodeColor(EncodeColor(c)) == c
  {
  }

  /** Components written by `CGColor.rgba` lie in [0, 1], so a real colour is never the sentinel. */
  lemma UnitColorIsNotNil(c: Color)
    requires forall i :: 0 <= i < |c.components| ==> 0.0 <= c.components[i] <= 1.0
    ensures c.components != NilColor
  {
    assert NilColor[0] < 0.0;
  }

  /** The raw codes of a path's element kinds, in order. */
  function RawTypes(path: Path): (raws: seq<int32>)
    ensures |raws| == |path|
    ensures forall i :: 0 <= i < |path| ==> KindOfRaw(raws[i]) == Kind(path[i])
  {
    seq(|path|, i requires 0 <= i < |path| => RawValue(Kind(path[i])))
  }

  /** Raw codes read back as kinds; an unknown code reads as a move. */
  function DecodeKinds(raws: seq<int32>): (ks: seq<ElementKind>)
    ensures |ks| == |raws|
    ensures forall i :: 0 <= i < |raws| && 0 <= raws[i] <= 4 ==> RawValue(ks[i]) == raws[i]
    ensures forall i :: 0 <= i < |raws| && !(0 <= raws[i] <= 4) ==> ks[i] == MoveToPoint
  {
    seq(|raws|, i requires 0 <= i < |raws| => KindOfRaw(raws[i]))
  }

  /** `encode(to:)`; it force-unwraps the shape layer's path, so a node without one cannot be encoded. */
  function Encode(n: Node): (r: Option<EncodedNode>)
    ensures r.None? <==> n.shapeLayer.path.None?
    ensures r.Some? ==>
      var path := n.shapeLayer.path.value;
      && |r.value.nodeBezTypes| == |r.value.nodeBezPoints| == |path|
      && (forall i :: 0 <= i < |path| ==> KindOfRaw(r.value.nodeBezTypes[i]) == Kind(path[i]))
      && (forall i :: 0 <= i < |path| ==> r.value.nodeBezPoints[i] == ElementPoints(path[i]))
      && (n.shapeLayer.fillColor.None? ==> r.value.nodeFill == NilColor)
      && (n.shapeLayer.strokeColor.None? ==> r.value.nodeStroke == NilColor)
  {
    match n.shapeLayer.path
    case None => None
    case Some(path) =>
      var layer := n.shapeLayer;
      Some(EncodedNode(
        n.firstPoint, n.lastPoint, n.boundingBox, n.isMovable,
        EncodeColor(layer.fillColor), EncodeColor(layer.strokeColor),
        PointGroups(path), RawTypes(path),
        layer.lineCap, layer.lineJoin, layer.lineWidth, layer.miterLimit,
        layer.bounds, layer.position))
  }

  /**
   * `init(from:)`: rebuilds the path from kinds and point groups, gives it to
   * both the node and its shape layer, and then calls `setBoundingBox()`, so
   * the stored bounding box is overwritten by the box spanned from the first
   * to the last point.
   */
  function Decode(e: EncodedNode): (n: Node)
    ensures n.firstPoint == e.nodeFirstPoint && n.lastPoint == e.nodeLastPoint
    ensures n.isMovable == e.nodeMovable
    ensures n.shapeLayer.path == Some(n.mutablePath)
    ensures n.boundingBox.origin == e.nodeFirstPoint
    ensures n.boundingBox.origin.x + n.boundingBox.width == e.nodeLastPoint.x
    ensures n.boundingBox.origin.y + n.boundingBox.height == e.nodeLastPoint.y
    ensures n.shapeLayer.fillColor.None? <==> e.nodeFill == NilColor
    ensures n.shapeLayer.strokeColor.None? <==> e.nodeStroke == NilColor
  {
    var path := BuildPath(DecodeKinds(e.nodeBezTypes), e.nodeBezPoints);
    var layer := ShapeLayer(
      Some(path), DecodeColor(e.nodeFill), DecodeColor(e.nodeStroke),
      e.nodeLineCap, e.nodeLineJoin, e.nodeLineWidth, e.nodeMiter, e.nodeBounds, e.nodePosition);
    var stored := Node(path, e.nodeFirstPoint, e.nodeLastPoint, e.nodeBoundingBox, layer, e.nodeMovable);
    SetBoundingBox(stored, None, false)
  }

  /** The stored bounding box has no effect on the decoded node. */
  lemma DecodeIgnoresStoredBox(e: EncodedNode, box: Rect)
    ensures Decode(e.(nodeBoundingBox := box)) == Decode(e)
  {
  }

  /** Colours that the encoder can write without colliding with the missing-colour sentinel. */
  predicate ColorsEncodable(n: Node)
  {
    && (n.shapeLayer.fillColor.None? || n.shapeLayer.fillColor.value.components != NilColor)
    && (n.shapeLayer.strokeColor.None? || n.shapeLayer.strokeColor.value.components != NilColor)
  }

  /** Colours as `CGColor.rgba` writes them, components in [0, 1], are always encodable. */
  lemma UnitColorsEncodable(n: Node)
    requires n.shapeLayer.fillColor.Some? ==>
      forall i :: 0 <= i < |n.shapeLayer.fillColor.value.components| ==>
        0.0 <= n.shapeLayer.fillColor.value.components[i] <= 1.0
    requires n.shapeLayer.strokeColor.Some? ==>
      forall i :: 0 <= i < |n.shapeLayer.strokeColor.value.components| ==>
        0.0 <= n.shapeLayer.strokeColor.value.components[i] <= 1.0
    ensures ColorsEncodable(n)
  {
    if n.shapeLayer.fillColor.Some? {
      UnitColorIsNotNil(n.shapeLayer.fillColor.value);
    }
    if n.shapeLayer.strokeColor.Some? {
      UnitColorIsNotNil(n.shapeLayer.strokeColor.value);
    }
  }

  lemma DecodeKindsOfRawTypes(path: Path)
    ensures DecodeKinds(RawTypes(path)) == Kinds(path)
  {
  }

  /**
   * Encoding and then decoding a node keeps its first and last points, its
   * movability, its shape layer, and its shape layer's path element by
   * element (so the kinds in order too); the node's own path becomes the
   * shape layer's path and its box becomes the signed first-to-last box.
   */
  lemma DecodeEncode(n: Node)
    requires n.shapeLayer.path.Some?
    requires ColorsEncodable(n)
    ensures Encode(n).Some?
    ensures var d := Decode(Encode(n).value);
      && d.firstPoint == n.firstPoint
      && d.lastPoint == n.lastPoint
      && d.isMovable == n.isMovable
      && d.shapeLayer == n.shapeLayer
      && d.mutablePath == n.shapeLayer.path.value
      && Kinds(d.mutablePath) == Kinds(n.shapeLayer.path.value)
      && d == SetBoundingBox(n.(mutablePath := n.shapeLayer.path.value), None, false)
  {
    var path := n.shapeLayer.path.value;
    DecodeKindsOfRawTypes(path);
    BuildPathRoundTrip(path);
    ColorRoundTrip(n.shapeLayer.fillColor);
    ColorRoundTrip(n.shapeLayer.strokeColor);
  }

  /**
   * An encoding as the encoder writes them: as many raw codes as point
   * groups, every code known, and every group exactly as long as its kind
   * needs.
   */
  predicate Canonical(e: EncodedNode)
  {
    && |e.nodeBezTypes| == |e.nodeBezPoints|
    && (forall i :: 0 <= i < |e.nodeBezTypes| ==> 0 <= e.nodeBezTypes[i] <= 4)
    && (forall i :: 0 <= i < |e.nodeBezTypes| ==>
          |e.nodeBezPoints[i]| == Arity(KindOfRaw(e.nodeBezTypes[i])))
  }

  /** Well-formed kinds and groups rebuild a path with exactly those kinds and groups. */
  lemma {:induction false} BuildPathCanonical(kinds: seq<ElementKind>, groups: seq<seq<Point>>)
    requires |kinds| == |groups|
    requires forall i :: 0 <= i < |kinds| ==> |groups[i]| == Arity(kinds[i])
    ensures Kinds(BuildPath(kinds, groups)) == kinds
    ensures PointGroups(BuildPath(kinds, groups)) == groups
  {
    if kinds != [] {
      BuildPathCanonical(kinds[1..], groups[1..]);
      var e := MakeElement(kinds[0], groups[0]).value;
      assert groups[0][..Arity(kinds[0])] == groups[0];
      var rest := BuildPath(kinds[1..], groups[1..]);
      assert BuildPath(kinds, groups) == [e] + rest;
      assert Kinds([e] + rest) == [Kind(e)] + Kinds(rest);
      assert PointGroups([e] + rest) == [ElementPoints(e)] + PointGroups(rest);
    }
  }

  /**
   * Decoding an encoding as the encoder writes it, then encoding again, gives
   * back the same encoding except for the bounding box, which is the one
   * recomputed from the first and last points.
   */
  lemma EncodeDecode(e: EncodedNode)
    requires Canonical(e)
    ensures Encode(Decode(e)) == Some(e.(nodeBoundingBox := Decode(e).boundingBox))
  {
    var kinds := DecodeKinds(e.nodeBezTypes);
    BuildPathCanonical(kinds, e.nodeBezPoints);
    var path := BuildPath(kinds, e.nodeBezPoints);
    assert Kinds(path) == kinds;
    assert RawTypes(path) == e.nodeBezTypes;
  }
}
