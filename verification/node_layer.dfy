/**
 * The node-list drawing layer: the ordered nodes drawn on it, the image they
 * have been rendered into, an optional background image, and the node being
 * drawn right now. Images are opaque values; rendering is reduced to the
 * ordered list of draw requests a redraw makes.
 */
module NodeLayer {
  import opened Wrappers
  import opened Geometry
  import opened Nodes

  /**
   * A `UIImage`: the empty image `UIImage()`, some other picture (imported or
   * rendered, told apart by an opaque id), or the library's `+` of a bottom
   * and a top image.
   */
  datatype Image = EmptyImage | Picture(id: nat) | Combined(bottom: Image, top: Image)

  datatype Layer = Layer(
    nextNode: Option<Node>,
    drawImage: Image,
    backgroundImage: Option<Image>,
    nodeArray: seq<Node>,
    isVisible: bool,
    allowsDrawing: bool,
    opacity: real)

  /**
   * `init(canvas:)`: no nodes, no node in progress, an empty drawing image,
   * no background, visible, drawable and fully opaque. The canvas reference
   * is not kept in this model.
   */
  function Create(): (l: Layer)
    ensures l.nodeArray == [] && l.nextNode.None? && l.backgroundImage.None?
    ensures l.drawImage == EmptyImage
    ensures l.isVisible && l.allowsDrawing && l.opacity == 1.0
  {
    Layer(None, EmptyImage, None, [], true, true, 1.0)
  }

  /** `nodeCount`. */
  function NodeCount(l: Layer): (n: nat)
    ensures n == |GetNodes(l)|
  {
    |l.nodeArray|
  }

  /** `hasBackgroundImage`. */
  predicate HasBackgroundImage(l: Layer)
  {
    l.backgroundImage.Some?
  }

  /** `getNodes()`. */
  function GetNodes(l: Layer): seq<Node>
  {
    l.nodeArray
  }

  /** `getBackgroundImage()`: it force-unwraps the background, so there is no result without one. */
  function GetBackgroundImage(l: Layer): (r: Option<Image>)
    ensures r.Some? <==> HasBackgroundImage(l)
    ensures r.Some? ==> r == l.backgroundImage
  {
    l.backgroundImage
  }

  /** `getDrawingImage()`. */
  function GetDrawingImage(l: Layer): Image
  {
    l.drawImage
  }

  /** `mergedWithBackground()`: the drawing alone, or the drawing on top of the background. */
  function MergedWithBackground(l: Layer): (img: Image)
    ensures !HasBackgroundImage(l) ==> img == l.drawImage
    ensures HasBackgroundImage(l) ==>
      img.Combined? && img.bottom == l.backgroundImage.value && img.top == l.drawImage
  {
    match l.backgroundImage
    case None => l.drawImage
    case Some(background) => Combined(background, l.drawImage)
  }

  /** The layer reports a background exactly when its merged image is more than the drawing alone. */
  lemma BackgroundShowsInMerge(l: Layer)
    ensures HasBackgroundImage(l) <==> MergedWithBackground(l) != l.drawImage
  {
  }

  /**
   * `clear()`: drops every node and empties the drawing; the background
   * becomes the empty image rather than none, so the layer still reports a
   * background afterwards.
   */
  function Clear(l: Layer): (r: Layer)
    ensures r.nodeArray == [] && NodeCount(r) == 0
    ensures r.drawImage == EmptyImage && r.backgroundImage == Some(EmptyImage)
    ensures HasBackgroundImage(r)
    ensures r.nextNode == l.nextNode && r.isVisible == l.isVisible
    ensures r.allowsDrawing == l.allowsDrawing && r.opacity == l.opacity
  {
    l.(backgroundImage := Some(EmptyImage), drawImage := EmptyImage, nodeArray := [])
  }

  /**
   * `drawFrom(nodes:on:background:)`: appends the nodes after the existing
   * ones, and takes the background only when one is given. It then asks the
   * canvas to re-render the drawing; how the canvas renders is not part of
   * this model, so the re-rendered drawing image is the parameter `redrawn`.
   */
  function DrawFrom(l: Layer, nodes: seq<Node>, background: Option<Image>, redrawn: Image): (r: Layer)
    ensures NodeCount(r) == NodeCount(l) + |nodes|
    ensures r.nodeArray[..|l.nodeArray|] == l.nodeArray
    ensures r.nodeArray[|l.nodeArray|..] == nodes
    ensures background.Some? ==> r.backgroundImage == background
    ensures background.None? ==> r.backgroundImage == l.backgroundImage
    ensures r.drawImage == redrawn
    ensures r == l.(nodeArray := r.nodeArray, backgroundImage := r.backgroundImage, drawImage := redrawn)
  {
    var appended := l.nodeArray + nodes;
    assert appended[..|l.nodeArray|] == l.nodeArray;
    assert appended[|l.nodeArray|..] == nodes;
    l.(nodeArray := appended,
       backgroundImage := if background.Some? then background else l.backgroundImage,
       drawImage := redrawn)
  }

  // ---------------------------------------------------------------------
  // Drawing
  // ---------------------------------------------------------------------

  /** What a redraw asks of the renderer. */
  datatype DrawRequest =
    | DrawImageAt(image: Image, at: Point)
    | DrawImageIn(image: Image, frame: Rect)
    | DrawNode(node: Node)

  /**
   * `draw()`: nothing when the layer is hidden. Otherwise, with no background
   * the drawing is drawn at the origin; with one, the background and then the
   * drawing are drawn in the canvas frame. The node in progress, if any, comes
   * last, on top.
   */
  function Draw(l: Layer, canvasFrame: Rect): (reqs: seq<DrawRequest>)
    ensures !l.isVisible ==> reqs == []
    ensures l.isVisible ==>
      |reqs| == (if HasBackgroundImage(l) then 2 else 1) + (if l.nextNode.Some? then 1 else 0)
    ensures l.isVisible && !HasBackgroundImage(l) ==> reqs[0] == DrawImageAt(l.drawImage, Origin)
    ensures l.isVisible && HasBackgroundImage(l) ==>
      reqs[0] == DrawImageIn(l.backgroundImage.value, canvasFrame)
      && reqs[1] == DrawImageIn(l.drawImage, canvasFrame)
    ensures l.isVisible && l.nextNode.Some? ==> reqs[|reqs| - 1] == DrawNode(l.nextNode.value)
    ensures forall i :: 0 <= i < |reqs| && reqs[i].DrawNode? ==> i == |reqs| - 1
  {
    if !l.isVisible then []
    else
      var live := match l.nextNode
        case None => []
        case Some(n) => [DrawNode(n)];
      match l.backgroundImage
      case None => [DrawImageAt(l.drawImage, Origin)] + live
      case Some(background) => [DrawImageIn(background, canvasFrame), DrawImageIn(l.drawImage, canvasFrame)] + live
  }

  /** The images a list of draw requests paints, in painting order. */
  function ImagesPainted(reqs: seq<DrawRequest>): seq<Image>
  {
    if reqs == [] then []
    else
      var rest := ImagesPainted(reqs[1..]);
      match reqs[0]
      case DrawImageAt(img, _) => [img] + rest
      case DrawImageIn(img, _) => [img] + rest
      case DrawNode(_) => rest
  }

  /** Stacks images painted in order, each on top of the ones before. */
  function Stack(images: seq<Image>): Image
    requires |images| > 0
  {
    if |images| == 1 then images[0] else Combined(Stack(images[..|images| - 1]), images[|images| - 1])
  }

  /**
   * A visible layer paints exactly the images its merged image is made of,
   * bottom first: what `draw()` shows under the live node is
   * `mergedWithBackground()`.
   */
  lemma DrawPaintsMergedImage(l: Layer, canvasFrame: Rect)
    requires l.isVisible
    ensures |ImagesPainted(Draw(l, canvasFrame))| > 0
    ensures Stack(ImagesPainted(Draw(l, canvasFrame))) == MergedWithBackground(l)
  {
    var reqs := Draw(l, canvasFrame);
    var live := if l.nextNode.Some? then [DrawNode(l.nextNode.value)] else [];
    assert ImagesPainted(live) == [];
    match l.backgroundImage
    case None =>
      assert reqs == [DrawImageAt(l.drawImage, Origin)] + live;
      assert reqs[1..] == live;
    case Some(background) =>
      assert reqs == [DrawImageIn(background, canvasFrame), DrawImageIn(l.drawImage, canvasFrame)] + live;
      assert reqs[1..][1..] == live;
      assert ImagesPainted(reqs) == [background, l.drawImage];
  }

  /** Drawing from two lists in turn is drawing from their concatenation; the last rendering wins. */
  lemma DrawFromTwice(l: Layer, a: seq<Node>, b: seq<Node>, first: Image, second: Image)
    ensures DrawFrom(DrawFrom(l, a, None, first), b, None, second) == DrawFrom(l, a + b, None, second)
  {
    assert l.nodeArray + a + b == l.nodeArray + (a + b);
  }

  /** Of two backgrounds given in turn, the later wins; a later call without one keeps it. */
  lemma DrawFromBackgrounds(l: Layer, a: seq<Node>, b: seq<Node>, x: Image, y: Option<Image>, first: Image, second: Image)
    ensures HasBackgroundImage(DrawFrom(l, a, Some(x), first))
    ensures y.Some? ==> DrawFrom(DrawFrom(l, a, Some(x), first), b, y, second).backgroundImage == y
    ensures y.None? ==> DrawFrom(DrawFrom(l, a, Some(x), first), b, y, second).backgroundImage == Some(x)
  {
  }

  /**
   * After `clear()`, a visible layer still paints a background, the empty
   * image, under an empty drawing, and merges to their combination rather
   * than to the drawing alone.
   */
  lemma ClearKeepsEmptyBackground(l: Layer, canvasFrame: Rect)
    requires l.isVisible
    ensures MergedWithBackground(Clear(l)) == Combined(EmptyImage, EmptyImage)
    ensures Draw(Clear(l), canvasFrame)[0] == DrawImageIn(EmptyImage, canvasFrame)
  {
  }
}
