# Canvas drawing core in Dafny

A model of the drawing core of the Canvas library for iOS: the `Node` that
holds one drawn curve, line or shape (incremental path building with pen
smoothing, hit test, bounding box, SVG `d` string, `Codable` encoding and
copy), the older stroke-stack `CanvasLayer` (two stacks of drawn and undone
strokes), and the newer node-list `CanvasLayer` (ordered nodes, background
image, node in progress, draw order).

Coordinates are exact `real`s. Paths are lists of path elements (`MoveTo`,
`LineTo`, `QuadCurveTo`, `CurveTo`, `CloseSubpath`). Brushes and images are
opaque values; drawing is the ordered list of draw requests a redraw makes.
Everything is immutable datatypes and pure transition functions.

Modules, one per file:

- `Wrappers` (`wrappers.dfy`): `Option`, Swift's optionals.
- `Geometry` (`geometry.dfy`): `CGPoint`, `CGRect` with a signed size, `midpoint`, the box test, `CGPath.boundingBox` over a list of points.
- `Paths` (`paths.dfy`): path elements, `CGPathElementType` and its raw codes, `bezierPoints`, `bezierPointsAndTypes`, `buildPath`.
- `Svg` (`svg.dfy`): the `d` string writer, plus a reader of that string used to state what the writer produces.
- `Nodes` (`nodes.dfy`): `Node` and its operations, pen gestures as chains of `move` calls.
- `NodeCodec` (`node_codec.dfy`): `encode(to:)` and `init(from:)`.
- `StrokeLayer` (`stroke_layer.dfy`): `CanvasLayer.swift` at the top level of the repository.
- `NodeLayer` (`node_layer.dfy`): `Canvas/Classes/CanvasLayer.swift`.

Assumptions about helpers whose bodies are not part of this model:

- `midpoint(a:b:)` is the arithmetic mean of the two points.
- `bezierPoints` lists every point of every element in order.
- `bezierPointsAndTypes` pairs each element with its points. The control points come first and the end point last.
- `CGPath.boundingBox` is the smallest rectangle holding every point, control points included.
- `buildPath(from:bPoints:)` pairs kinds with point groups in order. It stops at the shorter list, skips a pair whose group is too short for its kind, and ignores surplus points. On what the encoder writes, it exactly inverts the encoding.
- `pointsOnLine` is a function parameter of the hit test.
- The `%.1lf` number formatter is a function parameter of the SVG writer.
- `CAShapeLayer()` starts with no path, an opaque black fill, no stroke, width 1, miter limit 10, butt caps and miter joins.

Behaviour of the code worth knowing:

- `setInitialPoint` appends a move to the existing path. It does not reset the path, the last point or the box.
- Committing a new stroke does not clear the redo stack. A later redo puts the undone stroke back on top of the new one.
- The old layer's `clear()` keeps the redo stack.
- The new layer's `clear()` sets the background to an empty image, not to none.
- The rectangle hit test is always false. The ellipse hit test uses the half-width as a radius.
- An unknown raw element code decodes as a move, not as an error.
- The node only writes the SVG string. The reader in `Svg` exists only to state what the writer produces.
- Nodes carry no identity and no selection state.

## Model

| member | source | states |
|---|---|---|
| `Nodes.NewNode` | Canvas/Classes/Node.swift:92-99 | a new node has an empty path, both points at the origin, a zero-size box, no layer path yet, and is movable |
| `Nodes.SetInitialPoint` | Canvas/Classes/Node.swift:161-164 | the first point becomes `p` and the old path is kept with exactly one `MoveTo(p)` after it; last point, box, layer and movability are unchanged |
| `Nodes.Move` | Canvas/Classes/Node.swift:168-178 | the last point becomes `to` and the first point is never touched; with the pen the old path gets exactly one quad curve whose control is `from` and whose end lies halfway between `from` and `to`; any other tool leaves the path alone |
| `Nodes.MoveThroughPen` | Canvas/Classes/Node.swift:168-178 | a pen gesture through n samples adds exactly n-1 smoothing curves, one per consecutive pair in order, keeps all earlier elements, ends at the last sample and keeps the first point |
| `Nodes.MoveThroughOtherTool` | Canvas/Classes/Node.swift:168-178 | a gesture with any tool but the pen never changes the path or the first point, and ends at the last sample |
| `Nodes.AddPath` | Canvas/Classes/Node.swift:182-205 | with the pen, the path gains exactly a move to mid(p1,p2) then a quad curve (control p2) to mid(current,p2), and no close; the returned box is the smallest rectangle holding those three points; other tools return the zero rect and an unchanged node |
| `Nodes.AnyWithin` | Canvas/Classes/Node.swift:212-214 | true exactly when some point of the list lies within the thickness of the test point on both axes |
| `Nodes.Contains` | Canvas/Classes/Node.swift:209-233 | pen: true iff some path vertex passes the axis-aligned box test; line: the same over the sampled line points or the path vertices; rectangle and eraser: always false; ellipse: the platform answer when there is one, otherwise distance to the box centre at most half the width |
| `Nodes.PenHitsNearVertex` | Canvas/Classes/Node.swift:211-214 | a path vertex within the box of the point makes the pen test succeed |
| `Nodes.PenMissesAwayFromVertices` | Canvas/Classes/Node.swift:211-214 | with no path vertex within the box of the point, the pen test fails |
| `Nodes.PenGestureVertices` | Canvas/Classes/Node.swift:161-178 | after a pen gesture, every sample but the last and the midpoint of the last step are vertices of the path |
| `Nodes.PenGestureHitsSamples` | Canvas/Classes/Node.swift:209-214 | after a pen gesture, the pen test finds every sample but the last at any non-negative thickness, and finds the last once the thickness covers half the last step |
| `Nodes.ExamplePath` | Canvas/Classes/Node.swift:161-178 | starting at (0,0) and moving to (10,0) with the pen gives `[MoveTo(0,0), QuadCurveTo((0,0),(5,0))]` |
| `Nodes.ExampleHitTest` | Canvas/Classes/Node.swift:209-214 | on that node, thickness 2 hits (5,0) and misses (50,50) |
| `Nodes.SetBoundingBox` | Canvas/Classes/Node.swift:249-256 | an explicit rect is stored as is; otherwise the box starts at the first point and its opposite corner is the last point (signed size), or its size is non-negative and equal in magnitude to the signed one (absolute); nothing else changes |
| `Nodes.Copy` | Canvas/Classes/Node.swift:294-304 | the copy has the same path, points, box and movability; it equals the original when the platform copies the layer, and has a fresh layer without a path otherwise |
| `Nodes.ToSvg` | Canvas/Classes/Node.swift:113-147 | no layer path gives the empty string; otherwise the output is the path's `d` string |
| `Nodes.ToSvgReadsBack` | Canvas/Classes/Node.swift:113-147 | the output reads back as exactly one command per element of the layer path, in order, with letter M/L/Q/C/Z and 2/2/4/6/0 formatted coordinates |
| `Svg.LayerPathData` | Canvas/Classes/Node.swift:113-114 | no path, or an empty path, gives the empty string |
| `Svg.Token` | Canvas/Classes/Node.swift:120-142 | each element's token starts with a space and then the element's command letter |
| `Svg.PathData` | Canvas/Classes/Node.swift:117-146 | the written string is empty exactly for an empty path, and otherwise opens with a space and the first element's letter; `ReadBackPathData` states the rest |
| `Svg.ReadBackPathData` | Canvas/Classes/Node.swift:117-146 | splitting the written string at spaces and grouping at command letters gives back, for each element in order, its letter and its formatted coordinates, as many as its kind carries |
| `Svg.Coordinates` | Canvas/Classes/Node.swift:120-142 | an element's numbers are twice its point count, x before y for each of its points in order |
| `Geometry.Midpoint` | Canvas/Classes/Node.swift:185-186 | the midpoint is equally far from both points on each axis |
| `Geometry.ControlBounds` | Canvas/Classes/Node.swift:191 | the box has non-negative size, holds every point, and each of its four edges touches a point: the smallest such box |
| `Geometry.BoundingBoxUnique` | Canvas/Classes/Node.swift:191 | a list of points has only one such smallest box |
| `Paths.ElementPoints` | Canvas/Classes/Node.swift:120-142 | an element carries 1, 1, 2, 3 or 0 points by kind; moves and lines carry their target; a quad curve carries its control then its end, a cubic curve its two controls in order then its end |
| `Paths.KindOfRaw` | Canvas/Classes/Node.swift:62-64 | a raw code 0 to 4 reads back as the kind with that raw value; any other code reads as a move |
| `Paths.MakeElement` | Canvas/Classes/Node.swift:86-87 | a kind and a point group give an element exactly when the group has enough points, and the element has that kind and the group's leading points |
| `Paths.BuildPath` | Canvas/Classes/Node.swift:86-87 | the rebuilt path never has more elements than there are kinds or point groups; `BuildPathRoundTrip` and `NodeCodec.BuildPathCanonical` state what it rebuilds |
| `Paths.BuildPathRoundTrip` | Canvas/Classes/Node.swift:86-87 | rebuilding a path from its own kinds and point groups gives back the same path |
| `NodeCodec.DecodeColor` | Canvas/Classes/Node.swift:75-83 | the sentinel `[-1,-1,-1,-1]` reads back as no colour and anything else as a colour with exactly those components |
| `NodeCodec.ColorRoundTrip` | Canvas/Classes/Node.swift:275-279 | a missing colour and any colour whose components are not the sentinel survive encoding then decoding |
| `NodeCodec.UnitColorIsNotNil` | Canvas/Classes/Node.swift:275-279 | a colour with components in [0,1] cannot collide with the missing-colour sentinel |
| `NodeCodec.UnitColorsEncodable` | Canvas/Classes/Node.swift:275-279 | fill and stroke colours with components in [0,1] never collide with the sentinel, so such a node meets the colour condition of `DecodeEncode` |
| `NodeCodec.RawTypes` | Canvas/Classes/Node.swift:270-272 | one raw code per element, each reading back as that element's kind |
| `NodeCodec.DecodeKinds` | Canvas/Classes/Node.swift:62-64 | one kind per raw code; known codes give the kind with that raw value and unknown codes give a move |
| `NodeCodec.Encode` | Canvas/Classes/Node.swift:259-290 | a node without a layer path cannot be encoded; otherwise the kinds and point groups are parallel lists matching the layer path element by element, and a missing colour is written as the sentinel |
| `NodeCodec.Decode` | Canvas/Classes/Node.swift:46-90 | the decoded node keeps the stored points and movability, shares its rebuilt path with its layer, and has the box spanned from first to last point; the sentinel reads as no colour |
| `NodeCodec.DecodeIgnoresStoredBox` | Canvas/Classes/Node.swift:50-89 | the stored bounding box has no effect on the decoded node |
| `NodeCodec.DecodeEncode` | Canvas/Classes/Node.swift:259-290 | encode then decode keeps first and last points, movability, the whole shape layer and its path element by element (so the kind sequence); the node's path becomes the layer path and its box the signed first-to-last box |
| `NodeCodec.BuildPathCanonical` | Canvas/Classes/Node.swift:86-87 | kinds and groups of matching lengths rebuild a path with exactly those kinds and groups |
| `NodeCodec.EncodeDecode` | Canvas/Classes/Node.swift:46-90 | decoding an encoding as the encoder writes it and encoding again gives the same encoding, except the box, which is the recomputed one |
| `StrokeLayer.Create` | CanvasLayer.swift:48-90 | every initialiser leaves both stacks and the path empty, and drawing, anti-aliasing and the drawing flag on; only the brush initialiser chooses the brush |
| `StrokeLayer.GetStrokes` | CanvasLayer.swift:104-106 | the strokes returned are the drawn ones: the part of the stroke timeline before the undone strokes |
| `StrokeLayer.DrawFromStrokes` | CanvasLayer.swift:104-114 | `getStrokes()` afterwards returns exactly the input, the layer replays strokes, and nothing else changes |
| `StrokeLayer.DrawEachStroke` | CanvasLayer.swift:173-187 | one stroke request per stored stroke, in order, each with that stroke's path and its own brush |
| `StrokeLayer.Draw` | CanvasLayer.swift:129-147 | nothing when drawing is disabled; while drawing, only the live path with the layer brush; otherwise every stored stroke in list order with its own brush |
| `StrokeLayer.Undo` | CanvasLayer.swift:200-208 | the newest stroke moves to the top of the redo stack, or both stacks stay as they are when there is none; the total stroke count is kept and the drawing flag ends false |
| `StrokeLayer.Redo` | CanvasLayer.swift:210-218 | the mirror of undo: the newest undone stroke moves back onto the drawn strokes, or nothing moves; the drawing flag ends false |
| `StrokeLayer.CommitPath` | CanvasLayer.swift:220-226 | the live path with the layer brush becomes the newest stroke, the live path is emptied, the redo stack is untouched, and the drawing flag ends true |
| `StrokeLayer.Clear` | CanvasLayer.swift:230-233 | afterwards there are no strokes and the live path is empty, while the redo stack is kept |
| `StrokeLayer.Copy` | CanvasLayer.swift:245-263 | the copy keeps brush, live path and anti-aliasing but starts with both stacks empty |
| `StrokeLayer.UndoKeepsTimeline` | CanvasLayer.swift:200-208 | undo loses and reorders no stroke: the drawn strokes followed by the undone ones in drawing order stay the same |
| `StrokeLayer.RedoKeepsTimeline` | CanvasLayer.swift:210-218 | redo loses and reorders no stroke either |
| `StrokeLayer.RedoUndoes` | CanvasLayer.swift:200-218 | with strokes to undo, undo followed by redo restores both stacks exactly |
| `StrokeLayer.UndoRedoes` | CanvasLayer.swift:200-218 | with strokes to redo, redo followed by undo restores both stacks exactly |
| `StrokeLayer.UndoTimesMovesNewest` | CanvasLayer.swift:200-208 | k undos take off the k newest strokes and stack them on the redo stack, newest first |
| `StrokeLayer.UndoTimesKeepsTimeline` | CanvasLayer.swift:200-208 | any number of undos in a row keeps the stroke timeline |
| `StrokeLayer.RedoTimesUndoesUndoTimes` | CanvasLayer.swift:200-218 | k undos followed by k redos restore both stacks exactly |
| `StrokeLayer.RedoTimesMovesNewest` | CanvasLayer.swift:210-218 | k redos take the k most recently undone strokes off the redo stack and put them back on the drawn strokes, most recently undone first |
| `StrokeLayer.CommitKeepsUndone` | CanvasLayer.swift:220-226 | committing inserts the new stroke into the timeline after the drawn strokes and before every undone one, which are all kept |
| `StrokeLayer.RedoAfterCommitRestoresOnTop` | CanvasLayer.swift:200-226 | after an undo and a commit, a redo brings the undone stroke back on top of the newly committed one |
| `StrokeLayer.CommitBetweenUndoAndRedo` | CanvasLayer.swift:200-226 | k undos, a commit and k redos leave the new stroke under the k undone strokes, which return in their old order, and the redo stack as it began |
| `NodeLayer.Create` | Canvas/Classes/CanvasLayer.swift:74-83 | a new layer has no nodes, no node in progress, an empty drawing, no background, is visible and drawable, and has opacity 1 |
| `NodeLayer.NodeCount` | Canvas/Classes/CanvasLayer.swift:59 | the node count is the number of nodes `getNodes()` returns |
| `NodeLayer.BackgroundShowsInMerge` | Canvas/Classes/CanvasLayer.swift:62 | `hasBackgroundImage` holds exactly when the merged image is more than the drawing alone |
| `NodeLayer.GetBackgroundImage` | Canvas/Classes/CanvasLayer.swift:116 | a result exists exactly when the layer has a background, and it is that background |
| `NodeLayer.MergedWithBackground` | Canvas/Classes/CanvasLayer.swift:95-100 | the drawing alone without a background; otherwise the combination of the background below and the drawing on top |
| `NodeLayer.Clear` | Canvas/Classes/CanvasLayer.swift:104-108 | no nodes and a node count of 0, an empty drawing, and a background that is the empty image, so the layer still reports a background |
| `NodeLayer.DrawFrom` | Canvas/Classes/CanvasLayer.swift:124-131 | the node count grows by the number of new nodes, the old nodes stay first and in order, the new ones follow, the background changes only when one is given, and the drawing image becomes the canvas's re-rendering; nothing else changes |
| `NodeLayer.Draw` | Canvas/Classes/CanvasLayer.swift:143-156 | nothing when hidden; otherwise the background (if any) first, then the drawing, then the node in progress last, and no node request anywhere but last |
| `NodeLayer.DrawPaintsMergedImage` | Canvas/Classes/CanvasLayer.swift:95-156 | the images a visible layer paints, stacked in painting order, are exactly its merged image |
| `NodeLayer.DrawFromTwice` | Canvas/Classes/CanvasLayer.swift:124-129 | drawing from two lists in turn equals drawing from their concatenation, with the later re-rendering |
| `NodeLayer.DrawFromBackgrounds` | Canvas/Classes/CanvasLayer.swift:127 | a given background is kept, the later of two given backgrounds wins, and a later call without one keeps it |
| `NodeLayer.ClearKeepsEmptyBackground` | Canvas/Classes/CanvasLayer.swift:104-108 | after clear, a visible layer merges to empty-on-empty and paints the empty background first |

## Left out

- Rendering is left out: `CGContext` stroking, `CAShapeLayer` styling, anti-aliasing and `UIImage` drawing and compositing. Draws are ordered request lists. Images and brushes are opaque values.
- `setNeedsDisplay` is left out. It only asks the platform for a redraw.
- `NodeLayer.DrawFrom`: how `canvas.updateDrawing(redraw: true)` re-renders the drawing image is not modelled, because the canvas is not part of this model. The re-rendered image is a parameter.
- `Node.draw` (the node drawn last by the new layer) is not part of this model. It is a `DrawNode` request.
- Swift's reference semantics for `CGMutablePath` and `CAShapeLayer` are not modelled. Every value is copied, as `copy()` intends.
- `Nodes.Contains`: in the ellipse arm, the platform hit test and `path.contains` are a parameter. The `sqrt` is replaced by comparing squares exactly, so float rounding is not modelled.
- `Svg.ReadBackPathData`: states the token structure only. The number formatter is a parameter that is non-empty and free of spaces and leading command letters, so `%.1lf` rounding is not modelled.
- The decoder's choice of colour space (grey when the components are `[0,1,1,1]`, RGB otherwise) is left out, and so is `CGColor.rgba`. A colour is its component list.
- The platform's own failures while encoding or decoding (missing keys, type mismatches) are left out. The only failure modelled is `encode` on a node whose layer has no path.
- `Nodes.Move`: with the pen on a node whose path has no current point, Core Graphics adds no curve. The model appends the curve regardless. The platform's current-point rule is not modelled.
- `Nodes.Copy`: whether the platform's `mutableCopy()` of the layer yields a shape layer is a parameter. The path copy is taken to succeed.
- `opacity`'s `didSet` in the node-list layer is left out. It re-tints images and asks the canvas to redraw, which is rendering.
- The canvas reference the node-list layer keeps is left out. So is the `CALayer` frame, bounds and background colour of the stroke layer. They are platform layer geometry.
- `StrokeLayer.CommitPath`: `drawing` is briefly false inside `_clear()`. The model keeps only the final value, because nothing reads it in between.
- `CanvasTool` is reduced to pen, eraser, line, rectangle and ellipse. Any other case takes the same default arms as the eraser.
- The example view controller is left out. It holds UI wiring only.
