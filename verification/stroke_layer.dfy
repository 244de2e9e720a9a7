/**
 * The stroke-stack drawing layer: the live path drawn with the layer's
 * brush, the strokes already drawn (`lines`), the strokes undone (`redos`),
 * and the `drawing` flag that decides whether a redraw shows the live path
 * or replays the stored strokes.
 */
module StrokeLayer {
  import opened Paths

  /** A `Brush`, as an opaque token handed to the renderer. */
  datatype Brush = Brush(token: nat)

  /** One drawn stroke: its path and the brush it was drawn with. */
  datatype Stroke = Stroke(path: Path, brush: Brush)

  datatype Layer = Layer(
    brush: Brush,
    path: Path,
    lines: seq<Stroke>,
    redos: seq<Stroke>,
    drawing: bool,
    isAntiAliasEnabled: bool,
    allowsDrawing: bool)

  /** The four initialisers: from a coder, plain, with a brush, from another layer. */
  datatype Initializer = FromCoder | Plain | WithBrush(brush: Brush) | FromLayer

  /**
   * Every initialiser starts with no strokes, nothing to redo, an empty path,
   * drawing and anti-aliasing enabled, and the `drawing` flag set; only the
   * brush initialiser picks the brush, the others use `Brush.Default`
   * (passed in as `defaultBrush`).
   */
  function Create(how: Initializer, defaultBrush: Brush): (l: Layer)
    ensures l.lines == [] && l.redos == [] && l.path == []
    ensures l.allowsDrawing && l.isAntiAliasEnabled && l.drawing
    ensures how.WithBrush? ==> l.brush == how.brush
    ensures !how.WithBrush? ==> l.brush == defaultBrush
  {
    var brush := match how
      case WithBrush(b) => b
      case _ => defaultBrush;
    Layer(brush, [], [], [], true, true, true)
  }

  /** `getStrokes()`. */
  function GetStrokes(l: Layer): (ss: seq<Stroke>)
    ensures |ss| == |l.lines| && ss == Timeline(l)[..|ss|]
  {
    l.lines
  }

  /** `drawFromStrokes(input:)`: replaces the strokes and switches to replaying them. */
  function DrawFromStrokes(l: Layer, input: seq<Stroke>): (r: Layer)
    ensures r == l.(lines := r.lines, drawing := r.drawing)
    ensures GetStrokes(r) == input
    ensures !r.drawing
  {
    l.(lines := input, drawing := false)
  }

  // ---------------------------------------------------------------------
  // Drawing
  // ---------------------------------------------------------------------

  /** One stroke request handed to the graphics context. */
  datatype DrawRequest = StrokePath(path: Path, brush: Brush, antiAliased: bool)

  /** `drawEachStroke(context:)`: every stored stroke with its own brush, in order. */
  function DrawEachStroke(lines: seq<Stroke>, antiAliased: bool): (reqs: seq<DrawRequest>)
    ensures |reqs| == |lines|
    ensures forall i :: 0 <= i < |lines| ==>
      reqs[i] == StrokePath(lines[i].path, lines[i].brush, antiAliased)
  {
    if lines == [] then []
    else [StrokePath(lines[0].path, lines[0].brush, antiAliased)] + DrawEachStroke(lines[1..], antiAliased)
  }

  /**
   * `draw(in:)`: nothing when drawing is disabled; while `drawing`, the live
   * path with the layer's brush (every brush type takes the free-hand arm);
   * otherwise every stored stroke in order, each with its own brush.
   */
  function Draw(l: Layer): (reqs: seq<DrawRequest>)
    ensures !l.allowsDrawing ==> reqs == []
    ensures l.allowsDrawing && l.drawing ==> reqs == [StrokePath(l.path, l.brush, l.isAntiAliasEnabled)]
    ensures l.allowsDrawing && !l.drawing ==>
      && |reqs| == |l.lines|
      && forall i :: 0 <= i < |l.lines| ==>
           reqs[i] == StrokePath(l.lines[i].path, l.lines[i].brush, l.isAntiAliasEnabled)
  {
    if !l.allowsDrawing then []
    else if l.drawing then [StrokePath(l.path, l.brush, l.isAntiAliasEnabled)]
    else DrawEachStroke(l.lines, l.isAntiAliasEnabled)
  }

  // ---------------------------------------------------------------------
  // Undo, redo and clear
  // ---------------------------------------------------------------------

  /**
   * `_undo()`: moves the most recent stroke onto the redo stack; with no
   * strokes both stacks stay as they are. Either way the layer switches to
   * replaying its strokes.
   */
  function Undo(l: Layer): (r: Layer)
    ensures !r.drawing
    ensures r == l.(lines := r.lines, redos := r.redos, drawing := false)
    ensures |r.lines| + |r.redos| == |l.lines| + |l.redos|
    ensures l.lines == [] ==> r.lines == [] && r.redos == l.redos
    ensures l.lines != [] ==>
      && r.lines + [l.lines[|l.lines| - 1]] == l.lines
      && r.redos == l.redos + [l.lines[|l.lines| - 1]]
  {
    if l.lines == [] then l.(drawing := false)
    else
      var last := l.lines[|l.lines| - 1];
      l.(drawing := false, lines := l.lines[..|l.lines| - 1], redos := l.redos + [last])
  }

  /** `_redo()`: the mirror of `_undo()`, moving the most recently undone stroke back. */
  function Redo(l: Layer): (r: Layer)
    ensures !r.drawing
    ensures r == l.(lines := r.lines, redos := r.redos, drawing := false)
    ensures |r.lines| + |r.redos| == |l.lines| + |l.redos|
    ensures l.redos == [] ==> r.redos == [] && r.lines == l.lines
    ensures l.redos != [] ==>
      && r.redos + [l.redos[|l.redos| - 1]] == l.redos
      && r.lines == l.lines + [l.redos[|l.redos| - 1]]
  {
    if l.redos == [] then l.(drawing := false)
    else
      var last := l.redos[|l.redos| - 1];
      l.(drawing := false, redos := l.redos[..|l.redos| - 1], lines := l.lines + [last])
  }

  /**
   * `_clear()`: commits the live path, with the layer's brush, as the newest
   * stroke and starts a new empty path. The redo stack is left as it is; the
   * layer ends up drawing the live path.
   */
  function CommitPath(l: Layer): (r: Layer)
    ensures r.lines == l.lines + [Stroke(l.path, l.brush)]
    ensures r.path == [] && r.redos == l.redos && r.drawing
    ensures r.brush == l.brush && r.allowsDrawing == l.allowsDrawing
    ensures r.isAntiAliasEnabled == l.isAntiAliasEnabled
  {
    l.(drawing := true, lines := l.lines + [Stroke(l.path, l.brush)], path := [])
  }

  /** `clear()`: commits the live path and then drops every stroke; undone strokes stay. */
  function Clear(l: Layer): (r: Layer)
    ensures r.lines == [] && r.path == [] && r.redos == l.redos && r.drawing
    ensures r.brush == l.brush && r.allowsDrawing == l.allowsDrawing
    ensures r.isAntiAliasEnabled == l.isAntiAliasEnabled
  {
    CommitPath(l).(lines := [])
  }

  /**
   * `copy(with:)` and `mutableCopy()`: a freshly initialised layer that takes
   * over the brush, the live path and the anti-aliasing flag, but none of the
   * strokes.
   */
  function Copy(l: Layer, defaultBrush: Brush): (r: Layer)
    ensures r.brush == l.brush && r.path == l.path
    ensures r.isAntiAliasEnabled == l.isAntiAliasEnabled
    ensures r.lines == [] && r.redos == []
    ensures r.allowsDrawing && r.drawing
  {
    Create(Plain, defaultBrush).(brush := l.brush, path := l.path, isAntiAliasEnabled := l.isAntiAliasEnabled)
  }

  // ---------------------------------------------------------------------
  // Properties of the two stacks
  // ---------------------------------------------------------------------

  function Reverse<T>(s: seq<T>): (r: seq<T>)
    ensures |r| == |s|
  {
    if s == [] then [] else Reverse(s[1..]) + [s[0]]
  }

  lemma {:induction false} ReverseAppendOne<T>(s: seq<T>, x: T)
    ensures Reverse(s + [x]) == [x] + Reverse(s)
  {
    if s != [] {
      assert (s + [x])[1..] == s[1..] + [x];
      ReverseAppendOne(s[1..], x);
    } else {
      assert [x][1..] == [];
    }
  }

  /**
   * Every stroke ever committed, oldest first, as undo and redo see them:
   * the drawn strokes followed by the undone ones, most recently undone last
   * but in drawing order.
   */
  function Timeline(l: Layer): seq<Stroke>
  {
    l.lines + Reverse(l.redos)
  }

  /** Undo never loses or reorders a stroke: it only moves the boundary between drawn and undone. */
  lemma UndoKeepsTimeline(l: Layer)
    ensures Timeline(Undo(l)) == Timeline(l)
  {
    if l.lines != [] {
      var last := l.lines[|l.lines| - 1];
      ReverseAppendOne(l.redos, last);
      assert Undo(l).lines + [last] == l.lines;
    }
  }

  /** Redo never loses or reorders a stroke either. */
  lemma RedoKeepsTimeline(l: Layer)
    ensures Timeline(Redo(l)) == Timeline(l)
  {
    if l.redos != [] {
      var last := l.redos[|l.redos| - 1];
      var r := Redo(l);
      ReverseAppendOne(r.redos, last);
      assert r.redos + [last] == l.redos;
    }
  }

  /** An undo followed by a redo restores both stacks exactly. */
  lemma RedoUndoes(l: Layer)
    requires l.lines != []
    ensures Redo(Undo(l)) == l.(drawing := false)
  {
    var last := l.lines[|l.lines| - 1];
    var u := Undo(l);
    assert u.redos[..|u.redos| - 1] == l.redos;
  }

  /** A redo followed by an undo restores both stacks exactly. */
  lemma UndoRedoes(l: Layer)
    requires l.redos != []
    ensures Undo(Redo(l)) == l.(drawing := false)
  {
    var r := Redo(l);
    assert r.lines[..|r.lines| - 1] == l.lines;
  }

  /** `k` undos in a row. */
  function UndoTimes(l: Layer, k: nat): Layer
    decreases k
  {
    if k == 0 then l else UndoTimes(Undo(l), k - 1)
  }

  /** `k` redos in a row. */
  function RedoTimes(l: Layer, k: nat): Layer
    decreases k
  {
    if k == 0 then l else RedoTimes(Redo(l), k - 1)
  }

  /**
   * `k` undos (no more than there are strokes) take off the `k` newest
   * strokes and stack them, newest first, on the redo stack.
   */
  lemma {:induction false} UndoTimesMovesNewest(l: Layer, k: nat)
    requires k <= |l.lines|
    ensures UndoTimes(l, k).lines == l.lines[..|l.lines| - k]
    ensures UndoTimes(l, k).redos == l.redos + Reverse(l.lines[|l.lines| - k..])
    ensures UndoTimes(l, k).path == l.path && UndoTimes(l, k).brush == l.brush
    decreases k
  {
    var n := |l.lines|;
    if k == 0 {
      assert l.lines[n..] == [];
      assert l.lines[..n] == l.lines;
      assert l.redos + Reverse(l.lines[n..]) == l.redos;
    } else {
      var u := Undo(l);
      UndoTimesMovesNewest(u, k - 1);
      UndoStep(l, k);
    }
  }

  /** The bookkeeping of one step of `UndoTimesMovesNewest`. */
  lemma UndoStep(l: Layer, k: nat)
    requires 0 < k <= |l.lines|
    ensures var u := Undo(l);
      && u.lines[..|u.lines| - (k - 1)] == l.lines[..|l.lines| - k]
      && u.redos + Reverse(u.lines[|u.lines| - (k - 1)..]) == l.redos + Reverse(l.lines[|l.lines| - k..])
  {
    var n := |l.lines|;
    var u := Undo(l);
    var last := l.lines[n - 1];
    var mid := l.lines[n - k..n - 1];
    assert u.lines == l.lines[..n - 1];
    assert u.redos == l.redos + [last];
    assert u.lines[|u.lines| - (k - 1)..] == mid;
    assert l.lines[n - k..] == mid + [last];
    ReverseAppendOne(mid, last);
  }

  /** However many undos in a row, no stroke is lost or reordered. */
  lemma {:induction false} UndoTimesKeepsTimeline(l: Layer, k: nat)
    ensures Timeline(UndoTimes(l, k)) == Timeline(l)
    decreases k
  {
    if k > 0 {
      UndoKeepsTimeline(l);
      UndoTimesKeepsTimeline(Undo(l), k - 1);
    }
  }

  /** Redoing as many times as one undid brings both stacks back exactly. */
  lemma {:induction false} RedoTimesUndoesUndoTimes(l: Layer, k: nat)
    requires 0 < k <= |l.lines|
    ensures RedoTimes(UndoTimes(l, k), k) == l.(drawing := false)
    decreases k
  {
    if k == 1 {
      RedoUndoes(l);
    } else {
      // Undo k times = undo once, then k - 1 more; redo k times = k - 1 redos, then the last one.
      var u := Undo(l);
      RedoTimesUndoesUndoTimes(u, k - 1);
      RedoTimesSplit(UndoTimes(u, k - 1), k - 1);
      RedoUndoes(l);
    }
  }

  lemma {:induction false} RedoTimesSplit(l: Layer, k: nat)
    ensures RedoTimes(l, k + 1) == Redo(RedoTimes(l, k))
    decreases k
  {
    if k > 0 {
      RedoTimesSplit(Redo(l), k - 1);
    }
  }

  lemma {:induction false} ReverseReverse<T>(s: seq<T>)
    ensures Reverse(Reverse(s)) == s
  {
    if s != [] {
      ReverseAppendOne(Reverse(s[1..]), s[0]);
      ReverseReverse(s[1..]);
      assert [s[0]] + s[1..] == s;
    }
  }

  /**
   * `k` redos (no more than there are undone strokes) take the `k` most
   * recently undone strokes off the redo stack and put them back, most
   * recently undone first.
   */
  lemma {:induction false} RedoTimesMovesNewest(l: Layer, k: nat)
    requires k <= |l.redos|
    ensures RedoTimes(l, k).redos == l.redos[..|l.redos| - k]
    ensures RedoTimes(l, k).lines == l.lines + Reverse(l.redos[|l.redos| - k..])
    decreases k
  {
    var m := |l.redos|;
    if k == 0 {
      assert l.redos[m..] == [];
      assert l.redos[..m] == l.redos;
      assert l.lines + Reverse(l.redos[m..]) == l.lines;
    } else {
      RedoTimesMovesNewest(Redo(l), k - 1);
      RedoStep(l, k);
    }
  }

  /** The bookkeeping of one step of `RedoTimesMovesNewest`. */
  lemma RedoStep(l: Layer, k: nat)
    requires 0 < k <= |l.redos|
    ensures var r := Redo(l);
      && r.redos[..|r.redos| - (k - 1)] == l.redos[..|l.redos| - k]
      && r.lines + Reverse(r.redos[|r.redos| - (k - 1)..]) == l.lines + Reverse(l.redos[|l.redos| - k..])
  {
    var m := |l.redos|;
    var r := Redo(l);
    var last := l.redos[m - 1];
    var mid := l.redos[m - k..m - 1];
    assert r.redos == l.redos[..m - 1];
    assert r.lines == l.lines + [last];
    assert r.redos[|r.redos| - (k - 1)..] == mid;
    assert l.redos[m - k..] == mid + [last];
    ReverseAppendOne(mid, last);
    assert l.lines + [last] + Reverse(mid) == l.lines + ([last] + Reverse(mid));
  }

  /**
   * Committing a path slots it into the timeline after the drawn strokes and
   * before every undone one: the undone strokes are not discarded.
   */
  lemma {:induction false} CommitKeepsUndone(l: Layer)
    ensures Timeline(CommitPath(l)) == l.lines + [Stroke(l.path, l.brush)] + Reverse(l.redos)
  {
    var c := CommitPath(l);
    assert c.lines == l.lines + [Stroke(l.path, l.brush)];
    assert c.redos == l.redos;
  }

  /** After an undo and a commit, a redo brings the undone stroke back on top of the new one. */
  lemma {:induction false} RedoAfterCommitRestoresOnTop(l: Layer)
    requires l.lines != []
    ensures var u := Undo(l);
      Redo(CommitPath(u)).lines == u.lines + [Stroke(u.path, u.brush)] + [l.lines[|l.lines| - 1]]
  {
    var u := Undo(l);
    var c := CommitPath(u);
    assert c.redos == l.redos + [l.lines[|l.lines| - 1]];
    assert c.lines == u.lines + [Stroke(u.path, u.brush)];
  }

  /**
   * `k` undos, a commit, and `k` redos put the new stroke below the `k`
   * undone ones, which come back in their old order; the redo stack ends as
   * it began.
   */
  lemma {:induction false} CommitBetweenUndoAndRedo(l: Layer, k: nat)
    requires k <= |l.lines|
    ensures var n := |l.lines|;
      && RedoTimes(CommitPath(UndoTimes(l, k)), k).lines
           == l.lines[..n - k] + [Stroke(l.path, l.brush)] + l.lines[n - k..]
      && RedoTimes(CommitPath(UndoTimes(l, k)), k).redos == l.redos
  {
    var n := |l.lines|;
    var tail := l.lines[n - k..];
    UndoTimesMovesNewest(l, k);
    var c := CommitPath(UndoTimes(l, k));
    assert c.redos == l.redos + Reverse(tail);
    assert c.lines == l.lines[..n - k] + [Stroke(l.path, l.brush)];
    RedoTimesMovesNewest(c, k);
    assert c.redos[..|c.redos| - k] == l.redos;
    assert c.redos[|c.redos| - k..] == Reverse(tail);
    ReverseReverse(tail);
  }
}
