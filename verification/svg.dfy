/**
 * The SVG `d` string a node writes for its path, and a reader of that string
 * used to state what the writer produces: one space-prefixed command per
 * element, in order, with the element's letter and its coordinates.
 *
 * The writer formats every coordinate with `%.1lf`; the formatter is a
 * parameter here, so only the token structure is modelled, not the rounding.
 */
module Svg {
  import opened Geometry
  import opened Paths

  /** Formats one coordinate (`%.1lf` in the source). */
  type Formatter = real -> string

  /** The SVG command letter of each element kind. */
  function Letter(k: ElementKind): char
  {
    match k
    case MoveToPoint => 'M'
    case AddLineToPoint => 'L'
    case AddQuadCurveToPoint => 'Q'
    case AddCurveToPoint => 'C'
    case CloseSubpathKind => 'Z'
  }

  predicate IsCommandLetter(c: char)
  {
    c == 'M' || c == 'L' || c == 'Q' || c == 'C' || c == 'Z'
  }

  /**
   * A formatter whose output can be told apart from the separators: never
   * empty, never holding a space, never starting with a command letter.
   * `%.1lf` output (`-12.5`) is of this shape.
   */
  ghost predicate Separable(fmt: Formatter)
  {
    forall v :: |fmt(v)| > 0 && ' ' !in fmt(v) && !IsCommandLetter(fmt(v)[0])
  }

  /** The token `toSVG` appends for one element, as its format strings spell it. */
  function Token(e: PathElement, fmt: Formatter): (t: string)
    ensures |t| >= 2 && t[0] == ' ' && t[1] == Letter(Kind(e))
  {
    match e
    case MoveTo(p) => " M" + fmt(p.x) + " " + fmt(p.y)
    case LineTo(p) => " L" + fmt(p.x) + " " + fmt(p.y)
    case QuadCurveTo(c, p) => " Q" + fmt(c.x) + " " + fmt(c.y) + " " + fmt(p.x) + " " + fmt(p.y)
    case CurveTo(c1, c2, p) =>
      " C" + fmt(c1.x) + " " + fmt(c1.y) + " " + fmt(c2.x) + " " + fmt(c2.y) + " " + fmt(p.x) + " " + fmt(p.y)
    case CloseSubpath => " Z"
  }

  /** The `d` string of a path: the tokens of its elements, in order. */
  function PathData(path: Path, fmt: Formatter): (s: string)
    ensures s == "" <==> path == []
    ensures path != [] ==> |s| >= 2 && s[0] == ' ' && s[1] == Letter(Kind(path[0]))
  {
    if path == [] then "" else Token(path[0], fmt) + PathData(path[1..], fmt)
  }

  /** `toSVG`: the empty string when the shape layer has no path. */
  function LayerPathData(layerPath: Wrappers.Option<Path>, fmt: Formatter): (s: string)
    ensures layerPath.None? ==> s == ""
    ensures layerPath.Some? && layerPath.value == [] ==> s == ""
  {
    match layerPath
    case None => ""
    case Some(path) => PathData(path, fmt)
  }

  // ---------------------------------------------------------------------
  // Reading a `d` string back into commands.
  // ---------------------------------------------------------------------

  /** A command read from a `d` string: its letter and its number fields. */
  datatype Command = Command(letter: char, numbers: seq<string>)

  /** The coordinates an element carries, x before y, point by point. */
  function Coordinates(e: PathElement): (vs: seq<real>)
    ensures |vs| == 2 * Arity(Kind(e))
    ensures forall j :: 0 <= j < Arity(Kind(e)) ==>
      vs[2 * j] == ElementPoints(e)[j].x && vs[2 * j + 1] == ElementPoints(e)[j].y
  {
    match e
    case MoveTo(p) => [p.x, p.y]
    case LineTo(p) => [p.x, p.y]
    case QuadCurveTo(c, p) => [c.x, c.y, p.x, p.y]
    case CurveTo(c1, c2, p) => [c1.x, c1.y, c2.x, c2.y, p.x, p.y]
    case CloseSubpath => []
  }

  function FormatAll(vs: seq<real>, fmt: Formatter): (ss: seq<string>)
    ensures |ss| == |vs|
    ensures forall i :: 0 <= i < |vs| ==> ss[i] == fmt(vs[i])
  {
    seq(|vs|, i requires 0 <= i < |vs| => fmt(vs[i]))
  }

  /** The command an element should read back as. */
  function Expected(e: PathElement, fmt: Formatter): Command
  {
    Command(Letter(Kind(e)), FormatAll(Coordinates(e), fmt))
  }

  /** Splits a string at every space (`"a b"` gives `["a", "b"]`, `""` gives `[""]`). */
  function SplitSpaces(s: string): (pieces: seq<string>)
    ensures |pieces| > 0
  {
    if s == [] then [[]]
    else
      var rest := SplitSpaces(s[1..]);
      if s[0] == ' ' then [[]] + rest else [[s[0]] + rest[0]] + rest[1..]
  }

  predicate StartsCommand(w: string)
  {
    |w| > 0 && IsCommandLetter(w[0])
  }

  /** How many words at the front of `ws` are number fields, not commands. */
  function LeadingNumbers(ws: seq<string>): (n: nat)
    ensures n <= |ws|
  {
    if ws == [] || StartsCommand(ws[0]) then 0 else 1 + LeadingNumbers(ws[1..])
  }

  /**
   * Groups words into commands: a word starting with a command letter opens a
   * command (the rest of that word is its first number, when not empty) and
   * the number words after it are its remaining fields. Stray leading numbers
   * are skipped.
   */
  function Group(ws: seq<string>): seq<Command>
  {
    if ws == [] then []
    else if !StartsCommand(ws[0]) then Group(ws[1..])
    else
      var n := LeadingNumbers(ws[1..]);
      var first := if |ws[0]| > 1 then [ws[0][1..]] else [];
      [Command(ws[0][0], first + ws[1..][..n])] + Group(ws[1..][n..])
  }

  /** Reads a `d` string as written by `toSVG` into its commands. */
  function ReadPathData(s: string): seq<Command>
  {
    var pieces := SplitSpaces(s);
    if pieces[0] == "" then Group(pieces[1..]) else Group(pieces)
  }

  // ---------------------------------------------------------------------
  // The writer's output reads back as one command per element.
  // ---------------------------------------------------------------------

  /** The words of one element's token, without their separating spaces. */
  function Words(e: PathElement, fmt: Formatter): seq<string>
  {
    var cs := FormatAll(Coordinates(e), fmt);
    if cs == [] then [[Letter(Kind(e))]] else [[Letter(Kind(e))] + cs[0]] + cs[1..]
  }

  function AllWords(path: Path, fmt: Formatter): seq<string>
  {
    if path == [] then [] else Words(path[0], fmt) + AllWords(path[1..], fmt)
  }

  /** Every word prefixed by one space. */
  function SpaceJoin(ws: seq<string>): string
  {
    if ws == [] then "" else " " + ws[0] + SpaceJoin(ws[1..])
  }

  lemma {:induction false} SpaceJoinAppend(a: seq<string>, b: seq<string>)
    ensures SpaceJoin(a + b) == SpaceJoin(a) + SpaceJoin(b)
  {
    if a == [] {
      assert a + b == b;
    } else {
      assert (a + b)[1..] == a[1..] + b;
      SpaceJoinAppend(a[1..], b);
    }
  }

  lemma SpaceJoinTwo(a: string, b: string)
    ensures SpaceJoin([a, b]) == " " + a + " " + b
  {
    assert [a, b][1..] == [b];
    assert SpaceJoin([b]) == " " + b + "";
  }

  lemma SpaceJoinFour(a: string, b: string, c: string, d: string)
    ensures SpaceJoin([a, b, c, d]) == " " + a + " " + b + " " + c + " " + d
  {
    assert [a, b, c, d] == [a, b] + [c, d];
    SpaceJoinAppend([a, b], [c, d]);
    SpaceJoinTwo(a, b);
    SpaceJoinTwo(c, d);
  }

  lemma SpaceJoinSix(a: string, b: string, c: string, d: string, e: string, f: string)
    ensures SpaceJoin([a, b, c, d, e, f]) == " " + a + " " + b + " " + c + " " + d + " " + e + " " + f
  {
    assert [a, b, c, d, e, f] == [a, b, c, d] + [e, f];
    SpaceJoinAppend([a, b, c, d], [e, f]);
    SpaceJoinFour(a, b, c, d);
    SpaceJoinTwo(e, f);
  }

  lemma WordsOfElement(e: PathElement, fmt: Formatter)
    ensures e.MoveTo? ==> Words(e, fmt) == ["M" + fmt(e.to.x), fmt(e.to.y)]
    ensures e.LineTo? ==> Words(e, fmt) == ["L" + fmt(e.to.x), fmt(e.to.y)]
    ensures e.QuadCurveTo? ==>
      Words(e, fmt) == ["Q" + fmt(e.control.x), fmt(e.control.y), fmt(e.end.x), fmt(e.end.y)]
    ensures e.CurveTo? ==>
      Words(e, fmt) == ["C" + fmt(e.control1.x), fmt(e.control1.y), fmt(e.control2.x), fmt(e.control2.y),
                        fmt(e.end.x), fmt(e.end.y)]
    ensures e.CloseSubpath? ==> Words(e, fmt) == ["Z"]
  {
  }

  /** The two-letter prefix of a token is a space followed by the letter. */
  lemma LetterPrefix(c: char, w: string)
    ensures [' ', c] + w == " " + ([c] + w)
  {
  }

  lemma TokenIsSpaceJoin(e: PathElement, fmt: Formatter)
    ensures Token(e, fmt) == SpaceJoin(Words(e, fmt))
  {
    WordsOfElement(e, fmt);
    match e
    case MoveTo(p) =>
      SpaceJoinTwo("M" + fmt(p.x), fmt(p.y));
      LetterPrefix('M', fmt(p.x));
    case LineTo(p) =>
      SpaceJoinTwo("L" + fmt(p.x), fmt(p.y));
      LetterPrefix('L', fmt(p.x));
    case QuadCurveTo(c, p) =>
      SpaceJoinFour("Q" + fmt(c.x), fmt(c.y), fmt(p.x), fmt(p.y));
      LetterPrefix('Q', fmt(c.x));
    case CurveTo(c1, c2, p) =>
      SpaceJoinSix("C" + fmt(c1.x), fmt(c1.y), fmt(c2.x), fmt(c2.y), fmt(p.x), fmt(p.y));
      LetterPrefix('C', fmt(c1.x));
    case CloseSubpath =>
      assert SpaceJoin(["Z"]) == " Z" + "";
  }

  lemma {:induction false} PathDataIsSpaceJoin(path: Path, fmt: Formatter)
    ensures PathData(path, fmt) == SpaceJoin(AllWords(path, fmt))
  {
    if path != [] {
      TokenIsSpaceJoin(path[0], fmt);
      PathDataIsSpaceJoin(path[1..], fmt);
      SpaceJoinAppend(Words(path[0], fmt), AllWords(path[1..], fmt));
    }
  }

  predicate NoSpace(w: string) { ' ' !in w }

  lemma {:induction false} SplitWordPrefix(w: string, t: string)
    requires NoSpace(w)
    ensures SplitSpaces(w + t) == [w + SplitSpaces(t)[0]] + SplitSpaces(t)[1..]
  {
    if w != [] {
      assert (w + t)[0] == w[0];
      assert (w + t)[1..] == w[1..] + t;
      SplitWordPrefix(w[1..], t);
      assert [w[0]] + (w[1..] + SplitSpaces(t)[0]) == w + SplitSpaces(t)[0];
    } else {
      assert w + t == t;
      assert w + SplitSpaces(t)[0] == SplitSpaces(t)[0];
      assert [SplitSpaces(t)[0]] + SplitSpaces(t)[1..] == SplitSpaces(t);
    }
  }

  lemma {:induction false} SplitSpaceJoin(ws: seq<string>)
    requires forall i :: 0 <= i < |ws| ==> NoSpace(ws[i])
    ensures SplitSpaces(SpaceJoin(ws)) == [""] + ws
  {
    if ws != [] {
      var tail := SpaceJoin(ws[1..]);
      SplitSpaceJoin(ws[1..]);
      SplitWordPrefix(ws[0], tail);
      assert ws[0] + "" == ws[0];
      var s := " " + (ws[0] + tail);
      assert SpaceJoin(ws) == s;
      assert s[1..] == ws[0] + tail;
      assert [ws[0]] + ws[1..] == ws;
    }
  }

  /** The number words of an element's token: all its words after the first. */
  lemma WordsShape(e: PathElement, fmt: Formatter)
    requires Separable(fmt)
    ensures |Words(e, fmt)| > 0
    ensures StartsCommand(Words(e, fmt)[0]) && Words(e, fmt)[0][0] == Letter(Kind(e))
    ensures forall i :: 0 <= i < |Words(e, fmt)| ==> NoSpace(Words(e, fmt)[i])
    ensures forall i :: 1 <= i < |Words(e, fmt)| ==> !StartsCommand(Words(e, fmt)[i])
  {
    var cs := FormatAll(Coordinates(e), fmt);
    if cs != [] {
      assert fmt(Coordinates(e)[0]) == cs[0];
      assert ' ' !in cs[0];
      forall i | 1 <= i < |Words(e, fmt)| ensures !StartsCommand(Words(e, fmt)[i]) && NoSpace(Words(e, fmt)[i]) {
        assert Words(e, fmt)[i] == fmt(Coordinates(e)[i]);
      }
    }
  }

  lemma {:induction false} AllWordsShape(path: Path, fmt: Formatter)
    requires Separable(fmt)
    ensures forall i :: 0 <= i < |AllWords(path, fmt)| ==> NoSpace(AllWords(path, fmt)[i])
    ensures path != [] ==> StartsCommand(AllWords(path, fmt)[0])
  {
    if path != [] {
      WordsShape(path[0], fmt);
      AllWordsShape(path[1..], fmt);
      var a := Words(path[0], fmt);
      var b := AllWords(path[1..], fmt);
      assert AllWords(path, fmt) == a + b;
      forall i | 0 <= i < |a + b| ensures NoSpace((a + b)[i]) {
        if i >= |a| {
          assert (a + b)[i] == b[i - |a|];
        }
      }
    }
  }

  lemma {:induction false} LeadingNumbersAppend(ns: seq<string>, ws: seq<string>)
    requires forall i :: 0 <= i < |ns| ==> !StartsCommand(ns[i])
    requires ws == [] || StartsCommand(ws[0])
    ensures LeadingNumbers(ns + ws) == |ns|
  {
    if ns == [] {
      assert ns + ws == ws;
    } else {
      assert (ns + ws)[0] == ns[0];
      assert (ns + ws)[1..] == ns[1..] + ws;
      LeadingNumbersAppend(ns[1..], ws);
    }
  }

  /** The commands a path should read back as, one per element. */
  function ExpectedAll(path: Path, fmt: Formatter): (cs: seq<Command>)
    ensures |cs| == |path|
    ensures forall i :: 0 <= i < |path| ==> cs[i] == Expected(path[i], fmt)
  {
    if path == [] then [] else [Expected(path[0], fmt)] + ExpectedAll(path[1..], fmt)
  }

  /** The first word minus its letter, followed by the other words, are the formatted coordinates. */
  lemma WordsNumbers(e: PathElement, fmt: Formatter)
    requires Separable(fmt)
    ensures var a := Words(e, fmt);
      (if |a[0]| > 1 then [a[0][1..]] else []) + a[1..] == FormatAll(Coordinates(e), fmt)
  {
    var a := Words(e, fmt);
    var cs := FormatAll(Coordinates(e), fmt);
    if cs == [] {
      assert a == [[Letter(Kind(e))]];
    } else {
      assert cs[0] == fmt(Coordinates(e)[0]);
      assert a[0] == [Letter(Kind(e))] + cs[0];
      assert a[0][1..] == cs[0];
      assert [cs[0]] + cs[1..] == cs;
    }
  }

  /** A command word followed by number words, then the next command, groups into one command. */
  lemma GroupWords(a: seq<string>, rest: seq<string>)
    requires |a| > 0 && StartsCommand(a[0])
    requires forall i :: 1 <= i < |a| ==> !StartsCommand(a[i])
    requires rest == [] || StartsCommand(rest[0])
    ensures Group(a + rest) ==
      [Command(a[0][0], (if |a[0]| > 1 then [a[0][1..]] else []) + a[1..])] + Group(rest)
  {
    var ws := a + rest;
    assert ws[0] == a[0];
    assert ws[1..] == a[1..] + rest;
    LeadingNumbersAppend(a[1..], rest);
    var n := |a| - 1;
    assert ws[1..][..n] == a[1..];
    assert ws[1..][n..] == rest;
  }

  lemma GroupStep(e: PathElement, rest: seq<string>, fmt: Formatter)
    requires Separable(fmt)
    requires rest == [] || StartsCommand(rest[0])
    ensures Group(Words(e, fmt) + rest) == [Expected(e, fmt)] + Group(rest)
  {
    WordsShape(e, fmt);
    WordsNumbers(e, fmt);
    GroupWords(Words(e, fmt), rest);
  }

  lemma {:induction false} GroupAllWords(path: Path, fmt: Formatter)
    requires Separable(fmt)
    ensures Group(AllWords(path, fmt)) == ExpectedAll(path, fmt)
  {
    if path != [] {
      AllWordsShape(path[1..], fmt);
      GroupStep(path[0], AllWords(path[1..], fmt), fmt);
      GroupAllWords(path[1..], fmt);
    }
  }

  /**
   * Reading `toSVG`'s output gives back exactly one command per path element,
   * in path order, with the element's letter (M, L, Q, C or Z) and its 2, 2,
   * 4, 6 or 0 formatted coordinates.
   */
  lemma ReadBackPathData(path: Path, fmt: Formatter)
    requires Separable(fmt)
    ensures ReadPathData(PathData(path, fmt)) == ExpectedAll(path, fmt)
    ensures forall i :: 0 <= i < |path| ==>
      && ReadPathData(PathData(path, fmt))[i].letter == Letter(Kind(path[i]))
      && ReadPathData(PathData(path, fmt))[i].numbers == FormatAll(Coordinates(path[i]), fmt)
      && |ReadPathData(PathData(path, fmt))[i].numbers| == 2 * Arity(Kind(path[i]))
  {
    PathDataIsSpaceJoin(path, fmt);
    AllWordsShape(path, fmt);
    SplitSpaceJoin(AllWords(path, fmt));
    GroupAllWords(path, fmt);
    assert ([""] + AllWords(path, fmt))[1..] == AllWords(path, fmt);
  }
}
