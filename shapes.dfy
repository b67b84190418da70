/**
 * Faces, their decorations and cuboids (`rect`, its inner `getBox`, `text`,
 * `darken` and `cube` of src/helpers/geometries.ts).
 */
module Shapes {
  import opened Wrappers
  import opened Vectors
  import opened Font

  /** The kind of a decoration: 'slot', 'text' or 'rect'. */
  datatype Kind = SlotKind | TextKind | RectKind

  /**
   * A decoration request (`Options`): a fractional position and height along
   * the face's height axis, a fractional width along its width axis, a kind,
   * an optional text or outline colour, and whether text runs backwards (an
   * absent `reverse` reads as false).
   */
  datatype Options = Options(position: real, width: real, height: real, kind: Kind, detail: Option<string>, reverse: bool)

  /** A face with its closed loop of corners and decorations, or a laid-out string. */
  datatype Shape =
    | RectShape(fill: string, stroke: string, points: seq<Vertex>, adds: Decorations, gradient: Option<bool>)
    | TextShape(fill: string, stroke: string, text: seq<seq<Vertex>>, box: Box)

  /** The optional `adds` list of a face. */
  datatype Decorations = Undecorated | Decorated(shapes: seq<Shape>)

  /** An interval of offsets from a face's first corner along one axis. */
  datatype Span = Span(lo: real, hi: real)

  lemma ProductBelow(h: real, f: real)
    requires 0.0 <= h && f <= 1.0
    ensures h * f <= h
  {
    assert h * (1.0 - f) >= 0.0;
  }

  lemma ProductNonNegative(h: real, f: real)
    requires 0.0 <= h && 0.0 <= f
    ensures 0.0 <= h * f
  {
  }

  /**
   * Placement across the face (`left`, `right` of `getBox`): the decoration's
   * width is clamped to the face width `w` and centred, so the two margins are
   * equal.
   */
  function Across(w: real, width: real): (s: Span)
    ensures s.lo + s.hi == w
    ensures s.hi - s.lo == Min(w * width, w) && s.hi - s.lo <= w
    ensures 0.0 <= w && 0.0 <= width ==> 0.0 <= s.lo <= s.hi <= w
  {
    var cWidth := Min(w * width, w);
    if 0.0 <= w && 0.0 <= width then
      ProductNonNegative(w, width);
      var left := (w - cWidth) / 2.0;
      Span(left, left + cWidth)
    else
      var left := (w - cWidth) / 2.0;
      Span(left, left + cWidth)
  }

  /**
   * Placement along the face (`top`, `bottom` of `getBox`): a band of length
   * `size` centred on `centre`, moved down to start at 0 at the least and up
   * so as not to end past `h`.
   */
  function Band(h: real, centre: real, size: real): (s: Span)
    ensures s.hi - s.lo == size
    ensures 0.0 <= s.lo
    ensures size <= h ==> s.hi <= h
    ensures 0.0 <= centre - size / 2.0 <= h - size ==> (s.lo + s.hi) / 2.0 == centre
    ensures centre - size / 2.0 < 0.0 || h - size < 0.0 ==> s.lo == 0.0
    ensures 0.0 <= h - size < centre - size / 2.0 ==> s.hi == h
  {
    var top := Max(0.0, Min(h - size, centre - size / 2.0));
    Span(top, top + size)
  }

  /** The band of a decoration at fractional `position` and `height` of a face of height `h`. */
  function Along(h: real, position: real, height: real): (s: Span)
    ensures 0.0 <= h && height <= 1.0 ==> s.hi <= h
    ensures 0.0 <= h && 0.0 <= height ==> 0.0 <= s.lo <= s.hi
    ensures s.hi - s.lo == h * height
    ensures s == Band(h, h * position, h * height)
  {
    var s := Band(h, h * position, h * height);
    if 0.0 <= h && height <= 1.0 then
      ProductBelow(h, height);
      s
    else if 0.0 <= h && 0.0 <= height then
      ProductNonNegative(h, height);
      s
    else
      s
  }

  /**
   * `getBox`: the two corners of a decoration on the face whose first corner is
   * `a` and whose extent is `e`. Each of the six direction cases puts the
   * `Across` span on the width axis and the `Along` span on the height axis,
   * and keeps the fixed axis at the first corner's value.
   */
  function GetBox(a: Vertex, e: Extent, position: real, width: real, height: real): (box: Box)
    ensures var across, along := Across(e.w, width), Along(e.h, position, height);
      && Coord(box.p1, e.dir.Fixed()) == Coord(a, e.dir.Fixed())
      && Coord(box.p2, e.dir.Fixed()) == Coord(a, e.dir.Fixed())
      && Coord(box.p1, e.dir.Width()) == Coord(a, e.dir.Width()) + across.lo
      && Coord(box.p2, e.dir.Width()) == Coord(a, e.dir.Width()) + across.hi
      && Coord(box.p1, e.dir.Height()) == Coord(a, e.dir.Height()) + along.lo
      && Coord(box.p2, e.dir.Height()) == Coord(a, e.dir.Height()) + along.hi
  {
    var across := Across(e.w, width);
    var along := Along(e.h, position, height);
    var left, right := across.lo, across.hi;
    var top, bottom := along.lo, along.hi;
    match e.dir
    case XY => Box(Vertex(a.x + left, a.y + top, a.z), Vertex(a.x + right, a.y + bottom, a.z))
    case XZ => Box(Vertex(a.x + left, a.y, a.z + top), Vertex(a.x + right, a.y, a.z + bottom))
    case YX => Box(Vertex(a.x + top, a.y + left, a.z), Vertex(a.x + bottom, a.y + right, a.z))
    case YZ => Box(Vertex(a.x, a.y + left, a.z + top), Vertex(a.x, a.y + right, a.z + bottom))
    case ZX => Box(Vertex(a.x + top, a.y, a.z + left), Vertex(a.x + bottom, a.y, a.z + right))
    case ZY => Box(Vertex(a.x, a.y + top, a.z + left), Vertex(a.x, a.y + bottom, a.z + right))
  }

  /** Every coordinate of `v` is the same coordinate of `a` or of `b`: `v` is a corner of their box. */
  predicate CornerOf(v: Vertex, a: Vertex, b: Vertex) {
    (v.x == a.x || v.x == b.x) && (v.y == a.y || v.y == b.y) && (v.z == a.z || v.z == b.z)
  }

  /** Two vertices differ on one axis at most: the edge between them is axis-parallel. */
  predicate AxisParallel(u: Vertex, v: Vertex) {
    (u.x == v.x && u.y == v.y) || (u.x == v.x && u.z == v.z) || (u.y == v.y && u.z == v.z)
  }

  /**
   * `text`: a string laid out in the box from `p1` to `p2`; its paths are the
   * glyphs `DrawString` places, so they lie on the box's plane.
   */
  function Text(txt: string, p1: Vertex, p2: Vertex, fill: string, stroke: string, reverse: bool): (s: Shape)
    ensures s.TextShape? && s.fill == fill && s.stroke == stroke && s.box == Box(p1, p2)
    ensures |s.text| == |txt|
    ensures s.text == DrawString(txt, Box(p1, p2), reverse)
  {
    TextShape(fill, stroke, DrawString(txt, Box(p1, p2), reverse), Box(p1, p2))
  }

  /**
   * One decoration of a face whose stroke is `stroke`, drawn in `box`: a slot
   * is a solid rect in the face's stroke colour, a 'rect' an outline in the
   * detail colour (the face's stroke by default), text is drawn in the face's
   * stroke colour. Nested rects carry no gradient and no decorations.
   */
  function Decoration(add: Options, box: Box, stroke: string): (s: Shape)
    ensures add.kind == SlotKind ==> s.RectShape? && s.fill == stroke && s.stroke == "transparent"
    ensures add.kind == RectKind ==> s.RectShape? && s.fill == "transparent" && s.stroke == add.detail.GetOr(stroke)
    ensures add.kind == TextKind ==>
      s.TextShape? && s.fill == stroke && s.stroke == "none" && s.box == box && |s.text| == |add.detail.GetOr("")|
    ensures add.kind == TextKind ==> s == Text(add.detail.GetOr(""), box.p1, box.p2, stroke, "none", add.reverse)
    ensures s.RectShape? ==>
      s.adds.Undecorated? && s.gradient.None? && |s.points| == 5 && s.points[0] == box.p1 && s.points[2] == box.p2
    decreases 0, 2
  {
    match add.kind
    case TextKind => Text(add.detail.GetOr(""), box.p1, box.p2, stroke, "none", add.reverse)
    case SlotKind => Rect(box.p1, box.p2, stroke, "transparent", None, None)
    case RectKind => Rect(box.p1, box.p2, "transparent", add.detail.GetOr(stroke), None, None)
  }

  /**
   * The outline of `rect`: the closed loop a, (b.x, a.y, z3), b, (a.x, b.y, z4), a,
   * where z3 and z4 are chosen so that a face lying in a coordinate plane
   * stays in it: the loop then has four axis-parallel edges.
   */
  function Loop(a: Vertex, b: Vertex): (points: seq<Vertex>)
    ensures |points| == 5 && points[0] == a && points[2] == b && points[4] == a
    ensures points[1].x == b.x && points[1].y == a.y && points[3].x == a.x && points[3].y == b.y
    ensures forall k :: 0 <= k < 5 ==> CornerOf(points[k], a, b)
    ensures AxisAligned(a, b) ==> forall k :: 0 <= k < 4 ==> AxisParallel(points[k], points[k + 1])
    ensures a.x == b.x ==> forall k :: 0 <= k < 5 ==> points[k].x == a.x
    ensures a.y == b.y ==> forall k :: 0 <= k < 5 ==> points[k].y == a.y
    ensures a.z == b.z ==> forall k :: 0 <= k < 5 ==> points[k].z == a.z
  {
    var z3 := if a.y == b.y then a.z else if a.x == b.x then b.z else a.z;
    var z4 := if a.y == b.y then b.z else a.z;
    [a, Vertex(b.x, a.y, z3), b, Vertex(a.x, b.y, z4), a]
  }

  /** The decorations of `rect`, each built, in order, in the box `GetBox` computes for it on the face. */
  function Decorate(a: Vertex, b: Vertex, stroke: string, adds: seq<Options>): (shapes: seq<Shape>)
    ensures |shapes| == |adds| && forall i :: 0 <= i < |adds| ==>
      var add := adds[i];
      shapes[i] == Decoration(add, GetBox(a, WidthHeight(a, b), add.position, add.width, add.height), stroke)
    decreases 1, 0
  {
    var e := WidthHeight(a, b);
    seq(|adds|, i requires 0 <= i < |adds| =>
      Decoration(adds[i], GetBox(a, e, adds[i].position, adds[i].width, adds[i].height), stroke))
  }

  /** `rect`: the face spanned by corners `a` and `b`, with its decorations. */
  function Rect(a: Vertex, b: Vertex, fill: string, stroke: string, gradient: Option<bool>, adds: Option<seq<Options>>): (r: Shape)
    ensures r.RectShape? && r.fill == fill && r.stroke == stroke && r.gradient == gradient
    ensures r.points == Loop(a, b)
    ensures r.adds.Decorated? <==> adds.Some?
    ensures adds.Some? ==> r.adds.shapes == Decorate(a, b, stroke, adds.value)
    decreases if adds.Some? then 1 else 0, 1
  {
    RectShape(fill, stroke, Loop(a, b), if adds.None? then Undecorated else Decorated(Decorate(a, b, stroke, adds.value)), gradient)
  }

  /** Every vertex of `lo` is at most the matching vertex of `hi`, axis by axis. */
  predicate Below(lo: Vertex, hi: Vertex) {
    lo.x <= hi.x && lo.y <= hi.y && lo.z <= hi.z
  }

  /**
   * On a face in a coordinate plane whose first corner is below its second on
   * every axis, a decoration of non-negative width and of height between 0 and
   * 1 lies inside the face.
   */
  lemma DecorationInsideFace(a: Vertex, b: Vertex, add: Options)
    requires AxisAligned(a, b) && Below(a, b)
    requires 0.0 <= add.width && 0.0 <= add.height <= 1.0
    ensures var box := GetBox(a, WidthHeight(a, b), add.position, add.width, add.height);
      Below(a, box.p1) && Below(box.p1, box.p2) && Below(box.p2, b)
  {
    AxisInside(a, b, add, X);
    AxisInside(a, b, add, Y);
    AxisInside(a, b, add, Z);
  }

  /** `DecorationInsideFace` on one axis. */
  lemma AxisInside(a: Vertex, b: Vertex, add: Options, axis: Axis)
    requires AxisAligned(a, b) && Below(a, b)
    requires 0.0 <= add.width && 0.0 <= add.height <= 1.0
    ensures var box := GetBox(a, WidthHeight(a, b), add.position, add.width, add.height);
      Coord(a, axis) <= Coord(box.p1, axis) <= Coord(box.p2, axis) <= Coord(b, axis)
  {
    var e := WidthHeight(a, b);
    ProductNonNegative(e.h, add.height);
    if axis == e.dir.Fixed() {
    } else if axis == e.dir.Width() {
      assert Coord(b, axis) - Coord(a, axis) == e.w;
    } else {
      assert axis == e.dir.Height();
      assert Coord(b, axis) - Coord(a, axis) == e.h;
    }
  }

  /** Hexadecimal digits, either case, as `parseInt(_, 16)` reads them. */
  predicate IsHexDigit(c: char) {
    '0' <= c <= '9' || 'a' <= c <= 'f' || 'A' <= c <= 'F'
  }

  predicate IsHex(s: string) {
    forall i :: 0 <= i < |s| ==> IsHexDigit(s[i])
  }

  function HexValue(c: char): (v: nat)
    requires IsHexDigit(c)
    ensures v < 16
  {
    if '0' <= c <= '9' then c as int - '0' as int
    else if 'a' <= c <= 'f' then c as int - 'a' as int + 10
    else c as int - 'A' as int + 10
  }

  /** The lower-case digit `toString(16)` writes for `d`. */
  function HexDigit(d: nat): (c: char)
    requires d < 16
    ensures IsHexDigit(c) && HexValue(c) == d
    ensures !('A' <= c <= 'F')
  {
    if d < 10 then ('0' as int + d) as char else ('a' as int + d - 10) as char
  }

  /** `parseInt(s, 16)` on a string of hexadecimal digits, most significant first. */
  function ParseHex(s: string): nat
    requires IsHex(s)
  {
    if s == [] then 0 else ParseHex(s[..|s| - 1]) * 16 + HexValue(s[|s| - 1])
  }

  /** `n.toString(16)`: the shortest lower-case hexadecimal numeral of `n`. */
  function ToHex(n: nat): (s: string)
    ensures IsHex(s) && ParseHex(s) == n
    ensures 1 <= |s| && (|s| > 1 ==> s[0] != '0')
    ensures n < 16 ==> |s| == 1
    ensures 16 <= n < 256 ==> |s| == 2
  {
    if n < 16 then [HexDigit(n)]
    else
      var s := ToHex(n / 16) + [HexDigit(n % 16)];
      assert s[..|s| - 1] == ToHex(n / 16);
      s
  }

  /** A leading zero does not change the value read. */
  lemma {:induction false} ParseHexLeadingZero(s: string)
    requires IsHex(s)
    ensures IsHex("0" + s) && ParseHex("0" + s) == ParseHex(s)
  {
    if s != [] {
      var init := s[..|s| - 1];
      ParseHexLeadingZero(init);
      assert ("0" + s)[..|"0" + s| - 1] == "0" + init;
    }
  }

  /** `Math.round(value * 0.8)`, with halves rounded up. */
  function Darken(v: nat): (d: nat)
    ensures d <= v
    ensures -5 <= 10 * d - 8 * v < 5
  {
    (8 * v + 5) / 10
  }

  /** One colour channel of `darken`: read, scaled by 0.8, written back on two digits at least. */
  function DarkenChannel(pair: string): (r: string)
    requires IsHex(pair)
    ensures IsHex(r) && 2 <= |r|
    ensures ParseHex(r) == Darken(ParseHex(pair))
    ensures ParseHex(pair) < 256 ==> |r| == 2
  {
    var digits := ToHex(Darken(ParseHex(pair)));
    if |digits| < 2 then
      ParseHexLeadingZero(digits);
      "0" + digits
    else
      digits
  }

  /** A colour `#rrggbb` whose six letters after the sign are hexadecimal digits. */
  predicate IsHexColor(fill: string) {
    |fill| >= 7 && IsHex(fill[1..3]) && IsHex(fill[3..5]) && IsHex(fill[5..7])
  }

  /** `darken`: each of the three channels scaled by 0.8; anything after the sixth digit is dropped. */
  function DarkenColor(fill: string): (r: string)
    requires IsHexColor(fill)
  {
    "#" + DarkenChannel(fill[1..3]) + DarkenChannel(fill[3..5]) + DarkenChannel(fill[5..7])
  }

  /** A darkened colour is a `#rrggbb` colour whose every channel is 0.8 times the original one, rounded. */
  lemma DarkenColorChannels(fill: string)
    requires IsHexColor(fill)
    ensures var r := DarkenColor(fill);
      |r| == 7 && r[0] == '#' && IsHexColor(r)
      && ParseHex(r[1..3]) == Darken(ParseHex(fill[1..3]))
      && ParseHex(r[3..5]) == Darken(ParseHex(fill[3..5]))
      && ParseHex(r[5..7]) == Darken(ParseHex(fill[5..7]))
  {
    var red, green, blue := fill[1..3], fill[3..5], fill[5..7];
    TwoDigitsBelow256(red);
    TwoDigitsBelow256(green);
    TwoDigitsBelow256(blue);
    var r := DarkenColor(fill);
    assert r[1..3] == DarkenChannel(red);
    assert r[3..5] == DarkenChannel(green);
    assert r[5..7] == DarkenChannel(blue);
    assert r[1..7] == DarkenChannel(red) + DarkenChannel(green) + DarkenChannel(blue);
  }

  lemma TwoDigitsBelow256(s: string)
    requires IsHex(s) && |s| == 2
    ensures ParseHex(s) < 256
  {
    assert ParseHex(s[..1]) == HexValue(s[0]) by {
      assert s[..1][..0] == [];
    }
  }

  predicate IsLetter(c: char) {
    'a' <= c <= 'z' || 'A' <= c <= 'Z'
  }

  /**
   * The colour split of `cube` as written: `split(/([a-z]{2})/i)` followed by
   * `filter(Boolean)`. Only two consecutive letters form a piece of their
   * own; every run between such pairs (`gap`, still being collected) is a
   * piece as well.
   */
  function SplitLetterPairs(s: string, gap: string): (pieces: seq<string>)
    ensures forall i :: 0 <= i < |pieces| ==> pieces[i] != []
    ensures IsHex(gap) && IsHex(s) ==> forall i :: 0 <= i < |pieces| ==> IsHex(pieces[i])
    decreases |s|
  {
    if |s| < 2 then
      if gap + s == [] then [] else [gap + s]
    else if IsLetter(s[0]) && IsLetter(s[1]) then
      (if gap == [] then [] else [gap]) + [s[..2]] + SplitLetterPairs(s[2..], [])
    else
      SplitLetterPairs(s[1..], gap + [s[0]])
  }

  /** `darken` of a piece of the split, where a missing piece reads as NaN. */
  function ChannelAsWritten(piece: Option<string>): string
    requires piece.Some? ==> IsHex(piece.value)
  {
    if piece.None? then "NaN" else DarkenChannel(piece.value)
  }

  /** The back colour of `cube` as written, for a fill of hexadecimal digits after its first letter. */
  function BackColorAsWritten(fill: string): (r: string)
    requires 1 <= |fill| && IsHex(fill[1..])
  {
    BackColorOfPieces(SplitLetterPairs(fill[1..], []))
  }

  /** The back colour made of the first three pieces of the split, each darkened. */
  function BackColorOfPieces(pieces: seq<string>): string
    requires forall i :: 0 <= i < |pieces| ==> IsHex(pieces[i])
  {
    "#" + ChannelAsWritten(if 0 < |pieces| then Some(pieces[0]) else None)
        + ChannelAsWritten(if 1 < |pieces| then Some(pieces[1]) else None)
        + ChannelAsWritten(if 2 < |pieces| then Some(pieces[2]) else None)
  }

  /**
   * Red, '#ff0000' in the legacy colour table, splits into 'ff' and '0000'
   * only, so its back faces get the colour '#cc00NaN'.
   */
  lemma RedBackColorAsWritten()
    ensures BackColorAsWritten("#ff0000") == "#cc00NaN"
  {
    assert "#ff0000"[1..] == "ff0000";
    RedSplit();
    RedPieces();
  }

  lemma RedPieces()
    ensures BackColorOfPieces(["ff", "0000"]) == "#cc00NaN"
  {
    RedChannels();
  }

  lemma RedSplit()
    ensures SplitLetterPairs("ff0000", []) == ["ff", "0000"]
  {
    ZerosSplit();
    assert "ff0000"[..2] == "ff" && "ff0000"[2..] == "0000";
  }

  /** Digits only: the whole run is one piece. */
  lemma ZerosSplit()
    ensures SplitLetterPairs("0000", []) == ["0000"]
  {
    assert SplitLetterPairs("0", "000") == ["0000"] by {
      assert "000" + "0" == "0000";
    }
    assert SplitLetterPairs("00", "00") == ["0000"] by {
      assert "00"[1..] == "0" && "00" + ['0'] == "000";
    }
    assert SplitLetterPairs("000", "0") == ["0000"] by {
      assert "000"[1..] == "00" && "0" + ['0'] == "00";
    }
    assert "0000"[1..] == "000" && [] + ['0'] == "0";
  }

  lemma RedChannels()
    ensures DarkenChannel("ff") == "cc" && DarkenChannel("0000") == "00"
  {
    DarkenFull();
    DarkenZero();
  }

  lemma DarkenFull()
    ensures DarkenChannel("ff") == "cc"
  {
    assert ParseHex("f") == 15 by {
      assert "f"[..0] == [];
    }
    assert ParseHex("ff") == 255 by {
      assert "ff"[..1] == "f";
    }
    assert Darken(255) == 204;
    assert ToHex(12) == "c";
    assert ToHex(204) == "cc";
  }

  lemma DarkenZero()
    ensures DarkenChannel("0000") == "00"
  {
    assert ParseHex("0000") == 0 by {
      assert "0000"[..3] == "000" && "000"[..2] == "00" && "00"[..1] == "0" && "0"[..0] == [];
    }
    assert ToHex(0) == "0";
  }

  /** On six hex letters the split as written yields the three channels, so both back colours agree. */
  lemma BackColorOnLetters(fill: string)
    requires 7 <= |fill| && IsHex(fill[1..])
    requires forall i :: 1 <= i < 7 ==> IsLetter(fill[i])
    ensures IsHexColor(fill) && BackColorAsWritten(fill) == DarkenColor(fill)
  {
    var pieces := SplitLetterPairs(fill[1..], []);
    LettersSplit(fill);
    assert IsHex(fill[1..3]) && IsHex(fill[3..5]) && IsHex(fill[5..7]) by {
      assert forall i :: 0 <= i < 2 ==> fill[1..3][i] == fill[1..][i] && fill[3..5][i] == fill[1..][i + 2] && fill[5..7][i] == fill[1..][i + 4];
    }
    assert pieces[0] == fill[1..3] && pieces[1] == fill[3..5] && pieces[2] == fill[5..7];
  }

  /** Six letters after the sign split into three pairs, whatever follows. */
  lemma LettersSplit(fill: string)
    requires 7 <= |fill|
    requires forall i :: 1 <= i < 7 ==> IsLetter(fill[i])
    ensures var pieces := SplitLetterPairs(fill[1..], []);
      3 <= |pieces| && pieces[..3] == [fill[1..3], fill[3..5], fill[5..7]]
  {
    var s := fill[1..];
    LetterPairSplit(s);
    assert s[..2] == fill[1..3] && s[2..] == fill[3..];
    LetterPairSplit(fill[3..]);
    assert fill[3..][..2] == fill[3..5] && fill[3..][2..] == fill[5..];
    LetterPairSplit(fill[5..]);
    assert fill[5..][..2] == fill[5..7];
  }

  /** Two letters at the head of the split make its first piece. */
  lemma LetterPairSplit(s: string)
    requires 2 <= |s| && IsLetter(s[0]) && IsLetter(s[1])
    ensures SplitLetterPairs(s, []) == [s[..2]] + SplitLetterPairs(s[2..], [])
  {
  }

  /** Decorations per face of a cube (`adds`). */
  datatype Details = Details(
    front: Option<seq<Options>>, back: Option<seq<Options>>, top: Option<seq<Options>>,
    bottom: Option<seq<Options>>, left: Option<seq<Options>>, right: Option<seq<Options>>)

  /** A rect with the given stroke, a gradient and five points. */
  predicate GradientFace(s: Shape, stroke: string) {
    s.RectShape? && s.stroke == stroke && s.gradient == Some(true) && |s.points| == 5
  }

  /**
   * `s` is the face spanned by `a` and `b`: its outline is their loop, and it
   * carries decorations exactly when `adds` is given, each drawn on this face.
   */
  predicate Spanned(s: Shape, a: Vertex, b: Vertex, stroke: string, adds: Option<seq<Options>>) {
    && s.RectShape? && s.points == Loop(a, b)
    && (s.adds.Decorated? <==> adds.Some?)
    && (adds.Some? ==> s.adds.shapes == Decorate(a, b, stroke, adds.value))
  }

  /** A face of a cuboid: a rect with a gradient. */
  function Face(a: Vertex, b: Vertex, fill: string, stroke: string, adds: Option<seq<Options>>): (s: Shape)
    ensures GradientFace(s, stroke) && s.fill == fill
    ensures Spanned(s, a, b, stroke, adds)
  {
    Rect(a, b, fill, stroke, Some(true), adds)
  }

  /**
   * The six faces of the box from `lo` to `hi`, in the order front (z+),
   * back (z-), top (y-), bottom (y+), left (x-), right (x+); front, top and
   * right take the colour `front`, the others `back`.
   */
  function Faces(lo: Vertex, hi: Vertex, front: string, back: string, stroke: string, adds: Details): (faces: seq<Shape>)
    ensures |faces| == 6
    ensures GradientFace(faces[0], stroke) && GradientFace(faces[1], stroke) && GradientFace(faces[2], stroke)
      && GradientFace(faces[3], stroke) && GradientFace(faces[4], stroke) && GradientFace(faces[5], stroke)
    ensures faces[0].fill == front && faces[2].fill == front && faces[5].fill == front
    ensures faces[1].fill == back && faces[3].fill == back && faces[4].fill == back
    ensures Spanned(faces[0], Vertex(lo.x, lo.y, hi.z), hi, stroke, adds.front)
    ensures Spanned(faces[1], lo, Vertex(hi.x, hi.y, lo.z), stroke, adds.back)
    ensures Spanned(faces[2], lo, Vertex(hi.x, lo.y, hi.z), stroke, adds.top)
    ensures Spanned(faces[3], Vertex(lo.x, hi.y, lo.z), hi, stroke, adds.bottom)
    ensures Spanned(faces[4], lo, Vertex(lo.x, hi.y, hi.z), stroke, adds.left)
    ensures Spanned(faces[5], Vertex(hi.x, lo.y, lo.z), hi, stroke, adds.right)
  {
    [ Face(Vertex(lo.x, lo.y, hi.z), hi, front, stroke, adds.front),
      Face(lo, Vertex(hi.x, hi.y, lo.z), back, stroke, adds.back),
      Face(lo, Vertex(hi.x, lo.y, hi.z), front, stroke, adds.top),
      Face(Vertex(lo.x, hi.y, lo.z), hi, back, stroke, adds.bottom),
      Face(lo, Vertex(lo.x, hi.y, hi.z), back, stroke, adds.left),
      Face(Vertex(hi.x, lo.y, lo.z), hi, front, stroke, adds.right) ]
  }

  /**
   * `cube`: the six faces of the cuboid of size `dimension` centred on
   * `center`. Front, top and right faces take `fill`, the others its
   * darkened colour; every face has a gradient and its own decorations.
   */
  function Cube(center: Vertex, dimension: Vertex, fill: string, stroke: string, adds: Details): (faces: seq<Shape>)
    requires IsHexColor(fill)
    ensures |faces| == 6
    ensures GradientFace(faces[0], stroke) && GradientFace(faces[1], stroke) && GradientFace(faces[2], stroke)
      && GradientFace(faces[3], stroke) && GradientFace(faces[4], stroke) && GradientFace(faces[5], stroke)
    ensures faces[0].fill == fill && faces[2].fill == fill && faces[5].fill == fill
    ensures faces[1].fill == DarkenColor(fill) && faces[3].fill == DarkenColor(fill) && faces[4].fill == DarkenColor(fill)
    ensures var (lo, hi) := CubeCorners(center, dimension);
      && Spanned(faces[0], Vertex(lo.x, lo.y, hi.z), hi, stroke, adds.front)
      && Spanned(faces[1], lo, Vertex(hi.x, hi.y, lo.z), stroke, adds.back)
      && Spanned(faces[2], lo, Vertex(hi.x, lo.y, hi.z), stroke, adds.top)
      && Spanned(faces[3], Vertex(lo.x, hi.y, lo.z), hi, stroke, adds.bottom)
      && Spanned(faces[4], lo, Vertex(lo.x, hi.y, hi.z), stroke, adds.left)
      && Spanned(faces[5], Vertex(hi.x, lo.y, lo.z), hi, stroke, adds.right)
  {
    var (lo, hi) := CubeCorners(center, dimension);
    Faces(lo, hi, fill, DarkenColor(fill), stroke, adds)
  }

  /** The lowest and the highest corner of the cuboid, half its dimension away from its centre. */
  function CubeCorners(center: Vertex, dimension: Vertex): (corners: (Vertex, Vertex))
    ensures forall axis :: Coord(corners.0, axis) == Coord(center, axis) - Coord(dimension, axis) / 2.0
    ensures forall axis :: Coord(corners.1, axis) == Coord(center, axis) + Coord(dimension, axis) / 2.0
  {
    var ox, oy, oz := dimension.x / 2.0, dimension.y / 2.0, dimension.z / 2.0;
    (Vertex(center.x - ox, center.y - oy, center.z - oz), Vertex(center.x + ox, center.y + oy, center.z + oz))
  }

  /** Every point of the outline of `s` is a corner of the box from `lo` to `hi`. */
  predicate CornersWithin(s: Shape, lo: Vertex, hi: Vertex) {
    s.RectShape? && forall k :: 0 <= k < |s.points| ==> CornerOf(s.points[k], lo, hi)
  }

  /** The outline of `s` lies in the plane where the coordinate `axis` is `c`. */
  predicate InPlane(s: Shape, axis: Axis, c: real) {
    s.RectShape? && forall k :: 0 <= k < |s.points| ==> Coord(s.points[k], axis) == c
  }

  /** A face whose two corners are corners of the box from `lo` to `hi` has only such corners. */
  lemma FaceCorners(a: Vertex, b: Vertex, lo: Vertex, hi: Vertex, fill: string, stroke: string, adds: Option<seq<Options>>)
    requires CornerOf(a, lo, hi) && CornerOf(b, lo, hi)
    ensures CornersWithin(Face(a, b, fill, stroke, adds), lo, hi)
  {
    var points := Face(a, b, fill, stroke, adds).points;
    assert points == Loop(a, b);
    assert forall k :: 0 <= k < 5 ==> CornerOf(points[k], a, b);
  }

  /**
   * Every vertex drawn for a cube is a corner of the cuboid, and each face
   * lies in its own bounding plane.
   */
  lemma CubeFacesOnBoundary(center: Vertex, dimension: Vertex, fill: string, stroke: string, adds: Details)
    requires IsHexColor(fill)
    ensures var faces, (lo, hi) := Cube(center, dimension, fill, stroke, adds), CubeCorners(center, dimension);
      && (forall f :: 0 <= f < 6 ==> CornersWithin(faces[f], lo, hi))
      && InPlane(faces[0], Z, hi.z) && InPlane(faces[1], Z, lo.z)
      && InPlane(faces[2], Y, lo.y) && InPlane(faces[3], Y, hi.y)
      && InPlane(faces[4], X, lo.x) && InPlane(faces[5], X, hi.x)
  {
    var (lo, hi) := CubeCorners(center, dimension);
    FacesOnBoundary(lo, hi, fill, DarkenColor(fill), stroke, adds);
  }

  /** Every vertex of the six faces is a corner of the box, and each face lies in its own bounding plane. */
  lemma FacesOnBoundary(lo: Vertex, hi: Vertex, front: string, back: string, stroke: string, adds: Details)
    ensures var faces := Faces(lo, hi, front, back, stroke, adds);
      && (forall f :: 0 <= f < 6 ==> CornersWithin(faces[f], lo, hi))
      && InPlane(faces[0], Z, hi.z) && InPlane(faces[1], Z, lo.z)
      && InPlane(faces[2], Y, lo.y) && InPlane(faces[3], Y, hi.y)
      && InPlane(faces[4], X, lo.x) && InPlane(faces[5], X, hi.x)
  {
    FaceCorners(Vertex(lo.x, lo.y, hi.z), hi, lo, hi, front, stroke, adds.front);
    FaceCorners(lo, Vertex(hi.x, hi.y, lo.z), lo, hi, back, stroke, adds.back);
    FaceCorners(lo, Vertex(hi.x, lo.y, hi.z), lo, hi, front, stroke, adds.top);
    FaceCorners(Vertex(lo.x, hi.y, lo.z), hi, lo, hi, back, stroke, adds.bottom);
    FaceCorners(lo, Vertex(lo.x, hi.y, hi.z), lo, hi, back, stroke, adds.left);
    FaceCorners(Vertex(hi.x, lo.y, lo.z), hi, lo, hi, front, stroke, adds.right);
  }
}
