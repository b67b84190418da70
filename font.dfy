/**
 * The vector font: a fixed table of glyph outlines (`drawChar`) and the
 * layout of a string along the wider axis of a box (`drawString`), from
 * src/helpers/geometries.ts.
 */
module Font {
  import opened Vectors

  /**
   * The glyph table. A point `(kx, ky)` of an outline stands for
   * `(kx * maxWidth, ky * midSize)`, where `midSize = size / 2` and
   * `maxWidth = midSize * 0.7`; every other character has no outline.
   */
  function Outline(c: char): seq<Point> {
    match c
    case 'B' => [Point(-1.0, -1.0), Point(0.3, -1.0), Point(1.0, -0.5), Point(0.3, 0.0), Point(-1.0, 0.0),
                 Point(0.3, 0.0), Point(1.0, 0.5), Point(0.3, 1.0), Point(-1.0, 1.0), Point(-1.0, -1.0)]
    case 'C' => [Point(1.0, -1.0), Point(0.0, -1.0), Point(-0.5, -0.9), Point(-1.0, 0.0), Point(-0.5, 0.9),
                 Point(0.0, 1.0), Point(1.0, 1.0)]
    case 'D' => [Point(-1.0, -1.0), Point(0.0, -1.0), Point(0.5, -0.8), Point(0.95, 0.0), Point(1.0, 0.0),
                 Point(0.95, 0.0), Point(0.5, 0.8), Point(0.0, 1.0), Point(-1.0, 1.0), Point(-1.0, -1.0)]
    case 'E' => [Point(1.0, -1.0), Point(-1.0, -1.0), Point(-1.0, 0.0), Point(1.0, 0.0), Point(-1.0, 0.0),
                 Point(-1.0, 1.0), Point(1.0, 1.0)]
    case 'I' => [Point(0.0, -1.0), Point(0.0, 1.0)]
    case 'L' => [Point(-1.0, -1.0), Point(-1.0, 1.0), Point(0.0, 0.8)]
    case 'M' => [Point(-1.0, 1.0), Point(-1.0, -1.0), Point(0.0, 0.0), Point(1.0, -1.0), Point(1.0, 1.0)]
    case 'N' => [Point(-1.0, 1.0), Point(-1.0, -1.0), Point(1.0, 1.0), Point(1.0, -1.0)]
    case 'O' => [Point(0.0, -1.0), Point(-0.5, -0.8), Point(-1.0, 0.0), Point(-0.5, 0.8), Point(0.0, 1.0),
                 Point(0.5, 0.8), Point(1.0, 0.0), Point(0.5, -0.8), Point(0.0, -1.0)]
    case 'S' => [Point(-1.0, 0.8), Point(-0.6, 0.9), Point(0.0, 1.0), Point(0.5, 0.8), Point(1.0, 0.3),
                 Point(0.5, 0.1), Point(0.0, 0.0), Point(-0.5, -0.1), Point(-1.0, -0.3), Point(-0.5, -0.8),
                 Point(0.0, -1.0), Point(0.6, -0.9), Point(1.0, -0.8)]
    case 'U' => [Point(-1.0, -1.0), Point(-1.0, 0.8), Point(0.0, 1.0), Point(1.0, 0.8), Point(1.0, -1.0)]
    case 'Z' => [Point(-1.0, -1.0), Point(1.0, -1.0), Point(-1.0, 1.0), Point(1.0, 1.0)]
    case 'b' => [Point(-1.0, 0.1), Point(-0.5, 0.0), Point(0.0, 0.0), Point(0.5, 0.2), Point(1.0, 0.5),
                 Point(0.5, 0.8), Point(0.0, 1.0), Point(-0.5, 1.0), Point(-1.0, 0.9), Point(-1.0, -1.0)]
    case 'c' => [Point(0.5, 0.0), Point(0.0, 0.0), Point(-0.5, 0.2), Point(-1.0, 0.5), Point(-0.5, 0.8),
                 Point(0.0, 1.0), Point(0.5, 1.0)]
    case 'd' => [Point(1.0, 0.1), Point(0.5, 0.0), Point(0.0, 0.0), Point(-0.5, 0.2), Point(-1.0, 0.5),
                 Point(-0.5, 0.8), Point(0.0, 1.0), Point(0.5, 1.0), Point(1.0, 0.9), Point(1.0, -1.0)]
    case 'e' => [Point(0.0, 0.5), Point(1.0, 0.5), Point(0.5, 0.2), Point(0.0, 0.0), Point(-0.5, 0.2),
                 Point(-1.0, 0.5), Point(-0.5, 0.8), Point(0.0, 1.0), Point(1.0, 1.0)]
    case 'i' => [Point(0.0, 1.0), Point(0.0, 0.0)]
    case 'n' => [Point(-1.0, 1.0), Point(-1.0, 0.0), Point(-1.0, 0.1), Point(0.0, 0.0), Point(1.0, 0.1),
                 Point(1.0, 1.0)]
    case 'm' => [Point(-1.0, 1.0), Point(-1.0, 0.0), Point(-1.0, 0.1), Point(-0.5, 0.0), Point(0.0, 0.1),
                 Point(0.0, 1.0), Point(0.0, 0.1), Point(0.5, 0.0), Point(1.0, 0.1), Point(1.0, 1.0)]
    case 'o' => [Point(0.0, 0.0), Point(-0.5, 0.2), Point(-1.0, 0.5), Point(-0.5, 0.8), Point(0.0, 1.0),
                 Point(0.5, 0.8), Point(1.0, 0.5), Point(0.5, 0.2), Point(0.0, 0.0)]
    case 's' => [Point(-1.0, 0.9), Point(0.0, 1.0), Point(1.0, 0.75), Point(0.0, 0.5), Point(-1.0, 0.25),
                 Point(0.0, 0.0), Point(1.0, 0.1)]
    case 'u' => [Point(-1.0, 0.0), Point(-1.0, 0.8), Point(0.0, 1.0), Point(1.0, 0.9), Point(1.0, 0.0),
                 Point(1.0, 1.0)]
    case 'z' => [Point(-1.0, 0.0), Point(1.0, 0.0), Point(-1.0, 1.0), Point(1.0, 1.0)]
    case '\U{00B3}' => [Point(-1.0, -1.0), Point(0.0, -0.75), Point(-0.5, -0.5), Point(0.0, -0.25), Point(-1.0, 0.0)]
    case '.' => [Point(-0.2, 1.0), Point(-0.1, 1.0), Point(-0.1, 0.9), Point(-0.2, 0.9), Point(-0.2, 1.0)]
    case _ => []
  }

  /** The characters the table draws: letters of the interface vocabulary, '³' and '.'. */
  const Supported: set<char> :=
    {'B', 'C', 'D', 'E', 'I', 'L', 'M', 'N', 'O', 'S', 'U', 'Z',
     'b', 'c', 'd', 'e', 'i', 'n', 'm', 'o', 's', 'u', 'z', '\U{00B3}', '.'}

  /** A point of the unit square `[-1, 1] x [-1, 1]`. */
  predicate InUnitSquare(p: Point) {
    -1.0 <= p.x <= 1.0 && -1.0 <= p.y <= 1.0
  }

  /** An outline has at least two points exactly when its character is supported. */
  lemma OutlineSupported(c: char)
    ensures c in Supported <==> |Outline(c)| >= 2
  {
    match c
    case 'B' => case 'C' => case 'D' => case 'E' => case 'I' => case 'L' => case 'M' => case 'N' =>
    case 'O' => case 'S' => case 'U' => case 'Z' => case 'b' => case 'c' => case 'd' => case 'e' =>
    case 'i' => case 'n' => case 'm' => case 'o' => case 's' => case 'u' => case 'z' =>
    case '\U{00B3}' => case '.' =>
    case _ =>
  }

  /** Every outline stays in the unit square. */
  lemma OutlineShape(c: char)
    ensures forall k :: 0 <= k < |Outline(c)| ==> InUnitSquare(Outline(c)[k])
  {
    if c in {'B', 'C', 'D', 'E', 'I', 'L', 'M', 'N'} {
      CapitalsShape(c);
    } else if c in {'O', 'S', 'U', 'Z', 'b', 'c', 'd', 'e'} {
      MixedShape(c);
    } else {
      SmallShape(c);
    }
  }

  lemma CapitalsShape(c: char)
    requires c in {'B', 'C', 'D', 'E', 'I', 'L', 'M', 'N'}
    ensures forall k :: 0 <= k < |Outline(c)| ==> InUnitSquare(Outline(c)[k])
  {
    match c
    case 'B' => case 'C' => case 'D' => case 'E' => case 'I' => case 'L' => case 'M' => case 'N' =>
  }

  lemma MixedShape(c: char)
    requires c in {'O', 'S', 'U', 'Z', 'b', 'c', 'd', 'e'}
    ensures forall k :: 0 <= k < |Outline(c)| ==> InUnitSquare(Outline(c)[k])
  {
    match c
    case 'O' => case 'S' => case 'U' => case 'Z' => case 'b' => case 'c' => case 'd' => case 'e' =>
  }

  lemma SmallShape(c: char)
    requires c !in {'B', 'C', 'D', 'E', 'I', 'L', 'M', 'N', 'O', 'S', 'U', 'Z', 'b', 'c', 'd', 'e'}
    ensures forall k :: 0 <= k < |Outline(c)| ==> InUnitSquare(Outline(c)[k])
  {
    match c
    case 'i' => case 'n' => case 'm' => case 'o' => case 's' => case 'u' => case 'z' =>
    case '\U{00B3}' => case '.' =>
    case _ =>
  }

  lemma ScaleBound(k: real, m: real)
    requires -1.0 <= k <= 1.0 && 0.0 <= m
    ensures -m <= k * m <= m
  {
    if k >= 0.0 {
      assert (1.0 - k) * m >= 0.0;
    } else {
      assert (1.0 + k) * m >= 0.0;
    }
  }

  /** `k * m`, which stays within `[-m, m]` for a coefficient `k` in `[-1, 1]`. */
  function Scaled(k: real, m: real): (r: real)
    requires -1.0 <= k <= 1.0
    ensures 0.0 <= m ==> -m <= r <= m
  {
    if m < 0.0 then k * m
    else
      ScaleBound(k, m);
      k * m
  }

  /** One outline point scaled to `size`: `(kx, ky)` becomes `(kx * maxWidth, ky * midSize)`. */
  function ScalePoint(k: Point, size: real): (p: Point)
    requires InUnitSquare(k)
    ensures 0.0 <= size ==> -0.35 * size <= p.x <= 0.35 * size && -size / 2.0 <= p.y <= size / 2.0
  {
    var midSize := size / 2.0;
    var maxWidth := midSize * 0.7;
    Point(Scaled(k.x, maxWidth), Scaled(k.y, midSize))
  }

  /** An outline scaled to `size`. */
  function Scale(outline: seq<Point>, size: real): (pts: seq<Point>)
    requires forall k :: 0 <= k < |outline| ==> InUnitSquare(outline[k])
    ensures |pts| == |outline|
    ensures 0.0 <= size ==> forall k :: 0 <= k < |pts| ==>
      -0.35 * size <= pts[k].x <= 0.35 * size && -size / 2.0 <= pts[k].y <= size / 2.0
  {
    seq(|outline|, k requires 0 <= k < |outline| => ScalePoint(outline[k], size))
  }

  /**
   * `drawChar`: the outline of `c` scaled to `size`; an unsupported character
   * gives no points, and every point stays within `0.35 * size` across and
   * `size / 2` up and down of the glyph's origin.
   */
  function DrawChar(c: char, size: real): (pts: seq<Point>)
    ensures |pts| == |Outline(c)|
    ensures c !in Supported ==> pts == []
    ensures 0.0 <= size ==> forall k :: 0 <= k < |pts| ==>
      -0.35 * size <= pts[k].x <= 0.35 * size && -size / 2.0 <= pts[k].y <= size / 2.0
  {
    OutlineShape(c);
    OutlineSupported(c);
    Scale(Outline(c), size)
  }

  /**
   * Where a glyph point lands in model space, for each of the six directions
   * of the box (the `switch (dir)` of `drawString`): `sweep` goes along the
   * width axis, `up` along the height axis, both around `center`. In direction
   * 'zy' the glyph's `up` is also added to z.
   */
  function PlaceGlyphPoint(dir: Direction, center: Vertex, sweep: real, up: real): (v: Vertex)
    ensures Coord(v, dir.Fixed()) == Coord(center, dir.Fixed())
    ensures Coord(v, dir.Height()) == up + Coord(center, dir.Height())
    ensures Coord(v, dir.Width()) == sweep + Coord(center, dir.Width()) + (if dir == ZY then up else 0.0)
  {
    match dir
    case ZX => Vertex(up + center.x, center.y, sweep + center.z)
    case ZY => Vertex(center.x, up + center.y, sweep + up + center.z)
    case YX => Vertex(up + center.x, sweep + center.y, center.z)
    case YZ => Vertex(center.x, sweep + center.y, up + center.z)
    case XZ => Vertex(sweep + center.x, center.y, up + center.z)
    case XY => Vertex(sweep + center.x, up + center.y, center.z)
  }

  /** Glyph size for `n` characters: `min(h, w / n)`; it fits the box's height and, n times over, its width. */
  function GlyphSize(e: Extent, n: nat): (size: real)
    requires n > 0 && 0.0 <= e.h <= e.w
    ensures 0.0 <= size <= e.h
    ensures size * (n as real) <= e.w
  {
    var per := e.w / (n as real);
    assert per * (n as real) == e.w;
    Min(e.h, per)
  }

  /** Where the first character goes, so that `n` characters of size `size` centre on the box: `-n * size / 2`. */
  function StartOffset(n: nat, size: real): real {
    -(n as real) * size / 2.0
  }

  /** Where character `idx` is centred along the width axis: `start + size * idx`. */
  function SlotOffset(start: real, size: real, idx: nat): real {
    start + size * (idx as real)
  }

  /** The sweep offset of point `p` of character `idx`: `(p.x + start + size * idx) * order`, `order` being -1 when reversed. */
  function Sweep(p: Point, start: real, size: real, idx: nat, reverse: bool): real {
    var offset := p.x + SlotOffset(start, size, idx);
    if reverse then -offset else offset
  }

  /** The path of character `idx`: its glyph at size `size`, each point placed by direction. */
  function LayoutChar(c: char, dir: Direction, center: Vertex, start: real, size: real, idx: nat, reverse: bool): (path: seq<Vertex>)
    ensures |path| == |Outline(c)|
  {
    var glyph := DrawChar(c, size);
    seq(|glyph|, j requires 0 <= j < |glyph| =>
      PlaceGlyphPoint(dir, center, Sweep(glyph[j], start, size, idx, reverse), glyph[j].y))
  }

  /**
   * `drawString`: one path per character, each with one vertex per point of
   * the character's glyph, laid out along the box's width axis around its
   * centre; the fixed axis stays at the centre and no point leaves the box's
   * height band.
   */
  function DrawString(str: string, box: Box, reverse: bool): (paths: seq<seq<Vertex>>)
    ensures |paths| == |str|
    ensures forall i :: 0 <= i < |str| ==> |paths[i]| == |Outline(str[i])|
    ensures var e, c := WidthHeight(box.p1, box.p2), MidPoint(box.p1, box.p2);
      forall i, j :: 0 <= i < |paths| && 0 <= j < |paths[i]| ==>
        Coord(paths[i][j], e.dir.Fixed()) == Coord(c, e.dir.Fixed()) &&
        Abs(Coord(paths[i][j], e.dir.Height()) - Coord(c, e.dir.Height())) <= e.h / 2.0
  {
    if |str| == 0 then []
    else
      var center := MidPoint(box.p1, box.p2);
      var e := WidthHeight(box.p1, box.p2);
      var size := GlyphSize(e, |str|);
      var start := StartOffset(|str|, size);
      seq(|str|, i requires 0 <= i < |str| => LayoutChar(str[i], e.dir, center, start, size, i, reverse))
  }

  /**
   * Outside direction 'zy', reversing a string mirrors every point along the
   * width axis about the box centre and leaves the other two axes alone: the
   * string's layout is flipped, each glyph is not redrawn.
   */
  lemma DrawStringReverse(str: string, box: Box, i: nat, j: nat)
    requires i < |str| && j < |Outline(str[i])|
    requires WidthHeight(box.p1, box.p2).dir != ZY
    ensures var e, c := WidthHeight(box.p1, box.p2), MidPoint(box.p1, box.p2);
      var fwd, rev := DrawString(str, box, false)[i][j], DrawString(str, box, true)[i][j];
      Coord(rev, e.dir.Width()) - Coord(c, e.dir.Width()) == -(Coord(fwd, e.dir.Width()) - Coord(c, e.dir.Width())) &&
      Coord(rev, e.dir.Height()) == Coord(fwd, e.dir.Height()) &&
      Coord(rev, e.dir.Fixed()) == Coord(fwd, e.dir.Fixed())
  {
  }

  /**
   * Outside direction 'zy', character `i` of a string laid out forwards is
   * drawn around offset `start + size * i` from the centre along the width
   * axis (see StartOffset): no point of it is further than
   * `0.35 * size` from that offset.
   */
  lemma DrawStringSlot(str: string, box: Box, i: nat, j: nat)
    requires i < |str| && j < |Outline(str[i])|
    requires WidthHeight(box.p1, box.p2).dir != ZY
    ensures var e, c := WidthHeight(box.p1, box.p2), MidPoint(box.p1, box.p2);
      var size := GlyphSize(e, |str|);
      var slot := SlotOffset(StartOffset(|str|, size), size, i);
      var off := Coord(DrawString(str, box, false)[i][j], e.dir.Width()) - Coord(c, e.dir.Width());
      slot - 0.35 * size <= off <= slot + 0.35 * size
  {
    var e, c := WidthHeight(box.p1, box.p2), MidPoint(box.p1, box.p2);
    var size := GlyphSize(e, |str|);
    var start := StartOffset(|str|, size);
    var glyph := DrawChar(str[i], size);
    var d := DrawString(str, box, false);
    assert d[i] == LayoutChar(str[i], e.dir, c, start, size, i, false);
    assert d[i][j] == PlaceGlyphPoint(e.dir, c, Sweep(glyph[j], start, size, i, false), glyph[j].y);
    var sweep := Sweep(glyph[j], start, size, i, false);
    assert sweep == glyph[j].x + SlotOffset(start, size, i);
  }
}
