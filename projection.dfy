/**
 * Projection of 3D shapes on the screen plane (`rotate` and
 * `shapeProjection` of src/helpers/geometries.ts): every vertex is turned
 * about the z, x and y axes in that order, each shape gets the 2D box and
 * depth range of its projected vertices, and the shapes come out ordered by
 * their nearest depth, back to front.
 */
module Projection {
  import opened Wrappers
  import opened Vectors
  import opened Shapes

  /**
   * The trigonometric turn of a non-zero vector (u, v) by the angle r,
   * `(cos(r + a) * d, sin(r + a) * d)` where d is the vector's length and a
   * its angle. Real trigonometry is not available, so the turn is a
   * parameter of the model.
   */
  type Turn = (real, real, real) -> Point

  /** A turn keeps the length of the vector it turns. */
  ghost predicate KeepsLength(turn: Turn) {
    forall u, v, r :: Norm(turn(u, v, r)) == u * u + v * v
  }

  /** The square of the length of a point seen as a vector. */
  function Norm(p: Point): real {
    p.x * p.x + p.y * p.y
  }

  /** `rotate`: a zero angle or a zero vector leaves the vector as it is. */
  function Rotate(u: real, v: real, r: real, turn: Turn): (p: Point)
    ensures r == 0.0 ==> p == Point(u, v)
    ensures u == 0.0 && v == 0.0 ==> p == Point(u, v)
    ensures r != 0.0 && (u != 0.0 || v != 0.0) ==> p == turn(u, v, r)
  {
    if r == 0.0 then Point(u, v)
    else if u == 0.0 && v == 0.0 then Point(u, v)
    else turn(u, v, r)
  }

  /** `projection`: turns by `rZ` in the (y, x) plane, by `rX` in (z, y), then by `rY` in (x, z). */
  function Project(v: Vertex, rX: real, rY: real, rZ: real, turn: Turn): Vertex {
    var yx := Rotate(v.y, v.x, rZ, turn);
    var zy := Rotate(v.z, yx.x, rX, turn);
    var xz := Rotate(yx.y, zy.x, rY, turn);
    Vertex(xz.x, zy.y, xz.y)
  }

  /** With all three angles zero the projection is the identity. */
  lemma ProjectZero(v: Vertex, turn: Turn)
    ensures Project(v, 0.0, 0.0, 0.0, turn) == v
  {
  }

  function SquaredLength(v: Vertex): real {
    v.x * v.x + v.y * v.y + v.z * v.z
  }

  /** When every turn keeps lengths, so does the projection: it is a rotation about the origin. */
  lemma ProjectKeepsLength(v: Vertex, rX: real, rY: real, rZ: real, turn: Turn)
    requires KeepsLength(turn)
    ensures SquaredLength(Project(v, rX, rY, rZ, turn)) == SquaredLength(v)
  {
    var yx := Rotate(v.y, v.x, rZ, turn);
    var zy := Rotate(v.z, yx.x, rX, turn);
    var xz := Rotate(yx.y, zy.x, rY, turn);
    RotateKeepsLength(v.y, v.x, rZ, turn);
    RotateKeepsLength(v.z, yx.x, rX, turn);
    RotateKeepsLength(yx.y, zy.x, rY, turn);
    ThreeTurns(v, yx, zy, xz);
  }

  /** Three turns that each keep length, chained as in `projection`, keep the length of the vertex. */
  lemma ThreeTurns(v: Vertex, yx: Point, zy: Point, xz: Point)
    requires Norm(yx) == v.y * v.y + v.x * v.x
    requires Norm(zy) == v.z * v.z + yx.x * yx.x
    requires Norm(xz) == yx.y * yx.y + zy.x * zy.x
    ensures SquaredLength(Vertex(xz.x, zy.y, xz.y)) == SquaredLength(v)
  {
  }

  lemma RotateKeepsLength(u: real, v: real, r: real, turn: Turn)
    requires KeepsLength(turn)
    ensures Norm(Rotate(u, v, r, turn)) == u * u + v * v
  {
  }

  /** An extended real: the seeds of a minimum and a maximum are `Infinity` and `-Infinity`. */
  datatype Ext = NegInf | Fin(v: real) | PosInf

  /** `Math.min(e, r)` */
  function MinExt(e: Ext, r: real): (m: Ext)
    ensures m.Fin? <==> !e.NegInf?
    ensures m.Fin? ==> m.v <= r && (e.Fin? ==> m.v <= e.v) && (m.v == r || m == e)
  {
    match e
    case NegInf => NegInf
    case Fin(a) => Fin(Min(a, r))
    case PosInf => Fin(r)
  }

  /** `Math.max(e, r)` */
  function MaxExt(e: Ext, r: real): (m: Ext)
    ensures m.Fin? <==> !e.PosInf?
    ensures m.Fin? ==> r <= m.v && (e.Fin? ==> e.v <= m.v) && (m.v == r || m == e)
  {
    match e
    case NegInf => Fin(r)
    case Fin(a) => Fin(Max(a, r))
    case PosInf => PosInf
  }

  /** The running minima and maxima of the three coordinates. */
  datatype Extremes = Extremes(xMin: Ext, xMax: Ext, yMin: Ext, yMax: Ext, zMin: Ext, zMax: Ext)

  const NoExtremes := Extremes(PosInf, NegInf, PosInf, NegInf, PosInf, NegInf)

  function Widen(e: Extremes, v: Vertex): Extremes {
    Extremes(MinExt(e.xMin, v.x), MaxExt(e.xMax, v.x), MinExt(e.yMin, v.y), MaxExt(e.yMax, v.y),
             MinExt(e.zMin, v.z), MaxExt(e.zMax, v.z))
  }

  /** The extremes after visiting `vs` in order. */
  function Scan(vs: seq<Vertex>): Extremes {
    if vs == [] then NoExtremes else Widen(Scan(vs[..|vs| - 1]), vs[|vs| - 1])
  }

  /** Every vertex lies within `e`, on all three axes. */
  predicate Within(e: Extremes, v: Vertex)
    requires e.xMin.Fin? && e.xMax.Fin? && e.yMin.Fin? && e.yMax.Fin? && e.zMin.Fin? && e.zMax.Fin?
  {
    e.xMin.v <= v.x <= e.xMax.v && e.yMin.v <= v.y <= e.yMax.v && e.zMin.v <= v.z <= e.zMax.v
  }

  /**
   * Visiting no vertex leaves the infinite seeds; otherwise all extremes are
   * finite, every vertex lies within them, and the depth extremes are depths
   * of vertices.
   */
  lemma {:induction false} ScanBounds(vs: seq<Vertex>)
    ensures vs == [] ==> Scan(vs) == NoExtremes
    ensures vs != [] ==> var e := Scan(vs);
      && e.xMin.Fin? && e.xMax.Fin? && e.yMin.Fin? && e.yMax.Fin? && e.zMin.Fin? && e.zMax.Fin?
      && (forall i :: 0 <= i < |vs| ==> Within(e, vs[i]))
      && (exists i :: 0 <= i < |vs| && vs[i].z == e.zMin.v)
      && (exists i :: 0 <= i < |vs| && vs[i].z == e.zMax.v)
  {
    if vs != [] {
      var init := vs[..|vs| - 1];
      ScanBounds(init);
      var e := Scan(vs);
      if init != [] {
        var e0 := Scan(init);
        forall i | 0 <= i < |vs|
          ensures Within(e, vs[i])
        {
          if i < |init| {
            assert vs[i] == init[i];
          }
        }
        var lo :| 0 <= lo < |init| && init[lo].z == e0.zMin.v;
        var hi :| 0 <= hi < |init| && init[hi].z == e0.zMax.v;
        assert vs[lo] == init[lo] && vs[hi] == init[hi];
        if e.zMin.v != vs[|vs| - 1].z {
          assert vs[lo].z == e.zMin.v;
        }
        if e.zMax.v != vs[|vs| - 1].z {
          assert vs[hi].z == e.zMax.v;
        }
      }
    }
  }

  /** A box `[[xMin, yMin], [xMax, yMax]]`, whose bounds are infinite when nothing was visited. */
  datatype Frame = Frame(xMin: Ext, yMin: Ext, xMax: Ext, yMax: Ext)

  function FrameOf(e: Extremes): Frame {
    Frame(e.xMin, e.yMin, e.xMax, e.yMax)
  }

  /** A projected shape, in screen coordinates, with its depth range. */
  datatype Projected =
    | RectProjection(fill: string, stroke: string, points: seq<Point>, box: Frame, zMin: Ext, zMax: Ext,
                     adds: Option<seq<Projected>>, gradient: Option<bool>)
    | TextProjection(fill: string, stroke: string, text: seq<seq<Vertex>>, box: Frame, zMin: Ext, zMax: Ext)

  function ProjectPoints(vs: seq<Vertex>, rX: real, rY: real, rZ: real, turn: Turn): (ps: seq<Vertex>)
    ensures |ps| == |vs| && forall i :: 0 <= i < |vs| ==> ps[i] == Project(vs[i], rX, rY, rZ, turn)
  {
    seq(|vs|, i requires 0 <= i < |vs| => Project(vs[i], rX, rY, rZ, turn))
  }

  /** Drops the depth of every vertex. */
  function Flat2D(vs: seq<Vertex>): (ps: seq<Point>)
    ensures |ps| == |vs| && forall i :: 0 <= i < |vs| ==> ps[i] == Point(vs[i].x, vs[i].y)
  {
    seq(|vs|, i requires 0 <= i < |vs| => Point(vs[i].x, vs[i].y))
  }

  /** All the vertices of a string, character after character. */
  function Flatten(text: seq<seq<Vertex>>): seq<Vertex> {
    if text == [] then [] else Flatten(text[..|text| - 1]) + text[|text| - 1]
  }

  /** The projection of one shape; the decorations of a rect are projected and sorted on their own. */
  function ProjectShape(s: Shape, rX: real, rY: real, rZ: real, turn: Turn): (p: Projected)
    decreases s
  {
    match s
    case TextShape(fill, stroke, text, _) =>
      var shapeText := seq(|text|, i requires 0 <= i < |text| => ProjectPoints(text[i], rX, rY, rZ, turn));
      var e := Scan(Flatten(shapeText));
      TextProjection(fill, stroke, shapeText, FrameOf(e), e.zMin, e.zMax)
    case RectShape(fill, stroke, points, adds, gradient) =>
      var projections := ProjectPoints(points, rX, rY, rZ, turn);
      var e := Scan(projections);
      var additional := if adds.Decorated? then Some(ProjectAll(adds.shapes, rX, rY, rZ, turn)) else None;
      RectProjection(fill, stroke, Flat2D(projections), FrameOf(e), e.zMin, e.zMax, additional, gradient)
  }

  /** `shapeProjection`: every shape projected, then sorted by nearest depth. */
  function ProjectAll(shapes: seq<Shape>, rX: real, rY: real, rZ: real, turn: Turn): (out: seq<Projected>)
    ensures Sorted(out) && |out| == |shapes|
    ensures multiset(out) == multiset(seq(|shapes|, i requires 0 <= i < |shapes| => ProjectShape(shapes[i], rX, rY, rZ, turn)))
    decreases Decorated(shapes)
  {
    SortByDepth(seq(|shapes|, i requires 0 <= i < |shapes| => ProjectShape(shapes[i], rX, rY, rZ, turn)))
  }

  /** The extended order: -Infinity below every real, Infinity above. */
  predicate Less(a: Ext, b: Ext) {
    match (a, b)
    case (Fin(x), Fin(y)) => x < y
    case (NegInf, _) => !b.NegInf?
    case (_, PosInf) => !a.PosInf?
    case _ => false
  }

  /**
   * The comparator `v1.zMin - v2.zMin`: a shape goes before another when its
   * nearest depth is smaller. Two infinite depths give NaN, which the sort
   * reads as "not less", the same as equal depths.
   */
  predicate Before(p: Projected, q: Projected) {
    Less(p.zMin, q.zMin)
  }

  predicate Sorted(s: seq<Projected>) {
    forall i, j :: 0 <= i < j < |s| ==> !Before(s[j], s[i])
  }

  /** Puts `x` after every element of the sorted `t` that it does not go before. */
  function Insert(t: seq<Projected>, x: Projected): (r: seq<Projected>)
    requires Sorted(t)
    ensures Sorted(r) && multiset(r) == multiset(t) + multiset{x} && |r| == |t| + 1
    ensures forall e :: e in r ==> e in t || e == x
  {
    if t == [] then [x]
    else if Before(x, t[|t| - 1]) then
      var init := t[..|t| - 1];
      assert t == init + [t[|t| - 1]];
      var r := Insert(init, x);
      InsertBeforeLast(t, x, r);
      r + [t[|t| - 1]]
    else
      assert forall i :: 0 <= i < |t| ==> !Before(x, t[i]) by {
        forall i | 0 <= i < |t| ensures !Before(x, t[i]) {
          LessOrder(x.zMin, t[|t| - 1].zMin, t[i].zMin);
        }
      }
      AppendSorted(t, x);
      t + [x]
  }

  /** The comparator is a strict order. */
  lemma LessOrder(a: Ext, b: Ext, c: Ext)
    ensures !Less(a, a)
    ensures Less(a, b) ==> !Less(b, a)
    ensures Less(a, b) && Less(b, c) ==> Less(a, c)
    ensures !Less(a, b) && !Less(b, c) ==> !Less(a, c)
  {
  }

  /** An element that goes before none of the elements of a sorted sequence can be appended to it. */
  lemma AppendSorted(r: seq<Projected>, last: Projected)
    requires Sorted(r)
    requires forall i :: 0 <= i < |r| ==> !Before(last, r[i])
    ensures Sorted(r + [last])
  {
    var s := r + [last];
    forall i, j | 0 <= i < j < |s|
      ensures !Before(s[j], s[i])
    {
      assert s[i] == r[i];
    }
  }

  /** The last element of a sorted `t` can follow `x`, when `x` goes before it, and every other element. */
  lemma InsertBeforeLast(t: seq<Projected>, x: Projected, r: seq<Projected>)
    requires Sorted(t) && Sorted(r) && t != [] && Before(x, t[|t| - 1])
    requires forall e :: e in r ==> e in t[..|t| - 1] || e == x
    ensures Sorted(r + [t[|t| - 1]])
  {
    var last := t[|t| - 1];
    forall i | 0 <= i < |r|
      ensures !Before(last, r[i])
    {
      assert r[i] in r;
      if r[i] == x {
        LessOrder(x.zMin, last.zMin, x.zMin);
      } else {
        var k :| 0 <= k < |t| - 1 && t[k] == r[i];
      }
    }
    AppendSorted(r, last);
  }

  /** `Array.prototype.sort` with the depth comparator: a stable sort. */
  function SortByDepth(s: seq<Projected>): (r: seq<Projected>)
    ensures Sorted(r) && multiset(r) == multiset(s) && |r| == |s|
  {
    if s == [] then []
    else
      var init := s[..|s| - 1];
      assert s == init + [s[|s| - 1]];
      Insert(SortByDepth(init), s[|s| - 1])
  }

  /** The elements of `s` whose nearest depth is `k`, in order. */
  function AtDepth(s: seq<Projected>, k: Ext): seq<Projected> {
    if s == [] then [] else AtDepth(s[..|s| - 1], k) + Keep(s[|s| - 1], k)
  }

  function Keep(p: Projected, k: Ext): seq<Projected> {
    if p.zMin == k then [p] else []
  }

  lemma AtDepthAppend(r: seq<Projected>, p: Projected, k: Ext)
    ensures AtDepth(r + [p], k) == AtDepth(r, k) + Keep(p, k)
  {
    assert (r + [p])[..|r|] == r;
  }

  lemma {:induction false} InsertStable(t: seq<Projected>, x: Projected, k: Ext)
    requires Sorted(t)
    ensures AtDepth(Insert(t, x), k) == AtDepth(t, k) + Keep(x, k)
  {
    if t == [] {
      AtDepthAppend([], x, k);
    } else if Before(x, t[|t| - 1]) {
      var init, last := t[..|t| - 1], t[|t| - 1];
      InsertStable(init, x, k);
      InsertStableBefore(t, x, k, Insert(init, x));
    } else {
      AtDepthAppend(t, x, k);
    }
  }

  /** The inductive step of `InsertStable` when `x` goes before the last element. */
  lemma {:induction false} InsertStableBefore(t: seq<Projected>, x: Projected, k: Ext, r: seq<Projected>)
    requires t != [] && Before(x, t[|t| - 1])
    requires AtDepth(r, k) == AtDepth(t[..|t| - 1], k) + Keep(x, k)
    ensures AtDepth(r + [t[|t| - 1]], k) == AtDepth(t, k) + Keep(x, k)
  {
    var init, last := t[..|t| - 1], t[|t| - 1];
    AtDepthAppend(r, last, k);
    var a := AtDepth(init, k);
    if x.zMin == k {
      LessOrder(k, last.zMin, k);
      assert AtDepth(t, k) == a + [];
      assert AtDepth(r + [last], k) == a + [x] + [];
    } else {
      assert AtDepth(r + [last], k) == a + [] + Keep(last, k);
    }
  }

  /** The sort is stable: shapes of equal nearest depth keep their order. */
  lemma {:induction false} SortByDepthStable(s: seq<Projected>, k: Ext)
    ensures AtDepth(SortByDepth(s), k) == AtDepth(s, k)
  {
    if s != [] {
      var init := s[..|s| - 1];
      SortByDepthStable(init, k);
      InsertStable(SortByDepth(init), s[|s| - 1], k);
    }
  }

  lemma ScanAppend(vs: seq<Vertex>, v: Vertex)
    ensures Scan(vs + [v]) == Widen(Scan(vs), v)
  {
    assert (vs + [v])[..|vs|] == vs;
  }

  lemma FlattenPrefix(text: seq<seq<Vertex>>, c: nat)
    requires c < |text|
    ensures Flatten(text[..c + 1]) == Flatten(text[..c]) + text[c]
  {
    assert text[..c + 1][..c] == text[..c];
  }

  /** The loops of `shapeProjection` over the characters of a string and their vertices. */
  method ScanText(shapeText: seq<seq<Vertex>>) returns (e: Extremes)
    ensures e == Scan(Flatten(shapeText))
  {
    e := NoExtremes;
    for c := 0 to |shapeText|
      invariant e == Scan(Flatten(shapeText[..c]))
    {
      var charPoints := shapeText[c];
      ghost var before := Flatten(shapeText[..c]);
      assert before + charPoints[..0] == before;
      for j := 0 to |charPoints|
        invariant e == Scan(before + charPoints[..j])
      {
        ScanAppend(before + charPoints[..j], charPoints[j]);
        assert before + charPoints[..j + 1] == before + charPoints[..j] + [charPoints[j]];
        e := Widen(e, charPoints[j]);
      }
      assert charPoints[..|charPoints|] == charPoints;
      FlattenPrefix(shapeText, c);
    }
    assert shapeText[..|shapeText|] == shapeText;
  }

  /** The loop of `shapeProjection` over the projected vertices of a face. */
  method ScanFace(projections: seq<Vertex>) returns (points: seq<Point>, e: Extremes)
    ensures points == Flat2D(projections) && e == Scan(projections)
  {
    points := [];
    e := NoExtremes;
    for i := 0 to |projections|
      invariant points == Flat2D(projections[..i])
      invariant e == Scan(projections[..i])
    {
      var v := projections[i];
      ScanAppend(projections[..i], v);
      assert projections[..i + 1] == projections[..i] + [v];
      points := points + [Point(v.x, v.y)];
      e := Widen(e, v);
    }
    assert projections[..|projections|] == projections;
  }

  /** One shape of `shapeProjection`; the decorations of a face are projected and sorted on their own. */
  method ProjectOne(shape: Shape, rX: real, rY: real, rZ: real, turn: Turn) returns (p: Projected)
    ensures p == ProjectShape(shape, rX, rY, rZ, turn)
    decreases shape
  {
    match shape
    case TextShape(fill, stroke, text, _) =>
      var shapeText := seq(|text|, i requires 0 <= i < |text| => ProjectPoints(text[i], rX, rY, rZ, turn));
      var e := ScanText(shapeText);
      p := TextProjection(fill, stroke, shapeText, FrameOf(e), e.zMin, e.zMax);
    case RectShape(fill, stroke, points, adds, gradient) =>
      var projections := ProjectPoints(points, rX, rY, rZ, turn);
      var flat, e := ScanFace(projections);
      var additional := None;
      if adds.Decorated? {
        var nested := ShapeProjection(adds.shapes, rX, rY, rZ, turn);
        additional := Some(nested);
      }
      p := RectProjection(fill, stroke, flat, FrameOf(e), e.zMin, e.zMax, additional, gradient);
  }

  /** `shapeProjection`: projects every shape, then sorts them by nearest depth. */
  method ShapeProjection(shapes: seq<Shape>, rX: real, rY: real, rZ: real, turn: Turn) returns (out: seq<Projected>)
    ensures out == ProjectAll(shapes, rX, rY, rZ, turn)
    decreases Decorated(shapes)
  {
    var projections: seq<Projected> := [];
    for i := 0 to |shapes|
      invariant |projections| == i
      invariant forall j :: 0 <= j < i ==> projections[j] == ProjectShape(shapes[j], rX, rY, rZ, turn)
    {
      var p := ProjectOne(shapes[i], rX, rY, rZ, turn);
      projections := projections + [p];
    }
    assert projections == seq(|shapes|, i requires 0 <= i < |shapes| => ProjectShape(shapes[i], rX, rY, rZ, turn));
    out := SortByDepth(projections);
  }

  /**
   * A projected face keeps one screen point per vertex, its box holds every
   * point, and its depth range is spanned by the depths of its vertices.
   */
  lemma ProjectedRectBounds(s: Shape, rX: real, rY: real, rZ: real, turn: Turn)
    requires s.RectShape? && s.points != []
    ensures var p, vs := ProjectShape(s, rX, rY, rZ, turn), ProjectPoints(s.points, rX, rY, rZ, turn);
      && |p.points| == |s.points|
      && p.box.xMin.Fin? && p.box.xMax.Fin? && p.box.yMin.Fin? && p.box.yMax.Fin? && p.zMin.Fin? && p.zMax.Fin?
      && (forall i :: 0 <= i < |p.points| ==>
            p.box.xMin.v <= p.points[i].x <= p.box.xMax.v && p.box.yMin.v <= p.points[i].y <= p.box.yMax.v)
      && (forall i :: 0 <= i < |vs| ==> p.zMin.v <= vs[i].z <= p.zMax.v)
      && (exists i :: 0 <= i < |vs| && vs[i].z == p.zMin.v)
  {
    var vs := ProjectPoints(s.points, rX, rY, rZ, turn);
    ScanBounds(vs);
    var e := Scan(vs);
    assert forall i :: 0 <= i < |vs| ==> Within(e, vs[i]);
  }

  /** A string with no vertices at all (an empty or unsupported text) keeps the infinite seeds. */
  lemma ProjectedEmptyText(s: Shape, rX: real, rY: real, rZ: real, turn: Turn)
    requires s.TextShape? && forall c :: 0 <= c < |s.text| ==> s.text[c] == []
    ensures var p := ProjectShape(s, rX, rY, rZ, turn);
      p.zMin == PosInf && p.zMax == NegInf && p.box == Frame(PosInf, PosInf, NegInf, NegInf)
  {
    var shapeText := seq(|s.text|, i requires 0 <= i < |s.text| => ProjectPoints(s.text[i], rX, rY, rZ, turn));
    FlattenEmpty(shapeText);
  }

  lemma {:induction false} FlattenEmpty(text: seq<seq<Vertex>>)
    requires forall c :: 0 <= c < |text| ==> text[c] == []
    ensures Flatten(text) == []
  {
    if text != [] {
      FlattenEmpty(text[..|text| - 1]);
    }
  }

  /** With no rotation a face projects onto its own x and y coordinates. */
  lemma ProjectShapeZero(s: Shape, turn: Turn)
    requires s.RectShape?
    ensures ProjectShape(s, 0.0, 0.0, 0.0, turn).points == Flat2D(s.points)
  {
    var vs := ProjectPoints(s.points, 0.0, 0.0, 0.0, turn);
    forall i | 0 <= i < |vs| ensures vs[i] == s.points[i] {
      ProjectZero(s.points[i], turn);
    }
    assert vs == s.points;
  }
}
