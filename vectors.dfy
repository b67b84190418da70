/**
 * Vertices, axes and the classification of a face's two varying axes
 * (`midPoint` and `widthHeight` of src/helpers/geometries.ts).
 */
module Vectors {

  /** A point of model space, `[x, y, z]`. */
  datatype Vertex = Vertex(x: real, y: real, z: real)

  /** A point of the drawing surface, or of a glyph outline, `[x, y]`. */
  datatype Point = Point(x: real, y: real)

  /** Two opposite corners, `[Vertex, Vertex]`. */
  datatype Box = Box(p1: Vertex, p2: Vertex)

  datatype Axis = X | Y | Z

  function Coord(v: Vertex, axis: Axis): real {
    match axis
    case X => v.x
    case Y => v.y
    case Z => v.z
  }

  /**
   * The six directions 'xy', 'xz', 'yx', 'yz', 'zx', 'zy': the first letter
   * names the axis along which a face is wider ("width"), the second the axis
   * along which it is narrower ("height"); the third axis is fixed.
   */
  datatype Direction = XY | XZ | YX | YZ | ZX | ZY {

    function Width(): Axis {
      match this
      case XY | XZ => X
      case YX | YZ => Y
      case ZX | ZY => Z
    }

    function Height(): Axis {
      match this
      case YX | ZX => X
      case XY | ZY => Y
      case XZ | YZ => Z
    }

    function Fixed(): (a: Axis)
      ensures a != Width() && a != Height() && Width() != Height()
    {
      match this
      case YZ | ZY => X
      case XZ | ZX => Y
      case XY | YX => Z
    }
  }

  function Abs(r: real): real {
    if r < 0.0 then -r else r
  }

  function Max(a: real, b: real): real {
    if a < b then b else a
  }

  function Min(a: real, b: real): real {
    if a < b then a else b
  }

  /** How far apart two vertices are along one axis. */
  function Delta(a: Vertex, b: Vertex, axis: Axis): real {
    Abs(Coord(b, axis) - Coord(a, axis))
  }

  /** A face lies in a coordinate plane: its corners agree on at least one axis. */
  predicate AxisAligned(a: Vertex, b: Vertex) {
    a.x == b.x || a.y == b.y || a.z == b.z
  }

  /** `midPoint`: the vertex halfway between `p1` and `p2` on every axis. */
  function MidPoint(p1: Vertex, p2: Vertex): (m: Vertex)
    ensures forall axis :: Coord(m, axis) - Coord(p1, axis) == Coord(p2, axis) - Coord(m, axis)
  {
    Vertex((p1.x + p2.x) / 2.0, (p1.y + p2.y) / 2.0, (p1.z + p2.z) / 2.0)
  }

  lemma MidPointSymmetric(a: Vertex, b: Vertex)
    ensures MidPoint(a, b) == MidPoint(b, a)
  {
  }

  /** The width, height and direction of the face spanned by two corners. */
  datatype Extent = Extent(w: real, h: real, dir: Direction)

  /**
   * `widthHeight`: `dy == 0` is tested first, then `dx == 0`, otherwise the
   * x/y pair is used; the wider of the two axes is the width. On a tie the
   * alphabetically first axis is the width: 'zx', 'zy' and 'yx' are chosen only
   * when the other axis is strictly narrower.
   */
  function WidthHeight(a: Vertex, b: Vertex): (e: Extent)
    ensures e.w == Delta(a, b, e.dir.Width()) && e.h == Delta(a, b, e.dir.Height())
    ensures 0.0 <= e.h <= e.w
    ensures a.y == b.y ==> e.dir == XZ || e.dir == ZX
    ensures a.y != b.y && a.x == b.x ==> e.dir == YZ || e.dir == ZY
    ensures a.y != b.y && a.x != b.x ==> e.dir == XY || e.dir == YX
    ensures e.dir == ZX ==> Delta(a, b, X) < Delta(a, b, Z)
    ensures e.dir == ZY ==> Delta(a, b, Y) < Delta(a, b, Z)
    ensures e.dir == YX ==> Delta(a, b, X) < Delta(a, b, Y)
    ensures AxisAligned(a, b) ==> Coord(a, e.dir.Fixed()) == Coord(b, e.dir.Fixed())
  {
    var dx := Abs(b.x - a.x);
    var dy := Abs(b.y - a.y);
    var dz := Abs(b.z - a.z);
    if dy == 0.0 then
      Extent(Max(dx, dz), Min(dx, dz), if dx < dz then ZX else XZ)
    else if dx == 0.0 then
      Extent(Max(dy, dz), Min(dy, dz), if dy < dz then ZY else YZ)
    else
      Extent(Max(dx, dy), Min(dx, dy), if dx < dy then YX else XY)
  }
}
