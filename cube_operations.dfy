/**
 * Conversions between the complete cube format and the compact format of
 * InsideWeCube (src/utils/cubeOperations.ts).
 */
module CubeOperations {
  import opened Wrappers

  /** `CellPosition`: column `x`, row `y`, level `z`. */
  datatype Position = Position(x: int, y: int, z: int)

  /** A position as an object, or as the `[row, column, level]` triple of the compact format. */
  datatype Location = At(pos: Position) | Triple(row: int, col: int, level: int)

  /**
   * A cell: no wall on the right (`r`), no wall below (`d`), a hole to the
   * level beneath (`b`), and a special mark `s`. An absent field is `None`;
   * the compact format's `1` is `Some(true)`.
   */
  datatype Cell = Cell(r: Option<bool>, d: Option<bool>, b: Option<bool>, s: Option<int>)

  /** A level: a name, an optional comment, rows of cells, and whether it has a lid. */
  datatype Level = Level(name: string, cmt: Option<string>, cells: seq<seq<Cell>>, lid: Option<bool>)

  /** Any cube (`AllCubes`): complete cubes have both ends as objects, compact ones as triples or not at all. */
  datatype Cube = Cube(name: string, color: string, levels: seq<Level>, start: Option<Location>, end: Option<Location>)

  /** `CellPosition` of a location: the triple swaps row and column. */
  function PositionOf(l: Location): (p: Position)
    ensures l.Triple? ==> p == Position(l.col, l.row, l.level)
  {
    match l
    case At(p) => p
    case Triple(row, col, level) => Position(col, row, level)
  }

  /** The `[row, column, level]` triple of a position. */
  function TripleOf(p: Position): (l: Location)
    ensures l.Triple? && PositionOf(l) == p
  {
    Triple(p.y, p.x, p.z)
  }

  /** `!!flag`: an absent flag reads as false. */
  function Truthy(flag: Option<bool>): bool {
    flag == Some(true)
  }

  /** The number of levels, rows and cells per row of a new cube. */
  datatype Dimensions = Dimensions(levels: nat, rows: nat, cells: nat)

  /** Two grids have the same number of rows and the same number of cells in each row. */
  predicate SameShape(a: seq<seq<Cell>>, b: seq<seq<Cell>>) {
    |a| == |b| && forall i :: 0 <= i < |a| ==> |a[i]| == |b[i]|
  }

  /** Two cubes have the same levels, rows and cells. */
  predicate SameGrid(c: Cube, d: Cube) {
    |c.levels| == |d.levels| && forall k :: 0 <= k < |c.levels| ==> SameShape(c.levels[k].cells, d.levels[k].cells)
  }

  /** `copyCube`: a deep copy in which `lid` becomes a boolean. */
  function CopyCube(c: Cube): (r: Cube)
    requires c.start.Some? && c.start.value.At? && c.end.Some? && c.end.value.At?
    ensures r.name == c.name && r.color == c.color && r.start == c.start && r.end == c.end
    ensures |r.levels| == |c.levels|
    ensures forall k :: 0 <= k < |c.levels| ==>
      r.levels[k] == c.levels[k].(lid := Some(Truthy(c.levels[k].lid)))
  {
    c.(levels := seq(|c.levels|, k requires 0 <= k < |c.levels| =>
      c.levels[k].(lid := Some(Truthy(c.levels[k].lid)))))
  }

  /** A second copy is the same as the first one. */
  lemma CopyCubeIdempotent(c: Cube)
    requires c.start.Some? && c.start.value.At? && c.end.Some? && c.end.value.At?
    ensures CopyCube(CopyCube(c)) == CopyCube(c)
  {
  }

  /** Decimal digits. */
  predicate IsDigits(s: string) {
    forall i :: 0 <= i < |s| ==> '0' <= s[i] <= '9'
  }

  function DecimalValue(s: string): nat
    requires IsDigits(s)
  {
    if s == [] then 0 else DecimalValue(s[..|s| - 1]) * 10 + (s[|s| - 1] as int - '0' as int)
  }

  /** The decimal numeral of `n`, as a template literal writes it. */
  function NatToString(n: nat): (s: string)
    ensures 1 <= |s| && IsDigits(s) && DecimalValue(s) == n
  {
    if n < 10 then [('0' as int + n) as char]
    else
      var s := NatToString(n / 10) + [('0' as int + n % 10) as char];
      assert s[..|s| - 1] == NatToString(n / 10);
      s
  }

  /** The name of level `k`, counted from 0. */
  function LevelName(k: nat): string {
    "Level " + NatToString(k + 1)
  }

  /** Different levels get different names. */
  lemma LevelNamesDistinct(k: nat, m: nat)
    requires k != m
    ensures LevelName(k) != LevelName(m)
  {
    assert LevelName(k)[6..] == NatToString(k + 1);
    assert LevelName(m)[6..] == NatToString(m + 1);
  }

  const EmptyCell := Cell(None, None, None, None)

  /** The default start, column 1 and row 1 of level 0. */
  const DefaultStart := Position(1, 1, 0)

  /**
   * `createNewCube`: `levels` levels of `rows` rows of `cells` empty cells;
   * only the last level has a lid; the path goes from the default start to
   * the cell one from the far corner of the last level.
   */
  function CreateNewCube(dims: Dimensions): (c: Cube)
    ensures c.name == "" && c.color == "#000000"
    ensures c.start == Some(At(DefaultStart))
    ensures c.end == Some(At(Position(dims.cells - 2, dims.rows - 2, dims.levels - 1)))
    ensures |c.levels| == dims.levels
    ensures forall k :: 0 <= k < dims.levels ==>
      var level := c.levels[k];
      && level.name == LevelName(k) && level.cmt.None? && level.lid == Some(k == dims.levels - 1)
      && |level.cells| == dims.rows
      && forall i :: 0 <= i < dims.rows ==> level.cells[i] == seq(dims.cells, j => EmptyCell)
  {
    var row := seq(dims.cells, j => EmptyCell);
    Cube("", "#000000", seq(dims.levels, k requires 0 <= k < dims.levels =>
           Level(LevelName(k), None, seq(dims.rows, i => row), Some(k == dims.levels - 1))),
         Some(At(DefaultStart)),
         Some(At(Position(dims.cells - 2, dims.rows - 2, dims.levels - 1))))
  }

  /** The legacy colour names and their hexadecimal values (`mapColor`). */
  const LegacyColors: map<string, string> := map[
    "black" := "#222623", "blue" := "#3060e0", "brown" := "#8b4513",
    "crystal" := "#ffffff", "green" := "#32cd32", "orange" := "#ff8d1e",
    "red" := "#ff0000", "yellow" := "#ffff00", "pink" := "#ff1493"]

  /** `fromColor`: a legacy colour name becomes its value; anything else is kept. */
  function FromColor(color: string): (r: string)
    ensures color in LegacyColors ==> r == LegacyColors[color]
    ensures color !in LegacyColors ==> r == color
  {
    if color in LegacyColors then LegacyColors[color] else color
  }

  /** Converting a colour twice is converting it once: no legacy value is itself a legacy name. */
  lemma FromColorIdempotent(color: string)
    ensures FromColor(color) !in LegacyColors || FromColor(color) == color
    ensures FromColor(FromColor(color)) == FromColor(color)
  {
  }

  /** The end a cube takes by default: two cells and two rows before level 0's size, on the last level. */
  function DefaultEnd(c: Cube): Position
    requires |c.levels| > 0 && |c.levels[0].cells| > 0
  {
    Position(|c.levels[0].cells[0]| - 2, |c.levels[0].cells| - 2, |c.levels| - 1)
  }

  /** The cube's end, or the default one when it has none. */
  predicate HasDefaultEnd(c: Cube) {
    c.end.Some? || (|c.levels| > 0 && |c.levels[0].cells| > 0)
  }

  /** A cell of the complete format: every flag `!!flag`, the mark copied. */
  function CompleteCell(cell: Cell): (r: Cell)
    ensures r.r == Some(Truthy(cell.r)) && r.d == Some(Truthy(cell.d)) && r.b == Some(Truthy(cell.b))
    ensures r.s == cell.s
  {
    Cell(Some(Truthy(cell.r)), Some(Truthy(cell.d)), Some(Truthy(cell.b)), cell.s)
  }

  /** A level of the complete format: name and comment copied, the lid `!!lid`, every cell completed. */
  function CompleteLevel(level: Level): (r: Level)
    ensures r.name == level.name && r.cmt == level.cmt && r.lid == Some(Truthy(level.lid))
    ensures SameShape(r.cells, level.cells)
    ensures forall i, j :: 0 <= i < |level.cells| && 0 <= j < |level.cells[i]| ==>
      r.cells[i][j] == CompleteCell(level.cells[i][j])
  {
    var cells := level.cells;
    Level(level.name, level.cmt,
          seq(|cells|, i requires 0 <= i < |cells| =>
            seq(|cells[i]|, j requires 0 <= j < |cells[i]| => CompleteCell(cells[i][j]))),
          Some(Truthy(level.lid)))
  }

  /** Every field of a complete cube is present: both ends as objects, every flag and lid as a boolean. */
  predicate IsComplete(c: Cube) {
    && c.start.Some? && c.start.value.At? && c.end.Some? && c.end.value.At?
    && forall k :: 0 <= k < |c.levels| ==>
         var level := c.levels[k];
         && level.lid.Some?
         && forall i, j :: 0 <= i < |level.cells| && 0 <= j < |level.cells[i]| ==>
              level.cells[i][j].r.Some? && level.cells[i][j].d.Some? && level.cells[i][j].b.Some?
  }

  /**
   * `toCompleteCube`: a missing start becomes the default start and a missing
   * end the default end (which needs a first level with a row); triples
   * become objects; flags and lids become booleans; legacy colour names
   * become their values.
   */
  function ToCompleteCube(c: Cube): (r: Cube)
    requires HasDefaultEnd(c)
    ensures IsComplete(r) && SameGrid(r, c)
    ensures r.name == c.name && r.color == FromColor(c.color)
    ensures r.start == Some(At(if c.start.None? then DefaultStart else PositionOf(c.start.value)))
    ensures r.end == Some(At(if c.end.None? then DefaultEnd(c) else PositionOf(c.end.value)))
    ensures forall k :: 0 <= k < |c.levels| ==> r.levels[k] == CompleteLevel(c.levels[k])
  {
    var start := if c.start.None? then DefaultStart else PositionOf(c.start.value);
    var end := if c.end.None? then DefaultEnd(c) else PositionOf(c.end.value);
    Cube(c.name, FromColor(c.color),
         seq(|c.levels|, k requires 0 <= k < |c.levels| => CompleteLevel(c.levels[k])),
         Some(At(start)), Some(At(end)))
  }

  /** Keeps a flag only when it is set, as the compact `1`. */
  function Flag(flag: Option<bool>): Option<bool> {
    if Truthy(flag) then Some(true) else None
  }

  /** A cell of the compact format: a flag only when set, the mark only when non-zero. */
  function SimplifyCell(cell: Cell): (r: Cell)
    ensures CompactCell(r)
    ensures (r.r.Some? <==> Truthy(cell.r)) && (r.d.Some? <==> Truthy(cell.d)) && (r.b.Some? <==> Truthy(cell.b))
    ensures (r.s.Some? <==> cell.s.Some? && cell.s.value != 0) && (r.s.Some? ==> r.s == cell.s)
  {
    Cell(Flag(cell.r), Flag(cell.d), Flag(cell.b), if cell.s.Some? && cell.s.value != 0 then cell.s else None)
  }

  /**
   * A level of the compact format: the name copied, the comment only when
   * non-empty, the lid only when set, every cell simplified.
   */
  function SimplifyLevel(level: Level): (r: Level)
    ensures r.name == level.name
    ensures (r.cmt.Some? <==> level.cmt.Some? && level.cmt.value != "") && (r.cmt.Some? ==> r.cmt == level.cmt)
    ensures (r.lid.Some? <==> Truthy(level.lid)) && (r.lid.Some? ==> r.lid == Some(true))
    ensures SameShape(r.cells, level.cells)
    ensures forall i, j :: 0 <= i < |level.cells| && 0 <= j < |level.cells[i]| ==>
      r.cells[i][j] == SimplifyCell(level.cells[i][j])
  {
    var cells := level.cells;
    Level(level.name, if level.cmt.Some? && level.cmt.value != "" then level.cmt else None,
          seq(|cells|, i requires 0 <= i < |cells| =>
            seq(|cells[i]|, j requires 0 <= j < |cells[i]| => SimplifyCell(cells[i][j]))),
          Flag(level.lid))
  }

  /** The compact form of a location: omitted when it equals `omitted`, a triple otherwise. */
  function Compact(l: Option<Location>, omitted: Position): (r: Option<Location>)
    ensures r.None? <==> l.None? || PositionOf(l.value) == omitted
    ensures r.Some? ==> r.value.Triple? && PositionOf(r.value) == PositionOf(l.value)
  {
    if l.None? || PositionOf(l.value) == omitted then None else Some(TripleOf(PositionOf(l.value)))
  }

  /**
   * The compact form in which a start equal to `omittedStart` is left out:
   * flags and lids only when set, a mark only when non-zero, a comment only
   * when non-empty, and an end only when it differs from the default end.
   */
  function Simplify(c: Cube, omittedStart: Position): (r: Cube)
    requires c.end.Some? ==> |c.levels| > 0 && |c.levels[0].cells| > 0
    ensures SameGrid(r, c) && IsCompact(r)
    ensures r.name == c.name && r.color == c.color
    ensures r.start == Compact(c.start, omittedStart)
    ensures c.end.Some? ==> r.end == Compact(c.end, DefaultEnd(c))
    ensures c.end.None? ==> r.end.None?
    ensures forall k :: 0 <= k < |c.levels| ==> r.levels[k] == SimplifyLevel(c.levels[k])
  {
    Cube(c.name, c.color,
         seq(|c.levels|, k requires 0 <= k < |c.levels| => SimplifyLevel(c.levels[k])),
         Compact(c.start, omittedStart),
         if c.end.None? then None else Compact(c.end, DefaultEnd(c)))
  }

  /** Every field of a compact cube is either left out or carries information. */
  predicate IsCompact(c: Cube) {
    && (c.start.Some? ==> c.start.value.Triple?) && (c.end.Some? ==> c.end.value.Triple?)
    && forall k :: 0 <= k < |c.levels| ==>
         var level := c.levels[k];
         && (level.lid.Some? ==> level.lid == Some(true))
         && (level.cmt.Some? ==> level.cmt.value != "")
         && forall i, j :: 0 <= i < |level.cells| && 0 <= j < |level.cells[i]| ==>
              CompactCell(level.cells[i][j])
  }

  predicate CompactCell(cell: Cell) {
    && (cell.r.Some? ==> cell.r == Some(true)) && (cell.d.Some? ==> cell.d == Some(true))
    && (cell.b.Some? ==> cell.b == Some(true)) && (cell.s.Some? ==> cell.s.value != 0)
  }

  /** `toSimplifiedCube` as written: a start is left out when it is (1, 1, 1). */
  function ToSimplifiedCube(c: Cube): (r: Cube)
    requires c.end.Some? ==> |c.levels| > 0 && |c.levels[0].cells| > 0
    ensures SameGrid(r, c) && IsCompact(r)
    ensures r.start == Compact(c.start, Position(1, 1, 1))
  {
    Simplify(c, Position(1, 1, 1))
  }

  /** `toSimplifiedCube` leaving out the start `toCompleteCube` restores, (1, 1, 0). */
  function ToSimplifiedCubeCorrected(c: Cube): (r: Cube)
    requires c.end.Some? ==> |c.levels| > 0 && |c.levels[0].cells| > 0
    ensures SameGrid(r, c) && IsCompact(r)
    ensures r.start == Compact(c.start, DefaultStart)
  {
    Simplify(c, DefaultStart)
  }

  /** A mark of 0 is left out of the compact format. */
  function NonZero(s: Option<int>): Option<int> {
    if s.Some? && s.value != 0 then s else None
  }

  /** A cell through the compact format and back: flags become booleans, a zero mark is lost. */
  lemma CellRoundTrip(cell: Cell)
    ensures CompleteCell(SimplifyCell(cell)) == Cell(Some(Truthy(cell.r)), Some(Truthy(cell.d)), Some(Truthy(cell.b)), NonZero(cell.s))
    ensures CompactCell(cell) ==> SimplifyCell(CompleteCell(cell)) == cell
  {
  }

  /** A level through the compact format and back. */
  lemma {:induction false} LevelRoundTrip(level: Level)
    ensures var r := CompleteLevel(SimplifyLevel(level));
      && r.name == level.name && SameShape(r.cells, level.cells)
      && r.cmt == (if level.cmt.Some? && level.cmt.value != "" then level.cmt else None)
      && r.lid == Some(Truthy(level.lid))
      && forall i, j :: 0 <= i < |level.cells| && 0 <= j < |level.cells[i]| ==>
           r.cells[i][j] == CompleteCell(SimplifyCell(level.cells[i][j]))
  {
  }

  /**
   * The round trip through the compact format as written keeps the grid,
   * every flag, every non-zero mark, every lid and non-empty comment, and the
   * end; the start too, except that (1, 1, 1) comes back as (1, 1, 0).
   */
  lemma RoundTrip(c: Cube)
    requires |c.levels| > 0 && |c.levels[0].cells| > 0
    ensures var r, full := ToCompleteCube(ToSimplifiedCube(c)), ToCompleteCube(c);
      && SameGrid(r, c) && r.name == c.name && r.color == full.color
      && (forall k :: 0 <= k < |c.levels| ==> r.levels[k] == CompleteLevel(SimplifyLevel(c.levels[k])))
      && r.end == full.end
      && (full.start != Some(At(Position(1, 1, 1))) ==> r.start == full.start)
      && (full.start == Some(At(Position(1, 1, 1))) ==> r.start == Some(At(DefaultStart)))
  {
    var simple := ToSimplifiedCube(c);
    assert DefaultEnd(simple) == DefaultEnd(c);
  }

  /** The cube that shows the start lost by the round trip as written. */
  const StartAtLevelOne := Cube("", "#000000", [Level("Level 1", None, [[EmptyCell]], None)], Some(At(Position(1, 1, 1))), None)

  lemma StartLostAsWritten()
    ensures ToCompleteCube(ToSimplifiedCube(StartAtLevelOne)).start == Some(At(Position(1, 1, 0)))
    ensures ToCompleteCube(StartAtLevelOne).start == Some(At(Position(1, 1, 1)))
  {
    RoundTrip(StartAtLevelOne);
  }

  /** Leaving out the start `toCompleteCube` restores, the round trip keeps every start and end. */
  lemma RoundTripCorrected(c: Cube)
    requires |c.levels| > 0 && |c.levels[0].cells| > 0
    ensures var r, full := ToCompleteCube(ToSimplifiedCubeCorrected(c)), ToCompleteCube(c);
      && SameGrid(r, c) && r.name == c.name && r.color == full.color
      && (forall k :: 0 <= k < |c.levels| ==> r.levels[k] == CompleteLevel(SimplifyLevel(c.levels[k])))
      && r.start == full.start && r.end == full.end
  {
    var simple := ToSimplifiedCubeCorrected(c);
    assert DefaultEnd(simple) == DefaultEnd(c);
  }

  /**
   * A compact cube in which nothing is redundant (no legacy colour name, no
   * end at the default) and whose start is given and not at (1, 1, 1) comes
   * back unchanged from the complete format as written. A compact cube
   * without a start comes back with the start [1, 1, 0].
   */
  lemma CompactRoundTrip(c: Cube)
    requires IsCompact(c) && |c.levels| > 0 && |c.levels[0].cells| > 0
    requires c.color !in LegacyColors
    requires c.end.Some? ==> PositionOf(c.end.value) != DefaultEnd(c)
    ensures c.start.Some? && PositionOf(c.start.value) != Position(1, 1, 1) ==> ToSimplifiedCube(ToCompleteCube(c)) == c
    ensures c.start.None? ==> ToSimplifiedCube(ToCompleteCube(c)) == c.(start := Some(Triple(1, 1, 0)))
  {
    CompactLevelsRoundTrip(c);
  }

  /** With the corrected start, every compact cube in which nothing is redundant comes back unchanged. */
  lemma CompactRoundTripCorrected(c: Cube)
    requires IsCompact(c) && |c.levels| > 0 && |c.levels[0].cells| > 0
    requires c.color !in LegacyColors
    requires c.start.Some? ==> PositionOf(c.start.value) != DefaultStart
    requires c.end.Some? ==> PositionOf(c.end.value) != DefaultEnd(c)
    ensures ToSimplifiedCubeCorrected(ToCompleteCube(c)) == c
  {
    CompactLevelsRoundTrip(c);
  }

  lemma CompactLevelsRoundTrip(c: Cube)
    requires IsCompact(c) && |c.levels| > 0 && |c.levels[0].cells| > 0
    ensures var full := ToCompleteCube(c);
      |full.levels| > 0 && |full.levels[0].cells| > 0 && DefaultEnd(full) == DefaultEnd(c)
      && seq(|full.levels|, k requires 0 <= k < |full.levels| => SimplifyLevel(full.levels[k])) == c.levels
  {
    var full := ToCompleteCube(c);
    forall k | 0 <= k < |c.levels|
      ensures SimplifyLevel(full.levels[k]) == c.levels[k]
    {
      CompactLevelRoundTrip(c.levels[k]);
    }
  }

  lemma CompactLevelRoundTrip(level: Level)
    requires level.lid.Some? ==> level.lid == Some(true)
    requires level.cmt.Some? ==> level.cmt.value != ""
    requires forall i, j :: 0 <= i < |level.cells| && 0 <= j < |level.cells[i]| ==> CompactCell(level.cells[i][j])
    ensures SimplifyLevel(CompleteLevel(level)) == level
  {
    var r := SimplifyLevel(CompleteLevel(level));
    forall i | 0 <= i < |level.cells|
      ensures r.cells[i] == level.cells[i]
    {
      forall j | 0 <= j < |level.cells[i]|
        ensures r.cells[i][j] == level.cells[i][j]
      {
        CellRoundTrip(level.cells[i][j]);
      }
    }
    assert r.cells == level.cells;
  }

  /** Completing a complete cube changes nothing but its legacy colour name, which was already converted. */
  lemma ToCompleteCubeIdempotent(c: Cube)
    requires HasDefaultEnd(c)
    ensures ToCompleteCube(ToCompleteCube(c)) == ToCompleteCube(c)
  {
    var full := ToCompleteCube(c);
    FromColorIdempotent(c.color);
    forall k | 0 <= k < |c.levels|
      ensures CompleteLevel(full.levels[k]) == full.levels[k]
    {
      var level := full.levels[k];
      var r := CompleteLevel(level);
      forall i | 0 <= i < |level.cells|
        ensures r.cells[i] == level.cells[i]
      {
      }
      assert r.cells == level.cells;
    }
  }
}
