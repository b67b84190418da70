# insideCube in Dafny

insideCube is a browser editor for "inside cubes": mazes built level by
level inside a cube, drawn as wire-frame cuboids. This project models its
core in Dafny and proves properties of the model:

- the geometry engine (`src/helpers/geometries.ts`): the midpoint and the
  width/height/direction classification of a face, the closed corner loop
  of a face (`rect`) and the placement of its decorations (`getBox`), the
  vector font (`drawChar`, `drawString`), the darkened colour of the back
  faces and the six faces of a cuboid (`cube`), and the projection pass
  (`rotate`, `shapeProjection`) that turns shapes, computes their screen
  boxes and depth ranges, and sorts them back to front;
- the conversions between the complete cube format and the compact
  InsideWeCube format (`src/utils/cubeOperations.ts`), with the round trip
  between them;
- the cube store (`src/stores/cubeStore.ts`): the catalogue of cubes by
  name, the active cube, import and export, and the undo/redo history;
- the language store (`src/stores/languageStore.ts`): the locales, the
  validation of a requested locale and the current language.

Modules and files:

| file | module | models |
|---|---|---|
| `wrappers.dfy` | `Wrappers` | `Option` |
| `vectors.dfy` | `Vectors` | vertices, directions, `midPoint`, `widthHeight` |
| `font.dfy` | `Font` | the glyph table, `drawChar`, `drawString` |
| `shapes.dfy` | `Shapes` | `getBox`, `text`, `rect`, `darken`, `cube` |
| `projection.dfy` | `Projection` | `rotate`, `shapeProjection` and its sort |
| `cube_operations.dfy` | `CubeOperations` | `copyCube`, `createNewCube`, `fromColor`, `toCompleteCube`, `toSimplifiedCube` |
| `cube_store.dfy` | `CubeStore` | the cube store, as the class `Store` |
| `language_store.dfy` | `LanguageStore` | `getLocale`, the class `LanguageStore` |

Numbers are exact reals (geometry) or unbounded integers (positions,
colour channels). The loops of `shapeProjection` and every action of the
two stores are methods proved against functions that state what they
compute; the stores are classes whose methods keep an invariant (`Valid`).

The back colour of a cube is built from three `darken` calls on three
channels (`src/helpers/geometries.ts:180-182`), each padded to two digits
(lines 160-162), so the code expects three two-digit channels and a
`#ff0000` cube a `#cc0000` back; the colour split at line 177 gives
`#cc00NaN` instead (see Findings).

## Model

| member | source | states |
|---|---|---|
| Vectors.MidPoint | src/helpers/geometries.ts:12-18 | On every axis the midpoint is as far from the first vertex as from the second. |
| Vectors.MidPointSymmetric | src/helpers/geometries.ts:12-18 | The midpoint does not depend on the order of the two vertices. |
| Vectors.WidthHeight | src/helpers/geometries.ts:22-45 | w and h are the deltas along the direction's width and height axes with 0 <= h <= w; dy == 0 gives xz/zx, else dx == 0 gives yz/zy, else xy/yx; zx, zy and yx only on a strict inequality; for a face in a coordinate plane the third axis is the fixed one. |
| Font.OutlineSupported | src/helpers/geometries.ts:254-506 | A character has an outline (two points or more) exactly when it is one of the supported characters. |
| Font.OutlineShape | src/helpers/geometries.ts:254-506 | Every outline point lies in the unit square [-1, 1] x [-1, 1] of (maxWidth, midSize) units. |
| Font.DrawChar | src/helpers/geometries.ts:254-506 | One point per outline point, none for an unsupported character, and every point within 0.35 * size across and size / 2 up or down. |
| Font.GlyphSize | src/helpers/geometries.ts:513 | The glyph size min(h, w / n) is between 0 and the face height, and n glyphs fit the face width. |
| Font.PlaceGlyphPoint | src/helpers/geometries.ts:522-563 | For each direction a glyph point keeps the fixed axis at the centre, goes up along the height axis and sweeps along the width axis; in 'zy' the glyph's height offset is added to z as well. |
| Font.LayoutChar | src/helpers/geometries.ts:517-564 | A character's path has one vertex per outline point. |
| Font.DrawString | src/helpers/geometries.ts:509-567 | One path per character (none for the empty string), one vertex per glyph point, every vertex on the box's fixed plane through its centre and within half the face height of the centre. |
| Font.DrawStringReverse | src/helpers/geometries.ts:513-563 | Outside 'zy', reversing mirrors every vertex about the centre along the width axis and leaves the other axes unchanged. |
| Font.DrawStringSlot | src/helpers/geometries.ts:513-563 | Outside 'zy', character i of a forward string lies within 0.35 * size of offset start + size * i from the centre. |
| Shapes.Across | src/helpers/geometries.ts:88-92 | The decoration's width is min(w * width, w), centred on the face: left + right == w and right - left == min(w * width, w), with 0 <= left <= right <= w for non-negative widths. |
| Shapes.Band | src/helpers/geometries.ts:89-90 | The band has the requested length and is centred on the requested centre when it fits; it is clamped to start at 0 when it would start before 0 or is longer than h, and otherwise to end at h when it would end after h. |
| Shapes.Along | src/helpers/geometries.ts:87-90 | The band of length h * height centred at h * position, as `Band` clamps it: top >= 0, top <= bottom, and bottom <= h whenever the fractional height is at most 1. |
| Shapes.GetBox | src/helpers/geometries.ts:86-125 | Each direction case puts the across span on the width axis, the along span on the height axis, and keeps the fixed axis at the first corner's value. |
| Shapes.DecorationInsideFace | src/helpers/geometries.ts:86-125 | On a face in a coordinate plane with its first corner lowest, a decoration of non-negative width and height at most 1 lies inside the face. |
| Shapes.Text | src/helpers/geometries.ts:48-58 | A text shape with the given colours and box whose paths are exactly `DrawString` of the string in that box with the given direction, so one path per character on the box's plane (see Font.DrawString, Font.DrawStringReverse, Font.DrawStringSlot). |
| Shapes.Decoration | src/helpers/geometries.ts:128-142 | slot: fill the face's stroke, stroke 'transparent'; rect: fill 'transparent', stroke the detail or the face's stroke; text: exactly `Text` of the detail (or '') in the box with fill the face's stroke, stroke 'none' and the option's `reverse`; nested rects have no gradient and no decorations. |
| Shapes.Loop | src/helpers/geometries.ts:60-83 | Exactly 5 points, points 0 and 4 the first corner and point 2 the second; every point a corner of the box; a face in a coordinate plane stays in it, with four axis-parallel edges. |
| Shapes.Decorate | src/helpers/geometries.ts:125-142 | The decorations map one to one and in order onto the options, each drawn in its GetBox box on the face. |
| Shapes.Rect | src/helpers/geometries.ts:60-151 | A rect with the given fill, stroke and gradient, whose outline is the loop of its corners; it has decorations exactly when options are given, and then they are Decorate of them. |
| Shapes.ToHex | src/helpers/geometries.ts:158 | toString(16) reads back as the number, has no leading zero, and has two digits for 16..255. |
| Shapes.ParseHexLeadingZero | src/helpers/geometries.ts:156-162 | A leading '0' does not change the value parseInt(_, 16) reads. |
| Shapes.Darken | src/helpers/geometries.ts:154-157 | Math.round(0.8 * v) is at most v and within half a unit of 0.8 * v. |
| Shapes.DarkenChannel | src/helpers/geometries.ts:155-165 | The channel reads back as Darken of the original, has at least two digits, and exactly two for a channel below 256. |
| Shapes.DarkenColorChannels | src/helpers/geometries.ts:176-185 | The back colour is '#' and three two-digit channels, each Darken of the matching channel of the fill. |
| Shapes.DarkenColor | src/helpers/geometries.ts:176-185 | Corrected back colour; its contract is carried by Shapes.DarkenColorChannels: '#' and three two-digit channels, each Darken of the fill's channel. |
| Shapes.SplitLetterPairs | src/helpers/geometries.ts:177 | The split with filter(Boolean) yields no empty piece, and only hexadecimal pieces from hexadecimal input. |
| Shapes.RedSplit | src/helpers/geometries.ts:177 | 'ff0000' splits into 'ff' and '0000' only. |
| Shapes.RedChannels | src/helpers/geometries.ts:155-165 | darken('ff') is 'cc' and darken('0000') is '00'. |
| Shapes.RedBackColorAsWritten | src/helpers/geometries.ts:176-185 | As written, the back colour of '#ff0000' is '#cc00NaN'. |
| Shapes.BackColorAsWritten | src/helpers/geometries.ts:176-185 | The back colour as written (letter-pair split, then the first three pieces darkened); its contract is carried by Shapes.RedBackColorAsWritten ('#ff0000' gives '#cc00NaN') and Shapes.BackColorOnLetters (it agrees with DarkenColor on six letters). |
| Shapes.BackColorOnLetters | src/helpers/geometries.ts:176-185 | On a fill of six hexadecimal letters the split as written gives the three channels, so both back colours agree. |
| Shapes.Face | src/helpers/geometries.ts:194-250 | A face of a cuboid is a 5-point rect with gradient true, the given fill and stroke, its outline spanned by its two corners, and exactly the decorations its list gives, each placed on that face. |
| Shapes.Faces | src/helpers/geometries.ts:194-250 | Six gradient faces in the order front, back, top, bottom, left, right; front, top and right take the front colour, the others the back colour; each face is spanned by its own two corners of the cuboid and carries exactly the decorations of its own list. |
| Shapes.Cube | src/helpers/geometries.ts:176-251 | Six rects with gradient true; front, top and right take the fill, back, bottom and left its darkened colour; each face is spanned by its own two corners of the cuboid and carries exactly the decorations of its own list. |
| Shapes.CubeCorners | src/helpers/geometries.ts:189-192 | The cuboid spans center - dimension / 2 to center + dimension / 2 on every axis. |
| Shapes.FaceCorners | src/helpers/geometries.ts:60-83 | A face whose two corners are corners of a box has only corners of that box as points. |
| Shapes.FacesOnBoundary | src/helpers/geometries.ts:194-250 | Every point of the six faces is a corner of the box; front and back lie in the planes z = hi.z and z = lo.z, top and bottom in y = lo.y and y = hi.y, left and right in x = lo.x and x = hi.x. |
| Shapes.CubeFacesOnBoundary | src/helpers/geometries.ts:176-250 | Every vertex of a cube is a corner of the cuboid and each face lies in its own bounding plane (front z+, back z-, top y-, bottom y+, left x-, right x+). |
| Projection.Rotate | src/helpers/geometries.ts:569-585 | A zero angle or a zero vector is left unchanged; any other vector is turned. |
| Projection.ProjectZero | src/helpers/geometries.ts:594-602 | With all three angles zero every vertex is unchanged. |
| Projection.Project | src/helpers/geometries.ts:594-602 | The three rotations chained as `projection` applies them; its contract is carried by Projection.ProjectZero (identity at zero angles) and Projection.ProjectKeepsLength (distance to the origin kept). |
| Projection.RotateKeepsLength | src/helpers/geometries.ts:569-585 | When the turn keeps lengths, rotate keeps the length of the vector. |
| Projection.ProjectKeepsLength | src/helpers/geometries.ts:594-602 | When the turn keeps lengths, the projection keeps the distance of each vertex from the origin. |
| Projection.ThreeTurns | src/helpers/geometries.ts:594-602 | Three length-keeping turns chained as the projection chains them keep the squared length of the vertex. |
| Projection.MinExt | src/helpers/geometries.ts:621-625 | Math.min against an Infinity seed: finite once a value is seen, at most every value seen, and equal to one of them. |
| Projection.MaxExt | src/helpers/geometries.ts:621-626 | Math.max against a -Infinity seed: finite once a value is seen, at least every value seen, and equal to one of them. |
| Projection.ScanBounds | src/helpers/geometries.ts:610-629 | No vertex leaves the infinite seeds; otherwise every extreme is finite, every vertex lies within them, and zMin and zMax are depths of vertices. |
| Projection.ProjectPoints | src/helpers/geometries.ts:645 | One projected vertex per vertex, in order. |
| Projection.Flat2D | src/helpers/geometries.ts:654-658 | One screen point (x, y) per projected vertex, in order. |
| Projection.ScanText | src/helpers/geometries.ts:609-631 | The nested loops over a string's characters and vertices compute the extremes of all its vertices in order. |
| Projection.ScanFace | src/helpers/geometries.ts:646-666 | The loop over a face's projected vertices gives their screen points and their extremes. |
| Projection.ProjectOne | src/helpers/geometries.ts:604-683 | One shape's projection equals the specification ProjectShape, decorations projected and sorted recursively with the same angles. |
| Projection.ProjectedRectBounds | src/helpers/geometries.ts:643-683 | A projected face keeps fill, stroke, gradient and one screen point per vertex, its box holds every point and its depth range is spanned by its vertices' depths. |
| Projection.ProjectedEmptyText | src/helpers/geometries.ts:606-641 | A string with no vertex keeps the infinite seeds as box and depth range. |
| Projection.ProjectShapeZero | src/helpers/geometries.ts:594-666 | Without rotation a face's screen points are its vertices' x and y. |
| Projection.Insert | src/helpers/geometries.ts:685-687 | Inserting into a sorted list keeps it sorted and adds exactly the element. |
| Projection.LessOrder | src/helpers/geometries.ts:685-687 | The depth comparison, with NaN read as not less, is a strict weak order. |
| Projection.SortByDepth | src/helpers/geometries.ts:685-687 | The sort gives a sorted permutation of the same length. |
| Projection.SortByDepthStable | src/helpers/geometries.ts:685-687 | Shapes of equal nearest depth keep their relative order. |
| Projection.ProjectAll | src/helpers/geometries.ts:593-690 | The output is sorted ascending by zMin, as long as the input, and a permutation of the per-shape projections. |
| Projection.ShapeProjection | src/helpers/geometries.ts:593-690 | The method equals ProjectAll. |
| CubeOperations.PositionOf | src/utils/cubeOperations.ts:96-98 | A [row, column, level] triple becomes {x: column, y: row, z: level}. |
| CubeOperations.TripleOf | src/utils/cubeOperations.ts:195-203 | The triple [y, x, z] of a position reads back as the position. |
| CubeOperations.CopyCube | src/utils/cubeOperations.ts:16-33 | Name, colour, start, end, level names, comments and cells are kept, and lid becomes a boolean. |
| CubeOperations.CopyCubeIdempotent | src/utils/cubeOperations.ts:16-33 | Copying a copy gives the same copy. |
| CubeOperations.NatToString | src/utils/cubeOperations.ts:51 | The decimal numeral of n is non-empty, all digits, and reads back as n. |
| CubeOperations.LevelNamesDistinct | src/utils/cubeOperations.ts:50-51 | Different levels get different names 'Level k+1'. |
| CubeOperations.CreateNewCube | src/utils/cubeOperations.ts:40-60 | No name, colour '#000000', start (1, 1, 0), end (cells-2, rows-2, levels-1), levels of rows x cells empty cells named 'Level k+1', only the last with a lid. |
| CubeOperations.FromColor | src/utils/cubeOperations.ts:66-79 | A legacy name gives its value; any other string is unchanged. |
| CubeOperations.FromColorIdempotent | src/utils/cubeOperations.ts:66-79 | No legacy value is a legacy name, so converting twice is converting once. |
| CubeOperations.CompleteCell | src/utils/cubeOperations.ts:122-129 | Each of r, d and b becomes the boolean of its truthiness (`!!`), and the mark is copied. |
| CubeOperations.CompleteLevel | src/utils/cubeOperations.ts:116-132 | Name and comment are kept, the lid becomes the boolean of its truthiness, the grid shape is kept and every cell has its flags made booleans with its mark copied. |
| CubeOperations.ToCompleteCube | src/utils/cubeOperations.ts:89-136 | The result is complete with the same grid, every level completed as `CompleteLevel` states; missing start (1, 1, 0), missing end the default end from level 0 row 0, triples swapped into objects, colour through fromColor. |
| CubeOperations.ToCompleteCubeIdempotent | src/utils/cubeOperations.ts:89-136 | Completing a completed cube changes nothing. |
| CubeOperations.SimplifyCell | src/utils/cubeOperations.ts:153-172 | The cell is compact; each flag is present (as the set value) exactly when truthy, and the mark is present, unchanged, exactly when given and non-zero. |
| CubeOperations.SimplifyLevel | src/utils/cubeOperations.ts:149-186 | The name is kept, the comment only when non-empty, the lid only when set (as true); the grid shape is kept and every cell keeps a flag (as true) exactly when it is set and its mark exactly when non-zero. |
| CubeOperations.Compact | src/utils/cubeOperations.ts:189-227 | A location is left out exactly when missing or equal to the omitted position, and is otherwise a triple of the same position. |
| CubeOperations.Simplify | src/utils/cubeOperations.ts:145-230 | Same grid, same name and colour, every level simplified as `SimplifyLevel` states, nothing redundant; start left out when at the omitted position; end left out when at the default end. |
| CubeOperations.ToSimplifiedCube | src/utils/cubeOperations.ts:145-230 | As written: same grid, nothing redundant, and the start left out exactly when missing or (1, 1, 1); its round trip is stated by CubeOperations.RoundTrip and CubeOperations.CompactRoundTrip. |
| CubeOperations.ToSimplifiedCubeCorrected | src/utils/cubeOperations.ts:145-230 | Corrected: same grid, nothing redundant, and the start left out exactly when missing or (1, 1, 0); its round trip is stated by CubeOperations.RoundTripCorrected. |
| CubeOperations.CellRoundTrip | src/utils/cubeOperations.ts:121-172 | Through the compact format and back a cell gets boolean flags equal to their truthiness and loses a zero mark; a compact cell comes back unchanged. |
| CubeOperations.LevelRoundTrip | src/utils/cubeOperations.ts:116-186 | A level through the compact format and back keeps its name, grid, flags, non-zero marks, lid and non-empty comment. |
| CubeOperations.RoundTrip | src/utils/cubeOperations.ts:89-230 | As written the round trip keeps grid, flags, non-zero marks, lids and end, and the start except that (1, 1, 1) comes back as (1, 1, 0). |
| CubeOperations.StartLostAsWritten | src/utils/cubeOperations.ts:89-205 | A cube starting at (1, 1, 1) comes back starting at (1, 1, 0). |
| CubeOperations.RoundTripCorrected | src/utils/cubeOperations.ts:89-230 | Leaving out the start (1, 1, 0), the round trip keeps every start and end as toCompleteCube reads them. |
| CubeOperations.CompactRoundTrip | src/utils/cubeOperations.ts:89-230 | As written a non-redundant compact cube with a start other than (1, 1, 1) comes back unchanged; one without a start comes back with start [1, 1, 0]. |
| CubeOperations.CompactRoundTripCorrected | src/utils/cubeOperations.ts:89-230 | With the corrected start every non-redundant compact cube comes back unchanged. |
| CubeOperations.CompactLevelsRoundTrip | src/utils/cubeOperations.ts:116-186 | The levels of a compact cube come back unchanged from the complete format. |
| CubeOperations.CompactLevelRoundTrip | src/utils/cubeOperations.ts:116-186 | A compact level comes back unchanged from the complete format. |
| CubeStore.Catalogue.Get | src/stores/cubeStore.ts:77-79 | A name is found exactly when it is a key, with its cube. |
| CubeStore.Catalogue.Set | src/stores/cubeStore.ts:88 | Map.set: the name maps to the cube, an existing key keeps its place and a new key goes last. |
| CubeStore.Without | src/stores/cubeStore.ts:91 | The key order without a name keeps exactly the other names, stays free of duplicates, and is unchanged when the name is absent. |
| CubeStore.Catalogue.Delete | src/stores/cubeStore.ts:91 | Map.delete: the key is removed, the order keeps the other keys, and a missing key changes nothing. |
| CubeStore.Catalogue.Values | src/stores/cubeStore.ts:109 | Map.values() lists the cubes in key order. |
| CubeStore.SetDeleteInverse | src/stores/cubeStore.ts:88-92 | Setting a new name and deleting it again gives back the same catalogue. |
| CubeStore.StoreCopy | src/stores/cubeStore.ts:22-31 | The store's copy keeps name, colour, level names and cells, and drops start, end, comments and lids. |
| CubeStore.StoreCopyIdempotent | src/stores/cubeStore.ts:22-31 | Copying a copy gives the same copy. |
| CubeStore.DefaultActive | src/stores/cubeStore.ts:100-116 | An active cube is kept; otherwise a copy of the named cube when a name is given and found, or of the first cube when no name is given. |
| CubeStore.Stored | src/stores/cubeStore.ts:81-92 | As written: refused exactly when oldName and name are both empty; without a rename the cube is set under its name; with a rename only the old name is removed. |
| CubeStore.StoredKeepsNames | src/stores/cubeStore.ts:81-92 | As written, every stored cube is still under its own name. |
| CubeStore.RenameDropsCube | src/stores/cubeStore.ts:88-92 | As written, renaming stores the cube under neither its old nor its new name. |
| CubeStore.Renamed | src/stores/cubeStore.ts:81-92 | Corrected: refused exactly when neither an old name nor the cube's name is given; a named cube is set under its name and a different target name is removed; a cube without a name under an old name only removes that name. |
| CubeStore.RenamedKeepsCube | src/stores/cubeStore.ts:81-92 | Corrected: a named cube is found under its name, the old target name is gone, and every other entry is unchanged. |
| CubeStore.RenamedKeepsNames | src/stores/cubeStore.ts:81-92 | Corrected: whenever setCube does not refuse, if every cube is under its own name before, so is every cube after. |
| CubeStore.StoredWithoutRename | src/stores/cubeStore.ts:81-92 | Without an old name the code as written and the corrected rename agree. |
| CubeStore.ChosenAppend | src/stores/cubeStore.ts:150 | Filtering a concatenation is concatenating the filtered parts, so the filter keeps the order of the list. |
| CubeStore.Selected | src/stores/cubeStore.ts:146-151 | An empty selection keeps every cube; otherwise the result is `Chosen`, the cubes whose name is selected in their order, so exactly the selected cubes. |
| CubeStore.ImportCounts | src/stores/cubeStore.ts:157-177 | Every cube of the list is either counted or skipped, and nothing is skipped with replace. |
| CubeStore.ImportStep | src/stores/cubeStore.ts:164-177 | One pass of the import loop keeps the catalogue valid; that it removes nothing, changes nothing without replace, and skips only stored names is stated by CubeStore.ImportStepKeeps. |
| CubeStore.ImportAll | src/stores/cubeStore.ts:157-177 | The import loop as a fold over the list keeps the catalogue valid; its effect is stated by CubeStore.ImportKeeps, CubeStore.ImportCounts and CubeStore.ImportStoresNames. |
| CubeStore.ImportKeeps | src/stores/cubeStore.ts:164-177 | Import never removes a cube, without replace never changes one, and skips only names already present. |
| CubeStore.ImportStepKeeps | src/stores/cubeStore.ts:166-177 | One cube of the import keeps every cube, changes none without replace, and is skipped only when its name is stored. |
| CubeStore.ImportStoresNames | src/stores/cubeStore.ts:164-177 | After an import every named cube of the list is in the catalogue. |
| CubeStore.ImportMessage | src/stores/cubeStore.ts:186-200 | Any skip gives warning 'messages.skippingCubes' with the skipped names, otherwise success 'messages.importSuccess' with the count. |
| CubeStore.Recorded | src/stores/cubeStore.ts:229-244 | The history keeps its entries up to the index and ends with the new snapshot. |
| CubeStore.RecordedClearsRedo | src/stores/cubeStore.ts:224-267 | After recording nothing is left to redo, undo goes back to the former index, and earlier entries are unchanged. |
| CubeStore.Store.constructor | src/stores/cubeStore.ts:47-53 | Empty catalogue, no active cube, empty history, index -1, tool 'hole'. |
| CubeStore.Store.GetCubeByName | src/stores/cubeStore.ts:77-79 | The cube found has the name asked for and is in the catalogue; none found means no cube has that name. |
| CubeStore.Store.SetDefaultCube | src/stores/cubeStore.ts:100-116 | The active cube becomes DefaultActive; nothing else changes. |
| CubeStore.Store.SetCube | src/stores/cubeStore.ts:81-98 | true exactly when `oldName || cube.name` is non-empty; the catalogue then becomes Renamed and the default active cube is chosen by the cube's name; otherwise nothing changes. |
| CubeStore.Store.CreateNewCube | src/stores/cubeStore.ts:38-44 | The active cube becomes the blank cube (no name, '#000000', no levels). |
| CubeStore.Store.DeleteCube | src/stores/cubeStore.ts:122-128 | The name is removed, the result tells whether it was present, and a default active cube is chosen. |
| CubeStore.Store.SelectCube | src/stores/cubeStore.ts:130-144 | A cube becomes active as given; a name only when found, otherwise nothing changes. |
| CubeStore.Store.Export | src/stores/cubeStore.ts:146-152 | All cubes in catalogue order, or `Chosen`: exactly those whose name is selected, in catalogue order. |
| CubeStore.Store.Import | src/stores/cubeStore.ts:156-207 | No data: warning 'messages.enterJsonData'; malformed: error 'messages.invalidJsonFormat' with the reason and nothing changed; a list: the state and message of the import fold. |
| CubeStore.Store.ImportCubes | src/stores/cubeStore.ts:157-178 | The loop over the parsed list leaves the catalogue, the active cube, the count and the skipped names that the import fold computes. |
| CubeStore.Store.AddToHistory | src/stores/cubeStore.ts:224-245 | No change without an active cube; otherwise the redo part is dropped, a copy of the active cube is appended and the index points at it. |
| CubeStore.Store.Travel | src/stores/cubeStore.ts:247-267 | A target inside the history becomes the index and a copy of its cube becomes active; otherwise nothing changes; the index stays in [-1, size). |
| CubeStore.Store.Undo | src/stores/cubeStore.ts:247-256 | As Travel, with the default target one step back. |
| CubeStore.Store.Redo | src/stores/cubeStore.ts:258-267 | As Travel, with the default target one step forward. |
| LanguageStore.Insert | src/stores/languageStore.ts:10 | Inserting into an ascending list keeps it ascending with the same strings plus one. |
| LanguageStore.Sort | src/stores/languageStore.ts:10 | sort() gives an ascending permutation of the strings. |
| LanguageStore.LocalesOrder | src/stores/languageStore.ts:6-10 | After the sort the locales are 'en', 'fr'. |
| LanguageStore.DefaultIsLocale | src/stores/languageStore.ts:6-12 | The default locale 'en' is one of the locales. |
| LanguageStore.GetLocale | src/stores/languageStore.ts:14-25 | The result is always a locale: the argument when it is one, 'en' otherwise, including null or undefined. |
| LanguageStore.GetLocaleIdempotent | src/stores/languageStore.ts:14-25 | Validating a validated locale changes nothing. |
| LanguageStore.GetLocaleCases | src/stores/languageStore.ts:6-25 | Only 'fr' and 'en' are kept; anything else gives 'en'. |
| LanguageStore.LanguageStore.constructor | src/stores/languageStore.ts:28-30 | The current language is the saved language, validated. |
| LanguageStore.LanguageStore.SetLanguage | src/stores/languageStore.ts:34-36 | The current language becomes the validated language, which is a locale. |

## Left out

- Trigonometry: the turn inside `rotate` (`Math.sqrt`, `Math.acos`, `Math.cos`, `Math.sin`) is a function parameter `turn`; only its zero-angle and zero-vector guards are modelled, and length preservation is proved only under the premise that the turn keeps lengths.
- Floating point: coordinates are exact reals, `Math.round` is exact integer rounding, and `NaN` appears only where it decides something (the sort comparator on two infinite depths, read as "not less"; a missing colour channel, written "NaN").
- Projection.Rotate: a `NaN` angle, which `!r` also treats as no rotation, has no counterpart among reals; the angle of the vector (`Math.acos` and the sign of `y`) is inside the `turn` parameter.
- Shapes.Cube: requires a fill whose six characters after the sign are hexadecimal digits and splits it at fixed offsets (see Findings). The code splits on pairs of letters, so every fill with a digit splits differently: '#ab0cde' splits into 'ab', '0', 'cd', 'e' and gives back faces '#8900a4' in the code, where the model gives '#890ab2'. Only the all-letter fills agree, and a fill with characters other than hexadecimal digits (NaN channels in the code) is not modelled.
- CubeOperations.ToCompleteCube: requires `HasDefaultEnd`, an end or a first level with a first row; a cube without an end and without levels, or whose first level has no rows, throws a TypeError at src/utils/cubeOperations.ts:100-104 and is not modelled.
- CubeOperations.Simplify: requires a first level with a first row when the cube has an end; a cube with an end and no levels, or an empty first level, throws a TypeError at src/utils/cubeOperations.ts:221-223 and is not modelled.
- CubeOperations.ToSimplifiedCube: see CubeOperations.Simplify; a cube with an end but no first row is not modelled.
- CubeOperations.ToSimplifiedCubeCorrected: see CubeOperations.Simplify; a cube with an end but no first row is not modelled.
- Font.DrawString: sizes and places glyphs by the number of characters of the string, while the code takes `str.length` in UTF-16 units (src/helpers/geometries.ts:510) and draws one glyph per code point (line 517); the two differ for characters outside the Basic Multilingual Plane, which the model does not distinguish.
- CubeStore.Store.SetCube: models the corrected rename of `Renamed` (see Findings); as written the cube is deleted again under the old name, which `CubeStore.Stored` models and `CubeStore.RenameDropsCube` exhibits.
- Font: glyph coordinates are transcribed as data; only structural facts (point counts, bounds, the empty default) are proved about them.
- LanguageStore.Sort: compares characters as Unicode scalar values, which agrees with the UTF-16 comparison of `Array.prototype.sort` on the locale codes.
- JSON: `JSON.parse` and `JSON.stringify` are not modelled. `Store.Import` takes the parsed list, a parse failure with its message, or no data; `Store.Export` returns the list it would serialise.
- CubeStore.Store.Import: a list element that is not a cube object throws in the middle of the loop in the code, keeping the cubes already stored; the model only takes lists of cubes.
- Persistence: `saveCubesToLocalStorage`, `loadCubesFromLocalStorage`, the module-level load at the end of `src/stores/cubeStore.ts`, and the `localStorage` writes of the language store are I/O; the saved language is the constructor parameter of `LanguageStore.LanguageStore`.
- History timestamps (`new Date()`) depend on the clock and are dropped from `Snapshot`.
- Aliasing: cubes are values, so the sharing of cell objects between the store's shallow copy and the original, and of the cube object between the catalogue and `activeCube` after `selectCube`, is not modelled.
- The browser language fallback mentioned as a TODO in `getLocale` does not exist in the code and is not modelled.
- Pinia, Vue, the router, i18n plugins, locale string tables and the tool icon table are framework wiring or static data.

## Findings

| source | as written | input that shows it | evidently intended | confidence | as-written member | corrected member |
|---|---|---|---|---|---|---|
| src/helpers/geometries.ts:177 | The fill is split with `/([a-z]{2})/i`, so only pairs of letters become channels. | `cube(c, d, '#ff0000', s)` (legacy 'red') gives back faces `#cc00NaN`. | Split at fixed offsets into three two-digit channels: `#cc0000`. | not executed; high | Shapes.RedBackColorAsWritten | Shapes.DarkenColorChannels |
| src/utils/cubeOperations.ts:202 | The start is left out when it is (1, 1, 1), while `toCompleteCube` restores a missing start as (1, 1, 0) (line 94). | A cube starting at (1, 1, 1) comes back from the round trip starting at (1, 1, 0). | Leave out the start (1, 1, 0) that line 94 restores. | not executed; medium | CubeOperations.StartLostAsWritten | CubeOperations.RoundTripCorrected |
| src/stores/cubeStore.ts:88-92 | A rename sets the cube under the old name and then deletes that same name. | `setCube(cube named 'b', 'a')` on a store holding 'a': neither 'a' nor 'b' remains. | Set the cube under its own name and delete the old name. | not executed; high | CubeStore.RenameDropsCube | CubeStore.RenamedKeepsCube |
