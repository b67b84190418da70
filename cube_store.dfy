/**
 * The cube store (src/stores/cubeStore.ts): the catalogue of cubes by name,
 * the cube being edited, and its undo/redo history.
 */
module CubeStore {
  import opened Wrappers
  import opened CubeOperations

  /** No name occurs twice. */
  predicate Distinct(names: seq<string>) {
    forall i, j :: 0 <= i < j < |names| ==> names[i] != names[j]
  }

  /** `names` without `name`, the others in the same order. */
  function Without(names: seq<string>, name: string): (r: seq<string>)
    ensures forall k :: k in r <==> k in names && k != name
    ensures Distinct(names) ==> Distinct(r)
    ensures name !in names ==> r == names
  {
    if names == [] then []
    else
      var init, last := names[..|names| - 1], names[|names| - 1];
      assert names == init + [last];
      var r := Without(init, name);
      assert Distinct(names) ==> Distinct(init) && last !in init;
      r + (if last == name then [] else [last])
  }

  /** Removing a name from the order and from the map keeps them in step. */
  lemma WithoutKeys(order: seq<string>, entries: map<string, Cube>, name: string)
    requires entries.Keys == set k | k in order
    ensures (entries - {name}).Keys == set k | k in Without(order, name)
  {
    var kept := Without(order, name);
    assert forall k :: k in kept <==> k in order && k != name;
  }

  /**
   * A `Map` from names to cubes. Its keys keep their insertion order:
   * setting an existing key keeps its place, a new key goes last, and
   * deleting a key removes it from the order.
   */
  datatype Catalogue = Catalogue(order: seq<string>, entries: map<string, Cube>) {
    /** The order lists every key exactly once. */
    predicate Valid() {
      Distinct(order) && entries.Keys == set k | k in order
    }

    /** `get` */
    function Get(name: string): (r: Option<Cube>)
      ensures r.Some? <==> name in entries
      ensures r.Some? ==> r.value == entries[name]
    {
      if name in entries then Some(entries[name]) else None
    }

    /** `set` */
    function Set(name: string, cube: Cube): (r: Catalogue)
      requires Valid()
      ensures r.Valid()
      ensures r.entries == entries[name := cube]
      ensures name in entries ==> r.order == order
      ensures name !in entries ==> r.order == order + [name]
    {
      if name in entries then Catalogue(order, entries[name := cube])
      else Catalogue(order + [name], entries[name := cube])
    }

    /** `delete` */
    function Delete(name: string): (r: Catalogue)
      requires Valid()
      ensures r.Valid()
      ensures r.entries == entries - {name}
      ensures r.order == Without(order, name)
      ensures name !in entries ==> r == this
    {
      WithoutKeys(order, entries, name);
      Catalogue(Without(order, name), entries - {name})
    }

    /** `values()`, in insertion order. */
    function Values(): (vs: seq<Cube>)
      requires Valid()
      ensures |vs| == |order| && forall i :: 0 <= i < |order| ==> vs[i] == entries[order[i]]
    {
      seq(|order|, i requires 0 <= i < |order| => entries[order[i]])
    }
  }

  const EmptyCatalogue := Catalogue([], map[])

  /** Setting a new name and deleting it again leaves the catalogue as it was. */
  lemma SetDeleteInverse(c: Catalogue, name: string, cube: Cube)
    requires c.Valid() && name !in c.entries
    ensures c.Set(name, cube).Delete(name) == c
  {
    var s := c.Set(name, cube);
    assert s.order[..|s.order| - 1] == c.order;
  }

  /** Every cube is stored under its own name, and no name is empty. */
  predicate NamedByKey(c: Catalogue) {
    "" !in c.entries && forall k :: k in c.entries ==> c.entries[k].name == k
  }

  /**
   * The local `copyCube` of the store: only the name, the colour, and each
   * level's name and cells are kept.
   */
  function StoreCopy(c: Cube): (r: Cube)
    ensures r.name == c.name && r.color == c.color && r.start.None? && r.end.None?
    ensures |r.levels| == |c.levels| && forall k :: 0 <= k < |c.levels| ==>
      r.levels[k].name == c.levels[k].name && r.levels[k].cells == c.levels[k].cells
      && r.levels[k].cmt.None? && r.levels[k].lid.None?
  {
    Cube(c.name, c.color, seq(|c.levels| , k requires 0 <= k < |c.levels| =>
      Level(c.levels[k].name, None, c.levels[k].cells, None)), None, None)
  }

  /** Copying a copy gives the same copy. */
  lemma StoreCopyIdempotent(c: Cube)
    ensures StoreCopy(StoreCopy(c)) == StoreCopy(c)
  {
  }

  /** `createNewCube` of the store: no name, black, no level. */
  const BlankCube := Cube("", "#000000", [], None, None)

  /**
   * `setDefaultCube`: with no active cube, a copy of the named cube (when a
   * non-empty name is given and found), or of the first cube (when no name
   * is given), becomes active.
   */
  function DefaultActive(cubes: Catalogue, active: Option<Cube>, cubeName: Option<string>): (r: Option<Cube>)
    requires cubes.Valid()
    ensures active.Some? ==> r == active
    ensures active.None? && cubeName.Some? && cubeName.value != "" ==>
      r == (if cubeName.value in cubes.entries then Some(StoreCopy(cubes.entries[cubeName.value])) else None)
    ensures active.None? && (cubeName.None? || cubeName.value == "") ==>
      r == (if cubes.order == [] then None else Some(StoreCopy(cubes.entries[cubes.order[0]])))
  {
    if active.Some? then active
    else if cubeName.Some? && cubeName.value != "" then
      match cubes.Get(cubeName.value)
      case Some(cube) => Some(StoreCopy(cube))
      case None => None
    else if cubes.order == [] then None
    else Some(StoreCopy(cubes.Values()[0]))
  }

  /** `oldName || cube.name` */
  function TargetName(cube: Cube, oldName: Option<string>): string {
    if oldName.Some? && oldName.value != "" then oldName.value else cube.name
  }

  /**
   * The catalogue after `setCube` as written, or `None` when it refuses (no
   * name at all). The cube is set under the target name, and that name is
   * deleted again when it is not the cube's own name.
   */
  function Stored(cubes: Catalogue, cube: Cube, oldName: Option<string>): (r: Option<Catalogue>)
    requires cubes.Valid()
    ensures r.None? <==> TargetName(cube, oldName) == ""
    ensures r.Some? ==> r.value.Valid()
    ensures r.Some? && TargetName(cube, oldName) == cube.name ==> r.value == cubes.Set(cube.name, cube)
    ensures r.Some? && TargetName(cube, oldName) != cube.name ==>
      r.value.entries == cubes.entries - {TargetName(cube, oldName)}
  {
    var name := TargetName(cube, oldName);
    if name == "" then None
    else if name == cube.name then Some(cubes.Set(name, cube))
    else
      var updated := cubes.Set(name, cube);
      assert updated.entries - {name} == cubes.entries - {name};
      Some(updated.Delete(name))
  }

  /** A stored cube is always found under its own name. */
  lemma StoredKeepsNames(cubes: Catalogue, cube: Cube, oldName: Option<string>)
    requires cubes.Valid() && NamedByKey(cubes) && TargetName(cube, oldName) != ""
    ensures NamedByKey(Stored(cubes, cube, oldName).value)
  {
  }

  /** Renaming as written: the cube is stored under neither its old nor its new name. */
  lemma RenameDropsCube(cubes: Catalogue, cube: Cube, oldName: string)
    requires cubes.Valid() && NamedByKey(cubes)
    requires oldName != "" && oldName != cube.name && cube.name !in cubes.entries
    ensures var r := Stored(cubes, cube, Some(oldName)).value;
      oldName !in r.entries && cube.name !in r.entries
  {
  }

  /**
   * `setCube` as its renaming is meant: refused, as written, only when there
   * is no name at all (`oldName || cube.name` is empty); otherwise a named
   * cube is set under its own name, and the target name, when it is not the
   * cube's own, is deleted. A cube without a name under an old name removes
   * that name, which is what the code does too.
   */
  function Renamed(cubes: Catalogue, cube: Cube, oldName: Option<string>): (r: Option<Catalogue>)
    requires cubes.Valid()
    ensures r.None? <==> TargetName(cube, oldName) == ""
    ensures r.Some? ==> r.value.Valid()
    ensures cube.name != "" && TargetName(cube, oldName) == cube.name ==>
      r.Some? && r.value.entries == cubes.entries[cube.name := cube]
    ensures cube.name != "" && TargetName(cube, oldName) != cube.name ==>
      r.Some? && r.value.entries == cubes.entries[cube.name := cube] - {TargetName(cube, oldName)}
    ensures cube.name == "" && TargetName(cube, oldName) != "" ==>
      r.Some? && r.value.entries == cubes.entries - {TargetName(cube, oldName)}
  {
    var name := TargetName(cube, oldName);
    if name == "" then None
    else
      var kept := if cube.name == "" then cubes else cubes.Set(cube.name, cube);
      Some(if name != cube.name then kept.Delete(name) else kept)
  }

  /**
   * Renaming as meant: the cube is found under its new name, the old name is
   * gone, every other cube stays, and every cube is still under its own name.
   */
  lemma RenamedKeepsCube(cubes: Catalogue, cube: Cube, oldName: Option<string>)
    requires cubes.Valid() && cube.name != ""
    ensures var r := Renamed(cubes, cube, oldName).value;
      && cube.name in r.entries && r.entries[cube.name] == cube
      && (TargetName(cube, oldName) != cube.name ==> TargetName(cube, oldName) !in r.entries)
      && (forall k :: k != cube.name && k != TargetName(cube, oldName) ==>
            (k in r.entries <==> k in cubes.entries) && (k in r.entries ==> r.entries[k] == cubes.entries[k]))
  {
    var r := Renamed(cubes, cube, oldName).value;
    var name := TargetName(cube, oldName);
    var gone: set<string> := if name != cube.name then {name} else {};
    assert r.entries == cubes.entries[cube.name := cube] - gone;
  }

  /** Renaming as meant keeps every cube under its own name. */
  lemma RenamedKeepsNames(cubes: Catalogue, cube: Cube, oldName: Option<string>)
    requires cubes.Valid() && NamedByKey(cubes) && TargetName(cube, oldName) != ""
    ensures NamedByKey(Renamed(cubes, cube, oldName).value)
  {
    var r := Renamed(cubes, cube, oldName).value;
    var name := TargetName(cube, oldName);
    if cube.name == "" {
      assert r.entries == cubes.entries - {name};
    } else {
      var gone: set<string> := if name != cube.name then {name} else {};
      assert r.entries == cubes.entries[cube.name := cube] - gone;
      forall k | k in r.entries
        ensures r.entries[k].name == k
      {
        if k != cube.name {
          assert r.entries[k] == cubes.entries[k];
        }
      }
    }
  }

  /** Without a rename both agree, which is the only way the import stores cubes. */
  lemma StoredWithoutRename(cubes: Catalogue, cube: Cube)
    requires cubes.Valid()
    ensures Stored(cubes, cube, None) == Renamed(cubes, cube, None)
  {
  }

  /** The cubes whose name is selected, each kept in its place: `filter` with `includes`. */
  function Chosen(cubes: seq<Cube>, selections: seq<string>): seq<Cube> {
    if cubes == [] then []
    else (if cubes[0].name in selections then [cubes[0]] else []) + Chosen(cubes[1..], selections)
  }

  /** Choosing from two lists one after the other is choosing from each. */
  lemma {:induction false} ChosenAppend(a: seq<Cube>, b: seq<Cube>, selections: seq<string>)
    ensures Chosen(a + b, selections) == Chosen(a, selections) + Chosen(b, selections)
  {
    if a == [] {
      assert a + b == b;
    } else {
      assert (a + b)[1..] == a[1..] + b;
      ChosenAppend(a[1..], b, selections);
    }
  }

  /** `export`: all cubes in order, or only those whose name is selected, in their order. */
  function Selected(cubes: seq<Cube>, selections: seq<string>): (r: seq<Cube>)
    ensures selections == [] ==> r == cubes
    ensures selections != [] ==> r == Chosen(cubes, selections)
    ensures forall c :: c in r ==> c in cubes && (selections == [] || c.name in selections)
    ensures forall c :: c in cubes && (selections == [] || c.name in selections) ==> c in r
  {
    if selections == [] || cubes == [] then cubes
    else
      var init, last := cubes[..|cubes| - 1], cubes[|cubes| - 1];
      assert cubes == init + [last];
      ChosenAppend(init, [last], selections);
      Selected(init, selections) + (if last.name in selections then [last] else [])
  }

  /** The kind of message an action reports. */
  datatype MessageType = Success | Error | Warning

  /** The optional details of a message. */
  datatype Details = NoDetails | Count(n: nat) | Reason(text: string) | Names(names: seq<string>)

  /** `ActionResult` */
  datatype ActionResult = ActionResult(kind: MessageType, message: string, details: Details)

  /** The data given to `import`: nothing (null or empty), text that is not a JSON list, or the parsed list. */
  datatype ImportData = NoData | Malformed(error: string) | Parsed(cubes: seq<Cube>)

  /** The store's state while importing: catalogue, active cube, imported count and skipped names. */
  datatype Progress = Progress(cubes: Catalogue, active: Option<Cube>, count: nat, skipped: seq<string>)

  /** One cube of the import loop: skipped when its name is taken and `replace` is off, else set. */
  function ImportStep(p: Progress, cube: Cube, replace: bool): (r: Progress)
    requires p.cubes.Valid()
    ensures r.cubes.Valid()
  {
    if cube.name in p.cubes.entries && !replace then
      p.(skipped := p.skipped + [cube.name])
    else
      match Renamed(p.cubes, cube, None)
      case None => p.(count := p.count + 1)
      case Some(stored) => Progress(stored, DefaultActive(stored, p.active, Some(cube.name)), p.count + 1, p.skipped)
  }

  /** The import loop over `list`, from `p`. */
  function ImportAll(p: Progress, list: seq<Cube>, replace: bool): (r: Progress)
    requires p.cubes.Valid()
    ensures r.cubes.Valid()
  {
    if list == [] then p
    else ImportStep(ImportAll(p, list[..|list| - 1], replace), list[|list| - 1], replace)
  }

  /** Every cube of the list is either counted or skipped. */
  lemma {:induction false} ImportCounts(p: Progress, list: seq<Cube>, replace: bool)
    requires p.cubes.Valid()
    ensures var r := ImportAll(p, list, replace);
      r.count + |r.skipped| == p.count + |p.skipped| + |list|
      && (replace ==> r.skipped == p.skipped)
  {
    if list != [] {
      ImportCounts(p, list[..|list| - 1], replace);
    }
  }

  /**
   * Importing never removes a cube; without `replace` it never changes one
   * either, and it skips exactly the names already taken.
   */
  lemma {:induction false} ImportKeeps(p: Progress, list: seq<Cube>, replace: bool)
    requires p.cubes.Valid()
    ensures var r := ImportAll(p, list, replace);
      && (forall k :: k in p.cubes.entries ==> k in r.cubes.entries)
      && (!replace ==> forall k :: k in p.cubes.entries ==> r.cubes.entries[k] == p.cubes.entries[k])
      && |p.skipped| <= |r.skipped| && r.skipped[..|p.skipped|] == p.skipped
      && (forall k :: k in r.skipped[|p.skipped|..] ==> k in r.cubes.entries)
  {
    if list != [] {
      var q := ImportAll(p, list[..|list| - 1], replace);
      ImportKeeps(p, list[..|list| - 1], replace);
      var r := ImportStep(q, list[|list| - 1], replace);
      ImportStepKeeps(q, list[|list| - 1], replace);
      if r.skipped != q.skipped {
        assert r.skipped[|p.skipped|..] == q.skipped[|p.skipped|..] + [list[|list| - 1].name];
      }
    }
  }

  /** One step of the import keeps every cube, changes none without `replace`, and skips only a stored name. */
  lemma ImportStepKeeps(q: Progress, cube: Cube, replace: bool)
    requires q.cubes.Valid()
    ensures var r := ImportStep(q, cube, replace);
      && (forall k :: k in q.cubes.entries ==> k in r.cubes.entries)
      && (!replace ==> forall k :: k in q.cubes.entries ==> r.cubes.entries[k] == q.cubes.entries[k])
      && (r.skipped == q.skipped || (r.skipped == q.skipped + [cube.name] && cube.name in r.cubes.entries))
  {
  }

  /** After an import every named cube of the list is in the catalogue. */
  lemma {:induction false} ImportStoresNames(p: Progress, list: seq<Cube>, replace: bool)
    requires p.cubes.Valid()
    ensures var r := ImportAll(p, list, replace);
      forall i :: 0 <= i < |list| && list[i].name != "" ==> list[i].name in r.cubes.entries
  {
    if list != [] {
      var init := list[..|list| - 1];
      ImportStoresNames(p, init, replace);
      var q := ImportAll(p, init, replace);
      ImportKeeps(q, [list[|list| - 1]], replace);
      assert ImportAll(q, [list[|list| - 1]], replace) == ImportStep(ImportAll(q, [], replace), list[|list| - 1], replace) by {
        assert [list[|list| - 1]][..0] == [];
      }
      forall i | 0 <= i < |init| && list[i].name != ""
        ensures list[i].name in ImportAll(p, list, replace).cubes.entries
      {
        assert list[i] == init[i];
      }
    }
  }

  /** The message of an import that went through: the skipped names if any, else the count. */
  function ImportMessage(p: Progress): (r: ActionResult)
    ensures p.skipped != [] ==> r == ActionResult(Warning, "messages.skippingCubes", Names(p.skipped))
    ensures p.skipped == [] ==> r == ActionResult(Success, "messages.importSuccess", Count(p.count))
  {
    if p.skipped != [] then ActionResult(Warning, "messages.skippingCubes", Names(p.skipped))
    else ActionResult(Success, "messages.importSuccess", Count(p.count))
  }

  /** A snapshot of the history (`CubeHistory`, without its clock time). */
  datatype Snapshot = Snapshot(description: string, cube: Cube, notUndoable: bool)

  /** The history after recording `entry` at `index`: everything after `index` is dropped. */
  function Recorded(history: seq<Snapshot>, index: int, entry: Snapshot): (r: seq<Snapshot>)
    requires -1 <= index < |history|
    ensures |r| == index + 2 && r[..index + 1] == history[..index + 1] && r[index + 1] == entry
  {
    history[..index + 1] + [entry]
  }

  /** `undo`/`redo`: the target index, by default one step back (-1) or forward (+1). */
  function Target(index: Option<int>, historyIndex: int, step: int): int {
    index.GetOr(historyIndex + step)
  }

  /** After a snapshot is recorded there is nothing left to redo. */
  lemma RecordedClearsRedo(history: seq<Snapshot>, index: int, entry: Snapshot)
    requires -1 <= index < |history|
    ensures var h := Recorded(history, index, entry);
      Target(None, |h| - 1, 1) == |h| && Target(None, |h| - 1, -1) == index
      && (index >= 0 ==> h[index] == history[index])
  {
  }

  /** A selection by value (the cube itself) or by name. */
  datatype Selection = ByCube(cube: Cube) | ByName(name: string)

  class Store {
    var cubes: Catalogue
    var activeCube: Option<Cube>
    var history: seq<Snapshot>
    var historyIndex: int
    var tool: string

    ghost predicate Valid()
      reads this
    {
      cubes.Valid() && NamedByKey(cubes) && -1 <= historyIndex < |history|
    }

    /** The initial state: no cube, nothing active, an empty history, the 'hole' tool. */
    constructor()
      ensures Valid()
      ensures cubes == EmptyCatalogue && activeCube.None? && history == [] && historyIndex == -1 && tool == "hole"
    {
      cubes := EmptyCatalogue;
      activeCube := None;
      history := [];
      historyIndex := -1;
      tool := "hole";
    }

    /** `getCubeByName` */
    function GetCubeByName(name: string): (r: Option<Cube>)
      reads this
      requires Valid()
      ensures r.Some? ==> r.value.name == name && r.value in cubes.Values()
      ensures r.None? ==> forall c :: c in cubes.Values() ==> c.name != name
    {
      cubes.Get(name)
    }

    /** `setDefaultCube` */
    method SetDefaultCube(cubeName: Option<string>)
      requires Valid()
      modifies this
      ensures Valid()
      ensures activeCube == DefaultActive(cubes, old(activeCube), cubeName)
      ensures cubes == old(cubes) && history == old(history) && historyIndex == old(historyIndex) && tool == old(tool)
    {
      if activeCube.None? {
        if cubeName.Some? && cubeName.value != "" {
          var cube := GetCubeByName(cubeName.value);
          if cube.Some? {
            activeCube := Some(StoreCopy(cube.value));
          }
        } else {
          var values := cubes.Values();
          if |values| > 0 {
            activeCube := Some(StoreCopy(values[0]));
          }
        }
      }
    }

    /**
     * `setCube`, with the renaming as it is meant (see `Renamed`): `true`
     * unless neither the old name nor the cube's name is given, and then
     * the cube is stored under its own name.
     */
    method SetCube(cube: Cube, oldName: Option<string>) returns (ok: bool)
      requires Valid()
      modifies this
      ensures Valid()
      ensures ok <==> TargetName(cube, oldName) != ""
      ensures ok ==>
        cubes == Renamed(old(cubes), cube, oldName).value && activeCube == DefaultActive(cubes, old(activeCube), Some(cube.name))
      ensures !ok ==> cubes == old(cubes) && activeCube == old(activeCube)
      ensures history == old(history) && historyIndex == old(historyIndex) && tool == old(tool)
    {
      var name := TargetName(cube, oldName);
      if name == "" {
        return false;
      }
      RenamedKeepsNames(cubes, cube, oldName);
      if cube.name != "" {
        cubes := cubes.Set(cube.name, cube);
      }
      if name != cube.name {
        cubes := cubes.Delete(name);
      }
      SetDefaultCube(Some(cube.name));
      ok := true;
    }

    /** `createNewCube`: the blank cube becomes active. */
    method CreateNewCube()
      requires Valid()
      modifies this
      ensures Valid()
      ensures activeCube == Some(BlankCube)
      ensures cubes == old(cubes) && history == old(history) && historyIndex == old(historyIndex) && tool == old(tool)
    {
      activeCube := Some(BlankCube);
    }

    /** `deleteCube`: removes the cube's name and tells whether it was there. */
    method DeleteCube(cube: Cube) returns (found: bool)
      requires Valid()
      modifies this
      ensures Valid()
      ensures found <==> cube.name in old(cubes).entries
      ensures cubes == old(cubes).Delete(cube.name)
      ensures activeCube == DefaultActive(cubes, old(activeCube), None)
      ensures history == old(history) && historyIndex == old(historyIndex) && tool == old(tool)
    {
      found := cube.name in cubes.entries;
      cubes := cubes.Delete(cube.name);
      SetDefaultCube(None);
    }

    /** `selectCube`: a given cube becomes active as it is; a name only when it is found. */
    method SelectCube(selection: Selection)
      requires Valid()
      modifies this
      ensures Valid()
      ensures selection.ByCube? ==> activeCube == Some(selection.cube)
      ensures selection.ByName? ==>
        activeCube == (if selection.name in cubes.entries then Some(cubes.entries[selection.name]) else old(activeCube))
      ensures cubes == old(cubes) && history == old(history) && historyIndex == old(historyIndex) && tool == old(tool)
    {
      match selection
      case ByCube(cube) =>
        activeCube := Some(cube);
      case ByName(name) =>
        var cube := GetCubeByName(name);
        if cube.None? {
          return;
        }
        activeCube := cube;
    }

    /** The cubes `export` serialises, in catalogue order. */
    function Export(selections: seq<string>): (r: seq<Cube>)
      reads this
      requires Valid()
      ensures selections == [] ==> r == cubes.Values()
      ensures selections != [] ==> r == Chosen(cubes.Values(), selections)
      ensures forall c :: c in r <==> c in cubes.Values() && (selections == [] || c.name in selections)
    {
      Selected(cubes.Values(), selections)
    }

    /**
     * `import`: for parsed data, every cube goes through `setCube` unless its
     * name is taken and `replace` is off, in which case it is skipped.
     */
    method Import(data: ImportData, replace: bool) returns (result: ActionResult)
      requires Valid()
      modifies this
      ensures Valid()
      ensures data.NoData? ==> result == ActionResult(Warning, "messages.enterJsonData", NoDetails)
      ensures data.Malformed? ==> result == ActionResult(Error, "messages.invalidJsonFormat", Reason(data.error))
      ensures !data.Parsed? ==> cubes == old(cubes) && activeCube == old(activeCube)
      ensures data.Parsed? ==>
        var p := ImportAll(Progress(old(cubes), old(activeCube), 0, []), data.cubes, replace);
        cubes == p.cubes && activeCube == p.active && result == ImportMessage(p)
      ensures history == old(history) && historyIndex == old(historyIndex) && tool == old(tool)
    {
      match data
      case NoData =>
        return ActionResult(Warning, "messages.enterJsonData", NoDetails);
      case Malformed(error) =>
        return ActionResult(Error, "messages.invalidJsonFormat", Reason(error));
      case Parsed(list) =>
        var importedCubes, skipped := ImportCubes(list, replace);
        result := ImportMessage(Progress(cubes, activeCube, importedCubes, skipped));
    }

    /** The loop of `importCubes`: each cube of the list is skipped or set, in order. */
    method ImportCubes(list: seq<Cube>, replace: bool) returns (importedCubes: nat, skipped: seq<string>)
      requires Valid()
      modifies this
      ensures Valid()
      ensures ImportAll(Progress(old(cubes), old(activeCube), 0, []), list, replace)
        == Progress(cubes, activeCube, importedCubes, skipped)
      ensures history == old(history) && historyIndex == old(historyIndex) && tool == old(tool)
    {
      skipped := [];
      importedCubes := 0;
      ghost var start := Progress(cubes, activeCube, 0, []);
      for i := 0 to |list|
        invariant Valid()
        invariant ImportAll(start, list[..i], replace) == Progress(cubes, activeCube, importedCubes, skipped)
        invariant history == old(history) && historyIndex == old(historyIndex) && tool == old(tool)
      {
        var cube := list[i];
        ghost var step := ImportStep(Progress(cubes, activeCube, importedCubes, skipped), cube, replace);
        assert ImportAll(start, list[..i + 1], replace) == step by {
          assert list[..i + 1][..i] == list[..i];
        }
        if cube.name in cubes.entries && !replace {
          skipped := skipped + [cube.name];
        } else {
          var _ := SetCube(cube, None);
          importedCubes := importedCubes + 1;
        }
      }
      assert list[..|list|] == list;
    }

    /** `addToHistory`: with an active cube, drops the redo part and records a copy of it. */
    method AddToHistory(description: string, notUndoable: bool)
      requires Valid()
      modifies this
      ensures Valid()
      ensures old(activeCube).None? ==> history == old(history) && historyIndex == old(historyIndex)
      ensures old(activeCube).Some? ==>
        history == Recorded(old(history), old(historyIndex), Snapshot(description, StoreCopy(old(activeCube).value), notUndoable))
        && historyIndex == |history| - 1
      ensures cubes == old(cubes) && activeCube == old(activeCube) && tool == old(tool)
    {
      if activeCube.None? {
        return;
      }
      if historyIndex < |history| - 1 {
        history := history[..historyIndex + 1];
      }
      history := history + [Snapshot(description, StoreCopy(activeCube.value), notUndoable)];
      historyIndex := |history| - 1;
    }

    /** `undo` and `redo`: move to the target when it is a history index, and restore a copy of its cube. */
    method Travel(index: Option<int>, step: int)
      requires Valid()
      modifies this
      ensures Valid()
      ensures var target := Target(index, old(historyIndex), step);
        if 0 <= target < |history| then
          historyIndex == target && activeCube == Some(StoreCopy(history[target].cube))
        else
          historyIndex == old(historyIndex) && activeCube == old(activeCube)
      ensures cubes == old(cubes) && history == old(history) && tool == old(tool)
    {
      var target := Target(index, historyIndex, step);
      if 0 <= target < |history| {
        historyIndex := target;
        activeCube := Some(StoreCopy(history[historyIndex].cube));
      }
    }

    /** `undo`: by default one step back. */
    method Undo(index: Option<int>)
      requires Valid()
      modifies this
      ensures Valid()
      ensures var target := Target(index, old(historyIndex), -1);
        if 0 <= target < |history| then
          historyIndex == target && activeCube == Some(StoreCopy(history[target].cube))
        else
          historyIndex == old(historyIndex) && activeCube == old(activeCube)
      ensures cubes == old(cubes) && history == old(history) && tool == old(tool)
    {
      Travel(index, -1);
    }

    /** `redo`: by default one step forward. */
    method Redo(index: Option<int>)
      requires Valid()
      modifies this
      ensures Valid()
      ensures var target := Target(index, old(historyIndex), 1);
        if 0 <= target < |history| then
          historyIndex == target && activeCube == Some(StoreCopy(history[target].cube))
        else
          historyIndex == old(historyIndex) && activeCube == old(activeCube)
      ensures cubes == old(cubes) && history == old(history) && tool == old(tool)
    {
      Travel(index, 1);
    }
  }
}
