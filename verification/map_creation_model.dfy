/**
 * The map editor's model (examples/weboir44/static/js/MapCreationModel.js):
 * a hex map stored as rows of alternating length, indexed by axial
 * coordinates through an offset of floor(row / 2), and the editor's tool
 * selection driven by application events.
 *
 * Grid coordinates are integers: the lookups index arrays with them.
 */
module MapCreationModel {
  import opened Wrappers
  import Model

  type TileType = string

  /** `HexModel`: an axial position and its terrain type; its getters are the fields. */
  datatype HexModel = HexModel(row: int, col: int, baseType: TileType)

  /** The grid's storage: an array of rows. */
  type Grid = seq<seq<HexModel>>

  /** Length of row `row` in a fresh map whose even rows hold `topWidth` hexes. */
  function RowLength(row: nat, topWidth: int): nat {
    var n := if row % 2 == 0 then topWidth else topWidth - 1;
    if n < 0 then 0 else n
  }

  /** The map `_initializeMap(height, topWidth)` builds. */
  ghost predicate IsInitialMap(g: Grid, height: int, topWidth: int) {
    && |g| == (if height < 0 then 0 else height)
    && (forall r :: 0 <= r < |g| ==> |g[r]| == RowLength(r, topWidth))
    && (forall r, i :: 0 <= r < |g| && 0 <= i < |g[r]| ==> g[r][i] == HexModel(r, i - r / 2, "field"))
  }

  /** Every stored hex sits at the index its coordinates name. */
  ghost predicate StoredAtOffset(g: Grid) {
    forall r, i :: 0 <= r < |g| && 0 <= i < |g[r]| ==> g[r][i].row == r && g[r][i].col == i - r / 2
  }

  /** No row is longer than row 0 (the lookup bounds every column by row 0's length). */
  ghost predicate RowsWithinTop(g: Grid) {
    forall r :: 0 <= r < |g| ==> |g[r]| <= |g[0]|
  }

  /** `_initializeMap`: nested loops pushing field hexes row by row. */
  method InitializeMap(height: int, topWidth: int) returns (g: Grid)
    ensures IsInitialMap(g, height, topWidth)
  {
    g := [];
    var row := 0;
    while row < height
      invariant 0 <= row <= (if height < 0 then 0 else height)
      invariant |g| == row
      invariant forall r :: 0 <= r < row ==> |g[r]| == RowLength(r, topWidth)
      invariant forall r, i :: 0 <= r < row && 0 <= i < |g[r]| ==> g[r][i] == HexModel(r, i - r / 2, "field")
    {
      var newRow: seq<HexModel> := [];
      var rowLength := if row % 2 == 0 then topWidth else topWidth - 1;
      var col := 0;
      while col < rowLength
        invariant 0 <= col <= (if rowLength < 0 then 0 else rowLength)
        invariant |newRow| == col
        invariant forall i :: 0 <= i < col ==> newRow[i] == HexModel(row, i - row / 2, "field")
      {
        var offsetCol := col - row / 2;
        newRow := newRow + [HexModel(row, offsetCol, "field")];
        col := col + 1;
      }
      g := g + [newRow];
      row := row + 1;
    }
  }

  /** `getHeight`. */
  function GetHeight(g: Grid): nat {
    |g|
  }

  /**
   * `getRowWidth` as written: its guard is `row > length`, so `row == length`
   * on a non-empty grid reads `.length` of a missing row, a TypeError
   * (`None` here).
   */
  function GetRowWidthAsWritten(g: Grid, row: int): (w: Option<nat>)
    ensures w.None? <==> |g| >= 1 && row == |g|
    ensures w.Some? ==> w.value == GetRowWidth(g, row)
  {
    if |g| < 1 then Some(0)
    else if row < 0 || row > |g| then Some(0)
    else if row < |g| then Some(|g[row]|)
    else None
  }

  /** `getRowWidth` with the guard `row >= length` the code evidently intends. */
  function GetRowWidth(g: Grid, row: int): (w: nat)
    ensures 0 <= row < |g| ==> w == |g[row]|
    ensures !(0 <= row < |g|) ==> w == 0
  {
    if |g| < 1 then 0
    else if row < 0 || row >= |g| then 0
    else |g[row]|
  }

  /**
   * `getHex`: the stored hex at axial (row, col). The column bound is row
   * 0's length; an index past a shorter row yields `undefined`, which is
   * absent too.
   */
  function GetHex(g: Grid, row: int, col: int): Option<HexModel> {
    if |g| < 1 || |g[0]| < 1 then None
    else if 0 <= row < |g| then
      var offsetCol := col + row / 2;
      if 0 <= offsetCol < |g[0]| then
        if offsetCol < |g[row]| then Some(g[row][offsetCol]) else None
      else None
    else None
  }

  /** `contains`: `getHex(...) != null`, which treats `undefined` as absent as well. */
  predicate Contains(g: Grid, row: int, col: int) {
    GetHex(g, row, col).Some?
  }

  /** The grid after `updateHex(hex, t)`: the targeted hex takes type `t`, nothing else changes. */
  function WithTileType(g: Grid, row: int, col: int, t: TileType): (g': Grid)
    ensures |g'| == |g|
    ensures forall r :: 0 <= r < |g| ==> |g'[r]| == |g[r]|
    ensures forall r, i :: 0 <= r < |g| && 0 <= i < |g[r]| ==>
      g'[r][i] == if Contains(g, row, col) && r == row && i == col + row / 2
                  then g[r][i].(baseType := t) else g[r][i]
  {
    if Contains(g, row, col) then
      var offsetCol := col + row / 2;
      g[row := g[row][offsetCol := g[row][offsetCol].(baseType := t)]]
    else g
  }

  /** The rows concatenated in row order. */
  function Flatten(g: Grid): seq<HexModel> {
    if g == [] then [] else Flatten(g[..|g| - 1]) + g[|g| - 1]
  }

  function SumLengths(g: Grid): nat {
    if g == [] then 0 else SumLengths(g[..|g| - 1]) + |g[|g| - 1]|
  }

  // ---------------------------------------------------------------------
  // Properties of the grid

  /** A fresh map has `height` rows, full even rows and one-shorter odd rows, in the shape the lookups expect. */
  lemma InitialMapShape(g: Grid, height: int, topWidth: int)
    requires IsInitialMap(g, height, topWidth)
    ensures GetHeight(g) == (if height < 0 then 0 else height)
    ensures forall r :: 0 <= r < |g| ==> GetRowWidth(g, r) == RowLength(r, topWidth)
    ensures StoredAtOffset(g) && RowsWithinTop(g)
  {
  }

  /** `contains` holds exactly for rows in range and offset columns inside that row. */
  lemma ContainsIff(g: Grid, row: int, col: int)
    requires RowsWithinTop(g)
    ensures Contains(g, row, col) <==> 0 <= row < |g| && 0 <= col + row / 2 < |g[row]|
  {
    if 0 <= row < |g| && 0 <= col + row / 2 < |g[row]| {
      assert |g[row]| <= |g[0]|;
    }
  }

  /** Every stored hex is found again by `getHex` at its own coordinates. */
  lemma GetHexFindsStored(g: Grid, r: int, i: int)
    requires StoredAtOffset(g) && RowsWithinTop(g)
    requires 0 <= r < |g| && 0 <= i < |g[r]|
    ensures GetHex(g, g[r][i].row, g[r][i].col) == Some(g[r][i])
  {
    assert |g[r]| <= |g[0]|;
    assert g[r][i].col + r / 2 == i;
  }

  /** Painting a hex keeps the grid's shape, so what it contains and where hexes are stored. */
  lemma WithTileTypeKeepsShape(g: Grid, row: int, col: int, t: TileType)
    requires StoredAtOffset(g) && RowsWithinTop(g)
    ensures StoredAtOffset(WithTileType(g, row, col, t)) && RowsWithinTop(WithTileType(g, row, col, t))
    ensures forall r, c :: Contains(WithTileType(g, row, col, t), r, c) <==> Contains(g, r, c)
  {
    var g' := WithTileType(g, row, col, t);
    forall r, c ensures Contains(g', r, c) <==> Contains(g, r, c) {
      ContainsIff(g, r, c);
      ContainsIff(g', r, c);
    }
  }

  /** After painting a contained hex, `getHex` returns it with the new type. */
  lemma WithTileTypePaints(g: Grid, row: int, col: int, t: TileType)
    requires Contains(g, row, col)
    ensures GetHex(WithTileType(g, row, col, t), row, col) == Some(GetHex(g, row, col).value.(baseType := t))
  {
  }

  lemma {:induction false} FlattenLength(g: Grid)
    ensures |Flatten(g)| == SumLengths(g)
  {
    if g != [] {
      FlattenLength(g[..|g| - 1]);
    }
  }

  /** `getAllHexes` lists exactly the stored hexes. */
  lemma {:induction false} FlattenMembers(g: Grid, e: HexModel)
    ensures e in Flatten(g) <==> exists r, i :: 0 <= r < |g| && 0 <= i < |g[r]| && g[r][i] == e
  {
    if g != [] {
      var init := g[..|g| - 1];
      FlattenMembers(init, e);
      if e in Flatten(g) {
        if e !in Flatten(init) {
          var i :| 0 <= i < |g[|g| - 1]| && g[|g| - 1][i] == e;
        } else {
          var r, i :| 0 <= r < |init| && 0 <= i < |init[r]| && init[r][i] == e;
          assert g[r][i] == e;
        }
      }
      if exists r, i :: 0 <= r < |g| && 0 <= i < |g[r]| && g[r][i] == e {
        var r, i :| 0 <= r < |g| && 0 <= i < |g[r]| && g[r][i] == e;
        if r < |g| - 1 {
          assert init[r][i] == e;
        } else {
          assert e in g[|g| - 1];
        }
      }
    }
  }

  /**
   * `GridModel`: the map, whose hexes `updateHex` changes in place. The
   * grid extends the base model in the source; that tick state is not
   * repeated here.
   */
  class GridModel {
    var hexes: Grid

    constructor(mapHeight: int, mapTopWidth: int)
      ensures IsInitialMap(hexes, mapHeight, mapTopWidth)
    {
      var rows := InitializeMap(mapHeight, mapTopWidth);
      hexes := rows;
    }

    /** `updateHex`: a no-op unless the grid contains the hex. */
    method UpdateHex(row: int, col: int, t: TileType)
      modifies this
      ensures hexes == WithTileType(old(hexes), row, col, t)
    {
      if Contains(hexes, row, col) {
        var offsetCol := col + row / 2;
        hexes := hexes[row := hexes[row][offsetCol := hexes[row][offsetCol].(baseType := t)]];
      }
    }

    /** `getAllHexes`: concatenates the rows, one loop step per row. */
    method GetAllHexes() returns (all: seq<HexModel>)
      ensures all == Flatten(hexes)
    {
      all := [];
      var row := 0;
      while row < |hexes|
        invariant 0 <= row <= |hexes|
        invariant all == Flatten(hexes[..row])
      {
        assert hexes[..row + 1][..row] == hexes[..row];
        all := all + hexes[row];
        row := row + 1;
      }
      assert hexes[..|hexes|] == hexes;
    }
  }

  // ---------------------------------------------------------------------
  // The editor's tool state

  /** The construction and load parameters; a missing entry takes its default. */
  datatype MapParams = MapParams(hexRows: Option<int>, hexCols: Option<int>)

  /**
   * An application event's payload: a hex, a tile type name, `null` or
   * `undefined` (one case, since both throw on a property read), or any
   * other value.
   */
  datatype EventData = HexData(row: int, col: int) | TileName(name: string) | NullData | OtherData

  datatype ModelEvent = ModelEvent(kind: string, data: EventData)

  const DefaultParams: MapParams := MapParams(Some(9), Some(13))

  /** The keys of the tileset `_load` installs. */
  const MapTileset: set<TileType> := {"field", "city", "forrest", "hill"}

  const HandledEvents: seq<string> := ["grid-hex-activated", "hex-tool-activated"]

  /** The selected tool after an event, as `handleEvent` dispatches on the event's type. */
  function ToolAfter(tool: TileType, e: ModelEvent, tileset: set<TileType>): TileType {
    if e.kind == "hex-tool-activated" && e.data.TileName? && e.data.name in tileset then e.data.name
    else tool
  }

  /** The grid after an event, as `handleEvent` dispatches on the event's type. */
  function GridAfter(g: Grid, tool: TileType, e: ModelEvent): Grid {
    if e.kind == "grid-hex-activated" && e.data.HexData? then WithTileType(g, e.data.row, e.data.col, tool)
    else g
  }

  /** The selected tool is only ever replaced by a key of the tileset. */
  lemma ToolStaysInTileset(tool: TileType, e: ModelEvent, tileset: set<TileType>)
    requires tool in tileset
    ensures ToolAfter(tool, e, tileset) in tileset
    ensures ToolAfter(tool, e, tileset) != tool ==> e.kind == "hex-tool-activated" && e.data == TileName(ToolAfter(tool, e, tileset))
  {
  }

  /** A `grid-hex-activated` event on a contained hex paints it with the current tool. */
  lemma HexActivatedPaintsWithTool(g: Grid, tool: TileType, e: ModelEvent)
    requires e.kind == "grid-hex-activated" && e.data.HexData? && Contains(g, e.data.row, e.data.col)
    ensures GetHex(GridAfter(g, tool, e), e.data.row, e.data.col) == Some(GetHex(g, e.data.row, e.data.col).value.(baseType := tool))
  {
    WithTileTypePaints(g, e.data.row, e.data.col, tool);
  }

  /** An event of any other type changes neither the tool nor the grid. */
  lemma OtherEventsChangeNothing(g: Grid, tool: TileType, e: ModelEvent, tileset: set<TileType>)
    requires e.kind !in HandledEvents
    ensures ToolAfter(tool, e, tileset) == tool && GridAfter(g, tool, e) == g
  {
  }

  /** `MapCreationModel`: owns the grid and the selected tile tool. */
  class MapCreationModel {
    var params: MapParams
    var hexGrid: GridModel?
    /** The tileset's keys; empty until `_load` installs the tileset. */
    var tileset: set<TileType>
    var selectedTileTool: TileType
    var coordinator: Option<nat>
    const handledInputs: seq<string>
    const handledEvents: seq<string>

    ghost predicate Valid()
      reads this
    {
      && selectedTileTool in MapTileset
      && (hexGrid != null ==> tileset == MapTileset)
      && (hexGrid == null ==> tileset == {})
    }

    /** A missing `params` becomes 9 rows of 13. */
    constructor(params: Option<MapParams>)
      ensures Valid()
      ensures this.params == params.GetOr(DefaultParams)
      ensures hexGrid == null && tileset == {} && selectedTileTool == "field"
      ensures coordinator == None
      ensures handledInputs == [] && handledEvents == HandledEvents
    {
      this.params := params.GetOr(DefaultParams);
      hexGrid := null;
      tileset := {};
      selectedTileTool := "field";
      coordinator := None;
      handledInputs := [];
      handledEvents := HandledEvents;
    }

    /** `_load`: announces itself, builds the grid (9 by 13 by default) and installs the tileset. */
    method Load(p: MapParams) returns (calls: seq<Model.CoordinatorCall>)
      requires Valid()
      modifies this`hexGrid, this`tileset
      ensures Valid() && calls == Model.LoadCalls
      ensures hexGrid != null && fresh(hexGrid)
      ensures IsInitialMap(hexGrid.hexes, p.hexRows.GetOr(9), p.hexCols.GetOr(13))
      ensures tileset == MapTileset
    {
      calls := Model.LoadCalls;
      hexGrid := new GridModel(p.hexRows.GetOr(9), p.hexCols.GetOr(13));
      tileset := MapTileset;
    }

    /** The inherited `init`: loads only when no parameters are passed, then registers the handled kinds. */
    method Init(coordinator: nat, params: Option<MapParams>) returns (calls: seq<Model.CoordinatorCall>)
      requires Valid()
      modifies this`coordinator, this`hexGrid, this`tileset
      ensures Valid() && this.coordinator == Some(coordinator)
      ensures calls == Model.InitCalls(params.None?, handledInputs, handledEvents)
      ensures params.None? ==>
                hexGrid != null && fresh(hexGrid)
                && IsInitialMap(hexGrid.hexes, this.params.hexRows.GetOr(9), this.params.hexCols.GetOr(13))
      ensures params.Some? ==> hexGrid == old(hexGrid) && tileset == old(tileset)
    {
      this.coordinator := Some(coordinator);
      calls := [];
      if params.None? {
        calls := Load(this.params);
      }
      calls := calls + [Model.RegisterInputs(handledInputs), Model.RegisterEvents(handledEvents)];
    }

    /**
     * `_handleHexActivated`: paints the hex with the selected tool; a payload
     * that is not a hex is never contained. Before `_load` there is no grid,
     * and a `null` payload fails in `contains` reading `hex.row`: both
     * throw, which `thrown` reports, and a throw paints nothing.
     */
    method HandleHexActivated(data: EventData) returns (thrown: bool)
      requires Valid()
      modifies hexGrid
      ensures thrown <==> hexGrid == null || data == NullData
      ensures hexGrid != null ==> hexGrid.hexes == GridAfter(old(hexGrid.hexes), selectedTileTool, ModelEvent("grid-hex-activated", data))
    {
      if hexGrid == null {
        return true;
      }
      if data.NullData? {
        return true;
      }
      thrown := false;
      if data.HexData? {
        hexGrid.UpdateHex(data.row, data.col, selectedTileTool);
      }
    }

    /**
     * `_handleHexToolActivated`: selects the named tool if the tileset has
     * it. Before `_load` the tileset is missing and the `in` test throws.
     */
    method HandleHexToolActivated(data: EventData) returns (thrown: bool)
      requires Valid()
      modifies this`selectedTileTool
      ensures Valid()
      ensures thrown <==> hexGrid == null
      ensures thrown ==> selectedTileTool == old(selectedTileTool)
      ensures selectedTileTool == ToolAfter(old(selectedTileTool), ModelEvent("hex-tool-activated", data), tileset)
    {
      if hexGrid == null {
        return true;
      }
      thrown := false;
      if data.TileName? && data.name in tileset {
        selectedTileTool := data.name;
      }
    }

    /**
     * `handleEvent`: dispatch on the event's type; any other type is only
     * reported. A handled type throws when the model was never loaded, and
     * `grid-hex-activated` also throws on a `null` payload.
     */
    method HandleEvent(e: ModelEvent) returns (thrown: bool)
      requires Valid()
      modifies this`selectedTileTool, hexGrid
      ensures Valid() && hexGrid == old(hexGrid)
      ensures thrown <==>
        || (hexGrid == null && e.kind in HandledEvents)
        || (e.kind == "grid-hex-activated" && e.data == NullData)
      ensures selectedTileTool == ToolAfter(old(selectedTileTool), e, tileset)
      ensures hexGrid != null ==> hexGrid.hexes == GridAfter(old(hexGrid.hexes), old(selectedTileTool), e)
    {
      thrown := false;
      if e.kind == "grid-hex-activated" {
        thrown := HandleHexActivated(e.data);
      } else if e.kind == "hex-tool-activated" {
        thrown := HandleHexToolActivated(e.data);
      }
    }
  }
}
