/**
 * The map editor's widgets (examples/weboir44/static/js/MapCreationUI.js):
 * the tile set, the tile palette that toggles the painting tool, the hex
 * grid that turns a click into a hex, and the root layout that places the
 * two frames side by side. Drawing on the canvas is not modelled; what the
 * widgets compute before drawing (centres, the clicked hex, the notices
 * sent to the listener) is.
 */
module MapCreationUi {
  import opened Wrappers
  import opened HexLibrary
  import opened RegionTree
  import opened Ui
  import MapCreationModel

  datatype Tile = Tile(name: string, color: string)

  /** `UITileSet.tiles`: an object keyed by tile name, in insertion order. */
  const TileMap: seq<(string, Tile)> :=
    [("field", Tile("field", "#88cc00")), ("city", Tile("city", "#b3b3b3"))]

  /** `types`: the object's keys. */
  function Types(): seq<string> {
    MapKeys(TileMap)
  }

  /** `size`: the number of keys. */
  function Size(): nat {
    |Types()|
  }

  /** `getTileFromType`: the tile stored under the name, or nothing. */
  function GetTileFromType(t: string): (r: Option<Tile>)
    ensures r.Some? <==> t in Types()
  {
    MapGet(TileMap, t)
  }

  /** The tile set holds exactly field and city, in that order, each under its own name. */
  lemma TileSetContents(t: string)
    ensures Size() == 2 && Types() == ["field", "city"]
    ensures GetTileFromType(t).Some? <==> t == "field" || t == "city"
    ensures GetTileFromType(t).Some? ==> GetTileFromType(t).value.name == t
    ensures GetTileFromType("field") == Some(Tile("field", "#88cc00"))
    ensures GetTileFromType("city") == Some(Tile("city", "#b3b3b3"))
  {
    assert Types() == ["field", "city"];
  }

  /** What a widget hands its listener through `handleEvent(kind, data)`. */
  datatype NoticeData = TileData(tile: Tile) | HexData(hex: Hex)
  datatype Notice = Notice(kind: string, data: NoticeData)

  // ---------------------------------------------------------------- palette

  /** `_tileSize` of the palette. */
  const TileSize: real := 45.0

  /** The tile a palette click selects: city gives way to field, anything else to city. */
  function Toggled(t: Tile): Tile {
    if t.name == "city" then GetTileFromType("field").GetOr(t) else GetTileFromType("city").GetOr(t)
  }

  /** Each click switches between the two tiles of the set; two clicks restore the selection. */
  lemma ToggleAlternates(t: Tile)
    requires Some(t) == GetTileFromType(t.name)
    ensures Some(Toggled(t)) == GetTileFromType(Toggled(t).name)
    ensures Toggled(t) != t && Toggled(Toggled(t)) == t
  {
    TileSetContents(t.name);
    TileSetContents("field");
    TileSetContents("city");
  }

  /** The centre of the palette's `i`th tile in `_render`. */
  function PaletteCentre(frame: Region, i: nat): Point {
    Point(frame.originX + frame.width / 2.0, frame.originY + (i as real) * (TileSize * 2.5) + 50.0)
  }

  /** The tiles are stacked in one column, each strictly below the one before. */
  lemma PaletteCentresDescend(frame: Region, i: nat, j: nat)
    requires i < j
    ensures PaletteCentre(frame, i).x == PaletteCentre(frame, j).x
    ensures PaletteCentre(frame, j).y - PaletteCentre(frame, i).y >= TileSize * 2.5
  {
    assert (j as real) - (i as real) >= 1.0;
    assert (j as real) * (TileSize * 2.5) - (i as real) * (TileSize * 2.5) == ((j as real) - (i as real)) * (TileSize * 2.5);
  }

  /** `TilePalleteFrame`: the selected tile; the frame's region lives in the UI arena. */
  class TilePalette {
    var selectedTile: Tile

    constructor()
      ensures Some(selectedTile) == GetTileFromType("field")
    {
      TileSetContents("field");
      selectedTile := GetTileFromType("field").value;
    }

    /**
     * `_handleClick` on the palette whose region is `frame`: only an
     * adopted palette hit inside its bounds toggles the tile and tells the
     * listener; any other click changes nothing and tells nobody.
     */
    method HandleClick(frame: Region, x: real, y: real) returns (notice: Option<Notice>)
      modifies this`selectedTile
      ensures frame.parent.Some? && WithinBounds(frame, x, y) ==>
        selectedTile == Toggled(old(selectedTile)) && notice == Some(Notice("tileToolClicked", TileData(selectedTile)))
      ensures !(frame.parent.Some? && WithinBounds(frame, x, y)) ==>
        selectedTile == old(selectedTile) && notice == None
    {
      notice := None;
      if frame.parent.Some? {
        if WithinBounds(frame, x, y) {
          if selectedTile.name == "city" {
            selectedTile := GetTileFromType("field").GetOr(selectedTile);
          } else {
            selectedTile := GetTileFromType("city").GetOr(selectedTile);
          }
          notice := Some(Notice("tileToolClicked", TileData(selectedTile)));
        }
      }
    }

    /**
     * `_render`: one (centre, type) per tile type, in key order, in a
     * single column from the top; every type drawn has a colour.
     */
    method RenderTiles(frame: Region) returns (draws: seq<(Point, string)>)
      ensures |draws| == Size()
      ensures forall i :: 0 <= i < |draws| ==> draws[i].1 == Types()[i] && GetTileFromType(draws[i].1).Some?
      ensures forall i :: 0 <= i < |draws| ==> draws[i].0 == PaletteCentre(frame, i)
      ensures forall i, j :: 0 <= i < j < |draws| ==> draws[i].0.x == draws[j].0.x && draws[i].0.y < draws[j].0.y
    {
      var tileTypes := Types();
      draws := [];
      var i := 0;
      while i < |tileTypes|
        invariant 0 <= i <= |tileTypes|
        invariant |draws| == i
        invariant forall k :: 0 <= k < i ==> draws[k] == (PaletteCentre(frame, k), tileTypes[k])
      {
        draws := draws + [(PaletteCentre(frame, i), tileTypes[i])];
        i := i + 1;
      }
      forall i, j | 0 <= i < j < |draws|
        ensures draws[i].0.x == draws[j].0.x && draws[i].0.y < draws[j].0.y
      {
        PaletteCentresDescend(frame, i, j);
      }
    }
  }

  // ------------------------------------------------------------------- grid

  /** `_hexSize`: pixels from a hex's centre to a corner. */
  const HexSize: real := 30.0

  /** `_gridOffset`: the grid starts one hex height in from the frame's corner. */
  function GridOffset(): (o: real)
    ensures o == 2.0 * HexSize && o == 60.0
  {
    HexSize * 2.0
  }

  /** `_rowColToPixelCenter`: the centre of the hex at (row, col), shifted by the offset. */
  function RowColToPixelCenter(row: int, col: int, root3: real): Point {
    var natural := ToPixel(Hex(row as real, col as real), HexSize, root3);
    Point(natural.x + GridOffset(), natural.y + GridOffset())
  }

  /** The hex under a click, as `pixelToHex` of the click minus the offset. */
  function ClickedHex(x: real, y: real, root3: real): (h: Hex)
    ensures IsIntegralHex(h)
  {
    PixelToHex(Point(x - GridOffset(), y - GridOffset()), HexSize, root3)
  }

  /**
   * `HexGridFrame._handleClick` on the grid whose region is `frame`, over
   * the grid model's hexes: the listener hears `mapHexClicked` with the
   * clicked hex exactly when the frame is adopted, the click is inside it
   * and the hex is on the map.
   */
  function GridClick(frame: Region, grid: MapCreationModel.Grid, x: real, y: real, root3: real): (r: Option<Notice>)
    ensures r.Some? <==>
      && frame.parent.Some? && WithinBounds(frame, x, y)
      && MapCreationModel.Contains(grid, ClickedHex(x, y, root3).row.Floor, ClickedHex(x, y, root3).col.Floor)
    ensures r.Some? ==> r.value == Notice("mapHexClicked", HexData(ClickedHex(x, y, root3)))
  {
    if frame.parent.None? then None
    else if !WithinBounds(frame, x, y) then None
    else
      var h := ClickedHex(x, y, root3);
      if MapCreationModel.Contains(grid, h.row.Floor, h.col.Floor) then Some(Notice("mapHexClicked", HexData(h)))
      else None
  }

  /** Clicking the drawn centre of a hex on the map reports that very hex. */
  lemma ClickOnCentreSelectsHex(frame: Region, grid: MapCreationModel.Grid, row: int, col: int, root3: real)
    requires IsSqrt3(root3) && frame.parent.Some?
    requires WithinBounds(frame, RowColToPixelCenter(row, col, root3).x, RowColToPixelCenter(row, col, root3).y)
    requires MapCreationModel.Contains(grid, row, col)
    ensures GridClick(frame, grid, RowColToPixelCenter(row, col, root3).x, RowColToPixelCenter(row, col, root3).y, root3)
      == Some(Notice("mapHexClicked", HexData(Hex(row as real, col as real))))
  {
    var h := Hex(row as real, col as real);
    var c := RowColToPixelCenter(row, col, root3);
    PixelRoundTrip(h, HexSize, root3);
    assert Point(c.x - GridOffset(), c.y - GridOffset()) == ToPixel(h, HexSize, root3);
    assert ClickedHex(c.x, c.y, root3) == h;
    assert h.row.Floor == row && h.col.Floor == col;
  }

  // ----------------------------------------------------------------- layout

  /** The editor's layout: the grid takes the left seven eighths of the root, the palette the last eighth. */
  ghost predicate LaidOut(root: Region, grid: Region, palette: Region) {
    && grid.originX == 0.0 && grid.originY == 0.0
    && grid.width == (root.width / 8.0) * 7.0 && grid.height == root.height
    && palette.originX == (root.width / 8.0) * 7.0 && palette.originY == 0.0
    && palette.width == (root.width / 8.0) * 1.0 && palette.height == root.height
  }

  /**
   * The two frames abut and together cover the root exactly: a point is
   * in the root iff it is in one of them, and in both only on the seam.
   */
  lemma LayoutTilesRoot(root: Region, grid: Region, palette: Region, x: real, y: real)
    requires root.originX == 0.0 && root.originY == 0.0 && LaidOut(root, grid, palette)
    ensures grid.originX + grid.width == palette.originX && palette.originX + palette.width == root.width
    ensures WithinBounds(root, x, y) <==> WithinBounds(grid, x, y) || WithinBounds(palette, x, y)
    ensures WithinBounds(grid, x, y) && WithinBounds(palette, x, y) <==>
      WithinBounds(root, x, y) && x == (root.width / 8.0) * 7.0
  {
  }

  /**
   * `HexGridUI.init`, after the root's own set-up: a fresh grid frame and
   * a fresh palette frame are adopted by the root under the ids
   * `hex-grid` and `tile-pallete`, laid out side by side.
   */
  method InitLayout(tree: UiTree) returns (grid: nat, palette: nat)
    requires tree.Valid()
    modifies tree`nodes, tree`kinds, tree`rank, tree`bound
    ensures tree.Valid()
    ensures grid == old(|tree.nodes|) && palette == grid + 1 && |tree.nodes| == palette + 1
    ensures tree.nodes[grid].id == Str("hex-grid") && tree.nodes[grid].parent == Some(Root) && tree.nodes[grid].isFrame
    ensures tree.nodes[palette].id == Str("tile-pallete") && tree.nodes[palette].parent == Some(Root) && tree.nodes[palette].isFrame
    ensures LaidOut(tree.nodes[Root], tree.nodes[grid], tree.nodes[palette])
    ensures MapGet(tree.nodes[Root].children, Str("hex-grid")) == Some(grid)
    ensures MapGet(tree.nodes[Root].children, Str("tile-pallete")) == Some(palette)
    ensures tree.nodes[Root] == old(tree.nodes[Root]).(children := tree.nodes[Root].children)
    ensures forall k :: 0 <= k < old(|tree.nodes|) && k != Root ==> tree.nodes[k] == old(tree.nodes[k])
    ensures tree.kinds == old(tree.kinds) + [Kinds([], ["render"]), Kinds([], ["render"])]
    ensures tree.Cache() == old(tree.Cache())
  {
    var w := tree.nodes[Root].width;
    var h := tree.nodes[Root].height;
    ghost var before := tree.nodes;
    assert ["render"] + [] == ["render"];
    grid := tree.NewRegion((w / 8.0) * 7.0, h, true, [], []);
    palette := tree.NewRegion((w / 8.0) * 1.0, h, true, [], []);
    ghost var added := tree.nodes;
    AdoptLayout(tree, grid, palette);
    forall k | 0 <= k < |before| && k != Root
      ensures tree.nodes[k] == before[k]
    {
      assert added[k] == before[k];
    }
  }

  /** The two `adoptChildUIFrame` calls of `HexGridUI.init`, on the two fresh frames. */
  method AdoptLayout(tree: UiTree, grid: nat, palette: nat)
    requires tree.Valid() && Root < grid && palette == grid + 1 && |tree.nodes| == palette + 1
    requires tree.nodes[grid] == Detached((tree.nodes[Root].width / 8.0) * 7.0, tree.nodes[Root].height, Str("anonymous"), true)
    requires tree.nodes[palette] == Detached((tree.nodes[Root].width / 8.0) * 1.0, tree.nodes[Root].height, Str("anonymous"), true)
    modifies tree`nodes, tree`rank, tree`bound
    ensures tree.Valid() && |tree.nodes| == old(|tree.nodes|)
    ensures tree.nodes[grid].id == Str("hex-grid") && tree.nodes[grid].parent == Some(Root) && tree.nodes[grid].isFrame
    ensures tree.nodes[palette].id == Str("tile-pallete") && tree.nodes[palette].parent == Some(Root) && tree.nodes[palette].isFrame
    ensures LaidOut(tree.nodes[Root], tree.nodes[grid], tree.nodes[palette])
    ensures MapGet(tree.nodes[Root].children, Str("hex-grid")) == Some(grid)
    ensures MapGet(tree.nodes[Root].children, Str("tile-pallete")) == Some(palette)
    ensures tree.nodes[Root] == old(tree.nodes[Root]).(children := tree.nodes[Root].children)
    ensures forall k :: 0 <= k < grid && k != Root ==> tree.nodes[k] == old(tree.nodes[k])
  {
    var w := tree.nodes[Root].width;
    assert TopOf(tree.nodes, tree.rank, tree.bound, Root) == Root;
    tree.AdoptChild(Root, 0.0, 0.0, grid, Some(Str("hex-grid")));
    ghost var first := tree.nodes;
    assert TopOf(tree.nodes, tree.rank, tree.bound, Root) == Root;
    tree.AdoptChild(Root, (w / 8.0) * 7.0, 0.0, palette, Some(Str("tile-pallete")));
    MapSetGet(first[Root].children, Str("tile-pallete"), palette, Str("hex-grid"));
  }
}
