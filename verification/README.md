# Hex-grid map editor and its UI framework, modelled in Dafny

This project models the core of a small model/view/coordinator framework
and the hex-map editor built on it:

- **The hex coordinate engine** (`HexLibrary`). It covers:
  - axial and cube coordinates;
  - cube rounding, which rounds each axis and then recomputes the least
    certain one;
  - the pointy-top hex↔pixel transforms.

  Arithmetic is exact over `real`. JavaScript's `Math.round(v)` is
  `Floor(v + 1/2)`. `Math.sqrt(3)` is a parameter `root3`; every lemma
  that needs it asks for `root3 > 0 && root3 * root3 == 3`.
- **The grid model and the editor's model** (`MapCreationModel`). The map
  is stored as rows of alternating length and indexed by axial
  coordinates through an offset of `floor(row / 2)`. The module covers:
  - building the map, lookup, containment, in-place painting and
    flattening;
  - the editor model, whose tool selection and painting are driven by
    event types.
- **The base model** (`Model`): its tick counter and the state hash that
  the view compares before redrawing.
- **The UI region tree** (`RegionTree`, `Ui`, `DraftUi`). Regions live in
  an arena (a sequence indexed by region number) with parent indices.
  Region 0 is the root frame. The modules cover:
  - adoption with generated child ids, kept in an insertion-ordered map;
  - the inclusive point-in-rectangle test;
  - input and event dispatch (self first, then children: preorder);
  - rendering (children, then self: postorder);
  - events bubbling up to the root;
  - the handled-kinds aggregation;
  - the root's render cache, keyed by the model's state hash.

  `DraftUi` is the earlier draft of the framework. It differs in two
  ways: elements are numbered by a global counter, and point signals are
  forwarded to the leaves.
- **The editor's widgets** (`MapCreationUi`). These are the tile set, the
  field/city palette toggle, the tile column the palette draws, the
  grid's click chain (bounds → pixel-to-hex → containment → notice), and
  the root layout of the two frames.

Ghost ranks on the arena give termination: every parent ranks above its
children, and every rank is below a bound. Adoption requires a detached
child that is not an ancestor of the frame. That keeps the structure a
forest, and the ranks are shifted accordingly (`RegionTree.AdoptKeepsRanked`).

## Model

| member | source | states |
|---|---|---|
| HexLibrary.JsRound | examples/weboir44/static/js/HexLibrary.js:29-31 | `Math.round(v)` lies within half a unit of `v`, with halves rounded up |
| HexLibrary.JsRoundOfInteger | examples/weboir44/static/js/HexLibrary.js:29-31 | rounding an integral value returns it unchanged |
| HexLibrary.ToCube | examples/weboir44/static/js/HexLibrary.js:63-65 | the cube coordinates of any hex sum to zero |
| HexLibrary.ToAxial | examples/weboir44/static/js/HexLibrary.js:24-26 | the axial hex (z, x) of a cube; it undoes `toCube`, as `CubeAxialRoundTrip` states |
| HexLibrary.CubeAxialRoundTrip | examples/weboir44/static/js/HexLibrary.js:24-26 | `toAxial(toCube(h)) == h`; on cubes whose coordinates sum to zero, `toCube(toAxial(c)) == c` |
| HexLibrary.RoundCube | examples/weboir44/static/js/HexLibrary.js:28-46 | the result's coordinates are integers that sum to zero; the two axes not recomputed are the rounded inputs, each within 1/2 of the input |
| HexLibrary.RecomputedAxisHasLargestDelta | examples/weboir44/static/js/HexLibrary.js:37-43 | the recomputed axis has the largest rounding error; x is chosen iff its error is strictly largest; a tie between y and z goes to z |
| HexLibrary.RoundCubeStaysClose | examples/weboir44/static/js/HexLibrary.js:28-46 | on a cube summing to zero, every coordinate moves by at most 1, the recomputed one included |
| HexLibrary.RoundHex | examples/weboir44/static/js/HexLibrary.js:81-83 | `Hex.round` always yields integer row and column |
| HexLibrary.RoundHexIdentityOnIntegral | examples/weboir44/static/js/HexLibrary.js:81-83 | rounding a hex with integer row and column returns it unchanged |
| HexLibrary.RoundHexIdempotent | examples/weboir44/static/js/HexLibrary.js:81-83 | rounding twice is rounding once |
| HexLibrary.ToPixel | examples/weboir44/static/js/HexLibrary.js:73-79 | the pointy-top centre of a hex for a given size; `pixelToHex` inverts it, as `PixelRoundTrip` states |
| HexLibrary.PixelToHex | examples/weboir44/static/js/HexLibrary.js:98-104 | `pixelToHex` is total: every point, however far out, gives an integer hex, with no bounds check |
| HexLibrary.FractionalHexInvertsToPixel | examples/weboir44/static/js/HexLibrary.js:98-102 | the unrounded pixel-to-hex transform inverts `toPixel` exactly for every hex and nonzero size |
| HexLibrary.PixelRoundTrip | examples/weboir44/static/js/HexLibrary.js:73-79 | `pixelToHex(toPixel(h, size), size) == h` for every integer hex and nonzero size |
| MapCreationModel.InitializeMap | examples/weboir44/static/js/MapCreationModel.js:37-49 | builds `height` rows (none for a negative height); even rows hold `topWidth` hexes and odd rows one fewer; entry `[r][i]` is hex `(r, i - floor(r/2))` of type field |
| MapCreationModel.InitialMapShape | examples/weboir44/static/js/MapCreationModel.js:51-59 | on a freshly built map, `getHeight` is the row count and `getRowWidth` of each row is its alternating length; every entry sits at its own offset |
| MapCreationModel.GetHeight | examples/weboir44/static/js/MapCreationModel.js:51-53 | the number of rows; `InitialMapShape` states its value on a fresh map |
| MapCreationModel.GetRowWidthAsWritten | examples/weboir44/static/js/MapCreationModel.js:55-59 | the guard `row > length` lets `row == height` through; on a nonempty grid exactly that row has no width, because reading it fails; every other row agrees with the corrected version |
| MapCreationModel.GetRowWidth | examples/weboir44/static/js/MapCreationModel.js:55-59 | 0 for an empty grid or a row outside `[0, height)`; otherwise the row's length |
| MapCreationModel.GetHex | examples/weboir44/static/js/MapCreationModel.js:61-70 | the stored hex at axial (row, col) through the offset, with the column bounded by row 0's length; `GetHexFindsStored` states it finds every stored hex |
| MapCreationModel.Contains | examples/weboir44/static/js/MapCreationModel.js:72-74 | whether `getHex` finds a hex; `ContainsIff` characterises it |
| MapCreationModel.ContainsIff | examples/weboir44/static/js/MapCreationModel.js:61-74 | on a map whose rows are no longer than row 0, `contains(row, col)` iff `0 <= row < height` and `0 <= col + floor(row/2) <` that row's length; an index past a shorter row counts as absent |
| MapCreationModel.GetHexFindsStored | examples/weboir44/static/js/MapCreationModel.js:61-70 | every stored hex is found again by `getHex` at its own row and column |
| MapCreationModel.WithTileType | examples/weboir44/static/js/MapCreationModel.js:76-81 | painting keeps the grid's shape and changes only the targeted hex's type, and only when the grid contains it |
| MapCreationModel.WithTileTypeKeepsShape | examples/weboir44/static/js/MapCreationModel.js:76-81 | painting keeps every hex at its offset and keeps containment the same for every coordinate |
| MapCreationModel.WithTileTypePaints | examples/weboir44/static/js/MapCreationModel.js:76-81 | after painting a contained hex, `getHex` returns it with the new type |
| MapCreationModel.GridModel.constructor | examples/weboir44/static/js/MapCreationModel.js:31-34 | the new grid model holds the initial map of the given size |
| MapCreationModel.GridModel.UpdateHex | examples/weboir44/static/js/MapCreationModel.js:76-81 | the stored grid becomes the painted grid |
| MapCreationModel.GridModel.GetAllHexes | examples/weboir44/static/js/MapCreationModel.js:84-90 | returns the rows concatenated in row order |
| MapCreationModel.FlattenLength | examples/weboir44/static/js/MapCreationModel.js:84-90 | the flattened map is as long as the sum of the row lengths |
| MapCreationModel.FlattenMembers | examples/weboir44/static/js/MapCreationModel.js:84-90 | a hex is in the flattened map iff it is stored in some row |
| MapCreationModel.ToolAfter | examples/weboir44/static/js/MapCreationModel.js:161-165 | the tool after an event; `ToolStaysInTileset` and `OtherEventsChangeNothing` state its properties |
| MapCreationModel.GridAfter | examples/weboir44/static/js/MapCreationModel.js:157-159 | the grid after an event; `HexActivatedPaintsWithTool` and `OtherEventsChangeNothing` state its properties |
| MapCreationModel.ToolStaysInTileset | examples/weboir44/static/js/MapCreationModel.js:161-165 | the selected tool stays a tileset key; it changes only on `hex-tool-activated`, and then to the named type |
| MapCreationModel.HexActivatedPaintsWithTool | examples/weboir44/static/js/MapCreationModel.js:157-159 | `grid-hex-activated` on a contained hex paints it with the selected tool |
| MapCreationModel.OtherEventsChangeNothing | examples/weboir44/static/js/MapCreationModel.js:141-154 | an event of any other type leaves the tool and the grid unchanged |
| MapCreationModel.MapCreationModel.constructor | examples/weboir44/static/js/MapCreationModel.js:96-108 | missing parameters become 9 rows of 13; no grid or tileset yet; the tool starts as field; the model handles the two editor events |
| MapCreationModel.MapCreationModel.Load | examples/weboir44/static/js/MapCreationModel.js:115-135 | announces the load, builds a fresh grid from the parameters (defaults 9 and 13) and installs the four-tile tileset |
| MapCreationModel.MapCreationModel.Init | examples/weboir44/static/js/MapCreationModel.js:110-112 | loads from the stored parameters only when none are passed, then registers the handled inputs and events |
| MapCreationModel.MapCreationModel.HandleHexActivated | examples/weboir44/static/js/MapCreationModel.js:157-159 | throws exactly when the model was never loaded (no grid) or the payload is `null`/`undefined` (`contains` reads `hex.row`); on a loaded model the grid becomes the event's hex painted with the selected tool, and a throw paints nothing |
| MapCreationModel.MapCreationModel.HandleHexToolActivated | examples/weboir44/static/js/MapCreationModel.js:161-165 | throws exactly when the model was never loaded (no tileset), changing nothing; otherwise selects the named tool if the tileset has it |
| MapCreationModel.MapCreationModel.HandleEvent | examples/weboir44/static/js/MapCreationModel.js:141-154 | throws exactly for a handled type on a model never loaded, or for `grid-hex-activated` with a `null`/`undefined` payload; the tool and a loaded grid move as the event's type dictates; the grid object itself stays the same |
| Model.HashOfTick | src/model/Model.js:49-51 | a hash computed after a tick never equals the initial empty hash |
| Model.HashOfTickInjective | src/model/Model.js:49-51 | two ticks give the same hash iff they are the same tick |
| Model.InitCalls | src/model/Model.js:19-26 | `init` makes the load announcement only when it loads, then registers the inputs and then the events |
| Model.Model.constructor | src/model/Model.js:3-9 | a new model has no handled kinds, zero ticks, the empty hash and no coordinator |
| Model.Model.Load | src/model/Model.js:39-45 | the base `_load` makes a single debug call announcing the load |
| Model.Model.Init | src/model/Model.js:19-26 | records the coordinator and makes exactly the calls of `InitCalls` |
| Model.Model.CalculateStateHash | src/model/Model.js:49-51 | the hash becomes the hash of the elapsed ticks |
| Model.Model.Update | src/model/Model.js:54-58 | after `update(tick)`, the tick count is `tick` and the hash depends on `tick` alone |
| RegionTree.BoundsInclusive | src/js/ui/UI.js:55-65 | the bounds test includes all four edges and corners and excludes anything beyond an edge |
| RegionTree.WithinBounds | src/js/ui/UI.js:55-65 | the point-in-rectangle test on the region's origin and size; `BoundsInclusive` states that all edges count |
| RegionTree.MapKeys | src/js/ui/UI.js:117 | a map's keys are listed in insertion order |
| RegionTree.MapGet | src/js/ui/UI.js:159 | looking a key up fails iff the key is absent |
| RegionTree.MapSet | src/js/ui/UI.js:159 | a new key goes last; an existing key keeps its place; no other entry appears |
| RegionTree.MapSetGet | src/js/ui/UI.js:159 | after setting a key, reading it gives the new value; reading any other key gives what it gave before |
| RegionTree.TopOf | src/js/ui/UI.js:143-147 | following parent links always ends at a region without a parent |
| RegionTree.ReachesRootIffInRootTree | src/js/ui/UI.js:143-147 | an event bubbles up to the root iff the region's topmost ancestor is the root |
| RegionTree.PreorderStaysInTree | src/js/ui/UI.js:172-184 | dispatch reaches only regions of the tree it starts in |
| RegionTree.PostorderPermutesPreorder | src/js/ui/UI.js:186-192 | render visits exactly the regions dispatch visits, each as often; dispatch starts with the frame itself and render ends with it |
| RegionTree.TwoLeafChildrenOrder | src/js/ui/UI.js:172-192 | for a frame with two leaf children, dispatch visits frame, first, second and render visits first, second, frame |
| RegionTree.Adopted | src/js/ui/UI.js:154-160 | the child takes the id (generated iff none is given), the parent and the origin; the frame's map holds the child under that id; the counter advances only for a generated id; nothing else changes |
| RegionTree.AdoptKeepsRanked | src/js/ui/UI.js:154-160 | adopting a detached child that is not an ancestor of the frame keeps the regions a ranked forest |
| RegionTree.AppendKeepsRanked | src/js/ui/UI.js:19-32 | a freshly built detached region keeps the regions a ranked forest |
| Ui.AssignLayer | src/js/ui/UI.js:217-235 | the layer is between 1 and 4, and any type other than background, ui or dialoge gets the main layer 2 |
| Ui.LayersStack | src/js/ui/UI.js:217-235 | background < main < ui < dialoge, and an unknown type is placed like main |
| Ui.DedupFacts | src/js/ui/UI.js:120 | `Array.from(new Set(...))` has no duplicates and keeps exactly the values of its input |
| Ui.DedupKeepsDistinct | src/js/ui/UI.js:120 | a list without duplicates passes through unchanged |
| Ui.HandledKindsCollectsSubtree | src/js/ui/UI.js:115-129 | a kind is handled by a frame iff some region of its subtree declares it |
| Ui.HandledKindsDistinct | src/js/ui/UI.js:115-129 | the handled kinds contain no duplicates |
| Ui.RenderAlwaysHandled | src/js/ui/UI.js:31 | every region's handled events include `render` |
| Ui.AsWrittenFailsOnLeaves | src/js/ui/UI.js:115-129 | the getter as written succeeds iff every region of the subtree is a frame, and then agrees with the corrected aggregation |
| Ui.LeafChildBreaksGetter | src/js/ui/UI.js:118 | with a frame whose only child is a leaf, the getter as written fails; the corrected aggregation gives the leaf's `click` |
| Ui.UiTree.HandledKindsOf | src/js/ui/UI.js:115-129 | returns the duplicate-free aggregation of the frame's own kinds and its children's |
| Ui.FirstRenderRedraws | src/js/ui/UI.js:307-328 | the first render always redraws the whole tree, records the hash and copies the picture to the shadow |
| Ui.CacheStepSettles | src/js/ui/UI.js:307-328 | after any render the recorded hash is the model's, and screen and shadow agree |
| Ui.CacheStep | src/js/ui/UI.js:313-327 | one root render: with a matching receipt the shadow is shown; otherwise the tree is redrawn, the receipt taken and the shadow saved; the cache lemmas around it state its properties |
| Ui.CachedRenderMatchesRedraw | src/js/ui/UI.js:313-315 | after a full redraw, rendering the same hash again shows exactly what a fresh full render would show |
| Ui.CacheIgnoresTree | src/js/ui/UI.js:313-315 | while the hash is unchanged, the screen shows the previous picture whatever the tree now draws |
| Ui.RenderSequence | src/js/ui/UI.js:307-328 | over hashes h1, h1, h2, the first and third renders redraw and the second blits the shadow |
| Ui.RenderNoticesAppend | src/js/ui/UI.js:76-88 | the render notices of a sequence of regions are the notices of its parts, concatenated |
| Ui.RootTreeReachesRoot | src/js/ui/UI.js:143-147 | every region that dispatch from the root reaches bubbles its events up to the root |
| Ui.AdoptKeepsArena | src/js/ui/UI.js:154-160 | adoption keeps the arena well formed: a ranked forest with the root as a parentless frame, and `render` handled everywhere |
| Ui.UiTree.constructor | src/js/ui/UI.js:19-32 | the root alone, as an anonymous frame of the given size handling only `render`, never rendered |
| Ui.UiTree.NewRegion | src/js/ui/UI.js:19-32 | a new detached anonymous region at the origin, handling `render` plus its subclass's kinds, is appended |
| Ui.UiTree.GenerateChildId | src/js/ui/UI.js:132-135 | returns the frame's counter and increments it by one |
| Ui.UiTree.AcceptParentUIFrame | src/js/ui/UI.js:48-53 | sets the child's id, parent and origin, and nothing else |
| Ui.UiTree.AdoptChild | src/js/ui/UI.js:154-160 | the arena becomes the adopted arena and stays well formed |
| Ui.UiTree.LinkChild | src/js/ui/UI.js:154-160 | the steps of adoption in order produce the adopted arena |
| Ui.UiTree.Dispatch | src/js/ui/UI.js:172-184 | delivers to the frame, then to each child's subtree in map order; from the root, every delivery bubbles back up |
| Ui.UiTree.NewEvent | src/js/ui/UI.js:143-147 | called on a frame, as only `UIFrame` has `newEvent`: the event reaches the coordinator unchanged iff the parent chain ends at the root; otherwise it is dropped |
| Ui.UiTree.Render | src/js/ui/UI.js:186-192 | renders children before self in map order; each region drawn that is on the root's tree sends one render notice with its bounds, and no other region does |
| Ui.UiTree.Announce | src/js/ui/UI.js:76-88 | a region's own render notice goes to the coordinator iff it is on the root's tree |
| Ui.UiTree.RenderRoot | src/js/ui/UI.js:307-328 | the cache makes one render step; nothing is drawn when the hash matches the receipt, otherwise the whole tree is drawn |
| DraftUi.ReactingAreLeavesHit | src/ui/UI.js:58-62 | only leaves whose bounds hold the point react |
| DraftUi.LeavesHitReact | src/ui/UI.js:58-62 | every leaf reached whose bounds hold the point reacts |
| DraftUi.ReactingAppend | src/ui/UI.js:111-115 | the reactions to a sequence of regions are the reactions of its parts, concatenated |
| DraftUi.DraftUiTree.constructor | src/ui/UI.js:17 | no elements yet, and the counter starts at 0 |
| DraftUi.DraftUiTree.NewRegion | src/ui/UI.js:19-26 | the new element takes the counter as its id, and the counter increments, so construction ids are distinct |
| DraftUi.DraftUiTree.GenerateChildId | src/ui/UI.js:93-96 | returns the frame's counter and increments it by one |
| DraftUi.DraftUiTree.AcceptParentUIFrame | src/ui/UI.js:38-43 | overwrites the construction id and sets parent and origin |
| DraftUi.DraftUiTree.AdoptChild | src/ui/UI.js:102-108 | the arena becomes the adopted arena and stays well formed |
| DraftUi.DraftUiTree.LinkChild | src/ui/UI.js:102-108 | the steps of adoption in order produce the adopted arena |
| DraftUi.DraftUiTree.HandlePointSignal | src/ui/UI.js:111-115 | frames forward the point to their children in map order without reacting; leaves react iff the point is within their bounds |
| MapCreationUi.GetTileFromType | examples/weboir44/static/js/MapCreationUI.js:24-26 | a tile is found iff its name is one of the set's types |
| MapCreationUi.TileSetContents | examples/weboir44/static/js/MapCreationUI.js:4-26 | `size` is 2 and `types` is [field, city]; lookup finds field and city under their own names, with their colours, and nothing else |
| MapCreationUi.ToggleAlternates | examples/weboir44/static/js/MapCreationUI.js:183-187 | a click always changes the tile to the other tile of the set; two clicks restore it |
| MapCreationUi.Toggled | examples/weboir44/static/js/MapCreationUI.js:183-187 | the tile a palette click selects; `ToggleAlternates` states that it alternates between the two tiles |
| MapCreationUi.PaletteCentresDescend | examples/weboir44/static/js/MapCreationUI.js:219-229 | the tile centres share their x, and each is at least 2.5 tile sizes below the one before |
| MapCreationUi.PaletteCentre | examples/weboir44/static/js/MapCreationUI.js:223-226 | the centre of the palette's i-th tile; `PaletteCentresDescend` states that the centres form one descending column |
| MapCreationUi.TilePalette.constructor | examples/weboir44/static/js/MapCreationUI.js:164-169 | the palette starts with the field tile selected |
| MapCreationUi.TilePalette.HandleClick | examples/weboir44/static/js/MapCreationUI.js:175-191 | an adopted palette clicked within bounds toggles the tile and notifies `tileToolClicked` with the new tile; any other click changes nothing and notifies nobody |
| MapCreationUi.TilePalette.RenderTiles | examples/weboir44/static/js/MapCreationUI.js:219-229 | one centre per type, in key order, in a single column with y strictly increasing; every drawn type has a tile |
| MapCreationUi.GridOffset | examples/weboir44/static/js/MapCreationUI.js:35-37 | the grid offset is twice the hex size, 60 pixels |
| MapCreationUi.RowColToPixelCenter | examples/weboir44/static/js/MapCreationUI.js:74-80 | the drawn centre of a hex, shifted by the grid offset; `ClickOnCentreSelectsHex` states that a click there selects that hex |
| MapCreationUi.ClickedHex | examples/weboir44/static/js/MapCreationUI.js:139-145 | the hex under a click always has integer coordinates |
| MapCreationUi.GridClick | examples/weboir44/static/js/MapCreationUI.js:131-153 | `mapHexClicked` is sent, with the clicked hex, iff the grid is adopted, the click is within bounds and the map contains the hex |
| MapCreationUi.ClickOnCentreSelectsHex | examples/weboir44/static/js/MapCreationUI.js:74-80 | clicking the drawn centre of a hex on the map reports exactly that hex |
| MapCreationUi.LayoutTilesRoot | examples/weboir44/static/js/MapCreationUI.js:244-258 | the grid and the palette abut and span the root's width; a point is in the root iff it is in one of them, and in both only on the seam at 7w/8 |
| MapCreationUi.InitLayout | examples/weboir44/static/js/MapCreationUI.js:244-258 | two fresh frames are adopted by the root as `hex-grid` at (0,0), 7w/8 wide, and `tile-pallete` at (7w/8, 0), w/8 wide, both the root's height; the handled kinds gain exactly their two `render` entries; the render cache and every other region are unchanged |
| MapCreationUi.AdoptLayout | examples/weboir44/static/js/MapCreationUI.js:253-257 | the two adoptions file the frames under `hex-grid` and `tile-pallete`, place them side by side and leave the root's size and every earlier region unchanged |

## Left out

- Canvas and DOM drawing are not modelled. This covers every drawing-context call, `getContext`, `document`, canvas sizing, z-index assignment, the `_ctx` origin translation and the input pane. A picture is an abstract `Surface` (the regions drawn and the hash drawn for); rendering is the trace of regions drawn.
- The `_render` hooks of the editor's frames, and the debug rectangle drawn after each render, are drawing and are not modelled.
- Ui.UiTree.Render, MapCreationUi.InitLayout: `HexGridFrame` and `TilePalleteFrame` override `render` itself (examples/weboir44/static/js/MapCreationUI.js:155-158, :231-234) and never call `super.render`. So in the source these two frames send no `render` notice to their parent (the base `render` at src/js/ui/UI.js:77-88 is skipped), render none of their children, and throw at once, because the `super._render(model)` they start with is defined by no base class. The model renders every region through the base `render`: after `InitLayout`, `Render` and `RenderRoot` send a `render` event for each of the two frames, and the throw is not captured.
- Ui.UiTree.Render: the base `UIElement` and `UIFrame` define no `_render`, so `render` throws at src/js/ui/UI.js:89 for any region whose class does not supply one. Only `RootUIFrame` supplies one and goes through the base `render`; the editor's two frames replace `render` altogether, as the line above says. The model renders every region and does not capture that failure.
- Ui.CacheStep, Ui.CachedRenderMatchesRedraw: `drawImage` is modelled as copying a whole picture. The source composites onto canvases it does not clear: the shadow at src/js/ui/UI.js:326 is never cleared, and the screen at :315 is not cleared before the blit. Where a new frame is transparent, the shadow keeps the older picture, and a later cache hit shows it; the model does not capture this.
- `Hex.cornerPoint`, `_hex_corner_point` and `_hexWidth` are not modelled: they are trigonometry used only for drawing.
- Floating-point error is not modelled; arithmetic is exact. `Math.sqrt(3)` is the parameter `root3`.
- HexLibrary.PixelToHex: a hex size of 0 is excluded by its precondition, because the source divides by the size.
- The `RootUIFrame` constructor is not modelled: it uses `this` before `super`. `UiTree.constructor` starts from the `UIFrame` state of the root.
- `RootUIFrame.getContext` is not modelled: it is a syntax error.
- The canvas set-up in `RootUIFrame.init` and its registration of handled kinds with the coordinator are not modelled. `RootUIFrame.render` draws through `this.ctx`, whose getter is commented out (src/js/ui/UI.js:273-278), and through `_shadowCanvas`, `_canvas` and `_realShadowCtx`, which `init` never sets. As written, the root's render therefore throws at the cached blit and at the full redraw alike; the model treats both canvases as present.
- The draft `RootUIFrame` is not modelled. It adopts through `adoptParentUIFrame` and `_childUIs`, which do not exist.
- The draft `render`/`_render` are not modelled. They are debug drawing that depends on a global configuration.
- Controllers, the application loop, the coordinator stub and its queues, the configuration and the editor's driver script are not modelled. They are listener plumbing, timers and glue; no shown file implements the coordinator's queues.
- Calls to the coordinator are modelled as returned values: `CoordinatorCall` lists, delivered events and notices. The root always has a coordinator.
- Console logging is not modelled.
- The event `source` field (the sender's class name) is not modelled.
- The widgets' `super._handleClick` calls are not modelled, because no such method exists. The model starts each click handler after that call.
- The grid frame's `_gridModel` is never assigned in the source; `GridClick` takes the grid as a parameter.
- `_clickedString` is never set, so the red highlight it guards is not modelled.
- The listener is modelled as the returned `Notice`.
- `Model._update` is not defined in the base class and is treated as a no-op.
- `HexModel` objects are values. The source shares them between the grid's rows and the list `getAllHexes` returns; that aliasing is not modelled.
- Ui.UiTree.HandledKindsOf: does not model that the getter appends the children's kinds to the frame's own array on every call (`ret` aliases `_handledInputs`). The result is stated for the frame's current arrays, and the arrays are left unchanged.
- RegionTree.Adopted and both `AdoptChild` methods: re-adopting a child that already has a parent, and adopting an ancestor of the frame, are excluded by the preconditions. These are the cases that would create a cycle or a region with two parents. The root is never adopted.
- RegionTree.MapSet: a child replaced under a reused id keeps its parent link in the source and in the model. That it then becomes unreachable from its parent's map is not stated separately.
- MapCreationUi.GetTileFromType: in the source, a key inherited by every JavaScript object (such as `toString`) passes the `in` test. The model treats only the two own keys as present.
- MapCreationModel.ToolAfter: likewise, a key inherited by every JavaScript object is treated as absent from the tileset.
- Grid coordinates are integers. In the source a fractional row makes `getHex` index a missing row and throw; a fractional column with a row in range finds no hex, so `contains` is false and `updateHex` does nothing. Neither case is modelled.
- `MapCreationUi.InitLayout` models only the adoption of the two frames; the inherited root `init` before it is the canvas set-up left out above.

## Findings

| source | as written | input that shows it | evidently intended | confidence | as-written member | corrected member |
|---|---|---|---|---|---|---|
| examples/weboir44/static/js/MapCreationModel.js:57 | `getRowWidth` rejects `row > length`, so `row == length` passes the guard and reads past the last row | a nonempty grid and `row == getHeight()`: `this._hexes[row]` is `undefined` and `.length` throws | rows outside `[0, height)` have width 0 | high (not executed) | MapCreationModel.GetRowWidthAsWritten | MapCreationModel.GetRowWidth |
| src/js/ui/UI.js:118 | `handledInputs`/`handledEvents` spread `child.handledInputs` for every child, but a plain `UIElement` has no such getter | a frame with a leaf child: spreading `undefined` throws | the frame's own kinds plus those of every region below it, without duplicates | high (not executed) | Ui.AsWrittenFailsOnLeaves | Ui.UiTree.HandledKindsOf |
