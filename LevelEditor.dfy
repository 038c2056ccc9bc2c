/**
 * The level editor: the level being edited, the toolset built from the
 * settings' tool type references, the dispatch of pointer events from the
 * field to the selected tool, the tile brush, and the session's host effects
 * (marking assets dirty, saving, creating and opening them), which are kept
 * as a log.
 */
module LevelEditing {
  import opened Wrappers
  import opened Geometry
  import opened Strings
  import opened LevelLayers
  import opened LevelAssets
  import opened TileCatalog
  import opened LayerMasks
  import opened FieldCoordinates
  import opened PointerCapture

  /**
   * The handler interfaces a tool class implements: LevelEditorMouseDownHandler,
   * LevelEditorMouseDragHandler, LevelEditorMouseUpHandler and
   * LevelEditorOnGUIHandler. Each is independent of the others.
   */
  datatype Capabilities = Capabilities(mouseDown: bool, mouseDrag: bool, mouseUp: bool, panel: bool)

  /** The tool has a handler for this event type. */
  predicate Handles(caps: Capabilities, kind: EventKind) {
    match kind
    case MouseDown => caps.mouseDown
    case MouseDrag => caps.mouseDrag
    case MouseUp => caps.mouseUp
    case _ => false
  }

  /** A tool's class: TileTool, or another LevelEditorTool class whose handlers run host code. */
  datatype ToolKind = TileBrush | OtherTool(caps: Capabilities)

  /** TileTool handles mouse-down and mouse-drag and draws a panel; it has no mouse-up handler. */
  function CapabilitiesOf(kind: ToolKind): (caps: Capabilities)
    ensures kind.TileBrush? ==> caps == Capabilities(true, true, false, true)
  {
    match kind
    case TileBrush => Capabilities(true, true, false, true)
    case OtherTool(caps) => caps
  }

  /** Event.current as the field sees it: its type, the pointer in field pixels, and the shift key. */
  datatype GuiEvent = GuiEvent(kind: EventKind, mousePosition: Vector2Int, shift: bool)

  /** A level's state as the tools see it: the field size and every layer's grid. */
  datatype LevelView = LevelView(fieldSize: Vector2Int, layers: seq<seq<seq<int>>>)

  /** What one call of a tool's mouse handler did. */
  datatype ToolOutcome =
    | Painted(layer: int, cell: Vector2Int, value: int)
    | Skipped
    | Threw(fault: Fault)
    | HostHandler

  /** What the field's dispatch to the selected tool did: no handler, or a handler ran. */
  datatype Dispatch = NoHandler | Ran(outcome: ToolOutcome)

  /** The dispatch raised an exception (the tool lookup or the handler). */
  predicate DispatchThrew(d: Dispatch) {
    d.Ran? && d.outcome.Threw?
  }

  /** Effects on the host's asset database, in the order the editor causes them. */
  datatype HostEffect =
    | SetDirty(level: LevelAsset?)
    | SaveAssets
    | CreateAsset(asset: LevelAsset)
    | AddObjectToAsset(layer: LevelLayer)
    | OpenAsset(asset: LevelAsset)

  /** SaveLevel: mark the level modified, then save all assets; nothing when no level is open. */
  function SaveEffects(level: LevelAsset?): (effects: seq<HostEffect>)
    ensures level == null <==> effects == []
  {
    if level == null then [] else [SetDirty(level), SaveAssets]
  }

  /**
   * ProcessMouseEvent on a level (None: no level open) with the selected
   * tile: a failing selection or a missing level throws; a point outside the
   * field or no selected tile writes nothing; otherwise cell `point` of layer
   * tile.layer becomes 0 with shift held and tile.id without. A missing
   * layer makes the List indexer throw ArgumentOutOfRange; a missing cell
   * makes the array indexer throw IndexOutOfRange.
   */
  function PaintOutcome(selected: Result<Option<TileConfig>, Fault>, level: Option<LevelView>, point: Vector2Int, shift: bool): ToolOutcome {
    if selected.Failure? then Threw(selected.error)
    else if level.None? then Threw(NullReference)
    else if !InField(level.value.fieldSize, point) || selected.value.None? then Skipped
    else
      var tile := selected.value.value;
      var layers := level.value.layers;
      if !(0 <= tile.layer < |layers|) then Threw(ArgumentOutOfRange)
      else if !(point.x < |layers[tile.layer]| && point.y < |layers[tile.layer][point.x]|) then Threw(IndexOutOfRange)
      else Painted(tile.layer, point, if shift then 0 else tile.id)
  }

  /** The cell exists in the layer grids. */
  predicate HasCell(layers: seq<seq<seq<int>>>, i: int, x: int, y: int) {
    0 <= i < |layers| && 0 <= x < |layers[i]| && 0 <= y < |layers[i][x]|
  }

  /** The layer grids after a tool outcome: a paint writes its cell; anything else leaves them. */
  function AfterOutcome(layers: seq<seq<seq<int>>>, outcome: ToolOutcome): seq<seq<seq<int>>> {
    if outcome.Painted? && HasCell(layers, outcome.layer, outcome.cell.x, outcome.cell.y) then
      var l, x := outcome.layer, outcome.cell.x;
      layers[l := layers[l][x := layers[l][x][outcome.cell.y := outcome.value]]]
    else layers
  }

  /**
   * A paint happens exactly when the selection resolves to a tile, a level is
   * open, the point is in the field and the tile's layer has that cell; it
   * writes 0 with shift and the tile's id without.
   */
  lemma PaintOnlyInsideWithTile(selected: Result<Option<TileConfig>, Fault>, level: Option<LevelView>, point: Vector2Int, shift: bool)
    ensures var o := PaintOutcome(selected, level, point, shift);
            o.Painted? <==> selected.Success? && selected.value.Some? && level.Some? && InField(level.value.fieldSize, point)
                            && HasCell(level.value.layers, selected.value.value.layer, point.x, point.y)
    ensures var o := PaintOutcome(selected, level, point, shift);
            o.Painted? ==> o.layer == selected.value.value.layer && o.cell == point && o.value == (if shift then 0 else selected.value.value.id)
    ensures level.Some? && !InField(level.value.fieldSize, point) ==> !PaintOutcome(selected, level, point, shift).Painted?
  {
  }

  /** A paint changes exactly its one cell of its one layer; any other outcome changes nothing. */
  lemma PaintWritesOnlyThatCell(layers: seq<seq<seq<int>>>, outcome: ToolOutcome, i: int, x: int, y: int)
    requires outcome.Painted? ==> HasCell(layers, outcome.layer, outcome.cell.x, outcome.cell.y)
    requires HasCell(layers, i, x, y)
    ensures var after := AfterOutcome(layers, outcome);
            && |after| == |layers|
            && (forall l :: 0 <= l < |layers| ==> |after[l]| == |layers[l]| && forall r :: 0 <= r < |layers[l]| ==> |after[l][r]| == |layers[l][r]|)
            && after[i][x][y] == if outcome.Painted? && (i, x, y) == (outcome.layer, outcome.cell.x, outcome.cell.y) then outcome.value else layers[i][x][y]
  {
  }

  /** Every layer has the field's size (as SetFieldSize leaves them). */
  predicate AllLayersSized(level: LevelView) {
    forall i :: 0 <= i < |level.layers| ==> HasSize(level.layers[i], level.fieldSize)
  }

  /**
   * On a level whose layers all have the field size, painting a resolved tile
   * of an existing layer never throws: inside the field it paints, outside it
   * skips.
   */
  lemma SizedLevelPaintsWithoutThrowing(tile: TileConfig, level: LevelView, point: Vector2Int, shift: bool)
    requires AllLayersSized(level) && 0 <= tile.layer < |level.layers|
    ensures var o := PaintOutcome(Success(Some(tile)), Some(level), point, shift);
            (InField(level.fieldSize, point) ==> o == Painted(tile.layer, point, if shift then 0 else tile.id))
            && (!InField(level.fieldSize, point) ==> o == Skipped)
  {
    if InField(level.fieldSize, point) {
      assert HasSize(level.layers[tile.layer], level.fieldSize);
    }
  }

  /** A tile DrawTiles draws: the layer and cell it comes from, the corner of its rectangle, its config. */
  datatype Placement = Placement(layer: int, cell: Vector2Int, origin: Vector2Int, tile: TileConfig)

  /** DrawTiles reaches cell (x, y) of layer i: the layer's bit is set in the mask and the cell is in the field. */
  predicate Visited(mask: Bits32, level: LevelView, i: int, x: int, y: int) {
    0 <= i < |level.layers| && IsLayerVisible(mask, i) && InField(level.fieldSize, Vector2Int(x, y))
  }

  /** A reached cell that exists and holds a tile id (id > 0). */
  predicate TileDrawn(mask: Bits32, level: LevelView, i: int, x: int, y: int) {
    Visited(mask, level, i, x, y) && HasCell(level.layers, i, x, y) && level.layers[i][x][y] > 0
  }

  /**
   * DrawTiles throws on some reached cell: the cell does not exist in its
   * layer, or it holds an id whose sprite DrawSprite cannot read, because the
   * catalog lacks the id (a null config) or the config's sprite is null.
   */
  predicate DrawFails(mask: Bits32, level: LevelView, catalog: map<int, TileConfig>) {
    exists i, x, y :: 0 <= i < |level.layers| && 0 <= x < level.fieldSize.x && 0 <= y < level.fieldSize.y && Visited(mask, level, i, x, y)
                      && (!HasCell(level.layers, i, x, y)
                          || (level.layers[i][x][y] > 0 && (level.layers[i][x][y] !in catalog || catalog[level.layers[i][x][y]].sprite == NullRef)))
  }

  /**
   * DrawTiles on the level with the mask, the tile size and the catalog's
   * dictionary: the tiles it draws, or None when it throws part way.
   */
  function DrawTiles(mask: Bits32, level: LevelView, tileSize: Vector2Int, catalog: map<int, TileConfig>): Option<set<Placement>> {
    if DrawFails(mask, level, catalog) then None
    else Some(set i, x, y | 0 <= i < |level.layers| && 0 <= x < level.fieldSize.x && 0 <= y < level.fieldSize.y && TileDrawn(mask, level, i, x, y)
                :: Placement(i, Vector2Int(x, y), CellOrigin(Vector2Int(x, y), tileSize), catalog[level.layers[i][x][y]]))
  }

  /**
   * A cell is drawn exactly when its layer's bit is set, it lies in the field
   * and holds an id above 0; it is drawn at CellOrigin with the catalog's
   * config for its id.
   */
  lemma DrawnExactlyVisibleTiles(mask: Bits32, level: LevelView, tileSize: Vector2Int, catalog: map<int, TileConfig>, p: Placement)
    requires DrawTiles(mask, level, tileSize, catalog).Some?
    ensures p in DrawTiles(mask, level, tileSize, catalog).value <==>
              && 0 <= p.layer < |level.layers| && mask[p.layer % 32] && InField(level.fieldSize, p.cell)
              && HasCell(level.layers, p.layer, p.cell.x, p.cell.y) && level.layers[p.layer][p.cell.x][p.cell.y] > 0
              && level.layers[p.layer][p.cell.x][p.cell.y] in catalog
              && p.origin == CellOrigin(p.cell, tileSize) && p.tile == catalog[level.layers[p.layer][p.cell.x][p.cell.y]]
    ensures p in DrawTiles(mask, level, tileSize, catalog).value ==> p.tile.sprite != NullRef
  {
    if 0 <= p.layer {
      VisibleIffBit(mask, p.layer);
    }
    if !(p in DrawTiles(mask, level, tileSize, catalog).value) && 0 <= p.layer < |level.layers| && mask[p.layer % 32]
       && InField(level.fieldSize, p.cell) && HasCell(level.layers, p.layer, p.cell.x, p.cell.y) {
      assert p.cell == Vector2Int(p.cell.x, p.cell.y);
    }
  }

  /** Cells holding 0 or a negative id are never drawn, and neither are hidden layers. */
  lemma EmptyCellsNeverDrawn(mask: Bits32, level: LevelView, tileSize: Vector2Int, catalog: map<int, TileConfig>, i: int, x: int, y: int)
    requires DrawTiles(mask, level, tileSize, catalog).Some?
    requires HasCell(level.layers, i, x, y) && (level.layers[i][x][y] <= 0 || !mask[i % 32])
    ensures forall p :: p in DrawTiles(mask, level, tileSize, catalog).value ==> (p.layer, p.cell) != (i, Vector2Int(x, y))
  {
    forall p | p in DrawTiles(mask, level, tileSize, catalog).value
      ensures (p.layer, p.cell) != (i, Vector2Int(x, y))
    {
      DrawnExactlyVisibleTiles(mask, level, tileSize, catalog, p);
    }
  }

  /** With the initial mask, layer 31 is never drawn. */
  lemma InitialMaskNeverDrawsLayer31(level: LevelView, tileSize: Vector2Int, catalog: map<int, TileConfig>)
    requires DrawTiles(MaxValue, level, tileSize, catalog).Some?
    ensures forall p :: p in DrawTiles(MaxValue, level, tileSize, catalog).value ==> p.layer != 31
  {
    forall p | p in DrawTiles(MaxValue, level, tileSize, catalog).value
      ensures p.layer != 31
    {
      DrawnExactlyVisibleTiles(MaxValue, level, tileSize, catalog, p);
    }
  }

  /**
   * A visible tile whose id the catalog lacks, or whose config has a null
   * sprite, stops the drawing.
   */
  lemma UnreadableSpriteStopsDrawing(mask: Bits32, level: LevelView, tileSize: Vector2Int, catalog: map<int, TileConfig>, i: int, x: int, y: int)
    requires TileDrawn(mask, level, i, x, y)
    ensures (level.layers[i][x][y] !in catalog || catalog[level.layers[i][x][y]].sprite == NullRef) ==> DrawTiles(mask, level, tileSize, catalog).None?
  {
    assert 0 <= x < level.fieldSize.x && 0 <= y < level.fieldSize.y;
  }

  /**
   * A level sized by SetFieldSize whose every tile id is in the catalog with
   * a sprite is drawn without an exception.
   */
  lemma SizedLevelDraws(mask: Bits32, level: LevelView, tileSize: Vector2Int, catalog: map<int, TileConfig>)
    requires AllLayersSized(level)
    requires forall i, x, y :: HasCell(level.layers, i, x, y) && level.layers[i][x][y] > 0 ==>
               level.layers[i][x][y] in catalog && catalog[level.layers[i][x][y]].sprite != NullRef
    ensures DrawTiles(mask, level, tileSize, catalog).Some?
  {
    forall i, x, y | Visited(mask, level, i, x, y)
      ensures HasCell(level.layers, i, x, y)
              && (level.layers[i][x][y] > 0 ==> level.layers[i][x][y] in catalog && catalog[level.layers[i][x][y]].sprite != NullRef)
    {
      assert HasSize(level.layers[i], level.fieldSize);
    }
  }

  /** A click on a drawn tile's rectangle lands on that tile's cell under the corrected mapping. */
  lemma ClickOnDrawnTileHitsItsCell(mask: Bits32, level: LevelView, tileSize: Vector2Int, catalog: map<int, TileConfig>, p: Placement, pixel: Vector2Int)
    requires ValidTileSize(tileSize) && DrawTiles(mask, level, tileSize, catalog).Some?
    requires p in DrawTiles(mask, level, tileSize, catalog).value
    requires p.origin.x <= pixel.x < p.origin.x + tileSize.x && p.origin.y <= pixel.y < p.origin.y + tileSize.y
    ensures CellAt(pixel, tileSize) == p.cell
  {
    DrawnExactlyVisibleTiles(mask, level, tileSize, catalog, p);
    CellAtHitsDrawnCell(pixel, p.cell, tileSize);
  }

  /**
   * The field's own mapping, CalculatePoint, finds the clicked tile's cell
   * when the tiles are square.
   */
  lemma SquareTileClickHitsItsCell(mask: Bits32, level: LevelView, tileSize: Vector2Int, catalog: map<int, TileConfig>, p: Placement, pixel: Vector2Int)
    requires ValidTileSize(tileSize) && tileSize.x == tileSize.y && DrawTiles(mask, level, tileSize, catalog).Some?
    requires p in DrawTiles(mask, level, tileSize, catalog).value
    requires p.origin.x <= pixel.x < p.origin.x + tileSize.x && p.origin.y <= pixel.y < p.origin.y + tileSize.y
    ensures CalculatePoint(pixel, tileSize) == p.cell
  {
    ClickOnDrawnTileHitsItsCell(mask, level, tileSize, catalog, p, pixel);
    SquareTilesAgree(pixel, tileSize);
  }

  /** The result of looking up SelectedTool: no toolset or a null entry, a tool, or an index out of range. */
  datatype ToolLookup = NoTool | Tool(tool: LevelEditorTool) | BadToolIndex

  /** The resolved class of a tool type reference (None: the name no longer resolves). */
  datatype ToolType = TileToolType | ToolClass(caps: Capabilities) | NonToolType | NoEditorConstructor

  /** What GetObject<LevelEditorTool>(editor) does with a reference. */
  datatype Creation = Creates(kind: ToolKind) | CreatesNull | CreateThrows(fault: Fault)

  /**
   * Activator.CreateInstance(type, editor) as LevelEditorTool: a null type or
   * one without a constructor taking the editor throws; a class that is not
   * a tool gives null.
   */
  function Instantiation(reference: Option<ToolType>): Creation {
    match reference
    case None => CreateThrows(ArgumentNull)
    case Some(TileToolType) => Creates(TileBrush)
    case Some(ToolClass(caps)) => Creates(OtherTool(caps))
    case Some(NonToolType) => CreatesNull
    case Some(NoEditorConstructor) => CreateThrows(MissingConstructor)
  }

  /** The position of the first reference whose instantiation throws, or the count when none does. */
  function FirstThrow(references: seq<Option<ToolType>>): (n: nat)
    ensures n <= |references|
    ensures forall k :: 0 <= k < n ==> !Instantiation(references[k]).CreateThrows?
    ensures n < |references| ==> Instantiation(references[n]).CreateThrows?
  {
    if references == [] then 0
    else if Instantiation(references[0]).CreateThrows? then 0
    else 1 + FirstThrow(references[1..])
  }

  /** The File menu's entries. */
  datatype MenuItem = CreateItem | OpenItem | SaveItem | CloseItem

  /** IsValidPath: a non-null, non-empty path that contains the project's data path. */
  predicate IsValidPath(path: Option<string>, dataPath: string) {
    path.Some? && |path.value| > 0 && Contains(path.value, dataPath)
  }

  /** Every non-empty path under the data path is valid; null and empty paths are not. */
  lemma ValidPathsAreUnderDataPath(dataPath: string, rest: string)
    ensures |dataPath + rest| > 0 ==> IsValidPath(Some(dataPath + rest), dataPath)
    ensures !IsValidPath(None, dataPath) && !IsValidPath(Some(""), dataPath)
  {
    ContainsPrefix(dataPath, rest);
  }

  /** The name TryToCreateLevel gives layer i (counting from 0): string.Format("Layer {0}", i + 1). */
  function LayerName(i: nat): string {
    "Layer " + DecimalString(i + 1)
  }

  /** Different layers of a created level get different names. */
  lemma LayerNamesDistinct(i: nat, j: nat)
    requires i != j
    ensures LayerName(i) != LayerName(j)
  {
    if LayerName(i) == LayerName(j) {
      assert LayerName(i)[6..] == DecimalString(i + 1);
      assert LayerName(j)[6..] == DecimalString(j + 1);
      DecimalStringInjective(i + 1, j + 1);
    }
  }

  /** The host effects of adding the layers to the asset file, in order. */
  function AddedLayers(layers: seq<LevelLayer>): (effects: seq<HostEffect>)
    ensures |effects| == |layers|
    ensures forall k :: 0 <= k < |layers| ==> effects[k] == AddObjectToAsset(layers[k])
  {
    seq(|layers|, k requires 0 <= k < |layers| => AddObjectToAsset(layers[k]))
  }

  /** The outcome of the Create menu item. */
  datatype CreateOutcome = InvalidPath | ResizeThrew(level: LevelAsset) | Created(level: LevelAsset)

  /** The position of the first config with a null sprite, or the count when every sprite is set. */
  function FirstNullSprite(configs: seq<TileConfig>): (n: nat)
    ensures n <= |configs|
    ensures forall k :: 0 <= k < n ==> configs[k].sprite != NullRef
    ensures n < |configs| ==> configs[n].sprite == NullRef
  {
    if configs == [] then 0
    else if configs[0].sprite == NullRef then 0
    else 1 + FirstNullSprite(configs[1..])
  }

  /**
   * A level tool. TileTool is this class with kind TileBrush; other tool
   * classes are known only by the handler interfaces they implement.
   */
  class LevelEditorTool {
    const editor: LevelEditor
    var editLevel: LevelAsset?
    var name: string
    const kind: ToolKind
    /** TileTool's selected tile id. */
    var selectedTileId: int
    /** TileTool's catalog (AssetFinder.FindAsset<TileSettings>()); null when none is found. */
    const tileSettings: TileSettings?

    /** LevelEditorTool(editor): the base constructor, as it runs for a tool class other than TileTool. */
    constructor (editor: LevelEditor, caps: Capabilities)
      ensures this.editor == editor && name == "tool" && kind == OtherTool(caps)
      ensures editLevel == null && tileSettings == null
    {
      this.editor := editor;
      name := "tool";
      kind := OtherTool(caps);
      editLevel := null;
      selectedTileId := 0;
      tileSettings := null;
    }

    /** TileTool(editor): named "Tile", tile 1 selected, with the project's tile catalog. */
    constructor TileTool(editor: LevelEditor, tileSettings: TileSettings?)
      ensures this.editor == editor && name == "Tile" && kind == TileBrush
      ensures selectedTileId == 1 && this.tileSettings == tileSettings && editLevel == null
    {
      this.editor := editor;
      name := "Tile";
      kind := TileBrush;
      editLevel := null;
      selectedTileId := 1;
      this.tileSettings := tileSettings;
    }

    /** GetName: the tool's name as it stands. */
    function GetName(): (n: string)
      reads this
      ensures n == name
    {
      name
    }

    /** SetEditLevel: only editLevel changes. */
    method SetEditLevel(editLevel: LevelAsset?)
      modifies this`editLevel
      ensures this.editLevel == editLevel
    {
      this.editLevel := editLevel;
    }

    /**
     * SelectedTile: no tile for an id of 0 or below; otherwise the catalog's
     * config for the id (None when it has none), which throws when there is
     * no catalog or its dictionary has not been built.
     */
    function SelectedTile(): (r: Result<Option<TileConfig>, Fault>)
      reads this, tileSettings
      ensures selectedTileId <= 0 ==> r == Success(None)
      ensures selectedTileId > 0 && (tileSettings == null || tileSettings.configMap.None?) ==> r == Failure(NullReference)
      ensures selectedTileId > 0 && tileSettings != null && tileSettings.configMap.Some? ==>
                r.Success? && (r.value.Some? <==> selectedTileId in tileSettings.configMap.value)
                && (r.value.Some? ==> r.value.value == tileSettings.configMap.value[selectedTileId])
    {
      if selectedTileId <= 0 then Success(None)
      else if tileSettings == null then Failure(NullReference)
      else tileSettings.GetConfigById(selectedTileId)
    }

    /**
     * OnGUI's panel: for each config in order, its sprite is drawn, then its
     * button, whose click (`clicked`, None for no click) selects that config's
     * id. A null config array, or a null sprite, which DrawSprite cannot
     * read, throws; the buttons after a null sprite are never reached.
     */
    method SelectFromPanel(clicked: Option<nat>) returns (fault: Option<Fault>)
      requires kind.TileBrush?
      modifies this`selectedTileId
      ensures tileSettings == null || tileSettings.configs.None? ==> fault == Some(NullReference) && selectedTileId == old(selectedTileId)
      ensures tileSettings != null && tileSettings.configs.Some? ==>
                var configs := tileSettings.configs.value;
                && (fault == None <==> FirstNullSprite(configs) == |configs|)
                && (fault != None ==> fault == Some(NullReference))
                && (clicked.Some? && clicked.value < FirstNullSprite(configs) ==> selectedTileId == configs[clicked.value].id)
                && (clicked.None? || clicked.value >= FirstNullSprite(configs) ==> selectedTileId == old(selectedTileId))
    {
      if tileSettings == null {
        return Some(NullReference);
      }
      var configs := tileSettings.GetConfigs();
      if configs.None? {
        return Some(NullReference);
      }
      for i := 0 to |configs.value|
        invariant i <= FirstNullSprite(configs.value)
        invariant clicked.None? || clicked.value >= i ==> selectedTileId == old(selectedTileId)
        invariant clicked.Some? && clicked.value < i ==> selectedTileId == configs.value[clicked.value].id
      {
        if configs.value[i].sprite == NullRef {
          return Some(NullReference);
        }
        if clicked == Some(i) {
          selectedTileId := configs.value[i].id;
        }
      }
      return None;
    }

    /**
     * ProcessMouseEvent: paint or erase one cell of the edited level as
     * PaintOutcome says, mark the level modified when a cell was written,
     * and use the event unless an exception was raised.
     */
    method ProcessMouseEvent(point: Vector2Int, e: GuiEvent) returns (outcome: ToolOutcome, used: bool)
      requires editor.Valid()
      modifies editor`effects, editor.EditRepr()
      ensures editor.Valid() && editor.EditRepr() == old(editor.EditRepr())
      ensures outcome == PaintOutcome(old(SelectedTile()), old(editor.View()), point, e.shift)
      ensures editor.editLevel != null ==> editor.View() == Some(LevelView(old(editor.View()).value.fieldSize, AfterOutcome(old(editor.View()).value.layers, outcome)))
      ensures editor.effects == old(editor.effects) + if outcome.Painted? then [SetDirty(editor.editLevel)] else []
      ensures editor.editLevel != null ==>
                && editor.editLevel.layers == old(editor.editLevel.layers)
                && forall k :: 0 <= k < |editor.editLevel.layers| ==> editor.editLevel.layers[k].name == old(editor.editLevel.layers[k].name)
      ensures used <==> !outcome.Threw?
    {
      var level := editor.editLevel;
      var tile := SelectedTile();
      if tile.Failure? {
        return Threw(tile.error), false;
      }
      if level == null {
        return Threw(NullReference), false;
      }
      var inside := level.Contains(point);
      if !inside || tile.value.None? {
        return Skipped, true;
      }
      var config := tile.value.value;
      if !(0 <= config.layer < level.LayerCount()) {
        return Threw(ArgumentOutOfRange), false;
      }
      if !level.HasCell(config.layer, point.x, point.y) {
        return Threw(IndexOutOfRange), false;
      }
      var value := if e.shift then 0 else config.id;
      level.SetLayerCell(config.layer, point.x, point.y, value);
      editor.ModifyLevel();
      return Painted(config.layer, point, value), true;
    }

    /** OnMouseDown: ProcessMouseEvent. */
    method OnMouseDown(point: Vector2Int, e: GuiEvent) returns (outcome: ToolOutcome, used: bool)
      requires editor.Valid()
      modifies editor`effects, editor.EditRepr()
      ensures editor.Valid() && editor.EditRepr() == old(editor.EditRepr())
      ensures outcome == PaintOutcome(old(SelectedTile()), old(editor.View()), point, e.shift)
      ensures editor.editLevel != null ==> editor.View() == Some(LevelView(old(editor.View()).value.fieldSize, AfterOutcome(old(editor.View()).value.layers, outcome)))
      ensures editor.effects == old(editor.effects) + if outcome.Painted? then [SetDirty(editor.editLevel)] else []
      ensures editor.editLevel != null ==>
                && editor.editLevel.layers == old(editor.editLevel.layers)
                && forall k :: 0 <= k < |editor.editLevel.layers| ==> editor.editLevel.layers[k].name == old(editor.editLevel.layers[k].name)
      ensures used <==> !outcome.Threw?
    {
      outcome, used := ProcessMouseEvent(point, e);
    }

    /** OnMouseDrag: ProcessMouseEvent, exactly as OnMouseDown. */
    method OnMouseDrag(point: Vector2Int, e: GuiEvent) returns (outcome: ToolOutcome, used: bool)
      requires editor.Valid()
      modifies editor`effects, editor.EditRepr()
      ensures editor.Valid() && editor.EditRepr() == old(editor.EditRepr())
      ensures outcome == PaintOutcome(old(SelectedTile()), old(editor.View()), point, e.shift)
      ensures editor.editLevel != null ==> editor.View() == Some(LevelView(old(editor.View()).value.fieldSize, AfterOutcome(old(editor.View()).value.layers, outcome)))
      ensures editor.effects == old(editor.effects) + if outcome.Painted? then [SetDirty(editor.editLevel)] else []
      ensures editor.editLevel != null ==>
                && editor.editLevel.layers == old(editor.editLevel.layers)
                && forall k :: 0 <= k < |editor.editLevel.layers| ==> editor.editLevel.layers[k].name == old(editor.editLevel.layers[k].name)
      ensures used <==> !outcome.Threw?
    {
      outcome, used := ProcessMouseEvent(point, e);
    }
  }

  /** The selection a tool lookup yields: a TileTool's selected tile; anything else selects nothing. */
  function ToolSelection(lookup: ToolLookup): Result<Option<TileConfig>, Fault>
    reads if lookup.Tool? then {lookup.tool, lookup.tool.tileSettings} else {}
  {
    if lookup.Tool? && lookup.tool.kind.TileBrush? then lookup.tool.SelectedTile() else Success(None)
  }

  /**
   * HandleMouseDown / Drag / Up: the selected tool's handler for the event
   * type runs when there is a selected tool that has one; looking the tool
   * up throws for an index outside the toolset. The handler of a tool class
   * other than TileTool is host code, which throws `hostFault` when that is
   * Some.
   */
  function DispatchOf(lookup: ToolLookup, selected: Result<Option<TileConfig>, Fault>, level: Option<LevelView>,
                      kind: EventKind, point: Vector2Int, shift: bool, hostFault: Option<Fault>): (d: Dispatch)
    ensures lookup.NoTool? ==> d == NoHandler
    ensures lookup.BadToolIndex? ==> d == Ran(Threw(IndexOutOfRange))
    ensures lookup.Tool? && !Handles(CapabilitiesOf(lookup.tool.kind), kind) ==> d == NoHandler
    ensures lookup.Tool? && lookup.tool.kind.OtherTool? && Handles(lookup.tool.kind.caps, kind) ==>
              d == Ran(if hostFault.Some? then Threw(hostFault.value) else HostHandler)
  {
    match lookup
    case NoTool => NoHandler
    case BadToolIndex => Ran(Threw(IndexOutOfRange))
    case Tool(tool) =>
      if !Handles(CapabilitiesOf(tool.kind), kind) then NoHandler
      else if tool.kind.TileBrush? then Ran(PaintOutcome(selected, level, point, shift))
      else if hostFault.Some? then Ran(Threw(hostFault.value))
      else Ran(HostHandler)
  }

  /** A TileTool never gets a mouse-up; mouse-down and mouse-drag reach it alike. */
  lemma TileToolIgnoresMouseUp(tool: LevelEditorTool, selected: Result<Option<TileConfig>, Fault>, level: Option<LevelView>, point: Vector2Int, shift: bool, hostFault: Option<Fault>)
    requires tool.kind.TileBrush?
    ensures DispatchOf(Tool(tool), selected, level, MouseUp, point, shift, hostFault) == NoHandler
    ensures DispatchOf(Tool(tool), selected, level, MouseDown, point, shift, hostFault)
         == DispatchOf(Tool(tool), selected, level, MouseDrag, point, shift, hostFault)
         == Ran(PaintOutcome(selected, level, point, shift))
  {
  }

  /**
   * A host tool's handler that throws leaves the capture where it was: the
   * field's assignment after the call is skipped.
   */
  lemma HostThrowKeepsCapture(tool: LevelEditorTool, selected: Result<Option<TileConfig>, Fault>, level: Option<LevelView>,
                              hot: int, id: int, kind: EventKind, point: Vector2Int, shift: bool, f: Fault)
    requires tool.kind.OtherTool? && Handles(tool.kind.caps, kind)
    ensures DispatchThrew(DispatchOf(Tool(tool), selected, level, kind, point, shift, Some(f)))
    ensures NextHot(hot, id, kind, DispatchThrew(DispatchOf(Tool(tool), selected, level, kind, point, shift, Some(f)))) == hot
    ensures Forwards(hot, id, kind) ==>
              NextHot(hot, id, kind, DispatchThrew(DispatchOf(Tool(tool), selected, level, kind, point, shift, None)))
              == (if kind == MouseDown then id else if kind == MouseUp then 0 else hot)
  {
  }

  /** What HandleField did with one event. */
  datatype FieldOutcome = NotEditing | NotForwarded | Repainted | Dispatched(dispatch: Dispatch)

  class LevelEditor {
    var editLevel: LevelAsset?
    /** The project's tile catalog (AssetFinder.FindAsset<TileSettings>()); null when none is found. */
    const tileSettings: TileSettings?
    var toolset: array?<LevelEditorTool?>
    var selectedToolIndex: int
    /** GUIUtility.hotControl: the control holding the pointer, 0 for none. */
    var hotControl: int
    var layerMask: Bits32
    /** The host effects so far. */
    ghost var effects: seq<HostEffect>

    /** The objects of the edited level. */
    ghost function EditRepr(): set<object>
      reads this, editLevel
    {
      if editLevel == null then {} else editLevel.Repr
    }

    /** The edited level as the tools see it. */
    ghost function View(): Option<LevelView>
      reads this, editLevel
    {
      if editLevel == null then None else Some(LevelView(editLevel.fieldSize, editLevel.Layers))
    }

    /** The level is well formed and shares no object with the editor, its toolset or its tools. */
    ghost predicate Openable(level: LevelAsset)
      reads this, level, level.Repr, toolset
    {
      && level.Valid() && this !in level.Repr && toolset !in level.Repr
      && (toolset != null ==> forall k :: 0 <= k < toolset.Length && toolset[k] != null ==> toolset[k] !in level.Repr)
    }

    ghost predicate Valid()
      reads this, editLevel, EditRepr(), toolset
    {
      && (editLevel != null ==> Openable(editLevel))
      && (toolset != null ==> forall k :: 0 <= k < toolset.Length && toolset[k] != null ==> toolset[k].editor == this)
    }

    /** LevelEditor.Get(): no level open, no toolset yet, the mask int.MaxValue, nothing done. */
    constructor (tileSettings: TileSettings?)
      ensures Valid()
      ensures editLevel == null && toolset == null && selectedToolIndex == 0 && hotControl == 0
      ensures this.tileSettings == tileSettings && layerMask == MaxValue && effects == []
    {
      editLevel := null;
      this.tileSettings := tileSettings;
      toolset := null;
      selectedToolIndex := 0;
      hotControl := 0;
      layerMask := MaxValue;
      effects := [];
    }

    /** IsEditing: a level is open. */
    predicate IsEditing()
      reads this
    {
      editLevel != null
    }

    /** CanEdit: any non-null level can be edited. */
    predicate CanEdit(asset: LevelAsset?) {
      asset != null
    }

    /** StartEdit: the level becomes the edited one, even a null one. */
    method StartEdit(newAsset: LevelAsset?)
      requires Valid()
      requires newAsset != null ==> Openable(newAsset)
      modifies this`editLevel
      ensures Valid() && editLevel == newAsset
    {
      editLevel := newAsset;
    }

    /** ModifyLevel: EditorUtility.SetDirty on the edited level. */
    method ModifyLevel()
      modifies this`effects
      ensures effects == old(effects) + [SetDirty(editLevel)]
    {
      effects := effects + [SetDirty(editLevel)];
    }

    /** SaveLevel: ModifyLevel, then AssetDatabase.SaveAssets. */
    method SaveLevel()
      modifies this`effects
      ensures effects == old(effects) + [SetDirty(editLevel), SaveAssets]
    {
      ModifyLevel();
      effects := effects + [SaveAssets];
    }

    /** OnDestroy: save the open level, if any. */
    method OnDestroy()
      modifies this`effects
      ensures effects == old(effects) + SaveEffects(editLevel)
    {
      if IsEditing() {
        SaveLevel();
      }
    }

    /** Edit: a null level is ignored; otherwise the open level, if any, is saved and the new one opened. */
    method Edit(newLevel: LevelAsset?)
      requires Valid()
      requires newLevel != null ==> Openable(newLevel)
      modifies this`editLevel, this`effects
      ensures Valid()
      ensures newLevel == null ==> editLevel == old(editLevel) && effects == old(effects)
      ensures newLevel != null ==> editLevel == newLevel && effects == old(effects) + SaveEffects(old(editLevel))
    {
      if CanEdit(newLevel) {
        if IsEditing() {
          SaveLevel();
        }
        StartEdit(newLevel);
      }
    }

    /** SelectedTool: null without a toolset, else toolset[selectedToolIndex], which throws outside the array. */
    function SelectedTool(): (r: ToolLookup)
      reads this, toolset
      ensures toolset == null ==> r == NoTool
      ensures toolset != null && 0 <= selectedToolIndex < toolset.Length ==>
                r == if toolset[selectedToolIndex] == null then NoTool else Tool(toolset[selectedToolIndex])
      ensures toolset != null && !(0 <= selectedToolIndex < toolset.Length) ==> r == BadToolIndex
    {
      if toolset == null then NoTool
      else if !(0 <= selectedToolIndex < toolset.Length) then BadToolIndex
      else if toolset[selectedToolIndex] == null then NoTool
      else Tool(toolset[selectedToolIndex])
    }

    /**
     * HandleMouseDown, HandleMouseDrag and HandleMouseUp: pass the event to
     * the selected tool when it has a handler for its type. A handler of a
     * tool class other than TileTool throws `hostFault` when that is Some.
     */
    method HandleMouse(kind: EventKind, point: Vector2Int, e: GuiEvent, hostFault: Option<Fault>) returns (d: Dispatch)
      requires Valid() && IsMouse(kind)
      modifies this`effects, EditRepr()
      ensures Valid() && EditRepr() == old(EditRepr())
      ensures d == DispatchOf(old(SelectedTool()), old(ToolSelection(SelectedTool())), old(View()), kind, point, e.shift, hostFault)
      ensures editLevel != null ==> View() == Some(LevelView(old(View()).value.fieldSize, AfterOutcome(old(View()).value.layers, if d.Ran? then d.outcome else Skipped)))
      ensures effects == old(effects) + if d.Ran? && d.outcome.Painted? then [SetDirty(editLevel)] else []
      ensures editLevel != null ==>
                && editLevel.layers == old(editLevel.layers)
                && forall k :: 0 <= k < |editLevel.layers| ==> editLevel.layers[k].name == old(editLevel.layers[k].name)
    {
      var lookup := SelectedTool();
      match lookup
      case NoTool =>
        return NoHandler;
      case BadToolIndex =>
        return Ran(Threw(IndexOutOfRange));
      case Tool(tool) =>
        if !Handles(CapabilitiesOf(tool.kind), kind) {
          return NoHandler;
        }
        if !tool.kind.TileBrush? {
          return Ran(if hostFault.Some? then Threw(hostFault.value) else HostHandler);
        }
        var outcome, used;
        if kind == MouseDown {
          outcome, used := tool.OnMouseDown(point, e);
        } else {
          outcome, used := tool.OnMouseDrag(point, e);
        }
        return Ran(outcome);
    }

    /**
     * HandleField: while a level is open, the pointer's cell is computed for
     * mouse events with CalculatePoint, as written (see CalculatePointMissesDrawnCell
     * for where it parts from the drawing); a mouse-down is passed on only when no control holds the
     * capture, and then the field takes it; a drag or up only while the field
     * holds it, and the up releases it. An exception leaves the capture.
     */
    method HandleField(e: GuiEvent, id: int, tileSize: Vector2Int, hostFault: Option<Fault>) returns (r: FieldOutcome)
      requires Valid() && ValidTileSize(tileSize)
      modifies this`hotControl, this`effects, EditRepr()
      ensures Valid() && EditRepr() == old(EditRepr())
      ensures !old(IsEditing()) ==> r == NotEditing && hotControl == old(hotControl) && effects == old(effects)
      ensures old(IsEditing()) && e.kind == Repaint ==> r == Repainted
      ensures old(IsEditing()) && e.kind != Repaint ==> (r.Dispatched? <==> Forwards(old(hotControl), id, e.kind))
      ensures r.Dispatched? ==>
                r.dispatch == DispatchOf(old(SelectedTool()), old(ToolSelection(SelectedTool())), old(View()),
                                         e.kind, CalculatePoint(e.mousePosition, tileSize), e.shift, hostFault)
      ensures hotControl == if r.Dispatched? then NextHot(old(hotControl), id, e.kind, DispatchThrew(r.dispatch)) else old(hotControl)
      ensures editLevel != null ==> View() == Some(LevelView(old(View()).value.fieldSize,
                AfterOutcome(old(View()).value.layers, if r.Dispatched? && r.dispatch.Ran? then r.dispatch.outcome else Skipped)))
      ensures effects == old(effects) + if r.Dispatched? && r.dispatch.Ran? && r.dispatch.outcome.Painted? then [SetDirty(editLevel)] else []
      ensures editLevel != null ==>
                && editLevel.layers == old(editLevel.layers)
                && forall k :: 0 <= k < |editLevel.layers| ==> editLevel.layers[k].name == old(editLevel.layers[k].name)
    {
      if !IsEditing() {
        return NotEditing;
      }
      var point := Vector2Int(0, 0);
      if IsMouse(e.kind) {
        point := CalculatePoint(e.mousePosition, tileSize);
      }
      if e.kind == Repaint {
        return Repainted;
      }
      if !Forwards(hotControl, id, e.kind) {
        return NotForwarded;
      }
      var d := HandleMouse(e.kind, point, e, hostFault);
      if !DispatchThrew(d) {
        if e.kind == MouseDown {
          hotControl := id;
        } else if e.kind == MouseUp {
          hotControl := 0;
        }
      }
      return Dispatched(d);
    }

    /** Every entry of the toolset is a tool (none is null). */
    predicate AllToolsPresent()
      reads this, toolset
      requires toolset != null
    {
      forall k :: 0 <= k < toolset.Length ==> toolset[k] != null
    }

    /**
     * HandleToolset: with a toolset, the popup lists every tool's name, which
     * throws on a null entry; otherwise the popup's choice becomes the
     * selected index, and a TileTool selected there draws its panel, where a
     * click selects a tile unless a null sprite before it throws first.
     * Another tool class with a panel runs host code, which throws
     * `hostFault` when that is Some. Only the chosen tool's selectedTileId
     * can change.
     */
    method HandleToolset(chosenIndex: int, clicked: Option<nat>, hostFault: Option<Fault>) returns (fault: Option<Fault>)
      requires Valid()
      modifies this`selectedToolIndex
      modifies (if toolset != null && 0 <= chosenIndex < toolset.Length && toolset[chosenIndex] != null then {toolset[chosenIndex]} else {})`selectedTileId
      ensures Valid()
      ensures toolset == null ==> selectedToolIndex == old(selectedToolIndex) && fault == None
      ensures toolset != null && !AllToolsPresent() ==> selectedToolIndex == old(selectedToolIndex) && fault == Some(NullReference)
      ensures toolset != null && AllToolsPresent() ==> selectedToolIndex == chosenIndex
      ensures toolset != null && AllToolsPresent() && !(0 <= chosenIndex < toolset.Length) ==> fault == Some(IndexOutOfRange)
      ensures toolset != null && AllToolsPresent() && 0 <= chosenIndex < toolset.Length && toolset[chosenIndex].kind.OtherTool? ==>
                fault == if toolset[chosenIndex].kind.caps.panel then hostFault else None
      ensures toolset != null && AllToolsPresent() && 0 <= chosenIndex < toolset.Length && toolset[chosenIndex].kind.TileBrush? ==>
                var tool := toolset[chosenIndex];
                && (tool.tileSettings == null || tool.tileSettings.configs.None? ==> fault == Some(NullReference))
                && (tool.tileSettings != null && tool.tileSettings.configs.Some? ==>
                      var configs := tool.tileSettings.configs.value;
                      && (fault == None <==> FirstNullSprite(configs) == |configs|)
                      && (clicked.Some? && clicked.value < FirstNullSprite(configs) ==> tool.selectedTileId == configs[clicked.value].id)
                      && (clicked.None? || clicked.value >= FirstNullSprite(configs) ==> tool.selectedTileId == old(tool.selectedTileId)))
    {
      if toolset == null {
        return None;
      }
      for i := 0 to toolset.Length
        invariant forall k :: 0 <= k < i ==> toolset[k] != null
      {
        if toolset[i] == null {
          return Some(NullReference);
        }
      }
      selectedToolIndex := chosenIndex;
      var lookup := SelectedTool();
      match lookup
      case NoTool =>
        return None;
      case BadToolIndex =>
        return Some(IndexOutOfRange);
      case Tool(tool) =>
        if tool.kind.TileBrush? {
          fault := tool.SelectFromPanel(clicked);
        } else if tool.kind.caps.panel {
          fault := hostFault;
        } else {
          fault := None;
        }
    }

    /** Whether a tool was built as the creation says. */
    ghost predicate Built(tool: LevelEditorTool?, creation: Creation)
      reads tool
    {
      match creation
      case Creates(kind) =>
        && tool != null && tool.editor == this && tool.kind == kind && tool.editLevel == null
        && (kind.TileBrush? ==> tool.name == "Tile" && tool.selectedTileId == 1 && tool.tileSettings == tileSettings)
        && (!kind.TileBrush? ==> tool.name == "tool")
      case CreatesNull => tool == null
      case CreateThrows(_) => tool == null
    }

    /**
     * GetToolset: a new toolset with one entry per reference, each the tool
     * its reference instantiates; the first reference that fails to
     * instantiate throws and leaves the rest of the array null.
     */
    method GetToolset(references: seq<Option<ToolType>>) returns (fault: Option<Fault>)
      requires Valid()
      modifies this`toolset
      ensures Valid()
      ensures toolset != null && fresh(toolset) && toolset.Length == |references|
      ensures var stop := FirstThrow(references);
              && (fault.Some? <==> stop < |references|)
              && (fault.Some? ==> fault.value == Instantiation(references[stop]).fault)
              && forall k :: 0 <= k < |references| ==> Built(toolset[k], if k < stop then Instantiation(references[k]) else CreatesNull)
      ensures forall k :: 0 <= k < |references| && toolset[k] != null ==> fresh(toolset[k])
    {
      var tools := new LevelEditorTool?[|references|](_ => null);
      toolset := tools;
      for i := 0 to |references|
        invariant toolset == tools
        invariant forall k :: 0 <= k < i ==> !Instantiation(references[k]).CreateThrows?
        invariant forall k :: 0 <= k < i ==> Built(tools[k], Instantiation(references[k]))
        invariant forall k :: i <= k < |references| ==> tools[k] == null
        invariant forall k :: 0 <= k < |references| && tools[k] != null ==> fresh(tools[k])
        invariant Valid()
      {
        var creation := Instantiation(references[i]);
        if creation.CreateThrows? {
          assert FirstThrow(references) == i by {
            FirstThrowIsFirst(references, i);
          }
          return Some(creation.fault);
        }
        if creation.Creates? {
          var tool: LevelEditorTool;
          if creation.kind.TileBrush? {
            tool := new LevelEditorTool.TileTool(this, tileSettings);
          } else {
            tool := new LevelEditorTool(this, creation.kind.caps);
          }
          tools[i] := tool;
        }
      }
      FirstThrowIsFirst(references, |references|);
      return None;
    }

    /** The File menu: Create and Open, Save while a level is open, then Close. */
    function FileMenuItems(): (items: seq<MenuItem>)
      reads this
      ensures |items| >= 3 && (SaveItem in items <==> IsEditing())
      ensures items[0] == CreateItem && items[1] == OpenItem && items[|items| - 1] == CloseItem
    {
      [CreateItem, OpenItem] + (if IsEditing() then [SaveItem] else []) + [CloseItem]
    }

    /**
     * The first half of TryToCreateLevel: a new level asset, recorded in the
     * asset database, with `layerCount` empty layers named "Layer 1",
     * "Layer 2", ..., each added to the asset file.
     */
    method NewLevelAsset(layerCount: int) returns (level: LevelAsset)
      modifies this`effects
      ensures fresh(level) && fresh(level.Repr) && level.Valid()
      ensures level.fieldSize == Vector2Int(0, 0) && |level.layers| == (if layerCount > 0 then layerCount else 0)
      ensures forall k :: 0 <= k < |level.layers| ==> level.layers[k].name == LayerName(k) && level.Layers[k] == []
      ensures effects == old(effects) + [CreateAsset(level)] + AddedLayers(level.layers)
    {
      level := new LevelAsset();
      effects := effects + [CreateAsset(level)];
      ghost var before := effects;
      var i := 0;
      while i < layerCount
        invariant 0 <= i && (layerCount > 0 ==> i <= layerCount) && (layerCount <= 0 ==> i == 0)
        invariant fresh(level) && fresh(level.Repr) && level.Valid()
        invariant level.fieldSize == Vector2Int(0, 0) && |level.layers| == i
        invariant forall k :: 0 <= k < i ==> level.layers[k].name == LayerName(k) && level.Layers[k] == []
        invariant effects == before + AddedLayers(level.layers)
      {
        var layer := new LevelLayer();
        layer.name := LayerName(i);
        level.AddLayer(layer);
        effects := effects + [AddObjectToAsset(layer)];
        i := i + 1;
      }
    }

    /**
     * TryToCreateLevel with the path the save panel returned: for a valid
     * path, a new level asset gets `layerCount` layers named "Layer 1",
     * "Layer 2", ..., then the field size, which resizes them all; the level
     * is marked dirty, saved and opened, which makes the editor edit it.
     */
    method TryToCreateLevel(path: Option<string>, dataPath: string, layerCount: int, fieldSize: Vector2Int) returns (outcome: CreateOutcome)
      requires Valid()
      modifies this`editLevel, this`effects
      ensures Valid()
      ensures !IsValidPath(path, dataPath) <==> outcome == InvalidPath
      ensures outcome == InvalidPath ==> editLevel == old(editLevel) && effects == old(effects)
      ensures outcome.ResizeThrew? ==>
                && layerCount > 0 && !ResizeAccepts(fieldSize) && editLevel == old(editLevel)
                && effects == old(effects) + [CreateAsset(outcome.level)] + AddedLayers(outcome.level.layers)
      ensures outcome.Created? ==>
                var level := outcome.level;
                && fresh(level) && editLevel == level && level.fieldSize == fieldSize
                && |level.layers| == (if layerCount > 0 then layerCount else 0)
                && (forall i :: 0 <= i < |level.layers| ==> level.layers[i].name == LayerName(i))
                && (forall i :: 0 <= i < |level.layers| ==> ResizeAccepts(fieldSize) && level.Layers[i] == Resized([], fieldSize))
                && effects == old(effects) + [CreateAsset(level)] + AddedLayers(level.layers)
                              + [SetDirty(level), SaveAssets, OpenAsset(level)] + SaveEffects(old(editLevel))
    {
      if !IsValidPath(path, dataPath) {
        return InvalidPath;
      }
      var level := NewLevelAsset(layerCount);
      if level.layers != [] && !ResizeAccepts(fieldSize) {
        return ResizeThrew(level);
      }
      level.SetFieldSize(fieldSize);
      effects := effects + [SetDirty(level), SaveAssets, OpenAsset(level)];
      Edit(level);
      return Created(level);
    }

    /** ChangeMask: layer `index`'s bit of the mask is set or cleared. */
    method ChangeMask(index: nat, value: bool)
      modifies this`layerMask
      ensures layerMask == WithLayer(old(layerMask), index, value)
    {
      if value {
        layerMask := Or(layerMask, ShiftOne(index));
      } else {
        layerMask := And(layerMask, Not(ShiftOne(index)));
      }
    }

    /**
     * A click in the layer popup: the toggle flips and its OnMaskChange
     * listener, ChangeMask, updates the mask. A popup showing the mask stays
     * in step with it while there are at most 32 layers.
     */
    method ToggleLayer(popup: LayerPopup, index: nat, clicked: bool)
      requires index < popup.maskArray.Length
      modifies popup.maskArray, this`layerMask
      ensures !clicked ==> layerMask == old(layerMask) && popup.maskArray[..] == old(popup.maskArray[..])
      ensures clicked ==> layerMask == WithLayer(old(layerMask), index, !old(popup.maskArray[index]))
      ensures old(popup.maskArray[..]) == Decoded(old(layerMask), popup.maskArray.Length) && popup.maskArray.Length <= 32 ==>
                popup.maskArray[..] == Decoded(layerMask, popup.maskArray.Length)
    {
      var change := popup.Element(index, clicked);
      if change.Some? {
        ChangeMask(change.value.0, change.value.1);
        if popup.maskArray.Length <= 32 {
          ToggleKeepsPopupInStep(old(layerMask), popup.maskArray.Length, index, change.value.1);
        }
      }
    }
  }

  /** FirstThrow(references) is i when no reference before i throws and reference i does (or i is the end). */
  lemma FirstThrowIsFirst(references: seq<Option<ToolType>>, i: nat)
    requires i <= |references|
    requires forall k :: 0 <= k < i ==> !Instantiation(references[k]).CreateThrows?
    requires i < |references| ==> Instantiation(references[i]).CreateThrows?
    ensures FirstThrow(references) == i
  {
  }

  /** A created level's layers are blank grids of the field size, whatever the field size Resize accepts. */
  lemma CreatedLayersAreBlank(fieldSize: Vector2Int)
    requires ResizeAccepts(fieldSize)
    ensures HasSize(Resized([], fieldSize), fieldSize)
    ensures forall x, y :: 0 <= x < |Resized([], fieldSize)| && 0 <= y < |Resized([], fieldSize)[x]| ==> Resized([], fieldSize)[x][y] == 0
  {
  }
}
