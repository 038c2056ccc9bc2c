# Battle City level editor, modelled in Dafny

This project models the level-editor core of a Battle City clone built in Unity:

- **Level data.** The tile grid of a layer (`LevelLayerData`, `LevelLayer`), with its resize and its list-of-lines serialisation. The level asset, which holds a field size and an ordered list of layers.
- **Catalogs.** The tile catalog (`TileSettings`) and the generic `SerializedDictionary`. Each rebuilds a dictionary from a serialised array.
- **Editor tools.** The editor's tools (`LevelEditorTool`, `TileTool`). The field's pointer-capture state machine and its dispatch to the selected tool (`LevelEditorGUI`).
- **Session.** The editing session: opening, saving, building the toolset, creating a level, and the File menu.
- **Rendering.** The renderer's layer-visibility mask, its layer popup, and the tile filter and placement in `DrawTiles`.
- **Small cores.** `TypeReference` and `HealthComponent`.

## Files and modules

| File | Module | Models |
|---|---|---|
| `Wrappers.dfy` | `Wrappers` | `Option` / `Result`, and the `Fault` an exception is modelled as |
| `Geometry.dfy` | `Geometry` | `Vector2Int`, field bounds, Unity object references |
| `LevelLayer.dfy` | `LevelLayers` | `LevelLayerData` (an `array<array?<int>>` with a ghost `Grid` view) and `LevelLayer` |
| `LevelAsset.dfy` | `LevelAssets` | `LevelAsset` with a ghost `Layers` view of every layer's grid |
| `Dictionaries.dfy` | `Dictionaries` | `Dictionary.Add` over an array of pairs: success, or the first duplicate key with the entries added so far |
| `SerializedDictionary.dfy` | `SerializedDictionaries` | `SerializedDictionary<K,T>` |
| `TileSettings.dfy` | `TileCatalog` | `TileConfig`, `TileSettings` |
| `LayerMask.dfy` | `LayerMasks` | the 32-bit layer mask, `ChangeMask`'s bit logic, `LayerPopup` |
| `FieldCoordinates.dfy` | `FieldCoordinates` | the cell drawing offsets, `CalculatePoint` and the corrected mapping |
| `Capture.dfy` | `PointerCapture` | `GUIUtility.hotControl` under `HandleField` |
| `Strings.dfy` | `Strings` | `int.ToString`, `string.Contains` |
| `LevelEditor.dfy` | `LevelEditing` | tools, dispatch, `DrawTiles`, the `LevelEditor` session |
| `TypeReference.dfy` | `TypeReferences` | `TypeReference` |
| `HealthComponent.dfy` | `Health` | `HealthComponent` with 32-bit wrap-around |

### Host effects

Host effects are kept in a ghost log, `LevelEditor.effects`, in the order the editor causes them. They are:

- `EditorUtility.SetDirty`;
- `AssetDatabase.SaveAssets`, `CreateAsset`, `AddObjectToAsset` and `OpenAsset`.

The level asset's `OnOpenAsset` hook calls `Edit` (Assets/Scripts/Editor/LevelEditor/LevelEditorWindow.cs:44-52). So `TryToCreateLevel` logs `OpenAsset` and then performs `Edit`.

### Exceptions and parameters

- **Exceptions** the code can raise are results rather than crashes. They are a `Fault` value (`NullReference`, `IndexOutOfRange` for arrays, `ArgumentOutOfRange` for lists, `ArgumentNull`, `MissingConstructor`), a `DuplicateKey` outcome, or `None`.
- **Editor settings** become parameters: tile size, default layer count, default field size, `Application.dataPath` and the paths returned by the file panels.
- **Host functions** also become parameters: type resolution (`Type.GetType`), string hashing and the resolved tool classes.

## Model

| member | source | states |
|---|---|---|
| LevelLayers.LevelLayerData.constructor | Assets/Scripts/Levels/LevelLayer.cs:36-40 | a new grid has no rows and no lines |
| LevelLayers.Resized | Assets/Scripts/Levels/LevelLayer.cs:43-53 | the resized grid has size.x rows of size.y cells; cells inside both old and new bounds keep their value; every other cell is 0 |
| LevelLayers.LevelLayerData.Resize | Assets/Scripts/Levels/LevelLayer.cs:43-53 | resizing in place turns the grid into `Resized(old grid, size)` and leaves the lines alone; Array.Resize reuses a row already of the right length |
| LevelLayers.ArrayResize | Assets/Scripts/Levels/LevelLayer.cs:44 | Array.Resize: the prefix that fits is kept, new slots hold the default, and the same array comes back when the length is unchanged |
| LevelLayers.ResizeRow | Assets/Scripts/Levels/LevelLayer.cs:46-51 | a missing row becomes an empty one before it is resized to h cells, with 0 in the new cells |
| LevelLayers.FitRows | Assets/Scripts/Levels/LevelLayer.cs:45-52 | the row loop leaves every row non-null, of length h, holding the old row's prefix and zeros, with no row shared |
| LevelLayers.LevelLayerData.OnBeforeSerialize | Assets/Scripts/Levels/LevelLayer.cs:55-62 | the old lines are discarded and there is one line per row, equal to that row, in order |
| LevelLayers.LevelLayerData.OnAfterDeserialize | Assets/Scripts/Levels/LevelLayer.cs:64-70 | the grid is rebuilt with one row per line, row x equal to line x (rows may differ in length) |
| LevelLayers.SerializationRoundTrip | Assets/Scripts/Levels/LevelLayer.cs:55-70 | serialising then deserialising leaves every cell of the grid as it was |
| LevelLayers.LevelLayerData.Get | Assets/Scripts/Levels/LevelLayer.cs:72-75 | the getter returns cell (x, y) of the grid, for x and y inside the jagged bounds |
| LevelLayers.LevelLayerData.HasCell | Assets/Scripts/Levels/LevelLayer.cs:72-79 | the indexer finds a cell exactly when x is a row and y is inside that row |
| LevelLayers.LevelLayerData.Set | Assets/Scripts/Levels/LevelLayer.cs:76-78 | the setter changes cell (x, y) to v and no other cell |
| LevelLayers.LevelLayer.constructor | Assets/Scripts/Levels/LevelLayer.cs:8-9 | a new layer has an empty grid and an empty name |
| LevelLayers.LevelLayer.Resize | Assets/Scripts/Levels/LevelLayer.cs:12-14 | the layer's resize is exactly the data's resize and keeps the name |
| LevelLayers.LevelLayer.CellAt | Assets/Scripts/Levels/LevelLayer.cs:16-19 | the point indexer reads the same cell as the (x, y) indexer |
| LevelLayers.LevelLayer.Cell | Assets/Scripts/Levels/LevelLayer.cs:21-24 | the (x, y) indexer reads the data's cell |
| LevelLayers.LevelLayer.HasCell | Assets/Scripts/Levels/LevelLayer.cs:21-24 | the layer's indexer finds a cell exactly when the data's does |
| LevelLayers.LevelLayer.SetCell | Assets/Scripts/Levels/LevelLayer.cs:21-24 | writing through the layer changes that one cell and keeps the name |
| LevelLayers.LevelLayer.SetCellAt | Assets/Scripts/Levels/LevelLayer.cs:16-19 | writing through the point indexer changes the same one cell |
| LevelAssets.LevelAsset.constructor | Assets/Scripts/Levels/LevelAsset.cs:8-11 | a new level has field size (0, 0) and no layers |
| LevelAssets.LevelAsset.SetFieldSize | Assets/Scripts/Levels/LevelAsset.cs:16-21 | the field size becomes the new size, the layer list and names stay, and every layer's grid is resized to the new size, in order |
| LevelAssets.LevelAsset.ResizeLayer | Assets/Scripts/Levels/LevelAsset.cs:19 | one loop step resizes layer i and no other |
| LevelAssets.LevelAsset.AddLayer | Assets/Scripts/Levels/LevelAsset.cs:23-25 | the layer is appended at the end with its grid as it is (not resized), earlier layers unchanged and in order |
| LevelAssets.LevelAsset.Contains | Assets/Scripts/Levels/LevelAsset.cs:27-35 | the per-axis loop accepts a point exactly when 0 <= p.x < size.x and 0 <= p.y < size.y, so never when a side is 0 or below |
| LevelAssets.LevelAsset.Layer | Assets/Scripts/Levels/LevelAsset.cs:37-39 | `this[i]`, for 0 <= i < LayerCount, is the layer whose grid is Layers[i] |
| LevelAssets.LevelAsset.HasCell | Assets/Scripts/Levels/LevelAsset.cs:37-39 | `this[i][x, y]` finds a cell exactly when layer i exists and has cell (x, y) |
| LevelAssets.LevelAsset.LayerCount | Assets/Scripts/Levels/LevelAsset.cs:41 | the count is the number of layers |
| LevelAssets.LevelAsset.SetLayerCell | Assets/Scripts/Levels/LevelAsset.cs:37-39 | `this[i][x, y] = v` changes that one cell of that one layer; the field size, the list of layers and every layer's name stay as they were |
| Dictionaries.AddAll | Assets/Scripts/Core/SerializedDictionary.cs:34-40 | the Add loop on a cleared dictionary yields AddFrom(empty, entries, 0): all added, or the first duplicate with what was added before it |
| Dictionaries.AddFromCompletesIff | Assets/Scripts/Core/SerializedDictionary.cs:34-40 | the Add loop completes exactly when no remaining key is already present and the remaining keys are pairwise distinct |
| Dictionaries.AddFromContents | Assets/Scripts/Core/SerializedDictionary.cs:34-40 | a completed loop holds the old entries plus every pair, each key mapped to its pair's value |
| Dictionaries.AddFromStopsAtFirstDuplicate | Assets/Scripts/Core/SerializedDictionary.cs:39 | a failed loop throws at the first key already present and keeps exactly the entries added before it |
| Dictionaries.RebuildCompletesIffDistinct | Assets/Scripts/Core/SerializedDictionary.cs:28-40 | the rebuild from a cleared dictionary succeeds exactly when the keys are distinct |
| Dictionaries.RebuildContents | Assets/Scripts/Core/SerializedDictionary.cs:28-40 | with distinct keys the rebuilt key set is the pairs' key set and each key maps to its pair's value |
| Dictionaries.RebuildFailure | Assets/Scripts/Core/SerializedDictionary.cs:39 | with a repeated key the rebuild stops at its second occurrence and keeps the earlier pairs |
| SerializedDictionaries.SerializedDictionary.constructor | Assets/Scripts/Core/SerializedDictionary.cs:20-24 | a deserialised dictionary has its pairs and no map yet |
| SerializedDictionaries.SerializedDictionary.OnAfterDeserialize | Assets/Scripts/Core/SerializedDictionary.cs:27-41 | the map is cleared and rebuilt by the Add loop; old entries never survive |
| SerializedDictionaries.SerializedDictionary.OnBeforeSerialize | Assets/Scripts/Core/SerializedDictionary.cs:43 | changes nothing |
| SerializedDictionaries.SerializedDictionary.Get | Assets/Scripts/Core/SerializedDictionary.cs:45-51 | the indexer returns the mapped value, or default(T) for a missing key; before the first rebuild it throws a null reference |
| SerializedDictionaries.LookupAfterRebuild | Assets/Scripts/Core/SerializedDictionary.cs:34-51 | after a successful rebuild each pair's key looks up that pair's value and every other key gives default(T) |
| SerializedDictionaries.RebuildSucceedsIffDistinct | Assets/Scripts/Core/SerializedDictionary.cs:34-40 | the rebuild succeeds exactly when the keys are distinct, and the map's keys are then the pairs' keys |
| TileCatalog.NewTileConfig | Assets/Scripts/Core/Field/TileSettings.cs:7-26 | a fresh config is not walkable, not breakable, has health 1, layer 0 and speed modifier -1 |
| TileCatalog.IdEntries | Assets/Scripts/Core/Field/TileSettings.cs:47-50 | the rebuild adds (configs[i].id, configs[i]) for each i, in order |
| TileCatalog.TileSettings.constructor | Assets/Scripts/Core/Field/TileSettings.cs:33-37 | a deserialised catalog has its configs (possibly null) and no map yet |
| TileCatalog.TileSettings.OnAfterDeserialize | Assets/Scripts/Core/Field/TileSettings.cs:39-51 | with null configs the map is left untouched; otherwise it is cleared and rebuilt by id, failing at the first repeated id |
| TileCatalog.TileSettings.OnBeforeSerialize | Assets/Scripts/Core/Field/TileSettings.cs:53 | changes nothing |
| TileCatalog.TileSettings.GetConfigById | Assets/Scripts/Core/Field/TileSettings.cs:55-59 | the config for the id, or null when the map lacks it; a map never built throws a null reference |
| TileCatalog.TileSettings.GetSpriteById | Assets/Scripts/Core/Field/TileSettings.cs:61-64 | succeeds exactly when the map is built and holds the id, with that config's sprite; otherwise the null config (or map) throws a null reference |
| TileCatalog.TileSettings.GetConfigs | Assets/Scripts/Core/Field/TileSettings.cs:66-68 | returns the stored configs array |
| TileCatalog.IdKeys | Assets/Scripts/Core/Field/TileSettings.cs:47-50 | the rebuild's keys are distinct exactly when the configs' ids are, and they are exactly the configs' ids |
| TileCatalog.LookupAfterRebuild | Assets/Scripts/Core/Field/TileSettings.cs:47-64 | with distinct ids, GetConfigById(c.id) is c and GetSpriteById(c.id) its sprite for every config c; any other id gives a null config, and its sprite throws |
| TileCatalog.RebuildFailsOnRepeatedId | Assets/Scripts/Core/Field/TileSettings.cs:49 | two configs with the same id make the rebuild throw, at the later one at the latest |
| LayerMasks.ShiftOneValue | Assets/Scripts/Editor/LevelEditor/LevelEditorRenderer.cs:89 | the bits of `1 << i` stand for the int 2^(i mod 32), and for int.MinValue when i mod 32 is 31 |
| LayerMasks.MaxValueIsIntMax | Assets/Scripts/Editor/LevelEditor/LevelEditorRenderer.cs:15 | the initial mask's bits stand for int.MaxValue, 2147483647 |
| LayerMasks.ZeroIffValueZero | Assets/Scripts/Editor/LevelEditor/LevelEditorRenderer.cs:89 | 32 bits stand for the int 0 exactly when all are clear, so the model's `!= Zero` is the source's `!= 0` |
| LayerMasks.AndWithShiftOne | Assets/Scripts/Editor/LevelEditor/LevelEditorRenderer.cs:151 | `mask & (1 << i)` is non-zero exactly when bit i mod 32 of the mask is set, in either operand order |
| LayerMasks.VisibleIffBit | Assets/Scripts/Editor/LevelEditor/LevelEditorRenderer.cs:89 | a layer is visible exactly when its bit is set |
| LayerMasks.WithLayerChangesOneBit | Assets/Scripts/Editor/LevelEditor/LevelEditorRenderer.cs:124-130 | setting or clearing a layer's bit changes that bit to the value and no other bit |
| LayerMasks.WithLayerSetsOnlyThatLayer | Assets/Scripts/Editor/LevelEditor/LevelEditorRenderer.cs:124-130 | after the change the layer's visibility is the value and every layer with another bit keeps its visibility |
| LayerMasks.InitialMaskShowsLayersBelow31 | Assets/Scripts/Editor/LevelEditor/LevelEditorRenderer.cs:15 | with int.MaxValue every layer is visible except those whose bit is 31 |
| LayerMasks.Decoded | Assets/Scripts/Editor/LevelEditor/LevelEditorRenderer.cs:148-153 | the decoded popup has count entries, entry i true exactly when layer i is visible |
| LayerMasks.InitMask | Assets/Scripts/Editor/LevelEditor/LevelEditorRenderer.cs:148-153 | the loop fills a new array of count flags equal to the decoded mask |
| LayerMasks.LayerPopup.constructor | Assets/Scripts/Editor/LevelEditor/LevelEditorRenderer.cs:142-146 | the popup's toggles are the decoded initial mask |
| LayerMasks.LayerPopup.Element | Assets/Scripts/Editor/LevelEditor/LevelEditorRenderer.cs:176-183 | a click flips toggle i and reports (i, its new value); no click changes nothing and reports nothing |
| LayerMasks.ToggleKeepsPopupInStep | Assets/Scripts/Editor/LevelEditor/LevelEditorRenderer.cs:124-130 | with at most 32 layers, flipping toggle i and changing bit i keep the popup equal to the decoded mask |
| LayerMasks.ToggleOutOfStepBeyond32Layers | Assets/Scripts/Editor/LevelEditor/LevelEditorRenderer.cs:126-128 | with 33 layers, hiding layer 0 also hides layer 32, whose toggle stays on |
| FieldCoordinates.CellAtHitsDrawnCell | Assets/Scripts/Editor/LevelEditor/LevelEditorRenderer.cs:95-97 | a pixel lies in the rectangle DrawTiles gives a cell exactly when the corrected mapping returns that cell |
| FieldCoordinates.FloorDivIff | Assets/Scripts/Editor/LevelEditor/LevelEditorGUI.cs:212-213 | floor(v / d) is n exactly when n·d <= v < n·d + d |
| FieldCoordinates.CellOriginMapsBack | Assets/Scripts/Editor/LevelEditor/LevelEditorRenderer.cs:95-97 | the corner DrawTiles gives a cell maps back to that cell |
| FieldCoordinates.SquareTilesAgree | Assets/Scripts/Editor/LevelEditor/LevelEditorGUI.cs:207-216 | with square tiles CalculatePoint as written is the corrected mapping |
| FieldCoordinates.CalculatePointMissesDrawnCell | Assets/Scripts/Editor/LevelEditor/LevelEditorGUI.cs:212-213 | with 32 x 16 tiles, pixel (40, 5) is drawn as cell (0, 1) but CalculatePoint gives (0, 2) |
| PointerCapture.DownCapturesOnlyWhenFree | Assets/Scripts/Editor/LevelEditor/LevelEditorGUI.cs:149-154 | a mouse-down reaches the tool exactly when no control holds the capture, and then the field takes it |
| PointerCapture.DragKeepsCapture | Assets/Scripts/Editor/LevelEditor/LevelEditorGUI.cs:156-160 | a drag is forwarded exactly while the field holds the capture, and never changes it |
| PointerCapture.UpReleasesCapture | Assets/Scripts/Editor/LevelEditor/LevelEditorGUI.cs:162-167 | a mouse-up while the field holds the capture is forwarded and releases it |
| PointerCapture.DragsWhileCaptured | Assets/Scripts/Editor/LevelEditor/LevelEditorGUI.cs:156-160 | any number of drags while captured are all forwarded and leave the capture as it was |
| PointerCapture.GestureReleasesCapture | Assets/Scripts/Editor/LevelEditor/LevelEditorGUI.cs:148-167 | down, n drags, up from a free capture forwards every event and ends with the capture free |
| PointerCapture.ForeignCaptureBlocksEverything | Assets/Scripts/Editor/LevelEditor/LevelEditorGUI.cs:148-167 | while another control holds the capture, no event is forwarded and the capture stays with that control |
| Strings.DecimalString | Assets/Scripts/Editor/LevelEditor/LevelEditor.cs:116 | n.ToString() is a non-empty string of digits, one digit exactly when n < 10 |
| Strings.DecimalStringInjective | Assets/Scripts/Editor/LevelEditor/LevelEditor.cs:116 | different numbers print differently |
| Strings.ContainsPrefix | Assets/Scripts/Editor/LevelEditor/LevelEditor.cs:129 | a string contains each of its prefixes |
| LevelEditing.CapabilitiesOf | Assets/Scripts/Editor/LevelEditor/LevelEditorTools/TileTool.cs:8 | TileTool handles mouse-down, mouse-drag and the panel, and not mouse-up |
| LevelEditing.SaveEffects | Assets/Scripts/Editor/LevelEditor/LevelEditor.cs:76-79 | saving logs SetDirty then SaveAssets for an open level, and nothing without one |
| LevelEditing.PaintOnlyInsideWithTile | Assets/Scripts/Editor/LevelEditor/LevelEditorTools/TileTool.cs:65-76 | a paint happens exactly when the tile resolves, a level is open, the point is in the field and the cell exists; it writes 0 with shift and tile.id without, at layer tile.layer |
| LevelEditing.PaintWritesOnlyThatCell | Assets/Scripts/Editor/LevelEditor/LevelEditorTools/TileTool.cs:71 | a paint changes exactly one cell of one layer, keeps every layer's shape, and any other outcome changes nothing |
| LevelEditing.SizedLevelPaintsWithoutThrowing | Assets/Scripts/Editor/LevelEditor/LevelEditor.cs:114-120 | on a level whose layers all have the field size, a resolved tile of an existing layer paints inside the field and skips outside, never throwing |
| LevelEditing.DrawnExactlyVisibleTiles | Assets/Scripts/Editor/LevelEditor/LevelEditorRenderer.cs:83-106 | when DrawTiles completes (no reached cell is missing, and every reached id is in the catalog with a non-null sprite) it draws exactly the cells in the field, of layers whose bit is set, holding an id above 0, each at its CellOrigin with the catalog's config for the id, whose sprite is set |
| LevelEditing.UnreadableSpriteStopsDrawing | Assets/Scripts/Editor/LevelEditor/LevelEditorRenderer.cs:99-101 | a visible tile whose id the catalog lacks, or whose config's sprite is null, makes DrawTiles throw |
| LevelEditing.EmptyCellsNeverDrawn | Assets/Scripts/Editor/LevelEditor/LevelEditorRenderer.cs:89-94 | cells holding 0 or less, and cells of hidden layers, are never drawn |
| LevelEditing.InitialMaskNeverDrawsLayer31 | Assets/Scripts/Editor/LevelEditor/LevelEditorRenderer.cs:15 | with the initial mask, layer 31 is never drawn |
| LevelEditing.SizedLevelDraws | Assets/Scripts/Editor/LevelEditor/LevelEditorRenderer.cs:88-101 | a level whose layers have the field size and whose ids are all in the catalog with non-null sprites is drawn without an exception |
| LevelEditing.ClickOnDrawnTileHitsItsCell | Assets/Scripts/Editor/LevelEditor/LevelEditorRenderer.cs:95-97 | a pixel inside a drawn tile's rectangle maps to that tile's cell under the corrected mapping |
| LevelEditing.SquareTileClickHitsItsCell | Assets/Scripts/Editor/LevelEditor/LevelEditorGUI.cs:207-216 | with square tiles, CalculatePoint as written maps a pixel inside a drawn tile's rectangle to that tile's cell |
| LevelEditing.FirstThrow | Assets/Scripts/Editor/LevelEditor/LevelEditor.cs:179-181 | the first reference whose instantiation throws: none before it throws, and it does (or it is the end) |
| LevelEditing.FirstThrowIsFirst | Assets/Scripts/Editor/LevelEditor/LevelEditor.cs:179-181 | the first throwing position is unique |
| LevelEditing.ValidPathsAreUnderDataPath | Assets/Scripts/Editor/LevelEditor/LevelEditor.cs:128-130 | null and empty paths are invalid; a non-empty path starting with the data path is valid |
| LevelEditing.LayerNamesDistinct | Assets/Scripts/Editor/LevelEditor/LevelEditor.cs:116 | different layers of a created level get different names |
| LevelEditing.AddedLayers | Assets/Scripts/Editor/LevelEditor/LevelEditor.cs:118 | one AddObjectToAsset per layer, in order |
| LevelEditing.DispatchOf | Assets/Scripts/Editor/LevelEditor/LevelEditorGUI.cs:218-234 | no handler runs without a selected tool or when the tool lacks the capability; an index outside the toolset throws; another tool class's handler throws exactly when the host fault is given |
| LevelEditing.HostThrowKeepsCapture | Assets/Scripts/Editor/LevelEditor/LevelEditorGUI.cs:148-167 | a throwing host handler leaves hotControl as it was; one that completes lets a forwarded down take the capture and a forwarded up release it |
| LevelEditing.TileToolIgnoresMouseUp | Assets/Scripts/Editor/LevelEditor/LevelEditorTools/TileTool.cs:57-63 | a TileTool gets no mouse-up, and mouse-down and mouse-drag have the same effect |
| LevelEditing.CreatedLayersAreBlank | Assets/Scripts/Editor/LevelEditor/LevelEditor.cs:115-120 | a created layer resized to the field size has that size and holds only zeros |
| LevelEditing.LevelEditorTool.constructor | Assets/Scripts/Editor/LevelEditor/LevelEditorTools/LevelEditorTool.cs:28-31 | the base constructor stores the editor and names the tool "tool" |
| LevelEditing.LevelEditorTool.TileTool | Assets/Scripts/Editor/LevelEditor/LevelEditorTools/TileTool.cs:25-28 | a new TileTool is named "Tile", has tile 1 selected and holds the found catalog |
| LevelEditing.LevelEditorTool.GetName | Assets/Scripts/Editor/LevelEditor/LevelEditorTools/LevelEditorTool.cs:33-35 | returns the current name without changing anything |
| LevelEditing.LevelEditorTool.SetEditLevel | Assets/Scripts/Editor/LevelEditor/LevelEditorTools/LevelEditorTool.cs:37-39 | sets only editLevel |
| LevelEditing.LevelEditorTool.SelectedTile | Assets/Scripts/Editor/LevelEditor/LevelEditorTools/TileTool.cs:15-22 | null for an id of 0 or below; otherwise the catalog's config for the id (null when absent), throwing when there is no catalog or no map |
| LevelEditing.FirstNullSprite | Assets/Scripts/Editor/LevelEditor/LevelEditorTools/TileTool.cs:36-49 | the first config whose sprite is null, every config before it having one (or the count) |
| LevelEditing.LevelEditorTool.SelectFromPanel | Assets/Scripts/Editor/LevelEditor/LevelEditorTools/TileTool.cs:30-55 | a click on config i's button selects configs[i].id when no config up to i has a null sprite; a null sprite throws before the later buttons, a click on one of which selects nothing; no click keeps the selection; a null catalog or config array throws |
| LevelEditing.LevelEditorTool.ProcessMouseEvent | Assets/Scripts/Editor/LevelEditor/LevelEditorTools/TileTool.cs:65-76 | the outcome is PaintOutcome of the selection and the level; a paint writes its cell and logs SetDirty; the level keeps its field size, its list of layers and their names, and every other cell; the event is used unless an exception was raised |
| LevelEditing.LevelEditorTool.OnMouseDown | Assets/Scripts/Editor/LevelEditor/LevelEditorTools/TileTool.cs:57-59 | ProcessMouseEvent |
| LevelEditing.LevelEditorTool.OnMouseDrag | Assets/Scripts/Editor/LevelEditor/LevelEditorTools/TileTool.cs:61-63 | ProcessMouseEvent, with the same contract as OnMouseDown |
| LevelEditing.LevelEditor.constructor | Assets/Scripts/Editor/LevelEditor/LevelEditorRenderer.cs:15 | a new editor has no level, no toolset, a free capture, the mask int.MaxValue and no effects |
| LevelEditing.LevelEditor.StartEdit | Assets/Scripts/Editor/LevelEditor/LevelEditor.cs:68-70 | the edited level becomes the argument |
| LevelEditing.LevelEditor.ModifyLevel | Assets/Scripts/Editor/LevelEditor/LevelEditor.cs:72-74 | logs SetDirty of the edited level |
| LevelEditing.LevelEditor.SaveLevel | Assets/Scripts/Editor/LevelEditor/LevelEditor.cs:76-79 | logs SetDirty, then SaveAssets |
| LevelEditing.LevelEditor.OnDestroy | Assets/Scripts/Editor/LevelEditor/LevelEditor.cs:46-50 | saves exactly when a level is open |
| LevelEditing.LevelEditor.Edit | Assets/Scripts/Editor/LevelEditor/LevelEditor.cs:52-66 | a null level changes and saves nothing; otherwise the open level, if any, is saved exactly once and the new one becomes the edited level |
| LevelEditing.LevelEditor.SelectedTool | Assets/Scripts/Editor/LevelEditor/LevelEditorGUI.cs:39-46 | null without a toolset, otherwise toolset[selectedToolIndex], which throws outside the array |
| LevelEditing.LevelEditor.HandleMouse | Assets/Scripts/Editor/LevelEditor/LevelEditorGUI.cs:218-234 | the dispatch is DispatchOf the tool selected at that moment, with the host fault for other tool classes; the level and the log change only as a TileTool's paint says, and the level keeps its list of layers and their names |
| LevelEditing.LevelEditor.HandleField | Assets/Scripts/Editor/LevelEditor/LevelEditorGUI.cs:132-178 | with no level nothing happens; otherwise events are forwarded as the capture allows, at the point CalculatePoint gives, as written; the capture follows NextHot; an exception leaves it; the level and the log change only as a TileTool's paint says, and the level keeps its list of layers and their names |
| LevelEditing.LevelEditor.HandleToolset | Assets/Scripts/Editor/LevelEditor/LevelEditorGUI.cs:192-205 | a null entry throws in the name list; otherwise the popup's choice becomes the selected index and a selected TileTool's panel handles the click, throwing at a null sprite; another tool class's panel gives the host fault; only the chosen tool's selectedTileId can change, and only for a click before the first null sprite |
| LevelEditing.LevelEditor.GetToolset | Assets/Scripts/Editor/LevelEditor/LevelEditor.cs:175-182 | a fresh toolset as long as the references, entry i built from reference i, up to the first that throws; later entries stay null |
| LevelEditing.LevelEditor.FileMenuItems | Assets/Scripts/Editor/LevelEditor/LevelEditor.cs:97-104 | Create and Open first, Close last, and Save exactly while a level is open |
| LevelEditing.LevelEditor.NewLevelAsset | Assets/Scripts/Editor/LevelEditor/LevelEditor.cs:111-119 | a new asset with layerCount empty layers named "Layer 1", ... in order, with CreateAsset and one AddObjectToAsset per layer logged |
| LevelEditing.LevelEditor.TryToCreateLevel | Assets/Scripts/Editor/LevelEditor/LevelEditor.cs:106-126 | an invalid path does nothing; a size Resize rejects leaves the editor on its level with only the asset's creation and its layers logged; otherwise the created level has the default field size, every layer resized to it after all were added, the effects logged in order, and becomes the edited level |
| LevelEditing.LevelEditor.ChangeMask | Assets/Scripts/Editor/LevelEditor/LevelEditorRenderer.cs:124-130 | the mask's bit for the layer is set or cleared as the value says |
| LevelEditing.LevelEditor.ToggleLayer | Assets/Scripts/Editor/LevelEditor/LevelEditorRenderer.cs:176-183 | a click flips the toggle and changes the mask to match; with at most 32 layers a popup in step with the mask stays in step |
| TypeReferences.TypeReference.constructor | Assets/Scripts/Core/TypeReference.cs:8-9 | a new reference has an empty path and no type |
| TypeReferences.TypeReference.Equals | Assets/Scripts/Core/TypeReference.cs:14-21 | null equals an empty reference; another reference is equal when the paths are; anything else is unequal |
| TypeReferences.TypeReference.GetHashCode | Assets/Scripts/Core/TypeReference.cs:23-26 | the hash is the path's hash |
| TypeReferences.TypeReference.Clear | Assets/Scripts/Core/TypeReference.cs:42-45 | the reference becomes empty |
| TypeReferences.TypeReference.ExtractType | Assets/Scripts/Core/TypeReference.cs:33-40 | the type is the path's resolution, and an unresolvable path is cleared |
| TypeReferences.TypeReference.OnAfterDeserialize | Assets/Scripts/Core/TypeReference.cs:28-31 | an empty path is left alone; a non-empty one is resolved and ends empty exactly when it does not resolve |
| TypeReferences.TypeReference.OnBeforeSerialize | Assets/Scripts/Core/TypeReference.cs:47 | changes nothing |
| TypeReferences.EqualsIsEquivalence | Assets/Scripts/Core/TypeReference.cs:18-20 | equality between references is reflexive, symmetric and transitive |
| TypeReferences.EqualsAgreesWithHash | Assets/Scripts/Core/TypeReference.cs:20-26 | equal references have equal hash codes |
| TypeReferences.NullEqualsEmpty | Assets/Scripts/Core/TypeReference.cs:16-20 | a reference equals null exactly when it equals an empty reference |
| Health.Sub32 | Assets/Scripts/Core/Components/HealthComponent.cs:33 | 32-bit subtraction: the true difference when it fits, otherwise wrapped modulo 2^32 |
| Health.Clamp | Assets/Scripts/Core/Components/HealthComponent.cs:33 | Mathf.Clamp: the value when in range, otherwise the bound it passed |
| Health.HealthComponent.constructor | Assets/Scripts/Core/Components/HealthComponent.cs:7-10 | a new component cannot be damaged and has 0 hit points and 0 maximum |
| Health.HealthComponent.Init | Assets/Scripts/Core/Components/HealthComponent.cs:19-22 | sets both hit points and maximum |
| Health.HealthComponent.SetHP | Assets/Scripts/Core/Components/HealthComponent.cs:24-26 | sets only the hit points |
| Health.HealthComponent.SetMaxHP | Assets/Scripts/Core/Components/HealthComponent.cs:28-30 | sets only the maximum |
| Health.HealthComponent.TakeDamage | Assets/Scripts/Core/Components/HealthComponent.cs:32-35 | the hit points become the clamped wrapped difference; the result says whether they are 0 or below; with a maximum of 0 or more they lie in [0, max] |
| Health.DamageStaysInBounds | Assets/Scripts/Core/Components/HealthComponent.cs:33 | with max >= 0 the hit points after any damage lie in [0, max] |
| Health.ZeroDamageKeepsHitPoints | Assets/Scripts/Core/Components/HealthComponent.cs:33 | zero damage keeps hit points already in [0, max] |
| Health.HealingCapsAtMax | Assets/Scripts/Core/Components/HealthComponent.cs:33 | negative damage raises hit points, never above max, as long as the sum fits in 32 bits |
| Health.HugeHealWrapsToZero | Assets/Scripts/Core/Components/HealthComponent.cs:33 | a heal whose sum overflows 32 bits wraps negative and clamps to 0 |

## Left out

- **Drawing and GUI.** Drawing (`DrawSprite`, `DrawTexture`, `DrawGrid`, the toolbar, the search field, `MarkWindow` layout and the `ReorderableList` UI) is floating-point GL and IMGUI code. Of `DrawSprite` only its first step is kept: reading a null sprite throws.
  - DrawTiles is modelled as the set of tiles it draws, or `None` when it throws part way. Which exception it raises, and what it drew before raising it, is not modelled.
- **The TileTool panel.** Its `OnGUI` is reduced to its selection: which button, if any, was clicked comes in as a parameter. The button layout is not modelled. The config array's entries are assumed non-null; a null sprite in one of them is modelled.
- **Editor settings, panels and paths.** `LevelEditorSettings` values are parameters, and so are the paths the file panels return and `Application.dataPath`. `GetRelativePath` is not modelled (string replacement on a path that is only passed to the asset database).
- **Host effects.** `AssetDatabase` and `EditorUtility` calls appear only as entries of the ghost effect log, as does `EditorWindow.Close` for the Close item.
- **Open menu item.** `TryToOpenLevel` is left out. It is a file panel plus `LoadAssetAtPath`, and ends in `OpenAsset`, i.e. in `Edit`, which is modelled.
- **Tool classes.** `TypeReference.GetObject` (`Activator.CreateInstance`) is modelled only by what it yields for each tool reference (`Instantiation`): a TileTool, another tool class known by its handler interfaces, null for a class that is not a tool, or an exception.
  - Handlers of tool classes other than TileTool are host code (`HostHandler`). Whether one throws is a parameter, `hostFault`; see the `HandleMouse` and `HandleToolset` lines below. TileTool's catalog (`AssetFinder.FindAsset`) is a constructor parameter.
- **Not part of this model.** `LevelEditorHelpers.cs`, `UtilityExtension.cs`, the TableView editor, `TypeReferencePropertyDrawer.cs`, `StartupMuter.cs`, `GameInstance.cs`, `LevelEditorWindow.cs` (except its open hook), `LevelCollectionAsset.cs`, and the movement, shooting, speed and tile components. `HealthComponent.Health` (a float ratio) and `SetCanBeDamaged` (a collider toggle) are left out too.
- **Sprites and animator controllers** are opaque references (`UnityRef`). `speedModifier` is a `real`.
- **Pixel positions** are whole numbers and tile sizes are positive (`ValidTileSize`). `Mathf.FloorToInt` of a float quotient is modelled as integer floor division.
- **Layer mask representation.** The 32-bit mask is modelled as 32 flags (`Bits32`), bit k being flag k. `1 << i` is modelled with C#'s shift-count masking, bit i mod 32, so any non-negative layer index is allowed and the wrap past 32 layers is visible (`ToggleOutOfStepBeyond32Layers`). `IntValue` reads the flags back as the two's-complement int they stand for.
- **LevelLayers.LevelLayerData.Resize**: requires a size `Resize` accepts: x of 0 or more, and y of 0 or more unless x is 0 (with no rows, no row is resized). The `ArgumentOutOfRangeException` that `Array.Resize` raises for a negative size is not modelled.
- **LevelLayers.LevelLayer.Resize**: the same requirement as `LevelLayerData.Resize`, whose negative-size exception is not modelled either.
- **LevelAssets.LevelAsset.SetFieldSize**: requires a size `Resize` accepts whenever there are layers. The exception `Array.Resize` raises for a negative size, after `fieldSize` has already been assigned, is not modelled. `TryToCreateLevel` reports that case as `ResizeThrew` without describing the half-resized level.
- **LevelEditing.LevelEditor.HandleField**: it shares `HandleMouse`'s assumption that another tool class's handler changes neither the level nor the log; such a handler's exception is the `hostFault` parameter and leaves `hotControl` as it was. The point for non-mouse events and the repaint (`DrawField`) are not modelled beyond the `Repainted` outcome. The `EventType` of a control-specific event is taken as the event's type.
- **LevelEditing.LevelEditor.HandleToolset**: the popup's choice comes in as a parameter, `chosenIndex`. The panel of a tool class other than TileTool may throw (the `hostFault` parameter), but what else it does is not modelled: it is assumed to change nothing.
- **LevelEditing.LevelEditor.HandleMouse**: a mouse handler of a tool class other than TileTool may throw (the `hostFault` parameter), but any change it makes to the level or the log is not modelled: it is assumed to change neither. The contract that the level and log change only on a TileTool paint rests on that assumption.
- **TypeReferences.TypeReference.IsEmpty**: the path is never null in the model (it is initialised to `string.Empty` and only ever assigned non-null values), so "null or empty" is "empty".
- **Threads, Unity callbacks** and the order in which Unity invokes serialisation callbacks are outside the model. Each callback is a method that the caller invokes.

### Behaviour that follows the code

The model keeps each of these behaviours of the code.

- **Drag and mouse-up** go to whichever tool is selected when they arrive. The tool is not pinned for the gesture (`HandleMouse` looks it up on every event).
- **A mouse-up is released** after the handler even when the tool has no mouse-up handler.
- **An exception** in a handler leaves `hotControl` as it was, because the assignment after the call is skipped.
- **`AddLayer` does not resize.** Layers share the field size only because `TryToCreateLevel` adds them all before `SetFieldSize` (`SizedLevelPaintsWithoutThrowing`, `SizedLevelDraws` and `CreatedLayersAreBlank` state what that buys).
- **Unknown ids and missing sprites.** `DrawTiles` throws on a cell whose id is not in the catalog (the null config's sprite) or whose config has a null sprite (`DrawSprite` reads `sprite.texture`). The TileTool panel throws at the first config with a null sprite, and a fresh config (`NewTileConfig`) has none.
- **Two faults for a missing cell.** A tile whose layer does not exist makes the `List` indexer throw `ArgumentOutOfRange`; a layer without the cell makes the array indexer throw `IndexOutOfRange` (`PaintOutcome`).
- **Failed toolset builds.** `GetToolset` leaves the entries after a failing reference null, and `HandleToolset` then throws on every call.
- **Negative tile ids** are stored like any other. They are simply never drawn, and `SelectedTile` treats an id of 0 or below as no tile.

## Findings

| source | as written | input that shows it | evidently intended | confidence | as-written member | corrected member |
|---|---|---|---|---|---|---|
| Assets/Scripts/Editor/LevelEditor/LevelEditorGUI.cs:212-213 | `CalculatePoint` sets x = floor(pos.y / tileSize.x) and y = floor(pos.x / tileSize.y), dividing each coordinate by the other axis's tile side | tile size (32, 16) and pointer (40, 5). DrawTiles draws cell (0, 1) at columns [32, 64) and rows [0, 16), so the pixel is in it, but CalculatePoint gives (0, 2) | x = floor(pos.y / tileSize.y), y = floor(pos.x / tileSize.x): the inverse of DrawTiles' placement (Assets/Scripts/Editor/LevelEditor/LevelEditorRenderer.cs:95-97) | not executed; the two agree for square tiles | FieldCoordinates.CalculatePointMissesDrawnCell | FieldCoordinates.CellAtHitsDrawnCell |

`HandleField` in the model uses `FieldCoordinates.CalculatePoint`, the code as written, so for non-square tiles it paints the cell the code paints, not the one drawn under the pointer. `FieldCoordinates.CellAt` is the corrected mapping: `LevelEditing.ClickOnDrawnTileHitsItsCell` proves it finds the drawn cell, and `FieldCoordinates.SquareTilesAgree` and `LevelEditing.SquareTileClickHitsItsCell` prove that the two mappings coincide for square tiles.
