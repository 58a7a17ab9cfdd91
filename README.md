# Aeyian Wallpaper Engine: a verified model of its core

This project models the logic of the Aeyian Wallpaper Engine's editor:

- the project library window, `AWE.py`;
- the canvas editor, `AWC.py`;
- the layer visibility toggle, `layers/__init__.py`;
- the C++ cursor provider that feeds pointer positions to the runtime wallpaper, `cursorprovider.h/.cpp`.

The model states and proves those parts' behaviour in Dafny. The parts are:

- **Projects root.** The root is a map from directory name to what the directory holds: a plain file, or a directory whose `project.json` is missing, unreadable or not JSON, not valid text (reading it raises `UnicodeDecodeError`), JSON but not an object, or a parsed manifest.
- **Manifests.** Manifests and layers are typed records. Each key the editor reads has its own optional field. Every other key is kept in an `extra` map, so a rewrite cannot lose it.
- **Library** (`ProjectLibrary`, a class over the root and the selection).
  - The new-project dialog's values.
  - Project identifiers: `ddmmyyHHMMSS-XYZ`. The clock reading and the three random letters are inputs.
  - The collision-retry loop.
  - The scan that lists projects in sorted order. The listing is proved unique: sorted, sound and complete.
  - Rename, delete, and the card grid's row-major placement.
- **Canvas** (`CanvasView`, a class).
  - The fit-to-widget transform with its 20-pixel padding.
  - The hexagon background cache, built by nested loops and rebuilt only when the canvas size in whole pixels changes.
  - The ordered draw commands of one paint.
  - The editor's manifest load and its layer-panel labels.
- **Toggle.** It updates the first layer with a matching id in an `array`, in place, then writes the manifest back with only `layers` replaced.
- **Cursor** (`CursorProvider`, a class).
  - Relative motion accumulates and is clamped to the screen. Absolute motion is scaled to the screen.
  - Emit coalescing: a dirty flag plus a single-shot timer that is started only when idle.
  - The calibration guard (in progress, 5000 ms cooldown, 200 ms of stillness).
  - The chain of external steps: write the script, load it, start it, read the journal, unload it.
  - The journal parse: the leftmost match of `AEYIAN_CURSOR:(\d+),(\d+)`.

Time is a parameter `now` in milliseconds. A `QElapsedTimer` that was never started is `None`.

Python's floor division `//` is Dafny's `/`, since every divisor here is positive. Python's `int()` of a float is `Canvas.Trunc`, which truncates toward zero. Scale, offsets and coordinates are exact `real`s.

`_update_transform` (src/editor/AWC.py:97-109) does not clamp the scale, so neither does the model.

The editor's handlers catch only `json.JSONDecodeError` and `OSError`. A `project.json` that is not valid text, or that is JSON but not an object, raises past them: the scan, the grid refresh, rename, delete, the editor window and the canvas view all stop at that point, and the model records this as an aborted outcome (`None`, or an emptied grid) wherever the source stops.

The header `cursorprovider.h` does not declare several members that the `.cpp` uses: `m_dirty`, `m_calibrating` and the two elapsed timers. The model gives them the values the code needs: false, and not started.

## Model

| member | source | states |
|---|---|---|
| Text.Strip | src/editor/AWE.py:123 | `str.strip()`: the result is the input with a blank prefix and a blank suffix cut; neither of its ends is whitespace; it is empty exactly when the input is blank |
| Text.StripIdempotent | src/editor/AWE.py:274-277 | stripping a stripped name changes nothing, so the name rename stores is what a second strip gives |
| Text.NatToDecimal | src/editor/AWC.py:287 | `str(n)` of a natural number is a non-empty run of digits with no leading zero |
| Text.IntToDecimal | src/editor/AWC.py:287 | `str(i)` starts with a minus sign exactly when `i` is negative |
| Text.DecimalRoundTrip | src/editor/AWC.py:287 | reading back the digits `str(n)` prints gives `n` |
| Text.StrLessIrreflexive | src/editor/AWE.py:199 | the name order `sorted` uses is irreflexive |
| Text.StrLessTransitive | src/editor/AWE.py:199 | the name order is transitive |
| Text.StrLessTotal | src/editor/AWE.py:199 | any two distinct names are ordered one way or the other |
| Text.LeastNameExists | src/editor/AWE.py:199 | every non-empty set of names has a least one, the next that sorted iteration yields |
| ProjectId.Uppercase | src/editor/AWE.py:77 | a pick from `string.ascii_uppercase` is a capital letter |
| ProjectId.Timestamp | src/editor/AWE.py:76 | `strftime("%d%m%y%H%M%S")` is twelve decimal digits |
| ProjectId.GenerateProjectId | src/editor/AWE.py:74-78 | an identifier is twelve digits, a dash and three capital letters |
| ProjectId.ParseGenerated | src/editor/AWE.py:74-78 | an identifier gives back the day, month, year modulo 100, hour, minute, second and the three letter draws it was made from |
| ProjectId.SameIdIff | src/editor/AWE.py:74-78 | two identifiers are equal exactly when they agree on every clock field to the second and on all three letters, so a collision within one second is possible |
| Library.GetValues | src/editor/AWE.py:121-126 | the name is the stripped text, or "Untitled" when the text is blank; it is never empty and has no outer whitespace; width and height are the spin box values, within 1..999999 |
| Library.UntouchedDialogValues | src/editor/AWE.py:102-110 | a dialog accepted as it opens gives "Untitled", 1920 and 1080 |
| Library.SummaryOf | src/editor/AWE.py:204-208 | a listed project shows its manifest's name and id, each defaulting to the directory name, and its directory |
| Library.StrLessAsymmetric | src/editor/AWE.py:199 | no two names precede each other |
| Library.ListingUnique | src/editor/AWE.py:195-211 | for a given root there is exactly one sorted, sound and complete listing: any two are equal |
| Library.GridColumns | src/editor/AWE.py:328 | at least one column; otherwise as many 172-pixel card pitches as fit in the width minus 24 |
| Library.PlaceCards | src/editor/AWE.py:329-331 | card `i` shows project `i` at row `i // cols` and column `i % cols`, with the column below `cols` |
| Library.RowMajorCellsOrdered | src/editor/AWE.py:329-331 | a later card is in a later row, or in the same row further right, so no two cards share a cell |
| Library.Candidates | src/editor/AWE.py:220-226 | each successive draw is a well-formed identifier |
| Library.FirstFree | src/editor/AWE.py:220-226 | the loop's stopping rule: the identifier is the first drawn one absent from the root; FirstFreeId and NewProject are proved against it |
| Library.FirstFreeId | src/editor/AWE.py:220-226 | the retry loop returns the first drawn identifier that names nothing in the root |
| Library.RenameResult | src/editor/AWE.py:264-278 | the root after a rename; its meaning is stated by RenameChangesOnlyName, RenameUnchangedIff and RenameIdempotent, and RenameProject is proved against it |
| Library.RenameChangesOnlyName | src/editor/AWE.py:260-281 | rename keeps the set of directories and every other directory; when it writes, it changes only the selected manifest's name, which becomes the stripped non-empty input |
| Library.RenameUnchangedIff | src/editor/AWE.py:260-281 | rename leaves the root unchanged exactly when it writes nothing or the name was already the stripped input |
| Library.RenameIdempotent | src/editor/AWE.py:260-281 | renaming twice with the same input equals renaming once |
| Library.DeleteRemoves | src/editor/AWE.py:284-306 | when delete removes the directory: a selected directory, a manifest that does not raise past the handler, and a confirmation; DeleteProject is proved against it |
| ProjectManifest.InitialManifest | src/editor/AWE.py:233-246 | the manifest a new project starts with; NewProject, CreatedProjectListed and InitialManifestOpens state what it holds |
| Library.ProjectLibrary.constructor | src/editor/AWE.py:180-183 | the window starts with the projects root present (created when absent) and nothing selected; it requires a root on which the scan as written does not abort (see Left out) |
| Library.ProjectLibrary.ScanProjectsAsWritten | src/editor/AWE.py:195-211 | the scan as written aborts exactly when some directory's manifest is not valid text or is JSON but not an object; otherwise it returns the listing |
| Library.ProjectLibrary.ScanProjects | src/editor/AWE.py:195-211 | the corrected listing: sorted by directory name, one summary per directory whose manifest parsed to an object, and nothing else; an absent root lists nothing |
| Library.ProjectLibrary.NewProject | src/editor/AWE.py:214-250 | a cancelled dialog changes nothing; otherwise the first free drawn identifier gets a new directory with the initial manifest (the dialog's name and size, format 1.0.0, editor 0.0.2, no layers, no properties) and every other entry is kept; the new project is selected unless the grid refresh's scan aborts, which leaves the old selection |
| Library.ProjectLibrary.RenameProject | src/editor/AWE.py:260-281 | the new root is the rename result; nothing is written without a selection, for a manifest that is unreadable, not text, not JSON or not an object, or for a cancelled or blank input; the selection is kept |
| Library.ProjectLibrary.DeleteProject | src/editor/AWE.py:284-306 | a confirmed delete of a selected directory removes it and clears the selection; a refusal, a vanished or non-directory path, or a manifest that is not text or not an object (the name lookup raises before the question) leaves everything as it was |
| Library.ProjectLibrary.RefreshGrid | src/editor/AWE.py:313-331 | the grid is left empty exactly when the scan as written aborts; otherwise the hint is shown exactly when no project is listed, and the cards are the listing, in order, placed row-major in `GridColumns(width)` columns |
| Library.CreatedProjectListed | src/editor/AWE.py:233-249 | after a project is created, the listing shows it with the dialog's name, its identifier as id, and its directory |
| Library.RenamedProjectListed | src/editor/AWE.py:277-280 | after a rename that writes, the listing shows the stripped new name for the selected directory |
| Library.DeletedProjectUnlisted | src/editor/AWE.py:303-306 | after a delete, the removed directory is not listed |
| Library.ScanAbortWitness | src/editor/AWE.py:203-210 | for a root holding one valid project and, added after the window opens, one manifest that is not valid text or is JSON but not an object, the scan as written aborts and the corrected scan lists the valid project alone |
| Layers.FirstMatch | src/editor/layers/__init__.py:8-11 | the position the loop stops at: the first layer whose id equals the given one; none exactly when no layer matches |
| Layers.SetVisibility | src/editor/layers/__init__.py:8-11 | the list the loop leaves: no layer moves and no id changes; SetVisibilityAt states it position by position |
| Layers.SetVisibilityAt | src/editor/layers/__init__.py:8-11 | position by position: the first match gets `visible` set and every other layer is as it was; the length is kept |
| Layers.NoMatchUnchanged | src/editor/layers/__init__.py:8-11 | with no matching layer the list is unchanged |
| Layers.LaterAndUnnamedUntouched | src/editor/layers/__init__.py:8-11 | layers after the first match, duplicates of its id included, and layers without an id are untouched |
| Layers.OtherFieldsKept | src/editor/layers/__init__.py:10 | every field but `visible`, of every layer, is kept |
| Layers.ToggleIdempotent | src/editor/layers/__init__.py:7-11 | toggling twice with the same arguments equals toggling once |
| Layers.ToggleKeepsFirstMatch | src/editor/layers/__init__.py:8-11 | the toggle changes no id, so the first match is found at the same place afterwards |
| Layers.IdZeroMatches | src/editor/layers/__init__.py:7-11 | for every list holding a layer with id 0, toggling id 0 finds the first such layer and sets its `visible`: 0 is not reserved here |
| Layers.ToggleLayerVisibility | src/editor/layers/__init__.py:7-16 | the array is updated in place to the toggled list; for a manifest that parsed to an object, the manifest written has `layers` equal to that list and every other key as read; otherwise nothing is written, after the list has changed |
| Viewport.Min | src/editor/AWC.py:105 | `min` is one of its arguments and below both |
| Viewport.FitTransform | src/editor/AWC.py:97-109 | what `_update_transform` assigns, or nothing; its meaning is stated by FitAssignsIff, FitFitsAndFills and FitExample |
| Viewport.FitAssignsIff | src/editor/AWC.py:97-109 | the transform is assigned exactly when both axes leave room inside the padding and no canvas dimension is 0 |
| Viewport.FitFitsAndFills | src/editor/AWC.py:97-109 | for a positive canvas, the scale is positive; the scaled canvas fits inside the padded area, fills it on at least one axis, and is centred with offsets of at least 20 |
| Viewport.FitExample | src/editor/AWC.py:97-109 | a 1920 x 1080 canvas in a 1000 x 580 widget gets scale 0.5 and offsets 20, 20 |
| HexTiling.ColourIndex | src/editor/AWC.py:136 | the colour index lies in 0..2 |
| HexTiling.ColoursAlternate | src/editor/AWC.py:136 | neighbours in a row or a column differ in colour and the pattern repeats every three rows and columns |
| HexTiling.RowMinusOne | src/editor/AWC.py:132-136 | Python's `%` puts row -1 among the shifted odd rows and gives its colours |
| HexTiling.RowCount | src/editor/AWC.py:129 | `int(h / 18) + 3`: the rows stop three past the last whole row step inside the height |
| HexTiling.ColCount | src/editor/AWC.py:130 | `int(w / hex_w) + 3`: the columns stop three past the last whole hexagon width inside the width |
| HexTiling.Cell | src/editor/AWC.py:134-136 | one hexagon's centre and colour; ColoursAlternate and RowMinusOne state its colouring and shift |
| HexTiling.RowCells | src/editor/AWC.py:133-135 | a row holds one hexagon per column from -1 to `cols - 1` |
| HexTiling.RowsHoldExactly | src/editor/AWC.py:132-135 | a hexagon is in the tiling exactly when it is the cell of a row and a column in the loop ranges |
| HexTiling.Tiling | src/editor/AWC.py:129-136 | a hexagon is painted exactly when its row lies in -1 .. `RowCount(h) - 1`, its column in -1 .. `ColCount - 1`, and it is that row and column's cell |
| HexTiling.TilingPassesEdges | src/editor/AWC.py:129-135 | the tiling starts one row above and half a hexagon left of the pixmap and ends at least one row below and one hexagon right of it |
| Canvas.CanvasSize | src/editor/AWC.py:78-92 | the image's size when `canvas.png` exists; 1920 x 1080 when the manifest is missing, unreadable or not JSON; a 0 x 0 canvas when `canvas.png` exists but does not load; no view exactly when there is no image and the manifest is not text or not an object |
| Canvas.CanvasSizeFieldDefaults | src/editor/AWC.py:84-88 | without `canvas.png`, each resolution field falls back on its own default, 1920 or 1080 |
| Canvas.LoadEditor | src/editor/AWC.py:195-201 | the editor's name and layers; the directory name and no layers when the manifest is missing, unreadable or not JSON, and each of them alone when its key is absent; no editor exactly when the manifest is not text or not an object |
| Canvas.InitialManifestOpens | src/editor/AWC.py:195-198 | a new project opens with the name, the size and the empty layer list the library wrote |
| Canvas.Shown | src/editor/AWC.py:284-286 | the layers the panel lists, in order; ShownExactly states which |
| Canvas.ShownExactly | src/editor/AWC.py:284-286 | the panel lists exactly the layers with a non-zero id |
| Canvas.ShownAppend | src/editor/AWC.py:284-286 | the panel keeps the manifest's order: the layers shown for a concatenation are those shown for each part, in turn |
| Canvas.PanelLabel | src/editor/AWC.py:287 | a listed layer's label: its name, else as UnnamedLabelShowsId states |
| Canvas.UnnamedLabelShowsId | src/editor/AWC.py:287 | an unnamed layer's label is "Layer " followed by its id in decimal, with a minus sign before the digits of a negative id |
| Canvas.LayerPanelLabels | src/editor/AWC.py:284-289 | one label per listed layer, in order: its name, or "Layer " and its id |
| Canvas.LayerFill | src/editor/AWC.py:177-184 | one layer's fill: position and size mapped by the transform, with the defaults; DefaultLayerCoversCanvas states the default case |
| Canvas.LayerDraws | src/editor/AWC.py:173-184 | the layer loop's fills; UndrawnAddsNothing, DrawsIgnoreVisibility and DrawLayers state what it holds |
| Canvas.UndrawnAddsNothing | src/editor/AWC.py:173-177 | a layer without an id, with id 0 or of a type other than `solid_color` adds no draw, wherever it stands |
| Canvas.DefaultLayerCoversCanvas | src/editor/AWC.py:178-184 | a drawable layer with neither position nor size fills exactly the canvas rectangle |
| Canvas.DrawsIgnoreVisibility | src/editor/AWC.py:173-184 | layer lists that differ only in `visible` paint the same |
| Canvas.ToggleKeepsPaint | src/editor/AWC.py:173-184 | toggling a layer's visibility never changes what is painted |
| Canvas.DrawLayers | src/editor/AWC.py:173-184 | the layer loop issues one fill per drawable layer, in list order, at its mapped position and size |
| Canvas.Trunc | src/editor/AWC.py:163-164 | `int()` truncates toward zero |
| Canvas.CanvasView.constructor | src/editor/AWC.py:71-95 | identity transform, no cache, the canvas size from the image or the manifest with its defaults (requires a size to exist; see Left out) |
| Canvas.CanvasView.UpdateTransform | src/editor/AWC.py:97-109 | the new transform is the fit transform when assigned, else the old one; nothing else changes |
| Canvas.CanvasView.BuildHexCache | src/editor/AWC.py:116-149 | the nested loops produce the tiling of the given size, which becomes the cache, with that size recorded |
| Canvas.CanvasView.Paint | src/editor/AWC.py:151-186 | the commands are the background, the hexagon cache when the canvas covers a whole pixel each way, the image when loaded, then the layer fills; the cache is rebuilt exactly when it is absent or of another size |
| Canvas.RepaintReusesCache | src/editor/AWC.py:163-168 | two paints at the same size issue the same commands and build the cache once |
| CursorJournal.DigitRunEnd | src/runtime/plugin/cursorprovider.cpp:215 | `\d+` takes the longest run of digits |
| CursorJournal.MatchAt | src/runtime/plugin/cursorprovider.cpp:215-219 | a match at a position is the marker, a non-empty digit run, a comma and a non-empty digit run that nothing extends, and gives the two runs' values |
| CursorJournal.MatchAtComplete | src/runtime/plugin/cursorprovider.cpp:215-219 | conversely, wherever the pattern matches at a position, `MatchAt` finds that match and its two values |
| CursorJournal.SearchFrom | src/runtime/plugin/cursorprovider.cpp:215-216 | the match found is at the leftmost position that matches; none means no position matches |
| CursorJournal.ParseCursorLine | src/runtime/plugin/cursorprovider.cpp:215-219 | `re.match` is the search from position 0, so by SearchFrom's contract it gives the leftmost match of the pattern, and none exactly when no position matches |
| CursorJournal.ParseLogged | src/runtime/plugin/cursorprovider.cpp:215-219 | a line the script logs with integer coordinates parses back to those numbers, whatever follows that is not a digit |
| CursorJournal.NoMarkerNoPosition | src/runtime/plugin/cursorprovider.cpp:215-217 | text without the marker gives no position |
| CursorJournal.FractionalNotReadAtMarker | src/runtime/plugin/cursorprovider.cpp:215-217 | a marker followed by a fractional first coordinate gives no match at that marker |
| Cursor.Bound | src/runtime/plugin/cursorprovider.cpp:261-262 | `qBound` gives the value when it lies in range, else the nearer end |
| Cursor.ApplyEvent | src/runtime/plugin/cursorprovider.cpp:256-277 | what one event does to the position; RelativeMotionNormalises and AbsoluteMotionScales state the two motion cases, NoMotionKeepsPosition the others |
| Cursor.ApplyEvents | src/runtime/plugin/cursorprovider.cpp:253-280 | the events of one dispatch in order; NormalisedPreserved and NoMotionKeepsPosition state what it keeps |
| Cursor.AnyMotion | src/runtime/plugin/cursorprovider.cpp:253-280 | whether a dispatch holds a motion event, as AnyMotionIff states |
| Cursor.AnyMotionIff | src/runtime/plugin/cursorprovider.cpp:253-280 | a dispatch counts as motion exactly when one of its events is a motion event |
| Cursor.RelativeMotionNormalises | src/runtime/plugin/cursorprovider.cpp:256-265 | relative motion adds the deltas and clamps to [0, screen]; mouse coordinates are raw over screen and lie in [0, 1] |
| Cursor.AbsoluteMotionScales | src/runtime/plugin/cursorprovider.cpp:269-274 | absolute motion takes the mouse coordinates as given and sets raw to mouse times screen |
| Cursor.NormalisedPreserved | src/runtime/plugin/cursorprovider.cpp:253-280 | with absolute events inside the unit square, a dispatch keeps raw on the screen and mouse equal to raw over screen |
| Cursor.NoMotionKeepsPosition | src/runtime/plugin/cursorprovider.cpp:253-280 | non-motion events leave the position unchanged |
| Cursor.CalibrationBlocked | src/runtime/plugin/cursorprovider.cpp:120-135 | the three skip conditions of `calibrate`; UnsetTimersNeverBlock and CalibrationAllowedIff state when it holds |
| Cursor.UnsetTimersNeverBlock | src/runtime/plugin/cursorprovider.cpp:70-73 | timers never started do not block, so the constructor's calibration always runs |
| Cursor.CalibrationAllowedIff | src/runtime/plugin/cursorprovider.cpp:120-135 | when no calibration is running, one may start exactly 5000 ms after the last and 200 ms after the last movement |
| Cursor.CursorProvider.MouseX | src/runtime/plugin/cursorprovider.h:20 | the getter returns the stored field |
| Cursor.CursorProvider.MouseY | src/runtime/plugin/cursorprovider.h:21 | the getter returns the stored field |
| Cursor.CursorProvider.ScreenWidth | src/runtime/plugin/cursorprovider.h:22 | the getter returns the stored field |
| Cursor.CursorProvider.ScreenHeight | src/runtime/plugin/cursorprovider.h:23 | the getter returns the stored field |
| Cursor.CursorProvider.constructor | src/runtime/plugin/cursorprovider.cpp:39-74 | zero position, a 1920 x 1080 screen, nothing emitted; when setup succeeds, events are delivered, the first calibration starts (unless writing the script fails) and both timers start at `now`; when it fails, none of this |
| Cursor.CursorProvider.SetScreenWidth | src/runtime/plugin/cursorprovider.h:25 | assigns the width only: the position is not renormalised and nothing is emitted |
| Cursor.CursorProvider.SetScreenHeight | src/runtime/plugin/cursorprovider.h:26 | assigns the height only: the position is not renormalised and nothing is emitted |
| Cursor.CursorProvider.SchedulePositionUpdate | src/runtime/plugin/cursorprovider.cpp:100-105 | marks dirty and starts the emit timer only if it is not running, so its start time is kept |
| Cursor.CursorProvider.HandleEvent | src/runtime/plugin/cursorprovider.cpp:256-277 | one event moves the position as specified; a motion marks dirty, schedules the timer and records `now` as the last movement; any other event changes nothing |
| Cursor.CursorProvider.HandleEvents | src/runtime/plugin/cursorprovider.cpp:246-281 | without a context nothing changes; otherwise the position is the dispatch applied in order, and dirty, the timer and the last movement change exactly when a motion event occurs |
| Cursor.CursorProvider.EmitIfDirty | src/runtime/plugin/cursorprovider.cpp:91-97 | when dirty, one emission and dirty cleared; when clean, nothing |
| Cursor.CursorProvider.EmitTimerFired | src/runtime/plugin/cursorprovider.cpp:82-97 | the single-shot timer stops and emits at most once |
| Cursor.CursorProvider.Calibrate | src/runtime/plugin/cursorprovider.cpp:117-171 | when blocked, nothing changes; otherwise the last calibration becomes `now`, and the chain waits for the script load, or ends at once when the script is missing and cannot be written |
| Cursor.CursorProvider.OnScriptLoaded | src/runtime/plugin/cursorprovider.cpp:173-189 | a non-zero exit ends the calibration; zero moves on to starting the script |
| Cursor.CursorProvider.OnScriptStarted | src/runtime/plugin/cursorprovider.cpp:191-211 | a non-zero exit ends the calibration; zero moves on to reading the journal |
| Cursor.CursorProvider.OnJournalRead | src/runtime/plugin/cursorprovider.cpp:213-237 | a match sets raw to the two numbers and mouse to raw over screen, unclamped, and emits; no match changes nothing; either way the unload comes next |
| Cursor.CursorProvider.SetCalibratedPosition | src/runtime/plugin/cursorprovider.cpp:218-222 | raw becomes the reported numbers and mouse raw over screen, without clamping, and one emission follows |
| Cursor.CursorProvider.OnScriptUnloaded | src/runtime/plugin/cursorprovider.cpp:239-244 | the calibration ends whatever the exit code |
| Cursor.BurstEmitsOnce | src/runtime/plugin/cursorprovider.cpp:91-105 | motion over two dispatches within one timer period is emitted once, and the timer keeps the first start time |
| Cursor.CalibrationSetsPosition | src/runtime/plugin/cursorprovider.cpp:213-244 | a successful chain moves the cursor to the logged position over the screen, emits once and ends the calibration |
| Cursor.CooldownSkips | src/runtime/plugin/cursorprovider.cpp:117-138 | after the first calibration ends, another is skipped before 5000 ms and starts at 5000 ms |

## Left out

- Widgets, layouts, stylesheets, the settings dialog, card widgets, the sidebar text of a selected project, and the unconnected "+" button: all of this is user interface.
- The hand-off from the library to the editor process and `QDesktopServices`: process plumbing.
- JSON text and its formatting, `mkdir`, `rmtree`, writing the preview image, and loading `canvas.png`: file contents are values in the model, and an image is its size or a null pixmap.
- Manifest fields of the wrong JSON type, and `position` or `size` objects that lack a key the paint indexes. A `KeyError` or `TypeError` in those cases is not modelled, because the typed records cannot hold such values.
- The clock and the random letters are inputs, and finding the `qdbus` binary on `PATH` is a lookup outside the model.
- Library.ProjectLibrary.NewProject: requires that some drawn identifier is free. The source loops until one is, which cannot be bounded without this assumption.
- Library.ProjectLibrary.ScanProjects: skips a manifest that is not valid text or is JSON but not an object. The source aborts the whole scan instead, which is the finding below. `ScanProjectsAsWritten` models the source's behaviour, and `RefreshGrid` and `NewProject` use it, as the source does.
- Library.ProjectLibrary.constructor: requires a projects root on which the scan as written does not abort. On such a root the source crashes at startup: `_build_main_screen` (src/editor/AWE.py:183) ends by calling `_refresh_grid` (line 538), whose scan raises, so `MainWindow()` (line 545) never returns and no window exists to model.
- Canvas.CanvasView.constructor: when `canvas.png` is absent, requires a manifest that is valid text and not a non-object JSON value. The source raises in the other cases and no view exists; `CanvasSize` returns `None` for exactly those cases.
- The editor and its canvas view share one Python layer list. The model passes the view a copy, so aliasing between the two is not captured.
- Hexagon vertices (`sin`, `cos`), antialiasing, `toAlignedRect` rounding, and the value of `sqrt(3)` are floating-point rendering details. `HexWidth` is a fixed positive constant.
- Floating point in general: scale, offsets and coordinates are exact reals, with no rounding, infinities or NaN.
- Cursor.CursorProvider.HandleEvents: requires a non-zero screen size. With a zero screen, the source divides by zero into infinity or NaN, which the reals cannot express. A negative size is modelled as written (`qBound` then pins the raw position at 0); the lemmas about the position staying on the screen assume a positive size, since a negative one leaves no on-screen position.
- Cursor.CursorProvider.OnJournalRead: requires a non-zero screen size, for the same reason. With a negative size the ratios change sign, as in the source.
- Cursor.CursorProvider.constructor: does not model the first dispatch at src/runtime/plugin/cursorprovider.cpp:65. It runs before the emit timer exists (line 67), so any motion queued by then would dereference an unset pointer. The model treats that dispatch as holding no motion.
- Cursor.CursorProvider.constructor: a failed seat assignment leaves a libinput context but connects no socket notifier, so `handleEvents` is never called. The model folds this case into having no context.
- libinput and udev setup, `openRestricted`/`closeRestricted`, the socket notifier, and the QTimer intervals: the 16 ms emit period, the hourly calibration timer, and the 50 ms wait before the journal read. Timer expiry is an explicit method call.
- The external processes (qdbus, journalctl) are represented only by their exit codes and output. A process that never finishes leaves the calibration pending, which the model does not track.
- CursorJournal.ParseCursorLine: the digit runs are read as exact integers. The loss of precision in `toDouble` for digit runs longer than a double holds exactly is not modelled.
- src/runtime/plugin/plugin.cpp only registers a QML type and is not part of this model.

## Findings

| source | as written | input that shows it | evidently intended | confidence | as-written member | corrected member |
|---|---|---|---|---|---|---|
| src/editor/AWE.py:203-210 | `data.get` on a manifest that is valid JSON but not an object raises `AttributeError`, and `read_text` on bytes that are not valid text raises `UnicodeDecodeError`; `except (json.JSONDecodeError, OSError)` catches neither, so the whole scan aborts, leaving the grid empty (`RefreshGrid`), the old selection in place after a new project is created (`NewProject`), and, when such a manifest is present at launch, the application crashing before its window opens (`ProjectLibrary.constructor` requires this away) | a projects root with one valid project in `a` and a `b/project.json` holding `[]`, or holding the single byte 0xff (not valid UTF-8) | skip the unusable manifest as the other unreadable cases are skipped, and list `a` | not executed | Library.ProjectLibrary.ScanProjectsAsWritten | Library.ProjectLibrary.ScanProjects |
