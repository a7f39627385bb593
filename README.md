# Curve editor core in Dafny

Curve is an in-browser image editor. This project models the state logic behind its canvas and proves properties of that model.

- **Single-image editor** (`src/App.jsx`). It shows one imported image with a pan, pinch-zoom and rotate transform, rounded corners (one radius, or advanced per-corner radii), and a list of text overlays. Undo and redo cover all of it.
- **Multi-layer editor** (`src/not.jsx`). It keeps a list of image and text layers with unique numeric ids from a counter, and a selection. Layers can be created, updated, deleted, duplicated and reordered, and the selected layer can be dragged. Its undo/redo history stores snapshots without the decoded images.
- **Helpers in `src/api.js`**:
  - the mock-mode test on the Hugging Face key;
  - the mock generator's prompt-to-gradient choice and its greedy caption line breaking;
  - the 3×3 sharpening convolution;
  - the Gaussian smoothing of an alpha mask;
  - the corner sampling, colour test and border flood fill of the fallback background remover.

Modules, one concept each:

| file | module | models |
|---|---|---|
| `wrappers.dfy` | `Wrappers` | `Option` |
| `seqs.dfy` | `Seqs` | `filter` on sequences |
| `history.dfy` | `History` | the bounded linear history both editors use (`saveHistory`, `undo`, `redo`) |
| `geometry.dfy` | `Geometry` | transform, pinch, pan, fit-to-canvas size, corner radii and the `roundRect` clamp |
| `app.dfy` | `App` | the single-image editor, as class `App.Editor` |
| `layers.dfy` | `Layers` | layer records and the list rewrites of the multi-layer editor |
| `layer_editor.dfy` | `LayerEditor` | the multi-layer editor, as class `LayerEditor.Editor` |
| `strings.dfy` | `Strings` | `isMockMode`, `getColorsFromPrompt`, `split`/`join`, `wrapText` |
| `pixels.dfy` | `Pixels` | `applySharpen`, `smoothAlphaEdges`, `sampleCornerPixels`, `isBackgroundColor` |
| `background.dfy` | `Background` | `identifyBackground` |

How the JavaScript is represented:

- **Editors.** Each React component becomes a class. Its `useState` values and the fields of its `gestureRef` become class fields. Each handler becomes a method that changes only the fields it sets.
- **Numbers.** JavaScript numbers are `real` in the geometry and `int` in the pixel code. Byte buffers are sequences of `Byte` (0..255), or an `array` where the source writes in place (`smoothAlphaEdges`).
- **External inputs.** A few things the code gets from the browser are parameters instead:
  - the canvas's text measurement (`measure`);
  - the finger distance and angle of a pinch;
  - the current time used as a text-layer id;
  - the colour palette of the background remover.

## Model

| member | source | states |
|---|---|---|
| `History.Last` | src/App.jsx:72-74 | the last min(n, length) elements, in order |
| `History.History.Save` | src/App.jsx:64-77 | entries become the newest 50 of (the entries up to the index, then the snapshot); the index is the new last entry, which is the snapshot; nothing is left to redo |
| `History.History.Undo` | src/App.jsx:79-89 | at index 0 or in an empty history nothing changes and nothing is restored; otherwise the index drops by one and the previous entry is restored; entries never change |
| `History.History.Redo` | src/App.jsx:91-101 | at the last entry nothing changes; otherwise the index rises by one and the next entry is restored; entries never change |
| `History.Empty` | src/App.jsx:40-41 | the initial history is empty, well formed, and allows neither undo nor redo |
| `History.Initial` | src/App.jsx:123-124 | a history with exactly the one entry, current at index 0, allowing neither undo nor redo |
| `History.SaveAll` | src/not.jsx:170-175 | any run of saves keeps the history well formed: at most 50 entries, index in range |
| `History.SaveAllKeepsNewest` | src/App.jsx:72-76 | after any non-empty run of saves the history is the newest 50 of the kept entries followed by the saved snapshots, with the index on the last one (eviction is first in, first out) |
| `History.HistoryBound` | src/App.jsx:72-76 | more than 50 saves into an empty history leave exactly the newest 50 snapshots |
| `History.UndoThenRedo` | src/App.jsx:79-101 | undo followed by redo gives back the same history and restores the entry that was current |
| `History.RedoThenUndo` | src/App.jsx:79-101 | redo followed by undo gives back the same history and restores the entry that was current |
| `History.SaveSaveUndoRedo` | src/App.jsx:64-101 | after saving s1 then s2, undo restores s1 and a following redo restores s2 |
| `History.LastOfLast` | src/App.jsx:72-75 | trimming to 50, appending and trimming again equals one trim of the whole sequence |
| `Geometry.ClampScale` | src/App.jsx:362 | the result lies in [0.1, 5]; it equals the input inside the range, 0.1 below it and 5 above it |
| `Geometry.PinchRotation` | src/App.jsx:356-358 | the rotation changes by the finger angle's change converted from radians to degrees; an unchanged angle keeps the start rotation |
| `Geometry.PinchScale` | src/App.jsx:352-362 | the pinch scale is in [0.1, 5]; with a non-zero start distance it is the clamped start scale times distance over start distance; where the source's value is NaN it is the clamped start scale |
| `Geometry.PinchScaleMonotone` | src/App.jsx:352-362 | spreading the fingers further never gives a smaller scale |
| `Geometry.PinchScaleAgrees` | src/App.jsx:352-362 | the JavaScript computation is NaN exactly when the start distance is 0 and so is the distance or the start scale; otherwise it is a finite number equal to `PinchScale` (5 or 0.1 for an infinite ratio) |
| `Geometry.PinchScaleAsWrittenNaN` | src/App.jsx:352-362 | with start distance 0 and distance 0 the source's scale is NaN |
| `Geometry.JsDivide` | src/App.jsx:352-354 | JavaScript division: a number exactly for a non-zero divisor (and then multiplying back gives the dividend), NaN exactly for 0 / 0, else a signed infinity |
| `Geometry.JsTimes` | src/App.jsx:352-354 | JavaScript multiplication: a number times k is the product; NaN exactly when NaN is an operand or an infinity meets 0 |
| `Geometry.JsMin` | src/App.jsx:362 | `Math.min(a, n)` is NaN exactly when n is, and a number result is at most a |
| `Geometry.JsMax` | src/App.jsx:362 | `Math.max(a, n)` is NaN exactly when n is, and a number result is at least a |
| `Geometry.PinchScaleAsWritten` | src/App.jsx:352-362 | the pinch scale exactly as written, in JavaScript numbers: whenever it is not NaN it is a number in [0.1, 5] |
| `Geometry.FollowPath` | src/App.jsx:292-303 | a run of pan moves, each adding the pointer delta to the offset; no move leaves the offset where it is |
| `Geometry.FollowPathTotal` | src/App.jsx:285-303 | after any run of pan moves the offset has moved by the last pointer position minus the first (the deltas telescope) |
| `Geometry.DrawSize` | src/App.jsx:153-157 | the drawn size keeps the image's aspect ratio, fits within margin × canvas on both axes, and touches it on one |
| `Geometry.PercentToPixels` | src/App.jsx:166 | a radius percentage in pixels is percent / 100 × half the shorter drawn side |
| `Geometry.PercentRadiusFits` | src/App.jsx:166-177 | slider values in [0, 100] give radii in [0, min/2], so the `roundRect` clamp never changes them |
| `Geometry.ClampCorners` | src/App.jsx:216-224 | every corner is at most half the shorter side and at most its own radius, and is either its radius or that bound |
| `Geometry.ClampCornersIdempotent` | src/App.jsx:216-224 | radii that already fit are left as they are, and clamping twice is clamping once |
| `Geometry.ResolvedRadii` | src/App.jsx:166-190 | the clip radii are bounded by half the shorter side; in simple mode all four are the converted single radius, clamped; in advanced mode each is its converted corner percentage, clamped |
| `Geometry.HalfRadiusScenario` | src/App.jsx:166-190 | 50% on a 400×300 drawing is a 75-pixel radius on every corner |
| `Geometry.LayerClipRadius` | src/not.jsx:324-326 | an image layer is clipped exactly when its radius is positive, with the radius clamped to half the shorter drawn side |
| `App.ApplyPatch` | src/App.jsx:400 | `{ ...layer, ...updates }`: the id is kept; each field the patch sets takes its value, every other field keeps the layer's |
| `App.UpdateTextLayers` | src/App.jsx:397-403 | same length and ids; layers with the id take the patch; all others are unchanged |
| `App.UpdateWithNoChange` | src/App.jsx:397-403 | an update that sets no field changes no layer |
| `App.DeleteTextLayers` | src/App.jsx:409-411 | no remaining layer has the id; every layer with another id remains |
| `App.DeleteTextLayersSplit` | src/App.jsx:409-411 | deleting from a concatenation deletes from each part, and one layer is kept exactly when its id differs, so the survivors keep their order |
| `App.NewTextLayer` | src/App.jsx:381-390 | the new layer is placeholder text at the canvas centre, 32 px, white in dark mode and black otherwise |
| `App.AddThenDelete` | src/App.jsx:381-413 | deleting a layer just added under a new id gives back the previous list |
| `App.FirstHit` | src/App.jsx:254-276 | the layer found is the first in list order whose strict text box contains the point; none found means no box contains it |
| `App.HitTest` | src/App.jsx:254-276 | the loop's hit is `FirstHit` |
| `App.WithCorner` | src/App.jsx:428-430 | the named corner takes the value and the other three are unchanged |
| `App.SaveKeepsScales` | src/App.jsx:64-77 | saving a snapshot whose scale is in [0.1, 5] keeps every stored scale in that range |
| `App.Editor.constructor` | src/App.jsx:10-51 | the initial state: no image, identity transform, zero radii, no text layers, empty history, idle gestures |
| `App.Editor.SaveHistory` | src/App.jsx:64-77 | the history becomes `Save` of the current snapshot; the invariant (scales in range) is kept |
| `App.Editor.Restore` | src/App.jsx:82-86 | the five restored fields become the snapshot's: the editor's current snapshot is exactly the given one |
| `App.Editor.Undo` | src/App.jsx:79-89 | the history index steps back; the previous snapshot's transform, radii, text layers and mode are restored; at the start nothing changes |
| `App.Editor.Redo` | src/App.jsx:91-101 | the history index steps forward and the next snapshot is restored; at the end nothing changes |
| `App.Editor.ImportImage` | src/App.jsx:103-133 | the new image with an identity transform, zero radii, no text layers, and a history of exactly the initial snapshot |
| `App.Editor.PointerDown` | src/App.jsx:239-283 | ignored while a sheet is open or without an image; otherwise, when `FirstHit` finds a layer with a truthy id, that layer is edited and the pan state is kept; in every other case editing stops and a pan starts at the pointer |
| `App.Editor.PointerMove` | src/App.jsx:285-303 | while panning, the pointer delta is added to the offset, scale and rotation stay, and the last pointer advances; otherwise nothing changes |
| `App.Editor.PointerUp` | src/App.jsx:305-310 | a release ends the pan and records history only if a pan was active |
| `App.Editor.TouchStart` | src/App.jsx:312-336 | two fingers record distance, angle, scale and rotation and cancel a pan, keeping the editing layer and last pointer; one finger is a pointer press with `PointerDown`'s outcome; otherwise nothing changes |
| `App.Editor.TouchMove` | src/App.jsx:338-368 | with two fingers the scale becomes `PinchScale` (within [0.1, 5]) and the rotation `PinchRotation`, with the offset and last pointer kept; one finger while panning adds the delta and advances the last pointer; otherwise nothing changes |
| `App.Editor.TouchEnd` | src/App.jsx:370-374 | fewer than two remaining fingers act as a pointer release |
| `App.Editor.DoubleTap` | src/App.jsx:376-379 | the transform becomes the identity and the reset is recorded |
| `App.Editor.AddTextLayer` | src/App.jsx:381-395 | appends `NewTextLayer` under the given id, edits it, and records history |
| `App.Editor.UpdateTextLayer` | src/App.jsx:397-403 | the text layers become `UpdateTextLayers`, with no history entry |
| `App.Editor.DeleteTextLayer` | src/App.jsx:409-413 | removes the id, clears editing, and records history |
| `App.Editor.TextSheetClose` | src/App.jsx:415-419 | closes the sheet, clears editing, and records history |
| `App.Editor.BorderRadiusChange` | src/App.jsx:421-426 | sets the radius; in simple mode all four corners follow it, in advanced mode they are untouched |
| `App.Editor.CornerChange` | src/App.jsx:428-430 | only the named corner changes |
| `App.Editor.BorderSheetClose` | src/App.jsx:432-435 | closes the sheet and records history |
| `App.Editor.ToggleAdvancedMode` | src/App.jsx:690-695 | flips the mode and records history |
| `App.Editor.ClipRadii` | src/App.jsx:153-177 | the base image's clip radii never exceed half the shorter side of its drawn size |
| `Layers.Merge` | src/not.jsx:118 | merging updates never changes a layer's id or type, and an empty update changes nothing |
| `Layers.NatToString` | src/not.jsx:69 | the counter's decimal form: at least one digit, digits only, no leading zero for a positive counter |
| `Layers.NatToStringValue` | src/not.jsx:69 | the decimal form reads back as the counter itself |
| `Layers.DefaultName` | src/not.jsx:69 | `Image n` for an image layer and `Text n` for a text layer, n being the counter in decimal (`NatToString`) |
| `Layers.NewLayer` | src/not.jsx:65-74 | the new layer's id is the counter; defaults are visible, opacity 100, unlocked and `Image n`/`Text n`, each overridable by `data` |
| `Layers.FindIndex` | src/not.jsx:146-147 | the first position holding the id, or none when no layer has it |
| `Layers.FindIndexUnique` | src/not.jsx:146 | with unique ids a layer is found exactly at its own position |
| `Layers.UpdateLayers` | src/not.jsx:116-120 | same length, order, ids and types; the layers with the id take the merge; all others are unchanged |
| `Layers.DeleteLayers` | src/not.jsx:122-123 | no remaining layer has the id; every layer with another id remains |
| `Layers.DeleteLayersSplit` | src/not.jsx:122-123 | deleting from a concatenation deletes from each part, and one layer is kept exactly when its id differs, so the survivors keep their order |
| `Layers.SelectionAfterDeleteAsWritten` | src/not.jsx:124-126 | as written: a selection of another id is kept; a deleted selection moves to the first layer of the list before the deletion if it had more than one layer, else to none |
| `Layers.DeleteSelectionDangles` | src/not.jsx:124-126 | as written, deleting the selected first layer of two keeps the deleted id selected |
| `Layers.SelectionAfterDelete` | src/not.jsx:124-126 | a selection of another id is kept; a deleted selection moves to the first remaining layer, or none |
| `Layers.SelectionAfterDeleteValid` | src/not.jsx:122-128 | after a deletion the corrected selection names a remaining layer or nothing |
| `Layers.UpdateKeepsIds` | src/not.jsx:116-120 | updating keeps ids unique and below the counter, and keeps the selection valid |
| `Layers.AppendKeepsIds` | src/not.jsx:65-82 | appending a layer with the counter's id keeps ids unique and below the raised counter, and the new id is a valid selection |
| `Layers.DeleteKeepsIds` | src/not.jsx:122-123 | the remaining layers still have unique ids below the counter |
| `Layers.MoveKeepsIds` | src/not.jsx:145-156 | swapping two layers keeps ids unique, below the counter, and the selection valid |
| `Layers.Duplicate` | src/not.jsx:130-138 | no copy for an unknown id; otherwise a copy of the first layer with the id, under the counter's id, named with " copy" appended |
| `Layers.MoveLayers` | src/not.jsx:145-156 | none for an unknown id or a move past either end; otherwise the layer and its neighbour (`up` = next position) swap, all else stays, and the multiset of layers is kept |
| `Layers.SwapPermutes` | src/not.jsx:152-153 | swapping two positions keeps the multiset of elements |
| `Layers.MoveUpThenDown` | src/not.jsx:145-156 | with unique ids, moving a layer up then down gives back the original list |
| `Layers.Strip` | src/not.jsx:161-166 | an image layer loses its decoded image and keeps everything else, including `imageData`; a text layer is unchanged |
| `Layers.StripAll` | src/not.jsx:161-166 | every layer of the snapshot is the stripped layer at the same position |
| `Layers.StripKeepsIds` | src/not.jsx:159-168 | a snapshot keeps unique ids, the counter bound and a valid selection, and holds no decoded image |
| `Layers.Rebuild` | src/not.jsx:179-190 | an image layer with non-empty data gets a freshly decoded image; every other layer comes back unchanged |
| `Layers.RebuildAll` | src/not.jsx:179-190 | every restored layer is the rebuilt layer at the same position |
| `Layers.RestoreOfSnapshot` | src/not.jsx:159-194 | a snapshot restored gives back every layer whose decoded image matches its data |
| `LayerEditor.UpdateKeepsStateOk` | src/not.jsx:116-120 | updating a layer keeps the editor invariant |
| `LayerEditor.SaveKeepsSnapshotsOk` | src/not.jsx:170-175 | saving a well-formed snapshot keeps every stored snapshot well formed |
| `LayerEditor.DragRefusedAsWritten` | src/not.jsx:397 | as written: a drag is refused without a selection, with the falsy selected id 0, or while cropping |
| `LayerEditor.DragRefused` | src/not.jsx:397 | as intended: a drag is refused only without a selection or while cropping |
| `LayerEditor.FirstLayerCannotBeDragged` | src/not.jsx:397 | the first layer ever created has id 0, and the guard as written refuses to drag it though the intended guard allows it |
| `LayerEditor.DragGuardsAgreeOffZero` | src/not.jsx:397 | for every selection other than id 0, the written and the intended guard agree |
| `LayerEditor.Grabbable` | src/not.jsx:399-400 | the layer a drag acts on exists exactly when the selection is found and unlocked, and is that layer |
| `LayerEditor.DragPatch` | src/not.jsx:421-436 | a drag sets only x and y: an image layer moves to its start position plus the pointer's offset from the start, a text layer moves from its current position by the offset since the last event |
| `LayerEditor.Editor.Current` | src/not.jsx:160-168 | the snapshot holds the stripped layers and the selection |
| `LayerEditor.Editor.constructor` | src/not.jsx:31-49 | no layers, no selection, counter 0, empty history, no drag |
| `LayerEditor.Editor.SaveHistory` | src/not.jsx:159-176 | the history becomes `Save` of the stripped snapshot; the invariant is kept |
| `LayerEditor.Editor.CreateLayer` | src/not.jsx:65-82 | appends `NewLayer` under the counter's id, returns it, selects it, raises the counter by one, and records history |
| `LayerEditor.Editor.AddImageLayer` | src/not.jsx:84-98 | creates an image layer with its data and decoded image, at the origin, scale 1, no rotation, no radius |
| `LayerEditor.Editor.AddTextLayer` | src/not.jsx:100-114 | creates a 48 px Arial text layer at the canvas centre in the theme colour and opens the text sheet |
| `LayerEditor.Editor.UpdateLayer` | src/not.jsx:116-120 | the layers become `UpdateLayers`; no history entry |
| `LayerEditor.Editor.DeleteLayer` | src/not.jsx:122-128 | the layers become `DeleteLayers`, the selection becomes the corrected `SelectionAfterDelete`, and history is recorded |
| `LayerEditor.Editor.DuplicateLayer` | src/not.jsx:130-143 | an unknown id changes nothing; otherwise the copy is appended, the counter is raised, history is recorded, and the selection is untouched |
| `LayerEditor.Editor.MoveLayer` | src/not.jsx:145-156 | no change and no history at an end or for an unknown id; otherwise the layers become the swapped list and history is recorded |
| `LayerEditor.Editor.RestoreState` | src/not.jsx:178-194 | the layers become the rebuilt snapshot layers and the selection comes back; ids stay unique and the selection valid |
| `LayerEditor.Editor.Undo` | src/not.jsx:196-202 | at the first entry nothing changes; otherwise the previous snapshot is restored and the index steps back |
| `LayerEditor.Editor.Redo` | src/not.jsx:204-210 | at the last entry nothing changes; otherwise the next snapshot is restored and the index steps forward |
| `LayerEditor.Editor.PointerDown` | src/not.jsx:396-410 | with no selection, while cropping, or on a missing or locked layer nothing changes; otherwise a drag starts at the pointer, remembering an image layer's position |
| `LayerEditor.Editor.PointerMove` | src/not.jsx:412-437 | with the intended guard: while dragging a grabbable selected layer its position becomes `DragPatch`, and a text layer's start point moves to the pointer; otherwise nothing changes |
| `LayerEditor.Editor.PointerUp` | src/not.jsx:439-444 | a release ends the drag and records history only if a drag was active |
| `Strings.TrimStart` | src/api.js:32 | drops exactly the leading white space |
| `Strings.TrimEnd` | src/api.js:32 | drops exactly the trailing white space |
| `Strings.Trim` | src/api.js:32 | the result neither starts nor ends with white space |
| `Strings.TrimEmpty` | src/api.js:32 | a string trims to "" exactly when all its characters are white space |
| `Strings.IsMockMode` | src/api.js:31-33 | mock mode exactly when the key is missing or all white space |
| `Strings.ToLower` | src/api.js:57 | same length, with each character lowered |
| `Strings.ToLowerIdempotent` | src/api.js:57 | lowering twice is lowering once |
| `Strings.Contains` | src/api.js:59-91 | `includes`: the keyword is a prefix of the text or of one of its suffixes (characterised by `ContainsAt`) |
| `Strings.ContainsAt` | src/api.js:59-91 | `includes` holds exactly when the keyword starts at some position of the text |
| `Strings.GetColorsFromPrompt` | src/api.js:56-95 | the result is always a two-colour gradient |
| `Strings.FirstThemeIsFirstMatch` | src/api.js:56-95 | the colours are those of the earliest keyword group the text mentions, and the default when it mentions none |
| `Strings.ColoursAreFirstTheme` | src/api.js:56-95 | the if-chain equals the first match over the groups ocean, sunset, forest, space, night, on the lower-cased prompt |
| `Strings.ColoursIgnoreCase` | src/api.js:56-57 | the choice of gradient does not depend on letter case |
| `Strings.Split` | src/api.js:98 | at least one piece, and no piece contains a space |
| `Strings.Join` | src/api.js:343 | `join(" ")`: the words with one space between neighbours (inverse of `Split` by `JoinSplit`) |
| `Strings.JoinSplit` | src/api.js:343 | splitting on spaces then joining with spaces gives the text back |
| `Strings.LayoutFirstWord` | src/api.js:101-111 | the first word always goes on the first line, whatever its width |
| `Strings.LayoutExtend` | src/api.js:101-111 | a word that fits joins the current line and the layout stays greedy |
| `Strings.LayoutBreak` | src/api.js:101-111 | a word that does not fit starts a new line and the layout stays greedy |
| `Strings.PlaceWord` | src/api.js:101-111 | one turn of the loop extends the greedy layout by one word and the lines still spell the words so far, each followed by a space |
| `Strings.WrapText` | src/api.js:97-119 | the lines are the greedy layout of the words against `measure`: a line breaks only before a word that would overflow, and never before the first; together the lines spell every word followed by a space; the baselines are `lineHeight` apart, centred on `y` |
| `Strings.Baselines` | src/api.js:115-118 | line i is drawn at y − (n − 1)·lineHeight/2 + i·lineHeight |
| `Pixels.ClampByte` | src/api.js:153-155 | values in range are kept, negatives become 0, values above 255 become 255 |
| `Pixels.PixelOrder` | src/api.js:152 | pixel indices follow row-major order, so distinct pixels have distinct offsets |
| `Pixels.Convolve` | src/api.js:136-150 | the kernel loops compute the full kernel sum over the in-image neighbours for each colour channel |
| `Pixels.ConvolveRow` | src/api.js:137-149 | one kernel row adds exactly that row's in-image taps to each running sum |
| `Pixels.Sharpened` | src/api.js:153-157 | an interior output byte: red, green and blue are the kernel sum clamped to [0, 255], alpha is the input's alpha |
| `Pixels.ApplySharpen` | src/api.js:121-161 | the output has the input's size; each pixel's colour bytes are the clamped kernel sums over in-image neighbours of the source, and its alpha is copied |
| `Pixels.SharpenKeepsFlat` | src/api.js:124 | a pixel whose four direct neighbours share its channel value keeps it |
| `Pixels.GaussSum` | src/api.js:1010-1019 | the weighted 3×3 sum of an interior pixel lies in [0, 16·255] |
| `Pixels.RoundDiv16` | src/api.js:1021 | the rounded quotient is within 1/2 of sum/16, with halves rounded up |
| `Pixels.SmoothedAt` | src/api.js:1005-1021 | an interior pixel's alpha is the rounded 1-2-1 Gaussian average (`RoundDiv16(GaussSum)`); a border pixel keeps its mask value |
| `Pixels.SmoothUniform` | src/api.js:1003-1023 | a uniform mask is left unchanged |
| `Pixels.SmoothMask` | src/api.js:1003-1023 | same size as the mask; interior pixels become the rounded Gaussian average of the original mask; border pixels keep their value |
| `Pixels.SmoothAlphaEdges` | src/api.js:1001-1030 | every pixel's alpha byte becomes its smoothed mask value, and no other byte changes |
| `Pixels.SampleSize` | src/api.js:883-887 | s = min(50, ⌊w/10⌋, ⌊h/10⌋) |
| `Pixels.CornerSamplesSize` | src/api.js:881-922 | there are exactly 4·s² corner samples |
| `Pixels.SampleRow` | src/api.js:891-894 | the inner loop appends exactly the colours of one row of a corner block |
| `Pixels.SampleBlock` | src/api.js:890-895 | one double loop appends exactly the s×s block, row by row |
| `Pixels.SampleCornerPixels` | src/api.js:881-922 | the samples are the four corner blocks in the order top-left, top-right, bottom-left, bottom-right; every read lies inside the buffer; 4·s² samples |
| `Pixels.SquaredDistance` | src/api.js:992 | the squared colour distance is never negative |
| `Pixels.RootBelowThreshold` | src/api.js:990-993 | a distance below 40 is exactly a squared distance below 1600 |
| `Pixels.IsBackgroundColor` | src/api.js:989-996 | true exactly when some palette colour is within distance 40 |
| `Background.EdgeLevel` | src/api.js:866-871 | a pixel that stops the flood is 128 exactly on an edge weaker than 50, and 255 exactly otherwise |
| `Background.Classify` | src/api.js:857-871 | a visited pixel is 0 when its colour is near the palette, otherwise `EdgeLevel` of its edge strength |
| `Background.IdentifyBackgroundAsWritten` | src/api.js:818-876 | as written, the returned mask is all zeros for every image |
| `Background.FloodAsWritten` | src/api.js:844-873 | a flood whose queue holds only visited or out-of-image entries writes nothing into the mask |
| `Background.BorderPixelLost` | src/api.js:857-887 | any 1×1 image has sample size 0 and so no corner samples, which makes the palette empty; its only pixel is on the border, where the edge strength stays 0; that pixel classifies as 128, yet the source's mask gives 0 |
| `Background.SeedBorder` | src/api.js:830-841 | every border pixel is queued, and every queued entry lies in the image |
| `Background.QueueNeighbours` | src/api.js:860-863 | a background pixel queues its in-image 4-neighbours in the order left, right, up, down |
| `Background.FloodStep` | src/api.js:845-872 | one turn of the loop keeps the flood invariant and makes progress (one fewer unvisited pixel, or a shorter queue) |
| `Background.IdentifyBackground` | src/api.js:818-876 | (corrected) every border pixel is reached; a reached pixel has its classification in the mask and an unreached one is 0; a reached background pixel has all its in-image neighbours reached |

## Left out

- Network and AI calls are not modelled. This covers every `fetch`: image generation, enhancement, upscaling, generative fill, Hugging Face and Space background removal, and AI expand. The fallback chain of `removeBackground` and the mock generators' drawing go with it. All of it is I/O.
- `Strings.JoinSplit`: the mock caption's cut to its first five words (`.slice(0, 5)` at src/api.js:343) is not modelled. Only the split and join around it are, and `JoinSplit` states that they give the text back.
- Foreign libraries are not modelled: TensorFlow/BodyPix, `Image`/`FileReader` decoding, `atob`/`Blob` in `dataURLtoBlob`, and `toDataURL` export.
- A decoded image is a value: `Decoded(data)` in the layers, `Image(width, height)` in the single-image editor.
- Canvas drawing is not modelled: `quadraticCurveTo` paths, `fillText`, the checkerboard, the crop overlay and the outlines. Only the numbers fed to them are: the transform, the draw size, the radii and the baselines.
- The native `ctx.roundRect` path of simple mode is modelled through the same clamp as the fallback.
- `detectEdges` and `clusterColors` are not modelled. They depend on floating-point `sqrt`, luma weights and `Math.random`.
- `Background.IdentifyBackground` and `Background.IdentifyBackgroundAsWritten` take the edge strengths and the palette as parameters.
- `Math.hypot` and `Math.atan2` in the pinch handlers are not modelled: distance and angle are inputs.
- React scheduling is not modelled. Each handler records the state after its own updates. The source snapshots the values of the render it runs in, so `addTextLayer` (src/App.jsx:391-393) stores the list before the new layer. Setter batching and `Promise.all` in `restoreState` are left out too.
- The delayed initial-history write of the multi-layer `handleFileSelect` (src/not.jsx:213-234) is not modelled. It is a `setTimeout` reading stale state.
- Document, browser and UI state is left out: the event objects, `preventDefault`, a missing canvas (`if (!canvas) return`), toasts and processing flags, the JSX, CSS and `src/components/BottomToolbar.jsx`.
- `App.Editor.PointerDown`, `App.Editor.PointerMove` and `LayerEditor.Editor.PointerDown` take plain coordinates. They do not model the `e.clientX || e.touches?.[0]?.clientX` fallback, which discards a client coordinate of 0.
- `LayerEditor.Editor.PointerDown` and `LayerEditor.Editor.PointerMove` use the intended selection guard of src/not.jsx:397 and src/not.jsx:413 (see Findings). `isCropping` is a field that nothing sets, as in the source.
- `LayerEditor.Editor.DeleteLayer` uses the corrected selection of src/not.jsx:124-126 (see Findings).
- Crop, magnetic snap and mask painting do not exist in this code and are not invented.
- `Strings.ToLower` lowers ASCII letters only. The source's `toLowerCase` is full Unicode case mapping.
- `Strings.IsJsWhitespace` covers the ECMAScript white space and line terminator code points. It has no Unicode category table.
- `Pixels.ApplySharpen`, `Pixels.SmoothAlphaEdges`, `Pixels.SampleCornerPixels`, `Background.IdentifyBackground` and `Background.IdentifyBackgroundAsWritten` require a buffer of exactly 4·w·h bytes, and a mask and edge array of w·h entries. The canvas always supplies those sizes. A mis-sized buffer is outside the model.
- `Background.IdentifyBackground` does not state that the flood reaches no more pixels than needed. It states that every border pixel is reached, that the mask matches the classification of the reached pixels, and that the reached set is closed under background neighbours.
- `Geometry.DrawSize` and `App.Editor.ClipRadii` require a positive image width and height. A zero-sized image would make the fit divide by zero in the source.
- `App.Editor.AddTextLayer` takes `Date.now()` as a parameter `now`.
- `App.Editor.PointerDown`, `App.FirstHit` and `App.HitTest` take the canvas's text measurement as the parameter `measure`.
- `Strings.WrapText` takes `measureText` as the parameter `measure`. It returns the lines and their baselines instead of drawing them.
- `Strings.GetColorsFromPrompt` returns colour strings. The gradient they feed is drawing.
- JavaScript numbers are modelled as exact reals in the geometry. Rounding of doubles is not modelled. `Math.PI` is its double value as a decimal.

## Findings

| source | as written | input that shows it | evidently intended | confidence | as-written member | corrected member |
|---|---|---|---|---|---|---|
| src/not.jsx:397-413 | `!selectedLayerId` in `handlePointerDown` (line 397) and again in `handlePointerMove` (line 413) also refuses a drag when the selected id is 0 | the counter starts at 0, so the first layer created gets id 0 and is selected; pressing on it never starts a drag | refuse only when nothing is selected (or, on a press, while cropping) | not executed; high | `LayerEditor.FirstLayerCannotBeDragged` | `LayerEditor.Editor.PointerDown` |
| src/not.jsx:124-126 | the new selection is `layers[0].id` of the list before the deletion | layers `[a, b]` with `a` selected, delete `a`: the selection stays on `a`, which is gone | the first remaining layer, or nothing | not executed; high | `Layers.DeleteSelectionDangles` | `Layers.SelectionAfterDelete` |
| src/App.jsx:352-362 | the scale is `distance / startDistance * startScale`, then clamped | two fingers that start and stay on the same point: 0 / 0 is NaN, and `Math.min`/`Math.max` pass NaN through | a scale inside [0.1, 5]: the source's number wherever it is one, and the start scale (clamped) where it is NaN | not executed; medium | `Geometry.PinchScaleAsWrittenNaN` | `Geometry.PinchScale` |
| src/api.js:830-848 | the seeding loops mark every border pixel visited, and the flood skips visited pixels, so no pixel is ever classified and the mask is all 0 | any 1×1 image: its corner blocks have size 0, so the palette is empty, and its only pixel is on the border, so its edge strength is 0; the mask is `[0]`, but the pixel should be 128 (`Background.BorderPixelLost`) | queue the border pixels without marking them, so that each is classified and the flood spreads from the background ones; the mask then marks reached pixels by their class and leaves unreached ones at 0 | not executed; high | `Background.IdentifyBackgroundAsWritten` | `Background.IdentifyBackground` |
