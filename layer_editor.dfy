/**
 * The multi-layer editor of src/not.jsx: a list of image and text layers, a
 * selection, an id counter, the bounded history of stripped snapshots, and
 * the drag gesture that moves the selected layer.
 */
module LayerEditor {
  import opened Wrappers
  import opened Layers
  import H = History

  /** What `saveHistory` records: the layers without decoded images, and the selection. */
  datatype Snapshot = Snapshot(layers: seq<Layer>, selectedLayerId: Option<int>)

  /** A snapshot whose ids are unique and handed out, that holds no decoded image, and whose selection is valid. */
  predicate SnapshotOk(s: Snapshot, counter: int) {
    UniqueIds(s.layers) && IdsBelow(s.layers, counter) && NoDecoded(s.layers) && Names(s.layers, s.selectedLayerId)
  }

  /**
   * The editor's invariant on its parts: a well-formed history; layer ids
   * unique and below the counter now and in every snapshot; snapshots free of
   * decoded images; every selection names a layer of its list.
   */
  predicate StateOk(layers: seq<Layer>, selected: Option<int>, counter: int, history: H.History<Snapshot>) {
    && history.Valid()
    && UniqueIds(layers) && IdsBelow(layers, counter) && Names(layers, selected)
    && SnapshotsOk(history.entries, counter)
  }

  /** `updateLayer` keeps the invariant. */
  lemma UpdateKeepsStateOk(layers: seq<Layer>, selected: Option<int>, counter: int, history: H.History<Snapshot>,
                           id: int, p: Patch)
    requires StateOk(layers, selected, counter, history)
    ensures StateOk(UpdateLayers(layers, id, p), selected, counter, history)
  {
    UpdateKeepsIds(layers, id, p, counter, selected);
  }

  /** Every snapshot of a history is well-formed for the counter. */
  predicate SnapshotsOk(entries: seq<Snapshot>, counter: int) {
    forall k :: 0 <= k < |entries| ==> SnapshotOk(entries[k], counter)
  }

  /** Raising the counter keeps every snapshot well-formed. */
  lemma SnapshotsOkRaise(entries: seq<Snapshot>, counter: int, counter': int)
    requires SnapshotsOk(entries, counter) && counter <= counter'
    ensures SnapshotsOk(entries, counter')
  {
    forall k | 0 <= k < |entries|
      ensures SnapshotOk(entries[k], counter')
    {
      assert SnapshotOk(entries[k], counter);
    }
  }

  lemma SnapshotsOkSuffix(entries: seq<Snapshot>, i: nat, counter: int)
    requires SnapshotsOk(entries, counter) && i <= |entries|
    ensures SnapshotsOk(entries[i..], counter)
  {
    forall k | 0 <= k < |entries| - i
      ensures SnapshotOk(entries[i..][k], counter)
    {
      assert entries[i..][k] == entries[i + k];
    }
  }

  /** Saving a well-formed snapshot keeps every snapshot of the history well-formed. */
  lemma SaveKeepsSnapshotsOk(h: H.History<Snapshot>, s: Snapshot, counter: int)
    requires h.Valid() && SnapshotsOk(h.entries, counter) && SnapshotOk(s, counter)
    ensures SnapshotsOk(h.Save(s).entries, counter)
  {
    var kept := h.entries[..h.index + 1] + [s];
    assert SnapshotsOk(kept, counter) by {
      forall k | 0 <= k < |kept|
        ensures SnapshotOk(kept[k], counter)
      {
        if k <= h.index {
          assert kept[k] == h.entries[k];
        } else {
          assert kept[k] == s;
        }
      }
    }
    var e := h.Save(s).entries;
    SnapshotsOkSuffix(kept, |kept| - |e|, counter);
  }

  /**
   * The guard of `handlePointerDown` as src/not.jsx:397 writes it (line 413 of
   * `handlePointerMove` is the same test without cropping): `!selectedLayerId`
   * is also true for the selected id 0.
   */
  predicate DragRefusedAsWritten(selected: Option<int>, isCropping: bool) {
    selected.None? || selected.value == 0 || isCropping
  }

  /** The guard as intended: no drag without a selection or while cropping. */
  predicate DragRefused(selected: Option<int>, isCropping: bool) {
    selected.None? || isCropping
  }

  /** The first layer ever created gets id 0, and the guard as written refuses to drag it. */
  lemma FirstLayerCannotBeDragged(kind: LayerKind, data: Patch)
    ensures NewLayer(0, kind, data).id == 0
    ensures DragRefusedAsWritten(Some(NewLayer(0, kind, data).id), false)
    ensures !DragRefused(Some(NewLayer(0, kind, data).id), false)
  {
  }

  /** The guards differ only on id 0. */
  lemma DragGuardsAgreeOffZero(selected: Option<int>, isCropping: bool)
    requires selected != Some(0)
    ensures DragRefusedAsWritten(selected, isCropping) <==> DragRefused(selected, isCropping)
  {
  }

  /** The layer a drag acts on: the selected layer when it exists and is not locked. */
  function Grabbable(layers: seq<Layer>, selected: Option<int>): (r: Option<Layer>)
    ensures r.Some? <==> selected.Some? && FindIndex(layers, selected.value).Some?
                         && !layers[FindIndex(layers, selected.value).value].locked
    ensures r.Some? ==> r.value == layers[FindIndex(layers, selected.value).value] && r.value.id == selected.value
  {
    if selected.None? then None
    else match FindIndex(layers, selected.value)
      case None => None
      case Some(k) => if layers[k].locked then None else Some(layers[k])
  }

  /**
   * Where `handlePointerMove` puts the grabbed layer: an image layer at its
   * position when the drag started plus the pointer's offset from the start;
   * a text layer at its current position plus the offset since the last event.
   */
  function DragPatch(l: Layer, startX: real, startY: real, startLayerX: real, startLayerY: real,
                     px: real, py: real): (p: Patch)
    ensures p.x.Some? && p.y.Some? && p == NoChange.(x := p.x, y := p.y)
    ensures l.kind == ImageKind ==> p.x.value - startLayerX == px - startX && p.y.value - startLayerY == py - startY
    ensures l.kind == TextKind ==> p.x.value - l.x == px - startX && p.y.value - l.y == py - startY
  {
    if l.kind == ImageKind then MoveTo(startLayerX + (px - startX), startLayerY + (py - startY))
    else MoveTo(l.x + (px - startX), l.y + (py - startY))
  }

  class Editor {
    var layers: seq<Layer>
    var selectedLayerId: Option<int>
    var layerIdCounter: nat
    var activeSheet: Option<string>
    var isDarkMode: bool
    var isCropping: bool
    var history: H.History<Snapshot>
    // gestureRef
    var isDragging: bool
    var startX: real
    var startY: real
    var startLayerX: real
    var startLayerY: real

    /** The editor's invariant, `StateOk`, on its fields. */
    predicate Valid()
      reads this
    {
      StateOk(layers, selectedLayerId, layerIdCounter, history)
    }

    /** The snapshot `saveHistory` takes of the current state. */
    function Current(): (s: Snapshot)
      reads this
      ensures s.layers == StripAll(layers) && s.selectedLayerId == selectedLayerId
    {
      Snapshot(StripAll(layers), selectedLayerId)
    }

    constructor ()
      ensures Valid()
      ensures layers == [] && selectedLayerId == None && layerIdCounter == 0
      ensures activeSheet == None && !isDarkMode && !isCropping && history == H.Empty()
      ensures !isDragging && startX == 0.0 && startY == 0.0
    {
      layers, selectedLayerId, layerIdCounter := [], None, 0;
      activeSheet, isDarkMode, isCropping := None, false, false;
      history := H.Empty();
      isDragging, startX, startY, startLayerX, startLayerY := false, 0.0, 0.0, 0.0, 0.0;
    }

    /** `saveHistory`: records the stripped current state. */
    method SaveHistory()
      requires Valid()
      modifies this`history
      ensures Valid()
      ensures history == old(history).Save(old(Current()))
    {
      var s := Current();
      StripKeepsIds(layers, selectedLayerId, layerIdCounter);
      SaveKeepsSnapshotsOk(history, s, layerIdCounter);
      history := history.Save(s);
    }

    /** `createLayer`: appends a layer under the counter's id, selects it, bumps the counter, records history. */
    method CreateLayer(kind: LayerKind, data: Patch) returns (id: int)
      requires Valid()
      modifies this`layers, this`layerIdCounter, this`selectedLayerId, this`history
      ensures Valid()
      ensures id == old(layerIdCounter) && layerIdCounter == old(layerIdCounter) + 1
      ensures layers == old(layers) + [NewLayer(old(layerIdCounter), kind, data)]
      ensures selectedLayerId == Some(id)
      ensures history == old(history).Save(Current())
    {
      var l := NewLayer(layerIdCounter, kind, data);
      AppendKeepsIds(layers, l, layerIdCounter, selectedLayerId);
      SnapshotsOkRaise(history.entries, layerIdCounter, layerIdCounter + 1);
      id := l.id;
      layerIdCounter := layerIdCounter + 1;
      layers := layers + [l];
      selectedLayerId := Some(id);
      SaveHistory();
    }

    /** The `img.onload` of `addImageLayer`: an image layer at the origin, unscaled, unrotated, square-cornered. */
    method AddImageLayer(imageData: string) returns (id: int)
      requires Valid()
      modifies this`layers, this`layerIdCounter, this`selectedLayerId, this`history
      ensures Valid()
      ensures id == old(layerIdCounter) && layerIdCounter == old(layerIdCounter) + 1
      ensures layers == old(layers) + [NewLayer(old(layerIdCounter), ImageKind, NoChange.(
        imageData := Some(imageData), image := Some(Decoded(imageData)), x := Some(0.0), y := Some(0.0),
        scale := Some(1.0), rotation := Some(0.0), borderRadius := Some(0.0)))]
      ensures selectedLayerId == Some(id)
      ensures history == old(history).Save(Current())
    {
      id := CreateLayer(ImageKind, NoChange.(
        imageData := Some(imageData), image := Some(Decoded(imageData)), x := Some(0.0), y := Some(0.0),
        scale := Some(1.0), rotation := Some(0.0), borderRadius := Some(0.0)));
    }

    /** `addTextLayer`: a 48px Arial text layer at the canvas centre in the theme's colour; opens the text sheet. */
    method AddTextLayer(canvasW: real, canvasH: real) returns (id: int)
      requires Valid()
      modifies this`layers, this`layerIdCounter, this`selectedLayerId, this`history, this`activeSheet
      ensures Valid()
      ensures id == old(layerIdCounter) && layerIdCounter == old(layerIdCounter) + 1
      ensures layers == old(layers) + [NewLayer(old(layerIdCounter), TextKind, NoChange.(
        text := Some("Double click to edit"), x := Some(canvasW / 2.0), y := Some(canvasH / 2.0),
        size := Some(48.0), color := Some(if isDarkMode then "#ffffff" else "#000000"),
        fontFamily := Some("Arial")))]
      ensures selectedLayerId == Some(id) && activeSheet == Some("textEdit")
      ensures history == old(history).Save(Current())
    {
      id := CreateLayer(TextKind, NoChange.(
        text := Some("Double click to edit"), x := Some(canvasW / 2.0), y := Some(canvasH / 2.0),
        size := Some(48.0), color := Some(if isDarkMode then "#ffffff" else "#000000"),
        fontFamily := Some("Arial")));
      activeSheet := Some("textEdit");
    }

    /** `updateLayer`: merges the patch into the layer with the id; no history entry. */
    method UpdateLayer(id: int, p: Patch)
      requires Valid()
      modifies this`layers
      ensures Valid()
      ensures layers == UpdateLayers(old(layers), id, p)
    {
      UpdateKeepsIds(layers, id, p, layerIdCounter, selectedLayerId);
      layers := UpdateLayers(layers, id, p);
    }

    /** `deleteLayer` with the selection moved to the first remaining layer; records history. */
    method DeleteLayer(id: int)
      requires Valid()
      modifies this`layers, this`selectedLayerId, this`history
      ensures Valid()
      ensures layers == DeleteLayers(old(layers), id)
      ensures selectedLayerId == SelectionAfterDelete(old(layers), old(selectedLayerId), id)
      ensures history == old(history).Save(Current())
    {
      DeleteKeepsIds(layers, id, layerIdCounter);
      SelectionAfterDeleteValid(layers, selectedLayerId, id);
      selectedLayerId := SelectionAfterDelete(layers, selectedLayerId, id);
      layers := DeleteLayers(layers, id);
      SaveHistory();
    }

    /** `duplicateLayer`: an unknown id changes nothing; otherwise the copy is appended and history recorded. */
    method DuplicateLayer(id: int)
      requires Valid()
      modifies this`layers, this`layerIdCounter, this`history
      ensures Valid()
      ensures Duplicate(old(layers), id, old(layerIdCounter)).None? ==>
        layers == old(layers) && layerIdCounter == old(layerIdCounter) && history == old(history)
      ensures Duplicate(old(layers), id, old(layerIdCounter)).Some? ==>
        && layers == old(layers) + [Duplicate(old(layers), id, old(layerIdCounter)).value]
        && layerIdCounter == old(layerIdCounter) + 1
        && history == old(history).Save(Current())
    {
      var copy := Duplicate(layers, id, layerIdCounter);
      if copy.Some? {
        AppendKeepsIds(layers, copy.value, layerIdCounter, selectedLayerId);
        SnapshotsOkRaise(history.entries, layerIdCounter, layerIdCounter + 1);
        layerIdCounter := layerIdCounter + 1;
        layers := layers + [copy.value];
        SaveHistory();
      }
    }

    /** `moveLayer`: swaps with the neighbour and records history, or changes nothing at an end or for an unknown id. */
    method MoveLayer(id: int, dir: Direction)
      requires Valid()
      modifies this`layers, this`history
      ensures Valid()
      ensures MoveLayers(old(layers), id, dir).None? ==> layers == old(layers) && history == old(history)
      ensures MoveLayers(old(layers), id, dir).Some? ==>
        layers == MoveLayers(old(layers), id, dir).value && history == old(history).Save(Current())
    {
      var moved := MoveLayers(layers, id, dir);
      if moved.Some? {
        MoveKeepsIds(layers, id, dir, layerIdCounter, selectedLayerId);
        layers := moved.value;
        SaveHistory();
      }
    }

    /** `restoreState`: every image layer with data gets its image decoded again; the selection comes back. */
    method RestoreState(s: Snapshot)
      requires SnapshotOk(s, layerIdCounter)
      modifies this`layers, this`selectedLayerId
      ensures layers == RebuildAll(s.layers) && selectedLayerId == s.selectedLayerId
      ensures UniqueIds(layers) && IdsBelow(layers, layerIdCounter) && Names(layers, selectedLayerId)
    {
      if s.selectedLayerId.Some? {
        FindIndexSameIds(s.layers, RebuildAll(s.layers), s.selectedLayerId.value);
      }
      layers := RebuildAll(s.layers);
      selectedLayerId := s.selectedLayerId;
    }

    /** `undo`: a no-op at the first entry; otherwise restores the previous snapshot. */
    method Undo()
      requires Valid()
      modifies this`layers, this`selectedLayerId, this`history
      ensures Valid()
      ensures history == old(history).Undo().0
      ensures !old(history.CanUndo()) ==> layers == old(layers) && selectedLayerId == old(selectedLayerId)
      ensures old(history.CanUndo()) ==>
        && layers == RebuildAll(old(history.entries[history.index - 1]).layers)
        && selectedLayerId == old(history.entries[history.index - 1]).selectedLayerId
    {
      var (h, s) := history.Undo();
      if s.Some? {
        RestoreState(s.value);
      }
      history := h;
    }

    /** `redo`: a no-op at the last entry; otherwise restores the next snapshot. */
    method Redo()
      requires Valid()
      modifies this`layers, this`selectedLayerId, this`history
      ensures Valid()
      ensures history == old(history).Redo().0
      ensures !old(history.CanRedo()) ==> layers == old(layers) && selectedLayerId == old(selectedLayerId)
      ensures old(history.CanRedo()) ==>
        && layers == RebuildAll(old(history.entries[history.index + 1]).layers)
        && selectedLayerId == old(history.entries[history.index + 1]).selectedLayerId
    {
      var (h, s) := history.Redo();
      if s.Some? {
        RestoreState(s.value);
      }
      history := h;
    }

    /**
     * `handlePointerDown` with the intended guard: grabs an unlocked selected
     * layer, remembers the pointer and, for an image layer, the layer's position.
     */
    method PointerDown(px: real, py: real)
      modifies this`isDragging, this`startX, this`startY, this`startLayerX, this`startLayerY
      ensures var t := Grabbable(layers, selectedLayerId);
        if DragRefused(selectedLayerId, isCropping) || t.None? then
          isDragging == old(isDragging) && startX == old(startX) && startY == old(startY)
          && startLayerX == old(startLayerX) && startLayerY == old(startLayerY)
        else
          isDragging && startX == px && startY == py
          && (t.value.kind == ImageKind ==> startLayerX == t.value.x && startLayerY == t.value.y)
          && (t.value.kind == TextKind ==> startLayerX == old(startLayerX) && startLayerY == old(startLayerY))
    {
      if DragRefused(selectedLayerId, isCropping) {
        return;
      }
      var t := Grabbable(layers, selectedLayerId);
      if t.None? {
        return;
      }
      isDragging, startX, startY := true, px, py;
      if t.value.kind == ImageKind {
        startLayerX, startLayerY := t.value.x, t.value.y;
      }
    }

    /**
     * `handlePointerMove` with the intended guard (src/not.jsx:413 repeats the
     * falsy-id test of `handlePointerDown`; cropping plays no part here): moves
     * the grabbed layer by `DragPatch`; a text layer's drag then starts again
     * from the pointer.
     */
    method PointerMove(px: real, py: real)
      requires Valid()
      modifies this`layers, this`startX, this`startY
      ensures Valid()
      ensures var t := Grabbable(old(layers), selectedLayerId);
        if !isDragging || DragRefused(selectedLayerId, false) || t.None? then
          layers == old(layers) && startX == old(startX) && startY == old(startY)
        else
          && layers == UpdateLayers(old(layers), t.value.id,
                         DragPatch(t.value, old(startX), old(startY), startLayerX, startLayerY, px, py))
          && (t.value.kind == ImageKind ==> startX == old(startX) && startY == old(startY))
          && (t.value.kind == TextKind ==> startX == px && startY == py)
    {
      if !isDragging || DragRefused(selectedLayerId, false) {
        return;
      }
      var t := Grabbable(layers, selectedLayerId);
      if t.Some? {
        var p := DragPatch(t.value, startX, startY, startLayerX, startLayerY, px, py);
        UpdateKeepsStateOk(layers, selectedLayerId, layerIdCounter, history, t.value.id, p);
        layers := UpdateLayers(layers, t.value.id, p);
        if t.value.kind == TextKind {
          startX, startY := px, py;
        }
      }
    }

    /** `handlePointerUp`: ends a drag and records history; otherwise nothing. */
    method PointerUp()
      requires Valid()
      modifies this`isDragging, this`history
      ensures Valid() && !isDragging
      ensures old(isDragging) ==> history == old(history).Save(Current())
      ensures !old(isDragging) ==> history == old(history)
    {
      if isDragging {
        isDragging := false;
        SaveHistory();
      }
    }
  }
}
