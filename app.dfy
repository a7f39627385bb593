/**
 * The single-image editor of src/App.jsx: one base image with a transform and
 * rounded corners, a list of text layers, the undo/redo history over both, and
 * the pointer, touch and double-tap handlers that change the transform.
 */
module App {
  import opened Wrappers
  import opened Seqs
  import opened Geometry
  import H = History

  /** A text overlay, placed in canvas coordinates (not moved by the image transform). */
  datatype TextLayer = TextLayer(id: int, text: string, x: real, y: real, size: real, color: string)

  /** The fields a text-layer edit may set (`updates` in `updateTextLayer`); `None` leaves a field as it is. */
  datatype TextPatch = TextPatch(text: Option<string>, x: Option<real>, y: Option<real>,
                                 size: Option<real>, color: Option<string>)

  const NoChange: TextPatch := TextPatch(None, None, None, None, None)

  /** `{ ...layer, ...updates }`: a field the patch sets takes the patch's value, every other field is the layer's. */
  function ApplyPatch(l: TextLayer, p: TextPatch): (r: TextLayer)
    ensures r.id == l.id
    ensures p.text.Some? ==> r.text == p.text.value
    ensures p.text.None? ==> r.text == l.text
    ensures p.x.Some? ==> r.x == p.x.value
    ensures p.x.None? ==> r.x == l.x
    ensures p.y.Some? ==> r.y == p.y.value
    ensures p.y.None? ==> r.y == l.y
    ensures p.size.Some? ==> r.size == p.size.value
    ensures p.size.None? ==> r.size == l.size
    ensures p.color.Some? ==> r.color == p.color.value
    ensures p.color.None? ==> r.color == l.color
  {
    TextLayer(l.id, p.text.GetOr(l.text), p.x.GetOr(l.x), p.y.GetOr(l.y), p.size.GetOr(l.size), p.color.GetOr(l.color))
  }

  /** `updateTextLayer`: the layers with the given id take the patch; every other layer, and the order, stay. */
  function UpdateTextLayers(layers: seq<TextLayer>, id: int, p: TextPatch): (r: seq<TextLayer>)
    ensures |r| == |layers|
    ensures forall k :: 0 <= k < |r| ==> r[k].id == layers[k].id
    ensures forall k :: 0 <= k < |r| && layers[k].id != id ==> r[k] == layers[k]
    ensures forall k :: 0 <= k < |r| && layers[k].id == id ==> r[k] == ApplyPatch(layers[k], p)
  {
    seq(|layers|, k requires 0 <= k < |layers| => if layers[k].id == id then ApplyPatch(layers[k], p) else layers[k])
  }

  /** An update that sets nothing changes nothing, whatever the id. */
  lemma UpdateWithNoChange(layers: seq<TextLayer>, id: int)
    ensures UpdateTextLayers(layers, id, NoChange) == layers
  {
    var r := UpdateTextLayers(layers, id, NoChange);
    assert forall k :: 0 <= k < |r| ==> r[k] == layers[k];
  }

  /** `deleteTextLayer`: every layer with the id goes; the others stay (in order, by `DeleteTextLayersSplit`). */
  function DeleteTextLayers(layers: seq<TextLayer>, id: int): (r: seq<TextLayer>)
    ensures forall k :: 0 <= k < |r| ==> r[k].id != id && r[k] in layers
    ensures forall k :: 0 <= k < |layers| && layers[k].id != id ==> layers[k] in r
  {
    Filter(layers, (l: TextLayer) => l.id != id)
  }

  /**
   * Deletion keeps the survivors in their order: deleting from a concatenation
   * deletes from each part, and a single layer is kept exactly when its id differs.
   */
  lemma DeleteTextLayersSplit(a: seq<TextLayer>, b: seq<TextLayer>, id: int, l: TextLayer)
    ensures DeleteTextLayers(a + b, id) == DeleteTextLayers(a, id) + DeleteTextLayers(b, id)
    ensures DeleteTextLayers([l], id) == if l.id == id then [] else [l]
  {
    FilterAppend(a, b, (l: TextLayer) => l.id != id);
    assert [l][1..] == [];
  }

  /** `addTextLayer`'s new layer: placeholder text at the canvas centre, 32 px, white on dark, black on light. */
  function NewTextLayer(id: int, canvasW: real, canvasH: real, isDarkMode: bool): (l: TextLayer)
    ensures l.id == id && l.text == "Tap to edit" && l.size == 32.0
    ensures l.x * 2.0 == canvasW && l.y * 2.0 == canvasH
    ensures l.color == (if isDarkMode then "#ffffff" else "#000000")
  {
    TextLayer(id, "Tap to edit", canvasW / 2.0, canvasH / 2.0, 32.0, if isDarkMode then "#ffffff" else "#000000")
  }

  /** Deleting a layer just added under a fresh id gives back the list from before the add. */
  lemma {:induction false} AddThenDelete(layers: seq<TextLayer>, added: TextLayer)
    requires forall k :: 0 <= k < |layers| ==> layers[k].id != added.id
    ensures DeleteTextLayers(layers + [added], added.id) == layers
  {
    var keep := (l: TextLayer) => l.id != added.id;
    FilterAppend(layers, [added], keep);
    FilterKeepsAll(layers, keep);
    FilterDropsAll([added], keep);
  }

  /**
   * The hit box of a text layer: strictly inside `(x - w/2, x + w/2)` horizontally
   * and `(y - size, y + size/2)` vertically, `w` being the measured text width.
   */
  predicate InTextBox(l: TextLayer, textW: real, px: real, py: real) {
    var startX := l.x - textW / 2.0;
    var startY := l.y - l.size;
    px > startX && px < startX + textW && py > startY && py < startY + l.size * 1.5
  }

  /**
   * The layer a press at `(px, py)` lands on: the first, in list order, whose
   * box contains the point. `measure` gives the width of a text on the canvas.
   */
  function FirstHit(layers: seq<TextLayer>, px: real, py: real, measure: string -> real): (r: Option<nat>)
    ensures r.Some? ==> r.value < |layers| && InTextBox(layers[r.value], measure(layers[r.value].text), px, py)
    ensures r.Some? ==> forall j :: 0 <= j < r.value ==> !InTextBox(layers[j], measure(layers[j].text), px, py)
    ensures r.None? ==> forall j :: 0 <= j < |layers| ==> !InTextBox(layers[j], measure(layers[j].text), px, py)
    decreases |layers|
  {
    if layers == [] then None
    else if InTextBox(layers[0], measure(layers[0].text), px, py) then Some(0)
    else
      var rest := FirstHit(layers[1..], px, py, measure);
      assert forall j :: 1 <= j < |layers| ==> layers[j] == layers[1..][j - 1];
      if rest.Some? then Some(rest.value + 1) else None
  }

  /** The hit-test loop of `handlePointerDown`, which stops at the first layer whose box contains the point. */
  method HitTest(layers: seq<TextLayer>, px: real, py: real, measure: string -> real) returns (hit: Option<nat>)
    ensures hit == FirstHit(layers, px, py, measure)
  {
    hit := None;
    var i := 0;
    while i < |layers|
      invariant 0 <= i <= |layers|
      invariant forall j :: 0 <= j < i ==> !InTextBox(layers[j], measure(layers[j].text), px, py)
    {
      var textW := measure(layers[i].text);
      if InTextBox(layers[i], textW, px, py) {
        hit := Some(i);
        break;
      }
      i := i + 1;
    }
  }

  /** `handleCornerChange`: only the named corner takes the value. */
  function WithCorner(c: Corners, which: Corner, v: real): (r: Corners)
    ensures Get(r, which) == v
    ensures forall other :: other != which ==> Get(r, other) == Get(c, other)
  {
    match which
    case TL => c.(tl := v)
    case TR => c.(tr := v)
    case BL => c.(bl := v)
    case BR => c.(br := v)
  }

  /** A decoded image: only its natural size matters to the editor. */
  datatype Image = Image(width: real, height: real)

  /** What `saveHistory` records. */
  datatype Snapshot = Snapshot(transform: Transform, borderRadius: real, cornerRadii: Corners,
                               textLayers: seq<TextLayer>, advancedMode: bool)

  /** The snapshot `handleFileSelect` installs as the only history entry. */
  const ImportSnapshot: Snapshot := Snapshot(Identity, 0.0, Uniform(0.0), [], false)

  /** Every snapshot's scale lies in the pinch range. */
  predicate ScalesInRange(entries: seq<Snapshot>) {
    forall k :: 0 <= k < |entries| ==> ScaleInRange(entries[k].transform.scale)
  }

  /** Saving a snapshot whose scale is in range keeps every saved scale in range. */
  lemma SaveKeepsScales(h: H.History<Snapshot>, s: Snapshot)
    requires h.Valid() && ScalesInRange(h.entries) && ScaleInRange(s.transform.scale)
    ensures ScalesInRange(h.Save(s).entries)
  {
    var kept := h.entries[..h.index + 1] + [s];
    var e := h.Save(s).entries;
    forall k | 0 <= k < |e|
      ensures ScaleInRange(e[k].transform.scale)
    {
      var i := |kept| - |e| + k;
      assert e[k] == kept[i];
      if i <= h.index {
        assert kept[i] == h.entries[i];
      }
    }
  }

  class Editor {
    var image: Option<Image>
    var imageData: Option<string>
    var transform: Transform
    var borderRadius: real
    var cornerRadii: Corners
    var advancedMode: bool
    var textLayers: seq<TextLayer>
    var editingText: Option<int>
    var activeSheet: Option<string>
    var isDarkMode: bool
    var history: H.History<Snapshot>
    // The fields of `gestureRef`.
    var isDragging: bool
    var lastX: real
    var lastY: real
    var startDistance: real
    var startScale: real
    var startRotation: real
    var startAngle: real

    /** The editor's invariant: a well-formed history, and a scale in [0.1, 5] now and in every snapshot. */
    predicate Valid()
      reads this
    {
      history.Valid() && ScaleInRange(transform.scale) && ScalesInRange(history.entries)
    }

    function Current(): Snapshot
      reads this
    {
      Snapshot(transform, borderRadius, cornerRadii, textLayers, advancedMode)
    }

    constructor ()
      ensures Valid()
      ensures image == None && imageData == None && transform == Identity
      ensures borderRadius == 0.0 && cornerRadii == Uniform(0.0) && !advancedMode
      ensures textLayers == [] && editingText == None && activeSheet == None && !isDarkMode
      ensures history == H.Empty()
      ensures !isDragging && lastX == 0.0 && lastY == 0.0
      ensures startDistance == 0.0 && startScale == 1.0 && startRotation == 0.0
    {
      image, imageData := None, None;
      transform := Identity;
      borderRadius, cornerRadii, advancedMode := 0.0, Uniform(0.0), false;
      textLayers, editingText := [], None;
      activeSheet, isDarkMode := None, false;
      history := H.Empty();
      isDragging, lastX, lastY := false, 0.0, 0.0;
      startDistance, startScale, startRotation, startAngle := 0.0, 1.0, 0.0, 0.0;
    }

    /** `saveHistory`: records the current state. */
    method SaveHistory()
      requires Valid()
      modifies this`history
      ensures Valid()
      ensures history == old(history).Save(Current())
    {
      SaveKeepsScales(history, Current());
      history := history.Save(Current());
    }

    method Restore(s: Snapshot)
      modifies this`transform, this`borderRadius, this`cornerRadii, this`textLayers, this`advancedMode
      ensures Current() == s
    {
      transform, borderRadius, cornerRadii, textLayers, advancedMode :=
        s.transform, s.borderRadius, s.cornerRadii, s.textLayers, s.advancedMode;
    }

    /** `undo`: a no-op at the first entry; otherwise the previous entry is restored and becomes current. */
    method Undo()
      requires Valid()
      modifies this`history, this`transform, this`borderRadius, this`cornerRadii, this`textLayers, this`advancedMode
      ensures Valid()
      ensures history == old(history).Undo().0
      ensures !old(history.CanUndo()) ==> Current() == old(Current())
      ensures old(history.CanUndo()) ==> Current() == old(history.entries[history.index - 1])
    {
      var (h, s) := history.Undo();
      if s.Some? {
        Restore(s.value);
      }
      history := h;
    }

    /** `redo`: a no-op at the last entry; otherwise the next entry is restored and becomes current. */
    method Redo()
      requires Valid()
      modifies this`history, this`transform, this`borderRadius, this`cornerRadii, this`textLayers, this`advancedMode
      ensures Valid()
      ensures history == old(history).Redo().0
      ensures !old(history.CanRedo()) ==> Current() == old(Current())
      ensures old(history.CanRedo()) ==> Current() == old(history.entries[history.index + 1])
    {
      var (h, s) := history.Redo();
      if s.Some? {
        Restore(s.value);
      }
      history := h;
    }

    /** The `img.onload` of `handleFileSelect`: the new image, everything reset, one history entry. */
    method ImportImage(img: Image, data: string)
      modifies this`image, this`imageData, this`transform, this`borderRadius, this`cornerRadii,
               this`textLayers, this`history
      ensures Valid()
      ensures image == Some(img) && imageData == Some(data)
      ensures transform == Identity && borderRadius == 0.0 && cornerRadii == Uniform(0.0) && textLayers == []
      ensures history == H.Initial(ImportSnapshot)
    {
      image, imageData := Some(img), Some(data);
      transform := Identity;
      borderRadius, cornerRadii := 0.0, Uniform(0.0);
      textLayers := [];
      history := H.Initial(ImportSnapshot);
    }

    /**
     * `handlePointerDown`: ignored while a sheet is open or without an image.
     * A press on a text layer selects it for editing (a layer whose id is the
     * falsy 0 reads as no hit, as in the source); any other press starts a pan.
     */
    method PointerDown(clientX: real, clientY: real, rectLeft: real, rectTop: real, measure: string -> real)
      modifies this`editingText, this`isDragging, this`lastX, this`lastY
      ensures old(activeSheet.Some? || image.None?) ==>
                editingText == old(editingText) && isDragging == old(isDragging)
                && lastX == old(lastX) && lastY == old(lastY)
      ensures activeSheet.None? && image.Some? ==>
                var f := FirstHit(textLayers, clientX - rectLeft, clientY - rectTop, measure);
                if f.Some? && textLayers[f.value].id != 0 then
                  && editingText == Some(textLayers[f.value].id)
                  && isDragging == old(isDragging) && lastX == old(lastX) && lastY == old(lastY)
                else
                  editingText == None && isDragging && lastX == clientX && lastY == clientY
    {
      if activeSheet.Some? || image.None? {
        return;
      }
      var hit := HitTest(textLayers, clientX - rectLeft, clientY - rectTop, measure);
      if hit.Some? && textLayers[hit.value].id != 0 {
        editingText := Some(textLayers[hit.value].id);
      } else {
        editingText := None;
        isDragging := true;
        lastX, lastY := clientX, clientY;
      }
    }

    /** `handlePointerMove`: while panning, the pointer's delta is added to the offset; scale and rotation stay. */
    method PointerMove(x: real, y: real)
      requires Valid()
      modifies this`transform, this`lastX, this`lastY
      ensures Valid()
      ensures !old(isDragging) || old(image).None? ==>
                transform == old(transform) && lastX == old(lastX) && lastY == old(lastY)
      ensures old(isDragging) && old(image).Some? ==>
                && transform == Transform(old(transform.x) + (x - old(lastX)), old(transform.y) + (y - old(lastY)),
                                          old(transform.scale), old(transform.rotation))
                && lastX == x && lastY == y
    {
      if !isDragging || image.None? {
        return;
      }
      var dx, dy := x - lastX, y - lastY;
      transform := transform.(x := transform.x + dx, y := transform.y + dy);
      lastX, lastY := x, y;
    }

    /** `handlePointerUp`: ends a pan and records it; a release without a pan records nothing. */
    method PointerUp()
      requires Valid()
      modifies this`isDragging, this`history
      ensures Valid() && !isDragging
      ensures old(isDragging) ==> history == old(history).Save(Current())
      ensures !old(isDragging) ==> history == old(history)
    {
      if isDragging {
        isDragging := false;
        SaveHistory();
      }
    }

    /**
     * `handleTouchStart`: two fingers record the pinch baselines (finger
     * distance and angle, current scale and rotation) and cancel a pan; one
     * finger is a pointer press.
     */
    method TouchStart(touches: nat, clientX: real, clientY: real, rectLeft: real, rectTop: real,
                      distance: real, angle: real, measure: string -> real)
      modifies this`isDragging, this`startDistance, this`startScale, this`startRotation, this`startAngle,
               this`editingText, this`lastX, this`lastY
      ensures touches == 2 ==>
                && !isDragging && startDistance == distance && startAngle == angle
                && startScale == transform.scale && startRotation == transform.rotation
                && editingText == old(editingText) && lastX == old(lastX) && lastY == old(lastY)
      ensures touches != 2 ==>
                startDistance == old(startDistance) && startScale == old(startScale)
                && startRotation == old(startRotation) && startAngle == old(startAngle)
      ensures touches == 1 && activeSheet.None? && image.Some? ==>
                var f := FirstHit(textLayers, clientX - rectLeft, clientY - rectTop, measure);
                if f.Some? && textLayers[f.value].id != 0 then
                  && editingText == Some(textLayers[f.value].id)
                  && isDragging == old(isDragging) && lastX == old(lastX) && lastY == old(lastY)
                else
                  editingText == None && isDragging && lastX == clientX && lastY == clientY
      ensures touches != 2 && !(touches == 1 && activeSheet.None? && image.Some?) ==>
                isDragging == old(isDragging) && editingText == old(editingText)
                && lastX == old(lastX) && lastY == old(lastY)
    {
      if touches == 2 {
        isDragging := false;
        startDistance, startScale, startRotation, startAngle := distance, transform.scale, transform.rotation, angle;
      } else if touches == 1 && activeSheet.None? && image.Some? {
        PointerDown(clientX, clientY, rectLeft, rectTop, measure);
      }
    }

    /**
     * `handleTouchMove`: with two fingers the scale becomes the start scale
     * times the distance ratio, clamped to [0.1, 5], and the rotation the start
     * rotation plus the angle change in degrees; the offset stays. One finger pans.
     */
    method TouchMove(touches: nat, x: real, y: real, distance: real, angle: real)
      requires Valid()
      modifies this`transform, this`lastX, this`lastY
      ensures Valid()
      ensures touches == 2 ==>
                && transform.x == old(transform.x) && transform.y == old(transform.y)
                && transform.scale == PinchScale(startScale, startDistance, distance)
                && transform.rotation == PinchRotation(startRotation, startAngle, angle)
      ensures touches == 2 ==> lastX == old(lastX) && lastY == old(lastY)
      ensures touches == 1 && isDragging && image.Some? ==>
                && transform == old(transform).(x := old(transform.x) + (x - old(lastX)), y := old(transform.y) + (y - old(lastY)))
                && lastX == x && lastY == y
      ensures touches != 2 && !(touches == 1 && isDragging && image.Some?) ==>
                transform == old(transform) && lastX == old(lastX) && lastY == old(lastY)
    {
      if touches == 2 {
        transform := transform.(scale := PinchScale(startScale, startDistance, distance),
                                rotation := PinchRotation(startRotation, startAngle, angle));
      } else if touches == 1 && isDragging {
        PointerMove(x, y);
      }
    }

    /** `handleTouchEnd`: fewer than two fingers left is a pointer release. */
    method TouchEnd(remaining: nat)
      requires Valid()
      modifies this`isDragging, this`history
      ensures Valid()
      ensures remaining < 2 && old(isDragging) ==> !isDragging && history == old(history).Save(Current())
      ensures !(remaining < 2 && old(isDragging)) ==> isDragging == old(isDragging) && history == old(history)
    {
      if remaining < 2 {
        PointerUp();
      }
    }

    /** `handleDoubleTap`: back to the identity transform, recorded. */
    method DoubleTap()
      requires Valid()
      modifies this`transform, this`history
      ensures Valid()
      ensures transform == Identity
      ensures history == old(history).Save(old(Current()).(transform := Identity))
    {
      transform := Identity;
      SaveHistory();
    }

    /** `addTextLayer`: appends the placeholder layer under the id `now`, edits it, and records. */
    method AddTextLayer(now: int, canvasW: real, canvasH: real)
      requires Valid()
      modifies this`textLayers, this`editingText, this`history
      ensures Valid()
      ensures textLayers == old(textLayers) + [NewTextLayer(now, canvasW, canvasH, isDarkMode)]
      ensures editingText == Some(now)
      ensures history == old(history).Save(Current())
    {
      textLayers := textLayers + [NewTextLayer(now, canvasW, canvasH, isDarkMode)];
      editingText := Some(now);
      SaveHistory();
    }

    /** `updateTextLayer`: an intermediate edit, not recorded. */
    method UpdateTextLayer(id: int, p: TextPatch)
      requires Valid()
      modifies this`textLayers
      ensures Valid()
      ensures textLayers == UpdateTextLayers(old(textLayers), id, p)
    {
      textLayers := UpdateTextLayers(textLayers, id, p);
    }

    /** `deleteTextLayer`: removes the layer, stops editing, and records. */
    method DeleteTextLayer(id: int)
      requires Valid()
      modifies this`textLayers, this`editingText, this`history
      ensures Valid()
      ensures textLayers == DeleteTextLayers(old(textLayers), id) && editingText == None
      ensures history == old(history).Save(Current())
    {
      textLayers := DeleteTextLayers(textLayers, id);
      editingText := None;
      SaveHistory();
    }

    /** `handleTextSheetClose`: closes the sheet, stops editing, and records the text edits. */
    method TextSheetClose()
      requires Valid()
      modifies this`activeSheet, this`editingText, this`history
      ensures Valid()
      ensures activeSheet == None && editingText == None
      ensures history == old(history).Save(Current())
    {
      activeSheet := None;
      editingText := None;
      SaveHistory();
    }

    /** `handleBorderRadiusChange`: sets the radius; in simple mode all four corners follow it. */
    method BorderRadiusChange(value: real)
      requires Valid()
      modifies this`borderRadius, this`cornerRadii
      ensures Valid()
      ensures borderRadius == value
      ensures !advancedMode ==> cornerRadii == Uniform(value)
      ensures advancedMode ==> cornerRadii == old(cornerRadii)
    {
      borderRadius := value;
      if !advancedMode {
        cornerRadii := Uniform(value);
      }
    }

    /** `handleCornerChange`: only the named corner changes. */
    method CornerChange(which: Corner, value: real)
      requires Valid()
      modifies this`cornerRadii
      ensures Valid()
      ensures Get(cornerRadii, which) == value
      ensures forall other :: other != which ==> Get(cornerRadii, other) == Get(old(cornerRadii), other)
    {
      cornerRadii := WithCorner(cornerRadii, which, value);
    }

    /** `handleBorderSheetClose`: closes the sheet and records the border edits. */
    method BorderSheetClose()
      requires Valid()
      modifies this`activeSheet, this`history
      ensures Valid()
      ensures activeSheet == None && history == old(history).Save(Current())
    {
      activeSheet := None;
      SaveHistory();
    }

    /** The simple/advanced toggle of the border sheet, recorded. */
    method ToggleAdvancedMode()
      requires Valid()
      modifies this`advancedMode, this`history
      ensures Valid()
      ensures advancedMode == !old(advancedMode) && history == old(history).Save(Current())
    {
      advancedMode := !advancedMode;
      SaveHistory();
    }

    /** The pixel radii of the base image's clip on a `canvasW` x `canvasH` canvas. */
    function ClipRadii(canvasW: real, canvasH: real): (r: Corners)
      reads this
      requires image.Some? && image.value.width > 0.0 && image.value.height > 0.0
      ensures var size := DrawSize(canvasW, canvasH, image.value.width, image.value.height, BaseImageMargin);
        CornerBelow(r, Min(size.0, size.1) / 2.0)
    {
      var size := DrawSize(canvasW, canvasH, image.value.width, image.value.height, BaseImageMargin);
      ResolvedRadii(advancedMode, borderRadius, cornerRadii, size.0, size.1)
    }
  }
}
