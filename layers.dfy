/**
 * The layer list of the multi-layer editor (src/not.jsx): typed layers with a
 * unique numeric id, and the list rewrites that create, update, delete,
 * duplicate and reorder them, plus the snapshot form the history stores.
 */
module Layers {
  import opened Wrappers
  import opened Seqs

  datatype LayerKind = ImageKind | TextKind

  /** A decoded `Image` object, built from a data URL; a cache of `imageData`. */
  datatype Decoded = Decoded(src: string)

  /**
   * A layer. The JavaScript objects carry only the fields of their type; here
   * every layer has all of them, and a field the source never set holds
   * 0, "", or `None`.
   */
  datatype Layer = Layer(
    id: int, kind: LayerKind, name: string, visible: bool, opacity: real, locked: bool,
    imageData: Option<string>, image: Option<Decoded>,
    x: real, y: real, scale: real, rotation: real, borderRadius: real,
    text: string, size: real, color: string, fontFamily: string)

  /** The fields a `data` or `updates` object may set; `None` leaves a field as it is. */
  datatype Patch = Patch(
    name: Option<string>, visible: Option<bool>, opacity: Option<real>, locked: Option<bool>,
    imageData: Option<string>, image: Option<Decoded>,
    x: Option<real>, y: Option<real>, scale: Option<real>, rotation: Option<real>, borderRadius: Option<real>,
    text: Option<string>, size: Option<real>, color: Option<string>, fontFamily: Option<string>)

  const NoChange: Patch := Patch(None, None, None, None, None, None, None, None, None, None, None, None, None, None, None)

  /** A patch that moves a layer to `(x, y)` and sets nothing else. */
  function MoveTo(x: real, y: real): (p: Patch)
    ensures p == NoChange.(x := Some(x), y := Some(y))
  {
    NoChange.(x := Some(x), y := Some(y))
  }

  /** `{ ...layer, ...updates }`: a patch never changes the id or the type. */
  function Merge(l: Layer, p: Patch): (r: Layer)
    ensures r.id == l.id && r.kind == l.kind
    ensures r.x == p.x.GetOr(l.x) && r.y == p.y.GetOr(l.y)
    ensures p == NoChange ==> r == l
  {
    Layer(l.id, l.kind, p.name.GetOr(l.name), p.visible.GetOr(l.visible), p.opacity.GetOr(l.opacity),
          p.locked.GetOr(l.locked), if p.imageData.Some? then p.imageData else l.imageData,
          if p.image.Some? then p.image else l.image,
          p.x.GetOr(l.x), p.y.GetOr(l.y), p.scale.GetOr(l.scale), p.rotation.GetOr(l.rotation),
          p.borderRadius.GetOr(l.borderRadius), p.text.GetOr(l.text), p.size.GetOr(l.size),
          p.color.GetOr(l.color), p.fontFamily.GetOr(l.fontFamily))
  }

  function DigitChar(d: nat): (c: char)
    requires d < 10
    ensures '0' <= c <= '9' && c as int - '0' as int == d
  {
    "0123456789"[d]
  }

  /** The number a string of decimal digits denotes. */
  function DecimalValue(s: string): nat
    requires forall i :: 0 <= i < |s| ==> '0' <= s[i] <= '9'
  {
    if s == [] then 0 else DecimalValue(s[..|s| - 1]) * 10 + (s[|s| - 1] as int - '0' as int)
  }

  /** The decimal form of a counter value, as a template literal writes it: digits only, no leading zero. */
  function NatToString(n: nat): (s: string)
    ensures |s| >= 1
    ensures forall i :: 0 <= i < |s| ==> '0' <= s[i] <= '9'
    ensures n > 0 ==> s[0] != '0'
  {
    if n < 10 then [DigitChar(n)] else NatToString(n / 10) + [DigitChar(n % 10)]
  }

  /** The decimal form reads back as the same number. */
  lemma {:induction false} NatToStringValue(n: nat)
    ensures DecimalValue(NatToString(n)) == n
  {
    if n >= 10 {
      var s := NatToString(n);
      assert s[..|s| - 1] == NatToString(n / 10);
      NatToStringValue(n / 10);
    }
  }

  /** `Image 3`, `Text 3`. */
  function DefaultName(kind: LayerKind, counter: nat): string {
    (if kind == ImageKind then "Image " else "Text ") + NatToString(counter)
  }

  /**
   * `createLayer`'s new layer: the counter as id, a default name, visible,
   * fully opaque and unlocked; `data` may override any of these except id and type.
   */
  function NewLayer(counter: nat, kind: LayerKind, data: Patch): (l: Layer)
    ensures l.id == counter && l.kind == kind
    ensures l.visible == data.visible.GetOr(true) && l.opacity == data.opacity.GetOr(100.0)
    ensures l.locked == data.locked.GetOr(false) && l.name == data.name.GetOr(DefaultName(kind, counter))
  {
    Merge(Layer(counter, kind, DefaultName(kind, counter), true, 100.0, false, None, None,
                0.0, 0.0, 0.0, 0.0, 0.0, "", 0.0, "", ""), data)
  }

  /** No two layers share an id. */
  predicate UniqueIds(layers: seq<Layer>) {
    forall i, j :: 0 <= i < j < |layers| ==> layers[i].id != layers[j].id
  }

  /** Every id was handed out by a counter now at `counter`. */
  predicate IdsBelow(layers: seq<Layer>, counter: int) {
    forall i :: 0 <= i < |layers| ==> 0 <= layers[i].id < counter
  }

  /** `findIndex`: the first position holding the id. */
  function FindIndex(layers: seq<Layer>, id: int): (r: Option<nat>)
    ensures r.Some? ==> r.value < |layers| && layers[r.value].id == id
    ensures r.Some? ==> forall j :: 0 <= j < r.value ==> layers[j].id != id
    ensures r.None? ==> forall j :: 0 <= j < |layers| ==> layers[j].id != id
  {
    if layers == [] then None
    else if layers[0].id == id then Some(0)
    else match FindIndex(layers[1..], id)
      case None => None
      case Some(k) => Some(k + 1)
  }

  /** In a list with unique ids a layer is found exactly at its own position. */
  lemma FindIndexUnique(layers: seq<Layer>, i: nat)
    requires UniqueIds(layers) && i < |layers|
    ensures FindIndex(layers, layers[i].id) == Some(i)
  {
  }

  /** `updateLayer`: the patch is merged into the layers with the id; the rest, the length and the order stay. */
  function UpdateLayers(layers: seq<Layer>, id: int, p: Patch): (r: seq<Layer>)
    ensures |r| == |layers|
    ensures forall k :: 0 <= k < |r| ==> r[k].id == layers[k].id && r[k].kind == layers[k].kind
    ensures forall k :: 0 <= k < |r| && layers[k].id != id ==> r[k] == layers[k]
    ensures forall k :: 0 <= k < |r| && layers[k].id == id ==> r[k] == Merge(layers[k], p)
  {
    seq(|layers|, k requires 0 <= k < |layers| => if layers[k].id == id then Merge(layers[k], p) else layers[k])
  }

  /** `deleteLayer`'s list: every layer with the id goes; the others stay (in order, by `DeleteLayersSplit`). */
  function DeleteLayers(layers: seq<Layer>, id: int): (r: seq<Layer>)
    ensures forall k :: 0 <= k < |r| ==> r[k].id != id && r[k] in layers
    ensures forall k :: 0 <= k < |layers| && layers[k].id != id ==> layers[k] in r
  {
    Filter(layers, (l: Layer) => l.id != id)
  }

  /**
   * Deletion keeps the survivors in their order: deleting from a concatenation
   * deletes from each part, and a single layer is kept exactly when its id differs.
   */
  lemma DeleteLayersSplit(a: seq<Layer>, b: seq<Layer>, id: int, l: Layer)
    ensures DeleteLayers(a + b, id) == DeleteLayers(a, id) + DeleteLayers(b, id)
    ensures DeleteLayers([l], id) == if l.id == id then [] else [l]
  {
    FilterAppend(a, b, (l: Layer) => l.id != id);
    assert [l][1..] == [];
  }

  /**
   * `deleteLayer`'s selection exactly as src/not.jsx:124-125 computes it: when
   * the deleted layer was selected, the id of the first layer of the list
   * BEFORE the deletion if that list had more than one layer, else nothing.
   */
  function SelectionAfterDeleteAsWritten(layers: seq<Layer>, selected: Option<int>, id: int): (r: Option<int>)
    ensures selected != Some(id) ==> r == selected
    ensures selected == Some(id) && |layers| > 1 ==> r == Some(layers[0].id)
    ensures selected == Some(id) && |layers| <= 1 ==> r == None
  {
    if selected == Some(id) then (if |layers| > 1 then Some(layers[0].id) else None) else selected
  }

  /** Deleting the selected bottom layer of two leaves the selection on the layer just deleted. */
  lemma DeleteSelectionDangles(a: Layer, b: Layer)
    requires a.id != b.id
    ensures SelectionAfterDeleteAsWritten([a, b], Some(a.id), a.id) == Some(a.id)
    ensures forall k :: 0 <= k < |DeleteLayers([a, b], a.id)| ==> DeleteLayers([a, b], a.id)[k].id != a.id
  {
  }

  /**
   * The selection after `deleteLayer` as intended: when the deleted layer was
   * selected, the first REMAINING layer, or nothing when none remains.
   */
  function SelectionAfterDelete(layers: seq<Layer>, selected: Option<int>, id: int): (r: Option<int>)
    ensures selected != Some(id) ==> r == selected
    ensures selected == Some(id) && DeleteLayers(layers, id) == [] ==> r == None
    ensures selected == Some(id) && DeleteLayers(layers, id) != [] ==> r == Some(DeleteLayers(layers, id)[0].id)
  {
    if selected == Some(id) then
      var rest := DeleteLayers(layers, id);
      if rest != [] then Some(rest[0].id) else None
    else selected
  }

  /** The selection names a layer of the list, or is empty. */
  predicate Names(layers: seq<Layer>, selected: Option<int>) {
    selected.Some? ==> FindIndex(layers, selected.value).Some?
  }

  /** A layer at any position makes its id found. */
  lemma FoundAt(layers: seq<Layer>, k: nat)
    requires k < |layers|
    ensures FindIndex(layers, layers[k].id).Some?
  {
  }

  /** A selection that names a layer, or nothing, still does so after a deletion. */
  lemma SelectionAfterDeleteValid(layers: seq<Layer>, selected: Option<int>, id: int)
    requires Names(layers, selected)
    ensures Names(DeleteLayers(layers, id), SelectionAfterDelete(layers, selected, id))
  {
    var rest := DeleteLayers(layers, id);
    if selected.Some? && selected != Some(id) {
      var k := FindIndex(layers, selected.value).value;
      assert layers[k] in rest;
      var m :| 0 <= m < |rest| && rest[m] == layers[k];
      FoundAt(rest, m);
    } else if selected == Some(id) && rest != [] {
      FoundAt(rest, 0);
    }
  }

  /** Lists with the same ids position by position find every id at the same place. */
  lemma {:induction false} FindIndexSameIds(a: seq<Layer>, b: seq<Layer>, id: int)
    requires |a| == |b| && forall k :: 0 <= k < |a| ==> a[k].id == b[k].id
    ensures FindIndex(a, id) == FindIndex(b, id)
  {
    if a != [] && a[0].id != id {
      FindIndexSameIds(a[1..], b[1..], id);
    }
  }

  /** `updateLayer` keeps ids unique, below the counter, and every selection valid. */
  lemma UpdateKeepsIds(layers: seq<Layer>, id: int, p: Patch, counter: int, selected: Option<int>)
    requires UniqueIds(layers) && IdsBelow(layers, counter) && Names(layers, selected)
    ensures var r := UpdateLayers(layers, id, p);
      UniqueIds(r) && IdsBelow(r, counter) && Names(r, selected)
  {
    if selected.Some? {
      FindIndexSameIds(layers, UpdateLayers(layers, id, p), selected.value);
    }
  }

  /** Appending a layer under the counter's id keeps ids unique and below the bumped counter. */
  lemma AppendKeepsIds(layers: seq<Layer>, l: Layer, counter: nat, selected: Option<int>)
    requires UniqueIds(layers) && IdsBelow(layers, counter) && Names(layers, selected) && l.id == counter
    ensures UniqueIds(layers + [l]) && IdsBelow(layers + [l], counter + 1)
    ensures Names(layers + [l], selected) && Names(layers + [l], Some(counter))
  {
    var r := layers + [l];
    if selected.Some? {
      var k := FindIndex(layers, selected.value).value;
      assert r[k] == layers[k];
      FoundAt(r, k);
    }
    FoundAt(r, |layers|);
  }

  lemma DeleteLayersCons(layers: seq<Layer>, id: int)
    requires layers != []
    ensures DeleteLayers(layers, id)
            == (if layers[0].id != id then [layers[0]] else []) + DeleteLayers(layers[1..], id)
  {
  }

  /** The ids of the rest of a list with unique ids, all below the counter, are unique, below it, and not the first id. */
  lemma TailIds(layers: seq<Layer>, counter: int)
    requires layers != [] && UniqueIds(layers) && IdsBelow(layers, counter)
    ensures UniqueIds(layers[1..]) && IdsBelow(layers[1..], counter)
    ensures forall k :: 0 <= k < |layers| - 1 ==> layers[1..][k].id != layers[0].id
  {
    forall k | 0 <= k < |layers| - 1
      ensures layers[1..][k].id != layers[0].id
    {
      assert layers[1..][k] == layers[k + 1];
    }
  }

  /** A layer whose id is new and below the counter can go in front of a list with unique ids. */
  lemma ConsIds(l: Layer, rest: seq<Layer>, counter: int)
    requires UniqueIds(rest) && IdsBelow(rest, counter) && 0 <= l.id < counter
    requires forall k :: 0 <= k < |rest| ==> rest[k].id != l.id
    ensures UniqueIds([l] + rest) && IdsBelow([l] + rest, counter)
  {
    var r := [l] + rest;
    forall k | 1 <= k < |r|
      ensures r[k] == rest[k - 1]
    {
    }
  }

  /** The layers `deleteLayer` keeps still have unique ids below the counter. */
  lemma {:induction false} DeleteKeepsIds(layers: seq<Layer>, id: int, counter: int)
    requires UniqueIds(layers) && IdsBelow(layers, counter)
    ensures UniqueIds(DeleteLayers(layers, id)) && IdsBelow(DeleteLayers(layers, id), counter)
  {
    if layers != [] {
      var head, tail := layers[0], layers[1..];
      TailIds(layers, counter);
      DeleteKeepsIds(tail, id, counter);
      DeleteLayersCons(layers, id);
      var rt := DeleteLayers(tail, id);
      if head.id != id {
        forall k | 0 <= k < |rt|
          ensures rt[k].id != head.id
        {
          var m :| 0 <= m < |tail| && tail[m] == rt[k];
        }
        ConsIds(head, rt, counter);
      } else {
        assert [] + rt == rt;
      }
    }
  }

  /** Position `k` after swapping positions `i` and `j` holds what was at `SwapIndex(k, i, j)`. */
  function SwapIndex(k: int, i: int, j: int): int {
    if k == i then j else if k == j then i else k
  }

  /** Swapping two positions keeps ids unique and below the counter. */
  lemma SwapKeepsIds(layers: seq<Layer>, r: seq<Layer>, i: nat, j: nat, counter: int)
    requires i < |layers| && j < |layers| && |r| == |layers|
    requires r[i] == layers[j] && r[j] == layers[i]
    requires forall k :: 0 <= k < |layers| && k != i && k != j ==> r[k] == layers[k]
    requires UniqueIds(layers) && IdsBelow(layers, counter)
    ensures forall k :: 0 <= k < |r| ==> 0 <= SwapIndex(k, i, j) < |layers| && r[k] == layers[SwapIndex(k, i, j)]
    ensures UniqueIds(r) && IdsBelow(r, counter)
  {
    forall a, b | 0 <= a < b < |r|
      ensures r[a].id != r[b].id
    {
      assert r[a] == layers[SwapIndex(a, i, j)] && r[b] == layers[SwapIndex(b, i, j)];
      assert SwapIndex(a, i, j) != SwapIndex(b, i, j);
    }
  }

  /** Swapping two layers keeps ids unique, below the counter, and the selection valid. */
  lemma MoveKeepsIds(layers: seq<Layer>, id: int, dir: Direction, counter: int, selected: Option<int>)
    requires UniqueIds(layers) && IdsBelow(layers, counter) && Names(layers, selected)
    requires MoveLayers(layers, id, dir).Some?
    ensures var r := MoveLayers(layers, id, dir).value;
      UniqueIds(r) && IdsBelow(r, counter) && Names(r, selected)
  {
    var r := MoveLayers(layers, id, dir).value;
    var i := FindIndex(layers, id).value;
    var j := Neighbour(i, dir);
    SwapKeepsIds(layers, r, i, j, counter);
    if selected.Some? {
      var k := FindIndex(layers, selected.value).value;
      assert r[SwapIndex(k, i, j)] == layers[k];
      FoundAt(r, SwapIndex(k, i, j));
    }
  }

  /** `duplicateLayer`'s copy: the first layer with the id, under the counter's id and with " copy" added to its name. */
  function Duplicate(layers: seq<Layer>, id: int, counter: nat): (r: Option<Layer>)
    ensures r.None? <==> FindIndex(layers, id).None?
    ensures r.Some? ==> var src := layers[FindIndex(layers, id).value];
      r.value == src.(id := counter, name := src.name + " copy")
  {
    match FindIndex(layers, id)
    case None => None
    case Some(k) => Some(layers[k].(id := counter, name := layers[k].name + " copy"))
  }

  datatype Direction = Up | Down

  /** `up` is toward the top of the drawing order (the next position), anything else the previous one. */
  function Neighbour(i: nat, dir: Direction): int {
    if dir == Up then i + 1 else i - 1
  }

  /**
   * `moveLayer`: swaps the layer with its neighbour; `None` for an unknown id
   * or a move past either end, where the source returns without a snapshot.
   */
  function MoveLayers(layers: seq<Layer>, id: int, dir: Direction): (r: Option<seq<Layer>>)
    ensures r.None? <==> FindIndex(layers, id).None?
                         || !(0 <= Neighbour(FindIndex(layers, id).value, dir) < |layers|)
    ensures r.Some? ==>
      var i := FindIndex(layers, id).value; var j := Neighbour(i, dir);
      && |r.value| == |layers| && 0 <= j < |layers|
      && r.value[i] == layers[j] && r.value[j] == layers[i]
      && (forall k :: 0 <= k < |layers| && k != i && k != j ==> r.value[k] == layers[k])
    ensures r.Some? ==> multiset(r.value) == multiset(layers)
  {
    match FindIndex(layers, id)
    case None => None
    case Some(i) =>
      var j := Neighbour(i, dir);
      if j < 0 || j >= |layers| then None
      else
        var swapped := layers[i := layers[j]][j := layers[i]];
        SwapPermutes(layers, i, j);
        Some(swapped)
  }

  lemma SwapPermutes<T>(s: seq<T>, i: nat, j: nat)
    requires i < |s| && j < |s|
    ensures multiset(s[i := s[j]][j := s[i]]) == multiset(s)
  {
    var t := s[i := s[j]];
    assert multiset(t) == multiset(s) - multiset{s[i]} + multiset{s[j]};
    assert multiset(t[j := s[i]]) == multiset(t) - multiset{t[j]} + multiset{s[i]};
  }

  /** With unique ids a move up is undone by a move down of the same layer. */
  lemma MoveUpThenDown(layers: seq<Layer>, id: int)
    requires UniqueIds(layers) && MoveLayers(layers, id, Up).Some?
    ensures MoveLayers(MoveLayers(layers, id, Up).value, id, Down) == Some(layers)
  {
    var i := FindIndex(layers, id).value;
    var moved := MoveLayers(layers, id, Up).value;
    assert moved[i + 1].id == id;
    assert forall k :: 0 <= k < i + 1 ==> moved[k].id != id;
    assert FindIndex(moved, id) == Some(i + 1);
    var back := MoveLayers(moved, id, Down).value;
    assert back == layers;
  }

  /** A JavaScript string is truthy when it is not empty. */
  predicate Truthy(s: Option<string>) {
    s.Some? && s.value != ""
  }

  /** The snapshot form of a layer: an image layer loses its decoded image and keeps `imageData`. */
  function Strip(l: Layer): (r: Layer)
    ensures l.kind == ImageKind ==> r == l.(image := None)
    ensures l.kind == TextKind ==> r == l
  {
    if l.kind == ImageKind then l.(image := None) else l
  }

  function StripAll(layers: seq<Layer>): (r: seq<Layer>)
    ensures |r| == |layers| && forall k :: 0 <= k < |r| ==> r[k] == Strip(layers[k])
  {
    seq(|layers|, k requires 0 <= k < |layers| => Strip(layers[k]))
  }

  /** No image layer of the list holds a decoded image. */
  predicate NoDecoded(layers: seq<Layer>) {
    forall k :: 0 <= k < |layers| ==> (layers[k].kind == ImageKind ==> layers[k].image.None?)
  }

  /** Stripping keeps ids and the selection valid, and leaves no decoded image. */
  lemma StripKeepsIds(layers: seq<Layer>, selected: Option<int>, counter: int)
    requires UniqueIds(layers) && IdsBelow(layers, counter) && Names(layers, selected)
    ensures var r := StripAll(layers);
      UniqueIds(r) && IdsBelow(r, counter) && Names(r, selected) && NoDecoded(r)
  {
    if selected.Some? {
      FindIndexSameIds(layers, StripAll(layers), selected.value);
    }
  }

  /** `restoreState`'s per-layer step: an image layer with image data gets a freshly decoded image; any other layer is returned as it is. */
  function Rebuild(l: Layer): (r: Layer)
    ensures l.kind == ImageKind && Truthy(l.imageData) ==> r == l.(image := Some(Decoded(l.imageData.value)))
    ensures !(l.kind == ImageKind && Truthy(l.imageData)) ==> r == l
  {
    if l.kind == ImageKind && Truthy(l.imageData) then l.(image := Some(Decoded(l.imageData.value))) else l
  }

  function RebuildAll(layers: seq<Layer>): (r: seq<Layer>)
    ensures |r| == |layers| && forall k :: 0 <= k < |r| ==> r[k] == Rebuild(layers[k])
  {
    seq(|layers|, k requires 0 <= k < |layers| => Rebuild(layers[k]))
  }

  /** An image layer's decoded image is exactly what its image data decodes to (none when there is no data). */
  predicate CacheConsistent(l: Layer) {
    l.kind == ImageKind ==> l.image == (if Truthy(l.imageData) then Some(Decoded(l.imageData.value)) else None)
  }

  /** Snapshotting then restoring gives back every layer whose decoded image agrees with its data. */
  lemma RestoreOfSnapshot(layers: seq<Layer>)
    requires forall k :: 0 <= k < |layers| ==> CacheConsistent(layers[k])
    ensures RebuildAll(StripAll(layers)) == layers
    ensures NoDecoded(StripAll(layers))
  {
    var r := RebuildAll(StripAll(layers));
    forall k | 0 <= k < |layers|
      ensures r[k] == layers[k]
    {
      assert CacheConsistent(layers[k]);
    }
  }
}
