/** `src/pages/CreatePage.jsx`: the editor's state (the chosen image, the
    overlay list and the selected overlay's id) and the handlers that
    replace it with a new list or a new selection. */
module CreatePage {
  import opened Optional
  import opened JsArrays
  import opened Overlays

  /** `imageUrl` is the empty string while no image is chosen. */
  datatype Editor = Editor(imageUrl: string, overlays: seq<Overlay>, selectedId: Option<int>)

  const NewCaption: string := "Your text here"

  /** The overlay `handleAddText` creates, with id `now` (`Date.now()`). */
  function NewOverlay(now: int, hasImage: bool): Overlay
  {
    Overlay(now, NewCaption, if hasImage then 400.0 else 300.0, 200.0, 40, "#FFFFFF", 4)
  }

  /** `handleAddText`: appends one new overlay and selects it. */
  function AddText(e: Editor, now: int): (r: Editor)
    ensures |r.overlays| == |e.overlays| + 1 && r.overlays[..|e.overlays|] == e.overlays
    ensures var o := r.overlays[|e.overlays|];
            && o.id == now && o.text == "Your text here" && o.fontSize == 40 && o.textColor == "#FFFFFF"
            && o.borderWidth == 4 && o.y == 200.0 && o.x == (if e.imageUrl != "" then 400.0 else 300.0)
    ensures r.selectedId == Some(now) && r.imageUrl == e.imageUrl
  {
    var r := e.(overlays := e.overlays + [NewOverlay(now, e.imageUrl != "")], selectedId := Some(now));
    assert r.overlays[..|e.overlays|] == e.overlays;
    r
  }

  /** `overlays.map((o: Overlay) => o.id === id ? change(o) : o)`. */
  function UpdateWhere(overlays: seq<Overlay>, id: int, change: Overlay -> Overlay): (r: seq<Overlay>)
    ensures |r| == |overlays|
    ensures forall k :: 0 <= k < |r| ==> r[k] == if overlays[k].id == id then change(overlays[k]) else overlays[k]
  {
    if overlays == [] then []
    else [if overlays[0].id == id then change(overlays[0]) else overlays[0]] + UpdateWhere(overlays[1..], id, change)
  }

  /** An update naming an id no overlay has leaves the list as it was. */
  lemma {:induction false} UpdateAbsent(overlays: seq<Overlay>, id: int, change: Overlay -> Overlay)
    requires forall k :: 0 <= k < |overlays| ==> overlays[k].id != id
    ensures UpdateWhere(overlays, id, change) == overlays
  {
    if overlays != [] {
      UpdateAbsent(overlays[1..], id, change);
      assert [overlays[0]] + overlays[1..] == overlays;
    }
  }

  /** `handleTextChange(id, text)`. */
  function ChangeText(e: Editor, id: int, text: string): (r: Editor)
    ensures r.imageUrl == e.imageUrl && r.selectedId == e.selectedId && |r.overlays| == |e.overlays|
    ensures forall k :: 0 <= k < |r.overlays| ==>
              r.overlays[k] == if e.overlays[k].id == id then e.overlays[k].(text := text) else e.overlays[k]
  {
    e.(overlays := UpdateWhere(e.overlays, id, (o: Overlay) => o.(text := text)))
  }

  /** `handleFontSizeChange(id, size)`. */
  function ChangeFontSize(e: Editor, id: int, size: int): (r: Editor)
    ensures r.imageUrl == e.imageUrl && r.selectedId == e.selectedId && |r.overlays| == |e.overlays|
    ensures forall k :: 0 <= k < |r.overlays| ==>
              r.overlays[k] == if e.overlays[k].id == id then e.overlays[k].(fontSize := size) else e.overlays[k]
  {
    e.(overlays := UpdateWhere(e.overlays, id, (o: Overlay) => o.(fontSize := size)))
  }

  /** `handleTextColorChange(id, color)`. */
  function ChangeTextColor(e: Editor, id: int, color: string): (r: Editor)
    ensures r.imageUrl == e.imageUrl && r.selectedId == e.selectedId && |r.overlays| == |e.overlays|
    ensures forall k :: 0 <= k < |r.overlays| ==>
              r.overlays[k] == if e.overlays[k].id == id then e.overlays[k].(textColor := color) else e.overlays[k]
  {
    e.(overlays := UpdateWhere(e.overlays, id, (o: Overlay) => o.(textColor := color)))
  }

  /** `handleBorderWidthChange(id, width)`. */
  function ChangeBorderWidth(e: Editor, id: int, width: int): (r: Editor)
    ensures r.imageUrl == e.imageUrl && r.selectedId == e.selectedId && |r.overlays| == |e.overlays|
    ensures forall k :: 0 <= k < |r.overlays| ==>
              r.overlays[k] == if e.overlays[k].id == id then e.overlays[k].(borderWidth := width) else e.overlays[k]
  {
    e.(overlays := UpdateWhere(e.overlays, id, (o: Overlay) => o.(borderWidth := width)))
  }

  /** `handleTextMove(id, x, y)`. */
  function MoveText(e: Editor, id: int, x: real, y: real): (r: Editor)
    ensures r.imageUrl == e.imageUrl && r.selectedId == e.selectedId && |r.overlays| == |e.overlays|
    ensures forall k :: 0 <= k < |r.overlays| ==>
              r.overlays[k] == if e.overlays[k].id == id then e.overlays[k].(x := x, y := y) else e.overlays[k]
  {
    e.(overlays := UpdateWhere(e.overlays, id, (o: Overlay) => o.(x := x, y := y)))
  }

  /** The selection follows an update: the selected overlay becomes its
      updated self, since no update changes an id. */
  lemma {:induction false} FindAfterUpdate(overlays: seq<Overlay>, id: int, change: Overlay -> Overlay, sid: int)
    requires forall o :: change(o).id == o.id
    ensures FindById(UpdateWhere(overlays, id, change), sid)
            == match FindById(overlays, sid)
               case Some(o) => Some(if sid == id then change(o) else o)
               case None => None
  {
    if overlays != [] {
      FindAfterUpdate(overlays[1..], id, change, sid);
      var r := UpdateWhere(overlays, id, change);
      assert r[1..] == UpdateWhere(overlays[1..], id, change);
    }
  }

  /** Moving the selected overlay to where it already is changes nothing
      when its id is unique, so a drag that does not move is harmless. */
  lemma {:induction false} MoveInPlace(overlays: seq<Overlay>, k: nat)
    requires k < |overlays|
    requires forall j :: 0 <= j < |overlays| && j != k ==> overlays[j].id != overlays[k].id
    ensures UpdateWhere(overlays, overlays[k].id, (o: Overlay) => o.(x := overlays[k].x, y := overlays[k].y)) == overlays
  {
    var r := UpdateWhere(overlays, overlays[k].id, (o: Overlay) => o.(x := overlays[k].x, y := overlays[k].y));
    assert forall j :: 0 <= j < |overlays| ==> r[j] == overlays[j];
  }

  /** Keeps the overlays whose id is not `id`. */
  function Others(id: int): Overlay -> bool
  {
    (o: Overlay) => o.id != id
  }

  /** `handleDeleteText(id)`: removes every overlay with the id and clears
      the selection if it was that id. */
  function DeleteText(e: Editor, id: int): (r: Editor)
    ensures r.imageUrl == e.imageUrl
    ensures forall k :: 0 <= k < |r.overlays| ==> r.overlays[k].id != id
    ensures forall k :: 0 <= k < |e.overlays| && e.overlays[k].id != id ==> e.overlays[k] in r.overlays
    ensures r.selectedId == None <==> e.selectedId == None || e.selectedId == Some(id)
    ensures r.selectedId != None ==> r.selectedId == e.selectedId
  {
    var kept := Filter(e.overlays, Others(id));
    Editor(e.imageUrl, kept, if e.selectedId == Some(id) then None else e.selectedId)
  }

  /** Deleting keeps the other overlays in their order and with their
      multiplicity: deletion from a joined list deletes from each part, and
      every other overlay occurs as often as before. */
  lemma DeleteKeepsOthers(e: Editor, id: int, a: seq<Overlay>, b: seq<Overlay>, o: Overlay)
    requires e.overlays == a + b
    ensures DeleteText(e, id).overlays == DeleteText(e.(overlays := a), id).overlays + DeleteText(e.(overlays := b), id).overlays
    ensures multiset(DeleteText(e, id).overlays)[o] == if o.id == id then 0 else multiset(e.overlays)[o]
  {
    FilterAppend(a, b, Others(id));
    FilterCount(e.overlays, Others(id), o);
  }

  /** `selectedText`: the first overlay with the selected id, if any. */
  function SelectedText(e: Editor): (r: Option<Overlay>)
    ensures e.selectedId == None ==> r == None
    ensures e.selectedId != None ==> r == FindById(e.overlays, e.selectedId.value)
  {
    match e.selectedId
    case None => None
    case Some(id) => FindById(e.overlays, id)
  }

  /** After adding text with a fresh id, the selected text is the new overlay. */
  lemma AddSelectsNew(e: Editor, now: int)
    requires forall k :: 0 <= k < |e.overlays| ==> e.overlays[k].id != now
    ensures SelectedText(AddText(e, now)) == Some(NewOverlay(now, e.imageUrl != ""))
  {
    var r := AddText(e, now);
    assert r.overlays == e.overlays + [NewOverlay(now, e.imageUrl != "")];
    var f := FindById(r.overlays, now);
    if f.Some? {
      var k :| 0 <= k < |r.overlays| && r.overlays[k] == f.value && f.value.id == now
               && forall j :: 0 <= j < k ==> r.overlays[j].id != now;
      assert k == |e.overlays|;
    }
  }

  /** Deleting an id other than the selected one does not change the
      selected text; deleting the selected id leaves nothing selected. */
  lemma {:induction false} DeleteSelection(e: Editor, id: int)
    ensures e.selectedId == Some(id) ==> SelectedText(DeleteText(e, id)) == None
    ensures e.selectedId != Some(id) ==> SelectedText(DeleteText(e, id)) == SelectedText(e)
  {
    if e.selectedId.Some? && e.selectedId.value != id {
      FindFiltered(e.overlays, id, e.selectedId.value);
    }
  }

  lemma {:induction false} FindFiltered(overlays: seq<Overlay>, id: int, sid: int)
    requires sid != id
    ensures FindById(Filter(overlays, Others(id)), sid) == FindById(overlays, sid)
  {
    if overlays != [] {
      var head, tail := overlays[0], overlays[1..];
      var ft := Filter(tail, Others(id));
      FindFiltered(tail, id, sid);
      if head.id == id {
        assert Filter(overlays, Others(id)) == ft;
        assert FindById(overlays, sid) == FindById(tail, sid);
      } else {
        assert Filter(overlays, Others(id)) == [head] + ft;
        assert ([head] + ft)[0] == head && ([head] + ft)[1..] == ft;
      }
    }
  }
}
