/** A text overlay of the meme editor, the record `src/pages/CreatePage.jsx`
    creates and every other part of the editor reads. */
module Overlays {
  import opened Optional

  /** `{ id, text, x, y, fontSize, textColor, borderWidth }`; `textColor` is
      the empty string where the record holds a falsy colour. */
  datatype Overlay = Overlay(id: int, text: string, x: real, y: real, fontSize: int, textColor: string, borderWidth: int)

  /** `overlays.find(o => o.id === id)`: the first overlay with that id. */
  function FindById(overlays: seq<Overlay>, id: int): (r: Option<Overlay>)
    ensures r.Some? ==> exists k :: 0 <= k < |overlays| && overlays[k] == r.value && r.value.id == id
                          && forall j :: 0 <= j < k ==> overlays[j].id != id
    ensures r.None? <==> forall k :: 0 <= k < |overlays| ==> overlays[k].id != id
  {
    if overlays == [] then None
    else if overlays[0].id == id then Some(overlays[0])
    else
      var r := FindById(overlays[1..], id);
      assert forall k :: 1 <= k < |overlays| ==> overlays[k] == overlays[1..][k - 1];
      r
  }
}
