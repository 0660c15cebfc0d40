/** `src/components/MemeCanvas.jsx`: mapping a mouse position from the
    displayed canvas to image pixels, finding the topmost overlay under the
    mouse, and the press/move/release state machine that drags it. */
module MemeCanvas {
  import opened Optional
  import opened Canvas
  import opened MemeText
  import opened Overlays

  /** The canvas element's bounding box on screen. */
  datatype Rect = Rect(left: real, top: real, width: real, height: real)

  datatype Point = Point(x: real, y: real)

  /** `getTextPosition(e)`: the mouse's offset into the box, scaled by the
      ratio of the bitmap size to the displayed size. A box of zero width or
      height receives no mouse events. */
  function TextPosition(canvasWidth: nat, canvasHeight: nat, rect: Rect, clientX: real, clientY: real): Point
    requires rect.width != 0.0 && rect.height != 0.0
  {
    Point((clientX - rect.left) * (canvasWidth as real / rect.width),
          (clientY - rect.top) * (canvasHeight as real / rect.height))
  }

  /** Where an image pixel is displayed, the inverse scaling. */
  function DisplayPosition(canvasWidth: nat, canvasHeight: nat, rect: Rect, p: Point): (r: Point)
    requires canvasWidth > 0 && canvasHeight > 0
  {
    Point(rect.left + p.x * (rect.width / canvasWidth as real), rect.top + p.y * (rect.height / canvasHeight as real))
  }

  /** Scaling is exact: the displayed point of a mouse's image position is
      the mouse itself, and the box's corners map to the bitmap's corners. */
  lemma TextPositionInverse(canvasWidth: nat, canvasHeight: nat, rect: Rect, clientX: real, clientY: real)
    requires rect.width != 0.0 && rect.height != 0.0
    requires canvasWidth > 0 && canvasHeight > 0
    ensures DisplayPosition(canvasWidth, canvasHeight, rect, TextPosition(canvasWidth, canvasHeight, rect, clientX, clientY))
            == Point(clientX, clientY)
    ensures TextPosition(canvasWidth, canvasHeight, rect, rect.left, rect.top) == Point(0.0, 0.0)
    ensures TextPosition(canvasWidth, canvasHeight, rect, rect.left + rect.width, rect.top + rect.height)
            == Point(canvasWidth as real, canvasHeight as real)
  {
    var w, h := canvasWidth as real, canvasHeight as real;
    var p := TextPosition(canvasWidth, canvasHeight, rect, clientX, clientY);
    calc {
      p.x * (rect.width / w);
      (clientX - rect.left) * ((w / rect.width) * (rect.width / w));
      { assert (w / rect.width) * (rect.width / w) == 1.0; }
      clientX - rect.left;
    }
    calc {
      p.y * (rect.height / h);
      (clientY - rect.top) * ((h / rect.height) * (rect.height / h));
      { assert (h / rect.height) * (rect.height / h) == 1.0; }
      clientY - rect.top;
    }
    assert rect.width * (w / rect.width) == w;
    assert rect.height * (h / rect.height) == h;
  }

  /** The closed box the hit test tries: the measured width of the whole
      text, centred on the anchor, by `fontSize`, centred likewise. */
  predicate InBox(o: Overlay, textWidth: real, x: real, y: real)
  {
    && o.x - textWidth / 2.0 <= x <= o.x + textWidth / 2.0
    && o.y - o.fontSize as real / 2.0 <= y <= o.y + o.fontSize as real / 2.0
  }

  /** The context's font when the scan from the last overlay down reaches
      overlay `j`, having set the caption font of overlays `|overlays|-1`
      down to `j`, starting from `font`. */
  function FontAt(overlays: seq<Overlay>, j: nat, font: Font): Font
    requires j <= |overlays|
    decreases |overlays| - j
  {
    if j == |overlays| then font else FontAfter(FontAt(overlays, j + 1, font), overlays[j].fontSize)
  }

  /** Overlay `j` is under the point in the font the scan measures it with. */
  predicate HitAt(overlays: seq<Overlay>, j: nat, x: real, y: real, measure: Metrics, font: Font)
    requires j < |overlays|
  {
    InBox(overlays[j], measure(FontAt(overlays, j, font), overlays[j].text), x, y)
  }

  /** The last overlay below index `i` under the point: overlays later in
      the list are drawn later, on top. */
  function HitIndex(overlays: seq<Overlay>, i: nat, x: real, y: real, measure: Metrics, font: Font): (r: Option<nat>)
    requires i <= |overlays|
    ensures r.Some? ==> r.value < i && HitAt(overlays, r.value, x, y, measure, font)
                        && forall j :: r.value < j < i ==> !HitAt(overlays, j, x, y, measure, font)
    ensures r.None? <==> forall j :: 0 <= j < i ==> !HitAt(overlays, j, x, y, measure, font)
  {
    if i == 0 then None
    else if HitAt(overlays, i - 1, x, y, measure, font) then Some(i - 1)
    else HitIndex(overlays, i - 1, x, y, measure, font)
  }

  /** The id `findTextAtPosition` returns: the topmost overlay under the point. */
  function Topmost(overlays: seq<Overlay>, x: real, y: real, measure: Metrics, font: Font): Option<int>
  {
    match HitIndex(overlays, |overlays|, x, y, measure, font)
    case Some(k) => Some(overlays[k].id)
    case None => None
  }

  /** Where the scan stops: at the hit, or after the first overlay. */
  function StopIndex(overlays: seq<Overlay>, x: real, y: real, measure: Metrics, font: Font): nat
  {
    match HitIndex(overlays, |overlays|, x, y, measure, font)
    case Some(k) => k
    case None => 0
  }

  /** The context's state after a hit test at `(x, y)` from `style`: the
      caption font of the last overlay tried, centred and middle, or `style`
      itself when there is no overlay to try. */
  function StyleAfterHitTest(style: Style, overlays: seq<Overlay>, x: real, y: real, measure: Metrics): Style
  {
    if overlays == [] then style
    else style.(look := TextLook(FontAt(overlays, StopIndex(overlays, x, y, measure, style.look.font), style.look.font), "center", "middle"))
  }

  /** `findTextAtPosition(x, y)`: tries the overlays from the last to the
      first, setting the caption font and alignment on the context before
      measuring each, and returns the id of the first one whose box holds
      the point. The context keeps the font and alignment of the last
      overlay tried. */
  method FindTextAtPosition(ctx: Surface, overlays: seq<Overlay>, x: real, y: real) returns (id: Option<int>)
    modifies ctx`style
    ensures id == Topmost(overlays, x, y, ctx.measure, old(ctx.style.look.font))
    ensures ctx.style == StyleAfterHitTest(old(ctx.style), overlays, x, y, ctx.measure)
  {
    ghost var font := ctx.style.look.font;
    ghost var all := HitIndex(overlays, |overlays|, x, y, ctx.measure, font);
    var i := |overlays|;
    while i > 0
      invariant 0 <= i <= |overlays|
      invariant all == HitIndex(overlays, i, x, y, ctx.measure, font)
      invariant ctx.style == if i == |overlays| then old(ctx.style)
                             else old(ctx.style).(look := TextLook(FontAt(overlays, i, font), "center", "middle"))
      decreases i
    {
      i := i - 1;
      var o := overlays[i];
      SetCaptionFont(ctx, o.fontSize);
      var textWidth := ctx.MeasureText(o.text);
      var textHeight := o.fontSize as real;
      var left := o.x - textWidth / 2.0;
      var right := o.x + textWidth / 2.0;
      var top := o.y - textHeight / 2.0;
      var bottom := o.y + textHeight / 2.0;
      if x >= left && x <= right && y >= top && y <= bottom {
        assert HitAt(overlays, i, x, y, ctx.measure, font);
        return Some(o.id);
      }
    }
    return None;
  }

  /** When nothing lies under the point the result is `null`; when an id
      comes back, an overlay with that id lies under the point and no later
      overlay does. */
  lemma TopmostSpec(overlays: seq<Overlay>, x: real, y: real, measure: Metrics, font: Font)
    ensures Topmost(overlays, x, y, measure, font).None?
            <==> forall j :: 0 <= j < |overlays| ==> !HitAt(overlays, j, x, y, measure, font)
    ensures Topmost(overlays, x, y, measure, font).Some? ==>
              exists k :: 0 <= k < |overlays| && overlays[k].id == Topmost(overlays, x, y, measure, font).value
                          && HitAt(overlays, k, x, y, measure, font)
                          && forall j :: k < j < |overlays| ==> !HitAt(overlays, j, x, y, measure, font)
  {
    var r := HitIndex(overlays, |overlays|, x, y, measure, font);
    if r.Some? {
      assert overlays[r.value].id == Topmost(overlays, x, y, measure, font).value;
    }
  }

  /** With a non-negative text width, an overlay's own anchor is inside its
      box, so pressing on the anchor of the last overlay always picks it. */
  lemma AnchorHitsLast(overlays: seq<Overlay>, measure: Metrics, font: Font)
    requires overlays != []
    requires overlays[|overlays| - 1].fontSize >= 0
    requires measure(FontAt(overlays, |overlays| - 1, font), overlays[|overlays| - 1].text) >= 0.0
    ensures Topmost(overlays, overlays[|overlays| - 1].x, overlays[|overlays| - 1].y, measure, font)
            == Some(overlays[|overlays| - 1].id)
  {
  }

  /** A requested move of overlay `id` to `(x, y)`: the `onTextMove` callback. */
  datatype Move = Move(id: int, x: real, y: real)

  /** The drag state of the component: `isDragging`, `dragOffset` and
      `dragTextId`. */
  class DragController {
    var dragging: bool
    var offset: Point
    var dragId: Option<int>

    constructor ()
      ensures !dragging && offset == Point(0.0, 0.0) && dragId == None
    {
      dragging, offset, dragId := false, Point(0.0, 0.0), None;
    }

    /** `handleMouseDown`: the topmost overlay under the mouse (an id of
        0 is falsy and counts as a miss) starts a drag, keeping the
        mouse's offset from the anchor of the first overlay with that id,
        and is selected; a miss selects nothing and leaves the drag state
        alone. The result is the id passed to `onTextSelect`. */
    method MouseDown(ctx: Surface, overlays: seq<Overlay>, rect: Rect, clientX: real, clientY: real)
      returns (selected: Option<int>)
      requires rect.width != 0.0 && rect.height != 0.0
      modifies this, ctx`style
      ensures var pos := TextPosition(ctx.width, ctx.height, rect, clientX, clientY);
              var hit := Topmost(overlays, pos.x, pos.y, ctx.measure, old(ctx.style.look.font));
              if hit.Some? && hit.value != 0 then
                && FindById(overlays, hit.value).Some?
                && selected == hit && dragging && dragId == hit
                && offset == Point(pos.x - FindById(overlays, hit.value).value.x, pos.y - FindById(overlays, hit.value).value.y)
              else
                selected == None && dragging == old(dragging) && dragId == old(dragId) && offset == old(offset)
      ensures var pos := TextPosition(ctx.width, ctx.height, rect, clientX, clientY);
              ctx.style == StyleAfterHitTest(old(ctx.style), overlays, pos.x, pos.y, ctx.measure)
    {
      var pos := TextPosition(ctx.width, ctx.height, rect, clientX, clientY);
      ghost var font := ctx.style.look.font;
      var textId := FindTextAtPosition(ctx, overlays, pos.x, pos.y);
      if textId.Some? && textId.value != 0 {
        TopmostSpec(overlays, pos.x, pos.y, ctx.measure, font);
        var found := FindById(overlays, textId.value);
        var overlay := found.value;
        dragging := true;
        dragId := textId;
        offset := Point(pos.x - overlay.x, pos.y - overlay.y);
        selected := textId;
      } else {
        selected := None;
      }
    }

    /** `handleMouseMove`: while a drag is on (and its id is truthy) the
        dragged overlay is moved so that it keeps its offset from the
        mouse; otherwise nothing is requested. */
    method MouseMove(ctx: Surface, rect: Rect, clientX: real, clientY: real) returns (move: Option<Move>)
      requires dragging && dragId.Some? && dragId.value != 0 ==> rect.width != 0.0 && rect.height != 0.0
      ensures dragging && dragId.Some? && dragId.value != 0 ==>
                var pos := TextPosition(ctx.width, ctx.height, rect, clientX, clientY);
                move == Some(Move(dragId.value, pos.x - offset.x, pos.y - offset.y))
      ensures !(dragging && dragId.Some? && dragId.value != 0) ==> move == None
    {
      if dragging && dragId.Some? && dragId.value != 0 {
        var pos := TextPosition(ctx.width, ctx.height, rect, clientX, clientY);
        move := Some(Move(dragId.value, pos.x - offset.x, pos.y - offset.y));
      } else {
        move := None;
      }
    }

    /** `handleMouseUp`, also bound to `mouseleave`: the drag ends. */
    method MouseUp()
      modifies this
      ensures !dragging && dragId == None && offset == old(offset)
    {
      dragging := false;
      dragId := None;
    }

    /** Pressing on an overlay and moving without moving the mouse asks
        to move the pressed overlay to where it already is. */
    method PressInPlace(ctx: Surface, overlays: seq<Overlay>, rect: Rect, clientX: real, clientY: real)
      returns (selected: Option<int>, move: Option<Move>)
      requires rect.width != 0.0 && rect.height != 0.0
      modifies this, ctx`style
      ensures selected.Some? ==>
                FindById(overlays, selected.value).Some?
                && move == Some(Move(selected.value, FindById(overlays, selected.value).value.x, FindById(overlays, selected.value).value.y))
      ensures selected.None? && !old(dragging) ==> move == None
      ensures var pos := TextPosition(ctx.width, ctx.height, rect, clientX, clientY);
              ctx.style == StyleAfterHitTest(old(ctx.style), overlays, pos.x, pos.y, ctx.measure)
    {
      selected := MouseDown(ctx, overlays, rect, clientX, clientY);
      move := MouseMove(ctx, rect, clientX, clientY);
    }
  }
}
