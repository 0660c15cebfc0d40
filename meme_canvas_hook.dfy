/** `src/hooks/useMemeCanvas.js`: the effect that renders the meme. Once
    the image has loaded, the canvas takes the image's native size, the
    image is drawn at the origin, and every overlay is drawn on top in list
    order as an outline and a fill of its whole text at its anchor. */
module MemeCanvasHook {
  import opened Optional
  import opened Canvas
  import opened MemeText
  import opened Overlays
  import TextWrapping

  /** The two draws of one overlay on a freshly sized canvas: each overlay
      is drawn between `save()` and `restore()`, so it starts from the
      default state. */
  function OverlayOps(o: Overlay): seq<DrawOp>
  {
    TextWrapping.LineOps(o.text, o.x, o.y, CaptionLook(DefaultStyle.look, o.fontSize),
                         OutlinePen(DefaultStyle.pen, o.borderWidth), FillColor(o.textColor))
  }

  /** The draws of all overlays, in list order. */
  function OverlaysOps(overlays: seq<Overlay>): seq<DrawOp>
    decreases |overlays|
  {
    if overlays == [] then [] else OverlaysOps(overlays[..|overlays| - 1]) + OverlayOps(overlays[|overlays| - 1])
  }

  /** Everything on the canvas after a render: the image, then the overlays. */
  function SceneOps(img: Image, overlays: seq<Overlay>): seq<DrawOp>
  {
    [ImageOp(img, 0.0, 0.0)] + OverlaysOps(overlays)
  }

  /** The scene holds the image at `(0, 0)` first and nowhere else, then
      for overlay `k` an outline (draw `1 + 2k`) and a fill (draw `2 + 2k`)
      of its full text at its anchor, outlined with `borderWidth || 4` and
      filled with `textColor || '#FFFFFF'`. */
  lemma {:induction false} SceneOpsAt(img: Image, overlays: seq<Overlay>)
    ensures |SceneOps(img, overlays)| == 1 + 2 * |overlays|
    ensures SceneOps(img, overlays)[0] == ImageOp(img, 0.0, 0.0)
    ensures forall j :: 1 <= j < |SceneOps(img, overlays)| ==> !SceneOps(img, overlays)[j].ImageOp?
    ensures forall k :: 0 <= k < |overlays| ==>
              var o := overlays[k];
              var look := CaptionLook(DefaultStyle.look, o.fontSize);
              SceneOps(img, overlays)[1 + 2 * k] == StrokeOp(o.text, o.x, o.y, look, OutlinePen(DefaultStyle.pen, o.borderWidth))
              && SceneOps(img, overlays)[2 + 2 * k] == FillOp(o.text, o.x, o.y, look, FillColor(o.textColor))
    decreases |overlays|
  {
    if overlays != [] {
      var n := |overlays| - 1;
      SceneOpsAt(img, overlays[..n]);
      var front := SceneOps(img, overlays[..n]);
      var ops := SceneOps(img, overlays);
      assert ops == front + OverlayOps(overlays[n]);
      forall k | 0 <= k < n
        ensures ops[1 + 2 * k] == front[1 + 2 * k] && ops[2 + 2 * k] == front[2 + 2 * k]
      {
      }
      assert forall k :: 0 <= k < n ==> overlays[..n][k] == overlays[k];
    }
  }

  /** An overlay whose text fits on one line is drawn exactly as
      `drawWrappedText` would draw it from the default state. */
  lemma OverlayAsWrapped(o: Overlay, maxWidth: real, measure: Metrics)
    requires |TextWrapping.Wrap(o.text, maxWidth, measure, CaptionLook(DefaultStyle.look, o.fontSize).font)| == 1
    ensures OverlayOps(o) == TextWrapping.WrappedOps(DefaultStyle, o.text, o.x, o.y, maxWidth, o.fontSize, o.textColor, o.borderWidth, measure)
  {
    TextWrapping.SingleLineAtAnchor(DefaultStyle, o.text, o.x, o.y, maxWidth, o.fontSize, o.textColor, o.borderWidth, measure);
  }

  /** The effect body for one run: nothing happens without a canvas or an
      image URL (the empty string stands for a falsy URL), nor when the image
      never loads (`loaded` is `None`); otherwise the load handler sizes the
      canvas to the image and draws the scene. */
  method Render(canvas: Surface?, imageUrl: string, loaded: Option<Image>, overlays: seq<Overlay>)
    modifies canvas
    ensures canvas != null && (imageUrl == "" || loaded.None?) ==> unchanged(canvas)
    ensures canvas != null && imageUrl != "" && loaded.Some? ==>
              && canvas.width == loaded.value.width && canvas.height == loaded.value.height
              && canvas.style == DefaultStyle && canvas.saved == []
              && canvas.ops == SceneOps(loaded.value, overlays)
  {
    if imageUrl == "" || canvas == null {
      return;
    }
    if loaded.None? {
      return;
    }
    var img := loaded.value;
    canvas.SetWidth(img.width);
    canvas.SetHeight(img.height);
    canvas.DrawImage(img, 0.0, 0.0);
    for i := 0 to |overlays|
      invariant canvas.width == img.width && canvas.height == img.height
      invariant canvas.style == DefaultStyle && canvas.saved == []
      invariant canvas.ops == SceneOps(img, overlays[..i])
    {
      var o := overlays[i];
      canvas.Save();
      SetCaptionFont(canvas, o.fontSize);
      TextWrapping.DrawCaptionLine(canvas, o.text, o.x, o.y, o.borderWidth, o.textColor);
      canvas.Restore();
      assert overlays[..i + 1][..i] == overlays[..i];
    }
    assert overlays[..|overlays|] == overlays;
  }
}
