/** The part of an HTML canvas and its 2D rendering context that the meme
    editor touches: the bitmap size, the drawing state it sets before each
    text draw (font, alignment, stroke and fill settings) with its
    save/restore stack, and the draws themselves, kept as a log of draw
    operations in place of pixels. The rules for ignored assignments and
    for resizing follow the HTML Standard's canvas section. */
module Canvas {

  /** A CSS font: `${px}px ${family}`. */
  datatype Font = Font(px: int, family: string)

  /** The family list the editor always uses. */
  const MemeFamily: string := "Impact, Arial, sans-serif"

  /** `measureText(text).width` under a font; the host's text shaping is not
      modelled, so every model that measures takes it as a parameter. */
  type Metrics = (Font, string) -> real

  /** Drawing state used by `strokeText` and `fillText`. */
  datatype TextLook = TextLook(font: Font, align: string, baseline: string)

  /** Drawing state used by `strokeText` only. */
  datatype Pen = Pen(color: string, width: real, join: string, miterLimit: real)

  datatype Style = Style(look: TextLook, pen: Pen, fill: string)

  /** The state of a fresh context (or of one whose canvas was resized). */
  const DefaultStyle: Style :=
    Style(TextLook(Font(10, "sans-serif"), "start", "alphabetic"), Pen("#000000", 1.0, "miter", 10.0), "#000000")

  /** A decoded image at its native size. */
  datatype Image = Image(width: nat, height: nat)

  /** One call that put pixels on the bitmap, with the state it used. */
  datatype DrawOp =
    | ImageOp(image: Image, dx: real, dy: real)
    | StrokeOp(text: string, x: real, y: real, look: TextLook, pen: Pen)
    | FillOp(text: string, x: real, y: real, look: TextLook, color: string)

  /** A canvas element together with its 2D context. */
  class Surface {
    var width: nat
    var height: nat
    var style: Style
    var saved: seq<Style>
    var ops: seq<DrawOp>
    const measure: Metrics

    /** A new canvas is 300 by 150, blank, in the default state. */
    constructor (measure: Metrics)
      ensures width == 300 && height == 150
      ensures style == DefaultStyle && saved == [] && ops == []
      ensures this.measure == measure
    {
      width, height := 300, 150;
      style, saved, ops := DefaultStyle, [], [];
      this.measure := measure;
    }

    /** `canvas.width = w`: any assignment, even of the same value, clears
        the bitmap and resets the context's state. */
    method SetWidth(w: nat)
      modifies this
      ensures width == w && height == old(height)
      ensures style == DefaultStyle && saved == [] && ops == []
    {
      width := w;
      style, saved, ops := DefaultStyle, [], [];
    }

    /** `canvas.height = h`, with the same reset. */
    method SetHeight(h: nat)
      modifies this
      ensures height == h && width == old(width)
      ensures style == DefaultStyle && saved == [] && ops == []
    {
      height := h;
      style, saved, ops := DefaultStyle, [], [];
    }

    method Save()
      modifies this`saved
      ensures saved == old(saved) + [style]
    {
      saved := saved + [style];
    }

    /** `restore()` pops the last saved state; with none saved it does nothing. */
    method Restore()
      modifies this`style, this`saved
      ensures old(saved) == [] ==> style == old(style) && saved == []
      ensures old(saved) != [] ==> style == old(saved)[|old(saved)| - 1] && saved == old(saved)[..|old(saved)| - 1]
    {
      if saved != [] {
        style := saved[|saved| - 1];
        saved := saved[..|saved| - 1];
      }
    }

    /** `ctx.font = ...`: a negative size is not a valid CSS font and is ignored. */
    method SetFont(f: Font)
      modifies this`style
      ensures style == if f.px >= 0 then old(style).(look := old(style).look.(font := f)) else old(style)
    {
      if f.px >= 0 {
        style := style.(look := style.look.(font := f));
      }
    }

    method SetTextAlign(a: string)
      modifies this`style
      ensures style == old(style).(look := old(style).look.(align := a))
    {
      style := style.(look := style.look.(align := a));
    }

    method SetTextBaseline(b: string)
      modifies this`style
      ensures style == old(style).(look := old(style).look.(baseline := b))
    {
      style := style.(look := style.look.(baseline := b));
    }

    method SetStrokeStyle(c: string)
      modifies this`style
      ensures style == old(style).(pen := old(style).pen.(color := c))
    {
      style := style.(pen := style.pen.(color := c));
    }

    /** `ctx.lineWidth = w`: zero and negative widths are ignored. */
    method SetLineWidth(w: real)
      modifies this`style
      ensures style == if w > 0.0 then old(style).(pen := old(style).pen.(width := w)) else old(style)
    {
      if w > 0.0 {
        style := style.(pen := style.pen.(width := w));
      }
    }

    method SetLineJoin(j: string)
      modifies this`style
      ensures style == old(style).(pen := old(style).pen.(join := j))
    {
      style := style.(pen := style.pen.(join := j));
    }

    /** `ctx.miterLimit = m`: zero and negative limits are ignored. */
    method SetMiterLimit(m: real)
      modifies this`style
      ensures style == if m > 0.0 then old(style).(pen := old(style).pen.(miterLimit := m)) else old(style)
    {
      if m > 0.0 {
        style := style.(pen := style.pen.(miterLimit := m));
      }
    }

    method SetFillStyle(c: string)
      modifies this`style
      ensures style == old(style).(fill := c)
    {
      style := style.(fill := c);
    }

    /** `ctx.measureText(text).width` under the current font. */
    function MeasureText(text: string): real
      reads this
    {
      measure(style.look.font, text)
    }

    method DrawImage(img: Image, dx: real, dy: real)
      modifies this`ops
      ensures ops == old(ops) + [ImageOp(img, dx, dy)]
    {
      ops := ops + [ImageOp(img, dx, dy)];
    }

    method StrokeText(text: string, x: real, y: real)
      modifies this`ops
      ensures ops == old(ops) + [StrokeOp(text, x, y, style.look, style.pen)]
    {
      ops := ops + [StrokeOp(text, x, y, style.look, style.pen)];
    }

    method FillText(text: string, x: real, y: real)
      modifies this`ops
      ensures ops == old(ops) + [FillOp(text, x, y, style.look, style.fill)]
    {
      ops := ops + [FillOp(text, x, y, style.look, style.fill)];
    }
  }
}
