/** The caption style shared by every place that draws or measures a meme
    caption (`src/utils/textWrapping.js`, `src/hooks/useMemeCanvas.js`,
    `src/components/MemeCanvas.jsx`): an Impact font of the caption's size,
    centred on its anchor both ways, a black round-joined outline and a
    coloured fill. */
module MemeText {
  import opened Canvas

  /** `${fontSize}px Impact, Arial, sans-serif`. */
  function MemeFont(fontSize: int): Font
  {
    Font(fontSize, MemeFamily)
  }

  /** The font a context holds after `ctx.font` is assigned the caption font:
      a negative size is not a valid font and leaves the old one. */
  function FontAfter(prev: Font, fontSize: int): Font
  {
    if fontSize >= 0 then MemeFont(fontSize) else prev
  }

  /** The text look after setting the caption font, `textAlign = 'center'`
      and `textBaseline = 'middle'`. */
  function CaptionLook(prev: TextLook, fontSize: int): TextLook
  {
    TextLook(FontAfter(prev.font, fontSize), "center", "middle")
  }

  /** The three assignments that set a caption's font, centred both ways. */
  method SetCaptionFont(ctx: Surface, fontSize: int)
    modifies ctx`style
    ensures ctx.style == old(ctx.style).(look := CaptionLook(old(ctx.style).look, fontSize))
  {
    ctx.SetFont(MemeFont(fontSize));
    ctx.SetTextAlign("center");
    ctx.SetTextBaseline("middle");
  }

  /** `borderWidth || 4`: a zero border width falls back to 4. */
  function OutlineWidth(borderWidth: int): real
  {
    if borderWidth == 0 then 4.0 else borderWidth as real
  }

  /** The pen after `strokeStyle = '#000000'`, `lineWidth = borderWidth || 4`,
      `lineJoin = 'round'` and `miterLimit = 2`; a negative width is ignored
      by the context and leaves the old one. */
  function OutlinePen(prev: Pen, borderWidth: int): Pen
  {
    var w := OutlineWidth(borderWidth);
    Pen("#000000", if w > 0.0 then w else prev.width, "round", 2.0)
  }

  /** `textColor || '#FFFFFF'`: an empty colour falls back to white. */
  function FillColor(textColor: string): string
  {
    if textColor == "" then "#FFFFFF" else textColor
  }

  /** Setting the outline pen twice is setting it once, which is why a loop
      that sets it before every line draws every line with the same pen. */
  lemma OutlinePenIdempotent(p: Pen, borderWidth: int)
    ensures OutlinePen(OutlinePen(p, borderWidth), borderWidth) == OutlinePen(p, borderWidth)
  {
  }

  /** What the outline pen and fill colour are for each border width and colour. */
  lemma CaptionDefaults(p: Pen, borderWidth: int, textColor: string)
    ensures OutlinePen(p, borderWidth).color == "#000000"
    ensures borderWidth == 0 ==> OutlinePen(p, borderWidth).width == 4.0
    ensures borderWidth > 0 ==> OutlinePen(p, borderWidth).width == borderWidth as real
    ensures borderWidth < 0 ==> OutlinePen(p, borderWidth).width == p.width
    ensures FillColor(textColor) == if textColor == "" then "#FFFFFF" else textColor
  {
  }
}
