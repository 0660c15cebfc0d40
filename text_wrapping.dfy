/** `src/utils/textWrapping.js`: greedy word wrapping against a width
    measured by the canvas, and drawing of the wrapped block as an outline
    pass and a fill pass per line, centred on an anchor point. */
module TextWrapping {
  import opened JsStrings
  import opened Canvas
  import opened MemeText

  /** The lines produced by packing the words `rest` after the partly built
      line `current`: each word joins the current line when the widened line
      still measures below `maxWidth`, and otherwise starts a new line. */
  function Pack(current: string, rest: seq<string>, maxWidth: real, measure: Metrics, font: Font): (lines: seq<string>)
    ensures |lines| >= 1
    decreases |rest|
  {
    if rest == [] then [current]
    else
      var candidate := current + " " + rest[0];
      if measure(font, candidate) < maxWidth then Pack(candidate, rest[1..], maxWidth, measure, font)
      else [current] + Pack(rest[0], rest[1..], maxWidth, measure, font)
  }

  /** The lines `wrapText` returns for `text` when the context's font is `font`. */
  function Wrap(text: string, maxWidth: real, measure: Metrics, font: Font): (lines: seq<string>)
    ensures |lines| >= 1
  {
    var words := Split(text, ' ');
    Pack(words[0], words[1..], maxWidth, measure, font)
  }

  /** `wrapText(ctx, text, maxWidth)`: the loop over the words, measuring
      with the context's current font. */
  method WrapText(ctx: Surface, text: string, maxWidth: real) returns (lines: seq<string>)
    ensures lines == Wrap(text, maxWidth, ctx.measure, ctx.style.look.font)
  {
    var words := Split(text, ' ');
    lines := [];
    var currentLine := words[0];
    for i := 1 to |words|
      invariant lines + Pack(currentLine, words[i..], maxWidth, ctx.measure, ctx.style.look.font)
                == Wrap(text, maxWidth, ctx.measure, ctx.style.look.font)
    {
      var word := words[i];
      assert words[i..][1..] == words[i + 1..];
      var width := ctx.MeasureText(currentLine + " " + word);
      if width < maxWidth {
        currentLine := currentLine + " " + word;
      } else {
        lines := lines + [currentLine];
        currentLine := word;
      }
    }
    lines := lines + [currentLine];
  }

  /** The words of a sequence of lines, line after line. */
  function LinesWords(lines: seq<string>): seq<string>
  {
    if lines == [] then [] else Split(lines[0], ' ') + LinesWords(lines[1..])
  }

  /** The first word of a line. */
  function FirstWord(line: string): string
  {
    Split(line, ' ')[0]
  }

  /** Every word-boundary prefix of `line` longer than its first word
      measures below `maxWidth`: each word appended to the line fitted when
      it was appended. */
  ghost predicate PrefixesFit(line: string, maxWidth: real, measure: Metrics, font: Font)
  {
    var ws := Split(line, ' ');
    forall j :: 2 <= j <= |ws| ==> measure(font, Join(ws[..j], ' ')) < maxWidth
  }

  /** A line break is forced: the line with the next line's first word
      appended would not measure below `maxWidth`. */
  ghost predicate BreakForced(line: string, next: string, maxWidth: real, measure: Metrics, font: Font)
  {
    measure(font, line + " " + FirstWord(next)) >= maxWidth
  }

  /** A greedy layout of `text`: at least one line, the words of the lines
      are exactly the words of the text, every appended word fitted, and
      every break was forced. */
  ghost predicate GreedyLayout(text: string, lines: seq<string>, maxWidth: real, measure: Metrics, font: Font)
  {
    && |lines| >= 1
    && LinesWords(lines) == Split(text, ' ')
    && AllPrefixesFit(lines, maxWidth, measure, font)
    && (forall k :: 0 <= k < |lines| - 1 ==> BreakForced(lines[k], lines[k + 1], maxWidth, measure, font))
  }

  /** No word contains a space. */
  ghost predicate SpaceFree(words: seq<string>)
  {
    forall k :: 0 <= k < |words| ==> ' ' !in words[k]
  }

  lemma LinesWordsAppend(a: seq<string>, b: seq<string>)
    ensures LinesWords(a + b) == LinesWords(a) + LinesWords(b)
  {
    if a == [] {
      assert a + b == b;
    } else {
      assert (a + b)[1..] == a[1..] + b;
      LinesWordsAppend(a[1..], b);
    }
  }

  /** Appending a word with one space appends it to the line's words. */
  lemma WordsOfExtended(line: string, w: string)
    requires ' ' !in w
    ensures Split(line + " " + w, ' ') == Split(line, ' ') + [w]
  {
    SplitConcat(line, ' ', w);
    SplitWithoutSep(w, ' ');
  }

  /** Joining the lines of `Pack` with single spaces gives back the current
      line and the remaining words joined with single spaces. */
  lemma {:induction false} PackJoin(current: string, rest: seq<string>, maxWidth: real, measure: Metrics, font: Font)
    ensures Join(Pack(current, rest, maxWidth, measure, font), ' ') == Join([current] + rest, ' ')
    decreases |rest|
  {
    if rest != [] {
      var candidate := current + " " + rest[0];
      assert [rest[0]] + rest[1..] == rest;
      if measure(font, candidate) < maxWidth {
        PackJoin(candidate, rest[1..], maxWidth, measure, font);
        JoinMerge(current, rest[0], rest[1..], ' ');
        assert [current, rest[0]] + rest[1..] == [current] + rest;
      } else {
        var tail := Pack(rest[0], rest[1..], maxWidth, measure, font);
        PackJoin(rest[0], rest[1..], maxWidth, measure, font);
        JoinCons(current, tail, ' ');
        JoinCons(current, rest, ' ');
      }
    }
  }

  /** Joining the wrapped lines with single spaces reproduces the text
      exactly: no character is lost, added or moved. */
  lemma WrapJoin(text: string, maxWidth: real, measure: Metrics, font: Font)
    ensures Join(Wrap(text, maxWidth, measure, font), ' ') == text
  {
    var words := Split(text, ' ');
    PackJoin(words[0], words[1..], maxWidth, measure, font);
    assert [words[0]] + words[1..] == words;
    JoinSplit(text, ' ');
  }

  /** Wrapping moves whole words: the words of the lines are the words of `rest`
      after those of the current line. */
  lemma {:induction false} PackWords(current: string, rest: seq<string>, maxWidth: real, measure: Metrics, font: Font)
    requires SpaceFree(rest)
    ensures LinesWords(Pack(current, rest, maxWidth, measure, font)) == Split(current, ' ') + rest
    decreases |rest|
  {
    if rest == [] {
    } else {
      var candidate := current + " " + rest[0];
      assert [rest[0]] + rest[1..] == rest;
      WordsOfExtended(current, rest[0]);
      if measure(font, candidate) < maxWidth {
        PackWords(candidate, rest[1..], maxWidth, measure, font);
      } else {
        PackWords(rest[0], rest[1..], maxWidth, measure, font);
        SplitWithoutSep(rest[0], ' ');
        var tail := Pack(rest[0], rest[1..], maxWidth, measure, font);
        assert ([current] + tail)[1..] == tail;
      }
    }
  }

  ghost predicate AllPrefixesFit(lines: seq<string>, maxWidth: real, measure: Metrics, font: Font)
  {
    forall k :: 0 <= k < |lines| ==> PrefixesFit(lines[k], maxWidth, measure, font)
  }

  lemma AllPrefixesFitCons(line: string, tail: seq<string>, maxWidth: real, measure: Metrics, font: Font)
    requires PrefixesFit(line, maxWidth, measure, font)
    requires AllPrefixesFit(tail, maxWidth, measure, font)
    ensures AllPrefixesFit([line] + tail, maxWidth, measure, font)
  {
    var lines := [line] + tail;
    forall k | 0 <= k < |lines| ensures PrefixesFit(lines[k], maxWidth, measure, font) {
      if k == 0 {
        assert lines[k] == line;
      } else {
        assert lines[k] == tail[k - 1];
      }
    }
  }

  /** Appending a word that fits keeps every prefix of the line fitting. */
  lemma ExtendFits(current: string, w: string, maxWidth: real, measure: Metrics, font: Font)
    requires ' ' !in w
    requires PrefixesFit(current, maxWidth, measure, font)
    requires measure(font, current + " " + w) < maxWidth
    ensures PrefixesFit(current + " " + w, maxWidth, measure, font)
  {
    var candidate := current + " " + w;
    var ws := Split(current, ' ');
    WordsOfExtended(current, w);
    var cs := Split(candidate, ' ');
    assert cs == ws + [w];
    forall j | 2 <= j <= |cs| ensures measure(font, Join(cs[..j], ' ')) < maxWidth {
      if j == |cs| {
        assert cs[..j] == ws + [w];
        JoinSnoc(ws, w, ' ');
        JoinSplit(current, ' ');
      } else {
        assert cs[..j] == ws[..j];
      }
    }
  }

  /** Every prefix of a line that `Pack` built by appending words fitted. */
  lemma {:induction false} PackFits(current: string, rest: seq<string>, maxWidth: real, measure: Metrics, font: Font)
    requires SpaceFree(rest)
    requires PrefixesFit(current, maxWidth, measure, font)
    ensures AllPrefixesFit(Pack(current, rest, maxWidth, measure, font), maxWidth, measure, font)
    decreases |rest|
  {
    if rest == [] {
      AllPrefixesFitCons(current, [], maxWidth, measure, font);
      assert [current] + [] == [current];
    } else {
      var candidate := current + " " + rest[0];
      assert SpaceFree(rest[1..]);
      if measure(font, candidate) < maxWidth {
        ExtendFits(current, rest[0], maxWidth, measure, font);
        PackFits(candidate, rest[1..], maxWidth, measure, font);
      } else {
        SplitWithoutSep(rest[0], ' ');
        assert PrefixesFit(rest[0], maxWidth, measure, font);
        PackFits(rest[0], rest[1..], maxWidth, measure, font);
        AllPrefixesFitCons(current, Pack(rest[0], rest[1..], maxWidth, measure, font), maxWidth, measure, font);
      }
    }
  }

  /** Every break `Pack` made was forced. */
  lemma {:induction false} PackBreaks(current: string, rest: seq<string>, maxWidth: real, measure: Metrics, font: Font)
    requires SpaceFree(rest)
    ensures var lines := Pack(current, rest, maxWidth, measure, font);
            forall k :: 0 <= k < |lines| - 1 ==> BreakForced(lines[k], lines[k + 1], maxWidth, measure, font)
    ensures FirstWord(Pack(current, rest, maxWidth, measure, font)[0]) == FirstWord(current)
    decreases |rest|
  {
    if rest != [] {
      var candidate := current + " " + rest[0];
      WordsOfExtended(current, rest[0]);
      if measure(font, candidate) < maxWidth {
        PackBreaks(candidate, rest[1..], maxWidth, measure, font);
      } else {
        PackBreaks(rest[0], rest[1..], maxWidth, measure, font);
        SplitWithoutSep(rest[0], ' ');
        var tail := Pack(rest[0], rest[1..], maxWidth, measure, font);
        var lines := [current] + tail;
        forall k | 0 <= k < |lines| - 1 ensures BreakForced(lines[k], lines[k + 1], maxWidth, measure, font) {
          if k > 0 {
            assert lines[k] == tail[k - 1] && lines[k + 1] == tail[k];
          }
        }
      }
    }
  }

  /** The lines `wrapText` returns form a greedy layout of the text. */
  lemma WrapIsGreedy(text: string, maxWidth: real, measure: Metrics, font: Font)
    ensures GreedyLayout(text, Wrap(text, maxWidth, measure, font), maxWidth, measure, font)
  {
    var words := Split(text, ' ');
    assert SpaceFree(words[1..]);
    SplitWithoutSep(words[0], ' ');
    PackWords(words[0], words[1..], maxWidth, measure, font);
    assert [words[0]] + words[1..] == words;
    PackFits(words[0], words[1..], maxWidth, measure, font);
    PackBreaks(words[0], words[1..], maxWidth, measure, font);
  }

  /** A text without spaces comes back as its only line, however narrow
      `maxWidth` is: words are never split. */
  lemma WrapSingleWord(text: string, maxWidth: real, measure: Metrics, font: Font)
    requires ' ' !in text
    ensures Wrap(text, maxWidth, measure, font) == [text]
  {
    SplitWithoutSep(text, ' ');
  }

  /** Every line that holds more than one word measures below `maxWidth`. */
  lemma WrapExtendedLinesFit(text: string, maxWidth: real, measure: Metrics, font: Font, k: nat)
    requires k < |Wrap(text, maxWidth, measure, font)|
    requires ' ' in Wrap(text, maxWidth, measure, font)[k]
    ensures measure(font, Wrap(text, maxWidth, measure, font)[k]) < maxWidth
  {
    var line := Wrap(text, maxWidth, measure, font)[k];
    WrapIsGreedy(text, maxWidth, measure, font);
    var ws := Split(line, ' ');
    SplitCount(line, ' ');
    assert ws[..|ws|] == ws;
    JoinSplit(line, ' ');
  }

  /** `fontSize * 1.2`. */
  function LineHeight(fontSize: int): real
  {
    fontSize as real * 1.2
  }

  /** The y of the first of `n` lines of height `lh` centred on `y`. */
  function StartY(y: real, n: nat, lh: real): real
  {
    y - (n as real * lh) / 2.0 + lh / 2.0
  }

  /** The y of line `k` of a block: `startY + (index * lineHeight)`. */
  function LineY(startY: real, k: nat, lh: real): real
  {
    startY + k as real * lh
  }

  /** One line drawn as an outline and then a fill at the same point. */
  function LineOps(line: string, x: real, lineY: real, look: TextLook, pen: Pen, fill: string): seq<DrawOp>
  {
    [StrokeOp(line, x, lineY, look, pen), FillOp(line, x, lineY, look, fill)]
  }

  /** One line of a caption: a black, round-joined outline of width
      `borderWidth || 4`, then a fill in `textColor || '#FFFFFF'`, both at
      `(x, lineY)` with the current text look. */
  method DrawCaptionLine(ctx: Surface, line: string, x: real, lineY: real, borderWidth: int, textColor: string)
    modifies ctx`style, ctx`ops
    ensures ctx.style == old(ctx.style).(pen := OutlinePen(old(ctx.style).pen, borderWidth), fill := FillColor(textColor))
    ensures ctx.ops == old(ctx.ops) + LineOps(line, x, lineY, old(ctx.style).look, OutlinePen(old(ctx.style).pen, borderWidth), FillColor(textColor))
  {
    ctx.SetStrokeStyle("#000000");
    ctx.SetLineWidth(OutlineWidth(borderWidth));
    ctx.SetLineJoin("round");
    ctx.SetMiterLimit(2.0);
    ctx.StrokeText(line, x, lineY);
    ctx.SetFillStyle(FillColor(textColor));
    ctx.FillText(line, x, lineY);
  }

  /** The draws for `lines`, line `k` at `startY + k * lh`, in line order. */
  function BlockOps(lines: seq<string>, x: real, startY: real, lh: real, look: TextLook, pen: Pen, fill: string): seq<DrawOp>
    decreases |lines|
  {
    if lines == [] then []
    else
      var n := |lines| - 1;
      BlockOps(lines[..n], x, startY, lh, look, pen, fill) + LineOps(lines[n], x, LineY(startY, n, lh), look, pen, fill)
  }

  /** The block for one more line is the block so far and that line's two draws. */
  lemma BlockOpsSnoc(lines: seq<string>, i: nat, x: real, startY: real, lh: real, look: TextLook, pen: Pen, fill: string)
    requires i < |lines|
    ensures BlockOps(lines[..i + 1], x, startY, lh, look, pen, fill)
            == BlockOps(lines[..i], x, startY, lh, look, pen, fill) + LineOps(lines[i], x, LineY(startY, i, lh), look, pen, fill)
  {
    var p := lines[..i + 1];
    assert |p| - 1 == i && p[i] == lines[i];
    assert p[..i] == lines[..i];
    calc {
      BlockOps(p, x, startY, lh, look, pen, fill);
      BlockOps(p[..i], x, startY, lh, look, pen, fill) + LineOps(p[i], x, LineY(startY, i, lh), look, pen, fill);
      BlockOps(lines[..i], x, startY, lh, look, pen, fill) + LineOps(lines[i], x, LineY(startY, i, lh), look, pen, fill);
    }
  }

  /** The block holds two draws per line: draw `2k` outlines line `k` and
      draw `2k + 1` fills it, at the same point, `k` line heights below the
      first line. */
  lemma {:induction false} BlockOpsAt(lines: seq<string>, x: real, startY: real, lh: real, look: TextLook, pen: Pen, fill: string)
    ensures |BlockOps(lines, x, startY, lh, look, pen, fill)| == 2 * |lines|
    ensures forall k :: 0 <= k < |lines| ==>
              BlockOps(lines, x, startY, lh, look, pen, fill)[2 * k] == StrokeOp(lines[k], x, LineY(startY, k, lh), look, pen)
              && BlockOps(lines, x, startY, lh, look, pen, fill)[2 * k + 1] == FillOp(lines[k], x, LineY(startY, k, lh), look, fill)
    decreases |lines|
  {
    if lines != [] {
      var n := |lines| - 1;
      BlockOpsAt(lines[..n], x, startY, lh, look, pen, fill);
      var ops := BlockOps(lines, x, startY, lh, look, pen, fill);
      var front := BlockOps(lines[..n], x, startY, lh, look, pen, fill);
      assert ops == front + LineOps(lines[n], x, LineY(startY, n, lh), look, pen, fill);
      forall k | 0 <= k < |lines|
        ensures ops[2 * k] == StrokeOp(lines[k], x, LineY(startY, k, lh), look, pen)
        ensures ops[2 * k + 1] == FillOp(lines[k], x, LineY(startY, k, lh), look, fill)
      {
        if k < n {
          assert lines[..n][k] == lines[k];
          assert ops[2 * k] == front[2 * k] && ops[2 * k + 1] == front[2 * k + 1];
        }
      }
    }
  }

  /** The draws `drawWrappedText` adds to a context whose state was `style`:
      the text wrapped under the caption font, as a block of lines
      `fontSize * 1.2` apart centred vertically on `y`. */
  function WrappedOps(style: Style, text: string, x: real, y: real, maxWidth: real, fontSize: int,
                      textColor: string, borderWidth: int, measure: Metrics): seq<DrawOp>
  {
    var look := CaptionLook(style.look, fontSize);
    var lines := Wrap(text, maxWidth, measure, look.font);
    var lh := LineHeight(fontSize);
    BlockOps(lines, x, StartY(y, |lines|, lh), lh, look, OutlinePen(style.pen, borderWidth), FillColor(textColor))
  }

  /** The `forEach` over the lines: line `k` outlined and filled at
      `startY + k * lineHeight`, all with the same pen and fill. */
  method DrawLines(ctx: Surface, lines: seq<string>, x: real, startY: real, lineHeight: real, borderWidth: int, textColor: string)
    modifies ctx`style, ctx`ops
    ensures ctx.style.look == old(ctx.style.look)
    ensures ctx.ops == old(ctx.ops) + BlockOps(lines, x, startY, lineHeight, old(ctx.style.look),
                                               OutlinePen(old(ctx.style.pen), borderWidth), FillColor(textColor))
  {
    ghost var look := ctx.style.look;
    ghost var pen := OutlinePen(ctx.style.pen, borderWidth);
    ghost var fill := FillColor(textColor);
    OutlinePenIdempotent(ctx.style.pen, borderWidth);
    for i := 0 to |lines|
      invariant ctx.style.look == look
      invariant OutlinePen(ctx.style.pen, borderWidth) == pen
      invariant ctx.ops == old(ctx.ops) + BlockOps(lines[..i], x, startY, lineHeight, look, pen, fill)
    {
      ghost var before := ctx.ops;
      var lineY := startY + i as real * lineHeight;
      DrawCaptionLine(ctx, lines[i], x, lineY, borderWidth, textColor);
      BlockOpsSnoc(lines, i, x, startY, lineHeight, look, pen, fill);
      assert ctx.ops == before + LineOps(lines[i], x, LineY(startY, i, lineHeight), look, pen, fill);
    }
    assert lines[..|lines|] == lines;
  }

  /** `drawWrappedText(ctx, text, x, y, maxWidth, fontSize, textColor,
      borderWidth)`: wraps under the caption font and draws every line as
      an outline and a fill, inside a save/restore pair, so the context's
      state comes back as it was. */
  method DrawWrappedText(ctx: Surface, text: string, x: real, y: real, maxWidth: real, fontSize: int,
                         textColor: string, borderWidth: int)
    modifies ctx`style, ctx`saved, ctx`ops
    ensures ctx.style == old(ctx.style) && ctx.saved == old(ctx.saved)
    ensures ctx.ops == old(ctx.ops) + WrappedOps(old(ctx.style), text, x, y, maxWidth, fontSize, textColor, borderWidth, ctx.measure)
  {
    ctx.Save();
    SetCaptionFont(ctx, fontSize);
    var lines := WrapText(ctx, text, maxWidth);
    var lineHeight := fontSize as real * 1.2;
    var totalHeight := |lines| as real * lineHeight;
    var startY := y - totalHeight / 2.0 + lineHeight / 2.0;
    assert startY == StartY(y, |lines|, lineHeight);
    DrawLines(ctx, lines, x, startY, lineHeight, borderWidth, textColor);
    ctx.Restore();
  }

  /** Sum of the y positions of the first `m` lines of a block. */
  function SumLineY(startY: real, lh: real, m: nat): real
  {
    if m == 0 then 0.0 else SumLineY(startY, lh, m - 1) + LineY(startY, m - 1, lh)
  }

  lemma {:induction false} SumLineYClosed(startY: real, lh: real, m: nat)
    ensures 2.0 * SumLineY(startY, lh, m) == 2.0 * m as real * startY + lh * m as real * (m as real - 1.0)
  {
    if m > 0 {
      SumLineYClosed(startY, lh, m - 1);
      var r := (m - 1) as real;
      assert lh * m as real * (m as real - 1.0) == lh * r * (r - 1.0) + 2.0 * r * lh;
    }
  }

  /** The block is centred on `y`: the mean of its line positions is `y`. */
  lemma BlockCentred(y: real, n: nat, lh: real)
    ensures SumLineY(StartY(y, n, lh), lh, n) == n as real * y
  {
    SumLineYClosed(StartY(y, n, lh), lh, n);
    var m := n as real;
    assert 2.0 * m * StartY(y, n, lh) == 2.0 * m * y - m * m * lh + m * lh;
  }

  /** The first and last lines, the second and second-to-last, and so on,
      lie symmetrically about `y`. */
  lemma BlockSymmetric(y: real, n: nat, lh: real, k: nat)
    requires k < n
    ensures LineY(StartY(y, n, lh), k, lh) + LineY(StartY(y, n, lh), n - 1 - k, lh) == 2.0 * y
  {
    assert k as real * lh + (n - 1 - k) as real * lh == (n as real - 1.0) * lh;
  }

  /** A text that fits on one line is drawn at the anchor itself, exactly as
      the editor's canvas draws an overlay. */
  lemma SingleLineAtAnchor(style: Style, text: string, x: real, y: real, maxWidth: real, fontSize: int,
                           textColor: string, borderWidth: int, measure: Metrics)
    requires |Wrap(text, maxWidth, measure, CaptionLook(style.look, fontSize).font)| == 1
    ensures WrappedOps(style, text, x, y, maxWidth, fontSize, textColor, borderWidth, measure)
            == LineOps(text, x, y, CaptionLook(style.look, fontSize), OutlinePen(style.pen, borderWidth), FillColor(textColor))
  {
    var look := CaptionLook(style.look, fontSize);
    var lines := Wrap(text, maxWidth, measure, look.font);
    var lh := LineHeight(fontSize);
    WrapJoin(text, maxWidth, measure, look.font);
    assert lines[0] == text;
    assert lines[..0] == [];
    assert LineY(StartY(y, 1, lh), 0, lh) == y;
    var pen, fill := OutlinePen(style.pen, borderWidth), FillColor(textColor);
    assert BlockOps(lines, x, StartY(y, 1, lh), lh, look, pen, fill)
        == BlockOps(lines[..0], x, StartY(y, 1, lh), lh, look, pen, fill) + LineOps(lines[0], x, LineY(StartY(y, 1, lh), 0, lh), look, pen, fill);
  }
}
