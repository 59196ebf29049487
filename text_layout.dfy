/** How the single-poster generator turns a quote into positioned lines
    (`drawEnhancedText`, `wrapText` and `drawTextWithLetterSpacing` in
    src/components/ImageGenerator.tsx). The canvas's `measureText` is the
    parameter `measure`, an arbitrary width function. */
module TextLayout {
  import opened JsString

  datatype TextAlign = Left | Center | Right
  datatype LayoutMode = SingleLine | MultiLine | AutoWrap

  datatype Gradient = Gradient(enabled: bool, colors: seq<string>, angle: real)

  /** `TextStyle` of src/types/index.ts. */
  datatype TextStyle = TextStyle(
    fontSize: real, fontFamily: string, color: string, textAlign: TextAlign,
    letterSpacing: real, lineHeight: real, fontWeight: int, opacity: real,
    blur: real, gradient: Gradient, textBehindImage: bool)

  /** `TextLayout` of src/types/index.ts. */
  datatype Layout = Layout(mode: LayoutMode, lineSpacing: real, maxWidth: real)

  /** The canvas drop shadow: colour alpha, blur radius and offsets. */
  datatype Shadow = Shadow(alpha: real, blur: real, offsetX: real, offsetY: real)

  /** How one line reaches the canvas: in one `fillText` call, or glyph by glyph
      with the x position of every glyph. */
  datatype LineDraw =
    | Whole(text: string, x: real, y: real)
    | Glyphs(glyphs: string, xs: seq<real>, y: real)

  // ---------------------------------------------------------------------------
  // Greedy word wrap (`wrapText`)

  /** The leading run of non-space characters of a line. */
  function FirstWord(s: string): string
  {
    if |s| == 0 || s[0] == ' ' then "" else [s[0]] + FirstWord(s[1..])
  }

  lemma {:induction false} FirstWordOfWord(w: string)
    requires ' ' !in w
    ensures FirstWord(w) == w
  {
    if |w| > 0 {
      FirstWordOfWord(w[1..]);
    }
  }

  /** Appending a space and more text to a line does not change its first word. */
  lemma {:induction false} FirstWordExtend(cur: string, rest: string)
    ensures FirstWord(cur + " " + rest) == FirstWord(cur)
  {
    if |cur| > 0 && cur[0] != ' ' {
      assert (cur + " " + rest)[1..] == cur[1..] + " " + rest;
      FirstWordExtend(cur[1..], rest);
    }
  }

  predicate NoEmptyWord(words: seq<string>)
  {
    forall k :: 0 <= k < |words| ==> words[k] != ""
  }

  /** No line could have taken the first word of the next one without overflowing. */
  predicate Greedy(lines: seq<string>, maxWidth: real, measure: string -> real)
  {
    forall k :: 0 <= k < |lines| - 1 ==> measure(lines[k] + " " + FirstWord(lines[k + 1])) > maxWidth
  }

  /** No word holds a space, as after `split(' ')`. */
  predicate NoSpaceInWords(words: seq<string>)
  {
    forall k :: 0 <= k < |words| ==> ' ' !in words[k]
  }

  /** What `wrapText(text, maxWidth)` promises of its result:
      - no more lines than space-separated words, and no empty line;
      - a line wider than `maxWidth` is one word of the text, unbroken;
      - the empty text gives no line;
      - when no word is empty (no doubled, leading or trailing space), joining the
        lines with single spaces gives back the text, and the wrap is greedy. */
  predicate IsGreedyWrap(text: string, maxWidth: real, measure: string -> real, lines: seq<string>)
  {
    var words := Split(text, ' ');
    && |lines| <= |words|
    && (forall k :: 0 <= k < |lines| ==> lines[k] != "")
    && (forall k :: 0 <= k < |lines| ==>
          measure(lines[k]) <= maxWidth || (lines[k] in words && ' ' !in lines[k]))
    && (text == "" ==> lines == [])
    && (NoEmptyWord(words) ==> Join(lines, " ") == text && Greedy(lines, maxWidth, measure))
  }

  /** The same promise stated over the words the text splits into. */
  predicate WrapsWords(words: seq<string>, maxWidth: real, measure: string -> real, lines: seq<string>)
  {
    && |lines| <= |words|
    && (forall k :: 0 <= k < |lines| ==> lines[k] != "")
    && (forall k :: 0 <= k < |lines| ==> measure(lines[k]) <= maxWidth || lines[k] in words)
    && (words == [""] ==> lines == [])
    && (NoEmptyWord(words) ==> Join(lines, " ") == Join(words, " ") && Greedy(lines, maxWidth, measure))
  }

  /** A wrap of the words of `text` is a wrap of `text`. */
  lemma WrapOfWordsWrapsText(text: string, maxWidth: real, measure: string -> real, lines: seq<string>)
    requires WrapsWords(Split(text, ' '), maxWidth, measure, lines)
    ensures IsGreedyWrap(text, maxWidth, measure, lines)
  {
    var words := Split(text, ' ');
    if text == "" {
      assert words == [""];
    }
    forall k | 0 <= k < |lines| && measure(lines[k]) > maxWidth
      ensures lines[k] in words && ' ' !in lines[k]
    {
      var j :| 0 <= j < |words| && words[j] == lines[k];
    }
  }

  /** Joining after lengthening the last part by a space and a word. */
  lemma JoinExtendLast(parts: seq<string>, last: string, word: string)
    ensures Join(parts + [last + " " + word], " ") == Join(parts + [last], " ") + " " + word
  {
    if |parts| > 0 {
      JoinSnoc(parts, last + " " + word, " ");
      JoinSnoc(parts, last, " ");
    }
  }

  /** The state of the `wrapText` loop after the first `i` words: the pushed
      `lines` and the `current` line under construction. Where it is required
      it is written `WrapInv(..) == true`, so that the verifier checks it as one
      fact (the step lemmas establish it whole) instead of one conjunct at a time. */
  ghost predicate WrapInv(words: seq<string>, maxWidth: real, measure: string -> real,
                          i: nat, lines: seq<string>, current: string)
  {
    && i <= |words|
    && |lines| + (if current != "" then 1 else 0) <= i
    && (forall k :: 0 <= k < |lines| ==> lines[k] != "")
    && (forall k :: 0 <= k < |lines| ==> measure(lines[k]) <= maxWidth || lines[k] in words)
    && (current == "" || measure(current) <= maxWidth || current in words)
    && (words == [""] ==> lines == [] && current == "")
    && (NoEmptyWord(words) ==>
          && (i == 0 <==> current == "")
          && (i == 0 ==> lines == [])
          && (i > 0 ==> Join(lines + [current], " ") == Join(words[..i], " "))
          && Greedy(lines, maxWidth, measure)
          && (|lines| > 0 && current != "" ==>
                measure(lines[|lines| - 1] + " " + FirstWord(current)) > maxWidth))
  }

  /** The overflow branch: the current line is pushed and the word starts a new one. */
  lemma WrapPushStep(words: seq<string>, maxWidth: real, measure: string -> real,
                     i: nat, lines: seq<string>, current: string)
    requires NoSpaceInWords(words)
    requires WrapInv(words, maxWidth, measure, i, lines, current) == true
    requires i < |words| && current != ""
    requires measure(current + " " + words[i]) > maxWidth
    ensures WrapInv(words, maxWidth, measure, i + 1, lines + [current], words[i])
  {
    var word := words[i];
    if NoEmptyWord(words) {
      assert words[..i + 1] == words[..i] + [word];
      FirstWordOfWord(word);
      JoinSnoc(lines + [current], word, " ");
      JoinSnoc(words[..i], word, " ");
      GreedyPush(lines, current, maxWidth, measure);
    }
  }

  /** The fitting branch: the word is appended to the current line. */
  lemma WrapExtendStep(words: seq<string>, maxWidth: real, measure: string -> real,
                       i: nat, lines: seq<string>, current: string, testLine: string)
    requires WrapInv(words, maxWidth, measure, i, lines, current) == true
    requires i < |words|
    requires testLine == current + (if current != "" then " " else "") + words[i]
    requires measure(testLine) <= maxWidth || current == ""
    ensures WrapInv(words, maxWidth, measure, i + 1, lines, testLine)
  {
    var word := words[i];
    if current == "" {
      assert testLine == word;
    }
    if NoEmptyWord(words) {
      assert words[..i + 1] == words[..i] + [word];
      if current != "" {
        FirstWordExtend(current, word);
        JoinExtendLast(lines, current, word);
        JoinSnoc(words[..i], word, " ");
      } else {
        assert words[..1] == [word];
      }
    }
  }

  /** The loop of `wrapText` over the words: a word goes on the current line
      unless the line is non-empty and the extended line would measure more
      than `maxWidth`; the last line is pushed when non-empty. */
  method WrapWords(words: seq<string>, maxWidth: real, measure: string -> real) returns (lines: seq<string>)
    requires NoSpaceInWords(words)
    ensures WrapsWords(words, maxWidth, measure, lines)
  {
    lines := [];
    var currentLine := "";
    var i := 0;
    while i < |words|
      invariant WrapInv(words, maxWidth, measure, i, lines, currentLine) == true
    {
      var word := words[i];
      var testLine := currentLine + (if currentLine != "" then " " else "") + word;
      if measure(testLine) > maxWidth && currentLine != "" {
        WrapPushStep(words, maxWidth, measure, i, lines, currentLine);
        lines := lines + [currentLine];
        currentLine := word;
      } else {
        WrapExtendStep(words, maxWidth, measure, i, lines, currentLine, testLine);
        currentLine := testLine;
      }
      i := i + 1;
    }
    WrapFinish(words, maxWidth, measure, lines, currentLine);
    if currentLine != "" {
      lines := lines + [currentLine];
    }
  }

  /** After the last word, pushing a non-empty current line completes the wrap. */
  lemma WrapFinish(words: seq<string>, maxWidth: real, measure: string -> real, lines: seq<string>, current: string)
    requires WrapInv(words, maxWidth, measure, |words|, lines, current) == true
    ensures WrapsWords(words, maxWidth, measure, if current != "" then lines + [current] else lines)
  {
    assert words[..|words|] == words;
    if current != "" {
      var r := lines + [current];
      assert forall k :: 0 <= k < |lines| ==> r[k] == lines[k];
      if NoEmptyWord(words) {
        GreedyPush(lines, current, maxWidth, measure);
      }
    }
  }

  /** Pushing a line that could not take the next line's first word keeps the
      lines greedy. */
  lemma GreedyPush(lines: seq<string>, next: string, maxWidth: real, measure: string -> real)
    requires Greedy(lines, maxWidth, measure)
    requires |lines| > 0 ==> measure(lines[|lines| - 1] + " " + FirstWord(next)) > maxWidth
    ensures Greedy(lines + [next], maxWidth, measure)
  {
    var r := lines + [next];
    forall k | 0 <= k < |r| - 1
      ensures measure(r[k] + " " + FirstWord(r[k + 1])) > maxWidth
    {
      if k < |lines| - 1 {
        assert r[k] == lines[k] && r[k + 1] == lines[k + 1];
      }
    }
  }

  /** `wrapText`: the text is split at spaces and the words are wrapped greedily. */
  method WrapText(text: string, maxWidth: real, measure: string -> real) returns (lines: seq<string>)
    ensures IsGreedyWrap(text, maxWidth, measure, lines)
  {
    var words := Split(text, ' ');
    lines := WrapWords(words, maxWidth, measure);
    WrapOfWordsWrapsText(text, maxWidth, measure, lines);
  }

  // ---------------------------------------------------------------------------
  // The layout-mode switch of `drawEnhancedText`

  /** The lines of `text` under each layout mode: newlines become spaces in
      single-line mode, the text is split at newlines in multi-line mode, and
      auto-wrap is the greedy word wrap. */
  predicate LaidOut(text: string, layout: Layout, measure: string -> real, lines: seq<string>)
  {
    match layout.mode
    case SingleLine => lines == [ReplaceAll(text, '\n', ' ')]
    case MultiLine => lines == Split(text, '\n')
    case AutoWrap => IsGreedyWrap(text, layout.maxWidth, measure, lines)
  }

  /** The lines `drawEnhancedText` draws for `text` under `layout`. */
  method LayoutLines(text: string, layout: Layout, measure: string -> real) returns (lines: seq<string>)
    ensures LaidOut(text, layout, measure, lines)
    ensures layout.mode == SingleLine ==>
              lines == [ReplaceAll(text, '\n', ' ')] && '\n' !in lines[0] && |lines[0]| == |text|
    ensures layout.mode == MultiLine ==>
              |lines| == Count(text, '\n') + 1 && Join(lines, "\n") == text
              && forall k :: 0 <= k < |lines| ==> '\n' !in lines[k]
    ensures layout.mode == AutoWrap ==> IsGreedyWrap(text, layout.maxWidth, measure, lines)
  {
    match layout.mode
    case SingleLine =>
      lines := [ReplaceAll(text, '\n', ' ')];
    case MultiLine =>
      lines := Split(text, '\n');
    case AutoWrap =>
      lines := WrapText(text, layout.maxWidth, measure);
  }

  // ---------------------------------------------------------------------------
  // Vertical placement

  /** Height of one line: `fontSize * lineHeight`. */
  function LineHeight(style: TextStyle): real
  {
    style.fontSize * style.lineHeight
  }

  /** Distance between consecutive baselines. */
  function LinePitch(style: TextStyle, layout: Layout): real
  {
    LineHeight(style) + layout.lineSpacing
  }

  /** `totalTextHeight`: `n` line heights and `n - 1` gaps. */
  function TotalTextHeight(n: nat, style: TextStyle, layout: Layout): real
  {
    n as real * LineHeight(style) + (n as real - 1.0) * layout.lineSpacing
  }

  /** `startY`: centred text treats the anchor as the middle of the block. */
  function StartY(align: TextAlign, y: real, total: real): real
  {
    if align == Center then y - total / 2.0 else y
  }

  /** `n` baselines from `start`, one `pitch` apart; the last line ends one line
      height `lh` below its baseline, `n * lh + (n - 1) * gap` below the first. */
  function Baselines(n: nat, start: real, pitch: real, lh: real, gap: real): (ys: seq<real>)
    requires pitch == lh + gap
    ensures |ys| == n
    ensures forall k :: 0 <= k < n ==> ys[k] == start + k as real * pitch
    ensures forall k :: 0 <= k < n - 1 ==> ys[k + 1] - ys[k] == pitch
    ensures n > 0 ==> ys[0] == start
    ensures n > 0 ==> ys[n - 1] + lh - ys[0] == n as real * lh + (n as real - 1.0) * gap
  {
    var ys := seq(n, k requires 0 <= k => start + k as real * pitch);
    BaselineArithmetic(ys, start, pitch, lh, gap);
    ys
  }

  /** The baseline of each of `n` lines anchored at `y`: consecutive lines are one
      pitch apart; the first baseline is the anchor, except for centred text,
      whose block of height `TotalTextHeight` has the anchor as its midpoint; and
      the block runs from the first baseline to one line height below the last. */
  function LineBaselines(n: nat, style: TextStyle, layout: Layout, y: real): (ys: seq<real>)
    ensures |ys| == n
    ensures forall k :: 0 <= k < n - 1 ==> ys[k + 1] - ys[k] == LinePitch(style, layout)
    ensures n > 0 && style.textAlign == Center ==> ys[0] + TotalTextHeight(n, style, layout) / 2.0 == y
    ensures n > 0 && style.textAlign != Center ==> ys[0] == y
    ensures n > 0 ==> ys[n - 1] + LineHeight(style) - ys[0] == TotalTextHeight(n, style, layout)
  {
    var total := TotalTextHeight(n, style, layout);
    Baselines(n, StartY(style.textAlign, y, total), LinePitch(style, layout), LineHeight(style), layout.lineSpacing)
  }

  lemma BaselineArithmetic(ys: seq<real>, start: real, pitch: real, lh: real, gap: real)
    requires pitch == lh + gap
    requires forall k :: 0 <= k < |ys| ==> ys[k] == start + k as real * pitch
    ensures forall k :: 0 <= k < |ys| - 1 ==> ys[k + 1] - ys[k] == pitch
    ensures |ys| > 0 ==> ys[0] == start
    ensures |ys| > 0 ==> ys[|ys| - 1] + lh - ys[0] == |ys| as real * lh + (|ys| as real - 1.0) * gap
  {
    forall k | 0 <= k < |ys| - 1 ensures ys[k + 1] - ys[k] == pitch {
      assert (k + 1) as real * pitch == k as real * pitch + pitch;
    }
    if |ys| > 0 {
      var m := (|ys| - 1) as real;
      assert ys[|ys| - 1] - ys[0] == m * pitch;
      assert m * pitch == m * lh + m * gap;
      assert m * lh + lh == |ys| as real * lh;
    }
  }

  /** Line `k` is drawn `k` pitches below the first baseline. */
  lemma {:induction false} BaselineOfLine(n: nat, style: TextStyle, layout: Layout, y: real, k: nat)
    requires k < n
    ensures LineBaselines(n, style, layout, y)[k]
            == StartY(style.textAlign, y, TotalTextHeight(n, style, layout)) + k as real * LinePitch(style, layout)
  {
    var ys := LineBaselines(n, style, layout, y);
    if k > 0 {
      BaselineOfLine(n, style, layout, y, k - 1);
      assert ys[k] == ys[k - 1] + LinePitch(style, layout);
    }
  }

  // ---------------------------------------------------------------------------
  // Letter spacing (`drawTextWithLetterSpacing`)

  /** Sum of `measure(c) + letterSpacing` over the glyphs, folded left to right as
      the `reduce` in the source does. */
  function Advance(glyphs: string, letterSpacing: real, measure: string -> real): real
  {
    if |glyphs| == 0 then 0.0
    else Advance(glyphs[..|glyphs| - 1], letterSpacing, measure) + measure([glyphs[|glyphs| - 1]]) + letterSpacing
  }

  /** `totalWidth`: every glyph plus a gap after each but the last. */
  function SpacedWidth(text: string, letterSpacing: real, measure: string -> real): real
  {
    Advance(text, letterSpacing, measure) - letterSpacing
  }

  /** Where the first glyph goes for the alignment. */
  function GlyphRunStart(align: TextAlign, x: real, width: real): real
  {
    match align
    case Center => x - width / 2.0
    case Right => x - width
    case Left => x
  }

  /** `xs` holds one x per glyph of `text`: the run starts at `GlyphRunStart` and
      glyph `k` sits after the advances of the glyphs before it. */
  predicate GlyphPositions(xs: seq<real>, text: string, x: real, align: TextAlign, letterSpacing: real,
                           measure: string -> real)
  {
    && |xs| == |text|
    && forall k :: 0 <= k < |text| ==>
         xs[k] == GlyphRunStart(align, x, SpacedWidth(text, letterSpacing, measure))
                  + Advance(text[..k], letterSpacing, measure)
  }

  /** The x at which `drawTextWithLetterSpacing` draws each glyph of `text`: the
      run starts at `GlyphRunStart` and each glyph advances by its width plus the
      spacing. */
  method DrawTextWithLetterSpacing(text: string, x: real, align: TextAlign, letterSpacing: real,
                                   measure: string -> real) returns (glyphX: seq<real>)
    ensures GlyphPositions(glyphX, text, x, align, letterSpacing, measure)
  {
    var currentX := x;
    if align == Center {
      currentX := x - SpacedWidth(text, letterSpacing, measure) / 2.0;
    } else if align == Right {
      currentX := x - SpacedWidth(text, letterSpacing, measure);
    }
    ghost var start := currentX;
    glyphX := [];
    var i := 0;
    while i < |text|
      invariant 0 <= i <= |text|
      invariant |glyphX| == i
      invariant forall k :: 0 <= k < i ==> glyphX[k] == start + Advance(text[..k], letterSpacing, measure)
      invariant currentX == start + Advance(text[..i], letterSpacing, measure)
    {
      assert text[..i + 1][..i] == text[..i];
      glyphX := glyphX + [currentX];
      currentX := currentX + measure([text[i]]) + letterSpacing;
      i := i + 1;
    }
  }

  /** The glyph run sits where the alignment says: centred runs are symmetric about
      `x` (first glyph's left edge and last glyph's right edge average to `x`),
      right-aligned runs end exactly at `x`, left-aligned runs start at `x`. No
      trailing gap is counted. */
  lemma GlyphRunAnchored(text: string, x: real, align: TextAlign, letterSpacing: real, measure: string -> real)
    requires |text| > 0
    ensures var first := GlyphRunStart(align, x, SpacedWidth(text, letterSpacing, measure));
            var n := |text|;
            var lastRight := first + Advance(text[..n - 1], letterSpacing, measure) + measure([text[n - 1]]);
            && (align == Center ==> first + lastRight == 2.0 * x)
            && (align == Right ==> lastRight == x)
            && (align == Left ==> first == x)
            && lastRight - first == SpacedWidth(text, letterSpacing, measure)
  {
    assert text[..|text|] == text;
  }

  /** Two glyphs "AB", spacing 2, centred at `x`: the glyphs are symmetric about `x`
      with exactly one gap of 2 between them. */
  lemma TwoGlyphsCentred(x: real, measure: string -> real)
    ensures var w := measure("A") + measure("B") + 2.0;
            var start := GlyphRunStart(Center, x, SpacedWidth("AB", 2.0, measure));
            && start == x - w / 2.0
            && start + Advance("A", 2.0, measure) == start + measure("A") + 2.0
  {
    assert "AB"[..1] == "A";
    assert "A"[..0] == "";
  }

  // ---------------------------------------------------------------------------
  // `drawEnhancedText`

  /** The CSS weight used in the canvas font: 700 and above are drawn as 900. */
  function CanvasFontWeight(weight: int): (w: int)
    ensures weight >= 700 ==> w == 900
    ensures weight < 700 ==> w == weight
  {
    if weight >= 700 then 900 else weight
  }

  /** The shadow of text over a photograph: stronger when it sits behind a subject. */
  function ShadowFor(isBehindHuman: bool): (s: Shadow)
    ensures isBehindHuman ==> s == Shadow(0.9, 20.0, 4.0, 4.0)
    ensures !isBehindHuman ==> s == Shadow(0.8, 10.0, 2.0, 2.0)
  {
    if isBehindHuman then Shadow(0.9, 20.0, 4.0, 4.0) else Shadow(0.8, 10.0, 2.0, 2.0)
  }

  /** Line `line` drawn on baseline `y`: whole at `x` without spacing, otherwise
      glyph by glyph at the positions of `drawTextWithLetterSpacing`. */
  predicate DrawsLine(d: LineDraw, line: string, style: TextStyle, x: real, y: real, measure: string -> real)
  {
    if style.letterSpacing == 0.0 then d == Whole(line, x, y)
    else d.Glyphs? && d.glyphs == line && d.y == y
         && GlyphPositions(d.xs, line, x, style.textAlign, style.letterSpacing, measure)
  }

  /** What `drawEnhancedText` draws: the lines of the layout switch, the line `k`
      on the `k`-th baseline, drawn whole at `position.x` when the spacing is zero
      and glyph by glyph otherwise, under the shadow chosen by `isBehindHuman`. */
  method DrawEnhancedText(text: string, style: TextStyle, layout: Layout, x: real, y: real,
                          isBehindHuman: bool, measure: string -> real)
    returns (lines: seq<string>, draws: seq<LineDraw>, shadow: Shadow)
    ensures LaidOut(text, layout, measure, lines)
    ensures shadow == ShadowFor(isBehindHuman)
    ensures |draws| == |lines|
    ensures forall k :: 0 <= k < |lines| ==>
              DrawsLine(draws[k], lines[k], style, x, LineBaselines(|lines|, style, layout, y)[k], measure)
  {
    shadow := ShadowFor(isBehindHuman);
    lines := LayoutLines(text, layout, measure);
    var ys := LineBaselines(|lines|, style, layout, y);
    draws := [];
    var i := 0;
    while i < |lines|
      invariant 0 <= i <= |lines|
      invariant |draws| == i
      invariant forall k :: 0 <= k < i ==> DrawsLine(draws[k], lines[k], style, x, ys[k], measure)
    {
      var d;
      if style.letterSpacing != 0.0 {
        var xs := DrawTextWithLetterSpacing(lines[i], x, style.textAlign, style.letterSpacing, measure);
        d := Glyphs(lines[i], xs, ys[i]);
      } else {
        d := Whole(lines[i], x, ys[i]);
      }
      draws := draws + [d];
      i := i + 1;
    }
  }
}
