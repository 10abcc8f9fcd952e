/** Text paging of the textbox: the page count and cursor clamp of
    `scroll_textbox` (gui.py:407-418) and, for `render_textbox`
    (gui.py:335-404), which logical line lands on which row, where the wrap
    markers go and when a page is full. Drawing itself is reduced to a list
    of `Draw` records giving what is placed where. */
module TextPaging {
  import opened Geometry

  /** Python's `a // b` (and `math.floor(a / b)` on integers). */
  function FloorDiv(a: int, b: int): (q: int)
    requires b != 0
    ensures b > 0 ==> q * b <= a < q * b + b
    ensures b < 0 ==> q * b + b < a <= q * b
  {
    if b > 0 then a / b
    else
      var q := (-a) / (-b);
      assert q * (-b) <= -a < q * (-b) + (-b);
      q
  }

  /** The capacities `render_textbox` derives from the textbox size and the
      font: characters per row (`char_count_v`), rows per page
      (`char_count_h`), glyph width (`em_width`) and row height. */
  datatype Metrics = Metrics(charsPerLine: int, linesPerPage: int, emWidth: int, lineHeight: int)

  function MetricsFor(textbox: Size, emWidth: int, lineHeight: int): (m: Metrics)
    requires emWidth > 0 && lineHeight > 0
    ensures m.emWidth == emWidth && m.lineHeight == lineHeight
    ensures m.charsPerLine * emWidth <= textbox.w < (m.charsPerLine + 1) * emWidth
    ensures m.linesPerPage * lineHeight <= textbox.h < (m.linesPerPage + 1) * lineHeight
  {
    Metrics(FloorDiv(textbox.w, emWidth), FloorDiv(textbox.h, lineHeight), emWidth, lineHeight)
  }

  /** `self.pages`: the highest page index the cursor may take. */
  function LastPage(lineCount: nat, linesPerPage: int): (p: int)
    requires linesPerPage != 0
    ensures linesPerPage > 0 ==> p >= 0 && p * linesPerPage <= lineCount < (p + 1) * linesPerPage
  {
    FloorDiv(lineCount, linesPerPage)
  }

  /** `scroll_textbox`: `up` (True) decrements, otherwise increment, then
      clamp below at 0 and above at `pages`. */
  function Scroll(page: int, up: bool, pages: int): (r: int)
    ensures pages >= 0 ==> 0 <= r <= pages
    ensures pages >= 0 && up && page <= 0 ==> r == 0
    ensures pages >= 0 && !up && page >= pages ==> r == pages
    ensures up && 0 < page <= pages ==> r == page - 1
    ensures !up && 0 <= page < pages ==> r == page + 1
  {
    var moved := if up then page - 1 else page + 1;
    var clampedLow := if moved < 0 then 0 else moved;
    if clampedLow > pages then pages else clampedLow
  }

  /** What `render_textbox` blits, with its position in the textbox: a whole
      logical line, one character of a wrapped line, the wrap marker at the
      end of a row and its mirrored copy at the start of the next. */
  datatype Draw =
    | Line(index: nat, y: int)
    | Glyph(index: nat, pos: nat, x: int, y: int)
    | WrapSign(index: nat, x: int, y: int)
    | MirroredWrapSign(index: nat, y: int)

  /** Draws of one logical line, the row position after it (before the
      per-line advance) and the updated row counter. */
  datatype Rendered = Rendered(draws: seq<Draw>, y: int, lineCount: int)

  /** The character loop for a long line from character `j` on, with the
      pen at `(x, y)`. `char_counter` equals `j` throughout, since it starts
      at 0 and is never reset, so the marker follows character `j` exactly
      when `j + 1 == char_count_v - 1`. */
  function WrapChars(line: string, index: nat, j: nat, x: int, y: int, lineCount: int, m: Metrics): Rendered
    requires j <= |line|
    decreases |line| - j
  {
    if j == |line| then Rendered([], y, lineCount)
    else
      var glyph := Glyph(index, j, x, y);
      if j + 1 == m.charsPerLine - 1 then
        var next := y + m.lineHeight;
        var rest := WrapChars(line, index, j + 1, m.emWidth, next, lineCount + 1, m);
        Rendered([glyph, WrapSign(index, x + m.emWidth, y), MirroredWrapSign(index, next)] + rest.draws,
                 rest.y, rest.lineCount)
      else
        var rest := WrapChars(line, index, j + 1, x + m.emWidth, y, lineCount, m);
        Rendered([glyph] + rest.draws, rest.y, rest.lineCount)
  }

  /** One logical line: character by character when it is at least
      `char_count_v` long, otherwise as one piece. */
  function PlaceLine(text: seq<string>, i: nat, y: int, lineCount: int, m: Metrics): Rendered
    requires i < |text|
  {
    if |text[i]| >= m.charsPerLine then WrapChars(text[i], i, 0, 0, y, lineCount, m)
    else Rendered([Line(i, y)], y, lineCount)
  }

  /** The line loop from logical line `i` on: lines before `start` are
      skipped, and the loop stops after a logical line that brings the row
      counter to exactly `char_count_h`. */
  function LinesFrom(text: seq<string>, i: nat, start: int, y: int, lineCount: int, m: Metrics): seq<Draw>
    requires i <= |text|
    decreases |text| - i
  {
    if i == |text| then []
    else if i < start then LinesFrom(text, i + 1, start, y, lineCount, m)
    else
      var r := PlaceLine(text, i, y, lineCount, m);
      var count := r.lineCount + 1;
      r.draws + (if count == m.linesPerPage then [] else LinesFrom(text, i + 1, start, r.y + m.lineHeight, count, m))
  }

  /** Everything `render_textbox` draws for page `page`. */
  function RenderPage(text: seq<string>, page: int, m: Metrics): seq<Draw>
  {
    LinesFrom(text, 0, m.linesPerPage * page, 0, 0, m)
  }

  // ---------------------------------------------------------------------
  // Which lines are drawn

  lemma {:induction false} WrapCharsIndices(line: string, index: nat, j: nat, x: int, y: int, lineCount: int, m: Metrics)
    requires j <= |line|
    ensures forall d :: d in WrapChars(line, index, j, x, y, lineCount, m).draws ==> d.index == index && !d.Line?
    decreases |line| - j
  {
    if j < |line| {
      if j + 1 == m.charsPerLine - 1 {
        WrapCharsIndices(line, index, j + 1, m.emWidth, y + m.lineHeight, lineCount + 1, m);
      } else {
        WrapCharsIndices(line, index, j + 1, x + m.emWidth, y, lineCount, m);
      }
    }
  }

  /** Only lines at or after `start` are drawn; a line is drawn whole exactly
      when it is shorter than `char_count_v`, and character by character
      (with any wrap marker) otherwise. */
  lemma {:induction false} LinesFromDrawsOnly(text: seq<string>, i: nat, start: int, y: int, lineCount: int, m: Metrics)
    requires i <= |text|
    ensures forall d :: d in LinesFrom(text, i, start, y, lineCount, m) ==>
      i <= d.index < |text| && start <= d.index &&
      (d.Line? <==> |text[d.index]| < m.charsPerLine)
    decreases |text| - i
  {
    if i < |text| {
      if i < start {
        LinesFromDrawsOnly(text, i + 1, start, y, lineCount, m);
      } else {
        var r := PlaceLine(text, i, y, lineCount, m);
        var count := r.lineCount + 1;
        var rest := if count == m.linesPerPage then [] else LinesFrom(text, i + 1, start, r.y + m.lineHeight, count, m);
        assert LinesFrom(text, i, start, y, lineCount, m) == r.draws + rest;
        if |text[i]| >= m.charsPerLine {
          assert r == WrapChars(text[i], i, 0, 0, y, lineCount, m);
          WrapCharsIndices(text[i], i, 0, 0, y, lineCount, m);
        } else {
          assert r.draws == [Line(i, y)];
        }
        LinesFromDrawsOnly(text, i + 1, start, r.y + m.lineHeight, count, m);
        forall d | d in r.draws + rest
          ensures i <= d.index < |text| && start <= d.index && (d.Line? <==> |text[d.index]| < m.charsPerLine)
        {
          if d in r.draws {
            assert d.index == i && (d.Line? <==> |text[i]| < m.charsPerLine);
          } else {
            assert d in rest;
          }
        }
      }
    }
  }

  /** Page `page` never shows a line of an earlier page. */
  lemma RenderPageSkipsEarlierLines(text: seq<string>, page: int, m: Metrics, d: Draw)
    requires d in RenderPage(text, page, m)
    ensures m.linesPerPage * page <= d.index < |text|
  {
    LinesFromDrawsOnly(text, 0, m.linesPerPage * page, 0, 0, m);
  }

  // ---------------------------------------------------------------------
  // Where the characters of a long line go

  /** Characters `lo` .. `hi - 1` of line `index`, one glyph width apart on
      row `y`, starting at `x`. */
  function GlyphRun(index: nat, lo: nat, hi: nat, x: int, y: int, emWidth: int): seq<Draw>
    requires lo <= hi
    decreases hi - lo
  {
    if lo == hi then [] else [Glyph(index, lo, x, y)] + GlyphRun(index, lo + 1, hi, x + emWidth, y, emWidth)
  }

  /** With no marker ahead, the rest of the line runs on along the row. */
  lemma {:induction false} WrapCharsNoMarker(line: string, index: nat, j: nat, x: int, y: int, lineCount: int, m: Metrics)
    requires j <= |line|
    requires !(j <= m.charsPerLine - 2 < |line|)
    ensures WrapChars(line, index, j, x, y, lineCount, m) ==
      Rendered(GlyphRun(index, j, |line|, x, y, m.emWidth), y, lineCount)
    decreases |line| - j
  {
    if j < |line| {
      WrapCharsNoMarker(line, index, j + 1, x + m.emWidth, y, lineCount, m);
    }
  }

  /** With the marker ahead, the row fills up to character
      `char_count_v - 2`, the marker follows it, and every later character
      goes onto the next row from one glyph width in, however long the line
      is: a logical line wraps only once. */
  lemma {:induction false} WrapCharsMarker(line: string, index: nat, j: nat, x: int, y: int, lineCount: int, m: Metrics)
    requires j <= m.charsPerLine - 2 < |line|
    ensures var w := m.charsPerLine - 1;
      WrapChars(line, index, j, x, y, lineCount, m) ==
      Rendered(GlyphRun(index, j, w, x, y, m.emWidth) +
               [WrapSign(index, x + (w - j) * m.emWidth, y), MirroredWrapSign(index, y + m.lineHeight)] +
               GlyphRun(index, w, |line|, m.emWidth, y + m.lineHeight, m.emWidth),
               y + m.lineHeight, lineCount + 1)
    decreases |line| - j
  {
    var w := m.charsPerLine - 1;
    if j + 1 == w {
      WrapCharsNoMarker(line, index, j + 1, m.emWidth, y + m.lineHeight, lineCount + 1, m);
    } else {
      WrapCharsMarker(line, index, j + 1, x + m.emWidth, y, lineCount, m);
      assert x + m.emWidth + (w - (j + 1)) * m.emWidth == x + (w - j) * m.emWidth;
    }
  }

  function CountWrapSigns(draws: seq<Draw>): nat
  {
    if |draws| == 0 then 0 else (if draws[0].WrapSign? then 1 else 0) + CountWrapSigns(draws[1..])
  }

  lemma {:induction false} CountWrapSignsAppend(a: seq<Draw>, b: seq<Draw>)
    ensures CountWrapSigns(a + b) == CountWrapSigns(a) + CountWrapSigns(b)
    decreases |a|
  {
    if |a| == 0 {
      assert a + b == b;
    } else {
      CountWrapSignsAppend(a[1..], b);
      assert (a + b)[0] == a[0];
      assert (a + b)[1..] == a[1..] + b;
    }
  }

  lemma {:induction false} CountWrapSignsGlyphRun(index: nat, lo: nat, hi: nat, x: int, y: int, emWidth: int)
    requires lo <= hi
    ensures CountWrapSigns(GlyphRun(index, lo, hi, x, y, emWidth)) == 0
    decreases hi - lo
  {
    if lo < hi {
      CountWrapSignsGlyphRun(index, lo + 1, hi, x + emWidth, y, emWidth);
    }
  }

  /** A long logical line (at least `char_count_v` characters) gets exactly
      one wrap marker when a row holds two or more characters, and none
      otherwise; it then takes two rows or one. */
  lemma LongLineWrapsOnce(text: seq<string>, i: nat, y: int, lineCount: int, m: Metrics)
    requires i < |text| && |text[i]| >= m.charsPerLine
    ensures var r := PlaceLine(text, i, y, lineCount, m);
      CountWrapSigns(r.draws) == (if m.charsPerLine >= 2 then 1 else 0) &&
      r.lineCount == lineCount + (if m.charsPerLine >= 2 then 1 else 0)
  {
    var line := text[i];
    if m.charsPerLine >= 2 {
      var w := m.charsPerLine - 1;
      WrapCharsMarker(line, i, 0, 0, y, lineCount, m);
      var a := GlyphRun(i, 0, w, 0, y, m.emWidth);
      var b := [WrapSign(i, w * m.emWidth, y), MirroredWrapSign(i, y + m.lineHeight)];
      var c := GlyphRun(i, w, |line|, m.emWidth, y + m.lineHeight, m.emWidth);
      CountWrapSignsAppend(a + b, c);
      CountWrapSignsAppend(a, b);
      CountWrapSignsGlyphRun(i, 0, w, 0, y, m.emWidth);
      CountWrapSignsGlyphRun(i, w, |line|, m.emWidth, y + m.lineHeight, m.emWidth);
      assert b[1..] == [MirroredWrapSign(i, y + m.lineHeight)];
      assert CountWrapSigns(b[1..]) == 0;
    } else {
      WrapCharsNoMarker(line, i, 0, 0, y, lineCount, m);
      CountWrapSignsGlyphRun(i, 0, |line|, 0, y, m.emWidth);
    }
  }

  // ---------------------------------------------------------------------
  // When a page is full

  /** Lines `i` .. `i + n - 1` drawn whole, one row apart from row `y` on. */
  function LineRun(i: nat, n: nat, y: int, lineHeight: int): seq<Draw>
    decreases n
  {
    if n == 0 then [] else [Line(i, y)] + LineRun(i + 1, n - 1, y + lineHeight, lineHeight)
  }

  predicate ShortFrom(text: seq<string>, i: nat, m: Metrics)
  {
    forall k :: i <= k < |text| ==> |text[k]| < m.charsPerLine
  }

  function Min(a: int, b: int): int
  {
    if a <= b then a else b
  }

  /** When no line needs wrapping, the loop draws lines one row apart until
      the row counter reaches `char_count_h` or the text ends. */
  lemma {:induction false} LinesFromShort(text: seq<string>, i: nat, start: int, y: int, lineCount: int, m: Metrics)
    requires i <= |text| && start <= i
    requires 0 <= lineCount < m.linesPerPage
    requires ShortFrom(text, i, m)
    ensures LinesFrom(text, i, start, y, lineCount, m) ==
      LineRun(i, Min(m.linesPerPage - lineCount, |text| - i), y, m.lineHeight)
    decreases |text| - i
  {
    if i < |text| {
      if lineCount + 1 < m.linesPerPage {
        LinesFromShort(text, i + 1, start, y + m.lineHeight, lineCount + 1, m);
      }
    }
  }

  lemma {:induction false} LinesFromSkip(text: seq<string>, i: nat, start: nat, y: int, lineCount: int, m: Metrics)
    requires i <= start <= |text|
    ensures LinesFrom(text, i, start, y, lineCount, m) == LinesFrom(text, start, start, y, lineCount, m)
    decreases start - i
  {
    if i < start {
      LinesFromSkip(text, i + 1, start, y, lineCount, m);
    }
  }

  /** A page of text without long lines shows the `char_count_h` lines from
      `char_count_h * page` on (fewer on the last page), one row apart from
      the top of the textbox. */
  lemma PageOfShortLines(text: seq<string>, page: nat, m: Metrics)
    requires m.linesPerPage > 0
    requires m.linesPerPage * page <= |text|
    requires ShortFrom(text, 0, m)
    ensures var start := m.linesPerPage * page;
      RenderPage(text, page, m) == LineRun(start, Min(m.linesPerPage, |text| - start), 0, m.lineHeight)
  {
    var start := m.linesPerPage * page;
    LinesFromSkip(text, 0, start, 0, 0, m);
    LinesFromShort(text, start, start, 0, 0, m);
  }

  /** The page count is a floor, yet no line is lost: every line lies on a
      page the cursor can reach, since the cursor may go up to `pages`
      itself. */
  lemma EveryLineReachable(lineCount: nat, linesPerPage: int, k: nat)
    requires linesPerPage > 0 && k < lineCount
    ensures 0 <= k / linesPerPage <= LastPage(lineCount, linesPerPage)
  {
    var p := LastPage(lineCount, linesPerPage);
    var q := k / linesPerPage;
    if q > p {
      MulMonotone(p + 1, q, linesPerPage);
    }
  }

  /** The other face of the floor: when the text fills its pages exactly, the
      last reachable page is empty. */
  lemma LastPageEmptyOnExactFit(text: seq<string>, m: Metrics)
    requires m.linesPerPage > 0 && |text| % m.linesPerPage == 0
    ensures RenderPage(text, LastPage(|text|, m.linesPerPage), m) == []
  {
    var p := LastPage(|text|, m.linesPerPage);
    assert m.linesPerPage * p == |text|;
    LinesFromSkip(text, 0, |text|, 0, 0, m);
  }

  /** An empty textbox has one page, which draws nothing. */
  lemma EmptyText(m: Metrics, page: int)
    requires m.linesPerPage != 0
    ensures LastPage(0, m.linesPerPage) == 0 && RenderPage([], page, m) == []
  {
  }

  /** With three characters per row and two rows per page, a wrapped first
      line fills page 0 and page 1 starts at line 2, so line 1 is drawn on no
      page the cursor can reach. */
  lemma WrappedLineHidesNextLine()
    ensures var m := Metrics(3, 2, 1, 1);
      var text := ["abcd", "e", "f"];
      LastPage(|text|, m.linesPerPage) == 1 &&
      (forall page, d :: 0 <= page <= 1 && d in RenderPage(text, page, m) ==> d.index != 1)
  {
    var m := Metrics(3, 2, 1, 1);
    var text := ["abcd", "e", "f"];
    forall page, d | 0 <= page <= 1 && d in RenderPage(text, page, m)
      ensures d.index != 1
    {
      if page == 0 {
        WrapExampleFirstPage(d);
      } else {
        LinesFromDrawsOnly(text, 0, 2, 0, 0, m);
      }
    }
  }

  /** Page 0 of the example above holds the wrapped first line and nothing else. */
  lemma WrapExampleFirstPage(d: Draw)
    requires d in RenderPage(["abcd", "e", "f"], 0, Metrics(3, 2, 1, 1))
    ensures d.index == 0
  {
    var m := Metrics(3, 2, 1, 1);
    var text := ["abcd", "e", "f"];
    var w := WrapChars(text[0], 0, 0, 0, 0, 0, m);
    WrapCharsIndices(text[0], 0, 0, 0, 0, 0, m);
    LongLineWrapsOnce(text, 0, 0, 0, m);
    assert RenderPage(text, 0, m) == w.draws;
  }

  /** A wrap on the last row of a page carries the row counter past the page
      size, the stop test never matches and the next line is drawn on row 3
      of a two-row page. */
  lemma WrapOnLastRowOverflowsPage()
    ensures var m := Metrics(3, 2, 1, 1);
      Line(2, 3) in RenderPage(["a", "bcde", "f"], 0, m)
  {
    var m := Metrics(3, 2, 1, 1);
    var text := ["a", "bcde", "f"];
    var w := WrapChars(text[1], 1, 0, 0, 1, 1, m);
    LongLineWrapsOnce(text, 1, 1, 1, m);
    WrapCharsMarker(text[1], 1, 0, 0, 1, 1, m);
    assert w.y == 2 && w.lineCount == 2;
    assert LinesFrom(text, 2, 0, 3, 3, m) == [Line(2, 3)];
    assert LinesFrom(text, 1, 0, 1, 1, m) == w.draws + [Line(2, 3)];
    assert RenderPage(text, 0, m) == [Line(0, 0)] + w.draws + [Line(2, 3)];
  }
}
