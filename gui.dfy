/** The `gui` object of gui.py: display size, colours, the three button
    lists, the menu flag, the textbox content and its page cursor. Its
    layout methods update fields in place and are modelled as methods whose
    postconditions tie the new fields to the functions of `Geometry` and
    `TextPaging`. */
module Gui {
  import opened Strings
  import opened Geometry
  import opened TextPaging

  /** The controller operations a button can be bound to (its "command"). */
  datatype Command =
    | ToggleMenu
    | SwitchToWireless
    | SwitchToWired
    | Shutdown
    | CheckNet
    | ScanWifi
    | CustomCommand
    | PageUp
    | PageDown

  /** A button record: label, bound command and, once a layout method has
      run, its clickable bounds. */
  datatype Button = Button(text: string, command: Command, bounds: Option<Rect>)

  /** A `pygame.Color` built from three channels. */
  datatype Color = Color(r: int, g: int, b: int)

  predicate ValidChannel(v: int)
  {
    0 <= v <= 255
  }

  /** `string_to_color`: split on commas and read the first three fields as
      integers; `None` is the `ValueError`/`IndexError` that ends start-up.
      Fields after the third are ignored. */
  function StringToColor(s: string): (c: Option<Color>)
    ensures c.Some? ==> ValidChannel(c.value.r) && ValidChannel(c.value.g) && ValidChannel(c.value.b)
    ensures c.Some? <==>
      var f := Split(s, ',');
      |f| >= 3 && ParseInt(f[0]).Some? && ParseInt(f[1]).Some? && ParseInt(f[2]).Some? &&
      ValidChannel(ParseInt(f[0]).value) && ValidChannel(ParseInt(f[1]).value) && ValidChannel(ParseInt(f[2]).value)
    ensures c.Some? ==> var f := Split(s, ',');
      c.value == Color(ParseInt(f[0]).value, ParseInt(f[1]).value, ParseInt(f[2]).value)
  {
    var f := Split(s, ',');
    if |f| < 3 then None
    else
      match (ParseInt(f[0]), ParseInt(f[1]), ParseInt(f[2]))
      case (Some(r), Some(g), Some(b)) =>
        if ValidChannel(r) && ValidChannel(g) && ValidChannel(b) then Some(Color(r, g, b)) else None
      case _ => None
  }

  /** The "R,G,B" text of a colour. */
  function ColorText(c: Color): string
  {
    IntToString(c.r) + "," + IntToString(c.g) + "," + IntToString(c.b)
  }

  lemma NoCommaInNumber(n: int)
    ensures ',' !in IntToString(n)
  {
    var s := NatToString(if n < 0 then -n else n);
    assert forall k :: 0 <= k < |s| ==> IsDigit(s[k]);
    if n < 0 {
      assert IntToString(n) == "-" + s;
      assert forall k :: 0 <= k < |IntToString(n)| ==> IntToString(n)[k] != ',' by {
        forall k | 0 <= k < |IntToString(n)| ensures IntToString(n)[k] != ',' {
          if k > 0 { assert IntToString(n)[k] == s[k - 1]; }
        }
      }
    }
  }

  /** Three comma-free fields joined by commas split back into those fields. */
  lemma SplitThree(a: string, b: string, c: string)
    requires ',' !in a && ',' !in b && ',' !in c
    ensures Split(a + "," + b + "," + c, ',') == [a, b, c]
  {
    var tail := b + [','] + c;
    assert a + "," + b + "," + c == a + [','] + tail;
    SplitAfterField(a, tail, ',');
    SplitAfterField(b, c, ',');
    SplitNoSep(c, ',');
  }

  /** A valid colour written as "R,G,B" reads back as itself. */
  lemma ColorRoundTrip(c: Color)
    requires ValidChannel(c.r) && ValidChannel(c.g) && ValidChannel(c.b)
    ensures StringToColor(ColorText(c)) == Some(c)
  {
    NoCommaInNumber(c.r);
    NoCommaInNumber(c.g);
    NoCommaInNumber(c.b);
    SplitThree(IntToString(c.r), IntToString(c.g), IntToString(c.b));
    ParseIntToString(c.r);
    ParseIntToString(c.g);
    ParseIntToString(c.b);
  }

  /** The display size read from the `resolution` setting at gui.py:16: the
      first comma field is parsed and used for both the width and the
      height. `None` is the `ValueError` that ends start-up. */
  function ParseDisplaySize(resolution: string): (r: Option<Size>)
    ensures r.Some? ==> r.value.w == r.value.h
    ensures r.Some? <==> ParseInt(Split(resolution, ',')[0]).Some?
    ensures r.Some? ==> r.value.w == ParseInt(Split(resolution, ',')[0]).value
  {
    var f := Split(resolution, ',');
    match ParseInt(f[0])
    case Some(v) => Some(Size(v, v))
    case None => None
  }

  /** A "W,H" setting yields a W x W display whatever H is. */
  lemma DisplaySizeIgnoresHeight(w: int, h: int)
    ensures ParseDisplaySize(IntToString(w) + "," + IntToString(h)) == Some(Size(w, w))
  {
    var a, b := IntToString(w), IntToString(h);
    NoCommaInNumber(w);
    NoCommaInNumber(h);
    assert Join([a, b], ',') == a + "," + b;
    SplitJoin([a, b], ',');
    ParseIntToString(w);
  }

  /** The pen position of `render_titlebar` before titlebar button `k`:
      every label moves it right by 1.1 times the label's width. */
  function TitlebarPenX(buttons: seq<Button>, k: nat, textSize: string -> Size): real
    requires k <= |buttons|
  {
    if k == 0 then 0.0
    else TitlebarPenX(buttons, k - 1, textSize) + (textSize(buttons[k - 1].text).w as real) * 1.1
  }

  /** The clickable bounds of one titlebar label of size `size` drawn at
      pen position `x` in a titlebar `titlebarHeight` high. `pygame.Rect`
      truncates the float pen position, and the third argument, meant as a
      width, is the label's right edge. */
  function LabelBounds(x: real, size: Size, titlebarHeight: int): Rect
  {
    Rect(Trunc(x), 0, Trunc(x + (size.w as real)), size.h + 2 * Trunc(titlebarHeight as real / 6.0))
  }

  /** The clickable bounds `render_titlebar` writes into titlebar button `k`. */
  function TitlebarBounds(buttons: seq<Button>, k: nat, textSize: string -> Size, titlebarHeight: int): Rect
    requires k < |buttons|
  {
    LabelBounds(TitlebarPenX(buttons, k, textSize), textSize(buttons[k].text), titlebarHeight)
  }

  /** With label widths that are not negative the pen never moves left. */
  lemma {:induction false} TitlebarPenNonNegative(buttons: seq<Button>, k: nat, textSize: string -> Size)
    requires k <= |buttons|
    requires forall j :: 0 <= j < k ==> textSize(buttons[j].text).w >= 0
    ensures TitlebarPenX(buttons, k, textSize) >= 0.0
  {
    if k > 0 {
      TitlebarPenNonNegative(buttons, k - 1, textSize);
    }
  }

  /** Titlebar button `k` starts at the whole part of the pen position, at
      the top of the titlebar, and reaches down past its label by twice the
      text offset. Its width is the label's right edge, so every button
      after the first is wider than its label by its own x position. */
  lemma TitlebarBoundsShape(buttons: seq<Button>, k: nat, textSize: string -> Size, titlebarHeight: int)
    requires k < |buttons|
    requires forall j :: 0 <= j <= k ==> textSize(buttons[j].text).w >= 0
    ensures var r := TitlebarBounds(buttons, k, textSize, titlebarHeight);
      var size := textSize(buttons[k].text);
      r.x == TitlebarPenX(buttons, k, textSize).Floor && r.y == 0 &&
      r.w == r.x + size.w && r.h == size.h + 2 * Trunc(titlebarHeight as real / 6.0)
  {
    TitlebarPenNonNegative(buttons, k, textSize);
    var x := TitlebarPenX(buttons, k, textSize);
    var w := textSize(buttons[k].text).w;
    assert (x + (w as real)).Floor == x.Floor + w;
  }

  /** What one display refresh shows below the titlebar: the menu grid, the
      textbox placements, or nothing because the textbox computation raised. */
  datatype Frame = MenuFrame | TextboxFrame(draws: seq<Draw>) | TextboxFailed

  /** Font size below which antialiasing is switched off (`alias_threshold`). */
  const AliasThreshold: int := 15

  const UpButtonText: string := "Up"
  const DownButtonText: string := "Down"

  class Gui {
    var fullscreen: bool
    var displaySize: Size
    var windowSize: Size
    var fgColor: Color
    var bgColor: Color
    var cursorVisible: bool
    var scaleCorrection: real
    var fontAntialiased: bool
    var layout: Layout
    var titlebarButtons: seq<Button>
    var menuButtons: seq<Button>
    var pagingButtons: seq<Button>
    var menuOpen: bool
    var interfaceText: string
    var textboxText: seq<string>
    var textboxCurrentPage: int
    var pages: int

    /** The layout always belongs to the current display size, and the two
        paging buttons carry the bounds of the current paging zones. */
    ghost predicate Valid()
      reads this`layout, this`displaySize, this`scaleCorrection, this`pagingButtons
    {
      layout == ComputeLayout(displaySize, scaleCorrection) &&
      |pagingButtons| == 2 &&
      pagingButtons[0] == Button(UpButtonText, PageUp, Some(layout.pagingUp)) &&
      pagingButtons[1] == Button(DownButtonText, PageDown, Some(layout.pagingDown))
    }

    /** `gui.__init__` followed by `init()`: the display subsystem grants a
        surface of size `surface`, the sizes are computed from it and the
        fonts are created. */
    constructor (fg: Color, bg: Color, scaleCorrection: real, cursorSetting: string, surface: Size)
      ensures Valid()
      ensures fullscreen && menuOpen
      ensures displaySize == surface && windowSize == Size(640, 480)
      ensures fgColor == fg && bgColor == bg && this.scaleCorrection == scaleCorrection
      ensures cursorVisible == (cursorSetting == "1")
      ensures fontAntialiased == (layout.textFontSize >= AliasThreshold)
      ensures titlebarButtons == [] && menuButtons == [] && textboxText == []
      ensures textboxCurrentPage == 0 && pages == 0
    {
      fullscreen := true;
      displaySize := surface;
      windowSize := Size(640, 480);
      fgColor, bgColor := fg, bg;
      cursorVisible := cursorSetting == "1";
      this.scaleCorrection := scaleCorrection;
      fontAntialiased := true;
      titlebarButtons, menuButtons := [], [];
      pagingButtons := [Button(UpButtonText, PageUp, None), Button(DownButtonText, PageDown, None)];
      menuOpen := true;
      interfaceText := "";
      textboxText := [];
      textboxCurrentPage, pages := 0, 0;
      new;
      CalculateSizes();
      CreateFonts();
    }

    /** `calculate_sizes`: recompute every measurement from the display size
        and write the paging-zone bounds. */
    method CalculateSizes()
      requires |pagingButtons| == 2
      modifies this`layout, this`pagingButtons
      ensures layout == ComputeLayout(displaySize, scaleCorrection)
      ensures pagingButtons == [old(pagingButtons[0]).(bounds := Some(layout.pagingUp)),
                                old(pagingButtons[1]).(bounds := Some(layout.pagingDown))]
    {
      layout := ComputeLayout(displaySize, scaleCorrection);
      pagingButtons := pagingButtons[0 := pagingButtons[0].(bounds := Some(layout.pagingUp))];
      pagingButtons := pagingButtons[1 := pagingButtons[1].(bounds := Some(layout.pagingDown))];
    }

    /** The antialiasing switch of `create_fonts`: once turned off for a small
        font it stays off. */
    method CreateFonts()
      modifies this`fontAntialiased
      ensures fontAntialiased == (old(fontAntialiased) && layout.textFontSize >= AliasThreshold)
    {
      if layout.textFontSize < AliasThreshold {
        fontAntialiased := false;
      }
    }

    /** `display_resize`: the display subsystem grants a surface of size
        `surface`; sizes and fonts follow it. */
    method DisplayResize(surface: Size)
      requires Valid()
      modifies this`displaySize, this`layout, this`pagingButtons, this`fontAntialiased
      ensures Valid()
      ensures displaySize == surface && layout == ComputeLayout(surface, scaleCorrection)
      ensures pagingButtons == [old(pagingButtons[0]).(bounds := Some(layout.pagingUp)),
                                old(pagingButtons[1]).(bounds := Some(layout.pagingDown))]
      ensures fontAntialiased == (old(fontAntialiased) && layout.textFontSize >= AliasThreshold)
    {
      displaySize := surface;
      CalculateSizes();
      CreateFonts();
    }

    /** `set_text`: new content, shown from its first page. */
    method SetText(text: seq<string>)
      modifies this`textboxText, this`textboxCurrentPage
      ensures textboxText == text && textboxCurrentPage == 0
    {
      textboxText := text;
      textboxCurrentPage := 0;
    }

    /** `scroll_textbox`: one page up (`up`) or down, clamped to
        `[0, pages]`. */
    method ScrollTextbox(up: bool)
      modifies this`textboxCurrentPage
      ensures textboxCurrentPage == Scroll(old(textboxCurrentPage), up, pages)
    {
      if up {
        textboxCurrentPage := textboxCurrentPage - 1;
      } else {
        textboxCurrentPage := textboxCurrentPage + 1;
      }
      if textboxCurrentPage < 0 {
        textboxCurrentPage := 0;
      }
      if textboxCurrentPage > pages {
        textboxCurrentPage := pages;
      }
    }

    /** The bounds part of `render_menu`: button `k` gets the grid cell the
        stepping cursor gives it; labels and commands are kept. */
    method RenderMenu()
      modifies this`menuButtons
      ensures |menuButtons| == |old(menuButtons)|
      ensures forall k :: 0 <= k < |menuButtons| ==>
        menuButtons[k] == old(menuButtons[k]).(bounds := Some(
          MenuButtonBounds(k, layout.menuButtonSize, layout.menuButtonPadding, layout.menuPosition)))
    {
      var size, padding, origin := layout.menuButtonSize, layout.menuButtonPadding, layout.menuPosition;
      var x, y := padding, padding;
      var count := 0;
      for k := 0 to |menuButtons|
        invariant |menuButtons| == |old(menuButtons)|
        invariant GridCursor(x, y, count) == CursorAt(k, size, padding)
        invariant forall j :: 0 <= j < k ==>
          menuButtons[j] == old(menuButtons[j]).(bounds := Some(MenuButtonBounds(j, size, padding, origin)))
        invariant forall j :: k <= j < |menuButtons| ==> menuButtons[j] == old(menuButtons[j])
      {
        menuButtons := menuButtons[k := menuButtons[k].(bounds := Some(Rect(origin.x + x, origin.y + y, size, size)))];
        x := x + size + padding;
        count := count + 1;
        if count == 3 {
          x := padding;
          y := y + size + padding;
        }
      }
    }

    /** `update_display` without the painting: the titlebar bounds are
        written for labels of the sizes `textSize` gives, then the open menu
        is laid out, otherwise the textbox page is. */
    method UpdateDisplay(textSize: string -> Size, emWidth: int, lineHeight: int) returns (frame: Frame)
      requires emWidth > 0 && lineHeight > 0
      modifies this`titlebarButtons, this`menuButtons, this`pages
      ensures |titlebarButtons| == |old(titlebarButtons)|
      ensures forall k :: 0 <= k < |titlebarButtons| ==>
        titlebarButtons[k] == old(titlebarButtons[k]).(bounds := Some(
          TitlebarBounds(old(titlebarButtons), k, textSize, layout.titlebarSize.h)))
      ensures menuOpen ==> (frame == MenuFrame && pages == old(pages) &&
        |menuButtons| == |old(menuButtons)| &&
        forall k :: 0 <= k < |menuButtons| ==>
          menuButtons[k] == old(menuButtons[k]).(bounds := Some(
            MenuButtonBounds(k, layout.menuButtonSize, layout.menuButtonPadding, layout.menuPosition))))
      ensures !menuOpen ==> (menuButtons == old(menuButtons) &&
        var m := MetricsFor(layout.textboxSize, emWidth, lineHeight);
        if m.linesPerPage == 0 then frame == TextboxFailed && pages == old(pages)
        else pages == LastPage(|textboxText|, m.linesPerPage) &&
             frame == TextboxFrame(RenderPage(textboxText, textboxCurrentPage, m)))
    {
      RenderTitlebar(textSize);
      if menuOpen {
        RenderMenu();
        frame := MenuFrame;
      } else {
        var drawn := RenderTextbox(emWidth, lineHeight);
        frame := if drawn.Some? then TextboxFrame(drawn.value) else TextboxFailed;
      }
    }

    /** The bounds part of `render_titlebar`, for labels of the sizes
        `textSize` gives. */
    method RenderTitlebar(textSize: string -> Size)
      modifies this`titlebarButtons
      ensures |titlebarButtons| == |old(titlebarButtons)|
      ensures forall k :: 0 <= k < |titlebarButtons| ==>
        titlebarButtons[k] == old(titlebarButtons[k]).(bounds := Some(
          TitlebarBounds(old(titlebarButtons), k, textSize, layout.titlebarSize.h)))
    {
      titlebarButtons := PlaceTitlebarButtons(titlebarButtons, textSize, layout.titlebarSize.h);
    }

    /** The placement part of `render_textbox` for a font whose glyphs are
        `emWidth` wide and whose rows are `lineHeight` high. It stores the new
        page count and returns what is drawn where; `None` is the
        `ZeroDivisionError` raised when not even one row fits. */
    method RenderTextbox(emWidth: int, lineHeight: int) returns (drawn: Option<seq<Draw>>)
      requires emWidth > 0 && lineHeight > 0
      modifies this`pages
      ensures var m := MetricsFor(layout.textboxSize, emWidth, lineHeight);
        if m.linesPerPage == 0 then drawn == None && pages == old(pages)
        else pages == LastPage(|textboxText|, m.linesPerPage) &&
             drawn == Some(RenderPage(textboxText, textboxCurrentPage, m))
    {
      var m := MetricsFor(layout.textboxSize, emWidth, lineHeight);
      if m.linesPerPage == 0 {
        return None;
      }
      var text := textboxText;
      pages := LastPage(|text|, m.linesPerPage);
      var start := m.linesPerPage * textboxCurrentPage;
      var out: seq<Draw> := [];
      var y, lineCount := 0, 0;
      var i := 0;
      while i < |text|
        invariant 0 <= i <= |text|
        invariant pages == LastPage(|text|, m.linesPerPage)
        invariant out + LinesFrom(text, i, start, y, lineCount, m) == RenderPage(text, textboxCurrentPage, m)
      {
        if i < start {
          assert LinesFrom(text, i, start, y, lineCount, m) == LinesFrom(text, i + 1, start, y, lineCount, m);
          i := i + 1;
          continue;
        }
        var line := text[i];
        ghost var before, y0, lineCount0 := out, y, lineCount;
        var placed: Rendered;
        if |line| >= m.charsPerLine {
          placed := DrawWrapped(line, i, y, lineCount, m);
        } else {
          placed := Rendered([Line(i, y)], y, lineCount);
        }
        assert placed == PlaceLine(text, i, y, lineCount, m);
        out := out + placed.draws;
        y := placed.y + m.lineHeight;
        lineCount := placed.lineCount + 1;
        ghost var rest := if lineCount == m.linesPerPage then [] else LinesFrom(text, i + 1, start, y, lineCount, m);
        assert LinesFrom(text, i, start, y0, lineCount0, m) == placed.draws + rest;
        ConcatAssoc(before, placed.draws, rest);
        if lineCount == m.linesPerPage {
          assert out + [] == out;
          break;
        }
        i := i + 1;
      }
      assert out == RenderPage(text, textboxCurrentPage, m) by {
        if i == |text| {
          assert out + [] == out;
        }
      }
      drawn := Some(out);
    }
  }

  /** The button loop of `render_titlebar`: each titlebar button gets the
      rectangle of its label at the float pen position, which then advances
      by 1.1 label widths. */
  method PlaceTitlebarButtons(buttons: seq<Button>, textSize: string -> Size, height: int)
    returns (placed: seq<Button>)
    ensures |placed| == |buttons|
    ensures forall k :: 0 <= k < |buttons| ==>
      placed[k] == buttons[k].(bounds := Some(TitlebarBounds(buttons, k, textSize, height)))
  {
    placed := buttons;
    var x: real := 0.0;
    for k := 0 to |buttons|
      invariant |placed| == |buttons|
      invariant x == TitlebarPenX(buttons, k, textSize)
      invariant forall j :: 0 <= j < k ==>
        placed[j] == buttons[j].(bounds := Some(TitlebarBounds(buttons, j, textSize, height)))
      invariant forall j :: k <= j < |buttons| ==> placed[j] == buttons[j]
    {
      var size := textSize(buttons[k].text);
      placed := placed[k := buttons[k].(bounds := Some(LabelBounds(x, size, height)))];
      x := x + (size.w as real) * 1.1;
    }
  }

  lemma ConcatAssoc<T>(a: seq<T>, b: seq<T>, c: seq<T>)
    ensures a + (b + c) == (a + b) + c
  {
  }

  /** The character loop of `render_textbox` for one long line starting on
      row `y0`: each character one glyph width further right, and when
      `char_counter` reaches `char_count_v - 1` the wrap marker, its mirrored
      copy on the next row and a pen reset to one glyph width. */
  method DrawWrapped(line: string, index: nat, y0: int, lineCount0: int, m: Metrics) returns (r: Rendered)
    ensures r == WrapChars(line, index, 0, 0, y0, lineCount0, m)
  {
    var draws: seq<Draw> := [];
    var x, y, lineCount := 0, y0, lineCount0;
    var counter := 0;
    var j := 0;
    while j < |line|
      invariant 0 <= j <= |line| && counter == j
      invariant var rest := WrapChars(line, index, j, x, y, lineCount, m);
        Rendered(draws + rest.draws, rest.y, rest.lineCount) == WrapChars(line, index, 0, 0, y0, lineCount0, m)
    {
      draws := draws + [Glyph(index, j, x, y)];
      x := x + m.emWidth;
      counter := counter + 1;
      if counter == m.charsPerLine - 1 {
        draws := draws + [WrapSign(index, x, y)];
        y := y + m.lineHeight;
        draws := draws + [MirroredWrapSign(index, y)];
        x := m.emWidth;
        lineCount := lineCount + 1;
      }
      j := j + 1;
    }
    r := Rendered(draws, y, lineCount);
  }
}
