/** Screen geometry of the kiosk: the rectangles pygame hit-tests against and
    the measurements `calculate_sizes` derives from the display size
    (gui.py:94-134), plus the menu-grid cursor of `render_menu`
    (gui.py:233-283). Python's float factors are taken as exact reals. */
module Geometry {

  datatype Point = Point(x: int, y: int)
  datatype Size = Size(w: int, h: int)

  /** A `pygame.Rect(x, y, w, h)`. */
  datatype Rect = Rect(x: int, y: int, w: int, h: int)
  {
    /** `Rect.collidepoint`: the left and top edges belong to the rectangle,
        the right and bottom edges do not. */
    predicate CollidePoint(p: Point)
    {
      x <= p.x < x + w && y <= p.y < y + h
    }

    /** Every point of this rectangle is a point of `outer`. */
    predicate Inside(outer: Rect)
    {
      outer.x <= x && x + w <= outer.x + outer.w &&
      outer.y <= y && y + h <= outer.y + outer.h
    }
  }

  /** No point lies in both rectangles. */
  predicate Disjoint(a: Rect, b: Rect)
  {
    a.x + a.w <= b.x || b.x + b.w <= a.x || a.y + a.h <= b.y || b.y + b.h <= a.y
  }

  lemma DisjointNoCommonPoint(a: Rect, b: Rect, p: Point)
    requires Disjoint(a, b)
    ensures !(a.CollidePoint(p) && b.CollidePoint(p))
  {
  }

  /** Python's `int(x)` on a float: truncation toward zero. */
  function Trunc(x: real): (r: int)
    ensures x >= 0.0 ==> r == x.Floor
    ensures x < 0.0 ==> x <= r as real < x + 1.0
    ensures (r as real) - 1.0 < x < (r as real) + 1.0
  {
    if x >= 0.0 then x.Floor else -((-x).Floor)
  }

  /** The upper limit `max_menu_icon_size` (gui.py:28). */
  const MaxMenuIconSize: int := 200

  /** Every measurement `calculate_sizes` stores. */
  datatype Layout = Layout(
    titlebarFontSize: int,
    textFontSize: int,
    titlebarSize: Size,
    textboxSize: Size,
    textboxPosition: Point,
    menuPosition: Point,
    pagingUp: Rect,
    pagingDown: Rect,
    menuButtonSize: int,
    menuButtonPadding: int,
    menuIconSize: int)
  {
    function TextboxRect(): Rect
    {
      Rect(textboxPosition.x, textboxPosition.y, textboxSize.w, textboxSize.h)
    }
  }

  /** `calculate_sizes` for a display of size `display` and the configured
      font-size correction. */
  function ComputeLayout(display: Size, scaleCorrection: real): (l: Layout)
    // the titlebar sits on top and the textbox takes the rest of the height
    ensures l.titlebarSize.w == display.w && l.textboxSize.w == display.w
    ensures l.titlebarSize.h + l.textboxSize.h == display.h
    ensures l.textboxPosition == l.menuPosition == Point(0, l.titlebarSize.h)
    // the two paging zones: full width, half the textbox high, stacked
    ensures l.pagingUp == Rect(0, l.titlebarSize.h, display.w, l.pagingUp.h)
    ensures l.pagingDown == Rect(0, l.pagingUp.y + l.pagingUp.h, display.w, l.pagingUp.h)
    ensures 2 * l.pagingUp.h <= l.textboxSize.h <= 2 * l.pagingUp.h + 1
    // menu sizing
    ensures l.menuIconSize <= MaxMenuIconSize
    ensures l.menuButtonSize >= 0 ==> l.menuIconSize <= l.menuButtonSize
    ensures display.w >= 0 ==>
      l.menuButtonSize >= 0 && l.menuButtonPadding >= 0 &&
      3 * l.menuButtonSize + 4 * l.menuButtonPadding <= display.w
  {
    var titlebarFontSize := ((display.w as real) / 20.0 * scaleCorrection).Floor;
    var titlebarHeight := Trunc(titlebarFontSize as real * 1.5);
    var textboxHeight := display.h - titlebarHeight;
    var pagingHeight := textboxHeight / 2;
    var buttonSize := ((display.w as real) / 3.0 * 0.9).Floor;
    var padding := Trunc(((display.w - 3 * buttonSize) as real) / 4.0);
    var iconSize := Trunc(buttonSize as real * 0.9);
    MenuSizing(display.w, buttonSize, padding);
    Layout(
      titlebarFontSize,
      (titlebarFontSize as real * 0.8).Floor,
      Size(display.w, titlebarHeight),
      Size(display.w, textboxHeight),
      Point(0, titlebarHeight),
      Point(0, titlebarHeight),
      Rect(0, titlebarHeight, display.w, pagingHeight),
      Rect(0, titlebarHeight + pagingHeight, display.w, pagingHeight),
      buttonSize,
      padding,
      if iconSize > MaxMenuIconSize then MaxMenuIconSize else iconSize)
  }

  /** The arithmetic behind the menu-sizing clauses of `ComputeLayout`. */
  lemma MenuSizing(w: int, buttonSize: int, padding: int)
    requires buttonSize == ((w as real) / 3.0 * 0.9).Floor
    requires padding == Trunc(((w - 3 * buttonSize) as real) / 4.0)
    ensures w >= 0 ==> buttonSize >= 0 && padding >= 0 && 3 * buttonSize + 4 * padding <= w
  {
    if w >= 0 {
      assert (buttonSize as real) <= (w as real) * 0.3;
      assert 3 * buttonSize <= w;
      var rest := ((w - 3 * buttonSize) as real) / 4.0;
      assert rest >= 0.0;
      assert (padding as real) <= rest;
    }
  }

  /** Both paging zones lie inside the textbox and never overlap, so a point
      of the textbox hits at most one of them. */
  lemma PagingZonesInsideTextbox(display: Size, scaleCorrection: real)
    requires ComputeLayout(display, scaleCorrection).textboxSize.h >= 0
    ensures var l := ComputeLayout(display, scaleCorrection);
      l.pagingUp.Inside(l.TextboxRect()) && l.pagingDown.Inside(l.TextboxRect()) &&
      Disjoint(l.pagingUp, l.pagingDown)
  {
  }

  /** The cursor of `render_menu`: `button_pos_x`, `button_pos_y` and
      `button_count` before drawing the next button. */
  datatype GridCursor = GridCursor(x: int, y: int, count: int)

  /** One turn of the `render_menu` loop after a button is placed: step right
      and, when the counter has just reached 3, go back to the left on the
      next row. The counter is never reset. */
  function GridStep(c: GridCursor, size: int, padding: int): GridCursor
  {
    var count := c.count + 1;
    if count == 3 then GridCursor(padding, c.y + size + padding, count)
    else GridCursor(c.x + size + padding, c.y, count)
  }

  /** The cursor before the `k`-th menu button. */
  function CursorAt(k: nat, size: int, padding: int): GridCursor
  {
    if k == 0 then GridCursor(padding, padding, 0)
    else GridStep(CursorAt(k - 1, size, padding), size, padding)
  }

  /** Where the loop puts button `k`: buttons 0-2 on the first row and every
      later button on the second, since the counter wraps only once. */
  lemma {:induction false} CursorAtClosedForm(k: nat, size: int, padding: int)
    ensures CursorAt(k, size, padding) == GridCursor(
      if k < 3 then padding + k * (size + padding) else padding + (k - 3) * (size + padding),
      if k < 3 then padding else padding + size + padding,
      k)
  {
    if k > 0 {
      CursorAtClosedForm(k - 1, size, padding);
      if k != 3 {
        var j := if k < 3 then k else k - 3;
        assert j * (size + padding) == (j - 1) * (size + padding) + size + padding;
      }
    }
  }

  /** The clickable bounds `render_menu` writes into the `k`-th menu button:
      a square of side `size`, at the grid cell of button `k`, offset by the
      menu position. */
  function MenuButtonBounds(k: nat, size: int, padding: int, origin: Point): (r: Rect)
    ensures r.w == size && r.h == size
    ensures k < 3 ==> r.x == origin.x + padding + k * (size + padding) && r.y == origin.y + padding
    ensures k >= 3 ==>
      r.x == origin.x + padding + (k - 3) * (size + padding) &&
      r.y == origin.y + 2 * padding + size
  {
    CursorAtClosedForm(k, size, padding);
    var c := CursorAt(k, size, padding);
    Rect(origin.x + c.x, origin.y + c.y, size, size)
  }

  /** With non-negative sizes no two menu buttons overlap, so a click hits at
      most one of them. */
  lemma MenuButtonsDisjoint(j: nat, k: nat, size: int, padding: int, origin: Point)
    requires j < k && size >= 0 && padding >= 0
    ensures Disjoint(MenuButtonBounds(j, size, padding, origin), MenuButtonBounds(k, size, padding, origin))
  {
    var a := MenuButtonBounds(j, size, padding, origin);
    var b := MenuButtonBounds(k, size, padding, origin);
    if (j < 3) == (k < 3) {
      var cj := if j < 3 then j else j - 3;
      var ck := if k < 3 then k else k - 3;
      ColumnsApart(cj, ck, size, padding);
      assert a.x + a.w <= b.x;
    } else {
      assert a.y + a.h <= b.y;
    }
  }

  /** Two different columns of one menu row are a button width apart. */
  lemma ColumnsApart(cj: int, ck: int, size: int, padding: int)
    requires cj < ck && size >= 0 && padding >= 0
    ensures padding + cj * (size + padding) + size <= padding + ck * (size + padding)
  {
    var q := size + padding;
    MulMonotone(cj + 1, ck, q);
    assert (cj + 1) * q == cj * q + q;
  }

  lemma MulMonotone(a: int, b: int, c: int)
    requires a <= b && c >= 0
    ensures a * c <= b * c
  {
  }

  /** The six buttons of the 3 x 2 grid fit inside the textbox of the layout
      `calculate_sizes` computed for a display of non-negative size. */
  lemma MenuGridInsideTextbox(display: Size, scaleCorrection: real, k: nat)
    requires display.w >= 0 && k < 6
    requires var l := ComputeLayout(display, scaleCorrection);
      2 * l.menuButtonSize + 3 * l.menuButtonPadding <= l.textboxSize.h
    ensures var l := ComputeLayout(display, scaleCorrection);
      MenuButtonBounds(k, l.menuButtonSize, l.menuButtonPadding, l.menuPosition).Inside(l.TextboxRect())
  {
    var l := ComputeLayout(display, scaleCorrection);
    var s, p := l.menuButtonSize, l.menuButtonPadding;
    var col := if k < 3 then k else k - 3;
    var r := MenuButtonBounds(k, s, p, l.menuPosition);
    assert r.x == p + col * (s + p) && r.w == s;
    assert col * (s + p) <= 2 * (s + p) by {
      if col == 1 {
      } else if col == 2 {
      }
    }
    assert r.y + r.h <= l.menuPosition.y + 2 * p + 2 * s;
  }
}
