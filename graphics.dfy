/**
 * The drawing operations of ssd1306_graphics.c as methods on a display:
 * each runs the source's loops, writing pixels through SetPixel, and is
 * proved to leave the buffer as Paint of the plot sequence that Raster,
 * Glyphs or Text specifies; the text setters update the cursor and the
 * text attributes.
 */
module Graphics {
  import opened Constants
  import opened Framebuffer
  import opened Raster
  import opened Glyphs
  import opened Text
  import opened Device

  /**
   * One call of ssd1306_set_pixel_internal, seen as extending the sequence
   * of writes painted so far on top of `orig`.
   */
  method PlotStep(d: Display, p: Plot, ghost orig: seq<Byte>, ghost done: seq<Plot>)
    requires d.Sized() && Sized(orig, d.width, d.height)
    requires d.buffer[..] == Paint(orig, d.width, d.height, done)
    modifies d.buffer
    ensures d.buffer[..] == Paint(orig, d.width, d.height, done + [p])
  {
    d.SetPixel(p.x, p.y, p.color);
    PaintSnoc(orig, d.width, d.height, done, p);
  }

  /** The second half of a pass of draw_line's loop: the moves along x and along y, both decided on the same e2. */
  method LineAdvance(x: int, y: int, err: int, dx: int, dy: int, sx: int, sy: int) returns (x': int, y': int, err': int)
    ensures Pen(x', y', err') == LineStep(Pen(x, y, err), dx, dy, sx, sy)
  {
    x', y', err' := x, y, err;
    var e2 := 2 * err;
    if e2 > -dy {
      err' := err' - dy;
      x' := x' + sx;
    }
    if e2 < dx {
      err' := err' + dx;
      y' := y' + sy;
    }
  }

  /** draw_line: Bresenham's loop, plotting before it tests for the end point. */
  method DrawLine(d: Display, x0: int, y0: int, x1: int, y1: int, color: int)
    requires d.Sized()
    modifies d.buffer
    ensures d.buffer[..] == Paint(old(d.buffer[..]), d.width, d.height, LinePlots(x0, y0, x1, y1, color))
  {
    var dx := Abs(x1 - x0);
    var dy := Abs(y1 - y0);
    var sx := if x0 < x1 then 1 else -1;
    var sy := if y0 < y1 then 1 else -1;
    var err := dx - dy;
    var x, y := x0, y0;
    LineStartInv(x0, y0, x1, y1);
    ghost var orig := d.buffer[..];
    ghost var whole := LinePlots(x0, y0, x1, y1, color);
    ghost var done: seq<Plot> := [];
    while true
      invariant LineInv(Pen(x, y, err), x1, y1, dx, dy, sx, sy)
      invariant done + LineFrom(Pen(x, y, err), x1, y1, dx, dy, sx, sy, color) == whole
      invariant d.buffer[..] == Paint(orig, d.width, d.height, done)
      decreases StepsX(Pen(x, y, err), x1, sx) + StepsY(Pen(x, y, err), y1, sy)
    {
      ghost var p := Pen(x, y, err);
      LineFromNext(p, x1, y1, dx, dy, sx, sy, color, done, whole);
      PlotStep(d, Plot(x, y, color), orig, done);
      done := done + [Plot(x, y, color)];
      if x == x1 && y == y1 {
        break;
      }
      LineStepKeepsInv(p, x1, y1, dx, dy, sx, sy);
      x, y, err := LineAdvance(x, y, err, dx, dy, sx, sy);
    }
  }

  /**
   * draw_rect, with the guard the outline needs: a rectangle without width
   * or height draws nothing. The two loops are those of the source.
   */
  method DrawRect(d: Display, x: int, y: int, w: int, h: int, color: int)
    requires d.Sized()
    modifies d.buffer
    ensures d.buffer[..] == Paint(old(d.buffer[..]), d.width, d.height, OutlinePlots(x, y, w, h, color))
  {
    if w <= 0 || h <= 0 {
      return;
    }
    ghost var orig := d.buffer[..];
    DrawTopBottom(d, x, y, w, h, color);
    DrawLeftRight(d, x, y, w, h, color, orig, TopBottom(x, y, h, color, w));
  }

  /** The first loop of draw_rect: the top and the bottom pixel of each column. */
  method DrawTopBottom(d: Display, x: int, y: int, w: int, h: int, color: int)
    requires d.Sized() && w >= 0
    modifies d.buffer
    ensures d.buffer[..] == Paint(old(d.buffer[..]), d.width, d.height, TopBottom(x, y, h, color, w))
  {
    ghost var orig := d.buffer[..];
    var i := 0;
    while i < w
      invariant 0 <= i <= w
      invariant d.buffer[..] == Paint(orig, d.width, d.height, TopBottom(x, y, h, color, i))
    {
      ghost var done := TopBottom(x, y, h, color, i);
      PlotStep(d, Plot(x + i, y, color), orig, done);
      PlotStep(d, Plot(x + i, y + h - 1, color), orig, done + [Plot(x + i, y, color)]);
      TopBottomNext(x, y, h, color, i);
      i := i + 1;
    }
  }

  /** The second loop of draw_rect: the left and the right pixel of each row, after the writes `top`. */
  method DrawLeftRight(d: Display, x: int, y: int, w: int, h: int, color: int, ghost orig: seq<Byte>, ghost top: seq<Plot>)
    requires d.Sized() && Sized(orig, d.width, d.height) && h >= 0
    requires d.buffer[..] == Paint(orig, d.width, d.height, top)
    modifies d.buffer
    ensures d.buffer[..] == Paint(orig, d.width, d.height, top + LeftRight(x, y, w, color, h))
  {
    PaintNone(orig, d.width, d.height, top, LeftRight(x, y, w, color, 0));
    var i := 0;
    while i < h
      invariant 0 <= i <= h
      invariant d.buffer[..] == Paint(orig, d.width, d.height, top + LeftRight(x, y, w, color, i))
    {
      ghost var done := top + LeftRight(x, y, w, color, i);
      PlotStep(d, Plot(x, y + i, color), orig, done);
      PlotStep(d, Plot(x + w - 1, y + i, color), orig, done + [Plot(x, y + i, color)]);
      LeftRightNext(top, x, y, w, color, i);
      i := i + 1;
    }
  }

  /** fill_rect: rows j = 0 .. h - 1, and in each the columns i = 0 .. w - 1. */
  method FillRect(d: Display, x: int, y: int, w: int, h: int, color: int)
    requires d.Sized()
    modifies d.buffer
    ensures d.buffer[..] == Paint(old(d.buffer[..]), d.width, d.height, FillPlots(x, y, w, h, color))
  {
    ghost var orig := d.buffer[..];
    var j := 0;
    while j < h
      invariant 0 <= j <= if h > 0 then h else 0
      invariant d.buffer[..] == Paint(orig, d.width, d.height, FillRows(x, y, w, color, j))
    {
      FillSpan(d, x, y, j, w, color, orig, FillRows(x, y, w, color, j));
      FillRowsNext(x, y, w, color, j);
      j := j + 1;
    }
    assert FillRows(x, y, w, color, j) == FillRows(x, y, w, color, h);
  }

  /** The inner loop of fill_rect: row j of the rectangle, left to right. */
  method FillSpan(d: Display, x: int, y: int, j: int, w: int, color: int, ghost orig: seq<Byte>, ghost rows: seq<Plot>)
    requires d.Sized() && Sized(orig, d.width, d.height)
    requires d.buffer[..] == Paint(orig, d.width, d.height, rows)
    modifies d.buffer
    ensures d.buffer[..] == Paint(orig, d.width, d.height, rows + FillRow(x, y, j, color, w))
  {
    PaintNone(orig, d.width, d.height, rows, FillRow(x, y, j, color, 0));
    var i := 0;
    while i < w
      invariant 0 <= i <= if w > 0 then w else 0
      invariant d.buffer[..] == Paint(orig, d.width, d.height, rows + FillRow(x, y, j, color, i))
    {
      PlotStep(d, Plot(x + i, y + j, color), orig, rows + FillRow(x, y, j, color, i));
      FillRowNext(rows, x, y, j, color, i);
      i := i + 1;
    }
    assert FillRow(x, y, j, color, i) == FillRow(x, y, j, color, w);
  }

  /** The eight symmetric writes of one pass of draw_circle's loop, in the source's order. */
  method DrawOctet(d: Display, x0: int, y0: int, x: int, y: int, color: int)
    requires d.Sized()
    modifies d.buffer
    ensures d.buffer[..] == Paint(old(d.buffer[..]), d.width, d.height, Octet(x0, y0, x, y, color))
  {
    ghost var orig := d.buffer[..];
    ghost var s: seq<Plot> := [];
    PlotStep(d, Plot(x0 + x, y0 + y, color), orig, s);
    s := s + [Plot(x0 + x, y0 + y, color)];
    PlotStep(d, Plot(x0 - x, y0 + y, color), orig, s);
    s := s + [Plot(x0 - x, y0 + y, color)];
    PlotStep(d, Plot(x0 + x, y0 - y, color), orig, s);
    s := s + [Plot(x0 + x, y0 - y, color)];
    PlotStep(d, Plot(x0 - x, y0 - y, color), orig, s);
    s := s + [Plot(x0 - x, y0 - y, color)];
    PlotStep(d, Plot(x0 + y, y0 + x, color), orig, s);
    s := s + [Plot(x0 + y, y0 + x, color)];
    PlotStep(d, Plot(x0 - y, y0 + x, color), orig, s);
    s := s + [Plot(x0 - y, y0 + x, color)];
    PlotStep(d, Plot(x0 + y, y0 - x, color), orig, s);
    s := s + [Plot(x0 + y, y0 - x, color)];
    PlotStep(d, Plot(x0 - y, y0 - x, color), orig, s);
    s := s + [Plot(x0 - y, y0 - x, color)];
    assert s == Octet(x0, y0, x, y, color);
  }

  /** The end of a pass of draw_circle's loop: the decision variable picks between (x + 1, y) and (x + 1, y - 1). */
  method CircleAdvance(x: int, y: int, dv: int) returns (x': int, y': int, dv': int)
    ensures dv < 0 ==> x' == x + 1 && y' == y && dv' == dv + 4 * x + 6
    ensures dv >= 0 ==> x' == x + 1 && y' == y - 1 && dv' == dv + 4 * (x - y) + 10
  {
    x', y', dv' := x, y, dv;
    if dv' < 0 {
      dv' := dv' + 4 * x' + 6;
    } else {
      dv' := dv' + 4 * (x' - y') + 10;
      y' := y' - 1;
    }
    x' := x' + 1;
  }

  /** draw_circle: the midpoint loop over the first octant, with decision variable d (here dv). */
  method DrawCircle(d: Display, x0: int, y0: int, r: int, color: int)
    requires d.Sized()
    modifies d.buffer
    ensures d.buffer[..] == Paint(old(d.buffer[..]), d.width, d.height, CirclePlots(x0, y0, r, color))
  {
    var x := 0;
    var y := r;
    var dv := 3 - 2 * r;
    ghost var orig := d.buffer[..];
    ghost var whole := CirclePlots(x0, y0, r, color);
    ghost var done: seq<Plot> := [];
    assert done + CircleFrom(x0, y0, x, y, dv, color) == whole;
    while y >= x
      invariant done + CircleFrom(x0, y0, x, y, dv, color) == whole
      invariant d.buffer[..] == Paint(orig, d.width, d.height, done)
      decreases if y >= x then y - x + 1 else 0
    {
      CircleFromNext(x0, y0, x, y, dv, color, done, whole);
      DrawOctet(d, x0, y0, x, y, color);
      PaintAppend(orig, d.width, d.height, done, Octet(x0, y0, x, y, color));
      done := done + Octet(x0, y0, x, y, color);
      x, y, dv := CircleAdvance(x, y, dv);
    }
    CircleFromDone(x0, y0, x, y, dv, color, done, whole);
  }

  /** fill_circle: every offset (x, y) in the square -r .. r with x * x + y * y <= r * r, row by row. */
  method FillCircle(d: Display, x0: int, y0: int, r: int, color: int)
    requires d.Sized()
    modifies d.buffer
    ensures d.buffer[..] == Paint(old(d.buffer[..]), d.width, d.height, DiscPlots(x0, y0, r, color))
  {
    ghost var orig := d.buffer[..];
    var y := -r;
    while y <= r
      invariant -r <= y <= if r >= 0 then r + 1 else -r
      invariant d.buffer[..] == Paint(orig, d.width, d.height, DiscRows(x0, y0, r, color, y + r))
    {
      ghost var rows := DiscRows(x0, y0, r, color, y + r);
      PaintNone(orig, d.width, d.height, rows, DiscRow(x0, y0, r, y, color, 0));
      var x := -r;
      while x <= r
        invariant -r <= x <= r + 1
        invariant d.buffer[..] == Paint(orig, d.width, d.height, rows + DiscRow(x0, y0, r, y, color, x + r))
      {
        DiscRowNext(rows, x0, y0, r, y, color, x);
        if x * x + y * y <= r * r {
          PlotStep(d, Plot(x0 + x, y0 + y, color), orig, rows + DiscRow(x0, y0, r, y, color, x + r));
        }
        x := x + 1;
      }
      DiscRowsNext(x0, y0, r, color, y);
      y := y + 1;
    }
    assert DiscRows(x0, y0, r, color, y + r) == DiscPlots(x0, y0, r, color);
  }

  /** The writes for one font pixel: a single pixel at size 1, otherwise the size x size square, column by column. */
  method DrawScaled(d: Display, x: int, y: int, i: int, j: int, color: int, size: int)
    requires d.Sized()
    modifies d.buffer
    ensures d.buffer[..] == Paint(old(d.buffer[..]), d.width, d.height, Scaled(x, y, i, j, color, size))
  {
    if size == 1 {
      ghost var orig := d.buffer[..];
      PlotStep(d, Plot(x + i, y + j, color), orig, []);
      assert [] + [Plot(x + i, y + j, color)] == Scaled(x, y, i, j, color, size);
    } else {
      DrawBlock(d, x + i * size, y + j * size, color, size);
    }
  }

  /** The scaled branch of draw_char_internal: the size x size square with top-left corner (left, top), column by column. */
  method DrawBlock(d: Display, left: int, top: int, color: int, size: int)
    requires d.Sized()
    modifies d.buffer
    ensures d.buffer[..] == Paint(old(d.buffer[..]), d.width, d.height, Block(left, top, color, size, size))
  {
    ghost var orig := d.buffer[..];
    var a := 0;
    while a < size
      invariant 0 <= a <= if size > 0 then size else 0
      invariant d.buffer[..] == Paint(orig, d.width, d.height, Block(left, top, color, size, a))
    {
      ScaledColumn(d, left + a, top, size, color, orig, Block(left, top, color, size, a));
      BlockNext(left, top, color, size, a);
      a := a + 1;
    }
    assert Block(left, top, color, size, a) == Block(left, top, color, size, size);
  }

  /** The inner loop of the scaled branch of draw_char_internal: one column of a block, top to bottom. */
  method ScaledColumn(d: Display, cx: int, top: int, size: int, color: int, ghost orig: seq<Byte>, ghost cols: seq<Plot>)
    requires d.Sized() && Sized(orig, d.width, d.height) && size >= 0
    requires d.buffer[..] == Paint(orig, d.width, d.height, cols)
    modifies d.buffer
    ensures d.buffer[..] == Paint(orig, d.width, d.height, cols + BlockColumn(cx, top, color, size))
  {
    PaintNone(orig, d.width, d.height, cols, BlockColumn(cx, top, color, 0));
    var b := 0;
    while b < size
      invariant 0 <= b <= size
      invariant d.buffer[..] == Paint(orig, d.width, d.height, cols + BlockColumn(cx, top, color, b))
    {
      PlotStep(d, Plot(cx, top + b, color), orig, cols + BlockColumn(cx, top, color, b));
      BlockColumnNext(cols, cx, top, color, b);
      b := b + 1;
    }
  }

  /** The loops of draw_char_internal over the five columns and eight rows of one glyph. */
  method DrawGlyph(d: Display, x: int, y: int, glyph: seq<Byte>, color: int, bg: int, size: int)
    requires d.Sized() && |glyph| == 5
    modifies d.buffer
    ensures d.buffer[..] == Paint(old(d.buffer[..]), d.width, d.height, GlyphColumns(x, y, glyph, color, bg, size, 5))
  {
    ghost var orig := d.buffer[..];
    var i := 0;
    while i < 5
      invariant 0 <= i <= 5
      invariant d.buffer[..] == Paint(orig, d.width, d.height, GlyphColumns(x, y, glyph, color, bg, size, i))
    {
      DrawGlyphColumn(d, x, y, glyph, i, color, bg, size, orig, GlyphColumns(x, y, glyph, color, bg, size, i));
      GlyphColumnsNext(x, y, glyph, color, bg, size, i);
      i := i + 1;
    }
  }

  /** The inner loop of draw_char_internal: the eight font pixels of column i, top to bottom. */
  method DrawGlyphColumn(d: Display, x: int, y: int, glyph: seq<Byte>, i: int, color: int, bg: int, size: int,
                         ghost orig: seq<Byte>, ghost cols: seq<Plot>)
    requires d.Sized() && Sized(orig, d.width, d.height) && |glyph| == 5 && 0 <= i < 5
    requires d.buffer[..] == Paint(orig, d.width, d.height, cols)
    modifies d.buffer
    ensures d.buffer[..] == Paint(orig, d.width, d.height, cols + GlyphColumn(x, y, glyph, i, color, bg, size, 8))
  {
    PaintNone(orig, d.width, d.height, cols, GlyphColumn(x, y, glyph, i, color, bg, size, 0));
    var line := glyph[i];
    var j := 0;
    while j < 8
      invariant 0 <= j <= 8
      invariant d.buffer[..] == Paint(orig, d.width, d.height, cols + GlyphColumn(x, y, glyph, i, color, bg, size, j))
    {
      ghost var done := cols + GlyphColumn(x, y, glyph, i, color, bg, size, j);
      DrawCell(d, x, y, line, i, j, color, bg, size);
      PaintAppend(orig, d.width, d.height, done, Cell(x, y, line, i, j, color, bg, size));
      GlyphColumnNext(cols, x, y, glyph, i, color, bg, size, j);
      j := j + 1;
    }
  }

  /** The body of the inner loop of draw_char_internal: font pixel (i, j), whose bit is bit j of `line`. */
  method DrawCell(d: Display, x: int, y: int, line: Byte, i: int, j: int, color: int, bg: int, size: int)
    requires d.Sized() && 0 <= j < 8
    modifies d.buffer
    ensures d.buffer[..] == Paint(old(d.buffer[..]), d.width, d.height, Cell(x, y, line, i, j, color, bg, size))
  {
    if line & ((1 as Byte) << j) != 0 {
      DrawScaled(d, x, y, i, j, color, size);
    } else if bg != color {
      DrawScaled(d, x, y, i, j, bg, size);
    }
  }

  /** draw_char_internal: a code without a glyph is drawn as a space; then the glyph's loops. */
  method DrawChar(d: Display, x: int, y: int, c: Byte, color: int, bg: int, size: int)
    requires d.Sized()
    modifies d.buffer
    ensures d.buffer[..] == Paint(old(d.buffer[..]), d.width, d.height, GlyphPlots(x, y, c, color, bg, size))
  {
    var shown := if c < 32 || c > 126 then 32 else c as int;
    var index := shown - 32;
    if index >= GLYPHS {
      index := 0;
    }
    assert index == GlyphIndex(c);
    DrawGlyph(d, x, y, Font5x7(index), color, bg, size);
  }

  /** The text attributes print reads from the display. */
  function TextStyle(d: Display): Style
    reads d`textSize, d`textColor, d`textBgColor, d`wrap
  {
    Style(d.textSize, d.textColor, d.textBgColor, d.wrap)
  }

  /**
   * The drawing step of print's loop: draw_char_internal at the cursor, with
   * the display's text attributes, then the cursor moves one cell right.
   */
  method PrintChar(d: Display, c: Byte, ghost orig: seq<Byte>, ghost st: Style, ghost placed: seq<Place>,
                   ghost w: int, ghost h: int) returns (ghost placed': seq<Place>)
    requires d.Sized() && d.width == w && d.height == h && Sized(orig, w, h)
    requires st == Style(d.textSize, d.textColor, d.textBgColor, d.wrap)
    requires d.buffer[..] == Drawn(orig, w, h, placed, st)
    modifies d`cursorX, d.buffer
    ensures placed' == placed + [Place(old(d.cursorX), d.cursorY, c)]
    ensures d.cursorX == old(d.cursorX) + 6 * st.size
    ensures d.buffer[..] == Drawn(orig, w, h, placed', st)
  {
    DrawChar(d, d.cursorX, d.cursorY, c, d.textColor, d.textBgColor, d.textSize);
    placed' := placed + [Place(d.cursorX, d.cursorY, c)];
    assert placed'[..|placed|] == placed;
    d.cursorX := d.cursorX + 6 * d.textSize;
  }

  /**
   * ssd1306_print: the characters PrintRun places are drawn in order, and
   * the cursor ends where PrintRun leaves it. Nothing but the cursor and
   * the buffer's contents changes.
   */
  method Print(d: Display, text: seq<Byte>)
    requires d.Sized()
    modifies d`cursorX, d`cursorY, d.buffer
    ensures var r := PrintRun(text, old(d.cursorX), old(d.cursorY), TextStyle(d), d.width, d.height);
      d.cursorX == r.x && d.cursorY == r.y &&
      d.buffer[..] == Paint(old(d.buffer[..]), d.width, d.height, Rendered(r.placed, TextStyle(d)))
  {
    ghost var orig := d.buffer[..];
    ghost var st := TextStyle(d);
    ghost var w, h := d.width, d.height;
    ghost var whole := PrintRun(text, d.cursorX, d.cursorY, st, w, h);
    ghost var placed: seq<Place> := [];
    PrintsAsStart(text, d.cursorX, d.cursorY, st, w, h);
    var i := 0;
    while i < |text|
      invariant 0 <= i <= |text|
      invariant st == Style(d.textSize, d.textColor, d.textBgColor, d.wrap) && w == d.width && h == d.height
      invariant PrintsAs(whole, placed, text[i..], d.cursorX, d.cursorY, st, w, h)
      invariant d.buffer[..] == Drawn(orig, w, h, placed, st)
    {
      var stop;
      stop, placed := PrintPass(d, text, i, orig, st, whole, placed, w, h);
      if stop {
        DrawnIsPaint(orig, w, h, placed, st);
        return;
      }
      i := i + 1;
    }
    assert text[i..] == [];
    PrintsAsEnd(whole, placed, d.cursorX, d.cursorY, st, w, h);
    DrawnIsPaint(orig, w, h, placed, st);
  }

  /**
   * One pass of print's loop, for text[i]: a newline or a carriage return moves the
   * cursor; any other character wraps first when wrapping is on, then stops the
   * loop (stop) if the cursor is at or below the bottom edge, or is drawn and
   * advances the cursor.
   */
  method PrintPass(d: Display, text: seq<Byte>, i: int, ghost orig: seq<Byte>, ghost st: Style,
                   ghost whole: Run, ghost placed: seq<Place>, ghost w: int, ghost h: int)
    returns (stop: bool, ghost placed': seq<Place>)
    requires d.Sized() && d.width == w && d.height == h && Sized(orig, w, h) && 0 <= i < |text|
    requires st == Style(d.textSize, d.textColor, d.textBgColor, d.wrap)
    requires PrintsAs(whole, placed, text[i..], d.cursorX, d.cursorY, st, w, h)
    requires d.buffer[..] == Drawn(orig, w, h, placed, st)
    modifies d`cursorX, d`cursorY, d.buffer
    ensures d.buffer[..] == Drawn(orig, w, h, placed', st)
    ensures stop ==> whole == Run(placed', d.cursorX, d.cursorY, true)
    ensures !stop ==> PrintsAs(whole, placed', text[i + 1..], d.cursorX, d.cursorY, st, w, h)
  {
    placed', stop := placed, false;
    var c := text[i];
    if c == NEWLINE {
      PrintsAsNewline(whole, placed, text, i, d.cursorX, d.cursorY, st, w, h);
      d.cursorY := d.cursorY + 8 * d.textSize;
      d.cursorX := 0;
      return;
    }
    if c == CARRIAGE_RETURN {
      PrintsAsReturn(whole, placed, text, i, d.cursorX, d.cursorY, st, w, h);
      d.cursorX := 0;
      return;
    }
    ghost var x, y := d.cursorX, d.cursorY;
    if d.wrap && d.cursorX + 6 * d.textSize > d.width {
      d.cursorX := 0;
      d.cursorY := d.cursorY + 8 * d.textSize;
    }
    if d.cursorY >= d.height {
      PrintsAsStop(whole, placed, text, i, x, y, d.cursorX, d.cursorY, st, w, h);
      stop := true;
      return;
    }
    PrintsAsDraw(whole, placed, text, i, x, y, d.cursorX, d.cursorY, st, w, h);
    placed' := PrintChar(d, c, orig, st, placed, w, h);
  }

  /** ssd1306_set_cursor. */
  method SetCursor(d: Display, x: int, y: int)
    modifies d`cursorX, d`cursorY
    ensures d.cursorX == x && d.cursorY == y
  {
    d.cursorX := x;
    d.cursorY := y;
  }

  /** The text size set_text_size stores: sizes below 1 become 1. */
  function ClampTextSize(size: int): (s: int)
    ensures s >= 1
    ensures size >= 1 ==> s == size
    ensures size < 1 ==> s == 1
  {
    if size < 1 then 1 else size
  }

  /** ssd1306_set_text_size. */
  method SetTextSize(d: Display, size: int)
    modifies d`textSize
    ensures d.textSize == ClampTextSize(size)
  {
    var s := size;
    if s < 1 {
      s := 1;
    }
    d.textSize := s;
  }

  /** ssd1306_set_text_color: the foreground only; the background keeps its value. */
  method SetTextColor(d: Display, color: int)
    modifies d`textColor
    ensures d.textColor == color
  {
    d.textColor := color;
  }
}
