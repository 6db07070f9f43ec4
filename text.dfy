/**
 * The cursor loop of ssd1306_print: which characters are drawn where, and
 * where the loop leaves the text cursor.
 */
module Text {
  import opened Constants
  import opened Framebuffer
  import opened Glyphs

  const NEWLINE: Byte := 10
  const CARRIAGE_RETURN: Byte := 13

  /** The text attributes of the display that print reads: text_size, text_color, text_bg_color and wrap. */
  datatype Style = Style(size: int, color: int, bg: int, wrap: bool)

  /** One character drawn by print: draw_char_internal(x, y, c, ...). */
  datatype Place = Place(x: int, y: int, c: Byte)

  /**
   * The outcome of printing a string from a cursor position: the
   * characters drawn, in order, the final cursor, and whether the loop
   * stopped early because the cursor had reached the bottom of the panel.
   */
  datatype Run = Run(placed: seq<Place>, x: int, y: int, stopped: bool)

  /** A character that moves the cursor instead of being drawn. */
  predicate IsControl(c: Byte)
  {
    c == NEWLINE || c == CARRIAGE_RETURN
  }

  /** The cursor print draws a character at: the start of the next text row when wrapping is on and the cell would overrun the right edge. */
  function WrapX(x: int, st: Style, width: int): int
  {
    if st.wrap && x + 6 * st.size > width then 0 else x
  }

  function WrapY(x: int, y: int, st: Style, width: int): int
  {
    if st.wrap && x + 6 * st.size > width then y + 8 * st.size else y
  }

  /**
   * The loop of ssd1306_print over `text`, from cursor (x, y) on a panel of
   * the given width and height: a newline returns to column 0 of the next
   * text row, a carriage return to column 0 of the same row; any other
   * character first wraps when it must, ends the loop when the cursor is at
   * or below the bottom edge, and otherwise is drawn and advances the
   * cursor by one cell of 6 * size pixels.
   */
  function PrintRun(text: seq<Byte>, x: int, y: int, st: Style, width: int, height: int): (r: Run)
    ensures st.size >= 0 && x >= 0 ==> r.x >= 0
    ensures st.size >= 0 ==> r.y >= y
    ensures r.stopped ==> r.y >= height
    decreases |text|
  {
    if text == [] then Run([], x, y, false)
    else if text[0] == NEWLINE then PrintRun(text[1..], 0, y + 8 * st.size, st, width, height)
    else if text[0] == CARRIAGE_RETURN then PrintRun(text[1..], 0, y, st, width, height)
    else
      var cx, cy := WrapX(x, st, width), WrapY(x, y, st, width);
      if cy >= height then Run([], cx, cy, true)
      else
        var rest := PrintRun(text[1..], cx + 6 * st.size, cy, st, width, height);
        Run([Place(cx, cy, text[0])] + rest.placed, rest.x, rest.y, rest.stopped)
  }

  /** The pixel writes of drawing the placed characters in order. */
  function Rendered(placed: seq<Place>, st: Style): seq<Plot>
    decreases |placed|
  {
    if placed == [] then []
    else
      var p := placed[|placed| - 1];
      Rendered(placed[..|placed| - 1], st) + GlyphPlots(p.x, p.y, p.c, st.color, st.bg, st.size)
  }

  /** The buffer after drawing the placed characters in order, one glyph at a time. */
  function Drawn(orig: seq<Byte>, width: int, height: int, placed: seq<Place>, st: Style): (r: seq<Byte>)
    requires Sized(orig, width, height)
    ensures Sized(r, width, height)
    decreases |placed|
  {
    if placed == [] then orig
    else
      var p := placed[|placed| - 1];
      Paint(Drawn(orig, width, height, placed[..|placed| - 1], st), width, height, GlyphPlots(p.x, p.y, p.c, st.color, st.bg, st.size))
  }

  /** Drawing the placed characters one glyph at a time paints their writes in order. */
  lemma {:induction false} DrawnIsPaint(orig: seq<Byte>, width: int, height: int, placed: seq<Place>, st: Style)
    requires Sized(orig, width, height)
    ensures Drawn(orig, width, height, placed, st) == Paint(orig, width, height, Rendered(placed, st))
    decreases |placed|
  {
    if placed != [] {
      var init, p := placed[..|placed| - 1], placed[|placed| - 1];
      DrawnIsPaint(orig, width, height, init, st);
      PaintAppend(orig, width, height, Rendered(init, st), GlyphPlots(p.x, p.y, p.c, st.color, st.bg, st.size));
    }
  }

  /**
   * Printing s + t is printing s, then, unless that stopped the loop,
   * printing t from where s left the cursor.
   */
  lemma {:induction false} PrintRunAppend(s: seq<Byte>, t: seq<Byte>, x: int, y: int, st: Style, width: int, height: int)
    ensures PrintRun(s + t, x, y, st, width, height) ==
      var a := PrintRun(s, x, y, st, width, height);
      if a.stopped then a
      else
        var b := PrintRun(t, a.x, a.y, st, width, height);
        Run(a.placed + b.placed, b.x, b.y, b.stopped)
    decreases |s|
  {
    if s == [] {
      assert s + t == t;
    } else {
      assert (s + t)[0] == s[0];
      assert (s + t)[1..] == s[1..] + t;
      if s[0] == NEWLINE {
        PrintRunAppend(s[1..], t, 0, y + 8 * st.size, st, width, height);
      } else if s[0] == CARRIAGE_RETURN {
        PrintRunAppend(s[1..], t, 0, y, st, width, height);
      } else {
        var cx, cy := WrapX(x, st, width), WrapY(x, y, st, width);
        if cy < height {
          PrintRunAppend(s[1..], t, cx + 6 * st.size, cy, st, width, height);
          var g := [Place(cx, cy, s[0])];
          var a := PrintRun(s[1..], cx + 6 * st.size, cy, st, width, height);
          if !a.stopped {
            var b := PrintRun(t, a.x, a.y, st, width, height);
            assert g + (a.placed + b.placed) == (g + a.placed) + b.placed;
          }
        }
      }
    }
  }

  /** Once the cursor is at or below the bottom edge, nothing more is drawn. */
  lemma {:induction false} PrintBelowBottom(text: seq<Byte>, x: int, y: int, st: Style, width: int, height: int)
    requires st.size >= 0 && y >= height
    ensures PrintRun(text, x, y, st, width, height).placed == []
    decreases |text|
  {
    if text != [] {
      if text[0] == NEWLINE {
        PrintBelowBottom(text[1..], 0, y + 8 * st.size, st, width, height);
      } else if text[0] == CARRIAGE_RETURN {
        PrintBelowBottom(text[1..], 0, y, st, width, height);
      }
    }
  }

  /**
   * Without line breaks and without wrapping, a string on a row above the
   * bottom edge is drawn entirely, one cell of 6 * size pixels per
   * character.
   */
  lemma {:induction false} PrintAdvances(text: seq<Byte>, x: int, y: int, st: Style, width: int, height: int)
    requires !st.wrap && y < height
    requires forall k :: 0 <= k < |text| ==> !IsControl(text[k])
    ensures var r := PrintRun(text, x, y, st, width, height);
      r.x == x + 6 * st.size * |text| && r.y == y && !r.stopped
    decreases |text|
  {
    if text != [] {
      assert !IsControl(text[0]);
      PrintAdvances(text[1..], x + 6 * st.size, y, st, width, height);
      assert 6 * st.size * |text| == 6 * st.size + 6 * st.size * |text[1..]|;
    }
  }

  /** A lit write of a glyph lies inside the glyph's box. */
  lemma GlyphAimsInBox(x: int, y: int, c: Byte, color: int, bg: int, size: int, px: int, py: int)
    requires size >= 1 && AimsAt(GlyphPlots(x, y, c, color, bg, size), px, py)
    ensures InGlyphBox(x, y, size, px, py)
  {
    HitsAimsAt(GlyphPlots(x, y, c, color, bg, size), px, py);
    if !InGlyphBox(x, y, size, px, py) {
      GlyphHitsOutside(x, y, c, color, bg, size, px, py);
    }
  }

  /** Every placed character starts at a column >= 0 and its cell of 6 * size pixels ends by `width`. */
  predicate CellsInWidth(placed: seq<Place>, size: int, width: int)
  {
    forall k :: 0 <= k < |placed| ==> 0 <= placed[k].x && placed[k].x + 6 * size <= width
  }

  /**
   * With wrapping on and a panel at least one cell wide, text started
   * within the panel's width places every character cell within the
   * width, and leaves the cursor within it.
   */
  lemma {:induction false} PrintPlacesInWidth(text: seq<Byte>, x: int, y: int, st: Style, width: int, height: int)
    requires st.wrap && st.size >= 1 && 6 * st.size <= width && 0 <= x <= width
    ensures var r := PrintRun(text, x, y, st, width, height);
      0 <= r.x <= width && CellsInWidth(r.placed, st.size, width)
    decreases |text|
  {
    if text != [] {
      if text[0] == NEWLINE {
        PrintPlacesInWidth(text[1..], 0, y + 8 * st.size, st, width, height);
      } else if text[0] == CARRIAGE_RETURN {
        PrintPlacesInWidth(text[1..], 0, y, st, width, height);
      } else {
        var cx, cy := WrapX(x, st, width), WrapY(x, y, st, width);
        if cy < height {
          PrintPlacesInWidth(text[1..], cx + 6 * st.size, cy, st, width, height);
          var rest := PrintRun(text[1..], cx + 6 * st.size, cy, st, width, height);
          var placed := [Place(cx, cy, text[0])] + rest.placed;
          forall k | 0 <= k < |placed|
            ensures 0 <= placed[k].x && placed[k].x + 6 * st.size <= width
          {
            if k > 0 {
              assert placed[k] == rest.placed[k - 1];
            }
          }
        }
      }
    }
  }

  lemma CellsInWidthPrefix(placed: seq<Place>, size: int, width: int)
    requires |placed| > 0 && CellsInWidth(placed, size, width)
    ensures CellsInWidth(placed[..|placed| - 1], size, width)
  {
    var init := placed[..|placed| - 1];
    forall k | 0 <= k < |init| ensures 0 <= init[k].x && init[k].x + 6 * size <= width {
      assert init[k] == placed[k];
    }
  }

  /** Characters whose cells lie within the width write only columns 0 .. width - 1. */
  lemma {:induction false} RenderedInWidth(placed: seq<Place>, st: Style, width: int, px: int, py: int)
    requires st.size >= 1 && CellsInWidth(placed, st.size, width)
    requires AimsAt(Rendered(placed, st), px, py)
    ensures 0 <= px < width
    decreases |placed|
  {
    var init, p := placed[..|placed| - 1], placed[|placed| - 1];
    var g := GlyphPlots(p.x, p.y, p.c, st.color, st.bg, st.size);
    assert Rendered(placed, st) == Rendered(init, st) + g;
    AimsAtAppend(Rendered(init, st), g, px, py);
    if AimsAt(g, px, py) {
      assert 0 <= p.x && p.x + 6 * st.size <= width;
      GlyphAimsInBox(p.x, p.y, p.c, st.color, st.bg, st.size, px, py);
    } else {
      CellsInWidthPrefix(placed, st.size, width);
      RenderedInWidth(init, st, width, px, py);
    }
  }

  /**
   * With wrapping on and a panel at least one cell wide, text started
   * within the panel's width writes only columns 0 .. width - 1.
   */
  lemma PrintStaysInWidth(text: seq<Byte>, x: int, y: int, st: Style, width: int, height: int, px: int, py: int)
    requires st.wrap && st.size >= 1 && 6 * st.size <= width && 0 <= x <= width
    requires AimsAt(Rendered(PrintRun(text, x, y, st, width, height).placed, st), px, py)
    ensures 0 <= px < width
  {
    PrintPlacesInWidth(text, x, y, st, width, height);
    RenderedInWidth(PrintRun(text, x, y, st, width, height).placed, st, width, px, py);
  }

  /** "AB\nC" printed from the origin at size 1 on a 128-pixel-wide panel leaves the cursor at (6, 8). */
  lemma PrintExample(height: int, color: int, bg: int)
    requires height > 8
    ensures var r := PrintRun([65, 66, NEWLINE, 67], 0, 0, Style(1, color, bg, true), 128, height);
      r.x == 6 && r.y == 8 && !r.stopped
  {
    var st := Style(1, color, bg, true);
    var text: seq<Byte> := [65, 66, NEWLINE, 67];
    assert text[1..] == [66, NEWLINE, 67];
    assert text[1..][1..] == [NEWLINE, 67];
    assert text[1..][1..][1..] == [67];
    var last := PrintRun([67], 0, 8, st, 128, height);
    assert last.x == 6 && last.y == 8 && !last.stopped by {
      assert [67][1..] == [];
    }
    assert PrintRun([NEWLINE, 67], 12, 0, st, 128, height) == last;
    assert PrintRun([66, NEWLINE, 67], 6, 0, st, 128, height).x == 6;
  }

  /*
   * One pass of print's loop, as a step of its invariant: the characters
   * already drawn, followed by what printing the rest of the text from the
   * current cursor draws, make up the whole run.
   */

  predicate PrintsAs(whole: Run, placed: seq<Place>, rest: seq<Byte>, x: int, y: int, st: Style, width: int, height: int)
  {
    var r := PrintRun(rest, x, y, st, width, height);
    whole == Run(placed + r.placed, r.x, r.y, r.stopped)
  }

  lemma PrintsAsStart(text: seq<Byte>, x: int, y: int, st: Style, width: int, height: int)
    ensures PrintsAs(PrintRun(text, x, y, st, width, height), [], text, x, y, st, width, height)
  {
    assert [] + PrintRun(text, x, y, st, width, height).placed == PrintRun(text, x, y, st, width, height).placed;
  }

  lemma PrintsAsEnd(whole: Run, placed: seq<Place>, x: int, y: int, st: Style, width: int, height: int)
    requires PrintsAs(whole, placed, [], x, y, st, width, height)
    ensures whole == Run(placed, x, y, false)
  {
    assert placed + [] == placed;
  }

  lemma PrintsAsNewline(whole: Run, placed: seq<Place>, text: seq<Byte>, i: int, x: int, y: int, st: Style, width: int, height: int)
    requires 0 <= i < |text| && text[i] == NEWLINE && PrintsAs(whole, placed, text[i..], x, y, st, width, height)
    ensures PrintsAs(whole, placed, text[i + 1..], 0, y + 8 * st.size, st, width, height)
  {
    assert text[i..][0] == text[i] && text[i..][1..] == text[i + 1..];
  }

  lemma PrintsAsReturn(whole: Run, placed: seq<Place>, text: seq<Byte>, i: int, x: int, y: int, st: Style, width: int, height: int)
    requires 0 <= i < |text| && text[i] == CARRIAGE_RETURN && PrintsAs(whole, placed, text[i..], x, y, st, width, height)
    ensures PrintsAs(whole, placed, text[i + 1..], 0, y, st, width, height)
  {
    assert text[i..][0] == text[i] && text[i..][1..] == text[i + 1..];
  }

  /** A printable character at a cursor that wraps to (cx, cy) at or below the bottom edge ends the run there. */
  lemma PrintsAsStop(whole: Run, placed: seq<Place>, text: seq<Byte>, i: int, x: int, y: int, cx: int, cy: int,
                     st: Style, width: int, height: int)
    requires 0 <= i < |text| && !IsControl(text[i]) && PrintsAs(whole, placed, text[i..], x, y, st, width, height)
    requires cx == WrapX(x, st, width) && cy == WrapY(x, y, st, width) && cy >= height
    ensures whole == Run(placed, cx, cy, true)
  {
    assert text[i..][0] == text[i];
    assert placed + [] == placed;
  }

  /** A printable character at a cursor that wraps to (cx, cy) above the bottom edge is drawn there. */
  lemma PrintsAsDraw(whole: Run, placed: seq<Place>, text: seq<Byte>, i: int, x: int, y: int, cx: int, cy: int,
                     st: Style, width: int, height: int)
    requires 0 <= i < |text| && !IsControl(text[i]) && PrintsAs(whole, placed, text[i..], x, y, st, width, height)
    requires cx == WrapX(x, st, width) && cy == WrapY(x, y, st, width) && cy < height
    ensures PrintsAs(whole, placed + [Place(cx, cy, text[i])], text[i + 1..], cx + 6 * st.size, cy, st, width, height)
  {
    assert text[i..][0] == text[i] && text[i..][1..] == text[i + 1..];
    var rest := PrintRun(text[i + 1..], cx + 6 * st.size, cy, st, width, height);
    assert placed + ([Place(cx, cy, text[i])] + rest.placed) == placed + [Place(cx, cy, text[i])] + rest.placed;
  }

  lemma RenderedSnoc(placed: seq<Place>, p: Place, st: Style)
    ensures Rendered(placed + [p], st) == Rendered(placed, st) + GlyphPlots(p.x, p.y, p.c, st.color, st.bg, st.size)
  {
    assert (placed + [p])[..|placed|] == placed;
  }
}
