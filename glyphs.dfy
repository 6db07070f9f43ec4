/**
 * The built-in 5x7 font and draw_char_internal of ssd1306_graphics.c: the
 * pixel writes of one character cell, in the order the loops issue them,
 * and which pixels of the scaled cell end up with which colour.
 */
module Glyphs {
  import opened Constants
  import opened Framebuffer

  /** The number of glyphs in the font: the printable ASCII codes 32 .. 126. */
  const GLYPHS: int := 95

  /** One glyph of font5x7: its five column bytes from left to right; bit j of a column is its row j, bit 0 on top. */
  datatype Columns = Columns(c0: Byte, c1: Byte, c2: Byte, c3: Byte, c4: Byte)

  /** font5x7: glyph k is the one for character code 32 + k. */
  function FontRow(k: int): Columns
    requires 0 <= k < GLYPHS
  {
    match k
    case 0 => Columns(0x00, 0x00, 0x00, 0x00, 0x00) // ' '
    case 1 => Columns(0x00, 0x00, 0x5F, 0x00, 0x00) // '!'
    case 2 => Columns(0x00, 0x07, 0x00, 0x07, 0x00) // '"'
    case 3 => Columns(0x14, 0x7F, 0x14, 0x7F, 0x14) // '#'
    case 4 => Columns(0x24, 0x2A, 0x7F, 0x2A, 0x12) // '$'
    case 5 => Columns(0x23, 0x13, 0x08, 0x64, 0x62) // '%'
    case 6 => Columns(0x36, 0x49, 0x55, 0x22, 0x50) // '&'
    case 7 => Columns(0x00, 0x05, 0x03, 0x00, 0x00) // '\''
    case 8 => Columns(0x00, 0x1C, 0x22, 0x41, 0x00) // '('
    case 9 => Columns(0x00, 0x41, 0x22, 0x1C, 0x00) // ')'
    case 10 => Columns(0x08, 0x2A, 0x1C, 0x2A, 0x08) // '*'
    case 11 => Columns(0x08, 0x08, 0x3E, 0x08, 0x08) // '+'
    case 12 => Columns(0x00, 0x50, 0x30, 0x00, 0x00) // ','
    case 13 => Columns(0x08, 0x08, 0x08, 0x08, 0x08) // '-'
    case 14 => Columns(0x00, 0x60, 0x60, 0x00, 0x00) // '.'
    case 15 => Columns(0x20, 0x10, 0x08, 0x04, 0x02) // '/'
    case 16 => Columns(0x3E, 0x51, 0x49, 0x45, 0x3E) // '0'
    case 17 => Columns(0x00, 0x42, 0x7F, 0x40, 0x00) // '1'
    case 18 => Columns(0x42, 0x61, 0x51, 0x49, 0x46) // '2'
    case 19 => Columns(0x21, 0x41, 0x45, 0x4B, 0x31) // '3'
    case 20 => Columns(0x18, 0x14, 0x12, 0x7F, 0x10) // '4'
    case 21 => Columns(0x27, 0x45, 0x45, 0x45, 0x39) // '5'
    case 22 => Columns(0x3C, 0x4A, 0x49, 0x49, 0x30) // '6'
    case 23 => Columns(0x01, 0x71, 0x09, 0x05, 0x03) // '7'
    case 24 => Columns(0x36, 0x49, 0x49, 0x49, 0x36) // '8'
    case 25 => Columns(0x06, 0x49, 0x49, 0x29, 0x1E) // '9'
    case 26 => Columns(0x00, 0x36, 0x36, 0x00, 0x00) // ':'
    case 27 => Columns(0x00, 0x56, 0x36, 0x00, 0x00) // ';'
    case 28 => Columns(0x08, 0x14, 0x22, 0x41, 0x00) // '<'
    case 29 => Columns(0x14, 0x14, 0x14, 0x14, 0x14) // '='
    case 30 => Columns(0x00, 0x41, 0x22, 0x14, 0x08) // '>'
    case 31 => Columns(0x02, 0x01, 0x51, 0x09, 0x06) // '?'
    case 32 => Columns(0x32, 0x49, 0x79, 0x41, 0x3E) // '@'
    case 33 => Columns(0x7E, 0x11, 0x11, 0x11, 0x7E) // 'A'
    case 34 => Columns(0x7F, 0x49, 0x49, 0x49, 0x36) // 'B'
    case 35 => Columns(0x3E, 0x41, 0x41, 0x41, 0x22) // 'C'
    case 36 => Columns(0x7F, 0x41, 0x41, 0x22, 0x1C) // 'D'
    case 37 => Columns(0x7F, 0x49, 0x49, 0x49, 0x41) // 'E'
    case 38 => Columns(0x7F, 0x09, 0x09, 0x09, 0x01) // 'F'
    case 39 => Columns(0x3E, 0x41, 0x49, 0x49, 0x7A) // 'G'
    case 40 => Columns(0x7F, 0x08, 0x08, 0x08, 0x7F) // 'H'
    case 41 => Columns(0x00, 0x41, 0x7F, 0x41, 0x00) // 'I'
    case 42 => Columns(0x20, 0x40, 0x41, 0x3F, 0x01) // 'J'
    case 43 => Columns(0x7F, 0x08, 0x14, 0x22, 0x41) // 'K'
    case 44 => Columns(0x7F, 0x40, 0x40, 0x40, 0x40) // 'L'
    case 45 => Columns(0x7F, 0x02, 0x0C, 0x02, 0x7F) // 'M'
    case 46 => Columns(0x7F, 0x04, 0x08, 0x10, 0x7F) // 'N'
    case 47 => Columns(0x3E, 0x41, 0x41, 0x41, 0x3E) // 'O'
    case 48 => Columns(0x7F, 0x09, 0x09, 0x09, 0x06) // 'P'
    case 49 => Columns(0x3E, 0x41, 0x51, 0x21, 0x5E) // 'Q'
    case 50 => Columns(0x7F, 0x09, 0x19, 0x29, 0x46) // 'R'
    case 51 => Columns(0x46, 0x49, 0x49, 0x49, 0x31) // 'S'
    case 52 => Columns(0x01, 0x01, 0x7F, 0x01, 0x01) // 'T'
    case 53 => Columns(0x3F, 0x40, 0x40, 0x40, 0x3F) // 'U'
    case 54 => Columns(0x1F, 0x20, 0x40, 0x20, 0x1F) // 'V'
    case 55 => Columns(0x3F, 0x40, 0x38, 0x40, 0x3F) // 'W'
    case 56 => Columns(0x63, 0x14, 0x08, 0x14, 0x63) // 'X'
    case 57 => Columns(0x07, 0x08, 0x70, 0x08, 0x07) // 'Y'
    case 58 => Columns(0x61, 0x51, 0x49, 0x45, 0x43) // 'Z'
    case 59 => Columns(0x00, 0x7F, 0x41, 0x41, 0x00) // '['
    case 60 => Columns(0x02, 0x04, 0x08, 0x10, 0x20) // '\\'
    case 61 => Columns(0x00, 0x41, 0x41, 0x7F, 0x00) // ']'
    case 62 => Columns(0x04, 0x02, 0x01, 0x02, 0x04) // '^'
    case 63 => Columns(0x40, 0x40, 0x40, 0x40, 0x40) // '_'
    case 64 => Columns(0x00, 0x01, 0x02, 0x04, 0x00) // '`'
    case 65 => Columns(0x20, 0x54, 0x54, 0x54, 0x78) // 'a'
    case 66 => Columns(0x7F, 0x48, 0x44, 0x44, 0x38) // 'b'
    case 67 => Columns(0x38, 0x44, 0x44, 0x44, 0x20) // 'c'
    case 68 => Columns(0x38, 0x44, 0x44, 0x48, 0x7F) // 'd'
    case 69 => Columns(0x38, 0x54, 0x54, 0x54, 0x18) // 'e'
    case 70 => Columns(0x08, 0x7E, 0x09, 0x01, 0x02) // 'f'
    case 71 => Columns(0x0C, 0x52, 0x52, 0x52, 0x3E) // 'g'
    case 72 => Columns(0x7F, 0x08, 0x04, 0x04, 0x78) // 'h'
    case 73 => Columns(0x00, 0x44, 0x7D, 0x40, 0x00) // 'i'
    case 74 => Columns(0x20, 0x40, 0x44, 0x3D, 0x00) // 'j'
    case 75 => Columns(0x7F, 0x10, 0x28, 0x44, 0x00) // 'k'
    case 76 => Columns(0x00, 0x41, 0x7F, 0x40, 0x00) // 'l'
    case 77 => Columns(0x7C, 0x04, 0x18, 0x04, 0x78) // 'm'
    case 78 => Columns(0x7C, 0x08, 0x04, 0x04, 0x78) // 'n'
    case 79 => Columns(0x38, 0x44, 0x44, 0x44, 0x38) // 'o'
    case 80 => Columns(0x7C, 0x14, 0x14, 0x14, 0x08) // 'p'
    case 81 => Columns(0x08, 0x14, 0x14, 0x18, 0x7C) // 'q'
    case 82 => Columns(0x7C, 0x08, 0x04, 0x04, 0x08) // 'r'
    case 83 => Columns(0x48, 0x54, 0x54, 0x54, 0x20) // 's'
    case 84 => Columns(0x04, 0x3F, 0x44, 0x40, 0x20) // 't'
    case 85 => Columns(0x3C, 0x40, 0x40, 0x20, 0x7C) // 'u'
    case 86 => Columns(0x1C, 0x20, 0x40, 0x20, 0x1C) // 'v'
    case 87 => Columns(0x3C, 0x40, 0x30, 0x40, 0x3C) // 'w'
    case 88 => Columns(0x44, 0x28, 0x10, 0x28, 0x44) // 'x'
    case 89 => Columns(0x0C, 0x50, 0x50, 0x50, 0x3C) // 'y'
    case 90 => Columns(0x44, 0x64, 0x54, 0x4C, 0x44) // 'z'
    case 91 => Columns(0x00, 0x08, 0x36, 0x41, 0x00) // '{'
    case 92 => Columns(0x00, 0x00, 0x7F, 0x00, 0x00) // '|'
    case 93 => Columns(0x00, 0x41, 0x36, 0x08, 0x00) // '}'
    case _ => Columns(0x10, 0x08, 0x08, 0x10, 0x08) // '~'
  }

  /** Glyph k of font5x7 as the sequence of its columns. */
  function Font5x7(k: int): (columns: seq<Byte>)
    requires 0 <= k < GLYPHS
    ensures |columns| == 5
  {
    var g := FontRow(k);
    [g.c0, g.c1, g.c2, g.c3, g.c4]
  }

  /** Whether a character code has a glyph of its own. */
  predicate Printable(c: Byte)
  {
    32 <= c as int <= 126
  }

  /**
   * The glyph draw_char_internal draws for c: a code outside 32 .. 126 is
   * drawn as a space. The guard that sends an index past the end of the
   * table to the space as well can never fire.
   */
  function GlyphIndex(c: Byte): (k: int)
    ensures 0 <= k < GLYPHS
    ensures Printable(c) ==> k == c as int - 32
    ensures !Printable(c) ==> k == 0
  {
    var shown := if c < 32 || c > 126 then 32 else c as int;
    var k := shown - 32;
    if k >= GLYPHS then 0 else k
  }

  /** Row j of a glyph column is set: C's `line & (1 << j)`. */
  predicate Bit(line: Byte, j: int)
    requires 0 <= j < 8
  {
    line & ((1 as Byte) << j) != 0
  }

  /** The scaled loops' inner loop (over b), its first n passes: column cx, rows top .. top + n - 1. */
  function BlockColumn(cx: int, top: int, color: int, n: int): (r: seq<Plot>)
    ensures |r| == if n <= 0 then 0 else n
    decreases n
  {
    if n <= 0 then [] else BlockColumn(cx, top, color, n - 1) + [Plot(cx, top + n - 1, color)]
  }

  /** The scaled loops, their first m passes of the outer loop (over a): columns left .. left + m - 1. */
  function Block(left: int, top: int, color: int, size: int, m: int): seq<Plot>
    decreases m
  {
    if m <= 0 then [] else Block(left, top, color, size, m - 1) + BlockColumn(left + m - 1, top, color, size)
  }

  /**
   * The writes for font pixel (i, j) in colour `color`: one pixel at size 1,
   * otherwise the size x size square at (x + i * size, y + j * size).
   */
  function Scaled(x: int, y: int, i: int, j: int, color: int, size: int): seq<Plot>
  {
    if size == 1 then [Plot(x + i, y + j, color)]
    else Block(x + i * size, y + j * size, color, size, size)
  }

  /** The writes for font pixel (i, j): the foreground where its bit is set, else the background unless it equals the foreground. */
  function Cell(x: int, y: int, line: Byte, i: int, j: int, color: int, bg: int, size: int): seq<Plot>
    requires 0 <= j < 8
  {
    if Bit(line, j) then Scaled(x, y, i, j, color, size)
    else if bg != color then Scaled(x, y, i, j, bg, size)
    else []
  }

  /** The inner loop of draw_char_internal (over j) for column i, its first n passes. */
  function GlyphColumn(x: int, y: int, glyph: seq<Byte>, i: int, color: int, bg: int, size: int, n: int): seq<Plot>
    requires |glyph| == 5 && 0 <= i < 5 && n <= 8
    decreases n
  {
    if n <= 0 then []
    else GlyphColumn(x, y, glyph, i, color, bg, size, n - 1) + Cell(x, y, glyph[i], i, n - 1, color, bg, size)
  }

  /** The outer loop of draw_char_internal (over i), its first m passes. */
  function GlyphColumns(x: int, y: int, glyph: seq<Byte>, color: int, bg: int, size: int, m: int): seq<Plot>
    requires |glyph| == 5 && m <= 5
    decreases m
  {
    if m <= 0 then []
    else GlyphColumns(x, y, glyph, color, bg, size, m - 1) + GlyphColumn(x, y, glyph, m - 1, color, bg, size, 8)
  }

  /** The writes of draw_char_internal(x, y, c, color, bg, size). */
  function GlyphPlots(x: int, y: int, c: Byte, color: int, bg: int, size: int): seq<Plot>
  {
    GlyphColumns(x, y, Font5x7(GlyphIndex(c)), color, bg, size, 5)
  }

  /** A character without a glyph is drawn exactly as a space. */
  lemma UnprintableIsSpace(x: int, y: int, c: Byte, color: int, bg: int, size: int)
    requires !Printable(c)
    ensures GlyphPlots(x, y, c, color, bg, size) == GlyphPlots(x, y, 32, color, bg, size)
  {
  }

  /** The size-1 branch of draw_char_internal writes what the scaled branch would write at size 1. */
  lemma SizeOneIsScaled(x: int, y: int, i: int, j: int, color: int)
    ensures Scaled(x, y, i, j, color, 1) == Block(x + i * 1, y + j * 1, color, 1, 1)
  {
    assert BlockColumn(x + i, y + j, color, 1) == [Plot(x + i, y + j, color)];
  }

  /*
   * Which writes of a glyph reach one pixel.
   */

  /** (px, py) lies in the size x size square of font pixel (i, j). */
  predicate InCell(x: int, y: int, size: int, i: int, j: int, px: int, py: int)
  {
    x + i * size <= px < x + i * size + size && y + j * size <= py < y + j * size + size
  }

  /** The colours draw_char_internal writes into the square of font pixel (i, j) of `glyph`. */
  function CellColors(glyph: seq<Byte>, i: int, j: int, color: int, bg: int): seq<int>
    requires |glyph| == 5 && 0 <= i < 5 && 0 <= j < 8
  {
    if Bit(glyph[i], j) then [color]
    else if bg != color then [bg]
    else []
  }

  /** The colours a run of writes that reaches a pixel at most once, in colour `color`, leaves on it. */
  function Once(color: int, hit: bool): seq<int>
  {
    if hit then [color] else []
  }

  /** Joining two runs of writes that each put `color` on (x, y) at most once, and not both. */
  lemma HitsJoin(a: seq<Plot>, b: seq<Plot>, x: int, y: int, color: int, inA: bool, inB: bool)
    requires Hits(a, x, y) == Once(color, inA)
    requires Hits(b, x, y) == Once(color, inB)
    requires !(inA && inB)
    ensures Hits(a + b, x, y) == Once(color, inA || inB)
  {
    HitsAppend(a, b, x, y);
    if inA {
      assert [color] + [] == [color];
    } else if inB {
      assert [] + [color] == [color];
    } else {
      assert Hits(a, x, y) + Hits(b, x, y) == [];
    }
  }

  /** (px, py) lies in the w x h rectangle with top-left corner (left, top). */
  predicate InRect(left: int, top: int, w: int, h: int, px: int, py: int)
  {
    left <= px < left + w && top <= py < top + h
  }

  lemma OneHits(cx: int, cy: int, color: int, px: int, py: int)
    ensures Hits([Plot(cx, cy, color)], px, py) == Once(color, InRect(cx, cy, 1, 1, px, py))
  {
    assert [Plot(cx, cy, color)][..0] == [];
  }

  lemma {:induction false} BlockColumnHits(cx: int, top: int, color: int, n: int, px: int, py: int)
    ensures Hits(BlockColumn(cx, top, color, n), px, py) == Once(color, InRect(cx, top, 1, n, px, py))
    decreases n
  {
    if n > 0 {
      var init, last := BlockColumn(cx, top, color, n - 1), Plot(cx, top + n - 1, color);
      var inA, inB := InRect(cx, top, 1, n - 1, px, py), InRect(cx, top + n - 1, 1, 1, px, py);
      BlockColumnHits(cx, top, color, n - 1, px, py);
      OneHits(cx, top + n - 1, color, px, py);
      HitsJoin(init, [last], px, py, color, inA, inB);
      assert BlockColumn(cx, top, color, n) == init + [last];
      assert (inA || inB) == InRect(cx, top, 1, n, px, py);
    }
  }

  lemma {:induction false} BlockHits(left: int, top: int, color: int, size: int, m: int, px: int, py: int)
    ensures Hits(Block(left, top, color, size, m), px, py) == Once(color, InRect(left, top, m, size, px, py))
    decreases m
  {
    if m > 0 {
      var init, col := Block(left, top, color, size, m - 1), BlockColumn(left + m - 1, top, color, size);
      var inA, inB := InRect(left, top, m - 1, size, px, py), InRect(left + m - 1, top, 1, size, px, py);
      BlockHits(left, top, color, size, m - 1, px, py);
      BlockColumnHits(left + m - 1, top, color, size, px, py);
      HitsJoin(init, col, px, py, color, inA, inB);
      assert Block(left, top, color, size, m) == init + col;
      assert (inA || inB) == InRect(left, top, m, size, px, py);
    }
  }

  lemma ScaledOneHits(x: int, y: int, i: int, j: int, color: int, px: int, py: int)
    ensures Hits(Scaled(x, y, i, j, color, 1), px, py) == Once(color, InCell(x, y, 1, i, j, px, py))
  {
    OneHits(x + i, y + j, color, px, py);
    assert InCell(x, y, 1, i, j, px, py) == InRect(x + i, y + j, 1, 1, px, py);
  }

  lemma ScaledHits(x: int, y: int, i: int, j: int, color: int, size: int, px: int, py: int)
    requires size >= 1
    ensures Hits(Scaled(x, y, i, j, color, size), px, py) == Once(color, InCell(x, y, size, i, j, px, py))
  {
    if size == 1 {
      ScaledOneHits(x, y, i, j, color, px, py);
    } else {
      var left, top := x + i * size, y + j * size;
      assert Scaled(x, y, i, j, color, size) == Block(left, top, color, size, size);
      assert InCell(x, y, size, i, j, px, py) == InRect(left, top, size, size, px, py);
      BlockHits(left, top, color, size, size, px, py);
    }
  }

  lemma CellHits(x: int, y: int, glyph: seq<Byte>, i: int, j: int, color: int, bg: int, size: int, px: int, py: int)
    requires |glyph| == 5 && size >= 1 && 0 <= i < 5 && 0 <= j < 8
    ensures Hits(Cell(x, y, glyph[i], i, j, color, bg, size), px, py) ==
      if InCell(x, y, size, i, j, px, py) then CellColors(glyph, i, j, color, bg) else []
  {
    if Bit(glyph[i], j) {
      ScaledHits(x, y, i, j, color, size, px, py);
    } else if bg != color {
      ScaledHits(x, y, i, j, bg, size, px, py);
    }
  }

  lemma MulAtLeast(a: int, n: int)
    requires a >= 1 && n >= 1
    ensures a * n >= n
  {
    assert a * n == n + (a - 1) * n;
  }

  /** Within a row of squares of side `size`, offset i * size + a (0 <= a < size) falls in square i alone. */
  lemma SquareUnique(size: int, i: int, a: int, i': int)
    requires size >= 1 && 0 <= a < size
    ensures i' * size <= i * size + a < i' * size + size <==> i' == i
  {
    if i' < i {
      assert (i - i') * size >= size by { MulAtLeast(i - i', size); }
      assert (i - i') * size == i * size - i' * size;
    } else if i' > i {
      assert (i' - i) * size >= size by { MulAtLeast(i' - i, size); }
      assert (i' - i) * size == i' * size - i * size;
    }
  }

  /** The pixel at offset (a, b) in the square of font pixel (i, j) is in the square of (i', j') only for (i, j) itself. */
  lemma CellUnique(x: int, y: int, size: int, i: int, j: int, a: int, b: int, i': int, j': int)
    requires size >= 1 && 0 <= a < size && 0 <= b < size
    ensures InCell(x, y, size, i', j', x + i * size + a, y + j * size + b) <==> i' == i && j' == j
  {
    SquareUnique(size, i, a, i');
    SquareUnique(size, j, b, j');
  }

  lemma {:induction false} ColumnHitsInside(x: int, y: int, glyph: seq<Byte>, i': int, color: int, bg: int, size: int, n: int,
                                            i: int, j: int, a: int, b: int, px: int, py: int)
    requires |glyph| == 5 && size >= 1 && 0 <= i' < 5 && n <= 8
    requires 0 <= i < 5 && 0 <= j < 8 && 0 <= a < size && 0 <= b < size
    requires px == x + i * size + a && py == y + j * size + b
    ensures Hits(GlyphColumn(x, y, glyph, i', color, bg, size, n), px, py) ==
      if i' == i && j < n then CellColors(glyph, i, j, color, bg) else []
    decreases n
  {
    if n > 0 {
      var init, cell := GlyphColumn(x, y, glyph, i', color, bg, size, n - 1), Cell(x, y, glyph[i'], i', n - 1, color, bg, size);
      ColumnHitsInside(x, y, glyph, i', color, bg, size, n - 1, i, j, a, b, px, py);
      CellHits(x, y, glyph, i', n - 1, color, bg, size, px, py);
      CellUnique(x, y, size, i, j, a, b, i', n - 1);
      HitsAppend(init, cell, px, py);
    }
  }

  lemma {:induction false} ColumnsHitsInside(x: int, y: int, glyph: seq<Byte>, color: int, bg: int, size: int, m: int,
                                             i: int, j: int, cc: seq<int>, px: int, py: int)
    requires |glyph| == 5 && m <= 5
    requires forall i' :: 0 <= i' < 5 ==>
      Hits(GlyphColumn(x, y, glyph, i', color, bg, size, 8), px, py) == if i' == i && j < 8 then cc else []
    ensures Hits(GlyphColumns(x, y, glyph, color, bg, size, m), px, py) == if 0 <= i < m && j < 8 then cc else []
    decreases m
  {
    if m > 0 {
      var init, column := GlyphColumns(x, y, glyph, color, bg, size, m - 1), GlyphColumn(x, y, glyph, m - 1, color, bg, size, 8);
      ColumnsHitsInside(x, y, glyph, color, bg, size, m - 1, i, j, cc, px, py);
      HitsAppend(init, column, px, py);
    }
  }

  /** A pixel of square (i, j) receives that square's colours from column i and nothing from the others. */
  lemma EveryColumnHitsInside(x: int, y: int, glyph: seq<Byte>, color: int, bg: int, size: int, i: int, j: int, a: int, b: int,
                              px: int, py: int)
    requires |glyph| == 5 && size >= 1 && 0 <= i < 5 && 0 <= j < 8 && 0 <= a < size && 0 <= b < size
    requires px == x + i * size + a && py == y + j * size + b
    ensures forall i' :: 0 <= i' < 5 ==>
      Hits(GlyphColumn(x, y, glyph, i', color, bg, size, 8), px, py) == if i' == i && j < 8 then CellColors(glyph, i, j, color, bg) else []
  {
    forall i' | 0 <= i' < 5
      ensures Hits(GlyphColumn(x, y, glyph, i', color, bg, size, 8), px, py) == if i' == i && j < 8 then CellColors(glyph, i, j, color, bg) else []
    {
      ColumnHitsInside(x, y, glyph, i', color, bg, size, 8, i, j, a, b, px, py);
    }
  }

  /** The five columns of `glyph` put together: a pixel of square (i, j) receives that square's colours. */
  lemma GlyphColumnsHitsInside(x: int, y: int, glyph: seq<Byte>, color: int, bg: int, size: int, i: int, j: int, a: int, b: int,
                               px: int, py: int)
    requires |glyph| == 5 && size >= 1 && 0 <= i < 5 && 0 <= j < 8 && 0 <= a < size && 0 <= b < size
    requires px == x + i * size + a && py == y + j * size + b
    ensures Hits(GlyphColumns(x, y, glyph, color, bg, size, 5), px, py) == CellColors(glyph, i, j, color, bg)
  {
    EveryColumnHitsInside(x, y, glyph, color, bg, size, i, j, a, b, px, py);
    ColumnsHitsInside(x, y, glyph, color, bg, size, 5, i, j, CellColors(glyph, i, j, color, bg), px, py);
  }

  /**
   * Pixel (a, b) of the square of font pixel (i, j) receives exactly one
   * write when that font bit is set (the foreground) or when it is clear
   * and the background differs from the foreground (the background), and
   * none otherwise.
   */
  lemma GlyphHitsInside(x: int, y: int, c: Byte, color: int, bg: int, size: int, i: int, j: int, a: int, b: int,
                        px: int, py: int)
    requires size >= 1 && 0 <= i < 5 && 0 <= j < 8 && 0 <= a < size && 0 <= b < size
    requires px == x + i * size + a && py == y + j * size + b
    ensures Hits(GlyphPlots(x, y, c, color, bg, size), px, py) == CellColors(Font5x7(GlyphIndex(c)), i, j, color, bg)
  {
    GlyphColumnsHitsInside(x, y, Font5x7(GlyphIndex(c)), color, bg, size, i, j, a, b, px, py);
  }

  /** (px, py) is inside the 5 x 8 cell of font pixels, each size x size, at (x, y). */
  predicate InGlyphBox(x: int, y: int, size: int, px: int, py: int)
  {
    x <= px < x + 5 * size && y <= py < y + 8 * size
  }

  /** The square of a font pixel lies inside the glyph's box. */
  lemma CellInBox(x: int, y: int, size: int, i: int, j: int, px: int, py: int)
    requires size >= 1 && 0 <= i < 5 && 0 <= j < 8
    requires InCell(x, y, size, i, j, px, py)
    ensures InGlyphBox(x, y, size, px, py)
  {
    assert 0 <= i * size && i * size + size <= 5 * size by {
      assert (5 - i) * size >= size by { MulAtLeast(5 - i, size); }
      assert (5 - i) * size == 5 * size - i * size;
    }
    assert 0 <= j * size && j * size + size <= 8 * size by {
      assert (8 - j) * size >= size by { MulAtLeast(8 - j, size); }
      assert (8 - j) * size == 8 * size - j * size;
    }
  }

  lemma {:induction false} ColumnHitsOutside(x: int, y: int, glyph: seq<Byte>, i: int, color: int, bg: int, size: int, n: int, px: int, py: int)
    requires |glyph| == 5 && size >= 1 && 0 <= i < 5 && n <= 8 && !InGlyphBox(x, y, size, px, py)
    ensures Hits(GlyphColumn(x, y, glyph, i, color, bg, size, n), px, py) == []
    decreases n
  {
    if n > 0 {
      var init, cell := GlyphColumn(x, y, glyph, i, color, bg, size, n - 1), Cell(x, y, glyph[i], i, n - 1, color, bg, size);
      ColumnHitsOutside(x, y, glyph, i, color, bg, size, n - 1, px, py);
      CellHits(x, y, glyph, i, n - 1, color, bg, size, px, py);
      if InCell(x, y, size, i, n - 1, px, py) {
        CellInBox(x, y, size, i, n - 1, px, py);
      }
      HitsAppend(init, cell, px, py);
    }
  }

  lemma {:induction false} ColumnsHitsOutside(x: int, y: int, glyph: seq<Byte>, color: int, bg: int, size: int, m: int, px: int, py: int)
    requires |glyph| == 5 && size >= 1 && m <= 5 && !InGlyphBox(x, y, size, px, py)
    ensures Hits(GlyphColumns(x, y, glyph, color, bg, size, m), px, py) == []
    decreases m
  {
    if m > 0 {
      var init, column := GlyphColumns(x, y, glyph, color, bg, size, m - 1), GlyphColumn(x, y, glyph, m - 1, color, bg, size, 8);
      ColumnsHitsOutside(x, y, glyph, color, bg, size, m - 1, px, py);
      ColumnHitsOutside(x, y, glyph, m - 1, color, bg, size, 8, px, py);
      HitsAppend(init, column, px, py);
    }
  }

  /** draw_char_internal writes nothing outside the glyph's box. */
  lemma GlyphHitsOutside(x: int, y: int, c: Byte, color: int, bg: int, size: int, px: int, py: int)
    requires size >= 1 && !InGlyphBox(x, y, size, px, py)
    ensures Hits(GlyphPlots(x, y, c, color, bg, size), px, py) == []
    ensures !AimsAt(GlyphPlots(x, y, c, color, bg, size), px, py)
  {
    ColumnsHitsOutside(x, y, Font5x7(GlyphIndex(c)), color, bg, size, 5, px, py);
    HitsAimsAt(GlyphPlots(x, y, c, color, bg, size), px, py);
  }

  lemma {:induction false} ColumnEmpty(x: int, y: int, glyph: seq<Byte>, i: int, color: int, bg: int, size: int, n: int)
    requires |glyph| == 5 && 0 <= i < 5 && n <= 8
    requires size <= 0 || (bg == color && glyph[i] == 0)
    ensures GlyphColumn(x, y, glyph, i, color, bg, size, n) == []
    decreases n
  {
    if n > 0 {
      ColumnEmpty(x, y, glyph, i, color, bg, size, n - 1);
      if size <= 0 {
        SquareEmpty(x, y, i, n - 1, color, size);
        SquareEmpty(x, y, i, n - 1, bg, size);
      } else {
        assert !Bit(glyph[i], n - 1);
      }
    }
  }

  lemma SquareEmpty(x: int, y: int, i: int, j: int, color: int, size: int)
    requires size <= 0
    ensures Scaled(x, y, i, j, color, size) == []
  {
  }

  lemma {:induction false} ColumnsEmpty(x: int, y: int, glyph: seq<Byte>, color: int, bg: int, size: int, m: int)
    requires |glyph| == 5 && m <= 5
    requires size <= 0 || (bg == color && glyph == [0, 0, 0, 0, 0])
    ensures GlyphColumns(x, y, glyph, color, bg, size, m) == []
    decreases m
  {
    if m > 0 {
      ColumnsEmpty(x, y, glyph, color, bg, size, m - 1);
      ColumnEmpty(x, y, glyph, m - 1, color, bg, size, 8);
    }
  }

  /** A size below 1 takes the scaled branch with empty loops: nothing is drawn. */
  lemma GlyphNonPositiveSize(x: int, y: int, c: Byte, color: int, bg: int, size: int)
    requires size <= 0
    ensures GlyphPlots(x, y, c, color, bg, size) == []
  {
    ColumnsEmpty(x, y, Font5x7(GlyphIndex(c)), color, bg, size, 5);
  }

  /** The space glyph has no set bit: with the background equal to the foreground, a space draws nothing. */
  lemma SpaceIsTransparent(x: int, y: int, color: int, size: int)
    ensures GlyphPlots(x, y, 32, color, color, size) == []
  {
    assert Font5x7(GlyphIndex(32)) == [0, 0, 0, 0, 0];
    ColumnsEmpty(x, y, Font5x7(0), color, color, size, 5);
  }

  /** What the colours of one square do to a pixel. */
  lemma CellEffect(glyph: seq<Byte>, i: int, j: int, color: int, bg: int, before: bool)
    requires |glyph| == 5 && 0 <= i < 5 && 0 <= j < 8
    ensures ApplyAll(CellColors(glyph, i, j, color, bg), before) ==
      if Bit(glyph[i], j) then ApplyColor(color, before)
      else if bg != color then ApplyColor(bg, before)
      else before
  {
    var cc := CellColors(glyph, i, j, color, bg);
    if cc != [] {
      assert cc[..|cc| - 1] == [];
    }
  }

  /**
   * The grid after draw_char_internal, inside the glyph: in the square of
   * font pixel (i, j) a set bit applies the foreground, and a clear bit the
   * background when it differs from the foreground.
   */
  lemma GlyphEffectInside(buf: seq<Byte>, width: int, height: int, x: int, y: int, c: Byte, color: int, bg: int, size: int,
                          i: int, j: int, a: int, b: int, px: int, py: int)
    requires Sized(buf, width, height) && InBounds(width, height, px, py)
    requires size >= 1 && 0 <= i < 5 && 0 <= j < 8 && 0 <= a < size && 0 <= b < size
    requires px == x + i * size + a && py == y + j * size + b
    ensures var before := Lit(buf, width, height, px, py);
      Lit(Paint(buf, width, height, GlyphPlots(x, y, c, color, bg, size)), width, height, px, py) ==
        if Bit(Font5x7(GlyphIndex(c))[i], j) then ApplyColor(color, before)
        else if bg != color then ApplyColor(bg, before)
        else before
  {
    GlyphHitsInside(x, y, c, color, bg, size, i, j, a, b, px, py);
    CellEffect(Font5x7(GlyphIndex(c)), i, j, color, bg, Lit(buf, width, height, px, py));
    PaintLit(buf, width, height, GlyphPlots(x, y, c, color, bg, size), px, py);
  }

  /** Every pixel outside the glyph's box keeps its value. */
  lemma GlyphEffectOutside(buf: seq<Byte>, width: int, height: int, x: int, y: int, c: Byte, color: int, bg: int, size: int,
                           px: int, py: int)
    requires Sized(buf, width, height) && size >= 1 && !InGlyphBox(x, y, size, px, py)
    ensures Lit(Paint(buf, width, height, GlyphPlots(x, y, c, color, bg, size)), width, height, px, py) ==
      Lit(buf, width, height, px, py)
  {
    GlyphHitsOutside(x, y, c, color, bg, size, px, py);
    PaintUntouched(buf, width, height, GlyphPlots(x, y, c, color, bg, size), px, py);
  }

  /*
   * One pass of each loop of draw_char_internal, as a step from n passes to n + 1.
   */

  lemma BlockColumnNext(pre: seq<Plot>, cx: int, top: int, color: int, n: int)
    requires n >= 0
    ensures pre + BlockColumn(cx, top, color, n + 1) == pre + BlockColumn(cx, top, color, n) + [Plot(cx, top + n, color)]
  {
    var c := BlockColumn(cx, top, color, n);
    assert pre + (c + [Plot(cx, top + n, color)]) == pre + c + [Plot(cx, top + n, color)];
  }

  lemma BlockNext(left: int, top: int, color: int, size: int, m: int)
    requires m >= 0
    ensures Block(left, top, color, size, m + 1) == Block(left, top, color, size, m) + BlockColumn(left + m, top, color, size)
  {
  }

  lemma GlyphColumnNext(pre: seq<Plot>, x: int, y: int, glyph: seq<Byte>, i: int, color: int, bg: int, size: int, n: int)
    requires |glyph| == 5 && 0 <= i < 5 && 0 <= n < 8
    ensures pre + GlyphColumn(x, y, glyph, i, color, bg, size, n + 1) ==
      pre + GlyphColumn(x, y, glyph, i, color, bg, size, n) + Cell(x, y, glyph[i], i, n, color, bg, size)
  {
    var g, c := GlyphColumn(x, y, glyph, i, color, bg, size, n), Cell(x, y, glyph[i], i, n, color, bg, size);
    assert pre + (g + c) == pre + g + c;
  }

  lemma GlyphColumnsNext(x: int, y: int, glyph: seq<Byte>, color: int, bg: int, size: int, m: int)
    requires |glyph| == 5 && 0 <= m < 5
    ensures GlyphColumns(x, y, glyph, color, bg, size, m + 1) ==
      GlyphColumns(x, y, glyph, color, bg, size, m) + GlyphColumn(x, y, glyph, m, color, bg, size, 8)
  {
  }
}
