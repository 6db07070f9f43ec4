/**
 * The packed framebuffer of ssd1306_display.c, as a value.
 *
 * The buffer holds `width * (height / 8)` bytes. Pixel (x, y) is bit `y % 8`
 * of byte `x + (y / 8) * width` (bit 0 is the top row of its 8-row page).
 * `Lit` reads that layout back as a grid of booleans; `SetPx` is the pure
 * counterpart of ssd1306_set_pixel_internal; `Paint` applies a sequence of
 * pixel writes in order, which is how every raster primitive is specified.
 */
module Framebuffer {
  import opened Constants

  predicate InBounds(width: int, height: int, x: int, y: int)
  {
    0 <= x < width && 0 <= y < height
  }

  /** A buffer of the right size for a panel whose height is a whole number of pages. */
  predicate Sized(buf: seq<Byte>, width: int, height: int)
  {
    height % 8 == 0 && |buf| == width * (height / 8)
  }

  /** The byte that holds pixel (x, y). */
  function Index(width: int, x: int, y: int): int
  {
    x + (y / 8) * width
  }

  /** The bit of that byte that holds pixel (x, y). */
  function Mask(y: int): Byte
    requires y >= 0
  {
    (1 as Byte) << (y % 8)
  }

  /** Every in-bounds pixel of a panel with whole pages lives inside the buffer. */
  lemma IndexInBuffer(width: int, height: int, x: int, y: int)
    requires height % 8 == 0 && InBounds(width, height, x, y)
    ensures 0 <= Index(width, x, y) < width * (height / 8)
  {
    var page, pages := y / 8, height / 8;
    assert page < pages;
    assert 0 <= page * width <= (pages - 1) * width by {
      MulMono(page, pages - 1, width);
    }
    assert (pages - 1) * width + width == pages * width;
  }

  /**
   * With truncated pages, a height that is not a multiple of 8 lets an
   * in-bounds pixel address the byte just past the buffer: on a 128 x 12
   * panel the buffer has 128 * (12 / 8) = 128 bytes and pixel (0, 10) maps
   * to byte 128.
   */
  lemma PartialPageOverflows()
    ensures InBounds(128, 12, 0, 10)
    ensures 128 * (12 / 8) == 128 && Index(128, 0, 10) == 128
  {
  }

  /** Distinct in-bounds pixels use distinct (byte, bit) pairs. */
  lemma IndexInjective(width: int, x1: int, y1: int, x2: int, y2: int)
    requires 0 <= x1 < width && 0 <= x2 < width && y1 >= 0 && y2 >= 0
    requires Index(width, x1, y1) == Index(width, x2, y2)
    ensures x1 == x2 && y1 / 8 == y2 / 8
  {
    var p1, p2 := y1 / 8, y2 / 8;
    if p1 < p2 {
      MulMono(p1 + 1, p2, width);
      assert false;
    } else if p2 < p1 {
      MulMono(p2 + 1, p1, width);
      assert false;
    }
  }

  lemma MulMono(a: int, b: int, w: int)
    requires 0 <= a <= b && w >= 0
    ensures 0 <= a * w <= b * w
  {
    assert b * w - a * w == (b - a) * w;
  }

  /** What ssd1306_set_pixel_internal does to the byte that holds row y. */
  function ByteOp(b: Byte, y: int, color: int): Byte
    requires y >= 0
  {
    if color == WHITE then b | Mask(y)
    else if color == BLACK then b & !Mask(y)
    else if color == INVERSE then b ^ Mask(y)
    else b
  }

  /** The byte operation changes the bit of row y as ApplyColor says, and no other bit. */
  lemma ByteOpBit(b: Byte, y: int, color: int, py: int)
    requires y >= 0 && py >= 0
    ensures (ByteOp(b, y, color) & Mask(py) != 0) ==
      if py % 8 == y % 8 then ApplyColor(color, b & Mask(y) != 0) else b & Mask(py) != 0
  {
    if color == WHITE {
    } else if color == BLACK {
    } else if color == INVERSE {
    }
  }

  /**
   * The abstraction: the framebuffer as a grid of booleans. Out of bounds
   * every pixel is off, as ssd1306_get_pixel_internal reports it.
   */
  predicate Lit(buf: seq<Byte>, width: int, height: int, x: int, y: int)
    requires Sized(buf, width, height)
  {
    InBounds(width, height, x, y) &&
    (IndexInBuffer(width, height, x, y);
     buf[Index(width, x, y)] & Mask(y) != 0)
  }

  /** What writing `color` does to one pixel that was `on`. */
  function ApplyColor(color: int, on: bool): bool
  {
    if color == WHITE then true
    else if color == BLACK then false
    else if color == INVERSE then !on
    else on
  }

  /** ssd1306_set_pixel_internal on the buffer's contents. */
  function SetPx(buf: seq<Byte>, width: int, height: int, x: int, y: int, color: int): (r: seq<Byte>)
    requires Sized(buf, width, height)
    ensures Sized(r, width, height)
    ensures !InBounds(width, height, x, y) ==> r == buf
  {
    if !InBounds(width, height, x, y) then buf
    else
      IndexInBuffer(width, height, x, y);
      var i := Index(width, x, y);
      buf[i := ByteOp(buf[i], y, color)]
  }

  /**
   * An in-bounds write changes only bit y % 8 of byte Index(width, x, y):
   * every other byte, and every other bit of that byte, keeps its value.
   */
  lemma SetPxChangesOneBit(buf: seq<Byte>, width: int, height: int, x: int, y: int, color: int)
    requires Sized(buf, width, height) && InBounds(width, height, x, y)
    ensures 0 <= Index(width, x, y) < |buf|
    ensures var r := SetPx(buf, width, height, x, y, color);
      (forall k :: 0 <= k < |buf| && k != Index(width, x, y) ==> r[k] == buf[k]) &&
      r[Index(width, x, y)] & !Mask(y) == buf[Index(width, x, y)] & !Mask(y)
  {
    IndexInBuffer(width, height, x, y);
  }

  /** Writing a pixel sets that pixel of the grid as ApplyColor says and leaves every other pixel alone. */
  lemma SetPxLit(buf: seq<Byte>, width: int, height: int, x: int, y: int, color: int, px: int, py: int)
    requires Sized(buf, width, height)
    ensures Lit(SetPx(buf, width, height, x, y, color), width, height, px, py) ==
      if px == x && py == y && InBounds(width, height, x, y)
      then ApplyColor(color, Lit(buf, width, height, x, y))
      else Lit(buf, width, height, px, py)
  {
    if InBounds(width, height, x, y) && InBounds(width, height, px, py) {
      IndexInBuffer(width, height, x, y);
      IndexInBuffer(width, height, px, py);
      var r := SetPx(buf, width, height, x, y, color);
      var i, j := Index(width, x, y), Index(width, px, py);
      assert r == buf[i := ByteOp(buf[i], y, color)];
      if i == j {
        IndexInjective(width, x, y, px, py);
        ByteOpBit(buf[i], y, color, py);
        assert Lit(r, width, height, px, py) == (r[i] & Mask(py) != 0);
        assert Lit(buf, width, height, px, py) == (buf[i] & Mask(py) != 0);
        if py % 8 == y % 8 {
          assert py == 8 * (py / 8) + py % 8 && y == 8 * (y / 8) + y % 8;
          assert py == y;
        } else {
          assert py != y;
        }
      } else {
        assert r[j] == buf[j];
      }
    }
  }

  /** After WHITE the pixel reads on; after BLACK it reads off. */
  lemma GetAfterSet(buf: seq<Byte>, width: int, height: int, x: int, y: int)
    requires Sized(buf, width, height) && InBounds(width, height, x, y)
    ensures Lit(SetPx(buf, width, height, x, y, WHITE), width, height, x, y)
    ensures !Lit(SetPx(buf, width, height, x, y, BLACK), width, height, x, y)
  {
    SetPxLit(buf, width, height, x, y, WHITE, x, y);
    SetPxLit(buf, width, height, x, y, BLACK, x, y);
  }

  /** Toggling the same pixel twice restores the whole buffer. */
  lemma InverseTwice(buf: seq<Byte>, width: int, height: int, x: int, y: int)
    requires Sized(buf, width, height)
    ensures SetPx(SetPx(buf, width, height, x, y, INVERSE), width, height, x, y, INVERSE) == buf
  {
    if InBounds(width, height, x, y) {
      IndexInBuffer(width, height, x, y);
      var i := Index(width, x, y);
      var once := SetPx(buf, width, height, x, y, INVERSE);
      assert ByteOp(once[i], y, INVERSE) == buf[i];
      assert once[i := ByteOp(once[i], y, INVERSE)] == buf;
    }
  }

  /** A value that is not a colour changes nothing. */
  lemma NonColourIsNoOp(buf: seq<Byte>, width: int, height: int, x: int, y: int, color: int)
    requires Sized(buf, width, height)
    requires color != BLACK && color != WHITE && color != INVERSE
    ensures SetPx(buf, width, height, x, y, color) == buf
  {
    if InBounds(width, height, x, y) {
      IndexInBuffer(width, height, x, y);
      var i := Index(width, x, y);
      assert buf[i := buf[i]] == buf;
    }
  }

  /** An all-zero buffer shows no lit pixel. */
  lemma ZeroBufferIsDark(buf: seq<Byte>, width: int, height: int, x: int, y: int)
    requires Sized(buf, width, height)
    requires forall k :: 0 <= k < |buf| ==> buf[k] == 0
    ensures !Lit(buf, width, height, x, y)
  {
    if InBounds(width, height, x, y) {
      IndexInBuffer(width, height, x, y);
    }
  }

  /** One pixel write requested by a raster primitive. */
  datatype Plot = Plot(x: int, y: int, color: int)

  /** The writes of `plots`, performed in order. */
  function Paint(buf: seq<Byte>, width: int, height: int, plots: seq<Plot>): (r: seq<Byte>)
    requires Sized(buf, width, height)
    ensures Sized(r, width, height)
    decreases |plots|
  {
    if plots == [] then buf
    else
      var p := plots[|plots| - 1];
      SetPx(Paint(buf, width, height, plots[..|plots| - 1]), width, height, p.x, p.y, p.color)
  }

  lemma PaintSnoc(buf: seq<Byte>, width: int, height: int, plots: seq<Plot>, p: Plot)
    requires Sized(buf, width, height)
    ensures Paint(buf, width, height, plots + [p]) ==
      SetPx(Paint(buf, width, height, plots), width, height, p.x, p.y, p.color)
  {
    assert (plots + [p])[..|plots|] == plots;
  }

  /** Painting a concatenation paints the first part, then the second. */
  lemma {:induction false} PaintAppend(buf: seq<Byte>, width: int, height: int, a: seq<Plot>, b: seq<Plot>)
    requires Sized(buf, width, height)
    ensures Paint(buf, width, height, a + b) == Paint(Paint(buf, width, height, a), width, height, b)
    decreases |b|
  {
    if b == [] {
      assert a + b == a;
    } else {
      var b' := b[..|b| - 1];
      assert (a + b)[..|a + b| - 1] == a + b';
      PaintAppend(buf, width, height, a, b');
    }
  }

  /** The colours written at (x, y), in order. */
  function Hits(plots: seq<Plot>, x: int, y: int): seq<int>
    decreases |plots|
  {
    if plots == [] then []
    else
      var p := plots[|plots| - 1];
      Hits(plots[..|plots| - 1], x, y) + (if p.x == x && p.y == y then [p.color] else [])
  }

  /** The effect of a sequence of colour writes on one pixel. */
  function ApplyAll(colors: seq<int>, on: bool): bool
    decreases |colors|
  {
    if colors == [] then on
    else ApplyColor(colors[|colors| - 1], ApplyAll(colors[..|colors| - 1], on))
  }

  /** A pixel of the grid after Paint depends only on the writes aimed at it. */
  lemma {:induction false} PaintLit(buf: seq<Byte>, width: int, height: int, plots: seq<Plot>, x: int, y: int)
    requires Sized(buf, width, height) && InBounds(width, height, x, y)
    ensures Lit(Paint(buf, width, height, plots), width, height, x, y) ==
      ApplyAll(Hits(plots, x, y), Lit(buf, width, height, x, y))
    decreases |plots|
  {
    if plots != [] {
      var init, p := plots[..|plots| - 1], plots[|plots| - 1];
      var before := Paint(buf, width, height, init);
      PaintLit(buf, width, height, init, x, y);
      SetPxLit(before, width, height, p.x, p.y, p.color, x, y);
      var hs := Hits(init, x, y);
      if p.x == x && p.y == y {
        assert Hits(plots, x, y) == hs + [p.color];
        assert (hs + [p.color])[..|hs|] == hs;
      } else {
        assert Hits(plots, x, y) == hs + [];
        assert hs + [] == hs;
      }
    }
  }

  lemma {:induction false} HitsAppend(a: seq<Plot>, b: seq<Plot>, x: int, y: int)
    ensures Hits(a + b, x, y) == Hits(a, x, y) + Hits(b, x, y)
    decreases |b|
  {
    if b == [] {
      assert a + b == a;
    } else {
      var b' := b[..|b| - 1];
      assert (a + b)[..|a + b| - 1] == a + b';
      assert (a + b)[|a + b| - 1] == b[|b| - 1];
      HitsAppend(a, b', x, y);
    }
  }

  /** A pixel that no write aims at keeps its value. */
  lemma PaintUntouched(buf: seq<Byte>, width: int, height: int, plots: seq<Plot>, x: int, y: int)
    requires Sized(buf, width, height)
    requires Hits(plots, x, y) == []
    ensures Lit(Paint(buf, width, height, plots), width, height, x, y) == Lit(buf, width, height, x, y)
  {
    if InBounds(width, height, x, y) {
      PaintLit(buf, width, height, plots, x, y);
    }
  }

  /** Every plot of the sequence has colour `color`. */
  predicate Uniform(plots: seq<Plot>, color: int)
  {
    forall k :: 0 <= k < |plots| ==> plots[k].color == color
  }

  lemma {:induction false} HitsUniform(plots: seq<Plot>, color: int, x: int, y: int)
    requires Uniform(plots, color)
    ensures forall k :: 0 <= k < |Hits(plots, x, y)| ==> Hits(plots, x, y)[k] == color
    decreases |plots|
  {
    if plots != [] {
      HitsUniform(plots[..|plots| - 1], color, x, y);
    }
  }

  /** Repeated writes of WHITE (or of BLACK) leave the pixel on (or off), however many there are. */
  lemma {:induction false} ApplyAllSolid(colors: seq<int>, color: int, on: bool)
    requires colors != [] && (color == WHITE || color == BLACK)
    requires forall k :: 0 <= k < |colors| ==> colors[k] == color
    ensures ApplyAll(colors, on) == (color == WHITE)
  {
  }

  /**
   * A solid-colour sequence of writes sets exactly the pixels it aims at:
   * on for WHITE, off for BLACK; every other pixel keeps its value.
   */
  lemma PaintSolid(buf: seq<Byte>, width: int, height: int, plots: seq<Plot>, color: int, x: int, y: int)
    requires Sized(buf, width, height) && InBounds(width, height, x, y)
    requires Uniform(plots, color) && (color == WHITE || color == BLACK)
    ensures Lit(Paint(buf, width, height, plots), width, height, x, y) ==
      if Hits(plots, x, y) != [] then color == WHITE else Lit(buf, width, height, x, y)
  {
    PaintLit(buf, width, height, plots, x, y);
    HitsUniform(plots, color, x, y);
    if Hits(plots, x, y) != [] {
      ApplyAllSolid(Hits(plots, x, y), color, Lit(buf, width, height, x, y));
    }
  }

  /** Some write of `plots` is aimed at (x, y). */
  predicate AimsAt(plots: seq<Plot>, x: int, y: int)
  {
    exists k :: 0 <= k < |plots| && plots[k].x == x && plots[k].y == y
  }

  /** A pixel receives a write exactly when some plot is aimed at it. */
  lemma {:induction false} HitsAimsAt(plots: seq<Plot>, x: int, y: int)
    ensures Hits(plots, x, y) != [] <==> AimsAt(plots, x, y)
    decreases |plots|
  {
    if plots != [] {
      var init, p := plots[..|plots| - 1], plots[|plots| - 1];
      HitsAimsAt(init, x, y);
      if AimsAt(init, x, y) {
        var k :| 0 <= k < |init| && init[k].x == x && init[k].y == y;
        assert plots[k] == init[k];
      }
      if AimsAt(plots, x, y) && !(p.x == x && p.y == y) {
        var k :| 0 <= k < |plots| && plots[k].x == x && plots[k].y == y;
        assert init[k] == plots[k];
      }
      if p.x == x && p.y == y {
        assert plots[|plots| - 1] == p;
      }
    }
  }

  lemma AimsAtAppend(a: seq<Plot>, b: seq<Plot>, x: int, y: int)
    ensures AimsAt(a + b, x, y) <==> AimsAt(a, x, y) || AimsAt(b, x, y)
  {
    if AimsAt(a, x, y) {
      var k :| 0 <= k < |a| && a[k].x == x && a[k].y == y;
      assert (a + b)[k] == a[k];
    }
    if AimsAt(b, x, y) {
      var k :| 0 <= k < |b| && b[k].x == x && b[k].y == y;
      assert (a + b)[|a| + k] == b[k];
    }
    if AimsAt(a + b, x, y) {
      var k :| 0 <= k < |a + b| && (a + b)[k].x == x && (a + b)[k].y == y;
      if k < |a| {
        assert a[k] == (a + b)[k];
      } else {
        assert b[k - |a|] == (a + b)[k];
      }
    }
  }

  lemma UniformAppend(a: seq<Plot>, b: seq<Plot>, color: int)
    requires Uniform(a, color) && Uniform(b, color)
    ensures Uniform(a + b, color)
  {
    forall k | 0 <= k < |a + b|
      ensures (a + b)[k].color == color
    {
      if k < |a| {
        assert (a + b)[k] == a[k];
      } else {
        assert (a + b)[k] == b[k - |a|];
      }
    }
  }

  /**
   * The grid after a solid-colour sequence of writes: a pixel some write
   * aims at is on for WHITE and off for BLACK; every other pixel keeps its value.
   */
  lemma PaintSolidAims(buf: seq<Byte>, width: int, height: int, plots: seq<Plot>, color: int, x: int, y: int)
    requires Sized(buf, width, height) && InBounds(width, height, x, y)
    requires Uniform(plots, color) && (color == WHITE || color == BLACK)
    ensures Lit(Paint(buf, width, height, plots), width, height, x, y) ==
      if AimsAt(plots, x, y) then color == WHITE else Lit(buf, width, height, x, y)
  {
    PaintSolid(buf, width, height, plots, color, x, y);
    HitsAimsAt(plots, x, y);
  }

  /** Appending no writes paints nothing more. */
  lemma PaintNone(buf: seq<Byte>, width: int, height: int, plots: seq<Plot>, none: seq<Plot>)
    requires Sized(buf, width, height) && none == []
    ensures Paint(buf, width, height, plots + none) == Paint(buf, width, height, plots)
  {
    assert plots + none == plots;
  }
}
