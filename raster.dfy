/**
 * The pixel writes of the drawing loops of ssd1306_graphics.c, as
 * sequences of plots in the order the loops issue them, with the geometric
 * properties each primitive promises. The Graphics module runs the loops
 * themselves on a display and is proved to produce exactly these
 * sequences.
 */
module Raster {
  import opened Constants
  import opened Framebuffer

  function Abs(n: int): (a: int)
    ensures a >= 0 && (a == n || a == -n)
  {
    if n < 0 then -n else n
  }

  /** The step direction draw_line takes from `from` towards `to`: C's `(from < to) ? 1 : -1`. */
  function Direction(from: int, to: int): (s: int)
    ensures s == 1 || s == -1
    ensures s * (to - from) == Abs(to - from)
  {
    if from < to then 1 else -1
  }

  /*
   * Bresenham's line (draw_line). The loop keeps the error term
   * err == dx - dy + dy * X - dx * Y, where X = |x1 - x| and Y = |y1 - y| are
   * the steps still to go; from it follows that neither coordinate ever
   * overshoots its end and that every pass moves at least one of them.
   */

  /** The variables draw_line updates: the current point and the error term. */
  datatype Pen = Pen(x: int, y: int, err: int)

  /** The steps still to go along x and along y. */
  function StepsX(p: Pen, x1: int, sx: int): int { if sx == 1 then x1 - p.x else p.x - x1 }
  function StepsY(p: Pen, y1: int, sy: int): int { if sy == 1 then y1 - p.y else p.y - y1 }

  predicate LineInv(p: Pen, x1: int, y1: int, dx: int, dy: int, sx: int, sy: int)
  {
    dx >= 0 && dy >= 0 && (sx == 1 || sx == -1) && (sy == 1 || sy == -1) &&
    0 <= StepsX(p, x1, sx) <= dx && 0 <= StepsY(p, y1, sy) <= dy &&
    p.err == dx - dy + dy * StepsX(p, x1, sx) - dx * StepsY(p, y1, sy)
  }

  /** One pass of the loop after the plot: the two conditional moves, both decided on the same e2. */
  function LineStep(p: Pen, dx: int, dy: int, sx: int, sy: int): Pen
  {
    var e2 := 2 * p.err;
    var q := if e2 > -dy then Pen(p.x + sx, p.y, p.err - dy) else p;
    if e2 < dx then Pen(q.x, q.y + sy, q.err + dx) else q
  }

  /** A step along x keeps the error term exact. */
  lemma MoveX(p: Pen, x1: int, y1: int, dx: int, dy: int, sx: int, sy: int)
    requires LineInv(p, x1, y1, dx, dy, sx, sy) && StepsX(p, x1, sx) >= 1
    ensures LineInv(Pen(p.x + sx, p.y, p.err - dy), x1, y1, dx, dy, sx, sy)
    ensures StepsX(Pen(p.x + sx, p.y, p.err - dy), x1, sx) == StepsX(p, x1, sx) - 1
  {
    var q := Pen(p.x + sx, p.y, p.err - dy);
    var X, Y := StepsX(p, x1, sx), StepsY(p, y1, sy);
    assert StepsX(q, x1, sx) == X - 1 && StepsY(q, y1, sy) == Y;
    var a, b := dy * X, dx * Y;
    assert dy * (X - 1) == a - dy;
    assert q.err == dx - dy + (a - dy) - b;
  }

  /** A step along y keeps the error term exact. */
  lemma MoveY(p: Pen, x1: int, y1: int, dx: int, dy: int, sx: int, sy: int)
    requires LineInv(p, x1, y1, dx, dy, sx, sy) && StepsY(p, y1, sy) >= 1
    ensures LineInv(Pen(p.x, p.y + sy, p.err + dx), x1, y1, dx, dy, sx, sy)
    ensures StepsY(Pen(p.x, p.y + sy, p.err + dx), y1, sy) == StepsY(p, y1, sy) - 1
  {
    var q := Pen(p.x, p.y + sy, p.err + dx);
    var X, Y := StepsX(p, x1, sx), StepsY(p, y1, sy);
    assert StepsX(q, x1, sx) == X && StepsY(q, y1, sy) == Y - 1;
    var a, b := dy * X, dx * Y;
    assert dx * (Y - 1) == b - dx;
    assert q.err == dx - dy + a - (b - dx);
  }

  /** Away from the end, each move the loop makes is one that still has steps to go, and it makes one. */
  lemma MovesAreSafe(p: Pen, x1: int, y1: int, dx: int, dy: int, sx: int, sy: int)
    requires LineInv(p, x1, y1, dx, dy, sx, sy) && !(p.x == x1 && p.y == y1)
    ensures 2 * p.err > -dy ==> StepsX(p, x1, sx) >= 1
    ensures 2 * p.err < dx ==> StepsY(p, y1, sy) >= 1
    ensures 2 * p.err > -dy || 2 * p.err < dx
  {
    var X, Y := StepsX(p, x1, sx), StepsY(p, y1, sy);
    if X == 0 {
      assert Y >= 1;
      MulAtLeast(dx, Y);
    }
    if Y == 0 {
      assert X >= 1;
      MulAtLeast(dy, X);
    }
  }

  /** A pass away from the end keeps the invariant and takes at least one step. */
  lemma LineStepKeepsInv(p: Pen, x1: int, y1: int, dx: int, dy: int, sx: int, sy: int)
    requires LineInv(p, x1, y1, dx, dy, sx, sy) && !(p.x == x1 && p.y == y1)
    ensures LineInv(LineStep(p, dx, dy, sx, sy), x1, y1, dx, dy, sx, sy)
    ensures var q := LineStep(p, dx, dy, sx, sy);
      StepsX(q, x1, sx) + StepsY(q, y1, sy) < StepsX(p, x1, sx) + StepsY(p, y1, sy)
  {
    MovesAreSafe(p, x1, y1, dx, dy, sx, sy);
    var e2 := 2 * p.err;
    var q := if e2 > -dy then Pen(p.x + sx, p.y, p.err - dy) else p;
    if e2 > -dy {
      MoveX(p, x1, y1, dx, dy, sx, sy);
    }
    if e2 < dx {
      assert StepsY(q, y1, sy) == StepsY(p, y1, sy);
      MoveY(q, x1, y1, dx, dy, sx, sy);
    }
  }

  lemma MulAtLeast(a: int, n: int)
    requires a >= 0 && n >= 1
    ensures a * n >= a
  {
    assert a * n == a + a * (n - 1);
  }

  /** The plots of the loop from pen `p` on, up to and including the end point. */
  function LineFrom(p: Pen, x1: int, y1: int, dx: int, dy: int, sx: int, sy: int, color: int): (plots: seq<Plot>)
    requires LineInv(p, x1, y1, dx, dy, sx, sy)
    ensures |plots| >= 1
    decreases StepsX(p, x1, sx) + StepsY(p, y1, sy)
  {
    if p.x == x1 && p.y == y1 then [Plot(p.x, p.y, color)]
    else
      LineStepKeepsInv(p, x1, y1, dx, dy, sx, sy);
      [Plot(p.x, p.y, color)] + LineFrom(LineStep(p, dx, dy, sx, sy), x1, y1, dx, dy, sx, sy, color)
  }

  /** The invariant holds at the start of the loop. */
  lemma LineStartInv(x0: int, y0: int, x1: int, y1: int)
    ensures var dx, dy := Abs(x1 - x0), Abs(y1 - y0);
      LineInv(Pen(x0, y0, dx - dy), x1, y1, dx, dy, Direction(x0, x1), Direction(y0, y1))
  {
    var dx, dy := Abs(x1 - x0), Abs(y1 - y0);
    assert dy * dx == dx * dy;
  }

  /** The writes of draw_line from (x0, y0) to (x1, y1). */
  function LinePlots(x0: int, y0: int, x1: int, y1: int, color: int): (plots: seq<Plot>)
    ensures |plots| >= 1
  {
    LineStartInv(x0, y0, x1, y1);
    LineFrom(Pen(x0, y0, Abs(x1 - x0) - Abs(y1 - y0)), x1, y1, Abs(x1 - x0), Abs(y1 - y0),
             Direction(x0, x1), Direction(y0, y1), color)
  }

  lemma {:induction false} LineFromEnds(p: Pen, x1: int, y1: int, dx: int, dy: int, sx: int, sy: int, color: int)
    requires LineInv(p, x1, y1, dx, dy, sx, sy)
    ensures var plots := LineFrom(p, x1, y1, dx, dy, sx, sy, color);
      plots[0] == Plot(p.x, p.y, color) && plots[|plots| - 1] == Plot(x1, y1, color)
    decreases StepsX(p, x1, sx) + StepsY(p, y1, sy)
  {
    if !(p.x == x1 && p.y == y1) {
      LineStepKeepsInv(p, x1, y1, dx, dy, sx, sy);
      LineFromEnds(LineStep(p, dx, dy, sx, sy), x1, y1, dx, dy, sx, sy, color);
    }
  }

  /** draw_line stops: its first write is (x0, y0) and its last is (x1, y1). */
  lemma LineEndpoints(x0: int, y0: int, x1: int, y1: int, color: int)
    ensures var plots := LinePlots(x0, y0, x1, y1, color);
      plots[0] == Plot(x0, y0, color) && plots[|plots| - 1] == Plot(x1, y1, color)
  {
    LineStartInv(x0, y0, x1, y1);
    LineFromEnds(Pen(x0, y0, Abs(x1 - x0) - Abs(y1 - y0)), x1, y1, Abs(x1 - x0), Abs(y1 - y0),
                 Direction(x0, x1), Direction(y0, y1), color);
  }

  /** With equal end points draw_line writes exactly one pixel. */
  lemma LineSinglePoint(x0: int, y0: int, color: int)
    ensures LinePlots(x0, y0, x0, y0, color) == [Plot(x0, y0, color)]
  {
  }

  lemma {:induction false} LineFromHorizontal(p: Pen, x1: int, y1: int, dx: int, sx: int, sy: int, color: int)
    requires LineInv(p, x1, y1, dx, 0, sx, sy) && p.y == y1
    ensures LineFrom(p, x1, y1, dx, 0, sx, sy, color) ==
      seq(StepsX(p, x1, sx) + 1, k => Plot(p.x + sx * k, y1, color))
    decreases StepsX(p, x1, sx)
  {
    var n := StepsX(p, x1, sx);
    if p.x != x1 {
      LineStepKeepsInv(p, x1, y1, dx, 0, sx, sy);
      var q := LineStep(p, dx, 0, sx, sy);
      assert q == Pen(p.x + sx, y1, p.err);
      LineFromHorizontal(q, x1, y1, dx, sx, sy, color);
      var rest := seq(StepsX(q, x1, sx) + 1, k => Plot(q.x + sx * k, y1, color));
      assert [Plot(p.x, y1, color)] + rest == seq(n + 1, k => Plot(p.x + sx * k, y1, color));
    } else {
      assert n == 0;
    }
  }

  /** On one row draw_line writes exactly the pixels from x0 to x1, in order, each once. */
  lemma LineHorizontal(x0: int, x1: int, y: int, color: int)
    ensures LinePlots(x0, y, x1, y, color) ==
      seq(Abs(x1 - x0) + 1, k => Plot(x0 + Direction(x0, x1) * k, y, color))
  {
    LineStartInv(x0, y, x1, y);
    LineFromHorizontal(Pen(x0, y, Abs(x1 - x0)), x1, y, Abs(x1 - x0), Direction(x0, x1), Direction(y, y), color);
  }

  /*
   * draw_rect and fill_rect.
   */

  /** draw_rect's first loop, its first n passes: the top and the bottom pixel of columns x .. x + n - 1. */
  function TopBottom(x: int, y: int, h: int, color: int, n: int): seq<Plot>
    decreases n
  {
    if n <= 0 then []
    else TopBottom(x, y, h, color, n - 1) + [Plot(x + n - 1, y, color), Plot(x + n - 1, y + h - 1, color)]
  }

  /** draw_rect's second loop, its first n passes: the left and the right pixel of rows y .. y + n - 1. */
  function LeftRight(x: int, y: int, w: int, color: int, n: int): seq<Plot>
    decreases n
  {
    if n <= 0 then []
    else LeftRight(x, y, w, color, n - 1) + [Plot(x, y + n - 1, color), Plot(x + w - 1, y + n - 1, color)]
  }

  /** The writes of draw_rect as the source has it: both loops run whatever the other dimension is. */
  function OutlinePlotsAsWritten(x: int, y: int, w: int, h: int, color: int): seq<Plot>
  {
    TopBottom(x, y, h, color, w) + LeftRight(x, y, w, color, h)
  }

  /** The writes of draw_rect with an empty rectangle drawing nothing (see the findings). */
  function OutlinePlots(x: int, y: int, w: int, h: int, color: int): seq<Plot>
  {
    if w <= 0 || h <= 0 then [] else OutlinePlotsAsWritten(x, y, w, h, color)
  }

  /** (px, py) is inside the w x h rectangle at (x, y). */
  predicate InRect(x: int, y: int, w: int, h: int, px: int, py: int)
  {
    x <= px < x + w && y <= py < y + h
  }

  /** (px, py) is one of the rectangle's border pixels. */
  predicate OnBorder(x: int, y: int, w: int, h: int, px: int, py: int)
  {
    InRect(x, y, w, h, px, py) && (px == x || px == x + w - 1 || py == y || py == y + h - 1)
  }

  lemma {:induction false} TopBottomAims(x: int, y: int, h: int, color: int, n: int, px: int, py: int)
    ensures AimsAt(TopBottom(x, y, h, color, n), px, py) <==> x <= px < x + n && (py == y || py == y + h - 1)
    decreases n
  {
    if n > 0 {
      TopBottomAims(x, y, h, color, n - 1, px, py);
      var pair := [Plot(x + n - 1, y, color), Plot(x + n - 1, y + h - 1, color)];
      AimsAtAppend(TopBottom(x, y, h, color, n - 1), pair, px, py);
      assert AimsAt(pair, px, py) <==> px == x + n - 1 && (py == y || py == y + h - 1) by {
        if px == x + n - 1 && py == y { assert pair[0].x == px && pair[0].y == py; }
        if px == x + n - 1 && py == y + h - 1 { assert pair[1].x == px && pair[1].y == py; }
      }
    }
  }

  lemma {:induction false} LeftRightAims(x: int, y: int, w: int, color: int, n: int, px: int, py: int)
    ensures AimsAt(LeftRight(x, y, w, color, n), px, py) <==> y <= py < y + n && (px == x || px == x + w - 1)
    decreases n
  {
    if n > 0 {
      LeftRightAims(x, y, w, color, n - 1, px, py);
      var pair := [Plot(x, y + n - 1, color), Plot(x + w - 1, y + n - 1, color)];
      AimsAtAppend(LeftRight(x, y, w, color, n - 1), pair, px, py);
      assert AimsAt(pair, px, py) <==> py == y + n - 1 && (px == x || px == x + w - 1) by {
        if py == y + n - 1 && px == x { assert pair[0].x == px && pair[0].y == py; }
        if py == y + n - 1 && px == x + w - 1 { assert pair[1].x == px && pair[1].y == py; }
      }
    }
  }

  /** draw_rect writes exactly the border of the rectangle, and nothing for an empty one. */
  lemma OutlineIsBorder(x: int, y: int, w: int, h: int, color: int, px: int, py: int)
    ensures AimsAt(OutlinePlots(x, y, w, h, color), px, py) <==> OnBorder(x, y, w, h, px, py)
  {
    if w > 0 && h > 0 {
      TopBottomAims(x, y, h, color, w, px, py);
      LeftRightAims(x, y, w, color, h, px, py);
      AimsAtAppend(TopBottom(x, y, h, color, w), LeftRight(x, y, w, color, h), px, py);
    }
  }

  /**
   * As written, draw_rect with a positive width and no height still runs
   * its first loop: it writes the pixels of rows y and y + h - 1 across the
   * width, and nothing else, although the rectangle has no pixels at all.
   */
  lemma OutlineAsWrittenDrawsFlatRect(x: int, y: int, w: int, h: int, color: int, px: int, py: int)
    requires w > 0 && h <= 0
    ensures AimsAt(OutlinePlotsAsWritten(x, y, w, h, color), px, py) <==> x <= px < x + w && (py == y || py == y + h - 1)
    ensures !InRect(x, y, w, h, px, py)
  {
    TopBottomAims(x, y, h, color, w, px, py);
    AimsAtAppend(TopBottom(x, y, h, color, w), LeftRight(x, y, w, color, h), px, py);
  }

  /**
   * The mirror case: with a positive height and no width, draw_rect runs
   * its second loop and writes columns x and x + w - 1 down the height.
   */
  lemma OutlineAsWrittenDrawsThinRect(x: int, y: int, w: int, h: int, color: int, px: int, py: int)
    requires h > 0 && w <= 0
    ensures AimsAt(OutlinePlotsAsWritten(x, y, w, h, color), px, py) <==> y <= py < y + h && (px == x || px == x + w - 1)
    ensures !InRect(x, y, w, h, px, py)
  {
    LeftRightAims(x, y, w, color, h, px, py);
    AimsAtAppend(TopBottom(x, y, h, color, w), LeftRight(x, y, w, color, h), px, py);
  }

  lemma {:induction false} TopBottomUniform(x: int, y: int, h: int, color: int, n: int)
    ensures Uniform(TopBottom(x, y, h, color, n), color)
    decreases n
  {
    if n > 0 {
      TopBottomUniform(x, y, h, color, n - 1);
      UniformAppend(TopBottom(x, y, h, color, n - 1), [Plot(x + n - 1, y, color), Plot(x + n - 1, y + h - 1, color)], color);
    }
  }

  lemma {:induction false} LeftRightUniform(x: int, y: int, w: int, color: int, n: int)
    ensures Uniform(LeftRight(x, y, w, color, n), color)
    decreases n
  {
    if n > 0 {
      LeftRightUniform(x, y, w, color, n - 1);
      UniformAppend(LeftRight(x, y, w, color, n - 1), [Plot(x, y + n - 1, color), Plot(x + w - 1, y + n - 1, color)], color);
    }
  }

  /** With WHITE or BLACK, draw_rect sets the in-bounds border pixels to that colour and leaves every other pixel alone. */
  lemma OutlineEffect(buf: seq<Byte>, width: int, height: int, x: int, y: int, w: int, h: int, color: int, px: int, py: int)
    requires Sized(buf, width, height) && InBounds(width, height, px, py)
    requires color == WHITE || color == BLACK
    ensures Lit(Paint(buf, width, height, OutlinePlots(x, y, w, h, color)), width, height, px, py) ==
      if OnBorder(x, y, w, h, px, py) then color == WHITE else Lit(buf, width, height, px, py)
  {
    TopBottomUniform(x, y, h, color, w);
    LeftRightUniform(x, y, w, color, h);
    UniformAppend(TopBottom(x, y, h, color, w), LeftRight(x, y, w, color, h), color);
    OutlineIsBorder(x, y, w, h, color, px, py);
    PaintSolidAims(buf, width, height, OutlinePlots(x, y, w, h, color), color, px, py);
  }

  /** fill_rect's inner loop, its first n passes on row y + j: pixels x .. x + n - 1. */
  function FillRow(x: int, y: int, j: int, color: int, n: int): seq<Plot>
    decreases n
  {
    if n <= 0 then [] else FillRow(x, y, j, color, n - 1) + [Plot(x + n - 1, y + j, color)]
  }

  /** fill_rect's outer loop, its first m rows of w pixels. */
  function FillRows(x: int, y: int, w: int, color: int, m: int): seq<Plot>
    decreases m
  {
    if m <= 0 then [] else FillRows(x, y, w, color, m - 1) + FillRow(x, y, m - 1, color, w)
  }

  /** The writes of fill_rect. */
  function FillPlots(x: int, y: int, w: int, h: int, color: int): seq<Plot>
  {
    FillRows(x, y, w, color, h)
  }

  lemma {:induction false} FillRowAims(x: int, y: int, j: int, color: int, n: int, px: int, py: int)
    ensures AimsAt(FillRow(x, y, j, color, n), px, py) <==> x <= px < x + n && py == y + j
    ensures Uniform(FillRow(x, y, j, color, n), color)
    decreases n
  {
    if n > 0 {
      FillRowAims(x, y, j, color, n - 1, px, py);
      var last := [Plot(x + n - 1, y + j, color)];
      AimsAtAppend(FillRow(x, y, j, color, n - 1), last, px, py);
      UniformAppend(FillRow(x, y, j, color, n - 1), last, color);
      if px == x + n - 1 && py == y + j {
        assert last[0].x == px && last[0].y == py;
      }
    }
  }

  lemma {:induction false} FillRowsAims(x: int, y: int, w: int, color: int, m: int, px: int, py: int)
    ensures AimsAt(FillRows(x, y, w, color, m), px, py) <==> x <= px < x + w && y <= py < y + m
    ensures Uniform(FillRows(x, y, w, color, m), color)
    decreases m
  {
    if m > 0 {
      FillRowsAims(x, y, w, color, m - 1, px, py);
      FillRowAims(x, y, m - 1, color, w, px, py);
      AimsAtAppend(FillRows(x, y, w, color, m - 1), FillRow(x, y, m - 1, color, w), px, py);
      UniformAppend(FillRows(x, y, w, color, m - 1), FillRow(x, y, m - 1, color, w), color);
    }
  }

  /** fill_rect writes exactly the pixels of the rectangle: none at all when w <= 0 or h <= 0. */
  lemma FillIsRect(x: int, y: int, w: int, h: int, color: int, px: int, py: int)
    ensures AimsAt(FillPlots(x, y, w, h, color), px, py) <==> InRect(x, y, w, h, px, py)
    ensures w <= 0 || h <= 0 ==> FillPlots(x, y, w, h, color) == []
  {
    FillRowsAims(x, y, w, color, h, px, py);
    if w <= 0 && h > 0 {
      FillRowsEmpty(x, y, w, color, h);
    }
  }

  lemma {:induction false} FillRowsEmpty(x: int, y: int, w: int, color: int, m: int)
    requires w <= 0
    ensures FillRows(x, y, w, color, m) == []
    decreases m
  {
    if m > 0 {
      FillRowsEmpty(x, y, w, color, m - 1);
    }
  }

  /** With WHITE or BLACK, fill_rect sets exactly the in-bounds pixels of the rectangle to that colour. */
  lemma FillEffect(buf: seq<Byte>, width: int, height: int, x: int, y: int, w: int, h: int, color: int, px: int, py: int)
    requires Sized(buf, width, height) && InBounds(width, height, px, py)
    requires color == WHITE || color == BLACK
    ensures Lit(Paint(buf, width, height, FillPlots(x, y, w, h, color)), width, height, px, py) ==
      if InRect(x, y, w, h, px, py) then color == WHITE else Lit(buf, width, height, px, py)
  {
    FillRowsAims(x, y, w, color, h, px, py);
    PaintSolidAims(buf, width, height, FillPlots(x, y, w, h, color), color, px, py);
  }

  /*
   * draw_circle: the midpoint (Bresenham) circle, eight octants at a time.
   */

  /** The eight pixels one pass of draw_circle writes, in the order it writes them. */
  function Octet(x0: int, y0: int, x: int, y: int, color: int): (plots: seq<Plot>)
    ensures |plots| == 8 && Uniform(plots, color)
  {
    [Plot(x0 + x, y0 + y, color), Plot(x0 - x, y0 + y, color),
     Plot(x0 + x, y0 - y, color), Plot(x0 - x, y0 - y, color),
     Plot(x0 + y, y0 + x, color), Plot(x0 - y, y0 + x, color),
     Plot(x0 + y, y0 - x, color), Plot(x0 - y, y0 - x, color)]
  }

  /** The writes of draw_circle's loop from the state (x, y, d) on. */
  function CircleFrom(x0: int, y0: int, x: int, y: int, d: int, color: int): seq<Plot>
    decreases if y >= x then y - x + 1 else 0
  {
    if y < x then []
    else if d < 0 then Octet(x0, y0, x, y, color) + CircleFrom(x0, y0, x + 1, y, d + 4 * x + 6, color)
    else Octet(x0, y0, x, y, color) + CircleFrom(x0, y0, x + 1, y - 1, d + 4 * (x - y) + 10, color)
  }

  /** The writes of draw_circle(x0, y0, r, color). */
  function CirclePlots(x0: int, y0: int, r: int, color: int): seq<Plot>
  {
    CircleFrom(x0, y0, 0, r, 3 - 2 * r, color)
  }

  /** The square of n; kept as a name so the circle proofs stay linear in it. */
  function Sq(n: int): int
  {
    n * n
  }

  /**
   * What the loop keeps: d is the sum of the circle's error terms at the two
   * candidate pixels (x + 1, y) and (x + 1, y - 1), and a pixel about to be
   * written lies within y of the circle, measured in x*x + y*y - r*r.
   */
  predicate CircleInv(r: int, x: int, y: int, d: int)
  {
    x >= 0 &&
    d == 2 * Sq(x + 1) + Sq(y) + Sq(y - 1) - 2 * Sq(r) &&
    (y >= x ==> -y <= Sq(x) + Sq(y) - Sq(r) <= y)
  }

  lemma CircleStartInv(r: int)
    requires r >= 0
    ensures CircleInv(r, 0, r, 3 - 2 * r)
  {
    assert Sq(r - 1) == Sq(r) - 2 * r + 1;
  }

  /** One pass of the loop keeps CircleInv. */
  lemma CircleStepKeepsInv(r: int, x: int, y: int, d: int)
    requires CircleInv(r, x, y, d) && y >= x
    ensures d < 0 ==> CircleInv(r, x + 1, y, d + 4 * x + 6)
    ensures d >= 0 ==> CircleInv(r, x + 1, y - 1, d + 4 * (x - y) + 10)
  {
    assert Sq(x + 1) == Sq(x) + 2 * x + 1;
    assert Sq(x + 2) == Sq(x + 1) + 2 * x + 3;
    assert Sq(y - 1) == Sq(y) - 2 * y + 1;
    assert Sq(y - 2) == Sq(y - 1) - 2 * y + 3;
    if d < 0 {
      // The next pixel is (x + 1, y); its error is below y - 1/2.
      var g := Sq(x + 1) + Sq(y) - Sq(r);
      assert d == 2 * g - 2 * y + 1;
    } else {
      // The next pixel is (x + 1, y - 1); its error is at least 1/2 - y.
      var g := Sq(x + 1) + Sq(y - 1) - Sq(r);
      assert d == 2 * g + 2 * y - 1;
    }
  }

  /** The offsets from the centre at which an octet with loop state (x, y) writes. */
  predicate OctetShape(x: int, y: int, a: int, b: int)
  {
    (Abs(a) == x && Abs(b) == y) || (Abs(a) == y && Abs(b) == x)
  }

  /** An octet writes exactly at the offsets OctetShape allows, and in the given colour. */
  lemma OctetAims(x0: int, y0: int, x: int, y: int, color: int, a: int, b: int)
    requires 0 <= x && 0 <= y
    ensures AimsAt(Octet(x0, y0, x, y, color), x0 + a, y0 + b) <==> OctetShape(x, y, a, b)
  {
    var o := Octet(x0, y0, x, y, color);
    if OctetShape(x, y, a, b) {
      var k :=
        if a == x && b == y then 0 else if a == -x && b == y then 1
        else if a == x && b == -y then 2 else if a == -x && b == -y then 3
        else if a == y && b == x then 4 else if a == -y && b == x then 5
        else if a == y && b == -x then 6 else 7;
      assert o[k].x == x0 + a && o[k].y == y0 + b;
    }
  }

  /** The three reflections that generate the symmetry group of a circle about its centre. */
  datatype Reflection = MirrorX | MirrorY | MirrorDiagonal

  /** The offset (a, b) from the centre, reflected. */
  function Reflect(m: Reflection, a: int, b: int): (int, int)
  {
    match m
    case MirrorX => (-a, b)
    case MirrorY => (a, -b)
    case MirrorDiagonal => (b, a)
  }

  /** An octet is closed under the reflections of the circle's symmetry group. */
  lemma OctetSymmetric(x0: int, y0: int, x: int, y: int, color: int, m: Reflection, a: int, b: int)
    requires 0 <= x && 0 <= y
    requires AimsAt(Octet(x0, y0, x, y, color), x0 + a, y0 + b)
    ensures AimsAt(Octet(x0, y0, x, y, color), x0 + Reflect(m, a, b).0, y0 + Reflect(m, a, b).1)
  {
    OctetAims(x0, y0, x, y, color, a, b);
    OctetAims(x0, y0, x, y, color, Reflect(m, a, b).0, Reflect(m, a, b).1);
  }

  /** A pixel of the outline is within half a pixel of the true circle. */
  predicate NearCircle(x0: int, y0: int, r: int, px: int, py: int)
  {
    var a, b := px - x0, py - y0;
    var m := if Abs(a) >= Abs(b) then Abs(a) else Abs(b);
    -m <= Sq(a) + Sq(b) - Sq(r) <= m
  }

  /** Offsets of the octet's shape keep the sum of squares of the loop state. */
  lemma OctetShapeNear(x0: int, y0: int, r: int, x: int, y: int, px: int, py: int)
    requires 0 <= x <= y && -y <= Sq(x) + Sq(y) - Sq(r) <= y
    requires OctetShape(x, y, px - x0, py - y0)
    ensures NearCircle(x0, y0, r, px, py)
  {
    var a, b := px - x0, py - y0;
    assert Sq(a) == Sq(Abs(a)) && Sq(b) == Sq(Abs(b));
  }

  /** A pixel of the octet written from a loop state that keeps CircleInv is near the circle. */
  lemma OctetNear(x0: int, y0: int, r: int, x: int, y: int, d: int, color: int, px: int, py: int)
    requires CircleInv(r, x, y, d) && y >= x
    requires AimsAt(Octet(x0, y0, x, y, color), px, py)
    ensures NearCircle(x0, y0, r, px, py)
  {
    OctetAims(x0, y0, x, y, color, px - x0, py - y0);
    OctetShapeNear(x0, y0, r, x, y, px, py);
  }

  /** One pass of draw_circle's loop: its octet, then the writes from the next loop state. */
  lemma CircleFromUnfold(x0: int, y0: int, x: int, y: int, d: int, color: int) returns (x': int, y': int, d': int)
    requires y >= x
    ensures CircleFrom(x0, y0, x, y, d, color) == Octet(x0, y0, x, y, color) + CircleFrom(x0, y0, x', y', d', color)
    ensures x' == x + 1
    ensures d < 0 ==> y' == y && d' == d + 4 * x + 6
    ensures d >= 0 ==> y' == y - 1 && d' == d + 4 * (x - y) + 10
  {
    if d < 0 {
      x', y', d' := x + 1, y, d + 4 * x + 6;
    } else {
      x', y', d' := x + 1, y - 1, d + 4 * (x - y) + 10;
    }
  }

  lemma {:induction false} CircleFromNear(x0: int, y0: int, r: int, x: int, y: int, d: int, color: int, px: int, py: int)
    requires CircleInv(r, x, y, d)
    requires AimsAt(CircleFrom(x0, y0, x, y, d, color), px, py)
    ensures NearCircle(x0, y0, r, px, py)
    decreases if y >= x then y - x + 1 else 0
  {
    if y >= x {
      var o := Octet(x0, y0, x, y, color);
      var x', y', d' := CircleFromUnfold(x0, y0, x, y, d, color);
      var rest := CircleFrom(x0, y0, x', y', d', color);
      AimsAtAppend(o, rest, px, py);
      if AimsAt(o, px, py) {
        OctetNear(x0, y0, r, x, y, d, color, px, py);
      } else {
        CircleStepKeepsInv(r, x, y, d);
        CircleFromNear(x0, y0, r, x', y', d', color, px, py);
      }
    }
  }

  lemma {:induction false} CircleFromUniform(x0: int, y0: int, x: int, y: int, d: int, color: int)
    ensures Uniform(CircleFrom(x0, y0, x, y, d, color), color)
    decreases if y >= x then y - x + 1 else 0
  {
    if y >= x {
      var x', y', d' := CircleFromUnfold(x0, y0, x, y, d, color);
      CircleFromUniform(x0, y0, x', y', d', color);
      UniformAppend(Octet(x0, y0, x, y, color), CircleFrom(x0, y0, x', y', d', color), color);
    }
  }

  /**
   * draw_circle writes only pixels within half a pixel of the circle of
   * radius r about (x0, y0): |a*a + b*b - r*r| is at most the larger of
   * |a| and |b|, where (a, b) is the offset from the centre. It writes in
   * the given colour, and only for a radius that is not negative.
   */
  lemma CircleIsNearRadius(x0: int, y0: int, r: int, color: int, px: int, py: int)
    requires AimsAt(CirclePlots(x0, y0, r, color), px, py)
    ensures NearCircle(x0, y0, r, px, py) && r >= 0
    ensures Uniform(CirclePlots(x0, y0, r, color), color)
  {
    CircleStartInv(r);
    CircleFromNear(x0, y0, r, 0, r, 3 - 2 * r, color, px, py);
    CircleFromUniform(x0, y0, 0, r, 3 - 2 * r, color);
  }

  /** Radius 0 writes the centre eight times. */
  lemma CircleRadiusZero(x0: int, y0: int, color: int)
    ensures CirclePlots(x0, y0, 0, color) == seq(8, _ => Plot(x0, y0, color))
  {
    assert CircleFrom(x0, y0, 1, 0, 13, color) == [];
  }

  lemma {:induction false} CircleFromSymmetric(x0: int, y0: int, x: int, y: int, d: int, color: int, m: Reflection, a: int, b: int)
    requires x >= 0
    requires AimsAt(CircleFrom(x0, y0, x, y, d, color), x0 + a, y0 + b)
    ensures AimsAt(CircleFrom(x0, y0, x, y, d, color), x0 + Reflect(m, a, b).0, y0 + Reflect(m, a, b).1)
    decreases if y >= x then y - x + 1 else 0
  {
    if y >= x {
      var o := Octet(x0, y0, x, y, color);
      var x', y', d' := CircleFromUnfold(x0, y0, x, y, d, color);
      var rest := CircleFrom(x0, y0, x', y', d', color);
      var (a', b') := Reflect(m, a, b);
      AimsAtAppend(o, rest, x0 + a, y0 + b);
      AimsAtAppend(o, rest, x0 + a', y0 + b');
      if AimsAt(o, x0 + a, y0 + b) {
        OctetSymmetric(x0, y0, x, y, color, m, a, b);
      } else {
        CircleFromSymmetric(x0, y0, x', y', d', color, m, a, b);
      }
    }
  }

  /**
   * The set of pixels draw_circle writes is symmetric about the vertical
   * and the horizontal line through the centre and about the diagonal.
   */
  lemma CircleSymmetric(x0: int, y0: int, r: int, color: int, a: int, b: int)
    requires AimsAt(CirclePlots(x0, y0, r, color), x0 + a, y0 + b)
    ensures AimsAt(CirclePlots(x0, y0, r, color), x0 - a, y0 + b)
    ensures AimsAt(CirclePlots(x0, y0, r, color), x0 + a, y0 - b)
    ensures AimsAt(CirclePlots(x0, y0, r, color), x0 + b, y0 + a)
  {
    CircleFromSymmetric(x0, y0, 0, r, 3 - 2 * r, color, MirrorX, a, b);
    CircleFromSymmetric(x0, y0, 0, r, 3 - 2 * r, color, MirrorY, a, b);
    CircleFromSymmetric(x0, y0, 0, r, 3 - 2 * r, color, MirrorDiagonal, a, b);
  }

  /*
   * fill_circle: every pixel of the (2r + 1) x (2r + 1) square whose offset
   * (a, b) from the centre has a*a + b*b <= r*r.
   */

  /** The point at offset (a, b) is inside the disc of radius r. */
  predicate InDisc(r: int, a: int, b: int)
  {
    -r <= a <= r && -r <= b <= r && Sq(a) + Sq(b) <= Sq(r)
  }

  /** fill_circle's inner loop on the row at offset b, its first n passes: offsets a = -r .. -r + n - 1. */
  function DiscRow(x0: int, y0: int, r: int, b: int, color: int, n: int): seq<Plot>
    decreases n
  {
    if n <= 0 then []
    else
      var a := -r + n - 1;
      DiscRow(x0, y0, r, b, color, n - 1) + (if a * a + b * b <= r * r then [Plot(x0 + a, y0 + b, color)] else [])
  }

  /** fill_circle's outer loop, its first m rows: offsets b = -r .. -r + m - 1. */
  function DiscRows(x0: int, y0: int, r: int, color: int, m: int): seq<Plot>
    decreases m
  {
    if m <= 0 then [] else DiscRows(x0, y0, r, color, m - 1) + DiscRow(x0, y0, r, -r + m - 1, color, 2 * r + 1)
  }

  /** The writes of fill_circle(x0, y0, r, color). */
  function DiscPlots(x0: int, y0: int, r: int, color: int): seq<Plot>
  {
    DiscRows(x0, y0, r, color, 2 * r + 1)
  }

  lemma {:induction false} DiscRowAims(x0: int, y0: int, r: int, b: int, color: int, n: int, px: int, py: int)
    ensures AimsAt(DiscRow(x0, y0, r, b, color, n), px, py) <==>
      py - y0 == b && -r <= px - x0 < -r + n && Sq(px - x0) + Sq(py - y0) <= Sq(r)
    ensures Uniform(DiscRow(x0, y0, r, b, color, n), color)
    decreases n
  {
    if n > 0 {
      var a := -r + n - 1;
      var last := if Sq(a) + Sq(b) <= Sq(r) then [Plot(x0 + a, y0 + b, color)] else [];
      DiscRowAims(x0, y0, r, b, color, n - 1, px, py);
      AimsAtAppend(DiscRow(x0, y0, r, b, color, n - 1), last, px, py);
      UniformAppend(DiscRow(x0, y0, r, b, color, n - 1), last, color);
      if px == x0 + a && py == y0 + b && Sq(a) + Sq(b) <= Sq(r) {
        assert last[0].x == px && last[0].y == py;
      }
    }
  }

  lemma {:induction false} DiscRowsAims(x0: int, y0: int, r: int, color: int, m: int, px: int, py: int)
    requires m <= 2 * r + 1
    ensures AimsAt(DiscRows(x0, y0, r, color, m), px, py) <==>
      -r <= py - y0 < -r + m && InDisc(r, px - x0, py - y0)
    ensures Uniform(DiscRows(x0, y0, r, color, m), color)
    decreases m
  {
    if m > 0 {
      var b := -r + m - 1;
      var row := DiscRow(x0, y0, r, b, color, 2 * r + 1);
      DiscRowsAims(x0, y0, r, color, m - 1, px, py);
      DiscRowAims(x0, y0, r, b, color, 2 * r + 1, px, py);
      AimsAtAppend(DiscRows(x0, y0, r, color, m - 1), row, px, py);
      UniformAppend(DiscRows(x0, y0, r, color, m - 1), row, color);
    }
  }

  /** fill_circle writes exactly the pixels of the disc, each in the given colour. */
  lemma DiscIsDisc(x0: int, y0: int, r: int, color: int, px: int, py: int)
    ensures AimsAt(DiscPlots(x0, y0, r, color), px, py) <==> InDisc(r, px - x0, py - y0)
    ensures Uniform(DiscPlots(x0, y0, r, color), color)
  {
    DiscRowsAims(x0, y0, r, color, 2 * r + 1, px, py);
  }

  /** With WHITE or BLACK, fill_circle sets exactly the in-bounds pixels of the disc to that colour. */
  lemma DiscEffect(buf: seq<Byte>, width: int, height: int, x0: int, y0: int, r: int, color: int, px: int, py: int)
    requires Sized(buf, width, height) && InBounds(width, height, px, py)
    requires color == WHITE || color == BLACK
    ensures Lit(Paint(buf, width, height, DiscPlots(x0, y0, r, color)), width, height, px, py) ==
      if InDisc(r, px - x0, py - y0) then color == WHITE else Lit(buf, width, height, px, py)
  {
    DiscIsDisc(x0, y0, r, color, px, py);
    PaintSolidAims(buf, width, height, DiscPlots(x0, y0, r, color), color, px, py);
  }

  /*
   * One pass of each drawing loop, as a step from the plots of n passes to
   * those of n + 1; the drawing methods follow their loops with these.
   */

  lemma LineFromNext(p: Pen, x1: int, y1: int, dx: int, dy: int, sx: int, sy: int, color: int, done: seq<Plot>, whole: seq<Plot>)
    requires LineInv(p, x1, y1, dx, dy, sx, sy) && done + LineFrom(p, x1, y1, dx, dy, sx, sy, color) == whole
    ensures p.x == x1 && p.y == y1 ==> done + [Plot(p.x, p.y, color)] == whole
    ensures !(p.x == x1 && p.y == y1) ==>
      LineInv(LineStep(p, dx, dy, sx, sy), x1, y1, dx, dy, sx, sy) &&
      done + [Plot(p.x, p.y, color)] + LineFrom(LineStep(p, dx, dy, sx, sy), x1, y1, dx, dy, sx, sy, color) == whole
  {
    if !(p.x == x1 && p.y == y1) {
      LineStepKeepsInv(p, x1, y1, dx, dy, sx, sy);
      var rest := LineFrom(LineStep(p, dx, dy, sx, sy), x1, y1, dx, dy, sx, sy, color);
      assert done + [Plot(p.x, p.y, color)] + rest == done + ([Plot(p.x, p.y, color)] + rest);
    }
  }

  lemma TopBottomNext(x: int, y: int, h: int, color: int, n: int)
    requires n >= 0
    ensures TopBottom(x, y, h, color, n + 1) ==
      TopBottom(x, y, h, color, n) + [Plot(x + n, y, color)] + [Plot(x + n, y + h - 1, color)]
  {
    var t := TopBottom(x, y, h, color, n);
    assert t + [Plot(x + n, y, color)] + [Plot(x + n, y + h - 1, color)] == t + [Plot(x + n, y, color), Plot(x + n, y + h - 1, color)];
  }

  lemma LeftRightNext(pre: seq<Plot>, x: int, y: int, w: int, color: int, n: int)
    requires n >= 0
    ensures pre + LeftRight(x, y, w, color, n + 1) ==
      pre + LeftRight(x, y, w, color, n) + [Plot(x, y + n, color)] + [Plot(x + w - 1, y + n, color)]
  {
    var l := LeftRight(x, y, w, color, n);
    assert pre + (l + [Plot(x, y + n, color), Plot(x + w - 1, y + n, color)]) ==
      pre + l + [Plot(x, y + n, color)] + [Plot(x + w - 1, y + n, color)];
  }

  lemma FillRowNext(pre: seq<Plot>, x: int, y: int, j: int, color: int, n: int)
    requires n >= 0
    ensures pre + FillRow(x, y, j, color, n + 1) == pre + FillRow(x, y, j, color, n) + [Plot(x + n, y + j, color)]
  {
    var f := FillRow(x, y, j, color, n);
    assert pre + (f + [Plot(x + n, y + j, color)]) == pre + f + [Plot(x + n, y + j, color)];
  }

  lemma FillRowsNext(x: int, y: int, w: int, color: int, m: int)
    requires m >= 0
    ensures FillRows(x, y, w, color, m + 1) == FillRows(x, y, w, color, m) + FillRow(x, y, m, color, w)
  {
  }

  lemma CircleFromNext(x0: int, y0: int, x: int, y: int, d: int, color: int, done: seq<Plot>, whole: seq<Plot>)
    requires y >= x && done + CircleFrom(x0, y0, x, y, d, color) == whole
    ensures d < 0 ==>
      done + Octet(x0, y0, x, y, color) + CircleFrom(x0, y0, x + 1, y, d + 4 * x + 6, color) == whole
    ensures d >= 0 ==>
      done + Octet(x0, y0, x, y, color) + CircleFrom(x0, y0, x + 1, y - 1, d + 4 * (x - y) + 10, color) == whole
  {
    var o := Octet(x0, y0, x, y, color);
    if d < 0 {
      var rest := CircleFrom(x0, y0, x + 1, y, d + 4 * x + 6, color);
      assert done + (o + rest) == done + o + rest;
    } else {
      var rest := CircleFrom(x0, y0, x + 1, y - 1, d + 4 * (x - y) + 10, color);
      assert done + (o + rest) == done + o + rest;
    }
  }

  lemma CircleFromDone(x0: int, y0: int, x: int, y: int, d: int, color: int, done: seq<Plot>, whole: seq<Plot>)
    requires y < x && done + CircleFrom(x0, y0, x, y, d, color) == whole
    ensures done == whole
  {
    assert done + [] == done;
  }

  lemma DiscRowNext(pre: seq<Plot>, x0: int, y0: int, r: int, b: int, color: int, a: int)
    requires a >= -r
    ensures a * a + b * b <= r * r ==>
      pre + DiscRow(x0, y0, r, b, color, a + r + 1) == pre + DiscRow(x0, y0, r, b, color, a + r) + [Plot(x0 + a, y0 + b, color)]
    ensures !(a * a + b * b <= r * r) ==>
      pre + DiscRow(x0, y0, r, b, color, a + r + 1) == pre + DiscRow(x0, y0, r, b, color, a + r)
  {
    var row := DiscRow(x0, y0, r, b, color, a + r);
    if a * a + b * b <= r * r {
      assert pre + (row + [Plot(x0 + a, y0 + b, color)]) == pre + row + [Plot(x0 + a, y0 + b, color)];
    } else {
      assert row + [] == row;
    }
  }

  lemma DiscRowsNext(x0: int, y0: int, r: int, color: int, b: int)
    requires b >= -r
    ensures DiscRows(x0, y0, r, color, b + r + 1) == DiscRows(x0, y0, r, color, b + r) + DiscRow(x0, y0, r, b, color, 2 * r + 1)
  {
  }
}
