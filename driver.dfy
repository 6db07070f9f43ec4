/**
 * The functions of ssd1306.c that the extension exports: the lifecycle of
 * the one active display (the global `SSD1306_G(display)` handle, here the
 * `display` field of a Driver, null when no display is active), the flush,
 * clearing the buffer, and the contrast, invert and scroll command chains.
 * Every function other than begin and end first checks that a display is
 * active and otherwise returns false without touching the bus.
 */
module Extension {
  import opened Constants
  import opened Transport
  import opened Framebuffer
  import opened Device

  /*
   * The command lists of ssd1306.c. Every argument is an `unsigned char`
   * parameter of ssd1306_command, so a wider C value reaches the bus
   * reduced modulo 256 (ToByte).
   */

  /** The single command of invert_display. */
  function InvertCommands(invert: bool): (cs: seq<Byte>)
    ensures |cs| == 1
  {
    [if invert then INVERTDISPLAY else NORMALDISPLAY]
  }

  /** The contrast commands: SETCONTRAST, then the level. */
  function ContrastCommands(level: int): (cs: seq<Byte>)
    ensures |cs| == 2
  {
    [SETCONTRAST, ToByte(level)]
  }

  /** The level dim sends: 0 when dimming, otherwise the stored contrast. */
  function DimLevel(dim: bool, contrast: int): int
  {
    if dim then 0 else contrast
  }

  /** dim(true) sends contrast 0; dim(false) sends the stored contrast, which set_contrast keeps within 0 .. 255. */
  lemma DimCommandsBytes(contrast: int)
    ensures ContrastCommands(DimLevel(true, contrast)) == [0x81, 0x00]
    ensures 0 <= contrast < 256 ==> ContrastCommands(DimLevel(false, contrast)) == [0x81, contrast as Byte]
  {
  }

  /** The page range shared by all four scroll commands: a dummy byte, start, the interval, stop. */
  function ScrollRange(start: int, stop: int): (cs: seq<Byte>)
    ensures |cs| == 4
  {
    [0x00, ToByte(start), 0x00, ToByte(stop)]
  }

  /** start_scroll_right and start_scroll_left: the direction, the range, two dummy bytes, activate. */
  function HorizontalScroll(direction: Byte, start: int, stop: int): (cs: seq<Byte>)
    ensures |cs| == 8
  {
    [direction] + ScrollRange(start, stop) + [0x00, 0xFF, ACTIVATE_SCROLL]
  }

  /** The vertical scroll area of the diagonal scrolls: rows 0 to the panel height, then the direction. */
  function ScrollArea(height: int, direction: Byte): (cs: seq<Byte>)
    ensures |cs| == 4
  {
    [SET_VERTICAL_SCROLL_AREA, 0x00, ToByte(height), direction]
  }

  /** start_scroll_diag_right and start_scroll_diag_left: the area, the range, a vertical offset of 1, activate. */
  function DiagonalScroll(height: int, direction: Byte, start: int, stop: int): (cs: seq<Byte>)
    ensures |cs| == 10
  {
    ScrollArea(height, direction) + ScrollRange(start, stop) + [0x01, ACTIVATE_SCROLL]
  }

  /** The horizontal scrolls, command by command, as the source lists them. */
  lemma HorizontalScrollBytes(direction: Byte, start: int, stop: int)
    requires 0 <= start < 256 && 0 <= stop < 256
    ensures HorizontalScroll(direction, start, stop) ==
      [direction, 0x00, start as Byte, 0x00, stop as Byte, 0x00, 0xFF, 0x2F]
  {
  }

  /** The diagonal scrolls, command by command, as the source lists them. */
  lemma DiagonalScrollBytes(height: int, direction: Byte, start: int, stop: int)
    requires 0 <= height < 256 && 0 <= start < 256 && 0 <= stop < 256
    ensures DiagonalScroll(height, direction, start, stop) ==
      [0xA3, 0x00, height as Byte, direction, 0x00, start as Byte, 0x00, stop as Byte, 0x01, 0x2F]
  {
  }

  /** Sending a + b is sending a, then b when a got through. */
  lemma TransmitCommandsAppend(fails: nat -> bool, log: seq<Frame>, a: seq<Byte>, b: seq<Byte>)
    ensures Transmit(fails, log, CommandFrames(a + b)) ==
      var first := Transmit(fails, log, CommandFrames(a));
      if first.1 then Transmit(fails, first.0, CommandFrames(b)) else first
  {
    CommandFramesAppend(a, b);
    TransmitAppend(fails, log, CommandFrames(a), CommandFrames(b));
  }

  /** One command is one frame, which fails exactly when the oracle says so. */
  lemma TransmitOne(fails: nat -> bool, log: seq<Frame>, c: Byte)
    ensures Transmit(fails, log, CommandFrames([c])) == (log + [CommandFrame(c)], !fails(|log|))
  {
    var fs := CommandFrames([c]);
    assert fs == [CommandFrame(c)];
    assert fs[1..] == [];
  }

  /*
   * The short-circuit chains `ssd1306_command(...) != 0 || ...`: each helper
   * sends its bytes one command at a time and stops at the first failure.
   */

  /** One command. */
  method SendOne(d: Display, c: Byte) returns (ok: bool)
    requires d.bus.isOpen
    modifies d.bus
    ensures (d.bus.log, ok) == Transmit(d.bus.fails, old(d.bus.log), CommandFrames([c]))
    ensures d.bus.isOpen && d.bus.address == old(d.bus.address)
  {
    TransmitOne(d.bus.fails, d.bus.log, c);
    ok := d.Command(c);
  }

  /** Two commands. */
  method SendTwo(d: Display, a: Byte, b: Byte) returns (ok: bool)
    requires d.bus.isOpen
    modifies d.bus
    ensures (d.bus.log, ok) == Transmit(d.bus.fails, old(d.bus.log), CommandFrames([a, b]))
    ensures d.bus.isOpen && d.bus.address == old(d.bus.address)
  {
    TransmitCommandsAppend(d.bus.fails, d.bus.log, [a], [b]);
    assert [a] + [b] == [a, b];
    ok := SendOne(d, a);
    if !ok {
      return;
    }
    ok := SendOne(d, b);
  }

  /** Three commands. */
  method SendThree(d: Display, a: Byte, b: Byte, c: Byte) returns (ok: bool)
    requires d.bus.isOpen
    modifies d.bus
    ensures (d.bus.log, ok) == Transmit(d.bus.fails, old(d.bus.log), CommandFrames([a, b, c]))
    ensures d.bus.isOpen && d.bus.address == old(d.bus.address)
  {
    TransmitCommandsAppend(d.bus.fails, d.bus.log, [a], [b, c]);
    assert [a] + [b, c] == [a, b, c];
    ok := SendOne(d, a);
    if !ok {
      return;
    }
    ok := SendTwo(d, b, c);
  }

  /** Four commands. */
  method SendFour(d: Display, a: Byte, b: Byte, c: Byte, e: Byte) returns (ok: bool)
    requires d.bus.isOpen
    modifies d.bus
    ensures (d.bus.log, ok) == Transmit(d.bus.fails, old(d.bus.log), CommandFrames([a, b, c, e]))
    ensures d.bus.isOpen && d.bus.address == old(d.bus.address)
  {
    TransmitCommandsAppend(d.bus.fails, d.bus.log, [a, b], [c, e]);
    assert [a, b] + [c, e] == [a, b, c, e];
    ok := SendTwo(d, a, b);
    if !ok {
      return;
    }
    ok := SendTwo(d, c, e);
  }

  /** The body of start_scroll_right and start_scroll_left. */
  method SendHorizontalScroll(d: Display, direction: Byte, start: int, stop: int) returns (ok: bool)
    requires d.bus.isOpen
    modifies d.bus
    ensures (d.bus.log, ok) == Transmit(d.bus.fails, old(d.bus.log), CommandFrames(HorizontalScroll(direction, start, stop)))
    ensures d.bus.isOpen && d.bus.address == old(d.bus.address)
  {
    var range, tail := ScrollRange(start, stop), [0x00, 0xFF, ACTIVATE_SCROLL];
    TransmitCommandsAppend(d.bus.fails, d.bus.log, [direction] + range, tail);
    TransmitCommandsAppend(d.bus.fails, d.bus.log, [direction], range);
    ok := SendOne(d, direction);
    if !ok {
      return;
    }
    ghost var l1 := d.bus.log;
    TransmitCommandsAppend(d.bus.fails, l1, range, tail);
    ok := SendFour(d, 0x00, ToByte(start), 0x00, ToByte(stop));
    if !ok {
      return;
    }
    ok := SendThree(d, 0x00, 0xFF, ACTIVATE_SCROLL);
  }

  /** The body of start_scroll_diag_right and start_scroll_diag_left, for a panel `height` rows high. */
  method SendDiagonalScroll(d: Display, height: int, direction: Byte, start: int, stop: int) returns (ok: bool)
    requires d.bus.isOpen
    modifies d.bus
    ensures (d.bus.log, ok) == Transmit(d.bus.fails, old(d.bus.log), CommandFrames(DiagonalScroll(height, direction, start, stop)))
    ensures d.bus.isOpen && d.bus.address == old(d.bus.address)
  {
    var area, range, tail := ScrollArea(height, direction), ScrollRange(start, stop), [0x01, ACTIVATE_SCROLL];
    TransmitCommandsAppend(d.bus.fails, d.bus.log, area + range, tail);
    TransmitCommandsAppend(d.bus.fails, d.bus.log, area, range);
    ok := SendFour(d, SET_VERTICAL_SCROLL_AREA, 0x00, ToByte(height), direction);
    if !ok {
      return;
    }
    ghost var l1 := d.bus.log;
    TransmitCommandsAppend(d.bus.fails, l1, range, tail);
    ok := SendFour(d, 0x00, ToByte(start), 0x00, ToByte(stop));
    if !ok {
      return;
    }
    ok := SendTwo(d, 0x01, ACTIVATE_SCROLL);
  }

  /**
   * The extension's state: the adapter, and the active display (null when
   * there is none). The adapter is open exactly while a display is active.
   */
  class Driver {
    const bus: Bus
    var display: Display?

    ghost predicate Valid()
      reads this, bus, display
    {
      (display == null ==> !bus.isOpen) &&
      (display != null ==> display.bus == bus && display.Valid())
    }

    /** The module's initial state: no display. */
    constructor(bus: Bus)
      requires !bus.isOpen
      ensures this.bus == bus && display == null && Valid()
    {
      this.bus := bus;
      display := null;
    }

    /**
     * ssd1306_begin: an active display is cleaned up first (display-off,
     * close, free). A fresh zeroed display is then initialised; when that
     * fails no display is active. `allocOk` is malloc's answer inside
     * ssd1306_init.
     */
    method Begin(i2cAddr: int, width: int, height: int, vccState: int, allocOk: bool) returns (ok: bool)
      requires Valid()
      modifies this, bus, display
      ensures Valid() && ok == (display != null)
      ensures var cleaned := if old(display) != null then old(bus.log) + [CommandFrame(DISPLAYOFF)] else old(bus.log);
        (bus.log, ok) == InitOutcome(bus.openFails(old(bus.opens)), bus.bindFails(old(bus.opens)), bus.fails,
                                     allocOk, cleaned, width, height, vccState)
      ensures bus.opens == old(bus.opens) + if InitOpens(allocOk, width, height) then 1 else 0
      ensures old(display) != null ==> !old(display).hasBuffer
      ensures ok ==> fresh(display) && bus.address == i2cAddr
      ensures ok ==> display.i2cAddr == i2cAddr && display.width == width && display.height == height
      ensures ok ==> display.vccState == vccState
      ensures ok ==> forall x, y :: !Lit(display.buffer[..], display.width, display.height, x, y)
    {
      if display != null {
        display.Cleanup();
      }
      var d := new Display(bus);
      ok := d.Init(i2cAddr, width, height, vccState, allocOk);
      if !ok {
        display := null;
        return;
      }
      display := d;
      forall x, y ensures !Lit(d.buffer[..], d.width, d.height, x, y) {
        ZeroBufferIsDark(d.buffer[..], d.width, d.height, x, y);
      }
    }

    /** ssd1306_end: with an active display, display-off and release; without one, nothing. */
    method End()
      requires Valid()
      modifies this, bus, display
      ensures Valid() && display == null
      ensures bus.log == if old(display) != null then old(bus.log) + [CommandFrame(DISPLAYOFF)] else old(bus.log)
      ensures old(display) != null ==> !old(display).hasBuffer
    {
      if display != null {
        display.Cleanup();
        display := null;
      }
    }

    /** ssd1306_display: the flush of the active display. */
    method Show() returns (ok: bool)
      requires Valid()
      modifies bus
      ensures Valid()
      ensures display == null ==> !ok && bus.log == old(bus.log)
      ensures display != null ==>
        (bus.log, ok) == Transmit(bus.fails, old(bus.log), UpdateFrames(display.width, display.pages, display.buffer[..]))
    {
      if display == null {
        return false;
      }
      UpdateChainIsTransmit(bus.fails, bus.log, display.width, display.pages, display.buffer[..]);
      ok := display.UpdateDisplay();
    }

    /** ssd1306_clear_display: every byte of the buffer becomes 0, so no pixel is lit; nothing is sent. */
    method ClearDisplay()
      requires Valid()
      modifies if display != null then {display.buffer} else {}
      ensures Valid()
      ensures display != null ==> forall k :: 0 <= k < display.buffer.Length ==> display.buffer[k] == 0
      ensures display != null ==> forall x, y :: !Lit(display.buffer[..], display.width, display.height, x, y)
    {
      if display == null {
        return;
      }
      var d := display;
      forall k | 0 <= k < d.buffer.Length {
        d.buffer[k] := 0;
      }
      forall x, y ensures !Lit(d.buffer[..], d.width, d.height, x, y) {
        ZeroBufferIsDark(d.buffer[..], d.width, d.height, x, y);
      }
    }

    /** ssd1306_invert_display: INVERTDISPLAY when true, NORMALDISPLAY when false. */
    method InvertDisplay(invert: bool) returns (ok: bool)
      requires Valid()
      modifies bus
      ensures Valid()
      ensures display == null ==> !ok && bus.log == old(bus.log)
      ensures display != null ==> (bus.log, ok) == Transmit(bus.fails, old(bus.log), CommandFrames(InvertCommands(invert)))
      ensures display != null ==>
        bus.log == old(bus.log) + [CommandFrame(if invert then INVERTDISPLAY else NORMALDISPLAY)] &&
        ok == !bus.fails(|old(bus.log)|)
    {
      if display == null {
        return false;
      }
      var cmd := if invert then INVERTDISPLAY else NORMALDISPLAY;
      TransmitOne(bus.fails, bus.log, cmd);
      ok := SendOne(display, cmd);
    }

    /** ssd1306_dim: contrast 0 when dimming, the stored contrast otherwise; the stored value is kept. */
    method Dim(dim: bool) returns (ok: bool)
      requires Valid()
      modifies bus
      ensures Valid()
      ensures display == null ==> !ok && bus.log == old(bus.log)
      ensures display != null ==> display.contrast == old(display.contrast)
      ensures display != null ==>
        (bus.log, ok) == Transmit(bus.fails, old(bus.log), CommandFrames(ContrastCommands(DimLevel(dim, display.contrast))))
    {
      if display == null {
        return false;
      }
      var level := if dim then 0 else display.contrast;
      ok := SendTwo(display, SETCONTRAST, ToByte(level));
    }

    /**
     * ssd1306_set_contrast: a level outside 0 .. 255 is refused with nothing
     * stored or sent; otherwise the level is stored first and then sent.
     */
    method SetContrast(contrast: int) returns (ok: bool)
      requires Valid()
      modifies bus, display
      ensures Valid() && display == old(display)
      ensures display == null ==> !ok && bus.log == old(bus.log)
      ensures display != null && !(0 <= contrast <= 255) ==>
        !ok && bus.log == old(bus.log) && display.contrast == old(display.contrast)
      ensures display != null && 0 <= contrast <= 255 ==>
        display.contrast == contrast &&
        (bus.log, ok) == Transmit(bus.fails, old(bus.log), CommandFrames([SETCONTRAST, contrast as Byte]))
      ensures display != null ==> unchanged(display`width, display`height, display`pages, display`buffer, display`hasBuffer)
    {
      if display == null {
        return false;
      }
      if contrast < 0 || contrast > 255 {
        return false;
      }
      display.contrast := contrast;
      ok := SendTwo(display, SETCONTRAST, ToByte(contrast));
    }

    /** ssd1306_start_scroll_right. */
    method StartScrollRight(start: int, stop: int) returns (ok: bool)
      requires Valid()
      modifies bus
      ensures Valid()
      ensures display == null ==> !ok && bus.log == old(bus.log)
      ensures display != null ==>
        (bus.log, ok) == Transmit(bus.fails, old(bus.log), CommandFrames(HorizontalScroll(RIGHT_HORIZONTAL_SCROLL, start, stop)))
    {
      if display == null {
        return false;
      }
      ok := SendHorizontalScroll(display, RIGHT_HORIZONTAL_SCROLL, start, stop);
    }

    /** ssd1306_start_scroll_left. */
    method StartScrollLeft(start: int, stop: int) returns (ok: bool)
      requires Valid()
      modifies bus
      ensures Valid()
      ensures display == null ==> !ok && bus.log == old(bus.log)
      ensures display != null ==>
        (bus.log, ok) == Transmit(bus.fails, old(bus.log), CommandFrames(HorizontalScroll(LEFT_HORIZONTAL_SCROLL, start, stop)))
    {
      if display == null {
        return false;
      }
      ok := SendHorizontalScroll(display, LEFT_HORIZONTAL_SCROLL, start, stop);
    }

    /** ssd1306_start_scroll_diag_right. */
    method StartScrollDiagRight(start: int, stop: int) returns (ok: bool)
      requires Valid()
      modifies bus
      ensures Valid()
      ensures display == null ==> !ok && bus.log == old(bus.log)
      ensures display != null ==>
        (bus.log, ok) == Transmit(bus.fails, old(bus.log),
          CommandFrames(DiagonalScroll(display.height, VERTICAL_AND_RIGHT_HORIZONTAL_SCROLL, start, stop)))
    {
      if display == null {
        return false;
      }
      ok := SendDiagonalScroll(display, display.height, VERTICAL_AND_RIGHT_HORIZONTAL_SCROLL, start, stop);
    }

    /** ssd1306_start_scroll_diag_left. */
    method StartScrollDiagLeft(start: int, stop: int) returns (ok: bool)
      requires Valid()
      modifies bus
      ensures Valid()
      ensures display == null ==> !ok && bus.log == old(bus.log)
      ensures display != null ==>
        (bus.log, ok) == Transmit(bus.fails, old(bus.log),
          CommandFrames(DiagonalScroll(display.height, VERTICAL_AND_LEFT_HORIZONTAL_SCROLL, start, stop)))
    {
      if display == null {
        return false;
      }
      ok := SendDiagonalScroll(display, display.height, VERTICAL_AND_LEFT_HORIZONTAL_SCROLL, start, stop);
    }

    /** ssd1306_stop_scroll. */
    method StopScroll() returns (ok: bool)
      requires Valid()
      modifies bus
      ensures Valid()
      ensures display == null ==> !ok && bus.log == old(bus.log)
      ensures display != null ==> bus.log == old(bus.log) + [CommandFrame(DEACTIVATE_SCROLL)] && ok == !bus.fails(|old(bus.log)|)
    {
      if display == null {
        return false;
      }
      TransmitOne(bus.fails, bus.log, DEACTIVATE_SCROLL);
      ok := SendOne(display, DEACTIVATE_SCROLL);
    }
  }
}
