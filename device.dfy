/**
 * The display state record `ssd1306_t` and the functions of
 * ssd1306_display.c that initialise it, talk to the controller through it,
 * and read and write its framebuffer.
 *
 * Every command chain of this file is specified twice: as a decision tree
 * that follows the C code's early returns write by write (the `...Chain`
 * functions, which the methods are proved against), and as the list of
 * command bytes it sends; a `...ChainIsTransmit` lemma proves that the tree
 * is exactly the short-circuit transmission of that list.
 */
module Device {
  import opened Constants
  import opened Framebuffer
  import opened Transport

  /** The charge-pump setting: off (0x10) for an external supply, on (0x14) otherwise. */
  function ChargePump(vccState: int): Byte
  {
    if vccState == EXTERNALVCC then 0x10 else 0x14
  }

  /** The COM pin layout: sequential (0x02) for 32- and 16-row panels, alternative (0x12) otherwise. */
  function ComPins(height: int): Byte
  {
    if height == 32 then 0x02 else if height == 16 then 0x02 else 0x12
  }

  /** The pre-charge period: 0x22 for an external supply, 0xF1 otherwise. */
  function PreCharge(vccState: int): Byte
  {
    if vccState == EXTERNALVCC then 0x22 else 0xF1
  }

  /** The contrast ssd1306_init stores: lower for an external supply, higher for the internal charge pump. */
  function DefaultContrast(vccState: int): (c: int)
    ensures 0 <= c <= 255
    ensures vccState == EXTERNALVCC ==> c == 0x9F
    ensures vccState != EXTERNALVCC ==> c == 0xCF
  {
    if vccState == EXTERNALVCC then 0x9F else 0xCF
  }

  /** Display off, oscillator, multiplex ratio (height - 1), display offset and start line. */
  function ClockAndMultiplex(height: int): (cs: seq<Byte>)
    ensures |cs| == 8
  {
    [DISPLAYOFF, SETDISPLAYCLOCKDIV, 0x80, SETMULTIPLEX, ToByte(height - 1), SETDISPLAYOFFSET, 0x00, SETSTARTLINE | 0x00]
  }

  /** The first group written out: each write is attempted only when every earlier one succeeded. */
  function ClockAndMultiplexChain(fails: nat -> bool, log: seq<Frame>, height: int): Link
  {
    var l0 := log;
    var l1 := l0 + [CommandFrame(DISPLAYOFF)];
    if fails(|l0|) then (l1, false) else
    var l2 := l1 + [CommandFrame(SETDISPLAYCLOCKDIV)];
    if fails(|l1|) then (l2, false) else
    var l3 := l2 + [CommandFrame(0x80)];
    if fails(|l2|) then (l3, false) else
    var l4 := l3 + [CommandFrame(SETMULTIPLEX)];
    if fails(|l3|) then (l4, false) else
    var l5 := l4 + [CommandFrame(ToByte(height - 1))];
    if fails(|l4|) then (l5, false) else
    var l6 := l5 + [CommandFrame(SETDISPLAYOFFSET)];
    if fails(|l5|) then (l6, false) else
    var l7 := l6 + [CommandFrame(0x00)];
    if fails(|l6|) then (l7, false) else
    var l8 := l7 + [CommandFrame(SETSTARTLINE | 0x00)];
    if fails(|l7|) then (l8, false) else
    (l8, true)
  }

  /** The chain is the short-circuit transmission of ClockAndMultiplex, one command frame per byte. */
  lemma ClockAndMultiplexChainIsTransmit(fails: nat -> bool, log: seq<Frame>, height: int)
    ensures ClockAndMultiplexChain(fails, log, height) == Transmit(fails, log, CommandFrames(ClockAndMultiplex(height)))
  {
    var cs := ClockAndMultiplex(height);
    var l0 := log;
    assert cs[0] == DISPLAYOFF;
    var l1 := l0 + [CommandFrame(DISPLAYOFF)];
    assert SendFrom(fails, l0, cs, 0) == if fails(|l0|) then (l1, false) else SendFrom(fails, l1, cs, 1);
    assert cs[1] == SETDISPLAYCLOCKDIV;
    var l2 := l1 + [CommandFrame(SETDISPLAYCLOCKDIV)];
    assert SendFrom(fails, l1, cs, 1) == if fails(|l1|) then (l2, false) else SendFrom(fails, l2, cs, 2);
    assert cs[2] == 0x80;
    var l3 := l2 + [CommandFrame(0x80)];
    assert SendFrom(fails, l2, cs, 2) == if fails(|l2|) then (l3, false) else SendFrom(fails, l3, cs, 3);
    assert cs[3] == SETMULTIPLEX;
    var l4 := l3 + [CommandFrame(SETMULTIPLEX)];
    assert SendFrom(fails, l3, cs, 3) == if fails(|l3|) then (l4, false) else SendFrom(fails, l4, cs, 4);
    assert cs[4] == ToByte(height - 1);
    var l5 := l4 + [CommandFrame(ToByte(height - 1))];
    assert SendFrom(fails, l4, cs, 4) == if fails(|l4|) then (l5, false) else SendFrom(fails, l5, cs, 5);
    assert cs[5] == SETDISPLAYOFFSET;
    var l6 := l5 + [CommandFrame(SETDISPLAYOFFSET)];
    assert SendFrom(fails, l5, cs, 5) == if fails(|l5|) then (l6, false) else SendFrom(fails, l6, cs, 6);
    assert cs[6] == 0x00;
    var l7 := l6 + [CommandFrame(0x00)];
    assert SendFrom(fails, l6, cs, 6) == if fails(|l6|) then (l7, false) else SendFrom(fails, l7, cs, 7);
    assert cs[7] == SETSTARTLINE | 0x00;
    var l8 := l7 + [CommandFrame(SETSTARTLINE | 0x00)];
    assert SendFrom(fails, l7, cs, 7) == if fails(|l7|) then (l8, false) else SendFrom(fails, l8, cs, 8);
    SendFromIsTransmit(fails, log, cs, 0);
    assert CommandFrames(cs)[0..] == CommandFrames(cs);
  }

  /** Charge pump, horizontal addressing, segment remap and reversed COM scan. */
  function PumpAndAddressing(vccState: int): (cs: seq<Byte>)
    ensures |cs| == 6
  {
    [CHARGEPUMP, ChargePump(vccState), MEMORYMODE, 0x00, SEGREMAP | 0x01, COMSCANDEC]
  }

  /** The second group written out. */
  function PumpAndAddressingChain(fails: nat -> bool, log: seq<Frame>, vccState: int): Link
  {
    var l0 := log;
    var l1 := l0 + [CommandFrame(CHARGEPUMP)];
    if fails(|l0|) then (l1, false) else
    var l2 := l1 + [CommandFrame(ChargePump(vccState))];
    if fails(|l1|) then (l2, false) else
    var l3 := l2 + [CommandFrame(MEMORYMODE)];
    if fails(|l2|) then (l3, false) else
    var l4 := l3 + [CommandFrame(0x00)];
    if fails(|l3|) then (l4, false) else
    var l5 := l4 + [CommandFrame(SEGREMAP | 0x01)];
    if fails(|l4|) then (l5, false) else
    var l6 := l5 + [CommandFrame(COMSCANDEC)];
    if fails(|l5|) then (l6, false) else
    (l6, true)
  }

  /** The chain is the short-circuit transmission of PumpAndAddressing, one command frame per byte. */
  lemma PumpAndAddressingChainIsTransmit(fails: nat -> bool, log: seq<Frame>, vccState: int)
    ensures PumpAndAddressingChain(fails, log, vccState) == Transmit(fails, log, CommandFrames(PumpAndAddressing(vccState)))
  {
    var cs := PumpAndAddressing(vccState);
    var l0 := log;
    assert cs[0] == CHARGEPUMP;
    var l1 := l0 + [CommandFrame(CHARGEPUMP)];
    assert SendFrom(fails, l0, cs, 0) == if fails(|l0|) then (l1, false) else SendFrom(fails, l1, cs, 1);
    assert cs[1] == ChargePump(vccState);
    var l2 := l1 + [CommandFrame(ChargePump(vccState))];
    assert SendFrom(fails, l1, cs, 1) == if fails(|l1|) then (l2, false) else SendFrom(fails, l2, cs, 2);
    assert cs[2] == MEMORYMODE;
    var l3 := l2 + [CommandFrame(MEMORYMODE)];
    assert SendFrom(fails, l2, cs, 2) == if fails(|l2|) then (l3, false) else SendFrom(fails, l3, cs, 3);
    assert cs[3] == 0x00;
    var l4 := l3 + [CommandFrame(0x00)];
    assert SendFrom(fails, l3, cs, 3) == if fails(|l3|) then (l4, false) else SendFrom(fails, l4, cs, 4);
    assert cs[4] == SEGREMAP | 0x01;
    var l5 := l4 + [CommandFrame(SEGREMAP | 0x01)];
    assert SendFrom(fails, l4, cs, 4) == if fails(|l4|) then (l5, false) else SendFrom(fails, l5, cs, 5);
    assert cs[5] == COMSCANDEC;
    var l6 := l5 + [CommandFrame(COMSCANDEC)];
    assert SendFrom(fails, l5, cs, 5) == if fails(|l5|) then (l6, false) else SendFrom(fails, l6, cs, 6);
    SendFromIsTransmit(fails, log, cs, 0);
    assert CommandFrames(cs)[0..] == CommandFrames(cs);
  }

  /** COM pin layout, contrast, pre-charge period and VCOMH level. */
  function PanelDrive(height: int, vccState: int, contrast: int): (cs: seq<Byte>)
    ensures |cs| == 8
  {
    [SETCOMPINS, ComPins(height), SETCONTRAST, ToByte(contrast), SETPRECHARGE, PreCharge(vccState), SETVCOMDETECT, 0x40]
  }

  /** The third group written out. */
  function PanelDriveChain(fails: nat -> bool, log: seq<Frame>, height: int, vccState: int, contrast: int): Link
  {
    var l0 := log;
    var l1 := l0 + [CommandFrame(SETCOMPINS)];
    if fails(|l0|) then (l1, false) else
    var l2 := l1 + [CommandFrame(ComPins(height))];
    if fails(|l1|) then (l2, false) else
    var l3 := l2 + [CommandFrame(SETCONTRAST)];
    if fails(|l2|) then (l3, false) else
    var l4 := l3 + [CommandFrame(ToByte(contrast))];
    if fails(|l3|) then (l4, false) else
    var l5 := l4 + [CommandFrame(SETPRECHARGE)];
    if fails(|l4|) then (l5, false) else
    var l6 := l5 + [CommandFrame(PreCharge(vccState))];
    if fails(|l5|) then (l6, false) else
    var l7 := l6 + [CommandFrame(SETVCOMDETECT)];
    if fails(|l6|) then (l7, false) else
    var l8 := l7 + [CommandFrame(0x40)];
    if fails(|l7|) then (l8, false) else
    (l8, true)
  }

  /** The chain is the short-circuit transmission of PanelDrive, one command frame per byte. */
  lemma PanelDriveChainIsTransmit(fails: nat -> bool, log: seq<Frame>, height: int, vccState: int, contrast: int)
    ensures PanelDriveChain(fails, log, height, vccState, contrast) == Transmit(fails, log, CommandFrames(PanelDrive(height, vccState, contrast)))
  {
    var cs := PanelDrive(height, vccState, contrast);
    var l0 := log;
    assert cs[0] == SETCOMPINS;
    var l1 := l0 + [CommandFrame(SETCOMPINS)];
    assert SendFrom(fails, l0, cs, 0) == if fails(|l0|) then (l1, false) else SendFrom(fails, l1, cs, 1);
    assert cs[1] == ComPins(height);
    var l2 := l1 + [CommandFrame(ComPins(height))];
    assert SendFrom(fails, l1, cs, 1) == if fails(|l1|) then (l2, false) else SendFrom(fails, l2, cs, 2);
    assert cs[2] == SETCONTRAST;
    var l3 := l2 + [CommandFrame(SETCONTRAST)];
    assert SendFrom(fails, l2, cs, 2) == if fails(|l2|) then (l3, false) else SendFrom(fails, l3, cs, 3);
    assert cs[3] == ToByte(contrast);
    var l4 := l3 + [CommandFrame(ToByte(contrast))];
    assert SendFrom(fails, l3, cs, 3) == if fails(|l3|) then (l4, false) else SendFrom(fails, l4, cs, 4);
    assert cs[4] == SETPRECHARGE;
    var l5 := l4 + [CommandFrame(SETPRECHARGE)];
    assert SendFrom(fails, l4, cs, 4) == if fails(|l4|) then (l5, false) else SendFrom(fails, l5, cs, 5);
    assert cs[5] == PreCharge(vccState);
    var l6 := l5 + [CommandFrame(PreCharge(vccState))];
    assert SendFrom(fails, l5, cs, 5) == if fails(|l5|) then (l6, false) else SendFrom(fails, l6, cs, 6);
    assert cs[6] == SETVCOMDETECT;
    var l7 := l6 + [CommandFrame(SETVCOMDETECT)];
    assert SendFrom(fails, l6, cs, 6) == if fails(|l6|) then (l7, false) else SendFrom(fails, l7, cs, 7);
    assert cs[7] == 0x40;
    var l8 := l7 + [CommandFrame(0x40)];
    assert SendFrom(fails, l7, cs, 7) == if fails(|l7|) then (l8, false) else SendFrom(fails, l8, cs, 8);
    SendFromIsTransmit(fails, log, cs, 0);
    assert CommandFrames(cs)[0..] == CommandFrames(cs);
  }

  /** Show the RAM, normal polarity, no scrolling, display on. */
  function SwitchOn(): (cs: seq<Byte>)
    ensures |cs| == 4
  {
    [DISPLAYALLON_RESUME, NORMALDISPLAY, DEACTIVATE_SCROLL, DISPLAYON]
  }

  /** The last group written out. */
  function SwitchOnChain(fails: nat -> bool, log: seq<Frame>): Link
  {
    var l0 := log;
    var l1 := l0 + [CommandFrame(DISPLAYALLON_RESUME)];
    if fails(|l0|) then (l1, false) else
    var l2 := l1 + [CommandFrame(NORMALDISPLAY)];
    if fails(|l1|) then (l2, false) else
    var l3 := l2 + [CommandFrame(DEACTIVATE_SCROLL)];
    if fails(|l2|) then (l3, false) else
    var l4 := l3 + [CommandFrame(DISPLAYON)];
    if fails(|l3|) then (l4, false) else
    (l4, true)
  }

  /** The chain is the short-circuit transmission of SwitchOn, one command frame per byte. */
  lemma SwitchOnChainIsTransmit(fails: nat -> bool, log: seq<Frame>)
    ensures SwitchOnChain(fails, log) == Transmit(fails, log, CommandFrames(SwitchOn()))
  {
    var cs := SwitchOn();
    var l0 := log;
    assert cs[0] == DISPLAYALLON_RESUME;
    var l1 := l0 + [CommandFrame(DISPLAYALLON_RESUME)];
    assert SendFrom(fails, l0, cs, 0) == if fails(|l0|) then (l1, false) else SendFrom(fails, l1, cs, 1);
    assert cs[1] == NORMALDISPLAY;
    var l2 := l1 + [CommandFrame(NORMALDISPLAY)];
    assert SendFrom(fails, l1, cs, 1) == if fails(|l1|) then (l2, false) else SendFrom(fails, l2, cs, 2);
    assert cs[2] == DEACTIVATE_SCROLL;
    var l3 := l2 + [CommandFrame(DEACTIVATE_SCROLL)];
    assert SendFrom(fails, l2, cs, 2) == if fails(|l2|) then (l3, false) else SendFrom(fails, l3, cs, 3);
    assert cs[3] == DISPLAYON;
    var l4 := l3 + [CommandFrame(DISPLAYON)];
    assert SendFrom(fails, l3, cs, 3) == if fails(|l3|) then (l4, false) else SendFrom(fails, l4, cs, 4);
    SendFromIsTransmit(fails, log, cs, 0);
    assert CommandFrames(cs)[0..] == CommandFrames(cs);
  }

  /** The 26 command bytes of ssd1306_init_sequence, in order. */
  function InitCommands(height: int, vccState: int, contrast: int): (cs: seq<Byte>)
    ensures |cs| == 26
  {
    ClockAndMultiplex(height) + PumpAndAddressing(vccState) + PanelDrive(height, vccState, contrast) + SwitchOn()
  }

  /**
   * The initialisation list begins with display-off and ends with display-on,
   * and its parameter-dependent bytes are the multiplex ratio height - 1, the
   * charge pump, the COM pin layout, the contrast and the pre-charge period.
   */
  lemma InitCommandsShape(height: int, vccState: int, contrast: int)
    ensures var cs := InitCommands(height, vccState, contrast);
      cs[0] == DISPLAYOFF && cs[25] == DISPLAYON &&
      cs[3] == SETMULTIPLEX && cs[4] == ToByte(height - 1) &&
      cs[8] == CHARGEPUMP && cs[9] == (if vccState == EXTERNALVCC then 0x10 else 0x14) &&
      cs[14] == SETCOMPINS && cs[15] == (if height == 32 || height == 16 then 0x02 else 0x12) &&
      cs[16] == SETCONTRAST && cs[17] == ToByte(contrast) &&
      cs[18] == SETPRECHARGE && cs[19] == (if vccState == EXTERNALVCC then 0x22 else 0xF1)
    ensures 1 <= height <= 256 ==> InitCommands(height, vccState, contrast)[4] == (height - 1) as Byte
  {
    var g1, g2, g3, g4 := ClockAndMultiplex(height), PumpAndAddressing(vccState), PanelDrive(height, vccState, contrast), SwitchOn();
    var cs := InitCommands(height, vccState, contrast);
    assert cs == g1 + g2 + g3 + g4;
    assert cs[0] == g1[0] && cs[3] == g1[3] && cs[4] == g1[4];
    assert cs[8] == g2[0] && cs[9] == g2[1];
    assert cs[14] == g3[0] && cs[15] == g3[1] && cs[16] == g3[2] && cs[17] == g3[3];
    assert cs[18] == g3[4] && cs[19] == g3[5];
    assert cs[25] == g4[3];
  }

  /** ssd1306_init_sequence as a decision tree over the four groups. */
  function InitChain(fails: nat -> bool, log: seq<Frame>, height: int, vccState: int, contrast: int): Link
  {
    var a := ClockAndMultiplexChain(fails, log, height);
    if !a.1 then a else
    var b := PumpAndAddressingChain(fails, a.0, vccState);
    if !b.1 then b else
    var c := PanelDriveChain(fails, b.0, height, vccState, contrast);
    if !c.1 then c else
    SwitchOnChain(fails, c.0)
  }

  /** ssd1306_init_sequence sends exactly InitCommands, one frame each, and stops at the first failed write. */
  lemma InitChainIsTransmit(fails: nat -> bool, log: seq<Frame>, height: int, vccState: int, contrast: int)
    ensures InitChain(fails, log, height, vccState, contrast) ==
      Transmit(fails, log, CommandFrames(InitCommands(height, vccState, contrast)))
  {
    var g1, g2, g3, g4 := ClockAndMultiplex(height), PumpAndAddressing(vccState), PanelDrive(height, vccState, contrast), SwitchOn();
    CommandFramesAppend(g1 + g2 + g3, g4);
    CommandFramesAppend(g1 + g2, g3);
    CommandFramesAppend(g1, g2);
    TransmitAppend(fails, log, CommandFrames(g1) + CommandFrames(g2) + CommandFrames(g3), CommandFrames(g4));
    TransmitAppend(fails, log, CommandFrames(g1) + CommandFrames(g2), CommandFrames(g3));
    TransmitAppend(fails, log, CommandFrames(g1), CommandFrames(g2));
    ClockAndMultiplexChainIsTransmit(fails, log, height);
    var a := ClockAndMultiplexChain(fails, log, height);
    PumpAndAddressingChainIsTransmit(fails, a.0, vccState);
    var b := PumpAndAddressingChain(fails, a.0, vccState);
    PanelDriveChainIsTransmit(fails, b.0, height, vccState, contrast);
    var c := PanelDriveChain(fails, b.0, height, vccState, contrast);
    SwitchOnChainIsTransmit(fails, c.0);
  }

  /**
   * Whether ssd1306_init gets as far as open(): a height that is a whole
   * number of pages (see the findings) and a buffer that can be allocated.
   */
  predicate InitOpens(allocOk: bool, width: int, height: int)
  {
    height % 8 == 0 && width * TruncDiv8(height) >= 0 && allocOk
  }

  /**
   * Whether ssd1306_init reaches the bus: it gets as far as open(), and the
   * adapter opens and accepts the peripheral address.
   */
  predicate InitReachesBus(openFails: bool, bindFails: bool, allocOk: bool, width: int, height: int)
  {
    InitOpens(allocOk, width, height) && !openFails && !bindFails
  }

  /** The bus log after ssd1306_init, and whether it returned 0. */
  function InitOutcome(openFails: bool, bindFails: bool, fails: nat -> bool, allocOk: bool,
                       log: seq<Frame>, width: int, height: int, vccState: int): Link
  {
    if InitReachesBus(openFails, bindFails, allocOk, width, height)
    then InitChain(fails, log, height, vccState, DefaultContrast(vccState))
    else (log, false)
  }

  /**
   * The log after init is the old log followed by a prefix of the
   * initialisation frames; init succeeds exactly when it reaches the bus and
   * none of the 26 writes fails, and then the whole list has been sent.
   */
  lemma InitOutcomeIsPrefix(openFails: bool, bindFails: bool, fails: nat -> bool, allocOk: bool,
                            log: seq<Frame>, width: int, height: int, vccState: int)
    ensures var r := InitOutcome(openFails, bindFails, fails, allocOk, log, width, height, vccState);
      var frames := CommandFrames(InitCommands(height, vccState, DefaultContrast(vccState)));
      |log| <= |r.0| <= |log| + 26 && r.0 == log + frames[..|r.0| - |log|] &&
      (r.1 <==> InitReachesBus(openFails, bindFails, allocOk, width, height) &&
                forall n :: |log| <= n < |log| + 26 ==> !fails(n)) &&
      (r.1 ==> r.0 == log + frames)
  {
    var frames := CommandFrames(InitCommands(height, vccState, DefaultContrast(vccState)));
    InitChainIsTransmit(fails, log, height, vccState, DefaultContrast(vccState));
    if InitReachesBus(openFails, bindFails, allocOk, width, height) {
      if forall n :: |log| <= n < |log| + 26 ==> !fails(n) {
        TransmitAllSucceed(fails, log, frames);
      }
    } else {
      assert frames[..0] == [];
    }
  }

  /** The column window 0..width-1 and the page window 0..pages-1 that precede a flush. */
  function Window(width: int, pages: int): (cs: seq<Byte>)
    ensures |cs| == 6
  {
    [COLUMNADDR, 0, ToByte(width - 1), PAGEADDR, 0, ToByte(pages - 1)]
  }

  /** The window commands of a flush written out. */
  function WindowChain(fails: nat -> bool, log: seq<Frame>, width: int, pages: int): Link
  {
    var l0 := log;
    var l1 := l0 + [CommandFrame(COLUMNADDR)];
    if fails(|l0|) then (l1, false) else
    var l2 := l1 + [CommandFrame(0)];
    if fails(|l1|) then (l2, false) else
    var l3 := l2 + [CommandFrame(ToByte(width - 1))];
    if fails(|l2|) then (l3, false) else
    var l4 := l3 + [CommandFrame(PAGEADDR)];
    if fails(|l3|) then (l4, false) else
    var l5 := l4 + [CommandFrame(0)];
    if fails(|l4|) then (l5, false) else
    var l6 := l5 + [CommandFrame(ToByte(pages - 1))];
    if fails(|l5|) then (l6, false) else
    (l6, true)
  }

  /** The chain is the short-circuit transmission of Window, one command frame per byte. */
  lemma WindowChainIsTransmit(fails: nat -> bool, log: seq<Frame>, width: int, pages: int)
    ensures WindowChain(fails, log, width, pages) == Transmit(fails, log, CommandFrames(Window(width, pages)))
  {
    var cs := Window(width, pages);
    var l0 := log;
    assert cs[0] == COLUMNADDR;
    var l1 := l0 + [CommandFrame(COLUMNADDR)];
    assert SendFrom(fails, l0, cs, 0) == if fails(|l0|) then (l1, false) else SendFrom(fails, l1, cs, 1);
    assert cs[1] == 0;
    var l2 := l1 + [CommandFrame(0)];
    assert SendFrom(fails, l1, cs, 1) == if fails(|l1|) then (l2, false) else SendFrom(fails, l2, cs, 2);
    assert cs[2] == ToByte(width - 1);
    var l3 := l2 + [CommandFrame(ToByte(width - 1))];
    assert SendFrom(fails, l2, cs, 2) == if fails(|l2|) then (l3, false) else SendFrom(fails, l3, cs, 3);
    assert cs[3] == PAGEADDR;
    var l4 := l3 + [CommandFrame(PAGEADDR)];
    assert SendFrom(fails, l3, cs, 3) == if fails(|l3|) then (l4, false) else SendFrom(fails, l4, cs, 4);
    assert cs[4] == 0;
    var l5 := l4 + [CommandFrame(0)];
    assert SendFrom(fails, l4, cs, 4) == if fails(|l4|) then (l5, false) else SendFrom(fails, l5, cs, 5);
    assert cs[5] == ToByte(pages - 1);
    var l6 := l5 + [CommandFrame(ToByte(pages - 1))];
    assert SendFrom(fails, l5, cs, 5) == if fails(|l5|) then (l6, false) else SendFrom(fails, l6, cs, 6);
    SendFromIsTransmit(fails, log, cs, 0);
    assert CommandFrames(cs)[0..] == CommandFrames(cs);
  }

  /** The frames of ssd1306_update_display: the window commands, then the whole buffer in one data frame. */
  function UpdateFrames(width: int, pages: int, contents: seq<Byte>): (fs: seq<Frame>)
    ensures |fs| == 7
  {
    CommandFrames(Window(width, pages)) + [DataFrame(contents)]
  }

  /** The packed buffer travels unchanged: the last frame of a flush decodes to exactly the buffer's bytes. */
  lemma UpdateFramesCarryBuffer(width: int, pages: int, contents: seq<Byte>)
    ensures var fs := UpdateFrames(width, pages, contents);
      Decode(fs[6]) == Some(Data(contents)) &&
      forall k :: 0 <= k < 6 ==> Decode(fs[k]) == Some(Command(Window(width, pages)[k]))
  {
    DecodeEncode(Data(contents));
  }

  /** ssd1306_update_display as a decision tree: the window, then the data frame. */
  function UpdateChain(fails: nat -> bool, log: seq<Frame>, width: int, pages: int, contents: seq<Byte>): Link
  {
    var a := WindowChain(fails, log, width, pages);
    if !a.1 then a else (a.0 + [DataFrame(contents)], !fails(|a.0|))
  }

  /** A flush sends exactly UpdateFrames and stops at the first failed write. */
  lemma UpdateChainIsTransmit(fails: nat -> bool, log: seq<Frame>, width: int, pages: int, contents: seq<Byte>)
    ensures UpdateChain(fails, log, width, pages, contents) == Transmit(fails, log, UpdateFrames(width, pages, contents))
  {
    WindowChainIsTransmit(fails, log, width, pages);
    TransmitAppend(fails, log, CommandFrames(Window(width, pages)), [DataFrame(contents)]);
    var a := WindowChain(fails, log, width, pages);
    assert [DataFrame(contents)][1..] == [];
  }

  /** The display state of the driver (`ssd1306_t`). `bus` is its I2C file descriptor. */
  class Display {
    const bus: Bus
    var i2cAddr: int
    var width: int
    var height: int
    var pages: int
    var buffer: array<Byte>
    /** The buffer is live: allocated and not yet freed. */
    var hasBuffer: bool
    var bufferSize: int
    var vccState: int
    var contrast: int
    var cursorX: int
    var cursorY: int
    var textSize: int
    var textColor: int
    var textBgColor: int
    var wrap: bool

    /** The geometry fields agree with each other and with the buffer. */
    predicate Sized()
      reads this
    {
      height % 8 == 0 && pages == height / 8 &&
      bufferSize == width * pages && buffer.Length == bufferSize
    }

    /** A fully initialised display, as ssd1306_init leaves it on success. */
    ghost predicate Valid()
      reads this, bus
    {
      hasBuffer && bus.isOpen && Sized() && textSize >= 1 && 0 <= contrast <= 255
    }

    /** The zeroed record that ssd1306_begin allocates before calling ssd1306_init. */
    constructor(bus: Bus)
      ensures this.bus == bus && !hasBuffer
    {
      this.bus := bus;
      i2cAddr, width, height, pages := 0, 0, 0, 0;
      buffer := new Byte[0];
      hasBuffer, bufferSize, vccState, contrast := false, 0, 0, 0;
      cursorX, cursorY, textSize, textColor, textBgColor := 0, 0, 0, 0, 0;
      wrap := false;
    }

    /** ssd1306_command: one command frame. `ok` stands for a zero return. */
    method Command(c: Byte) returns (ok: bool)
      requires bus.isOpen
      modifies bus
      ensures ok == !bus.fails(|old(bus.log)|) && bus.log == old(bus.log) + [CommandFrame(c)]
      ensures bus.isOpen && bus.address == old(bus.address) && bus.opens == old(bus.opens)
    {
      ok := bus.Write(CommandFrame(c));
    }

    /** ssd1306_data: one data frame carrying `payload`. */
    method Data(payload: seq<Byte>) returns (ok: bool)
      requires bus.isOpen
      modifies bus
      ensures ok == !bus.fails(|old(bus.log)|) && bus.log == old(bus.log) + [DataFrame(payload)]
      ensures bus.isOpen && bus.address == old(bus.address) && bus.opens == old(bus.opens)
    {
      ok := bus.Write(DataFrame(payload));
    }

    method SendClockAndMultiplex(height: int) returns (ok: bool)
      requires bus.isOpen
      modifies bus
      ensures (bus.log, ok) == ClockAndMultiplexChain(bus.fails, old(bus.log), height)
      ensures bus.isOpen && bus.address == old(bus.address) && bus.opens == old(bus.opens)
    {
      ok := Command(DISPLAYOFF);
      if !ok { return; }
      ok := Command(SETDISPLAYCLOCKDIV);
      if !ok { return; }
      ok := Command(0x80);
      if !ok { return; }
      ok := Command(SETMULTIPLEX);
      if !ok { return; }
      ok := Command(ToByte(height - 1));
      if !ok { return; }
      ok := Command(SETDISPLAYOFFSET);
      if !ok { return; }
      ok := Command(0x00);
      if !ok { return; }
      ok := Command(SETSTARTLINE | 0x00);
    }

    method SendPumpAndAddressing(vccState: int) returns (ok: bool)
      requires bus.isOpen
      modifies bus
      ensures (bus.log, ok) == PumpAndAddressingChain(bus.fails, old(bus.log), vccState)
      ensures bus.isOpen && bus.address == old(bus.address) && bus.opens == old(bus.opens)
    {
      ok := Command(CHARGEPUMP);
      if !ok { return; }
      ok := Command(ChargePump(vccState));
      if !ok { return; }
      ok := Command(MEMORYMODE);
      if !ok { return; }
      ok := Command(0x00);
      if !ok { return; }
      ok := Command(SEGREMAP | 0x01);
      if !ok { return; }
      ok := Command(COMSCANDEC);
    }

    method SendPanelDrive(height: int, vccState: int, contrast: int) returns (ok: bool)
      requires bus.isOpen
      modifies bus
      ensures (bus.log, ok) == PanelDriveChain(bus.fails, old(bus.log), height, vccState, contrast)
      ensures bus.isOpen && bus.address == old(bus.address) && bus.opens == old(bus.opens)
    {
      ok := Command(SETCOMPINS);
      if !ok { return; }
      ok := Command(ComPins(height));
      if !ok { return; }
      ok := Command(SETCONTRAST);
      if !ok { return; }
      ok := Command(ToByte(contrast));
      if !ok { return; }
      ok := Command(SETPRECHARGE);
      if !ok { return; }
      ok := Command(PreCharge(vccState));
      if !ok { return; }
      ok := Command(SETVCOMDETECT);
      if !ok { return; }
      ok := Command(0x40);
    }

    method SendSwitchOn() returns (ok: bool)
      requires bus.isOpen
      modifies bus
      ensures (bus.log, ok) == SwitchOnChain(bus.fails, old(bus.log))
      ensures bus.isOpen && bus.address == old(bus.address) && bus.opens == old(bus.opens)
    {
      ok := Command(DISPLAYALLON_RESUME);
      if !ok { return; }
      ok := Command(NORMALDISPLAY);
      if !ok { return; }
      ok := Command(DEACTIVATE_SCROLL);
      if !ok { return; }
      ok := Command(DISPLAYON);
    }

    /**
     * ssd1306_init_sequence: the 26 commands for this panel's height, supply
     * mode and stored contrast, stopping at the first failed write.
     */
    method InitSequence() returns (ok: bool)
      requires bus.isOpen
      modifies bus
      ensures (bus.log, ok) == InitChain(bus.fails, old(bus.log), height, vccState, contrast)
      ensures bus.isOpen && bus.address == old(bus.address) && bus.opens == old(bus.opens)
    {
      ok := SendClockAndMultiplex(height);
      if !ok { return; }
      ok := SendPumpAndAddressing(vccState);
      if !ok { return; }
      ok := SendPanelDrive(height, vccState, contrast);
      if !ok { return; }
      ok := SendSwitchOn();
    }

    /** The geometry and supply fields that ssd1306_init records first. */
    method Configure(i2cAddr: int, width: int, height: int, vccState: int)
      modifies this
      ensures this.i2cAddr == i2cAddr && this.width == width && this.height == height && this.vccState == vccState
      ensures pages == TruncDiv8(height) && bufferSize == width * pages
      ensures contrast == DefaultContrast(vccState)
      ensures buffer == old(buffer) && hasBuffer == old(hasBuffer)
    {
      this.width := width;
      this.height := height;
      var p := TruncDiv8(height);
      pages := p;
      bufferSize := width * p;
      this.i2cAddr := i2cAddr;
      this.vccState := vccState;
      contrast := DefaultContrast(vccState);
    }

    /** The text defaults of ssd1306_init: cursor at the origin, size 1, white on black, wrapping on. */
    method ResetText()
      modifies this
      ensures cursorX == 0 && cursorY == 0 && textSize == 1 && wrap
      ensures textColor == WHITE && textBgColor == BLACK
      ensures i2cAddr == old(i2cAddr) && width == old(width) && height == old(height) && vccState == old(vccState)
      ensures pages == old(pages) && bufferSize == old(bufferSize) && contrast == old(contrast)
      ensures buffer == old(buffer) && hasBuffer == old(hasBuffer)
    {
      cursorX := 0;
      cursorY := 0;
      textSize := 1;
      textColor := WHITE;
      textBgColor := BLACK;
      wrap := true;
    }

    /**
     * ssd1306_init: records the geometry and the text defaults, allocates a
     * zeroed buffer, opens the adapter, selects the peripheral and sends the
     * initialisation sequence. Each failure undoes what was acquired before
     * it: the buffer is freed, and the adapter closed once it was open.
     * `allocOk` is malloc's answer.
     */
    method Init(i2cAddr: int, width: int, height: int, vccState: int, allocOk: bool) returns (ok: bool)
      requires !bus.isOpen && !hasBuffer
      modifies this, bus
      ensures this.i2cAddr == i2cAddr && this.width == width && this.height == height && this.vccState == vccState
      ensures pages == TruncDiv8(height) && bufferSize == width * pages
      ensures contrast == DefaultContrast(vccState)
      ensures cursorX == 0 && cursorY == 0 && textSize == 1 && wrap
      ensures textColor == WHITE && textBgColor == BLACK
      ensures (bus.log, ok) == InitOutcome(bus.openFails(old(bus.opens)), bus.bindFails(old(bus.opens)), bus.fails,
                                           allocOk, old(bus.log), width, height, vccState)
      ensures bus.opens == old(bus.opens) + if InitOpens(allocOk, width, height) then 1 else 0
      ensures ok ==> Valid() && fresh(buffer) && bus.address == i2cAddr
      ensures ok ==> forall k :: 0 <= k < buffer.Length ==> buffer[k] == 0
      ensures !ok ==> !hasBuffer && !bus.isOpen
    {
      Configure(i2cAddr, width, height, vccState);
      ResetText();
      if height % 8 != 0 {
        return false;
      }
      if bufferSize < 0 || !allocOk {
        return false;
      }
      buffer := new Byte[bufferSize];
      forall k | 0 <= k < buffer.Length {
        buffer[k] := 0;
      }
      hasBuffer := true;

      ok := Connect(i2cAddr);
      if !ok {
        hasBuffer := false;
      }
    }

    /**
     * The bus half of ssd1306_init: open the adapter, select the peripheral
     * and send the initialisation sequence, closing the adapter again when
     * the ioctl or a command fails.
     */
    method Connect(i2cAddr: int) returns (ok: bool)
      requires !bus.isOpen
      modifies bus
      ensures bus.opens == old(bus.opens) + 1
      ensures (bus.log, ok) ==
        if !bus.openFails(old(bus.opens)) && !bus.bindFails(old(bus.opens))
        then InitChain(bus.fails, old(bus.log), height, vccState, contrast)
        else (old(bus.log), false)
      ensures ok ==> bus.isOpen && bus.address == i2cAddr
      ensures !ok ==> !bus.isOpen
    {
      ok := bus.Open();
      if !ok {
        return;
      }
      ok := bus.Bind(i2cAddr);
      if !ok {
        bus.Close();
        return;
      }
      ok := InitSequence();
      if !ok {
        bus.Close();
      }
    }

    method SendWindow(width: int, pages: int) returns (ok: bool)
      requires bus.isOpen
      modifies bus
      ensures (bus.log, ok) == WindowChain(bus.fails, old(bus.log), width, pages)
      ensures bus.isOpen && bus.address == old(bus.address) && bus.opens == old(bus.opens)
    {
      ok := Command(COLUMNADDR);
      if !ok { return; }
      ok := Command(0);
      if !ok { return; }
      ok := Command(ToByte(width - 1));
      if !ok { return; }
      ok := Command(PAGEADDR);
      if !ok { return; }
      ok := Command(0);
      if !ok { return; }
      ok := Command(ToByte(pages - 1));
    }

    /** ssd1306_update_display: the window commands, then the buffer; the buffer itself is not touched. */
    method UpdateDisplay() returns (ok: bool)
      requires bus.isOpen && Sized()
      modifies bus
      ensures (bus.log, ok) == UpdateChain(bus.fails, old(bus.log), width, pages, buffer[..])
      ensures buffer[..] == old(buffer[..])
      ensures bus.isOpen && bus.address == old(bus.address) && bus.opens == old(bus.opens)
    {
      ok := SendWindow(width, pages);
      if !ok {
        return;
      }
      assert buffer[..bufferSize] == buffer[..];
      ok := Data(buffer[..bufferSize]);
    }

    /** ssd1306_set_pixel_internal: the buffer becomes SetPx of its old contents. */
    method SetPixel(x: int, y: int, color: int)
      requires Sized()
      modifies buffer
      ensures buffer[..] == SetPx(old(buffer[..]), width, height, x, y, color)
    {
      if x < 0 || x >= width || y < 0 || y >= height {
        return;
      }
      var page := y / 8;
      var index := x + page * width;
      IndexInBuffer(width, height, x, y);
      // The switch on the colour is ByteOp.
      buffer[index] := ByteOp(buffer[index], y, color);
    }

    /**
     * ssd1306_get_pixel_internal: WHITE for a lit pixel, BLACK for a dark
     * one and for every coordinate off the panel.
     */
    function GetPixel(x: int, y: int): (c: int)
      requires Sized()
      reads this, buffer
      ensures c == WHITE || c == BLACK
      ensures c == WHITE <==> Lit(buffer[..], width, height, x, y)
      ensures !InBounds(width, height, x, y) ==> c == BLACK
    {
      if x < 0 || x >= width || y < 0 || y >= height then BLACK
      else
        IndexInBuffer(width, height, x, y);
        var index := x + (y / 8) * width;
        if buffer[index] & ((1 as Byte) << (y % 8)) != 0 then WHITE else BLACK
    }

    /**
     * ssd1306_cleanup: an open adapter is sent display-off (whatever the
     * write's outcome) and closed; the buffer is freed.
     */
    method Cleanup()
      modifies this, bus
      ensures !bus.isOpen && !hasBuffer
      ensures bus.log == if old(bus.isOpen) then old(bus.log) + [CommandFrame(DISPLAYOFF)] else old(bus.log)
      ensures bus.address == old(bus.address) && bus.opens == old(bus.opens)
      ensures width == old(width) && height == old(height) && pages == old(pages) && buffer == old(buffer)
    {
      if bus.isOpen {
        var _ := Command(DISPLAYOFF);
        bus.Close();
      }
      if hasBuffer {
        hasBuffer := false;
      }
    }
  }
}
