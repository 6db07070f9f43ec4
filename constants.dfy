/**
 * The constants of the SSD1306 controller and of the driver's colour and
 * power-supply conventions (php_ssd1306.h).
 */
module Constants {

  /** One byte on the serial bus, and one byte of the packed framebuffer. */
  type Byte = bv8

  /** The two strap-selectable peripheral addresses of the controller. */
  const I2C_ADDRESS: int := 0x3C
  const I2C_ADDRESS_ALT: int := 0x3D

  /** Named panel sizes. */
  const LCDWIDTH_128: int := 128
  const LCDHEIGHT_64: int := 64
  const LCDHEIGHT_32: int := 32
  const LCDWIDTH_96: int := 96
  const LCDHEIGHT_16: int := 16

  /** Pixel colours: off, on, and toggle. Any other value is not a colour. */
  const BLACK: int := 0
  const WHITE: int := 1
  const INVERSE: int := 2

  /** Power-supply modes. */
  const EXTERNALVCC: int := 0x01
  const SWITCHCAPVCC: int := 0x02

  /** Controller command bytes. */
  const MEMORYMODE: Byte := 0x20
  const COLUMNADDR: Byte := 0x21
  const PAGEADDR: Byte := 0x22
  const SETCONTRAST: Byte := 0x81
  const CHARGEPUMP: Byte := 0x8D
  const SEGREMAP: Byte := 0xA0
  const DISPLAYALLON_RESUME: Byte := 0xA4
  const DISPLAYALLON: Byte := 0xA5
  const NORMALDISPLAY: Byte := 0xA6
  const INVERTDISPLAY: Byte := 0xA7
  const SETMULTIPLEX: Byte := 0xA8
  const DISPLAYOFF: Byte := 0xAE
  const DISPLAYON: Byte := 0xAF
  const COMSCANINC: Byte := 0xC0
  const COMSCANDEC: Byte := 0xC8
  const SETDISPLAYOFFSET: Byte := 0xD3
  const SETDISPLAYCLOCKDIV: Byte := 0xD5
  const SETPRECHARGE: Byte := 0xD9
  const SETCOMPINS: Byte := 0xDA
  const SETVCOMDETECT: Byte := 0xDB
  const SETLOWCOLUMN: Byte := 0x00
  const SETHIGHCOLUMN: Byte := 0x10
  const SETSTARTLINE: Byte := 0x40

  /** Scrolling commands. */
  const RIGHT_HORIZONTAL_SCROLL: Byte := 0x26
  const LEFT_HORIZONTAL_SCROLL: Byte := 0x27
  const VERTICAL_AND_RIGHT_HORIZONTAL_SCROLL: Byte := 0x29
  const VERTICAL_AND_LEFT_HORIZONTAL_SCROLL: Byte := 0x2A
  const DEACTIVATE_SCROLL: Byte := 0x2E
  const ACTIVATE_SCROLL: Byte := 0x2F
  const SET_VERTICAL_SCROLL_AREA: Byte := 0xA3

  /**
   * The conversion of a C `int` to `unsigned char`: the value modulo 256.
   * Every computed command argument (height - 1, width - 1, a scroll page,
   * the stored contrast) passes through it on its way to the bus.
   */
  function ToByte(n: int): (b: Byte)
    ensures 0 <= n < 256 ==> b == n as Byte
  {
    (n % 256) as Byte
  }

  /** C's `a / 8` on `int`, which truncates toward zero; Dafny's `/` rounds down. */
  function TruncDiv8(a: int): (q: int)
    ensures a >= 0 || a % 8 == 0 ==> q == a / 8
    ensures a < 0 && a % 8 != 0 ==> q == a / 8 + 1
  {
    if a >= 0 then a / 8 else -((-a) / 8)
  }
}
