# SSD1306 OLED driver: a verified model

This project models the core of a PHP extension that drives SSD1306 monochrome OLED panels over I2C. It covers three parts.

- **The framebuffer.**
  - The buffer is packed: `width * (height / 8)` bytes, one bit per pixel.
  - Pixel `(x, y)` lives in byte `x + (y / 8) * width`, at bit `y % 8`.
  - WHITE sets the bit, BLACK clears it and INVERSE toggles it.
  - The abstraction is a grid of booleans, `Framebuffer.Lit`.
- **The drawing code.**
  - Lines (Bresenham), rectangle outlines, filled rectangles, midpoint circles and filled discs.
  - The 5x7 font with scaling and an optional background colour.
  - The `print` cursor loop.
- **The device protocol.**
  - The initialisation command list, the flush, contrast, dim, invert and the four scroll sequences.
  - The `begin`/`end` lifecycle around the single global display.

Modules, in dependency order:

| module | file | models |
|---|---|---|
| `Constants` | `constants.dfy` | colours, VCC modes, command bytes; the C `int` to `unsigned char` conversion |
| `Transport` | `transport.dfy` | frames, and the `Bus` class (see below) |
| `Framebuffer` | `framebuffer.dfy` | pixel packing as pure functions on `seq<Byte>` |
| `Device` | `device.dfy` | class `Display` (the `ssd1306_t` record) and the functions of `ssd1306_display.c` |
| `Glyphs` | `glyphs.dfy` | the font table and the write sequence of one character |
| `Raster` | `raster.dfy` | write sequences of the drawing loops, with their geometry |
| `Text` | `text.dfy` | the cursor state machine of `print` |
| `Graphics` | `graphics.dfy` | the drawing loops as methods on a `Display` |
| `Extension` | `driver.dfy` | class `Driver`, whose nullable `display` field stands for the extension's global display handle |

**The bus.** `Transport.Bus` stands in for the I2C adapter:
- It keeps an append-only log of every frame handed to `write()`. A command frame is `[0x00, c]` and a data frame is `[0x40] + payload`.
- Oracles fixed at construction decide whether the n-th `open`, the `ioctl(I2C_SLAVE)` on the descriptor it returned, and the n-th `write` fail. The bus counts its `open` calls, so a `begin` after a failed one meets fresh answers.
- `Transport.Transmit` describes a chain of writes that stops at the first failure. Every command sequence of the driver is proved equal to `Transmit` over its command list, so its log is always a prefix of that list.

**The drawing operations.** Each one is a method that runs the source's loops and calls `SetPixel`. There is one departure: `Graphics.DrawRect` returns before its loops when `w <= 0` or `h <= 0`, where the source draws two lines (see Findings). Each is proved to leave the buffer equal to `Paint(old buffer, plots)`, where `plots` is the sequence of pixel writes the loop issues, defined by a recursive function. Lemmas then give the geometric meaning of `plots` through `AimsAt` (some write targets a pixel) and `Hits` (the colours written at a pixel, in order). `Framebuffer.PaintLit` relates these back to the pixel grid.

## Model

| member | source | states |
|---|---|---|
| `Constants.ToByte` | ssd1306_display.c:157 | every value 0..255 passes unchanged to the one-byte command argument; any other int is reduced modulo 256, as the conversion to `unsigned char` does |
| `Constants.TruncDiv8` | ssd1306_display.c:31 | C division by 8: it agrees with Euclidean division for non-negative or whole-page heights, and rounds toward zero otherwise |
| `Transport.Encode` | ssd1306_display.c:157-185 | a command frame is the control byte 0x00 and the command, 2 bytes long; a data frame is 0x40 followed by exactly the payload |
| `Transport.DecodeEncode` | ssd1306_display.c:157-185 | decoding an encoded frame returns the original message |
| `Transport.EncodeDecode` | ssd1306_display.c:157-185 | a frame that decodes is the encoding of its message |
| `Transport.CommandFrames` | ssd1306_display.c:157-168 | one frame per command, frame k decoding to command k |
| `Transport.Transmit` | ssd1306_display.c:80-153 | a chain that stops at the first failed write: the old log plus a prefix of the frames; success means all were sent; failure means the last logged write failed; no write before it failed |
| `Transport.TransmitAllSucceed` | ssd1306_display.c:80-153 | when no write in the chain fails, the whole list is logged and the chain succeeds |
| `Transport.TransmitStopsAtFirstFailure` | ssd1306_display.c:80-153 | when write k is the first to fail, exactly frames 0..k are logged and the chain fails |
| `Transport.TransmitAppend` | ssd1306.c:378-389 | a chain of a + b sends a, then sends b only if a got through |
| `Transport.Bus.Open` | ssd1306_display.c:53-57 | open succeeds exactly when the oracle allows this open attempt; the open count goes up by one; the log is untouched |
| `Transport.Bus.Bind` | ssd1306_display.c:60-64 | ioctl(I2C_SLAVE) succeeds exactly when the oracle allows it for the current descriptor, and only then records the address |
| `Transport.Bus.Write` | ssd1306_display.c:163 | the frame is appended to the log; it succeeds exactly when write number `|log|` is not a failure |
| `Transport.Bus.Close` | ssd1306_display.c:249 | the adapter is closed; log and address are unchanged |
| `Framebuffer.IndexInBuffer` | ssd1306_display.c:211-213 | with whole pages, every in-bounds pixel's byte index lies inside the `width * (height / 8)` buffer |
| `Framebuffer.IndexInjective` | ssd1306_display.c:211-213 | two pixels share a byte only in the same column and the same page |
| `Framebuffer.SetPx` | ssd1306_display.c:205-226 | the buffer keeps its size; an out-of-bounds pixel leaves the buffer unchanged |
| `Framebuffer.SetPxChangesOneBit` | ssd1306_display.c:211-225 | an in-bounds write changes only bit `y % 8` of byte `x + (y / 8) * width`; every other byte, and every other bit of that byte, is unchanged |
| `Framebuffer.SetPxLit` | ssd1306_display.c:205-226 | on the pixel grid, a write changes only pixel (x, y), and only when it is in bounds: WHITE turns it on, BLACK off, INVERSE toggles it, any other value leaves it |
| `Framebuffer.ByteOpBit` | ssd1306_display.c:215-225 | the colour switch on one byte affects only bit `y % 8`, as the colour dictates |
| `Framebuffer.GetAfterSet` | ssd1306_display.c:215-221 | after WHITE the pixel reads lit; after BLACK it reads dark |
| `Framebuffer.InverseTwice` | ssd1306_display.c:222-224 | INVERSE applied twice at the same pixel restores the whole buffer |
| `Framebuffer.NonColourIsNoOp` | ssd1306_display.c:215-225 | a colour outside {BLACK, WHITE, INVERSE} changes nothing |
| `Framebuffer.ZeroBufferIsDark` | ssd1306_display.c:49 | an all-zero buffer has no lit pixel |
| `Framebuffer.Paint` | ssd1306_display.c:205-226 | a sequence of pixel writes keeps the buffer's size |
| `Framebuffer.PaintSnoc` | ssd1306_display.c:205-226 | painting one more write is one more set_pixel on the painted buffer |
| `Framebuffer.PaintAppend` | ssd1306_display.c:205-226 | painting a + b is painting a, then b |
| `Framebuffer.PaintLit` | ssd1306_display.c:205-226 | after a sequence of writes, an in-bounds pixel is the result of applying the colours aimed at it, in order, to its old state |
| `Framebuffer.HitsAppend` | ssd1306_display.c:205-226 | the colours aimed at a pixel by a + b are those of a followed by those of b |
| `Framebuffer.PaintUntouched` | ssd1306_display.c:205-226 | a pixel no write aims at keeps its state |
| `Framebuffer.PaintSolid` | ssd1306_display.c:215-221 | with one solid colour (WHITE or BLACK), a pixel some write aims at ends in that colour, and every other pixel keeps its state |
| `Framebuffer.PaintSolidAims` | ssd1306_display.c:215-221 | the same, stated with `AimsAt` |
| `Framebuffer.HitsAimsAt` | ssd1306_display.c:205-226 | some colour is aimed at a pixel exactly when some write targets it |
| `Framebuffer.AimsAtAppend` | ssd1306_display.c:205-226 | a + b targets a pixel exactly when a or b does |
| `Framebuffer.PartialPageOverflows` | ssd1306_display.c:31-32 | as written, a 128 x 12 panel gets a 128-byte buffer, yet the in-bounds pixel (0, 10) maps to byte 128, one past its end |
| `Device.DefaultContrast` | ssd1306_display.c:35 | 0x9F for an external supply, 0xCF otherwise; always within 0..255 |
| `Device.ClockAndMultiplexChainIsTransmit` | ssd1306_display.c:80-95 | the early-return chain for display-off, clock, multiplex, offset and start line equals the short-circuit transmission of those 8 commands |
| `Device.PumpAndAddressingChainIsTransmit` | ssd1306_display.c:98-113 | the same for charge pump, memory mode, segment remap and COM scan (6 commands) |
| `Device.PanelDriveChainIsTransmit` | ssd1306_display.c:116-139 | the same for COM pins, contrast, pre-charge and VCOMH (8 commands) |
| `Device.SwitchOnChainIsTransmit` | ssd1306_display.c:142-151 | the same for resume, normal, deactivate scroll and display-on (4 commands) |
| `Device.InitCommandsShape` | ssd1306_display.c:80-151 | the initialisation list `InitCommands` has exactly 26 commands; it starts with 0xAE and ends with 0xAF; it holds `0xA8, height - 1`, charge pump 0x10 (external) or 0x14, COM pins 0x02 for height 32 or 16 and 0x12 otherwise, `0x81, contrast`, and pre-charge 0x22 (external) or 0xF1 |
| `Device.InitChainIsTransmit` | ssd1306_display.c:77-154 | `init_sequence` as a whole is the short-circuit transmission of the 26-command list |
| `Device.InitOutcomeIsPrefix` | ssd1306_display.c:24-74 | after init, the log is the old log plus a prefix of the 26 init frames; init succeeds exactly when the adapter opens and binds, the buffer is allocated, and none of the 26 writes fails; on success the whole list was sent |
| `Device.WindowChainIsTransmit` | ssd1306_display.c:191-198 | the column/page window chain is the short-circuit transmission of `Window`, the 6 commands `0x21, 0, width - 1, 0x22, 0, pages - 1` |
| `Device.UpdateFramesCarryBuffer` | ssd1306_display.c:188-202 | a flush (`UpdateFrames`) is 7 frames: the first six flush frames are the window commands; the seventh is a data frame carrying exactly the buffer |
| `Device.UpdateChainIsTransmit` | ssd1306_display.c:188-202 | update_display is the short-circuit transmission of those 7 frames |
| `Device.Display.constructor` | ssd1306.c:227-228 | the zeroed record: no buffer yet |
| `Device.Display.Command` | ssd1306_display.c:157-168 | exactly one frame `[0x00, c]` is logged; success exactly when that write does not fail |
| `Device.Display.Data` | ssd1306_display.c:171-185 | exactly one frame `[0x40] + payload` is logged; success exactly when that write does not fail |
| `Device.Display.SendClockAndMultiplex` | ssd1306_display.c:80-95 | the log and result are those of the first group of init commands |
| `Device.Display.SendPumpAndAddressing` | ssd1306_display.c:98-113 | the same for the second group |
| `Device.Display.SendPanelDrive` | ssd1306_display.c:116-139 | the same for the third group, with the parameter-dependent bytes |
| `Device.Display.SendSwitchOn` | ssd1306_display.c:142-151 | the same for the last group |
| `Device.Display.InitSequence` | ssd1306_display.c:77-154 | the log and result are those of the 26-command chain for the display's height, supply and contrast |
| `Device.Display.Configure` | ssd1306_display.c:29-35 | geometry, address, supply and default contrast fields are set; `pages = height / 8` (truncating) and `buffer_size = width * pages` |
| `Device.Display.ResetText` | ssd1306_display.c:37-42 | cursor (0, 0), text size 1, wrap on, WHITE on BLACK; nothing else changes |
| `Device.Display.Init` | ssd1306_display.c:24-74 | all fields as ssd1306_init sets them; log and result as `InitOutcome`, with the oracles' answers for this open attempt; one open attempt exactly when the height and the allocation pass; on success the buffer is fresh and all zero, and the adapter is bound to the address; on any failure the buffer is released and the adapter is closed |
| `Device.Display.Connect` | ssd1306_display.c:50-71 | one open attempt; when it opens and binds, the log and result are those of the 26-command chain, and on success the adapter stays open, bound to the address; otherwise nothing is logged and the result is false; on any failure the adapter ends closed |
| `Device.Display.SendWindow` | ssd1306_display.c:191-198 | the log and result of the window chain |
| `Device.Display.UpdateDisplay` | ssd1306_display.c:188-202 | the log and result of the flush chain over the current buffer; the buffer is not modified |
| `Device.Display.SetPixel` | ssd1306_display.c:205-226 | the buffer becomes `SetPx` of its old contents (see the `SetPx...` lemmas for what that means) |
| `Device.Display.GetPixel` | ssd1306_display.c:229-240 | returns WHITE exactly for a lit pixel and BLACK otherwise, including every out-of-bounds coordinate |
| `Device.Display.Cleanup` | ssd1306_display.c:243-255 | an open adapter receives DISPLAYOFF, whatever that write's outcome, and is closed; the buffer is released; nothing else is sent |
| `Glyphs.Font5x7` | ssd1306_graphics.c:21-117 | each of the 95 glyphs has five column bytes |
| `Glyphs.GlyphIndex` | ssd1306_graphics.c:458-463 | the codes 32..126 select their own glyph; every other code selects glyph 0, the space |
| `Glyphs.UnprintableIsSpace` | ssd1306_graphics.c:458-463 | a non-printable character draws exactly what a space draws |
| `Glyphs.SpaceIsTransparent` | ssd1306_graphics.c:22 | a space drawn with background equal to foreground writes nothing |
| `Glyphs.GlyphNonPositiveSize` | ssd1306_graphics.c:473-488 | with size 0 or below, a character writes nothing |
| `Glyphs.ScaledHits` | ssd1306_graphics.c:469-489 | one font bit at size >= 1 writes each pixel of its size x size block exactly once, and nothing outside the block |
| `Glyphs.BlockHits` | ssd1306_graphics.c:473-477 | the scaled block writes exactly the pixels of the m x size rectangle, each once |
| `Glyphs.CellHits` | ssd1306_graphics.c:467-490 | font pixel (i, j) hits its block with the foreground when its bit is set, with the background when it is clear and bg != color, and with nothing otherwise |
| `Glyphs.CellEffect` | ssd1306_graphics.c:468-490 | on a pixel of the block: a set bit paints `color`; a clear bit paints `bg` only when `bg != color`, and otherwise leaves the pixel untouched |
| `Glyphs.CellUnique` | ssd1306_graphics.c:475 | the blocks of different font pixels do not overlap |
| `Glyphs.GlyphHitsInside` | ssd1306_graphics.c:465-492 | a pixel in block (i, j) of a character receives exactly the colours of that one font pixel |
| `Glyphs.GlyphHitsOutside` | ssd1306_graphics.c:465-492 | a character writes no pixel outside its 5*size by 8*size box |
| `Glyphs.GlyphEffectInside` | ssd1306_graphics.c:456-493 | after drawing a character, each pixel of its box is as its font bit, colour and background dictate |
| `Glyphs.GlyphEffectOutside` | ssd1306_graphics.c:456-493 | drawing a character leaves every pixel outside its box unchanged |
| `Raster.Abs` | ssd1306_graphics.c:156-157 | non-negative, and equal to n or -n |
| `Raster.Direction` | ssd1306_graphics.c:158-159 | the step is 1 or -1 and points from `from` toward `to` |
| `Raster.MovesAreSafe` | ssd1306_graphics.c:167-175 | before the end point is reached, each pass moves along at least one axis, and never past x1 or y1 |
| `Raster.LineStepKeepsInv` | ssd1306_graphics.c:167-175 | one pass keeps the error-term invariant and strictly shortens the distance to the end point, so the loop terminates |
| `Raster.LineFrom` | ssd1306_graphics.c:162-176 | the loop from any reachable state plots at least one pixel |
| `Raster.LineStartInv` | ssd1306_graphics.c:156-160 | the loop's initial state satisfies the invariant |
| `Raster.LinePlots` | ssd1306_graphics.c:155-176 | a line plots at least one pixel |
| `Raster.LineEndpoints` | ssd1306_graphics.c:162-176 | a line plots (x0, y0) first and (x1, y1) last |
| `Raster.LineSinglePoint` | ssd1306_graphics.c:162-165 | with equal endpoints exactly one pixel is plotted |
| `Raster.LineHorizontal` | ssd1306_graphics.c:162-176 | with y0 == y1, the line plots exactly x0, x0 ± 1, ..., x1 on that row, in order |
| `Raster.OutlineIsBorder` | ssd1306_graphics.c:196-203 | with the empty-rectangle guard, some write targets a pixel exactly when it lies on the border of the w x h rectangle; nothing when w <= 0 or h <= 0 |
| `Raster.OutlineEffect` | ssd1306_graphics.c:196-203 | with WHITE or BLACK, the border pixels take the colour and every other pixel is unchanged |
| `Raster.OutlineAsWrittenDrawsFlatRect` | ssd1306_graphics.c:196-199 | as written, with w > 0 and h <= 0, the writes target exactly rows y and y + h - 1 for columns x .. x + w - 1, though the rectangle has no pixel |
| `Raster.OutlineAsWrittenDrawsThinRect` | ssd1306_graphics.c:200-203 | as written, with h > 0 and w <= 0, the writes target exactly columns x and x + w - 1 for rows y .. y + h - 1, though the rectangle has no pixel |
| `Raster.FillIsRect` | ssd1306_graphics.c:223-227 | a write targets a pixel exactly when `x <= px < x + w` and `y <= py < y + h`; no writes at all when w <= 0 or h <= 0 |
| `Raster.FillEffect` | ssd1306_graphics.c:223-227 | with WHITE or BLACK, exactly the rectangle's in-bounds pixels take the colour; all others are unchanged |
| `Raster.Octet` | ssd1306_graphics.c:253-260 | 8 writes, all with the given colour |
| `Raster.OctetSymmetric` | ssd1306_graphics.c:253-260 | the eight writes of one pass are closed under the reflections across the horizontal, vertical and diagonal lines through the centre |
| `Raster.CircleStepKeepsInv` | ssd1306_graphics.c:262-268 | the decision variable stays `2(x + 1)² + y² + (y - 1)² - 2r²`, and while y >= x the point keeps `|x² + y² - r²| <= y` |
| `Raster.CircleIsNearRadius` | ssd1306_graphics.c:246-269 | every plotted offset (dx, dy) satisfies `|dx² + dy² - r²| <= max(|dx|, |dy|)`; every write has the given colour; only a radius >= 0 plots anything |
| `Raster.CircleRadiusZero` | ssd1306_graphics.c:247-269 | radius 0 plots the centre eight times |
| `Raster.CircleSymmetric` | ssd1306_graphics.c:246-269 | the plotted set is symmetric under reflection across the horizontal, vertical and diagonal lines through (x0, y0) |
| `Raster.DiscIsDisc` | ssd1306_graphics.c:288-295 | a write targets (x0 + dx, y0 + dy) exactly when `|dx|, |dy| <= r` and `dx² + dy² <= r²`; all writes have the given colour |
| `Raster.DiscEffect` | ssd1306_graphics.c:288-295 | with WHITE or BLACK, exactly the disc's in-bounds pixels take the colour; all others are unchanged |
| `Text.PrintRun` | ssd1306_graphics.c:317-347 | for size >= 0, a cursor starting at x >= 0 keeps x >= 0, and y never decreases; the loop stops early only when the cursor is at or below the bottom edge |
| `Text.Drawn` | ssd1306_graphics.c:343-344 | drawing characters one after another keeps the buffer's size |
| `Text.DrawnIsPaint` | ssd1306_graphics.c:317-347 | drawing the placed characters one at a time paints their glyph writes in order |
| `Text.PrintRunAppend` | ssd1306_graphics.c:317-347 | printing s + t is printing s, then t from where s left the cursor, unless s already stopped |
| `Text.PrintBelowBottom` | ssd1306_graphics.c:338-340 | once the cursor is at or below the bottom edge, nothing more is drawn |
| `Text.PrintAdvances` | ssd1306_graphics.c:343-346 | text without line breaks and without wrapping is drawn entirely, and moves the cursor 6 * size per character |
| `Text.PrintPlacesInWidth` | ssd1306_graphics.c:332-335 | with wrapping on, every character cell starts at column >= 0 and ends by `width`, and the cursor stays within the width |
| `Text.PrintStaysInWidth` | ssd1306_graphics.c:332-344 | with wrapping on, printed text writes only columns 0..width - 1 |
| `Text.PrintExample` | ssd1306_graphics.c:317-347 | "AB\nC" from (0, 0) at size 1 on a 128-wide panel ends at (6, 8) |
| `Text.PrintsAsNewline` | ssd1306_graphics.c:320-324 | `'\n'` sets x = 0 and adds 8 * size to y |
| `Text.PrintsAsReturn` | ssd1306_graphics.c:326-329 | `'\r'` sets x = 0 only |
| `Text.PrintsAsStop` | ssd1306_graphics.c:332-340 | a character whose (possibly wrapped) cursor is at or below the bottom edge ends the loop there |
| `Text.PrintsAsDraw` | ssd1306_graphics.c:332-346 | otherwise the character is drawn at the wrapped cursor, which then advances 6 * size |
| `Graphics.PlotStep` | ssd1306_graphics.c:163 | one set_pixel extends the painted write sequence by one write |
| `Graphics.LineAdvance` | ssd1306_graphics.c:167-175 | both moves are decided on the same `e2 = 2 * err`, as the abstract step `LineStep` |
| `Graphics.DrawLine` | ssd1306_graphics.c:155-176 | the buffer becomes `Paint` of the line's writes |
| `Graphics.DrawRect` | ssd1306_graphics.c:195-203 | the buffer becomes `Paint` of the outline's writes; nothing is drawn when w <= 0 or h <= 0 |
| `Graphics.DrawTopBottom` | ssd1306_graphics.c:196-199 | the first loop paints the top and bottom pixel of each column |
| `Graphics.DrawLeftRight` | ssd1306_graphics.c:200-203 | the second loop paints the left and right pixel of each row |
| `Graphics.FillRect` | ssd1306_graphics.c:222-227 | the buffer becomes `Paint` of the rectangle's writes |
| `Graphics.FillSpan` | ssd1306_graphics.c:224-226 | the inner loop paints one row, left to right |
| `Graphics.DrawOctet` | ssd1306_graphics.c:253-260 | the eight set_pixel calls paint `Octet`, in the source's order |
| `Graphics.CircleAdvance` | ssd1306_graphics.c:262-268 | the decision update and the step to (x + 1, y) or (x + 1, y - 1) |
| `Graphics.DrawCircle` | ssd1306_graphics.c:246-269 | the buffer becomes `Paint` of the circle's writes |
| `Graphics.FillCircle` | ssd1306_graphics.c:288-295 | the buffer becomes `Paint` of the disc's writes |
| `Graphics.DrawScaled` | ssd1306_graphics.c:469-488 | one font pixel: a single write at size 1, the scaled block otherwise |
| `Graphics.DrawBlock` | ssd1306_graphics.c:473-477 | the doubly nested scaling loop paints the block column by column |
| `Graphics.ScaledColumn` | ssd1306_graphics.c:474-476 | the innermost scaling loop paints one column of the block |
| `Graphics.DrawGlyph` | ssd1306_graphics.c:465-492 | the two glyph loops paint the glyph's writes |
| `Graphics.DrawGlyphColumn` | ssd1306_graphics.c:466-491 | the inner glyph loop paints the eight font pixels of one column |
| `Graphics.DrawCell` | ssd1306_graphics.c:468-490 | a set bit paints the foreground; a clear bit paints the background only when it differs |
| `Graphics.DrawChar` | ssd1306_graphics.c:456-493 | the buffer becomes `Paint` of the character's glyph writes, a space for any non-printable code |
| `Graphics.PrintChar` | ssd1306_graphics.c:343-346 | draws the character at the cursor with the text attributes, then moves the cursor 6 * size to the right |
| `Graphics.PrintPass` | ssd1306_graphics.c:318-346 | one pass keeps the loop invariant: what has been drawn, followed by what printing the rest draws, is the whole run; a stop ends the run at the cursor |
| `Graphics.Print` | ssd1306_graphics.c:315-347 | the cursor ends where `PrintRun` says, and the buffer is `Paint` of the glyphs of the characters `PrintRun` places, in order |
| `Graphics.SetCursor` | ssd1306_graphics.c:366-367 | the cursor is set to exactly (x, y) |
| `Graphics.ClampTextSize` | ssd1306_graphics.c:386 | sizes below 1 become 1; all others are kept |
| `Graphics.SetTextSize` | ssd1306_graphics.c:386-387 | stores the clamped size |
| `Graphics.SetTextColor` | ssd1306_graphics.c:406 | sets the foreground only |
| `Extension.DimCommandsBytes` | ssd1306.c:322-324 | the contrast sequence `ContrastCommands` for dim(true) is 0x81, 0x00; dim(false) sends 0x81 and the stored contrast |
| `Extension.HorizontalScrollBytes` | ssd1306.c:378-385 | the 8-command horizontal sequence `HorizontalScroll` is the direction (0x26 right, 0x27 left), then `0x00, start, 0x00, stop, 0x00, 0xFF, 0x2F` |
| `Extension.DiagonalScrollBytes` | ssd1306.c:438-447 | the 10-command diagonal sequence `DiagonalScroll` is `0xA3, 0x00, height`, the direction (0x29 right, 0x2A left), then `0x00, start, 0x00, stop, 0x01, 0x2F` |
| `Extension.TransmitCommandsAppend` | ssd1306.c:378-385 | sending command lists a + b is sending a, then b only if a got through |
| `Extension.TransmitOne` | ssd1306.c:298-301 | one command logs one frame and fails exactly when that write fails |
| `Extension.SendOne` | ssd1306.c:496 | the log and result of a one-command chain |
| `Extension.SendTwo` | ssd1306.c:323-324 | the log and result of a two-command short-circuit chain |
| `Extension.SendThree` | ssd1306.c:378-385 | the log and result of a three-command short-circuit chain |
| `Extension.SendFour` | ssd1306.c:438-441 | the log and result of a four-command short-circuit chain |
| `Extension.SendHorizontalScroll` | ssd1306.c:378-389 | the log and result of the 8-command horizontal chain, stopping at the first failure |
| `Extension.SendDiagonalScroll` | ssd1306.c:438-449 | the log and result of the 10-command diagonal chain, stopping at the first failure |
| `Extension.Driver.constructor` | ssd1306.c:36-39 | the module starts with no display and a closed adapter |
| `Extension.Driver.Begin` | ssd1306.c:221-235 | an active display is cleaned up first (DISPLAYOFF logged, buffer released); the log then grows as `InitOutcome` says for this open attempt, and the open count as `Init` says; the result is true exactly when a display is active afterwards; a new display has the given geometry, is bound to the address and has no lit pixel |
| `Extension.Driver.End` | ssd1306.c:245-249 | afterwards no display is active; DISPLAYOFF is logged exactly when one was; with none, nothing happens |
| `Extension.Driver.Show` | ssd1306.c:257-264 | no display: false and no I/O; otherwise the log and result of the 7-frame flush of the current buffer |
| `Extension.Driver.ClearDisplay` | ssd1306.c:274-279 | every buffer byte becomes 0, so no pixel is lit; nothing is sent |
| `Extension.Driver.InvertDisplay` | ssd1306.c:293-301 | no display: false and no I/O; otherwise exactly one frame (`InvertCommands`), 0xA7 when inverting and 0xA6 when not; true exactly when that write succeeds |
| `Extension.Driver.Dim` | ssd1306.c:317-327 | no display: false and no I/O; otherwise 0x81 followed by 0 when dimming or the stored contrast when not, stopping at the first failure; the stored contrast is unchanged |
| `Extension.Driver.SetContrast` | ssd1306.c:342-357 | no display: false and no I/O; a value outside 0..255: false, nothing stored or sent; otherwise the value is stored, then 0x81 and the value are sent, stopping at the first failure; the geometry and buffer are unchanged |
| `Extension.Driver.StartScrollRight` | ssd1306.c:373-389 | no display: false and no I/O; otherwise the 0x26 horizontal chain |
| `Extension.Driver.StartScrollLeft` | ssd1306.c:403-419 | no display: false and no I/O; otherwise the 0x27 horizontal chain |
| `Extension.Driver.StartScrollDiagRight` | ssd1306.c:433-449 | no display: false and no I/O; otherwise the 0x29 diagonal chain over the display's height |
| `Extension.Driver.StartScrollDiagLeft` | ssd1306.c:465-481 | no display: false and no I/O; otherwise the 0x2A diagonal chain over the display's height |
| `Extension.Driver.StopScroll` | ssd1306.c:491-496 | no display: false and no I/O; otherwise exactly one frame, 0x2E; true exactly when that write succeeds |

## Left out

- The PHP binding is not modelled: argument parsing, arginfo, the function table, module entry, constant registration, module info, and `emalloc`/`efree` of the display record. It is glue with no logic.
- The "display not initialized" and "Contrast must be between 0 and 255" warnings: only the return value and the absence of I/O are modelled.
- The graphics functions with no display active return before drawing. The model's drawing methods take a `Display` directly, so this case is not represented.
- System calls become oracles:
  - the n-th `open`, the `ioctl(I2C_SLAVE)` after it and the n-th `write` are fixed choices of the `Bus`;
  - `close` only clears the open flag;
  - the `/dev/i2c-%d` path, and hence the bus number argument of `begin`, is not modelled.
- A short write (fewer bytes than the frame) and a failed write are one outcome: "the write failed".
- `Device.Display.Data` does not model the failure of its own `malloc(len + 1)`; that case is part of the write oracle.
- `Device.Display.Init`: the buffer allocation's outcome is the `allocOk` parameter.
- `Device.Display.Init`: a negative `buffer_size` is treated as a failed allocation.
- `Device.Display.Init`: the model refuses a height that is not a multiple of 8 before allocating. The source accepts it; see Findings.
- `Device.Display.Init` is only called on a fresh record with the adapter closed, as `ssd1306_begin` does.
- C integer widths are not modelled. All fields and arguments are unbounded integers, so overflow of `int` or `zend_long` arithmetic is not captured.
- The one-byte command arguments (`height - 1`, `width - 1`, `pages - 1`, start, stop, height, contrast) are reduced modulo 256, as the C conversion to `unsigned char` does (`Constants.ToByte`).
- Text is a byte sequence. Whether `char` is signed does not matter: codes outside 32..126 become a space either way.
- `Graphics.DrawChar` keeps the source's fallback check `index >= 95`, which cannot fire.
- The `rotation` field is never read, so it is not modelled.
- `ssd1306_draw_char` as a PHP function is declared but never defined.
- The getters and the `draw_pixel`/`get_pixel` wrappers are thin calls into `SetPixel`/`GetPixel` and are not modelled separately.
- Thread-safe globals are replaced by the one `display` field of `Extension.Driver`.
- `Extension.Driver.Begin` does not model `emalloc` failure, which aborts the PHP request rather than returning.
- `Graphics.DrawRect` draws nothing when `w <= 0` or `h <= 0`. The source still runs one of its two loops and draws two lines; see Findings row 2.
- `Raster.CircleIsNearRadius` bounds the plotted points by the midpoint criterion. It does not prove that the circle is gap-free.

## Findings

| source | as written | input that shows it | evidently intended | confidence | as-written member | corrected member |
|---|---|---|---|---|---|---|
| ssd1306_display.c:31-32, 211-217 | `pages = height / 8` truncates, and `buffer_size = width * pages`, while `set_pixel` bounds-checks against `height` | width 128, height 12: 128-byte buffer; pixel (0, 10) is in bounds and maps to byte 128 | a height that is not a whole number of pages is refused (or the page count rounded up), so every in-bounds pixel has a byte | not executed | `Framebuffer.PartialPageOverflows` | `Device.Display.Init` |
| ssd1306_graphics.c:196-203 | the two outline loops run whenever w > 0 or h > 0, drawing at `y + h - 1` and `x + w - 1` | `draw_rect(0, 0, 3, 0)` writes (0, 0), (1, 0) and (2, 0) on row 0, plus row -1, which is off the panel | a rectangle with no width or no height draws nothing, as `fill_rect` does | not executed | `Raster.OutlineAsWrittenDrawsFlatRect` | `Graphics.DrawRect` |
