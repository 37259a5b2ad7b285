# ST7735S display driver of SmartLight, in Dafny

This project models the display side of the SmartLight firmware: the ST7735S
driver in `GUI.c` and `lcd.c`, and the LED state machine in `smartlight.c`
that redraws the status text. The model observes the panel through its bus.
Every SPI transaction is one event in an append-only transcript:

- `Cmd(b)`: a command byte, sent with the command/data line low.
- `Data8(b)`: a data byte, sent with the line high.
- `Data16(w)`: a 16-bit data word, sent with the line high, high byte first, under one chip-select.

The class `Display.Lcd` holds the transcript and the display state the C code
keeps in globals:

- the `lcddev` fields `width`, `height`, `wramcmd`, `setxcmd` and `setycmd`;
- `POINT_COLOR` and `BACK_COLOR`;
- the glyph tables. These are not part of this model; they are a function
  from (table, glyph, row) to a byte.

Each drawing routine is a method. Its contract says that the transcript after
the call is the old transcript followed by the events of a transcript function
of the inputs. Lemmas then say what those transcripts contain: window
programming order, pixel counts, line end points, circle coverage, one span
per scanline, glyph bits and decimal digits.

Files, following the structure of the sources:

- `bus.dfy` (`Bus`): fixed-width C integer conversions, events and their wire framing.
- `display.dfy` (`Display`): `lcddev`, the bus writers, the addressing window, clear, DMA-clear buffer fill, orientation change, initialisation.
- `geometry.dfy` (`Geometry`): the integer geometry of line, circle and triangle, independent of the bus.
- `gui.dfy` (`Gui`): point, area, fill box, line, circle and triangle.
- `text.dfy` (`Text`): glyph, string, number and centred string.
- `decimal.dfy` (`Decimal`): `mypow` and the digit extraction of `LCD_ShowNum`.
- `image.dfy` (`Image`): the 40x40 BMP blit and the full-image blit.
- `smartlight.dfy` (`SmartLight`): LED toggling, button dispatch and the status redraw.

C's integer behaviour is written out where it matters:

- storing into `uint8_t` or `uint16_t` is reduction modulo 2^8 or 2^16 (`Low8`, `Wrap16`);
- `mypow` multiplies in `uint32_t` (`Wrap32`);
- C's `/` on possibly negative `int`/`long` values truncates toward zero (`CDiv`).

## Behaviour of the code worth knowing

The model keeps each of these behaviours:

- `LCD_DrawLine` runs its loop `distance+2` times (GUI.c:330). A zero-length line therefore plots its one point twice.
- `LCD_SetWindows` programs a window in 11 transactions (GUI.c:181-198): the column command and four bytes, the row command and four bytes, then the RAM-write command.
- `LCD_DrawPoint` (GUI.c:208-214), `LCD_DrawLine` (GUI.c:297-350), `LCD_Circle` (GUI.c:362-401) and `LCD_ShowImg` (GUI.c:692-711) leave the last window they programmed in place. The area, glyph, string and BMP routines end by programming the full-screen window.
- `LCD_Direction` takes its sizes from `LCD_W` = 130 and `LCD_H` = 161 (lcd.h:48-49, lcd.c:447-463). `LCD_Init` sets 128x160. Direction 1 after initialisation therefore gives 161x130 (`Display.RotateAfterInit`).
- `LCD_ShowChar` reads the 12-row table when `size` is 12 and the 16-row table for every other size (GUI.c:526, GUI.c:541).
- `LCD_Clear_DMA` returns without sending anything when its buffer cannot be allocated (lcd.c:397-401). It programs no window before its transfer.
- A failed SPI transfer is logged, and the caller carries on (GUI.c:107-110, lcd.c:202-205). The model treats every byte as sent.
- `LCD_ShowImg` reads pixel (r, c) from array entry `r*width + c + 1` (GUI.c:703-705, `Image.ImgPixelAt`).
- `LCD_ShowImg` reads entries 1 to `width*height` of `image_data_160x128x16` (GUI.c:705). The startup call `LCD_ShowImg(161, 130)` (smartlight.c:100) reads entries 1 to 20930 (`Image.ImgStartupCall`). The array is not part of this model; if it holds the 160*128 = 20480 entries its name suggests, that call reads 451 entries past its end.
- `LCD_ShowNum` divides by `mypow(10, len-t-1)`, computed in `uint32_t` (GUI.c:624, GUI.c:638-645). From eleven positions on, that power wraps modulo 2^32, and the leading digit can then differ from the decimal one (`Decimal.ShowNumWrapsPower`).

## Model

| member | source | states |
|---|---|---|
| Bus.Frame | ESPApp/components/lcd/GUI.c:38-76 | a command goes out with the command/data line low, data with it high; a 16-bit word is two bytes, high byte first, whose value is the word; a byte event carries its byte |
| Bus.UnframeFrame | ESPApp/components/lcd/GUI.c:54-61 | the panel recovers every event from its wire image |
| Bus.CDiv | ESPApp/components/lcd/GUI.c:466-467 | C division of `long` by `int`: on non-negative operands it is the ordinary quotient |
| Bus.Wrap16Add | ESPApp/components/lcd/GUI.c:599 | storing an intermediate sum in a `uint16_t` does not change the final stored sum |
| Bus.PixelsAppend | ESPApp/components/lcd/GUI.c:53-61 | the pixel words of two transcripts in a row are those of the first, then those of the second |
| Bus.PixelsWords | ESPApp/components/lcd/GUI.c:53-61 | a run of `LCD_WR_DATA` calls streams exactly its words |
| Bus.PixelsRepeat | ESPApp/components/lcd/lcd.c:379-383 | n writes of one colour stream that colour n times |
| Display.Lcd.constructor | ESPApp/components/lcd/lcd.c:13-15 | before initialisation `lcddev` is zero, `POINT_COLOR` is black, `BACK_COLOR` is white, nothing has been sent |
| Display.Lcd.WrReg | ESPApp/components/lcd/GUI.c:38-45 | `LCD_WR_REG` appends exactly one command event |
| Display.Lcd.WrData | ESPApp/components/lcd/GUI.c:53-61 | `LCD_WR_DATA` appends exactly one 16-bit data event |
| Display.Lcd.WrData8 | ESPApp/components/lcd/GUI.c:69-76 | `LCD_WR_DATA8` appends exactly one data byte |
| Display.Lcd.WriteReg | ESPApp/components/lcd/lcd.c:93-98 | `LCD_WriteReg` appends the register command and its value truncated to a byte |
| Display.Lcd.WriteRamPrepare | ESPApp/components/lcd/GUI.c:84-88 | appends the RAM-write opcode of `lcddev`, truncated to a byte |
| Display.Lcd.SetWindows | ESPApp/components/lcd/GUI.c:180-198 | appends exactly `[Cmd(setxcmd), Data8(0), Data8(xs), Data8(0), Data8(xe), Cmd(setycmd), Data8(0), Data8(ys), Data8(0), Data8(ye), Cmd(wramcmd)]`, every value truncated to its low byte, and changes nothing else |
| Display.Lcd.SetCursor | ESPApp/components/lcd/GUI.c:124-128 | appends the window of the single pixel (x, y) |
| Display.WindowRoundTrip | ESPApp/components/lcd/GUI.c:181-198 | the window sequence is 11 transactions, streams no pixel, and the controller reads back the low bytes of the four coordinates (high bytes 0) |
| Display.Lcd.Stream | ESPApp/components/lcd/lcd.c:379-383 | the nested loops write exactly cols*rows words of the colour |
| Display.Lcd.Clear | ESPApp/components/lcd/lcd.c:371-386 | `LCD_Clear` appends the full-screen window (0, 0, width-1, height-1), then exactly width*height words of the colour |
| Display.Lcd.ClearDma | ESPApp/components/lcd/lcd.c:395-406 | from allocation on: a failed allocation returns no buffer, sends nothing and changes nothing; otherwise all width*height buffer entries equal the colour |
| Display.Lcd.Direction | ESPApp/components/lcd/lcd.c:439-470 | resets the opcodes to 0x2A/0x2B/0x2C; directions 0 and 2 set 130x161, 1 and 3 set 161x130, any other leaves the size; appends exactly the register write of the direction |
| Display.DirectionRegister | ESPApp/components/lcd/lcd.c:445-465 | directions 0..3 write `Cmd(0x36)` then 0xC0, 0xA0, 0x00, 0x60; others write nothing; bit 5 (row/column exchange) is set exactly when width and height are exchanged; no pixel data |
| Display.DirectionIdempotent | ESPApp/components/lcd/lcd.c:439-470 | repeating an orientation change leaves the size it set |
| Display.RotateAfterInit | ESPApp/components/lcd/include/lcd.h:48-49 | example: after the 128x160 set-up, direction 1 gives 161x130 and direction 0 does not give back 128x160 |
| Display.Lcd.Init | ESPApp/components/lcd/lcd.c:275-362 | leaves `lcddev` at 128x160 with opcodes 0x2C/0x2A/0x2B, and of its traffic keeps only the closing `LCD_Clear(WHITE)` |
| Gui.DrawPoint | ESPApp/components/lcd/GUI.c:208-214 | a one-pixel window at (x, y), then the colour; the full-screen window is not restored |
| Gui.PointPixels | ESPApp/components/lcd/GUI.c:208-214 | a point streams exactly one pixel, its colour |
| Gui.PlotAllPixels | ESPApp/components/lcd/GUI.c:208-214 | plotting a sequence of points streams one pixel of the colour per point |
| Gui.PlotAllAt | ESPApp/components/lcd/GUI.c:208-214 | plotting k points is 12k events, and events 12i..12i+11 are the point transcript of point i |
| Gui.AxisDelta | ESPApp/components/lcd/GUI.c:306-323 | the delta of an axis is made non-negative and the increment is its sign |
| Gui.Advance | ESPApp/components/lcd/GUI.c:335-348 | one Bresenham step of an axis: add the delta; when the error exceeds the distance, subtract it and step |
| Gui.DrawLine | ESPApp/components/lcd/GUI.c:297-350 | the loop plots, in order, the points of the Bresenham iteration 0..distance+1 |
| Gui.LinePixels | ESPApp/components/lcd/GUI.c:326-332 | a line streams exactly max(\|dx\|,\|dy\|)+2 pixels of its colour, in 12 events each |
| Gui.LineTranscriptEnds | ESPApp/components/lcd/GUI.c:306-349 | the first point drawn is (x0, y0) and the last is (x1, y1) |
| Geometry.LineEnds | ESPApp/components/lcd/GUI.c:306-349 | distance+2 points; the first two are (x0, y0) and the last is (x1, y1) |
| Geometry.LineIsConnected | ESPApp/components/lcd/GUI.c:335-348 | consecutive points differ by at most one on each axis |
| Geometry.LineMajorAxis | ESPApp/components/lcd/GUI.c:326-348 | along the major axis, points 1..distance+1 take each coordinate from start to end once, in order |
| Geometry.AxisInvariant | ESPApp/components/lcd/GUI.c:335-348 | after n steps an axis has moved k times with n*delta = k*distance + error, and the error stays within 1..distance |
| Geometry.AxisStill | ESPApp/components/lcd/GUI.c:335-348 | an axis with delta 0 never moves and its error stays 0 |
| Geometry.AxisMovesByOne | ESPApp/components/lcd/GUI.c:340-348 | each step moves an axis by 0 or by its increment |
| Geometry.AxisReachesEnd | ESPApp/components/lcd/GUI.c:330-348 | after distance+1 steps an axis has moved by exactly its delta |
| Geometry.AxisMajor | ESPApp/components/lcd/GUI.c:326-348 | the major axis moves on every step: after n >= 1 steps it is at p0 + inc*(n-1) |
| Geometry.LineOfOnePoint | ESPApp/components/lcd/GUI.c:330 | a zero-length line plots its point twice |
| Gui.DrawBorder | ESPApp/components/lcd/GUI.c:247-255 | the outline draws top, bottom, left and right as lines, in that order |
| Gui.DrawArea | ESPApp/components/lcd/GUI.c:227-259 | the area window, then the fill or the outline, then the full-screen window |
| Gui.AreaFilled | ESPApp/components/lcd/GUI.c:233-258 | filled: the window [x0,y0,x1,y1], then (x1-x0+1)*(y1-y0+1) words of the colour for an ordered area, then the full-screen window; an area the full 16-bit range wide has width 0 and streams nothing |
| Gui.AreaFilledShape | ESPApp/components/lcd/GUI.c:232-258 | filled: the area window, `uint16_t` width times `uint16_t` height words of the colour, then the full-screen window, whose window reads back as the low bytes of the corners |
| Gui.FramedRun | ESPApp/components/lcd/GUI.c:237-258 | a run of n words between the area window and the full-screen window streams exactly n pixels of the colour, and its window reads back as the four corners' low bytes |
| Gui.AreaOutline | ESPApp/components/lcd/GUI.c:247-255 | outlined: 2(\|dx\|+2) + 2(\|dy\|+2) pixels, all of the colour, corners repeated |
| Gui.DrawFillBox | ESPApp/components/lcd/GUI.c:272-285 | (x, y, w, h) becomes the area [x, y, x+w-1, y+h-1] in `uint16_t` |
| Gui.FillBoxPixels | ESPApp/components/lcd/GUI.c:278-284 | a box that fits the 16-bit plane programs its window and streams exactly w*h words of its colour |
| Gui.RectangleScenario | ESPApp/components/lcd/GUI.c:227-259 | on 128x160, the filled area (10,10)-(19,14) in red: the window bytes, 50 red words, then the window (0,0)-(127,159) |
| Gui.DrawCircle8 | ESPApp/components/lcd/GUI.c:140-154 | `_draw_circle_8` plots the eight symmetric points in the source's order |
| Gui.DrawQuad | ESPApp/components/lcd/GUI.c:146-149 | four of those calls: (xc±a, yc±b) in the source's order |
| Gui.OctantPlot | ESPApp/components/lcd/GUI.c:141-154 | plotting the eight octant points is the eight point transcripts in order |
| Gui.DrawColumn | ESPApp/components/lcd/GUI.c:375-377 | the inner fill loop plots the octants of (x, yi) for yi from x to y |
| Gui.CircleUpdate | ESPApp/components/lcd/GUI.c:379-385 | the decision update is the same step in both branches |
| Gui.Circle | ESPApp/components/lcd/GUI.c:362-401 | outline and fill plot the octant points of the midpoint iteration (the fill plots a column per step); the window is not restored |
| Gui.CirclePoints | ESPApp/components/lcd/GUI.c:367-400 | every outline point is plotted by the filled circle; radius 0 plots only the centre (eight times) in both modes |
| Geometry.CircleFillCoversOutline | ESPApp/components/lcd/GUI.c:372-399 | the filled circle plots every point of the outline of the same centre and radius |
| Geometry.FilledCoversOutline | ESPApp/components/lcd/GUI.c:372-399 | for any steps with x <= y, every outline point is among the filled columns' points |
| Geometry.CircleStepsInvariant | ESPApp/components/lcd/GUI.c:369-398 | in every step x <= y, and d is the sum of the circle errors at (x+1, y) and (x+1, y-1) |
| Geometry.DecisionStep | ESPApp/components/lcd/GUI.c:379-384 | both updates of d keep it equal to that sum |
| Geometry.CircleOfRadiusZero | ESPApp/components/lcd/GUI.c:367-400 | radius 0: one step whose eight points are all the centre |
| Geometry.CircleOfNegativeRadius | ESPApp/components/lcd/GUI.c:367-374 | a negative radius plots nothing |
| Gui.Swap | ESPApp/components/lcd/GUI.c:163-169 | `_swap` exchanges the two values |
| Geometry.SortByY | ESPApp/components/lcd/GUI.c:430-441 | the three compare-swaps order the vertices by y and yield a reordering of the input |
| Gui.DrawTriangle | ESPApp/components/lcd/GUI.c:416-496 | filled: the scanline spans of the sorted vertices; outlined: the three edge lines (0-1, 1-2, 2-0) |
| Gui.SortVertices | ESPApp/components/lcd/GUI.c:429-441 | the three compare-and-swap steps leave the vertices ordered by row, as `SortByY` orders them (a permutation of the three) |
| Gui.LastRow | ESPApp/components/lcd/GUI.c:461-462 | the last upper scanline is y1 when y1 == y2 and y1 - 1 otherwise, below row 65535 |
| Gui.FillRows | ESPApp/components/lcd/GUI.c:443-489 | for sorted vertices: the single flat span if all y are equal, else the upper then the lower scanline loop |
| Gui.ScanRow | ESPApp/components/lcd/GUI.c:466-473 | a scanline's ends are the two edges' crossings (truncating division of the accumulated sums), put in order; the sums advance by the edge widths |
| Gui.DrawSpan | ESPApp/components/lcd/GUI.c:473 | one span is `LCD_DrawArea(a, y, b, y, color, 1)` |
| Gui.UpperRow | ESPApp/components/lcd/GUI.c:464-474 | one pass of the upper loop draws the span of its row and keeps the loop's invariant |
| Gui.LowerRow | ESPApp/components/lcd/GUI.c:479-489 | one pass of the lower loop draws the span of its row and keeps the loop's invariant |
| Gui.UpperRows | ESPApp/components/lcd/GUI.c:460-474 | the upper loop draws rows y0..last and ends at last+1 |
| Gui.Restart | ESPApp/components/lcd/GUI.c:476-477 | the restarted sums equal what accumulation from y1 and y0 would have given |
| Gui.LowerRows | ESPApp/components/lcd/GUI.c:476-489 | the lower loop draws rows last+1..y2 between edges 1-2 and 0-2 |
| Geometry.TriangleScanlines | ESPApp/components/lcd/GUI.c:443-489 | exactly one span per row from min y to max y, in increasing y, each with a <= b; on a single row, one span from min x to max x |
| Geometry.TriangleCoversVertices | ESPApp/components/lcd/GUI.c:430-489 | every vertex lies on the span of its own row |
| Geometry.EdgeEnds | ESPApp/components/lcd/GUI.c:466-467 | an edge's crossing is its start x on its first row and its end x on its last |
| Geometry.AccumulatedIsProduct | ESPApp/components/lcd/GUI.c:468-477 | k accumulations of `sa += d` equal `d * k`, as the restart computes it |
| Geometry.HalvesLength | ESPApp/components/lcd/GUI.c:461-479 | the upper half covers y0..last and the lower half last+1..y2 |
| Geometry.UpperEnds | ESPApp/components/lcd/GUI.c:454-474 | the upper half starts with the single point of the top vertex and its span on row y1 covers the middle vertex |
| Geometry.LowerEnds | ESPApp/components/lcd/GUI.c:476-489 | the lower half's span on row y1 covers the middle vertex (and the top one on a flat top) and it ends with the single point of the bottom vertex |
| Geometry.SortedCoversVertices | ESPApp/components/lcd/GUI.c:443-489 | for sorted vertices there are y2-y0+1 spans and each vertex lies on the span of its row |
| Text.HighBitsClear | ESPApp/components/lcd/GUI.c:526-532 | a glyph row is a byte: columns 8 and beyond are never set |
| Text.WordRow | ESPApp/components/lcd/GUI.c:528-534 | mode 0 inner loop: column t is the foreground exactly when bit t (LSB first) of the row is set |
| Text.WordRows | ESPApp/components/lcd/GUI.c:524-536 | mode 0 outer loop: the rows of the 12-row table for size 12, of the 16-row table otherwise |
| Text.PointCell | ESPApp/components/lcd/GUI.c:545-547 | mode 1 cell: `POINT_COLOR` set to the foreground, a point drawn when the bit is set |
| Text.PointRow | ESPApp/components/lcd/GUI.c:543-548 | mode 1 inner loop: the set columns of one row as points |
| Text.PointRows | ESPApp/components/lcd/GUI.c:539-549 | mode 1 outer loop: the set points of the glyph |
| Text.DrawGlyph | ESPApp/components/lcd/GUI.c:522-550 | the mode chooses the opaque stream or the overlaid points |
| Text.ShowChar | ESPApp/components/lcd/GUI.c:511-553 | `LCD_ShowChar`: the (size/2) x size window, the glyph body, the full-screen window; `POINT_COLOR` is unchanged afterwards |
| Text.CharFrame | ESPApp/components/lcd/GUI.c:520-552 | either mode programs the glyph box (x, y)-(x+size/2-1, y+size-1) first and the full-screen window last |
| Text.CharOpaque | ESPApp/components/lcd/GUI.c:522-536 | mode 0 streams exactly the glyph image's words |
| Text.GlyphImage | ESPApp/components/lcd/GUI.c:524-535 | mode 0: exactly size*(size/2) words; row r, column t is the foreground iff bit t of row r of the glyph is set; the 12-row table iff size is 12 |
| Text.GlyphCell | ESPApp/components/lcd/GUI.c:524-535 | the word of row r, column t of an opaque glyph is the foreground iff bit t of row r is set, and it sits at index r*(size/2)+t |
| Text.WideGlyphBackground | ESPApp/components/lcd/GUI.c:526-532 | columns 8 and beyond of a wider glyph show the background |
| Text.CharOverlay | ESPApp/components/lcd/GUI.c:537-550 | mode 1 draws, in the foreground, exactly the points (x+t, y+r) whose bit is set, and nothing else |
| Text.PrintablesFilter | ESPApp/components/lcd/GUI.c:574 | the filter keeps only ' '..'~', and keeps a fully printable run whole |
| Text.PrintablesAppend | ESPApp/components/lcd/GUI.c:573-574 | the filter keeps every printable byte and drops every other one, in the order of the buffer: it works byte by byte over a concatenation |
| Text.CStringPrefix | ESPApp/components/lcd/GUI.c:573 | the bytes drawn from are a NUL-free prefix of the buffer |
| Text.CStringLength | ESPApp/components/lcd/GUI.c:661 | `strlen` is the index of the first NUL |
| Text.LayoutAt | ESPApp/components/lcd/GUI.c:599 | the k-th drawn glyph is at column x + k*(size/2), wrapped to `uint16_t` |
| Text.StringByte | ESPApp/components/lcd/GUI.c:574-601 | one pass: a printable byte is drawn at the current column, which then moves by size/2; any other byte is skipped without moving |
| Text.ShowString | ESPApp/components/lcd/GUI.c:567-603 | `LCD_ShowString` draws the printable bytes before the NUL side by side from x; `POINT_COLOR` is unchanged |
| Text.StringFirstByte | ESPApp/components/lcd/GUI.c:573-601 | a non-printable first byte is skipped without advancing; a printable one is drawn at x and the rest starts at x+size/2 |
| Text.StringStopsAtNul | ESPApp/components/lcd/GUI.c:573 | nothing after the NUL affects the drawing |
| Text.StringStep | ESPApp/components/lcd/GUI.c:573-601 | from any non-NUL byte the bytes drawn are that byte, if printable, followed by those from the next byte |
| Text.StringDrawn | ESPApp/components/lcd/GUI.c:574-601 | from a printable non-NUL byte the drawing is its glyph at the current column, then the rest from the column size/2 further |
| Text.CStringExtend | ESPApp/components/lcd/GUI.c:573 | appending bytes after a NUL does not change the C string |
| Text.CStringOfTerminated | ESPApp/components/lcd/GUI.c:573 | a NUL-free run followed by a NUL is read back whole as the C string |
| Text.NumPosition | ESPApp/components/lcd/GUI.c:623-634 | position t draws digit (num / mypow(10, len-t-1)) % 10, or a space for a leading zero before the last position |
| Text.ShowNum | ESPApp/components/lcd/GUI.c:615-636 | `LCD_ShowNum` draws the `len` digit codes in mode 0 at x + (size/2)*t in `POINT_COLOR` on `BACK_COLOR`, which are unchanged |
| Text.NumAsString | ESPApp/components/lcd/GUI.c:620-636 | every drawn code is a space or a digit, and the drawing equals `LCD_ShowString` of those codes in mode 0 |
| Text.ShowCentredString | ESPApp/components/lcd/GUI.c:657-665 | draws the string from ((width - strlen*size/2)/2, (height - size)/2) in C arithmetic |
| Text.CentredMargins | ESPApp/components/lcd/GUI.c:661-662 | when the string fits, its left and right margins differ by at most one |
| Text.CentredRows | ESPApp/components/lcd/GUI.c:663 | when the glyph fits, the margins above and below differ by at most one |
| Text.CentredTooWide | ESPApp/components/lcd/GUI.c:662 | a string two or more columns too wide starts at a column wrapped around 65536 |
| Text.CentredOk | ESPApp/components/lcd/GUI.c:661-664 | example: "OK" at size 16 on 128x160 starts at (56, 72) |
| Decimal.MyPow | ESPApp/components/lcd/GUI.c:638-645 | `mypow(b, e)` is b^e modulo 2^32 |
| Decimal.MyPowTenExact | ESPApp/components/lcd/GUI.c:638-645 | up to 10^9, `mypow(10, e)` is exactly 10^e |
| Decimal.MyPowTenNonzero | ESPApp/components/lcd/GUI.c:624 | below e = 32, `mypow(10, e)` is never 0, so the division is defined |
| Decimal.NumCodesShape | ESPApp/components/lcd/GUI.c:622-635 | exactly `len` codes; position t is a space iff it is before the last and all digits up to it are zero, and otherwise the ASCII code of digit t |
| Decimal.NumCodesAgree | ESPApp/components/lcd/GUI.c:624 | up to ten positions, the `uint32_t` powers give the decimal digits |
| Decimal.NumCodesValue | ESPApp/components/lcd/GUI.c:622-635 | the intended codes read back as num mod 10^len: high digits beyond `len` are dropped |
| Decimal.ValuePrefix | ESPApp/components/lcd/GUI.c:622-635 | the first k of the len intended codes read back as the top k digits of num, (num / 10^(len-k)) mod 10^k |
| Decimal.ShowNumValue | ESPApp/components/lcd/GUI.c:615-636 | up to ten positions, what is drawn reads back as num mod 10^len |
| Decimal.FortyTwo | ESPApp/components/lcd/GUI.c:622-635 | example: 42 in four positions is drawn as "  42" |
| Decimal.NumCodesHead | ESPApp/components/lcd/GUI.c:625-631 | with two or more positions, the first is a space exactly when its digit is 0 |
| Decimal.ShowNumWrapsPower | ESPApp/components/lcd/GUI.c:638-645 | with eleven positions `mypow(10, 10)` wraps to 1410065408, and 4294967295 shows '3' first where the decimal digit is 0 |
| Image.DrawBMP16 | ESPApp/components/lcd/GUI.c:675-690 | the 40x40 window, 1600 words built from byte pairs, then the full-screen window |
| Image.BmpFrame | ESPApp/components/lcd/GUI.c:681-689 | the window (x, y)-(x+39, y+39) comes first, exactly the 1600 image words are streamed, and the full-screen window comes last |
| Image.BmpWire | ESPApp/components/lcd/GUI.c:684-686 | pixel i is the little-endian pair (2i, 2i+1), sent as byte 2i+1 then byte 2i |
| Image.ShowImg | ESPApp/components/lcd/GUI.c:692-711 | the window (0,0)-(width-1, height-1), then width*height words read row-major from one past each pixel's index |
| Image.ImgPixels | ESPApp/components/lcd/GUI.c:699-710 | the words streamed are array entries 1..width*height |
| Image.ImgPixelAt | ESPApp/components/lcd/GUI.c:702-705 | pixel (r, c) gets entry r*width + c + 1 |
| Image.ImgNoRestore | ESPApp/components/lcd/GUI.c:692-711 | after its window only pixel data follows: the full-screen window is not restored |
| Image.ImgStartupCall | ESPApp/main/smartlight.c:100 | `LCD_ShowImg(161, 130)` programs columns 0..160, rows 0..129 and streams entries 1..20930 |
| SmartLight.ToggleSwaps | ESPApp/main/smartlight.c:69-76 | `1 - s` keeps a state in {0, 1}, always changes it, and undoes itself |
| SmartLight.ThreeCells | ESPApp/main/smartlight.c:125-130 | a three-character buffer is drawn whole, its glyphs size/2 columns apart |
| SmartLight.StatusTextShape | ESPApp/main/smartlight.c:125-129 | the status buffer is always three printable characters and a NUL, "ON " exactly when the LED is on |
| SmartLight.StatusRow | ESPApp/main/smartlight.c:125-130 | a status row places 'O','N',' ' (on) or 'O','F','F' (off) at columns 110, 117, 124 |
| SmartLight.Lights.constructor | ESPApp/main/smartlight.c:15-16 | both LED states start at 0 |
| SmartLight.Lights.LcdUpdate | ESPApp/main/smartlight.c:122-131 | the LED 1 status at (110, 60) on 0xDE79, then the LED 2 status at (110, 80) on 0xA732, size 15, mode 0, blue when on and red when off |
| SmartLight.Lights.ToggleLed | ESPApp/main/smartlight.c:68-78 | led 1 or 2 flips its state, keeps the other, keeps {0,1}, and redraws; any other argument changes nothing and draws nothing |
| SmartLight.Lights.InputEventCallback | ESPApp/main/smartlight.c:81-90 | pin 16 (BACK) toggles LED 1, pin 15 (NEXT) toggles LED 2, any other pin does nothing |

## Left out

- `LCDSPI_WriteByte`: the call to `spi_device_transmit` is a foreign call. Its log-and-return-0 error path is not modelled; every byte is one event that always succeeds.
- Hardware bring-up: `LCDSPI_Config`, `LCDGPIO_Config`, `LCD_RESET`, the `vTaskDelay` calls, and the fixed register and gamma sequence of `LCD_Init` (lcd.c:281-360). These are not part of this model; `Display.Lcd.Init` models only the descriptor set-up and the final clear.
- The explicit chip-select and command/data-line toggles that `LCD_Clear` and `LCD_Clear_DMA` make around their loops are GPIO levels, not bus events.
- The DMA transaction of `LCD_Clear_DMA`, its byte order in memory, and the freeing of the buffer: hardware and heap. Whether allocation succeeds is a parameter.
- The glyph tables of the font header and the image arrays are not part of this model. They are inputs: a glyph function and sequences passed in.
- `lcddev.id`: never read by the core.
- button.c (GPIO interrupt, FreeRTOS queue, debounce task), webserver.c (WiFi/HTTP), the MAUI client page and request.py: outside the display core.
- `app_main`, `GUI_Init`, `spiffs_init`, `LED_Init` and the `gpio_set_level` calls: start-up glue and foreign calls. Only the LED state updates and the redraw are kept.
- Concurrency: `Toggle_Led` can run from the button task and from HTTP handlers. The model treats calls as sequential.
- `lcd.c` repeats the bus writers and `LCD_SetWindows` of GUI.c with the same bodies. They are modelled once, in `Display.Lcd`.
- Gui.DrawLine: requires distance <= 65533. The `uint16_t` counter can never exceed distance+1 otherwise, so the loop does not terminate.
- Gui.DrawBorder: requires both sides at most 65533 long, for the same reason.
- Gui.DrawArea: requires both sides at most 65533 long when outlining, for the same reason.
- Gui.DrawFillBox: requires both sides at most 65533 long when outlining, for the same reason.
- Gui.DrawTriangle: the outline requires each edge to meet the `Gui.DrawLine` bound. The fill excludes two cases: a lowest vertex on row 65535, where the `uint16_t` row counter never passes it; and two vertices on row 0 above the third, where `last` wraps and `dy01` is 0, a division by zero.
- Gui.FillRows: same exclusions as the fill of `Gui.DrawTriangle`, on the sorted vertices.
- Gui.UpperRows: same exclusions as the fill of `Gui.DrawTriangle`, on the sorted vertices.
- Gui.LowerRows: requires the lowest vertex above row 65535, as for `Gui.DrawTriangle`.
- Gui.DrawTriangle: the running edge sums `sa` and `sb` are C `long`, 32 bits on the ESP32 (GUI.c:424-425). The sums and the restart products `dx12 * (y - y1)` and `dx02 * (y - y0)` are computed in 32 bits (GUI.c:468-469, 476-477, 483-484). Once an edge's |dx| times its row count reaches 2^31, the C overflows, which is undefined behaviour; for example |dx02| = 65535 over 40000 rows. The model keeps the sums as unbounded integers, so for such triangles the spans it proves are the exact crossings, not anything the device computes.
- Gui.FillRows: the same 32-bit overflow of `sa` and `sb` is not modelled, as for `Gui.DrawTriangle`.
- Gui.UpperRows: the same 32-bit overflow of `sa` and `sb` is not modelled, as for `Gui.DrawTriangle`.
- Gui.LowerRows: the same 32-bit overflow of `sa` and `sb` is not modelled, as for `Gui.DrawTriangle`.
- Gui.Restart: the restart products are unbounded integers; their 32-bit overflow is not modelled.
- Geometry.TriangleScanlines: proved for unbounded edge sums (`Geometry.Accumulated`); it does not describe inputs for which the C sums overflow.
- Gui.Circle: coordinates are unbounded integers, so the 32-bit `int` overflow of the C loop for radii near 2^30 is not modelled. The conversion of each point to `uint16_t` is modelled.
- Text.ShowNum: requires len <= 32; from 33 positions on `mypow(10, len-1)` is 0 modulo 2^32 and the C division is undefined.
- Text.ShowString: requires a NUL in the buffer, as a C string must have.
- Text.ShowCentredString: requires a NUL in the buffer, as a C string must have.
- Image.DrawBMP16: requires at least 3200 bytes, the bytes the loop reads.
- Image.ShowImg: requires the array to hold every entry the loop reads, up to width*height.
