/** Display state of the ST7735S driver (the `lcddev` descriptor and the two
    colour globals), the bus writers, the addressing window, and the lcd.c
    operations: full-screen clear, the buffer fill of the DMA clear, the
    orientation change and the descriptor set-up of initialisation. */
module Display {
  import opened Bus

  /** Panel size used by the orientation change (lcd.h). */
  const LCD_W: u16 := 130
  const LCD_H: u16 := 161

  /** Colours of lcd.h used by the core. */
  const WHITE: u16 := 0xFFFF
  const BLACK: u16 := 0x0000
  const BLUE: u16 := 0x001F
  const RED: u16 := 0xF800

  /** Controller opcodes the driver programs into the descriptor. */
  const CASET: u16 := 0x2A
  const RASET: u16 := 0x2B
  const RAMWR: u16 := 0x2C
  /** Memory-access-control register written by the orientation change. */
  const MADCTL: u8 := 0x36

  /** The two glyph tables of the font header: 12-row and 16-row glyphs. */
  datatype Font = Asc1206 | Asc1608

  /** Row `row` of glyph `index` of a table, one bit per column, LSB first.
      The tables themselves are data outside this model. */
  type GlyphTable = (Font, int, int) -> u8

  /** The `lcddev` fields the drawing code reads. */
  datatype LcdDev = LcdDev(width: u16, height: u16, wramcmd: u16, setxcmd: u16, setycmd: u16)

  /** The window-programming sequence for columns xs..xe and rows ys..ye: the
      column-set opcode with start and end as two bytes each (high byte always
      0, low byte the coordinate truncated to 8 bits), the same for rows, then
      the RAM-write opcode that starts a pixel stream. */
  function Window(dev: LcdDev, xs: int, ys: int, xe: int, ye: int): seq<Event> {
    [Cmd(Low8(dev.setxcmd)), Data8(0), Data8(Low8(xs)), Data8(0), Data8(Low8(xe)),
     Cmd(Low8(dev.setycmd)), Data8(0), Data8(Low8(ys)), Data8(0), Data8(Low8(ye)),
     Cmd(Low8(dev.wramcmd))]
  }

  /** The window covering the whole screen, as the primitives restore it. */
  function FullWindow(dev: LcdDev): seq<Event> {
    Window(dev, 0, 0, Wrap16(dev.width - 1), Wrap16(dev.height - 1))
  }

  /** How the controller reads a window-programming sequence: each coordinate
      is the 16-bit value of its high and low byte. */
  function WindowOf(dev: LcdDev, evs: seq<Event>): Option<(int, int, int, int)> {
    if |evs| == 11
       && evs[0] == Cmd(Low8(dev.setxcmd)) && evs[5] == Cmd(Low8(dev.setycmd))
       && evs[10] == Cmd(Low8(dev.wramcmd))
       && evs[1].Data8? && evs[2].Data8? && evs[3].Data8? && evs[4].Data8?
       && evs[6].Data8? && evs[7].Data8? && evs[8].Data8? && evs[9].Data8?
    then Some((evs[1].b * 0x100 + evs[2].b, evs[6].b * 0x100 + evs[7].b,
               evs[3].b * 0x100 + evs[4].b, evs[8].b * 0x100 + evs[9].b))
    else None
  }

  /** The window sequence is 11 transactions, carries no pixel data, and the
      controller reads back from it the low bytes of the four coordinates. */
  lemma WindowRoundTrip(dev: LcdDev, xs: int, ys: int, xe: int, ye: int)
    ensures |Window(dev, xs, ys, xe, ye)| == 11
    ensures Pixels(Window(dev, xs, ys, xe, ye)) == []
    ensures WindowOf(dev, Window(dev, xs, ys, xe, ye)) == Some((Low8(xs), Low8(ys), Low8(xe), Low8(ye)))
  {
    PixelsOfNonPixels(Window(dev, xs, ys, xe, ye));
  }

  /** The bus traffic of LCD_Clear: the full-screen window, then one word of
      `color` per pixel. */
  function ClearEvents(dev: LcdDev, color: u16): seq<Event> {
    FullWindow(dev) + Repeat(Data16(color), dev.width * dev.height)
  }

  /** The value written to the memory-access-control register for a
      direction, built from the bit shifts of the source. */
  function Madctl(dir: u8): u8
    requires dir < 4
  {
    var v: bv8 :=
      if dir == 0 then (0 << 3) | (1 << 6) | (1 << 7)
      else if dir == 1 then (0 << 3) | (1 << 7) | (1 << 5)
      else if dir == 2 then (0 << 3) | (0 << 6) | (0 << 7)
      else (0 << 3) | (0 << 7) | (1 << 6) | (1 << 5);
    v as int
  }

  /** The bus traffic of LCD_Direction: one register write for a known
      direction, nothing otherwise. */
  function DirectionEvents(dir: u8): seq<Event> {
    if dir < 4 then [Cmd(MADCTL), Data8(Madctl(dir))] else []
  }

  /** Width and height after LCD_Direction: the panel size upright for
      directions 0 and 2, exchanged for 1 and 3, unchanged otherwise. */
  function OrientedSize(dir: u8, width: u16, height: u16): (u16, u16) {
    if dir == 0 || dir == 2 then (LCD_W, LCD_H)
    else if dir == 1 || dir == 3 then (LCD_H, LCD_W)
    else (width, height)
  }

  /** The register values of the four directions, and the row/column exchange
      bit (bit 5) is set exactly for the directions that exchange width and
      height; no direction streams pixel data. */
  lemma DirectionRegister(dir: u8, width: u16, height: u16)
    ensures dir == 0 ==> DirectionEvents(dir) == [Cmd(0x36), Data8(0xC0)]
    ensures dir == 1 ==> DirectionEvents(dir) == [Cmd(0x36), Data8(0xA0)]
    ensures dir == 2 ==> DirectionEvents(dir) == [Cmd(0x36), Data8(0x00)]
    ensures dir == 3 ==> DirectionEvents(dir) == [Cmd(0x36), Data8(0x60)]
    ensures dir >= 4 ==> DirectionEvents(dir) == []
    ensures dir < 4 ==> ((Madctl(dir) / 0x20) % 2 == 1 <==> OrientedSize(dir, width, height) == (LCD_H, LCD_W))
    ensures Pixels(DirectionEvents(dir)) == []
  {
    PixelsOfNonPixels(DirectionEvents(dir));
  }

  /** Repeating an orientation change leaves the width and height it set; the
      repeated call still writes register 0x36 again. */
  lemma DirectionIdempotent(dir: u8, width: u16, height: u16)
    ensures var (w, h) := OrientedSize(dir, width, height);
            OrientedSize(dir, w, h) == (w, h)
  {
  }

  /** Initialisation sets up 128x160, while the orientation change uses the
      panel size 130x161: rotating to 90 degrees after initialisation yields
      161x130, not the exchanged 160x128. */
  lemma RotateAfterInit()
    ensures OrientedSize(1, 128, 160) == (161, 130)
    ensures OrientedSize(0, 128, 160) != (128, 160)
  {
  }

  /** The display: the bus transcript, the `lcddev` descriptor, the two colour
      globals, and the font tables the text routines read. */
  class Lcd {
    var trace: seq<Event>
    var width: u16
    var height: u16
    var wramcmd: u16
    var setxcmd: u16
    var setycmd: u16
    var pointColor: u16
    var backColor: u16
    const glyph: GlyphTable

    /** The state before initialisation: a zeroed descriptor, POINT_COLOR
        black and BACK_COLOR white, nothing sent yet. */
    constructor (glyph: GlyphTable)
      ensures trace == [] && this.glyph == glyph
      ensures width == 0 && height == 0 && wramcmd == 0 && setxcmd == 0 && setycmd == 0
      ensures pointColor == BLACK && backColor == WHITE
    {
      this.glyph := glyph;
      trace := [];
      width, height, wramcmd, setxcmd, setycmd := 0, 0, 0, 0, 0;
      pointColor, backColor := BLACK, WHITE;
    }

    /** The descriptor as the drawing code reads it. */
    function Dev(): LcdDev
      reads this`width, this`height, this`wramcmd, this`setxcmd, this`setycmd
    {
      LcdDev(width, height, wramcmd, setxcmd, setycmd)
    }

    /** LCD_WR_REG: one command byte. */
    method WrReg(b: u8)
      modifies this`trace
      ensures trace == old(trace) + [Cmd(b)]
    {
      trace := trace + [Cmd(b)];
    }

    /** LCD_WR_DATA: one 16-bit data word (both bytes under one chip-select). */
    method WrData(w: u16)
      modifies this`trace
      ensures trace == old(trace) + [Data16(w)]
    {
      trace := trace + [Data16(w)];
    }

    /** LCD_WR_DATA8: one data byte. */
    method WrData8(b: u8)
      modifies this`trace
      ensures trace == old(trace) + [Data8(b)]
    {
      trace := trace + [Data8(b)];
    }

    /** LCD_WriteReg: a register number, then its value truncated to a byte. */
    method WriteReg(reg: u8, value: u16)
      modifies this`trace
      ensures trace == old(trace) + [Cmd(reg), Data8(Low8(value))]
    {
      WrReg(reg);
      WrData8(Low8(value));
    }

    /** LCD_WriteRAM_Prepare: the RAM-write opcode of the descriptor. */
    method WriteRamPrepare()
      modifies this`trace
      ensures trace == old(trace) + [Cmd(Low8(wramcmd))]
    {
      WrReg(Low8(wramcmd));
    }

    /** LCD_SetWindows: programs the addressing window. */
    method SetWindows(xs: u16, ys: u16, xe: u16, ye: u16)
      modifies this`trace
      ensures trace == old(trace) + Window(Dev(), xs, ys, xe, ye)
    {
      WrReg(Low8(setxcmd));
      WrData8(0x00);
      WrData8(Low8(xs));
      WrData8(0x00);
      WrData8(Low8(xe));

      WrReg(Low8(setycmd));
      WrData8(0x00);
      WrData8(Low8(ys));
      WrData8(0x00);
      WrData8(Low8(ye));

      WriteRamPrepare();
    }

    /** LCD_SetCursor: a one-pixel window. */
    method SetCursor(x: u16, y: u16)
      modifies this`trace
      ensures trace == old(trace) + Window(Dev(), x, y, x, y)
    {
      SetWindows(x, y, x, y);
    }

    /** The nested pixel loops shared by LCD_Clear and the filled
        LCD_DrawArea: `rows` times `cols` words of `color`. */
    method Stream(color: u16, cols: u16, rows: u16)
      modifies this`trace
      ensures trace == old(trace) + Repeat(Data16(color), cols * rows)
    {
      ghost var t0, n := trace, 0;
      var i: u16 := 0;
      while i < rows
        invariant 0 <= i <= rows
        invariant n == i * cols
        invariant trace == t0 + Repeat(Data16(color), n)
      {
        var j: u16 := 0;
        while j < cols
          invariant 0 <= j <= cols
          invariant n == i * cols + j
          invariant trace == t0 + Repeat(Data16(color), n)
        {
          WrData(color);
          RepeatSnoc(t0, Data16(color), n);
          j, n := j + 1, n + 1;
        }
        assert n == (i + 1) * cols;
        i := i + 1;
      }
      assert n == cols * rows;
    }

    /** LCD_Clear: full-screen window, then width*height words of `color`. */
    method Clear(color: u16)
      modifies this`trace
      ensures trace == old(trace) + ClearEvents(Dev(), color)
    {
      SetWindows(0, 0, Wrap16(width - 1), Wrap16(height - 1));
      Stream(color, width, height);
    }

    /** The buffer fill of LCD_Clear_DMA. When the DMA-capable allocation
        fails (`heapHasRoom` false) it returns at once with nothing sent and
        no state changed; otherwise every one of the width*height entries of
        the new buffer holds `color`. */
    method ClearDma(color: u16, heapHasRoom: bool) returns (buffer: array?<u16>)
      ensures !heapHasRoom <==> buffer == null
      ensures buffer != null ==> fresh(buffer)
      ensures buffer != null ==> buffer.Length == width * height
      ensures buffer != null ==> forall i :: 0 <= i < buffer.Length ==> buffer[i] == color
    {
      var totalPixels := width * height;
      if !heapHasRoom {
        return null;
      }
      buffer := new u16[totalPixels];
      var i := 0;
      while i < totalPixels
        invariant 0 <= i <= totalPixels
        invariant forall j :: 0 <= j < i ==> buffer[j] == color
      {
        buffer[i] := color;
        i := i + 1;
      }
    }

    /** LCD_Direction: resets the three opcodes, sets the size for the
        direction and writes the memory-access-control register. */
    method Direction(dir: u8)
      modifies this`trace, this`width, this`height, this`setxcmd, this`setycmd, this`wramcmd
      ensures setxcmd == CASET && setycmd == RASET && wramcmd == RAMWR
      ensures (width, height) == OrientedSize(dir, old(width), old(height))
      ensures trace == old(trace) + DirectionEvents(dir)
    {
      setxcmd := 0x2A;
      setycmd := 0x2B;
      wramcmd := 0x2C;

      if dir == 0 {
        width, height := LCD_W, LCD_H;
        WriteReg(MADCTL, Madctl(0));
      } else if dir == 1 {
        width, height := LCD_H, LCD_W;
        WriteReg(MADCTL, Madctl(1));
      } else if dir == 2 {
        width, height := LCD_W, LCD_H;
        WriteReg(MADCTL, Madctl(2));
      } else if dir == 3 {
        width, height := LCD_H, LCD_W;
        WriteReg(MADCTL, Madctl(3));
      }
    }

    /** LCD_Init, descriptor and final clear: 128x160 with the standard
        opcodes, and the last drawing action is a clear to white. */
    method Init()
      modifies this`trace, this`width, this`height, this`setxcmd, this`setycmd, this`wramcmd
      ensures Dev() == LcdDev(128, 160, RAMWR, CASET, RASET)
      ensures trace == old(trace) + ClearEvents(Dev(), WHITE)
    {
      width := 128;
      height := 160;
      wramcmd := 0x2C;
      setxcmd := 0x2A;
      setycmd := 0x2B;

      Clear(WHITE);
    }
  }
}
