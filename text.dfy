/** Character output of GUI.c: one glyph (LCD_ShowChar), a NUL-terminated
    string (LCD_ShowString), a right-aligned number (LCD_ShowNum) and a string
    centred on the screen (LCD_ShowCentredString). */
module Text {
  import opened Bus
  import opened Display
  import opened Geometry
  import opened Gui
  import Decimal

  /*** Glyph bits ***/

  /** Bit t of a glyph row, `(row >> t) & 0x01`: the glyph tables store each
      row least significant bit first, bit t being column t. */
  predicate Bit(row: nat, t: nat) {
    (row / Decimal.Pow(2, t)) % 2 == 1
  }

  /** Shifting right once more is dividing by the next power of two. */
  lemma ShiftStep(row: nat, t: nat)
    ensures row / Decimal.Pow(2, t) / 2 == row / Decimal.Pow(2, t + 1)
  {
    Decimal.DivDiv(row, Decimal.Pow(2, t), 2);
  }

  lemma {:induction false} PowTwoAtLeast(t: nat)
    requires t >= 8
    ensures Decimal.Pow(2, t) >= 0x100
  {
    if t == 8 {
      assert Decimal.Pow(2, 8) == 0x100;
    } else {
      PowTwoAtLeast(t - 1);
    }
  }

  /** A glyph row is one byte: the columns from 8 on are never set. */
  lemma HighBitsClear(row: u8, t: nat)
    requires t >= 8
    ensures !Bit(row, t)
  {
    PowTwoAtLeast(t);
  }

  /** The table LCD_ShowChar reads: the 12-row font for size 12, the 16-row
      font for every other size. */
  function FontOf(size: u8): Font {
    if size == 12 then Asc1206 else Asc1608
  }

  /** The table index of a character, `num - ' '` stored in a uint8_t. */
  function GlyphIndex(c: u8): u8 {
    Low8(c - 0x20)
  }

  /*** Opaque glyphs (mode 0) ***/

  /** Columns t .. n-1 of one row: the foreground where the bit is set, the
      background elsewhere. */
  function RowWords(row: u8, t: nat, n: nat, color: u16, bg: u16): seq<u16>
    decreases n - t
  {
    if t >= n then [] else [if Bit(row, t) then color else bg] + RowWords(row, t + 1, n, color, bg)
  }

  /** Rows pos .. size-1 of a glyph, `half` columns each, row after row. */
  function GlyphWords(g: GlyphTable, font: Font, idx: u8, pos: nat, size: nat, half: nat,
                      color: u16, bg: u16): seq<u16>
    decreases size - pos
  {
    if pos >= size then []
    else RowWords(g(font, idx, pos), 0, half, color, bg) + GlyphWords(g, font, idx, pos + 1, size, half, color, bg)
  }

  /*** Overlaid glyphs (mode 1) ***/

  /** The points of columns t .. n-1 of one row that have their bit set. */
  function RowPoints(row: u8, x: int, y: int, t: nat, n: nat): seq<Pt>
    decreases n - t
  {
    if t >= n then [] else (if Bit(row, t) then [Pt(x + t, y)] else []) + RowPoints(row, x, y, t + 1, n)
  }

  /** The set points of rows pos .. size-1 of a glyph placed at (x, y). */
  function GlyphPoints(g: GlyphTable, font: Font, idx: u8, x: int, y: int, pos: nat, size: nat, half: nat): seq<Pt>
    decreases size - pos
  {
    if pos >= size then []
    else RowPoints(g(font, idx, pos), x, y + pos, 0, half) + GlyphPoints(g, font, idx, x, y, pos + 1, size, half)
  }

  /** LCD_ShowChar: a window of size/2 columns by size rows at (x, y); in mode 0
      every cell streamed in foreground or background, otherwise the set cells
      drawn as points in the foreground; then the full-screen window. */
  function CharEvents(dev: LcdDev, g: GlyphTable, x: u16, y: u16, color: u16, bg: u16,
                      c: u8, size: u8, mode: u8): seq<Event> {
    var half := size / 2;
    Window(dev, x, y, Wrap16(x + half - 1), Wrap16(y + size - 1))
    + GlyphBody(dev, g, x, y, color, bg, GlyphIndex(c), size, mode)
    + FullWindow(dev)
  }

  /** What LCD_ShowChar sends inside the window of glyph `idx`. */
  function GlyphBody(dev: LcdDev, g: GlyphTable, x: u16, y: u16, color: u16, bg: u16,
                     idx: u8, size: u8, mode: u8): seq<Event> {
    if mode == 0 then Words(GlyphWords(g, FontOf(size), idx, 0, size, size / 2, color, bg))
    else PlotAll(dev, GlyphPoints(g, FontOf(size), idx, x, y, 0, size, size / 2), color)
  }

  /*** What a glyph shows ***/

  lemma {:induction false} RowWordsAt(row: u8, t: nat, n: nat, color: u16, bg: u16, i: nat)
    requires t <= i < n
    ensures |RowWords(row, t, n, color, bg)| == n - t
    ensures RowWords(row, t, n, color, bg)[i - t] == (if Bit(row, i) then color else bg)
    decreases n - t
  {
    if i > t {
      RowWordsAt(row, t + 1, n, color, bg, i);
    } else if t + 1 < n {
      RowWordsAt(row, t + 1, n, color, bg, t + 1);
    }
  }

  lemma {:induction false} GlyphWordsLength(g: GlyphTable, font: Font, idx: u8, pos: nat, size: nat, half: nat,
                                            color: u16, bg: u16)
    requires pos <= size
    ensures |GlyphWords(g, font, idx, pos, size, half, color, bg)| == (size - pos) * half
    decreases size - pos
  {
    if pos < size {
      if half > 0 {
        RowWordsAt(g(font, idx, pos), 0, half, color, bg, 0);
      }
      GlyphWordsLength(g, font, idx, pos + 1, size, half, color, bg);
      MulSucc(size - pos - 1, half);
    }
  }

  /** Cell (r, t) of a glyph is word i = (r-pos)*half + t of its stream
      counted from row pos. */
  lemma {:induction false} GlyphWordsAt(g: GlyphTable, font: Font, idx: u8, pos: nat, size: nat, half: nat,
                                        color: u16, bg: u16, r: nat, t: nat, i: nat)
    requires pos <= r < size && t < half && i == (r - pos) * half + t
    ensures i < |GlyphWords(g, font, idx, pos, size, half, color, bg)|
    ensures GlyphWords(g, font, idx, pos, size, half, color, bg)[i] == (if Bit(g(font, idx, r), t) then color else bg)
    decreases size - pos
  {
    var row := RowWords(g(font, idx, pos), 0, half, color, bg);
    var rest := GlyphWords(g, font, idx, pos + 1, size, half, color, bg);
    var all := GlyphWords(g, font, idx, pos, size, half, color, bg);
    assert all == row + rest;
    RowWordsAt(g(font, idx, pos), 0, half, color, bg, 0);
    assert |row| == half;
    if r == pos {
      assert i == t;
      RowWordsAt(g(font, idx, pos), 0, half, color, bg, t);
      assert all[i] == row[t];
    } else {
      var k := r - pos - 1;
      var j := k * half + t;
      MulSucc(k, half);
      assert i == half + j;
      GlyphWordsAt(g, font, idx, pos + 1, size, half, color, bg, r, t, j);
      IndexAfter(row, rest, j);
      assert all[i] == rest[j];
    }
  }

  lemma IndexAfter(a: seq<u16>, b: seq<u16>, j: nat)
    requires j < |b|
    ensures (a + b)[|a| + j] == b[j]
  {
  }

  /** A cell index of a row below the last stays inside the stream. */
  lemma MulBelow(r: nat, half: nat, rows: nat, t: nat)
    requires r < rows && t < half
    ensures r * half + t < rows * half
  {
    assert r * half <= (rows - 1) * half;
    MulSucc(rows - 1, half);
  }

  /** A glyph, in either mode, programs the window of its cell (size/2
      columns by size rows at (x, y)) first and restores the full-screen window
      last. */
  lemma CharFrame(dev: LcdDev, g: GlyphTable, x: u16, y: u16, color: u16, bg: u16, c: u8, size: u8, mode: u8)
    ensures var evs := CharEvents(dev, g, x, y, color, bg, c, size, mode);
            |evs| >= 22
            && WindowOf(dev, evs[..11]) == Some((Low8(x), Low8(y), Low8(x + size / 2 - 1), Low8(y + size - 1)))
            && evs[|evs| - 11..] == FullWindow(dev)
  {
    var half := size / 2;
    var xe, ye := Wrap16(x + half - 1), Wrap16(y + size - 1);
    FramedPixels(dev, x, y, xe, ye, GlyphBody(dev, g, x, y, color, bg, GlyphIndex(c), size, mode));
    Low8OfWrap16(x + half - 1);
    Low8OfWrap16(y + size - 1);
  }

  /** In mode 0 a glyph streams exactly the words of its glyph image. */
  lemma CharOpaque(dev: LcdDev, g: GlyphTable, x: u16, y: u16, color: u16, bg: u16, c: u8, size: u8)
    ensures Pixels(CharEvents(dev, g, x, y, color, bg, c, size, 0))
            == GlyphWords(g, FontOf(size), GlyphIndex(c), 0, size, size / 2, color, bg)
  {
    var half := size / 2;
    var words := GlyphWords(g, FontOf(size), GlyphIndex(c), 0, size, half, color, bg);
    var xe, ye := Wrap16(x + half - 1), Wrap16(y + size - 1);
    assert CharEvents(dev, g, x, y, color, bg, c, size, 0) == Window(dev, x, y, xe, ye) + Words(words) + FullWindow(dev);
    FramedPixels(dev, x, y, xe, ye, Words(words));
    PixelsWords(words);
  }

  /** In mode 0 the glyph of c streams its `size` rows of size/2 words each:
      the word of row r, column t is the foreground exactly when bit t of row r
      of the glyph is set, and the 12-row table is read exactly for size 12. */
  lemma GlyphImage(dev: LcdDev, g: GlyphTable, x: u16, y: u16, color: u16, bg: u16, c: u8, size: u8,
                   r: nat, t: nat)
    requires r < size && t < size / 2
    ensures var px := Pixels(CharEvents(dev, g, x, y, color, bg, c, size, 0));
            |px| == size * (size / 2) && r * (size / 2) + t < |px|
            && px[r * (size / 2) + t]
               == (if Bit(g(if size == 12 then Asc1206 else Asc1608, GlyphIndex(c), r), t) then color else bg)
  {
    var half := size / 2;
    var font, idx := FontOf(size), GlyphIndex(c);
    CharOpaque(dev, g, x, y, color, bg, c, size);
    GlyphCell(g, font, idx, size, half, color, bg, r, t);
  }

  /** Word r*half + t of a glyph stream counted from row 0. */
  lemma GlyphCell(g: GlyphTable, font: Font, idx: u8, size: nat, half: nat, color: u16, bg: u16, r: nat, t: nat)
    requires r < size && t < half
    ensures |GlyphWords(g, font, idx, 0, size, half, color, bg)| == size * half
    ensures r * half + t < size * half
    ensures GlyphWords(g, font, idx, 0, size, half, color, bg)[r * half + t] == (if Bit(g(font, idx, r), t) then color else bg)
  {
    GlyphWordsLength(g, font, idx, 0, size, half, color, bg);
    var i := r * half + t;
    assert (r - 0) * half + t == i;
    GlyphWordsAt(g, font, idx, 0, size, half, color, bg, r, t, i);
  }

  /** Columns from 8 on of a glyph wider than a byte show the background. */
  lemma WideGlyphBackground(dev: LcdDev, g: GlyphTable, x: u16, y: u16, color: u16, bg: u16, c: u8, size: u8,
                            r: nat, t: nat)
    requires r < size && 8 <= t < size / 2
    ensures r * (size / 2) + t < |Pixels(CharEvents(dev, g, x, y, color, bg, c, size, 0))|
    ensures Pixels(CharEvents(dev, g, x, y, color, bg, c, size, 0))[r * (size / 2) + t] == bg
  {
    GlyphImage(dev, g, x, y, color, bg, c, size, r, t);
    HighBitsClear(g(FontOf(size), GlyphIndex(c), r), t);
  }

  lemma {:induction false} RowPointsMem(row: u8, x: int, y: int, t: nat, n: nat, p: Pt)
    ensures p in RowPoints(row, x, y, t, n) <==> exists s :: t <= s < n && Bit(row, s) && p == Pt(x + s, y)
    decreases n - t
  {
    if t < n {
      RowPointsMem(row, x, y, t + 1, n, p);
      if p in RowPoints(row, x, y, t, n) && p !in RowPoints(row, x, y, t + 1, n) {
        assert Bit(row, t) && p == Pt(x + t, y);
      }
    }
  }

  lemma {:induction false} GlyphPointsMem(g: GlyphTable, font: Font, idx: u8, x: int, y: int, pos: nat, size: nat,
                                          half: nat, p: Pt)
    ensures p in GlyphPoints(g, font, idx, x, y, pos, size, half) <==>
            exists r, t :: pos <= r < size && 0 <= t < half && Bit(g(font, idx, r), t) && p == Pt(x + t, y + r)
    decreases size - pos
  {
    if pos < size {
      GlyphPointsMem(g, font, idx, x, y, pos + 1, size, half, p);
      RowPointsMem(g(font, idx, pos), x, y + pos, 0, half, p);
    }
  }

  /** In mode 1 a glyph draws, in the foreground, exactly the points (x+t, y+r)
      whose bit t of row r is set, and streams nothing else. */
  lemma CharOverlay(dev: LcdDev, g: GlyphTable, x: u16, y: u16, color: u16, bg: u16, c: u8, size: u8, mode: u8,
                    p: Pt)
    requires mode != 0
    ensures var pts := GlyphPoints(g, FontOf(size), GlyphIndex(c), x, y, 0, size, size / 2);
            Pixels(CharEvents(dev, g, x, y, color, bg, c, size, mode)) == seq(|pts|, _ => color)
            && (p in pts <==> exists r, t :: 0 <= r < size && 0 <= t < size / 2
                                          && Bit(g(FontOf(size), GlyphIndex(c), r), t) && p == Pt(x + t, y + r))
  {
    var half := size / 2;
    var pts := GlyphPoints(g, FontOf(size), GlyphIndex(c), x, y, 0, size, half);
    var body := PlotAll(dev, pts, color);
    var w := Window(dev, x, y, Wrap16(x + half - 1), Wrap16(y + size - 1));
    assert GlyphBody(dev, g, x, y, color, bg, GlyphIndex(c), size, mode) == body;
    assert CharEvents(dev, g, x, y, color, bg, c, size, mode) == w + body + FullWindow(dev);
    FramedPixels(dev, x, y, Wrap16(x + half - 1), Wrap16(y + size - 1), body);
    PlotAllPixels(dev, pts, color);
    assert Pixels(CharEvents(dev, g, x, y, color, bg, c, size, mode)) == seq(|pts|, _ => color);
    GlyphPointsMem(g, FontOf(size), GlyphIndex(c), x, y, 0, size, half, p);
  }

  /*** LCD_ShowChar ***/

  /** Column t of a row streams its colour word, and then the columns after
      it. */
  lemma WordStep(row: u8, t: nat, n: nat, color: u16, bg: u16)
    requires t < n
    ensures Words(RowWords(row, t, n, color, bg))
            == [Data16(if Bit(row, t) then color else bg)] + Words(RowWords(row, t + 1, n, color, bg))
  {
    var w := if Bit(row, t) then color else bg;
    assert RowWords(row, t, n, color, bg) == [w] + RowWords(row, t + 1, n, color, bg);
    WordsAppend([w], RowWords(row, t + 1, n, color, bg));
  }

  /** The inner loop of mode 0: `half` words of one row, the low bit of `temp`
      choosing the colour and `temp` shifted right each step. */
  method WordRow(lcd: Lcd, row: u8, half: u8, color: u16, bg: u16)
    modifies lcd`trace
    ensures lcd.trace == old(lcd.trace) + Words(RowWords(row, 0, half, color, bg))
  {
    var temp: u8 := row;
    var t: u8 := 0;
    while t < half
      invariant t <= half
      invariant temp == row / Decimal.Pow(2, t)
      invariant old(lcd.trace) + Words(RowWords(row, 0, half, color, bg))
                == lcd.trace + Words(RowWords(row, t, half, color, bg))
    {
      ghost var cell := [Data16(if Bit(row, t) then color else bg)];
      ghost var after := Words(RowWords(row, t + 1, half, color, bg));
      ghost var before := lcd.trace;
      WordStep(row, t, half, color, bg);
      if temp % 2 == 1 {
        lcd.WrData(color);
      } else {
        lcd.WrData(bg);
      }
      assert lcd.trace == before + cell;
      AppendAssoc(before, cell, after);
      ShiftStep(row, t);
      temp := temp / 2;
      t := t + 1;
    }
  }

  /** The outer loop of mode 0: the rows of the glyph, read from the 12-row
      table for size 12 and from the 16-row table otherwise. */
  method WordRows(lcd: Lcd, num: u8, size: u8, color: u16, bg: u16)
    modifies lcd`trace
    ensures lcd.trace == old(lcd.trace) + Words(GlyphWords(lcd.glyph, FontOf(size), num, 0, size, size / 2, color, bg))
  {
    var half := size / 2;
    ghost var all := lcd.trace + Words(GlyphWords(lcd.glyph, FontOf(size), num, 0, size, half, color, bg));
    var pos: u8 := 0;
    while pos < size
      invariant pos <= size
      invariant all == lcd.trace + Words(GlyphWords(lcd.glyph, FontOf(size), num, pos, size, half, color, bg))
    {
      var temp := if size == 12 then lcd.glyph(Asc1206, num, pos) else lcd.glyph(Asc1608, num, pos);
      ghost var before := lcd.trace;
      ghost var row := RowWords(temp, 0, half, color, bg);
      ghost var rest := GlyphWords(lcd.glyph, FontOf(size), num, pos + 1, size, half, color, bg);
      WordRow(lcd, temp, half, color, bg);
      WordsAppend(row, rest);
      AppendAssoc(before, Words(row), Words(rest));
      pos := pos + 1;
    }
  }

  /** Column t of a row plots its point when bit t is set, and then the
      columns after it. */
  lemma PointStep(dev: LcdDev, row: u8, x: int, y: int, t: nat, n: nat, color: u16)
    requires t < n
    ensures PlotAll(dev, RowPoints(row, x, y, t, n), color)
            == if Bit(row, t) then PointEvents(dev, Wrap16(x + t), Wrap16(y), color) + PlotAll(dev, RowPoints(row, x, y, t + 1, n), color)
               else PlotAll(dev, RowPoints(row, x, y, t + 1, n), color)
  {
    var rest := RowPoints(row, x, y, t + 1, n);
    if Bit(row, t) {
      assert RowPoints(row, x, y, t, n) == [Pt(x + t, y)] + rest;
      PlotAllCons(dev, Pt(x + t, y), rest, color);
    } else {
      assert RowPoints(row, x, y, t, n) == rest;
    }
  }

  /** One column of the inner loop of mode 1: POINT_COLOR set to the
      foreground, and a point drawn when the low bit of `temp`, bit t of the
      row, is set. */
  method PointCell(lcd: Lcd, row: u8, temp: u8, x: u16, y: u16, pos: u8, t: u8, half: u8, color: u16,
                   ghost dev: LcdDev, ghost all: seq<Event>)
    requires t < half && temp == row / Decimal.Pow(2, t) && lcd.Dev() == dev
    requires all == lcd.trace + PlotAll(dev, RowPoints(row, x, y + pos, t, half), color)
    modifies lcd`trace, lcd`pointColor
    ensures lcd.pointColor == color && lcd.Dev() == dev
    ensures all == lcd.trace + PlotAll(dev, RowPoints(row, x, y + pos, t + 1, half), color)
  {
    ghost var after := PlotAll(dev, RowPoints(row, x, y + pos, t + 1, half), color);
    ghost var before := lcd.trace;
    PointStep(dev, row, x, y + pos, t, half, color);
    lcd.pointColor := color;
    if temp % 2 == 1 {
      ghost var point := PointEvents(dev, Wrap16(x + t), Wrap16(y + pos), color);
      assert all == before + (point + after);
      DrawPoint(lcd, Wrap16(x + t), Wrap16(y + pos), color);
      assert lcd.Dev() == dev;
      assert lcd.trace == before + point;
      AppendAssoc(before, point, after);
    } else {
      assert all == before + after;
    }
  }

  /** The inner loop of mode 1 over one glyph row. */
  method PointRow(lcd: Lcd, row: u8, x: u16, y: u16, pos: u8, half: u8, color: u16)
    modifies lcd`trace, lcd`pointColor
    ensures lcd.trace == old(lcd.trace) + PlotAll(lcd.Dev(), RowPoints(row, x, y + pos, 0, half), color)
    ensures lcd.pointColor == if half == 0 then old(lcd.pointColor) else color
  {
    ghost var dev := lcd.Dev();
    ghost var all := lcd.trace + PlotAll(dev, RowPoints(row, x, y + pos, 0, half), color);
    var temp: u8 := row;
    var t: u8 := 0;
    while t < half
      invariant t <= half
      invariant temp == row / Decimal.Pow(2, t)
      invariant lcd.pointColor == if t == 0 then old(lcd.pointColor) else color
      invariant lcd.Dev() == dev
      invariant all == lcd.trace + PlotAll(dev, RowPoints(row, x, y + pos, t, half), color)
    {
      PointCell(lcd, row, temp, x, y, pos, t, half, color, dev, all);
      ShiftStep(row, t);
      temp := temp / 2;
      t := t + 1;
    }
  }

  /** The outer loop of mode 1. */
  method PointRows(lcd: Lcd, x: u16, y: u16, num: u8, size: u8, color: u16)
    modifies lcd`trace, lcd`pointColor
    ensures lcd.trace == old(lcd.trace) + PlotAll(lcd.Dev(), GlyphPoints(lcd.glyph, FontOf(size), num, x, y, 0, size, size / 2), color)
  {
    ghost var dev, g := lcd.Dev(), lcd.glyph;
    var half := size / 2;
    ghost var all := lcd.trace + PlotAll(dev, GlyphPoints(g, FontOf(size), num, x, y, 0, size, half), color);
    var pos: u8 := 0;
    while pos < size
      invariant pos <= size
      invariant lcd.Dev() == dev
      invariant all == lcd.trace + PlotAll(dev, GlyphPoints(g, FontOf(size), num, x, y, pos, size, half), color)
    {
      var temp := if size == 12 then lcd.glyph(Asc1206, num, pos) else lcd.glyph(Asc1608, num, pos);
      assert temp == g(FontOf(size), num, pos);
      ghost var before := lcd.trace;
      ghost var row := RowPoints(temp, x, y + pos, 0, half);
      ghost var rest := GlyphPoints(g, FontOf(size), num, x, y, pos + 1, size, half);
      assert GlyphPoints(g, FontOf(size), num, x, y, pos, size, half) == row + rest;
      PlotAllAppend(dev, row, rest, color);
      assert all == before + (PlotAll(dev, row, color) + PlotAll(dev, rest, color));
      PointRow(lcd, temp, x, y, pos, half, color);
      assert lcd.Dev() == dev;
      assert lcd.trace == before + PlotAll(dev, row, color);
      AppendAssoc(before, PlotAll(dev, row, color), PlotAll(dev, rest, color));
      pos := pos + 1;
    }
  }

  /** The two loop nests of LCD_ShowChar, chosen by `mode`. */
  method DrawGlyph(lcd: Lcd, x: u16, y: u16, color: u16, bg: u16, num: u8, size: u8, mode: u8)
    modifies lcd`trace, lcd`pointColor
    ensures lcd.trace == old(lcd.trace) + GlyphBody(lcd.Dev(), lcd.glyph, x, y, color, bg, num, size, mode)
  {
    if mode == 0 {
      WordRows(lcd, num, size, color, bg);
    } else {
      PointRows(lcd, x, y, num, size, color);
    }
  }

  /** LCD_ShowChar: the glyph of `c` at (x, y); POINT_COLOR is the same after
      the call as before it. */
  method ShowChar(lcd: Lcd, x: u16, y: u16, color: u16, bg: u16, c: u8, size: u8, mode: u8)
    modifies lcd`trace, lcd`pointColor
    ensures lcd.pointColor == old(lcd.pointColor)
    ensures lcd.trace == old(lcd.trace) + CharEvents(lcd.Dev(), lcd.glyph, x, y, color, bg, c, size, mode)
  {
    ghost var dev := lcd.Dev();
    var colortemp := lcd.pointColor;
    var num := Low8(c - 0x20);
    var xe, ye := Wrap16(x + size / 2 - 1), Wrap16(y + size - 1);
    lcd.SetWindows(x, y, xe, ye);
    ghost var framed := lcd.trace;
    DrawGlyph(lcd, x, y, color, bg, num, size, mode);
    ghost var body := GlyphBody(dev, lcd.glyph, x, y, color, bg, num, size, mode);
    lcd.pointColor := colortemp;
    lcd.SetWindows(0, 0, Wrap16(lcd.width - 1), Wrap16(lcd.height - 1));
    ghost var win := Window(dev, x, y, xe, ye);
    assert lcd.trace == old(lcd.trace) + win + body + FullWindow(dev);
    AppendAssoc(old(lcd.trace), win, body);
    AppendAssoc(old(lcd.trace), win + body, FullWindow(dev));
  }

  /*** LCD_ShowString ***/

  /** The bytes of a C string before its terminating NUL. */
  function CString(text: seq<u8>): seq<u8> {
    if text == [] || text[0] == 0 then [] else [text[0]] + CString(text[1..])
  }

  /** The bytes before the NUL are a prefix of the buffer, none of them NUL. */
  lemma {:induction false} CStringPrefix(text: seq<u8>)
    ensures 0 !in CString(text) && CString(text) <= text
  {
    if text != [] && text[0] != 0 {
      CStringPrefix(text[1..]);
    }
  }

  /** The characters LCD_ShowString draws: ' ' through '~'. */
  predicate Printable(b: u8) {
    0x20 <= b <= 0x7E
  }

  /** The printable bytes of a run, in order. */
  function Printables(s: seq<u8>): seq<u8> {
    if s == [] then [] else (if Printable(s[0]) then [s[0]] else []) + Printables(s[1..])
  }

  /** The filter keeps exactly the printable bytes: a run of printable bytes
      is kept whole, and nothing else survives. */
  lemma {:induction false} PrintablesFilter(s: seq<u8>)
    ensures |Printables(s)| <= |s|
    ensures forall i :: 0 <= i < |Printables(s)| ==> Printable(Printables(s)[i])
    ensures (forall i :: 0 <= i < |s| ==> Printable(s[i])) ==> Printables(s) == s
  {
    if s != [] {
      PrintablesFilter(s[1..]);
      assert s == [s[0]] + s[1..];
    }
  }

  /** The filter works byte by byte, in order: filtering a concatenation is
      filtering each part, and a single byte is kept exactly when it is
      printable. */
  lemma {:induction false} PrintablesAppend(s: seq<u8>, t: seq<u8>)
    ensures Printables(s + t) == Printables(s) + Printables(t)
    ensures forall b: u8 {:trigger Printables([b])} :: Printables([b]) == (if Printable(b) then [b] else [])
    decreases |s|
  {
    if s == [] {
      assert s + t == t;
    } else {
      assert (s + t)[1..] == s[1..] + t;
      PrintablesAppend(s[1..], t);
    }
    forall b: u8 ensures Printables([b]) == (if Printable(b) then [b] else []) {
      assert [b][1..] == [];
    }
  }

  /** Where a glyph of a string goes: its column and its character. */
  datatype Placement = Placement(x: u16, c: u8)

  /** Characters placed side by side from x, each `half` columns after the
      previous one, the position kept in a uint16_t. */
  function Layout(x: u16, cs: seq<u8>, half: nat): (ps: seq<Placement>)
    ensures |ps| == |cs|
    decreases |cs|
  {
    if cs == [] then [] else [Placement(x, cs[0])] + Layout(Wrap16(x + half), cs[1..], half)
  }

  /** LCD_ShowChar for each placement in turn, on row y. */
  function Draw(dev: LcdDev, g: GlyphTable, y: u16, color: u16, bg: u16,
                ps: seq<Placement>, size: u8, mode: u8): seq<Event>
    decreases |ps|
  {
    if ps == [] then []
    else CharEvents(dev, g, ps[0].x, y, color, bg, ps[0].c, size, mode) + Draw(dev, g, y, color, bg, ps[1..], size, mode)
  }

  /** LCD_ShowString: the printable characters before the NUL, side by side
      from x, size/2 columns apart. */
  function StringEvents(dev: LcdDev, g: GlyphTable, x: u16, y: u16, color: u16, bg: u16,
                        text: seq<u8>, size: u8, mode: u8): seq<Event>
  {
    Draw(dev, g, y, color, bg, Layout(x, Printables(CString(text)), size / 2), size, mode)
  }

  lemma LayoutCons(x: u16, c: u8, cs: seq<u8>, half: nat)
    ensures Layout(x, [c] + cs, half) == [Placement(x, c)] + Layout(Wrap16(x + half), cs, half)
  {
    assert ([c] + cs)[1..] == cs;
  }

  lemma DrawCons(dev: LcdDev, g: GlyphTable, y: u16, color: u16, bg: u16,
                 p: Placement, ps: seq<Placement>, size: u8, mode: u8)
    ensures Draw(dev, g, y, color, bg, [p] + ps, size, mode)
            == CharEvents(dev, g, p.x, y, color, bg, p.c, size, mode) + Draw(dev, g, y, color, bg, ps, size, mode)
  {
    assert ([p] + ps)[1..] == ps;
  }

  /** Advancing by one glyph and then by n-1 more is advancing by n glyphs. */
  lemma AdvanceStep(x: u16, half: nat, n: nat)
    requires n >= 1
    ensures Wrap16(Wrap16(x + half) + (n - 1) * half) == Wrap16(x + n * half)
  {
    Wrap16Add(x + half, (n - 1) * half);
    MulSucc(n - 1, half);
  }

  /** Character k of a run is placed at column x + k*half, kept in a uint16_t:
      the position wraps around past 0xFFFF. */
  lemma {:induction false} LayoutAt(x: u16, cs: seq<u8>, half: nat, k: nat)
    requires k < |cs|
    ensures Layout(x, cs, half)[k] == Placement(Wrap16(x + k * half), cs[k])
    decreases k
  {
    if k == 0 {
      Wrap16OfU16(x);
    } else {
      LayoutAt(Wrap16(x + half), cs[1..], half, k - 1);
      AdvanceStep(x, half, k);
    }
  }

  /** One byte of the string loop: a NUL-free byte is consumed, and it is
      drawn exactly when it is printable. */
  lemma StringStep(text: seq<u8>, i: nat)
    requires i < |text| && text[i] != 0
    ensures Printables(CString(text[i..])) == (if Printable(text[i]) then [text[i]] else []) + Printables(CString(text[i + 1..]))
  {
    assert text[i..][1..] == text[i + 1..];
    var rest := CString(text[i + 1..]);
    assert CString(text[i..]) == [text[i]] + rest;
    assert ([text[i]] + rest)[1..] == rest;
  }

  /** A printable byte other than NUL is drawn at the position, and the rest
      of the string from the next position. */
  lemma StringDrawn(dev: LcdDev, g: GlyphTable, text: seq<u8>, i: nat, cx: u16, y: u16, color: u16, bg: u16,
                    size: u8, mode: u8)
    requires i < |text| && text[i] != 0 && Printable(text[i])
    ensures Draw(dev, g, y, color, bg, Layout(cx, Printables(CString(text[i..])), size / 2), size, mode)
            == CharEvents(dev, g, cx, y, color, bg, text[i], size, mode)
               + Draw(dev, g, y, color, bg, Layout(Wrap16(cx + size / 2), Printables(CString(text[i + 1..])), size / 2), size, mode)
  {
    var rest := Printables(CString(text[i + 1..]));
    StringStep(text, i);
    LayoutCons(cx, text[i], rest, size / 2);
    DrawCons(dev, g, y, color, bg, Placement(cx, text[i]), Layout(Wrap16(cx + size / 2), rest, size / 2), size, mode);
  }

  /** One pass of the LCD_ShowString loop over a byte other than NUL: a
      printable byte is drawn at cx, which then moves on by size/2. */
  method StringByte(lcd: Lcd, text: seq<u8>, i: nat, cx: u16, y: u16, color: u16, bg: u16, size: u8, mode: u8,
                    ghost dev: LcdDev, ghost all: seq<Event>) returns (next: u16)
    requires i < |text| && text[i] != 0 && lcd.Dev() == dev
    requires all == lcd.trace + Draw(dev, lcd.glyph, y, color, bg, Layout(cx, Printables(CString(text[i..])), size / 2), size, mode)
    modifies lcd`trace, lcd`pointColor
    ensures lcd.pointColor == old(lcd.pointColor)
    ensures next == if Printable(text[i]) then Wrap16(cx + size / 2) else cx
    ensures all == lcd.trace + Draw(dev, lcd.glyph, y, color, bg, Layout(next, Printables(CString(text[i + 1..])), size / 2), size, mode)
  {
    next := cx;
    if 0x20 <= text[i] <= 0x7E {
      StringDrawn(dev, lcd.glyph, text, i, cx, y, color, bg, size, mode);
      ghost var before := lcd.trace;
      ghost var glyph := CharEvents(dev, lcd.glyph, cx, y, color, bg, text[i], size, mode);
      ghost var after := Draw(dev, lcd.glyph, y, color, bg, Layout(Wrap16(cx + size / 2), Printables(CString(text[i + 1..])), size / 2), size, mode);
      assert all == before + (glyph + after);
      ShowChar(lcd, cx, y, color, bg, text[i], size, mode);
      assert lcd.Dev() == dev;
      assert lcd.trace == before + glyph;
      AppendAssoc(before, glyph, after);
      next := Wrap16(cx + size / 2);
    } else {
      StringStep(text, i);
      assert Printables(CString(text[i..])) == Printables(CString(text[i + 1..]));
    }
  }

  /** LCD_ShowString over a NUL-terminated buffer; POINT_COLOR is the same
      after the call as before it. */
  method ShowString(lcd: Lcd, x: u16, y: u16, color: u16, bg: u16, text: seq<u8>, size: u8, mode: u8)
    requires 0 in text
    modifies lcd`trace, lcd`pointColor
    ensures lcd.pointColor == old(lcd.pointColor)
    ensures lcd.trace == old(lcd.trace) + StringEvents(lcd.Dev(), lcd.glyph, x, y, color, bg, text, size, mode)
  {
    ghost var dev := lcd.Dev();
    ghost var all := lcd.trace + StringEvents(dev, lcd.glyph, x, y, color, bg, text, size, mode);
    var cx: u16 := x;
    var i := 0;
    assert text[0..] == text;
    while text[i] != 0
      invariant 0 <= i < |text| && 0 in text[i..]
      invariant lcd.Dev() == dev && lcd.pointColor == old(lcd.pointColor)
      invariant all == lcd.trace + Draw(dev, lcd.glyph, y, color, bg, Layout(cx, Printables(CString(text[i..])), size / 2), size, mode)
      decreases |text| - i
    {
      cx := StringByte(lcd, text, i, cx, y, color, bg, size, mode, dev, all);
      assert text[i..] == [text[i]] + text[i + 1..];
      i := i + 1;
    }
  }

  /** strlen: the terminating NUL is the first NUL of the buffer, at index
      |CString(text)|. */
  lemma {:induction false} CStringLength(text: seq<u8>)
    requires 0 in text
    ensures |CString(text)| < |text| && text[|CString(text)|] == 0
  {
    if text[0] != 0 {
      assert 0 in text[1..];
      CStringLength(text[1..]);
    }
  }

  /** Nothing after the NUL is drawn. */
  lemma {:induction false} CStringExtend(text: seq<u8>, more: seq<u8>)
    requires 0 in text
    ensures CString(text + more) == CString(text)
  {
    if text[0] != 0 {
      assert (text + more)[1..] == text[1..] + more;
      assert 0 in text[1..];
      CStringExtend(text[1..], more);
    }
  }

  lemma StringStopsAtNul(dev: LcdDev, g: GlyphTable, x: u16, y: u16, color: u16, bg: u16,
                         text: seq<u8>, more: seq<u8>, size: u8, mode: u8)
    requires 0 in text
    ensures StringEvents(dev, g, x, y, color, bg, text + more, size, mode)
            == StringEvents(dev, g, x, y, color, bg, text, size, mode)
  {
    CStringExtend(text, more);
  }

  /** A byte outside ' '..'~' other than NUL is skipped without moving the
      position; a printable byte is drawn at the position, which then moves on
      by size/2. */
  lemma StringFirstByte(dev: LcdDev, g: GlyphTable, x: u16, y: u16, color: u16, bg: u16,
                        b: u8, text: seq<u8>, size: u8, mode: u8)
    requires b != 0
    ensures !Printable(b) ==> StringEvents(dev, g, x, y, color, bg, [b] + text, size, mode)
                              == StringEvents(dev, g, x, y, color, bg, text, size, mode)
    ensures Printable(b) ==> StringEvents(dev, g, x, y, color, bg, [b] + text, size, mode)
                             == CharEvents(dev, g, x, y, color, bg, b, size, mode)
                                + StringEvents(dev, g, Wrap16(x + size / 2), y, color, bg, text, size, mode)
  {
    StringStep([b] + text, 0);
    assert ([b] + text)[0..] == [b] + text && ([b] + text)[1..] == text;
    if Printable(b) {
      LayoutCons(x, b, Printables(CString(text)), size / 2);
      DrawCons(dev, g, y, color, bg, Placement(x, b), Layout(Wrap16(x + size / 2), Printables(CString(text)), size / 2), size, mode);
    } else {
      assert Printables(CString([b] + text)) == Printables(CString(text));
    }
  }


  /*** LCD_ShowNum ***/

  /** LCD_ShowNum: the characters of `num` in `len` positions, drawn in mode 0
      at x, x + size/2, ... with the colours POINT_COLOR and BACK_COLOR. */
  function NumEvents(dev: LcdDev, g: GlyphTable, x: u16, y: u16, color: u16, bg: u16,
                     num: u32, len: u8, size: u8): seq<Event>
    requires len <= 32
  {
    Draw(dev, g, y, color, bg, Layout(x, Decimal.NumCodes(num, len, true), size / 2), size, 0)
  }

  /** What LCD_ShowNum still draws from position t on. */
  function NumFrom(dev: LcdDev, g: GlyphTable, x: u16, y: u16, color: u16, bg: u16,
                   num: u32, len: u8, size: u8, t: nat, shown: bool): seq<Event>
    requires len <= 32 && t <= len
  {
    DrawFrom(dev, g, x, y, color, bg, size, 0, t, Decimal.NumCodesFrom(num, len, t, shown, true))
  }

  /** The glyphs of `codes`, the first in position t: at column
      x + t*(size/2) in uint16_t. */
  function DrawFrom(dev: LcdDev, g: GlyphTable, x: u16, y: u16, color: u16, bg: u16, size: u8, mode: u8,
                    t: nat, codes: seq<u8>): seq<Event> {
    Draw(dev, g, y, color, bg, Layout(Wrap16(x + (size / 2) * t), codes, size / 2), size, mode)
  }

  lemma NextColumn(x: u16, half: nat, t: nat)
    ensures Wrap16(Wrap16(x + half * t) + half) == Wrap16(x + half * (t + 1))
  {
    Wrap16Add(x + half * t, half);
    MulSucc(t, half);
  }

  /** The glyph in position t goes to column x + t*(size/2), the rest from
      the next column on. */
  lemma PlaceNext(dev: LcdDev, g: GlyphTable, y: u16, color: u16, bg: u16, x: u16, t: nat,
                  codes: seq<u8>, c: u8, rest: seq<u8>, size: u8, mode: u8)
    requires codes == [c] + rest
    ensures DrawFrom(dev, g, x, y, color, bg, size, mode, t, codes)
            == CharEvents(dev, g, Wrap16(x + (size / 2) * t), y, color, bg, c, size, mode)
               + DrawFrom(dev, g, x, y, color, bg, size, mode, t + 1, rest)
  {
    LayoutCons(Wrap16(x + (size / 2) * t), c, rest, size / 2);
    NextColumn(x, size / 2, t);
    DrawCons(dev, g, y, color, bg, Placement(Wrap16(x + (size / 2) * t), c),
             Layout(Wrap16(x + (size / 2) * (t + 1)), rest, size / 2), size, mode);
  }

  /** The code drawn in position t, and what remains after it. */
  lemma NumStep(num: u32, len: u8, t: u8, enshow: bool, c: u8, shown: bool)
    requires len <= 32 && t < len
    requires var d := Decimal.DigitAt(num, len, t, true);
             if !enshow && t < len - 1 && d == 0 then c == Decimal.SPACE && !shown
             else c == Decimal.ZERO + d && (shown <==> enshow || t < len - 1)
    ensures Decimal.NumCodesFrom(num, len, t, enshow, true) == [c] + Decimal.NumCodesFrom(num, len, t + 1, shown, true)
  {
  }

  /** The glyph drawn in position t, and the positions after it. */
  lemma NumPlace(dev: LcdDev, g: GlyphTable, y: u16, color: u16, bg: u16, x: u16,
                 num: u32, len: u8, size: u8, t: u8, enshow: bool, c: u8, shown: bool)
    requires len <= 32 && t < len
    requires Decimal.NumCodesFrom(num, len, t, enshow, true) == [c] + Decimal.NumCodesFrom(num, len, t + 1, shown, true)
    ensures NumFrom(dev, g, x, y, color, bg, num, len, size, t, enshow)
            == CharEvents(dev, g, Wrap16(x + (size / 2) * t), y, color, bg, c, size, 0)
               + NumFrom(dev, g, x, y, color, bg, num, len, size, t + 1, shown)
  {
    var codes, rest := Decimal.NumCodesFrom(num, len, t, enshow, true), Decimal.NumCodesFrom(num, len, t + 1, shown, true);
    PlaceNext(dev, g, y, color, bg, x, t, codes, c, rest, size, 0);
  }

  /** One pass of the LCD_ShowNum loop: digit t of num, as mypow gives its
      divisor, drawn as a space while no digit has been shown and it is a 0
      other than the last, and as its ASCII digit otherwise. */
  method NumPosition(lcd: Lcd, x: u16, y: u16, num: u32, len: u8, size: u8, t: u8, enshow: u8,
                     ghost dev: LcdDev, ghost pc: u16, ghost bc: u16, ghost all: seq<Event>) returns (shown: u8)
    requires len <= 32 && t < len && enshow <= 1
    requires lcd.Dev() == dev && lcd.pointColor == pc && lcd.backColor == bc
    requires all == lcd.trace + NumFrom(dev, lcd.glyph, x, y, pc, bc, num, len, size, t, enshow == 1)
    modifies lcd`trace, lcd`pointColor
    ensures lcd.Dev() == dev && lcd.pointColor == pc && lcd.backColor == bc && shown <= 1
    ensures all == lcd.trace + NumFrom(dev, lcd.glyph, x, y, pc, bc, num, len, size, t + 1, shown == 1)
  {
    var p := Decimal.MyPow(10, len - t - 1);
    Decimal.MyPowTenNonzero(len - t - 1);
    var temp: u8 := (num / p) % 10;
    assert temp == Decimal.DigitAt(num, len, t, true);
    shown := enshow;
    var c: u8 := temp + 0x30;
    if enshow == 0 && t < len - 1 {
      if temp == 0 {
        c := 0x20;
      } else {
        shown := 1;
      }
    }
    ghost var g := lcd.glyph;
    ghost var glyph := CharEvents(dev, g, Wrap16(x + (size / 2) * t), y, pc, bc, c, size, 0);
    ghost var after := NumFrom(dev, g, x, y, pc, bc, num, len, size, t + 1, shown == 1);
    NumStep(num, len, t, enshow == 1, c, shown == 1);
    NumPlace(dev, g, y, pc, bc, x, num, len, size, t, enshow == 1, c, shown == 1);
    assert all == lcd.trace + (glyph + after);
    ghost var before := lcd.trace;
    ShowChar(lcd, Wrap16(x + (size / 2) * t), y, lcd.pointColor, lcd.backColor, c, size, 0);
    assert lcd.Dev() == dev && lcd.pointColor == pc && lcd.backColor == bc && lcd.glyph == g;
    assert lcd.trace == before + glyph;
    AppendAssoc(before, glyph, after);
  }

  /** LCD_ShowNum; POINT_COLOR is the same after the call as before it. Beyond
      32 positions mypow(10, len-1) is 0 and the division has no meaning. */
  method ShowNum(lcd: Lcd, x: u16, y: u16, num: u32, len: u8, size: u8)
    requires len <= 32
    modifies lcd`trace, lcd`pointColor
    ensures lcd.pointColor == old(lcd.pointColor)
    ensures lcd.trace == old(lcd.trace) + NumEvents(lcd.Dev(), lcd.glyph, x, y, lcd.pointColor, lcd.backColor, num, len, size)
  {
    ghost var dev, pc, bc := lcd.Dev(), lcd.pointColor, lcd.backColor;
    ghost var all := lcd.trace + NumEvents(dev, lcd.glyph, x, y, pc, bc, num, len, size);
    var enshow: u8 := 0;
    var t: u8 := 0;
    NumEnds(dev, lcd.glyph, x, y, pc, bc, num, len, size);
    while t < len
      invariant t <= len && enshow <= 1
      invariant lcd.Dev() == dev && lcd.pointColor == pc && lcd.backColor == bc
      invariant all == lcd.trace + NumFrom(dev, lcd.glyph, x, y, pc, bc, num, len, size, t, enshow == 1)
    {
      enshow := NumPosition(lcd, x, y, num, len, size, t, enshow, dev, pc, bc, all);
      t := t + 1;
    }
    assert all == lcd.trace + [];
  }

  /** The positions from 0 on, none shown yet, are the whole of LCD_ShowNum;
      past the last position nothing remains. */
  lemma NumEnds(dev: LcdDev, g: GlyphTable, x: u16, y: u16, color: u16, bg: u16, num: u32, len: u8, size: u8)
    requires len <= 32
    ensures NumFrom(dev, g, x, y, color, bg, num, len, size, 0, false) == NumEvents(dev, g, x, y, color, bg, num, len, size)
    ensures NumFrom(dev, g, x, y, color, bg, num, len, size, len, false) == []
    ensures NumFrom(dev, g, x, y, color, bg, num, len, size, len, true) == []
  {
    Wrap16OfU16(x);
    assert Wrap16(x + (size / 2) * 0) == x;
  }

  /** A run without NUL, terminated, is read back whole as a C string. */
  lemma {:induction false} CStringOfTerminated(s: seq<u8>)
    requires 0 !in s
    ensures CString(s + [0]) == s
  {
    if s != [] {
      assert (s + [0])[1..] == s[1..] + [0];
      CStringOfTerminated(s[1..]);
      assert s == [s[0]] + s[1..];
    } else {
      assert s + [0] == [0];
    }
  }

  /** LCD_ShowNum draws what LCD_ShowString draws, in mode 0, for the string of
      its digit characters: every one of them is a space or a decimal digit. */
  lemma NumAsString(dev: LcdDev, g: GlyphTable, x: u16, y: u16, color: u16, bg: u16, num: u32, len: u8, size: u8)
    requires len <= 32
    ensures forall i :: 0 <= i < |Decimal.NumCodes(num, len, true)| ==>
              Decimal.NumCodes(num, len, true)[i] == Decimal.SPACE
              || Decimal.ZERO <= Decimal.NumCodes(num, len, true)[i] <= Decimal.ZERO + 9
    ensures NumEvents(dev, g, x, y, color, bg, num, len, size)
            == StringEvents(dev, g, x, y, color, bg, Decimal.NumCodes(num, len, true) + [0], size, 0)
  {
    var codes := Decimal.NumCodes(num, len, true);
    Decimal.NumCodesShape(num, len, true);
    assert forall i :: 0 <= i < |codes| ==> Printable(codes[i]) && codes[i] != 0;
    CStringOfTerminated(codes);
    PrintablesFilter(codes);
  }

  /*** LCD_ShowCentredString ***/

  /** The left column of a centred string: (width - len*size/2) / 2 in C
      `int` arithmetic (truncating), stored in a uint16_t. */
  function CentredX(width: u16, len: u16, size: u8): u16 {
    Wrap16(CDiv(width - len * size / 2, 2))
  }

  /** The top row of a centred string: (height - size) / 2, stored in a uint16_t. */
  function CentredY(height: u16, size: u8): u16 {
    Wrap16(CDiv(height - size, 2))
  }

  /** LCD_ShowCentredString; the string's length is taken with strlen and
      stored in a uint16_t. */
  method ShowCentredString(lcd: Lcd, color: u16, bg: u16, text: seq<u8>, size: u8, mode: u8)
    requires 0 in text
    modifies lcd`trace, lcd`pointColor
    ensures lcd.pointColor == old(lcd.pointColor)
    ensures lcd.trace == old(lcd.trace)
            + StringEvents(lcd.Dev(), lcd.glyph, CentredX(lcd.width, Wrap16(|CString(text)|), size),
                           CentredY(lcd.height, size), color, bg, text, size, mode)
  {
    var len: u16 := Wrap16(|CString(text)|);
    var x1: u16 := Wrap16(CDiv(lcd.width - len * size / 2, 2));
    var y1: u16 := Wrap16(CDiv(lcd.height - size, 2));
    assert x1 == CentredX(lcd.width, Wrap16(|CString(text)|), size);
    assert y1 == CentredY(lcd.height, size);
    ghost var dev := lcd.Dev();
    ghost var drawn := StringEvents(dev, lcd.glyph, x1, y1, color, bg, text, size, mode);
    ShowString(lcd, x1, y1, color, bg, text, size, mode);
    assert lcd.Dev() == dev;
    assert lcd.trace == old(lcd.trace) + drawn;
  }

  /** When the string fits, the columns left free on its two sides differ by
      at most one; for an even size the footprint len*size/2 the centring uses
      is the width len*(size/2) the glyphs take. */
  lemma CentredMargins(width: u16, len: u16, size: u8)
    requires len * size / 2 <= width
    ensures var x1, foot := CentredX(width, len, size), len * size / 2;
            x1 + foot + x1 <= width <= x1 + foot + x1 + 1
    ensures size % 2 == 0 ==> len * size / 2 == len * (size / 2)
  {
    var foot := len * size / 2;
    var room := width - foot;
    var q := CDiv(room, 2);
    assert q == room / 2;
    assert 0 <= q <= width;
    assert CentredX(width, len, size) == q;
    assert 2 * q <= room <= 2 * q + 1;
    if size % 2 == 0 {
      var h := size / 2;
      assert len * size == 2 * (len * h);
    }
  }

  /** When the glyph fits the height, the rows left free above and below differ
      by at most one. */
  lemma CentredRows(height: u16, size: u8)
    requires size <= height
    ensures var y1 := CentredY(height, size);
            y1 + size + y1 <= height <= y1 + size + y1 + 1
  {
  }

  /** A string wider than the screen by two columns or more starts at a column
      that has wrapped around below 65536: (width - foot) / 2 truncates toward
      zero, and the negative result is stored in a uint16_t. */
  lemma CentredTooWide(width: u16, len: u16, size: u8)
    requires width + 2 <= len * size / 2 < width + 0x20000
    ensures CentredX(width, len, size) == 0x10000 - (len * size / 2 - width) / 2
  {
  }

  /** "OK" at size 16 on the 128x160 panel starts at column 56, row 72. */
  lemma CentredOk()
    ensures CentredX(128, 2, 16) == 56 && CentredY(160, 16) == 72
  {
  }
}
