/** The raster blits of GUI.c: LCD_DrawBMP16, a 40x40 image stored as pairs of
    little-endian bytes, and LCD_ShowImg, a whole image array of 16-bit words.
    The image arrays are inputs of the model. */
module Image {
  import opened Bus
  import opened Display
  import Gui

  /*** LCD_DrawBMP16 ***/

  /** The side of the square LCD_DrawBMP16 draws. */
  const BMP_SIDE := 40

  /** picH<<8|picL: the shifted high byte and the low byte have no bit in common,
      so their OR is their sum. */
  function BmpWord(lo: u8, hi: u8): u16 {
    hi * 0x100 + lo
  }

  /** The 1600 pixel words of a 40x40 image, row-major, pixel i from bytes 2i
      (low) and 2i+1 (high). */
  function BmpWords(p: seq<u8>): seq<u16>
    requires |p| >= 2 * BMP_SIDE * BMP_SIDE
  {
    seq(BMP_SIDE * BMP_SIDE, i requires 0 <= i < BMP_SIDE * BMP_SIDE => BmpWord(p[2 * i], p[2 * i + 1]))
  }

  /** The bus traffic of LCD_DrawBMP16: the 40x40 window at (x, y), the pixel
      words, then the full-screen window. */
  function BmpEvents(dev: LcdDev, x: u16, y: u16, p: seq<u8>): seq<Event>
    requires |p| >= 2 * BMP_SIDE * BMP_SIDE
  {
    Window(dev, x, y, Wrap16(x + BMP_SIDE - 1), Wrap16(y + BMP_SIDE - 1)) + Words(BmpWords(p)) + FullWindow(dev)
  }

  /** Streaming one more word of a run. */
  lemma WordsSnoc(words: seq<u16>, i: nat)
    requires i < |words|
    ensures Words(words[..i + 1]) == Words(words[..i]) + [Data16(words[i])]
  {
    assert words[..i + 1] == words[..i] + [words[i]];
    WordsAppend(words[..i], [words[i]]);
  }

  /** LCD_DrawBMP16. */
  method DrawBMP16(lcd: Lcd, x: u16, y: u16, p: seq<u8>)
    requires |p| >= 2 * BMP_SIDE * BMP_SIDE
    modifies lcd`trace
    ensures lcd.trace == old(lcd.trace) + BmpEvents(lcd.Dev(), x, y, p)
  {
    lcd.SetWindows(x, y, Wrap16(x + 40 - 1), Wrap16(y + 40 - 1));
    ghost var t0 := lcd.trace;
    ghost var words := BmpWords(p);
    var i := 0;
    while i < 40 * 40
      invariant 0 <= i <= 40 * 40
      invariant lcd.trace == t0 + Words(words[..i])
    {
      var picL: u8 := p[i * 2];
      var picH: u8 := p[i * 2 + 1];
      assert picH * 0x100 + picL == words[i];
      ghost var before := lcd.trace;
      WordsSnoc(words, i);
      lcd.WrData(picH * 0x100 + picL);
      assert lcd.trace == before + [Data16(words[i])];
      AppendAssoc(t0, Words(words[..i]), [Data16(words[i])]);
      i := i + 1;
    }
    assert words[..40 * 40] == words;
    lcd.SetWindows(0, 0, Wrap16(lcd.width - 1), Wrap16(lcd.height - 1));
  }

  /** The panel gets the 40x40 window at (x, y) (coordinates truncated to a
      byte), exactly the 1600 pixel words, and the full-screen window last. */
  lemma BmpFrame(dev: LcdDev, x: u16, y: u16, p: seq<u8>)
    requires |p| >= 2 * BMP_SIDE * BMP_SIDE
    ensures var evs := BmpEvents(dev, x, y, p);
            |BmpWords(p)| == BMP_SIDE * BMP_SIDE
            && Pixels(evs) == BmpWords(p)
            && WindowOf(dev, evs[..11]) == Some((Low8(x), Low8(y), Low8(x + BMP_SIDE - 1), Low8(y + BMP_SIDE - 1)))
            && evs[|evs| - 11..] == FullWindow(dev)
  {
    var xe, ye := Wrap16(x + BMP_SIDE - 1), Wrap16(y + BMP_SIDE - 1);
    Gui.FramedPixels(dev, x, y, xe, ye, Words(BmpWords(p)));
    PixelsWords(BmpWords(p));
    WindowRoundTrip(dev, x, y, xe, ye);
    Low8OfWrap16(x + BMP_SIDE - 1);
    Low8OfWrap16(y + BMP_SIDE - 1);
  }

  /** The byte pairs of the image are swapped on the way out: pixel i goes on
      the wire as byte 2i+1, then byte 2i, so the panel's high-byte-first
      reading gives back the little-endian value of the pair. */
  lemma BmpWire(p: seq<u8>, i: nat)
    requires |p| >= 2 * BMP_SIDE * BMP_SIDE && i < BMP_SIDE * BMP_SIDE
    ensures Frame(Data16(BmpWords(p)[i])) == Transaction(true, [p[2 * i + 1], p[2 * i]])
    ensures BmpWords(p)[i] == p[2 * i] as int + 0x100 * p[2 * i + 1] as int
  {
    var lo: int, hi: int := p[2 * i], p[2 * i + 1];
    ModUnique(hi * 0x100 + lo, hi, lo, 0x100);
  }

  /*** LCD_ShowImg ***/

  /** The words of entries 1..n of the image array (none when n is 0). */
  function ImgPrefix(img: seq<u16>, n: nat): seq<u16>
    requires n == 0 || n < |img|
  {
    if n == 0 then [] else img[1..n + 1]
  }

  /** The bus traffic of LCD_ShowImg: the window from (0, 0) to
      (width-1, height-1) in uint16_t, then width*height words read from the
      array one entry past each pixel's row-major position; the full-screen
      window is not restored. */
  function ImgEvents(dev: LcdDev, width: u8, height: u8, img: seq<u16>): seq<Event>
    requires width * height == 0 || width * height < |img|
  {
    Window(dev, 0, 0, Wrap16(width - 1), Wrap16(height - 1)) + Words(ImgPrefix(img, width * height))
  }

  /** One more entry of the array streams one more word. */
  lemma PrefixSnoc(img: seq<u16>, n: nat)
    requires n + 1 < |img|
    ensures Words(ImgPrefix(img, n + 1)) == Words(ImgPrefix(img, n)) + [Data16(img[n + 1])]
  {
    assert ImgPrefix(img, n + 1) == ImgPrefix(img, n) + [img[n + 1]];
    WordsAppend(ImgPrefix(img, n), [img[n + 1]]);
  }

  /** Word i of the first n is entry i + 1. */
  lemma PrefixAt(img: seq<u16>, n: nat, i: nat)
    requires i < n < |img|
    ensures |ImgPrefix(img, n)| == n && ImgPrefix(img, n)[i] == img[i + 1]
  {
  }

  /** Row-major position (y, x) lies inside a width x height image of at
      most 255 x 255 pixels. */
  lemma RowMajorBelow(y: nat, x: nat, width: u8, height: u8)
    requires y < height && x < width
    ensures y * width + x < width * height <= 255 * 255
  {
    assert (y + 1) * width == y * width + width;
    MulMono(y + 1, height, width);
    assert height * width == width * height;
    MulMono(width, 255, height);
  }

  lemma MulMono(a: nat, b: nat, c: nat)
    requires a <= b
    ensures a * c <= b * c
  {
  }

  /** LCD_ShowImg; the array must hold an entry at every index the loops read,
      1 to width*height. */
  method ShowImg(lcd: Lcd, width: u8, height: u8, img: seq<u16>)
    requires width * height == 0 || width * height < |img|
    modifies lcd`trace
    ensures lcd.trace == old(lcd.trace) + ImgEvents(lcd.Dev(), width, height, img)
  {
    lcd.SetWindows(0, 0, Wrap16(width - 1), Wrap16(height - 1));
    ghost var t0, n := lcd.trace, 0;
    var y: u16 := 0;
    while y < height
      invariant y <= height && n == y * width && n <= width * height
      invariant lcd.trace == t0 + Words(ImgPrefix(img, n))
    {
      var x: u16 := 0;
      while x < width
        invariant x <= width && n == y * width + x && n <= width * height
        invariant lcd.trace == t0 + Words(ImgPrefix(img, n))
      {
        RowMajorBelow(y, x, width, height);
        var index: u32 := (y * width + x) + 1;
        assert index == n + 1;
        var color: u16 := img[index];
        ghost var before := lcd.trace;
        PrefixSnoc(img, n);
        lcd.WrData(color);
        assert lcd.trace == before + [Data16(img[n + 1])];
        AppendAssoc(t0, Words(ImgPrefix(img, n)), [Data16(img[n + 1])]);
        x, n := x + 1, n + 1;
      }
      assert (y + 1) * width == y * width + width;
      y := y + 1;
    }
    assert n == width * height;
  }

  /** The pixel words of LCD_ShowImg are array entries 1 to width*height. */
  lemma ImgPixels(dev: LcdDev, width: u8, height: u8, img: seq<u16>)
    requires width * height == 0 || width * height < |img|
    ensures Pixels(ImgEvents(dev, width, height, img)) == ImgPrefix(img, width * height)
    ensures |ImgPrefix(img, width * height)| == width * height
  {
    var w := Window(dev, 0, 0, Wrap16(width - 1), Wrap16(height - 1));
    var words := ImgPrefix(img, width * height);
    WindowRoundTrip(dev, 0, 0, Wrap16(width - 1), Wrap16(height - 1));
    PixelsAppend(w, Words(words));
    PixelsWords(words);
  }

  /** The panel gets width*height pixel words, the one for row r, column c
      being the array entry at r*width + c + 1, one past the pixel's
      position. */
  lemma ImgPixelAt(dev: LcdDev, width: u8, height: u8, img: seq<u16>, r: nat, c: nat)
    requires width * height == 0 || width * height < |img|
    requires r < height && c < width
    ensures var px := Pixels(ImgEvents(dev, width, height, img));
            |px| == width * height && r * width + c < |px| && px[r * width + c] == img[r * width + c + 1]
  {
    RowMajorBelow(r, c, width, height);
    ImgPixels(dev, width, height, img);
    PrefixAt(img, width * height, r * width + c);
  }

  /** LCD_ShowImg leaves the window it set, not the full screen: its
      transcript is that window and then pixel data only. */
  lemma ImgNoRestore(dev: LcdDev, width: u8, height: u8, img: seq<u16>)
    requires width * height == 0 || width * height < |img|
    ensures var evs := ImgEvents(dev, width, height, img);
            |evs| == 11 + width * height
            && WindowOf(dev, evs[..11]) == Some((0, 0, Low8(width - 1) as int, Low8(height - 1) as int))
            && forall i :: 11 <= i < |evs| ==> evs[i].Data16?
  {
    var w := Window(dev, 0, 0, Wrap16(width - 1), Wrap16(height - 1));
    var evs := ImgEvents(dev, width, height, img);
    WindowRoundTrip(dev, 0, 0, Wrap16(width - 1), Wrap16(height - 1));
    assert evs[..11] == w;
    Low8OfWrap16(width - 1);
    Low8OfWrap16(height - 1);
  }

  /** The call LCD_ShowImg(161, 130) programs columns 0..160 and rows 0..129
      and reads entries 1..20930 of the array. */
  lemma ImgStartupCall(dev: LcdDev, img: seq<u16>)
    requires |img| > 161 * 130
    ensures var evs := ImgEvents(dev, 161, 130, img);
            WindowOf(dev, evs[..11]) == Some((0, 0, 160, 129))
            && Pixels(evs) == img[1..20931]
  {
    ImgNoRestore(dev, 161, 130, img);
    var w := Window(dev, 0, 0, 160, 129);
    WindowRoundTrip(dev, 0, 0, 160, 129);
    PixelsAppend(w, Words(img[1..20931]));
    PixelsWords(img[1..20931]);
  }
}
