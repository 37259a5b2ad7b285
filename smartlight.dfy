/** The LED state machine of smartlight.c: two LED states that start at 0, a
    toggle that flips one of them and redraws the status text, and the button
    dispatch that calls it. The GPIO writes are left out; the redraw is the
    bus traffic of LCD_Update. */
module SmartLight {
  import opened Bus
  import opened Display
  import opened Text

  /** The GPIO pins of the two buttons. */
  const BUTTON_NEXT := 15
  const BUTTON_BACK := 16

  /** The status rows of LCD_Update and their background colours. */
  const STATUS_X: u16 := 110
  const STATUS1_Y: u16 := 60
  const STATUS2_Y: u16 := 80
  const STATUS1_BG: u16 := 0xDE79
  const STATUS2_BG: u16 := 0xA732
  const STATUS_SIZE: u8 := 15

  /** The buffer snprintf fills: "ON " or "OFF" and its NUL. */
  const ON_TEXT: seq<u8> := [0x4F, 0x4E, 0x20, 0]
  const OFF_TEXT: seq<u8> := [0x4F, 0x46, 0x46, 0]

  /** The status text for an LED state, as C's truth test reads it. */
  function StatusText(state: int): seq<u8> {
    if state != 0 then ON_TEXT else OFF_TEXT
  }

  /** The status colour for an LED state: BLUE when on, RED when off. */
  function StatusColor(state: int): u16 {
    if state != 0 then BLUE else RED
  }

  /** The bus traffic of LCD_Update: the status of LED 1 on row 60, then
      that of LED 2 on row 80, in mode 0. */
  function UpdateEvents(dev: LcdDev, g: GlyphTable, led1: int, led2: int): seq<Event> {
    StringEvents(dev, g, STATUS_X, STATUS1_Y, StatusColor(led1), STATUS1_BG, StatusText(led1), STATUS_SIZE, 0)
    + StringEvents(dev, g, STATUS_X, STATUS2_Y, StatusColor(led2), STATUS2_BG, StatusText(led2), STATUS_SIZE, 0)
  }

  /** The values an LED state ever holds: 0 (off) and 1 (on). */
  predicate Binary(state: int) {
    state == 0 || state == 1
  }

  /** `1 - state`, the update of Toggle_Led. */
  function Toggled(state: int): int {
    1 - state
  }

  /** On the states 0 and 1 the update is a swap: it stays in {0, 1}, always
      changes the state, and undoes itself. */
  lemma ToggleSwaps(state: int)
    requires Binary(state)
    ensures Binary(Toggled(state))
    ensures Toggled(state) != state && (Toggled(state) != 0 <==> state == 0)
    ensures Toggled(Toggled(state)) == state
  {
  }

  /** A buffer of three printable characters and a NUL is drawn whole: its
      three characters placed size/2 columns apart from x. */
  lemma ThreeCells(dev: LcdDev, g: GlyphTable, x: u16, y: u16, color: u16, bg: u16, t: seq<u8>, size: u8)
    requires |t| == 4 && Printable(t[0]) && Printable(t[1]) && Printable(t[2]) && t[3] == 0
    ensures StringEvents(dev, g, x, y, color, bg, t, size, 0) == Draw(dev, g, y, color, bg, Layout(x, t[..3], size / 2), size, 0)
    ensures forall k :: 0 <= k < 3 ==> Layout(x, t[..3], size / 2)[k] == Placement(Wrap16(x + k * (size / 2)), t[k])
  {
    var s := t[..3];
    assert t == s + [0];
    assert forall i :: 0 <= i < |s| ==> Printable(s[i]);
    CStringOfTerminated(s);
    PrintablesFilter(s);
    forall k | 0 <= k < 3
      ensures Layout(x, s, size / 2)[k] == Placement(Wrap16(x + k * (size / 2)), t[k])
    {
      LayoutAt(x, s, size / 2, k);
    }
  }

  /** Whatever the state, the status buffer holds three printable characters
      and a NUL, so LCD_Update always draws three glyphs per LED: "ON " is
      padded so that it covers all of "OFF". */
  lemma StatusTextShape(state: int)
    ensures var t := StatusText(state);
            |t| == 4 && Printable(t[0]) && Printable(t[1]) && Printable(t[2]) && t[3] == 0
    ensures state != 0 <==> StatusText(state)[1] == 0x4E
  {
  }

  /** One status row of LCD_Update: the glyphs "ON " (or "OFF" when the LED
      is off) placed at columns 110, 117 and 124; StringEvents draws exactly
      these placements in mode 0. */
  lemma StatusRow(state: int)
    ensures Layout(STATUS_X, Printables(CString(StatusText(state))), STATUS_SIZE / 2)
            == if state != 0 then [Placement(110, 0x4F), Placement(117, 0x4E), Placement(124, 0x20)]
               else [Placement(110, 0x4F), Placement(117, 0x46), Placement(124, 0x46)]
  {
    var t := StatusText(state);
    StatusTextShape(state);
    var s := t[..3];
    assert t == s + [0];
    assert forall i :: 0 <= i < |s| ==> Printable(s[i]);
    CStringOfTerminated(s);
    PrintablesFilter(s);
    var ps := Layout(STATUS_X, s, STATUS_SIZE / 2);
    LayoutAt(STATUS_X, s, STATUS_SIZE / 2, 0);
    LayoutAt(STATUS_X, s, STATUS_SIZE / 2, 1);
    LayoutAt(STATUS_X, s, STATUS_SIZE / 2, 2);
    assert |ps| == 3;
  }

  /** The application state: the two LED states and the panel they are shown
      on. */
  class Lights {
    var led1: int
    var led2: int
    const lcd: Lcd

    /** Both LEDs start off. */
    constructor (lcd: Lcd)
      ensures this.lcd == lcd && led1 == 0 && led2 == 0
    {
      this.lcd := lcd;
      led1, led2 := 0, 0;
    }

    /** LCD_Update. */
    method LcdUpdate()
      modifies lcd`trace, lcd`pointColor
      ensures lcd.pointColor == old(lcd.pointColor)
      ensures lcd.trace == old(lcd.trace) + UpdateEvents(lcd.Dev(), lcd.glyph, led1, led2)
    {
      ghost var dev := lcd.Dev();
      ghost var first := StringEvents(dev, lcd.glyph, STATUS_X, STATUS1_Y, StatusColor(led1), STATUS1_BG, StatusText(led1), STATUS_SIZE, 0);
      ghost var second := StringEvents(dev, lcd.glyph, STATUS_X, STATUS2_Y, StatusColor(led2), STATUS2_BG, StatusText(led2), STATUS_SIZE, 0);
      var buffer: seq<u8> := if led1 != 0 then ON_TEXT else OFF_TEXT;
      ShowString(lcd, 110, 60, if led1 != 0 then BLUE else RED, 0xDE79, buffer, 15, 0);
      assert lcd.Dev() == dev && lcd.trace == old(lcd.trace) + first;
      buffer := if led2 != 0 then ON_TEXT else OFF_TEXT;
      ghost var mid := lcd.trace;
      ShowString(lcd, 110, 80, if led2 != 0 then BLUE else RED, 0xA732, buffer, 15, 0);
      assert lcd.Dev() == dev && lcd.trace == mid + second;
      AppendAssoc(old(lcd.trace), first, second);
    }

    /** Toggle_Led: LED 1 or 2 flips its state and the status is redrawn;
        any other number changes nothing. */
    method ToggleLed(led: u8)
      modifies this`led1, this`led2, lcd`trace, lcd`pointColor
      ensures Binary(old(led1)) && Binary(old(led2)) ==> Binary(led1) && Binary(led2)
      ensures lcd.pointColor == old(lcd.pointColor)
      ensures led == 1 ==> led1 == Toggled(old(led1)) && led2 == old(led2)
      ensures led == 2 ==> led2 == Toggled(old(led2)) && led1 == old(led1)
      ensures led == 1 || led == 2 ==> lcd.trace == old(lcd.trace) + UpdateEvents(lcd.Dev(), lcd.glyph, led1, led2)
      ensures led != 1 && led != 2 ==> led1 == old(led1) && led2 == old(led2) && lcd.trace == old(lcd.trace)
    {
      if led == 1 {
        led1 := 1 - led1;
        ghost var l1, l2 := led1, led2;
        assert Binary(old(led1)) ==> Binary(l1);
        LcdUpdate();
        assert led1 == l1 && led2 == l2;
      } else if led == 2 {
        led2 := 1 - led2;
        ghost var l1, l2 := led1, led2;
        assert Binary(old(led2)) ==> Binary(l2);
        LcdUpdate();
        assert led1 == l1 && led2 == l2;
      }
    }

    /** input_event_callback: the BACK button toggles LED 1, the NEXT button
        LED 2, any other pin nothing. */
    method InputEventCallback(pin: int)
      modifies this`led1, this`led2, lcd`trace, lcd`pointColor
      ensures Binary(old(led1)) && Binary(old(led2)) ==> Binary(led1) && Binary(led2)
      ensures lcd.pointColor == old(lcd.pointColor)
      ensures pin == BUTTON_BACK ==> led1 == Toggled(old(led1)) && led2 == old(led2)
      ensures pin == BUTTON_NEXT ==> led2 == Toggled(old(led2)) && led1 == old(led1)
      ensures pin == BUTTON_BACK || pin == BUTTON_NEXT ==>
                lcd.trace == old(lcd.trace) + UpdateEvents(lcd.Dev(), lcd.glyph, led1, led2)
      ensures pin != BUTTON_BACK && pin != BUTTON_NEXT ==>
                led1 == old(led1) && led2 == old(led2) && lcd.trace == old(lcd.trace)
    {
      if pin == BUTTON_BACK {
        ToggleLed(1);
      }
      if pin == BUTTON_NEXT {
        ToggleLed(2);
      }
    }
  }
}
