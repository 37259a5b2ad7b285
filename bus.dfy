/** Bus transport of the ST7735S driver: the fixed-width integers of the C code,
    the three kinds of bus transaction, and what each puts on the wire. */
module Bus {

  type u8 = x: int | 0 <= x < 0x100
  type u16 = x: int | 0 <= x < 0x1_0000
  type u32 = x: int | 0 <= x < 0x1_0000_0000

  datatype Option<T> = None | Some(value: T)

  /** Conversion of a C `int` to `uint8_t`: reduction modulo 2^8. */
  function Low8(x: int): u8 { x % 0x100 }

  /** Conversion of a C `int` to `uint16_t`: reduction modulo 2^16. */
  function Wrap16(x: int): u16 { x % 0x1_0000 }

  /** Conversion of a C `int` to `uint32_t`: reduction modulo 2^32. */
  function Wrap32(x: int): u32 { x % 0x1_0000_0000 }

  /** A value that fits in a `uint16_t` is unchanged by the conversion. */
  lemma Wrap16OfU16(x: u16)
    ensures Wrap16(x) == x
  {
  }

  /** Storing a value in a `uint16_t` and then writing it as one byte gives the
      same byte as writing it directly. */
  lemma Low8OfWrap16(x: int)
    ensures Low8(Wrap16(x)) == Low8(x)
  {
    var q := x / 0x1_0000;
    assert x == q * 0x1_0000 + Wrap16(x);
    assert q * 0x1_0000 == (q * 0x100) * 0x100;
  }

  /** Division with remainder has one answer. */
  lemma ModUnique(n: int, q: int, r: int, m: int)
    requires m > 0 && 0 <= r < m && n == q * m + r
    ensures n / m == q && n % m == r
  {
    var q', r' := n / m, n % m;
    assert (q - q') * m == r' - r;
    if q - q' >= 1 {
      assert false;
    } else if q - q' <= -1 {
      assert false;
    }
  }

  /** Storing an intermediate result in a `uint16_t` before adding does not
      change the stored sum. */
  lemma Wrap16Add(a: int, b: int)
    ensures Wrap16(Wrap16(a) + b) == Wrap16(a + b)
  {
    var q, p := a / 0x1_0000, (a + b) / 0x1_0000;
    assert Wrap16(a) + b == (p - q) * 0x1_0000 + Wrap16(a + b);
    ModUnique(Wrap16(a) + b, p - q, Wrap16(a + b), 0x1_0000);
  }

  /** Storing an intermediate product in a `uint32_t` before multiplying
      again does not change the stored product. */
  lemma Wrap32Mul(a: int, b: int)
    ensures Wrap32(Wrap32(a) * b) == Wrap32(a * b)
  {
    var m := 0x1_0000_0000;
    var q, r := a / m, Wrap32(a);
    var p, s := (r * b) / m, Wrap32(r * b);
    assert a == q * m + r;
    assert a * b == (q * m + r) * b == q * b * m + r * b;
    assert r * b == p * m + s;
    assert a * b == (q * b + p) * m + s;
    ModUnique(a * b, q * b + p, s, m);
  }

  /** C's `/` on `int`, which truncates toward zero (Dafny's `/` is Euclidean). */
  function CDiv(a: int, b: int): (q: int)
    requires b != 0
    ensures b > 0 && a >= 0 ==> q == a / b
  {
    if a >= 0 then (if b > 0 then a / b else -(a / -b))
    else (if b > 0 then -((-a) / b) else (-a) / (-b))
  }

  lemma DivOfMultiple(d: nat, k: int)
    requires k > 0
    ensures k * d >= 0 && (k * d) / k == d
  {
    var q, r := (k * d) / k, (k * d) % k;
    assert k * d == k * q + r && 0 <= r < k;
    assert k * (d - q) == r;
    if d - q >= 1 {
      assert false;
    } else if d - q <= -1 {
      assert false;
    }
  }

  /** Dividing `k` steps of a slope `d` by `k` gives back `d` exactly. */
  lemma CDivExact(d: int, k: int)
    requires k > 0
    ensures CDiv(k * d, k) == d
  {
    if d >= 0 {
      DivOfMultiple(d, k);
    } else {
      assert -(k * d) == k * (-d);
      DivOfMultiple(-d, k);
    }
  }

  /** One bus transaction, as LCD_WR_REG, LCD_WR_DATA8 and LCD_WR_DATA perform it:
      a command byte with the command/data line low, a data byte with the line
      high, or a 16-bit data word with the line high. */
  datatype Event = Cmd(b: u8) | Data8(b: u8) | Data16(w: u16)

  /** What one transaction puts on the wire between chip-select low and high:
      the level of the command/data line and the bytes shifted out. */
  datatype Transaction = Transaction(dataLine: bool, bytes: seq<u8>)

  /** The wire image of an event: a 16-bit word goes out high byte first, then
      low byte, under a single chip-select. */
  function Frame(e: Event): (t: Transaction)
    ensures t.dataLine <==> !e.Cmd?
    ensures |t.bytes| == (if e.Data16? then 2 else 1)
    ensures e.Data16? ==> t.bytes[0] as int * 0x100 + t.bytes[1] == e.w
    ensures !e.Data16? ==> t.bytes[0] == e.b
  {
    match e
    case Cmd(b) => Transaction(false, [b])
    case Data8(b) => Transaction(true, [b])
    case Data16(w) => Transaction(true, [w / 0x100, w % 0x100])
  }

  /** How the panel reads one transaction back into an event. */
  function Unframe(t: Transaction): Option<Event> {
    if !t.dataLine && |t.bytes| == 1 then Some(Cmd(t.bytes[0]))
    else if t.dataLine && |t.bytes| == 1 then Some(Data8(t.bytes[0]))
    else if t.dataLine && |t.bytes| == 2 then Some(Data16(t.bytes[0] as int * 0x100 + t.bytes[1]))
    else None
  }

  /** Framing loses nothing: every event is recovered from its wire image. */
  lemma UnframeFrame(e: Event)
    ensures Unframe(Frame(e)) == Some(e)
  {
  }

  /** The pixel words a transcript streams: its Data16 payloads, in order. */
  function Pixels(evs: seq<Event>): seq<u16> {
    if evs == [] then []
    else if evs[|evs| - 1].Data16? then Pixels(evs[..|evs| - 1]) + [evs[|evs| - 1].w]
    else Pixels(evs[..|evs| - 1])
  }

  lemma {:induction false} PixelsAppend(a: seq<Event>, b: seq<Event>)
    ensures Pixels(a + b) == Pixels(a) + Pixels(b)
    decreases |b|
  {
    if b == [] {
      assert a + b == a;
    } else {
      var b' := b[..|b| - 1];
      assert (a + b)[..|a + b| - 1] == a + b';
      PixelsAppend(a, b');
    }
  }

  /** A transcript without Data16 events streams no pixels. */
  lemma {:induction false} PixelsOfNonPixels(evs: seq<Event>)
    requires forall i :: 0 <= i < |evs| ==> !evs[i].Data16?
    ensures Pixels(evs) == []
  {
    if evs != [] {
      PixelsOfNonPixels(evs[..|evs| - 1]);
    }
  }

  /** The Data16 events that stream a run of pixel words, in order. */
  function Words(ws: seq<u16>): seq<Event> {
    seq(|ws|, i requires 0 <= i < |ws| => Data16(ws[i]))
  }

  lemma WordsAppend(a: seq<u16>, b: seq<u16>)
    ensures Words(a + b) == Words(a) + Words(b)
  {
  }

  /** A run of pixel words streams exactly those words. */
  lemma {:induction false} PixelsWords(ws: seq<u16>)
    ensures Pixels(Words(ws)) == ws
    decreases |ws|
  {
    if ws != [] {
      var ws' := ws[..|ws| - 1];
      assert Words(ws)[..|ws| - 1] == Words(ws');
      PixelsWords(ws');
      assert ws == ws' + [ws[|ws| - 1]];
    }
  }

  /** Appending to a transcript in two steps is appending the two parts. */
  lemma AppendAssoc(a: seq<Event>, b: seq<Event>, c: seq<Event>)
    ensures (a + b) + c == a + (b + c)
  {
  }

  /** `n` copies of one event. */
  function Repeat(e: Event, n: nat): seq<Event> {
    seq(n, _ => e)
  }

  /** Appending one more copy to a transcript ending in a run extends the run. */
  lemma RepeatSnoc(t: seq<Event>, e: Event, n: nat)
    ensures (t + Repeat(e, n)) + [e] == t + Repeat(e, n + 1)
  {
    assert Repeat(e, n) + [e] == Repeat(e, n + 1);
  }

  /** A run of one 16-bit word streams that word, and nothing else, `n` times. */
  lemma {:induction false} PixelsRepeat(w: u16, n: nat)
    ensures Pixels(Repeat(Data16(w), n)) == seq(n, _ => w)
  {
    if n > 0 {
      assert Repeat(Data16(w), n)[..n - 1] == Repeat(Data16(w), n - 1);
      PixelsRepeat(w, n - 1);
    }
  }
}
