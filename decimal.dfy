/** The decimal digits of LCD_ShowNum and the power function `mypow` they
    divide by. `mypow` keeps its product in a uint32_t, so from 10^10 on the
    divisor is 10^e reduced modulo 2^32; the digit codes are defined for both
    divisors, as the code computes them (`wrapped`) and as decimal digits
    are meant (`!wrapped`). */
module Decimal {
  import opened Bus

  /*** Powers ***/

  function Pow(b: nat, e: nat): (p: nat)
    ensures b >= 1 ==> p >= 1
  {
    if e == 0 then 1 else Pow(b, e - 1) * b
  }

  /** mypow: the loop multiplies a uint32_t result by `base` `exp` times. */
  method MyPow(base: u32, exp: u8) returns (result: u32)
    ensures result == Wrap32(Pow(base, exp))
  {
    result := 1;
    var e := exp;
    while e > 0
      invariant 0 <= e <= exp
      invariant result == Wrap32(Pow(base, exp - e))
    {
      Wrap32Mul(Pow(base, exp - e), base);
      result := Wrap32(result * base);
      e := e - 1;
    }
  }

  lemma {:induction false} PowTen(e: nat)
    ensures Pow(10, e) == Pow(2, e) * Pow(5, e)
  {
    if e > 0 {
      PowTen(e - 1);
      assert Pow(10, e) == (Pow(2, e - 1) * 2) * (Pow(5, e - 1) * 5);
    }
  }

  lemma {:induction false} PowTwoAdd(a: nat, b: nat)
    ensures Pow(2, a + b) == Pow(2, a) * Pow(2, b)
  {
    if b > 0 {
      PowTwoAdd(a, b - 1);
      assert Pow(2, a + b) == Pow(2, a) * Pow(2, b - 1) * 2;
    }
  }

  /** 5^e is odd: it is 2k+1 for the returned k. */
  lemma {:induction false} PowFiveOdd(e: nat) returns (k: nat)
    ensures Pow(5, e) == 2 * k + 1
  {
    if e == 0 {
      k := 0;
    } else {
      var k' := PowFiveOdd(e - 1);
      k := 5 * k' + 2;
    }
  }

  lemma MulCancel(a: int, b: int, c: int)
    requires c > 0 && a * c == b * c
    ensures a == b
  {
  }

  /** 2^32 as a power of two. */
  lemma PowTwo32()
    ensures Pow(2, 32) == 0x1_0000_0000
  {
    assert Pow(2, 8) == 0x100;
    PowTwoAdd(8, 8);
    PowTwoAdd(16, 16);
  }

  /** An odd number times a positive one is not an even multiple of it. */
  lemma OddNotEven(five: nat, two: nat, k: nat, rest: nat, j: nat)
    requires two > 0 && five == 2 * j + 1
    ensures five * two != k * (rest * 2 * two)
  {
    if five * two == k * (rest * 2 * two) {
      assert five * two == (k * rest * 2) * two;
      MulCancel(five, k * rest * 2, two);
      assert false;
    }
  }

  /** 2^32 does not divide 10^e below e = 32, so mypow(10, e) is not 0 there. */
  lemma MyPowTenNonzero(e: nat)
    requires e <= 31
    ensures Wrap32(Pow(10, e)) != 0
  {
    var p, m := Pow(10, e), Pow(2, 32);
    var two, five, a, rest := Pow(2, e), Pow(5, e), Pow(2, 32 - e), Pow(2, 31 - e);
    PowTwo32();
    PowTwoAdd(32 - e, e);
    PowTwoAdd(31 - e, 1);
    PowTen(e);
    assert m == a * two && a == rest * 2 && p == two * five;
    var j := PowFiveOdd(e);
    var k := p / 0x1_0000_0000;
    OddNotEven(five, two, k, rest, j);
    if Wrap32(p) == 0 {
      assert false;
    }
  }

  lemma PowTenMono(e: nat, f: nat)
    requires e <= f
    ensures Pow(10, e) <= Pow(10, f)
    decreases f - e
  {
    if e < f {
      PowTenMono(e, f - 1);
    }
  }

  /** Up to 10^9 the uint32_t product of mypow is exact. */
  lemma MyPowTenExact(e: nat)
    requires e <= 9
    ensures Wrap32(Pow(10, e)) == Pow(10, e)
  {
    PowTenMono(e, 9);
    assert Pow(10, 9) == 1000000000;
  }

  /*** Digit codes ***/

  const SPACE: u8 := 0x20
  const ZERO: u8 := 0x30

  /** The divisor of digit position t of `len` digits: mypow(10, len-t-1),
      reduced modulo 2^32 when `wrapped`. */
  function Divisor(e: nat, wrapped: bool): (p: nat)
    requires wrapped ==> e <= 31
    ensures p >= 1
  {
    if wrapped then (MyPowTenNonzero(e); Wrap32(Pow(10, e))) else Pow(10, e)
  }

  /** `temp = (num / mypow(10, len-t-1)) % 10`. */
  function DigitAt(num: u32, len: nat, t: nat, wrapped: bool): nat
    requires t < len && (wrapped ==> len <= 32)
  {
    (num / Divisor(len - t - 1, wrapped)) % 10
  }

  /** The character codes of digit positions t .. len-1 when `shown` says
      whether a digit has been shown already (`enshow`): a leading zero other
      than the last digit becomes a space, every other digit its ASCII code. */
  function NumCodesFrom(num: u32, len: nat, t: nat, shown: bool, wrapped: bool): seq<u8>
    requires t <= len && (wrapped ==> len <= 32)
    decreases len - t
  {
    if t == len then []
    else
      var d := DigitAt(num, len, t, wrapped);
      if !shown && t < len - 1 && d == 0 then [SPACE] + NumCodesFrom(num, len, t + 1, false, wrapped)
      else [ZERO + d] + NumCodesFrom(num, len, t + 1, shown || t < len - 1, wrapped)
  }

  /** The characters LCD_ShowNum draws for `num` in `len` positions. */
  function NumCodes(num: u32, len: nat, wrapped: bool): seq<u8>
    requires wrapped ==> len <= 32
  {
    NumCodesFrom(num, len, 0, false, wrapped)
  }

  /** All digits before position t are zero. */
  predicate ZerosBefore(num: u32, len: nat, t: nat, wrapped: bool)
    requires t <= len && (wrapped ==> len <= 32)
  {
    forall k :: 0 <= k < t ==> DigitAt(num, len, k, wrapped) == 0
  }

  /** What position t shows: a space for a zero that is not the last
      position and has only zeros before it, the digit otherwise. */
  function ExpectedCode(num: u32, len: nat, t: nat, wrapped: bool): u8
    requires t < len && (wrapped ==> len <= 32)
  {
    if t < len - 1 && ZerosBefore(num, len, t + 1, wrapped) then SPACE
    else ZERO + DigitAt(num, len, t, wrapped)
  }

  /** The zeros before t + 1 are those before t and digit t. */
  lemma ZerosBeforeStep(num: u32, len: nat, t: nat, wrapped: bool)
    requires t < len && (wrapped ==> len <= 32)
    ensures ZerosBefore(num, len, t + 1, wrapped) <==> ZerosBefore(num, len, t, wrapped) && DigitAt(num, len, t, wrapped) == 0
  {
    if ZerosBefore(num, len, t, wrapped) && DigitAt(num, len, t, wrapped) == 0 {
      forall k | 0 <= k < t + 1
        ensures DigitAt(num, len, k, wrapped) == 0
      {
        if k < t {
          assert DigitAt(num, len, k, wrapped) == 0;
        }
      }
    }
  }

  lemma {:induction false} NumCodesFromAt(num: u32, len: nat, t: nat, shown: bool, wrapped: bool)
    requires t <= len && (wrapped ==> len <= 32)
    requires t < len ==> (shown <==> !ZerosBefore(num, len, t, wrapped))
    ensures |NumCodesFrom(num, len, t, shown, wrapped)| == len - t
    ensures forall i :: t <= i < len ==> NumCodesFrom(num, len, t, shown, wrapped)[i - t] == ExpectedCode(num, len, i, wrapped)
    decreases len - t
  {
    if t < len {
      var d := DigitAt(num, len, t, wrapped);
      var blank := !shown && t < len - 1 && d == 0;
      var shown' := if blank then false else shown || t < len - 1;
      var c: u8 := if blank then SPACE else ZERO + d;
      var codes, rest := NumCodesFrom(num, len, t, shown, wrapped), NumCodesFrom(num, len, t + 1, shown', wrapped);
      assert codes == [c] + rest;
      ZerosBeforeStep(num, len, t, wrapped);
      assert c == ExpectedCode(num, len, t, wrapped);
      NumCodesFromAt(num, len, t + 1, shown', wrapped);
      forall i | t <= i < len
        ensures codes[i - t] == ExpectedCode(num, len, i, wrapped)
      {
        if i > t {
          assert codes[i - t] == rest[i - (t + 1)];
        }
      }
    }
  }

  /** LCD_ShowNum draws exactly `len` characters; position t is a space
      exactly when it is a zero before the last position with only zeros
      before it, and otherwise the ASCII digit of (num / 10^(len-t-1)) % 10,
      with the power as mypow computes it when `wrapped`. */
  lemma NumCodesShape(num: u32, len: nat, wrapped: bool)
    requires wrapped ==> len <= 32
    ensures |NumCodes(num, len, wrapped)| == len
    ensures forall t :: 0 <= t < len ==>
              (NumCodes(num, len, wrapped)[t] == SPACE <==> t < len - 1 && ZerosBefore(num, len, t + 1, wrapped))
    ensures forall t :: 0 <= t < len && NumCodes(num, len, wrapped)[t] != SPACE ==>
              NumCodes(num, len, wrapped)[t] == ZERO + DigitAt(num, len, t, wrapped)
  {
    NumCodesFromAt(num, len, 0, false, wrapped);
    forall t | 0 <= t < len
      ensures NumCodes(num, len, wrapped)[t] == ExpectedCode(num, len, t, wrapped)
    {
      assert NumCodes(num, len, wrapped)[t] == NumCodesFrom(num, len, 0, false, wrapped)[t - 0];
    }
  }

  /** With at most ten positions the powers do not wrap, and the uint32_t
      arithmetic shows the decimal digits. */
  lemma NumCodesAgree(num: u32, len: nat)
    requires len <= 10
    ensures NumCodes(num, len, true) == NumCodes(num, len, false)
  {
    forall t | 0 <= t < len
      ensures DigitAt(num, len, t, true) == DigitAt(num, len, t, false)
    {
      MyPowTenExact(len - t - 1);
    }
    NumCodesShape(num, len, true);
    NumCodesShape(num, len, false);
    forall t | 0 <= t < len
      ensures NumCodes(num, len, true)[t] == NumCodes(num, len, false)[t]
    {
      assert ZerosBefore(num, len, t + 1, true) == ZerosBefore(num, len, t + 1, false);
    }
  }

  /*** Reading the digits back ***/

  /** The digit a drawn character stands for; a suppressed zero reads as 0. */
  function CodeDigit(c: u8): int {
    if c == SPACE then 0 else c - ZERO
  }

  /** The number a row of drawn characters reads as. */
  function Value(cs: seq<u8>): int {
    if cs == [] then 0 else Value(cs[..|cs| - 1]) * 10 + CodeDigit(cs[|cs| - 1])
  }

  /** A remainder r < c scaled by b stays below b*c. */
  lemma ScaledBelow(r: nat, b: nat, c: nat, s: nat)
    requires r < c && s < b
    ensures r * b + s < b * c
  {
    assert r * b <= (c - 1) * b;
  }

  lemma DivDiv(n: nat, b: nat, c: nat)
    requires b > 0 && c > 0
    ensures n / b / c == n / (b * c)
  {
    var q1, r1 := n / b, n % b;
    var q2, r2 := q1 / c, q1 % c;
    assert n == q1 * b + r1;
    assert q1 == q2 * c + r2;
    assert q1 * b == q2 * (b * c) + r2 * b;
    ScaledBelow(r2, b, c, r1);
    ModUnique(n, q2, r2 * b + r1, b * c);
  }

  lemma ModSplit(a: nat, p: nat)
    requires p > 0
    ensures (a / 10 % p) * 10 + a % 10 == a % (10 * p)
  {
    var q, r := a / 10, a % 10;
    var s, u := q / p, q % p;
    assert a == 10 * q + r;
    assert q == p * s + u;
    assert 10 * q == (10 * p) * s + 10 * u;
    ScaledBelow(u, 10, p, r);
    ModUnique(a, s, 10 * u + r, 10 * p);
  }

  /** One more digit on the right of a prefix: the prefix's value, times ten,
      plus the next digit, is the longer prefix's value. */
  lemma PrefixStep(n: nat, b: nat, p: nat)
    requires b >= 1 && p >= 1
    ensures ((n / (b * 10)) % p) * 10 + (n / b) % 10 == (n / b) % (p * 10)
  {
    DivDiv(n, b, 10);
    ModSplit(n / b, p);
    assert 10 * p == p * 10;
  }

  lemma {:induction false} ValuePrefix(num: u32, len: nat, k: nat)
    requires k <= len
    ensures |NumCodes(num, len, false)| == len
    ensures Value(NumCodes(num, len, false)[..k]) == (num / Pow(10, len - k)) % Pow(10, k)
  {
    NumCodesShape(num, len, false);
    var codes := NumCodes(num, len, false);
    if k > 0 {
      var t := k - 1;
      ValuePrefix(num, len, t);
      assert codes[..k][..t] == codes[..t];
      var b, p := Pow(10, len - k), Pow(10, t);
      var prev := Value(codes[..t]);
      assert prev == (num / (b * 10)) % p by {
        assert Pow(10, len - t) == b * 10;
      }
      var digit := CodeDigit(codes[t]);
      assert digit == (num / b) % 10 by {
        if codes[t] == SPACE {
          assert ZerosBefore(num, len, t + 1, false);
        }
      }
      assert Value(codes[..k]) == prev * 10 + digit;
      PrefixStep(num, b, p);
      assert Pow(10, k) == p * 10;
    }
  }

  /** The intended digits read back as the number modulo 10^len: the low
      `len` decimal digits of num, leading zeros shown as spaces. */
  lemma NumCodesValue(num: u32, len: nat)
    ensures Value(NumCodes(num, len, false)) == num % Pow(10, len)
  {
    ValuePrefix(num, len, len);
    assert NumCodes(num, len, false)[..len] == NumCodes(num, len, false);
  }

  /** Up to ten positions, what LCD_ShowNum draws, with mypow as written, reads
      back as the low `len` decimal digits of num. */
  lemma ShowNumValue(num: u32, len: nat)
    requires len <= 10
    ensures Value(NumCodes(num, len, true)) == num % Pow(10, len)
  {
    NumCodesAgree(num, len);
    NumCodesValue(num, len);
  }

  /** 42 in four positions is drawn as "  42". */
  lemma FortyTwo()
    ensures NumCodes(42, 4, true) == [SPACE, SPACE, ZERO + 4, ZERO + 2]
  {
    assert Pow(10, 3) == 1000 && Pow(10, 2) == 100 && Pow(10, 1) == 10;
  }

  /** The first of at least two positions is a space exactly when its digit is 0. */
  lemma NumCodesHead(num: u32, len: nat, wrapped: bool)
    requires 2 <= len && (wrapped ==> len <= 32)
    ensures NumCodes(num, len, wrapped)[0] ==
            (if DigitAt(num, len, 0, wrapped) == 0 then SPACE else ZERO + DigitAt(num, len, 0, wrapped))
  {
  }

  lemma PowTenTen()
    ensures Pow(10, 10) == 10000000000
  {
    assert Pow(10, 9) == 1000000000;
  }

  /** With eleven positions mypow(10, 10) wraps to 1410065408, and the first
      position of 4294967295 shows '3' where the decimal digit is 0 and the
      intended drawing shows a space. */
  lemma ShowNumWrapsPower()
    ensures Divisor(10, true) == 1410065408
    ensures NumCodes(4294967295, 11, true)[0] == ZERO + 3
    ensures NumCodes(4294967295, 11, false)[0] == SPACE
  {
    PowTenTen();
    assert Divisor(10, true) == 1410065408 by {
      assert Wrap32(10000000000) == 1410065408;
    }
    assert Divisor(10, false) == 10000000000;
    assert DigitAt(4294967295, 11, 0, true) == 3 by {
      assert 4294967295 / 1410065408 == 3;
    }
    assert DigitAt(4294967295, 11, 0, false) == 0 by {
      assert 4294967295 / 10000000000 == 0;
    }
    NumCodesHead(4294967295, 11, true);
    NumCodesHead(4294967295, 11, false);
  }
}
