/**
 The CRC-16 that CookieJar stores beside its payload.  The program folds a byte in two
 table look-ups of four bits each; the reference is the bit-at-a-time frame check sequence
 of RFC 1662, section C.2 (reflected polynomial 0x8408, preset 0xFFFF, final complement).
 */
module CookieChecksum {
  import opened Common

  const CRC_TBL: seq<nat> := [
    0x0000, 0x1081, 0x2102, 0x3183,
    0x4204, 0x5285, 0x6306, 0x7387,
    0x8408, 0x9489, 0xa50a, 0xb58b,
    0xc60c, 0xd68d, 0xe70e, 0xf78f
  ]

  // ----- Sixteen-bit words, least significant bit first -----

  type Word = w: seq<bool> | |w| == 16 witness seq(16, _ => false)

  function ToWord(n: nat): Word {
    [n % 2 == 1, n / 2 % 2 == 1, n / 4 % 2 == 1, n / 8 % 2 == 1,
     n / 16 % 2 == 1, n / 32 % 2 == 1, n / 64 % 2 == 1, n / 128 % 2 == 1,
     n / 256 % 2 == 1, n / 512 % 2 == 1, n / 1024 % 2 == 1, n / 2048 % 2 == 1,
     n / 4096 % 2 == 1, n / 8192 % 2 == 1, n / 16384 % 2 == 1, n / 32768 % 2 == 1]
  }

  function Xor(a: Word, b: Word): Word {
    seq(16, i requires 0 <= i < 16 => a[i] != b[i])
  }

  function Complement(a: Word): Word {
    seq(16, i requires 0 <= i < 16 => !a[i])
  }

  /** The value of the low four bits. */
  function Nibble(w: Word): (n: nat)
    ensures n < 16
  {
    (if w[0] then 1 else 0) + (if w[1] then 2 else 0) + (if w[2] then 4 else 0) + (if w[3] then 8 else 0)
  }

  function ShiftRight4(w: Word): Word {
    w[4..] + [false, false, false, false]
  }

  // ----- The reference: one message bit at a time -----

  const POLYNOMIAL: Word := ToWord(0x8408)
  const PRESET: Word := ToWord(0xFFFF)

  /** One shift of the reflected register: multiply by x modulo the polynomial. */
  function Shift(crc: Word): Word {
    if crc[0] then Xor(crc[1..] + [false], POLYNOMIAL) else crc[1..] + [false]
  }

  function FeedBit(crc: Word, bit: bool): Word {
    Shift(crc[0 := crc[0] != bit])
  }

  /** The register after the message bits have been fed, first bit first. */
  function Feed(crc: Word, bits: seq<bool>): Word
    decreases |bits|
  {
    if bits == [] then crc else Feed(FeedBit(crc, bits[0]), bits[1..])
  }

  /** The low n bits of a number, least significant first. */
  function LowBits(w: nat, n: nat): (bits: seq<bool>)
    ensures |bits| == n
  {
    if n == 0 then [] else [w % 2 == 1] + LowBits(w / 2, n - 1)
  }

  /** The bits of a string in transmission order: each byte least significant bit first. */
  function MessageBits(str: seq<byte>): (bits: seq<bool>)
    ensures |bits| == 8 * |str|
  {
    if str == [] then [] else LowBits(str[0], 8) + MessageBits(str[1..])
  }

  /** The frame check sequence of a message. */
  function Fcs(str: seq<byte>): Word {
    Complement(Feed(PRESET, MessageBits(str)))
  }

  // ----- One look-up does the work of four shifts -----

  lemma PolynomialBits()
    ensures POLYNOMIAL == [false, false, false, true, false, false, false, false,
                           false, false, true, false, false, false, false, true]
  {
  }

  lemma ShiftBit(w: Word, i: nat)
    requires i < 16
    ensures Shift(w)[i] == ((i < 15 && w[i + 1]) != (w[0] && (i == 3 || i == 10 || i == 15)))
  {
    assert POLYNOMIAL[i] == (i == 3 || i == 10 || i == 15) by { PolynomialBits(); }
  }

  function Shift4(w: Word): Word {
    Shift(Shift(Shift(Shift(w))))
  }

  /** What four shifts add to the register: the low nibble at the taps 0, 7 and 12. */
  function Taps(w: Word): Word {
    [w[0], w[1], w[2], w[3], false, false, false, w[0],
     w[1], w[2], w[3], false, w[0], w[1], w[2], w[3]]
  }

  predicate TapAt(w: Word, i: nat)
    requires i < 16
  {
    if i == 0 || i == 7 || i == 12 then w[0]
    else if i == 1 || i == 8 || i == 13 then w[1]
    else if i == 2 || i == 9 || i == 14 then w[2]
    else (i == 3 || i == 10 || i == 15) && w[3]
  }

  lemma TapsAt(w: Word, i: nat)
    requires i < 16
    ensures Taps(w)[i] == TapAt(w, i)
  {
  }

  lemma TwoShiftsBit(w: Word, i: nat)
    requires i < 16
    ensures Shift(Shift(w))[i] == (((i < 14 && w[i + 2]) != (w[0] && (i == 2 || i == 9 || i == 14)))
                                   != (w[1] && (i == 3 || i == 10 || i == 15)))
  {
    ShiftBit(w, 0);
    if i < 15 { ShiftBit(w, i + 1); }
    ShiftBit(Shift(w), i);
  }

  lemma TapsCombine(i: nat, x: bool, w0: bool, w1: bool, w2: bool, w3: bool, two: bool, tap: bool)
    requires i < 16
    requires two == (((i < 12 && x) != (w0 && (i == 0 || i == 7 || i == 12))) != (w1 && (i == 1 || i == 8 || i == 13)))
    requires tap == if i == 0 || i == 7 || i == 12 then w0
                    else if i == 1 || i == 8 || i == 13 then w1
                    else if i == 2 || i == 9 || i == 14 then w2
                    else (i == 3 || i == 10 || i == 15) && w3
    ensures (((i < 14 && two) != (w2 && (i == 2 || i == 9 || i == 14))) != (w3 && (i == 3 || i == 10 || i == 15)))
         == ((i < 12 && x) != tap)
  {
  }

  lemma Shift4Bit(w: Word, i: nat)
    requires i < 16
    ensures Shift4(w)[i] == ((i < 12 && w[i + 4]) != TapAt(w, i))
  {
    var v := Shift(Shift(w));
    var x := i < 12 && w[i + 4];
    var two := (x != (w[0] && (i == 0 || i == 7 || i == 12))) != (w[1] && (i == 1 || i == 8 || i == 13));
    assert v[0] == w[2] && v[1] == w[3] by {
      TwoShiftsBit(w, 0);
      TwoShiftsBit(w, 1);
    }
    assert i < 14 ==> v[i + 2] == two by {
      if i < 14 { TwoShiftsBit(w, i + 2); }
    }
    TwoShiftsBit(v, i);
    TapsCombine(i, x, w[0], w[1], w[2], w[3], two, TapAt(w, i));
  }

  lemma Shift4IsTaps(w: Word)
    ensures Shift4(w) == Xor(ShiftRight4(w), Taps(w))
  {
    forall i | 0 <= i < 16 ensures Shift4(w)[i] == Xor(ShiftRight4(w), Taps(w))[i] {
      Shift4Bit(w, i);
      TapsAt(w, i);
      assert ShiftRight4(w)[i] == (i < 12 && w[i + 4]);
    }
  }

  lemma TableIsTaps(w: Word)
    ensures ToWord(CRC_TBL[Nibble(w)]) == Taps(w)
  {
    match (w[1], w[2], w[3])
    case (false, false, false) => TableFrom0(w);
    case (true, false, false) => TableFrom2(w);
    case (false, true, false) => TableFrom4(w);
    case (true, true, false) => TableFrom6(w);
    case (false, false, true) => TableFrom8(w);
    case (true, false, true) => TableFrom10(w);
    case (false, true, true) => TableFrom12(w);
    case (true, true, true) => TableFrom14(w);
  }

  lemma TableFrom0(w: Word)
    requires !w[1] && !w[2] && !w[3]
    ensures ToWord(CRC_TBL[Nibble(w)]) == Taps(w)
  {
    if !w[0] {
      assert CRC_TBL[0] == 0x0000 && ToWord(0x0000) == Taps(w);
    } else {
      assert CRC_TBL[1] == 0x1081 && ToWord(0x1081) == Taps(w);
    }
  }

  lemma TableFrom2(w: Word)
    requires w[1] && !w[2] && !w[3]
    ensures ToWord(CRC_TBL[Nibble(w)]) == Taps(w)
  {
    if !w[0] {
      assert CRC_TBL[2] == 0x2102 && ToWord(0x2102) == Taps(w);
    } else {
      assert CRC_TBL[3] == 0x3183 && ToWord(0x3183) == Taps(w);
    }
  }

  lemma TableFrom4(w: Word)
    requires !w[1] && w[2] && !w[3]
    ensures ToWord(CRC_TBL[Nibble(w)]) == Taps(w)
  {
    if !w[0] {
      assert CRC_TBL[4] == 0x4204 && ToWord(0x4204) == Taps(w);
    } else {
      assert CRC_TBL[5] == 0x5285 && ToWord(0x5285) == Taps(w);
    }
  }

  lemma TableFrom6(w: Word)
    requires w[1] && w[2] && !w[3]
    ensures ToWord(CRC_TBL[Nibble(w)]) == Taps(w)
  {
    if !w[0] {
      assert CRC_TBL[6] == 0x6306 && ToWord(0x6306) == Taps(w);
    } else {
      assert CRC_TBL[7] == 0x7387 && ToWord(0x7387) == Taps(w);
    }
  }

  lemma TableFrom8(w: Word)
    requires !w[1] && !w[2] && w[3]
    ensures ToWord(CRC_TBL[Nibble(w)]) == Taps(w)
  {
    if !w[0] {
      assert CRC_TBL[8] == 0x8408 && ToWord(0x8408) == Taps(w);
    } else {
      assert CRC_TBL[9] == 0x9489 && ToWord(0x9489) == Taps(w);
    }
  }

  lemma TableFrom10(w: Word)
    requires w[1] && !w[2] && w[3]
    ensures ToWord(CRC_TBL[Nibble(w)]) == Taps(w)
  {
    if !w[0] {
      assert CRC_TBL[10] == 0xa50a && ToWord(0xa50a) == Taps(w);
    } else {
      assert CRC_TBL[11] == 0xb58b && ToWord(0xb58b) == Taps(w);
    }
  }

  lemma TableFrom12(w: Word)
    requires !w[1] && w[2] && w[3]
    ensures ToWord(CRC_TBL[Nibble(w)]) == Taps(w)
  {
    if !w[0] {
      assert CRC_TBL[12] == 0xc60c && ToWord(0xc60c) == Taps(w);
    } else {
      assert CRC_TBL[13] == 0xd68d && ToWord(0xd68d) == Taps(w);
    }
  }

  lemma TableFrom14(w: Word)
    requires w[1] && w[2] && w[3]
    ensures ToWord(CRC_TBL[Nibble(w)]) == Taps(w)
  {
    if !w[0] {
      assert CRC_TBL[14] == 0xe70e && ToWord(0xe70e) == Taps(w);
    } else {
      assert CRC_TBL[15] == 0xf78f && ToWord(0xf78f) == Taps(w);
    }
  }

  // ----- Feeding a window of bits in one step -----

  /** A window of at most sixteen bits as a word. */
  function Pad(bits: seq<bool>): Word
    requires |bits| <= 16
  {
    bits + seq(16 - |bits|, _ => false)
  }

  function ShiftTimes(crc: Word, n: nat): Word
    decreases n
  {
    if n == 0 then crc else ShiftTimes(Shift(crc), n - 1)
  }

  lemma ShiftAbsorbs(x: Word, p: Word)
    requires !p[15]
    ensures Xor(Shift(x), p) == Shift(Xor(x, [false] + p[..15]))
  {
  }

  lemma PadStep(crc: Word, bits: seq<bool>)
    requires 0 < |bits| <= 16
    ensures Xor(crc[0 := crc[0] != bits[0]], [false] + Pad(bits[1..])[..15]) == Xor(crc, Pad(bits))
  {
    var p := Pad(bits[1..]);
    assert [false] + p[..15] == ([false] + bits[1..]) + seq(16 - |bits|, _ => false);
  }

  /** All the bits of a window can be xored in at once, before the shifts. */
  lemma {:induction false} FeedIsPaddedXor(crc: Word, bits: seq<bool>)
    requires |bits| <= 16
    ensures Feed(crc, bits) == ShiftTimes(Xor(crc, Pad(bits)), |bits|)
    decreases |bits|
  {
    if bits == [] {
      assert Xor(crc, Pad(bits)) == crc;
    } else {
      var next, p := crc[0 := crc[0] != bits[0]], Pad(bits[1..]);
      FeedIsPaddedXor(Shift(next), bits[1..]);
      ShiftAbsorbs(next, p);
      PadStep(crc, bits);
    }
  }

  lemma {:induction false} FeedAppend(crc: Word, a: seq<bool>, b: seq<bool>)
    ensures Feed(crc, a + b) == Feed(Feed(crc, a), b)
    decreases |a|
  {
    if a == [] {
      assert a + b == b;
    } else {
      assert (a + b)[1..] == a[1..] + b;
      FeedAppend(FeedBit(crc, a[0]), a[1..], b);
    }
  }

  // ----- The program: one nibble at a time -----

  function LookUp(crc: Word, c: nat): Word {
    Xor(ShiftRight4(crc), ToWord(CRC_TBL[Nibble(Xor(crc, ToWord(c)))]))
  }

  lemma SameTaps(crc: Word, c: Word)
    ensures ShiftRight4(Xor(crc, Pad(c[..4]))) == ShiftRight4(crc)
    ensures Taps(Xor(crc, Pad(c[..4]))) == Taps(Xor(crc, c))
  {
  }

  lemma NibbleBits(c: nat)
    ensures LowBits(c, 4) == ToWord(c)[..4]
  {
    assert c / 2 / 2 == c / 4 && c / 2 / 2 / 2 == c / 8;
    assert LowBits(c / 2, 3) == [c / 2 % 2 == 1] + LowBits(c / 2 / 2, 2);
    assert LowBits(c / 2 / 2, 2) == [c / 2 / 2 % 2 == 1] + LowBits(c / 2 / 2 / 2, 1);
  }

  lemma LookUpFeedsNibble(crc: Word, c: nat)
    ensures LookUp(crc, c) == Feed(crc, LowBits(c, 4))
  {
    NibbleBits(c);
    var n := ToWord(c)[..4];
    FeedIsPaddedXor(crc, n);
    var x := Xor(crc, Pad(n));
    assert ShiftTimes(x, 4) == Shift4(x) by {
      assert ShiftTimes(x, 4) == ShiftTimes(Shift(x), 3);
      assert ShiftTimes(Shift(x), 3) == ShiftTimes(Shift(Shift(x)), 2);
    }
    Shift4IsTaps(x);
    TableIsTaps(Xor(crc, ToWord(c)));
    SameTaps(crc, ToWord(c));
  }

  lemma {:induction false} LowBitsSplit(c: nat, m: nat, n: nat)
    ensures LowBits(c, m + n) == LowBits(c, m) + LowBits(Halved(c, m), n)
    decreases m
  {
    if m > 0 { LowBitsSplit(c / 2, m - 1, n); }
  }

  function Halved(c: nat, m: nat): nat
    decreases m
  {
    if m == 0 then c else Halved(c / 2, m - 1)
  }

  lemma TwoLookUpsFeedByte(crc: Word, c: byte, rest: seq<bool>)
    ensures Feed(crc, LowBits(c, 8) + rest) == Feed(LookUp(LookUp(crc, c), c / 16), rest)
  {
    var low, high := LowBits(c, 4), LowBits(c / 16, 4);
    assert Halved(c, 4) == c / 16;
    LowBitsSplit(c, 4, 4);
    LookUpFeedsNibble(crc, c);
    LookUpFeedsNibble(LookUp(crc, c), c / 16);
    FeedAppend(crc, low + high, rest);
    FeedAppend(crc, low, high);
  }

  /** crc_checksum: the nibble-table form returns the frame check sequence of every string. */
  method CrcChecksum(str: seq<byte>) returns (r: Word)
    ensures r == Fcs(str)
  {
    var crc := PRESET;
    var c := 0;
    var p := 0;
    var len := |str|;
    while len != 0
      invariant 0 <= len <= |str| && p == |str| - len
      invariant Feed(crc, MessageBits(str[p..])) == Feed(PRESET, MessageBits(str))
    {
      TwoLookUpsFeedByte(crc, str[p], MessageBits(str[p + 1..]));
      assert str[p..][1..] == str[p + 1..];
      len := len - 1;
      c := str[p];
      p := p + 1;
      crc := Xor(ShiftRight4(crc), ToWord(CRC_TBL[Nibble(Xor(crc, ToWord(c)))]));
      c := c / 16;
      crc := Xor(ShiftRight4(crc), ToWord(CRC_TBL[Nibble(Xor(crc, ToWord(c)))]));
    }
    r := Complement(crc);
  }

  // ----- A message with its checksum behind it -----

  lemma FourShifts(w: Word, next: Word, n: nat)
    requires next == Xor(ShiftRight4(w), Taps(w))
    ensures ShiftTimes(w, 4 + n) == ShiftTimes(next, n)
  {
    Shift4IsTaps(w);
    assert ShiftTimes(w, 4 + n) == ShiftTimes(Shift(w), 3 + n);
    assert ShiftTimes(Shift(w), 3 + n) == ShiftTimes(Shift(Shift(w)), 2 + n);
    assert ShiftTimes(Shift(Shift(w)), 2 + n) == ShiftTimes(Shift(Shift(Shift(w))), 1 + n);
  }

  /** All ones, and what they come to after 4, 8, 12 and 16 shifts. */
  datatype Register = R0xFFFF | R0xF870 | R0x0F87 | R0x737F | R0xF0B8

  function Bits(r: Register): Word {
    match r
    case R0xFFFF =>
      [true, true, true, true, true, true, true, true,
       true, true, true, true, true, true, true, true]
    case R0xF870 =>
      [false, false, false, false, true, true, true, false,
       false, false, false, true, true, true, true, true]
    case R0x0F87 =>
      [true, true, true, false, false, false, false, true,
       true, true, true, true, false, false, false, false]
    case R0x737F =>
      [true, true, true, true, true, true, true, false,
       true, true, false, false, true, true, true, false]
    case R0xF0B8 =>
      [false, false, false, true, true, true, false, true,
       false, false, false, false, true, true, true, true]
  }

  lemma FromFFFF(n: nat)
    ensures ShiftTimes(Bits(R0xFFFF), 4 + n) == ShiftTimes(Bits(R0xF870), n)
  {
    assert Xor(ShiftRight4(Bits(R0xFFFF)), Taps(Bits(R0xFFFF))) == Bits(R0xF870);
    FourShifts(Bits(R0xFFFF), Bits(R0xF870), n);
  }

  lemma FromF870(n: nat)
    ensures ShiftTimes(Bits(R0xF870), 4 + n) == ShiftTimes(Bits(R0x0F87), n)
  {
    assert Xor(ShiftRight4(Bits(R0xF870)), Taps(Bits(R0xF870))) == Bits(R0x0F87);
    FourShifts(Bits(R0xF870), Bits(R0x0F87), n);
  }

  lemma From0F87(n: nat)
    ensures ShiftTimes(Bits(R0x0F87), 4 + n) == ShiftTimes(Bits(R0x737F), n)
  {
    assert Xor(ShiftRight4(Bits(R0x0F87)), Taps(Bits(R0x0F87))) == Bits(R0x737F);
    FourShifts(Bits(R0x0F87), Bits(R0x737F), n);
  }

  lemma From737F(n: nat)
    ensures ShiftTimes(Bits(R0x737F), 4 + n) == ShiftTimes(Bits(R0xF0B8), n)
  {
    assert Xor(ShiftRight4(Bits(R0x737F)), Taps(Bits(R0x737F))) == Bits(R0xF0B8);
    FourShifts(Bits(R0x737F), Bits(R0xF0B8), n);
  }

  lemma OnesShifted(n: nat)
    ensures ShiftTimes(Bits(R0xFFFF), 16 + n) == ShiftTimes(Bits(R0xF0B8), n)
  {
    FromFFFF(12 + n);
    FromF870(8 + n);
    From0F87(4 + n);
    From737F(n);
  }

  lemma XorWithComplement(w: Word)
    ensures Xor(w, Complement(w)) == Bits(R0xFFFF)
  {
  }

  lemma PadWhole(w: Word)
    ensures Pad(w) == w
  {
  }

  lemma NoShift(w: Word, n: nat)
    requires n == 0
    ensures ShiftTimes(w, n) == w
  {
  }

  lemma SixteenShifts(more: nat)
    requires more == 0
    ensures ShiftTimes(Bits(R0xFFFF), 16 + more) == Bits(R0xF0B8)
  {
    OnesShifted(more);
    NoShift(Bits(R0xF0B8), more);
  }

  /** Feeding a register its own complement leaves 0xF0B8, whatever it holds. */
  lemma FeedComplement(crc: Word, w: Word)
    requires w == Complement(crc)
    ensures Feed(crc, w) == Bits(R0xF0B8)
  {
    FeedIsPaddedXor(crc, w);
    PadWhole(w);
    XorWithComplement(crc);
    SixteenShifts(|w| - 16);
  }

  /** Whatever the message, its bits and then those of its checksum leave 0xF0B8 in the register. */
  lemma GoodWithChecksum(str: seq<byte>)
    ensures Feed(PRESET, MessageBits(str) + Fcs(str)) == Bits(R0xF0B8)
  {
    FeedAppend(PRESET, MessageBits(str), Fcs(str));
    FeedComplement(Feed(PRESET, MessageBits(str)), Fcs(str));
  }

  /** And the checksum of the empty message is zero. */
  lemma EmptyChecksum()
    ensures Fcs([]) == seq(16, _ => false)
  {
  }

  // ----- What the checksum detects -----

  /** The polynomial's top bit marks the odd registers, so a shift loses nothing. */
  lemma ShiftInjective(x: Word, y: Word)
    requires Shift(x) == Shift(y)
    ensures x == y
  {
    ShiftBit(x, 15);
    ShiftBit(y, 15);
    forall i | 1 <= i < 16 ensures x[i] == y[i] {
      ShiftBit(x, i - 1);
      ShiftBit(y, i - 1);
    }
  }

  lemma {:induction false} ShiftTimesInjective(x: Word, y: Word, n: nat)
    requires ShiftTimes(x, n) == ShiftTimes(y, n)
    ensures x == y
    decreases n
  {
    if n > 0 {
      ShiftTimesInjective(Shift(x), Shift(y), n - 1);
      ShiftInjective(x, y);
    }
  }

  lemma FeedBitInjective(x: Word, y: Word, bit: bool)
    requires FeedBit(x, bit) == FeedBit(y, bit)
    ensures x == y
  {
    var u, v := x[0 := x[0] != bit], y[0 := y[0] != bit];
    ShiftInjective(u, v);
    assert u[0] == v[0];
    assert forall i :: 1 <= i < 16 ==> x[i] == u[i] && y[i] == v[i];
  }

  lemma {:induction false} FeedInjective(x: Word, y: Word, bits: seq<bool>)
    requires Feed(x, bits) == Feed(y, bits)
    ensures x == y
    decreases |bits|
  {
    if bits != [] {
      FeedInjective(FeedBit(x, bits[0]), FeedBit(y, bits[0]), bits[1..]);
      FeedBitInjective(x, y, bits[0]);
    }
  }

  lemma PaddedXorDistinct(crc: Word, u: seq<bool>, v: seq<bool>)
    requires |u| == |v| <= 16 && u != v
    ensures Xor(crc, Pad(u)) != Xor(crc, Pad(v))
  {
    var i :| 0 <= i < |u| && u[i] != v[i];
    assert Xor(crc, Pad(u))[i] != Xor(crc, Pad(v))[i];
  }

  /** Different windows of at most sixteen bits leave the register different. */
  lemma WindowReachesDistinctStates(crc: Word, u: seq<bool>, v: seq<bool>)
    requires |u| == |v| <= 16 && u != v
    ensures Feed(crc, u) != Feed(crc, v)
  {
    FeedIsPaddedXor(crc, u);
    FeedIsPaddedXor(crc, v);
    PaddedXorDistinct(crc, u, v);
    if Feed(crc, u) == Feed(crc, v) {
      ShiftTimesInjective(Xor(crc, Pad(u)), Xor(crc, Pad(v)), |u|);
    }
  }

  function Pow2(n: nat): nat {
    if n == 0 then 1 else 2 * Pow2(n - 1)
  }

  lemma {:induction false} LowBitsInjective(x: nat, y: nat, n: nat)
    requires x < Pow2(n) && y < Pow2(n) && LowBits(x, n) == LowBits(y, n)
    ensures x == y
    decreases n
  {
    if n > 0 {
      assert LowBits(x, n)[0] == (x % 2 == 1) && LowBits(y, n)[0] == (y % 2 == 1);
      assert LowBits(x, n)[1..] == LowBits(x / 2, n - 1) && LowBits(y, n)[1..] == LowBits(y / 2, n - 1);
      LowBitsInjective(x / 2, y / 2, n - 1);
    }
  }

  lemma {:induction false} MessageBitsInjective(x: seq<byte>, y: seq<byte>)
    requires |x| == |y| && MessageBits(x) == MessageBits(y)
    ensures x == y
    decreases |x|
  {
    if x != [] {
      assert LowBits(x[0], 8) == MessageBits(x)[..8] && LowBits(y[0], 8) == MessageBits(y)[..8];
      assert MessageBits(x[1..]) == MessageBits(x)[8..] && MessageBits(y[1..]) == MessageBits(y)[8..];
      MessageBitsInjective(x[1..], y[1..]);
      assert Pow2(8) == 256;
      LowBitsInjective(x[0], y[0], 8);
      assert x == [x[0]] + x[1..] && y == [y[0]] + y[1..];
    }
  }

  lemma {:induction false} MessageBitsAppend(a: seq<byte>, b: seq<byte>)
    ensures MessageBits(a + b) == MessageBits(a) + MessageBits(b)
    decreases |a|
  {
    if a == [] {
      assert a + b == b;
    } else {
      assert (a + b)[1..] == a[1..] + b;
      MessageBitsAppend(a[1..], b);
    }
  }

  lemma AroundTheWindow(pre: seq<bool>, u: seq<bool>, v: seq<bool>, post: seq<bool>)
    requires |u| == |v| <= 16 && u != v
    ensures Complement(Feed(PRESET, pre + (u + post))) != Complement(Feed(PRESET, pre + (v + post)))
  {
    FeedAppend(PRESET, pre, u + post);
    FeedAppend(PRESET, pre, v + post);
    var crc := Feed(PRESET, pre);
    FeedAppend(crc, u, post);
    FeedAppend(crc, v, post);
    WindowReachesDistinctStates(crc, u, v);
    if Feed(Feed(crc, u), post) == Feed(Feed(crc, v), post) {
      FeedInjective(Feed(crc, u), Feed(crc, v), post);
    }
    ComplementDistinct(Feed(Feed(crc, u), post), Feed(Feed(crc, v), post));
  }

  lemma ComplementDistinct(a: Word, b: Word)
    requires a != b
    ensures Complement(a) != Complement(b)
  {
    var i :| 0 <= i < 16 && a[i] != b[i];
    assert Complement(a)[i] != Complement(b)[i];
  }

  /**
   Every burst of at most sixteen bits is detected: two different messages of one length whose
   bits agree outside a window of sixteen have different checksums.
   */
  lemma BurstDetected(x: seq<byte>, y: seq<byte>, from: nat)
    requires |x| == |y| && x != y && from <= 8 * |x|
    requires forall i :: 0 <= i < 8 * |x| && !(from <= i < from + 16) ==> MessageBits(x)[i] == MessageBits(y)[i]
    ensures Fcs(x) != Fcs(y)
  {
    var m, n := MessageBits(x), MessageBits(y);
    var to := if from + 16 <= |m| then from + 16 else |m|;
    if m == n {
      MessageBitsInjective(x, y);
    }
    SplitAround(m, n, from, to);
    AroundTheWindow(m[..from], m[from..to], n[from..to], m[to..]);
  }

  lemma SplitAround(m: seq<bool>, n: seq<bool>, from: nat, to: nat)
    requires |m| == |n| && from <= to <= |m| && m != n
    requires forall i :: 0 <= i < |m| && !(from <= i < to) ==> m[i] == n[i]
    ensures m == m[..from] + (m[from..to] + m[to..])
    ensures n == m[..from] + (n[from..to] + m[to..])
    ensures m[from..to] != n[from..to]
  {
    assert m[..from] == n[..from];
    assert m[to..] == n[to..];
    assert n == n[..from] + (n[from..to] + n[to..]);
  }

  /** Changing one byte, or two neighbouring bytes, anywhere in a string changes its checksum. */
  lemma BytesDetected(p: seq<byte>, u: seq<byte>, v: seq<byte>, s: seq<byte>)
    requires |u| == |v| <= 2 && u != v
    ensures Fcs(p + (u + s)) != Fcs(p + (v + s))
  {
    MessageBitsAppend(p, u + s);
    MessageBitsAppend(u, s);
    MessageBitsAppend(p, v + s);
    MessageBitsAppend(v, s);
    if MessageBits(u) == MessageBits(v) {
      MessageBitsInjective(u, v);
    }
    AroundTheWindow(MessageBits(p), MessageBits(u), MessageBits(v), MessageBits(s));
  }

  // ----- Parity -----

  /** Whether the number of ones is odd. */
  predicate Odd(bits: seq<bool>) {
    bits != [] && (bits[0] != Odd(bits[1..]))
  }

  /** The bit strings differ in so many places. */
  function Differences(m: seq<bool>, n: seq<bool>): nat
    requires |m| == |n|
    decreases |m|
  {
    if m == [] then 0 else (if m[0] != n[0] then 1 else 0) + Differences(m[1..], n[1..])
  }

  lemma {:induction false} OddAppend(a: seq<bool>, b: seq<bool>)
    ensures Odd(a + b) <==> Odd(a) != Odd(b)
    decreases |a|
  {
    if a == [] {
      assert a + b == b;
    } else {
      assert (a + b)[1..] == a[1..] + b;
      OddAppend(a[1..], b);
    }
  }

  lemma {:induction false} OddXor(a: seq<bool>, b: seq<bool>, c: seq<bool>)
    requires |a| == |b| == |c| && forall i :: 0 <= i < |c| ==> c[i] == (a[i] != b[i])
    ensures Odd(c) <==> Odd(a) != Odd(b)
    decreases |a|
  {
    if a != [] { OddXor(a[1..], b[1..], c[1..]); }
  }

  lemma {:induction false} OddConstant(bits: seq<bool>, bit: bool)
    requires forall i :: 0 <= i < |bits| ==> bits[i] == bit
    ensures Odd(bits) <==> bit && |bits| % 2 == 1
    decreases |bits|
  {
    if bits != [] { OddConstant(bits[1..], bit); }
  }

  lemma OddLastOnly(bits: seq<bool>)
    requires bits != [] && bits[|bits| - 1] && forall i :: 0 <= i < |bits| - 1 ==> !bits[i]
    ensures Odd(bits)
  {
    var zeros := bits[..|bits| - 1];
    OddConstant(zeros, false);
    OddConstant([true], true);
    OddAppend(zeros, [true]);
    assert bits == zeros + [true];
  }

  /** The polynomial, without its highest term, has three. */
  lemma PolynomialOdd()
    ensures Odd(POLYNOMIAL)
  {
    PolynomialBits();
    var a, b, c := POLYNOMIAL[..4], POLYNOMIAL[4..11], POLYNOMIAL[11..];
    OddLastOnly(a);
    OddLastOnly(b);
    OddLastOnly(c);
    OddAppend(a, b);
    OddAppend(a + b, c);
    assert POLYNOMIAL == a + b + c;
  }

  lemma MovedParity(w: Word)
    ensures Odd(w[1..] + [false]) == (w[0] != Odd(w))
  {
    OddConstant([false], false);
    OddAppend(w[1..], [false]);
  }

  lemma PolynomialTurnsParity(w: Word)
    ensures Odd(Xor(w, POLYNOMIAL)) == !Odd(w)
  {
    PolynomialOdd();
    OddXor(w, POLYNOMIAL, Xor(w, POLYNOMIAL));
  }

  /** So a shift, which drops a one just when it adds them, keeps the parity. */
  lemma ShiftKeepsParity(w: Word)
    ensures Odd(Shift(w)) == Odd(w)
  {
    MovedParity(w);
    if w[0] { PolynomialTurnsParity(w[1..] + [false]); }
  }

  lemma {:induction false} FeedParity(crc: Word, bits: seq<bool>)
    ensures Odd(Feed(crc, bits)) <==> Odd(crc) != Odd(bits)
    decreases |bits|
  {
    if bits != [] {
      var next := crc[0 := crc[0] != bits[0]];
      assert next[1..] == crc[1..];
      ShiftKeepsParity(next);
      FeedParity(Shift(next), bits[1..]);
    }
  }

  lemma ComplementKeepsParity(w: Word)
    ensures Odd(Complement(w)) == Odd(w)
  {
    var ones := seq(16, _ => true);
    OddConstant(ones, true);
    OddXor(w, ones, Complement(w));
  }

  lemma PresetOnes()
    ensures forall i :: 0 <= i < 16 ==> PRESET[i]
  {
  }

  /** The checksum of a string has the parity of the string. */
  lemma ParityKept(x: seq<byte>)
    ensures Odd(Fcs(x)) == Odd(MessageBits(x))
  {
    PresetOnes();
    OddConstant(PRESET, true);
    FeedParity(PRESET, MessageBits(x));
    ComplementKeepsParity(Feed(PRESET, MessageBits(x)));
  }

  lemma {:induction false} DifferencesParity(m: seq<bool>, n: seq<bool>)
    requires |m| == |n|
    ensures Differences(m, n) % 2 == 1 <==> Odd(m) != Odd(n)
    decreases |m|
  {
    if m != [] { DifferencesParity(m[1..], n[1..]); }
  }

  /** Every change of an odd number of bits is detected, wherever they are. */
  lemma OddChangesDetected(x: seq<byte>, y: seq<byte>)
    requires |x| == |y| && Differences(MessageBits(x), MessageBits(y)) % 2 == 1
    ensures Fcs(x) != Fcs(y)
  {
    DifferencesParity(MessageBits(x), MessageBits(y));
    ParityKept(x);
    ParityKept(y);
  }
}
