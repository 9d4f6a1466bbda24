/** 64-bit varints: three 28-bit parts, joined by 32-bit operations when reading. */
module Varint64 {
  import opened Basics
  import opened Varint

  // `Number(value) >>> 0` is exact up to 2^53 in magnitude, the range of this model.

  function Part0(v: int): nat { v % TWO32 }

  function Part1(v: int): nat { (v / TWO28) % TWO32 }

  function Part2(v: int): nat { (v / TWO56) % TWO32 }

  /** `calculateVarint64`. */
  function CalculateVarint64(v: int): nat {
    if Part2(v) == 0 then
      if Part1(v) == 0 then
        if Part0(v) < TWO14 then (if Part0(v) < TWO7 then 1 else 2)
        else (if Part0(v) < TWO21 then 3 else 4)
      else
        if Part1(v) < TWO14 then (if Part1(v) < TWO7 then 5 else 6)
        else (if Part1(v) < TWO21 then 7 else 8)
    else if Part2(v) < TWO7 then 9
    else 10
  }

  /** The byte `setUint8` stores: the low eight bits of `part | 0x80`, or of `part & 0x7f` for the last byte. */
  function ByteOf(part: nat, last: bool): byte {
    if last then (part % 128) as byte else (part % 128 + 128) as byte
  }

  /** Four digits with continuation bits. */
  function Four(part: nat): seq<byte> {
    [ByteOf(part, false), ByteOf(part / TWO7, false), ByteOf(part / TWO14, false), ByteOf(part / TWO21, false)]
  }

  /** The final `n` digits, of which the last has no continuation bit. */
  function Last(part: nat, n: nat): (s: seq<byte>)
    requires 1 <= n <= 4
    ensures |s| == n
  {
    match n
    case 1 => [ByteOf(part, true)]
    case 2 => [ByteOf(part, false), ByteOf(part / TWO7, true)]
    case 3 => [ByteOf(part, false), ByteOf(part / TWO7, false), ByteOf(part / TWO14, true)]
    case _ => [ByteOf(part, false), ByteOf(part / TWO7, false), ByteOf(part / TWO14, false), ByteOf(part / TWO21, true)]
  }

  /** The bytes the switch of `writeVarint64` stores. */
  function Write64(v: int): (s: seq<byte>)
    ensures |s| == CalculateVarint64(v)
  {
    var size := CalculateVarint64(v);
    if size <= 4 then Last(Part0(v), size)
    else if size <= 8 then Four(Part0(v)) + Last(Part1(v), size - 4)
    else if size == 9 then Four(Part0(v)) + Four(Part1(v)) + [ByteOf(Part2(v), true)]
    else Four(Part0(v)) + Four(Part1(v)) + [ByteOf(Part2(v), false), ((Part2(v) / TWO7) % 2) as byte]
  }

  /** The two's complement of `v` in 64 bits. */
  function ToUint64(v: int): nat {
    v % TWO64
  }

  /** The first four digits of a number that has more. */
  lemma FourDigits(u: nat)
    requires u >= TWO28
    ensures Encode(u) == Four(u) + Encode(u / TWO28)
  {
    var u1, u2, u3, u4 := u / TWO7, u / TWO14, u / TWO21, u / TWO28;
    assert u1 / 128 == u2 && u2 / 128 == u3 && u3 / 128 == u4;
    assert Encode(u3) == [ByteOf(u3, false)] + Encode(u4);
    assert Encode(u2) == [ByteOf(u2, false)] + Encode(u3);
    assert Encode(u1) == [ByteOf(u1, false)] + Encode(u2);
    assert Encode(u) == [ByteOf(u, false)] + Encode(u1);
  }

  /** All digits of a number that has at most four. */
  lemma FewDigits(u: nat)
    requires u < TWO28
    ensures Encode(u) == Last(u, if u < TWO7 then 1 else if u < TWO14 then 2 else if u < TWO21 then 3 else 4)
  {
    var u1, u2, u3 := u / TWO7, u / TWO14, u / TWO21;
    assert u1 / 128 == u2 && u2 / 128 == u3;
    if u >= TWO7 {
      assert Encode(u) == [ByteOf(u, false)] + Encode(u1);
      if u >= TWO14 {
        assert Encode(u1) == [ByteOf(u1, false)] + Encode(u2);
        if u >= TWO21 {
          assert Encode(u2) == [ByteOf(u2, false)] + Encode(u3);
        }
      }
    }
  }

  lemma SmallWritten(v: int)
    requires 0 <= v < TWO28
    ensures Write64(v) == Encode(v)
  {
    hide Encode;
    FewDigits(v);
    SmallParts(v);
  }

  lemma SmallParts(v: int)
    requires 0 <= v < TWO28
    ensures Part0(v) == v && Part1(v) == 0 && Part2(v) == 0
  {
  }

  lemma MediumWritten(v: int)
    requires TWO28 <= v <= TWO53
    ensures Write64(v) == Encode(v)
  {
    FourDigits(v);
    FewDigits(v / TWO28);
    FourOfLow(v, v);
    MediumParts(v);
  }

  lemma MediumParts(v: int)
    requires TWO28 <= v <= TWO53
    ensures Part1(v) == v / TWO28 && 0 < Part1(v) < TWO28 && Part2(v) == 0
  {
  }

  lemma ModOfSum(x: int, m: int)
    ensures (x + 128 * m) % 128 == x % 128
  {
  }

  lemma DivOfSum(r: int, m: int)
    ensures (r + TWO7 * m) / TWO7 == r / TWO7 + m
    ensures (r + TWO14 * m) / TWO14 == r / TWO14 + m
    ensures (r + TWO21 * m) / TWO21 == r / TWO21 + m
  {
  }

  /** The low 28 bits of a number are those of its low 32. */
  lemma LowPart(v: int)
    ensures Part0(v) % 128 == v % 128
    ensures (Part0(v) / TWO7) % 128 == (v / TWO7) % 128
    ensures (Part0(v) / TWO14) % 128 == (v / TWO14) % 128
    ensures (Part0(v) / TWO21) % 128 == (v / TWO21) % 128
  {
    var q, r := v / TWO32, v % TWO32;
    assert v == r + TWO32 * q;
    ModOfSum(r, q * 0x200_0000);
    DivOfSum(r, q * 0x200_0000);
    ModOfSum(r / TWO7, q * 0x4_0000);
    DivOfSum(r, q * 0x4_0000);
    ModOfSum(r / TWO14, q * 0x800);
    DivOfSum(r, q * 0x800);
    ModOfSum(r / TWO21, q * 0x10);
  }

  lemma NegativeParts(v: int)
    requires -TWO53 <= v < 0
    ensures ToUint64(v) == v + TWO64
    ensures Part2(v) == TWO32 - 1
    ensures ToUint64(v) / TWO56 == 255
    ensures CalculateVarint64(v) == 10
  {
  }

  /** Parts 0 and 1 of a negative number are parts of its two's complement. */
  lemma ComplementParts(v: int)
    requires -TWO53 <= v < 0
    ensures Part0(v) == Part0(v + TWO64)
    ensures (v + TWO64) / TWO28 == v / TWO28 + TWO64 / TWO28
    ensures Part1(v) == Part0((v + TWO64) / TWO28)
    ensures (v + TWO64) / TWO28 >= TWO28
    ensures (v + TWO64) / TWO28 / TWO28 == 255
  {
    var q := v / TWO28;
    assert (v + TWO64) / TWO28 == q + 0x10_0000_0000;
    assert 0x10_0000_0000 == 16 * TWO32;
  }

  lemma NegativeEncoded(v: int)
    requires -TWO53 <= v < 0
    ensures Encode(v + TWO64) == Four(v + TWO64) + (Four((v + TWO64) / TWO28) + [255, 1])
  {
    ComplementParts(v);
    FourDigits(v + TWO64);
    FourDigits((v + TWO64) / TWO28);
    assert Encode(255) == [255] + Encode(1);
  }

  lemma FourOfLow(v: int, u: nat)
    requires Part0(v) == Part0(u)
    ensures Four(Part0(v)) == Four(u)
  {
    LowPart(u);
  }

  lemma NegativeWritten(v: int)
    requires -TWO53 <= v < 0
    ensures Write64(v) == Encode(ToUint64(v))
  {
    var u := v + TWO64;
    NegativeParts(v);
    NegativeEncoded(v);
    NegativeBytes(v);
    ComplementParts(v);
    FourOfLow(v, u);
    FourOfLow(u / TWO28, u / TWO28);
  }

  lemma NegativeBytes(v: int)
    requires -TWO53 <= v < 0
    ensures Write64(v) == Four(Part0(v)) + (Four(Part1(v)) + [255, 1])
  {
    NegativeParts(v);
    assert ByteOf(TWO32 - 1, false) == 255 && ((TWO32 - 1) / TWO7) % 2 == 1;
    assert Four(Part0(v)) + Four(Part1(v)) + [255, 1] == Four(Part0(v)) + (Four(Part1(v)) + [255, 1]);
  }

  /** The writer emits the standard encoding of the 64-bit two's complement, in `calculateVarint64` bytes. */
  lemma WritesStandardEncoding(v: int)
    requires -TWO53 <= v <= TWO53
    ensures Write64(v) == Encode(ToUint64(v))
    ensures CalculateVarint64(v) == |Encode(ToUint64(v))|
  {
    if v < 0 {
      NegativeWritten(v);
    } else if v < TWO28 {
      SmallWritten(v);
    } else {
      MediumWritten(v);
    }
  }

  // Reading.

  /** The payloads of up to ten bytes. */
  function Septets(bytes: seq<byte>, pos: nat, c: nat): Result<seq<nat>, ReadError>
    requires c < 10
    decreases 10 - c
  {
    if pos >= |bytes| then Err(OutOfRange)
    else
      var b := bytes[pos] as int;
      if b < 128 then Ok([b])
      else if c == 9 then Err(Overrun)
      else
        var rest := Septets(bytes, pos + 1, c + 1);
        if rest.Ok? then Ok([b - 128] + rest.value) else rest
  }

  function At(s: seq<nat>, i: nat): nat {
    if i < |s| then s[i] else 0
  }

  /** Four payloads joined by `|=` with shifts of 0, 7, 14 and 21. */
  function Joined(s: seq<nat>, i: nat): nat {
    At(s, i) + At(s, i + 1) * TWO7 + At(s, i + 2) * TWO14 + At(s, i + 3) * TWO21
  }

  /**
   * `BigInt(part0 | (part1 << 28)) | (BigInt((part1 >>> 4) | (part2 << 24)) << 32n)`:
   * both halves are signed 32-bit numbers, and a negative lower half has all
   * higher bits set, which hides the upper half.
   */
  function Combine(part0: nat, part1: nat, part2: nat): int {
    var low := ToInt32(part0 + part1 % 16 * TWO28);
    var high := ToInt32(part1 / 16 + part2 % 256 * 0x100_0000);
    if low < 0 then low else low + high * TWO32
  }

  function Read64(bytes: seq<byte>, at: nat): Result<Reading, ReadError> {
    var s := Septets(bytes, at, 0);
    if s.Err? then Err(s.error)
    else Ok(Reading(Combine(Joined(s.value, 0), Joined(s.value, 4), At(s.value, 8) + At(s.value, 9) * TWO7), |s.value|))
  }

  function Digits(u: nat): (s: seq<nat>)
    ensures |s| > 0
  {
    if u < 128 then [u] else [u % 128] + Digits(u / 128)
  }

  lemma {:induction false} SeptetsOfEncoding(bytes: seq<byte>, pos: nat, c: nat, u: nat)
    requires HoldsAt(bytes, pos, Encode(u)) && c + |Encode(u)| <= 10 && c < 10
    ensures Septets(bytes, pos, c) == Ok(Digits(u)) && |Digits(u)| == |Encode(u)|
    decreases u
  {
    if u < 128 {
      HoldsHead(bytes, pos, u as byte, []);
    } else {
      var head := (u % 128 + 128) as byte;
      assert Encode(u) == [head] + Encode(u / 128);
      HoldsHead(bytes, pos, head, Encode(u / 128));
      SeptetsOfEncoding(bytes, pos + 1, c + 1, u / 128);
    }
  }

  lemma DigitsNext(u: nat, i: nat)
    ensures At(Digits(u), 0) == u % 128
    ensures At(Digits(u), i + 1) == At(Digits(u / 128), i)
  {
  }

  lemma DigitsDrop(u: nat, i: nat)
    ensures At(Digits(u), i + 4) == At(Digits(u / TWO28), i)
  {
    DigitsNext(u, i + 3);
    DigitsNext(u / 128, i + 2);
    DigitsNext(u / 128 / 128, i + 1);
    DigitsNext(u / 128 / 128 / 128, i);
    assert u / 128 / 128 / 128 / 128 == u / TWO28;
  }

  lemma JoinedLow(u: nat)
    ensures Joined(Digits(u), 0) == u % TWO28
  {
    DigitsNext(u, 0);
    DigitsNext(u, 1);
    DigitsNext(u, 2);
    DigitsNext(u / 128, 0);
    DigitsNext(u / 128, 1);
    DigitsNext(u / 128 / 128, 0);
    DigitsNext(u / 128 / 128 / 128, 0);
    assert u / 128 / 128 == u / TWO14 && u / 128 / 128 / 128 == u / TWO21;
    FourSeptets(u);
  }

  lemma FourSeptets(u: nat)
    ensures u % 128 + u / TWO7 % 128 * TWO7 + u / TWO14 % 128 * TWO14 + u / TWO21 % 128 * TWO21 == u % TWO28
  {
    assert u / TWO14 == u / TWO7 / 128 && u / TWO21 == u / TWO14 / 128 && u / TWO28 == u / TWO21 / 128;
  }

  /** The parts read back from an encoded 64-bit number. */
  lemma PartsOfEncoding(u: nat)
    requires u < TWO64
    ensures Joined(Digits(u), 0) == u % TWO28
    ensures Joined(Digits(u), 4) == u / TWO28 % TWO28
    ensures At(Digits(u), 8) + At(Digits(u), 9) * TWO7 == u / TWO56
  {
    var w := u / TWO28;
    JoinedLow(u);
    JoinedLow(w);
    DigitsDrop(u, 0);
    DigitsDrop(u, 1);
    DigitsDrop(u, 2);
    DigitsDrop(u, 3);
    var t := w / TWO28;
    assert t == u / TWO56 && t < 256;
    DigitsDrop(u, 4);
    DigitsDrop(u, 5);
    DigitsDrop(w, 0);
    DigitsDrop(w, 1);
    DigitsNext(t, 0);
    DigitsNext(t / 128, 0);
  }

  /** What the parts of `v` combine to: the upper half is lost when bit 31 is set. */
  lemma CombineParts(v: int)
    requires -TWO63 <= v < TWO63
    ensures var u := ToUint64(v);
            Combine(u % TWO28, u / TWO28 % TWO28, u / TWO56) == if v % TWO32 < TWO31 then v else v % TWO32 - TWO32
  {
    hide ToUint64, ToInt32;
    var u := ToUint64(v);
    HighSigned(v);
    LowHalf(u);
    HighHalf(u);
    CombineHalves(u % TWO28, u / TWO28 % TWO28, u / TWO56, v % TWO32, u / TWO32);
    assert v == v % TWO32 + v / TWO32 * TWO32;
  }

  /** The two halves, each read as a signed number. */
  lemma CombineHalves(part0: nat, part1: nat, part2: nat, low: nat, high: nat)
    requires part0 + part1 % 16 * TWO28 == low < TWO32
    requires part1 / 16 + part2 % 256 * 0x100_0000 == high
    ensures Combine(part0, part1, part2) == if low < TWO31 then low + ToInt32(high) * TWO32 else low - TWO32
  {
  }

  lemma LowHalf(u: nat)
    requires u < TWO64
    ensures u % TWO28 + u / TWO28 % TWO28 % 16 * TWO28 == u % TWO32
  {
    var w := u / TWO28;
    assert u == w * TWO28 + u % TWO28;
    assert w % TWO28 % 16 == w % 16;
    assert w / 16 == u / TWO32;
  }

  lemma HighHalf(u: nat)
    requires u < TWO64
    ensures u / TWO28 % TWO28 / 16 + u / TWO56 % 256 * 0x100_0000 == u / TWO32
  {
    var w := u / TWO28;
    assert w / TWO28 == u / TWO56 && w / 16 == u / TWO32;
    assert w == w / TWO28 * TWO28 + w % TWO28;
  }

  /** The upper half of the two's complement, read as a signed number. */
  lemma HighSigned(v: int)
    requires -TWO63 <= v < TWO63
    ensures ToUint64(v) < TWO64 && ToUint64(v) % TWO32 == v % TWO32
    ensures ToInt32(ToUint64(v) / TWO32) == v / TWO32
  {
    if v >= 0 {
      assert ToUint64(v) == v;
    } else {
      assert ToUint64(v) == v + TWO64;
      assert (v + TWO64) / TWO32 == v / TWO32 + TWO32;
    }
  }

  /** Bit 31 of a number's two's complement. */
  predicate Bit31(v: int) {
    v / TWO31 % 2 == 1
  }

  function Survivor(v: int): int {
    if Bit31(v) then v % TWO32 - TWO32 else v
  }

  lemma SurvivorIff(v: int)
    ensures Survivor(v) == v <==> -TWO31 <= v < TWO31 || !Bit31(v)
    ensures Survivor(v) == if v % TWO32 < TWO31 then v else v % TWO32 - TWO32
  {
    assert v == v / TWO31 * TWO31 + v % TWO31;
  }

  lemma ReadsParts(bytes: seq<byte>, at: nat, u: nat)
    requires u < TWO64 && |Encode(u)| <= 10 && HoldsAt(bytes, at, Encode(u))
    ensures Read64(bytes, at) == Ok(Reading(Combine(u % TWO28, u / TWO28 % TWO28, u / TWO56), |Encode(u)|))
  {
    SeptetsOfEncoding(bytes, at, 0, u);
    PartsOfEncoding(u);
  }

  /**
   * Round trip of 64-bit varints: the reader takes exactly the bytes written,
   * and returns the value if and only if it fits 32 signed bits or its bit 31
   * is clear.
   */
  lemma RoundTrip64(bytes: seq<byte>, at: nat, v: int)
    requires -TWO53 <= v <= TWO53 && HoldsAt(bytes, at, Write64(v))
    ensures Read64(bytes, at) == Ok(Reading(Survivor(v), CalculateVarint64(v)))
    ensures Read64(bytes, at).value.value == v <==> -TWO31 <= v < TWO31 || !Bit31(v)
  {
    WritesStandardEncoding(v);
    Size64(v);
    ReadsParts(bytes, at, ToUint64(v));
    CombineParts(v);
    SurvivorIff(v);
  }

  lemma Size64(v: int)
    ensures 1 <= CalculateVarint64(v) <= 10
  {
  }

  // ZigZag.

  /** `x ^ m` for an `m` of all zeros or all ones. */
  function XorMask(x: int, ones: bool): int {
    if ones then -x - 1 else x
  }

  /** `(n << 1) ^ (n >> 31)`, unsigned; the 64-bit form differs only in the range of `n`. */
  function ZigZagEncode(n: int): int {
    XorMask(2 * n, n < 0)
  }

  /** `(n >> 1) ^ -(n & 1)`. */
  function ZigZagDecode(n: int): int {
    XorMask(n / 2, n % 2 == 1)
  }

  /** ZigZag is a bijection from the signed to the unsigned numbers of any width. */
  lemma ZigZagBijective(n: int, u: nat, half: int)
    requires half > 0
    ensures ZigZagEncode(n) >= 0 && ZigZagDecode(ZigZagEncode(n)) == n
    ensures ZigZagEncode(ZigZagDecode(u)) == u
    ensures -half <= n < half <==> ZigZagEncode(n) < 2 * half
  {
  }

  /** A zigzag varint of a 32-bit number reads back as that number. */
  lemma RoundTripZigZag32(bytes: seq<byte>, limit: int, at: nat, n: int)
    requires -TWO31 <= n < TWO31
    requires HoldsAt(bytes, at, Encode(ToUint32(ZigZagEncode(n))))
    requires limit >= at + |Encode(ToUint32(ZigZagEncode(n)))| - 1
    ensures Read32(bytes, limit, at).Ok?
    ensures ZigZagDecode(ToUint32(Read32(bytes, limit, at).value.value)) == n
  {
    hide Read32, HoldsAt, Encode;
    Read32Decodes(bytes, limit, at, ZigZagEncode(n));
    ZigZagBijective(n, 0, TWO31);
    UnsignedAgain(ZigZagEncode(n));
  }

  lemma UnsignedAgain(u: nat)
    requires u < TWO32
    ensures ToUint32(ToInt32(u)) == u
  {
  }

  /** Losing the upper half of a code always changes what it decodes to. */
  lemma DecodedSurvivor(n: int)
    ensures ZigZagDecode(Survivor(ZigZagEncode(n))) == n <==> Survivor(ZigZagEncode(n)) == ZigZagEncode(n)
  {
    var code := ZigZagEncode(n);
    SurvivorIff(code);
    if Survivor(code) != code {
      assert Survivor(code) < 0 && Survivor(code) % 2 == code % 2;
    }
  }

  /** A zigzag varint of a 64-bit number reads back exactly when its code does. */
  lemma RoundTripZigZag64(bytes: seq<byte>, at: nat, n: int)
    requires ZigZagEncode(n) <= TWO53 && HoldsAt(bytes, at, Write64(ZigZagEncode(n)))
    ensures Read64(bytes, at).Ok?
    ensures ZigZagDecode(Read64(bytes, at).value.value) == n <==> ZigZagEncode(n) < TWO31 || !Bit31(ZigZagEncode(n))
  {
    RoundTrip64(bytes, at, ZigZagEncode(n));
    DecodedSurvivor(n);
  }
}
