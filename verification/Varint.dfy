/**
 * Base-128 varints (Protocol Buffers Encoding, "Base 128 Varints" and the
 * ZigZag part of "Signed Integers"), and the JavaScript number conversions
 * that reading and writing them go through.
 */
module Varint {
  import opened Basics

  const TWO7: int := 0x80
  const TWO14: int := 0x4000
  const TWO21: int := 0x20_0000
  const TWO28: int := 0x1000_0000
  const TWO31: int := 0x8000_0000
  const TWO32: int := 0x1_0000_0000
  const TWO53: int := 0x20_0000_0000_0000
  const TWO56: int := 0x100_0000_0000_0000
  const TWO63: int := 0x8000_0000_0000_0000
  const TWO64: int := 0x1_0000_0000_0000_0000

  /** `x >>> 0`. */
  function ToUint32(x: int): (u: int)
    ensures 0 <= u < TWO32
  {
    x % TWO32
  }

  /** `x | 0`. */
  function ToInt32(x: int): (i: int)
    ensures -TWO31 <= i < TWO31 && ToUint32(i) == ToUint32(x)
  {
    var u := x % TWO32;
    if u < TWO31 then u else u - TWO32
  }

  /** The base-128 digits of `u`, least significant first, all but the last with the continuation bit. */
  function Encode(u: nat): (s: seq<byte>)
    ensures |s| > 0
  {
    if u < 128 then [u as byte] else [(u % 128 + 128) as byte] + Encode(u / 128)
  }

  /** `calculateVarint32`. */
  function CalculateVarint32(value: int): nat {
    var u := ToUint32(value);
    if u < TWO7 then 1
    else if u < TWO14 then 2
    else if u < TWO21 then 3
    else if u < TWO28 then 4
    else 5
  }

  lemma Size32(value: int)
    ensures CalculateVarint32(value) == |Encode(ToUint32(value))|
  {
    var u := ToUint32(value);
    assert u / 128 / 128 / 128 / 128 < 128;
    if u >= 128 {
      assert Encode(u) == [(u % 128 + 128) as byte] + Encode(u / 128);
      if u / 128 >= 128 {
        assert |Encode(u / 128)| == 1 + |Encode(u / 128 / 128)|;
        if u / 128 / 128 >= 128 {
          assert |Encode(u / 128 / 128)| == 1 + |Encode(u / 128 / 128 / 128)|;
        }
      }
    }
  }

  // Reading.

  datatype ReadError = Truncated | OutOfRange | Overrun

  /** A decoded value and the number of bytes it took. */
  datatype Reading = Reading(value: int, length: nat)

  /** `septet << 7 * c`, as the unsigned 32-bit number it leaves. */
  function Shifted(septet: nat, c: nat): nat
    requires c < 5
  {
    match c
    case 0 => septet
    case 1 => septet * TWO7
    case 2 => septet * TWO14
    case 3 => septet * TWO21
    case _ => (septet * TWO28) % TWO32
  }

  /** The loop of `readVarint32` after `c` bytes; the bits of different bytes do not overlap, so `|=` adds. */
  function ReadLoop(bytes: seq<byte>, limit: int, pos: nat, c: nat, acc: nat): Result<Reading, ReadError>
    decreases |bytes| - pos
  {
    if pos > limit then Err(Truncated)
    else if pos >= |bytes| then Err(OutOfRange)
    else
      var b := bytes[pos] as int;
      var acc' := if c < 5 then acc + Shifted(b % 128, c) else acc;
      if b >= 128 then ReadLoop(bytes, limit, pos + 1, c + 1, acc')
      else Ok(Reading(ToInt32(acc'), c + 1))
  }

  function Read32(bytes: seq<byte>, limit: int, at: nat): Result<Reading, ReadError> {
    if at + 1 > |bytes| then Err(OutOfRange) else ReadLoop(bytes, limit, at, 0, 0)
  }

  /** `bytes` holds `data` from `at` on. */
  predicate HoldsAt(bytes: seq<byte>, at: nat, data: seq<byte>) {
    at + |data| <= |bytes| && bytes[at..at + |data|] == data
  }

  lemma HoldsHead(bytes: seq<byte>, at: nat, head: byte, tail: seq<byte>)
    requires HoldsAt(bytes, at, [head] + tail)
    ensures at < |bytes| && bytes[at] == head && HoldsAt(bytes, at + 1, tail)
  {
    assert bytes[at..at + 1 + |tail|][0] == head;
    assert bytes[at + 1..at + 1 + |tail|] == bytes[at..at + 1 + |tail|][1..];
  }

  /** `w * 128^c`, without wrapping. */
  function Placed(w: nat, c: nat): nat
    requires c < 5
  {
    match c
    case 0 => w
    case 1 => w * TWO7
    case 2 => w * TWO14
    case 3 => w * TWO21
    case _ => w * TWO28
  }

  /** One turn of the loop over a byte with its continuation bit. */
  lemma ReadLoopTurn(bytes: seq<byte>, limit: int, pos: nat, c: nat, acc: nat, w: nat)
    requires c < 5 && w >= 128 && HoldsAt(bytes, pos, Encode(w)) && limit >= pos
    ensures HoldsAt(bytes, pos + 1, Encode(w / 128)) && |Encode(w)| == 1 + |Encode(w / 128)|
    ensures ReadLoop(bytes, limit, pos, c, acc) == ReadLoop(bytes, limit, pos + 1, c + 1, acc + Shifted(w % 128, c))
  {
    var head := (w % 128 + 128) as byte;
    assert Encode(w) == [head] + Encode(w / 128);
    HoldsHead(bytes, pos, head, Encode(w / 128));
    assert head as int % 128 == w % 128;
  }

  lemma {:induction false} ReadLoopDecodes(bytes: seq<byte>, limit: int, pos: nat, c: nat, acc: nat, w: nat)
    requires c < 5 && HoldsAt(bytes, pos, Encode(w)) && limit >= pos + |Encode(w)| - 1
    requires Placed(w, c) + acc < TWO32
    ensures ReadLoop(bytes, limit, pos, c, acc) == Ok(Reading(ToInt32(acc + Placed(w, c)), c + |Encode(w)|))
    decreases w
  {
    if w < 128 {
      HoldsHead(bytes, pos, w as byte, []);
      ShiftedIsPlaced(w, c);
    } else {
      ReadLoopTurn(bytes, limit, pos, c, acc, w);
      PlacedSplits(w, c);
      ShiftedIsPlaced(w % 128, c);
      ReadLoopDecodes(bytes, limit, pos + 1, c + 1, acc + Shifted(w % 128, c), w / 128);
    }
  }

  lemma ShiftedIsPlaced(septet: nat, c: nat)
    requires c < 5 && Placed(septet, c) < TWO32
    ensures Shifted(septet, c) == Placed(septet, c)
  {
  }

  /** Taking the low digit off at one position leaves the rest at the next. */
  lemma PlacedSplits(w: nat, c: nat)
    requires c < 5 && w >= 128 && Placed(w, c) < TWO32
    ensures c < 4
    ensures Placed(w, c) == Placed(w % 128, c) + Placed(w / 128, c + 1)
  {
  }

  /** Reading back a written 32-bit varint, with the limit at or past its last byte. */
  lemma Read32Decodes(bytes: seq<byte>, limit: int, at: nat, value: int)
    requires HoldsAt(bytes, at, Encode(ToUint32(value)))
    requires limit >= at + |Encode(ToUint32(value))| - 1
    ensures Read32(bytes, limit, at) == Ok(Reading(ToInt32(value), CalculateVarint32(value)))
  {
    ReadLoopDecodes(bytes, limit, at, 0, 0, ToUint32(value));
    Size32(value);
  }

  /** The bytes from `at` up to `e` all ask for another one. */
  predicate Continues(bytes: seq<byte>, at: nat, e: nat) {
    e <= |bytes| && forall k :: at <= k < e ==> bytes[k] >= 128
  }

  /** A number ends at `e`: the first byte from `at` on that asks for no other. */
  predicate EndsAt(bytes: seq<byte>, at: nat, e: nat) {
    at <= e < |bytes| && Continues(bytes, at, e) && bytes[e] < 128
  }

  lemma {:induction false} LoopEnds(bytes: seq<byte>, limit: int, pos: nat, c: nat, acc: nat, e: nat)
    requires EndsAt(bytes, pos, e)
    ensures var r := ReadLoop(bytes, limit, pos, c, acc);
            if e <= limit then r.Ok? && r.value.length == c + (e + 1 - pos) else r == Err(Truncated)
    decreases e - pos
  {
    if pos < e {
      LoopEnds(bytes, limit, pos + 1, c + 1, if c < 5 then acc + Shifted(bytes[pos] as int % 128, c) else acc, e);
    }
  }

  lemma {:induction false} LoopRunsOut(bytes: seq<byte>, limit: int, pos: nat, c: nat, acc: nat)
    requires Continues(bytes, pos, |bytes|) && pos <= |bytes|
    ensures ReadLoop(bytes, limit, pos, c, acc) == Err(if limit < |bytes| then Truncated else OutOfRange)
    decreases |bytes| - pos
  {
    if pos < |bytes| && pos <= limit {
      LoopRunsOut(bytes, limit, pos + 1, c + 1, if c < 5 then acc + Shifted(bytes[pos] as int % 128, c) else acc);
    }
  }

  /**
   * How a read ends: out of range when it starts behind the buffer, or runs to
   * its end without having passed the limit; truncated when it passes the limit.
   */
  lemma Read32Ends(bytes: seq<byte>, limit: int, at: nat)
    ensures at >= |bytes| ==> Read32(bytes, limit, at) == Err(OutOfRange)
    ensures forall e: nat | EndsAt(bytes, at, e) ::
              if e <= limit then Read32(bytes, limit, at).Ok? && Read32(bytes, limit, at).value.length == e + 1 - at
              else Read32(bytes, limit, at) == Err(Truncated)
    ensures at < |bytes| && Continues(bytes, at, |bytes|) ==>
              Read32(bytes, limit, at) == Err(if limit < |bytes| then Truncated else OutOfRange)
  {
    hide ReadLoop;
    forall e: nat | EndsAt(bytes, at, e)
      ensures if e <= limit then Read32(bytes, limit, at).Ok? && Read32(bytes, limit, at).value.length == e + 1 - at
              else Read32(bytes, limit, at) == Err(Truncated)
    {
      LoopEnds(bytes, limit, at, 0, 0, e);
    }
    if at < |bytes| && Continues(bytes, at, |bytes|) {
      LoopRunsOut(bytes, limit, at, 0, 0);
    }
  }
}
