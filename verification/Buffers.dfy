/**
 * `ByteBuffer` with assertions on: a byte array that grows by doubling, with
 * an offset, a mark and a limit, all updated in place.
 */
module Buffers {
  import opened Basics
  import opened Varint
  import V64 = Varint64

  datatype BufferError = IllegalOffset | IllegalCapacity

  /** The capacity `ensureCapacity` and every writing method ask for. */
  function Grown(capacity: nat, needed: nat): nat {
    if needed <= capacity then capacity
    else if 2 * capacity > needed then 2 * capacity
    else needed
  }

  /** `resize` accepts the capacity, which it first truncates to 32 signed bits. */
  predicate Growable(capacity: nat, needed: nat) {
    needed <= capacity || ToInt32(Grown(capacity, needed)) >= 0
  }

  /** Room cannot be made when twice the capacity, or the end needed if it is further, reaches 2^31. */
  lemma GrowableIff(capacity: nat, needed: nat)
    requires capacity < TWO31 && needed <= TWO32
    ensures Growable(capacity, needed) <==>
              needed <= capacity || (2 * capacity < TWO31 && needed < TWO31) || needed == TWO32
  {
  }

  /** Old contents, padded with zeros up to a new capacity. */
  function Padded(bytes: seq<byte>, capacity: nat): (r: seq<byte>)
    requires |bytes| <= capacity
    ensures |r| == capacity
  {
    bytes + seq(capacity - |bytes|, _ => 0)
  }

  lemma OldThenZeros(bytes: seq<byte>, capacity: nat)
    requires |bytes| <= capacity
    ensures bytes <= Padded(bytes, capacity)
    ensures forall i :: |bytes| <= i < capacity ==> Padded(bytes, capacity)[i] == 0
  {
  }

  /** What growing has come to: the capacity, and the bytes copied on the way. */
  datatype Growth = Growth(capacity: nat, copied: nat)

  /** Room is made up to `end`; the bytes held are copied if the capacity has to change. */
  function Grow(g: Growth, end: nat): Growth {
    Growth(Grown(g.capacity, end), g.copied + if end > g.capacity then g.capacity else 0)
  }

  /** Room is made for one end after the other. */
  function GrowAll(initial: nat, ends: seq<nat>): Growth {
    if ends == [] then Growth(initial, 0) else Grow(GrowAll(initial, ends[..|ends| - 1]), ends[|ends| - 1])
  }

  function Largest(ends: seq<nat>): nat {
    if ends == [] then 0 else Max(Largest(ends[..|ends| - 1]), ends[|ends| - 1])
  }

  lemma GrowAllOnce(initial: nat, ends: seq<nat>, end: nat)
    ensures GrowAll(initial, ends + [end]) == Grow(GrowAll(initial, ends), end)
  {
    assert (ends + [end])[..|ends|] == ends;
  }

  /**
   * For any capacity to start with and any sequence of ends: all copying
   * together is paid for by new capacity, the capacity is at most twice what was
   * ever needed, and everything needed has room.
   */
  lemma {:induction false} GrowthBound(initial: nat, ends: seq<nat>)
    ensures var g := GrowAll(initial, ends);
            && g.copied + initial <= g.capacity <= Max(initial, 2 * Largest(ends))
            && (forall i :: 0 <= i < |ends| ==> ends[i] <= Largest(ends) <= g.capacity)
  {
    if ends != [] {
      var before := ends[..|ends| - 1];
      GrowthBound(initial, before);
      assert forall i :: 0 <= i < |before| ==> ends[i] == before[i];
    }
  }

  /** The same of a buffer after any number of writes. */
  lemma BufferGrowthBound(b: ByteBuffer)
    requires b.Accounts()
    ensures b.copied + b.initial <= b.buffer.Length <= Max(b.initial, 2 * Largest(b.ends))
  {
    GrowthBound(b.initial, b.ends);
  }

  /** Below 2^31 a capacity survives the truncation; what does not is negative. */
  lemma RoomFor(capacity: nat, needed: nat)
    requires capacity < TWO31 && needed < TWO32
    ensures var n := Grown(capacity, needed);
            capacity <= n < TWO32 && (ToInt32(n) >= 0 <==> ToInt32(n) == n) && (ToInt32(n) >= 0 <==> n < TWO31)
  {
  }

  lemma PaddedToSize(bytes: seq<byte>)
    ensures Padded(bytes, |bytes|) == bytes
  {
  }

  /** `bytes` with `data` stored from `at` on. */
  function Overlay(bytes: seq<byte>, at: nat, data: seq<byte>): (r: seq<byte>)
    requires at + |data| <= |bytes|
    ensures |r| == |bytes|
  {
    bytes[..at] + data + bytes[at + |data|..]
  }

  /** What writing `data` at `at` leaves in a buffer that grows when it has to. */
  function Stored(bytes: seq<byte>, at: nat, data: seq<byte>): (r: seq<byte>)
    ensures |r| == Grown(|bytes|, at + |data|)
  {
    Overlay(Padded(bytes, Grown(|bytes|, at + |data|)), at, data)
  }

  /** Room for a varint at a legal offset. */
  lemma WriteFits(capacity: nat, at: nat, value: int)
    requires at <= capacity < TWO31
    ensures at + V64.CalculateVarint64(value) < TWO32
    ensures |V64.Write64(value)| == V64.CalculateVarint64(value)
    ensures at + V64.CalculateVarint64(value) <= Grown(capacity, at + V64.CalculateVarint64(value))
  {
  }

  lemma StoredNothing(bytes: seq<byte>, at: nat)
    requires at <= |bytes|
    ensures Stored(bytes, at, []) == bytes
  {
  }

  /** A write is read back, and nothing else that was there changes, whether or not the buffer had to grow. */
  lemma StoredAt(bytes: seq<byte>, at: nat, data: seq<byte>)
    ensures HoldsAt(Stored(bytes, at, data), at, data)
    ensures forall i :: 0 <= i < |bytes| && !(at <= i < at + |data|) ==> Stored(bytes, at, data)[i] == bytes[i]
  {
    var padded := Padded(bytes, Grown(|bytes|, at + |data|));
    assert Stored(bytes, at, data)[at..at + |data|] == data;
    assert forall i :: 0 <= i < |bytes| ==> padded[i] == bytes[i];
  }

  /** Writing a varint at any legal offset and reading it there, the limit at or past its end. */
  lemma WriteRead32(bytes: seq<byte>, at: nat, value: int, limit: int)
    requires limit >= at + CalculateVarint32(value)
    ensures Read32(Stored(bytes, at, Encode(ToUint32(value))), limit, at) ==
            Ok(Reading(ToInt32(value), CalculateVarint32(value)))
  {
    StoredAt(bytes, at, Encode(ToUint32(value)));
    Size32(value);
    Read32Decodes(Stored(bytes, at, Encode(ToUint32(value))), limit, at, value);
  }

  lemma NextDigit(done: seq<byte>, v: nat)
    requires v >= 128
    ensures done + Encode(v) == (done + [(v % 128 + 128) as byte]) + Encode(v / 128)
  {
  }

  lemma OverlayMore(bytes: seq<byte>, at: nat, done: seq<byte>, b: byte)
    requires at + |done| < |bytes|
    ensures Overlay(bytes, at, done)[at + |done| := b] == Overlay(bytes, at, done + [b])
  {
  }

  /** Storing `head` right before a stored `tail`. */
  lemma OverlayBefore(bytes: seq<byte>, at: nat, head: seq<byte>, tail: seq<byte>)
    requires at + |head| + |tail| <= |bytes|
    ensures Overlay(Overlay(bytes, at + |head|, tail), at, head) == Overlay(bytes, at, head + tail)
  {
  }

  function Top(part2: nat, size: nat): seq<byte> {
    if size == 9 then [V64.ByteOf(part2, true)] else [V64.ByteOf(part2, false), (part2 / TWO7 % 2) as byte]
  }

  lemma LongForm(value: int, size: nat)
    requires size == V64.CalculateVarint64(value) && size > 8
    ensures V64.Write64(value) ==
            V64.Four(V64.Part0(value)) + (V64.Four(V64.Part1(value)) + Top(V64.Part2(value), size))
  {
    var a, b, c := V64.Four(V64.Part0(value)), V64.Four(V64.Part1(value)), Top(V64.Part2(value), size);
    assert a + b + c == a + (b + c);
  }

  lemma SeptetsStart(rest: Result<seq<nat>, ReadError>)
    ensures SeptetsAfter([], rest) == rest
  {
    if rest.Ok? {
      assert [] + rest.value == rest.value;
    }
  }

  /** Payloads already read, put before those still to come. */
  function SeptetsAfter(read: seq<nat>, rest: Result<seq<nat>, ReadError>): Result<seq<nat>, ReadError> {
    if rest.Ok? then Ok(read + rest.value) else rest
  }

  lemma SeptetsStep(read: seq<nat>, septet: nat, rest: Result<seq<nat>, ReadError>)
    ensures SeptetsAfter(read, if rest.Ok? then Ok([septet] + rest.value) else rest) ==
            SeptetsAfter(read + [septet], rest)
  {
    if rest.Ok? {
      assert read + ([septet] + rest.value) == (read + [septet]) + rest.value;
    }
  }

  /** The value of the payloads of a 64-bit varint. */
  function JoinParts(s: seq<nat>): Reading {
    Reading(V64.Combine(V64.Joined(s, 0), V64.Joined(s, 4), V64.At(s, 8) + V64.At(s, 9) * TWO7), |s|)
  }

  /** `read` holds the payloads of the bytes from `at` on, as many as have been read. */
  predicate ReadSoFar(bytes: seq<byte>, at: nat, read: seq<nat>) {
    |read| <= 9 && SeptetsAfter(read, V64.Septets(bytes, at + |read|, |read|)) == V64.Septets(bytes, at, 0)
  }

  lemma ReadStart(bytes: seq<byte>, at: nat)
    ensures ReadSoFar(bytes, at, [])
  {
    SeptetsStart(V64.Septets(bytes, at, 0));
  }

  lemma ReadLength(bytes: seq<byte>, at: nat, read: seq<nat>)
    requires ReadSoFar(bytes, at, read)
    ensures |read| <= 9
  {
  }

  lemma ReadMore(bytes: seq<byte>, at: nat, read: seq<nat>)
    requires ReadSoFar(bytes, at, read) && |read| < 9
    requires at + |read| < |bytes| && bytes[at + |read|] >= 128
    ensures ReadSoFar(bytes, at, read + [bytes[at + |read|] as nat - 128])
  {
    hide SeptetsAfter;
    var pos := at + |read|;
    SeptetsStep(read, bytes[pos] as nat - 128, V64.Septets(bytes, pos + 1, |read| + 1));
  }

  lemma ReadEnds(bytes: seq<byte>, at: nat, read: seq<nat>)
    requires ReadSoFar(bytes, at, read)
    ensures var pos := at + |read|;
            if pos >= |bytes| then V64.Read64(bytes, at) == Err(OutOfRange)
            else if bytes[pos] < 128 then V64.Read64(bytes, at) == Ok(JoinParts(read + [bytes[pos] as nat]))
            else |read| == 9 ==> V64.Read64(bytes, at) == Err(Overrun)
  {
    hide V64.Joined, V64.Combine, V64.At;
  }

  class ByteBuffer {
    var buffer: array<byte>
    var offset: nat
    var markedOffset: int
    var limit: nat

    /** The first capacity, the bytes all resizes have copied, and the ends of all writes that asked for room. */
    ghost const initial: nat
    ghost var copied: nat
    ghost var ends: seq<nat>

    function Bytes(): seq<byte>
      reads this, buffer
    {
      buffer[..]
    }

    /** Capacity and copying are what the writes so far account for. */
    ghost predicate Accounts()
      reads this`buffer, this`copied, this`ends
    {
      GrowAll(initial, ends) == Growth(buffer.Length, copied)
    }

    constructor (capacity: nat)
      ensures fresh(buffer) && Bytes() == seq(capacity, _ => 0)
      ensures offset == 0 && markedOffset == -1 && limit == capacity
      ensures initial == capacity && copied == 0 && ends == [] && Accounts()
    {
      buffer := new byte[capacity](_ => 0);
      offset, markedOffset, limit := 0, -1, capacity;
      initial, copied, ends := capacity, 0, [];
    }

    method Resize(capacity: int) returns (ok: bool)
      modifies this`buffer, this`copied
      ensures ok <==> ToInt32(capacity) >= 0
      ensures if ok && ToInt32(capacity) > |old(Bytes())|
              then
                && fresh(buffer) && Bytes() == Padded(old(Bytes()), ToInt32(capacity))
                && copied == old(copied) + |old(Bytes())|
              else buffer == old(buffer) && Bytes() == old(Bytes()) && copied == old(copied)
    {
      var wanted := ToInt32(capacity);
      if wanted < 0 {
        return false;
      }
      if buffer.Length < wanted {
        var larger := new byte[wanted](_ => 0);
        forall i | 0 <= i < buffer.Length {
          larger[i] := buffer[i];
        }
        assert larger[..] == Padded(buffer[..], wanted);
        copied := copied + buffer.Length;
        buffer := larger;
      }
      ok := true;
    }

    lemma AccountsMean()
      requires Accounts()
      ensures GrowAll(initial, ends) == Growth(buffer.Length, copied)
    {
    }

    lemma MeanAccounts(g: Growth)
      requires g == GrowAll(initial, ends) && g == Growth(buffer.Length, copied)
      ensures Accounts()
    {
    }

    /** Makes room up to `end`, as every growing operation does first. */
    method EnsureCapacity(end: nat) returns (ok: bool)
      requires Accounts() && buffer.Length < TWO31 && end < TWO32
      modifies this`buffer, this`copied, this`ends
      ensures ok <==> Growable(|old(Bytes())|, end)
      ensures ok ==> Bytes() == Padded(old(Bytes()), Grown(|old(Bytes())|, end)) && buffer.Length < TWO31
      ensures !ok ==> Bytes() == old(Bytes()) && buffer == old(buffer)
      ensures buffer == old(buffer) || fresh(buffer)
      ensures ends == (if ok then old(ends) + [end] else old(ends))
      ensures copied == old(copied) + (if ok && end > |old(Bytes())| then |old(Bytes())| else 0)
      ensures Accounts()
    {
      hide Padded, GrowAll, Accounts;
      ok := true;
      var current := buffer.Length;
      ghost var bytes := Bytes();
      RoomFor(current, end);
      GrowAllOnce(initial, ends, end);
      ghost var before := GrowAll(initial, ends);
      assert before == Growth(current, copied) by {
        AccountsMean();
      }
      if current < end {
        ok := Resize(if 2 * current > end then 2 * current else end);
      } else {
        PaddedToSize(bytes);
      }
      if ok {
        ends := ends + [end];
        assert GrowAll(initial, ends) == Growth(buffer.Length, copied);
      }
      MeanAccounts(if ok then Grow(before, end) else before);
    }

    /** Copies `data` over the bytes from `at` on. */
    method Overwrite(at: nat, data: seq<byte>)
      requires at + |data| <= buffer.Length
      modifies buffer
      ensures Bytes() == Overlay(old(Bytes()), at, data)
    {
      for i := 0 to |data|
        invariant Bytes() == Overlay(old(Bytes()), at, data[..i])
      {
        assert data[..i + 1] == data[..i] + [data[i]];
        OverlayMore(old(Bytes()), at, data[..i], data[i]);
        buffer[at + i] := data[i];
      }
      assert data[..|data|] == data;
    }

    /** `append`: stores `data` at the offset and moves the offset behind it. */
    method Append(data: seq<byte>) returns (r: Result<(), BufferError>)
      requires Accounts() && buffer.Length < TWO31 && |data| < TWO31
      modifies this`buffer, this`copied, this`ends, this`offset, buffer
      ensures buffer == old(buffer) || fresh(buffer)
      ensures Accounts() && buffer.Length < TWO31
      ensures r.Ok? <==> old(offset) <= |old(Bytes())| && Growable(|old(Bytes())|, old(offset) + |data|)
      ensures r.Ok? ==> Bytes() == Stored(old(Bytes()), old(offset), data) && offset == old(offset) + |data|
      ensures ends == (if r.Ok? && data != [] then old(ends) + [offset] else old(ends))
      ensures r.Err? ==> Bytes() == old(Bytes()) && offset == old(offset)
    {
      hide Padded, Overlay, Accounts, GrowAll;
      if offset > buffer.Length {
        return Err(IllegalOffset);
      }
      if |data| == 0 {
        StoredNothing(buffer[..], offset);
        return Ok(());
      }
      var ok := EnsureCapacity(offset + |data|);
      if !ok {
        return Err(IllegalCapacity);
      }
      Overwrite(offset, data);
      offset := offset + |data|;
      r := Ok(());
    }

    /** `writeVarint32` at an absolute offset; the number of bytes written. */
    method WriteVarint32At(value: int, at: nat) returns (r: Result<nat, BufferError>)
      requires Accounts() && buffer.Length < TWO31
      modifies this`buffer, this`copied, this`ends, buffer
      ensures buffer == old(buffer) || fresh(buffer)
      ensures Accounts() && buffer.Length < TWO31
      ensures r.Ok? <==> at <= |old(Bytes())| && Growable(|old(Bytes())|, at + CalculateVarint32(value))
      ensures r.Ok? ==>
                && r.value == CalculateVarint32(value)
                && Bytes() == Stored(old(Bytes()), at, Encode(ToUint32(value)))
      ensures ends == (if r.Ok? then old(ends) + [at + r.value] else old(ends))
      ensures r.Err? ==> Bytes() == old(Bytes())
    {
      var v := ToInt32(value);
      if at > buffer.Length {
        return Err(IllegalOffset);
      }
      var size := CalculateVarint32(v);
      Size32(value);
      var ok := EnsureCapacity(at + size);
      if !ok {
        return Err(IllegalCapacity);
      }
      StoreDigits(ToUint32(v), at);
      r := Ok(size);
    }

    /** The store loop of `writeVarint32`. */
    method StoreDigits(value: nat, at: nat)
      requires at + |Encode(value)| <= buffer.Length
      modifies buffer
      ensures Bytes() == Overlay(old(Bytes()), at, Encode(value))
    {
      var v: nat, pos: nat := value, at;
      ghost var done: seq<byte> := [];
      while v >= 0x80
        invariant pos == at + |done|
        invariant Encode(value) == done + Encode(v)
        invariant buffer[..] == Overlay(old(buffer[..]), at, done)
        decreases v
      {
        var b := (v % 0x80 + 0x80) as byte;
        NextDigit(done, v);
        OverlayMore(old(buffer[..]), at, done, b);
        buffer[pos] := b;
        done := done + [b];
        pos := pos + 1;
        v := v / 0x80;
      }
      OverlayMore(old(buffer[..]), at, done, v as byte);
      buffer[pos] := v as byte;
    }

    /** `writeVarint32` at the offset, which moves behind it. */
    method WriteVarint32(value: int) returns (r: Result<nat, BufferError>)
      requires Accounts() && buffer.Length < TWO31
      modifies this`buffer, this`copied, this`ends, this`offset, buffer
      ensures buffer == old(buffer) || fresh(buffer)
      ensures Accounts() && buffer.Length < TWO31
      ensures r.Ok? <==>
                && old(offset) <= |old(Bytes())|
                && Growable(|old(Bytes())|, old(offset) + CalculateVarint32(value))
      ensures r.Ok? ==>
                && r.value == CalculateVarint32(value) && offset == old(offset) + r.value
                && Bytes() == Stored(old(Bytes()), old(offset), Encode(ToUint32(value)))
      ensures r.Err? ==> Bytes() == old(Bytes()) && offset == old(offset)
      ensures ends == (if r.Ok? then old(ends) + [offset] else old(ends))
    {
      r := WriteVarint32At(value, offset);
      if r.Ok? {
        offset := offset + r.value;
      }
    }

    /** `readVarint32` at an absolute offset. */
    method ReadVarint32At(at: nat) returns (r: Result<Reading, ReadError>)
      ensures r == Read32(Bytes(), limit, at)
    {
      if at + 1 > buffer.Length {
        return Err(OutOfRange);
      }
      var c: nat, value: nat, pos: nat := 0, 0, at;
      while true
        invariant ReadLoop(buffer[..], limit, pos, c, value) == Read32(buffer[..], limit, at)
        invariant pos <= buffer.Length
        decreases buffer.Length - pos
      {
        if pos > limit {
          return Err(Truncated);
        }
        if pos >= buffer.Length {
          return Err(OutOfRange);
        }
        var b := buffer[pos] as int;
        pos := pos + 1;
        if c < 5 {
          value := value + Shifted(b % 128, c);
        }
        c := c + 1;
        if b < 128 {
          return Ok(Reading(ToInt32(value), c));
        }
      }
    }

    /** `readVarint32` at the offset, which moves behind it unless the read fails. */
    method ReadVarint32() returns (r: Result<int, ReadError>)
      modifies this`offset
      ensures var reading := Read32(Bytes(), limit, old(offset));
              if reading.Ok? then r == Ok(reading.value.value) && offset == old(offset) + reading.value.length
              else r == Err(reading.error) && offset == old(offset)
    {
      var reading := ReadVarint32At(offset);
      if reading.Err? {
        return Err(reading.error);
      }
      offset := offset + reading.value.length;
      r := Ok(reading.value.value);
    }

    /** Up to four cases of the falling-through switch of `writeVarint64`: the digits of one part, last to first. */
    method StorePart(part: nat, n: nat, more: bool, at: nat)
      requires 1 <= n <= 4 && (more ==> n == 4) && at + n <= buffer.Length
      modifies buffer
      ensures Bytes() == Overlay(old(Bytes()), at, if more then V64.Four(part) else V64.Last(part, n))
    {
      if n >= 4 { buffer[at + 3] := V64.ByteOf(part / TWO21, n == 4 && !more); }
      if n >= 3 { buffer[at + 2] := V64.ByteOf(part / TWO14, n == 3); }
      if n >= 2 { buffer[at + 1] := V64.ByteOf(part / TWO7, n == 2); }
      buffer[at] := V64.ByteOf(part, n == 1);
    }

    /** `writeVarint64` at an absolute offset; the number of bytes written. */
    method WriteVarint64At(value: int, at: nat) returns (r: Result<nat, BufferError>)
      requires Accounts() && buffer.Length < TWO31
      modifies this`buffer, this`copied, this`ends, buffer
      ensures buffer == old(buffer) || fresh(buffer)
      ensures Accounts() && buffer.Length < TWO31
      ensures r.Ok? <==> at <= |old(Bytes())| && Growable(|old(Bytes())|, at + V64.CalculateVarint64(value))
      ensures r.Ok? ==>
                && r.value == V64.CalculateVarint64(value)
                && Bytes() == Stored(old(Bytes()), at, V64.Write64(value))
      ensures ends == (if r.Ok? then old(ends) + [at + r.value] else old(ends))
      ensures r.Err? ==> Bytes() == old(Bytes())
    {
      hide Padded, Overlay, Accounts, GrowAll, Growable, Grown, V64.Write64, V64.CalculateVarint64;
      if at > buffer.Length {
        return Err(IllegalOffset);
      }
      var size := V64.CalculateVarint64(value);
      WriteFits(buffer.Length, at, value);
      V64.Size64(value);
      var ok := EnsureCapacity(at + size);
      if !ok {
        return Err(IllegalCapacity);
      }
      StoreParts(value, size, at);
      r := Ok(size);
    }

    /** The first two cases of the switch: the bytes of the top part. */
    method StoreTop(part2: nat, size: nat, at: nat)
      requires 9 <= size <= 10 && at + size - 8 <= buffer.Length
      modifies buffer
      ensures Bytes() == Overlay(old(Bytes()), at, Top(part2, size))
    {
      if size == 10 { buffer[at + 1] := (part2 / TWO7 % 2) as byte; }
      buffer[at] := V64.ByteOf(part2, size == 9);
    }

    method StoreParts(value: int, size: nat, at: nat)
      requires size == V64.CalculateVarint64(value) && 1 <= size <= 10 && at + size <= buffer.Length
      modifies buffer
      ensures Bytes() == Overlay(old(Bytes()), at, V64.Write64(value))
    {
      hide Overlay;
      var part0, part1, part2 := V64.Part0(value), V64.Part1(value), V64.Part2(value);
      ghost var bytes := buffer[..];
      if size <= 4 {
        StorePart(part0, size, false, at);
        return;
      }
      if size <= 8 {
        StorePart(part1, size - 4, false, at + 4);
        StorePart(part0, 4, true, at);
        OverlayBefore(bytes, at, V64.Four(part0), V64.Last(part1, size - 4));
        return;
      }
      StoreTop(part2, size, at + 8);
      StorePart(part1, 4, true, at + 4);
      OverlayBefore(bytes, at + 4, V64.Four(part1), Top(part2, size));
      StorePart(part0, 4, true, at);
      OverlayBefore(bytes, at, V64.Four(part0), V64.Four(part1) + Top(part2, size));
      LongForm(value, size);
    }

    /** `readVarint64` at an absolute offset. */
    method ReadVarint64At(at: nat) returns (r: Result<Reading, ReadError>)
      ensures r == V64.Read64(Bytes(), at)
    {
      if at + 1 > buffer.Length {
        return Err(OutOfRange);
      }
      hide JoinParts, ReadSoFar, V64.Read64;
      var septets: seq<nat> := [];
      ReadStart(buffer[..], at);
      var pos: nat := at;
      while |septets| < 9
        invariant pos == at + |septets| && ReadSoFar(buffer[..], at, septets)
      {
        ReadEnds(buffer[..], at, septets);
        if pos >= buffer.Length {
          return Err(OutOfRange);
        }
        var b := buffer[pos] as nat;
        if b < 128 {
          return Ok(JoinParts(septets + [b]));
        }
        ReadMore(buffer[..], at, septets);
        septets := septets + [b - 128];
        pos := pos + 1;
      }
      ReadLength(buffer[..], at, septets);
      ReadEnds(buffer[..], at, septets);
      if pos >= buffer.Length {
        return Err(OutOfRange);
      }
      if buffer[pos] >= 128 {
        return Err(Overrun);
      }
      r := Ok(JoinParts(septets + [buffer[pos] as nat]));
    }

    /** `flip`: what was written becomes what can be read. */
    method Flip()
      modifies this`limit, this`offset
      ensures limit == old(offset) && offset == 0
    {
      limit := offset;
      offset := 0;
    }

    /** `readBytes(length).toBuffer()`: the next bytes, as a copy. */
    method ReadBytes(length: nat) returns (r: Result<seq<byte>, BufferError>)
      modifies this`offset
      ensures if old(offset) + length <= |Bytes()|
              then r == Ok(Bytes()[old(offset)..old(offset) + length]) && offset == old(offset) + length
              else r == Err(IllegalOffset) && offset == old(offset)
    {
      if offset + length > buffer.Length {
        return Err(IllegalOffset);
      }
      r := Ok(buffer[offset..offset + length]);
      assert buffer[..][offset..offset + length] == buffer[offset..offset + length];
      offset := offset + length;
    }
  }
}
