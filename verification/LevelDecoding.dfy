/**
 * The two readers of packed block states (`packages/game-data/level.ts`) against
 * the two layouts: reading gives back every stored value, and, for arrays whose
 * words were read as signed numbers, exactly which values come back wrong.
 */
module LevelDecoding {
  import opened Basics
  import opened Bits
  import opened Level

  /** Does entry `i` lie across two words? */
  predicate Straddles(b: nat, i: nat) {
    FirstBit(b, i) + b > 64
  }

  lemma Geometry(b: nat, i: nat)
    requires BitLength(b) && i < ENTRIES
    ensures 64 * FirstWord(b, i) + FirstBit(b, i) == i * b
    ensures LastWord(b, i) == FirstWord(b, i) + (if Straddles(b, i) then 1 else 0)
    ensures LastWord(b, i) < 64 * b
  {
    MulStep(i, ENTRIES, b);
    var o := i * b;
    assert (i + 1) * b == o + b;
    assert o == 64 * (o / 64) + o % 64;
  }

  /** Where bit `t` of entry `i` is in a straddling array. */
  lemma StoredBit(data: seq<int>, v: seq<nat>, b: nat, i: nat, t: nat)
    requires BitLength(b) && Values(v, b) && Straddling(data, v, b)
    requires i < ENTRIES && t < b
    ensures FirstWord(b, i) < |data| && LastWord(b, i) < |data|
    ensures var x := FirstBit(b, i) + t;
            if x < 64 then Bit(data[FirstWord(b, i)], x) == Bit(v[i], t)
            else Bit(data[LastWord(b, i)], x - 64) == Bit(v[i], t)
  {
    hide Bit, Unsigned;
    Geometry(b, i);
    DivIs(i, t, b);
    var x := FirstBit(b, i) + t;
    assert StreamBit(v, b, i * b + t) == Bit(v[i], t);
    if x < 64 {
      assert Bit(data[FirstWord(b, i)], x) == StreamBit(v, b, 64 * FirstWord(b, i) + x);
    } else {
      assert Bit(data[LastWord(b, i)], x - 64) == StreamBit(v, b, 64 * LastWord(b, i) + (x - 64));
    }
  }

  /** Above bit 63 a word has only copies of a sign. */
  predicate Word(w: int) {
    Shr(w, 64) == 0 || Shr(w, 64) == -1
  }

  /** Bit `t` of what the straddling reader returns: the value's, or the first word's sign. */
  lemma ReadBit(data: seq<int>, v: seq<nat>, b: nat, i: nat, t: nat)
    requires BitLength(b) && Values(v, b) && Straddling(data, v, b)
    requires forall w <- data :: Word(w)
    requires i < ENTRIES && t < b
    ensures FirstWord(b, i) < |data|
    ensures SeekPre116(data, b, i).Some?
    ensures Bit(SeekPre116(data, b, i).value, t)
         == (Bit(v[i], t) || (FirstBit(b, i) + t >= 64 && Shr(data[FirstWord(b, i)], 64) == -1))
  {
    hide Straddling, Shr, Shl, Low, LowOr, Bit, Unsigned;
    StoredBit(data, v, b, i, t);
    Geometry(b, i);
    var j, k, l := FirstWord(b, i), LastWord(b, i), FirstBit(b, i);
    BitOfShr(data[j], l, t);
    if j == k {
      BitOfLow(Shr(data[j], l), b, t);
    } else {
      BitOfLowOr(Shr(data[j], l), Shl(data[k], 64 - l), b, t);
      BitOfShl(data[k], 64 - l, t);
      if l + t >= 64 {
        assert Word(data[j]);
        BitBeyond(data[j], 64, l + t);
      }
    }
  }

  lemma ReadUnsigned(data: seq<int>, b: nat, i: nat)
    requires BitLength(b) && SeekPre116(data, b, i).Some?
    ensures Unsigned(SeekPre116(data, b, i).value, b)
  {
    hide Shr, Shl, Low, LowOr, Unsigned;
    var j, k, l := FirstWord(b, i), LastWord(b, i), FirstBit(b, i);
    LowUnsigned(Shr(data[j], l), b);
    if j != k {
      LowOrUnsigned(Shr(data[j], l), Shl(data[k], 64 - l), b);
    }
  }

  /** The straddling reader returns entry `i` exactly when a negative first word does not spill into it. */
  lemma ReadsEntryIff(data: seq<int>, v: seq<nat>, b: nat, i: nat)
    requires BitLength(b) && Values(v, b) && Straddling(data, v, b)
    requires forall w <- data :: Word(w)
    requires i < ENTRIES
    ensures FirstWord(b, i) < |data|
    ensures SeekPre116(data, b, i) == Some(v[i])
       <==> (!Straddles(b, i) || Shr(data[FirstWord(b, i)], 64) == 0 || TopBitsSet(v[i], 64 - FirstBit(b, i), b))
  {
    hide Straddling, SeekPre116, Shr, Bit, Unsigned;
    forall t: nat | t < b
      ensures FirstWord(b, i) < |data| && SeekPre116(data, b, i).Some?
      ensures Bit(SeekPre116(data, b, i).value, t)
           == (Bit(v[i], t) || (FirstBit(b, i) + t >= 64 && Shr(data[FirstWord(b, i)], 64) == -1))
    {
      ReadBit(data, v, b, i, t);
    }
    ReadBit(data, v, b, i, 0);
    ReadUnsigned(data, b, i);
    var r := SeekPre116(data, b, i).value;
    assert Word(data[FirstWord(b, i)]);
    if forall t: nat :: t < b ==> Bit(r, t) == Bit(v[i], t) {
      SameBits(r, v[i], b);
    }
  }

  predicate TopBitsSet(x: int, from: int, b: nat) {
    forall t: nat :: from <= t < b ==> Bit(x, t)
  }

  // ----- Straddling arrays -----

  /** Words that are unsigned: every entry of a straddling array is read back. */
  lemma StraddlingDecodes(data: seq<int>, v: seq<nat>, b: nat, i: nat)
    requires BitLength(b) && Values(v, b) && Straddling(data, v, b)
    requires forall w <- data :: Unsigned(w, 64)
    requires i < ENTRIES
    ensures SeekBlockStateId(data, b, i) == Some(v[i])
  {
    hide SeekPre116, Shr, Bit;
    ReadsEntryIff(data, v, b, i);
    StraddlingReaderRuns(data, b);
    assert Unsigned(data[FirstWord(b, i)], 64);
  }

  /** A 64-bit word in two's complement. */
  predicate Signed(w: int) {
    Shr(w, 63) == 0 || Shr(w, 63) == -1
  }

  lemma SignIsBit63(w: int)
    requires Signed(w)
    ensures Word(w)
    ensures Shr(w, 64) == (if Bit(w, 63) then -1 else 0)
  {
    ShrShr(w, 63, 1);
    BitBeyond(w, 63, 63);
    assert Shr(Shr(w, 63), 1) == Shr(w, 63) / 2;
  }

  /**
   * Words as the NBT reader delivers them, signed: entry `i` is read back if and
   * only if it lies in one word, or its last bit in the first word is clear, or
   * all its bits in the second word are set.
   */
  lemma SignedStraddlingDecodesIff(data: seq<int>, v: seq<nat>, b: nat, i: nat)
    requires BitLength(b) && Values(v, b) && Straddling(data, v, b)
    requires forall w <- data :: Signed(w)
    requires i < ENTRIES
    ensures SeekBlockStateId(data, b, i) == Some(v[i])
       <==> (!Straddles(b, i) || !Bit(v[i], 63 - FirstBit(b, i)) || TopBitsSet(v[i], 64 - FirstBit(b, i), b))
  {
    hide Straddling, SeekPre116, Shr, Bit, TopBitsSet;
    forall w <- data ensures Word(w) {
      SignIsBit63(w);
    }
    ReadsEntryIff(data, v, b, i);
    assert FindVersion(data, b) == Pre116 by {
      assert |data| == 64 * b by { LengthOf(data, v, b); }
      StraddlingReaderRuns(data, b);
    }
    var w := data[FirstWord(b, i)];
    assert Signed(w);
    SignIsBit63(w);
    if Straddles(b, i) {
      StoredBit(data, v, b, i, 63 - FirstBit(b, i));
    }
  }

  lemma LengthOf(data: seq<int>, v: seq<nat>, b: nat)
    requires BitLength(b) && Values(v, b) && Straddling(data, v, b)
    ensures |data| == 64 * b
  {
  }

  // ----- Padded arrays -----

  /** The padded reader returns every entry of a padded array, whatever the words' signs. */
  lemma PaddedReaderDecodes(data: seq<int>, v: seq<nat>, b: nat, i: nat)
    requires BitLength(b) && Values(v, b) && Padded(data, v, b)
    requires i < ENTRIES
    ensures SeekPost116(data, b, i) == Some(v[i])
  {
    hide Shr, Bit, Low, Unsigned, EntryWord, EntryBit, PaddedLength;
    assert HoldsBit(data, v, b, i, 0);
    var word, padding := data[EntryWord(b, i)], EntryBit(b, i);
    var r := Low(Shr(word, padding), b);
    LowUnsigned(Shr(word, padding), b);
    forall t: nat | t < b ensures Bit(r, t) == Bit(v[i], t) {
      assert HoldsBit(data, v, b, i, t);
      BitOfLow(Shr(word, padding), b, t);
      BitOfShr(word, padding, t);
    }
    SameBits(r, v[i], b);
  }

  /** Bit lengths that divide 64 leave nothing to pad: the two layouts are the same. */
  lemma LayoutsCoincide(data: seq<int>, v: seq<nat>, b: nat)
    requires BitLength(b) && Values(v, b)
    requires 64 % b == 0
    ensures Straddling(data, v, b) <==> Padded(data, v, b)
  {
    hide Straddling, Padded;
    if Straddling(data, v, b) {
      StraddlingIsPadded(data, v, b);
    }
    if Padded(data, v, b) {
      PaddedIsStraddling(data, v, b);
    }
  }

  lemma SameLength(b: nat)
    requires BitLength(b) && 64 % b == 0
    ensures PerLong(b) * b == 64 && PaddedLength(b) == 64 * b
  {
    var p := PerLong(b);
    DivBounds(64, b);
    DivIs(64 * b, p - 1, p);
    assert 64 * b * p == ENTRIES;
  }

  /** Entry `i` is entry `i % p` of word `i / p`. */
  lemma EntryInWord(b: nat, i: nat)
    requires BitLength(b) && 64 % b == 0
    ensures i * b == 64 * (EntryWord(b, i)) + EntryBit(b, i)
    ensures EntryBit(b, i) + b <= 64
  {
    var p := PerLong(b);
    SameLength(b);
    var q, r := i / p, i % p;
    assert i == q * p + r;
    assert i * b == q * (p * b) + r * b;
    MulStep(r, p, b);
  }

  /** In a straddling array whose entries fit their words, bit `t` of entry `i`. */
  lemma StoredWithin(data: seq<int>, v: seq<nat>, b: nat, i: nat, t: nat)
    requires BitLength(b) && Values(v, b) && 64 % b == 0
    requires Straddling(data, v, b)
    requires i < ENTRIES && t < b
    ensures HoldsBit(data, v, b, i, t)
  {
    hide Straddling, Bit, Unsigned, EntryWord, EntryBit;
    EntryInWord(b, i);
    StoredBit(data, v, b, i, t);
    DivIs(EntryWord(b, i), EntryBit(b, i), 64);
  }

  lemma StraddlingIsPadded(data: seq<int>, v: seq<nat>, b: nat)
    requires BitLength(b) && Values(v, b) && 64 % b == 0
    requires Straddling(data, v, b)
    ensures Padded(data, v, b)
  {
    hide Straddling, Bit, Unsigned, PaddedLength, HoldsBit;
    SameLength(b);
    LengthOf(data, v, b);
    forall i: nat, t: nat | i < ENTRIES && t < b
      ensures HoldsBit(data, v, b, i, t)
    {
      StoredWithin(data, v, b, i, t);
    }
  }

  lemma PaddedIsStraddling(data: seq<int>, v: seq<nat>, b: nat)
    requires BitLength(b) && Values(v, b) && 64 % b == 0
    requires Padded(data, v, b)
    ensures Straddling(data, v, b)
  {
    hide Bit, Unsigned, PaddedLength, StreamBit, Padded;
    LengthOfPadded(data, v, b);
    var p := PerLong(b);
    SameLength(b);
    forall j: nat, t: nat | j < 64 * b && t < 64
      ensures Bit(data[j], t) == StreamBit(v, b, 64 * j + t)
    {
      DivBelow(t, p, b);
      PaddedStreamBit(data, v, b, j, t / b, t % b);
    }
  }

  lemma LengthOfPadded(data: seq<int>, v: seq<nat>, b: nat)
    requires BitLength(b) && Values(v, b) && Padded(data, v, b)
    ensures |data| == PaddedLength(b)
  {
  }

  lemma PaddedStreamBit(data: seq<int>, v: seq<nat>, b: nat, j: nat, q: nat, r: nat)
    requires BitLength(b) && Values(v, b) && 64 % b == 0
    requires Padded(data, v, b)
    requires j < 64 * b && q < PerLong(b) && r < b
    ensures j < |data|
    ensures Bit(data[j], q * b + r) == StreamBit(v, b, 64 * j + (q * b + r))
  {
    hide Bit, Unsigned, PaddedLength;
    var p := PerLong(b);
    SameLength(b);
    StreamEntry(b, p, j, q, r);
    EntryExists(b, p, j, q);
    DivIs(j, q, p);
    var i := j * p + q;
    assert HoldsBit(data, v, b, i, r);
  }

  /** Bit `r` of the `q`-th of `p` entries in word `j` belongs to entry `j p + q`. */
  lemma StreamEntry(b: nat, p: nat, j: nat, q: nat, r: nat)
    requires p * b == 64 && r < b
    ensures (64 * j + (q * b + r)) / b == j * p + q && (64 * j + (q * b + r)) % b == r
  {
    assert (j * p) * b == 64 * j by {
      assert (j * p) * b == j * (p * b);
    }
    Distribute(j * p, q, b);
    DivIs(j * p + q, r, b);
  }

  lemma EntryExists(b: nat, p: nat, j: nat, q: nat)
    requires p * b == 64 && j < 64 * b && q < p
    ensures j * p + q < ENTRIES
  {
    MulStep(j, 64 * b, p);
    assert 64 * b * p == 64 * (p * b);
  }

  /** Every entry of a padded array is read back, by whichever reader its length selects. */
  lemma PaddedDecodes(data: seq<int>, v: seq<nat>, b: nat, i: nat)
    requires BitLength(b) && Values(v, b) && Padded(data, v, b)
    requires forall w <- data :: Word(w)
    requires i < ENTRIES
    ensures SeekBlockStateId(data, b, i) == Some(v[i])
  {
    hide Bit, Unsigned, Straddling, SeekPre116, SeekPost116;
    PaddedReaderRuns(data, b);
    PaddedReaderDecodes(data, v, b, i);
    if 64 % b == 0 {
      LayoutsCoincide(data, v, b);
      ReadsEntryIff(data, v, b, i);
      EntryInWord(b, i);
      DivIs(EntryWord(b, i), EntryBit(b, i), 64);
    }
  }

  // ----- Whole sections -----

  /** `getSectionBlockIdArray`: `None` stands for the throw on a missing word. */
  method GetSectionBlockIdArray(data: seq<int>, b: nat) returns (ids: Option<seq<nat>>)
    requires BitLength(b)
    ensures ids.Some? <==> forall i: nat :: i < ENTRIES ==> SeekBlockStateId(data, b, i).Some?
    ensures ids.Some? ==> |ids.value| == ENTRIES
    ensures ids.Some? ==> forall i: nat :: i < ENTRIES ==> SeekBlockStateId(data, b, i) == Some(ids.value[i])
  {
    hide SeekPre116, SeekPost116;
    var result := new nat[ENTRIES](_ => 0);
    if FindVersion(data, b) == Pre116 {
      for i := 0 to ENTRIES
        invariant forall n: nat :: n < i ==> SeekPre116(data, b, n) == Some(result[n])
      {
        var id := SeekPre116(data, b, i);
        if id.None? {
          assert SeekBlockStateId(data, b, i).None?;
          return None;
        }
        result[i] := id.value;
      }
    } else {
      for i := 0 to ENTRIES
        invariant forall n: nat :: n < i ==> SeekPost116(data, b, n) == Some(result[n])
      {
        var id := SeekPost116(data, b, i);
        if id.None? {
          assert SeekBlockStateId(data, b, i).None?;
          return None;
        }
        result[i] := id.value;
      }
    }
    ids := Some(result[..]);
  }
}
