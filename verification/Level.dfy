/**
 * The palette indices of a chunk section (`packages/game-data/level.ts`): 4096
 * numbers of `b` bits packed into 64-bit words, either back to back, straddling
 * word boundaries, or, since Minecraft 1.16, with every word padded at its top.
 */
module Level {
  import opened Basics
  import opened Bits

  const ENTRIES: nat := 4096

  predicate BitLength(b: int) {
    1 <= b <= 32
  }

  /** Where entry `i` starts in the straddling layout: its first word, its last word, its first bit. */
  function FirstWord(b: nat, i: nat): nat {
    i * b / 64
  }

  function LastWord(b: nat, i: nat): nat
    requires b >= 1
  {
    ((i + 1) * b - 1) / 64
  }

  function FirstBit(b: nat, i: nat): nat {
    i * b % 64
  }

  /** `seekPre116`: `None` where it would shift a word that does not exist, which throws. */
  function SeekPre116(data: seq<int>, b: nat, i: nat): (r: Option<nat>)
    requires BitLength(b)
  {
    var j, k, l := FirstWord(b, i), LastWord(b, i), FirstBit(b, i);
    if j >= |data| || k >= |data| then None
    else if j == k then Some(Low(Shr(data[j], l), b))
    else Some(LowOr(Shr(data[j], l), Shl(data[k], 64 - l), b))
  }

  /** How many entries a padded word holds. */
  function PerLong(b: nat): (p: nat)
    requires BitLength(b)
    ensures 1 <= p <= 64
  {
    64 / b
  }

  /** The word of entry `i` in the padded layout, and its first bit there. */
  function EntryWord(b: nat, i: nat): nat
    requires BitLength(b)
  {
    i / PerLong(b)
  }

  function EntryBit(b: nat, i: nat): nat
    requires BitLength(b)
  {
    i % PerLong(b) * b
  }

  /** `seekPost116`. */
  function SeekPost116(data: seq<int>, b: nat, i: nat): (r: Option<nat>)
    requires BitLength(b)
  {
    if EntryWord(b, i) >= |data| then None
    else Some(Low(Shr(data[EntryWord(b, i)], EntryBit(b, i)), b))
  }

  datatype Version = Pre116 | Post116

  /** `findVersion`: is there a word past the end of the straddling layout? */
  function FindVersion(data: seq<int>, b: nat): Version {
    if ENTRIES * b / 64 < |data| then Post116 else Pre116
  }

  function SeekBlockStateId(data: seq<int>, b: nat, i: nat): (r: Option<nat>)
    requires BitLength(b)
  {
    if FindVersion(data, b) == Pre116 then SeekPre116(data, b, i) else SeekPost116(data, b, i)
  }

  // ----- The two layouts, independently of the readers -----

  predicate Values(v: seq<nat>, b: nat) {
    && |v| == ENTRIES
    && forall i :: 0 <= i < ENTRIES ==> Unsigned(v[i], b)
  }

  /** Bit `t` of word `j` is bit `64 j + t` of all values' bits in a row. */
  ghost predicate Straddling(data: seq<int>, v: seq<nat>, b: nat)
    requires BitLength(b) && Values(v, b)
  {
    && |data| == 64 * b
    && forall j: nat, t: nat | j < 64 * b && t < 64 ::
         Bit(data[j], t) == StreamBit(v, b, 64 * j + t)
  }

  predicate StreamBit(v: seq<nat>, b: nat, s: nat)
    requires BitLength(b)
  {
    s / b < |v| && Bit(v[s / b], s % b)
  }

  /** Whole values only in each word, from its low end; the bits left over are arbitrary. */
  ghost predicate Padded(data: seq<int>, v: seq<nat>, b: nat)
    requires BitLength(b) && Values(v, b)
  {
    && |data| == PaddedLength(b)
    && forall i: nat, t: nat | i < ENTRIES && t < b :: HoldsBit(data, v, b, i, t)
  }

  /** Bit `t` of entry `i` is in its place. */
  predicate HoldsBit(data: seq<int>, v: seq<nat>, b: nat, i: nat, t: nat)
    requires BitLength(b) && i < |v|
  {
    EntryWord(b, i) < |data| && Bit(data[EntryWord(b, i)], EntryBit(b, i) + t) == Bit(v[i], t)
  }

  /** The fewest words that hold all entries, `PerLong(b)` to a word. */
  function PaddedLength(b: nat): (n: nat)
    requires BitLength(b)
    ensures forall i: nat | i < ENTRIES :: EntryWord(b, i) < n
  {
    var perLong := PerLong(b);
    WordOfEntry(perLong);
    (ENTRIES + perLong - 1) / perLong
  }

  lemma WordOfEntry(p: nat)
    requires 1 <= p <= 64
    ensures forall i: nat | i < ENTRIES :: i / p < (ENTRIES + p - 1) / p
  {
    forall i: nat | i < ENTRIES ensures i / p < (ENTRIES + p - 1) / p {
      DivBelow(i, (ENTRIES + p - 1) / p, p);
      DivBounds(ENTRIES + p - 1, p);
    }
  }

  lemma DivBounds(x: nat, p: nat)
    requires p >= 1
    ensures x / p * p <= x < x / p * p + p
  {
    assert x == x / p * p + x % p;
  }

  lemma Distribute(x: int, y: int, p: int)
    ensures (x + y) * p == x * p + y * p
  {
  }

  lemma MulStep(a: int, b: int, p: nat)
    ensures a < b ==> a * p + p <= b * p
  {
    var d := b - a - 1;
    assert b * p == a * p + p + d * p by {
      Distribute(a, 1 + d, p);
      Distribute(1, d, p);
    }
    assert d >= 0 ==> d * p >= 0;
  }

  lemma DivBelow(x: nat, n: nat, p: nat)
    requires p >= 1
    ensures x < n * p ==> x / p < n
  {
    DivBounds(x, p);
    MulStep(n - 1, x / p, p);
  }

  lemma DivIs(q: nat, r: nat, p: nat)
    requires r < p
    ensures (q * p + r) / p == q && (q * p + r) % p == r
  {
    var x := q * p + r;
    DivBounds(x, p);
    MulStep(x / p, q, p);
    MulStep(q, x / p, p);
  }

  // ----- Which reader runs -----

  /** For a padded array the padded reader runs exactly when `b` does not divide 64. */
  lemma PaddedReaderRuns(data: seq<int>, b: nat)
    requires BitLength(b) && |data| == PaddedLength(b)
    ensures FindVersion(data, b) == Post116 <==> 64 % b != 0
  {
    var p := PerLong(b);
    DivBounds(64, b);
    DivBounds(ENTRIES + p - 1, p);
    if 64 % b == 0 {
      assert p * b == 64;
      DivIs(64 * b, p - 1, p);
      assert 64 * b * p == ENTRIES;
    } else {
      assert p * b == 64 - 64 % b;
      LongerThan(p, b);
    }
  }

  lemma LongerThan(p: nat, b: nat)
    requires 1 <= p && p * b < 64
    ensures (ENTRIES + p - 1) / p > 64 * b
  {
    var n := (ENTRIES + p - 1) / p;
    DivBounds(ENTRIES + p - 1, p);
    MulStep(n - 1, 64 * b, p);
    assert 64 * b * p == 64 * (p * b);
  }

  /** A straddling array goes to the straddling reader. */
  lemma StraddlingReaderRuns(data: seq<int>, b: nat)
    requires |data| == 64 * b
    ensures FindVersion(data, b) == Pre116
  {
  }
}
