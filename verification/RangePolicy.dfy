/** `DefaultRangePolicy` and the way `RangeRequestHandler` uses it. */
module RangePolicy {
  import opened Basics
  import opened Tiling

  function Length(c: Chunk): int {
    c.end - c.start + 1
  }

  /** Parts of one size, the last of which takes what is left over and is shorter than two. */
  predicate Parts(ranges: seq<Chunk>, partSize: nat) {
    && ranges != []
    && (forall i :: 0 <= i < |ranges| - 1 ==> Length(ranges[i]) == partSize)
    && partSize <= Length(ranges[|ranges| - 1]) < 2 * partSize
  }

  /**
   * `computeRangesInRange`: one range up to the threshold; above it, parts of the
   * threshold or of one share of the total, whichever is larger, end to end over
   * [start, end].
   */
  method ComputeRangesInRange(start: nat, end: nat, threshold: nat, concurrency: nat) returns (ranges: seq<Chunk>)
    requires start <= end && threshold >= 1 && concurrency >= 1
    ensures Tiles(ranges, start, end + 1) && |ranges| >= 1
    ensures var total := end - start + 1;
            if total <= threshold then |ranges| == 1
            else Parts(ranges, if total / concurrency > threshold then total / concurrency else threshold)
    ensures |ranges| <= 2 * concurrency - 1
    ensures threshold >= concurrency ==> |ranges| <= concurrency
  {
    var total := end - start + 1;
    if total <= threshold {
      return [Chunk(start, end)];
    }
    var partSize := Max(threshold, total / concurrency);
    QuotientNotLarger(total, concurrency);
    ranges := CutIntoParts(start, end, partSize);
    CountBound(total, threshold, concurrency, |ranges|);
  }

  /** The loop: whole parts, the remainder added to the last one. */
  method CutIntoParts(start: nat, end: nat, partSize: nat) returns (ranges: seq<Chunk>)
    requires start <= end && 1 <= partSize <= end - start + 1
    ensures Tiles(ranges, start, end + 1) && Parts(ranges, partSize)
    ensures |ranges| * partSize <= end - start + 1
  {
    ranges := [];
    var cur, chunkSize := start, 0;
    while cur <= end
      invariant start <= cur <= end + 1 && (ranges == [] ==> cur == start)
      invariant |ranges| * partSize == cur - start
      invariant Tiles(ranges, start, cur)
      invariant forall i :: 0 <= i < |ranges| ==> ranges[i].end + 1 == ranges[i].start + partSize
      decreases end + 1 - cur
    {
      var remain := end - cur + 1;
      if remain >= partSize {
        chunkSize := partSize;
        TilesAppend(ranges, start, cur, Chunk(cur, cur + chunkSize - 1));
        NextMultiple(|ranges| + 1, partSize);
        ranges := ranges + [Chunk(cur, cur + chunkSize - 1)];
      } else {
        var last := |ranges| - 1;
        TilesLast(ranges, start, cur);
        TilesExtend(ranges, start, cur, end);
        ranges := ranges[last := Chunk(ranges[last].start, end)];
        break;
      }
      cur := cur + chunkSize;
    }
  }

  lemma {:induction false} TilesLast(ranges: seq<Chunk>, from: nat, total: nat)
    requires ranges != [] && Tiles(ranges, from, total)
    ensures ranges[|ranges| - 1].end + 1 == total
  {
    if |ranges| > 1 {
      TilesLast(ranges[1..], ranges[0].end + 1, total);
    } else {
      assert ranges[1..] == [];
    }
  }

  lemma NextMultiple(n: nat, part: nat)
    requires n > 0
    ensures n * part == (n - 1) * part + part
  {
  }

  lemma QuotientNotLarger(total: nat, concurrency: nat)
    requires concurrency >= 1
    ensures total / concurrency <= total
  {
    var q := total / concurrency;
    assert q * concurrency <= total;
    TimesAtLeast(q, concurrency);
  }

  lemma TimesAtLeast(q: nat, c: nat)
    requires c >= 1
    ensures q * c >= q
  {
  }

  /** The last range may be moved out to a later end. */
  lemma {:induction false} TilesExtend(ranges: seq<Chunk>, from: nat, total: nat, end: nat)
    requires ranges != [] && Tiles(ranges, from, total) && total <= end + 1
    ensures Tiles(ranges[|ranges| - 1 := Chunk(ranges[|ranges| - 1].start, end)], from, end + 1)
  {
    var extended := ranges[|ranges| - 1 := Chunk(ranges[|ranges| - 1].start, end)];
    if |ranges| == 1 {
      assert extended[1..] == [];
      assert ranges[1..] == [];
    } else {
      assert extended[1..] == ranges[1..][|ranges[1..]| - 1 := Chunk(ranges[1..][|ranges[1..]| - 1].start, end)];
      TilesExtend(ranges[1..], ranges[0].end + 1, total, end);
    }
  }

  lemma TimesMonotone(k: nat, a: nat, b: nat)
    requires a <= b
    ensures k * a <= k * b
  {
  }

  lemma LessFromProducts(n: nat, m: nat, part: nat)
    requires n * part < m * part
    ensures n < m
  {
    if m <= n {
      TimesMonotone(part, m, n);
    }
  }

  /** How many whole parts fit. */
  lemma CountBound(total: nat, threshold: nat, c: nat, n: nat)
    requires threshold >= 1 && c >= 1 && n * Max(threshold, total / c) <= total
    ensures n <= 2 * c - 1
    ensures threshold >= c ==> n <= c
  {
    var part := Max(threshold, total / c);
    var q := total / c;
    assert total < c * (q + 1);
    TimesMonotone(c, q + 1, 2 * part);
    assert c * (2 * part) == (2 * c) * part;
    LessFromProducts(n, 2 * c, part);
    if threshold >= c {
      CountBoundLargeParts(total, c, part, n);
    }
  }

  lemma CountBoundLargeParts(total: nat, c: nat, part: nat, n: nat)
    requires c >= 1 && part >= c && part >= total / c && n * part <= total
    ensures n <= c
  {
    var q := total / c;
    assert total < c * q + c;
    TimesMonotone(c, q, part);
    assert (c + 1) * part == c * part + part;
    LessFromProducts(n, c + 1, part);
  }

  // `RangeRequestHandler`.

  /** What the parent's response headers say. */
  datatype Parent = Parent(acceptRanges: bool, start: nat, contentLength: nat, total: nat)

  /** `onHeaderParsed`: the ranges requested beside the parent's own response. */
  method ChildRanges(p: Parent, threshold: nat, concurrency: nat) returns (ranges: seq<Chunk>)
    requires threshold >= 1 && concurrency >= 1
    ensures if p.acceptRanges && p.total != p.contentLength && p.start + p.contentLength < p.total
            then Tiles(ranges, p.start + p.contentLength, p.total)
            else ranges == []
  {
    if !p.acceptRanges || p.total == p.contentLength {
      return [];
    }
    var remainingStart := p.start + p.contentLength;
    var remainingEnd: int := p.total - 1;
    if remainingStart > remainingEnd {
      return [];
    }
    ranges := ComputeRangesInRange(remainingStart, remainingEnd, threshold, concurrency);
  }

  /** The parent and its children together fetch every byte from the parent's start exactly once. */
  lemma ParentAndChildrenCover(p: Parent, ranges: seq<Chunk>, b: nat)
    requires p.start + p.contentLength < p.total && Tiles(ranges, p.start + p.contentLength, p.total)
    ensures p.start <= b < p.total <==>
              || p.start <= b < p.start + p.contentLength
              || exists i :: 0 <= i < |ranges| && ranges[i].start <= b <= ranges[i].end
    ensures forall i :: 0 <= i < |ranges| ==> p.start + p.contentLength <= ranges[i].start
    ensures forall i, j :: 0 <= i < j < |ranges| ==> ranges[i].end < ranges[j].start
  {
    TilesCover(ranges, p.start + p.contentLength, p.total, b);
  }
}
