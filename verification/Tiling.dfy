/** Byte ranges that lie end to end. */
module Tiling {

  /** An inclusive byte range. */
  datatype Chunk = Chunk(start: nat, end: nat)

  /** The chunks lie end to end from `from` and stop at `total`. */
  predicate Tiles(chunks: seq<Chunk>, from: nat, total: nat)
    decreases |chunks|
  {
    if chunks == [] then from == total
    else chunks[0].start == from <= chunks[0].end && Tiles(chunks[1..], chunks[0].end + 1, total)
  }

  lemma {:induction false} TilesAppend(chunks: seq<Chunk>, from: nat, mid: nat, last: Chunk)
    requires Tiles(chunks, from, mid) && last.start == mid <= last.end
    ensures Tiles(chunks + [last], from, last.end + 1)
  {
    if chunks == [] {
      assert chunks + [last] == [last];
    } else {
      assert (chunks + [last])[1..] == chunks[1..] + [last];
      TilesAppend(chunks[1..], chunks[0].end + 1, mid, last);
    }
  }

  /** Every byte belongs to exactly one chunk. */
  lemma {:induction false} TilesCover(chunks: seq<Chunk>, from: nat, total: nat, p: nat)
    requires Tiles(chunks, from, total)
    ensures from <= total
    ensures from <= p < total <==> exists i :: 0 <= i < |chunks| && chunks[i].start <= p <= chunks[i].end
    ensures forall i, j :: 0 <= i < j < |chunks| ==> chunks[i].end < chunks[j].start
    ensures forall i :: 0 <= i < |chunks| ==> from <= chunks[i].start <= chunks[i].end < total
    decreases |chunks|
  {
    if chunks != [] {
      var rest := chunks[1..];
      TilesCover(rest, chunks[0].end + 1, total, p);
      assert forall i :: 1 <= i < |chunks| ==> chunks[i] == rest[i - 1];
      if chunks[0].end < p < total {
        var i :| 0 <= i < |rest| && rest[i].start <= p <= rest[i].end;
        assert chunks[i + 1].start <= p <= chunks[i + 1].end;
      }
    }
  }
}
