/**
 * `downloadRanged` and the whole-file fallback of `downloadWithController`:
 * the chunks, the initial states, and what holds in every run from them.
 */
module RangedDownload {
  import opened Basics
  import opened SegmentLoop
  import opened SharedFile
  import opened SharedFileInvariant
  import opened SharedFileSafety
  import opened Tiling

  function CeilDiv(a: nat, b: nat): nat
    requires b > 0
  {
    (a + b - 1) / b
  }

  /** The chunks from `s` on. */
  function ChunksFrom(s: nat, total: nat, size: nat): seq<Chunk>
    requires size > 0
    decreases total - s
  {
    if s >= total then [] else [Chunk(s, Min(total - 1, s + size - 1))] + ChunksFrom(s + size, total, size)
  }

  function Chunks(total: nat, concurrency: nat): seq<Chunk>
    requires concurrency > 0
  {
    if total == 0 then [] else ChunksFrom(0, total, CeilDiv(total, concurrency))
  }

  /** Chunks of the smallest size of which `concurrency` cover the file, only the last one shorter. */
  predicate Even(chunks: seq<Chunk>, total: nat, concurrency: nat) {
    forall i :: 0 <= i < |chunks| ==>
      var length := chunks[i].end - chunks[i].start + 1;
      && (length - 1) * concurrency < total
      && (i < |chunks| - 1 ==> length * concurrency >= total)
  }

  lemma {:induction false} ChunksFromSizes(s: nat, total: nat, size: nat)
    requires size > 0
    ensures forall i :: 0 <= i < |ChunksFrom(s, total, size)| ==>
              var c := ChunksFrom(s, total, size)[i];
              c.end - c.start + 1 <= size && (i < |ChunksFrom(s, total, size)| - 1 ==> c.end - c.start + 1 == size)
    decreases total - s
  {
    if s < total {
      ChunksFromSizes(s + size, total, size);
    }
  }

  lemma ChunksAreEven(total: nat, concurrency: nat)
    requires concurrency > 0
    ensures Even(Chunks(total, concurrency), total, concurrency)
  {
    if total > 0 {
      var size := CeilDiv(total, concurrency);
      CeilCovers(total, concurrency);
      CeilIsLeast(total, concurrency);
      ChunksFromSizes(0, total, size);
      var chunks := Chunks(total, concurrency);
      forall i | 0 <= i < |chunks| ensures (chunks[i].end - chunks[i].start) * concurrency < total {
        assert chunks[i].end - chunks[i].start + 1 <= size;
        TimesLess(chunks[i].end - chunks[i].start, size - 1, concurrency);
      }
    }
  }

  lemma TimesLess(a: int, b: int, k: nat)
    requires a <= b
    ensures a * k <= b * k
  {
  }

  lemma CeilIsLeast(total: nat, c: nat)
    requires c > 0 && total > 0
    ensures CeilDiv(total, c) > 0 && (CeilDiv(total, c) - 1) * c < total
  {
    var size := CeilDiv(total, c);
    assert size * c <= total + c - 1;
    assert (size - 1) * c == size * c - c;
  }

  /** The chunk loop: at most `concurrency` non-empty chunks that tile the file. */
  method SplitIntoChunks(expectedTotal: nat, concurrency: nat) returns (chunks: seq<Chunk>)
    requires concurrency > 0
    ensures Tiles(chunks, 0, expectedTotal)
    ensures |chunks| <= concurrency
    ensures chunks == Chunks(expectedTotal, concurrency) && Even(chunks, expectedTotal, concurrency)
  {
    hide ChunksFrom, Tiles;
    ChunksAreEven(expectedTotal, concurrency);
    var chunkSize := CeilDiv(expectedTotal, concurrency);
    chunks := [];
    var s := 0;
    NoTiles();
    assert [] + Chunks(expectedTotal, concurrency) == Chunks(expectedTotal, concurrency);
    ghost var covered := 0;
    while s < expectedTotal
      invariant if expectedTotal > 0 then chunkSize > 0 else chunks == []
      invariant s == |chunks| * chunkSize
      invariant covered == if s < expectedTotal then s else expectedTotal
      invariant Tiles(chunks, 0, covered)
      invariant |chunks| <= concurrency
      invariant expectedTotal > 0 ==>
                  chunks + ChunksFrom(s, expectedTotal, chunkSize) == Chunks(expectedTotal, concurrency)
      decreases expectedTotal - s
    {
      var chunk := Chunk(s, Min(expectedTotal - 1, s + chunkSize - 1));
      TilesAppend(chunks, 0, covered, chunk);
      ChunksFit(expectedTotal, concurrency, |chunks|);
      ChunkNext(chunks, s, expectedTotal, chunkSize);
      chunks := chunks + [chunk];
      covered := chunk.end + 1;
      s := s + chunkSize;
    }
    NoChunkLeft(chunks, s, expectedTotal, chunkSize);
  }

  lemma NoTiles()
    ensures Tiles([], 0, 0)
  {
  }

  lemma ChunkNext(chunks: seq<Chunk>, s: nat, total: nat, size: nat)
    requires size > 0 && s < total
    ensures chunks + ChunksFrom(s, total, size)
         == chunks + [Chunk(s, Min(total - 1, s + size - 1))] + ChunksFrom(s + size, total, size)
  {
  }

  lemma NoChunkLeft(chunks: seq<Chunk>, s: nat, total: nat, size: nat)
    requires s >= total
    ensures size > 0 ==> chunks + ChunksFrom(s, total, size) == chunks
  {
  }

  /** A chunk that still starts inside the file has an index below `c`. */
  lemma ChunksFit(total: nat, c: nat, n: nat)
    requires c > 0 && n * CeilDiv(total, c) < total
    ensures n < c
  {
    CeilCovers(total, c);
    if n >= c {
      TimesMonotone(c, n, CeilDiv(total, c));
    }
  }

  lemma TimesMonotone(a: nat, b: nat, k: nat)
    requires a <= b
    ensures a * k <= b * k
  {
  }

  lemma CeilCovers(total: nat, c: nat)
    requires c > 0
    ensures c * CeilDiv(total, c) >= total
  {
  }

  function SegmentOf(chunk: Chunk): Segment {
    Segment(false, chunk.start, chunk.end + 1, Started(chunk.start), 0, Ready)
  }

  function Ranged(chunks: seq<Chunk>): World {
    World(map[], [], seq(|chunks|, i requires 0 <= i < |chunks| => SegmentOf(chunks[i])), false)
  }

  /** The fallback: the file truncated, with writes of the abandoned segments possibly still in flight. */
  function WholeFile(source: seq<byte>, leftovers: seq<Write>): World {
    World(map[], leftovers, [Segment(true, 0, |source|, Started(0), 0, Ready)], false)
  }

  /** The file that equals the source. */
  function Image(source: seq<byte>): map<nat, byte> {
    map p: nat | p < |source| :: source[p]
  }

  predicate AllFinished(w: World) {
    forall i :: 0 <= i < |w.segments| ==> w.segments[i].phase.Finished?
  }

  lemma RangedInv(job: Job, chunks: seq<Chunk>)
    requires job.expectedTotal == |job.source| && Tiles(chunks, 0, |job.source|)
    ensures Inv(job, Ranged(chunks))
  {
    TilesCover(chunks, 0, |job.source|, 0);
  }

  lemma WholeFileInv(job: Job, leftovers: seq<Write>)
    requires job.expectedTotal == 0 || job.expectedTotal == |job.source|
    requires forall k :: 0 <= k < |leftovers| ==> WriteOk(job, WholeFile(job.source, leftovers).segments, leftovers[k])
    ensures Inv(job, WholeFile(job.source, leftovers))
  {
  }

  // Byte-range segments are always aligned, because their handlers check.

  predicate AllRanged(w: World) {
    forall i :: 0 <= i < |w.segments| ==> !w.segments[i].whole
  }

  predicate SameRanges(w: World, w': World) {
    && |w'.segments| == |w.segments|
    && forall i :: 0 <= i < |w.segments| ==>
         && w'.segments[i].whole == w.segments[i].whole
         && w'.segments[i].first == w.segments[i].first
         && w'.segments[i].end == w.segments[i].end
  }

  lemma StepKeepsRanges(job: Job, w: World, m: Move)
    requires Enabled(job, w, m)
    ensures SameRanges(w, Step(job, w, m))
  {
  }

  lemma {:induction false} RunKeepsRanges(job: Job, w: World, moves: seq<Move>)
    requires Legal(job, w, moves)
    ensures SameRanges(w, Run(job, w, moves))
    ensures AllRanged(w) ==> AlignedRun(job, w, moves)
    decreases |moves|
  {
    if moves != [] {
      StepKeepsRanges(job, w, moves[0]);
      RunKeepsRanges(job, Step(job, w, moves[0]), moves[1..]);
    }
  }

  // The main results.

  /** An in-flight write whose attempt is no longer the one its segment is running or finished with. */
  predicate Abandoned(w: World, wr: Write) {
    wr.owner < |w.segments| && wr.attempt < w.segments[wr.owner].attempt
  }

  lemma {:induction false} CountZero(ws: seq<Write>, i: nat, n: nat)
    requires Count(ws, i, n) == 0
    ensures forall k :: 0 <= k < |ws| && ws[k].owner == i ==> ws[k].attempt != n
  {
    if ws != [] {
      var init := ws[..|ws| - 1];
      CountZero(init, i, n);
      assert forall k :: 0 <= k < |init| ==> ws[k] == init[k];
    }
  }

  /** A finished segment with a known end is responsible for byte `p`. */
  predicate Owned(w: World, p: nat)
    requires AllFinished(w)
  {
    exists i :: 0 <= i < |w.segments| && w.segments[i].first <= p < w.segments[i].end && w.segments[i].phase.target > 0
  }

  /**
   * When every segment has finished, each byte of the source is on disk or in
   * a write that an abandoned attempt issued and nobody waits for.
   */
  lemma FinishedHoldsEverything(job: Job, w: World, p: nat)
    requires Inv(job, w) && AllFinished(w) && p < |job.source|
    requires Owned(w, p)
    ensures p in w.file ||
            exists k :: 0 <= k < |w.inflight| && Abandoned(w, w.inflight[k])
                        && Holds(w.inflight[k], w.inflight[k].owner, p)
  {
    var i :| 0 <= i < |w.segments| && w.segments[i].first <= p < w.segments[i].end && w.segments[i].phase.target > 0;
    assert SegmentOk(job, w.file, w.inflight, i, w.segments[i]);
    assert Held(w.file, w.inflight, i, p);
    if p !in w.file {
      var k :| 0 <= k < |w.inflight| && Holds(w.inflight[k], i, p);
      assert WriteOk(job, w.segments, w.inflight[k]);
      CountZero(w.inflight, i, w.segments[i].attempt);
    }
  }

  /** A finished download with nothing but empty writes in flight is the source. */
  lemma LandedMeansSource(job: Job, w: World)
    requires Inv(job, w) && AllFinished(w)
    requires forall p: nat :: p < |job.source| ==> Owned(w, p)
    requires forall k :: 0 <= k < |w.inflight| ==> w.inflight[k].data == []
    ensures w.file == Image(job.source)
  {
    forall p: nat | p < |job.source| ensures p in w.file {
      FinishedHoldsEverything(job, w, p);
    }
  }

  /**
   * Safety of the split download, for every interleaving and every honest
   * network: only source bytes reach the disk, every issued write stays inside
   * its segment, the bytes below each resume offset are the source's, and once
   * all segments have finished and all writes have landed the file is the source.
   */
  lemma RangedDownloadSafe(job: Job, chunks: seq<Chunk>, moves: seq<Move>)
    requires job.expectedTotal == |job.source| && Tiles(chunks, 0, |job.source|)
    requires Legal(job, Ranged(chunks), moves)
    ensures var w := Run(job, Ranged(chunks), moves);
            && FileOk(job.source, w.file)
            && |w.segments| == |chunks|
            && (forall k :: 0 <= k < |w.inflight| ==>
                  && w.inflight[k].owner < |chunks|
                  && chunks[w.inflight[k].owner].start <= w.inflight[k].offset
                  && w.inflight[k].offset + |w.inflight[k].data| <= chunks[w.inflight[k].owner].end + 1)
            && (forall i :: 0 <= i < |chunks| ==>
                  HeldFrom(w.file, w.inflight, i, chunks[i].start, w.segments[i].loop.resumeOffset))
            && (AllFinished(w) && w.inflight == [] ==> w.file == Image(job.source))
  {
    var w0 := Ranged(chunks);
    var w := Run(job, w0, moves);
    RangedInv(job, chunks);
    RunKeepsRanges(job, w0, moves);
    RunKeepsInv(job, w0, moves);
    forall k | 0 <= k < |w.inflight|
      ensures w.inflight[k].owner < |chunks|
              && chunks[w.inflight[k].owner].start <= w.inflight[k].offset
              && w.inflight[k].offset + |w.inflight[k].data| <= chunks[w.inflight[k].owner].end + 1
    {
      assert WriteOk(job, w.segments, w.inflight[k]);
      assert w0.segments[w.inflight[k].owner] == SegmentOf(chunks[w.inflight[k].owner]);
    }
    forall i | 0 <= i < |chunks|
      ensures HeldFrom(w.file, w.inflight, i, chunks[i].start, w.segments[i].loop.resumeOffset)
    {
      assert w0.segments[i] == SegmentOf(chunks[i]);
      assert SegmentOk(job, w.file, w.inflight, i, w.segments[i]);
    }
    if AllFinished(w) && w.inflight == [] {
      EveryByteHasASegment(job, chunks, w);
      LandedMeansSource(job, w);
    }
  }

  lemma EveryByteHasASegment(job: Job, chunks: seq<Chunk>, w: World)
    requires Tiles(chunks, 0, |job.source|) && SameRanges(Ranged(chunks), w) && Inv(job, w) && AllFinished(w)
    ensures forall p: nat :: p < |job.source| ==> Owned(w, p)
  {
    forall p: nat | p < |job.source|
      ensures Owned(w, p)
    {
      TilesCover(chunks, 0, |job.source|, p);
      var i :| 0 <= i < |chunks| && chunks[i].start <= p <= chunks[i].end;
      assert Ranged(chunks).segments[i] == SegmentOf(chunks[i]);
      assert SegmentOk(job, w.file, w.inflight, i, w.segments[i]);
      assert w.segments[i].first <= p < w.segments[i].end;
    }
  }

  /**
   * The whole-file stream, started on a truncated file while writes of an
   * abandoned split may still land: with a known total and no response that
   * starts past a missing byte, finishing means the file is the source.
   */
  lemma WholeFileSafe(job: Job, leftovers: seq<Write>, moves: seq<Move>)
    requires job.expectedTotal == 0 || job.expectedTotal == |job.source|
    requires forall k :: 0 <= k < |leftovers| ==> WriteOk(job, WholeFile(job.source, leftovers).segments, leftovers[k])
    requires Legal(job, WholeFile(job.source, leftovers), moves)
    requires AlignedRun(job, WholeFile(job.source, leftovers), moves)
    ensures var w := Run(job, WholeFile(job.source, leftovers), moves);
            && FileOk(job.source, w.file)
            && |w.segments| == 1
            && (w.segments[0].phase.Finished? && w.segments[0].phase.target > 0 && w.inflight == [] ==>
                  w.file == Image(job.source))
  {
    var w0 := WholeFile(job.source, leftovers);
    var w := Run(job, w0, moves);
    WholeFileInv(job, leftovers);
    RunKeepsRanges(job, w0, moves);
    RunKeepsInv(job, w0, moves);
    if w.segments[0].phase.Finished? && w.segments[0].phase.target > 0 && w.inflight == [] {
      LandedMeansSource(job, w);
    }
  }
}
