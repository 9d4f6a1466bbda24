/**
 * The other half of the download theorems: from every state in which the code
 * leaves a write behind, or takes a response from past a missing byte, the
 * download can go on to finish without the source on disk.
 */
module DownloadGaps {
  import opened Basics
  import opened SegmentLoop
  import opened ControlledHandler
  import opened SharedFile
  import opened SharedFileInvariant
  import opened SharedFileSafety
  import opened RangedDownload
  import opened DownloadReach
  import opened DownloadExact
  import opened Tiling

  // Letting writes land.

  lemma {:induction false} FindCounted(ws: seq<Write>, i: nat, a: nat) returns (k: nat)
    requires Count(ws, i, a) > 0
    ensures k < |ws| && ws[k].owner == i && ws[k].attempt == a
  {
    k := |ws| - 1;
    if ws[k].owner != i || ws[k].attempt != a {
      k := FindCounted(ws[..k], i, a);
    }
  }

  /** The response is over; only the writes of attempt `a` are outstanding. */
  predicate Draining(w: World, j: nat) {
    && j < |w.segments| && w.segments[j].phase.Running?
    && var h := w.segments[j].phase.handler;
    && h.terminated
    && h.pending == Count(w.inflight, j, w.segments[j].attempt)
    && h.outcome == if h.pending == 0 then Some(Resolved) else None
  }

  /** The segment once they have landed. */
  function Drained(seg: Segment): Segment
    requires seg.phase.Running?
  {
    seg.(phase := seg.phase.(handler := seg.phase.handler.(pending := 0, outcome := Some(Resolved))))
  }

  lemma LandOne(job: Job, w: World, j: nat, k: nat)
    requires Draining(w, j) && k < |w.inflight|
    requires w.inflight[k].owner == j && w.inflight[k].attempt == w.segments[j].attempt
    requires w.segments[j].phase.handler.pending > 0
    ensures var w' := Step(job, w, Land(k));
            && Draining(w', j)
            && w'.segments == w.segments[j := w'.segments[j]]
            && w'.segments[j].phase.handler.pending == w.segments[j].phase.handler.pending - 1
            && Drained(w'.segments[j]) == Drained(w.segments[j])
            && w'.segments[j].attempt == w.segments[j].attempt
            && w'.cancelled == w.cancelled
            && forall wr <- w.inflight :: wr != w.inflight[k] ==> wr in w'.inflight
  {
    CountWithout(w.inflight, k, j, w.segments[j].attempt);
    forall wr <- w.inflight | wr != w.inflight[k] ensures wr in Without(w.inflight, k) {
      var n :| 0 <= n < |w.inflight| && w.inflight[n] == wr;
      assert Without(w.inflight, k)[if n < k then n else n - 1] == wr;
    }
  }

  lemma {:induction false} LandOwn(job: Job, w: World, j: nat) returns (w': World)
    requires Draining(w, j)
    ensures Leads(job, w, w') && w'.segments == w.segments[j := Drained(w.segments[j])] && w'.cancelled == w.cancelled
    ensures forall wr <- w.inflight :: (wr.owner != j || wr.attempt != w.segments[j].attempt) ==> wr in w'.inflight
    decreases w.segments[j].phase.handler.pending
  {
    hide Draining, Count;
    DrainingFacts(w, j);
    if w.segments[j].phase.handler.pending == 0 {
      LeadsNowhere(job, w);
      w' := w;
    } else {
      var k := FindCounted(w.inflight, j, w.segments[j].attempt);
      var w1 := Step(job, w, Land(k));
      LandOne(job, w, j, k);
      LeadsOn(job, w, Land(k));
      w' := LandOwn(job, w1, j);
      LeadsThrough(job, w, w1, w');
    }
  }

  lemma DrainingFacts(w: World, j: nat)
    requires Draining(w, j)
    ensures j < |w.segments| && w.segments[j].phase.Running?
    ensures w.segments[j].phase.handler.pending == Count(w.inflight, j, w.segments[j].attempt)
    ensures w.segments[j].phase.handler.pending == 0 ==> Drained(w.segments[j]) == w.segments[j]
  {
  }

  // Finishing byte-range segments.

  /** A segment the network can still bring to its end over the connection it has or is about to open. */
  predicate CanFinish(job: Job, seg: Segment) {
    match seg.phase
    case Finished(_) => true
    case Ready => seg.loop.urlIndex < job.urls && seg.loop.resumeOffset < seg.end
    case Running(_, h, wire) =>
      && h.outcome.None? && !h.terminated && !h.rangeRejected
      && ((wire.Waiting? && seg.loop.resumeOffset < seg.end) || (wire.Streaming? && h.position < seg.end))
    case _ => false
  }

  /** A write that no segment waits for. */
  predicate Kept(segments: seq<Segment>, wr: Write) {
    && wr.owner < |segments|
    && !(segments[wr.owner].phase.Running? && wr.attempt == segments[wr.owner].attempt)
  }

  /** No segment but the `j`-th has changed. */
  predicate OnlyChanged(w: World, w': World, j: nat) {
    |w'.segments| == |w.segments| && j < |w.segments| && w'.segments == w.segments[j := w'.segments[j]]
  }

  /** Segment `j` has finished, nothing else has changed, and writes nobody waits for are still in flight. */
  ghost predicate JustFinished(w: World, w': World, j: nat) {
    && OnlyChanged(w, w', j) && w'.segments[j].phase.Finished?
    && forall wr <- w.inflight :: Kept(w.segments, wr) ==> wr in w'.inflight
  }

  /** The state after the rest of the segment has been received. */
  lemma ReceiveRest(job: Job, w: World, j: nat) returns (w': World)
    requires Inv(job, w) && j < |w.segments| && !w.segments[j].whole
    requires w.segments[j].phase.Running? && w.segments[j].phase.wire.Streaming? && CanFinish(job, w.segments[j])
    ensures Leads(job, w, w') && Draining(w', j) && w'.cancelled == w.cancelled
    ensures OnlyChanged(w, w', j) && w'.segments[j].attempt == w.segments[j].attempt
    ensures w'.segments[j].end == w.segments[j].end && !w'.segments[j].whole
    ensures w'.segments[j].phase.handler.position == w.segments[j].end
    ensures w.inflight <= w'.inflight
  {
    hide Inv, SegmentOk, HandlerOk, ShapeOk, OnData, Written, Trimmed, Wants, CanFinish, Count;
    var seg := w.segments[j];
    var Running(p, h, wire) := seg.phase;
    RestIsWanted(job, w, j);
    var chunk := job.source[h.position..seg.end];
    var m := Deliver(j, Data(chunk));
    LeadsOn(job, w, m);
    w' := Step(job, w, m);
    var wr := Write(j, seg.attempt, h.position, chunk);
    assert w'.inflight == w.inflight + [wr];
    CountAppend(w.inflight, [wr], j, seg.attempt);
    CountOne(wr);
  }

  lemma CountOne(wr: Write)
    ensures Count([wr], wr.owner, wr.attempt) == 1
  {
    assert [wr][..0] == [];
  }

  /** The rest of a segment arrives in one chunk, is written whole and ends the segment. */
  lemma RestIsWanted(job: Job, w: World, j: nat)
    requires Inv(job, w) && j < |w.segments| && !w.segments[j].whole
    requires w.segments[j].phase.Running? && w.segments[j].phase.wire.Streaming? && CanFinish(job, w.segments[j])
    ensures var seg := w.segments[j];
            var Running(p, h, wire) := seg.phase;
            && h.position < seg.end <= |job.source| && h.statusCode >= 200 && h.outcome.None?
            && h.pending == Count(w.inflight, j, seg.attempt)
            && var chunk := job.source[h.position..seg.end];
            && Honest(job, wire, Data(chunk))
            && Written(p, h, Data(chunk)) == Emit(h.position, chunk)
            && OnData(p, h, chunk) ==
               h.(firstByte := true, pending := h.pending + 1, position := seg.end, terminated := true)
  {
    var seg := w.segments[j];
    assert SegmentOk(job, w.file, w.inflight, j, seg);
  }

  lemma ConcludeDrained(job: Job, w: World, j: nat) returns (w': World)
    requires j < |w.segments| && w.segments[j].phase.Running? && !w.segments[j].whole
    requires w.segments[j].phase.handler.outcome == Some(Resolved)
    requires w.segments[j].phase.handler.position == w.segments[j].end
    ensures Leads(job, w, w') && w'.inflight == w.inflight
    ensures OnlyChanged(w, w', j) && w'.segments[j].phase.Finished?
  {
    LeadsOn(job, w, Conclude(j, false));
    w' := Step(job, w, Conclude(j, false));
  }

  lemma FinishStreaming(job: Job, w: World, j: nat) returns (w': World)
    requires Inv(job, w) && j < |w.segments| && !w.segments[j].whole
    requires w.segments[j].phase.Running? && w.segments[j].phase.wire.Streaming? && CanFinish(job, w.segments[j])
    ensures Leads(job, w, w') && JustFinished(w, w', j)
  {
    hide Inv, Draining, CanFinish;
    var w1 := ReceiveRest(job, w, j);
    DrainingFacts(w1, j);
    var w2 := LandOwn(job, w1, j);
    w' := ConcludeDrained(job, w2, j);
    LeadsThrough(job, w, w1, w2);
    LeadsThrough(job, w, w2, w');
    forall wr <- w.inflight | Kept(w.segments, wr) ensures wr in w'.inflight {
      assert wr in w1.inflight;
    }
  }

  /** A connection answers with the range it was asked for. */
  lemma Answer(job: Job, w: World, j: nat) returns (w': World)
    requires Inv(job, w) && j < |w.segments| && !w.segments[j].whole
    requires w.segments[j].phase.Running? && w.segments[j].phase.wire.Waiting? && CanFinish(job, w.segments[j])
    ensures Leads(job, w, w') && Inv(job, w') && w'.inflight == w.inflight
    ensures OnlyChanged(w, w', j) && w'.segments[j].attempt == w.segments[j].attempt && !w'.segments[j].whole
    ensures w'.segments[j].phase.Running? && w'.segments[j].phase.wire.Streaming? && CanFinish(job, w'.segments[j])
  {
    var seg := w.segments[j];
    assert SegmentOk(job, w.file, w.inflight, j, seg);
    var m := Deliver(j, Headers(206, Range(seg.loop.resumeOffset, Some(|job.source|)), None));
    LeadsOn(job, w, m);
    StepKeepsInv(job, w, m);
    w' := Step(job, w, m);
  }

  lemma Open(job: Job, w: World, j: nat) returns (w': World)
    requires Inv(job, w) && j < |w.segments| && !w.segments[j].whole
    requires w.segments[j].phase.Ready? && CanFinish(job, w.segments[j])
    ensures Leads(job, w, w') && Inv(job, w') && w'.inflight == w.inflight
    ensures OnlyChanged(w, w', j) && w'.segments[j].attempt == w.segments[j].attempt + 1 && !w'.segments[j].whole
    ensures w'.segments[j].phase.Running? && w'.segments[j].phase.wire.Waiting? && CanFinish(job, w'.segments[j])
  {
    var m := Start(j, false, true);
    LeadsOn(job, w, m);
    StepKeepsInv(job, w, m);
    w' := Step(job, w, m);
  }

  lemma FinishWaiting(job: Job, w: World, j: nat) returns (w': World)
    requires Inv(job, w) && j < |w.segments| && !w.segments[j].whole
    requires w.segments[j].phase.Running? && w.segments[j].phase.wire.Waiting? && CanFinish(job, w.segments[j])
    ensures Leads(job, w, w') && JustFinished(w, w', j)
  {
    hide Inv, CanFinish;
    var w1 := Answer(job, w, j);
    w' := FinishStreaming(job, w1, j);
    LeadsThrough(job, w, w1, w');
    assert w'.segments == w.segments[j := w'.segments[j]];
  }

  lemma FinishReady(job: Job, w: World, j: nat) returns (w': World)
    requires Inv(job, w) && j < |w.segments| && !w.segments[j].whole
    requires w.segments[j].phase.Ready? && CanFinish(job, w.segments[j])
    ensures Leads(job, w, w') && JustFinished(w, w', j)
  {
    hide CanFinish, SegmentOk;
    var w1 := Open(job, w, j);
    w' := FinishWaiting(job, w1, j);
    LeadsThrough(job, w, w1, w');
    assert w'.segments == w.segments[j := w'.segments[j]];
    forall wr <- w.inflight | Kept(w.segments, wr) ensures wr in w'.inflight {
      assert WriteOk(job, w.segments, wr);
      assert Kept(w1.segments, wr);
    }
  }

  lemma FinishOne(job: Job, w: World, j: nat) returns (w': World)
    requires Inv(job, w) && j < |w.segments| && !w.segments[j].whole && CanFinish(job, w.segments[j])
    ensures Leads(job, w, w') && JustFinished(w, w', j)
  {
    hide Inv;
    match w.segments[j].phase
    case Finished(_) =>
      LeadsNowhere(job, w);
      w' := w;
    case Ready => w' := FinishReady(job, w, j);
    case Running(_, _, wire) =>
      if wire.Waiting? {
        w' := FinishWaiting(job, w, j);
      } else {
        w' := FinishStreaming(job, w, j);
      }
  }

  lemma LeadsKeeps(job: Job, w: World, w': World)
    requires Inv(job, w) && Once(w) && Leads(job, w, w')
    ensures Inv(job, w') && Once(w')
  {
    hide Inv, Once, Legal, Run;
    var moves :| Legal(job, w, moves) && Run(job, w, moves) == w';
    RunKeepsOnce(job, w, moves);
  }

  /** Segments from `j` on finish one after the other. */
  lemma {:induction false} FinishFrom(job: Job, w: World, j: nat) returns (w': World)
    requires Inv(job, w) && Once(w) && j <= |w.segments|
    requires forall i :: 0 <= i < j ==> w.segments[i].phase.Finished?
    requires forall i :: j <= i < |w.segments| ==> CanFinish(job, w.segments[i])
    ensures Leads(job, w, w') && AllFinished(w')
    ensures forall wr <- w.inflight :: Kept(w.segments, wr) ==> wr in w'.inflight
    decreases |w.segments| - j
  {
    hide Inv, CanFinish, Before, Apart, DiskBefore;
    if j == |w.segments| {
      LeadsNowhere(job, w);
      w' := w;
    } else {
      var w1 := FinishOne(job, w, j);
      LeadsKeeps(job, w, w1);
      w' := FinishFrom(job, w1, j + 1);
      LeadsThrough(job, w, w1, w');
      forall wr <- w.inflight | Kept(w.segments, wr) ensures wr in w'.inflight {
        assert Kept(w1.segments, wr);
      }
    }
  }

  /**
   * A state in which every segment can finish and some write is in flight that
   * no segment waits for: the download can finish without that write.
   */
  lemma CanFinishWithGap(job: Job, chunks: seq<Chunk>, w: World, wr: Write)
    requires Inv(job, w) && Once(w) && SameRanges(Ranged(chunks), w) && Tiles(chunks, 0, |job.source|)
    requires forall i :: 0 <= i < |w.segments| ==> CanFinish(job, w.segments[i])
    requires wr in w.inflight && wr.data != [] && Kept(w.segments, wr)
    ensures exists w' :: Leads(job, w, w') && AllFinished(w') && w'.file != Image(job.source)
  {
    hide Inv, Once, CanFinish, Kept;
    var w' := FinishFrom(job, w, 0);
    LeadsKeeps(job, w, w');
    LeadsKeepsRanges(job, w, w');
    EveryByteHasASegment(job, chunks, w');
    FinishedIffAllLanded(job, w');
    var k :| 0 <= k < |w'.inflight| && w'.inflight[k] == wr;
  }

  lemma LeadsKeepsRanges(job: Job, w: World, w': World)
    requires Leads(job, w, w')
    ensures SameRanges(w, w')
  {
    hide Legal, Run;
    var moves :| Legal(job, w, moves) && Run(job, w, moves) == w';
    RunKeepsRanges(job, w, moves);
  }

  /**
   * The step that matters: an attempt is left for another one with a write of
   * its own still in flight.  If the loop has a URL left and bytes left to ask
   * for, and the other segments can finish, the download can finish with a gap.
   */
  lemma LeavingPendingAllowsGap(job: Job, chunks: seq<Chunk>, w: World, i: nat, reroll: bool, k: nat)
    requires job.expectedTotal == |job.source| && Tiles(chunks, 0, |job.source|)
    requires Leads(job, Ranged(chunks), w)
    requires Enabled(job, w, Conclude(i, reroll)) && VerdictOf(job, w.segments[i], w.cancelled, reroll).Continue?
    requires k < |w.inflight| && w.inflight[k].owner == i && w.inflight[k].attempt == w.segments[i].attempt
    requires w.inflight[k].data != []
    requires var next := VerdictOf(job, w.segments[i], w.cancelled, reroll).next;
             next.urlIndex < job.urls && next.resumeOffset < w.segments[i].end
    requires forall j :: 0 <= j < |w.segments| && j != i ==> CanFinish(job, w.segments[j])
    ensures exists w' ::
              Leads(job, Step(job, w, Conclude(i, reroll)), w') && AllFinished(w') && w'.file != Image(job.source)
  {
    hide Inv, Once, SegmentOk, AfterAttempt;
    var m := Conclude(i, reroll);
    RangedInv(job, chunks);
    RangedOnce(job, chunks);
    LeadsKeeps(job, Ranged(chunks), w);
    LeadsKeepsRanges(job, Ranged(chunks), w);
    OnceIsRanged(w, m);
    StepKeepsInv(job, w, m);
    StepKeepsOnce(job, w, m);
    StepKeepsRanges(job, w, m);
    OnlyRanged(w);
    var w1 := Step(job, w, m);
    assert w1.inflight == w.inflight;
    CanFinishWithGap(job, chunks, w1, w.inflight[k]);
  }

  lemma OnlyRanged(w: World)
    requires Once(w)
    ensures forall i :: 0 <= i < |w.segments| ==> !w.segments[i].whole
  {
  }

  // A whole-file response from past a missing byte.

  /** The only segment is a stream whose response is over, and byte `p` is nowhere. */
  ghost predicate DrainingWithout(w: World, p: nat) {
    && Draining(w, 0) && |w.segments| == 1 && w.segments[0].whole
    && (forall wr <- w.inflight :: wr.owner == 0)
    && !Held(w.file, w.inflight, 0, p)
  }

  lemma LandFirst(job: Job, w: World, p: nat)
    requires DrainingWithout(w, p) && w.inflight != []
    ensures var w' := Step(job, w, Land(0));
            && DrainingWithout(w', p) && |w'.inflight| == |w.inflight| - 1
            && Drained(w'.segments[0]) == Drained(w.segments[0])
  {
    hide Count, Held;
    var wr := w.inflight[0];
    assert wr in w.inflight;
    CountWithout(w.inflight, 0, 0, w.segments[0].attempt);
    assert Without(w.inflight, 0) == w.inflight[1..];
    StillMissing(w.file, w.inflight, p);
  }

  lemma StillMissing(file: map<nat, byte>, inflight: seq<Write>, p: nat)
    requires inflight != [] && inflight[0].owner == 0 && !Held(file, inflight, 0, p)
    ensures !Held(Store(file, inflight[0].offset, inflight[0].data), inflight[1..], 0, p)
  {
    assert !Holds(inflight[0], 0, p);
    assert forall k :: 0 <= k < |inflight| - 1 ==> inflight[1..][k] == inflight[k + 1];
    NotStored(file, inflight[0], p);
  }

  lemma NotStored(file: map<nat, byte>, wr: Write, p: nat)
    requires p !in file && !(wr.offset <= p < wr.offset + |wr.data|)
    ensures p !in Store(file, wr.offset, wr.data)
  {
  }

  lemma {:induction false} LandAll(job: Job, w: World, p: nat) returns (w': World)
    requires DrainingWithout(w, p)
    ensures Leads(job, w, w') && w'.inflight == [] && p !in w'.file
    ensures w'.segments == [Drained(w.segments[0])]
    decreases |w.inflight|
  {
    if w.inflight == [] {
      LeadsNowhere(job, w);
      w' := w;
    } else {
      hide DrainingWithout;
      LandFirst(job, w, p);
      LeadsOn(job, w, Land(0));
      var w1 := Step(job, w, Land(0));
      w' := LandAll(job, w1, p);
      LeadsThrough(job, w, w1, w');
    }
  }

  /** The state right after such a response has been taken. */
  ghost predicate Misaligned(job: Job, w: World, first: nat, p: nat) {
    && |w.segments| == 1 && w.segments[0].whole && w.segments[0].phase.Running?
    && (forall wr <- w.inflight :: wr.owner == 0)
    && !Held(w.file, w.inflight, 0, p) && p < first
    && var seg := w.segments[0];
    && var Running(ps, h, wire) := seg.phase;
    && ps.segTotal == 0 && wire == Streaming(first) && h.position == first && h.statusCode >= 200
    && h.outcome.None? && !h.terminated && !h.rangeRejected
    && h.pending == 0 == Count(w.inflight, 0, seg.attempt)
    && (h.totalSize == 0 || h.totalSize == |job.source|)
  }

  lemma TakenMisaligned(job: Job, w: World, first: nat, total: Option<nat>, length: Option<nat>, p: nat)
    requires Inv(job, w) && |w.segments| == 1 && w.segments[0].whole
    requires Enabled(job, w, Deliver(0, Headers(206, Range(first, total), length)))
    requires p < first && !Held(w.file, w.inflight, 0, p)
    ensures Misaligned(job, Step(job, w, Deliver(0, Headers(206, Range(first, total), length))), first, p)
  {
    var seg := w.segments[0];
    assert SegmentOk(job, w.file, w.inflight, 0, seg);
    assert forall wr <- w.inflight :: WriteOk(job, w.segments, wr);
    var w' := Step(job, w, Deliver(0, Headers(206, Range(first, total), length)));
    assert w'.inflight == w.inflight;
  }

  /** All bytes the response still has are received and its body ends. */
  lemma ReceiveAll(job: Job, w: World, first: nat, p: nat) returns (w': World)
    requires Misaligned(job, w, first, p)
    ensures Leads(job, w, w') && DrainingWithout(w', p)
    ensures w'.segments[0].phase.handler.position >= |job.source|
    ensures w'.segments[0].phase.handler.totalSize == 0 || w'.segments[0].phase.handler.totalSize == |job.source|
  {
    if first < |job.source| {
      var w1 := ReceiveTail(job, w, first, p);
      LeadsOn(job, w1, Deliver(0, Completed));
      w' := Step(job, w1, Deliver(0, Completed));
      assert w'.inflight == w1.inflight;
      LeadsThrough(job, w, w1, w');
    } else {
      LeadsOn(job, w, Deliver(0, Completed));
      w' := Step(job, w, Deliver(0, Completed));
      assert w'.inflight == w.inflight;
    }
  }

  lemma ReceiveTail(job: Job, w: World, first: nat, p: nat) returns (w': World)
    requires Misaligned(job, w, first, p) && first < |job.source|
    ensures Leads(job, w, w')
    ensures |w'.segments| == 1 && w'.segments[0].whole
    ensures w'.segments[0].phase.Running? && w'.segments[0].phase.wire.Streaming?
    ensures (forall wr <- w'.inflight :: wr.owner == 0) && !Held(w'.file, w'.inflight, 0, p)
    ensures var h := w'.segments[0].phase.handler;
            && h.position == |job.source| && h.outcome.None? && h.pending > 0
            && h.pending == Count(w'.inflight, 0, w'.segments[0].attempt)
            && (h.totalSize == 0 || h.totalSize == |job.source|)
  {
    var seg := w.segments[0];
    var m := Deliver(0, Data(job.source[first..]));
    LeadsOn(job, w, m);
    w' := Step(job, w, m);
    var wr := Write(0, seg.attempt, first, job.source[first..]);
    assert w'.inflight == w.inflight + [wr];
    CountAppend(w.inflight, [wr], 0, seg.attempt);
    assert [wr][..0] == [];
    assert forall k :: 0 <= k < |w'.inflight| ==> !Holds(w'.inflight[k], 0, p);
  }

  /**
   * A whole-file stream takes a 206 that starts past a missing byte: the rest
   * of it can arrive, everything can land, and the download finishes without
   * that byte.
   */
  lemma MisalignedAllowsGap(job: Job, w: World, first: nat, total: Option<nat>, length: Option<nat>, p: nat)
    requires Inv(job, w) && |w.segments| == 1 && w.segments[0].whole
    requires Enabled(job, w, Deliver(0, Headers(206, Range(first, total), length)))
    requires p < first && p < |job.source| && !Held(w.file, w.inflight, 0, p)
    ensures exists w' :: Leads(job, Step(job, w, Deliver(0, Headers(206, Range(first, total), length))), w')
                         && AllFinished(w') && w'.inflight == [] && p !in w'.file && w'.file != Image(job.source)
  {
    hide Inv, Enabled, Held, Misaligned, DrainingWithout;
    TakenMisaligned(job, w, first, total, length, p);
    var w1 := Step(job, w, Deliver(0, Headers(206, Range(first, total), length)));
    var w2 := ReceiveAll(job, w1, first, p);
    DrainedAtEnd(w2, p);
    var w3 := LandAll(job, w2, p);
    LeadsThrough(job, w1, w2, w3);
    var w4 := ConcludeWhole(job, w3);
    LeadsThrough(job, w1, w3, w4);
    assert p in Image(job.source);
  }

  lemma DrainedAtEnd(w: World, p: nat)
    requires DrainingWithout(w, p)
    ensures |w.segments| == 1 && w.segments[0].whole && w.segments[0].phase.Running?
  {
  }

  lemma ConcludeWhole(job: Job, w: World) returns (w': World)
    requires |w.segments| == 1 && w.segments[0].whole && w.segments[0].phase.Running? && w.inflight == []
    requires var h := w.segments[0].phase.handler;
             && h.outcome == Some(Resolved) && h.position >= |job.source|
             && (h.totalSize == 0 || h.totalSize == |job.source|)
    ensures Leads(job, w, w') && AllFinished(w') && w'.inflight == [] && w'.file == w.file
  {
    LeadsOn(job, w, Conclude(0, false));
    w' := Step(job, w, Conclude(0, false));
  }
}
