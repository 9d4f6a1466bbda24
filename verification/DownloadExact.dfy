/**
 * When a download in byte-range segments ends with the source on disk: every
 * byte is written once, so a write still in flight is a hole, and only leaving
 * an attempt with writes pending can put one there.
 */
module DownloadExact {
  import opened Basics
  import opened SegmentLoop
  import opened ControlledHandler
  import opened SharedFile
  import opened SharedFileInvariant
  import opened SharedFileSafety
  import opened RangedDownload
  import opened Tiling

  // Every byte is written once.

  /** Where a segment will write next: everything it has written or issued lies before. */
  function Extent(seg: Segment): nat {
    match seg.phase
    case Running(p, h, _) => if h.rangeRejected then seg.loop.resumeOffset else Max(seg.loop.resumeOffset, h.position)
    case Ready => seg.loop.resumeOffset
    case _ => seg.end
  }

  predicate Apart(a: Write, b: Write) {
    a.offset + |a.data| <= b.offset || b.offset + |b.data| <= a.offset || a.data == [] || b.data == []
  }

  /** A write of a segment lies between its start and its extent. */
  predicate Before(segments: seq<Segment>, wr: Write) {
    && wr.owner < |segments|
    && segments[wr.owner].first <= wr.offset
    && wr.offset + |wr.data| <= Extent(segments[wr.owner])
  }

  predicate OffDisk(file: map<nat, byte>, wr: Write) {
    forall p :: wr.offset <= p < wr.offset + |wr.data| ==> p !in file
  }

  predicate DiskBefore(file: map<nat, byte>, seg: Segment) {
    && Extent(seg) <= seg.end
    && forall p :: p in file && seg.first <= p < seg.end ==> p < Extent(seg)
  }

  predicate SegmentsApart(segments: seq<Segment>) {
    forall i, j :: 0 <= i < j < |segments| ==> segments[i].end <= segments[j].first
  }

  predicate Once(w: World) {
    && AllRanged(w) && SegmentsApart(w.segments)
    && (forall k :: 0 <= k < |w.inflight| ==> Before(w.segments, w.inflight[k]) && OffDisk(w.file, w.inflight[k]))
    && (forall j, k :: 0 <= j < k < |w.inflight| ==> Apart(w.inflight[j], w.inflight[k]))
    && (forall i :: 0 <= i < |w.segments| ==> DiskBefore(w.file, w.segments[i]))
  }

  /** Segment `i` changes, and may only move its extent forward. */
  lemma ForwardKeepsOnce(w: World, i: nat, seg: Segment)
    requires Once(w) && i < |w.segments|
    requires seg.first == w.segments[i].first && seg.end == w.segments[i].end && seg.whole == w.segments[i].whole
    requires Extent(w.segments[i]) <= Extent(seg) <= seg.end
    ensures Once(w.(segments := w.segments[i := seg]))
  {
    hide Extent;
    var w' := w.(segments := w.segments[i := seg]);
    forall k | 0 <= k < |w'.inflight| ensures Before(w'.segments, w'.inflight[k]) && OffDisk(w'.file, w'.inflight[k]) {
      assert Before(w.segments, w.inflight[k]);
    }
    forall j | 0 <= j < |w'.segments| ensures DiskBefore(w'.file, w'.segments[j]) {
      assert DiskBefore(w.file, w.segments[j]);
    }
  }

  /** What a segment issues at its extent is apart from all it has issued, and not on disk. */
  lemma AtExtent(w: World, wr: Write)
    requires Once(w) && wr.owner < |w.segments|
    requires wr.offset == Extent(w.segments[wr.owner]) >= w.segments[wr.owner].first
    requires wr.offset + |wr.data| <= w.segments[wr.owner].end
    ensures forall k :: 0 <= k < |w.inflight| && w.inflight[k].owner == wr.owner ==>
              w.inflight[k].offset + |w.inflight[k].data| <= wr.offset
    ensures OffDisk(w.file, wr)
  {
    hide Extent;
    forall k | 0 <= k < |w.inflight| && w.inflight[k].owner == wr.owner
      ensures w.inflight[k].offset + |w.inflight[k].data| <= wr.offset
    {
      assert Before(w.segments, w.inflight[k]);
    }
    assert DiskBefore(w.file, w.segments[wr.owner]);
  }

  lemma IssueKeepsOnce(w: World, wr: Write)
    requires Once(w) && Before(w.segments, wr) && OffDisk(w.file, wr)
    requires forall k :: 0 <= k < |w.inflight| && w.inflight[k].owner == wr.owner ==>
               w.inflight[k].offset + |w.inflight[k].data| <= wr.offset
    ensures Once(w.(inflight := w.inflight + [wr]))
  {
    hide Extent, OffDisk;
    var w' := w.(inflight := w.inflight + [wr]);
    forall j, k | 0 <= j < k < |w'.inflight| ensures Apart(w'.inflight[j], w'.inflight[k]) {
      if k == |w.inflight| {
        OwnersApart(w, j, wr);
      } else {
        assert Apart(w.inflight[j], w.inflight[k]);
      }
    }
  }

  /** Writes of different segments do not meet. */
  lemma OwnersApart(w: World, j: nat, wr: Write)
    requires Once(w) && j < |w.inflight| && Before(w.segments, wr)
    requires w.inflight[j].owner == wr.owner ==> w.inflight[j].offset + |w.inflight[j].data| <= wr.offset
    ensures Apart(w.inflight[j], wr)
  {
    hide Extent, OffDisk;
    var a := w.inflight[j];
    assert Before(w.segments, a);
    assert DiskBefore(w.file, w.segments[a.owner]) && DiskBefore(w.file, w.segments[wr.owner]);
  }

  lemma StartKeepsOnce(job: Job, w: World, m: Move)
    requires Inv(job, w) && Once(w) && m.Start? && Enabled(job, w, m)
    ensures Once(Step(job, w, m))
  {
    hide HandlerOk, HeldFrom, OffDisk, Apart;
    assert SegmentOk(job, w.file, w.inflight, m.i, w.segments[m.i]);
    ForwardKeepsOnce(w, m.i, StartSegment(job, w.segments[m.i], m.skip, m.abortable));
  }

  /** An event moves the extent forward, to the end of the write it issues, which starts where the extent was. */
  lemma EventExtent(job: Job, seg: Segment, p: Params, h: Handler, wire: Wire, event: Event)
    requires ShapeOk(job, seg) && HandlerOk(job, seg, p, h, wire) && !seg.whole
    requires Raisable(p, h, event) && Honest(job, wire, event)
    requires seg.phase == Running(p, h, wire)
    ensures seg.first <= Extent(seg) <= Extent(DeliverSegment(seg, event)) <= seg.end
    ensures var e := Written(p, h, event);
            e.Emit? ==> e.offset == Extent(seg) && e.offset + |e.data| <= Extent(DeliverSegment(seg, event))
  {
    EventOk(job, seg, p, h, wire, event);
  }

  lemma DeliverKeepsOnce(job: Job, w: World, m: Move)
    requires Inv(job, w) && Once(w) && m.Deliver? && Enabled(job, w, m)
    ensures Once(Step(job, w, m))
  {
    hide HandlerOk, HeldFrom, OffDisk, Apart, Extent, ShapeOk, Honest, Raisable, OnEvent, NextWire, Written;
    var seg := w.segments[m.i];
    assert SegmentOk(job, w.file, w.inflight, m.i, seg);
    EventExtent(job, seg, seg.phase.params, seg.phase.handler, seg.phase.wire, m.event);
    var more := DeliverWrites(seg, m.i, m.event);
    var w' := w.(segments := w.segments[m.i := DeliverSegment(seg, m.event)]);
    ForwardKeepsOnce(w, m.i, DeliverSegment(seg, m.event));
    if more == [] {
      assert w.inflight + more == w.inflight;
    } else {
      AtExtent(w, more[0]);
      IssueKeepsOnce(w', more[0]);
      assert more == [more[0]];
    }
  }

  lemma LandKeepsOnce(job: Job, w: World, m: Move)
    requires Inv(job, w) && Once(w) && m.Land? && Enabled(job, w, m)
    ensures Once(Step(job, w, m))
  {
    hide SegmentOk, Apart;
    var wr := w.inflight[m.k];
    var seg := w.segments[wr.owner];
    var landed := w.(file := Store(w.file, wr.offset, wr.data), inflight := Without(w.inflight, m.k));
    LandedOnce(w, m.k);
    assert Extent(LandSegment(seg, wr.owner, wr)) == Extent(seg);
    assert DiskBefore(w.file, seg);
    ForwardKeepsOnce(landed, wr.owner, LandSegment(seg, wr.owner, wr));
  }

  lemma LandedOnce(w: World, n: nat)
    requires Once(w) && n < |w.inflight|
    ensures Once(w.(file := Store(w.file, w.inflight[n].offset, w.inflight[n].data),
                    inflight := Without(w.inflight, n)))
  {
    hide Extent;
    var wr := w.inflight[n];
    var rest := Without(w.inflight, n);
    var file := Store(w.file, wr.offset, wr.data);
    forall k | 0 <= k < |rest| ensures Before(w.segments, rest[k]) && OffDisk(file, rest[k]) {
      var j := if k < n then k else k + 1;
      assert rest[k] == w.inflight[j];
      assert Before(w.segments, w.inflight[j]) && OffDisk(w.file, w.inflight[j]);
      assert if j < n then Apart(w.inflight[j], wr) else Apart(wr, w.inflight[j]);
    }
    forall j, k | 0 <= j < k < |rest| ensures Apart(rest[j], rest[k]) {
      assert Apart(w.inflight[if j < n then j else j + 1], w.inflight[if k < n then k else k + 1]);
    }
    assert Before(w.segments, wr);
    forall i | 0 <= i < |w.segments| ensures DiskBefore(file, w.segments[i]) {
      assert DiskBefore(w.file, w.segments[i]) && DiskBefore(w.file, w.segments[wr.owner]);
    }
  }

  lemma ConcludeKeepsOnce(job: Job, w: World, m: Move)
    requires Inv(job, w) && Once(w) && m.Conclude? && Enabled(job, w, m)
    ensures Once(Step(job, w, m))
  {
    hide OffDisk, Apart, HeldFrom, AfterAttempt;
    var seg := w.segments[m.i];
    assert SegmentOk(job, w.file, w.inflight, m.i, seg);
    var h := seg.phase.handler;
    var report := Report(h.outcome.value, h.position, TargetOf(seg, h));
    ContinueOffset(SetupOf(job, seg), seg.loop, report, w.cancelled, m.reroll);
    ForwardKeepsOnce(w, m.i, ConcludeSegment(seg, VerdictOf(job, seg, w.cancelled, m.reroll)));
  }

  lemma StepKeepsOnce(job: Job, w: World, m: Move)
    requires Inv(job, w) && Once(w) && Enabled(job, w, m)
    ensures Once(Step(job, w, m))
  {
    hide Inv, Once;
    match m
    case Start(_, _, _) => StartKeepsOnce(job, w, m);
    case Deliver(_, _) => DeliverKeepsOnce(job, w, m);
    case Land(_) => LandKeepsOnce(job, w, m);
    case Conclude(_, _) => ConcludeKeepsOnce(job, w, m);
    case Cancel => CancelKeepsOnce(w);
  }

  lemma CancelKeepsOnce(w: World)
    requires Once(w)
    ensures Once(w.(cancelled := true))
  {
  }

  lemma OnceIsRanged(w: World, m: Move)
    requires Once(w)
    ensures AllRanged(w) && Aligned(w, m)
  {
  }

  lemma {:induction false} RunKeepsOnce(job: Job, w: World, moves: seq<Move>)
    requires Inv(job, w) && Once(w) && Legal(job, w, moves)
    ensures Inv(job, Run(job, w, moves)) && Once(Run(job, w, moves))
    decreases |moves|
  {
    hide Inv, Once, Step, Enabled;
    if moves != [] {
      OnceIsRanged(w, moves[0]);
      StepKeepsInv(job, w, moves[0]);
      StepKeepsOnce(job, w, moves[0]);
      RunKeepsOnce(job, Step(job, w, moves[0]), moves[1..]);
    }
  }

  lemma RangedOnce(job: Job, chunks: seq<Chunk>)
    requires Tiles(chunks, 0, |job.source|)
    ensures Once(Ranged(chunks))
  {
    TilesCover(chunks, 0, |job.source|, 0);
  }

  // What that means for a finished download.

  /**
   * A finished download equals the source if and only if nothing but empty
   * writes is in flight: what is in flight is on disk nowhere else.
   */
  lemma FinishedIffAllLanded(job: Job, w: World)
    requires Inv(job, w) && Once(w) && AllFinished(w)
    requires forall p: nat :: p < |job.source| ==> Owned(w, p)
    ensures w.file == Image(job.source) <==> forall k :: 0 <= k < |w.inflight| ==> w.inflight[k].data == []
  {
    hide SegmentOk, Before, Apart, DiskBefore, Owned;
    if forall k :: 0 <= k < |w.inflight| ==> w.inflight[k].data == [] {
      LandedMeansSource(job, w);
    }
    if w.file == Image(job.source) {
      forall k | 0 <= k < |w.inflight| ensures w.inflight[k].data == [] {
        var wr := w.inflight[k];
        assert WriteOk(job, w.segments, wr) && OffDisk(w.file, wr);
        assert wr.data != [] ==> wr.offset in Image(job.source);
      }
    }
  }

  /** For every run of a split download. */
  lemma RangedFinishedIff(job: Job, chunks: seq<Chunk>, moves: seq<Move>)
    requires job.expectedTotal == |job.source| && Tiles(chunks, 0, |job.source|)
    requires Legal(job, Ranged(chunks), moves) && AllFinished(Run(job, Ranged(chunks), moves))
    ensures var w := Run(job, Ranged(chunks), moves);
            w.file == Image(job.source) <==> forall k :: 0 <= k < |w.inflight| ==> w.inflight[k].data == []
  {
    hide Inv, Once, Legal, Run;
    RangedInv(job, chunks);
    RangedOnce(job, chunks);
    RunKeepsOnce(job, Ranged(chunks), moves);
    RunKeepsRanges(job, Ranged(chunks), moves);
    var w := Run(job, Ranged(chunks), moves);
    EveryByteHasASegment(job, chunks, w);
    FinishedIffAllLanded(job, w);
  }

  // Leaving an attempt only with nothing pending.

  /** The loop goes round again only once the attempt has no write pending. */
  predicate Patient(job: Job, w: World, m: Move)
    requires Enabled(job, w, m)
  {
    m.Conclude? && VerdictOf(job, w.segments[m.i], w.cancelled, m.reroll).Continue? ==>
      w.segments[m.i].phase.handler.pending == 0
  }

  predicate PatientRun(job: Job, w: World, moves: seq<Move>)
    requires Legal(job, w, moves)
    decreases |moves|
  {
    moves == [] || (Patient(job, w, moves[0]) && PatientRun(job, Step(job, w, moves[0]), moves[1..]))
  }

  /** A write in flight belongs to the attempt its segment is in. */
  predicate Current(segments: seq<Segment>, wr: Write) {
    wr.owner < |segments| && wr.attempt == segments[wr.owner].attempt && !segments[wr.owner].phase.Ready?
  }

  predicate Tidy(w: World) {
    forall k :: 0 <= k < |w.inflight| ==> Current(w.segments, w.inflight[k])
  }

  lemma StepKeepsTidy(job: Job, w: World, m: Move)
    requires Inv(job, w) && Tidy(w) && Enabled(job, w, m) && Patient(job, w, m)
    ensures Tidy(Step(job, w, m))
  {
    hide WriteOk, FileOk, HandlerOk, ShapeOk, HeldFrom, AfterAttempt, OnEvent, Honest, Raisable;
    var w' := Step(job, w, m);
    if m.Conclude? && VerdictOf(job, w.segments[m.i], w.cancelled, m.reroll).Continue? {
      assert SegmentOk(job, w.file, w.inflight, m.i, w.segments[m.i]);
      CountZero(w.inflight, m.i, w.segments[m.i].attempt);
    }
    forall k | 0 <= k < |w'.inflight| ensures Current(w'.segments, w'.inflight[k]) {
      if m.Land? {
        assert w'.inflight[k] == w.inflight[if k < m.k then k else k + 1];
        assert Current(w.segments, w.inflight[if k < m.k then k else k + 1]);
      } else if k < |w.inflight| {
        assert Current(w.segments, w.inflight[k]);
      }
    }
  }

  lemma {:induction false} PatientRunIsTidy(job: Job, w: World, moves: seq<Move>)
    requires Inv(job, w) && Once(w) && Tidy(w) && Legal(job, w, moves) && PatientRun(job, w, moves)
    ensures Tidy(Run(job, w, moves))
    decreases |moves|
  {
    hide Inv, Once, Tidy, Step, Enabled, Patient;
    if moves != [] {
      OnceIsRanged(w, moves[0]);
      StepKeepsInv(job, w, moves[0]);
      StepKeepsOnce(job, w, moves[0]);
      StepKeepsTidy(job, w, moves[0]);
      PatientRunIsTidy(job, Step(job, w, moves[0]), moves[1..]);
    }
  }

  lemma TidyFinishedIsLanded(job: Job, w: World)
    requires Inv(job, w) && Tidy(w) && AllFinished(w)
    ensures w.inflight == []
  {
    hide WriteOk, FileOk, ShapeOk, HeldFrom;
    if w.inflight != [] {
      var wr := w.inflight[0];
      assert Current(w.segments, wr);
      assert SegmentOk(job, w.file, w.inflight, wr.owner, w.segments[wr.owner]);
      CountZero(w.inflight, wr.owner, wr.attempt);
    }
  }

  /** Every download that never leaves an attempt with a write pending and finishes is the source. */
  lemma PatientDownloadIsSource(job: Job, chunks: seq<Chunk>, moves: seq<Move>)
    requires job.expectedTotal == |job.source| && Tiles(chunks, 0, |job.source|)
    requires Legal(job, Ranged(chunks), moves) && PatientRun(job, Ranged(chunks), moves)
    requires AllFinished(Run(job, Ranged(chunks), moves))
    ensures Run(job, Ranged(chunks), moves).file == Image(job.source)
  {
    hide Inv, Once, Legal, Run, PatientRun;
    RangedInv(job, chunks);
    RangedOnce(job, chunks);
    RunKeepsOnce(job, Ranged(chunks), moves);
    PatientRunIsTidy(job, Ranged(chunks), moves);
    TidyFinishedIsLanded(job, Run(job, Ranged(chunks), moves));
    RangedFinishedIff(job, chunks, moves);
  }
}
