/**
 * The single stream that never leaves an attempt with a write pending: when it
 * finishes, the source is on disk, whatever a split before it still has in flight.
 */
module StreamExact {
  import opened Basics
  import opened SegmentLoop
  import opened ControlledHandler
  import opened SharedFile
  import opened SharedFileInvariant
  import opened SharedFileSafety
  import opened RangedDownload
  import opened DownloadExact

  /** Byte `p` is on disk or in a write of attempt `a`. */
  ghost predicate Firm(file: map<nat, byte>, inflight: seq<Write>, a: nat, p: nat) {
    p in file || exists k :: 0 <= k < |inflight| && inflight[k].attempt == a && Holds(inflight[k], 0, p)
  }

  ghost predicate FirmBelow(file: map<nat, byte>, inflight: seq<Write>, a: nat, hi: nat) {
    forall p: nat :: p < hi ==> Firm(file, inflight, a, p)
  }

  predicate OnDisk(file: map<nat, byte>, hi: nat) {
    forall p: nat :: p < hi ==> p in file
  }

  /** Between attempts all received bytes are on disk; during one, what is not is its own. */
  ghost predicate StreamOk(job: Job, file: map<nat, byte>, inflight: seq<Write>, seg: Segment) {
    && seg.whole
    && match seg.phase
       case Ready => OnDisk(file, seg.loop.resumeOffset)
       case Running(_, h, _) =>
         && OnDisk(file, seg.loop.resumeOffset)
         && (!h.rangeRejected ==> FirmBelow(file, inflight, seg.attempt, h.position))
       case Finished(target) => target > 0 ==> OnDisk(file, |job.source|)
       case _ => true
  }

  ghost predicate Solid(job: Job, w: World) {
    |w.segments| == 1 && StreamOk(job, w.file, w.inflight, w.segments[0])
  }

  /** A 206 that the stream takes starts no later than asked, or at least past nothing missing from the disk. */
  predicate Grounded(w: World, m: Move) {
    TakesRange(w, m) ==>
      m.event.range.first <= w.segments[m.i].loop.resumeOffset || OnDisk(w.file, m.event.range.first)
  }

  lemma GroundedIsAligned(job: Job, w: World, m: Move)
    requires Solid(job, w) && Enabled(job, w, m) && Grounded(w, m)
    ensures TakesRange(w, m) ==> OnDisk(w.file, m.event.range.first)
    ensures Aligned(w, m)
  {
  }

  lemma FirmAfterAppend(file: map<nat, byte>, inflight: seq<Write>, more: seq<Write>, a: nat, hi: nat)
    requires FirmBelow(file, inflight, a, hi)
    ensures FirmBelow(file, inflight + more, a, hi)
  {
    forall p: nat | p < hi ensures Firm(file, inflight + more, a, p) {
      assert Firm(file, inflight, a, p);
      if p !in file {
        var k :| 0 <= k < |inflight| && inflight[k].attempt == a && Holds(inflight[k], 0, p);
        assert (inflight + more)[k] == inflight[k];
      }
    }
  }

  lemma FirmAfterLand(file: map<nat, byte>, inflight: seq<Write>, n: nat, a: nat, hi: nat)
    requires n < |inflight| && FirmBelow(file, inflight, a, hi)
    ensures FirmBelow(Store(file, inflight[n].offset, inflight[n].data), Without(inflight, n), a, hi)
  {
    var rest := Without(inflight, n);
    var file' := Store(file, inflight[n].offset, inflight[n].data);
    forall p: nat | p < hi ensures Firm(file', rest, a, p) {
      assert Firm(file, inflight, a, p);
      if p !in file {
        var k :| 0 <= k < |inflight| && inflight[k].attempt == a && Holds(inflight[k], 0, p);
        if k != n {
          assert rest[if k < n then k else k - 1] == inflight[k];
        }
      }
    }
  }

  /** With none of the attempt's writes left, its bytes are on disk. */
  lemma FirmMeansOnDisk(file: map<nat, byte>, inflight: seq<Write>, a: nat, hi: nat)
    requires FirmBelow(file, inflight, a, hi) && Count(inflight, 0, a) == 0
    ensures OnDisk(file, hi)
  {
    CountZero(inflight, 0, a);
    forall p: nat | p < hi ensures p in file {
      assert Firm(file, inflight, a, p);
    }
  }

  lemma IssuedIsFirm(file: map<nat, byte>, inflight: seq<Write>, wr: Write, hi: nat)
    requires wr.owner == 0 && FirmBelow(file, inflight, wr.attempt, wr.offset) && hi == wr.offset + |wr.data|
    ensures FirmBelow(file, inflight + [wr], wr.attempt, hi)
  {
    FirmAfterAppend(file, inflight, [wr], wr.attempt, wr.offset);
    forall p: nat | wr.offset <= p < hi ensures Firm(file, inflight + [wr], wr.attempt, p) {
      assert (inflight + [wr])[|inflight|] == wr;
    }
  }

  lemma DiskIsFirm(file: map<nat, byte>, inflight: seq<Write>, a: nat, hi: nat)
    requires OnDisk(file, hi)
    ensures FirmBelow(file, inflight, a, hi)
  {
  }

  // What each step keeps.

  lemma StartKeepsSolid(job: Job, w: World, m: Move)
    requires Solid(job, w) && m.Start? && Enabled(job, w, m)
    ensures Solid(job, Step(job, w, m))
  {
  }

  /** The position after an event: unchanged, the start of a 206, or the end of the write it issues. */
  lemma DeliverKeepsSolid(job: Job, w: World, m: Move)
    requires Inv(job, w) && Solid(job, w) && m.Deliver? && Enabled(job, w, m) && Grounded(w, m)
    ensures Solid(job, Step(job, w, m))
  {
    hide HandlerOk, ShapeOk, Honest, Raisable, OnEvent, NextWire, Written, HeldFrom, FirmBelow, OnDisk, FileOk, WriteOk;
    var seg := w.segments[0];
    var Running(p, h, wire) := seg.phase;
    var more := DeliverWrites(seg, 0, m.event);
    GroundedIsAligned(job, w, m);
    if TakesRange(w, m) {
      AlignedInside(job, w, m);
      DiskIsFirm(w.file, w.inflight, seg.attempt, m.event.range.first);
    }
    SegmentRunning(job, w);
    EventOk(job, seg, p, h, wire, m.event);
    EventMoves(job, seg, p, h, wire, m.event);
    if !OnEvent(p, h, m.event).rangeRejected {
      if more == [] {
        assert w.inflight + more == w.inflight;
      } else {
        assert more == [more[0]];
        IssuedIsFirm(w.file, w.inflight, more[0], OnEvent(p, h, m.event).position);
      }
    }
  }

  lemma SegmentRunning(job: Job, w: World)
    requires Inv(job, w) && |w.segments| == 1 && w.segments[0].phase.Running?
    ensures var seg := w.segments[0];
            && ShapeOk(job, seg)
            && HandlerOk(job, seg, seg.phase.params, seg.phase.handler, seg.phase.wire)
            && seg.phase.handler.pending == Count(w.inflight, 0, seg.attempt)
  {
    assert SegmentOk(job, w.file, w.inflight, 0, w.segments[0]);
  }

  lemma EventMoves(job: Job, seg: Segment, p: Params, h: Handler, wire: Wire, event: Event)
    requires EmissionOk(job, seg, p, h, event)
    ensures h.rangeRejected ==> OnEvent(p, h, event).rangeRejected
    ensures var h' := OnEvent(p, h, event);
            match Written(p, h, event)
            case Emit(offset, data) => offset == h.position && h'.position == offset + |data| && !h.rangeRejected
            case Silent =>
              h'.rangeRejected || h'.position == h.position ||
              (event.Headers? && event.status == 206 && event.range.Range? && h'.position == event.range.first)
  {
  }

  lemma LandKeepsSolid(job: Job, w: World, m: Move)
    requires Inv(job, w) && Solid(job, w) && m.Land? && Enabled(job, w, m)
    ensures Solid(job, Step(job, w, m))
  {
    hide SegmentOk, FirmBelow;
    var wr := w.inflight[m.k];
    var seg := w.segments[0];
    assert WriteOk(job, w.segments, wr);
    if seg.phase.Running? && !seg.phase.handler.rangeRejected {
      FirmAfterLand(w.file, w.inflight, m.k, seg.attempt, seg.phase.handler.position);
    }
  }

  lemma ConcludeKeepsSolid(job: Job, w: World, m: Move)
    requires Inv(job, w) && Solid(job, w) && m.Conclude? && Enabled(job, w, m) && Patient(job, w, m)
    ensures Solid(job, Step(job, w, m))
  {
    hide HandlerOk, HeldFrom, AfterAttempt, FirmBelow;
    var seg := w.segments[0];
    var h := seg.phase.handler;
    var s, report := SetupOf(job, seg), Report(h.outcome.value, h.position, TargetOf(seg, h));
    SegmentRunning(job, w);
    ContinueOffset(s, seg.loop, report, w.cancelled, m.reroll);
    DoneMeansResolved(s, seg.loop, report, w.cancelled, m.reroll);
    SettledHandler(job, seg, seg.phase.params, h, seg.phase.wire);
    if h.pending == 0 && !h.rangeRejected {
      FirmMeansOnDisk(w.file, w.inflight, seg.attempt, h.position);
    }
  }

  lemma DoneMeansResolved(s: Setup, l: Loop, report: Report, cancelled: bool, reroll: bool)
    ensures AfterAttempt(s, l, report, cancelled, reroll).Done? ==>
              report.outcome == Resolved && (report.target == 0 || report.offset >= report.target)
  {
  }

  lemma SettledHandler(job: Job, seg: Segment, p: Params, h: Handler, wire: Wire)
    requires HandlerOk(job, seg, p, h, wire) && seg.whole
    ensures h.outcome == Some(Resolved) ==> h.pending == 0
    ensures h.rangeRejected ==> h.outcome == Some(Rejected(RangeNotSupported))
    ensures h.totalSize == 0 || h.totalSize == |job.source|
  {
  }

  lemma StepKeepsSolid(job: Job, w: World, m: Move)
    requires Inv(job, w) && Solid(job, w) && Enabled(job, w, m) && Grounded(w, m) && Patient(job, w, m)
    ensures Solid(job, Step(job, w, m))
  {
    hide Inv, StreamOk, Grounded, Patient;
    match m
    case Start(_, _, _) => StartKeepsSolid(job, w, m);
    case Deliver(_, _) => DeliverKeepsSolid(job, w, m);
    case Land(_) => LandKeepsSolid(job, w, m);
    case Conclude(_, _) => ConcludeKeepsSolid(job, w, m);
    case Cancel =>
  }

  predicate GroundedRun(job: Job, w: World, moves: seq<Move>)
    requires Legal(job, w, moves)
    decreases |moves|
  {
    moves == [] || (Grounded(w, moves[0]) && GroundedRun(job, Step(job, w, moves[0]), moves[1..]))
  }

  lemma {:induction false} RunKeepsSolid(job: Job, w: World, moves: seq<Move>)
    requires Inv(job, w) && Solid(job, w) && Legal(job, w, moves)
    requires GroundedRun(job, w, moves) && PatientRun(job, w, moves)
    ensures Inv(job, Run(job, w, moves)) && Solid(job, Run(job, w, moves))
    decreases |moves|
  {
    hide Inv, Solid, Step, Enabled, Grounded, Patient;
    if moves != [] {
      GroundedIsAligned(job, w, moves[0]);
      StepKeepsInv(job, w, moves[0]);
      StepKeepsSolid(job, w, moves[0]);
      RunKeepsSolid(job, Step(job, w, moves[0]), moves[1..]);
    }
  }

  lemma FullDiskIsImage(source: seq<byte>, file: map<nat, byte>)
    requires FileOk(source, file) && OnDisk(file, |source|)
    ensures file == Image(source)
  {
  }

  /**
   * A stream that goes round again only with nothing pending, and takes no
   * response from past where it asked and past a byte missing from the disk, is
   * the source when it finishes with a known total, even with leftovers of a
   * split in flight.
   */
  lemma PatientStreamIsSource(job: Job, leftovers: seq<Write>, moves: seq<Move>)
    requires job.expectedTotal == 0 || job.expectedTotal == |job.source|
    requires forall k :: 0 <= k < |leftovers| ==>
               WriteOk(job, WholeFile(job.source, leftovers).segments, leftovers[k])
    requires Legal(job, WholeFile(job.source, leftovers), moves)
    requires GroundedRun(job, WholeFile(job.source, leftovers), moves)
    requires PatientRun(job, WholeFile(job.source, leftovers), moves)
    ensures var w := Run(job, WholeFile(job.source, leftovers), moves);
            && |w.segments| == 1
            && (w.segments[0].phase.Finished? && w.segments[0].phase.target > 0 ==> w.file == Image(job.source))
  {
    hide Legal, Run, GroundedRun, PatientRun, SegmentOk;
    WholeFileInv(job, leftovers);
    RunKeepsSolid(job, WholeFile(job.source, leftovers), moves);
    var w := Run(job, WholeFile(job.source, leftovers), moves);
    if w.segments[0].phase.Finished? && w.segments[0].phase.target > 0 {
      FullDiskIsImage(job.source, w.file);
    }
  }
}
