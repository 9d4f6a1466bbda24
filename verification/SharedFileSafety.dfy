/** Every move keeps the invariant; what that means for finished downloads. */
module SharedFileSafety {
  import opened Basics
  import opened SegmentLoop
  import opened ControlledHandler
  import opened SharedFile
  import opened SharedFileInvariant

  // Segments a move does not touch.

  lemma SegmentKeepsOnAppend(job: Job, file: map<nat, byte>, inflight: seq<Write>, more: seq<Write>, i: nat,
                             seg: Segment)
    requires SegmentOk(job, file, inflight, i, seg)
    requires Count(more, i, seg.attempt) == 0
    ensures SegmentOk(job, file, inflight + more, i, seg)
  {
    CountAppend(inflight, more, i, seg.attempt);
    HeldFromAfterAppend(file, inflight, more, i, seg.first, seg.loop.resumeOffset);
    match seg.phase
    case Running(_, h, _) =>
      if !h.rangeRejected {
        HeldFromAfterAppend(file, inflight, more, i, seg.first, h.position);
      }
    case Finished(target) =>
      if target > 0 {
        HeldFromAfterAppend(file, inflight, more, i, seg.first, seg.end);
      }
    case _ =>
  }

  lemma SegmentKeepsOnLand(job: Job, file: map<nat, byte>, inflight: seq<Write>, k: nat, i: nat, seg: Segment)
    requires k < |inflight| && SegmentOk(job, file, inflight, i, seg)
    ensures SegmentOk(job, Store(file, inflight[k].offset, inflight[k].data), Without(inflight, k), i,
                      LandSegment(seg, i, inflight[k]))
  {
    CountWithout(inflight, k, i, seg.attempt);
    HeldFromAfterLand(file, inflight, k, i, seg.first, seg.loop.resumeOffset);
    match seg.phase
    case Running(p, h, wire) =>
      if inflight[k].owner == i && inflight[k].attempt == seg.attempt {
        LandOk(job, seg, p, h, wire);
      }
      if !h.rangeRejected {
        HeldFromAfterLand(file, inflight, k, i, seg.first, h.position);
      }
    case Finished(target) =>
      if target > 0 {
        HeldFromAfterLand(file, inflight, k, i, seg.first, seg.end);
      }
    case _ =>
  }

  // Starting an attempt.

  lemma StartOk(job: Job, file: map<nat, byte>, inflight: seq<Write>, i: nat, seg: Segment, skip: bool, abortable: bool)
    requires SegmentOk(job, file, inflight, i, seg) && seg.phase.Ready?
    requires skip ==> seg.loop.urlIndex + 1 < job.urls
    requires job.expectedTotal == 0 || job.expectedTotal == |job.source|
    requires forall k :: 0 <= k < |inflight| && inflight[k].owner == i ==> inflight[k].attempt <= seg.attempt
    ensures SegmentOk(job, file, inflight, i, StartSegment(job, seg, skip, abortable))
  {
    if seg.loop.urlIndex < job.urls {
      if skip {
        AdvanceSpendsBudget(SetupOf(job, seg), seg.loop);
      } else {
        CountNone(inflight, i, seg.attempt + 1);
      }
    }
  }

  // Delivering an event.

  lemma DeliverOk(job: Job, file: map<nat, byte>, inflight: seq<Write>, i: nat, seg: Segment, event: Event)
    requires SegmentOk(job, file, inflight, i, seg) && seg.phase.Running?
    requires Raisable(seg.phase.params, seg.phase.handler, event) && Honest(job, seg.phase.wire, event)
    requires event.Headers? && seg.whole && event.status == 206 && event.range.Range? ==>
               event.range.first <= seg.end && HeldFrom(file, inflight, i, seg.first, event.range.first)
    ensures SegmentOk(job, file, inflight + DeliverWrites(seg, i, event), i, DeliverSegment(seg, event))
  {
    var Running(p, h, wire) := seg.phase;
    var more := DeliverWrites(seg, i, event);
    EventOk(job, seg, p, h, wire, event);
    CountAppend(inflight, more, i, seg.attempt);
    HeldFromAfterAppend(file, inflight, more, i, seg.first, seg.loop.resumeOffset);
    assert Count(more, i, seg.attempt) == |more| by {
      if more != [] {
        assert more[..0] == [];
      }
    }
    if !OnEvent(p, h, event).rangeRejected {
      PositionHeld(job, file, inflight, i, seg, event);
    }
  }

  /** After an event everything below the position is held. */
  lemma PositionHeld(job: Job, file: map<nat, byte>, inflight: seq<Write>, i: nat, seg: Segment, event: Event)
    requires seg.phase.Running? && EmissionOk(job, seg, seg.phase.params, seg.phase.handler, event)
    requires HeldFrom(file, inflight, i, seg.first, seg.loop.resumeOffset)
    requires !seg.phase.handler.rangeRejected ==> HeldFrom(file, inflight, i, seg.first, seg.phase.handler.position)
    requires event.Headers? && seg.whole && event.status == 206 && event.range.Range? ==>
               HeldFrom(file, inflight, i, seg.first, event.range.first)
    requires !OnEvent(seg.phase.params, seg.phase.handler, event).rangeRejected
    requires seg.phase.handler.rangeRejected ==> OnEvent(seg.phase.params, seg.phase.handler, event).rangeRejected
    ensures HeldFrom(file, inflight + DeliverWrites(seg, i, event), i, seg.first,
                     OnEvent(seg.phase.params, seg.phase.handler, event).position)
  {
    var h := seg.phase.handler;
    var h' := OnEvent(seg.phase.params, h, event);
    var more := DeliverWrites(seg, i, event);
    if more == [] {
      assert inflight + more == inflight;
    } else {
      HeldFromAfterAppend(file, inflight, more, i, seg.first, h.position);
      assert (inflight + more)[|inflight|] == more[0];
      forall q | h.position <= q < h'.position ensures Held(file, inflight + more, i, q) {
        assert Holds((inflight + more)[|inflight|], i, q);
      }
    }
  }

  lemma DeliveredWriteOk(job: Job, segments: seq<Segment>, i: nat, event: Event)
    requires i < |segments|
    requires var seg := segments[i];
             && ShapeOk(job, seg) && seg.phase.Running?
             && EmissionOk(job, seg, seg.phase.params, seg.phase.handler, event)
    ensures forall wr :: wr in DeliverWrites(segments[i], i, event) ==> wr.owner == i && WriteOk(job, segments, wr)
  {
  }

  // Leaving an attempt.

  lemma ConcludeOk(job: Job, file: map<nat, byte>, inflight: seq<Write>, i: nat, seg: Segment, cancelled: bool,
                   reroll: bool)
    requires SegmentOk(job, file, inflight, i, seg) && seg.phase.Running? && seg.phase.handler.outcome.Some?
    ensures var v := VerdictOf(job, seg, cancelled, reroll);
            && SegmentOk(job, if v.Continue? && v.truncate then map[] else file, inflight, i, ConcludeSegment(seg, v))
            && (v.Continue? && v.truncate ==> seg.whole)
  {
    var h := seg.phase.handler;
    var s := SetupOf(job, seg);
    var report := Report(h.outcome.value, h.position, TargetOf(seg, h));
    TurnSpendsBudget(s, seg.loop, Attempt(report, cancelled, reroll));
    var v := VerdictOf(job, seg, cancelled, reroll);
    ContinueOffset(s, seg.loop, report, cancelled, reroll);
    match v
    case Continue(next, truncate) =>
    case Done =>
    case Throw(_) =>
  }

  /** The resume offset moves to the furthest byte reached, or back to zero when the file is truncated. */
  lemma ContinueOffset(s: Setup, l: Loop, report: Report, cancelled: bool, reroll: bool)
    ensures var v := AfterAttempt(s, l, report, cancelled, reroll);
            v.Continue? ==>
              && v.next.resumeOffset ==
                   (if v.truncate then 0 else if report.offset > l.resumeOffset then report.offset else l.resumeOffset)
              && (v.truncate ==> s.whole)
              && report.outcome != Rejected(RangeNotSupported)
  {
  }

  // One move of the whole system.

  lemma StartKeepsInv(job: Job, w: World, m: Move)
    requires Inv(job, w) && m.Start? && Enabled(job, w, m)
    ensures Inv(job, Step(job, w, m))
  {
    StartOk(job, w.file, w.inflight, m.i, w.segments[m.i], m.skip, m.abortable);
    WritesKeep(job, w.segments, m.i, StartSegment(job, w.segments[m.i], m.skip, m.abortable), w.inflight);
    WholeKeeps(w.segments, m.i, StartSegment(job, w.segments[m.i], m.skip, m.abortable));
  }

  lemma WritesKeep(job: Job, segments: seq<Segment>, i: nat, seg: Segment, writes: seq<Write>)
    requires i < |segments|
    requires seg.first == segments[i].first && seg.end == segments[i].end && seg.attempt >= segments[i].attempt
    requires forall k :: 0 <= k < |writes| ==> WriteOk(job, segments, writes[k])
    ensures forall k :: 0 <= k < |writes| ==> WriteOk(job, segments[i := seg], writes[k])
  {
  }

  lemma WholeKeeps(segments: seq<Segment>, i: nat, seg: Segment)
    requires i < |segments| && seg.whole == segments[i].whole
    requires (exists j :: 0 <= j < |segments| && segments[j].whole) ==> |segments| == 1
    ensures var segments' := segments[i := seg];
            (exists j :: 0 <= j < |segments'| && segments'[j].whole) ==> |segments'| == 1
  {
    var segments' := segments[i := seg];
    if j :| 0 <= j < |segments'| && segments'[j].whole {
      assert segments[j].whole;
    }
  }

  lemma DeliverKeepsWrites(job: Job, w: World, m: Move)
    requires Inv(job, w) && m.Deliver? && Enabled(job, w, m) && Aligned(w, m)
    ensures var w' := Step(job, w, m);
            forall k :: 0 <= k < |w'.inflight| ==> WriteOk(job, w'.segments, w'.inflight[k])
  {
    var seg := w.segments[m.i];
    var more := DeliverWrites(seg, m.i, m.event);
    if TakesRange(w, m) {
      AlignedInside(job, w, m);
    }
    assert SegmentOk(job, w.file, w.inflight, m.i, seg);
    EventOk(job, seg, seg.phase.params, seg.phase.handler, seg.phase.wire, m.event);
    DeliveredWriteOk(job, w.segments, m.i, m.event);
    WritesKeep(job, w.segments, m.i, DeliverSegment(seg, m.event), w.inflight);
    WritesKeep(job, w.segments, m.i, DeliverSegment(seg, m.event), more);
  }

  lemma DeliverKeepsSegments(job: Job, w: World, m: Move)
    requires Inv(job, w) && m.Deliver? && Enabled(job, w, m) && Aligned(w, m)
    ensures var w' := Step(job, w, m);
            forall j :: 0 <= j < |w'.segments| ==> SegmentOk(job, w'.file, w'.inflight, j, w'.segments[j])
  {
    var seg := w.segments[m.i];
    var more := DeliverWrites(seg, m.i, m.event);
    var w' := Step(job, w, m);
    if TakesRange(w, m) {
      AlignedInside(job, w, m);
    }
    DeliverOk(job, w.file, w.inflight, m.i, seg, m.event);
    forall j | 0 <= j < |w.segments| ensures SegmentOk(job, w'.file, w'.inflight, j, w'.segments[j]) {
      if j != m.i {
        CountNone(more, j, w.segments[j].attempt);
        SegmentKeepsOnAppend(job, w.file, w.inflight, more, j, w.segments[j]);
      }
    }
  }

  lemma DeliverKeepsInv(job: Job, w: World, m: Move)
    requires Inv(job, w) && m.Deliver? && Enabled(job, w, m) && Aligned(w, m)
    ensures Inv(job, Step(job, w, m))
  {
    DeliverKeepsWrites(job, w, m);
    DeliverKeepsSegments(job, w, m);
    WholeKeeps(w.segments, m.i, DeliverSegment(w.segments[m.i], m.event));
  }

  lemma LandKeepsInv(job: Job, w: World, m: Move)
    requires Inv(job, w) && m.Land? && Enabled(job, w, m)
    ensures Inv(job, Step(job, w, m))
  {
    hide HandlerOk, ShapeOk, HeldFrom, OnWritten;
    var wr := w.inflight[m.k];
    var w' := Step(job, w, m);
    assert WriteOk(job, w.segments, wr);
    StoredOk(job.source, w.file, wr.offset, wr.data);
    WritesKeep(job, w.segments, wr.owner, LandSegment(w.segments[wr.owner], wr.owner, wr), w.inflight);
    WholeKeeps(w.segments, wr.owner, LandSegment(w.segments[wr.owner], wr.owner, wr));
    forall j | 0 <= j < |w.segments| ensures SegmentOk(job, w'.file, w'.inflight, j, w'.segments[j]) {
      SegmentKeepsOnLand(job, w.file, w.inflight, m.k, j, w.segments[j]);
    }
  }

  lemma StoredOk(source: seq<byte>, file: map<nat, byte>, offset: nat, data: seq<byte>)
    requires FileOk(source, file) && offset + |data| <= |source| && data == source[offset..offset + |data|]
    ensures FileOk(source, Store(file, offset, data))
  {
  }

  lemma ConcludeKeepsInv(job: Job, w: World, m: Move)
    requires Inv(job, w) && m.Conclude? && Enabled(job, w, m)
    ensures Inv(job, Step(job, w, m))
  {
    hide HandlerOk, ShapeOk, HeldFrom, AfterAttempt, WriteOk;
    var seg := w.segments[m.i];
    var v := VerdictOf(job, seg, w.cancelled, m.reroll);
    assert SegmentOk(job, w.file, w.inflight, m.i, seg);
    ConcludeOk(job, w.file, w.inflight, m.i, seg, w.cancelled, m.reroll);
    WritesKeep(job, w.segments, m.i, ConcludeSegment(seg, v), w.inflight);
    WholeKeeps(w.segments, m.i, ConcludeSegment(seg, v));
  }

  lemma StepKeepsInv(job: Job, w: World, m: Move)
    requires Inv(job, w) && Enabled(job, w, m) && Aligned(w, m)
    ensures Inv(job, Step(job, w, m))
  {
    match m
    case Start(_, _, _) => StartKeepsInv(job, w, m);
    case Deliver(_, _) => DeliverKeepsInv(job, w, m);
    case Land(_) => LandKeepsInv(job, w, m);
    case Conclude(_, _) => ConcludeKeepsInv(job, w, m);
    case Cancel =>
  }

  /** No 206 in the run starts past a missing byte; free for byte-range segments, whose handlers check. */
  ghost predicate AlignedRun(job: Job, w: World, moves: seq<Move>)
    requires Legal(job, w, moves)
    decreases |moves|
  {
    moves == [] || (Aligned(w, moves[0]) && AlignedRun(job, Step(job, w, moves[0]), moves[1..]))
  }

  lemma {:induction false} RunKeepsInv(job: Job, w: World, moves: seq<Move>)
    requires Inv(job, w) && Legal(job, w, moves) && AlignedRun(job, w, moves)
    ensures Inv(job, Run(job, w, moves))
    decreases |moves|
  {
    if moves != [] {
      StepKeepsInv(job, w, moves[0]);
      RunKeepsInv(job, Step(job, w, moves[0]), moves[1..]);
    }
  }
}
