/**
 * The attempts of a download: what each is asked to do, what follows it, and how
 * many there can be when every report comes from a handler, whatever the network
 * does.
 */
module DownloadAttempts {
  import opened Basics
  import opened SegmentLoop
  import opened RetryCounts
  import opened ControlledHandler
  import opened SharedFile
  import opened RangedDownload
  import opened Tiling

  /** A committed attempt has not been abandoned as slow. */
  predicate NeverSlow(seg: Segment) {
    seg.phase.Running? ==>
      && seg.phase.params.noAbort == seg.loop.committed
      && (seg.phase.handler.outcome == Some(Rejected(ManagedAbort(Slow))) ==> !seg.loop.committed)
  }

  predicate AttemptsLeft(job: Job, seg: Segment) {
    && NeverSlow(seg)
    && LoopValid(SetupOf(job, seg), seg.loop)
    && seg.attempt + Budget(SetupOf(job, seg), seg.loop) <=
         Bound(SetupOf(job, seg)) + (if seg.phase.Ready? || seg.phase.Exhausted? then 0 else 1)
    && (seg.phase.Running? || seg.phase.Finished? || seg.phase.Stopped? ==> seg.loop.urlIndex < job.urls)
  }

  /**
   * What a dispatched attempt is asked to do: a segment wants exactly its bytes
   * from the resume offset on, the last URL is never skipped, and a committed
   * attempt is not abandoned for being slow.
   */
  lemma AttemptAsks(job: Job, seg: Segment, abortable: bool)
    requires seg.phase.Ready? && seg.loop.urlIndex < job.urls && seg.first <= seg.end
    ensures var seg' := StartSegment(job, seg, false, abortable);
            && seg'.attempt == seg.attempt + 1 && seg'.loop == seg.loop
            && seg'.phase.Running? && seg'.phase.wire.Waiting?
            && var p := seg'.phase.params;
               && (p.skippable <==> seg.loop.urlIndex < job.urls - 1)
               && p.noAbort == seg.loop.committed && p.abortable == abortable
               && (p.requireRange <==> !seg.whole)
               && (seg.whole ==> p.segTotal == 0)
               && (!seg.whole ==>
                     p.requestStart == seg.loop.resumeOffset && p.segStart == seg.first
                     && p.segStart + p.segTotal == seg.end)
    ensures seg.loop.urlIndex + 1 < job.urls ==>
              StartSegment(job, seg, true, abortable) == seg.(loop := Advanced(seg.loop))
  {
  }

  /** The turn of the loop that an attempt which has settled stands for. */
  function TurnOf(w: World, seg: Segment, reroll: bool): Turn
    requires seg.phase.Running? && seg.phase.handler.outcome.Some?
  {
    var h := seg.phase.handler;
    Attempt(Report(h.outcome.value, h.position, TargetOf(seg, h)), w.cancelled, reroll)
  }

  /** A segment ends with a complete response, stops when cancelled or refused its range, and otherwise goes on. */
  lemma ConcludesAs(job: Job, w: World, i: nat, reroll: bool)
    requires Enabled(job, w, Conclude(i, reroll))
    ensures var turn, phase := TurnOf(w, w.segments[i], reroll), Step(job, w, Conclude(i, reroll)).segments[i].phase;
            if Complete(turn) then phase.Finished?
            else if Cancels(turn) then phase == Stopped(Cancelled)
            else if FailsWith(turn, RangeNotSupported) then phase == Stopped(RangeNotSupported)
            else phase.Ready?
  {
    var seg := w.segments[i];
    LeavesIff(SetupOf(job, seg), seg.loop, TurnOf(w, seg, reroll));
  }

  /** Once the download is cancelled it stays so, and no attempt that fails is followed by another. */
  lemma {:induction false} CancelledStays(job: Job, w: World, moves: seq<Move>)
    requires Legal(job, w, moves) && (w.cancelled || exists k :: 0 <= k < |moves| && moves[k].Cancel?)
    ensures Run(job, w, moves).cancelled
    decreases |moves|
  {
    if moves != [] {
      var w' := Step(job, w, moves[0]);
      if !w.cancelled && !moves[0].Cancel? {
        var k :| 0 <= k < |moves| && moves[k].Cancel?;
        assert moves[1..][k - 1].Cancel?;
      }
      CancelledStays(job, w', moves[1..]);
    }
  }

  lemma CancelledStops(job: Job, w: World, moves: seq<Move>, i: nat, reroll: bool)
    requires Legal(job, w, moves) && exists k :: 0 <= k < |moves| && moves[k].Cancel?
    requires Enabled(job, Run(job, w, moves), Conclude(i, reroll))
    requires Run(job, w, moves).segments[i].phase.handler.outcome.value.Rejected?
    ensures Step(job, Run(job, w, moves), Conclude(i, reroll)).segments[i].phase == Stopped(Cancelled)
  {
    hide Step, Enabled;
    CancelledStays(job, w, moves);
    ConcludesAs(job, Run(job, w, moves), i, reroll);
  }

  /** Out of URLs a segment gives up; otherwise it can go on. */
  lemma ExhaustedIff(job: Job, seg: Segment, skip: bool, abortable: bool)
    requires seg.phase.Ready?
    ensures StartSegment(job, seg, skip, abortable).phase.Exhausted? <==> seg.loop.urlIndex >= job.urls
  {
  }

  lemma StartKeepsAttempts(job: Job, seg: Segment, skip: bool, abortable: bool)
    requires AttemptsLeft(job, seg) && seg.phase.Ready? && (skip ==> seg.loop.urlIndex + 1 < job.urls)
    ensures AttemptsLeft(job, StartSegment(job, seg, skip, abortable))
  {
    if seg.loop.urlIndex < job.urls && skip {
      AdvanceSpendsBudget(SetupOf(job, seg), seg.loop);
    }
  }

  lemma ConcludeKeepsAttempts(job: Job, seg: Segment, cancelled: bool, reroll: bool)
    requires AttemptsLeft(job, seg) && seg.phase.Running? && seg.phase.handler.outcome.Some?
    ensures AttemptsLeft(job, ConcludeSegment(seg, VerdictOf(job, seg, cancelled, reroll)))
  {
    hide AfterAttempt;
    var h := seg.phase.handler;
    TurnSpendsBudget(SetupOf(job, seg), seg.loop,
                     Attempt(Report(h.outcome.value, h.position, TargetOf(seg, h)), cancelled, reroll));
  }

  lemma SameAttempts(job: Job, seg: Segment, seg': Segment)
    requires AttemptsLeft(job, seg) && seg.phase.Running? && seg'.phase.Running? && NeverSlow(seg')
    requires seg'.loop == seg.loop && seg'.attempt == seg.attempt && seg'.whole == seg.whole
    ensures AttemptsLeft(job, seg')
  {
  }

  /** Only sampling reports slowness, and not under commitment. */
  lemma EventKeepsNeverSlow(seg: Segment, event: Event)
    requires NeverSlow(seg) && seg.phase.Running?
    ensures NeverSlow(DeliverSegment(seg, event))
  {
  }

  lemma LandKeepsAttempts(job: Job, seg: Segment, i: nat, wr: Write)
    requires AttemptsLeft(job, seg)
    ensures AttemptsLeft(job, LandSegment(seg, i, wr))
  {
    hide Budget;
    if LandSegment(seg, i, wr) != seg {
      SameAttempts(job, seg, LandSegment(seg, i, wr));
    }
  }

  lemma StepKeepsAttempts(job: Job, w: World, m: Move, i: nat)
    requires Enabled(job, w, m) && i < |w.segments| && AttemptsLeft(job, w.segments[i])
    ensures i < |Step(job, w, m).segments| && AttemptsLeft(job, Step(job, w, m).segments[i])
  {
    hide AttemptsLeft, OnEvent, NextWire, AfterAttempt, Honest, Raisable;
    var seg := w.segments[i];
    match m
    case Start(j, skip, abortable) =>
      if i == j {
        StartKeepsAttempts(job, seg, skip, abortable);
      }
    case Conclude(j, reroll) =>
      if i == j {
        ConcludeKeepsAttempts(job, seg, w.cancelled, reroll);
      }
    case Deliver(j, event) =>
      if i == j {
        AttemptsNeverSlow(job, seg);
        EventKeepsNeverSlow(seg, event);
        SameAttempts(job, seg, DeliverSegment(seg, event));
      }
    case Land(k) =>
      if i == w.inflight[k].owner {
        LandKeepsAttempts(job, seg, i, w.inflight[k]);
      }
    case Cancel =>
  }

  lemma AttemptsNeverSlow(job: Job, seg: Segment)
    requires AttemptsLeft(job, seg)
    ensures NeverSlow(seg)
  {
  }

  lemma {:induction false} RunKeepsAttempts(job: Job, w: World, moves: seq<Move>, i: nat)
    requires Legal(job, w, moves) && i < |w.segments| && AttemptsLeft(job, w.segments[i])
    ensures i < |Run(job, w, moves).segments| && AttemptsLeft(job, Run(job, w, moves).segments[i])
    decreases |moves|
  {
    hide AttemptsLeft, Step, Enabled;
    if moves != [] {
      StepKeepsAttempts(job, w, moves[0], i);
      RunKeepsAttempts(job, Step(job, w, moves[0]), moves[1..], i);
    }
  }

  /** From a segment that has not started, at most `Bound` attempts. */
  lemma AttemptsBoundedFrom(job: Job, w: World, moves: seq<Move>, i: nat, offset: nat)
    requires Legal(job, w, moves) && i < |w.segments|
    requires w.segments[i].phase.Ready? && w.segments[i].attempt == 0 && w.segments[i].loop == Started(offset)
    ensures i < |Run(job, w, moves).segments|
    ensures Run(job, w, moves).segments[i].attempt <= Bound(SetupOf(job, w.segments[i]))
  {
    hide Legal, Run;
    SlotsMultiply(SetupOf(job, w.segments[i]), job.urls);
    RunKeepsAttempts(job, w, moves, i);
    RunKeepsRanges(job, w, moves);
    SpentAtMost(job, Run(job, w, moves).segments[i]);
  }

  lemma SpentAtMost(job: Job, seg: Segment)
    requires AttemptsLeft(job, seg)
    ensures seg.attempt <= Bound(SetupOf(job, seg))
  {
    if seg.loop.urlIndex < job.urls {
      AdvanceSpendsBudget(SetupOf(job, seg), seg.loop);
    }
  }

  /** No run of a split download dispatches more attempts than this for a segment. */
  lemma RangedAttemptsBounded(job: Job, chunks: seq<Chunk>, moves: seq<Move>, i: nat)
    requires Legal(job, Ranged(chunks), moves) && i < |chunks|
    ensures var w := Run(job, Ranged(chunks), moves);
            i < |w.segments| &&
            w.segments[i].attempt <= job.limits.maxResumes + job.urls * (job.limits.maxNoProgress + 1) + 1
  {
    hide Legal, Run;
    AttemptsBoundedFrom(job, Ranged(chunks), moves, i, chunks[i].start);
  }

  /** Nor of the whole-file stream, which may also restart each URL from zero once. */
  lemma WholeFileAttemptsBounded(job: Job, leftovers: seq<Write>, moves: seq<Move>)
    requires Legal(job, WholeFile(job.source, leftovers), moves)
    ensures var w := Run(job, WholeFile(job.source, leftovers), moves);
            |w.segments| == 1 &&
            w.segments[0].attempt <= job.limits.maxResumes + job.urls * (job.limits.maxNoProgress + 2) + 1
  {
    hide Legal, Run;
    AttemptsBoundedFrom(job, WholeFile(job.source, leftovers), moves, 0, 0);
    RunKeepsRanges(job, WholeFile(job.source, leftovers), moves);
  }
}
