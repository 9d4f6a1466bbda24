/** The invariant of the download state machine, step by step. */
module SharedFileInvariant {
  import opened Basics
  import opened SegmentLoop
  import opened ControlledHandler
  import opened SharedFile

  /** Byte `p` of segment `i` is on disk or in a write that segment has issued. */
  ghost predicate Held(file: map<nat, byte>, inflight: seq<Write>, i: nat, p: nat) {
    p in file || exists k :: 0 <= k < |inflight| && Holds(inflight[k], i, p)
  }

  predicate Holds(wr: Write, i: nat, p: nat) {
    wr.owner == i && wr.offset <= p < wr.offset + |wr.data|
  }

  ghost predicate HeldFrom(file: map<nat, byte>, inflight: seq<Write>, i: nat, lo: nat, hi: nat) {
    forall p :: lo <= p < hi ==> Held(file, inflight, i, p)
  }

  /** Writes in flight that attempt `a` of segment `i` issued. */
  function Count(inflight: seq<Write>, i: nat, a: nat): nat {
    if inflight == [] then 0
    else
      var last := inflight[|inflight| - 1];
      Count(inflight[..|inflight| - 1], i, a) + if last.owner == i && last.attempt == a then 1 else 0
  }

  predicate FileOk(source: seq<byte>, file: map<nat, byte>) {
    forall p :: p in file ==> p < |source| && file[p] == source[p]
  }

  /** A write stays inside its own segment and carries the source's bytes. */
  predicate WriteOk(job: Job, segments: seq<Segment>, wr: Write) {
    && wr.owner < |segments|
    && var seg := segments[wr.owner];
    && seg.first <= wr.offset
    && wr.offset + |wr.data| <= seg.end <= |job.source|
    && wr.data == job.source[wr.offset..wr.offset + |wr.data|]
    && wr.attempt <= seg.attempt
  }

  predicate ShapeOk(job: Job, seg: Segment) {
    && seg.first <= seg.loop.resumeOffset <= seg.end <= |job.source|
    && (if seg.whole then seg.first == 0 && seg.end == |job.source| else seg.first < seg.end)
    && LoopValid(SetupOf(job, seg), seg.loop)
  }

  /** Nothing more will be written by this connection. */
  predicate Closed(p: Params, h: Handler, wire: Wire) {
    wire.Over? || (Target(p, h) > 0 && h.position >= Target(p, h))
  }

  predicate HandlerOk(job: Job, seg: Segment, p: Params, h: Handler, wire: Wire) {
    && p == ParamsOf(job, seg, p.abortable)
    && (wire.Waiting? ==> h.start == h.position == h.pending == 0 && !h.rangeRejected && !h.terminated)
    && (wire.Waiting? ==> h.statusCode < 200) && (wire.Streaming? ==> h.statusCode >= 200)
    && (!h.rangeRejected && wire.Streaming? && !seg.whole ==> seg.loop.resumeOffset <= h.position)
    && (h.rangeRejected ==> h.outcome == Some(Rejected(RangeNotSupported)))
    && (!h.rangeRejected ==> h.position <= seg.end)
    && (!h.rangeRejected && wire.Streaming? ==>
          && seg.first <= h.position
          && (wire.next == h.position || (wire.next >= h.position >= Target(p, h) > 0)))
    && (h.terminated ==> Closed(p, h, wire))
    && (h.outcome == Some(Resolved) ==> h.terminated && h.pending == 0)
    && (h.outcome == Some(Rejected(ManagedAbort(Slow))) ==> !seg.loop.committed)
    && (seg.whole ==> h.totalSize == 0 || h.totalSize == |job.source|)
  }

  ghost predicate SegmentOk(job: Job, file: map<nat, byte>, inflight: seq<Write>, i: nat, seg: Segment) {
    && ShapeOk(job, seg)
    && HeldFrom(file, inflight, i, seg.first, seg.loop.resumeOffset)
    && match seg.phase
       case Running(p, h, wire) =>
         && HandlerOk(job, seg, p, h, wire)
         && seg.loop.urlIndex < job.urls
         && h.pending == Count(inflight, i, seg.attempt)
         && (!h.rangeRejected ==> HeldFrom(file, inflight, i, seg.first, h.position))
       case Finished(target) =>
         && Count(inflight, i, seg.attempt) == 0
         && (!seg.whole ==> target == seg.end)
         && (target > 0 ==> HeldFrom(file, inflight, i, seg.first, seg.end))
       case _ => true
  }

  ghost predicate Inv(job: Job, w: World) {
    && (job.expectedTotal == 0 || job.expectedTotal == |job.source|)
    && FileOk(job.source, w.file)
    && (forall k :: 0 <= k < |w.inflight| ==> WriteOk(job, w.segments, w.inflight[k]))
    && (forall i :: 0 <= i < |w.segments| ==> SegmentOk(job, w.file, w.inflight, i, w.segments[i]))
    && ((exists i :: 0 <= i < |w.segments| && w.segments[i].whole) ==> |w.segments| == 1)
  }

  /** A 206 taken by a whole-file request, which never checks where it starts. */
  predicate TakesRange(w: World, m: Move) {
    && m.Deliver? && m.i < |w.segments| && w.segments[m.i].whole
    && m.event.Headers? && m.event.status == 206 && m.event.range.Range?
  }

  /** Nothing below the start of such a response is missing. */
  ghost predicate Aligned(w: World, m: Move) {
    TakesRange(w, m) ==> HeldFrom(w.file, w.inflight, m.i, 0, m.event.range.first)
  }

  lemma HeldInside(job: Job, w: World, i: nat, p: nat)
    requires Inv(job, w) && Held(w.file, w.inflight, i, p)
    ensures p < |job.source|
  {
    if p !in w.file {
      var k :| 0 <= k < |w.inflight| && Holds(w.inflight[k], i, p);
      assert WriteOk(job, w.segments, w.inflight[k]);
    }
  }

  lemma AlignedInside(job: Job, w: World, m: Move)
    requires Inv(job, w) && Aligned(w, m) && TakesRange(w, m)
    ensures m.event.range.first <= |job.source|
  {
    hide Inv, Held;
    if m.event.range.first > 0 {
      HeldInside(job, w, m.i, m.event.range.first - 1);
    }
  }

  // Counting writes.

  lemma {:induction false} CountAppend(a: seq<Write>, b: seq<Write>, i: nat, n: nat)
    ensures Count(a + b, i, n) == Count(a, i, n) + Count(b, i, n)
  {
    if b == [] {
      assert a + b == a;
    } else {
      var last := |b| - 1;
      assert (a + b)[..|a + b| - 1] == a + b[..last];
      CountAppend(a, b[..last], i, n);
    }
  }

  lemma CountWithout(ws: seq<Write>, k: nat, i: nat, n: nat)
    requires k < |ws|
    ensures Count(ws, i, n) == Count(Without(ws, k), i, n) + if ws[k].owner == i && ws[k].attempt == n then 1 else 0
  {
    var tail := ws[k + 1..];
    assert ws == (ws[..k] + [ws[k]]) + tail;
    CountAppend(ws[..k] + [ws[k]], tail, i, n);
    CountAppend(ws[..k], [ws[k]], i, n);
    CountAppend(ws[..k], tail, i, n);
    assert [ws[k]][..0] == [];
  }

  lemma {:induction false} CountNone(ws: seq<Write>, i: nat, n: nat)
    requires forall k :: 0 <= k < |ws| && ws[k].owner == i ==> ws[k].attempt != n
    ensures Count(ws, i, n) == 0
  {
    if ws != [] {
      CountNone(ws[..|ws| - 1], i, n);
    }
  }

  // Bytes stay held.

  lemma HeldAfterAppend(file: map<nat, byte>, inflight: seq<Write>, more: seq<Write>, i: nat, p: nat)
    requires Held(file, inflight, i, p)
    ensures Held(file, inflight + more, i, p)
  {
    if p !in file {
      var k :| 0 <= k < |inflight| && Holds(inflight[k], i, p);
      assert Holds((inflight + more)[k], i, p);
    }
  }

  lemma HeldAfterLand(file: map<nat, byte>, inflight: seq<Write>, k: nat, i: nat, p: nat)
    requires k < |inflight| && Held(file, inflight, i, p)
    ensures Held(Store(file, inflight[k].offset, inflight[k].data), Without(inflight, k), i, p)
  {
    if p !in file {
      var j :| 0 <= j < |inflight| && Holds(inflight[j], i, p);
      if j < k {
        assert Holds(Without(inflight, k)[j], i, p);
      } else if j > k {
        assert Holds(Without(inflight, k)[j - 1], i, p);
      }
    }
  }

  lemma HeldFromAfterAppend(file: map<nat, byte>, inflight: seq<Write>, more: seq<Write>, i: nat, lo: nat, hi: nat)
    requires HeldFrom(file, inflight, i, lo, hi)
    ensures HeldFrom(file, inflight + more, i, lo, hi)
  {
    forall p | lo <= p < hi ensures Held(file, inflight + more, i, p) {
      HeldAfterAppend(file, inflight, more, i, p);
    }
  }

  lemma HeldFromAfterLand(file: map<nat, byte>, inflight: seq<Write>, k: nat, i: nat, lo: nat, hi: nat)
    requires k < |inflight| && HeldFrom(file, inflight, i, lo, hi)
    ensures HeldFrom(Store(file, inflight[k].offset, inflight[k].data), Without(inflight, k), i, lo, hi)
  {
    forall p | lo <= p < hi
      ensures Held(Store(file, inflight[k].offset, inflight[k].data), Without(inflight, k), i, p)
    {
      HeldAfterLand(file, inflight, k, i, p);
    }
  }

  // One event on one handler.

  /** What an event that issues a write promises about it. */
  predicate EmissionOk(job: Job, seg: Segment, p: Params, h: Handler, event: Event) {
    var h' := OnEvent(p, h, event);
    match Written(p, h, event)
    case Silent =>
      && h'.pending == h.pending
      && (h'.rangeRejected || h'.position == h.position ||
          (event.Headers? && event.status == 206 && event.range.Range? && h'.position == event.range.first &&
           (seg.whole || h'.position == seg.loop.resumeOffset)))
    case Emit(offset, data) =>
      && h'.pending == h.pending + 1
      && seg.first <= offset == h.position
      && h'.position == offset + |data| <= seg.end <= |job.source|
      && data == job.source[offset..offset + |data|]
      && !h.rangeRejected
  }

  lemma HeadersOk(job: Job, seg: Segment, p: Params, h: Handler, wire: Wire, event: Event)
    requires ShapeOk(job, seg) && HandlerOk(job, seg, p, h, wire)
    requires event.Headers? && Raisable(p, h, event) && Honest(job, wire, event)
    requires seg.whole && event.status == 206 && event.range.Range? ==> event.range.first <= seg.end
    ensures HandlerOk(job, seg, p, OnEvent(p, h, event), NextWire(wire, event))
    ensures EmissionOk(job, seg, p, h, event)
  {
  }

  lemma DataOk(job: Job, seg: Segment, p: Params, h: Handler, wire: Wire, event: Event)
    requires ShapeOk(job, seg) && HandlerOk(job, seg, p, h, wire)
    requires event.Data? && Raisable(p, h, event) && Honest(job, wire, event)
    ensures HandlerOk(job, seg, p, OnEvent(p, h, event), NextWire(wire, event))
    ensures EmissionOk(job, seg, p, h, event)
  {
    if Wants(p, h, event.chunk) {
      var t := Trimmed(p, h, event.chunk);
      assert t == job.source[h.position..h.position + |t|];
    }
  }

  lemma EventOk(job: Job, seg: Segment, p: Params, h: Handler, wire: Wire, event: Event)
    requires ShapeOk(job, seg) && HandlerOk(job, seg, p, h, wire)
    requires Raisable(p, h, event) && Honest(job, wire, event)
    requires event.Headers? && seg.whole && event.status == 206 && event.range.Range? ==> event.range.first <= seg.end
    ensures HandlerOk(job, seg, p, OnEvent(p, h, event), NextWire(wire, event))
    ensures EmissionOk(job, seg, p, h, event)
  {
    match event
    case Headers(_, _, _) => HeadersOk(job, seg, p, h, wire, event);
    case Data(_) => DataOk(job, seg, p, h, wire, event);
    case _ =>
  }

  lemma LandOk(job: Job, seg: Segment, p: Params, h: Handler, wire: Wire)
    requires HandlerOk(job, seg, p, h, wire) && h.pending > 0
    ensures HandlerOk(job, seg, p, OnWritten(h), wire)
    ensures OnWritten(h).position == h.position && OnWritten(h).rangeRejected == h.rangeRejected
    ensures OnWritten(h).pending == h.pending - 1
  {
  }
}
