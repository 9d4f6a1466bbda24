/**
 * Concurrent downloads into one file: every segment runs the retry loop of
 * `runSegment`, the network chooses what each attempt sees, and positioned
 * writes reach the disk in any order.  A `World` is one state of that system
 * and a `Move` one step of it.
 */
module SharedFile {
  import opened Basics
  import opened SegmentLoop
  import opened ControlledHandler

  /** What the open response still has to say: nothing yet, bytes from an offset of the source, no body, or over. */
  datatype Wire = Waiting | Streaming(next: nat) | Bodyless | Over

  datatype Phase =
    | Ready
    | Running(params: Params, handler: Handler, wire: Wire)
    | Finished(target: nat)
    | Stopped(error: Failure)
    | Exhausted

  /** One call of `runSegment` for the bytes from `first` up to but not including `end`, or for the whole file. */
  datatype Segment = Segment(whole: bool, first: nat, end: nat, loop: Loop, attempt: nat, phase: Phase)

  /** A write the file system has accepted but not performed. */
  datatype Write = Write(owner: nat, attempt: nat, offset: nat, data: seq<byte>)

  datatype World = World(file: map<nat, byte>, inflight: seq<Write>, segments: seq<Segment>, cancelled: bool)

  datatype Move =
    | Start(i: nat, skip: bool, abortable: bool)
    | Deliver(i: nat, event: Event)
    | Land(k: nat)
    | Conclude(i: nat, reroll: bool)
    | Cancel

  /** What never changes during a download. */
  datatype Job = Job(source: seq<byte>, limits: Limits, urls: nat, expectedTotal: nat)

  function SetupOf(job: Job, seg: Segment): Setup {
    Setup(job.limits, job.urls, seg.whole)
  }

  /** The handler arguments `runSegment` passes for its next attempt. */
  function ParamsOf(job: Job, seg: Segment, abortable: bool): Params {
    var skippable := seg.loop.urlIndex + 1 < job.urls;
    if seg.whole then
      Params(0, 0, false, -1, seg.loop.committed, abortable, skippable)
    else
      Params(seg.first, if seg.first < seg.end then seg.end - seg.first else 0, true, seg.loop.resumeOffset,
             seg.loop.committed, abortable, skippable)
  }

  /**
   * A content-honest network: a 206 carries the source from its Content-Range
   * start, a 200 carries it from byte 0, nothing else has a body, and totals are true.
   */
  predicate Honest(job: Job, wire: Wire, event: Event) {
    match event
    case Headers(status, range, length) =>
      && wire.Waiting?
      && (status == 206 && range.Range? && range.total.Some? ==> range.total.value == |job.source|)
      && (status == 200 && length.Some? ==> length.value == |job.source|)
    case Data(chunk) =>
      && wire.Streaming?
      && wire.next + |chunk| <= |job.source|
      && chunk == job.source[wire.next..wire.next + |chunk|]
    case Completed => !wire.Over?
    case Failed => !wire.Over?
    case _ => true
  }

  function NextWire(wire: Wire, event: Event): Wire {
    match event
    case Headers(status, range, _) =>
      if status < 200 then wire
      else if status == 206 && range.Range? then Streaming(range.first)
      else if status == 200 then Streaming(0)
      else Bodyless
    case Data(chunk) => if wire.Streaming? then Streaming(wire.next + |chunk|) else wire
    case Completed => Over
    case Failed => Over
    case _ => wire
  }

  predicate Enabled(job: Job, w: World, m: Move) {
    match m
    case Start(i, skip, _) =>
      && i < |w.segments| && w.segments[i].phase.Ready?
      && (skip ==> w.segments[i].loop.urlIndex + 1 < job.urls)
    case Deliver(i, event) =>
      && i < |w.segments| && w.segments[i].phase.Running?
      && Raisable(w.segments[i].phase.params, w.segments[i].phase.handler, event)
      && Honest(job, w.segments[i].phase.wire, event)
      && (event.SignalAborted? ==> w.cancelled)
    case Land(k) => k < |w.inflight|
    case Conclude(i, _) =>
      && i < |w.segments| && w.segments[i].phase.Running? && w.segments[i].phase.handler.outcome.Some?
    case Cancel => true
  }

  function StartSegment(job: Job, seg: Segment, skip: bool, abortable: bool): Segment {
    if seg.loop.urlIndex >= job.urls then seg.(phase := Exhausted)
    else if skip then seg.(loop := Advanced(seg.loop))
    else
      var p := ParamsOf(job, seg, abortable);
      seg.(attempt := seg.attempt + 1, phase := Running(p, NewHandler(p, job.expectedTotal), Waiting))
  }

  function DeliverSegment(seg: Segment, event: Event): Segment
    requires seg.phase.Running?
  {
    var Running(p, h, wire) := seg.phase;
    seg.(phase := Running(p, OnEvent(p, h, event), NextWire(wire, event)))
  }

  function DeliverWrites(seg: Segment, i: nat, event: Event): seq<Write>
    requires seg.phase.Running?
  {
    match Written(seg.phase.params, seg.phase.handler, event)
    case Silent => []
    case Emit(offset, data) => [Write(i, seg.attempt, offset, data)]
  }

  /** The write callback reaches the handler that issued the write; only the current one still matters. */
  function LandSegment(seg: Segment, i: nat, wr: Write): Segment {
    if wr.owner == i && seg.phase.Running? && wr.attempt == seg.attempt && seg.phase.handler.pending > 0 then
      seg.(phase := seg.phase.(handler := OnWritten(seg.phase.handler)))
    else
      seg
  }

  function ByteAt(data: seq<byte>, offset: nat, p: nat): byte
    requires offset <= p < offset + |data|
  {
    data[p - offset]
  }

  function Store(file: map<nat, byte>, offset: nat, data: seq<byte>): map<nat, byte> {
    file + map p | offset <= p < offset + |data| :: ByteAt(data, offset, p)
  }

  function TargetOf(seg: Segment, h: Handler): nat {
    if seg.whole then h.totalSize else seg.end
  }

  function VerdictOf(job: Job, seg: Segment, cancelled: bool, reroll: bool): Verdict
    requires seg.phase.Running? && seg.phase.handler.outcome.Some?
  {
    var h := seg.phase.handler;
    AfterAttempt(SetupOf(job, seg), seg.loop, Report(h.outcome.value, h.position, TargetOf(seg, h)), cancelled, reroll)
  }

  function ConcludeSegment(seg: Segment, v: Verdict): Segment
    requires seg.phase.Running?
  {
    match v
    case Continue(next, _) => seg.(loop := next, phase := Ready)
    case Done => seg.(phase := Finished(TargetOf(seg, seg.phase.handler)))
    case Throw(error) => seg.(phase := Stopped(error))
  }

  function Without<T>(s: seq<T>, k: nat): seq<T>
    requires k < |s|
  {
    s[..k] + s[k + 1..]
  }

  function Step(job: Job, w: World, m: Move): World
    requires Enabled(job, w, m)
  {
    match m
    case Start(i, skip, abortable) =>
      w.(segments := w.segments[i := StartSegment(job, w.segments[i], skip, abortable)])
    case Deliver(i, event) =>
      w.(segments := w.segments[i := DeliverSegment(w.segments[i], event)],
         inflight := w.inflight + DeliverWrites(w.segments[i], i, event))
    case Land(k) =>
      var wr := w.inflight[k];
      w.(file := Store(w.file, wr.offset, wr.data),
         inflight := Without(w.inflight, k),
         segments := if wr.owner < |w.segments|
                     then w.segments[wr.owner := LandSegment(w.segments[wr.owner], wr.owner, wr)]
                     else w.segments)
    case Conclude(i, reroll) =>
      var v := VerdictOf(job, w.segments[i], w.cancelled, reroll);
      w.(segments := w.segments[i := ConcludeSegment(w.segments[i], v)],
         file := if v.Continue? && v.truncate then map[] else w.file)
    case Cancel => w.(cancelled := true)
  }

  /** `moves` can be taken one after the other from `w`. */
  predicate Legal(job: Job, w: World, moves: seq<Move>)
    decreases |moves|
  {
    moves == [] || (Enabled(job, w, moves[0]) && Legal(job, Step(job, w, moves[0]), moves[1..]))
  }

  function Run(job: Job, w: World, moves: seq<Move>): World
    requires Legal(job, w, moves)
    decreases |moves|
  {
    if moves == [] then w else Run(job, Step(job, w, moves[0]), moves[1..])
  }
}
