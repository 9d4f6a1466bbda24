/**
 * `FileHandler` and `ControlledFileHandler`: one HTTP response streamed to an
 * offset of the shared file.  `Handler` holds the fields that matter and the
 * functions below say what each callback does to them; `DownloadObjects` has the
 * same handler with fields updated in place.
 */
module ControlledHandler {
  import opened Basics
  import opened SegmentLoop

  /** The constructor arguments that decide how a response is treated. */
  datatype Params = Params(
    segStart: nat,
    segTotal: nat,
    requireRange: bool,
    requestStart: int,
    noAbort: bool,
    abortable: bool,
    skippable: bool)

  datatype Handler = Handler(
    statusCode: nat,
    start: nat,
    position: nat,
    totalSize: nat,
    rangeRejected: bool,
    firstByte: bool,
    terminated: bool,
    pending: nat,
    outcome: Option<Outcome>)

  /** The `Content-Range` header: missing, not of the expected shape, or parsed. */
  datatype ContentRange = Absent | Malformed | Range(first: nat, total: Option<nat>)

  datatype Event =
    | Dispatched(skip: bool)
    | TtfbDeadline
    | Headers(status: nat, range: ContentRange, length: Option<nat>)
    | Data(chunk: seq<byte>)
    | Sampled(stalled: bool, warm: bool, abort: bool)
    | Completed
    | Failed
    | SignalAborted

  /** A positioned write handed to the file system. */
  datatype Emission = Silent | Emit(offset: nat, data: seq<byte>)

  function NewHandler(p: Params, expectedTotal: nat): Handler {
    Handler(0, 0, 0, if p.segTotal > 0 then p.segTotal else expectedTotal, false, false, false, 0, None)
  }

  /** A promise settles once; later calls to its resolvers do nothing. */
  function Settle(h: Handler, o: Outcome): Handler {
    if h.outcome.None? then h.(outcome := Some(o)) else h
  }

  function CheckTermination(h: Handler): Handler {
    if h.pending == 0 then Settle(h, Resolved) else h
  }

  /** The absolute offset this connection must not write past; 0 when unknown. */
  function Target(p: Params, h: Handler): nat {
    if p.segTotal > 0 then p.segStart + p.segTotal else h.totalSize
  }

  function OnHeaders(p: Params, h: Handler, status: nat, range: ContentRange, length: Option<nat>): Handler {
    var h1 := h.(statusCode := status);
    if status < 200 then h1
    else if status >= 400 then Settle(h1, Rejected(HttpStatus(status)))
    else if status == 206 && range.Absent? then Settle(h1, Rejected(Transport))
    else
      var position := if status == 206 && range.Range? then range.first else h.position;
      var total :=
        if status == 206 && range.Range? && range.total.Some? then range.total.value
        else if status == 200 && length.Some? then length.value
        else 0;
      HeaderParsed(p, h1.(position := position, start := position), total)
  }

  function HeaderParsed(p: Params, h: Handler, total: nat): Handler {
    if p.requireRange && h.statusCode == 200 then
      Settle(h.(rangeRejected := true), Rejected(RangeNotSupported))
    else if p.requireRange && h.statusCode == 206 && p.requestStart >= 0 && h.start != p.requestStart then
      Settle(h.(rangeRejected := true), Rejected(RangeNotSupported))
    else if p.segTotal == 0 && total != 0 then
      h.(totalSize := total)
    else
      h
  }

  /** The part of a chunk that is still wanted. */
  function Trimmed(p: Params, h: Handler, chunk: seq<byte>): seq<byte> {
    var target := Target(p, h);
    if target > 0 && h.position + |chunk| > target then
      if h.position < target then chunk[..target - h.position] else []
    else
      chunk
  }

  /** Whether `onData` hands the chunk on at all. */
  predicate Wants(p: Params, h: Handler, chunk: seq<byte>) {
    !h.rangeRejected && if Target(p, h) > 0 then h.position < Target(p, h) else |chunk| > 0
  }

  function OnData(p: Params, h: Handler, chunk: seq<byte>): Handler {
    if !Wants(p, h, chunk) then h
    else
      var h1 := h.(firstByte := true, pending := h.pending + 1, position := h.position + |Trimmed(p, h, chunk)|);
      if Target(p, h) > 0 && h1.position >= Target(p, h) then
        // completeEarly: the write just issued is still pending, so this cannot settle yet
        h1.(terminated := true)
      else
        h1
  }

  function Written(p: Params, h: Handler, event: Event): Emission {
    if event.Data? && Wants(p, h, event.chunk) then Emit(h.position, Trimmed(p, h, event.chunk)) else Silent
  }

  function OnSample(p: Params, h: Handler, stalled: bool, warm: bool, abort: bool): Handler {
    if p.abortable && stalled then Settle(h, Rejected(ManagedAbort(Stall)))
    else if p.noAbort || !warm || !abort then h
    else Settle(h, Rejected(ManagedAbort(Slow)))
  }

  function OnEvent(p: Params, h: Handler, event: Event): Handler {
    match event
    case Dispatched(skip) =>
      if p.skippable && skip then Settle(h, Rejected(ManagedAbort(Skip))) else h
    case TtfbDeadline =>
      if !h.firstByte then Settle(h, Rejected(ManagedAbort(Ttfb))) else h
    case Headers(status, range, length) => OnHeaders(p, h, status, range, length)
    case Data(chunk) => OnData(p, h, chunk)
    case Sampled(stalled, warm, abort) => OnSample(p, h, stalled, warm, abort)
    case Completed => CheckTermination(h.(terminated := true))
    case Failed => Settle(h.(terminated := true), Rejected(Transport))
    case SignalAborted => Settle(h, Rejected(Cancelled))
  }

  /** The callback of a write that reached the disk. */
  function OnWritten(h: Handler): Handler
    requires h.pending > 0
  {
    var h1 := h.(pending := h.pending - 1);
    if h.terminated then CheckTermination(h1) else h1
  }

  /** When the environment may raise an event: timers are cleared once the promise settles or the body ends. */
  predicate Raisable(p: Params, h: Handler, event: Event) {
    match event
    case Dispatched(_) => h.outcome.None? && !h.firstByte && h.statusCode == 0
    case TtfbDeadline => p.abortable && h.outcome.None? && !h.firstByte && !h.terminated
    case Headers(_, _, _) => h.outcome.None? && !h.terminated && h.statusCode < 200
    case Data(_) => h.statusCode >= 200
    case Sampled(_, _, _) => h.firstByte && h.outcome.None? && !h.terminated
    case Completed => true
    case Failed => true
    case SignalAborted => true
  }
}
