/**
 * What settles an attempt: which event ends it and with what report, event by
 * event and over whole responses.
 */
module HandlerOutcomes {
  import opened Basics
  import opened SegmentLoop
  import opened ControlledHandler

  lemma StartsUnsettled(p: Params, expectedTotal: nat)
    ensures var h := NewHandler(p, expectedTotal);
            && h.outcome.None? && h.pending == h.position == h.statusCode == 0
            && !h.firstByte && !h.terminated && !h.rangeRejected
            && h.totalSize == if p.segTotal == 0 then expectedTotal else p.segTotal
  {
  }

  /** Where a response starts: where its Content-Range says, or else where the handler stands. */
  function StartOf(h: Handler, status: nat, range: ContentRange): nat {
    if status == 206 && range.Range? then range.first else h.position
  }

  /** The headers refuse the range that a segment asked for. */
  predicate RefusesRange(p: Params, h: Handler, status: nat, range: ContentRange) {
    && p.requireRange
    && (status == 200
        || (status == 206 && !range.Absent? && p.requestStart >= 0 && StartOf(h, status, range) != p.requestStart))
  }

  /** Headers end an attempt with an HTTP error, with a 206 that has no Content-Range, and with a refused range. */
  lemma HeadersSettleIff(p: Params, h: Handler, status: nat, range: ContentRange, length: Option<nat>)
    requires h.outcome.None?
    ensures var o := OnEvent(p, h, Headers(status, range, length)).outcome;
            && (o == Some(Rejected(HttpStatus(status))) <==> status >= 400)
            && (o == Some(Rejected(Transport)) <==> status == 206 && range.Absent?)
            && (o == Some(Rejected(RangeNotSupported)) <==> RefusesRange(p, h, status, range))
            && (o == None <==> status < 400 && !(status == 206 && range.Absent?) && !RefusesRange(p, h, status, range))
  {
  }

  /** The file's size as a response's headers give it, 0 if they do not. */
  function SizeGiven(status: nat, range: ContentRange, length: Option<nat>): nat {
    match (range, length)
    case (Range(_, Some(total)), _) => if status == 206 then total else if status == 200 then Given(length) else 0
    case (_, Some(n)) => if status == 200 then n else 0
    case _ => 0
  }

  function Given(length: Option<nat>): nat {
    if length.Some? then length.value else 0
  }

  /** A whole-file stream takes its size from accepted headers that give one; a segment never does. */
  lemma SizeLearned(p: Params, h: Handler, status: nat, range: ContentRange, length: Option<nat>)
    requires h.outcome.None?
    ensures var h' := OnEvent(p, h, Headers(status, range, length));
            h'.totalSize == if p.segTotal == 0 && 200 <= status && h'.outcome.None?
                               && SizeGiven(status, range, length) > 0
                            then SizeGiven(status, range, length)
                            else h.totalSize
  {
  }

  /** The end of what a connection may write; 0 while it is not known. */
  function WriteEnd(p: Params, h: Handler): nat {
    if p.segTotal > 0 then p.segStart + p.segTotal else h.totalSize
  }

  predicate Takes(p: Params, h: Handler, chunk: seq<byte>) {
    && !h.rangeRejected
    && if WriteEnd(p, h) > 0 then h.position < WriteEnd(p, h) else chunk != []
  }

  /** A chunk is written as far as the end, which it ends the response at, and nothing is written past it. */
  lemma DataTaken(p: Params, h: Handler, chunk: seq<byte>)
    ensures var h', end := OnEvent(p, h, Data(chunk)), WriteEnd(p, h);
            if !Takes(p, h, chunk) then h' == h && Written(p, h, Data(chunk)) == Silent
            else
              var n := if end > 0 then Min(|chunk|, end - h.position) else |chunk|;
              && Written(p, h, Data(chunk)) == Emit(h.position, chunk[..n])
              && h'.position == h.position + n && h'.pending == h.pending + 1 && h'.firstByte
              && (h'.terminated <==> h.terminated || (end > 0 && h.position + |chunk| >= end))
  {
  }

  /** Timers and the controller: silence, a stall, slowness, and a source to be skipped. */
  lemma AbortedIff(p: Params, h: Handler, stalled: bool, warm: bool, abort: bool, skip: bool)
    requires h.outcome.None?
    ensures OnEvent(p, h, TtfbDeadline).outcome == if h.firstByte then None else Some(Rejected(ManagedAbort(Ttfb)))
    ensures var o := OnEvent(p, h, Sampled(stalled, warm, abort)).outcome;
            && (o == Some(Rejected(ManagedAbort(Stall))) <==> p.abortable && stalled)
            && (o == Some(Rejected(ManagedAbort(Slow))) <==>
                  !(p.abortable && stalled) && !p.noAbort && warm && abort)
            && (o == None <==> !(p.abortable && stalled) && (p.noAbort || !warm || !abort))
    ensures OnEvent(p, h, Dispatched(skip)).outcome
         == if p.skippable && skip then Some(Rejected(ManagedAbort(Skip))) else None
  {
  }

  /** The end of the body, a broken connection and the caller's signal. */
  lemma EndsAs(p: Params, h: Handler)
    requires h.outcome.None?
    ensures OnEvent(p, h, Completed).outcome == if h.pending == 0 then Some(Resolved) else None
    ensures OnEvent(p, h, Failed).outcome == Some(Rejected(Transport))
    ensures OnEvent(p, h, SignalAborted).outcome == Some(Rejected(Cancelled))
    ensures OnEvent(p, h, Completed).terminated && OnEvent(p, h, Failed).terminated
    ensures h.pending > 0 ==>
              OnWritten(h).outcome == if h.terminated && h.pending == 1 then Some(Resolved) else None
  {
  }

  // Whole responses.

  /** What reaches a handler: an event, or the callback of a write that has landed. */
  datatype Input = Seen(event: Event) | Landed

  predicate Possible(p: Params, h: Handler, inputs: seq<Input>)
    decreases |inputs|
  {
    inputs == [] ||
    (CanReach(p, h, inputs[0]) && Possible(p, Fed(p, h, inputs[0]), inputs[1..]))
  }

  predicate CanReach(p: Params, h: Handler, input: Input) {
    match input
    case Seen(event) => Raisable(p, h, event)
    case Landed => h.pending > 0
  }

  function Fed(p: Params, h: Handler, input: Input): Handler
    requires CanReach(p, h, input)
  {
    match input
    case Seen(event) => OnEvent(p, h, event)
    case Landed => OnWritten(h)
  }

  function FedAll(p: Params, h: Handler, inputs: seq<Input>): Handler
    requires Possible(p, h, inputs)
    decreases |inputs|
  {
    if inputs == [] then h else FedAll(p, Fed(p, h, inputs[0]), inputs[1..])
  }

  /** A response that is over has settled the attempt as soon as its writes have landed. */
  predicate Prompt(h: Handler) {
    h.terminated && h.pending == 0 ==> h.outcome.Some?
  }

  lemma {:induction false} StaysPrompt(p: Params, h: Handler, inputs: seq<Input>)
    requires Prompt(h) && Possible(p, h, inputs)
    ensures Prompt(FedAll(p, h, inputs))
    ensures h.outcome.Some? ==> FedAll(p, h, inputs).outcome == h.outcome
    decreases |inputs|
  {
    if inputs != [] {
      StaysPrompt(p, Fed(p, h, inputs[0]), inputs[1..]);
    }
  }

  /** The first report counts, and a response that is over with nothing pending has given one. */
  lemma OneReport(p: Params, expectedTotal: nat, inputs: seq<Input>, more: seq<Input>)
    requires Possible(p, NewHandler(p, expectedTotal), inputs)
    requires Possible(p, FedAll(p, NewHandler(p, expectedTotal), inputs), more)
    ensures var h := FedAll(p, NewHandler(p, expectedTotal), inputs);
            && (h.terminated && h.pending == 0 ==> h.outcome.Some?)
            && (h.outcome.Some? ==> FedAll(p, h, more).outcome == h.outcome)
  {
    StaysPrompt(p, NewHandler(p, expectedTotal), inputs);
    StaysPrompt(p, FedAll(p, NewHandler(p, expectedTotal), inputs), more);
  }
}
