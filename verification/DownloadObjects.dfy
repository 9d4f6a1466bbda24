/**
 * The handler and the retry loop with their fields updated in place, each
 * callback tied to the function that specifies it.
 */
module DownloadObjects {
  import opened Basics
  import opened SegmentLoop
  import opened ControlledHandler
  import opened RetryCounts

  class ControlledFileHandler {
    const params: Params
    var statusCode: nat
    var start: nat
    var position: nat
    var totalSize: nat
    var rangeRejected: bool
    var firstByte: bool
    var terminated: bool
    var pending: nat
    var outcome: Option<Outcome>

    function View(): Handler
      reads this
    {
      Handler(statusCode, start, position, totalSize, rangeRejected, firstByte, terminated, pending, outcome)
    }

    constructor (params: Params, expectedTotal: nat)
      ensures this.params == params && View() == NewHandler(params, expectedTotal)
    {
      this.params := params;
      statusCode, start, position, pending := 0, 0, 0, 0;
      totalSize := if params.segTotal > 0 then params.segTotal else expectedTotal;
      rangeRejected, firstByte, terminated := false, false, false;
      outcome := None;
    }

    method Resolve()
      modifies this`outcome
      ensures View() == Settle(old(View()), Resolved)
    {
      if outcome.None? {
        outcome := Some(Resolved);
      }
    }

    method Reject(error: Failure)
      modifies this`outcome
      ensures View() == Settle(old(View()), Rejected(error))
    {
      if outcome.None? {
        outcome := Some(Rejected(error));
      }
    }

    method CheckTermination()
      modifies this`outcome
      ensures View() == ControlledHandler.CheckTermination(old(View()))
    {
      if pending == 0 {
        Resolve();
      }
    }

    method OnHeaders(status: nat, range: ContentRange, length: Option<nat>)
      modifies this
      ensures View() == ControlledHandler.OnHeaders(params, old(View()), status, range, length)
    {
      statusCode := status;
      if status < 200 {
        return;
      }
      if status >= 400 {
        Reject(HttpStatus(status));
        return;
      }
      var total := 0;
      if status == 206 {
        if range.Absent? {
          Reject(Transport);
          return;
        }
        if range.Range? {
          position := range.first;
          if range.total.Some? {
            total := range.total.value;
          }
        }
      } else if status == 200 {
        if length.Some? {
          total := length.value;
        }
      }
      start := position;
      OnHeaderParsed(total);
    }

    method OnHeaderParsed(total: nat)
      modifies this
      ensures View() == HeaderParsed(params, old(View()), total)
    {
      if params.requireRange && statusCode == 200 {
        rangeRejected := true;
        Reject(RangeNotSupported);
        return;
      }
      if params.requireRange && statusCode == 206 && params.requestStart >= 0 && start != params.requestStart {
        rangeRejected := true;
        Reject(RangeNotSupported);
        return;
      }
      if params.segTotal == 0 && total != 0 {
        totalSize := total;
      }
    }

    method OnData(chunk: seq<byte>) returns (write: Emission)
      modifies this
      ensures View() == ControlledHandler.OnData(params, old(View()), chunk)
      ensures write == Written(params, old(View()), Data(chunk))
    {
      if rangeRejected {
        return Silent;
      }
      var target := if params.segTotal > 0 then params.segStart + params.segTotal else totalSize;
      var remaining: int := if target > 0 then target - position else |chunk|;
      if remaining <= 0 {
        return Silent;
      }
      var data := if |chunk| > remaining then chunk[..remaining] else chunk;
      firstByte := true;
      pending := pending + 1;
      write := Emit(position, data);
      position := position + |data|;
      if target > 0 && position >= target && !terminated {
        terminated := true;
        CheckTermination();
      }
    }

    method OnWritten()
      requires pending > 0
      modifies this
      ensures View() == ControlledHandler.OnWritten(old(View()))
    {
      pending := pending - 1;
      if terminated {
        CheckTermination();
      }
    }

    method Sample(stalled: bool, warm: bool, abort: bool)
      modifies this
      ensures View() == OnSample(params, old(View()), stalled, warm, abort)
    {
      if params.abortable && stalled {
        Reject(ManagedAbort(Stall));
        return;
      }
      if params.noAbort {
        return;
      }
      if !warm {
        return;
      }
      if abort {
        Reject(ManagedAbort(Slow));
      }
    }

    method OnComplete()
      modifies this
      ensures View() == OnEvent(params, old(View()), Completed)
    {
      terminated := true;
      CheckTermination();
    }

    method OnError()
      modifies this
      ensures View() == OnEvent(params, old(View()), Failed)
    {
      terminated := true;
      Reject(Transport);
    }
  }

  /** One dispatched attempt: any report at all, except that a committed handler ignores slowness. */
  method Dispatch(committed: bool) returns (report: Report, cancelled: bool, reroll: bool)
    ensures committed ==> report.outcome != Rejected(ManagedAbort(Slow))
  {
    report, cancelled, reroll := *, *, *;
    if committed && report.outcome == Rejected(ManagedAbort(Slow)) {
      report := report.(outcome := Rejected(ManagedAbort(Stall)));
    }
  }

  /** The local variables of one `runSegment` call. */
  class SegmentRunner {
    const setup: Setup
    var resumeOffset: nat
    var resumes: nat
    var slowRerolls: nat
    var noProgress: nat
    var committed: bool
    var restarted: bool
    var urlIndex: nat
    var done: bool
    var thrown: Option<Failure>

    function View(): Loop
      reads this
    {
      Loop(resumeOffset, resumes, slowRerolls, noProgress, committed, restarted, urlIndex)
    }

    constructor (setup: Setup, segStart: nat)
      ensures this.setup == setup && View() == Started(segStart) && !done && thrown.None?
    {
      this.setup := setup;
      resumeOffset, resumes, slowRerolls, noProgress, urlIndex := segStart, 0, 0, 0, 0;
      committed, restarted, done := false, false, false;
      thrown := None;
    }

    method AdvanceUrl()
      modifies this
      ensures View() == Advanced(old(View())) && done == old(done) && thrown == old(thrown)
    {
      urlIndex := urlIndex + 1;
      slowRerolls := 0;
      noProgress := 0;
      committed := false;
      restarted := false;
    }

    /** What the loop body does once the attempt's promise has settled. */
    method AfterWait(report: Report, cancelled: bool, reroll: bool) returns (truncate: bool)
      requires !done && thrown.None?
      modifies this
      ensures match AfterAttempt(setup, old(View()), report, cancelled, reroll)
              case Continue(next, t) => View() == next && truncate == t && !done && thrown.None?
              case Done => View() == old(View()) && !truncate && done && thrown.None?
              case Throw(error) => View() == old(View()) && !truncate && !done && thrown == Some(error)
    {
      truncate := false;
      if report.outcome.Resolved? {
        if report.target > 0 && report.offset < report.target {
          resumeOffset := Max(resumeOffset, report.offset);
          if resumes < setup.limits.maxResumes {
            resumes := resumes + 1;
            return;
          }
          AdvanceUrl();
          return;
        }
        done := true;
        return;
      }
      var error := report.outcome.error;
      if cancelled {
        thrown := Some(Cancelled);
        return;
      }
      if error == RangeNotSupported {
        thrown := Some(error);
        return;
      }
      resumeOffset := Max(resumeOffset, report.offset);
      truncate := Recover(error, reroll);
    }

    method Recover(error: Failure, reroll: bool) returns (truncate: bool)
      requires !done && thrown.None?
      modifies this
      ensures var v := AfterFailure(setup, old(View()), error, reroll);
              View() == v.next && truncate == v.truncate && !done && thrown.None?
    {
      truncate := false;
      if setup.whole && resumeOffset > 0 && error == HttpStatus(HTTP_RANGE_NOT_SATISFIABLE) && !restarted {
        resumeOffset := 0;
        restarted := true;
        return true;
      }
      if error.ManagedAbort? {
        if error.reason == Skip {
          AdvanceUrl();
        } else if error.reason == Slow {
          if slowRerolls < setup.limits.maxSlowRerolls && resumes < setup.limits.maxResumes {
            slowRerolls := slowRerolls + 1;
            resumes := resumes + 1;
          } else if urlIndex + 1 < setup.urls {
            AdvanceUrl();
          } else {
            committed := true;
          }
        } else if noProgress < setup.limits.maxNoProgress {
          noProgress := noProgress + 1;
        } else {
          AdvanceUrl();
        }
        return;
      }
      if reroll && resumes < setup.limits.maxResumes {
        resumes := resumes + 1;
        return;
      }
      AdvanceUrl();
    }

    /** The loop has gone through `turns` from `start`, or has been left by the last of them. */
    ghost predicate HasTaken(start: Loop, turns: seq<Turn>)
      reads this
    {
      && LoopValid(setup, View()) && Budget(setup, View()) >= 0
      && if done || thrown.Some?
         then
           && |turns| <= Bound(setup) && turns != []
           && GoesOn(setup, start, turns[..|turns| - 1], View())
           && AfterTurn(setup, View(), turns[|turns| - 1]) == (if done then Done else Throw(thrown.value))
           && !(done && thrown.Some?)
         else |turns| + Budget(setup, View()) <= Bound(setup) && GoesOn(setup, start, turns, View())
    }

    /** One turn of the loop. */
    method TakeTurn(ghost start: Loop, ghost turns: seq<Turn>) returns (attempted: bool, ghost turn: Turn)
      requires HasTaken(start, turns) && urlIndex < setup.urls && !done && thrown.None?
      modifies this
      ensures HasTaken(start, turns + [turn]) && attempted == turn.Attempt?
      ensures !done && thrown.None? ==> Budget(setup, View()) < old(Budget(setup, View()))
    {
      hide AfterTurn, GoesOn, AfterAttempt, Budget, LoopValid;
      var skip: bool := *;
      if urlIndex + 1 < setup.urls && skip {
        turn := SkipUrl;
        TurnTaken(setup, start, turns, View(), turn);
        AdvanceUrl();
        BudgetNonNegative(setup, View());
        return false, turn;
      }
      var report, cancelled, reroll := Dispatch(committed);
      turn := Attempt(report, cancelled, reroll);
      TurnTaken(setup, start, turns, View(), turn);
      var _ := AfterWait(report, cancelled, reroll);
      BudgetNonNegative(setup, View());
      attempted := true;
    }

    /**
     * The loop against an arbitrary network; a committed attempt never reports
     * a slow connection.  It goes through `turns` until no URL is left, or until
     * the last of them is a complete response or is thrown.
     */
    method Run() returns (attempts: nat, ghost turns: seq<Turn>)
      requires View() == Started(resumeOffset) && !done && thrown.None?
      modifies this
      ensures attempts == Attempts(turns) && |turns| <= Bound(setup)
      ensures !done && thrown.None? ==>
                urlIndex == setup.urls && GoesOn(setup, Started(old(resumeOffset)), turns, View())
      ensures done || thrown.Some? ==>
                && turns != []
                && GoesOn(setup, Started(old(resumeOffset)), turns[..|turns| - 1], View())
                && (done <==> Complete(turns[|turns| - 1]))
                && (thrown == Some(Cancelled) <==> Cancels(turns[|turns| - 1]))
    {
      hide AfterTurn, GoesOn, Complete, Cancels, FailsWith;
      attempts, turns := 0, [];
      ghost var start := View();
      SlotsMultiply(setup, setup.urls);
      NoTurns(setup, start);
      while urlIndex < setup.urls && !done && thrown.None?
        invariant HasTaken(start, turns)
        invariant attempts == Attempts(turns)
        decreases if done || thrown.Some? then 0 else 1, Budget(setup, View())
      {
        var attempted: bool;
        ghost var turn;
        attempted, turn := TakeTurn(start, turns);
        AttemptsAppend(turns, turn);
        turns := turns + [turn];
        if attempted {
          attempts := attempts + 1;
        }
      }
      if done || thrown.Some? {
        LeavesIff(setup, View(), turns[|turns| - 1]);
      }
    }
  }

  lemma NoTurns(s: Setup, l: Loop)
    ensures GoesOn(s, l, [], l) && Attempts([]) == 0
  {
  }

  /** What one more turn does to the turns so far and to the budget. */
  lemma TurnTaken(s: Setup, start: Loop, turns: seq<Turn>, l: Loop, turn: Turn)
    requires LoopValid(s, l) && l.urlIndex < s.urls && Possible(s, l, turn)
    requires GoesOn(s, start, turns, l)
    ensures (turns + [turn])[..|turns|] == turns && Budget(s, l) > 0
    ensures var v := AfterTurn(s, l, turn);
            v.Continue? ==>
              && LoopValid(s, v.next) && Budget(s, v.next) < Budget(s, l)
              && GoesOn(s, start, turns + [turn], v.next)
    ensures match turn
            case SkipUrl => AfterTurn(s, l, turn) == Continue(Advanced(l), false)
            case Attempt(report, cancelled, reroll) =>
              AfterTurn(s, l, turn) == AfterAttempt(s, l, report, cancelled, reroll)
  {
    hide GoesOn, LoopValid, Budget, AfterAttempt;
    TurnSpendsBudget(s, l, turn);
    if AfterTurn(s, l, turn).Continue? {
      GoesOnThrough(s, start, turns, l, turn);
    }
  }

  lemma BudgetNonNegative(s: Setup, l: Loop)
    requires LoopValid(s, l)
    ensures Budget(s, l) >= 0
  {
    if l.urlIndex < s.urls {
      AdvanceSpendsBudget(s, l);
    }
  }
}
