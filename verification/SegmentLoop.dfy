/**
 * The retry loop of `runSegment`: what one finished attempt does to the
 * loop's counters, and why the loop cannot run for ever.
 */
module SegmentLoop {

  /** Why a controller or handler abandoned a connection. */
  datatype AbortReason = Ttfb | Stall | Slow | Skip

  /** The rejections `runSegment` can tell apart. */
  datatype Failure =
    | ManagedAbort(reason: AbortReason)
    | RangeNotSupported
    | HttpStatus(code: nat)
    | Transport
    | Cancelled

  datatype Outcome = Resolved | Rejected(error: Failure)

  /** The controller's budgets, with their defaults already applied. */
  datatype Limits = Limits(maxResumes: nat, maxSlowRerolls: nat, maxNoProgress: nat)

  /** What stays fixed while one call of `runSegment` loops. */
  datatype Setup = Setup(limits: Limits, urls: nat, whole: bool)

  /** The loop's local variables. */
  datatype Loop = Loop(
    resumeOffset: nat,
    resumes: nat,
    slowRerolls: nat,
    noProgress: nat,
    committed: bool,
    restarted: bool,
    urlIndex: nat)

  /** What the loop reads from the handler once its promise has settled. */
  datatype Report = Report(outcome: Outcome, offset: nat, target: nat)

  /** How an iteration ends: go round again (perhaps after truncating the file), or leave the loop. */
  datatype Verdict = Continue(next: Loop, truncate: bool) | Done | Throw(error: Failure)

  const HTTP_RANGE_NOT_SATISFIABLE: nat := 416

  function Started(offset: nat): Loop {
    Loop(offset, 0, 0, 0, false, false, 0)
  }

  function Advanced(l: Loop): Loop {
    Loop(l.resumeOffset, l.resumes, 0, 0, false, false, l.urlIndex + 1)
  }

  function AfterAttempt(s: Setup, l: Loop, report: Report, cancelled: bool, reroll: bool): Verdict {
    var resume := if report.offset > l.resumeOffset then report.offset else l.resumeOffset;
    match report.outcome
    case Resolved =>
      if report.target > 0 && report.offset < report.target then
        if l.resumes < s.limits.maxResumes then
          Continue(l.(resumeOffset := resume, resumes := l.resumes + 1), false)
        else
          Continue(Advanced(l.(resumeOffset := resume)), false)
      else
        Done
    case Rejected(error) =>
      if cancelled then Throw(Cancelled)
      else if error == RangeNotSupported then Throw(error)
      else AfterFailure(s, l.(resumeOffset := resume), error, reroll)
  }

  function AfterFailure(s: Setup, l: Loop, error: Failure, reroll: bool): Verdict {
    if s.whole && l.resumeOffset > 0 && error == HttpStatus(HTTP_RANGE_NOT_SATISFIABLE) && !l.restarted then
      Continue(l.(resumeOffset := 0, restarted := true), true)
    else match error
      case ManagedAbort(Skip) => Continue(Advanced(l), false)
      case ManagedAbort(Slow) =>
        if l.slowRerolls < s.limits.maxSlowRerolls && l.resumes < s.limits.maxResumes then
          Continue(l.(slowRerolls := l.slowRerolls + 1, resumes := l.resumes + 1), false)
        else if l.urlIndex + 1 < s.urls then
          Continue(Advanced(l), false)
        else
          Continue(l.(committed := true), false)
      case ManagedAbort(_) =>
        if l.noProgress < s.limits.maxNoProgress then
          Continue(l.(noProgress := l.noProgress + 1), false)
        else
          Continue(Advanced(l), false)
      case _ =>
        if reroll && l.resumes < s.limits.maxResumes then
          Continue(l.(resumes := l.resumes + 1), false)
        else
          Continue(Advanced(l), false)
  }

  /** One turn of the loop: a URL skipped by the circuit breaker, or a dispatched attempt. */
  datatype Turn = SkipUrl | Attempt(report: Report, cancelled: bool, reroll: bool)

  /**
   * The turns the environment can force: the last URL is never skipped, and
   * a committed attempt never reports a slow connection.
   */
  predicate Possible(s: Setup, l: Loop, turn: Turn) {
    match turn
    case SkipUrl => l.urlIndex + 1 < s.urls
    case Attempt(report, _, _) => l.committed ==> report.outcome != Rejected(ManagedAbort(Slow))
  }

  function AfterTurn(s: Setup, l: Loop, turn: Turn): Verdict {
    match turn
    case SkipUrl => Continue(Advanced(l), false)
    case Attempt(report, cancelled, reroll) => AfterAttempt(s, l, report, cancelled, reroll)
  }

  /** The loop is entered with `l` and every one of `turns` is taken, none of them leaving it early. */
  predicate Takes(s: Setup, l: Loop, turns: seq<Turn>)
    decreases |turns|
  {
    turns == [] ||
    (l.urlIndex < s.urls && Possible(s, l, turns[0]) &&
     match AfterTurn(s, l, turns[0])
     case Continue(next, _) => Takes(s, next, turns[1..])
     case _ => |turns| == 1)
  }

  /** Turns the current and later URLs can still absorb without spending a resume or the commit. */
  function UrlSlots(s: Setup): nat {
    s.limits.maxNoProgress + (if s.whole then 2 else 1)
  }

  function Bound(s: Setup): nat {
    s.limits.maxResumes + s.urls * UrlSlots(s) + 1
  }

  predicate LoopValid(s: Setup, l: Loop) {
    && l.resumes <= s.limits.maxResumes
    && l.noProgress <= s.limits.maxNoProgress
    && (l.committed ==> l.urlIndex + 1 == s.urls)
    && (l.restarted ==> s.whole)
    && l.urlIndex <= s.urls
  }

  /** The slots of `n` URLs, added up. */
  function Slots(s: Setup, n: nat): nat {
    if n == 0 then 0 else UrlSlots(s) + Slots(s, n - 1)
  }

  lemma {:induction false} SlotsMultiply(s: Setup, n: nat)
    ensures Slots(s, n) == n * UrlSlots(s)
  {
    if n > 0 {
      SlotsMultiply(s, n - 1);
      assert n * UrlSlots(s) == (n - 1) * UrlSlots(s) + UrlSlots(s);
    }
  }

  /** What is left of every budget; the loop's termination measure. */
  function Budget(s: Setup, l: Loop): int
    requires LoopValid(s, l)
  {
    s.limits.maxResumes - l.resumes +
    if l.urlIndex == s.urls then 0
    else
      Slots(s, s.urls - l.urlIndex)
      - l.noProgress
      - (if l.restarted then 1 else 0)
      + (if l.committed then 0 else 1)
  }

  /** Moving to the next URL gives up at least one slot. */
  lemma AdvanceSpendsBudget(s: Setup, l: Loop)
    requires LoopValid(s, l) && l.urlIndex < s.urls
    ensures LoopValid(s, Advanced(l))
    ensures 0 <= Budget(s, Advanced(l)) < Budget(s, l)
  {
    assert Slots(s, s.urls - l.urlIndex) == UrlSlots(s) + Slots(s, s.urls - l.urlIndex - 1);
  }

  lemma FailureSpendsBudget(s: Setup, l: Loop, error: Failure, reroll: bool)
    requires LoopValid(s, l) && l.urlIndex < s.urls
    requires l.committed ==> error != ManagedAbort(Slow)
    ensures var v := AfterFailure(s, l, error, reroll);
            v.Continue? && LoopValid(s, v.next) && Budget(s, v.next) < Budget(s, l)
  {
    AdvanceSpendsBudget(s, l);
  }

  lemma TurnSpendsBudget(s: Setup, l: Loop, turn: Turn)
    requires LoopValid(s, l) && l.urlIndex < s.urls && Possible(s, l, turn)
    ensures Budget(s, l) > 0
    ensures var v := AfterTurn(s, l, turn);
            v.Continue? ==> LoopValid(s, v.next) && Budget(s, v.next) < Budget(s, l)
  {
    AdvanceSpendsBudget(s, l);
    if turn.Attempt? {
      var resume := if turn.report.offset > l.resumeOffset then turn.report.offset else l.resumeOffset;
      var l' := l.(resumeOffset := resume);
      AdvanceSpendsBudget(s, l');
      if turn.report.outcome.Rejected? {
        FailureSpendsBudget(s, l', turn.report.outcome.error, turn.reroll);
      }
    }
  }

  /**
   * Termination: however the network behaves, the loop takes at most
   * maxResumes + |urls| * (maxNoProgress + 2) + 1 turns (one fewer per URL for a
   * byte-range segment, which never restarts from zero).
   */
  lemma {:induction false} LoopTerminates(s: Setup, l: Loop, turns: seq<Turn>)
    requires LoopValid(s, l) && Takes(s, l, turns)
    ensures |turns| <= Budget(s, l)
    decreases |turns|
  {
    if turns != [] {
      TurnSpendsBudget(s, l, turns[0]);
      match AfterTurn(s, l, turns[0])
      case Continue(next, _) => LoopTerminates(s, next, turns[1..]);
      case _ =>
    }
  }

  lemma AttemptsBounded(s: Setup, offset: nat, turns: seq<Turn>)
    requires Takes(s, Started(offset), turns)
    ensures |turns| <= Bound(s)
    ensures Bound(s) <= s.limits.maxResumes + s.urls * (s.limits.maxNoProgress + 2) + 1
  {
    LoopTerminates(s, Started(offset), turns);
    SlotsMultiply(s, s.urls);
    if !s.whole {
      assert s.urls * (s.limits.maxNoProgress + 2) == s.urls * (s.limits.maxNoProgress + 1) + s.urls;
    }
  }
}
