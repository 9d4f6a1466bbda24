/**
 * How many turns the retry loop gives its URLs: what each kind of failure
 * costs before the loop goes on to the next URL, counted over whole runs.
 */
module RetryCounts {
  import opened Basics
  import opened SegmentLoop

  // What a turn is, whatever the loop does about it.

  /** The response is complete, as far as its length is known. */
  predicate Complete(turn: Turn) {
    && turn.Attempt? && turn.report.outcome.Resolved?
    && (turn.report.target == 0 || turn.report.target <= turn.report.offset)
  }

  /** The response ended well but early. */
  predicate Short(turn: Turn) {
    turn.Attempt? && turn.report.outcome.Resolved? && turn.report.offset < turn.report.target
  }

  predicate Cancels(turn: Turn) {
    turn.Attempt? && turn.report.outcome.Rejected? && turn.cancelled
  }

  predicate FailsWith(turn: Turn, error: Failure) {
    turn.Attempt? && turn.report.outcome == Rejected(error) && !turn.cancelled
  }

  /** An HTTP error or a broken connection; a 416 counts where the stream cannot be restarted. */
  predicate RequestFails(s: Setup, turn: Turn) {
    || FailsWith(turn, Transport)
    || (turn.Attempt? && turn.report.outcome.Rejected? && turn.report.outcome.error.HttpStatus? && !turn.cancelled
        && (turn.report.outcome.error.code == 416 ==> !s.whole))
  }

  predicate Stalls(turn: Turn) {
    FailsWith(turn, ManagedAbort(Stall)) || FailsWith(turn, ManagedAbort(Ttfb))
  }

  predicate Slows(turn: Turn) {
    FailsWith(turn, ManagedAbort(Slow))
  }

  predicate Skips(turn: Turn) {
    turn.SkipUrl? || FailsWith(turn, ManagedAbort(Skip))
  }

  /** The loop goes through `turns` from `l` to `last`, none of them leaving it. */
  predicate GoesOn(s: Setup, l: Loop, turns: seq<Turn>, last: Loop)
    decreases |turns|
  {
    if turns == [] then last == l
    else
      && l.urlIndex < s.urls && Possible(s, l, turns[0])
      && var v := AfterTurn(s, l, turns[0]);
         v.Continue? && GoesOn(s, v.next, turns[1..], last)
  }

  lemma {:induction false} GoesOnThrough(s: Setup, l: Loop, turns: seq<Turn>, mid: Loop, turn: Turn)
    requires GoesOn(s, l, turns, mid) && mid.urlIndex < s.urls && Possible(s, mid, turn)
    requires AfterTurn(s, mid, turn).Continue?
    ensures GoesOn(s, l, turns + [turn], AfterTurn(s, mid, turn).next)
    decreases |turns|
  {
    if turns == [] {
      assert turns + [turn] == [turn];
    } else {
      assert (turns + [turn])[1..] == turns[1..] + [turn];
      GoesOnThrough(s, AfterTurn(s, l, turns[0]).next, turns[1..], mid, turn);
    }
  }

  function Attempts(turns: seq<Turn>): nat {
    if turns == [] then 0
    else Attempts(turns[..|turns| - 1]) + if turns[|turns| - 1].Attempt? then 1 else 0
  }

  lemma AttemptsAppend(turns: seq<Turn>, turn: Turn)
    ensures Attempts(turns + [turn]) == Attempts(turns) + if turn.Attempt? then 1 else 0
  {
    assert (turns + [turn])[..|turns|] == turns;
  }

  // Leaving the loop.

  /** The loop is left by completion, by cancellation and by a refused range, and by nothing else. */
  lemma LeavesIff(s: Setup, l: Loop, turn: Turn)
    ensures AfterTurn(s, l, turn).Done? <==> Complete(turn)
    ensures AfterTurn(s, l, turn).Throw? <==> Cancels(turn) || FailsWith(turn, RangeNotSupported)
    ensures AfterTurn(s, l, turn) == Throw(Cancelled) <==> Cancels(turn)
  {
  }

  // Short responses and request failures.

  /** The turn asks for another request to the same URL. */
  predicate Wants(turn: Turn) {
    Short(turn) || (turn.Attempt? && turn.reroll)
  }

  function Wanting(turns: seq<Turn>): nat
    decreases |turns|
  {
    if turns == [] then 0 else (if Wants(turns[0]) then 1 else 0) + Wanting(turns[1..])
  }

  predicate AllRequestFailures(s: Setup, turns: seq<Turn>) {
    forall turn <- turns :: Short(turn) || RequestFails(s, turn)
  }

  lemma ResumeStep(s: Setup, l: Loop, turn: Turn)
    requires l.resumes <= s.limits.maxResumes && (Short(turn) || RequestFails(s, turn))
    ensures var v := AfterTurn(s, l, turn);
            && v.Continue?
            && v.next.resumes == Min(s.limits.maxResumes, l.resumes + if Wants(turn) then 1 else 0)
            && v.next.resumes + v.next.urlIndex == l.resumes + l.urlIndex + 1
  {
  }

  lemma {:induction false} ResumesFrom(s: Setup, l: Loop, turns: seq<Turn>, last: Loop)
    requires l.resumes <= s.limits.maxResumes
    requires AllRequestFailures(s, turns) && GoesOn(s, l, turns, last)
    ensures last.resumes == Min(s.limits.maxResumes, l.resumes + Wanting(turns))
    ensures |turns| == last.resumes - l.resumes + last.urlIndex - l.urlIndex
    decreases |turns|
  {
    hide AfterTurn, Short, RequestFails, Wants;
    if turns != [] {
      assert Short(turns[0]) || RequestFails(s, turns[0]);
      ResumeStep(s, l, turns[0]);
      ResumesFrom(s, AfterTurn(s, l, turns[0]).next, turns[1..], last);
    }
  }

  /**
   * Short responses and failed requests: each that asks for it is repeated, up
   * to `maxResumes` over all URLs, and every other one gives its URL up.
   */
  lemma ResumesThenUrls(s: Setup, offset: nat, turns: seq<Turn>, last: Loop)
    requires AllRequestFailures(s, turns) && GoesOn(s, Started(offset), turns, last)
    ensures last.urlIndex == |turns| - Min(s.limits.maxResumes, Wanting(turns))
  {
    ResumesFrom(s, Started(offset), turns, last);
  }

  lemma {:induction false} AllWanting(turns: seq<Turn>)
    ensures (forall turn <- turns :: Wants(turn)) ==> Wanting(turns) == |turns|
    ensures (forall turn <- turns :: !Wants(turn)) ==> Wanting(turns) == 0
    decreases |turns|
  {
    if turns != [] {
      AllWanting(turns[1..]);
    }
  }

  /** Out of URLs on such turns: all resumes were spent if each asked for one, and none was if none did. */
  lemma OutOfUrlsOnFailures(s: Setup, offset: nat, turns: seq<Turn>, last: Loop)
    requires AllRequestFailures(s, turns) && GoesOn(s, Started(offset), turns, last)
    requires s.urls > 0 && last.urlIndex == s.urls
    ensures (forall turn <- turns :: Wants(turn)) ==> |turns| == s.limits.maxResumes + s.urls
    ensures (forall turn <- turns :: !Wants(turn)) ==> |turns| == s.urls
  {
    ResumesThenUrls(s, offset, turns, last);
    AllWanting(turns);
  }

  // Connections without progress.

  lemma {:induction false} StallsFrom(s: Setup, l: Loop, turns: seq<Turn>, last: Loop)
    requires l.noProgress <= s.limits.maxNoProgress
    requires (forall turn <- turns :: Stalls(turn)) && GoesOn(s, l, turns, last)
    ensures last.noProgress <= s.limits.maxNoProgress && last.resumes == l.resumes
    ensures last.urlIndex >= l.urlIndex
    ensures |turns| == Rounds(s.limits.maxNoProgress + 1, last.urlIndex - l.urlIndex) + last.noProgress - l.noProgress
    ensures l.urlIndex < last.urlIndex == s.urls ==> last.noProgress == 0
    decreases |turns|
  {
    if turns != [] {
      assert Stalls(turns[0]);
      StallsFrom(s, AfterTurn(s, l, turns[0]).next, turns[1..], last);
    }
  }

  /** `n` times `k`, added up. */
  function Rounds(k: nat, n: nat): nat {
    if n == 0 then 0 else k + Rounds(k, n - 1)
  }

  lemma {:induction false} RoundsMultiply(k: nat, n: nat)
    ensures Rounds(k, n) == n * k
  {
    if n > 0 {
      RoundsMultiply(k, n - 1);
      assert n * k == (n - 1) * k + k;
    }
  }

  /** Stalled or silent connections: each URL is asked `maxNoProgress + 1` times, and no resume is spent. */
  lemma OutOfUrlsOnStalls(s: Setup, offset: nat, turns: seq<Turn>, last: Loop)
    requires (forall turn <- turns :: Stalls(turn)) && GoesOn(s, Started(offset), turns, last)
    requires last.urlIndex == s.urls
    ensures |turns| == s.urls * (s.limits.maxNoProgress + 1) && last.resumes == 0
  {
    StallsFrom(s, Started(offset), turns, last);
    RoundsMultiply(s.limits.maxNoProgress + 1, s.urls);
  }

  // Slow connections.

  /** Slow turns so far repeat their URL within its own and the overall allowance; a commit takes one more. */
  predicate SlowOk(s: Setup, l: Loop) {
    && l.slowRerolls <= s.limits.maxSlowRerolls && l.urlIndex < s.urls
    && l.resumes == Min(s.limits.maxResumes, Rounds(s.limits.maxSlowRerolls, l.urlIndex) + l.slowRerolls)
    && (l.committed ==>
          && l.urlIndex + 1 == s.urls
          && l.resumes == Min(s.limits.maxResumes, Rounds(s.limits.maxSlowRerolls, s.urls)))
  }

  function SlowTurns(l: Loop): nat {
    l.resumes + l.urlIndex + if l.committed then 1 else 0
  }

  lemma SlowStep(s: Setup, l: Loop, turn: Turn)
    requires SlowOk(s, l) && Slows(turn) && !l.committed
    ensures var v := AfterTurn(s, l, turn);
            v.Continue? && SlowOk(s, v.next) && SlowTurns(v.next) == SlowTurns(l) + 1
  {
    assert Rounds(s.limits.maxSlowRerolls, l.urlIndex + 1)
        == s.limits.maxSlowRerolls + Rounds(s.limits.maxSlowRerolls, l.urlIndex);
  }

  lemma {:induction false} SlowsFrom(s: Setup, l: Loop, turns: seq<Turn>, last: Loop)
    requires SlowOk(s, l) && (forall turn <- turns :: Slows(turn)) && GoesOn(s, l, turns, last)
    ensures SlowOk(s, last) && SlowTurns(last) == SlowTurns(l) + |turns|
    decreases |turns|
  {
    if turns != [] {
      assert Slows(turns[0]);
      SlowStep(s, l, turns[0]);
      SlowsFrom(s, AfterTurn(s, l, turns[0]).next, turns[1..], last);
    }
  }

  /**
   * Slow connections never use up the URLs: each URL is repeated within
   * `maxSlowRerolls` and within `maxResumes` over all, and then the last one is
   * committed to, after which no connection is left for being slow.
   */
  lemma SlownessCommits(s: Setup, offset: nat, turns: seq<Turn>, last: Loop)
    requires s.urls > 0
    requires (forall turn <- turns :: Slows(turn)) && GoesOn(s, Started(offset), turns, last)
    ensures last.urlIndex < s.urls
    ensures var all := s.urls + Min(s.limits.maxResumes, s.urls * s.limits.maxSlowRerolls);
            |turns| <= all && (last.committed <==> |turns| == all)
  {
    hide GoesOn, Slows;
    SlowsFrom(s, Started(offset), turns, last);
    RoundsMultiply(s.limits.maxSlowRerolls, s.urls);
    SlowTurnsBound(s, last);
  }

  lemma SlowTurnsBound(s: Setup, l: Loop)
    requires s.urls > 0 && SlowOk(s, l)
    ensures var all := s.urls + Min(s.limits.maxResumes, Rounds(s.limits.maxSlowRerolls, s.urls));
            SlowTurns(l) <= all && (l.committed <==> SlowTurns(l) == all)
  {
    assert Rounds(s.limits.maxSlowRerolls, s.urls)
        == s.limits.maxSlowRerolls + Rounds(s.limits.maxSlowRerolls, s.urls - 1);
    RoundsGrow(s.limits.maxSlowRerolls, l.urlIndex, s.urls - 1);
  }

  lemma {:induction false} RoundsGrow(k: nat, a: nat, b: nat)
    requires a <= b
    ensures Rounds(k, a) <= Rounds(k, b)
  {
    if a < b {
      RoundsGrow(k, a, b - 1);
    }
  }

  // Refused offsets and skipped sources.

  /** The source answers 416 to a request that does not start at zero, and no other request is wanted. */
  predicate RefusesOffset(turn: Turn) {
    FailsWith(turn, HttpStatus(416)) && turn.report.offset > 0 && !turn.reroll
  }

  lemma {:induction false} RestartsFrom(s: Setup, l: Loop, turns: seq<Turn>, last: Loop)
    requires s.whole && (forall turn <- turns :: RefusesOffset(turn)) && GoesOn(s, l, turns, last)
    ensures |turns| == 2 * (last.urlIndex - l.urlIndex)
                       + (if last.restarted then 1 else 0) - if l.restarted then 1 else 0
    decreases |turns|
  {
    if turns != [] {
      assert RefusesOffset(turns[0]);
      RestartsFrom(s, AfterTurn(s, l, turns[0]).next, turns[1..], last);
    }
  }

  /** A source that answers 416 is asked once more, from zero on the truncated file, and then given up. */
  lemma RestartsOncePerUrl(s: Setup, offset: nat, turns: seq<Turn>, last: Loop)
    requires s.whole && (forall turn <- turns :: RefusesOffset(turn)) && GoesOn(s, Started(offset), turns, last)
    ensures last.urlIndex == |turns| / 2 && (last.restarted <==> |turns| % 2 == 1)
  {
    RestartsFrom(s, Started(offset), turns, last);
  }

  /** The file is truncated exactly when a whole-file stream goes back to zero after a 416. */
  lemma TruncatesIff(s: Setup, l: Loop, turn: Turn)
    ensures var v := AfterTurn(s, l, turn);
            v.Continue? && v.truncate <==>
              && s.whole && !l.restarted && FailsWith(turn, HttpStatus(416))
              && (l.resumeOffset > 0 || turn.report.offset > 0)
    ensures var v := AfterTurn(s, l, turn);
            v.Continue? ==>
              v.next.resumeOffset == if v.truncate then 0
                                     else if turn.Attempt? then Max(l.resumeOffset, turn.report.offset)
                                     else l.resumeOffset
  {
  }

  lemma {:induction false} SkipsFrom(s: Setup, l: Loop, turns: seq<Turn>, last: Loop)
    requires (forall turn <- turns :: Skips(turn)) && GoesOn(s, l, turns, last)
    ensures |turns| == last.urlIndex - l.urlIndex && last.resumes == l.resumes
    decreases |turns|
  {
    if turns != [] {
      assert Skips(turns[0]);
      SkipsFrom(s, AfterTurn(s, l, turns[0]).next, turns[1..], last);
    }
  }
}
