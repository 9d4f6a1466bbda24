/**
 * The state of a `ConcurrencyDispatcher` under a fixed limit, and the steps it
 * takes between two points at which foreign code runs.  Requests are numbered
 * in the order `dispatch` accepts them.
 */
module DispatcherState {

  datatype State = State(
    limit: nat,
    active: nat,
    queue: seq<nat>,
    closed: bool,
    idleResolvers: nat,     // promises of `close` waiting for the dispatcher to become idle
    closeTasks: nat,        // continuations of `close` that are due but have not run
    underlyingClosed: nat,  // how often the inner dispatcher was closed
    listening: set<nat>,    // queued requests with an abort listener
    wrapped: set<nat>,      // requests whose handler has been wrapped
    released: set<nat>,     // requests whose slot was given back
    accepted: nat,          // how many requests `dispatch` accepted
    admitted: seq<nat>,     // requests that got a slot, in order
    aborted: set<nat>,      // requests aborted before they got one
    live: set<nat>,         // requests holding a slot
    signalled: set<nat>,    // requests queued with an abort signal
    passing: set<nat>,      // requests with a slot whose `#dispatch` has not reached the inner dispatcher
    handed: seq<nat>,       // requests given to the inner dispatcher, in order
    thrown: set<nat>,       // requests the inner dispatcher threw for
    ended: multiset<nat>)   // terminal callbacks of the requests' own handlers

  predicate Increasing(s: seq<nat>) {
    forall i, j :: 0 <= i < j < |s| ==> s[i] < s[j]
  }

  /** Every accepted request is admitted, on its way (`pending`), queued or aborted, and only one of these. */
  ghost predicate Placed(s: State, pending: seq<nat>) {
    && (forall r: nat :: r < s.accepted <==> r in s.admitted || r in pending || r in s.queue || r in s.aborted)
    && (forall r :: r in s.aborted ==> r !in s.admitted && r !in pending && r !in s.queue)
  }

  /** Admission is first come, first served among the requests not aborted. */
  ghost predicate Ordered(s: State, pending: seq<nat>) {
    Increasing(s.admitted + pending + s.queue)
  }

  /** A slot is held from admission to its one release. */
  ghost predicate Slots(s: State) {
    && (forall r :: r in s.admitted <==> r in s.live || r in s.released)
    && s.live !! s.released
    && s.active == |s.live|
    && s.wrapped <= s.live + s.released
  }

  predicate NoRepeats(s: seq<nat>) {
    forall i, j :: 0 <= i < j < |s| ==> s[i] != s[j]
  }

  /**
   * An admitted request reaches the inner dispatcher once, with its handler
   * wrapped, and keeps its slot until that handler has been called back or the
   * inner dispatcher has thrown; an aborted one is told so once.
   */
  ghost predicate Handovers(s: State) {
    && NoRepeats(s.handed)
    && (forall r :: r in s.admitted <==> r in s.handed || r in s.passing)
    && (forall r :: r in s.handed ==> r in s.wrapped && r !in s.passing)
    && (forall r :: r in s.released ==> r in s.handed && (r in s.ended || r in s.thrown))
    && (forall r :: r in s.thrown ==> r in s.handed)
    && (forall r :: r in s.ended ==> r in s.handed || r in s.aborted)
    && (forall r :: r in s.aborted ==> s.ended[r] == 1)
  }

  /** Exactly the requests that wait with a signal have an abort listener. */
  ghost predicate Listening(s: State, pending: seq<nat>) {
    && (forall r :: r in s.listening ==> r in pending || r in s.queue)
    && (forall r :: r in s.queue ==> (r in s.listening <==> r in s.signalled))
    && (forall r :: r in s.signalled ==> r < s.accepted)
  }

  ghost predicate Books(s: State, pending: seq<nat>) {
    && Placed(s, pending)
    && Ordered(s, pending)
    && Slots(s)
    && Handovers(s)
    && Listening(s, pending)
  }

  predicate Idle(s: State) {
    s.active == 0 && s.queue == []
  }

  /** The inner dispatcher is closed at most once, after `close`, with nothing active or queued. */
  predicate CloseOk(s: State) {
    && s.idleResolvers + s.closeTasks + s.underlyingClosed == (if s.closed then 1 else 0)
    && (s.closeTasks + s.underlyingClosed > 0 ==> Idle(s))
  }

  ghost predicate Resting(s: State) {
    && s.limit >= 1
    && Books(s, [])
    && CloseOk(s)
    && s.active <= s.limit
    && (s.queue != [] ==> s.active == s.limit)
  }

  /** What holds whenever foreign code runs. */
  ghost predicate Valid(s: State) {
    Resting(s) && (Idle(s) ==> s.idleResolvers == 0)
  }

  /** One slot is free, for `pending` or for the head of the queue. */
  ghost predicate HasRoom(s: State, pending: seq<nat>) {
    && s.limit >= 1
    && Books(s, pending)
    && s.idleResolvers == (if s.closed then 1 else 0) && s.closeTasks == s.underlyingClosed == 0
    && s.active < s.limit
    && (s.queue != [] ==> s.active == s.limit - 1)
  }

  /** What no later step undoes. */
  ghost predicate Extends(s: State, s': State) {
    && s'.limit == s.limit
    && s.accepted <= s'.accepted
    && s.admitted <= s'.admitted
    && s.aborted <= s'.aborted
    && s.released <= s'.released
    && s.wrapped <= s'.wrapped
    && s.signalled <= s'.signalled
    && s.handed <= s'.handed
    && s.thrown <= s'.thrown
    && s.ended <= s'.ended
    && (s.closed ==> s'.closed && s'.accepted == s.accepted)
  }

  lemma ExtendsTransitive(a: State, b: State, c: State)
    requires Extends(a, b) && Extends(b, c)
    ensures Extends(a, c)
  {
  }

  lemma ValidRests(s: State)
    requires Valid(s)
    ensures Resting(s) && s.active <= s.limit
  {
  }

  lemma ExtendsItself(s: State)
    ensures Extends(s, s)
  {
  }

  lemma Stays(s: State, s': State, r: nat)
    requires Extends(s, s')
    ensures r in s.admitted ==> r in s'.admitted
    ensures r in s.handed ==> r in s'.handed
    ensures r in s.aborted ==> r in s'.aborted
    ensures r in s.ended ==> r in s'.ended
    ensures r in s.released ==> r in s'.released
    ensures s.accepted <= s'.accepted
  {
  }

  /** A request that was handed over and has not released its slot holds it. */
  lemma HandedIsLive(s: State, r: nat)
    requires Valid(s) && r in s.handed && r !in s.released
    ensures r in s.live
  {
  }

  lemma PassingIsAdmitted(s: State, r: nat)
    requires Valid(s) && r in s.passing
    ensures r in s.admitted
  {
  }

  // The steps.

  function Initial(limit: nat): State {
    State(limit, 0, [], false, 0, 0, 0, {}, {}, {}, 0, [], {}, {}, {}, {}, [], {}, multiset{})
  }

  function Accept(s: State): State {
    s.(accepted := s.accepted + 1)
  }

  /** The request takes a slot. */
  function Admit(s: State, r: nat): State {
    s.(listening := s.listening - {r},
       active := s.active + 1,
       admitted := s.admitted + [r],
       live := s.live + {r},
       passing := s.passing + {r})
  }

  /** The request reaches the inner dispatcher. */
  function Hand(s: State, r: nat): State {
    s.(handed := s.handed + [r], passing := s.passing - {r})
  }

  /** A terminal callback of the request's own handler runs. */
  function End(s: State, r: nat): State {
    s.(ended := s.ended + multiset{r})
  }

  /** The inner dispatcher throws. */
  function ThrowFor(s: State, r: nat): State {
    s.(thrown := s.thrown + {r})
  }

  function Shift(s: State): State
    requires s.queue != []
  {
    s.(queue := s.queue[1..])
  }

  function Enqueue(s: State, hasSignal: bool): State {
    s.(accepted := s.accepted + 1,
       listening := if hasSignal then s.listening + {s.accepted} else s.listening,
       signalled := if hasSignal then s.signalled + {s.accepted} else s.signalled,
       queue := s.queue + [s.accepted])
  }

  function Refuse(s: State): State {
    s.(accepted := s.accepted + 1, aborted := s.aborted + {s.accepted}, ended := s.ended + multiset{s.accepted})
  }

  function Abort(s: State, k: nat): State
    requires k < |s.queue|
  {
    s.(queue := s.queue[..k] + s.queue[k + 1..],
       aborted := s.aborted + {s.queue[k]},
       ended := s.ended + multiset{s.queue[k]},
       listening := s.listening - {s.queue[k]})
  }

  function Free(s: State, r: nat): State
    requires s.active > 0
  {
    s.(released := s.released + {r}, live := s.live - {r}, active := s.active - 1)
  }

  function ResolveIdle(s: State): State {
    if Idle(s) then s.(idleResolvers := 0, closeTasks := s.closeTasks + s.idleResolvers) else s
  }

  function Close(s: State): State {
    if s.closed then s
    else if Idle(s) then s.(closed := true, closeTasks := s.closeTasks + 1)
    else s.(closed := true, idleResolvers := s.idleResolvers + 1)
  }

  function CloseUnderlying(s: State): State
    requires s.closeTasks > 0
  {
    s.(closeTasks := s.closeTasks - 1, underlyingClosed := s.underlyingClosed + 1)
  }

  // What each step keeps.

  lemma InitialOk(limit: nat)
    requires limit >= 1
    ensures Valid(Initial(limit))
  {
  }

  lemma AcceptOrdered(s: State)
    requires Placed(s, []) && Ordered(s, []) && s.queue == []
    ensures Ordered(Accept(s), [s.accepted])
  {
    assert s.admitted + [] + s.queue == s.admitted;
    var all := s.admitted + [s.accepted];
    assert forall i :: 0 <= i < |s.admitted| ==> all[i] in s.admitted;
    assert Accept(s).admitted + [s.accepted] + Accept(s).queue == all;
  }

  /** A request that finds a free slot finds an empty queue too, so it overtakes nobody. */
  lemma AcceptOk(s: State)
    requires Valid(s) && !s.closed && s.active < s.limit
    ensures HasRoom(Accept(s), [s.accepted]) && Extends(s, Accept(s))
  {
    AcceptOrdered(s);
    assert Placed(Accept(s), [s.accepted]);
  }

  lemma PendingIsNew(s: State, r: nat)
    requires Ordered(s, [r])
    ensures r !in s.admitted
  {
    var all := s.admitted + [r] + s.queue;
    assert all[|s.admitted|] == r;
    assert forall i :: 0 <= i < |s.admitted| ==> all[i] == s.admitted[i];
  }

  lemma AdmitBooks(s: State, r: nat)
    requires Books(s, [r])
    ensures Books(Admit(s, r), [])
  {
    hide Placed, Ordered, Slots, Handovers, Listening;
    PendingIsNew(s, r);
    PendingIsApart(s, r);
    AdmitOrdered(s, r);
    AdmitPlaced(s, r);
    AdmitSlots(s, r);
    AdmitHandovers(s, r);
    AdmitListening(s, r);
  }

  lemma PendingIsApart(s: State, r: nat)
    requires Placed(s, [r]) && Slots(s) && Ordered(s, [r])
    ensures r !in s.aborted && r !in s.live && r !in s.released && r !in s.queue
  {
    PendingIsNew(s, r);
    var all := s.admitted + [r] + s.queue;
    assert r in [r] && all[|s.admitted|] == r;
    forall i | 0 <= i < |s.queue| ensures s.queue[i] != r {
      assert all[|s.admitted| + 1 + i] == s.queue[i];
    }
  }

  lemma AdmitOrdered(s: State, r: nat)
    requires Ordered(s, [r])
    ensures Ordered(Admit(s, r), [])
  {
    var s' := Admit(s, r);
    assert s'.admitted + [] + s'.queue == s.admitted + [r] + s.queue;
  }

  lemma AdmitHandovers(s: State, r: nat)
    requires Handovers(s) && r !in s.admitted
    ensures Handovers(Admit(s, r))
  {
  }

  lemma AdmitListening(s: State, r: nat)
    requires Listening(s, [r]) && r !in s.queue
    ensures Listening(Admit(s, r), [])
  {
  }

  lemma AdmitPlaced(s: State, r: nat)
    requires Placed(s, [r])
    ensures Placed(Admit(s, r), [])
  {
  }

  lemma AdmitSlots(s: State, r: nat)
    requires Slots(s) && r !in s.live && r !in s.released
    ensures Slots(Admit(s, r))
  {
  }

  lemma PendingIsNotPassing(s: State, r: nat)
    requires HasRoom(s, [r])
    ensures r !in s.passing
  {
    PendingIsNew(s, r);
  }

  lemma AdmitOk(s: State, r: nat)
    requires HasRoom(s, [r])
    ensures Valid(Admit(s, r)) && Extends(s, Admit(s, r))
  {
    AdmitBooks(s, r);
  }

  lemma ShiftBooks(s: State)
    requires Books(s, []) && s.queue != []
    ensures Books(Shift(s), [s.queue[0]])
  {
    hide Placed, Ordered, Slots, Handovers, Listening;
    var r := s.queue[0];
    assert s.queue == [r] + Shift(s).queue;
    assert forall x :: x in s.queue <==> x in [r] || x in Shift(s).queue;
    ShiftOrdered(s);
    ShiftPlaced(s);
    ShiftListening(s);
    SlotsAlike(s, Shift(s));
  }

  lemma ShiftOrdered(s: State)
    requires Ordered(s, []) && s.queue != []
    ensures Ordered(Shift(s), [s.queue[0]])
  {
    assert s.admitted + [] + s.queue == s.admitted + [s.queue[0]] + Shift(s).queue;
  }

  lemma ShiftPlaced(s: State)
    requires Placed(s, []) && s.queue != []
    requires forall x :: x in s.queue <==> x in [s.queue[0]] || x in Shift(s).queue
    ensures Placed(Shift(s), [s.queue[0]])
  {
  }

  lemma ShiftListening(s: State)
    requires Listening(s, []) && s.queue != []
    requires forall x :: x in s.queue <==> x in [s.queue[0]] || x in Shift(s).queue
    ensures Listening(Shift(s), [s.queue[0]])
  {
  }

  /** Slots and handovers do not depend on who waits. */
  lemma SlotsAlike(s: State, s': State)
    requires Slots(s) && Handovers(s)
    requires s'.active == s.active && s'.admitted == s.admitted && s'.live == s.live && s'.released == s.released
    requires s'.wrapped == s.wrapped && s'.passing == s.passing && s'.handed == s.handed
    requires s'.thrown == s.thrown && s'.ended == s.ended && s'.aborted == s.aborted
    ensures Slots(s') && Handovers(s')
  {
  }

  /** Closing touches no account. */
  lemma ClosingKeepsBooks(s: State, s': State)
    requires Books(s, [])
    requires s' == s.(closed := s'.closed, idleResolvers := s'.idleResolvers, closeTasks := s'.closeTasks,
                      underlyingClosed := s'.underlyingClosed)
    ensures Books(s', [])
  {
    hide Slots, Handovers;
    SlotsAlike(s, s');
  }

  lemma ShiftOk(s: State)
    requires HasRoom(s, []) && s.queue != []
    ensures HasRoom(Shift(s), [s.queue[0]]) && Extends(s, Shift(s))
  {
    ShiftBooks(s);
  }

  lemma EnqueueOk(s: State, hasSignal: bool)
    requires Valid(s) && !s.closed && s.active == s.limit
    ensures Valid(Enqueue(s, hasSignal)) && Extends(s, Enqueue(s, hasSignal))
  {
    hide Placed, Ordered, Slots, Handovers, Listening;
    EnqueueOrdered(s, hasSignal);
    EnqueuePlaced(s, hasSignal);
    EnqueueListening(s, hasSignal);
    SlotsAlike(s, Enqueue(s, hasSignal));
  }

  lemma EnqueueOrdered(s: State, hasSignal: bool)
    requires Placed(s, []) && Ordered(s, [])
    ensures Ordered(Enqueue(s, hasSignal), [])
  {
    var s' := Enqueue(s, hasSignal);
    var all := s.admitted + [] + s.queue;
    assert s'.admitted + [] + s'.queue == all + [s.accepted];
    assert forall i :: 0 <= i < |all| ==> all[i] in s.admitted || all[i] in s.queue;
  }

  lemma EnqueuePlaced(s: State, hasSignal: bool)
    requires Placed(s, [])
    ensures Placed(Enqueue(s, hasSignal), [])
  {
    assert s.accepted in Enqueue(s, hasSignal).queue;
  }

  lemma EnqueueListening(s: State, hasSignal: bool)
    requires Placed(s, []) && Listening(s, [])
    ensures Listening(Enqueue(s, hasSignal), [])
  {
    assert s.accepted in Enqueue(s, hasSignal).queue;
  }

  lemma NewIsNotEnded(s: State)
    requires Placed(s, []) && Handovers(s)
    ensures s.ended[s.accepted] == 0 && s.accepted !in s.aborted
  {
  }

  lemma RefuseHandovers(s: State)
    requires Handovers(s) && Slots(s) && s.ended[s.accepted] == 0 && s.accepted !in s.aborted
    ensures Handovers(Refuse(s)) && Slots(Refuse(s))
  {
  }

  lemma RefuseWaiting(s: State)
    requires Placed(s, []) && Ordered(s, []) && Listening(s, [])
    ensures Placed(Refuse(s), []) && Ordered(Refuse(s), []) && Listening(Refuse(s), [])
  {
  }

  lemma RefuseOk(s: State)
    requires Valid(s) && !s.closed
    ensures Valid(Refuse(s)) && Extends(s, Refuse(s))
  {
    hide Slots, Handovers, Placed, Ordered, Listening;
    NewIsNotEnded(s);
    RefuseHandovers(s);
    RefuseWaiting(s);
  }

  lemma IncreasingWithout(s: seq<nat>, k: nat)
    requires k < |s| && Increasing(s)
    ensures Increasing(s[..k] + s[k + 1..])
  {
  }

  lemma WaitingIsNotEnded(s: State, r: nat)
    requires Placed(s, []) && Ordered(s, []) && Handovers(s) && r in s.queue
    ensures s.ended[r] == 0 && r !in s.aborted
  {
    OrderedApart(s);
  }

  lemma AbortOk(s: State, k: nat)
    requires Valid(s) && k < |s.queue|
    ensures Valid(Abort(s, k)) && Extends(s, Abort(s, k))
  {
    hide Placed, Ordered, Slots, Handovers, Listening;
    AbortOrdered(s, k);
    QueueWithout(s, k);
    WaitingIsNotEnded(s, s.queue[k]);
    AbortPlaced(s, k);
    AbortHandovers(s, k);
    AbortListening(s, k);
    AbortSlots(s, k);
  }

  lemma AbortEnds(s: State, k: nat)
    requires k < |s.queue|
    ensures s.queue[k] in Abort(s, k).aborted && s.queue[k] in Abort(s, k).ended
  {
  }

  lemma AbortOrdered(s: State, k: nat)
    requires Ordered(s, []) && k < |s.queue|
    ensures Ordered(Abort(s, k), [])
  {
    var all := s.admitted + [] + s.queue;
    var at := |s.admitted| + k;
    IncreasingWithout(all, at);
    assert Abort(s, k).admitted + [] + Abort(s, k).queue == all[..at] + all[at + 1..];
  }

  lemma AbortPlaced(s: State, k: nat)
    requires Placed(s, []) && k < |s.queue|
    requires s.queue[k] !in s.admitted && s.queue[k] !in Abort(s, k).queue
    requires forall r :: r in s.queue <==> r == s.queue[k] || r in Abort(s, k).queue
    ensures Placed(Abort(s, k), [])
  {
  }

  lemma AbortHandovers(s: State, k: nat)
    requires Handovers(s) && k < |s.queue| && s.ended[s.queue[k]] == 0 && s.queue[k] !in s.aborted
    ensures Handovers(Abort(s, k))
  {
  }

  lemma AbortListening(s: State, k: nat)
    requires Listening(s, []) && k < |s.queue|
    requires forall r :: r in s.queue <==> r == s.queue[k] || r in Abort(s, k).queue
    requires s.queue[k] !in Abort(s, k).queue
    ensures Listening(Abort(s, k), [])
  {
  }

  lemma AbortSlots(s: State, k: nat)
    requires Slots(s) && k < |s.queue|
    ensures Slots(Abort(s, k))
  {
  }

  lemma QueueWithout(s: State, k: nat)
    requires Ordered(s, []) && k < |s.queue|
    ensures s.queue[k] !in s.admitted && s.queue[k] !in Abort(s, k).queue
    ensures forall r :: r in s.queue <==> r == s.queue[k] || r in Abort(s, k).queue
  {
    hide Ordered;
    OrderedApart(s);
    WithoutOne(s.queue, k);
  }

  lemma WithoutOne(q: seq<nat>, k: nat)
    requires Increasing(q) && k < |q|
    ensures q[k] !in q[..k] + q[k + 1..]
    ensures forall r :: r in q <==> r == q[k] || r in q[..k] + q[k + 1..]
  {
    assert q == q[..k] + [q[k]] + q[k + 1..];
  }

  lemma FreeOk(s: State, r: nat)
    requires Valid(s) && r in s.live && r in s.handed && (r in s.ended || r in s.thrown)
    ensures s.active > 0 && HasRoom(Free(s, r), []) && Extends(s, Free(s, r))
  {
    hide Placed, Ordered, Listening, Slots, Handovers;
    FreeSlots(s, r);
    WaitingAlike(s, Free(s, r));
    FreeHandovers(s, r);
  }

  lemma FreeSlots(s: State, r: nat)
    requires Slots(s) && r in s.live
    ensures s.active > 0 && Slots(Free(s, r))
  {
    assert s.live != {};
  }

  lemma FreeHandovers(s: State, r: nat)
    requires Handovers(s) && s.active > 0 && r in s.handed && (r in s.ended || r in s.thrown)
    ensures Handovers(Free(s, r))
  {
  }

  /** The wrapped handler goes to the inner dispatcher. */
  lemma HandOk(s: State, r: nat)
    requires Valid(s) && r in s.passing && r in s.wrapped
    ensures Valid(Hand(s, r)) && Extends(s, Hand(s, r))
  {
    hide Placed, Ordered, Slots, Handovers, Listening;
    HandHandovers(s, r);
    WaitingAlike(s, Hand(s, r));
    SlotsSame(s, Hand(s, r));
  }

  lemma HandHandovers(s: State, r: nat)
    requires Handovers(s) && r in s.passing && r in s.wrapped
    ensures Handovers(Hand(s, r))
  {
    assert r !in s.handed;
  }

  lemma SlotsSame(s: State, s': State)
    requires Slots(s)
    requires s'.active == s.active && s'.admitted == s.admitted && s'.live == s.live && s'.released == s.released
    requires s'.wrapped == s.wrapped
    ensures Slots(s')
  {
  }

  lemma EndOk(s: State, r: nat)
    requires Valid(s) && r in s.handed
    ensures Valid(End(s, r)) && Extends(s, End(s, r))
  {
    hide Ordered, Slots, Listening, Handovers;
    HandedIsAdmitted(s, r);
    EndHandovers(s, r);
    WaitingAlike(s, End(s, r));
    SlotsSame(s, End(s, r));
  }

  lemma HandedIsAdmitted(s: State, r: nat)
    requires Handovers(s) && r in s.handed
    ensures r in s.admitted && r in s.wrapped && r !in s.passing
  {
  }

  lemma EndHandovers(s: State, r: nat)
    requires Handovers(s) && r in s.handed && r !in s.aborted
    ensures Handovers(End(s, r))
  {
  }

  lemma ThrowHandovers(s: State, r: nat)
    requires Handovers(s) && r in s.handed
    ensures Handovers(ThrowFor(s, r))
  {
  }

  lemma ThrowOk(s: State, r: nat)
    requires Valid(s) && r in s.handed
    ensures Valid(ThrowFor(s, r)) && Extends(s, ThrowFor(s, r))
  {
    hide Placed, Ordered, Slots, Listening, Handovers;
    ThrowHandovers(s, r);
    WaitingAlike(s, ThrowFor(s, r));
    SlotsSame(s, ThrowFor(s, r));
  }

  lemma ResolveIdleOk(s: State)
    requires Resting(s)
    ensures Valid(ResolveIdle(s)) && Extends(s, ResolveIdle(s))
  {
    hide Books;
    ClosingKeepsBooks(s, ResolveIdle(s));
  }

  /** Who waits does not depend on slots and handovers. */
  lemma WaitingAlike(s: State, s': State)
    requires Placed(s, []) && Ordered(s, []) && Listening(s, [])
    requires s'.accepted == s.accepted && s'.admitted == s.admitted && s'.queue == s.queue
    requires s'.aborted == s.aborted && s'.listening == s.listening && s'.signalled == s.signalled
    ensures Placed(s', []) && Ordered(s', []) && Listening(s', [])
  {
  }

  lemma WrapOk(s: State, r: nat)
    requires Valid(s) && r in s.admitted
    ensures Valid(s.(wrapped := s.wrapped + {r})) && Extends(s, s.(wrapped := s.wrapped + {r}))
  {
    hide Ordered, Placed, Listening, Slots, Handovers;
    var s' := s.(wrapped := s.wrapped + {r});
    WaitingAlike(s, s');
    WrapAccounts(s, r);
  }

  lemma WrapAccounts(s: State, r: nat)
    requires Slots(s) && Handovers(s) && r in s.admitted
    ensures Slots(s.(wrapped := s.wrapped + {r})) && Handovers(s.(wrapped := s.wrapped + {r}))
  {
  }

  lemma CloseOkAfter(s: State)
    requires Valid(s)
    ensures Valid(Close(s)) && Extends(s, Close(s))
  {
    hide Books;
    ClosingKeepsBooks(s, Close(s));
  }

  lemma CloseUnderlyingOk(s: State)
    requires Valid(s) && s.closeTasks > 0
    ensures Valid(CloseUnderlying(s)) && Extends(s, CloseUnderlying(s)) && Idle(s) && s.closed
  {
    hide Books;
    ClosingKeepsBooks(s, CloseUnderlying(s));
  }

  /** When the loop of `drain` stops without admitting anything, the dispatcher is at rest. */
  lemma NothingToDrain(s: State)
    requires HasRoom(s, []) && !(s.active < s.limit && s.queue != [])
    ensures Resting(s)
  {
  }

  // What the invariant means for requests.

  /** Admitted requests come before queued ones, and both lists are in order. */
  lemma OrderedApart(s: State)
    requires Ordered(s, [])
    ensures Increasing(s.admitted) && Increasing(s.queue)
    ensures forall i, k :: 0 <= i < |s.admitted| && 0 <= k < |s.queue| ==> s.admitted[i] < s.queue[k]
    ensures forall r :: r in s.queue ==> r !in s.admitted
  {
    var all := s.admitted + [] + s.queue;
    assert forall i :: 0 <= i < |s.admitted| ==> all[i] == s.admitted[i];
    assert forall k :: 0 <= k < |s.queue| ==> all[|s.admitted| + k] == s.queue[k];
  }

  /** A request is in exactly one of four places. */
  lemma OnePlace(s: State, r: nat)
    requires Valid(s)
    ensures r < s.accepted <==> r in s.live || r in s.queue || r in s.released || r in s.aborted
    ensures r in s.live ==> r !in s.queue && r !in s.released && r !in s.aborted
    ensures r in s.queue ==> r !in s.released && r !in s.aborted
    ensures r in s.released ==> r !in s.aborted
  {
    OrderedApart(s);
  }

  /**
   * With no call of `dispatch` under way, every request admitted has been given
   * to the inner dispatcher, once, with its handler wrapped; nobody who waits or
   * was aborted has.
   */
  lemma HandedOverOnce(s: State, r: nat)
    requires Valid(s) && s.passing == {}
    ensures r in s.admitted <==> r in s.handed
    ensures multiset(s.handed)[r] == if r in s.admitted then 1 else 0
    ensures r in s.handed ==> r in s.wrapped
    ensures r in s.queue || r in s.aborted ==> r !in s.handed
  {
    OnePlace(s, r);
    CountsOnce(s.handed, r);
  }

  lemma {:induction false} CountsOnce(s: seq<nat>, r: nat)
    requires NoRepeats(s)
    ensures multiset(s)[r] == if r in s then 1 else 0
  {
    if s != [] {
      CountsOnce(s[1..], r);
      assert s == [s[0]] + s[1..];
      assert s[0] !in s[1..];
    }
  }

  /** A slot is given back only after the request's own handler was called back or the inner dispatcher threw. */
  lemma ReleasedAfterEnd(s: State, r: nat)
    requires Valid(s)
    ensures r in s.released ==> r in s.handed && (r in s.ended || r in s.thrown)
    ensures r in s.queue ==> r !in s.ended
    ensures r in s.aborted ==> s.ended[r] == 1
    ensures r in s.queue && r in s.signalled ==> r in s.listening
  {
    OnePlace(s, r);
  }

  /** Nobody is overtaken: an admitted request had every earlier, not aborted one admitted before it. */
  lemma FirstComeFirstServed(s: State, early: nat, late: nat)
    requires Valid(s) && early < late && late in s.admitted && early !in s.aborted
    ensures exists i, j :: 0 <= i < j < |s.admitted| && s.admitted[i] == early && s.admitted[j] == late
  {
    hide Valid;
    EarlierAdmitted(s, early, late);
    var i :| 0 <= i < |s.admitted| && s.admitted[i] == early;
    var j :| 0 <= j < |s.admitted| && s.admitted[j] == late;
    AdmittedInOrder(s);
    SmallerIsBefore(s.admitted, i, j);
  }

  lemma SmallerIsBefore(a: seq<nat>, i: nat, j: nat)
    requires Increasing(a) && i < |a| && j < |a| && a[i] < a[j]
    ensures i < j
  {
  }

  lemma EarlierAdmitted(s: State, early: nat, late: nat)
    requires Valid(s) && early < late && late in s.admitted && early !in s.aborted
    ensures early in s.admitted
  {
    OrderedApart(s);
  }

  lemma AdmittedInOrder(s: State)
    requires Valid(s)
    ensures Increasing(s.admitted)
  {
    OrderedApart(s);
  }

  /** Once every admitted request has given its slot back, nothing is left waiting. */
  lemma AllReleasedMeansIdle(s: State)
    requires Valid(s) && (forall r :: r in s.admitted ==> r in s.released)
    ensures Idle(s) && s.idleResolvers == 0
    ensures s.closed ==> s.closeTasks + s.underlyingClosed == 1
  {
    assert forall r :: r in s.live ==> r in s.admitted;
    assert s.live == {};
  }

  lemma NothingNewAfterClose(s: State, s': State, r: nat)
    requires Placed(s, []) && Placed(s', []) && s.queue == []
    requires s'.accepted == s.accepted && s.aborted <= s'.aborted
    requires r in s'.admitted || r in s'.queue
    ensures r in s.admitted
  {
  }

  lemma LongerHasNew(a: seq<nat>, b: seq<nat>)
    requires a < b && Increasing(b)
    ensures b[|a|] !in a
  {
    assert forall i :: 0 <= i < |a| ==> a[i] == b[i];
  }

  lemma ClosedAdmitsNothing(s: State, s': State)
    requires Valid(s) && Valid(s') && Extends(s, s') && s.underlyingClosed > 0
    ensures s'.admitted == s.admitted
  {
    if s.admitted < s'.admitted {
      var r := s'.admitted[|s.admitted|];
      assert Increasing(s'.admitted) by {
        OrderedApart(s');
      }
      LongerHasNew(s.admitted, s'.admitted);
      NothingNewAfterClose(s, s', r);
    }
  }

  lemma ClosedQueuesNothing(s: State, s': State)
    requires Valid(s) && Valid(s') && Extends(s, s') && s.underlyingClosed > 0
    ensures s'.queue == []
  {
    if s'.queue != [] {
      var r := s'.queue[0];
      assert r !in s'.admitted by {
        OrderedApart(s');
      }
      NothingNewAfterClose(s, s', r);
    }
  }

  /** A dispatcher whose inner dispatcher was closed never accepts, admits or queues again. */
  lemma ClosedStaysIdle(s: State, s': State)
    requires Valid(s) && Valid(s') && Extends(s, s') && s.underlyingClosed > 0
    ensures s'.accepted == s.accepted && s'.admitted == s.admitted && s'.queue == []
  {
    ClosedAdmitsNothing(s, s');
    ClosedQueuesNothing(s, s');
  }
}
