/**
 * `ConcurrencyDispatcher`: admission control in front of another dispatcher,
 * under a fixed limit.  Request handlers, abort listeners and the inner
 * dispatcher are foreign code that may call back at any point and to any
 * depth; `ForeignCode` stands for all of it.
 */
module ConcurrencyDispatcher {
  import opened Basics
  import S = DispatcherState

  function IndexOf(s: seq<nat>, x: nat): (k: int)
    ensures k == -1 <==> x !in s
    ensures k != -1 ==> 0 <= k < |s| && s[k] == x
  {
    if s == [] then -1
    else if s[0] == x then 0
    else
      var k := IndexOf(s[1..], x);
      if k == -1 then -1 else k + 1
  }

  class Dispatcher {
    const limit: nat
    var active: nat
    var queue: seq<nat>
    var closed: bool
    var idleResolvers: nat
    var closeTasks: nat
    var underlyingClosed: nat
    var listening: set<nat>
    var wrapped: set<nat>
    var released: set<nat>
    var accepted: nat
    ghost var admitted: seq<nat>
    ghost var aborted: set<nat>
    ghost var live: set<nat>
    ghost var signalled: set<nat>
    ghost var passing: set<nat>
    var handed: seq<nat>
    ghost var thrown: set<nat>
    ghost var ended: multiset<nat>

    /** How often foreign code may still act; arbitrary at the start of a run. */
    var budget: nat

    ghost function View(): S.State
      reads this
    {
      S.State(limit, active, queue, closed, idleResolvers, closeTasks, underlyingClosed,
              listening, wrapped, released, accepted, admitted, aborted, live,
              signalled, passing, handed, thrown, ended)
    }

    constructor (concurrency: int, actions: nat)
      ensures View() == S.Initial(Max(1, concurrency)) && S.Valid(View()) && budget == actions
    {
      limit := Max(1, concurrency);
      active, queue, closed, idleResolvers, closeTasks, underlyingClosed := 0, [], false, 0, 0, 0;
      listening, wrapped, released := {}, {}, {};
      accepted, admitted, aborted, live, budget := 0, [], {}, {}, actions;
      signalled, passing, handed, thrown, ended := {}, {}, [], {}, multiset{};
      new;
      S.InitialOk(limit);
    }

    method ResolveIdle()
      modifies this`idleResolvers, this`closeTasks
      ensures View() == S.ResolveIdle(old(View()))
    {
      if active != 0 || queue != [] {
        return;
      }
      closeTasks := closeTasks + idleResolvers;
      idleResolvers := 0;
    }

    /** `dispatch`; throws when closed, or when the inner dispatcher throws. */
    method Dispatch(hasSignal: bool, signalAborted: bool) returns (threw: bool)
      requires S.Valid(View())
      modifies this
      ensures S.Valid(View()) && S.Extends(old(View()), View())
      ensures old(closed) ==> threw && View() == old(View())
      ensures !old(closed) ==> accepted > old(accepted)
      ensures !old(closed) && old(active) < limit ==> old(accepted) in handed
      ensures !old(closed) && old(active) == limit ==>
                && !threw
                && if hasSignal && signalAborted then old(accepted) in aborted && old(accepted) in ended
                   else View() == S.Enqueue(old(View()), hasSignal)
      ensures budget <= old(budget) && passing == old(passing)
      decreases budget, |queue|, 6
    {
      hide S.Valid, S.Resting, S.HasRoom, S.Extends;
      ghost var s0 := View();
      if closed {
        S.ExtendsItself(s0);
        return true;
      }
      S.ValidRests(s0);
      if active < limit {
        S.AcceptOk(s0);
        accepted := accepted + 1;
        ghost var s1 := View();
        threw := Admit(accepted - 1);
        S.ExtendsTransitive(s0, s1, View());
        S.Stays(s1, View(), accepted);
      } else {
        Enqueue(hasSignal, signalAborted);
        threw := false;
      }
    }

    method Enqueue(hasSignal: bool, signalAborted: bool)
      requires S.Valid(View()) && !closed && active == limit
      modifies this
      ensures S.Valid(View()) && S.Extends(old(View()), View())
      ensures accepted > old(accepted)
      ensures if hasSignal && signalAborted then old(accepted) in aborted && old(accepted) in ended
              else
                && View() == S.Enqueue(old(View()), hasSignal)
                && queue == old(queue) + [old(accepted)] && (hasSignal ==> old(accepted) in listening)
      ensures budget <= old(budget) && passing == old(passing)
      decreases budget, |queue|, 2
    {
      hide S.Valid;
      ghost var s0 := View();
      var r := accepted;
      accepted := accepted + 1;
      if hasSignal && signalAborted {
        aborted := aborted + {r};
        S.RefuseOk(s0);
        OwnHandler(r); // onError
        S.ExtendsTransitive(s0, S.Refuse(s0), View());
        return;
      }
      if hasSignal {
        listening := listening + {r};
        signalled := signalled + {r};
      }
      queue := queue + [r];
      S.EnqueueOk(s0, hasSignal);
    }

    /** Takes a queued request out, as aborted. */
    method Splice(index: nat)
      requires index < |queue|
      modifies this`queue, this`aborted, this`listening
      ensures S.End(View(), old(queue)[index]) == S.Abort(old(View()), index) && |queue| < |old(queue)|
    {
      var r := queue[index];
      queue := queue[..index] + queue[index + 1..];
      aborted := aborted + {r};
      listening := listening - {r};
    }

    /** The abort listener of a request. */
    method OnAbort(r: nat)
      requires S.Valid(View())
      modifies this
      ensures S.Valid(View()) && S.Extends(old(View()), View())
      ensures r in old(queue) ==> r in aborted && r in ended
      ensures r !in old(queue) ==> View() == old(View())
      ensures budget <= old(budget) && passing == old(passing)
      decreases budget, |queue|, 2
    {
      hide S.Valid, S.Resting, S.Extends, S.ResolveIdle, S.Abort, S.End;
      ghost var s0 := View();
      var index := IndexOf(queue, r);
      if index == -1 {
        S.ExtendsItself(s0);
        return;
      }
      S.AbortOk(s0, index);
      ghost var s1 := S.Abort(s0, index);
      S.AbortEnds(s0, index);
      Splice(index);
      OwnHandler(r); // onError
      ghost var s2 := View();
      S.ValidRests(s2);
      S.ResolveIdleOk(s2);
      ResolveIdle();
      S.ExtendsTransitive(s0, s1, s2);
      S.ExtendsTransitive(s0, s2, View());
      S.Stays(s1, s2, r);
      S.Stays(s2, View(), r);
    }

    method TakeSlot(r: nat)
      modifies this`listening, this`active, this`admitted, this`live, this`passing
      ensures View() == S.Admit(old(View()), r)
    {
      listening := listening - {r};
      active := active + 1;
      admitted := admitted + [r];
      live := live + {r};
      passing := passing + {r};
    }

    method Wrap(r: nat)
      requires S.Valid(View()) && r in admitted
      modifies this
      ensures View() == old(View()).(wrapped := old(wrapped) + {r}) && r in wrapped
      ensures S.Valid(View()) && S.Extends(old(View()), View())
      ensures budget == old(budget) && queue == old(queue)
    {
      S.WrapOk(View(), r);
      wrapped := wrapped + {r};
    }

    /** A terminal callback of the handler the request came with: foreign code. */
    method OwnHandler(r: nat)
      requires S.Valid(S.End(View(), r))
      modifies this
      ensures S.Valid(View()) && S.Extends(S.End(old(View()), r), View()) && r in ended
      ensures budget <= old(budget) && passing == old(passing)
      ensures budget == old(budget) ==> queue == old(queue)
      decreases budget, |queue|, 1
    {
      hide S.Valid;
      ended := ended + multiset{r};
      ForeignCode();
    }

    method Receive(r: nat)
      modifies this`handed, this`passing
      ensures View() == S.Hand(old(View()), r)
    {
      handed := handed + [r];
      passing := passing - {r};
    }

    /** The inner dispatcher receives the request with its wrapped handler: foreign code, which may throw. */
    method InnerDispatch(r: nat) returns (threw: bool)
      requires S.Valid(View()) && r in passing && r in wrapped
      modifies this
      ensures S.Valid(View()) && S.Extends(old(View()), View()) && r in handed
      ensures threw ==> r in thrown
      ensures budget <= old(budget) && passing == old(passing) - {r}
      ensures budget == old(budget) ==> queue == old(queue)
      decreases budget, |queue|, 1
    {
      hide S.Valid;
      ghost var s0 := View();
      S.HandOk(s0, r);
      Receive(r);
      ghost var s1 := View();
      ForeignCode();
      ghost var s2 := View();
      S.ExtendsTransitive(s0, s1, s2);
      S.Stays(s1, s2, r);
      threw := *;
      if threw {
        S.ThrowOk(s2, r);
        thrown := thrown + {r};
        S.ExtendsTransitive(s0, s2, View());
      }
    }

    /** `#dispatch`: takes a slot, wraps the handler and hands the request to the inner dispatcher. */
    method Admit(r: nat) returns (threw: bool)
      requires S.HasRoom(View(), [r])
      modifies this
      ensures S.Valid(View()) && S.Extends(old(View()), View())
      ensures r in admitted && r in handed && (threw ==> r in released)
      ensures budget <= old(budget) && passing == old(passing)
      decreases budget, |queue|, 5
    {
      hide S.Valid, S.HasRoom;
      ghost var s0 := View();
      S.AdmitOk(s0, r);
      S.PendingIsNotPassing(s0, r);
      TakeSlot(r);
      ghost var s1 := View();
      ForeignCode(); // onDispatch
      ghost var s2 := View();
      S.ExtendsTransitive(s0, s1, s2);
      S.PassingIsAdmitted(s2, r);
      Wrap(r);
      ghost var s3 := View();
      S.ExtendsTransitive(s0, s2, s3);
      threw := HandOver(r);
      S.ExtendsTransitive(s0, s3, View());
      S.PassingIsAdmitted(s3, r);
      S.Stays(s3, View(), r);
    }

    /** The call of the inner dispatcher; if it throws, the slot is given back. */
    method HandOver(r: nat) returns (threw: bool)
      requires S.Valid(View()) && r in passing && r in wrapped
      modifies this
      ensures S.Valid(View()) && S.Extends(old(View()), View())
      ensures r in handed && (threw ==> r in released)
      ensures budget <= old(budget) && passing == old(passing) - {r}
      decreases budget, |queue|, 4
    {
      hide S.Valid;
      ghost var s0 := View();
      threw := InnerDispatch(r);
      if threw {
        ghost var s1 := View();
        var _ := Release(r);
        S.ExtendsTransitive(s0, s1, View());
        S.Stays(s1, View(), r);
      }
    }

    method FreeSlot(r: nat)
      requires S.Valid(View()) && r in live && r in handed && (r in ended || r in thrown)
      modifies this
      ensures S.HasRoom(View(), []) && S.Extends(old(View()), View()) && r in released
      ensures budget == old(budget) && queue == old(queue) && passing == old(passing)
    {
      hide S.Valid, S.HasRoom, S.Extends;
      S.FreeOk(View(), r);
      released := released + {r};
      live := live - {r};
      active := active - 1;
    }

    /** The `release` closure of an admitted request; throws when a request it admits throws. */
    method Release(r: nat) returns (threw: bool)
      requires S.Valid(View()) && r in handed && (r in ended || r in thrown)
      modifies this
      ensures S.Valid(View()) && S.Extends(old(View()), View())
      ensures r in released
      ensures r in old(released) ==> View() == old(View())
      ensures budget <= old(budget) && passing == old(passing)
      decreases budget, |queue|, 3
    {
      hide S.Valid, S.Resting, S.HasRoom;
      if r in released {
        S.ExtendsItself(View());
        return false;
      }
      ghost var s0 := View();
      S.HandedIsLive(s0, r);
      FreeSlot(r);
      ghost var s1 := View();
      threw := Drain();
      ghost var s2 := View();
      S.ExtendsTransitive(s0, s1, s2);
      if !threw {
        S.ResolveIdleOk(s2);
        ResolveIdle();
        S.ExtendsTransitive(s0, s2, View());
      }
    }

    method Drain() returns (threw: bool)
      requires S.HasRoom(View(), [])
      modifies this
      ensures S.Resting(View()) && S.Extends(old(View()), View())
      ensures threw ==> S.Valid(View())
      ensures old(queue) != [] ==> old(queue[0]) in handed
      ensures budget <= old(budget) && passing == old(passing)
      decreases budget, |queue|, 2
    {
      hide S.Placed, S.Ordered, S.Slots;
      ghost var s0 := View();
      ghost var first := true;
      while active < limit && queue != []
        invariant if first then View() == s0 && budget == old(budget)
                  else S.Valid(View()) && S.Extends(s0, View()) && budget <= old(budget)
        invariant !first && old(queue) != [] ==> old(queue[0]) in handed
        invariant passing == old(passing)
        decreases first
      {
        S.ShiftOk(s0);
        var r := queue[0];
        queue := queue[1..];
        ghost var s1 := View();
        threw := Admit(r);
        S.ExtendsTransitive(s0, s1, View());
        first := false;
        if threw {
          return;
        }
      }
      threw := false;
      if first {
        S.NothingToDrain(s0);
      }
    }

    /** A wrapped handler's terminal callback: the handler's own code, then the release. */
    method Finish(r: nat)
      requires S.Valid(View()) && r in handed
      modifies this
      ensures S.Valid(View()) && S.Extends(old(View()), View())
      ensures r in ended && r in released
      ensures budget <= old(budget) && passing == old(passing)
      decreases budget, |queue|, 6
    {
      hide S.Valid;
      ghost var s0 := View();
      S.EndOk(s0, r);
      OwnHandler(r);
      ghost var s1 := View();
      S.ExtendsTransitive(s0, S.End(s0, r), s1);
      var _ := Release(r);
      S.ExtendsTransitive(s0, s1, View());
    }

    method Close()
      requires S.Valid(View())
      modifies this
      ensures View() == S.Close(old(View())) && S.Valid(View()) && S.Extends(old(View()), View()) && closed
      ensures budget == old(budget)
    {
      hide S.Books, S.CloseOk;
      S.CloseOkAfter(View());
      if closed {
        return;
      }
      closed := true;
      if active == 0 && queue == [] {
        closeTasks := closeTasks + 1;
      } else {
        idleResolvers := idleResolvers + 1;
      }
    }

    /** The continuation of `close`: the inner dispatcher closes with nothing active or queued. */
    method CloseUnderlying()
      requires S.Valid(View()) && closeTasks > 0
      modifies this
      ensures View() == S.CloseUnderlying(old(View())) && S.Valid(View()) && S.Extends(old(View()), View())
      ensures S.Idle(View()) && closed
      ensures budget == old(budget)
    {
      S.CloseUnderlyingOk(View());
      closeTasks := closeTasks - 1;
      underlyingClosed := underlyingClosed + 1;
    }

    /** Any sequence of calls that handlers, signals or the inner dispatcher may make. */
    method ForeignCode()
      requires S.Valid(View())
      modifies this
      ensures S.Valid(View()) && S.Extends(old(View()), View())
      ensures budget <= old(budget) && passing == old(passing)
      ensures budget == old(budget) ==> View() == old(View())
      decreases budget, |queue|, 0
    {
      hide S.Placed, S.Ordered, S.Slots;
      ghost var s0 := View();
      while budget > 0
        invariant S.Valid(View()) && S.Extends(s0, View())
        invariant budget <= old(budget) && passing == old(passing)
        invariant budget == old(budget) ==> View() == s0
        decreases budget
      {
        var act: bool := *;
        if !act {
          break;
        }
        ghost var s1 := View();
        budget := budget - 1;
        Act();
        S.ExtendsTransitive(s0, s1, View());
      }
    }

    method Act()
      requires S.Valid(View())
      modifies this
      ensures S.Valid(View()) && S.Extends(old(View()), View())
      ensures budget <= old(budget) && passing == old(passing)
      decreases budget, |queue|, 7
    {
      var choice: int, hasSignal: bool, signalAborted: bool, r: nat := *, *, *, *;
      if choice == 0 {
        var _ := Dispatch(hasSignal, signalAborted);
      } else if choice == 1 && r in listening {
        OnAbort(r);
      } else if choice == 2 && r in handed {
        Finish(r);
      } else if choice == 3 {
        Close();
      } else if closeTasks > 0 {
        CloseUnderlying();
      }
    }
  }
}
