/** Which tasks of an install manifest start: in complete runs, all that can. */
module TaskStarts {
  import opened TaskGraph
  import opened TaskRun

  /** A rejected promise stands for a dependency that does not exist or leads back to the task. */
  ghost predicate Reasoned(tasks: Tasks, nodes: seq<Node>, task: string, deps: seq<nat>) {
    && task in tasks && |deps| == |tasks[task]|
    && forall k :: 0 <= k < |deps| ==>
         deps[k] < |nodes|
         && (nodes[deps[k]].Broken? ==> tasks[task][k] !in tasks || Reaches(tasks, tasks[task][k], task))
  }

  ghost predicate Reasons(tasks: Tasks, s: Search) {
    forall n :: 0 <= n < |s.nodes| && s.nodes[n].Waits? ==>
      Reasoned(tasks, s.nodes, s.nodes[n].task, s.nodes[n].deps)
  }

  lemma ReasonedLater(tasks: Tasks, s: Search, s': Search, task: string, deps: seq<nat>)
    requires Reasoned(tasks, s.nodes, task, deps) && s.nodes <= s'.nodes
    ensures Reasoned(tasks, s'.nodes, task, deps)
  {
  }

  lemma AppendReasons(tasks: Tasks, s: Search, s': Search, node: Node)
    requires Reasons(tasks, s) && s'.nodes == s.nodes + [node]
    requires node.Waits? ==> Reasoned(tasks, s.nodes, node.task, node.deps)
    ensures Reasons(tasks, s')
  {
    hide Reasoned;
    forall n | 0 <= n < |s'.nodes| && s'.nodes[n].Waits?
      ensures Reasoned(tasks, s'.nodes, s'.nodes[n].task, s'.nodes[n].deps)
    {
      ReasonedLater(tasks, s, s', s'.nodes[n].task, s'.nodes[n].deps);
    }
  }

  /** The promise of an id is rejected only if the id does not exist or is being visited. */
  ghost predicate RejectedFor(tasks: Tasks, s: Search, s': Search, id: string, n: nat) {
    n < |s'.nodes| && (s'.nodes[n].Broken? ==> id !in tasks || id in s.visiting)
  }

  lemma {:induction false} ExecuteReasons(tasks: Tasks, s: Search, id: string)
    requires SearchOk(tasks, s) && Reasons(tasks, s) && VisitingReaches(tasks, s, id)
    ensures Reasons(tasks, Execute(tasks, s, id).0)
    ensures RejectedFor(tasks, s, Execute(tasks, s, id).0, id, Execute(tasks, s, id).1)
    decreases Unsettled(tasks, s), 0
  {
    hide Reasons, Reasoned, VisitingReaches;
    if id in s.running {
      assert EntryOk(tasks, s, id, s.running[id]);
    } else if id !in tasks || id in s.visiting {
      AppendReasons(tasks, s, Append(s, Broken), Broken);
    } else {
      var inside := s.(visiting := s.visiting + {id});
      assert id in Unsettled(tasks, s) && Unsettled(tasks, inside) == Unsettled(tasks, s) - {id};
      InsideReaches(tasks, s, id);
      assert Reasons(tasks, inside) by {
        SameNodes(tasks, s, inside);
      }
      ExecuteAllReasons(tasks, inside, tasks[id]);
      var (s1, deps) := ExecuteAll(tasks, inside, tasks[id]);
      DepsReasoned(tasks, s, s1, id, deps);
      AppendReasons(tasks, s1, Execute(tasks, s, id).0, Waits(id, deps));
    }
  }

  lemma SameNodes(tasks: Tasks, s: Search, s': Search)
    requires Reasons(tasks, s) && s'.nodes == s.nodes
    ensures Reasons(tasks, s')
  {
    hide Reasoned;
  }

  /** Whatever is being visited leads to each dependency. */
  lemma InsideReaches(tasks: Tasks, s: Search, id: string)
    requires id in tasks && VisitingReaches(tasks, s, id)
    ensures forall b <- tasks[id] :: VisitingReaches(tasks, s.(visiting := s.visiting + {id}), b)
  {
    forall b <- tasks[id], v | v in s.visiting + {id} ensures Reaches(tasks, v, b) {
      assert Edge(tasks, id, b);
      if v == id {
        ReachesByEdge(tasks, id, b);
      } else {
        ReachesExtends(tasks, v, id, b);
      }
    }
  }

  lemma DepsReasoned(tasks: Tasks, s: Search, s1: Search, id: string, deps: seq<nat>)
    requires id in tasks && VisitingReaches(tasks, s, id) && |deps| == |tasks[id]|
    requires forall k :: 0 <= k < |deps| ==>
               RejectedFor(tasks, s.(visiting := s.visiting + {id}), s1, tasks[id][k], deps[k])
    ensures Reasoned(tasks, s1.nodes, id, deps)
  {
    forall k | 0 <= k < |deps|
      ensures deps[k] < |s1.nodes|
      ensures s1.nodes[deps[k]].Broken? ==> tasks[id][k] !in tasks || Reaches(tasks, tasks[id][k], id)
    {
      assert RejectedFor(tasks, s.(visiting := s.visiting + {id}), s1, tasks[id][k], deps[k]);
      if tasks[id][k] == id {
        ReachesByEdge(tasks, id, id);
      }
    }
  }

  lemma {:induction false} ExecuteAllReasons(tasks: Tasks, s: Search, ids: seq<string>)
    requires SearchOk(tasks, s) && Reasons(tasks, s) && forall b <- ids :: VisitingReaches(tasks, s, b)
    ensures Reasons(tasks, ExecuteAll(tasks, s, ids).0)
    ensures forall k :: 0 <= k < |ids| ==>
              RejectedFor(tasks, s, ExecuteAll(tasks, s, ids).0, ids[k], ExecuteAll(tasks, s, ids).1[k])
    decreases Unsettled(tasks, s), |ids| + 1
  {
    hide Execute, Reasons, SearchOk, Unsettled;
    if ids != [] {
      ExecuteReasons(tasks, s, ids[0]);
      ExecuteOk(tasks, s, ids[0]);
      var (s1, n) := Execute(tasks, s, ids[0]);
      SettledStays(tasks, s, s1);
      forall b <- ids[1..] ensures VisitingReaches(tasks, s1, b) {
        assert b in ids;
        assert VisitingReaches(tasks, s, b);
      }
      ExecuteAllReasons(tasks, s1, ids[1..]);
    }
  }

  lemma PromisesReasoned(plan: seq<Task>)
    ensures Reasons(TaskMap(plan), Promises(plan))
  {
    assert SearchOk(TaskMap(plan), EMPTY_SEARCH);
    ExecuteAllReasons(TaskMap(plan), EMPTY_SEARCH, Ids(plan));
  }

  // Rejections.

  predicate Failed(s: Status) {
    s.Crashed? || s.Rejected?
  }

  /** A task's promise is rejected before its body starts only if one it waits for has failed. */
  predicate RejectionsOk(nodes: seq<Node>, st: State) {
    && |st.status| == |nodes|
    && forall n :: 0 <= n < |nodes| && nodes[n].Waits? && st.status[n].Rejected? ==> FailedDep(nodes, st, n)
  }

  predicate FailedDep(nodes: seq<Node>, st: State, n: nat)
    requires |st.status| == |nodes| && n < |nodes| && nodes[n].Waits?
  {
    exists k :: 0 <= k < |nodes[n].deps| && nodes[n].deps[k] < |nodes| && Failed(st.status[nodes[n].deps[k]])
  }

  lemma StepKeepsRejections(nodes: seq<Node>, st: State, m: Move)
    requires RejectionsOk(nodes, st) && Enabled(nodes, st, m)
    ensures RejectionsOk(nodes, Step(nodes, st, m))
  {
    var st' := Step(nodes, st, m);
    forall n | 0 <= n < |nodes| && nodes[n].Waits? && st'.status[n].Rejected? ensures FailedDep(nodes, st', n) {
      if st.status[n].Rejected? {
        assert FailedDep(nodes, st, n);
      }
      var k :| 0 <= k < |nodes[n].deps| && nodes[n].deps[k] < |nodes| && Failed(st.status[nodes[n].deps[k]]);
      assert Failed(st'.status[nodes[n].deps[k]]);
    }
  }

  lemma {:induction false} RunKeepsRejections(nodes: seq<Node>, st: State, moves: seq<Move>)
    requires RejectionsOk(nodes, st) && Legal(nodes, st, moves)
    ensures RejectionsOk(nodes, Run(nodes, st, moves))
    decreases |moves|
  {
    hide Step, Enabled;
    if moves != [] {
      StepKeepsRejections(nodes, st, moves[0]);
      RunKeepsRejections(nodes, Step(nodes, st, moves[0]), moves[1..]);
    }
  }

  // Starting.

  /** A promise that waits for succeeded ones only is not left waiting. */
  lemma MustHaveRun(nodes: seq<Node>, st: State, n: nat)
    requires RejectionsOk(nodes, st) && Quiescent(nodes, st) && n < |nodes| && DepsSucceeded(nodes, st, n)
    ensures Ran(st.status[n])
  {
    assert !Enabled(nodes, st, Begin(n));
  }

  /** Every dependency of a task has succeeded. */
  predicate AllSucceeded(tasks: Tasks, s: Search, st: State, id: string)
    requires id in tasks
  {
    forall b <- tasks[id] :: HasSucceeded(tasks, s, st, b)
  }

  lemma StartsWhenDepsSucceed(tasks: Tasks, s: Search, st: State, id: string)
    requires SearchOk(tasks, s) && Reasons(tasks, s) && RunOk(s, st) && RejectionsOk(s.nodes, st)
    requires Quiescent(s.nodes, st) && id in tasks && id in s.running
    requires AllSucceeded(tasks, s, st, id)
    ensures id in st.started
  {
    hide Quiescent, RejectionsOk;
    var n := s.running[id];
    assert EntryOk(tasks, s, id, n);
    assert Reasoned(tasks, s.nodes, id, s.nodes[n].deps);
    SoundFromOk(tasks, s, st);
    if id !in st.started {
      forall k | 0 <= k < |tasks[id]| ensures st.status[s.nodes[n].deps[k]].Succeeded? {
        var b := tasks[id][k];
        assert HasSucceeded(tasks, s, st, b);
        assert DependsOn(s, b, s.nodes[n].deps[k]);
        assert s.nodes[s.nodes[n].deps[k]].Broken? ==> Reaches(tasks, b, id);
      }
      MustHaveRun(s.nodes, st, n);
    }
  }

  /**
   * Whatever bodies fail, and in whatever order: once nothing more can happen, a
   * task has started if and only if all its dependencies are tasks that
   * succeeded, which is so if and only if everything it reaches is.
   */
  lemma StartsIff(plan: seq<Task>, moves: seq<Move>, id: string)
    requires id in TaskMap(plan)
    requires Legal(Promises(plan).nodes, Initial(Promises(plan).nodes), moves)
    requires Quiescent(Promises(plan).nodes, Run(Promises(plan).nodes, Initial(Promises(plan).nodes), moves))
    ensures var s, tasks := Promises(plan), TaskMap(plan);
            var st := Run(s.nodes, Initial(s.nodes), moves);
            && (id in st.started <==> AllSucceeded(tasks, s, st, id))
            && (id in st.started <==> forall b :: Reaches(tasks, id, b) ==> HasSucceeded(tasks, s, st, b))
  {
    hide SearchOk, RunOk, Quiescent, RejectionsOk, Legal, Run, Promises, TaskMap, HasSucceeded, Reasons;
    var s, tasks := Promises(plan), TaskMap(plan);
    var st := Run(s.nodes, Initial(s.nodes), moves);
    PromisesOk(plan);
    PromisesReasoned(plan);
    InitialOk(tasks, s);
    InitialRejectionsOk(s.nodes);
    RunKeepsRunOk(tasks, s, Initial(s.nodes), moves);
    RunKeepsRejections(s.nodes, Initial(s.nodes), moves);
    SoundFromOk(tasks, s, st);
    HasPromise(plan, id);
    forall b <- tasks[id] ensures Reaches(tasks, id, b) {
      ReachesByEdge(tasks, id, b);
    }
    if AllSucceeded(tasks, s, st, id) {
      StartsWhenDepsSucceed(tasks, s, st, id);
    }
  }

  // Ending.

  predicate Settled(s: Status) {
    s.Succeeded? || s.Crashed? || s.Rejected?
  }

  /** Once nothing more can happen, no promise is left open. */
  lemma {:induction false} NodeSettles(tasks: Tasks, s: Search, st: State, n: nat)
    requires SearchOk(tasks, s) && RunOk(s, st) && Quiescent(s.nodes, st) && n < |s.nodes|
    ensures Settled(st.status[n])
  {
    if s.nodes[n].Waits? {
      assert EntryOk(tasks, s, s.nodes[n].task, n);
      var deps := s.nodes[n].deps;
      forall k | 0 <= k < |deps| ensures Settled(st.status[deps[k]]) {
        NodeSettles(tasks, s, st, deps[k]);
      }
      assert !Enabled(s.nodes, st, Begin(n)) && !Enabled(s.nodes, st, Reject(n)) && !Enabled(s.nodes, st, End(n, true));
      if k :| 0 <= k < |deps| && !st.status[deps[k]].Succeeded? {
        assert st.status[deps[k]].Crashed? || st.status[deps[k]].Rejected?;
      }
    }
  }

  /**
   * Whatever bodies fail: a complete run leaves no task waiting. Its promise has
   * succeeded, its body has crashed, or it was rejected because a dependency
   * does not exist, leads back to it, or has failed itself.
   */
  lemma EveryTaskSettles(plan: seq<Task>, moves: seq<Move>, id: string)
    requires id in TaskMap(plan)
    requires Legal(Promises(plan).nodes, Initial(Promises(plan).nodes), moves)
    requires Quiescent(Promises(plan).nodes, Run(Promises(plan).nodes, Initial(Promises(plan).nodes), moves))
    ensures var s, tasks := Promises(plan), TaskMap(plan);
            var st := Run(s.nodes, Initial(s.nodes), moves);
            && id in s.running && s.running[id] < |st.status|
            && var status := st.status[s.running[id]];
               && Settled(status)
               && (id in st.started <==> status.Succeeded? || status.Crashed?)
               && (status.Rejected? <==> !AllSucceeded(tasks, s, st, id))
  {
    hide SearchOk, RunOk, Quiescent, Legal, Run, Promises, TaskMap, HasSucceeded;
    var s, tasks := Promises(plan), TaskMap(plan);
    var st := Run(s.nodes, Initial(s.nodes), moves);
    PromisesOk(plan);
    InitialOk(tasks, s);
    RunKeepsRunOk(tasks, s, Initial(s.nodes), moves);
    HasPromise(plan, id);
    EntryInRange(tasks, s, st, id);
    NodeSettles(tasks, s, st, s.running[id]);
    StartsIff(plan, moves, id);
  }

  lemma EntryInRange(tasks: Tasks, s: Search, st: State, id: string)
    requires SearchOk(tasks, s) && RunOk(s, st) && id in s.running
    ensures s.running[id] < |st.status| == |s.nodes|
    ensures id in st.started <==> Ran(st.status[s.running[id]])
  {
    assert EntryOk(tasks, s, id, s.running[id]);
  }

  lemma InitialRejectionsOk(nodes: seq<Node>)
    ensures RejectionsOk(nodes, Initial(nodes))
  {
  }

  lemma HasPromise(plan: seq<Task>, id: string)
    requires id in TaskMap(plan)
    ensures id in Promises(plan).running
  {
    TaskMapKeys(plan);
    PlanHasPromises(plan);
    var k :| 0 <= k < |plan| && Ids(plan)[k] == id;
    assert plan[k].id == id;
  }
}
