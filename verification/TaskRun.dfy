/**
 * Running an install manifest: which task bodies start, in every order the
 * event loop may choose and whatever bodies fail.
 */
module TaskRun {
  import opened TaskGraph

  /** A task as listed in the plan. */
  datatype Task = Task(id: string, dependsOn: seq<string>)

  datatype Status = Waiting | Started | Succeeded | Crashed | Rejected

  datatype Move = Begin(n: nat) | End(n: nat, ok: bool) | Reject(n: nat)

  datatype State = State(status: seq<Status>, started: seq<string>)

  function TaskMap(plan: seq<Task>): Tasks {
    if plan == [] then map[] else TaskMap(plan[..|plan| - 1])[plan[|plan| - 1].id := plan[|plan| - 1].dependsOn]
  }

  function Ids(plan: seq<Task>): (ids: seq<string>)
    ensures |ids| == |plan| && forall k :: 0 <= k < |plan| ==> ids[k] == plan[k].id
  {
    seq(|plan|, k requires 0 <= k < |plan| => plan[k].id)
  }

  predicate UniqueIds(plan: seq<Task>) {
    forall i, j :: 0 <= i < j < |plan| ==> plan[i].id != plan[j].id
  }

  const EMPTY_SEARCH := Search([], map[], {})

  /** The promises that executing every task of the plan creates. */
  function Promises(plan: seq<Task>): Search {
    ExecuteAll(TaskMap(plan), EMPTY_SEARCH, Ids(plan)).0
  }

  lemma {:induction false} TaskMapKeys(plan: seq<Task>)
    ensures forall id :: id in TaskMap(plan) <==> id in Ids(plan)
    ensures |TaskMap(plan)| <= |plan|
    ensures |TaskMap(plan)| == |plan| <==> UniqueIds(plan)
  {
    if plan != [] {
      var init := plan[..|plan| - 1];
      var last := plan[|plan| - 1];
      TaskMapKeys(init);
      assert Ids(plan) == Ids(init) + [last.id];
      assert TaskMap(plan).Keys == TaskMap(init).Keys + {last.id};
      if last.id in TaskMap(init) {
        var k :| 0 <= k < |init| && Ids(init)[k] == last.id;
        assert plan[k].id == plan[|plan| - 1].id;
        assert TaskMap(plan).Keys == TaskMap(init).Keys;
      } else {
        assert forall i :: 0 <= i < |init| ==> plan[i].id == Ids(init)[i];
        if UniqueIds(init) {
          assert UniqueIds(plan);
        }
        if UniqueIds(plan) {
          assert UniqueIds(init);
        }
      }
    }
  }

  function Initial(nodes: seq<Node>): State {
    State(seq(|nodes|, n requires 0 <= n < |nodes| => if nodes[n].Broken? then Rejected else Waiting), [])
  }

  predicate Enabled(nodes: seq<Node>, st: State, m: Move)
    requires |st.status| == |nodes|
  {
    && m.n < |nodes|
    && match m
       case Begin(n) =>
         && nodes[n].Waits? && st.status[n].Waiting?
         && forall k :: 0 <= k < |nodes[n].deps| ==>
              nodes[n].deps[k] < |nodes| && st.status[nodes[n].deps[k]].Succeeded?
       case End(n, _) => st.status[n].Started?
       case Reject(n) =>
         && nodes[n].Waits? && st.status[n].Waiting?
         && exists k :: 0 <= k < |nodes[n].deps| && nodes[n].deps[k] < |nodes| &&
              (st.status[nodes[n].deps[k]].Crashed? || st.status[nodes[n].deps[k]].Rejected?)
  }

  function Step(nodes: seq<Node>, st: State, m: Move): State
    requires |st.status| == |nodes| && Enabled(nodes, st, m)
  {
    match m
    case Begin(n) => State(st.status[n := Started], st.started + [nodes[n].task])
    case End(n, ok) => st.(status := st.status[n := if ok then Succeeded else Crashed])
    case Reject(n) => st.(status := st.status[n := Rejected])
  }

  predicate Legal(nodes: seq<Node>, st: State, moves: seq<Move>)
    requires |st.status| == |nodes|
    decreases |moves|
  {
    moves == [] || (Enabled(nodes, st, moves[0]) && Legal(nodes, Step(nodes, st, moves[0]), moves[1..]))
  }

  function Run(nodes: seq<Node>, st: State, moves: seq<Move>): (st': State)
    requires |st.status| == |nodes| && Legal(nodes, st, moves)
    ensures |st'.status| == |nodes|
    decreases |moves|
  {
    if moves == [] then st else Run(nodes, Step(nodes, st, moves[0]), moves[1..])
  }

  /** No body failed in this run. */
  predicate BodiesSucceed(moves: seq<Move>) {
    forall k :: 0 <= k < |moves| && moves[k].End? ==> moves[k].ok
  }

  ghost predicate Quiescent(nodes: seq<Node>, st: State)
    requires |st.status| == |nodes|
  {
    forall m :: !Enabled(nodes, st, m)
  }

  // Every run ends.

  function Weight(s: Status): nat {
    match s case Waiting => 0 case Started => 1 case _ => 2
  }

  function Progress(status: seq<Status>): (p: nat)
    ensures p <= 2 * |status|
  {
    if status == [] then 0 else Progress(status[..|status| - 1]) + Weight(status[|status| - 1])
  }

  lemma {:induction false} ProgressGrows(status: seq<Status>, n: nat, s: Status)
    requires n < |status|
    ensures Progress(status[n := s]) == Progress(status) - Weight(status[n]) + Weight(s)
  {
    var init := status[..|status| - 1];
    if n == |status| - 1 {
      assert status[n := s][..n] == init;
    } else {
      ProgressGrows(init, n, s);
      assert status[n := s][..|status| - 1] == init[n := s];
    }
  }

  lemma {:induction false} RunsEnd(nodes: seq<Node>, st: State, moves: seq<Move>)
    requires |st.status| == |nodes| && Legal(nodes, st, moves)
    ensures |moves| + Progress(st.status) <= 2 * |nodes|
    decreases |moves|
  {
    if moves != [] {
      var st' := Step(nodes, st, moves[0]);
      ProgressGrows(st.status, moves[0].n, st'.status[moves[0].n]);
      RunsEnd(nodes, st', moves[1..]);
    }
  }

  // What every run keeps.

  predicate Ran(s: Status) {
    s.Started? || s.Succeeded? || s.Crashed?
  }

  predicate DepsSucceeded(nodes: seq<Node>, st: State, n: nat)
    requires |st.status| == |nodes| && n < |nodes|
  {
    nodes[n].Waits? &&
    forall k :: 0 <= k < |nodes[n].deps| ==> nodes[n].deps[k] < |nodes| && st.status[nodes[n].deps[k]].Succeeded?
  }

  predicate NoDuplicates(s: seq<string>) {
    forall i, j :: 0 <= i < j < |s| ==> s[i] != s[j]
  }

  predicate RunOk(s: Search, st: State) {
    && |st.status| == |s.nodes|
    && (forall n :: 0 <= n < |s.nodes| && s.nodes[n].Broken? ==> st.status[n].Rejected?)
    && (forall n :: 0 <= n < |s.nodes| && Ran(st.status[n]) ==> DepsSucceeded(s.nodes, st, n))
    && (forall n :: 0 <= n < |s.nodes| && s.nodes[n].Waits? ==> (s.nodes[n].task in st.started <==> Ran(st.status[n])))
    && (forall id :: id in st.started ==> id in s.running)
    && NoDuplicates(st.started)
  }

  lemma StepKeepsRunOk(tasks: Tasks, s: Search, st: State, m: Move)
    requires SearchOk(tasks, s) && RunOk(s, st) && Enabled(s.nodes, st, m)
    ensures RunOk(s, Step(s.nodes, st, m))
  {
    var st' := Step(s.nodes, st, m);
    forall n | 0 <= n < |s.nodes| && Ran(st'.status[n]) ensures DepsSucceeded(s.nodes, st', n) {
      if n != m.n {
        assert DepsSucceeded(s.nodes, st, n);
      }
    }
  }

  lemma {:induction false} RunKeepsRunOk(tasks: Tasks, s: Search, st: State, moves: seq<Move>)
    requires SearchOk(tasks, s) && RunOk(s, st) && Legal(s.nodes, st, moves)
    ensures RunOk(s, Run(s.nodes, st, moves))
    decreases |moves|
  {
    if moves != [] {
      StepKeepsRunOk(tasks, s, st, moves[0]);
      RunKeepsRunOk(tasks, s, Step(s.nodes, st, moves[0]), moves[1..]);
    }
  }

  /** Along a path from a started task, every later task has succeeded, and its promise is older. */
  lemma {:induction false} PathSucceeded(tasks: Tasks, s: Search, st: State, p: seq<string>, k: nat)
    requires SearchOk(tasks, s) && RunOk(s, st) && Path(tasks, p) && k < |p|
    requires p[0] in st.started
    ensures p[k] in s.running && p[k] in tasks
    ensures s.running[p[k]] < |s.nodes|
    ensures k > 0 ==> st.status[s.running[p[k]]].Succeeded? && s.running[p[k]] < s.running[p[0]]
    ensures Ran(st.status[s.running[p[k]]])
  {
    if k == 0 {
      assert EntryOk(tasks, s, p[0], s.running[p[0]]);
    } else {
      PathSucceeded(tasks, s, st, p, k - 1);
      var a := p[k - 1];
      assert Edge(tasks, a, p[k]);
      assert EntryOk(tasks, s, a, s.running[a]);
      var j :| 0 <= j < |tasks[a]| && tasks[a][j] == p[k];
      var n := s.running[a];
      assert DependsOn(s, p[k], s.nodes[n].deps[j]);
      assert DepsSucceeded(s.nodes, st, n);
      assert EntryOk(tasks, s, p[k], s.running[p[k]]);
    }
  }

  /** `id` is a task whose body succeeded. */
  predicate HasSucceeded(tasks: Tasks, s: Search, st: State, id: string) {
    && id in tasks && id in s.running && id in st.started
    && s.running[id] < |st.status| && st.status[s.running[id]].Succeeded?
  }

  /** Whatever a started task reaches has succeeded and is not the task itself. */
  ghost predicate StartsAreSound(tasks: Tasks, s: Search, st: State) {
    forall a, b :: a in st.started && Reaches(tasks, a, b) ==> HasSucceeded(tasks, s, st, b) && a != b
  }

  lemma ReachedSucceeded(tasks: Tasks, s: Search, st: State, a: string, b: string)
    requires SearchOk(tasks, s) && RunOk(s, st) && a in st.started && Reaches(tasks, a, b)
    ensures HasSucceeded(tasks, s, st, b) && a != b
  {
    var p :| Path(tasks, p) && p[0] == a && p[|p| - 1] == b;
    PathSucceeded(tasks, s, st, p, |p| - 1);
    assert EntryOk(tasks, s, b, s.running[b]);
  }

  lemma SoundFromOk(tasks: Tasks, s: Search, st: State)
    requires SearchOk(tasks, s) && RunOk(s, st)
    ensures StartsAreSound(tasks, s, st)
  {
    forall a, b | a in st.started && Reaches(tasks, a, b)
      ensures HasSucceeded(tasks, s, st, b) && a != b
    {
      ReachedSucceeded(tasks, s, st, a, b);
    }
  }

  lemma InitialOk(tasks: Tasks, s: Search)
    requires SearchOk(tasks, s)
    ensures RunOk(s, Initial(s.nodes))
  {
  }

  lemma PromisesOk(plan: seq<Task>)
    ensures SearchOk(TaskMap(plan), Promises(plan))
  {
    assert SearchOk(TaskMap(plan), EMPTY_SEARCH);
    ExecuteAllOk(TaskMap(plan), EMPTY_SEARCH, Ids(plan));
  }

  /**
   * Safety, for every plan, every order and whatever bodies fail: a task
   * starts at most once, only after everything it reaches has succeeded, so
   * never when it reaches a missing id, a failed task or a cycle.
   */
  lemma RunSafe(plan: seq<Task>, moves: seq<Move>)
    requires Legal(Promises(plan).nodes, Initial(Promises(plan).nodes), moves)
    ensures var st := Run(Promises(plan).nodes, Initial(Promises(plan).nodes), moves);
            NoDuplicates(st.started) && StartsAreSound(TaskMap(plan), Promises(plan), st)
  {
    var s := Promises(plan);
    PromisesOk(plan);
    InitialOk(TaskMap(plan), s);
    RunKeepsRunOk(TaskMap(plan), s, Initial(s.nodes), moves);
    SoundFromOk(TaskMap(plan), s, Run(s.nodes, Initial(s.nodes), moves));
  }

  // When the plan resolves.

  /** The final `Promise.all` over the plan's tasks resolves. */
  predicate AllResolved(plan: seq<Task>, s: Search, st: State) {
    forall k :: 0 <= k < |plan| ==>
      && plan[k].id in s.running && s.running[plan[k].id] < |st.status|
      && st.status[s.running[plan[k].id]].Succeeded?
  }

  predicate NoFailure(st: State) {
    forall n :: 0 <= n < |st.status| ==> !st.status[n].Crashed? && !st.status[n].Rejected?
  }

  lemma {:induction false} NoFailureKept(nodes: seq<Node>, st: State, moves: seq<Move>)
    requires |st.status| == |nodes| && Legal(nodes, st, moves) && BodiesSucceed(moves) && NoFailure(st)
    ensures NoFailure(Run(nodes, st, moves))
    decreases |moves|
  {
    if moves != [] {
      assert BodiesSucceed(moves[1..]);
      NoFailureKept(nodes, Step(nodes, st, moves[0]), moves[1..]);
    }
  }

  /** With no rejection so far, a quiescent run has resolved every promise. */
  lemma {:induction false} QuiescentSucceeds(tasks: Tasks, s: Search, st: State, n: nat)
    requires SearchOk(tasks, s) && RunOk(s, st) && NoBroken(s) && NoFailure(st) && Quiescent(s.nodes, st)
    requires n < |s.nodes|
    ensures st.status[n].Succeeded?
  {
    var task := s.nodes[n].task;
    assert EntryOk(tasks, s, task, n);
    forall k | 0 <= k < |s.nodes[n].deps|
      ensures s.nodes[n].deps[k] < |s.nodes| && st.status[s.nodes[n].deps[k]].Succeeded?
    {
      QuiescentSucceeds(tasks, s, st, s.nodes[n].deps[k]);
    }
    assert !Enabled(s.nodes, st, Begin(n));
    assert !Enabled(s.nodes, st, End(n, true));
  }

  /** Every listed task has a promise of its own, created by the search. */
  lemma PlanHasPromises(plan: seq<Task>)
    ensures forall k :: 0 <= k < |plan| ==> plan[k].id in Promises(plan).running
  {
    TaskMapKeys(plan);
    assert SearchOk(TaskMap(plan), EMPTY_SEARCH);
    ExecuteAllOk(TaskMap(plan), EMPTY_SEARCH, Ids(plan));
    forall k | 0 <= k < |plan| ensures plan[k].id in Promises(plan).running {
      assert Ids(plan)[k] == plan[k].id;
    }
  }

  lemma PromisesUnbroken(plan: seq<Task>)
    requires Closed(TaskMap(plan)) && Acyclic(TaskMap(plan))
    ensures NoBroken(Promises(plan))
  {
    TaskMapKeys(plan);
    ExecuteAllUnbroken(TaskMap(plan), EMPTY_SEARCH, Ids(plan));
  }

  lemma ResolvesWhenWellFormed(plan: seq<Task>, s: Search, moves: seq<Move>)
    requires s == Promises(plan) && Closed(TaskMap(plan)) && Acyclic(TaskMap(plan))
    requires Legal(s.nodes, Initial(s.nodes), moves) && BodiesSucceed(moves)
    requires Quiescent(s.nodes, Run(s.nodes, Initial(s.nodes), moves))
    ensures AllResolved(plan, s, Run(s.nodes, Initial(s.nodes), moves))
  {
    hide Run, Legal, SearchOk, Closed, Acyclic, Quiescent, BodiesSucceed;
    var st := Run(s.nodes, Initial(s.nodes), moves);
    PromisesOk(plan);
    PromisesUnbroken(plan);
    PlanHasPromises(plan);
    InitialOk(TaskMap(plan), s);
    RunKeepsRunOk(TaskMap(plan), s, Initial(s.nodes), moves);
    NoFailureKept(s.nodes, Initial(s.nodes), moves);
    forall k | 0 <= k < |plan|
      ensures s.running[plan[k].id] < |st.status| && st.status[s.running[plan[k].id]].Succeeded?
    {
      assert EntryOk(TaskMap(plan), s, plan[k].id, s.running[plan[k].id]);
      QuiescentSucceeds(TaskMap(plan), s, st, s.running[plan[k].id]);
    }
  }

  lemma WellFormedWhenResolved(plan: seq<Task>, s: Search, st: State)
    requires SearchOk(TaskMap(plan), s) && RunOk(s, st) && AllResolved(plan, s, st)
    ensures Closed(TaskMap(plan)) && Acyclic(TaskMap(plan))
  {
    var tasks := TaskMap(plan);
    TaskMapKeys(plan);
    forall a | a in tasks ensures a in st.started {
      var k :| 0 <= k < |plan| && Ids(plan)[k] == a;
      assert plan[k].id == a;
      assert EntryOk(tasks, s, a, s.running[a]);
    }
    forall a, b | a in tasks && b in tasks[a] ensures b in tasks {
      ReachesByEdge(tasks, a, b);
      ReachedSucceeded(tasks, s, st, a, b);
    }
    forall p | Path(tasks, p) ensures p[0] != p[|p| - 1] {
      assert Edge(tasks, p[0], p[1]);
      assert Reaches(tasks, p[0], p[|p| - 1]);
      ReachedSucceeded(tasks, s, st, p[0], p[|p| - 1]);
    }
  }

  /**
   * With succeeding bodies, a manifest with unique ids resolves in every
   * complete run exactly when all dependencies exist and the graph is acyclic.
   */
  lemma ResolvesIffWellFormed(plan: seq<Task>, moves: seq<Move>)
    requires Legal(Promises(plan).nodes, Initial(Promises(plan).nodes), moves) && BodiesSucceed(moves)
    requires Quiescent(Promises(plan).nodes, Run(Promises(plan).nodes, Initial(Promises(plan).nodes), moves))
    ensures AllResolved(plan, Promises(plan), Run(Promises(plan).nodes, Initial(Promises(plan).nodes), moves))
            <==> Closed(TaskMap(plan)) && Acyclic(TaskMap(plan))
  {
    var s := Promises(plan);
    var st := Run(s.nodes, Initial(s.nodes), moves);
    if Closed(TaskMap(plan)) && Acyclic(TaskMap(plan)) {
      ResolvesWhenWellFormed(plan, s, moves);
    }
    if AllResolved(plan, s, st) {
      PromisesOk(plan);
      InitialOk(TaskMap(plan), s);
      RunKeepsRunOk(TaskMap(plan), s, Initial(s.nodes), moves);
      WellFormedWhenResolved(plan, s, st);
    }
  }
}
