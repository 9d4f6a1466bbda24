/**
 * The task graph of an install manifest and the memoised depth-first search
 * of `executeInstallManifest`.  A promise is a node that is rejected from the
 * start or waits for nodes created before it.
 */
module TaskGraph {

  /** Task id to the ids it depends on. */
  type Tasks = map<string, seq<string>>

  datatype Node = Broken | Waits(task: string, deps: seq<nat>)

  datatype Search = Search(nodes: seq<Node>, running: map<string, nat>, visiting: set<string>)

  // The graph.

  predicate Edge(tasks: Tasks, a: string, b: string) {
    a in tasks && b in tasks[a]
  }

  /** A path of at least one edge. */
  predicate Path(tasks: Tasks, p: seq<string>) {
    |p| >= 2 && forall k :: 0 <= k < |p| - 1 ==> Edge(tasks, p[k], p[k + 1])
  }

  ghost predicate Reaches(tasks: Tasks, a: string, b: string) {
    exists p :: Path(tasks, p) && p[0] == a && p[|p| - 1] == b
  }

  ghost predicate Acyclic(tasks: Tasks) {
    forall p :: Path(tasks, p) ==> p[0] != p[|p| - 1]
  }

  predicate Closed(tasks: Tasks) {
    forall a :: a in tasks ==> forall b :: b in tasks[a] ==> b in tasks
  }

  lemma ReachesByEdge(tasks: Tasks, a: string, b: string)
    requires Edge(tasks, a, b)
    ensures Reaches(tasks, a, b)
  {
    var p := [a, b];
    assert Path(tasks, p) && p[0] == a && p[|p| - 1] == b;
  }

  lemma ReachesExtends(tasks: Tasks, a: string, b: string, c: string)
    requires Reaches(tasks, a, b) && Edge(tasks, b, c)
    ensures Reaches(tasks, a, c)
  {
    var p :| Path(tasks, p) && p[0] == a && p[|p| - 1] == b;
    var q := p + [c];
    assert Path(tasks, q) && q[0] == a && q[|q| - 1] == c;
  }

  // The search.

  /** What one call of the search may change: promises are only added. */
  predicate Grows(s: Search, s': Search) {
    && s'.visiting == s.visiting
    && |s.nodes| <= |s'.nodes|
    && s.nodes == s'.nodes[..|s.nodes|]
    && (forall id :: id in s.running ==> id in s'.running && s'.running[id] == s.running[id])
  }

  function Unsettled(tasks: Tasks, s: Search): set<string> {
    tasks.Keys - s.visiting - s.running.Keys
  }

  function Append(s: Search, node: Node): Search {
    s.(nodes := s.nodes + [node])
  }

  function Execute(tasks: Tasks, s: Search, id: string): (r: (Search, nat))
    ensures Grows(s, r.0)
    decreases Unsettled(tasks, s), 0
  {
    if id in s.running then (s, s.running[id])
    else if id !in tasks || id in s.visiting then (Append(s, Broken), |s.nodes|)
    else
      var inside := s.(visiting := s.visiting + {id});
      assert id in Unsettled(tasks, s) && Unsettled(tasks, inside) == Unsettled(tasks, s) - {id};
      var (s1, deps) := ExecuteAll(tasks, inside, tasks[id]);
      var s2 := Append(s1.(visiting := s1.visiting - {id}), Waits(id, deps));
      (s2.(running := s1.running[id := |s1.nodes|]), |s1.nodes|)
  }

  function ExecuteAll(tasks: Tasks, s: Search, ids: seq<string>): (r: (Search, seq<nat>))
    ensures Grows(s, r.0) && |r.1| == |ids|
    decreases Unsettled(tasks, s), |ids| + 1
  {
    if ids == [] then (s, [])
    else
      var (s1, n) := Execute(tasks, s, ids[0]);
      var (s2, rest) := ExecuteAll(tasks, s1, ids[1..]);
      (s2, [n] + rest)
  }

  // What the search builds.

  /** Dependency `name` of a node: the promise of that very task, or a rejected one. */
  predicate DependsOn(s: Search, name: string, dep: nat) {
    && dep < |s.nodes|
    && (s.nodes[dep].Broken? || (name in s.running && s.running[name] == dep))
  }

  predicate EntryOk(tasks: Tasks, s: Search, id: string, n: nat) {
    && id in tasks
    && n < |s.nodes|
    && s.nodes[n].Waits? && s.nodes[n].task == id
    && |s.nodes[n].deps| == |tasks[id]|
    && forall k :: 0 <= k < |tasks[id]| ==>
         s.nodes[n].deps[k] < n && DependsOn(s, tasks[id][k], s.nodes[n].deps[k])
  }

  predicate SearchOk(tasks: Tasks, s: Search) {
    && (forall id :: id in s.running ==> EntryOk(tasks, s, id, s.running[id]))
    && (forall n :: 0 <= n < |s.nodes| && s.nodes[n].Waits? ==>
          s.nodes[n].task in s.running && s.running[s.nodes[n].task] == n)
    && s.visiting !! s.running.Keys
  }

  lemma AppendBrokenOk(tasks: Tasks, s: Search)
    requires SearchOk(tasks, s)
    ensures SearchOk(tasks, Append(s, Broken))
  {
    var s' := Append(s, Broken);
    forall id | id in s'.running ensures EntryOk(tasks, s', id, s'.running[id]) {
      assert EntryOk(tasks, s, id, s.running[id]);
    }
  }

  lemma SettleOk(tasks: Tasks, s: Search, id: string, deps: seq<nat>)
    requires SearchOk(tasks, s) && id in s.visiting && id in tasks && |deps| == |tasks[id]|
    requires forall k :: 0 <= k < |deps| ==> DependsOn(s, tasks[id][k], deps[k])
    ensures SearchOk(tasks, Append(s.(visiting := s.visiting - {id}), Waits(id, deps))
                            .(running := s.running[id := |s.nodes|]))
  {
    var s' := Append(s.(visiting := s.visiting - {id}), Waits(id, deps)).(running := s.running[id := |s.nodes|]);
    forall x | x in s'.running ensures EntryOk(tasks, s', x, s'.running[x]) {
      if x != id {
        assert EntryOk(tasks, s, x, s.running[x]);
      }
    }
  }

  lemma DependsOnKeeps(s: Search, s': Search, name: string, dep: nat)
    requires DependsOn(s, name, dep) && Grows(s, s')
    ensures DependsOn(s', name, dep)
  {
  }

  lemma {:induction false} ExecuteOk(tasks: Tasks, s: Search, id: string)
    requires SearchOk(tasks, s)
    ensures var r := Execute(tasks, s, id);
            && SearchOk(tasks, r.0)
            && DependsOn(r.0, id, r.1)
            && (id in tasks && id !in s.visiting ==> id in r.0.running)
    decreases Unsettled(tasks, s), 0
  {
    if id !in s.running {
      if id !in tasks || id in s.visiting {
        AppendBrokenOk(tasks, s);
      } else {
        var inside := s.(visiting := s.visiting + {id});
        assert id in Unsettled(tasks, s) && Unsettled(tasks, inside) == Unsettled(tasks, s) - {id};
        ExecuteAllOk(tasks, inside, tasks[id]);
        var (s1, deps) := ExecuteAll(tasks, inside, tasks[id]);
        SettleOk(tasks, s1, id, deps);
      }
    }
  }

  lemma SettledStays(tasks: Tasks, s: Search, s': Search)
    requires Grows(s, s')
    ensures s'.visiting == s.visiting && s.running.Keys <= s'.running.Keys
    ensures Unsettled(tasks, s') <= Unsettled(tasks, s)
  {
  }

  lemma {:induction false} ExecuteAllOk(tasks: Tasks, s: Search, ids: seq<string>)
    requires SearchOk(tasks, s)
    ensures var r := ExecuteAll(tasks, s, ids);
            && SearchOk(tasks, r.0)
            && (forall k :: 0 <= k < |ids| ==> DependsOn(r.0, ids[k], r.1[k]))
            && (forall k :: 0 <= k < |ids| && ids[k] in tasks && ids[k] !in s.visiting ==> ids[k] in r.0.running)
    decreases Unsettled(tasks, s), |ids| + 1
  {
    hide Execute, SearchOk, DependsOn, Unsettled, Grows;
    if ids != [] {
      ExecuteOk(tasks, s, ids[0]);
      var (s1, n) := Execute(tasks, s, ids[0]);
      SettledStays(tasks, s, s1);
      ExecuteAllOk(tasks, s1, ids[1..]);
      var s2 := ExecuteAll(tasks, s1, ids[1..]).0;
      SettledStays(tasks, s1, s2);
      DependsOnKeeps(s1, s2, ids[0], n);
    }
  }

  // When nothing is rejected from the start.

  predicate NoBroken(s: Search) {
    forall n :: 0 <= n < |s.nodes| ==> s.nodes[n].Waits?
  }

  /** The visiting set is a chain that leads to `id`. */
  ghost predicate VisitingReaches(tasks: Tasks, s: Search, id: string) {
    forall v :: v in s.visiting ==> Reaches(tasks, v, id)
  }

  lemma {:induction false} ExecuteUnbroken(tasks: Tasks, s: Search, id: string)
    requires Closed(tasks) && Acyclic(tasks) && id in tasks
    requires NoBroken(s) && VisitingReaches(tasks, s, id)
    ensures NoBroken(Execute(tasks, s, id).0)
    decreases Unsettled(tasks, s), 0
  {
    if id !in s.running {
      assert id !in s.visiting;
      var inside := s.(visiting := s.visiting + {id});
      assert id in Unsettled(tasks, s) && Unsettled(tasks, inside) == Unsettled(tasks, s) - {id};
      forall b | b in tasks[id] ensures b in tasks && VisitingReaches(tasks, inside, b) {
        assert Edge(tasks, id, b);
        forall v | v in inside.visiting ensures Reaches(tasks, v, b) {
          if v == id {
            ReachesByEdge(tasks, id, b);
          } else {
            ReachesExtends(tasks, v, id, b);
          }
        }
      }
      ExecuteAllUnbroken(tasks, inside, tasks[id]);
    }
  }

  lemma {:induction false} ExecuteAllUnbroken(tasks: Tasks, s: Search, ids: seq<string>)
    requires Closed(tasks) && Acyclic(tasks)
    requires forall b :: b in ids ==> b in tasks && VisitingReaches(tasks, s, b)
    requires NoBroken(s)
    ensures NoBroken(ExecuteAll(tasks, s, ids).0)
    decreases Unsettled(tasks, s), |ids| + 1
  {
    if ids != [] {
      ExecuteUnbroken(tasks, s, ids[0]);
      var (s1, n) := Execute(tasks, s, ids[0]);
      assert forall b :: b in ids[1..] ==> b in ids;
      forall b | b in ids[1..] ensures VisitingReaches(tasks, s1, b) {
        assert VisitingReaches(tasks, s, b);
      }
      ExecuteAllUnbroken(tasks, s1, ids[1..]);
    }
  }
}
