/** `executeInstallManifest` with its `running` map and `visiting` set updated in place. */
module ManifestExecutor {
  import opened Basics
  import opened TaskGraph
  import opened TaskRun

  /** One turn of `ids.map(execute)`. */
  lemma NextOfAll(tasks: Tasks, s: Search, ids: seq<string>, k: nat)
    requires k < |ids|
    ensures var (s1, n) := TaskGraph.Execute(tasks, s, ids[k]);
            && TaskGraph.ExecuteAll(tasks, s, ids[k..]).0 == TaskGraph.ExecuteAll(tasks, s1, ids[k + 1..]).0
            && TaskGraph.ExecuteAll(tasks, s, ids[k..]).1 == [n] + TaskGraph.ExecuteAll(tasks, s1, ids[k + 1..]).1
  {
    assert ids[k..][0] == ids[k] && ids[k..][1..] == ids[k + 1..];
  }

  lemma NoneLeft(tasks: Tasks, s: Search)
    ensures TaskGraph.ExecuteAll(tasks, s, []) == (s, [])
  {
  }

  lemma NoLongerUnsettled(tasks: Tasks, s: Search, s': Search)
    requires Grows(s, s')
    ensures Unsettled(tasks, s') <= Unsettled(tasks, s)
  {
  }

  class Executor {
    const tasks: Tasks
    /** The promises created so far, in order. */
    var promises: seq<Node>
    var running: map<string, nat>
    var visiting: set<string>

    function View(): Search
      reads this
    {
      Search(promises, running, visiting)
    }

    constructor (tasks: Tasks)
      ensures this.tasks == tasks && View() == EMPTY_SEARCH
    {
      this.tasks := tasks;
      promises, running, visiting := [], map[], {};
    }

    method Execute(id: string) returns (promise: nat)
      modifies this
      ensures (View(), promise) == TaskGraph.Execute(tasks, old(View()), id)
      decreases Unsettled(tasks, View()), 0
    {
      if id in running {
        return running[id];
      }
      promise := |promises|;
      if id !in tasks || id in visiting {
        promises := promises + [Broken];
        return;
      }
      assert id in Unsettled(tasks, View());
      ghost var inside := View().(visiting := visiting + {id});
      assert Unsettled(tasks, inside) == Unsettled(tasks, View()) - {id};
      visiting := visiting + {id};
      var dependencies := ExecuteAll(tasks[id]);
      visiting := visiting - {id};
      promise := |promises|;
      promises := promises + [Waits(id, dependencies)];
      running := running[id := promise];
    }

    /** `ids.map(execute)`. */
    method ExecuteAll(ids: seq<string>) returns (created: seq<nat>)
      modifies this
      ensures (View(), created) == TaskGraph.ExecuteAll(tasks, old(View()), ids)
      decreases Unsettled(tasks, View()), 1
    {
      hide TaskGraph.Execute, TaskGraph.ExecuteAll, Unsettled;
      created := [];
      ghost var whole := TaskGraph.ExecuteAll(tasks, View(), ids);
      assert ids[0..] == ids && [] + whole.1 == whole.1;
      for k := 0 to |ids|
        invariant |created| == k
        invariant Grows(old(View()), View())
        invariant whole.0 == TaskGraph.ExecuteAll(tasks, View(), ids[k..]).0
        invariant whole.1 == created + TaskGraph.ExecuteAll(tasks, View(), ids[k..]).1
      {
        NextOfAll(tasks, View(), ids, k);
        NoLongerUnsettled(tasks, old(View()), View());
        var promise := Execute(ids[k]);
        ghost var after := TaskGraph.ExecuteAll(tasks, View(), ids[k + 1..]).1;
        assert created + ([promise] + after) == (created + [promise]) + after;
        created := created + [promise];
      }
      assert ids[|ids|..] == [] && created + [] == created;
      NoneLeft(tasks, View());
    }
  }

  datatype Refusal = DuplicateIds

  /** Creates every promise, or refuses a plan in which two tasks share an id. */
  method Plan(plan: seq<Task>) returns (r: Result<Search, Refusal>)
    ensures r.Ok? <==> UniqueIds(plan)
    ensures r.Ok? ==> r.value == Promises(plan)
  {
    var tasks: Tasks := map[];
    for k := 0 to |plan|
      invariant tasks == TaskMap(plan[..k])
    {
      assert plan[..k + 1][..k] == plan[..k];
      tasks := tasks[plan[k].id := plan[k].dependsOn];
    }
    assert plan[..|plan|] == plan;
    TaskMapKeys(plan);
    if |tasks| != |plan| {
      return Err(DuplicateIds);
    }
    var executor := new Executor(tasks);
    var _ := executor.ExecuteAll(Ids(plan));
    r := Ok(executor.View());
  }
}
