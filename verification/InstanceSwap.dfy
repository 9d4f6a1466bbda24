/**
 * `backupAndRename(updates)` over three folders, with rollback.  A rename of
 * the forward path may fail at any time; the renames of a rollback succeed.
 */
module InstanceSwap {
  import opened InstanceDelta

  function ToSet(ps: seq<Path>): (s: set<Path>)
    ensures forall p :: p in s <==> p in ps
  {
    set p | p in ps
  }

  function Only(m: Folder, s: set<Path>): (r: Folder)
    ensures forall p :: p in r <==> p in m && p in s
    ensures forall p :: p in r ==> r[p] == m[p]
  {
    map p | p in m && p in s :: m[p]
  }

  predicate DistinctPaths(ps: seq<Path>) {
    forall i, j :: 0 <= i < j < |ps| ==> ps[i] != ps[j]
  }

  // Which updates each phase handles.

  predicate NeedsBackup(u: Update, unresolvable: set<Path>) {
    u.operation.Remove? || u.operation.BackupRemove? || (u.operation.BackupAdd? && u.file.path !in unresolvable)
  }

  predicate NeedsRename(u: Update, unresolvable: set<Path>) {
    (u.operation.Add? || u.operation.BackupAdd?) && u.file.path !in unresolvable
  }

  function Select(us: seq<Update>, keep: Update -> bool): seq<Path> {
    if us == [] then []
    else
      var rest, last := Select(us[..|us| - 1], keep), us[|us| - 1];
      if keep(last) then rest + [last.file.path] else rest
  }

  lemma {:induction false} SelectOk(us: seq<Update>, keep: Update -> bool)
    ensures forall p :: p in Select(us, keep) <==> exists u :: u in us && keep(u) && u.file.path == p
    ensures UniquePaths(us) ==> DistinctPaths(Select(us, keep))
  {
    if us != [] {
      var init, last := us[..|us| - 1], us[|us| - 1];
      assert us == init + [last];
      SelectOk(init, keep);
      if UniquePaths(us) {
        assert UniquePaths(init);
        SelectDistinct(us, keep);
      }
      forall p ensures p in Select(us, keep) <==> exists u :: u in us && keep(u) && u.file.path == p {
        if p in Select(init, keep) {
          var u :| u in init && keep(u) && u.file.path == p;
          assert u in us;
        } else if p in Select(us, keep) {
          assert last in us && keep(last) && last.file.path == p;
        }
        if u :| u in us && keep(u) && u.file.path == p {
          assert u in init || u == last;
        }
      }
    }
  }

  lemma {:induction false} SelectDistinct(us: seq<Update>, keep: Update -> bool)
    requires UniquePaths(us)
    ensures DistinctPaths(Select(us, keep))
    ensures forall p :: p in Select(us, keep) ==> exists i :: 0 <= i < |us| && us[i].file.path == p
  {
    if us != [] {
      var init, last := us[..|us| - 1], us[|us| - 1];
      var rest := Select(init, keep);
      SelectDistinct(init, keep);
      forall p | p in rest ensures p != last.file.path && exists i :: 0 <= i < |us| && us[i].file.path == p {
        var i :| 0 <= i < |init| && init[i].file.path == p;
        assert us[i].file.path == p;
      }
      assert forall i :: 0 <= i < |rest| ==> rest[i] in rest;
      assert us[|us| - 1].file.path == last.file.path;
    }
  }

  function BackupQueue(us: seq<Update>, unresolvable: set<Path>): seq<Path> {
    Select(us, (u: Update) => NeedsBackup(u, unresolvable))
  }

  function RemoveQueue(us: seq<Update>): seq<Path> {
    Select(us, (u: Update) => u.operation.Remove?)
  }

  function RenameQueue(us: seq<Update>, unresolvable: set<Path>): seq<Path> {
    Select(us, (u: Update) => NeedsRename(u, unresolvable))
  }

  /** The files phase 2 takes out of the instance. */
  function Displaced(instance: Folder, us: seq<Update>, unresolvable: set<Path>): set<Path> {
    ToSet(BackupQueue(us, unresolvable)) * instance.Keys
  }

  function FinalInstance(instance: Folder, workspace: Folder, us: seq<Update>, unresolvable: set<Path>): Folder {
    instance - Displaced(instance, us, unresolvable) + Only(workspace, ToSet(RenameQueue(us, unresolvable)))
  }

  function FinalBackup(instance: Folder, us: seq<Update>, unresolvable: set<Path>): Folder {
    Only(instance, Displaced(instance, us, unresolvable)) - ToSet(RemoveQueue(us))
  }

  datatype Ending = Done | BackupFailed | RenameFailed(finished: seq<Path>)

  // Moving one file more.

  lemma PutOne(base: Folder, src: Folder, done: set<Path>, p: Path)
    requires p in src
    ensures (base + Only(src, done))[p := src[p]] == base + Only(src, done + {p})
  {
  }

  lemma TakeOne(src: Folder, left: set<Path>, p: Path)
    ensures Only(src, left) - {p} == Only(src, left - {p})
  {
  }

  lemma DropOne(src: Folder, gone: set<Path>, p: Path)
    ensures src - gone - {p} == src - (gone + {p})
  {
  }

  lemma PutBackOne(src: Folder, gone: set<Path>, p: Path)
    requires p in src && p in gone
    ensures (src - gone)[p := src[p]] == src - (gone - {p})
  {
  }

  lemma UndoOne(base: Folder, src: Folder, left: set<Path>, gone: set<Path>, p: Path)
    requires p in left && p !in gone && p in src
    ensures p in base + Only(src, left) - gone && (base + Only(src, left) - gone)[p] == src[p]
    ensures (base + Only(src, left) - gone) - {p} == base + Only(src, left - {p}) - (gone + {p})
  {
  }

  lemma UndoEnds(base: Folder, src: Folder, s: set<Path>)
    ensures base + Only(src, s) - {} == base + Only(src, s)
    ensures base + Only(src, {}) - s == base - s
    ensures src - {} == src
  {
  }

  lemma SplitAt(ps: seq<Path>, i: nat)
    requires i < |ps| && DistinctPaths(ps)
    ensures ps[i] in ToSet(ps[i..]) && ToSet(ps[i + 1..]) == ToSet(ps[i..]) - {ps[i]}
    ensures ps[i] !in ToSet(ps[..i]) && ToSet(ps[..i + 1]) == ToSet(ps[..i]) + {ps[i]}
  {
    assert ps[i..] == [ps[i]] + ps[i + 1..];
    assert ps[..i + 1] == ps[..i] + [ps[i]];
  }

  lemma NothingMoved(before: Folder)
    ensures before - {} == before && Only(before, {}) == map[]
    ensures ToSet([]) == {} && DistinctPaths([])
  {
  }

  lemma SeenOne(seen: set<Path>, keys: set<Path>, p: Path)
    ensures (seen + {p}) * keys == seen * keys + (if p in keys then {p} else {})
  {
  }

  lemma AppendOne(ps: seq<Path>, p: Path)
    requires DistinctPaths(ps) && p !in ToSet(ps)
    ensures DistinctPaths(ps + [p]) && ToSet(ps + [p]) == ToSet(ps) + {p}
  {
  }

  class Folders {
    var instance: Folder
    var workspace: Folder
    var backup: Folder
    /** How many renames have failed. */
    var failures: nat

    /** Phase 2: moves the queued files that exist to the backup folder. */
    method MoveToBackup(queue: seq<Path>) returns (ok: bool, finished: seq<Path>)
      requires DistinctPaths(queue) && backup == map[]
      modifies this`instance, this`backup, this`failures
      ensures ok <==> failures == old(failures)
      ensures ok ==> ToSet(finished) == ToSet(queue) * old(instance).Keys && DistinctPaths(finished)
      ensures ok ==> instance == old(instance) - ToSet(finished) && backup == Only(old(instance), ToSet(finished))
      ensures !ok ==> instance == old(instance) && backup == old(backup)
    {
      hide ToSet, Only, DistinctPaths;
      finished := [];
      ghost var moved, seen := {}, {};
      NothingMoved(old(instance));
      for i := 0 to |queue|
        invariant DistinctPaths(finished) && ToSet(finished) == moved
        invariant seen == ToSet(queue[..i]) && moved == seen * old(instance).Keys
        invariant instance == old(instance) - moved
        invariant backup == Only(old(instance), moved)
        invariant failures == old(failures)
      {
        var p := queue[i];
        SplitAt(queue, i);
        SeenOne(seen, old(instance).Keys, p);
        seen := seen + {p};
        if p !in instance {
          continue; // already gone
        }
        var fails: bool := *;
        if fails {
          failures := failures + 1;
          RestoreBackup(finished, old(instance));
          return false, finished;
        }
        PutOne(map[], old(instance), moved, p);
        DropOne(old(instance), moved, p);
        AppendOne(finished, p);
        backup := backup[p := instance[p]];
        instance := instance - {p};
        finished := finished + [p];
        moved := moved + {p};
      }
      assert queue[..|queue|] == queue;
      ok := true;
    }

    /** Moves backed-up files back; what they displace is lost. */
    method RestoreBackup(finished: seq<Path>, ghost before: Folder)
      requires DistinctPaths(finished) && ToSet(finished) <= before.Keys
      requires backup == Only(before, ToSet(finished))
      modifies this`instance, this`backup
      ensures backup == map[]
      ensures instance == old(instance) + Only(before, ToSet(finished))
    {
      for i := 0 to |finished|
        invariant backup == Only(before, ToSet(finished[i..]))
        invariant instance == old(instance) + Only(before, ToSet(finished[..i]))
      {
        var p := finished[i];
        SplitAt(finished, i);
        PutOne(old(instance), before, ToSet(finished[..i]), p);
        TakeOne(before, ToSet(finished[i..]), p);
        instance := instance[p := backup[p]];
        backup := backup - {p};
      }
      assert finished[..|finished|] == finished;
    }

    /** Phase 3: renames workspace files into the instance, in any order, until one fails. */
    method MoveIntoInstance(queue: seq<Path>) returns (ok: bool, finished: seq<Path>)
      requires DistinctPaths(queue)
      modifies this`instance, this`workspace, this`failures
      ensures ok <==> failures == old(failures)
      ensures DistinctPaths(finished) && ToSet(finished) <= ToSet(queue) * old(workspace).Keys
      ensures instance == old(instance) + Only(old(workspace), ToSet(finished))
      ensures workspace == old(workspace) - ToSet(finished)
      ensures if ok then ToSet(finished) == ToSet(queue) else ToSet(finished) < ToSet(queue)
    {
      finished := [];
      var outstanding := ToSet(queue);
      while outstanding != {}
        invariant DistinctPaths(finished) && ToSet(finished) <= old(workspace).Keys
        invariant ToSet(finished) !! outstanding && ToSet(finished) + outstanding == ToSet(queue)
        invariant instance == old(instance) + Only(old(workspace), ToSet(finished))
        invariant workspace == old(workspace) - ToSet(finished)
        invariant failures == old(failures)
        decreases outstanding
      {
        var p: Path :| p in outstanding;
        var fails: bool := *;
        if fails || p !in workspace {
          failures := failures + 1;
          return false, finished;
        }
        PutOne(old(instance), old(workspace), ToSet(finished), p);
        DropOne(old(workspace), ToSet(finished), p);
        AppendOne(finished, p);
        instance := instance[p := workspace[p]];
        workspace := workspace - {p};
        finished := finished + [p];
        outstanding := outstanding - {p};
      }
      ok := true;
    }

    /** Undoes phase 3: the renamed files go back to the workspace. */
    method ReturnToWorkspace(finished: seq<Path>, ghost before: Folder, ghost workspaceBefore: Folder)
      requires DistinctPaths(finished) && ToSet(finished) <= workspaceBefore.Keys
      requires instance == before + Only(workspaceBefore, ToSet(finished))
      requires workspace == workspaceBefore - ToSet(finished)
      modifies this`instance, this`workspace
      ensures workspace == workspaceBefore
      ensures instance == before - ToSet(finished)
    {
      ghost var left, gone := ToSet(finished), {};
      UndoEnds(before, workspaceBefore, left);
      for i := 0 to |finished|
        invariant left == ToSet(finished[i..]) && gone == ToSet(finished[..i])
        invariant workspace == workspaceBefore - left
        invariant instance == before + Only(workspaceBefore, left) - gone
      {
        var p := finished[i];
        SplitAt(finished, i);
        UndoOne(before, workspaceBefore, left, gone, p);
        PutBackOne(workspaceBefore, left, p);
        workspace := workspace[p := instance[p]];
        instance := instance - {p};
        left, gone := left - {p}, gone + {p};
      }
      assert finished[..|finished|] == finished;
      assert left == {};
      UndoEnds(before, workspaceBefore, gone);
    }

    /** Deletes the backups of removed files. */
    method DeleteRemoved(queue: seq<Path>)
      modifies this`backup
      ensures backup == old(backup) - ToSet(queue)
    {
      for i := 0 to |queue|
        invariant backup == old(backup) - ToSet(queue[..i])
      {
        assert queue[..i + 1] == queue[..i] + [queue[i]];
        backup := backup - {queue[i]};
      }
      assert queue[..|queue|] == queue;
    }

    /**
     * Phases 2 and 3.  A failure in phase 2 changes nothing; a failure in phase
     * 3 loses exactly the files that finished renames overwrote without a backup.
     */
    method BackupAndRename(us: seq<Update>, unresolvable: set<Path>) returns (ending: Ending)
      requires UniquePaths(us) && backup == map[]
      modifies this
      ensures ending.Done? <==> failures == old(failures)
      ensures match ending
              case Done =>
                && ToSet(RenameQueue(us, unresolvable)) <= old(workspace).Keys
                && instance == FinalInstance(old(instance), old(workspace), us, unresolvable)
                && backup == FinalBackup(old(instance), us, unresolvable)
                && workspace == map[]
              case BackupFailed =>
                instance == old(instance) && workspace == old(workspace) && backup == map[]
              case RenameFailed(finished) =>
                && ToSet(finished) < ToSet(RenameQueue(us, unresolvable))
                && ToSet(finished) <= old(workspace).Keys
                && workspace == old(workspace) && backup == map[]
                && instance == old(instance) - (ToSet(finished) - Displaced(old(instance), us, unresolvable))
    {
      QueuesDistinct(us, unresolvable);
      var ok, phase2 := MoveToBackup(BackupQueue(us, unresolvable));
      if !ok {
        return BackupFailed;
      }
      ghost var moved := ToSet(phase2);
      var phase3;
      ok, phase3 := MoveIntoInstance(RenameQueue(us, unresolvable));
      if !ok {
        ReturnToWorkspace(phase3, old(instance) - moved, old(workspace));
        RestoreBackup(phase2, old(instance));
        RollbackResult(old(instance), moved, ToSet(phase3));
        return RenameFailed(phase3);
      }
      DeleteRemoved(RemoveQueue(us));
      workspace := map[];
      ending := Done;
    }
  }

  lemma QueuesDistinct(us: seq<Update>, unresolvable: set<Path>)
    requires UniquePaths(us)
    ensures DistinctPaths(BackupQueue(us, unresolvable)) && DistinctPaths(RenameQueue(us, unresolvable))
  {
    SelectOk(us, (u: Update) => NeedsBackup(u, unresolvable));
    SelectOk(us, (u: Update) => NeedsRename(u, unresolvable));
  }

  lemma RollbackResult(before: Folder, moved: set<Path>, finished: set<Path>)
    requires moved <= before.Keys
    ensures (before - moved - finished) + Only(before, moved) == before - (finished - moved)
  {
  }
}
