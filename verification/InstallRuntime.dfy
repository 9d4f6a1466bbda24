/**
 * `createNodeInstallRuntime().materialize` and `executeMaterialize`, with the
 * file system as mutable state.  Every file system call of the forward path
 * may fail; the calls of a rollback succeed.
 */
module InstallRuntime {
  import opened Basics
  import opened InstallFiles
  import opened InstallTransaction

  datatype Failure = DuplicateTarget | CallFailed | InvalidOutput

  class Runtime {
    const tools: Tools
    var fs: Files
    /** The bookkeeping of the transaction in progress. */
    var prepared: seq<Entry>
    /** How many calls, or checks of the outputs, have failed. */
    var failures: nat

    constructor (tools: Tools, fs: Files)
      ensures this.tools == tools && this.fs == fs && prepared == []
    {
      this.tools := tools;
      this.fs := fs;
      prepared := [];
      failures := 0;
    }

    /** `rename`: fails on a missing source, and otherwise perhaps. */
    method Rename(a: Path, b: Path) returns (ok: bool)
      modifies this`fs, this`failures
      ensures ok <==> failures == old(failures)
      ensures ok ==> a in old(fs) && fs == Moved(old(fs), a, b)
      ensures !ok ==> fs == old(fs)
    {
      ok := *;
      if a !in fs {
        ok := false;
      }
      if ok {
        fs := Moved(fs, a, b);
      } else {
        failures := failures + 1;
      }
    }

    /** Fills a temporary file; a failure may leave anything in it. */
    method Build(op: Operation, temporary: Path) returns (ok: bool)
      requires Builds(op)
      modifies this`fs, this`failures
      ensures ok <==> failures == old(failures)
      ensures ok ==> Output(tools, old(fs), op).Some? && fs == old(fs)[temporary := Output(tools, old(fs), op).value]
      ensures !ok ==> fs - {temporary} == old(fs) - {temporary}
    {
      ok := *;
      var output := Output(tools, fs, op);
      if output.None? {
        ok := false;
      }
      if ok {
        fs := fs[temporary := output.value];
      } else {
        failures := failures + 1;
        var partial: bool, junk: Content := *, File([], DEFAULT_MODE);
        if partial {
          junk := *;
          fs := fs[temporary := junk];
        } else {
          fs := fs - {temporary};
        }
      }
    }

    method Rollback(ghost plan: Plan, ghost stages: seq<Stage>)
      requires FreshNames(plan) && LayoutOk(plan, fs, stages) && EntriesOk(plan, prepared, stages)
      modifies this`fs
      ensures fs == plan.before
    {
      RollbackRestores(plan, fs, prepared, stages);
      var k := |prepared|;
      assert prepared[..k] == prepared;
      while k > 0
        invariant k <= |prepared|
        invariant UndoAll(fs, prepared[..k]) == plan.before
      {
        k := k - 1;
        var entry := prepared[k];
        assert prepared[..k + 1][..k] == prepared[..k];
        if entry.op.EnsureDirectory? {
          if entry.created {
            fs := fs - {entry.op.path};
          }
          continue;
        }
        if entry.replaced && !entry.op.Remove? {
          fs := fs - {entry.op.path};
        }
        if entry.backup.Some? {
          fs := Moved(fs, entry.backup.value, entry.op.path);
        }
        if entry.temporary.Some? {
          fs := fs - {entry.temporary.value};
        }
      }
    }

    /** The directory of an `ensure-directory` operation is created at once. */
    method EnsureDirectory(op: Operation, ghost plan: Plan, ghost stages: seq<Stage>)
      returns (ok: bool, ghost stages': seq<Stage>)
      requires op.EnsureDirectory? && |prepared| < |plan.ops| && op == plan.ops[|prepared|]
      requires FreshNames(plan) && plan.tools == tools
      requires LayoutOk(plan, fs, stages) && EntriesOk(plan, prepared, stages)
      modifies this
      ensures LayoutOk(plan, fs, stages') && EntriesOk(plan, prepared, stages')
      ensures ok ==> |prepared| == |old(prepared)| + 1 && stages' == stages[|old(prepared)| := Staged(None)]
                     && Possible(tools, plan.before, op)
      ensures !ok ==> prepared == old(prepared) && stages' == stages
      ensures ok <==> failures == old(failures)
    {
      ghost var i := |prepared|;
      ghost var fs0 := fs;
      assert CellOk(plan, fs, i, stages[i]);
      stages' := stages;
      var existed := op.path in fs;
      ok := *;
      if existed && fs[op.path].File? {
        ok := false;
      }
      if !ok {
        failures := failures + 1;
        return;
      }
      if !existed {
        fs := fs[op.path := Directory(map[])];
      }
      prepared := prepared + [Entry(op, None, None, false, !existed)];
      assert CellOk(plan, fs, i, Staged(None));
      assert Touches(plan, fs0, fs, i);
      TouchOk(plan, fs0, fs, stages, i, Staged(None));
      stages' := stages[i := Staged(None)];
    }

    method PrepareRemove(op: Operation, ghost plan: Plan, ghost stages: seq<Stage>) returns (ghost stages': seq<Stage>)
      requires op.Remove? && |prepared| < |plan.ops| && op == plan.ops[|prepared|]
      requires FreshNames(plan) && LayoutOk(plan, fs, stages) && EntriesOk(plan, prepared, stages)
      modifies this`prepared
      ensures LayoutOk(plan, fs, stages') && EntriesOk(plan, prepared, stages')
      ensures |prepared| == |old(prepared)| + 1 && stages' == stages[|old(prepared)| := Staged(None)]
    {
      ghost var i := |prepared|;
      assert CellOk(plan, fs, i, stages[i]);
      prepared := prepared + [Entry(op, None, None, false, false)];
      TouchOk(plan, fs, fs, stages, i, Staged(None));
      stages' := stages[i := Staged(None)];
    }

    method PrepareBuild(op: Operation, temporary: Path, ghost plan: Plan, ghost stages: seq<Stage>)
      returns (ok: bool, ghost stages': seq<Stage>)
      requires Builds(op) && |prepared| < |plan.ops| && op == plan.ops[|prepared|]
      requires FreshNames(plan) && plan.tools == tools
      requires LayoutOk(plan, fs, stages) && EntriesOk(plan, prepared, stages)
      requires temporary == plan.temps[|prepared|]
      requires SourcesUntouched(plan, stages)
      modifies this
      ensures LayoutOk(plan, fs, stages') && EntriesOk(plan, prepared, stages')
      ensures |prepared| == |old(prepared)| + 1
      ensures ok <==> failures == old(failures)
      ensures ok ==> Possible(tools, plan.before, op)
                     && stages' == stages[|old(prepared)| := Staged(Output(tools, plan.before, op))]
    {
      ghost var i := |prepared|;
      ghost var fs0 := fs;
      assert CellOk(plan, fs, i, stages[i]);
      prepared := prepared + [Entry(op, Some(temporary), None, false, false)];
      OutputIsOld(plan, fs, stages, i);
      ok := Build(op, temporary);
      ghost var stage := Staged(Get(fs, temporary));
      assert forall p :: p != temporary ==> (p in fs <==> p in fs - {temporary});
      assert Touches(plan, fs0, fs, i);
      assert CellOk(plan, fs, i, stage);
      TouchOk(plan, fs0, fs, stages, i, stage);
      stages' := stages[i := stage];
    }

    /** Moves the old content of target `k` out of the way, if there is any. */
    method Displace(k: nat, backup: Path, ghost plan: Plan, ghost stages: seq<Stage>)
      returns (ok: bool, ghost stages': seq<Stage>)
      requires k < |prepared| <= |plan.ops| && !prepared[k].op.EnsureDirectory?
      requires FreshNames(plan) && LayoutOk(plan, fs, stages) && EntriesOk(plan, prepared, stages)
      requires backup == plan.backups[k] && stages[k].Staged?
      modifies this
      ensures LayoutOk(plan, fs, stages') && EntriesOk(plan, prepared, stages') && |prepared| == |old(prepared)|
      ensures ok <==> failures == old(failures)
      ensures !ok ==> stages' == stages
      ensures ok ==>
                stages' == stages[k := if plan.ops[k].path in plan.before then Displaced(stages[k].tmp) else stages[k]]
    {
      var path := prepared[k].op.path;
      ghost var fs0 := fs;
      assert CellOk(plan, fs, k, stages[k]) && EntryOk(plan, k, prepared[k], stages[k]);
      assert path in fs <==> path in plan.before;
      stages' := stages;
      if path !in fs {
        return true, stages[k := stages[k]];
      }
      ok := Rename(path, backup);
      if !ok {
        return;
      }
      prepared := prepared[k := prepared[k].(backup := Some(backup))];
      assert plan.backups[k] != plan.temps[k];
      assert CellOk(plan, fs, k, Displaced(stages[k].tmp));
      assert Touches(plan, fs0, fs, k);
      TouchOk(plan, fs0, fs, stages, k, Displaced(stages[k].tmp));
      stages' := stages[k := Displaced(stages[k].tmp)];
    }

    /** Moves the temporary of target `k` into place. */
    method Install(k: nat, ghost plan: Plan, ghost stages: seq<Stage>) returns (ok: bool, ghost stages': seq<Stage>)
      requires k < |prepared| <= |plan.ops| && !prepared[k].op.EnsureDirectory?
      requires FreshNames(plan) && plan.tools == tools
      requires LayoutOk(plan, fs, stages) && EntriesOk(plan, prepared, stages)
      requires if plan.ops[k].path in plan.before then stages[k].Displaced? else stages[k].Staged?
      requires Builds(plan.ops[k]) ==> stages[k].tmp == Output(tools, plan.before, plan.ops[k])
      requires Possible(tools, plan.before, plan.ops[k])
      modifies this
      ensures LayoutOk(plan, fs, stages') && EntriesOk(plan, prepared, stages') && |prepared| == |old(prepared)|
      ensures stages' == if ok then stages[k := Swapped] else stages
      ensures ok <==> failures == old(failures)
    {
      hide FreshNames, LayoutOk;
      var entry := prepared[k];
      ghost var fs0 := fs;
      AtIndex(plan, fs, stages, k);
      assert EntryOk(plan, k, entry, stages[k]);
      stages' := stages;
      ok := true;
      if !entry.op.Remove? && entry.temporary.Some? {
        ok := Rename(entry.temporary.value, entry.op.path);
        if !ok {
          return;
        }
        prepared := prepared[k := entry.(temporary := None)];
      }
      prepared := prepared[k := prepared[k].(replaced := true)];
      assert CellOk(plan, fs, k, Swapped);
      assert Touches(plan, fs0, fs, k);
      TouchOk(plan, fs0, fs, stages, k, Swapped);
      stages' := stages[k := Swapped];
    }

    /** The first phase: every operation prepared in order, or a failure. */
    method Prepare(ops: seq<Operation>, temps: seq<Path>, ghost plan: Plan) returns (ok: bool, ghost stages: seq<Stage>)
      requires FreshNames(plan) && plan.tools == tools && plan.ops == ops && plan.temps == temps && plan.before == fs
      requires prepared == []
      modifies this
      ensures LayoutOk(plan, fs, stages) && EntriesOk(plan, prepared, stages)
      ensures ok ==> |prepared| == |ops| && ReadyToSwap(plan, stages, 0)
      ensures ok <==> failures == old(failures)
    {
      stages := AllUntouched(|ops|);
      StartOk(plan);
      for i := 0 to |ops|
        invariant |prepared| == i
        invariant LayoutOk(plan, fs, stages) && EntriesOk(plan, prepared, stages)
        invariant PreparedUpTo(plan, stages, i)
        invariant failures == old(failures)
      {
        PreparedIsUntouched(plan, stages, i);
        if ops[i].EnsureDirectory? {
          ok, stages := EnsureDirectory(ops[i], plan, stages);
          if !ok {
            return;
          }
        } else if ops[i].Remove? {
          stages := PrepareRemove(ops[i], plan, stages);
        } else {
          ok, stages := PrepareBuild(ops[i], temps[i], plan, stages);
          if !ok {
            return;
          }
        }
      }
      ok := true;
    }

    /** The second phase: the targets swapped one after the other, or a failure. */
    method Swap(backups: seq<Path>, ghost plan: Plan, ghost stages: seq<Stage>)
      returns (ok: bool, ghost stages': seq<Stage>)
      requires FreshNames(plan) && plan.tools == tools && plan.backups == backups
      requires LayoutOk(plan, fs, stages) && EntriesOk(plan, prepared, stages)
      requires |prepared| == |plan.ops| && ReadyToSwap(plan, stages, 0)
      modifies this
      ensures LayoutOk(plan, fs, stages') && EntriesOk(plan, prepared, stages') && |prepared| == |plan.ops|
      ensures ok ==> AllDone(plan, stages')
      ensures ok <==> failures == old(failures)
    {
      stages' := stages;
      for k := 0 to |prepared|
        invariant |prepared| == |plan.ops|
        invariant LayoutOk(plan, fs, stages') && EntriesOk(plan, prepared, stages')
        invariant ReadyToSwap(plan, stages', k)
        invariant failures == old(failures)
      {
        assert EntryOk(plan, k, prepared[k], stages'[k]);
        if prepared[k].op.EnsureDirectory? {
          continue;
        }
        ok, stages' := Displace(k, backups[k], plan, stages');
        if !ok {
          return;
        }
        ok, stages' := Install(k, plan, stages');
        if !ok {
          return;
        }
      }
      ok := true;
    }

    /** Prepares everything, then swaps everything; undoes it all when a call fails. */
    method Materialize(ops: seq<Operation>, temps: seq<Path>, backups: seq<Path>)
      returns (r: Result<(), Failure>, ghost stages: seq<Stage>)
      requires DistinctTargets(ops) ==> FreshNames(Plan(tools, fs, ops, temps, backups))
      modifies this
      ensures r.Err? ==> fs == old(fs)
      ensures !DistinctTargets(ops) ==> r == Err(DuplicateTarget)
      ensures DistinctTargets(ops) ==> (r.Ok? <==> failures == old(failures))
      ensures r.Ok? ==> forall i :: 0 <= i < |ops| ==> Possible(tools, old(fs), ops[i])
      ensures r.Ok? ==>
                var plan := Plan(tools, old(fs), ops, temps, backups);
                && FreshNames(plan) && LayoutOk(plan, fs, stages) && EntriesOk(plan, prepared, stages)
                && |prepared| == |ops| && AllDone(plan, stages)
    {
      stages := [];
      var distinct := CheckTargets(ops);
      if !distinct {
        return Err(DuplicateTarget), stages;
      }
      prepared := [];
      ghost var plan := Plan(tools, fs, ops, temps, backups);
      var ok: bool;
      ok, stages := Prepare(ops, temps, plan);
      if ok {
        assert forall i :: 0 <= i < |ops| ==> IsPrepared(plan, stages[i], i) && Possible(tools, plan.before, ops[i]);
        ok, stages := Swap(backups, plan, stages);
      }
      if !ok {
        Rollback(plan, stages);
        return Err(CallFailed), stages;
      }
      r := Ok(());
    }

    /** Removes the backups; a backup that cannot be removed stays behind. */
    method Commit()
      modifies this`fs
      ensures OnlyBackupsGone(prepared, old(fs), fs)
    {
      for k := 0 to |prepared|
        invariant OnlyBackupsGone(prepared, old(fs), fs)
      {
        var removed: bool := *;
        if prepared[k].backup.Some? && removed {
          OneBackupGone(prepared, old(fs), fs, k);
          fs := fs - {prepared[k].backup.value};
        }
      }
    }

    /**
     * `executeMaterialize`: on success every target holds the output computed
     * from the files as they were, on any failure no file has changed.
     */
    method ExecuteMaterialize(ops: seq<Operation>, temps: seq<Path>, backups: seq<Path>)
      returns (r: Result<(), Failure>)
      requires DistinctTargets(ops) ==> FreshNames(Plan(tools, fs, ops, temps, backups))
      modifies this
      ensures r.Err? ==> fs == old(fs)
      ensures !DistinctTargets(ops) ==> r == Err(DuplicateTarget)
      ensures DistinctTargets(ops) ==> (r.Ok? <==> failures == old(failures))
      ensures r.Ok? ==> forall i :: 0 <= i < |ops| ==> Possible(tools, old(fs), ops[i])
      ensures r.Ok? ==> forall op <- ops :: Delivered(tools, old(fs), fs, op)
      ensures r.Ok? ==>
                forall p :: p !in backups && (forall op <- ops :: op.path != p) ==> Get(fs, p) == Get(old(fs), p)
      ensures r.Ok? ==> forall p :: p !in backups ==> Get(fs, p) == Get(Updated(tools, old(fs), ops), p)
      ensures r.Ok? && (forall b :: b in backups ==> b !in fs) ==> fs == Updated(tools, old(fs), ops)
    {
      hide Delivered, Possible;
      ghost var plan := Plan(tools, fs, ops, temps, backups);
      ghost var stages;
      r, stages := Materialize(ops, temps, backups);
      if r.Err? {
        return;
      }
      var outputsValid: bool := *;
      if !outputsValid {
        failures := failures + 1;
        Rollback(plan, stages);
        return Err(InvalidOutput);
      }
      ghost var swapped := fs;
      Commit();
      forall p | p !in backups ensures Get(fs, p) == Get(Updated(tools, plan.before, ops), p) {
        DoneIsUpdate(plan, swapped, stages, p);
        BackupsOnly(plan, prepared, stages);
      }
      UpdatedDelivers(plan, fs);
      if forall b :: b in backups ==> b !in fs {
        BackupsNotUpdated(plan);
        SameGets(fs, Updated(tools, plan.before, ops));
      }
    }
  }

  /** Files that hold the update everywhere but at the backups hold what each operation is to deliver. */
  lemma UpdatedDelivers(plan: Plan, after: Files)
    requires FreshNames(plan) && forall i :: 0 <= i < |plan.ops| ==> Possible(plan.tools, plan.before, plan.ops[i])
    requires forall p :: p !in plan.backups ==> Get(after, p) == Get(Updated(plan.tools, plan.before, plan.ops), p)
    ensures forall op <- plan.ops :: Delivered(plan.tools, plan.before, after, op)
    ensures forall p :: p !in plan.backups && (forall op <- plan.ops :: op.path != p) ==>
              Get(after, p) == Get(plan.before, p)
  {
    hide Possible, Delivered;
    var updated := Updated(plan.tools, plan.before, plan.ops);
    forall i | 0 <= i < |plan.ops| ensures Delivered(plan.tools, plan.before, after, plan.ops[i]) {
      UpdateDelivers(plan.tools, plan.before, plan.ops, i);
      DeliveredAt(plan.tools, plan.before, updated, after, plan.ops[i]);
    }
    forall p | p !in plan.backups && forall op <- plan.ops :: op.path != p
      ensures Get(after, p) == Get(plan.before, p)
    {
      UpdatedAt(plan.tools, plan.before, plan.ops, p);
    }
  }

  lemma DeliveredAt(tools: Tools, before: Files, a: Files, b: Files, op: Operation)
    requires Delivered(tools, before, a, op) && Get(b, op.path) == Get(a, op.path)
    ensures Delivered(tools, before, b, op)
  {
  }

  /** Some entry has `p` as its backup. */
  predicate IsBackup(entries: seq<Entry>, p: Path) {
    exists k :: 0 <= k < |entries| && entries[k].backup == Some(p)
  }

  /** Files differ in nothing but missing backups. */
  ghost predicate OnlyBackupsGone(entries: seq<Entry>, before: Files, after: Files) {
    forall p :: Get(after, p) == Get(before, p) || (p !in after && IsBackup(entries, p))
  }

  lemma OneBackupGone(entries: seq<Entry>, before: Files, after: Files, k: nat)
    requires OnlyBackupsGone(entries, before, after) && k < |entries| && entries[k].backup.Some?
    ensures OnlyBackupsGone(entries, before, after - {entries[k].backup.value})
  {
    var b := entries[k].backup.value;
    assert IsBackup(entries, b);
    forall p ensures Get(after - {b}, p) == Get(before, p) || (p !in after - {b} && IsBackup(entries, p)) {
      assert Get(after, p) == Get(before, p) || (p !in after && IsBackup(entries, p));
    }
  }

  method CheckTargets(ops: seq<Operation>) returns (distinct: bool)
    ensures distinct <==> DistinctTargets(ops)
  {
    var targets: set<Path> := {};
    for i := 0 to |ops|
      invariant forall p :: p in targets <==> exists j :: 0 <= j < i && ops[j].path == p
      invariant forall j, k :: 0 <= j < k < i ==> ops[j].path != ops[k].path
    {
      if ops[i].path in targets {
        return false;
      }
      targets := targets + {ops[i].path};
    }
    distinct := true;
  }

  predicate IsPrepared(plan: Plan, stage: Stage, i: nat)
    requires i < |plan.ops|
  {
    && stage.Staged?
    && Possible(plan.tools, plan.before, plan.ops[i])
    && (Builds(plan.ops[i]) ==> stage.tmp == Output(plan.tools, plan.before, plan.ops[i]))
  }

  /** Operations below `n` are prepared with the right output; the rest are untouched. */
  predicate PreparedUpTo(plan: Plan, stages: seq<Stage>, n: nat) {
    && |stages| == |plan.ops| && n <= |stages|
    && (forall i :: 0 <= i < n ==> IsPrepared(plan, stages[i], i))
    && (forall i :: n <= i < |stages| ==> stages[i].Untouched?)
  }

  lemma PreparedIsUntouched(plan: Plan, stages: seq<Stage>, n: nat)
    requires PreparedUpTo(plan, stages, n)
    ensures SourcesUntouched(plan, stages)
  {
  }

  /** Targets below `k` are done, the others still prepared. */
  predicate ReadyToSwap(plan: Plan, stages: seq<Stage>, k: nat) {
    && |stages| == |plan.ops| && k <= |stages|
    && (forall i :: 0 <= i < k ==> if plan.ops[i].EnsureDirectory? then stages[i].Staged? else stages[i].Swapped?)
    && (forall i :: k <= i < |stages| ==> IsPrepared(plan, stages[i], i))
  }

  lemma BackupsOnly(plan: Plan, entries: seq<Entry>, stages: seq<Stage>)
    requires FreshNames(plan) && EntriesOk(plan, entries, stages)
    ensures forall p :: IsBackup(entries, p) ==> p in plan.backups
  {
    forall p | IsBackup(entries, p) ensures p in plan.backups {
      var k :| 0 <= k < |entries| && entries[k].backup == Some(p);
      assert EntryOk(plan, k, entries[k], stages[k]);
    }
  }

  lemma BackupNotUpdated(plan: Plan, i: nat)
    requires FreshNames(plan) && i < |plan.backups|
    ensures plan.backups[i] !in Updated(plan.tools, plan.before, plan.ops)
  {
    UpdatedAt(plan.tools, plan.before, plan.ops, plan.backups[i]);
    assert forall j :: 0 <= j < |plan.ops| ==> plan.ops[j].path != plan.backups[i];
    assert Get(Updated(plan.tools, plan.before, plan.ops), plan.backups[i]) == Get(plan.before, plan.backups[i]);
  }

  lemma BackupsNotUpdated(plan: Plan)
    requires FreshNames(plan)
    ensures forall b :: b in plan.backups ==> b !in Updated(plan.tools, plan.before, plan.ops)
  {
    forall i | 0 <= i < |plan.backups| ensures plan.backups[i] !in Updated(plan.tools, plan.before, plan.ops) {
      BackupNotUpdated(plan, i);
    }
  }
}
