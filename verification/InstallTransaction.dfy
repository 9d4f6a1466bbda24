/**
 * The stages a materialize transaction takes each target through, and what
 * its rollback undoes.
 */
module InstallTransaction {
  import opened Basics
  import opened InstallFiles

  /** The bookkeeping the transaction keeps for one operation. */
  datatype Entry = Entry(op: Operation, temporary: Option<Path>, backup: Option<Path>, replaced: bool, created: bool)

  /**
   * How far one operation has come: nothing done, temporary under construction
   * (with whatever it holds), old content moved to the backup, or done.
   */
  datatype Stage = Untouched | Staged(tmp: Option<Content>) | Displaced(tmp: Option<Content>) | Swapped

  /** What stays fixed during a transaction. */
  datatype Plan = Plan(tools: Tools, before: Files, ops: seq<Operation>, temps: seq<Path>, backups: seq<Path>)

  predicate InCell(plan: Plan, i: nat, p: Path)
    requires i < |plan.ops| && |plan.temps| == |plan.backups| == |plan.ops|
  {
    p == plan.ops[i].path || p == plan.temps[i] || p == plan.backups[i]
  }

  /** The generated names are new and used once, and no two operations share a target. */
  predicate FreshNames(plan: Plan) {
    && |plan.temps| == |plan.backups| == |plan.ops|
    && DistinctTargets(plan.ops)
    && (forall i, j :: 0 <= i < |plan.ops| && 0 <= j < |plan.ops| ==>
          && plan.temps[i] != plan.backups[j]
          && plan.temps[i] != plan.ops[j].path && plan.backups[i] != plan.ops[j].path
          && (i != j ==> plan.temps[i] != plan.temps[j] && plan.backups[i] != plan.backups[j])
          && plan.temps[i] !in Sources(plan.ops[j]))
    && (forall i :: 0 <= i < |plan.ops| ==> plan.temps[i] !in plan.before && plan.backups[i] !in plan.before)
  }

  lemma CellsApart(plan: Plan, i: nat, j: nat, p: Path)
    requires FreshNames(plan) && i < |plan.ops| && j < |plan.ops| && i != j && InCell(plan, i, p)
    ensures !InCell(plan, j, p)
  {
  }

  predicate CellOk(plan: Plan, fs: Files, i: nat, stage: Stage)
    requires i < |plan.ops| && |plan.temps| == |plan.backups| == |plan.ops|
  {
    var op, t, b := plan.ops[i], plan.temps[i], plan.backups[i];
    match stage
    case Untouched => Get(fs, op.path) == Get(plan.before, op.path) && t !in fs && b !in fs
    case Staged(tmp) =>
      && Get(fs, op.path) ==
         (if op.EnsureDirectory? then After(plan.tools, plan.before, op) else Get(plan.before, op.path))
      && Get(fs, t) == tmp && b !in fs
      && (!Builds(op) ==> tmp.None?)
    case Displaced(tmp) =>
      && op.path !in fs && Get(fs, t) == tmp
      && op.path in plan.before && Get(fs, b) == Get(plan.before, op.path)
      && (!Builds(op) ==> tmp.None?)
    case Swapped =>
      && Get(fs, op.path) == After(plan.tools, plan.before, op)
      && t !in fs && Get(fs, b) == Get(plan.before, op.path)
  }

  ghost predicate Elsewhere(plan: Plan, fs: Files)
    requires |plan.temps| == |plan.backups| == |plan.ops|
  {
    forall p :: (forall i :: 0 <= i < |plan.ops| ==> !InCell(plan, i, p)) ==> Get(fs, p) == Get(plan.before, p)
  }

  ghost predicate LayoutOk(plan: Plan, fs: Files, stages: seq<Stage>)
    requires |plan.temps| == |plan.backups| == |plan.ops|
  {
    && |stages| == |plan.ops|
    && (forall i :: 0 <= i < |stages| ==> CellOk(plan, fs, i, stages[i]))
    && Elsewhere(plan, fs)
  }

  /** Only the paths of operation `i` differ. */
  ghost predicate Touches(plan: Plan, fs: Files, fs': Files, i: nat)
    requires i < |plan.ops| && |plan.temps| == |plan.backups| == |plan.ops|
  {
    forall p :: !InCell(plan, i, p) ==> Get(fs', p) == Get(fs, p)
  }

  /** One operation's cell, and its three paths, which are different ones. */
  lemma AtIndex(plan: Plan, fs: Files, stages: seq<Stage>, i: nat)
    requires FreshNames(plan) && LayoutOk(plan, fs, stages) && i < |plan.ops|
    ensures |plan.temps| == |plan.backups| == |plan.ops| == |stages|
    ensures CellOk(plan, fs, i, stages[i])
    ensures plan.temps[i] != plan.ops[i].path && plan.backups[i] != plan.ops[i].path
    ensures plan.backups[i] != plan.temps[i]
  {
  }

  lemma TouchOk(plan: Plan, fs: Files, fs': Files, stages: seq<Stage>, i: nat, stage: Stage)
    requires FreshNames(plan) && LayoutOk(plan, fs, stages) && i < |plan.ops|
    requires Touches(plan, fs, fs', i) && CellOk(plan, fs', i, stage)
    ensures LayoutOk(plan, fs', stages[i := stage])
  {
    forall j | 0 <= j < |stages| && j != i ensures CellOk(plan, fs', j, stages[j]) {
      CellsApart(plan, j, i, plan.ops[j].path);
      CellsApart(plan, j, i, plan.temps[j]);
      CellsApart(plan, j, i, plan.backups[j]);
      assert CellOk(plan, fs, j, stages[j]);
      assert Get(fs', plan.temps[j]) == Get(fs, plan.temps[j]);
      assert Get(fs', plan.backups[j]) == Get(fs, plan.backups[j]);
    }
  }

  function AllUntouched(n: nat): (stages: seq<Stage>)
    ensures |stages| == n && forall i :: 0 <= i < n ==> stages[i] == Untouched
  {
    seq(n, _ => Untouched)
  }

  lemma StartOk(plan: Plan)
    requires FreshNames(plan)
    ensures LayoutOk(plan, plan.before, AllUntouched(|plan.ops|))
  {
  }

  /** With every operation undone the files are what they were. */
  lemma UntouchedMeansUnchanged(plan: Plan, fs: Files, stages: seq<Stage>)
    requires FreshNames(plan) && LayoutOk(plan, fs, stages)
    requires forall i :: 0 <= i < |stages| ==> stages[i] == Untouched
    ensures fs == plan.before
  {
    forall p ensures Get(fs, p) == Get(plan.before, p) {
      if i :| 0 <= i < |plan.ops| && InCell(plan, i, p) {
        assert CellOk(plan, fs, i, stages[i]);
      }
    }
    SameGets(fs, plan.before);
  }

  lemma SameGets(fs: Files, fs': Files)
    requires forall p :: Get(fs, p) == Get(fs', p)
    ensures fs == fs'
  {
    forall p ensures p in fs <==> p in fs' {
      assert Get(fs, p) == Get(fs', p);
    }
    forall p | p in fs ensures fs[p] == fs'[p] {
      assert Get(fs, p) == Get(fs', p);
    }
  }

  // Entries and rollback.

  predicate EntryOk(plan: Plan, i: nat, e: Entry, stage: Stage)
    requires i < |plan.ops| && |plan.temps| == |plan.backups| == |plan.ops|
  {
    var op := plan.ops[i];
    var temporary := if Builds(op) then Some(plan.temps[i]) else None;
    && e.op == op
    && (op.EnsureDirectory? ==> stage.Staged? && e.created == (op.path !in plan.before))
    && match stage
       case Untouched => false
       case Staged(_) => e.temporary == temporary && e.backup.None? && !e.replaced
       case Displaced(_) => e.temporary == temporary && e.backup == Some(plan.backups[i]) && !e.replaced
       case Swapped =>
         && e.temporary.None? && e.replaced
         && e.backup == (if op.path in plan.before then Some(plan.backups[i]) else None)
  }

  function Moved(fs: Files, a: Path, b: Path): Files {
    if a in fs then (fs - {a})[b := fs[a]] else fs
  }

  /** What rollback does for one entry, its own calls succeeding. */
  function Undo(fs: Files, e: Entry): Files {
    if e.op.EnsureDirectory? then
      if e.created then fs - {e.op.path} else fs
    else
      var f1 := if e.replaced && !e.op.Remove? then fs - {e.op.path} else fs;
      var f2 := if e.backup.Some? then Moved(f1, e.backup.value, e.op.path) else f1;
      if e.temporary.Some? then f2 - {e.temporary.value} else f2
  }

  lemma UndoRestores(plan: Plan, fs: Files, i: nat, e: Entry, stage: Stage)
    requires FreshNames(plan) && i < |plan.ops| && CellOk(plan, fs, i, stage) && EntryOk(plan, i, e, stage)
    ensures CellOk(plan, Undo(fs, e), i, Untouched)
    ensures Touches(plan, fs, Undo(fs, e), i)
  {
    assert plan.temps[i] != plan.backups[i];
    assert plan.temps[i] != plan.ops[i].path && plan.backups[i] != plan.ops[i].path;
  }

  /** Rolling back the entries from the last to the first. */
  function UndoAll(fs: Files, entries: seq<Entry>): Files
    decreases |entries|
  {
    if entries == [] then fs
    else UndoAll(Undo(fs, entries[|entries| - 1]), entries[..|entries| - 1])
  }

  ghost predicate EntriesOk(plan: Plan, entries: seq<Entry>, stages: seq<Stage>)
    requires |plan.temps| == |plan.backups| == |plan.ops|
  {
    && |entries| <= |plan.ops| == |stages|
    && (forall i :: 0 <= i < |entries| ==> EntryOk(plan, i, entries[i], stages[i]))
    && (forall i :: |entries| <= i < |stages| ==> stages[i] == Untouched)
  }

  /** Whatever stage each operation has reached, rollback restores every file. */
  lemma {:induction false} RollbackRestores(plan: Plan, fs: Files, entries: seq<Entry>, stages: seq<Stage>)
    requires FreshNames(plan) && LayoutOk(plan, fs, stages) && EntriesOk(plan, entries, stages)
    ensures UndoAll(fs, entries) == plan.before
    decreases |entries|
  {
    if entries == [] {
      UntouchedMeansUnchanged(plan, fs, stages);
    } else {
      var i := |entries| - 1;
      UndoRestores(plan, fs, i, entries[i], stages[i]);
      TouchOk(plan, fs, Undo(fs, entries[i]), stages, i, Untouched);
      RollbackRestores(plan, Undo(fs, entries[i]), entries[..i], stages[i := Untouched]);
    }
  }

  // Success.

  predicate AllDone(plan: Plan, stages: seq<Stage>) {
    && |stages| == |plan.ops|
    && forall i :: 0 <= i < |stages| ==> if plan.ops[i].EnsureDirectory? then stages[i].Staged? else stages[i].Swapped?
  }

  /** Every path but the backups holds what the simultaneous update gives it. */
  lemma DoneIsUpdate(plan: Plan, fs: Files, stages: seq<Stage>, p: Path)
    requires FreshNames(plan) && LayoutOk(plan, fs, stages) && AllDone(plan, stages)
    requires p !in plan.backups
    ensures Get(fs, p) == Get(Updated(plan.tools, plan.before, plan.ops), p)
  {
    UpdatedAt(plan.tools, plan.before, plan.ops, p);
    if i :| 0 <= i < |plan.ops| && InCell(plan, i, p) {
      assert CellOk(plan, fs, i, stages[i]);
    }
  }

  // Outputs are computed before anything is swapped.

  /** Nothing has been displaced yet. */
  predicate SourcesUntouched(plan: Plan, stages: seq<Stage>) {
    forall i :: 0 <= i < |stages| ==> stages[i].Untouched? || stages[i].Staged?
  }

  /** During preparation a source reads as it did before the transaction. */
  lemma SourceIsOld(plan: Plan, fs: Files, stages: seq<Stage>, j: nat, p: Path)
    requires FreshNames(plan) && LayoutOk(plan, fs, stages) && SourcesUntouched(plan, stages)
    requires j < |plan.ops| && p in Sources(plan.ops[j]) && p !in plan.backups
    ensures Data(fs, p) == Data(plan.before, p) && (Data(fs, p).Some? ==> fs[p] == plan.before[p])
  {
    if i :| 0 <= i < |plan.ops| && InCell(plan, i, p) {
      assert p != plan.temps[i];
      assert CellOk(plan, fs, i, stages[i]);
    } else {
      assert Get(fs, p) == Get(plan.before, p);
    }
  }

  lemma BackupIsAbsent(plan: Plan, fs: Files, stages: seq<Stage>, p: Path)
    requires FreshNames(plan) && LayoutOk(plan, fs, stages) && SourcesUntouched(plan, stages) && p in plan.backups
    ensures p !in fs && p !in plan.before
  {
    var i :| 0 <= i < |plan.backups| && plan.backups[i] == p;
    assert CellOk(plan, fs, i, stages[i]);
  }

  lemma OutputIsOld(plan: Plan, fs: Files, stages: seq<Stage>, j: nat)
    requires FreshNames(plan) && LayoutOk(plan, fs, stages) && SourcesUntouched(plan, stages)
    requires j < |plan.ops| && Builds(plan.ops[j])
    ensures Output(plan.tools, fs, plan.ops[j]) == Output(plan.tools, plan.before, plan.ops[j])
  {
    forall p | p in Sources(plan.ops[j])
      ensures Data(fs, p) == Data(plan.before, p) && (Data(fs, p).Some? ==> fs[p] == plan.before[p])
    {
      if p in plan.backups {
        BackupIsAbsent(plan, fs, stages, p);
      } else {
        SourceIsOld(plan, fs, stages, j, p);
      }
    }
    OutputAgrees(plan.tools, fs, plan.before, plan.ops[j]);
  }
}
