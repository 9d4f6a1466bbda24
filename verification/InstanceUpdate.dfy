/** Classifying an instance's files and then applying the classification. */
module InstanceUpdate {
  import opened Basics
  import opened InstanceDelta
  import opened InstanceSwap

  // What is to become of a path, read off the inputs.

  /** The new manifest wants a path it can provide, and the file there, if any, does not match. */
  predicate Replaced(r: Request, unresolvable: set<Path>, p: Path) {
    && p in ByPath(r.newFiles) && p !in unresolvable
    && (p in r.instance ==> !Matches(r.hashes, r.instance[p].data, ByPath(r.newFiles)[p]))
  }

  /** Only the old manifest names the path. */
  predicate Dropped(r: Request, p: Path) {
    p in ByPath(r.oldFiles) && p !in ByPath(r.newFiles)
  }

  /** The operation computed for a path. */
  ghost predicate Has(r: Request, p: Path, operation: Operation) {
    Classify(r, p).Some? && Classify(r, p).value.operation == operation
  }

  lemma Operations(r: Request, p: Path)
    ensures Has(r, p, Add) || Has(r, p, BackupAdd) <==> Replaced(r, {}, p)
    ensures p in r.instance && Has(r, p, Add) ==> Unmodified(r, p)
    ensures Has(r, p, BackupAdd) ==> p in r.instance && !Unmodified(r, p)
    ensures Has(r, p, BackupRemove) <==> p in r.instance && Dropped(r, p) && Modified(r, p)
    ensures Has(r, p, Remove) <==> p in r.instance && Dropped(r, p) && !Modified(r, p)
  {
    hide Changed, Differs, Modified, Unmodified, Matches;
    if p in r.instance {
      ChangedIff(r, p);
      if p in ByPath(r.newFiles) {
        DiffersIff(r.hashes, r.instance[p].data, ByPath(r.newFiles)[p]);
      }
    }
  }

  lemma InQueue(r: Request, keep: Update -> bool, p: Path)
    ensures p in Select(FileUpdates(r), keep) <==> Classify(r, p).Some? && keep(Classify(r, p).value)
  {
    SelectOk(FileUpdates(r), keep);
    FileUpdatesOk(r);
    if Classify(r, p).Some? {
      ClassifyPath(r, p);
      assert Classify(r, p).value in FileUpdates(r);
    }
  }

  lemma InQueues(r: Request, unresolvable: set<Path>, p: Path)
    ensures p in RenameQueue(FileUpdates(r), unresolvable) <==> Replaced(r, unresolvable, p)
    ensures p in BackupQueue(FileUpdates(r), unresolvable) <==>
              p in r.instance && (Dropped(r, p) || (Replaced(r, unresolvable, p) && !Unmodified(r, p)))
    ensures p in RemoveQueue(FileUpdates(r)) <==> p in r.instance && Dropped(r, p) && !Modified(r, p)
  {
    hide Classify, FileUpdates, Modified, Unmodified, Matches;
    InQueue(r, (u: Update) => NeedsBackup(u, unresolvable), p);
    InQueue(r, (u: Update) => NeedsRename(u, unresolvable), p);
    InQueue(r, (u: Update) => u.operation.Remove?, p);
    Operations(r, p);
    if Classify(r, p).Some? {
      ClassifyPath(r, p);
    }
  }

  function At(m: Folder, p: Path): Option<Stored> {
    if p in m then Some(m[p]) else None
  }

  /**
   * Where one path ends up. A replaced file goes to the backup unless it is
   * known to be unmodified, a dropped one only if it is known to be modified;
   * all else stays where it is.
   */
  lemma FinalAt(r: Request, workspace: Folder, unresolvable: set<Path>, p: Path)
    requires ToSet(RenameQueue(FileUpdates(r), unresolvable)) <= workspace.Keys
    ensures At(FinalInstance(r.instance, workspace, FileUpdates(r), unresolvable), p) ==
              if Replaced(r, unresolvable, p) then At(workspace, p)
              else if Dropped(r, p) then None
              else At(r.instance, p)
    ensures At(FinalBackup(r.instance, FileUpdates(r), unresolvable), p) ==
              if p in r.instance && ((Replaced(r, unresolvable, p) && !Unmodified(r, p))
                                     || (Dropped(r, p) && Modified(r, p)))
              then Some(r.instance[p])
              else None
  {
    hide FileUpdates, Modified, Unmodified, Matches, RenameQueue, BackupQueue, RemoveQueue;
    InQueues(r, unresolvable, p);
    assert p in ToSet(RenameQueue(FileUpdates(r), unresolvable)) ==> p in workspace;
  }

  /**
   * A wanted path holds the new file or one already matching it, a path only the
   * old manifest names is gone, any other path is untouched.
   */
  predicate ReachesManifest(r: Request, workspace: Folder, unresolvable: set<Path>, final: Folder, p: Path) {
    var result, wanted := At(final, p), ByPath(r.newFiles);
    && (p in wanted && p !in unresolvable ==>
          if p in r.instance && Matches(r.hashes, r.instance[p].data, wanted[p]) then result == Some(r.instance[p])
          else p in workspace && result == Some(workspace[p]))
    && (p in wanted && p in unresolvable ==> result == At(r.instance, p))
    && (p !in wanted && p in ByPath(r.oldFiles) ==> result == None)
    && (p !in wanted && p !in ByPath(r.oldFiles) ==> result == At(r.instance, p))
  }

  /** Updating an instance, the workspace holding every file that is to be renamed in. */
  lemma UpdateReachesManifest(r: Request, workspace: Folder, unresolvable: set<Path>, p: Path)
    requires ToSet(RenameQueue(FileUpdates(r), unresolvable)) <= workspace.Keys
    ensures ReachesManifest(r, workspace, unresolvable,
                            FinalInstance(r.instance, workspace, FileUpdates(r), unresolvable), p)
  {
    hide FileUpdates, Matches, Modified, Unmodified, RenameQueue, FinalInstance;
    FinalAt(r, workspace, unresolvable, p);
    InQueues(r, unresolvable, p);
    assert p in ToSet(RenameQueue(FileUpdates(r), unresolvable)) ==> p in workspace;
  }

  /** The file's bytes are still in the instance or in the backup. */
  ghost predicate Survives(r: Request, workspace: Folder, unresolvable: set<Path>, p: Path)
    requires p in r.instance
  {
    || At(FinalInstance(r.instance, workspace, FileUpdates(r), unresolvable), p) == Some(r.instance[p])
    || At(FinalBackup(r.instance, FileUpdates(r), unresolvable), p) == Some(r.instance[p])
  }

  /** A file that the record for it says was modified since the last install is never lost. */
  lemma ModifiedFilesSurvive(r: Request, workspace: Folder, unresolvable: set<Path>, p: Path, record: Record)
    requires ToSet(RenameQueue(FileUpdates(r), unresolvable)) <= workspace.Keys
    requires p in r.instance && RecordOf(r, p, record) && !AsRecorded(r.hashes, r.instance[p], record)
    ensures Survives(r, workspace, unresolvable, p)
  {
    hide FileUpdates, FinalInstance, FinalBackup, Matches;
    if Unmodified(r, p) {
      var other :| RecordOf(r, p, other) && AsRecorded(r.hashes, r.instance[p], other);
      OneRecord(r, p, record, other);
    }
    FinalAt(r, workspace, unresolvable, p);
  }

  lemma ModifiedSurvives(r: Request, workspace: Folder, unresolvable: set<Path>, p: Path)
    requires ToSet(RenameQueue(FileUpdates(r), unresolvable)) <= workspace.Keys
    requires p in r.instance && Modified(r, p)
    ensures Survives(r, workspace, unresolvable, p)
  {
    hide FileUpdates, Survives;
    var record :| RecordOf(r, p, record) && !AsRecorded(r.hashes, r.instance[p], record);
    ModifiedFilesSurvive(r, workspace, unresolvable, p, record);
  }

  /** A file that the record for it says was not modified leaves nothing in the backup. */
  lemma UnmodifiedIsNotBackedUp(r: Request, workspace: Folder, unresolvable: set<Path>, p: Path, record: Record)
    requires ToSet(RenameQueue(FileUpdates(r), unresolvable)) <= workspace.Keys
    requires p in r.instance && RecordOf(r, p, record) && AsRecorded(r.hashes, r.instance[p], record)
    ensures p !in FinalBackup(r.instance, FileUpdates(r), unresolvable)
  {
    hide FileUpdates, FinalInstance, FinalBackup, Matches;
    if Modified(r, p) {
      var other :| RecordOf(r, p, other) && !AsRecorded(r.hashes, r.instance[p], other);
      OneRecord(r, p, record, other);
    }
    FinalAt(r, workspace, unresolvable, p);
  }

  /**
   * A file is lost exactly when it is dropped and nothing says that it was
   * modified, or when it is known to be unmodified and replaced by something
   * else.
   */
  lemma LostFiles(r: Request, workspace: Folder, unresolvable: set<Path>, p: Path)
    requires ToSet(RenameQueue(FileUpdates(r), unresolvable)) <= workspace.Keys
    requires p in r.instance
    ensures !Survives(r, workspace, unresolvable, p) <==>
              || (Dropped(r, p) && !Modified(r, p))
              || (Replaced(r, unresolvable, p) && Unmodified(r, p) && At(workspace, p) != Some(r.instance[p]))
  {
    hide FileUpdates, FinalInstance, FinalBackup, Matches, Modified, Unmodified;
    FinalAt(r, workspace, unresolvable, p);
  }

  /**
   * A failed phase 3 restores the instance exactly when no finished rename
   * had overwritten an unmodified file, which is replaced without a backup.
   */
  lemma RollbackExactIff(r: Request, unresolvable: set<Path>, finished: set<Path>)
    requires finished <= ToSet(RenameQueue(FileUpdates(r), unresolvable))
    ensures r.instance - (finished - Displaced(r.instance, FileUpdates(r), unresolvable)) == r.instance <==>
              forall p :: p in finished ==> !(p in r.instance && Unmodified(r, p))
  {
    hide FileUpdates, Unmodified, Modified, Matches;
    var lost := finished - Displaced(r.instance, FileUpdates(r), unresolvable);
    forall p | p in finished
      ensures (p in lost && p in r.instance) <==> (p in r.instance && Unmodified(r, p))
    {
      InQueues(r, unresolvable, p);
    }
    if r.instance - lost == r.instance {
      forall p | p in finished ensures !(p in r.instance && Unmodified(r, p)) {
        assert p in r.instance - lost <==> p in r.instance;
      }
    }
  }

  /** An existing file that is to be replaced without a backup, alongside another path to rename. */
  ghost predicate AtRisk(r: Request, workspace: Folder, unresolvable: set<Path>, p: Path) {
    && p in r.instance && p in workspace && Replaced(r, unresolvable, p) && Unmodified(r, p)
    && exists q :: q != p && Replaced(r, unresolvable, q)
  }

  /** The renames that can have finished when phase 3 fails: not all of them. */
  predicate CanFailAfter(r: Request, workspace: Folder, unresolvable: set<Path>, finished: set<Path>) {
    finished < ToSet(RenameQueue(FileUpdates(r), unresolvable)) && finished <= workspace.Keys
  }

  /** What a failed phase 3 leaves of the instance is all of it. */
  predicate Restored(r: Request, unresolvable: set<Path>, finished: set<Path>) {
    r.instance - (finished - Displaced(r.instance, FileUpdates(r), unresolvable)) == r.instance
  }

  lemma NotAtRisk(r: Request, workspace: Folder, unresolvable: set<Path>, finished: set<Path>)
    requires CanFailAfter(r, workspace, unresolvable, finished)
    requires forall p :: !AtRisk(r, workspace, unresolvable, p)
    ensures Restored(r, unresolvable, finished)
  {
    hide FileUpdates, Displaced, RenameQueue, Replaced, Unmodified;
    var queue := ToSet(RenameQueue(FileUpdates(r), unresolvable));
    var q :| q in queue && q !in finished;
    InQueues(r, unresolvable, q);
    forall p | p in finished ensures !(p in r.instance && Unmodified(r, p)) {
      InQueues(r, unresolvable, p);
      assert Replaced(r, unresolvable, q) && q != p;
      assert !AtRisk(r, workspace, unresolvable, p);
    }
    RollbackExactIff(r, unresolvable, finished);
  }

  /** A path at risk is lost when its rename finishes and another one fails. */
  lemma AtRiskIsLost(r: Request, workspace: Folder, unresolvable: set<Path>, p: Path)
    requires AtRisk(r, workspace, unresolvable, p)
    ensures CanFailAfter(r, workspace, unresolvable, {p}) && !Restored(r, unresolvable, {p})
  {
    hide FileUpdates, Displaced, RenameQueue, Replaced, Unmodified;
    var q :| q != p && Replaced(r, unresolvable, q);
    InQueues(r, unresolvable, p);
    InQueues(r, unresolvable, q);
    assert q in ToSet(RenameQueue(FileUpdates(r), unresolvable)) && q !in {p};
    RollbackExactIff(r, unresolvable, {p});
    assert p in {p};
  }

  /**
   * Whatever renames have finished when phase 3 fails, the instance is restored,
   * if and only if no existing unmodified file is replaced alongside another
   * path to rename.
   */
  lemma RollbackRestoresIff(r: Request, workspace: Folder, unresolvable: set<Path>)
    ensures (forall finished: set<Path> :: CanFailAfter(r, workspace, unresolvable, finished) ==>
               Restored(r, unresolvable, finished))
            <==> forall p :: !AtRisk(r, workspace, unresolvable, p)
  {
    hide CanFailAfter, Restored, AtRisk;
    if forall p :: !AtRisk(r, workspace, unresolvable, p) {
      forall finished: set<Path> | CanFailAfter(r, workspace, unresolvable, finished)
        ensures Restored(r, unresolvable, finished)
      {
        NotAtRisk(r, workspace, unresolvable, finished);
      }
    }
    if p :| AtRisk(r, workspace, unresolvable, p) {
      AtRiskIsLost(r, workspace, unresolvable, p);
    }
  }

  /** An update over a fresh backup folder, from manifests to final folders. */
  method UpdateInstance(folders: Folders, r: Request, unresolvable: set<Path>) returns (ending: Ending)
    requires folders.instance == r.instance && folders.backup == map[]
    modifies folders
    ensures ending.Done? <==> folders.failures == old(folders.failures)
    ensures ending.Done? ==>
              && (forall p :: Replaced(r, unresolvable, p) ==> p in old(folders.workspace))
              && folders.instance == FinalInstance(r.instance, old(folders.workspace), FileUpdates(r), unresolvable)
              && folders.backup == FinalBackup(r.instance, FileUpdates(r), unresolvable)
              && folders.workspace == map[]
              && (forall p :: ReachesManifest(r, old(folders.workspace), unresolvable, folders.instance, p))
              && forall p :: p in r.instance && Modified(r, p) ==>
                   At(folders.instance, p) == Some(r.instance[p]) || At(folders.backup, p) == Some(r.instance[p])
    ensures ending.BackupFailed? ==>
              folders.instance == r.instance && folders.workspace == old(folders.workspace) && folders.backup == map[]
    ensures ending.RenameFailed? ==>
              && folders.workspace == old(folders.workspace) && folders.backup == map[]
              && CanFailAfter(r, old(folders.workspace), unresolvable, ToSet(ending.finished))
              && (folders.instance == r.instance <==>
                    forall p :: p in ending.finished ==> !(p in r.instance && Unmodified(r, p)))
    ensures (forall p :: !AtRisk(r, old(folders.workspace), unresolvable, p)) && !ending.Done? ==>
              folders.instance == r.instance
  {
    hide FileUpdates, FinalInstance, FinalBackup, Classify, RenameQueue, ReachesManifest, Modified, Unmodified;
    hide Replaced;
    var updates := ComputeFileUpdates(r);
    FileUpdatesOk(r);
    ending := folders.BackupAndRename(updates, unresolvable);
    match ending
    case Done =>
      forall p ensures ReachesManifest(r, old(folders.workspace), unresolvable, folders.instance, p) {
        UpdateReachesManifest(r, old(folders.workspace), unresolvable, p);
      }
      forall p | Replaced(r, unresolvable, p) ensures p in old(folders.workspace) {
        InQueues(r, unresolvable, p);
        assert p in ToSet(RenameQueue(updates, unresolvable));
      }
      forall p | p in r.instance && Modified(r, p)
        ensures At(folders.instance, p) == Some(r.instance[p]) || At(folders.backup, p) == Some(r.instance[p])
      {
        ModifiedSurvives(r, old(folders.workspace), unresolvable, p);
      }
    case BackupFailed =>
    case RenameFailed(finished) =>
      RollbackExactIff(r, unresolvable, ToSet(finished));
      RollbackRestoresIff(r, old(folders.workspace), unresolvable);
  }
}
