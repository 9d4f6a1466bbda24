/**
 * `computeFileUpdates`: what to do with every path an old or a new manifest
 * names, with case-sensitive paths.
 */
module InstanceDelta {
  import opened Basics

  type Path = string

  /** A file in an instance, workspace or backup folder. */
  datatype Stored = Stored(data: seq<byte>, mtime: int)

  type Folder = map<Path, Stored>

  /** A manifest entry; `None` is a key that is not there. */
  datatype InstanceFile = InstanceFile(path: Path, sha1: Option<string>, crc32: Option<string>, size: Option<nat>)

  datatype Operation = Add | BackupAdd | Keep | Remove | BackupRemove

  datatype Update = Update(file: InstanceFile, operation: Operation)

  /** The hash functions, and `Number.parseInt` (`None` is NaN). */
  datatype Hashes = Hashes(sha1: seq<byte> -> string, crc32: seq<byte> -> int, parseInt: string -> Option<int>)

  datatype Request = Request(
    hashes: Hashes,
    instance: Folder,
    oldFiles: seq<InstanceFile>,
    newFiles: seq<InstanceFile>,
    oldInstallTime: Option<int>)

  /** Later entries for a path win, as they do when an object is filled in a loop. */
  function ByPath(files: seq<InstanceFile>): map<Path, InstanceFile> {
    if files == [] then map[]
    else ByPath(files[..|files| - 1])[files[|files| - 1].path := files[|files| - 1]]
  }

  function Paths(files: seq<InstanceFile>): (ps: seq<Path>)
    ensures |ps| == |files| && forall i :: 0 <= i < |files| ==> ps[i] == files[i].path
  {
    seq(|files|, i requires 0 <= i < |files| => files[i].path)
  }

  lemma {:induction false} ByPathOk(files: seq<InstanceFile>)
    ensures forall p :: p in ByPath(files) <==> p in Paths(files)
    ensures forall p :: p in ByPath(files) ==> ByPath(files)[p].path == p && ByPath(files)[p] in files
  {
    if files != [] {
      var init := files[..|files| - 1];
      ByPathOk(init);
      assert Paths(files) == Paths(init) + [files[|files| - 1].path];
    }
  }

  /** The last entry for a path counts. */
  lemma {:induction false} LastEntryCounts(files: seq<InstanceFile>, i: nat)
    requires i < |files| && forall j :: i < j < |files| ==> files[j].path != files[i].path
    ensures files[i].path in ByPath(files) && ByPath(files)[files[i].path] == files[i]
  {
    if i < |files| - 1 {
      LastEntryCounts(files[..|files| - 1], i);
    }
  }

  /** Every element once, in order of first appearance. */
  function Distinct(ps: seq<Path>): seq<Path> {
    if ps == [] then []
    else
      var init, last := ps[..|ps| - 1], ps[|ps| - 1];
      if last in init then Distinct(init) else Distinct(init) + [last]
  }

  lemma {:induction false} DistinctOk(ps: seq<Path>)
    ensures forall p :: p in Distinct(ps) <==> p in ps
    ensures forall i, j :: 0 <= i < j < |Distinct(ps)| ==> Distinct(ps)[i] != Distinct(ps)[j]
  {
    if ps != [] {
      var init, last := ps[..|ps| - 1], ps[|ps| - 1];
      DistinctOk(init);
      assert ps == init + [last];
    }
  }

  function CrcDiffers(h: Hashes, recorded: string, data: seq<byte>): bool {
    h.parseInt(recorded) != Some(h.crc32(data))
  }

  /** Whether the file changed since the last install; `None` when there is nothing to compare with. */
  function Changed(r: Request, p: Path): Option<bool>
    requires p in r.instance
  {
    var file := r.instance[p];
    var former := ByPath(r.oldFiles);
    if r.oldInstallTime.Some? then Some(r.oldInstallTime.value < file.mtime)
    else if p !in former then None
    else if former[p].sha1.Some? && former[p].sha1.value != "" then
      Some(former[p].sha1.value != r.hashes.sha1(file.data))
    else if former[p].crc32.Some? && former[p].crc32.value != "" then
      Some(CrcDiffers(r.hashes, former[p].crc32.value, file.data))
    else if former[p].size.Some? && former[p].size.value != 0 then Some(former[p].size.value != |file.data|)
    else None
  }

  /** Whether the file on disk has to be replaced to match a manifest entry. */
  predicate Differs(h: Hashes, data: seq<byte>, wanted: InstanceFile) {
    if wanted.sha1.Some? then h.sha1(data) != wanted.sha1.value
    else
      || (wanted.crc32.Some? && CrcDiffers(h, wanted.crc32.value, data))
      || (wanted.size.Some? && |data| != wanted.size.value)
      || (wanted.crc32.None? && wanted.size.None?)
  }

  function Classify(r: Request, p: Path): Option<Update> {
    var former, new_ := ByPath(r.oldFiles), ByPath(r.newFiles);
    if p !in r.instance then
      if p in new_ then Some(Update(new_[p], Add)) else None
    else
      var changed := Changed(r, p);
      if p in new_ then
        var differs := Differs(r.hashes, r.instance[p].data, new_[p]);
        var operation :=
          if !differs then Keep
          else if changed == Some(true) || changed.None? then BackupAdd
          else Add;
        Some(Update(new_[p], operation))
      else if p in former then
        Some(Update(former[p], if changed == Some(true) then BackupRemove else Remove))
      else None
  }

  // What the inputs say about a file, whatever is computed from them.

  /** What a file on disk can be compared with to find out whether it was modified. */
  datatype Record = InstallTime(time: int) | Sha1(sha1: string) | Crc32(crc32: string) | Size(size: nat)

  /** The old manifest's entry for a path records something to compare with. */
  predicate Recorded(former: InstanceFile, record: Record) {
    match record
    case InstallTime(_) => false
    case Sha1(sha1) => former.sha1 == Some(sha1) && sha1 != ""
    case Crc32(crc32) => former.sha1 in {None, Some("")} && former.crc32 == Some(crc32) && crc32 != ""
    case Size(size) =>
      former.sha1 in {None, Some("")} && former.crc32 in {None, Some("")} && former.size == Some(size) && size > 0
  }

  /** The record that counts for a path: the install time if there is one, or else the best of the old entry's. */
  predicate RecordOf(r: Request, p: Path, record: Record) {
    if r.oldInstallTime.Some? then record == InstallTime(r.oldInstallTime.value)
    else p in ByPath(r.oldFiles) && Recorded(ByPath(r.oldFiles)[p], record)
  }

  /** The file is as the record has it. */
  predicate AsRecorded(h: Hashes, file: Stored, record: Record) {
    match record
    case InstallTime(time) => file.mtime <= time
    case Sha1(sha1) => h.sha1(file.data) == sha1
    case Crc32(crc32) => h.parseInt(crc32) == Some(h.crc32(file.data))
    case Size(size) => |file.data| == size
  }

  /** A record says that the user modified the file since the last install. */
  ghost predicate Modified(r: Request, p: Path)
    requires p in r.instance
  {
    exists record :: RecordOf(r, p, record) && !AsRecorded(r.hashes, r.instance[p], record)
  }

  /** A record says that it was not modified. */
  ghost predicate Unmodified(r: Request, p: Path)
    requires p in r.instance
  {
    exists record :: RecordOf(r, p, record) && AsRecorded(r.hashes, r.instance[p], record)
  }

  /** The file on disk matches a manifest entry: by its sha1, or else by all of crc and size that are given. */
  predicate Matches(h: Hashes, data: seq<byte>, wanted: InstanceFile) {
    match wanted.sha1
    case Some(sha1) => h.sha1(data) == sha1
    case None =>
      && (wanted.crc32.Some? || wanted.size.Some?)
      && (wanted.crc32.Some? ==> h.parseInt(wanted.crc32.value) == Some(h.crc32(data)))
      && (wanted.size.Some? ==> |data| == wanted.size.value)
  }

  lemma OneRecord(r: Request, p: Path, a: Record, b: Record)
    requires RecordOf(r, p, a) && RecordOf(r, p, b)
    ensures a == b
  {
  }

  lemma ChangedIff(r: Request, p: Path)
    requires p in r.instance
    ensures Changed(r, p) == Some(true) <==> Modified(r, p)
    ensures Changed(r, p) == Some(false) <==> Unmodified(r, p)
    ensures Changed(r, p).None? <==> !Modified(r, p) && !Unmodified(r, p)
  {
    var former := ByPath(r.oldFiles);
    if r.oldInstallTime.Some? {
      assert RecordOf(r, p, InstallTime(r.oldInstallTime.value));
    } else if p in former {
      if former[p].sha1.Some? && former[p].sha1.value != "" {
        assert RecordOf(r, p, Sha1(former[p].sha1.value));
      } else if former[p].crc32.Some? && former[p].crc32.value != "" {
        assert RecordOf(r, p, Crc32(former[p].crc32.value));
      } else if former[p].size.Some? && former[p].size.value != 0 {
        assert RecordOf(r, p, Size(former[p].size.value));
      }
    }
  }

  lemma DiffersIff(h: Hashes, data: seq<byte>, wanted: InstanceFile)
    ensures Differs(h, data, wanted) <==> !Matches(h, data, wanted)
  {
  }

  function UpdatesFor(r: Request, ps: seq<Path>): seq<Update> {
    if ps == [] then []
    else
      var rest := UpdatesFor(r, ps[..|ps| - 1]);
      var update := Classify(r, ps[|ps| - 1]);
      if update.Some? then rest + [update.value] else rest
  }

  function JointPaths(r: Request): seq<Path> {
    Distinct(Paths(r.oldFiles) + Paths(r.newFiles))
  }

  function FileUpdates(r: Request): seq<Update> {
    UpdatesFor(r, JointPaths(r))
  }

  lemma ClassifyPath(r: Request, p: Path)
    requires Classify(r, p).Some?
    ensures Classify(r, p).value.file.path == p
  {
    ByPathOk(r.oldFiles);
    ByPathOk(r.newFiles);
  }

  lemma {:induction false} UpdatesForOk(r: Request, ps: seq<Path>)
    requires forall i, j :: 0 <= i < j < |ps| ==> ps[i] != ps[j]
    ensures forall u :: u in UpdatesFor(r, ps) <==> u.file.path in ps && Classify(r, u.file.path) == Some(u)
    ensures UniquePaths(UpdatesFor(r, ps))
  {
    if ps != [] {
      var init, last := ps[..|ps| - 1], ps[|ps| - 1];
      assert ps == init + [last];
      UpdatesForOk(r, init);
      var rest := UpdatesFor(r, init);
      assert forall i :: 0 <= i < |rest| ==> rest[i] in rest;
      if Classify(r, last).Some? {
        ClassifyPath(r, last);
      }
    }
  }

  predicate UniquePaths(us: seq<Update>) {
    forall i, j :: 0 <= i < j < |us| ==> us[i].file.path != us[j].file.path
  }

  /** One update per path at most, and exactly the ones the classification asks for. */
  lemma FileUpdatesOk(r: Request)
    ensures forall u :: u in FileUpdates(r) <==> Classify(r, u.file.path) == Some(u)
    ensures UniquePaths(FileUpdates(r))
  {
    DistinctOk(Paths(r.oldFiles) + Paths(r.newFiles));
    UpdatesForOk(r, JointPaths(r));
    ByPathOk(r.oldFiles);
    ByPathOk(r.newFiles);
  }

  // The same with loops, maps filled in place and hashes computed at most once.

  method CollectByPath(files: seq<InstanceFile>) returns (m: map<Path, InstanceFile>)
    ensures m == ByPath(files)
  {
    m := map[];
    for i := 0 to |files|
      invariant m == ByPath(files[..i])
    {
      assert files[..i + 1][..i] == files[..i];
      m := m[files[i].path := files[i]];
    }
    assert files[..|files|] == files;
  }

  method CollectDistinct(ps: seq<Path>) returns (joint: seq<Path>)
    ensures joint == Distinct(ps)
  {
    var seen: set<Path> := {};
    joint := [];
    for i := 0 to |ps|
      invariant joint == Distinct(ps[..i])
      invariant forall p :: p in seen <==> p in ps[..i]
    {
      assert ps[..i + 1][..i] == ps[..i];
      assert ps[..i + 1] == ps[..i] + [ps[i]];
      if ps[i] !in seen {
        seen := seen + {ps[i]};
        joint := joint + [ps[i]];
      }
    }
    assert ps[..|ps|] == ps;
  }

  method ComputeFileUpdates(r: Request) returns (result: seq<Update>)
    ensures result == FileUpdates(r)
  {
    var oldFiles := CollectByPath(r.oldFiles);
    var toAdd := CollectByPath(r.newFiles);
    var joint := CollectDistinct(Paths(r.oldFiles) + Paths(r.newFiles));
    result := [];
    ByPathOk(r.oldFiles);
    ByPathOk(r.newFiles);
    DistinctOk(Paths(r.oldFiles) + Paths(r.newFiles));
    for i := 0 to |joint|
      invariant result == UpdatesFor(r, joint[..i])
    {
      assert joint[..i + 1][..i] == joint[..i];
      assert joint[i] in joint;
      var update := ClassifyPathOnDisk(r, oldFiles, toAdd, joint[i]);
      if update.Some? {
        result := result + [update.value];
      }
    }
    assert joint[..|joint|] == joint;
  }

  method ClassifyPathOnDisk(r: Request, oldFiles: map<Path, InstanceFile>, toAdd: map<Path, InstanceFile>, p: Path)
    returns (update: Option<Update>)
    requires oldFiles == ByPath(r.oldFiles) && toAdd == ByPath(r.newFiles) && (p in oldFiles || p in toAdd)
    ensures update == Classify(r, p)
  {
    if p !in r.instance {
      if p in toAdd {
        return Some(Update(toAdd[p], Add));
      }
      return None;
    }
    var file := r.instance[p];
    var changed: Option<bool> := None;
    var currentSha1, currentCrc32 := None, None;
    if r.oldInstallTime.Some? {
      changed := Some(r.oldInstallTime.value < file.mtime);
    } else if p in oldFiles {
      var former := oldFiles[p];
      if former.sha1.Some? && former.sha1.value != "" {
        currentSha1 := Some(r.hashes.sha1(file.data));
        changed := Some(former.sha1.value != currentSha1.value);
      } else if former.crc32.Some? && former.crc32.value != "" {
        currentCrc32 := Some(r.hashes.crc32(file.data));
        changed := Some(r.hashes.parseInt(former.crc32.value) != currentCrc32);
      } else if former.size.Some? && former.size.value != 0 {
        changed := Some(former.size.value != |file.data|);
      }
    }
    if p !in toAdd {
      return Some(Update(oldFiles[p], if changed == Some(true) then BackupRemove else Remove));
    }
    var isDifferent := IsFileDiffFromNew(r.hashes, file.data, toAdd[p], currentSha1, currentCrc32);
    var operation :=
      if changed == Some(true) then (if isDifferent then BackupAdd else Keep)
      else if !isDifferent then Keep
      else if changed.None? then BackupAdd
      else Add;
    update := Some(Update(toAdd[p], operation));
  }

  method IsFileDiffFromNew(h: Hashes, data: seq<byte>, wanted: InstanceFile, sha1: Option<string>, crc32: Option<int>)
    returns (differs: bool)
    requires sha1.Some? ==> sha1.value == h.sha1(data)
    requires crc32.Some? ==> crc32.value == h.crc32(data)
    ensures differs == Differs(h, data, wanted)
  {
    if wanted.sha1.Some? {
      var current := if sha1.Some? then sha1.value else h.sha1(data);
      return current != wanted.sha1.value;
    }
    var crcDiff, sizeDiff := None, None;
    if wanted.crc32.Some? {
      var current := if crc32.Some? then crc32.value else h.crc32(data);
      crcDiff := Some(Some(current) != h.parseInt(wanted.crc32.value));
    }
    if wanted.size.Some? {
      sizeDiff := Some(|data| != wanted.size.value);
    }
    if crcDiff == Some(true) || sizeDiff == Some(true) {
      return true;
    }
    return crcDiff.None? && sizeDiff.None?;
  }
}
