/**
 * The files a materialize task works on, its operations and what they produce.
 * Paths are compared as strings and no target lies inside another.
 */
module InstallFiles {
  import opened Basics

  type Path = string

  datatype Content = File(data: seq<byte>, mode: nat) | Directory(entries: map<string, seq<byte>>)

  type Files = map<Path, Content>

  datatype Operation =
    | Write(path: Path, content: seq<byte>)
    | EnsureDirectory(path: Path)
    | Chmod(path: Path, mode: nat)
    | Copy(path: Path, source: Path)
    | Link(path: Path, source: Path)
    | Remove(path: Path)
    | Extract(path: Path, archive: Path, entry: string)
    | MergeZip(path: Path, archives: seq<Path>, excludePrefixes: seq<string>)
    | ExtractArchive(path: Path, archive: Path, stripComponents: nat)

  /** The archive readers and writers, as far as their results go; `None` is an error. */
  datatype Tools = Tools(
    entryOf: (seq<byte>, string) -> Option<seq<byte>>,
    merge: (seq<seq<byte>>, seq<string>) -> Option<seq<byte>>,
    unpack: (seq<byte>, nat) -> Option<map<string, seq<byte>>>)

  const DEFAULT_MODE: nat := 0x1A4 // rw-r--r--

  function Get(fs: Files, p: Path): Option<Content> {
    if p in fs then Some(fs[p]) else None
  }

  /** The operations that build their output in a temporary file. */
  predicate Builds(op: Operation) {
    !op.EnsureDirectory? && !op.Remove?
  }

  function Data(fs: Files, p: Path): Option<seq<byte>> {
    if p in fs && fs[p].File? then Some(fs[p].data) else None
  }

  function AllData(fs: Files, ps: seq<Path>): Option<seq<seq<byte>>> {
    if ps == [] then Some([])
    else
      var head, rest := Data(fs, ps[0]), AllData(fs, ps[1..]);
      if head.Some? && rest.Some? then Some([head.value] + rest.value) else None
  }

  function AsFile(data: Option<seq<byte>>): Option<Content> {
    if data.Some? then Some(File(data.value, DEFAULT_MODE)) else None
  }

  /** What an operation puts into its temporary file, or `None` if it must fail. */
  function Output(tools: Tools, fs: Files, op: Operation): Option<Content>
    requires Builds(op)
  {
    match op
    case Write(_, content) => Some(File(content, DEFAULT_MODE))
    case Chmod(path, mode) =>
      if Data(fs, path).Some? then Some(File(fs[path].data, mode)) else None
    case Copy(_, source) => if Data(fs, source).Some? then Some(fs[source]) else None
    case Link(_, source) => if Data(fs, source).Some? then Some(fs[source]) else None
    case Extract(_, archive, entry) =>
      if Data(fs, archive).Some? then AsFile(tools.entryOf(fs[archive].data, entry)) else None
    case MergeZip(_, archives, excludePrefixes) =>
      var all := AllData(fs, archives);
      if all.Some? then AsFile(tools.merge(all.value, excludePrefixes)) else None
    case ExtractArchive(_, archive, stripComponents) =>
      if Data(fs, archive).None? then None
      else
        var tree := tools.unpack(fs[archive].data, stripComponents);
        if tree.Some? then Some(Directory(tree.value)) else None
  }

  /** The paths whose contents `Output` depends on. */
  function Sources(op: Operation): seq<Path> {
    match op
    case Chmod(path, _) => [path]
    case Copy(_, source) => [source]
    case Link(_, source) => [source]
    case Extract(_, archive, _) => [archive]
    case MergeZip(_, archives, _) => archives
    case ExtractArchive(_, archive, _) => [archive]
    case _ => []
  }

  lemma {:induction false} AllDataAgrees(fs: Files, fs': Files, ps: seq<Path>)
    requires forall p :: p in ps ==> Data(fs, p) == Data(fs', p)
    ensures AllData(fs, ps) == AllData(fs', ps)
  {
    if ps != [] {
      AllDataAgrees(fs, fs', ps[1..]);
    }
  }

  /** Files that agree on an operation's sources give it the same output. */
  lemma OutputAgrees(tools: Tools, fs: Files, fs': Files, op: Operation)
    requires Builds(op)
    requires forall p :: p in Sources(op) ==> Data(fs, p) == Data(fs', p) && (Data(fs, p).Some? ==> fs[p] == fs'[p])
    ensures Output(tools, fs, op) == Output(tools, fs', op)
  {
    if op.MergeZip? {
      AllDataAgrees(fs, fs', op.archives);
    } else if Sources(op) != [] {
      assert Sources(op)[0] in Sources(op);
    }
  }

  /** The reference: every target takes its new content at once, computed from the files as they were. */
  function After(tools: Tools, fs: Files, op: Operation): Option<Content> {
    match op
    case Remove(_) => None
    case EnsureDirectory(path) => if path in fs then Some(fs[path]) else Some(Directory(map[]))
    case _ => Output(tools, fs, op)
  }

  predicate Possible(tools: Tools, fs: Files, op: Operation) {
    && (Builds(op) ==> Output(tools, fs, op).Some?)
    && (op.EnsureDirectory? && op.path in fs ==> fs[op.path].Directory?)
  }

  function Put(fs: Files, p: Path, content: Option<Content>): Files {
    if content.Some? then fs[p := content.value] else fs - {p}
  }

  /** All targets updated, every output taken from `before`. */
  function Updated(tools: Tools, before: Files, ops: seq<Operation>): Files {
    if ops == [] then before
    else
      var last := ops[|ops| - 1];
      Put(Updated(tools, before, ops[..|ops| - 1]), last.path, After(tools, before, last))
  }

  lemma {:induction false} UpdatedAt(tools: Tools, before: Files, ops: seq<Operation>, p: Path)
    requires DistinctTargets(ops)
    ensures (forall i :: 0 <= i < |ops| ==> ops[i].path != p) ==> Get(Updated(tools, before, ops), p) == Get(before, p)
    ensures forall i :: 0 <= i < |ops| && ops[i].path == p ==>
              Get(Updated(tools, before, ops), p) == After(tools, before, ops[i])
  {
    if ops != [] {
      var init := ops[..|ops| - 1];
      UpdatedAt(tools, before, init, p);
      assert forall i :: 0 <= i < |init| ==> init[i] == ops[i];
    }
  }

  predicate DistinctTargets(ops: seq<Operation>) {
    forall i, j :: 0 <= i < j < |ops| ==> ops[i].path != ops[j].path
  }

  predicate WasFile(before: Files, p: Path) {
    p in before && before[p].File?
  }

  function BytesOf(before: Files, p: Path): seq<byte>
    requires WasFile(before, p)
  {
    before[p].data
  }

  /**
   * What the target of an operation that was carried out holds afterwards, read
   * off the files as they were: the content given, the bytes and mode of the
   * source, the old bytes under the new mode, the named entry, the archives
   * merged in their order, or the archive unpacked.
   */
  ghost predicate Delivered(tools: Tools, before: Files, after: Files, op: Operation) {
    var result := Get(after, op.path);
    match op
    case Write(_, content) => result == Some(File(content, DEFAULT_MODE))
    case EnsureDirectory(path) =>
      if path in before then before[path].Directory? && result == Some(before[path])
      else result == Some(Directory(map[]))
    case Chmod(path, mode) => WasFile(before, path) && result == Some(File(BytesOf(before, path), mode))
    case Copy(_, source) => WasFile(before, source) && result == Some(before[source])
    case Link(_, source) => WasFile(before, source) && result == Some(before[source])
    case Remove(_) => result == None
    case Extract(_, archive, entry) =>
      && WasFile(before, archive) && tools.entryOf(BytesOf(before, archive), entry).Some?
      && result == Some(File(tools.entryOf(BytesOf(before, archive), entry).value, DEFAULT_MODE))
    case MergeZip(_, archives, excludePrefixes) =>
      && (forall i :: 0 <= i < |archives| ==> WasFile(before, archives[i]))
      && var merged := tools.merge(Bytes(before, archives), excludePrefixes);
         merged.Some? && result == Some(File(merged.value, DEFAULT_MODE))
    case ExtractArchive(_, archive, stripComponents) =>
      && WasFile(before, archive) && tools.unpack(BytesOf(before, archive), stripComponents).Some?
      && result == Some(Directory(tools.unpack(BytesOf(before, archive), stripComponents).value))
  }

  /** The old bytes of several files, in the order listed. */
  function Bytes(before: Files, ps: seq<Path>): (r: seq<seq<byte>>)
    requires forall i :: 0 <= i < |ps| ==> WasFile(before, ps[i])
    ensures |r| == |ps| && forall i :: 0 <= i < |ps| ==> r[i] == BytesOf(before, ps[i])
  {
    seq(|ps|, i requires 0 <= i < |ps| => BytesOf(before, ps[i]))
  }

  lemma {:induction false} AllDataIsBytes(before: Files, ps: seq<Path>)
    ensures AllData(before, ps).Some? <==> forall i :: 0 <= i < |ps| ==> WasFile(before, ps[i])
    ensures AllData(before, ps).Some? ==> AllData(before, ps).value == Bytes(before, ps)
    decreases |ps|
  {
    if ps != [] {
      AllDataIsBytes(before, ps[1..]);
      assert forall i :: 0 < i < |ps| ==> ps[1..][i - 1] == ps[i];
      if AllData(before, ps).Some? {
        assert Bytes(before, ps) == [BytesOf(before, ps[0])] + Bytes(before, ps[1..]);
      }
    }
  }

  /** The simultaneous update delivers every operation that can be carried out. */
  lemma UpdateDelivers(tools: Tools, before: Files, ops: seq<Operation>, i: nat)
    requires DistinctTargets(ops) && i < |ops| && Possible(tools, before, ops[i])
    ensures Delivered(tools, before, Updated(tools, before, ops), ops[i])
  {
    UpdatedAt(tools, before, ops, ops[i].path);
    if ops[i].MergeZip? {
      AllDataIsBytes(before, ops[i].archives);
    }
  }

  /** An operation can be carried out exactly if its sources are files its tool accepts. */
  lemma PossibleIff(tools: Tools, before: Files, op: Operation)
    ensures Possible(tools, before, op) <==> exists after :: Delivered(tools, before, after, op)
  {
    if op.MergeZip? {
      AllDataIsBytes(before, op.archives);
    }
    if Possible(tools, before, op) {
      UpdateDelivers(tools, before, [op], 0);
    }
  }
}
