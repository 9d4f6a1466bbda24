/**
 * Resolving a hierarchy of versions in memory (`resolve` in
 * `packages/core/version.ts`): the hierarchy is emptied, and the arguments of a
 * version that replaces them are the very lists the versions below it add to.
 */
module VersionResolve {
  import opened Basics
  import opened VersionChain
  import opened VersionMerge
  import opened MergeRules

  /** The two argument lists of a version or of a result, which always go together. */
  class Arguments {
    var game: seq<string>
    var jvm: seq<string>

    constructor (game: seq<string>, jvm: seq<string>)
      ensures this.game == game && this.jvm == jvm
    {
      this.game, this.jvm := game, jvm;
    }

    predicate Hold(game: seq<string>, jvm: seq<string>)
      reads this
    {
      this.game == game && this.jvm == jvm
    }
  }

  /** A version in memory; what `json` says of arguments is what its lists hold. */
  datatype Loaded = Loaded(json: VersionJson, arguments: Arguments)

  class Hierarchy {
    var versions: seq<Loaded>

    constructor (versions: seq<Loaded>)
      ensures this.versions == versions
    {
      this.versions := versions;
    }
  }

  function Jsons(versions: seq<Loaded>): (h: seq<VersionJson>)
    ensures |h| == |versions|
    ensures forall i :: 0 <= i < |versions| ==> h[i] == versions[i].json
  {
    seq(|versions|, i requires 0 <= i < |versions| => versions[i].json)
  }

  ghost function Lists(versions: seq<Loaded>): set<Arguments> {
    set v <- versions :: v.arguments
  }

  /** No two versions share their lists. */
  ghost predicate Distinct(versions: seq<Loaded>) {
    forall i, j :: 0 <= i < j < |versions| ==> versions[i].arguments != versions[j].arguments
  }

  /** No two versions share their lists, and the lists hold what was read. */
  ghost predicate Separate(versions: seq<Loaded>)
    reads Lists(versions)
  {
    && Distinct(versions)
    && (forall v <- versions :: v.arguments.Hold(v.json.game, v.json.jvm))
  }

  datatype Resolved = Resolved(
    id: string,
    arguments: Arguments,
    texts: Texts,
    minecraftVersion: string,
    minimumLauncherVersion: nat,
    libraries: seq<Library>,
    downloads: map<string, string>,
    inheritances: seq<string>,
    pathChain: seq<string>,
    minecraftDirectory: string)

  datatype ResolveError = TypeError | MainClassMissing(version: string)

  /** The game version a root belongs to. */
  function MinecraftVersion(root: VersionJson): (version: string)
    ensures root.clientVersion.Some? ==> root.clientVersion == Some(version)
    ensures root.clientVersion.None? && root.minecraftVersion.Some? ==> root.minecraftVersion == Some(version)
    ensures root.clientVersion.None? && root.minecraftVersion.None? ==> version == root.id
  {
    if root.clientVersion.Some? then root.clientVersion.value
    else if root.minecraftVersion.Some? then root.minecraftVersion.value
    else root.id
  }

  /** The paths of the versions' directories. */
  function Paths(versionRoot: string -> string, h: seq<VersionJson>): (paths: seq<string>)
    ensures |paths| == |h| && forall i :: 0 <= i < |h| ==> paths[i] == versionRoot(h[i].id)
  {
    seq(|h|, i requires 0 <= i < |h| => versionRoot(h[i].id))
  }

  /** The result says of a hierarchy what its merge says. */
  ghost predicate Describes(r: Resolved, h: seq<VersionJson>, versionRoot: string -> string)
    requires h != []
    reads r.arguments
  {
    var m, root := Merge(h), h[|h| - 1];
    && r.arguments.Hold(m.game, m.jvm)
    && r.id == h[0].id && r.texts == m.texts
    && (r.minecraftVersion == if root.clientVersion.Some? then root.clientVersion.value
                              else if root.minecraftVersion.Some? then root.minecraftVersion.value
                              else root.id)
    && r.minimumLauncherVersion == m.minimumLauncherVersion
    && r.libraries == Libraries(m) && r.downloads == m.downloads
    && |r.inheritances| == |r.pathChain| == |h|
    && (forall i :: 0 <= i < |h| ==> r.inheritances[i] == h[i].id && r.pathChain[i] == versionRoot(h[i].id))
    && r.minecraftDirectory == h[0].minecraftDirectory
  }

  // ----- The lists of the versions themselves -----

  /**
   * With the versions from `n` on popped: the most derived of them whose
   * arguments have been added to the lists of version `i`.
   */
  function Reach(h: seq<VersionJson>, n: nat, i: nat): (r: nat)
    requires n <= i < |h|
    ensures n <= r <= i
    ensures r == n || h[r - 1].replace
    ensures forall k :: r <= k < i ==> !h[k].replace
  {
    if i == n || h[i - 1].replace then i else Reach(h, n, i - 1)
  }

  /** The arguments of version `i` once the versions from `n` on are popped. */
  function Game(h: seq<VersionJson>, n: nat, i: nat): seq<string>
    requires n <= i < |h|
  {
    if h[i].replace then Merge(h[Reach(h, n, i)..]).game else h[i].game
  }

  function Jvm(h: seq<VersionJson>, n: nat, i: nat): seq<string>
    requires n <= i < |h|
  {
    if h[i].replace then Merge(h[Reach(h, n, i)..]).jvm else h[i].jvm
  }

  /**
   * The lists of every version popped, `current` being the index of the one
   * whose lists are being added to, or `|h|` if they are lists of the result's own.
   */
  ghost predicate ListsOk(versions: seq<Loaded>, n: nat, current: nat, args: Arguments)
    requires n <= |versions|
    reads Lists(versions), args
  {
    var h := Jsons(versions);
    && n <= current <= |versions|
    && (forall k :: n <= k < current ==> !h[k].replace)
    && (if current < |versions| then h[current].replace && args == versions[current].arguments
        else args !in Lists(versions))
    && args.Hold(Merge(h[n..]).game, Merge(h[n..]).jvm)
    && (forall i :: 0 <= i < n ==> versions[i].arguments.Hold(h[i].game, h[i].jvm))
    && (forall i :: n <= i < |versions| ==> versions[i].arguments.Hold(Game(h, n, i), Jvm(h, n, i)))
  }

  /**
   * The lists of a version that replaces the arguments end up with its own
   * followed by those of the versions below it, root to leaf, down to the next
   * that replaces them or to the end; the lists of other versions stay as they are.
   */
  lemma GrownLists(h: seq<VersionJson>, i: nat)
    requires i < |h|
    ensures var k := Reach(h, 0, i);
            && (k == 0 || h[k - 1].replace) && (forall j :: k <= j < i ==> !h[j].replace)
            && (h[i].replace ==>
                  && Game(h, 0, i) == RootToLeaf(Games(h[k..i + 1]))
                  && Jvm(h, 0, i) == RootToLeaf(Jvms(h[k..i + 1])))
            && (!h[i].replace ==> Game(h, 0, i) == h[i].game && Jvm(h, 0, i) == h[i].jvm)
  {
    hide Merge, RootToLeaf;
    var k := Reach(h, 0, i);
    if h[i].replace {
      assert Replacer(h[k..]) == i - k by {
        assert h[k..][i - k] == h[i];
      }
      ArgumentsFromReplacer(h[k..]);
      assert h[k..][..i - k + 1] == h[k..i + 1];
    }
  }

  lemma MergedBelow(h: seq<VersionJson>, n: nat)
    requires 0 < n <= |h|
    ensures var j := h[n - 1];
            && Merge(h[n - 1..]).game == (if j.replace then j.game else Merge(h[n..]).game + j.game)
            && Merge(h[n - 1..]).jvm == (if j.replace then j.jvm else Merge(h[n..]).jvm + j.jvm)
  {
    hide Merge;
    assert h[n - 1..][1..] == h[n..];
    ArgumentStep(h[n - 1..]);
  }

  /** A version popped before holds what it held, unless its lists are the ones added to. */
  lemma HeldAfterStep(h: seq<VersionJson>, n: nat, current: nat, i: nat)
    requires 0 < n <= i < |h| && n <= current <= |h|
    requires (forall k :: n <= k < current ==> !h[k].replace) && (current < |h| ==> h[current].replace)
    ensures if i == current && !h[n - 1].replace
            then Game(h, n - 1, i) == Merge(h[n - 1..]).game && Jvm(h, n - 1, i) == Merge(h[n - 1..]).jvm
            else Game(h, n - 1, i) == Game(h, n, i) && Jvm(h, n - 1, i) == Jvm(h, n, i)
  {
    hide Merge, Reach;
  }

  /** What stays and what changes when the version before `n` is popped, said of the values the lists held. */
  lemma StepOk(versions: seq<Loaded>, n: nat, current: nat, i: nat)
    requires 0 < n <= |versions| && i < |versions| && n <= current <= |versions|
    requires var h := Jsons(versions);
             (forall k :: n <= k < current ==> !h[k].replace) && (current < |h| ==> h[current].replace)
    ensures var h := Jsons(versions);
            && (i == n - 1 ==> Game(h, n - 1, i) == h[i].game && Jvm(h, n - 1, i) == h[i].jvm)
            && (i >= n && (i != current || h[n - 1].replace) ==>
                  Game(h, n - 1, i) == Game(h, n, i) && Jvm(h, n - 1, i) == Jvm(h, n, i))
            && (i == current && !h[n - 1].replace ==>
                  Game(h, n - 1, i) == Merge(h[n - 1..]).game && Jvm(h, n - 1, i) == Merge(h[n - 1..]).jvm)
  {
    hide Merge, Game, Jvm;
    var h := Jsons(versions);
    if i >= n {
      HeldAfterStep(h, n, current, i);
    }
    OwnAfterStep(h, n);
  }

  /** The arguments of the version popped are added to those so far. */
  method Push(args: Arguments, version: Loaded, ghost versions: seq<Loaded>, ghost n: nat, ghost current: nat)
    requires 0 < n <= |versions| && version == versions[n - 1] && !version.json.replace
    requires Distinct(versions) && ListsOk(versions, n, current, args)
    modifies args
    ensures ListsOk(versions, n - 1, current, args)
  {
    hide Merge, Game, Jvm, Reach;
    ghost var h := Jsons(versions);
    MergedBelow(h, n);
    assert version.arguments in Lists(versions);
    args.game := args.game + version.arguments.game;
    args.jvm := args.jvm + version.arguments.jvm;
    assert args.Hold(Merge(h[n - 1..]).game, Merge(h[n - 1..]).jvm);
    forall i | n - 1 <= i < |versions|
      ensures versions[i].arguments.Hold(Game(h, n - 1, i), Jvm(h, n - 1, i))
    {
      StepOk(versions, n, current, i);
      assert versions[i].arguments in Lists(versions);
    }
    forall i | 0 <= i < n - 1 ensures versions[i].arguments != args {
      assert versions[i].arguments in Lists(versions);
    }
  }

  /** The lists of the version popped take the place of those so far. */
  lemma TakeOver(versions: seq<Loaded>, n: nat, args: Arguments, current: nat)
    requires 0 < n <= |versions| && ListsOk(versions, n, current, args)
    requires versions[n - 1].json.replace
    ensures ListsOk(versions, n - 1, n - 1, versions[n - 1].arguments)
  {
    hide Merge, Game, Jvm, Reach;
    var h := Jsons(versions);
    MergedBelow(h, n);
    forall i | n - 1 <= i < |versions|
      ensures versions[i].arguments.Hold(Game(h, n - 1, i), Jvm(h, n - 1, i))
    {
      StepOk(versions, n, current, i);
    }
  }

  /** The arguments after a version is popped: those so far with its own added, or its own. */
  method AddArguments(args: Arguments, version: Loaded, ghost versions: seq<Loaded>, ghost n: nat, ghost current: nat)
    returns (next: Arguments, ghost current': nat)
    requires 0 < n <= |versions| && version == versions[n - 1]
    requires Distinct(versions) && ListsOk(versions, n, current, args)
    modifies args
    ensures ListsOk(versions, n - 1, current', next)
    ensures next == if version.json.replace then version.arguments else args
  {
    hide ListsOk;
    next, current' := args, current;
    if !version.json.replace {
      Push(args, version, versions, n, current);
    } else {
      TakeOver(versions, n, args, current);
      next, current' := version.arguments, n - 1;
    }
  }

  lemma OwnAfterStep(h: seq<VersionJson>, n: nat)
    requires 0 < n <= |h|
    ensures Game(h, n - 1, n - 1) == h[n - 1].game && Jvm(h, n - 1, n - 1) == h[n - 1].jvm
  {
    hide Merge;
    MergedBelow(h, n);
  }

  /** The libraries of one version put into the dictionaries of plain ones and natives. */
  method AddAll(libs: seq<Library>, libraries: Table, natives: Table, ghost m: Merged)
    returns (libraries': Table, natives': Table)
    requires m.Valid() && m.libraries == libraries && m.natives == natives
    ensures libraries'.Valid() && natives'.Valid()
    ensures AddLibraries(m, libs) == m.(libraries := libraries', natives := natives')
  {
    libraries', natives' := libraries, natives;
    for i := 0 to |libs|
      invariant libraries'.Valid() && natives'.Valid()
      invariant AddLibraries(m, libs[..i]) == m.(libraries := libraries', natives := natives')
    {
      assert libs[..i + 1][..i] == libs[..i];
      var lib := libs[i];
      if lib.isNative {
        natives' := natives'.Put(Key(lib), lib);
      } else {
        libraries' := libraries'.Put(Key(lib), lib);
      }
    }
    assert libs[..|libs|] == libs;
  }

  /** The texts before the first version is popped. */
  function Started(h: seq<VersionJson>): Texts
    requires h != []
  {
    NO_TEXTS.(assetIndex := h[|h| - 1].texts.assetIndex)
  }

  lemma StartOk(versions: seq<Loaded>, args: Arguments)
    requires Separate(versions) && args !in Lists(versions) && args.Hold([], [])
    ensures ListsOk(versions, |versions|, |versions|, args)
    ensures Merge(Jsons(versions)[|versions|..]) == NOTHING
  {
    var h := Jsons(versions);
    assert h[|h|..] == [];
    assert forall i :: 0 <= i < |versions| ==> versions[i] in versions;
  }

  /** The other values once the versions from `n` on are popped. */
  ghost predicate ValuesOk(h: seq<VersionJson>, n: nat, texts: Texts, minimumLauncherVersion: nat,
                           libraries: Table, natives: Table, downloads: map<string, string>)
    requires n <= |h| && h != []
  {
    var m := Merge(h[n..]);
    && texts == (if n == |h| then Started(h) else m.texts)
    && m == Merged(m.game, m.jvm, m.texts, minimumLauncherVersion, libraries, natives, downloads)
  }

  lemma StartValues(h: seq<VersionJson>)
    requires h != []
    ensures ValuesOk(h, |h|, Started(h), 0, EMPTY_TABLE, EMPTY_TABLE, map[])
  {
    assert h[|h|..] == [];
    EmptyMerge();
  }

  lemma PopOk(h: seq<VersionJson>, n: nat, texts: Texts, minimumLauncherVersion: nat,
              libraries: Table, natives: Table, downloads: map<string, string>,
              libraries': Table, natives': Table)
    requires 0 < n <= |h| && ValuesOk(h, n, texts, minimumLauncherVersion, libraries, natives, downloads)
    requires var m := Override(Merge(h[n..]), h[n - 1]);
             AddLibraries(m, h[n - 1].libraries) == m.(libraries := libraries', natives := natives')
    ensures ValuesOk(h, n - 1, OrTexts(h[n - 1].texts, texts),
                     Max(h[n - 1].minimumLauncherVersion, minimumLauncherVersion),
                     libraries', natives', downloads + h[n - 1].downloads)
  {
    hide Merge, AddLibraries;
    assert h[n - 1..][1..] == h[n..];
    MergeStep(h[n - 1..]);
    if n == |h| {
      assert h[n..] == [];
      EmptyMerge();
    }
  }

  lemma ToAdd(h: seq<VersionJson>, n: nat, texts: Texts, minimumLauncherVersion: nat,
              libraries: Table, natives: Table, downloads: map<string, string>)
    requires 0 < n <= |h| && ValuesOk(h, n, texts, minimumLauncherVersion, libraries, natives, downloads)
    ensures var m := Override(Merge(h[n..]), h[n - 1]);
            m.libraries == libraries && m.natives == natives
  {
    hide Merge;
  }

  /** The values of one version over those so far. */
  method AddValues(json: VersionJson, texts: Texts, minimumLauncherVersion: nat, libraries: Table, natives: Table,
                   downloads: map<string, string>, ghost h: seq<VersionJson>, ghost n: nat)
    returns (texts': Texts, minimumLauncherVersion': nat, libraries': Table, natives': Table,
             downloads': map<string, string>)
    requires 0 < n <= |h| && json == h[n - 1]
    requires ValuesOk(h, n, texts, minimumLauncherVersion, libraries, natives, downloads)
    ensures ValuesOk(h, n - 1, texts', minimumLauncherVersion', libraries', natives', downloads')
  {
    hide Merge, ValuesOk, Override, AddLibraries, OrTexts;
    minimumLauncherVersion' := Max(json.minimumLauncherVersion, minimumLauncherVersion);
    texts' := OrTexts(json.texts, texts);
    ToAdd(h, n, texts, minimumLauncherVersion, libraries, natives, downloads);
    libraries', natives' := AddAll(json.libraries, libraries, natives, Override(Merge(h[n..]), json));
    downloads' := downloads + json.downloads;
    PopOk(h, n, texts, minimumLauncherVersion, libraries, natives, downloads, libraries', natives');
  }

  /** The values with every version popped. */
  lemma EndValues(h: seq<VersionJson>, texts: Texts, minimumLauncherVersion: nat, libraries: Table, natives: Table,
                  downloads: map<string, string>)
    requires h != [] && ValuesOk(h, 0, texts, minimumLauncherVersion, libraries, natives, downloads)
    ensures libraries.Valid() && natives.Valid()
    ensures texts == Merge(h).texts && minimumLauncherVersion == Merge(h).minimumLauncherVersion
    ensures Listed(libraries, natives) == Libraries(Merge(h)) && downloads == Merge(h).downloads
  {
    hide Merge;
    assert h[0..] == h;
  }

  /** The lists with every version popped. */
  lemma EndOk(versions: seq<Loaded>, current: nat, args: Arguments)
    requires versions != [] && ListsOk(versions, 0, current, args)
    ensures var h := Jsons(versions);
            && args.Hold(Merge(h).game, Merge(h).jvm)
            && (forall i :: 0 <= i < |h| ==> versions[i].arguments.Hold(Game(h, 0, i), Jvm(h, 0, i)))
            && (if h[Replacer(h)].replace then args == versions[Replacer(h)].arguments else args !in Lists(versions))
  {
    hide Merge, Game, Jvm;
    var h := Jsons(versions);
    assert h[0..] == h;
    assert current < |h| ==> Replacer(h) == current;
  }

  /** The loop over the hierarchy, from the root on: everything gathered, and the last version's directory. */
  method PopAll(hierarchy: Hierarchy, own: Arguments, started: Texts, ghost h: seq<VersionJson>)
    returns (args: Arguments, texts: Texts, minimumLauncherVersion: nat, libraries: Table, natives: Table,
             downloads: map<string, string>, location: string, ghost current: nat)
    requires hierarchy.versions != [] && Distinct(hierarchy.versions) && h == Jsons(hierarchy.versions)
    requires started == Started(h) && ListsOk(hierarchy.versions, |h|, |h|, own)
    modifies hierarchy, own, Lists(hierarchy.versions)
    ensures hierarchy.versions == []
    ensures ListsOk(old(hierarchy.versions), 0, current, args)
    ensures args == own || args in Lists(old(hierarchy.versions))
    ensures ValuesOk(h, 0, texts, minimumLauncherVersion, libraries, natives, downloads)
    ensures location == h[0].minecraftDirectory
  {
    hide Merge, Game, Jvm, ListsOk, ValuesOk, OrTexts, Distinct, Started;
    ghost var versions := hierarchy.versions;
    args, texts, minimumLauncherVersion, location := own, started, 0, "";
    libraries, natives, downloads := EMPTY_TABLE, EMPTY_TABLE, map[];
    current := |h|;
    StartValues(h);
    while hierarchy.versions != []
      invariant |hierarchy.versions| <= |versions| && hierarchy.versions == versions[..|hierarchy.versions|]
      invariant args == own || args in Lists(versions)
      invariant ListsOk(versions, |hierarchy.versions|, current, args)
      invariant ValuesOk(h, |hierarchy.versions|, texts, minimumLauncherVersion, libraries, natives, downloads)
      invariant |hierarchy.versions| < |h| ==> location == h[|hierarchy.versions|].minecraftDirectory
      decreases |hierarchy.versions|
    {
      ghost var n := |hierarchy.versions|;
      var version := hierarchy.versions[|hierarchy.versions| - 1];
      hierarchy.versions := hierarchy.versions[..|hierarchy.versions| - 1];
      location := version.json.minecraftDirectory;
      args, current := AddArguments(args, version, versions, n, current);
      texts, minimumLauncherVersion, libraries, natives, downloads :=
        AddValues(version.json, texts, minimumLauncherVersion, libraries, natives, downloads, h, n);
    }
  }

  /**
   * `resolve`. The hierarchy ends up empty. The arguments of the result are the
   * lists of the most derived version that replaces them, if one does; those of
   * every replacing version hold the arguments of the versions below it as well.
   */
  method Resolve(hierarchy: Hierarchy, versionRoot: string -> string) returns (r: Result<Resolved, ResolveError>)
    requires Separate(hierarchy.versions)
    modifies hierarchy, Lists(hierarchy.versions)
    ensures hierarchy.versions == []
    ensures var versions := old(hierarchy.versions);
            var h := Jsons(versions);
            && (h == [] ==> r == Err(TypeError))
            && (h != [] && Merge(h).texts.mainClass == "" ==> r == Err(MainClassMissing(h[0].id)))
            && (h != [] && Merge(h).texts.mainClass != "" ==> r.Ok? && Describes(r.value, h, versionRoot))
            && (forall i :: 0 <= i < |h| ==> versions[i].arguments.Hold(Game(h, 0, i), Jvm(h, 0, i)))
            && (r.Ok? && h[Replacer(h)].replace ==> r.value.arguments == versions[Replacer(h)].arguments)
            && (r.Ok? && !h[Replacer(h)].replace ==> fresh(r.value.arguments))
  {
    hide Merge, Game, Jvm, ListsOk, ValuesOk, Replacer, Distinct, Listed, Libraries, MinecraftVersion;
    if hierarchy.versions == [] {
      return Err(TypeError);
    }
    ghost var versions := hierarchy.versions;
    ghost var h := Jsons(versions);
    var root := hierarchy.versions[|hierarchy.versions| - 1].json;
    var id := hierarchy.versions[0].json.id;
    var pathChain := Paths(versionRoot, Jsons(hierarchy.versions));
    var inheritances := Ids(Jsons(hierarchy.versions));
    var own := new Arguments([], []);
    StartOk(versions, own);
    var args, texts, minimumLauncherVersion, libraries, natives, downloads, location, current :=
      PopAll(hierarchy, own, NO_TEXTS.(assetIndex := root.texts.assetIndex), h);
    EndOk(versions, current, args);
    EndValues(h, texts, minimumLauncherVersion, libraries, natives, downloads);
    if texts.mainClass == "" {
      return Err(MainClassMissing(id));
    }
    r := Ok(Resolved(id, args, texts, MinecraftVersion(root), minimumLauncherVersion,
                     Listed(libraries, natives), downloads, inheritances, pathChain, location));
  }
}
