/**
 * Merging a version's inheritance chain into one version (`resolve` in
 * `packages/core/version.ts`). A hierarchy starts with the version asked for, the
 * most derived one, and ends with the root.
 */
module VersionMerge {
  import opened Basics
  import opened VersionChain

  /** The key libraries are merged by. */
  function Key(lib: Library): string {
    lib.groupId + ":" + lib.artifactId + if lib.classifier == "" then "" else "-" + lib.classifier + ";"
  }

  /** A script object used as a dictionary: its keys in the order of their first insertion. */
  datatype Table = Table(keys: seq<string>, values: map<string, Library>) {
    predicate Valid() {
      && (forall key <- keys :: key in values)
      && (forall key <- values :: key in keys)
      && (forall i, j :: 0 <= i < j < |keys| ==> keys[i] != keys[j])
    }

    function Put(key: string, lib: Library): (t: Table)
      requires Valid()
      ensures t.Valid()
    {
      Table(if key in values then keys else keys + [key], values[key := lib])
    }

    function Values(): (r: seq<Library>)
      requires Valid()
      ensures |r| == |keys|
      ensures forall i :: 0 <= i < |keys| ==> keys[i] in values && r[i] == values[keys[i]]
    {
      seq(|keys|, i requires 0 <= i < |keys| => values[keys[i]])
    }
  }

  datatype Merged = Merged(
    game: seq<string>,
    jvm: seq<string>,
    texts: Texts,
    minimumLauncherVersion: nat,
    libraries: Table,
    natives: Table,
    downloads: map<string, string>)
  {
    predicate Valid() {
      libraries.Valid() && natives.Valid()
    }
  }

  /** The Java version of a hierarchy that names none. */
  const JAVA_8 := "{ majorVersion: 8, component: 'jre-legacy' }"

  const NO_TEXTS := Texts("", "", "", JAVA_8, "", "", "", "")

  const EMPTY_TABLE := Table([], map[])

  const NOTHING := Merged([], [], NO_TEXTS, 0, EMPTY_TABLE, EMPTY_TABLE, map[])

  /** One library added to its dictionary. */
  function AddLibrary(m: Merged, lib: Library): (r: Merged)
    requires m.Valid()
    ensures r.Valid()
  {
    if lib.isNative then m.(natives := m.natives.Put(Key(lib), lib))
    else m.(libraries := m.libraries.Put(Key(lib), lib))
  }

  function AddLibraries(m: Merged, libs: seq<Library>): (r: Merged)
    requires m.Valid()
    ensures r.Valid()
  {
    if libs == [] then m
    else AddLibrary(AddLibraries(m, libs[..|libs| - 1]), libs[|libs| - 1])
  }

  function Or(a: string, b: string): string {
    if a != "" then a else b
  }

  /** The texts of one version further down the hierarchy, or else those so far. */
  function OrTexts(a: Texts, b: Texts): Texts {
    Texts(Or(a.mainClass, b.mainClass), Or(a.assets, b.assets), Or(a.assetIndex, b.assetIndex),
          Or(a.javaVersion, b.javaVersion), Or(a.logging, b.logging), Or(a.releaseTime, b.releaseTime),
          Or(a.time, b.time), Or(a.releaseType, b.releaseType))
  }

  /** What one version further down the hierarchy does to everything but the libraries. */
  function Override(m: Merged, json: VersionJson): (r: Merged)
    requires m.Valid()
    ensures r.Valid()
  {
    m.(game := if json.replace then json.game else m.game + json.game,
       jvm := if json.replace then json.jvm else m.jvm + json.jvm,
       texts := OrTexts(json.texts, m.texts),
       minimumLauncherVersion := Max(json.minimumLauncherVersion, m.minimumLauncherVersion),
       downloads := m.downloads + json.downloads)
  }

  /** The merge of a hierarchy, from its root up. */
  function Merge(hierarchy: seq<VersionJson>): (r: Merged)
    ensures r.Valid()
  {
    if hierarchy == [] then NOTHING
    else AddLibraries(Override(Merge(hierarchy[1..]), hierarchy[0]), hierarchy[0].libraries)
  }

  /** Plain libraries first, then natives. */
  function Listed(libraries: Table, natives: Table): seq<Library>
    requires libraries.Valid() && natives.Valid()
  {
    libraries.Values() + natives.Values()
  }

  function Libraries(m: Merged): seq<Library>
    requires m.Valid()
  {
    Listed(m.libraries, m.natives)
  }

  lemma MergeStep(hierarchy: seq<VersionJson>)
    requires hierarchy != []
    ensures Merge(hierarchy) == AddLibraries(Override(Merge(hierarchy[1..]), hierarchy[0]), hierarchy[0].libraries)
  {
  }
}
