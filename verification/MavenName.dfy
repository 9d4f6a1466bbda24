/**
 * Maven coordinates and the repository paths they stand for (`LibraryInfo` in
 * `packages/core/version.ts`, `classpathEntryToLibraryName` in
 * `packages/installer/profile.ts`).
 */
module MavenName {
  import opened Basics
  import opened Text

  /** Without a character that ends a part of a name or of a path. */
  predicate Part(s: string) {
    ':' !in s && '@' !in s && '/' !in s
  }

  /** The five parts of a coordinate. */
  datatype Coordinate = Coordinate(
    groupId: string,
    artifactId: string,
    version: string,
    classifier: string,
    extension: string)
  {
    /** The name without its type. */
    function Body(): string {
      groupId + ":" + artifactId + ":" + version + if classifier == "" then "" else ":" + classifier
    }

    function Name(): string {
      Body() + (if extension == "jar" then "" else "@" + extension)
    }

    /** The file's name without its extension. */
    function Base(): string {
      artifactId + "-" + version + if classifier == "" then "" else "-" + classifier
    }

    function FileName(): string {
      Base() + "." + extension
    }

    function Path(): string {
      Replace(groupId, '.', '/') + "/" + artifactId + "/" + version + "/" + FileName()
    }

    /** No part holds a character that separates parts, or paths, or the extension. */
    predicate Plain() {
      && Part(groupId) && Part(artifactId) && Part(version) && Part(classifier)
      && '@' !in extension && '/' !in extension && '.' !in extension
      && artifactId != ""
    }
  }

  datatype NameError = TypeError

  datatype LibraryInfo = LibraryInfo(coordinate: Coordinate, name: string, isSnapshot: bool, path: string)

  /** `LibraryInfo.resolve`: without a version it throws. */
  function Resolve(name: string): Result<LibraryInfo, NameError> {
    var at := Split(name, '@');
    var parts := Split(at[0], ':');
    if |parts| < 3 then Err(TypeError)
    else
      var classifier := if |parts| > 3 then parts[3] else "";
      var c := Coordinate(parts[0], parts[1], parts[2], classifier, if |at| > 1 then at[1] else "jar");
      Ok(LibraryInfo(c, name, EndsWith(c.version, "-SNAPSHOT"), c.Path()))
  }

  /** `path.extname` of a name without slashes. */
  function Extname(file: string): (r: string)
    ensures |r| <= |file|
  {
    var dot := LastIndexOf(file, '.');
    if dot <= 0 || file == ".." then "" else file[dot..]
  }

  /** What a path is read as; a missing part is `None`. */
  datatype PathInfo = PathInfo(
    groupId: string, artifactId: Option<string>, version: Option<string>, classifier: string, extension: string,
    name: string, isSnapshot: bool, path: string)

  /** A part in a template string. */
  function Shown(part: Option<string>): string {
    if part.Some? then part.value else "undefined"
  }

  /** `parts[parts.length - n]`. */
  function FromEnd(parts: seq<string>, n: nat): Option<string>
    requires n >= 1
  {
    if n <= |parts| then Some(parts[|parts| - n]) else None
  }

  /** `parts.slice(0, parts.length - 3)`, whose end counts from the back when it is negative. */
  function AllButThree(parts: seq<string>): seq<string> {
    var end := |parts| - 3;
    parts[..if end >= 0 then end else Max(0, |parts| + end)]
  }

  /** The classifier cut out of a file name. */
  function Classifier(file: string, skip: nat): string {
    var c := Substring(file, skip, |file| - |Extname(file)|);
    if c != "" && c[0] == '-' then c[1..] else c
  }

  /** `LibraryInfo.resolveFromPath`. */
  function ResolveFromPath(path: string): Result<PathInfo, NameError> {
    var parts := Split(path, '/');
    var file := parts[|parts| - 1];
    var version, artifactId := FromEnd(parts, 2), FromEnd(parts, 3);
    var groupId := Join(AllButThree(parts), '.');
    var extension := Extname(file)[if Extname(file) == "" then 0 else 1..];
    var isSnapshot := Shown(version) <= file;
    if isSnapshot && version.None? then Err(TypeError)
    else
      var prefix := if isSnapshot then |version.value| else |Shown(artifactId) + "-" + Shown(version)|;
      var classifier := Classifier(file, prefix);
      var name := groupId + ":" + Shown(artifactId) + ":" + Shown(version)
                  + (if classifier == "" then "" else ":" + classifier)
                  + (if extension == "jar" then "" else "@" + extension);
      Ok(PathInfo(groupId, artifactId, version, classifier, extension, name, isSnapshot, path))
  }

  /** `classpathEntryToLibraryName`; `None` stands for `undefined`. */
  function ClasspathEntryToLibraryName(entry: string): Option<string> {
    var normalized := if "libraries/" <= entry || "libraries\\" <= entry then entry[10..] else entry;
    var parts := Split(Replace(normalized, '\\', '/'), '/');
    if |parts| < 4 then None
    else
      var last, n := parts[|parts| - 1], |parts|;
      var fileName := if EndsWith(last, ".jar") then last[..|last| - 4] else last;
      var version, artifactId := parts[n - 2], parts[n - 3];
      NameOfFile(Join(parts[..n - 3], '.'), artifactId, version, fileName)
  }

  /** The coordinate of a jar from the directories it is in and its name without `.jar`. */
  function NameOfFile(groupId: string, artifactId: string, version: string, fileName: string): Option<string> {
    if groupId == "" || artifactId == "" || version == "" || fileName == "" then None
    else
      var base := artifactId + "-" + version;
      var name := groupId + ":" + artifactId + ":" + version;
      if |fileName| > |base| && base + "-" <= fileName then Some(name + ":" + fileName[|base| + 1..])
      else Some(name)
  }

  // ----- Any path, any file -----

  /** The extension is what follows the last dot, which must not be the first character. */
  lemma ExtnameIs(file: string)
    ensures var ext := Extname(file);
            && ext <= file[|file| - |ext|..]
            && (ext == "" <==> file == ".." || forall i :: 1 <= i < |file| ==> file[i] != '.')
            && (ext != "" ==> |ext| < |file| && ext[0] == '.' && '.' !in ext[1..])
  {
    var dot := LastIndexOf(file, '.');
    if dot > 0 {
      assert forall i :: 1 <= i < |file| - dot ==> file[dot..][i] == file[dot + i];
    }
  }

  /**
   * A path of any length: the directories name artifact and version, what is
   * above them the group; a version that the file name starts with makes it a
   * snapshot. With no directory at all there is no version.
   */
  lemma PathInfoIs(path: string)
    ensures var parts := Split(path, '/');
            var n, r := |parts|, ResolveFromPath(path);
            && n >= 1
            && (r.Err? <==> n == 1 && "undefined" <= parts[0])
            && (r.Ok? && n >= 3 ==>
                  && r.value.groupId == Join(parts[..n - 3], '.')
                  && r.value.artifactId == Some(parts[n - 3]) && r.value.version == Some(parts[n - 2])
                  && (r.value.isSnapshot <==> parts[n - 2] <= parts[n - 1]))
            && (r.Ok? && n == 2 ==>
                  r.value.groupId == parts[0] && r.value.artifactId == None && r.value.version == Some(parts[0]))
            && (r.Ok? && n == 1 ==>
                  r.value.groupId == "" && r.value.artifactId == None && r.value.version == None)
  {
    hide Extname, Classifier;
    var parts := Split(path, '/');
    if |parts| == 2 {
      assert parts[..1] == [parts[0]];
      JoinOne(parts[0], '.');
    } else if |parts| == 1 {
      assert parts[..0] == [];
    }
  }

  lemma JoinOne(s: string, c: char)
    ensures Join([s], c) == s && Join([], c) == ""
  {
  }

  /** What follows `artifact-version-` in a file name is the classifier; without a name for every part there is none. */
  lemma NameOfFileIs(groupId: string, artifactId: string, version: string, fileName: string)
    ensures var r := NameOfFile(groupId, artifactId, version, fileName);
            if groupId == "" || artifactId == "" || version == "" || fileName == "" then r == None
            else
              var base, name := artifactId + "-" + version, groupId + ":" + artifactId + ":" + version;
              && (forall rest :: fileName == base + "-" + rest ==> r == Some(name + ":" + rest))
              && ((forall rest :: fileName != base + "-" + rest) ==> r == Some(name))
  {
    var base := artifactId + "-" + version;
    if base + "-" <= fileName {
      assert fileName == base + "-" + fileName[|base| + 1..];
    }
    forall rest | fileName == base + "-" + rest ensures rest == fileName[|base| + 1..] && base + "-" <= fileName {
    }
  }

  // ----- Names -----

  lemma NameSplits(c: Coordinate)
    requires c.Plain()
    ensures Split(c.Name(), '@') == [c.Body()] + if c.extension == "jar" then [] else [c.extension]
  {
    SplitWhole(c.Body(), '@');
    SplitWhole(c.extension, '@');
    SplitAt(c.Body(), c.extension, '@');
    assert c.Name() == if c.extension == "jar" then c.Body() else c.Body() + "@" + c.extension;
  }

  lemma BodySplits(c: Coordinate)
    requires c.Plain()
    ensures Split(c.Body(), ':') ==
            [c.groupId, c.artifactId, c.version] + if c.classifier == "" then [] else [c.classifier]
  {
    SplitWhole(c.groupId, ':');
    SplitWhole(c.artifactId, ':');
    SplitWhole(c.version, ':');
    SplitWhole(c.classifier, ':');
    SplitAt(c.groupId, c.artifactId, ':');
    SplitAt(c.groupId + ":" + c.artifactId, c.version, ':');
    var three := c.groupId + ":" + c.artifactId + ":" + c.version;
    SplitAt(three, c.classifier, ':');
    assert three + (":" + c.classifier) == three + ":" + c.classifier;
    assert three + "" == three;
  }

  /** A coordinate's name is resolved into the coordinate. */
  lemma NameResolves(c: Coordinate)
    requires c.Plain()
    ensures Resolve(c.Name()) == Ok(LibraryInfo(c, c.Name(), EndsWith(c.version, "-SNAPSHOT"), c.Path()))
  {
    hide Split, Replace;
    NameSplits(c);
    BodySplits(c);
  }

  // ----- Paths -----

  lemma PathSplits(c: Coordinate)
    requires c.Plain()
    ensures Split(c.Path(), '/') == Split(c.groupId, '.') + [c.artifactId, c.version, c.FileName()]
  {
    hide Split, Replace;
    var g := Replace(c.groupId, '.', '/');
    SplitReplace(c.groupId, '.', '/');
    SplitWhole(c.artifactId, '/');
    SplitWhole(c.version, '/');
    SplitWhole(c.FileName(), '/');
    SplitAt(g, c.artifactId, '/');
    SplitAt(g + "/" + c.artifactId, c.version, '/');
    SplitAt(g + "/" + c.artifactId + "/" + c.version, c.FileName(), '/');
  }

  lemma ExtensionFound(c: Coordinate)
    requires c.Plain()
    ensures Extname(c.FileName()) == "." + c.extension
  {
    LastIndexAfter(c.Base(), c.extension, '.');
    assert c.FileName()[|c.Base()|..] == "." + c.extension;
    assert c.FileName()[|c.artifactId|] == '-';
  }

  /** What is cut out of the file name after the first `skip` characters. */
  lemma ClassifierCut(c: Coordinate, skip: nat)
    requires c.Plain() && skip <= |c.Base()|
    ensures var rest := c.Base()[skip..];
            Classifier(c.FileName(), skip) == if rest != "" && rest[0] == '-' then rest[1..] else rest
  {
    ExtensionFound(c);
    assert c.FileName()[skip..|c.Base()|] == c.Base()[skip..];
  }

  /** Did the path give back the coordinate and its name? */
  predicate Recovers(p: PathInfo, c: Coordinate) {
    && p.groupId == c.groupId && p.artifactId == Some(c.artifactId) && p.version == Some(c.version)
    && p.classifier == c.classifier && p.extension == c.extension && p.name == c.Name()
  }

  lemma ReadsPath(c: Coordinate)
    requires c.Plain()
    ensures ResolveFromPath(c.Path()).Ok?
    ensures var p := ResolveFromPath(c.Path()).value;
            && p.groupId == c.groupId && p.artifactId == Some(c.artifactId) && p.version == Some(c.version)
            && p.extension == c.extension
            && (var prefix := if c.version <= c.FileName() then c.version else c.artifactId + "-" + c.version;
                p.classifier == Classifier(c.FileName(), |prefix|))
            && (p.classifier == c.classifier ==> p.name == c.Name())
  {
    hide Split, Join, Extname, Classifier;
    PathSplits(c);
    ExtensionFound(c);
    JoinSplit(c.groupId, '.');
    var parts := Split(c.Path(), '/');
    assert AllButThree(parts) == Split(c.groupId, '.');
    assert ("." + c.extension)[1..] == c.extension;
  }

  /**
   * The path of a coordinate's name gives back name, group, artifact, version,
   * classifier and type if and only if the file's name does not start with the
   * version.
   */
  lemma PathRoundTripIff(c: Coordinate)
    requires c.Plain()
    ensures Resolve(c.Name()).Ok?
    ensures var p := ResolveFromPath(Resolve(c.Name()).value.path);
            p.Ok? && (Recovers(p.value, c) <==> !(c.version <= c.FileName()))
  {
    hide Split, Resolve, ResolveFromPath, Classifier;
    NameResolves(c);
    ReadsPath(c);
    if c.version <= c.FileName() {
      ClassifierCut(c, |c.version|);
    } else {
      ClassifierCut(c, |c.artifactId + "-" + c.version|);
    }
  }

  /** A classpath entry below `libraries` gives back the name of any jar. */
  lemma ClasspathRoundTrip(c: Coordinate)
    requires c.Plain() && c.extension == "jar"
    requires c.groupId != "" && c.version != ""
    requires '\\' !in c.groupId + c.artifactId + c.version + c.classifier
    ensures ClasspathEntryToLibraryName("libraries/" + c.Path()) == Some(c.Name())
  {
    hide Split, Join, Replace, NameOfFile;
    var entry := "libraries/" + c.Path();
    assert entry[10..] == c.Path();
    NoBackslash(c);
    ReplaceNothing(c.Path(), '\\', '/');
    PathSplits(c);
    JoinSplit(c.groupId, '.');
    var parts := Split(c.Path(), '/');
    assert parts[..|parts| - 3] == Split(c.groupId, '.');
    var last := c.FileName();
    assert last[|last| - 4..] == ".jar" && last[..|last| - 4] == c.Base();
    NameOfBase(c);
  }

  lemma NameOfBase(c: Coordinate)
    requires c.artifactId != "" && c.groupId != "" && c.version != "" && c.extension == "jar"
    ensures NameOfFile(c.groupId, c.artifactId, c.version, c.Base()) == Some(c.Name())
  {
    var base, three := c.artifactId + "-" + c.version, c.groupId + ":" + c.artifactId + ":" + c.version;
    if c.classifier == "" {
      assert c.Base() == base && c.Name() == three;
    } else {
      assert c.Base() == (base + "-") + c.classifier && c.Name() == three + ":" + c.classifier;
      assert base + "-" <= c.Base();
      assert c.Base()[|base| + 1..] == c.classifier;
    }
  }

  lemma NoBackslash(c: Coordinate)
    requires '\\' !in c.groupId + c.artifactId + c.version + c.classifier && c.extension == "jar"
    ensures '\\' !in c.Path()
  {
    ReplaceKeepsOut(c.groupId, '.', '/', '\\');
  }
}
