/**
 * Following `inheritsFrom` from a version's JSON file to the root version
 * (`resolveDependency` in `packages/core/version.ts`).
 */
module VersionChain {
  import opened Basics

  datatype Library = Library(groupId: string, artifactId: string, classifier: string, isNative: bool, path: string)

  /** The fields a version leaves to its parent when they are absent, which is when their text is empty. */
  datatype Texts = Texts(
    mainClass: string,
    assets: string,
    assetIndex: string,
    javaVersion: string,
    logging: string,
    releaseTime: string,
    time: string,
    releaseType: string)

  /** A version JSON after normalisation. */
  datatype VersionJson = VersionJson(
    id: string,
    inheritsFrom: string,
    replace: bool,
    game: seq<string>,
    jvm: seq<string>,
    texts: Texts,
    minimumLauncherVersion: nat,
    libraries: seq<Library>,
    downloads: map<string, string>,
    clientVersion: Option<string>,
    minecraftVersion: Option<string>,
    minecraftDirectory: string)

  /** A file under `versions/<name>/<name>.json`; a name without a file has no entry. */
  datatype VersionFile = Parsed(json: VersionJson) | NotJson | Rejected

  datatype VersionError =
    | MissingVersionJson(version: string)
    | CorruptedVersionJson(version: string)
    | CircularDependencies(chain: seq<string>)
    | OtherError

  type Folder = map<string, VersionFile>

  function Ids(stack: seq<VersionJson>): (r: seq<string>)
    ensures |r| == |stack|
    ensures forall i :: 0 <= i < |stack| ==> r[i] == stack[i].id
  {
    seq(|stack|, i requires 0 <= i < |stack| => stack[i].id)
  }

  /** Between two calls of `walk`: the versions pushed so far and the directory to read next. */
  datatype Walk =
    | Visiting(stack: seq<VersionJson>, next: string)
    | Done(stack: seq<VersionJson>)
    | Failed(error: VersionError)

  /** One call of `walk`, up to its call of itself. */
  function Visit(files: Folder, w: Walk): Walk
    requires w.Visiting?
  {
    if w.next !in files then Failed(MissingVersionJson(w.next))
    else match files[w.next]
      case NotJson => Failed(CorruptedVersionJson(w.next))
      case Rejected => Failed(OtherError)
      case Parsed(json) =>
        var stack := w.stack + [json];
        if json.inheritsFrom == "" then Done(stack)
        else if json.inheritsFrom in Ids(stack) then Failed(CircularDependencies(Ids(stack) + [json.inheritsFrom]))
        else Visiting(stack, json.inheritsFrom)
  }

  function After(files: Folder, version: string, n: nat): Walk {
    if n == 0 then Visiting([], version)
    else
      var w := After(files, version, n - 1);
      if w.Visiting? then Visit(files, w) else w
  }

  /** The directory of the `i`-th version of a chain. */
  function Name(version: string, stack: seq<VersionJson>, i: nat): string
    requires i <= |stack|
  {
    if i == 0 then version else stack[i - 1].inheritsFrom
  }

  /** `stack` is what the links from `version` on lead through, none of them back to an id already seen. */
  predicate Linked(files: Folder, version: string, stack: seq<VersionJson>) {
    && (forall i :: 0 <= i < |stack| ==>
          Name(version, stack, i) in files && files[Name(version, stack, i)] == Parsed(stack[i]))
    && (forall i :: 0 < i < |stack| ==> Follows(version, stack, i))
  }

  /** The link to the `i`-th version is a real one and not circular. */
  predicate Follows(version: string, stack: seq<VersionJson>, i: nat)
    requires 0 < i <= |stack|
  {
    Name(version, stack, i) != "" && Name(version, stack, i) !in Ids(stack[..i])
  }

  /** The whole chain of a version: linked, and ending without a parent. */
  predicate Chain(files: Folder, version: string, stack: seq<VersionJson>) {
    && stack != []
    && Linked(files, version, stack)
    && stack[|stack| - 1].inheritsFrom == ""
  }

  /** Every file holds the version its directory is named after. */
  predicate IdsAreNames(files: Folder) {
    forall name <- files :: files[name].Parsed? ==> files[name].json.id == name
  }

  // ----- What a walk has seen -----

  predicate WalkOk(files: Folder, version: string, n: nat, w: Walk) {
    match w
    case Visiting(stack, next) =>
      && |stack| == n && Linked(files, version, stack)
      && next == Name(version, stack, n) && (n > 0 ==> Follows(version, stack, n))
    case Done(stack) => |stack| <= n && Chain(files, version, stack)
    case Failed(_) => true
  }

  lemma LinkedAppend(files: Folder, version: string, stack: seq<VersionJson>, json: VersionJson)
    requires Linked(files, version, stack)
    requires Name(version, stack, |stack|) in files && files[Name(version, stack, |stack|)] == Parsed(json)
    requires |stack| > 0 ==> Follows(version, stack, |stack|)
    ensures Linked(files, version, stack + [json])
  {
    hide Follows, Name;
    var more := stack + [json];
    forall i | 0 <= i < |more|
      ensures Name(version, more, i) in files && files[Name(version, more, i)] == Parsed(more[i])
    {
      NameAppend(version, stack, json, i);
    }
    forall i | 0 < i < |more| ensures Follows(version, more, i) {
      assert Follows(version, stack, i);
      FollowsAppend(version, stack, json, i);
    }
  }

  lemma NameAppend(version: string, stack: seq<VersionJson>, json: VersionJson, i: nat)
    requires i <= |stack|
    ensures Name(version, stack + [json], i) == Name(version, stack, i)
  {
  }

  lemma FollowsAppend(version: string, stack: seq<VersionJson>, json: VersionJson, i: nat)
    requires 0 < i <= |stack|
    ensures Follows(version, stack + [json], i) == Follows(version, stack, i)
  {
    hide Ids;
    assert (stack + [json])[..i] == stack[..i];
  }

  lemma VisitOk(files: Folder, version: string, n: nat, w: Walk)
    requires w.Visiting? && WalkOk(files, version, n, w)
    ensures WalkOk(files, version, n + 1, Visit(files, w))
  {
    hide Linked, Ids;
    if w.next in files && files[w.next].Parsed? {
      var json := files[w.next].json;
      LinkedAppend(files, version, w.stack, json);
      assert (w.stack + [json])[..n + 1] == w.stack + [json];
    }
  }

  lemma {:induction false} AfterOk(files: Folder, version: string, n: nat)
    ensures WalkOk(files, version, n, After(files, version, n))
  {
    hide Visit, Linked;
    if n > 0 {
      AfterOk(files, version, n - 1);
      var w := After(files, version, n - 1);
      if w.Visiting? {
        VisitOk(files, version, n - 1, w);
      } else {
        OkForLonger(files, version, n - 1, w);
      }
    } else {
      NothingLinked(files, version);
    }
  }

  /**
   * Why the walk failed behind the versions of `stack`: the next file does not
   * exist, is no JSON, is refused, or the next link is an id already read.
   */
  predicate Explains(files: Folder, version: string, stack: seq<VersionJson>, error: VersionError) {
    var next := Name(version, stack, |stack|);
    && Linked(files, version, stack)
    && match error
       case MissingVersionJson(name) => name == next && next !in files
       case CorruptedVersionJson(name) => name == next && next in files && files[next] == NotJson
       case OtherError => next in files && files[next] == Rejected
       case CircularDependencies(chain) =>
         stack != [] && next != "" && next in Ids(stack) && chain == Ids(stack) + [next]
  }

  lemma VisitFails(files: Folder, version: string, n: nat, w: Walk) returns (stack: seq<VersionJson>)
    requires w.Visiting? && WalkOk(files, version, n, w) && Visit(files, w).Failed?
    ensures Explains(files, version, stack, Visit(files, w).error)
  {
    hide Linked, Ids, Follows;
    stack := w.stack;
    if w.next in files && files[w.next].Parsed? {
      stack := w.stack + [files[w.next].json];
      LinkedAppend(files, version, w.stack, files[w.next].json);
    }
  }

  /** Every failure is explained by the files read so far. */
  lemma {:induction false} FailureExplained(files: Folder, version: string, n: nat) returns (stack: seq<VersionJson>)
    requires After(files, version, n).Failed?
    ensures Explains(files, version, stack, After(files, version, n).error)
  {
    hide Visit, WalkOk, Explains;
    var w := After(files, version, n - 1);
    if w.Failed? {
      stack := FailureExplained(files, version, n - 1);
    } else {
      AfterOk(files, version, n - 1);
      stack := VisitFails(files, version, n - 1, w);
    }
  }

  lemma NothingLinked(files: Folder, version: string)
    ensures Linked(files, version, [])
  {
  }

  lemma OkForLonger(files: Folder, version: string, n: nat, w: Walk)
    requires !w.Visiting? && WalkOk(files, version, n, w)
    ensures WalkOk(files, version, n + 1, w)
  {
  }

  lemma LinkAt(files: Folder, version: string, stack: seq<VersionJson>, i: nat)
    requires Linked(files, version, stack) && i < |stack|
    ensures Name(version, stack, i) in files && files[Name(version, stack, i)] == Parsed(stack[i])
    ensures 0 < i ==> Follows(version, stack, i)
  {
  }

  lemma ChainLink(files: Folder, version: string, chain: seq<VersionJson>, n: nat)
    requires Chain(files, version, chain) && n < |chain|
    ensures Name(version, chain, n) in files && files[Name(version, chain, n)] == Parsed(chain[n])
    ensures chain[..n] + [chain[n]] == chain[..n + 1]
    ensures n + 1 < |chain| ==> chain[n].inheritsFrom != "" && chain[n].inheritsFrom !in Ids(chain[..n + 1])
  {
    hide Linked, Ids;
    LinkAt(files, version, chain, n);
    if n + 1 < |chain| {
      LinkAt(files, version, chain, n + 1);
    }
  }

  /** A prefix of a chain is what the walk holds after as many calls. */
  lemma {:induction false} AfterPrefix(files: Folder, version: string, chain: seq<VersionJson>, n: nat)
    requires Chain(files, version, chain)
    requires n <= |chain|
    ensures After(files, version, n) ==
            if n < |chain| then Visiting(chain[..n], Name(version, chain, n)) else Done(chain)
  {
    hide Linked, Follows, Ids;
    if n > 0 {
      AfterPrefix(files, version, chain, n - 1);
      ChainLink(files, version, chain, n - 1);
      if n == |chain| {
        assert chain[..n] == chain;
      }
    }
  }

  lemma {:induction false} StaysDone(files: Folder, version: string, m: nat, n: nat)
    requires m <= n && !After(files, version, m).Visiting?
    ensures After(files, version, n) == After(files, version, m)
  {
    if m < n {
      StaysDone(files, version, m, n - 1);
    }
  }

  /** The walk succeeds with exactly the chain of the version, for any files. */
  lemma ResolvesToChain(files: Folder, version: string, chain: seq<VersionJson>)
    ensures Chain(files, version, chain) <==> (exists n: nat :: After(files, version, n) == Done(chain))
  {
    if Chain(files, version, chain) {
      AfterPrefix(files, version, chain, |chain|);
    }
    forall n: nat | After(files, version, n) == Done(chain) ensures Chain(files, version, chain) {
      AfterOk(files, version, n);
    }
  }

  // ----- Termination -----

  /** Where ids are directory names, the versions of a chain are distinct and have their own files. */
  lemma LinkedDistinct(files: Folder, version: string, stack: seq<VersionJson>)
    requires IdsAreNames(files) && Linked(files, version, stack)
    ensures forall i :: 0 <= i < |stack| ==> stack[i].id == Name(version, stack, i) && stack[i].id in files
    ensures forall i, j :: 0 <= i < j < |stack| ==> stack[i].id != stack[j].id
  {
    forall i | 0 <= i < |stack| ensures stack[i].id == Name(version, stack, i) && stack[i].id in files {
      assert files[Name(version, stack, i)].Parsed?;
    }
    forall i, j | 0 <= i < j < |stack| ensures stack[i].id != stack[j].id {
      assert Follows(version, stack, j);
      assert Ids(stack[..j])[i] == stack[i].id;
    }
  }

  lemma {:induction false} DistinctWithin(ids: seq<string>, names: set<string>)
    requires forall i :: 0 <= i < |ids| ==> ids[i] in names
    requires forall i, j :: 0 <= i < j < |ids| ==> ids[i] != ids[j]
    ensures |ids| <= |names|
    decreases |ids|
  {
    if ids != [] {
      var last := ids[|ids| - 1];
      DistinctWithin(ids[..|ids| - 1], names - {last});
    }
  }

  /** A walk that is still going has read fewer versions than there are files. */
  lemma VisitingIsShort(files: Folder, version: string, n: nat)
    requires IdsAreNames(files) && After(files, version, n).Visiting?
    ensures n <= |files|
  {
    AfterOk(files, version, n);
    var stack := After(files, version, n).stack;
    LinkedDistinct(files, version, stack);
    DistinctWithin(Ids(stack), files.Keys);
    assert |files.Keys| == |files|;
  }

  /**
   * Where ids are directory names, the walk ends after at most one call more than
   * there are files, and if it succeeds, the versions are distinct, start with
   * the one asked for and end with one that has no parent.
   */
  lemma WalkEnds(files: Folder, version: string)
    requires IdsAreNames(files)
    ensures !After(files, version, |files| + 1).Visiting?
    ensures var w := After(files, version, |files| + 1);
            w.Done? ==>
              && Chain(files, version, w.stack) && w.stack[0].id == version
              && w.stack[|w.stack| - 1].inheritsFrom == ""
              && (forall i :: 0 < i < |w.stack| ==> w.stack[i].id == w.stack[i - 1].inheritsFrom)
              && (forall i, j :: 0 <= i < j < |w.stack| ==> w.stack[i].id != w.stack[j].id)
  {
    hide After, Follows;
    if After(files, version, |files| + 1).Visiting? {
      VisitingIsShort(files, version, |files| + 1);
    }
    AfterOk(files, version, |files| + 1);
    var w := After(files, version, |files| + 1);
    if w.Done? {
      LinkedDistinct(files, version, w.stack);
    }
  }

  /** A file that holds another id than its directory's and inherits from itself is read for ever. */
  const BARE := Texts("", "", "", "", "", "", "", "")

  const OUROBOROS: Folder :=
    map["a" := Parsed(VersionJson("b", "a", false, [], [], BARE, 0, [], map[], None, None, ""))]

  lemma {:induction false} ForeignIdNeverEnds(n: nat)
    ensures After(OUROBOROS, "a", n).Visiting? && After(OUROBOROS, "a", n).next == "a"
    ensures forall json <- After(OUROBOROS, "a", n).stack :: json.id == "b"
  {
    if n > 0 {
      ForeignIdNeverEnds(n - 1);
      var stack := After(OUROBOROS, "a", n - 1).stack + [OUROBOROS["a"].json];
      assert forall id <- Ids(stack) :: id == "b";
    }
  }

  // ----- Ending at all -----

  /** Calls after which a walk has ended or never will. */
  function Limit(files: Folder): nat {
    2 * |files| + 1
  }

  lemma Repetition(names: seq<string>, among: set<string>) returns (a: nat, b: nat)
    requires forall name <- names :: name in among
    requires |names| > |among|
    ensures a < b < |names| && names[a] == names[b]
  {
    if forall i, j :: 0 <= i < j < |names| ==> names[i] != names[j] {
      DistinctWithin(names, among);
    }
    a, b :| 0 <= a < b < |names| && names[a] == names[b];
  }

  /** The directory read after `i` versions is read again `q` versions later, with the same outcome. */
  predicate Again(version: string, stack: seq<VersionJson>, q: nat, i: nat)
    requires i + q <= |stack|
  {
    && Name(version, stack, i + q) == Name(version, stack, i)
    && (i + q < |stack| ==> stack[i + q] == stack[i])
  }

  /** From `a` on, the chain goes round a circle of `q` versions. */
  predicate Circles(version: string, stack: seq<VersionJson>, a: nat, q: nat) {
    q > 0 && a + q <= |stack| && forall i: nat :: a <= i <= |stack| - q ==> Again(version, stack, q, i)
  }

  lemma {:induction false} AgainOnwards(files: Folder, version: string, stack: seq<VersionJson>, a: nat, q: nat, i: nat)
    requires Linked(files, version, stack) && q > 0 && a + q <= |stack|
    requires Name(version, stack, a + q) == Name(version, stack, a)
    requires a <= i <= |stack| - q
    ensures Again(version, stack, q, i)
  {
    hide Linked, Follows;
    if i > a {
      AgainOnwards(files, version, stack, a, q, i - 1);
    }
    if i + q < |stack| {
      LinkAt(files, version, stack, i);
      LinkAt(files, version, stack, i + q);
    }
  }

  /** A walk still going after more calls than there are files is in a circle. */
  lemma FindCircle(files: Folder, version: string, stack: seq<VersionJson>) returns (a: nat, q: nat)
    requires Linked(files, version, stack) && |stack| > |files|
    ensures Circles(version, stack, a, q) && a + q <= |files|
  {
    hide Again, Name, Linked;
    var names := seq(|files| + 1, i requires 0 <= i <= |files| => Name(version, stack, i));
    forall name <- names ensures name in files {
      var i :| 0 <= i < |names| && names[i] == name;
      LinkAt(files, version, stack, i);
    }
    assert |files.Keys| == |files|;
    var b;
    a, b := Repetition(names, files.Keys);
    q := b - a;
    forall i: nat | a <= i <= |stack| - q ensures Again(version, stack, q, i) {
      AgainOnwards(files, version, stack, a, q, i);
    }
  }

  /** In a circle no id is new. */
  lemma {:induction false} OldId(version: string, stack: seq<VersionJson>, a: nat, q: nat, i: nat) returns (k: nat)
    requires Circles(version, stack, a, q) && i < |stack|
    ensures k < a + q && stack[k] == stack[i]
  {
    k := i;
    if i >= a + q {
      assert Again(version, stack, q, i - q);
      k := OldId(version, stack, a, q, i - q);
    }
  }

  /** Going on in a circle stays in it. */
  lemma CircleStep(version: string, stack: seq<VersionJson>, a: nat, q: nat)
    requires Circles(version, stack, a, q)
    ensures 0 < q <= |stack| && Circles(version, stack + [stack[|stack| - q]], a, q)
    ensures Name(version, stack, |stack|) == Name(version, stack, |stack| - q)
  {
    var n := |stack|;
    var more := stack + [stack[n - q]];
    assert Again(version, stack, q, n - q);
    forall i: nat | a <= i <= n + 1 - q ensures Again(version, more, q, i) {
      if i <= n - q {
        assert Again(version, stack, q, i);
      }
    }
  }

  lemma SeenBefore(version: string, stack: seq<VersionJson>, j: nat, k: nat)
    requires 0 < j <= |stack| && Follows(version, stack, j) && k < j
    ensures stack[k].id != Name(version, stack, j)
  {
    assert Ids(stack[..j])[k] == stack[k].id;
  }

  /** In a circle the next link has been followed before, when all its ids were on the stack already. */
  lemma LinkIsOld(version: string, stack: seq<VersionJson>, a: nat, q: nat, j: nat)
    requires Circles(version, stack, a, q) && a + q <= j <= |stack| && j > 0 && Follows(version, stack, j)
    ensures Name(version, stack, j) !in Ids(stack)
  {
    hide Circles, Follows;
    forall i | 0 <= i < |stack| ensures stack[i].id != Name(version, stack, j) {
      var k := OldId(version, stack, a, q, i);
      SeenBefore(version, stack, j, k);
    }
  }

  /** A walk in a circle goes on. */
  lemma CircleGoesOn(files: Folder, version: string, n: nat, a: nat, q: nat)
    requires After(files, version, n).Visiting?
    requires Circles(version, After(files, version, n).stack, a, q) && n >= a + 2 * q
    ensures After(files, version, n + 1).Visiting?
    ensures Circles(version, After(files, version, n + 1).stack, a, q)
  {
    hide Linked, Circles, Follows, Ids;
    AfterOk(files, version, n);
    var stack := After(files, version, n).stack;
    CircleStep(version, stack, a, q);
    LinkAt(files, version, stack, n - q);
    var j := n - q + 1;
    if q > 1 {
      LinkAt(files, version, stack, j);
    }
    LinkIsOld(version, stack, a, q, j);
    OldIdToo(stack, n - q);
    LinkNotEmpty(version, stack, j);
  }

  lemma LinkNotEmpty(version: string, stack: seq<VersionJson>, j: nat)
    requires 0 < j <= |stack| && Follows(version, stack, j)
    ensures Name(version, stack, j) == stack[j - 1].inheritsFrom != ""
  {
  }

  lemma OldIdToo(stack: seq<VersionJson>, i: nat)
    requires i < |stack|
    ensures forall id :: id in Ids(stack + [stack[i]]) ==> id in Ids(stack)
  {
    var more := stack + [stack[i]];
    forall id | id in Ids(more) ensures id in Ids(stack) {
      var k :| 0 <= k < |more| && Ids(more)[k] == id;
      assert Ids(stack)[if k < |stack| then k else i] == id;
    }
  }

  lemma {:induction false} CircleForEver(files: Folder, version: string, n: nat, m: nat, a: nat, q: nat)
    requires After(files, version, n).Visiting? && n <= m
    requires Circles(version, After(files, version, n).stack, a, q) && n >= a + 2 * q
    ensures After(files, version, m).Visiting?
    decreases m - n
  {
    if n < m {
      CircleGoesOn(files, version, n, a, q);
      CircleForEver(files, version, n + 1, m, a, q);
    }
  }

  /** For any files: a walk that ends does so within twice as many calls as there are files, and one more. */
  lemma EndsIffEndsSoon(files: Folder, version: string)
    ensures NeverEnds(files, version) <==> After(files, version, Limit(files)).Visiting?
  {
    if After(files, version, Limit(files)).Visiting? {
      AfterOk(files, version, Limit(files));
      var a, q := FindCircle(files, version, After(files, version, Limit(files)).stack);
      forall n: nat ensures After(files, version, n).Visiting? {
        if n >= Limit(files) {
          CircleForEver(files, version, Limit(files), n, a, q);
        } else if !After(files, version, n).Visiting? {
          StaysDone(files, version, n, Limit(files));
        }
      }
    }
  }

  // ----- Which folders a walk never leaves -----

  function LinkTarget(files: Folder, name: string): string
    requires name in files && files[name].Parsed?
  {
    files[name].json.inheritsFrom
  }

  predicate AllParsed(files: Folder, names: seq<string>) {
    forall i :: 0 <= i < |names| ==> names[i] in files && files[names[i]].Parsed?
  }

  /** `id` is the id in one of the files `names`. */
  predicate ReadIn(files: Folder, names: seq<string>, id: string)
    requires AllParsed(files, names)
  {
    exists i :: 0 <= i < |names| && files[names[i]].json.id == id
  }

  /** The `i`-th name links to the next, the last back to the `a`-th. */
  predicate LinksOn(files: Folder, names: seq<string>, a: nat, i: nat)
    requires AllParsed(files, names) && a < |names| && i < |names|
  {
    LinkTarget(files, names[i]) == (if i + 1 < |names| then names[i + 1] else names[a]) != ""
  }

  /** The link of the `i`-th name is not to an id read up to there; nor, in the circle, to any. */
  predicate LinksAnew(files: Folder, names: seq<string>, a: nat, i: nat)
    requires AllParsed(files, names) && i < |names|
  {
    && !ReadIn(files, names[..i + 1], LinkTarget(files, names[i]))
    && (a <= i ==> !ReadIn(files, names, LinkTarget(files, names[i])))
  }

  /**
   * The links from `version` run into a closed circle of parsed files, and none
   * of them leads to the id of a version already read on the way.
   */
  predicate Lasso(files: Folder, version: string, names: seq<string>, a: nat) {
    && a < |names| && names[0] == version && AllParsed(files, names)
    && forall i: nat :: i < |names| ==> LinksOn(files, names, a, i) && LinksAnew(files, names, a, i)
  }

  /** Which of the `length` names is read after `i` others, going round from the `a`-th on. */
  function Fold(length: nat, a: nat, i: nat): (r: nat)
    requires a < length
    ensures r < length && (i >= length ==> r >= a) && (i < length ==> r == i)
    decreases i
  {
    if i < length then i else Fold(length, a, i - (length - a))
  }

  lemma {:induction false} FoldNext(length: nat, a: nat, i: nat)
    requires a < length
    ensures Fold(length, a, i + 1) == if Fold(length, a, i) + 1 < length then Fold(length, a, i) + 1 else a
    decreases i
  {
    if i >= length {
      FoldNext(length, a, i - (length - a));
    }
  }

  /** What a walk around a lasso holds after `n` calls. */
  predicate OnLasso(files: Folder, names: seq<string>, a: nat, n: nat, w: Walk)
    requires AllParsed(files, names) && a < |names|
  {
    && w.Visiting? && |w.stack| == n && w.next == names[Fold(|names|, a, n)]
    && forall i :: 0 <= i < n ==> w.stack[i] == files[names[Fold(|names|, a, i)]].json
  }

  lemma NoOldLink(files: Folder, version: string, names: seq<string>, a: nat, n: nat, stack: seq<VersionJson>)
    requires Lasso(files, version, names, a) && |stack| == n + 1
    requires forall i :: 0 <= i <= n ==> stack[i] == files[names[Fold(|names|, a, i)]].json
    ensures LinkTarget(files, names[Fold(|names|, a, n)]) !in Ids(stack)
  {
    hide Fold;
    var f := Fold(|names|, a, n);
    var target := LinkTarget(files, names[f]);
    assert LinksAnew(files, names, a, f);
    forall i | 0 <= i <= n ensures stack[i].id != target {
      var k := Fold(|names|, a, i);
      if n < |names| {
        assert names[..f + 1][k] == names[k];
      } else {
        assert !ReadIn(files, names, target);
      }
    }
  }

  /** One more call of a walk around a lasso. */
  lemma LassoStep(files: Folder, version: string, names: seq<string>, a: nat, n: nat, w: Walk)
    requires Lasso(files, version, names, a) && OnLasso(files, names, a, n, w)
    ensures OnLasso(files, names, a, n + 1, Visit(files, w))
  {
    hide Fold, ReadIn, Ids, LinksAnew;
    FoldNext(|names|, a, n);
    assert LinksOn(files, names, a, Fold(|names|, a, n));
    NoOldLink(files, version, names, a, n, w.stack + [files[w.next].json]);
  }

  lemma {:induction false} LassoGoesOn(files: Folder, version: string, names: seq<string>, a: nat, n: nat)
    requires Lasso(files, version, names, a)
    ensures OnLasso(files, names, a, n, After(files, version, n))
  {
    hide Visit;
    if n > 0 {
      LassoGoesOn(files, version, names, a, n - 1);
      LassoStep(files, version, names, a, n - 1, After(files, version, n - 1));
    }
  }

  /** The names a walk in a circle has read up to the end of the first round. */
  lemma CircleIsLasso(files: Folder, version: string, stack: seq<VersionJson>, a: nat, q: nat)
    returns (names: seq<string>)
    requires Linked(files, version, stack) && Circles(version, stack, a, q) && a + 2 * q < |stack|
    ensures Lasso(files, version, names, a)
  {
    hide Linked, Circles, Follows, Again, Name, LinksOn, LinksAnew;
    CircleSize(version, stack, a, q);
    names := seq(a + q, i requires 0 <= i < a + q => Name(version, stack, i));
    forall i | 0 <= i < |names| ensures names[i] in files && files[names[i]] == Parsed(stack[i]) {
      LinkAt(files, version, stack, i);
    }
    FirstName(version, stack);
    forall i: nat | i < |names| ensures LinksOn(files, names, a, i) && LinksAnew(files, names, a, i) {
      CircleLink(files, version, stack, a, q, names, i);
    }
  }

  /** `names` are the first `a + q` directories of a walk in a circle. */
  predicate RoundOf(files: Folder, version: string, stack: seq<VersionJson>, a: nat, q: nat, names: seq<string>) {
    && q > 0 && |names| == a + q < |stack|
    && (forall k :: 0 <= k < |names| ==> names[k] == Name(version, stack, k))
    && (forall k :: 0 <= k < |names| ==> names[k] in files && files[names[k]] == Parsed(stack[k]))
  }

  lemma CircleLink(files: Folder, version: string, stack: seq<VersionJson>, a: nat, q: nat, names: seq<string>, i: nat)
    requires Linked(files, version, stack) && Circles(version, stack, a, q) && a + 2 * q < |stack|
    requires RoundOf(files, version, stack, a, q, names) && i < |names|
    ensures LinksOn(files, names, a, i) && LinksAnew(files, names, a, i)
  {
    hide Linked, Circles, Follows, Again, ReadIn, Ids, LinksOn;
    LinkAt(files, version, stack, i + 1);
    CircleLinksOn(files, version, stack, a, q, names, i);
    NotReadBefore(files, version, stack, names, i + 1);
    if a <= i {
      CircleLinkNew(files, version, stack, a, q, names, i);
    }
  }

  lemma CircleLinksOn(files: Folder, version: string, stack: seq<VersionJson>, a: nat, q: nat, names: seq<string>,
                      i: nat)
    requires Circles(version, stack, a, q) && RoundOf(files, version, stack, a, q, names) && i < |names|
    requires Follows(version, stack, i + 1)
    ensures LinksOn(files, names, a, i)
  {
    hide Circles, Follows, Again, Name;
    LinkNotEmpty(version, stack, i + 1);
    AgainAt(version, stack, a, q, a);
    assert LinkTarget(files, names[i]) == Name(version, stack, i + 1) != "";
    if i + 1 < |names| {
      assert names[i + 1] == Name(version, stack, i + 1);
    } else {
      assert names[a] == Name(version, stack, a);
    }
  }

  lemma CircleLinkNew(files: Folder, version: string, stack: seq<VersionJson>, a: nat, q: nat, names: seq<string>,
                      i: nat)
    requires Linked(files, version, stack) && Circles(version, stack, a, q) && a + 2 * q < |stack|
    requires RoundOf(files, version, stack, a, q, names) && a <= i < |names|
    ensures !ReadIn(files, names, Name(version, stack, i + 1))
  {
    hide Linked, Circles, Follows, Again, ReadIn, Ids, Name;
    LinkAt(files, version, stack, i + 1 + q);
    LinkIsOld(version, stack, a, q, i + 1 + q);
    AgainAt(version, stack, a, q, i + 1);
    NotReadAtAll(files, stack, names, Name(version, stack, i + 1));
  }

  lemma CircleSize(version: string, stack: seq<VersionJson>, a: nat, q: nat)
    requires Circles(version, stack, a, q)
    ensures q > 0
  {
  }

  lemma FirstName(version: string, stack: seq<VersionJson>)
    ensures Name(version, stack, 0) == version
  {
  }

  lemma AgainAt(version: string, stack: seq<VersionJson>, a: nat, q: nat, i: nat)
    requires Circles(version, stack, a, q) && a <= i <= |stack| - q
    ensures Name(version, stack, i + q) == Name(version, stack, i)
  {
    assert Again(version, stack, q, i);
  }

  lemma NotReadBefore(files: Folder, version: string, stack: seq<VersionJson>, names: seq<string>, j: nat)
    requires 0 < j <= |stack| && j <= |names| && Follows(version, stack, j) && AllParsed(files, names)
    requires forall i :: 0 <= i < j ==> files[names[i]] == Parsed(stack[i])
    ensures !ReadIn(files, names[..j], Name(version, stack, j))
  {
    forall i | 0 <= i < j ensures files[names[..j][i]].json.id != Name(version, stack, j) {
      SeenBefore(version, stack, j, i);
    }
  }

  lemma NotReadAtAll(files: Folder, stack: seq<VersionJson>, names: seq<string>, id: string)
    requires |names| <= |stack| && AllParsed(files, names) && id !in Ids(stack)
    requires forall i :: 0 <= i < |names| ==> files[names[i]] == Parsed(stack[i])
    ensures !ReadIn(files, names, id)
  {
    assert forall i :: 0 <= i < |names| ==> Ids(stack)[i] == files[names[i]].json.id;
  }

  /** The walk never comes back. */
  ghost predicate NeverEnds(files: Folder, version: string) {
    forall n: nat :: After(files, version, n).Visiting?
  }

  /** A walk never ends if and only if the folder holds a lasso from its version. */
  lemma NeverEndsIffLasso(files: Folder, version: string)
    ensures NeverEnds(files, version) <==> exists names, a: nat :: Lasso(files, version, names, a)
  {
    hide Lasso;
    if NeverEnds(files, version) {
      var n := Limit(files);
      AfterOk(files, version, n);
      var stack := After(files, version, n).stack;
      var a, q := FindCircle(files, version, stack);
      var names := CircleIsLasso(files, version, stack, a, q);
    }
    if names, a: nat :| Lasso(files, version, names, a) {
      forall n: nat ensures After(files, version, n).Visiting? {
        LassoWalks(files, version, names, a, n);
      }
    }
  }

  lemma LassoWalks(files: Folder, version: string, names: seq<string>, a: nat, n: nat)
    requires Lasso(files, version, names, a)
    ensures After(files, version, n).Visiting?
  {
    LassoGoesOn(files, version, names, a, n);
  }

  // ----- The walk as the recursion it is -----

  /** How a call goes: it returns, it throws, or it is still calling itself. */
  datatype Outcome = Returned | Threw(error: VersionError) | Calling

  class Resolver {
    const files: Folder
    var stack: seq<VersionJson>

    constructor (files: Folder)
      ensures this.files == files && stack == []
    {
      this.files := files;
      stack := [];
    }

    /** `walk(versionName)`, watched for a number of calls. */
    method WalkFrom(ghost version: string, versionName: string, calls: nat) returns (outcome: Outcome)
      requires After(files, version, |stack|) == Visiting(stack, versionName)
      modifies this`stack
      ensures match outcome
              case Returned => After(files, version, |old(stack)| + calls) == Done(stack)
              case Threw(error) => After(files, version, |old(stack)| + calls) == Failed(error)
              case Calling => After(files, version, |old(stack)| + calls).Visiting?
      decreases calls
    {
      if calls == 0 {
        return Calling;
      }
      EndStays(files, version, |stack| + 1, |stack| + calls);
      if versionName !in files {
        return Threw(MissingVersionJson(versionName));
      }
      match files[versionName] {
        case NotJson => return Threw(CorruptedVersionJson(versionName));
        case Rejected => return Threw(OtherError);
        case Parsed(json) =>
          stack := stack + [json];
          if json.inheritsFrom != "" {
            if json.inheritsFrom in Ids(stack) {
              return Threw(CircularDependencies(Ids(stack) + [json.inheritsFrom]));
            }
            outcome := WalkFrom(version, json.inheritsFrom, calls - 1);
          } else {
            outcome := Returned;
          }
      }
    }
  }

  lemma EndStays(files: Folder, version: string, m: nat, n: nat)
    requires m <= n
    ensures !After(files, version, m).Visiting? ==> After(files, version, n) == After(files, version, m)
  {
    if !After(files, version, m).Visiting? {
      StaysDone(files, version, m, n);
    }
  }

  /**
   * `resolveDependency`: the version's chain, an error if it has none, or `None`
   * where the source never comes back.
   */
  method ResolveDependency(files: Folder, version: string) returns (r: Option<Result<seq<VersionJson>, VersionError>>)
    ensures r.None? <==> NeverEnds(files, version)
    ensures r.Some? && r.value.Ok? ==> Chain(files, version, r.value.value)
    ensures r.Some? && r.value.Err? ==> !exists chain :: Chain(files, version, chain)
    ensures r.Some? && r.value.Err? ==> exists n: nat :: After(files, version, n) == Failed(r.value.error)
    ensures r.Some? && r.value.Err? ==> exists stack :: Explains(files, version, stack, r.value.error)
  {
    hide After, Visit;
    var resolver := new Resolver(files);
    StartsVisiting(files, version);
    var outcome := resolver.WalkFrom(version, version, Limit(files));
    AfterOk(files, version, Limit(files));
    EndsIffEndsSoon(files, version);
    match outcome {
      case Returned => r := Some(Ok(resolver.stack));
      case Threw(error) =>
        NoChain(files, version);
        ghost var stack := FailureExplained(files, version, Limit(files));
        assert Explains(files, version, stack, error);
        r := Some(Err(error));
      case Calling => r := None;
    }
  }

  lemma StartsVisiting(files: Folder, version: string)
    ensures After(files, version, 0) == Visiting([], version)
  {
  }

  lemma NoChain(files: Folder, version: string)
    requires After(files, version, Limit(files)).Failed?
    ensures !exists chain :: Chain(files, version, chain)
  {
    forall chain ensures !Chain(files, version, chain) {
      if Chain(files, version, chain) {
        AfterPrefix(files, version, chain, |chain|);
        SameEnd(files, version, |chain|, Limit(files));
      }
    }
  }

  lemma SameEnd(files: Folder, version: string, m: nat, n: nat)
    requires !After(files, version, m).Visiting? && !After(files, version, n).Visiting?
    ensures After(files, version, m) == After(files, version, n)
  {
    if m <= n {
      StaysDone(files, version, m, n);
    } else {
      StaysDone(files, version, n, m);
    }
  }
}
