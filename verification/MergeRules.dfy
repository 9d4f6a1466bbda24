/**
 * What a merged version holds, said of the hierarchy as a whole: which arguments,
 * which library for each key, which main class (`resolve` in
 * `packages/core/version.ts`).
 */
module MergeRules {
  import opened Basics
  import opened VersionChain
  import opened VersionMerge

  lemma {:induction false} OnlyLibraries(m: Merged, libs: seq<Library>)
    requires m.Valid()
    ensures AddLibraries(m, libs).(libraries := m.libraries, natives := m.natives) == m
  {
    if libs != [] {
      OnlyLibraries(m, libs[..|libs| - 1]);
    }
  }

  // ----- Arguments -----

  /** The most derived version that replaces the arguments, or else the root. */
  function Replacer(h: seq<VersionJson>): (r: nat)
    requires h != []
    ensures r < |h| && (h[r].replace || r == |h| - 1)
    ensures forall j :: 0 <= j < r ==> !h[j].replace
  {
    if h[0].replace || |h| == 1 then 0 else Replacer(h[1..]) + 1
  }

  /** Lists put one after the other, the last list first. */
  function RootToLeaf(lists: seq<seq<string>>): seq<string> {
    if lists == [] then [] else RootToLeaf(lists[1..]) + lists[0]
  }

  function Games(h: seq<VersionJson>): (r: seq<seq<string>>) {
    seq(|h|, i requires 0 <= i < |h| => h[i].game)
  }

  function Jvms(h: seq<VersionJson>): (r: seq<seq<string>>) {
    seq(|h|, i requires 0 <= i < |h| => h[i].jvm)
  }

  lemma {:induction false} GamesFromReplacer(h: seq<VersionJson>)
    requires h != []
    ensures Merge(h).game == RootToLeaf(Games(h[..Replacer(h) + 1]))
    decreases |h|
  {
    hide Override, AddLibraries, Merge, RootToLeaf, Replacer, Games;
    ArgumentStep(h);
    ReplacerStep(h);
    GamesStep(h, Replacer(h));
    if Replacer(h) > 0 {
      GamesFromReplacer(h[1..]);
    } else {
      EmptyMerge();
      assert h[1..] == [] || h[0].replace;
      assert [] + h[0].game == h[0].game;
    }
  }

  lemma {:induction false} JvmsFromReplacer(h: seq<VersionJson>)
    requires h != []
    ensures Merge(h).jvm == RootToLeaf(Jvms(h[..Replacer(h) + 1]))
    decreases |h|
  {
    hide Override, AddLibraries, Merge, RootToLeaf, Replacer, Jvms;
    ArgumentStep(h);
    ReplacerStep(h);
    JvmsStep(h, Replacer(h));
    if Replacer(h) > 0 {
      JvmsFromReplacer(h[1..]);
    } else {
      EmptyMerge();
      assert h[1..] == [] || h[0].replace;
      assert [] + h[0].jvm == h[0].jvm;
    }
  }

  /** The arguments are those from the most derived replacing version down to the version itself, in that order. */
  lemma ArgumentsFromReplacer(h: seq<VersionJson>)
    requires h != []
    ensures Merge(h).game == RootToLeaf(Games(h[..Replacer(h) + 1]))
    ensures Merge(h).jvm == RootToLeaf(Jvms(h[..Replacer(h) + 1]))
  {
    GamesFromReplacer(h);
    JvmsFromReplacer(h);
  }

  lemma ReplacerStep(h: seq<VersionJson>)
    requires h != []
    ensures Replacer(h) == if h[0].replace || |h| == 1 then 0 else Replacer(h[1..]) + 1
  {
  }

  lemma GamesStep(h: seq<VersionJson>, r: nat)
    requires r < |h|
    ensures RootToLeaf(Games(h[..r + 1])) == (if r == 0 then [] else RootToLeaf(Games(h[1..][..r]))) + h[0].game
  {
    assert Games(h[..r + 1])[1..] == Games(h[1..][..r]);
  }

  lemma JvmsStep(h: seq<VersionJson>, r: nat)
    requires r < |h|
    ensures RootToLeaf(Jvms(h[..r + 1])) == (if r == 0 then [] else RootToLeaf(Jvms(h[1..][..r]))) + h[0].jvm
  {
    assert Jvms(h[..r + 1])[1..] == Jvms(h[1..][..r]);
  }

  lemma ArgumentStep(h: seq<VersionJson>)
    requires h != []
    ensures Merge(h).game == if h[0].replace then h[0].game else Merge(h[1..]).game + h[0].game
    ensures Merge(h).jvm == if h[0].replace then h[0].jvm else Merge(h[1..]).jvm + h[0].jvm
  {
    OnlyLibraries(Override(Merge(h[1..]), h[0]), h[0].libraries);
  }

  // ----- Single values -----

  lemma ValueStep(h: seq<VersionJson>)
    requires h != []
    ensures Merge(h).texts == OrTexts(h[0].texts, Merge(h[1..]).texts)
    ensures Merge(h).minimumLauncherVersion == Max(h[0].minimumLauncherVersion, Merge(h[1..]).minimumLauncherVersion)
    ensures Merge(h).downloads == Merge(h[1..]).downloads + h[0].downloads
  {
    OnlyLibraries(Override(Merge(h[1..]), h[0]), h[0].libraries);
  }

  /** Is version `i` the most derived one for which `has` holds? */
  predicate MostDerived(has: seq<bool>, i: nat) {
    i < |has| && has[i] && forall j :: 0 <= j < i ==> !has[j]
  }

  function HasDownload(h: seq<VersionJson>, key: string): seq<bool> {
    seq(|h|, i requires 0 <= i < |h| => key in h[i].downloads)
  }

  /** The first text given, or else `otherwise`. */
  function FirstGiven(texts: seq<string>, otherwise: string): string {
    if texts == [] then otherwise else Or(texts[0], FirstGiven(texts[1..], otherwise))
  }

  function Given(texts: seq<string>): seq<bool> {
    seq(|texts|, i requires 0 <= i < |texts| => texts[i] != "")
  }

  lemma {:induction false} FirstGivenIsMostDerived(texts: seq<string>, otherwise: string)
    ensures (forall i :: 0 <= i < |texts| ==> texts[i] == "") ==> FirstGiven(texts, otherwise) == otherwise
    ensures forall i: nat :: MostDerived(Given(texts), i) ==> FirstGiven(texts, otherwise) == texts[i]
    decreases |texts|
  {
    if texts != [] {
      FirstGivenIsMostDerived(texts[1..], otherwise);
      assert forall i :: 0 < i < |texts| ==> texts[1..][i - 1] == texts[i];
      forall i: nat | MostDerived(Given(texts), i) ensures FirstGiven(texts, otherwise) == texts[i] {
        if i > 0 {
          assert !Given(texts)[0];
          GivenRest(texts, i);
        }
      }
    }
  }

  lemma GivenRest(texts: seq<string>, i: nat)
    requires i > 0 && MostDerived(Given(texts), i)
    ensures MostDerived(Given(texts[1..]), i - 1)
  {
    assert forall j :: 0 <= j < i - 1 ==> Given(texts[1..])[j] == Given(texts)[j + 1];
  }

  datatype Field = MainClass | Assets | AssetIndex | JavaVersion | Logging | ReleaseTime | Time | ReleaseType {
    function Of(texts: Texts): string {
      match this
      case MainClass => texts.mainClass
      case Assets => texts.assets
      case AssetIndex => texts.assetIndex
      case JavaVersion => texts.javaVersion
      case Logging => texts.logging
      case ReleaseTime => texts.releaseTime
      case Time => texts.time
      case ReleaseType => texts.releaseType
    }
  }

  function AllTexts(h: seq<VersionJson>, field: Field): seq<string> {
    seq(|h|, i requires 0 <= i < |h| => field.Of(h[i].texts))
  }

  /** A text is the most derived one given; if none is, it is absent, and the Java version is 8. */
  lemma TextRule(h: seq<VersionJson>, field: Field)
    ensures forall i: nat :: MostDerived(Given(AllTexts(h, field)), i) ==>
              field.Of(Merge(h).texts) == field.Of(h[i].texts)
    ensures (forall i :: 0 <= i < |h| ==> field.Of(h[i].texts) == "") ==>
              field.Of(Merge(h).texts) == if field == JavaVersion then JAVA_8 else ""
  {
    hide Merge, MostDerived, FirstGiven, Field.Of;
    TextsMerged(h, field);
    FirstGivenIsMostDerived(AllTexts(h, field), field.Of(NO_TEXTS));
    forall i: nat | MostDerived(Given(AllTexts(h, field)), i)
      ensures i < |h| && field.Of(Merge(h).texts) == field.Of(h[i].texts)
    {
      InRange(Given(AllTexts(h, field)), i);
    }
    Otherwise(field);
    assert forall i :: 0 <= i < |h| ==> AllTexts(h, field)[i] == field.Of(h[i].texts);
  }

  lemma Otherwise(field: Field)
    ensures field.Of(NO_TEXTS) == if field == JavaVersion then JAVA_8 else ""
  {
  }

  lemma InRange(has: seq<bool>, i: nat)
    requires MostDerived(has, i)
    ensures i < |has|
  {
  }

  lemma OfOr(field: Field, a: Texts, b: Texts)
    ensures field.Of(OrTexts(a, b)) == Or(field.Of(a), field.Of(b))
  {
    hide Or;
  }

  lemma {:induction false} TextsMerged(h: seq<VersionJson>, field: Field)
    ensures field.Of(Merge(h).texts) == FirstGiven(AllTexts(h, field), field.Of(NO_TEXTS))
    decreases |h|
  {
    hide Override, AddLibraries, Merge, OrTexts, Or, Field.Of;
    if h == [] {
      EmptyMerge();
    } else {
      ValueStep(h);
      OfOr(field, h[0].texts, Merge(h[1..]).texts);
      TextsMerged(h[1..], field);
      assert AllTexts(h, field)[1..] == AllTexts(h[1..], field);
    }
  }

  /** The launcher version needed is the largest any version needs. */
  lemma {:induction false} LauncherVersionRule(h: seq<VersionJson>)
    ensures forall json <- h :: json.minimumLauncherVersion <= Merge(h).minimumLauncherVersion
    ensures Merge(h).minimumLauncherVersion > 0 ==>
              exists json <- h :: json.minimumLauncherVersion == Merge(h).minimumLauncherVersion
    decreases |h|
  {
    hide Override, AddLibraries, Merge;
    if h == [] {
      EmptyMerge();
    } else {
      ValueStep(h);
      LauncherVersionRule(h[1..]);
      assert forall json <- h :: json == h[0] || json in h[1..];
      assert h[0] in h && forall json <- h[1..] :: json in h;
    }
  }

  lemma EmptyMerge()
    ensures Merge([]) == NOTHING
  {
  }

  /** A download is the most derived version's that has one under its key. */
  lemma {:induction false} DownloadRule(h: seq<VersionJson>, key: string)
    ensures forall i: nat :: MostDerived(HasDownload(h, key), i) ==>
              key in Merge(h).downloads && Merge(h).downloads[key] == h[i].downloads[key]
    ensures key in Merge(h).downloads <==> exists i :: 0 <= i < |h| && key in h[i].downloads
    decreases |h|
  {
    hide Override, AddLibraries, Merge;
    if h == [] {
      EmptyMerge();
    } else {
      ValueStep(h);
      DownloadRule(h[1..], key);
      forall i: nat | MostDerived(HasDownload(h, key), i)
        ensures key in Merge(h).downloads && Merge(h).downloads[key] == h[i].downloads[key]
      {
        if i > 0 {
          assert !HasDownload(h, key)[0];
          assert forall j :: 0 <= j < i - 1 ==> HasDownload(h[1..], key)[j] == HasDownload(h, key)[j + 1];
          assert MostDerived(HasDownload(h[1..], key), i - 1);
        }
      }
      assert forall i :: 0 < i < |h| ==> h[1..][i - 1] == h[i];
    }
  }

  // ----- Libraries -----

  predicate Matches(lib: Library, key: string, native: bool) {
    Key(lib) == key && lib.isNative == native
  }

  /** The last library of a list with a key. */
  function Last(libs: seq<Library>, key: string, native: bool): (r: Option<Library>)
    ensures r.None? <==> forall lib <- libs :: !Matches(lib, key, native)
    ensures r.Some? ==> Matches(r.value, key, native)
    ensures r.Some? ==>
              exists p :: 0 <= p < |libs| && libs[p] == r.value
                          && forall q :: p < q < |libs| ==> !Matches(libs[q], key, native)
  {
    if libs == [] then None
    else
      var last := libs[|libs| - 1];
      if Matches(last, key, native) then Some(last) else Last(libs[..|libs| - 1], key, native)
  }

  function Lookup(m: Merged, key: string, native: bool): Option<Library> {
    var t := if native then m.natives else m.libraries;
    if key in t.values then Some(t.values[key]) else None
  }

  lemma {:induction false} AddLibrariesLookup(m: Merged, libs: seq<Library>, key: string, native: bool)
    requires m.Valid()
    ensures var last := Last(libs, key, native);
            Lookup(AddLibraries(m, libs), key, native) == if last.Some? then last else Lookup(m, key, native)
  {
    if libs != [] {
      AddLibrariesLookup(m, libs[..|libs| - 1], key, native);
    }
  }

  /** `lib` is the last with its key in version `i`, and no more derived version has that key. */
  predicate KeptFrom(h: seq<VersionJson>, lib: Library, i: nat) {
    && i < |h|
    && Last(h[i].libraries, Key(lib), lib.isNative) == Some(lib)
    && forall j :: 0 <= j < i ==> Last(h[j].libraries, Key(lib), lib.isNative).None?
  }

  predicate Kept(h: seq<VersionJson>, lib: Library) {
    exists i: nat | i < |h| :: KeptFrom(h, lib, i)
  }

  lemma {:induction false} LookupMerged(h: seq<VersionJson>, lib: Library)
    ensures Lookup(Merge(h), Key(lib), lib.isNative) == Some(lib) <==> Kept(h, lib)
    decreases |h|
  {
    hide Override, AddLibraries, Last, Key;
    if h == [] {
      assert !Kept(h, lib);
    } else {
      hide Kept;
      LookupMerged(h[1..], lib);
      LookupStep(h, Key(lib), lib.isNative);
      KeptStep(h, lib);
    }
  }

  lemma KeptStep(h: seq<VersionJson>, lib: Library)
    requires h != []
    ensures Kept(h, lib) <==> (var last := Last(h[0].libraries, Key(lib), lib.isNative);
                               if last.Some? then last == Some(lib) else Kept(h[1..], lib))
  {
    hide Last, Key;
    var last := Last(h[0].libraries, Key(lib), lib.isNative);
    if Kept(h, lib) {
      var i: nat :| i < |h| && KeptFrom(h, lib, i);
      if i > 0 {
        KeptShift(h, lib, i - 1);
      }
    }
    if last.None? && Kept(h[1..], lib) {
      var i: nat :| i < |h[1..]| && KeptFrom(h[1..], lib, i);
      KeptShift(h, lib, i);
    }
    if last == Some(lib) {
      assert KeptFrom(h, lib, 0);
    }
  }

  lemma KeptShift(h: seq<VersionJson>, lib: Library, i: nat)
    requires h != []
    ensures KeptFrom(h, lib, i + 1) <==> Last(h[0].libraries, Key(lib), lib.isNative).None? && KeptFrom(h[1..], lib, i)
  {
    hide Last, Key;
    assert forall j :: 0 <= j < |h| - 1 ==> h[1..][j] == h[j + 1];
    if KeptFrom(h[1..], lib, i) && Last(h[0].libraries, Key(lib), lib.isNative).None? {
      forall j | 0 <= j < i + 1 ensures Last(h[j].libraries, Key(lib), lib.isNative).None? {
        assert j > 0 ==> h[1..][j - 1] == h[j];
      }
    }
  }

  lemma LookupStep(h: seq<VersionJson>, key: string, native: bool)
    requires h != []
    ensures var last := Last(h[0].libraries, key, native);
            Lookup(Merge(h), key, native) == if last.Some? then last else Lookup(Merge(h[1..]), key, native)
  {
    AddLibrariesLookup(Override(Merge(h[1..]), h[0]), h[0].libraries, key, native);
  }

  /** Each dictionary holds a library under the library's own key. */
  predicate Filed(m: Merged) {
    && (forall key <- m.libraries.values :: Matches(m.libraries.values[key], key, false))
    && (forall key <- m.natives.values :: Matches(m.natives.values[key], key, true))
  }

  lemma {:induction false} AddLibrariesFiled(m: Merged, libs: seq<Library>)
    requires m.Valid() && Filed(m)
    ensures Filed(AddLibraries(m, libs))
  {
    hide Key;
    if libs != [] {
      AddLibrariesFiled(m, libs[..|libs| - 1]);
    }
  }

  lemma {:induction false} MergeFiled(h: seq<VersionJson>)
    ensures Filed(Merge(h))
    decreases |h|
  {
    if h != [] {
      MergeFiled(h[1..]);
      AddLibrariesFiled(Override(Merge(h[1..]), h[0]), h[0].libraries);
    }
  }

  /**
   * The merged libraries: never two with one key among the plain ones or among
   * the natives, and a library is in the list exactly if the most derived
   * version that declares its key declares it last under that key.
   */
  lemma OneLibraryPerKey(h: seq<VersionJson>)
    ensures var libs := Libraries(Merge(h));
            && (forall p, q :: 0 <= p < q < |libs| ==> !Matches(libs[p], Key(libs[q]), libs[q].isNative))
            && (forall lib :: lib in libs <==> Kept(h, lib))
  {
    hide Merge, Key, Kept;
    var m := Merge(h);
    MergeFiled(h);
    ListedOnce(m);
    forall lib ensures lib in Libraries(m) <==> Kept(h, lib) {
      LookupMerged(h, lib);
      ListedIff(m, lib);
    }
  }

  lemma ListedOnce(m: Merged)
    requires m.Valid() && Filed(m)
    ensures var libs := Libraries(m);
            forall p, q :: 0 <= p < q < |libs| ==> !Matches(libs[p], Key(libs[q]), libs[q].isNative)
  {
    hide Key;
    var plain, natives := m.libraries.Values(), m.natives.Values();
    forall p | 0 <= p < |plain| ensures Matches(plain[p], m.libraries.keys[p], false) {
      assert m.libraries.keys[p] in m.libraries.values;
    }
    forall p | 0 <= p < |natives| ensures Matches(natives[p], m.natives.keys[p], true) {
      assert m.natives.keys[p] in m.natives.values;
    }
  }

  lemma ListedIff(m: Merged, lib: Library)
    requires m.Valid() && Filed(m)
    ensures lib in Libraries(m) <==> Lookup(m, Key(lib), lib.isNative) == Some(lib)
  {
    hide Key;
    InValues(m.libraries, lib);
    InValues(m.natives, lib);
    assert forall key <- m.libraries.values :: m.libraries.values[key] == lib ==> Matches(lib, key, false);
    assert forall key <- m.natives.values :: m.natives.values[key] == lib ==> Matches(lib, key, true);
  }

  lemma InValues(t: Table, lib: Library)
    requires t.Valid()
    ensures lib in t.Values() <==> exists key :: key in t.values && t.values[key] == lib
  {
    forall key | key in t.values && t.values[key] == lib ensures lib in t.Values() {
      var i :| 0 <= i < |t.keys| && t.keys[i] == key;
      assert t.Values()[i] == lib;
    }
    if lib in t.Values() {
      var i :| 0 <= i < |t.keys| && t.Values()[i] == lib;
      assert t.keys[i] in t.values;
    }
  }
}
