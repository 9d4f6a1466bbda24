/**
 * Which libraries a merge takes for one another, said of their groups,
 * artifacts and classifiers (`resolve` in `packages/core/version.ts`).
 */
module LibraryKeys {
  import opened VersionChain
  import opened VersionMerge
  import opened MergeRules

  predicate SameCoordinates(x: Library, y: Library) {
    x.groupId == y.groupId && x.artifactId == y.artifactId && x.classifier == y.classifier && x.isNative == y.isNative
  }

  /** The part of a file name after the group that tells libraries apart: `artifact` or `artifact-classifier;`. */
  function Tail(lib: Library): string {
    if lib.classifier == "" then lib.artifactId else lib.artifactId + "-" + lib.classifier + ";"
  }

  /** Different libraries of one group that are taken for one another. */
  predicate Clash(x: Library, y: Library) {
    x.isNative == y.isNative && x.groupId == y.groupId && !SameCoordinates(x, y) && Tail(x) == Tail(y)
  }

  lemma KeysEqualIff(x: Library, y: Library)
    requires ':' !in x.groupId && ':' !in y.groupId
    ensures Key(x) == Key(y) <==> x.groupId == y.groupId && Tail(x) == Tail(y)
  {
    KeyIs(x);
    KeyIs(y);
    if Key(x) == Key(y) {
      SameHead(x.groupId, Tail(x), y.groupId, Tail(y));
    }
  }

  lemma KeyIs(lib: Library)
    ensures Key(lib) == lib.groupId + ":" + Tail(lib)
  {
    assert lib.groupId + ":" + lib.artifactId + ("-" + lib.classifier + ";")
        == lib.groupId + ":" + (lib.artifactId + "-" + lib.classifier + ";");
    assert lib.groupId + ":" + lib.artifactId + "" == lib.groupId + ":" + lib.artifactId;
  }

  lemma SameHead(a: string, b: string, c: string, d: string)
    requires ':' !in a && ':' !in c && a + ":" + b == c + ":" + d
    ensures a == c && b == d
  {
    var s, t := a + ":" + b, c + ":" + d;
    assert s[|a|] == ':' && t[|c|] == ':';
    assert forall i :: 0 <= i < |a| ==> s[i] == a[i];
    assert forall i :: 0 <= i < |c| ==> t[i] == c[i];
    assert |a| == |c|;
    assert a == s[..|a|] && c == t[..|c|] && b == s[|a| + 1..] && d == t[|c| + 1..];
  }

  /**
   * Libraries of one group and artifact are told apart by their classifiers;
   * those of different groups, and those without classifiers of different
   * artifacts, are always told apart.
   */
  lemma ToldApart(x: Library, y: Library)
    requires ':' !in x.groupId && ':' !in y.groupId
    ensures x.groupId == y.groupId && x.artifactId == y.artifactId ==>
              (Key(x) == Key(y) <==> x.classifier == y.classifier)
    ensures x.groupId != y.groupId ==> Key(x) != Key(y)
    ensures x.classifier == y.classifier == "" && x.artifactId != y.artifactId ==> Key(x) != Key(y)
  {
    KeysEqualIff(x, y);
    if x.groupId == y.groupId && x.artifactId == y.artifactId && Tail(x) == Tail(y) {
      SameClassifier(x, y);
    }
  }

  lemma SameClassifier(x: Library, y: Library)
    requires x.artifactId == y.artifactId && Tail(x) == Tail(y)
    ensures x.classifier == y.classifier
  {
    var n := |x.artifactId| + 1;
    assert |Tail(x)| == |Tail(y)|;
    if x.classifier != "" && y.classifier != "" {
      assert x.classifier == Tail(x)[n..|Tail(x)| - 1];
      assert y.classifier == Tail(y)[n..|Tail(y)| - 1];
    }
  }

  /** With no semicolon in artifacts and no dash in classifiers, nothing clashes. */
  lemma PlainNamesDoNotClash(x: Library, y: Library)
    requires ';' !in x.artifactId && ';' !in y.artifactId && '-' !in x.classifier && '-' !in y.classifier
    ensures !Clash(x, y)
  {
    if Tail(x) == Tail(y) {
      LastIsSemicolon(x);
      LastIsSemicolon(y);
      if x.classifier != "" && y.classifier != "" {
        LastDash(x);
        LastDash(y);
        assert |x.artifactId| == |y.artifactId|;
        assert x.artifactId == Tail(x)[..|x.artifactId|] && y.artifactId == Tail(y)[..|y.artifactId|];
        SameClassifier(x, y);
      }
    }
  }

  lemma LastIsSemicolon(lib: Library)
    requires ';' !in lib.artifactId
    ensures lib.classifier != "" <==> ';' in Tail(lib)
  {
    if lib.classifier != "" {
      assert Tail(lib)[|Tail(lib)| - 1] == ';';
    }
  }

  lemma LastDash(lib: Library)
    requires lib.classifier != "" && '-' !in lib.classifier
    ensures |lib.artifactId| < |Tail(lib)| && Tail(lib)[|lib.artifactId|] == '-'
    ensures forall i :: |lib.artifactId| < i < |Tail(lib)| ==> Tail(lib)[i] != '-'
  {
    var n := |lib.artifactId| + 1;
    assert forall i :: n <= i < |Tail(lib)| - 1 ==> Tail(lib)[i] == lib.classifier[i - n];
  }

  // The merged list.

  predicate DeclaredIn(h: seq<VersionJson>, x: Library, i: nat) {
    i < |h| && x in h[i].libraries
  }

  ghost predicate Declared(h: seq<VersionJson>, x: Library) {
    exists i: nat :: DeclaredIn(h, x, i)
  }

  /** Exactly one entry of the list has the library's coordinates. */
  ghost predicate ListedOnceFor(libs: seq<Library>, x: Library) {
    && (exists k :: 0 <= k < |libs| && SameCoordinates(libs[k], x))
    && forall k, l :: 0 <= k < l < |libs| ==> !(SameCoordinates(libs[k], x) && SameCoordinates(libs[l], x))
  }

  /** The most derived library with the key of a declared one. */
  lemma {:induction false} KeyIsKept(h: seq<VersionJson>, x: Library, i: nat) returns (y: Library)
    requires DeclaredIn(h, x, i)
    ensures Kept(h, y) && Matches(y, Key(x), x.isNative)
    decreases i
  {
    hide Key;
    if j :| 0 <= j < i && Last(h[j].libraries, Key(x), x.isNative).Some? {
      y := Last(h[j].libraries, Key(x), x.isNative).value;
      y := KeyIsKept(h, y, j);
    } else {
      assert Matches(x, Key(x), x.isNative);
      y := Last(h[i].libraries, Key(x), x.isNative).value;
      assert KeptFrom(h, y, i);
    }
  }

  lemma DeclaredIsListed(h: seq<VersionJson>, x: Library) returns (y: Library)
    requires Declared(h, x)
    ensures y in Libraries(Merge(h)) && Declared(h, y) && Key(y) == Key(x) && y.isNative == x.isNative
  {
    hide Key, Libraries;
    var i: nat :| DeclaredIn(h, x, i);
    y := KeyIsKept(h, x, i);
    OneLibraryPerKey(h);
    KeptIsDeclared(h, y);
  }

  lemma KeptIsDeclared(h: seq<VersionJson>, y: Library)
    requires Kept(h, y)
    ensures Declared(h, y)
  {
    var i: nat :| i < |h| && KeptFrom(h, y, i);
    assert DeclaredIn(h, y, i);
  }

  /** A declared library that clashes with no other is listed once; all that is listed was declared. */
  lemma ListedUnlessClash(h: seq<VersionJson>, x: Library)
    requires Declared(h, x) && forall y :: Declared(h, y) ==> ':' !in y.groupId && !Clash(x, y)
    ensures ListedOnceFor(Libraries(Merge(h)), x)
  {
    hide Key, Libraries, Clash;
    var libs := Libraries(Merge(h));
    var y := DeclaredIsListed(h, x);
    OneLibraryPerKey(h);
    assert !Clash(x, y);
    KeysEqualIff(x, y);
    ClashIff(x, y);
    assert SameCoordinates(y, x);
    forall k, l | 0 <= k < l < |libs| ensures !(SameCoordinates(libs[k], x) && SameCoordinates(libs[l], x)) {
      if SameCoordinates(libs[k], x) && SameCoordinates(libs[l], x) {
        SameKey(libs[k], libs[l]);
      }
    }
  }

  lemma ClashIff(x: Library, y: Library)
    requires x.groupId == y.groupId && Tail(x) == Tail(y) && x.isNative == y.isNative && !Clash(x, y)
    ensures SameCoordinates(y, x)
  {
  }

  lemma SameKey(x: Library, y: Library)
    requires SameCoordinates(x, y)
    ensures Matches(x, Key(y), y.isNative)
  {
  }

  /** Of two that clash one is not listed. */
  lemma ClashHidesOne(h: seq<VersionJson>, x: Library, y: Library)
    requires Declared(h, x) && Declared(h, y) && Clash(x, y) && ':' !in x.groupId
    ensures !(ListedOnceFor(Libraries(Merge(h)), x) && ListedOnceFor(Libraries(Merge(h)), y))
  {
    hide Key, Libraries;
    var libs := Libraries(Merge(h));
    if (exists k :: 0 <= k < |libs| && SameCoordinates(libs[k], x))
       && exists k :: 0 <= k < |libs| && SameCoordinates(libs[k], y) {
      var k :| 0 <= k < |libs| && SameCoordinates(libs[k], x);
      var l :| 0 <= l < |libs| && SameCoordinates(libs[l], y);
      KeysEqualIff(libs[k], libs[l]);
      OneLibraryPerKey(h);
      OneAtMost(libs, k, l);
    }
  }

  lemma OneAtMost(libs: seq<Library>, k: nat, l: nat)
    requires forall p, q :: 0 <= p < q < |libs| ==> !Matches(libs[p], Key(libs[q]), libs[q].isNative)
    requires k < |libs| && l < |libs| && Key(libs[k]) == Key(libs[l]) && libs[k].isNative == libs[l].isNative
    ensures k == l
  {
  }

  /**
   * Every library declared anywhere is listed once, by its own group, artifact,
   * classifier and nativeness, if and only if no two declared ones clash.
   */
  lemma AllListedIff(h: seq<VersionJson>)
    requires forall x :: Declared(h, x) ==> ':' !in x.groupId
    ensures (forall x :: Declared(h, x) ==> ListedOnceFor(Libraries(Merge(h)), x))
            <==> (forall x, y :: Declared(h, x) && Declared(h, y) ==> !Clash(x, y))
  {
    hide Clash, Libraries, ListedOnceFor, Declared;
    if forall x, y :: Declared(h, x) && Declared(h, y) ==> !Clash(x, y) {
      forall x | Declared(h, x) ensures ListedOnceFor(Libraries(Merge(h)), x) {
        ListedUnlessClash(h, x);
      }
    }
    if x, y :| Declared(h, x) && Declared(h, y) && Clash(x, y) {
      ClashHidesOne(h, x, y);
    }
  }
}
