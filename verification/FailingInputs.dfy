/** One input for each property that the code meets only under a condition, failing it. */
module FailingInputs {
  import opened Basics
  import opened Bits
  import V = Varint
  import W = Varint64
  import L = Level
  import LD = LevelDecoding
  import opened InstanceDelta
  import S = InstanceSwap
  import U = InstanceUpdate
  import M = MavenName
  import D = DebugText
  import C = VersionChain
  import K = LibraryKeys
  import N = VersionMerge

  // Varints.

  /** 2^31 comes back as -2^31. */
  lemma Varint64Fails()
    ensures W.Read64(W.Write64(V.TWO31), 0).Ok? && W.Read64(W.Write64(V.TWO31), 0).value.value == -V.TWO31
  {
    hide W.Write64, W.Read64;
    var bytes := W.Write64(V.TWO31);
    assert bytes[0..|bytes|] == bytes;
    W.RoundTrip64(bytes, 0, V.TWO31);
    assert W.Survivor(V.TWO31) == -V.TWO31;
  }

  /** 2^30 has the zigzag code 2^31 and does not come back. */
  lemma ZigZag64Fails()
    ensures W.ZigZagEncode(0x4000_0000) == V.TWO31
    ensures W.ZigZagDecode(W.Read64(W.Write64(V.TWO31), 0).value.value) == -0x4000_0000
  {
    Varint64Fails();
  }

  // Block states of five bits.

  /** All entries are 0 but the one across the first two words, which is 8. */
  function Entries(): seq<nat> {
    seq(L.ENTRIES, i => if i == 12 then 8 else 0)
  }

  /** Its one set bit is the sign of the first word. */
  function Words(): seq<int> {
    seq(320, j => if j == 0 then Shl(-1, 63) else 0)
  }

  lemma BitsOfEight(t: nat)
    ensures Bit(8, t) == (t == 3)
  {
    assert Shl(1, 3) == 8;
    BitOfShl(1, 3, t);
    if t > 3 {
      BitOfOne(t - 3);
    }
  }

  lemma BitOfOne(t: nat)
    requires t > 0
    ensures !Bit(1, t) && !Bit(0, t)
  {
    ShrShr(1, 1, t - 1);
    ShrOfSign(t);
    ShrOfSign(t - 1);
  }

  lemma BitsOfSign(t: nat)
    ensures Bit(Shl(-1, 63), t) == (t >= 63)
  {
    BitOfShl(-1, 63, t);
    if t >= 63 {
      ShrOfSign(t - 63);
    }
  }

  lemma BitsOfZero(t: nat)
    ensures !Bit(0, t)
  {
    ShrOfSign(t);
  }

  lemma {:induction false} ShrShl(x: int, n: nat)
    ensures Shr(Shl(x, n), n) == x
    decreases n
  {
    if n > 0 {
      ShrShl(x, n - 1);
      assert Shl(x, n) / 2 == Shl(x, n - 1);
    }
  }

  lemma EntriesAreValues()
    ensures L.Values(Entries(), 5)
  {
    assert Shr(8, 5) == 0;
    ShrOfSign(5);
  }

  lemma WordsAreSigned()
    ensures forall w <- Words() :: LD.Signed(w)
  {
    ShrShl(-1, 63);
    ShrOfSign(63);
  }

  lemma WordsStraddle()
    ensures L.Values(Entries(), 5) && L.Straddling(Words(), Entries(), 5)
  {
    hide Bit, Shl;
    EntriesAreValues();
    forall j: nat, t: nat | j < 320 && t < 64
      ensures Bit(Words()[j], t) == L.StreamBit(Entries(), 5, 64 * j + t)
    {
      var s := 64 * j + t;
      BitsOfSign(t);
      BitsOfZero(t);
      BitsOfEight(s % 5);
      BitsOfZero(s % 5);
    }
  }

  /** A straddling array of signed words from which the reader returns something else than was stored. */
  lemma SignedStraddlingFails()
    ensures L.Values(Entries(), 5) && L.Straddling(Words(), Entries(), 5) && forall w <- Words() :: LD.Signed(w)
    ensures L.SeekBlockStateId(Words(), 5, 12) != Some(Entries()[12])
  {
    hide L.Straddling, LD.Signed, L.SeekBlockStateId;
    WordsStraddle();
    WordsAreSigned();
    LD.SignedStraddlingDecodesIff(Words(), Entries(), 5, 12);
    BitsOfEight(3);
    BitsOfEight(4);
  }

  // Instance updates.

  const HASHES := Hashes(data => if data == [1] then "one" else "other", _ => 0, _ => None)

  const OLD_A := InstanceFile("a", None, None, Some(1))

  const NEW_A := InstanceFile("a", Some("two"), None, None)

  const NEW_B := InstanceFile("b", Some("three"), None, None)

  /** A file not touched since the last install is replaced by the new manifest, which adds another one. */
  const REPLACED := Request(HASHES, map["a" := Stored([1], 0)], [OLD_A], [NEW_A, NEW_B], Some(10))

  const FETCHED: Folder := map["a" := Stored([2], 20), "b" := Stored([3], 20)]

  lemma OneFile(f: InstanceFile)
    ensures ByPath([f]) == map[f.path := f]
  {
    assert [f][..0] == [];
  }

  lemma ReplacedByAdd()
    ensures ByPath(REPLACED.newFiles) == map["a" := NEW_A, "b" := NEW_B]
    ensures U.Replaced(REPLACED, {}, "a") && U.Replaced(REPLACED, {}, "b") && Unmodified(REPLACED, "a")
  {
    OneFile(NEW_A);
    assert [NEW_A, NEW_B][..1] == [NEW_A];
    assert RecordOf(REPLACED, "a", InstallTime(10));
  }

  /** The first is renamed over without a backup; if the second rename then fails, the rollback loses it. */
  lemma RollbackFails()
    ensures {"a"} < S.ToSet(S.RenameQueue(FileUpdates(REPLACED), {})) <= FETCHED.Keys
    ensures U.CanFailAfter(REPLACED, FETCHED, {}, {"a"})
    ensures REPLACED.instance - ({"a"} - S.Displaced(REPLACED.instance, FileUpdates(REPLACED), {})) == map[]
  {
    hide FileUpdates, S.RenameQueue, S.Displaced;
    ReplacedByAdd();
    assert U.AtRisk(REPLACED, FETCHED, {}, "a");
    U.AtRiskIsLost(REPLACED, FETCHED, {}, "a");
    forall p | p in S.RenameQueue(FileUpdates(REPLACED), {}) ensures p in FETCHED {
      U.InQueues(REPLACED, {}, p);
    }
  }

  /** A file the old manifest names without size or hash, so that nothing says whether it was modified. */
  const DROPPED := Request(HASHES, map["a" := Stored([1], 0)], [InstanceFile("a", None, None, None)], [], None)

  const NO_FILES: Folder := map[]

  /** It is removed without a backup. */
  lemma DroppedIsLost()
    ensures S.ToSet(S.RenameQueue(FileUpdates(DROPPED), {})) <= NO_FILES.Keys
    ensures !U.Survives(DROPPED, NO_FILES, {}, "a")
  {
    hide FileUpdates, S.RenameQueue, U.Survives;
    OneFile(DROPPED.oldFiles[0]);
    forall p | p in S.RenameQueue(FileUpdates(DROPPED), {}) ensures false {
      U.InQueues(DROPPED, {}, p);
    }
    U.LostFiles(DROPPED, NO_FILES, {}, "a");
  }

  // Libraries.

  const DASH_IN_ARTIFACT := C.Library("g", "a-b", "c", false, "1")

  const DASH_IN_CLASSIFIER := C.Library("g", "a", "b-c", false, "2")

  const BOTH := [C.VersionJson("v", "", false, [], [], C.BARE, 0, [DASH_IN_ARTIFACT, DASH_IN_CLASSIFIER], map[],
                               None, None, "")]

  /** Artifact `a-b` with classifier `c` and artifact `a` with classifier `b-c`: one hides the other. */
  lemma ClashingLibraryIsLost()
    ensures K.Declared(BOTH, DASH_IN_ARTIFACT) && K.Declared(BOTH, DASH_IN_CLASSIFIER)
    ensures !(K.ListedOnceFor(N.Libraries(N.Merge(BOTH)), DASH_IN_ARTIFACT)
              && K.ListedOnceFor(N.Libraries(N.Merge(BOTH)), DASH_IN_CLASSIFIER))
  {
    hide N.Merge, N.Libraries, K.ListedOnceFor;
    assert K.DeclaredIn(BOTH, DASH_IN_ARTIFACT, 0) by {
      assert BOTH[0].libraries[0] == DASH_IN_ARTIFACT;
    }
    assert K.DeclaredIn(BOTH, DASH_IN_CLASSIFIER, 0) by {
      assert BOTH[0].libraries[1] == DASH_IN_CLASSIFIER;
    }
    assert K.Clash(DASH_IN_ARTIFACT, DASH_IN_CLASSIFIER);
    K.ClashHidesOne(BOTH, DASH_IN_ARTIFACT, DASH_IN_CLASSIFIER);
  }

  // Coordinates.

  const LIB := M.Coordinate("g", "1-lib", "1", "", "jar")

  /** The file `1-lib-1.jar` is taken for a snapshot of version 1. */
  lemma PathRoundTripFails()
    ensures LIB.Plain()
    ensures var p := M.ResolveFromPath(LIB.Path()); p.Ok? && !M.Recovers(p.value, LIB)
  {
    hide M.ResolveFromPath, M.Recovers, M.Resolve;
    assert LIB.FileName() == "1-lib-1.jar";
    M.NameResolves(LIB);
    M.PathRoundTripIff(LIB);
  }

  // The debug notation.

  /** An empty buffer marked at 1 comes back without a mark; one whose offset is 1 does not come back. */
  lemma DebugRoundTripFails()
    ensures D.Parse(D.Printed(D.View([], 0, 1, 0), 0)) == Ok(D.View([], 0, -1, 0))
    ensures D.Parse(D.Printed(D.View([], 1, -1, 0), 0)) == Err(D.MissingOffsetOrLimit)
  {
    hide D.Parse, D.Printed;
    D.ParsePrinted(D.View([], 0, 1, 0));
    D.ParsePrinted(D.View([], 1, -1, 0));
  }
}
