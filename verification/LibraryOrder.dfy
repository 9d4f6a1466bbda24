/**
 * The order of a merge's libraries: plain ones before natives, and each kind in
 * the order in which its keys first appear from the root version down (`resolve`
 * in `packages/core/version.ts`).
 */
module LibraryOrder {
  import opened VersionChain
  import opened VersionMerge
  import opened MergeRules

  /** The keys of one kind of library, in order. */
  function KeysOf(libs: seq<Library>, native: bool): seq<string> {
    if libs == [] then []
    else
      var last := libs[|libs| - 1];
      KeysOf(libs[..|libs| - 1], native) + if last.isNative == native then [Key(last)] else []
  }

  /** The same for a hierarchy, its root first. */
  function AllKeys(h: seq<VersionJson>, native: bool): seq<string> {
    if h == [] then [] else AllKeys(h[1..], native) + KeysOf(h[0].libraries, native)
  }

  /** `base` with the keys that are new to it, each once. */
  function Extended(base: seq<string>, keys: seq<string>): seq<string> {
    if keys == [] then base
    else
      var rest, last := Extended(base, keys[..|keys| - 1]), keys[|keys| - 1];
      if last in rest then rest else rest + [last]
  }

  lemma {:induction false} ExtendedTwice(base: seq<string>, a: seq<string>, b: seq<string>)
    ensures Extended(base, a + b) == Extended(Extended(base, a), b)
  {
    if b == [] {
      assert a + b == a;
    } else {
      var init := b[..|b| - 1];
      assert (a + b)[..|a + b| - 1] == a + init;
      ExtendedTwice(base, a, init);
    }
  }

  function TableOf(m: Merged, native: bool): Table {
    if native then m.natives else m.libraries
  }

  lemma {:induction false} AddedKeys(m: Merged, libs: seq<Library>, native: bool)
    requires m.Valid()
    ensures TableOf(AddLibraries(m, libs), native).keys == Extended(TableOf(m, native).keys, KeysOf(libs, native))
  {
    hide Key, AddLibrary, Table.Put;
    if libs != [] {
      var init, last := libs[..|libs| - 1], libs[|libs| - 1];
      AddedKeys(m, init, native);
      AddedKey(AddLibraries(m, init), last, native);
      var before := KeysOf(init, native);
      if last.isNative == native {
        ExtendedTwice(TableOf(m, native).keys, before, [Key(last)]);
        OneMore(Extended(TableOf(m, native).keys, before), Key(last));
      } else {
        assert before + [] == before;
      }
    }
  }

  lemma AddedKey(m: Merged, lib: Library, native: bool)
    requires m.Valid()
    ensures var keys := TableOf(m, native).keys;
            TableOf(AddLibrary(m, lib), native).keys ==
            if lib.isNative == native && Key(lib) !in keys then keys + [Key(lib)] else keys
  {
    hide Key;
  }

  lemma OneMore(base: seq<string>, key: string)
    ensures Extended(base, [key]) == if key in base then base else base + [key]
  {
    assert [key][..0] == [];
  }

  lemma {:induction false} MergedKeys(h: seq<VersionJson>, native: bool)
    ensures TableOf(Merge(h), native).keys == Extended([], AllKeys(h, native))
    decreases |h|
  {
    hide AddLibraries, KeysOf, Extended;
    if h == [] {
      assert Extended([], []) == [] by {
        NothingNew();
      }
    } else {
      MergedKeys(h[1..], native);
      AddedKeys(Override(Merge(h[1..]), h[0]), h[0].libraries, native);
      ExtendedTwice([], AllKeys(h[1..], native), KeysOf(h[0].libraries, native));
    }
  }

  lemma NothingNew()
    ensures Extended([], []) == []
  {
  }

  /** Where a key appears for the first time, or the length if it does not. */
  function First(keys: seq<string>, key: string): (k: nat)
    ensures k <= |keys| && (k < |keys| <==> key in keys) && (k < |keys| ==> keys[k] == key)
    ensures forall j :: 0 <= j < k ==> keys[j] != key
    decreases |keys|
  {
    if keys == [] || keys[0] == key then 0 else First(keys[1..], key) + 1
  }

  predicate Ordered(keys: seq<string>, r: seq<string>) {
    && (forall p :: 0 <= p < |r| ==> r[p] in keys)
    && forall p, q :: 0 <= p < q < |r| ==> First(keys, r[p]) < First(keys, r[q])
  }

  lemma {:induction false} InOrder(keys: seq<string>)
    ensures Ordered(keys, Extended([], keys))
  {
    hide Ordered;
    if keys == [] {
      assert Ordered([], []) by {
        NothingOrdered();
      }
    } else {
      var init, last := keys[..|keys| - 1], keys[|keys| - 1];
      assert keys == init + [last];
      InOrder(init);
      var r := Extended([], init);
      OrderStays(init, last, r);
      if last !in r {
        NewIsLast(init, r, last);
        OrderGrows(init, last, r);
      }
    }
  }

  lemma NothingOrdered()
    ensures Ordered([], [])
  {
  }

  lemma OrderStays(init: seq<string>, last: string, r: seq<string>)
    requires Ordered(init, r)
    ensures Ordered(init + [last], r)
  {
    hide First;
    forall p | 0 <= p < |r| ensures r[p] in init + [last] && First(init + [last], r[p]) == First(init, r[p]) {
      FirstStays(init, last, r[p]);
    }
  }

  lemma OrderGrows(init: seq<string>, last: string, r: seq<string>)
    requires Ordered(init, r) && First(init + [last], last) == |init|
    ensures Ordered(init + [last], r + [last])
  {
    hide First;
    OrderStays(init, last, r);
    forall p | 0 <= p < |r| ensures First(init + [last], r[p]) < |init| {
      FirstStays(init, last, r[p]);
    }
  }

  lemma FirstStays(init: seq<string>, last: string, key: string)
    requires key in init
    ensures First(init + [last], key) == First(init, key)
  {
    var k := First(init, key);
    var l := First(init + [last], key);
    assert (init + [last])[k] == key;
    if l < k {
      assert init[l] == key;
    }
  }

  lemma NewIsLast(init: seq<string>, r: seq<string>, last: string)
    requires r == Extended([], init) && last !in r
    ensures First(init + [last], last) == |init|
  {
    AllThere(init, last);
    assert forall j :: 0 <= j < |init| ==> (init + [last])[j] == init[j];
  }

  lemma {:induction false} AllThere(keys: seq<string>, key: string)
    requires key !in Extended([], keys)
    ensures key !in keys
  {
    if keys != [] {
      AllThere(keys[..|keys| - 1], key);
      assert keys == keys[..|keys| - 1] + [keys[|keys| - 1]];
    }
  }

  /** Plain libraries come first, and each kind keeps the order in which its keys first appear. */
  lemma ListedInOrder(h: seq<VersionJson>)
    ensures var libs := Libraries(Merge(h));
            forall p, q :: 0 <= p < q < |libs| ==>
              if libs[p].isNative == libs[q].isNative
              then First(AllKeys(h, libs[p].isNative), Key(libs[p])) < First(AllKeys(h, libs[p].isNative), Key(libs[q]))
              else libs[q].isNative
  {
    hide Key, Merge, First, AllKeys, Extended;
    var m := Merge(h);
    var libs := Libraries(m);
    MergeFiled(h);
    MergedKeys(h, false);
    MergedKeys(h, true);
    InOrder(AllKeys(h, false));
    InOrder(AllKeys(h, true));
    var plain := |m.libraries.keys|;
    forall p | 0 <= p < |libs|
      ensures libs[p].isNative == (p >= plain)
      ensures Key(libs[p]) == if p < plain then m.libraries.keys[p] else m.natives.keys[p - plain]
    {
      ListedAt(m, p);
    }
  }

  lemma ListedAt(m: Merged, p: nat)
    requires m.Valid() && Filed(m) && p < |Libraries(m)|
    ensures var lib, plain := Libraries(m)[p], |m.libraries.keys|;
            && lib.isNative == (p >= plain) && |Libraries(m)| == plain + |m.natives.keys|
            && Key(lib) == if p < plain then m.libraries.keys[p] else m.natives.keys[p - plain]
  {
    hide Key;
    if p < |m.libraries.keys| {
      assert m.libraries.keys[p] in m.libraries.values;
    } else {
      assert m.natives.keys[p - |m.libraries.keys|] in m.natives.values;
    }
  }
}
