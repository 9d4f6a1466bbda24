/** Strings cut at a separator and put together again. */
module Text {
  import opened Basics

  /** `s.split(sep)`. */
  function Split(s: string, sep: char): (r: seq<string>)
    ensures r != []
  {
    if s == "" then [""]
    else
      var rest := Split(s[1..], sep);
      if s[0] == sep then [""] + rest
      else [[s[0]] + rest[0]] + rest[1..]
  }

  /** `parts.join(sep)`. */
  function Join(parts: seq<string>, sep: char): string {
    if parts == [] then ""
    else if |parts| == 1 then parts[0]
    else parts[0] + [sep] + Join(parts[1..], sep)
  }

  /** Every `from` turned into `to`. */
  function Replace(s: string, from: char, to: char): (r: string)
    ensures |r| == |s|
  {
    if s == "" then ""
    else [if s[0] == from then to else s[0]] + Replace(s[1..], from, to)
  }

  /** Where `c` is last, or -1. */
  function LastIndexOf(s: string, c: char): (r: int)
    ensures -1 <= r < |s|
    ensures r >= 0 ==> s[r] == c
    ensures forall i :: r < i < |s| ==> s[i] != c
  {
    if s == "" then -1
    else if s[|s| - 1] == c then |s| - 1
    else LastIndexOf(s[..|s| - 1], c)
  }

  /** `s.substring(a, b)`: bounds outside the string are moved into it, and swapped if out of order. */
  function Substring(s: string, a: int, b: int): string {
    var x, y := Max(0, Min(a, |s|)), Max(0, Min(b, |s|));
    if x <= y then s[x..y] else s[y..x]
  }

  predicate EndsWith(s: string, end: string) {
    |end| <= |s| && s[|s| - |end|..] == end
  }

  lemma {:induction false} SplitWhole(s: string, sep: char)
    requires sep !in s
    ensures Split(s, sep) == [s]
  {
    if s != "" {
      SplitWhole(s[1..], sep);
      assert [s[0]] + s[1..] == s;
    }
  }

  lemma SplitStep(c: char, s: string, sep: char)
    ensures Split([c] + s, sep) == if c == sep then [""] + Split(s, sep)
                                   else [[c] + Split(s, sep)[0]] + Split(s, sep)[1..]
  {
    assert ([c] + s)[1..] == s;
  }

  /** A separator splits into what both sides split into. */
  lemma {:induction false} SplitAt(a: string, b: string, sep: char)
    ensures Split(a + [sep] + b, sep) == Split(a, sep) + Split(b, sep)
  {
    hide Split;
    if a == "" {
      SplitStep(sep, b, sep);
      SplitWhole("", sep);
      assert a + [sep] + b == [sep] + b;
    } else {
      SplitAt(a[1..], b, sep);
      SplitAtStep(a[0], a[1..], b, sep);
      assert a == [a[0]] + a[1..];
    }
  }

  lemma SplitAtStep(c: char, a: string, b: string, sep: char)
    requires Split(a + [sep] + b, sep) == Split(a, sep) + Split(b, sep)
    ensures Split([c] + a + [sep] + b, sep) == Split([c] + a, sep) + Split(b, sep)
  {
    hide Split;
    SplitMore(c, Split(a, sep), Split(b, sep), sep);
    SplitStep(c, a, sep);
    SplitStep(c, a + [sep] + b, sep);
    assert [c] + a + [sep] + b == [c] + (a + [sep] + b);
  }

  /** How one more character in front changes a split, also when more parts follow. */
  lemma SplitMore(c: char, parts: seq<string>, more: seq<string>, sep: char)
    requires parts != []
    ensures (if c == sep then [""] + (parts + more) else [[c] + (parts + more)[0]] + (parts + more)[1..])
         == (if c == sep then [""] + parts else [[c] + parts[0]] + parts[1..]) + more
  {
    assert (parts + more)[1..] == parts[1..] + more;
  }

  lemma {:induction false} JoinSplit(s: string, sep: char)
    ensures Join(Split(s, sep), sep) == s
  {
    if s != "" {
      JoinSplit(s[1..], sep);
      var rest := Split(s[1..], sep);
      if s[0] != sep {
        assert Split(s, sep)[1..] == rest[1..];
      } else {
        assert Split(s, sep)[1..] == rest;
      }
    }
  }

  /** Splitting at the replacement is splitting at what it replaced. */
  lemma {:induction false} SplitReplace(s: string, from: char, to: char)
    requires to !in s
    ensures Split(Replace(s, from, to), to) == Split(s, from)
  {
    if s != "" {
      SplitReplace(s[1..], from, to);
      assert Replace(s, from, to)[1..] == Replace(s[1..], from, to);
    }
  }

  lemma {:induction false} ReplaceNothing(s: string, from: char, to: char)
    requires from !in s
    ensures Replace(s, from, to) == s
  {
    if s != "" {
      ReplaceNothing(s[1..], from, to);
    }
  }

  lemma {:induction false} ReplaceKeepsOut(s: string, from: char, to: char, c: char)
    requires c !in s && c != to
    ensures c !in Replace(s, from, to)
  {
    if s != "" {
      ReplaceKeepsOut(s[1..], from, to, c);
    }
  }

  lemma {:induction false} LastIndexAfter(a: string, b: string, c: char)
    requires c !in b
    ensures LastIndexOf(a + [c] + b, c) == |a|
    decreases |b|
  {
    var s := a + [c] + b;
    if b != "" {
      LastIndexAfter(a, b[..|b| - 1], c);
      assert s[..|s| - 1] == a + [c] + b[..|b| - 1];
      assert s[|s| - 1] == b[|b| - 1];
    }
  }
}
