/**
 * Which texts the debug notation's parser accepts, and what they stand for, in
 * terms of the documented symbols (`packages/bytebuffer/debug.ts`).
 */
module DebugGrammar {
  import opened Basics
  import opened DebugText

  const OFFSET_SYMBOLS: string := "<[|!"
  const MARK_SYMBOLS: string := "'[]!"
  const LIMIT_SYMBOLS: string := ">]|!"

  predicate IsSymbol(c: char) {
    c in OFFSET_SYMBOLS || c in MARK_SYMBOLS || c in LIMIT_SYMBOLS || c == ' '
  }

  lemma SymbolTable(c: char)
    ensures SymbolMarks(c) == if IsSymbol(c)
                              then Some(Marks(c in OFFSET_SYMBOLS, c in MARK_SYMBOLS, c in LIMIT_SYMBOLS))
                              else None
  {
  }

  /** The symbol printed at a place says which of offset, mark and limit are there. */
  lemma PrintedSymbol(v: View, i: nat)
    ensures Symbol(v, i) == "" <==> i != v.offset && i != v.mark && i != v.limit && (i == 0 || i == |v.bytes|)
    ensures Symbol(v, i) != "" ==>
              var c := Symbol(v, i)[0];
              && |Symbol(v, i)| == 1 && IsSymbol(c)
              && (c in OFFSET_SYMBOLS <==> i == v.offset)
              && (c in MARK_SYMBOLS <==> i == v.mark)
              && (c in LIMIT_SYMBOLS <==> i == v.limit)
  {
  }

  /** A byte is printed as its two digits, in upper case. */
  lemma PrintedByte(b: byte)
    ensures forall i :: 0 <= i < 2 ==> '0' <= Hex(b)[i] <= '9' || 'A' <= Hex(b)[i] <= 'F'
    ensures Digit(Hex(b)[0]).Some? && Digit(Hex(b)[1]).Some?
    ensures 16 * Digit(Hex(b)[0]).value + Digit(Hex(b)[1]).value == b as int
  {
    DigitOf(b as int / 16);
    DigitOf(b as int % 16);
    assert forall n :: 0 <= n < 16 ==> '0' <= HEX_DIGITS[n] <= '9' || 'A' <= HEX_DIGITS[n] <= 'F';
  }

  // Any text.

  /** The text cut into symbols and pairs of characters; a pair at the end may lack its second. */
  function Tokens(text: string): seq<string>
    decreases |text|
  {
    if text == "" then []
    else if IsSymbol(text[0]) || |text| == 1 then [text[..1]] + Tokens(text[1..])
    else [text[..2]] + Tokens(text[2..])
  }

  predicate Among(token: string, symbols: string) {
    token != "" && token[0] in symbols
  }

  predicate IsPair(token: string) {
    token != "" && !IsSymbol(token[0])
  }

  function Count(ts: seq<string>, symbols: string): nat
    decreases |ts|
  {
    if ts == [] then 0 else (if Among(ts[0], symbols) then 1 else 0) + Count(ts[1..], symbols)
  }

  function Pairs(ts: seq<string>): nat
    decreases |ts|
  {
    if ts == [] then 0 else (if IsPair(ts[0]) then 1 else 0) + Pairs(ts[1..])
  }

  /** How many bytes come before the first of the symbols. */
  function Before(ts: seq<string>, symbols: string): nat
    decreases |ts|
  {
    if ts == [] || Among(ts[0], symbols) then 0 else (if IsPair(ts[0]) then 1 else 0) + Before(ts[1..], symbols)
  }

  predicate Apart(ts: seq<string>) {
    forall k :: 0 <= k < |ts| - 1 ==> !(IsPair(ts[k]) && IsPair(ts[k + 1]))
  }

  predicate IsByte(token: string) {
    |token| <= 2 && ParseInt16(token).Some? && 0 <= ParseInt16(token).value < 0x100
  }

  predicate AllBytes(ts: seq<string>) {
    forall token <- ts :: IsPair(token) ==> IsByte(token)
  }

  /** From a state of the parser, the rest of the text is accepted. */
  predicate Accepts(p: Parser, ts: seq<string>) {
    && Count(ts, OFFSET_SYMBOLS) == (if p.hasOffset then 0 else 1)
    && Count(ts, LIMIT_SYMBOLS) == (if p.hasLimit then 0 else 1)
    && Count(ts, MARK_SYMBOLS) <= (if p.hasMark then 0 else 1)
    && AllBytes(ts) && Apart(ts) && (p.symbolNext && ts != [] ==> !IsPair(ts[0]))
    && p.at + Pairs(ts) == |p.view.bytes|
  }

  /** The bytes the pairs spell. */
  function Values(ts: seq<string>): (r: seq<byte>)
    requires AllBytes(ts)
    ensures |r| == Pairs(ts)
    decreases |ts|
  {
    if ts == [] then []
    else if IsPair(ts[0]) then [ParseInt16(ts[0]).value as byte] + Values(ts[1..])
    else Values(ts[1..])
  }

  lemma FirstToken(text: string)
    requires text != ""
    ensures Tokens(text) == [text[..Taken(text)]] + Tokens(text[Taken(text)..])
    ensures SymbolMarks(text[0]).Some? <==> !IsPair(Tokens(text)[0])
  {
    SymbolTable(text[0]);
  }

  lemma {:induction false} AcceptsIff(p: Parser, text: string)
    requires p.at <= |p.view.bytes|
    ensures ParseRest(p, text).Ok? <==> Accepts(p, Tokens(text))
    decreases |text|
  {
    hide SymbolMarks, ParseInt16, IsSymbol, Tokens;
    if text == "" {
      assert Tokens(text) == [] by {
        NoTokens();
      }
    } else {
      FirstToken(text);
      SymbolTable(text[0]);
      var ts := Tokens(text);
      var rest := Tokens(text[Taken(text)..]);
      var next := Turn(p, text);
      if next.Ok? {
        AcceptsIff(next.value, text[Taken(text)..]);
        AcceptsStep(p, text, ts, rest);
      } else {
        RefusesStep(p, text, ts, rest);
      }
    }
  }

  lemma NoTokens()
    ensures Tokens("") == []
  {
  }

  lemma AcceptsStep(p: Parser, text: string, ts: seq<string>, rest: seq<string>)
    requires text != "" && Turn(p, text).Ok? && ts == [text[..Taken(text)]] + rest
    ensures Accepts(p, ts) <==> Accepts(Turn(p, text).value, rest)
  {
  }

  lemma RefusesStep(p: Parser, text: string, ts: seq<string>, rest: seq<string>)
    requires text != "" && Turn(p, text).Err? && ts == [text[..Taken(text)]] + rest && p.at <= |p.view.bytes|
    ensures !Accepts(p, ts)
  {
  }

  /** What an accepted text makes of the parser's state. */
  predicate Ends(p: Parser, ts: seq<string>, v: View)
    requires AllBytes(ts)
  {
    && p.at <= |p.view.bytes|
    && v.bytes == p.view.bytes[..p.at] + Values(ts)
    && v.offset == (if p.hasOffset then p.view.offset else p.at + Before(ts, OFFSET_SYMBOLS))
    && v.limit == (if p.hasLimit then p.view.limit else p.at + Before(ts, LIMIT_SYMBOLS))
    && v.mark == (if Count(ts, MARK_SYMBOLS) == 0 then p.view.mark else p.at + Before(ts, MARK_SYMBOLS))
  }

  lemma {:induction false} EndsAs(p: Parser, text: string)
    requires p.at <= |p.view.bytes| && Accepts(p, Tokens(text))
    ensures ParseRest(p, text).Ok? && Ends(p, Tokens(text), ParseRest(p, text).value)
    decreases |text|
  {
    hide SymbolMarks, ParseInt16, IsSymbol, Tokens;
    AcceptsIff(p, text);
    if text == "" {
      NoTokens();
      assert p.view.bytes[..p.at] == p.view.bytes;
    } else {
      FirstToken(text);
      SymbolTable(text[0]);
      var rest := Tokens(text[Taken(text)..]);
      var next := Turn(p, text).value;
      AcceptsStep(p, text, Tokens(text), rest);
      EndsAs(next, text[Taken(text)..]);
      EndsStep(p, text, Tokens(text), rest, ParseRest(p, text).value);
    }
  }

  lemma EndsStep(p: Parser, text: string, ts: seq<string>, rest: seq<string>, v: View)
    requires text != "" && Turn(p, text).Ok? && ts == [text[..Taken(text)]] + rest && AllBytes(ts)
    requires Accepts(p, ts) && AllBytes(rest) && Ends(Turn(p, text).value, rest, v)
    requires p.at <= |p.view.bytes|
    ensures Ends(p, ts, v)
  {
    hide ParseInt16, SymbolMarks;
    SymbolTable(text[0]);
    var at := p.at;
    assert ts[0][0] == text[0] && ts[1..] == rest;
    if SymbolMarks(text[0]).Some? {
      assert Values(ts) == Values(rest) && Turn(p, text).value.at == at;
    } else {
      var b := ParseInt16(ts[0]).value as byte;
      assert Turn(p, text).value.view.bytes[..at + 1] == p.view.bytes[..at] + [b];
      assert Values(ts) == [b] + Values(rest);
      var before, after := p.view.bytes[..at], Values(rest);
      assert before + ([b] + after) == (before + [b]) + after;
    }
  }

  /**
   * A text is accepted if and only if it has one symbol for the offset, one for
   * the limit and at most one for the mark, no two pairs without a symbol
   * between them, all of them bytes, and as many as its length stands for.
   * Offset, mark and limit are where their symbols are, counted in bytes.
   */
  lemma ParsesIff(text: string)
    ensures var ts := Tokens(text);
            && (Parse(text).Ok? <==>
                  && Count(ts, OFFSET_SYMBOLS) == 1 && Count(ts, LIMIT_SYMBOLS) == 1 && Count(ts, MARK_SYMBOLS) <= 1
                  && AllBytes(ts) && Apart(ts) && Pairs(ts) == (|text| + 1) / 3)
            && (Parse(text).Ok? ==>
                  Parse(text).value ==
                  View(Values(ts), Before(ts, OFFSET_SYMBOLS),
                       if Count(ts, MARK_SYMBOLS) == 0 then -1 else Before(ts, MARK_SYMBOLS),
                       Before(ts, LIMIT_SYMBOLS)))
  {
    hide Tokens, ParseRest, Count, Values;
    var p := NewParser(Capacity(text));
    AcceptsIff(p, text);
    if Parse(text).Ok? {
      EndsAs(p, text);
    }
  }

  const LOWER_DIGITS: string := "0123456789abcdef"

  const UPPER_DIGITS: string := "0123456789ABCDEF"

  /** Digits are read in lower and upper case. */
  lemma DigitIff(c: char, n: nat)
    ensures Digit(c) == Some(n) <==> n < 16 && (c == LOWER_DIGITS[n] || c == UPPER_DIGITS[n])
  {
    assert forall k :: 0 <= k < 10 ==> LOWER_DIGITS[k] as int == UPPER_DIGITS[k] as int == '0' as int + k;
    assert forall k :: 10 <= k < 16 ==> LOWER_DIGITS[k] as int == 'a' as int + k - 10;
    assert forall k :: 10 <= k < 16 ==> UPPER_DIGITS[k] as int == 'A' as int + k - 10;
  }

  /** Two characters as `parseInt` reads them: a sign or white space may come first, anything may follow a digit. */
  lemma PairValue(a: char, b: char)
    ensures Digit(a).Some? && Digit(b).Some? ==> ParseInt16([a, b]) == Some(16 * Digit(a).value + Digit(b).value)
    ensures Digit(a).Some? && Digit(b).None? ==>
              ParseInt16([a, b]) == if a == '0' && (b == 'x' || b == 'X') then None else Some(Digit(a).value)
    ensures Digit(a).None? && Digit(b).Some? ==>
              ParseInt16([a, b]) == if a == '-' then Some(-(Digit(b).value as int))
                                    else if a == '+' || WhiteSpace(a) then Some(Digit(b).value)
                                    else None
    ensures Digit(a).None? && Digit(b).None? ==> ParseInt16([a, b]).None?
  {
    var s := [a, b];
    assert s[1..] == [b] && [b][1..] == "";
    assert ParseInt16("") == None;
    assert Digit(b).None? ==> ParseInt16([b]) == None;
    assert s == "0x" <==> a == '0' && b == 'x';
    assert s == "0X" <==> a == '0' && b == 'X';
  }
}
