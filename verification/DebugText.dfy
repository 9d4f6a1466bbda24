/**
 * The debug notation of a `ByteBuffer` (`packages/bytebuffer/debug.ts`): its bytes
 * in hexadecimal with symbols between them for the offset, the mark and the limit.
 * The printer without columns, and the parser with assertions on.
 */
module DebugText {
  import opened Basics

  /** What the notation shows of a buffer. */
  datatype View = View(bytes: seq<byte>, offset: nat, mark: int, limit: nat)

  // ----- Printing -----

  const HEX_DIGITS: string := "0123456789ABCDEF"

  function Hex(b: byte): (r: string)
    ensures |r| == 2
  {
    [HEX_DIGITS[b as int / 16], HEX_DIGITS[b as int % 16]]
  }

  /** The symbol before byte `i`, or after the last byte. */
  function Symbol(v: View, i: nat): (r: string)
    ensures |r| <= 1
    ensures 0 < i < |v.bytes| ==> |r| == 1
  {
    if i == v.offset && i == v.limit then (if i == v.mark then "!" else "|")
    else if i == v.offset then (if i == v.mark then "[" else "<")
    else if i == v.limit then (if i == v.mark then "]" else ">")
    else if i == v.mark then "'"
    else if i != 0 && i != |v.bytes| then " "
    else ""
  }

  /** The text up to and with the symbol at `i`. */
  function Printed(v: View, i: nat): (r: string)
    requires i <= |v.bytes|
  {
    if i == 0 then Symbol(v, 0)
    else Printed(v, i - 1) + Hex(v.bytes[i - 1]) + Symbol(v, i)
  }

  // ----- Parsing -----

  datatype ParseError = InvalidSymbol | NotHex | MissingOffsetOrLimit | MissingBytes | OutOfBounds

  /** The variables of the parser's loop, `at` being the number of bytes read so far. */
  datatype Parser = Parser(view: View, at: nat, symbolNext: bool, hasOffset: bool, hasMark: bool, hasLimit: bool)

  function NewParser(capacity: nat): Parser {
    Parser(View(seq(capacity, _ => 0), 0, -1, capacity), 0, false, false, false, false)
  }

  /** The capacity the parser derives from the length of the text. */
  function Capacity(text: string): nat {
    (|text| + 1) / 3
  }

  /** Which of offset, mark and limit a symbol places. */
  datatype Marks = Marks(offset: bool, mark: bool, limit: bool)

  function SymbolMarks(ch: char): Option<Marks> {
    match ch
    case '!' => Some(Marks(true, true, true))
    case '|' => Some(Marks(true, false, true))
    case '[' => Some(Marks(true, true, false))
    case '<' => Some(Marks(true, false, false))
    case ']' => Some(Marks(false, true, true))
    case '>' => Some(Marks(false, false, true))
    case '\'' => Some(Marks(false, true, false))
    case ' ' => Some(Marks(false, false, false))
    case _ => None
  }

  function Place(p: Parser, m: Marks): Result<Parser, ParseError> {
    if (m.offset && p.hasOffset) || (m.mark && p.hasMark) || (m.limit && p.hasLimit) then Err(InvalidSymbol)
    else
      var v := p.view.(
        offset := if m.offset then p.at else p.view.offset,
        mark := if m.mark then p.at else p.view.mark,
        limit := if m.limit then p.at else p.view.limit);
      Ok(p.(view := v, symbolNext := false, hasOffset := p.hasOffset || m.offset,
            hasMark := p.hasMark || m.mark, hasLimit := p.hasLimit || m.limit))
  }

  /** One digit's value, if it is a hexadecimal digit. */
  function Digit(c: char): Option<nat> {
    if '0' <= c <= '9' then Some(c as int - '0' as int)
    else if 'a' <= c <= 'f' then Some(c as int - 'a' as int + 10)
    else if 'A' <= c <= 'F' then Some(c as int - 'A' as int + 10)
    else None
  }

  predicate WhiteSpace(c: char) {
    var n := c as int;
    || 9 <= n <= 13 || n == 0x20 || n == 0xA0 || n == 0x1680 || 0x2000 <= n <= 0x200A
    || n == 0x2028 || n == 0x2029 || n == 0x202F || n == 0x205F || n == 0x3000 || n == 0xFEFF
  }

  /** The number spelt by the leading hexadecimal digits, `None` if there are none. */
  function Digits(s: string): Option<nat> {
    if s == "" || Digit(s[0]).None? then None
    else if |s| == 1 || Digit(s[1]).None? then Digit(s[0])
    else Some(16 * Digit(s[0]).value + Digit(s[1]).value)
  }

  /** `parseInt(s, 16)` for at most two characters, `None` for `NaN`. */
  function ParseInt16(s: string): Option<int>
    requires |s| <= 2
  {
    if s == "" then None
    else if WhiteSpace(s[0]) then ParseInt16(s[1..])
    else if s[0] == '-' then (if Digits(s[1..]).Some? then Some(-(Digits(s[1..]).value as int)) else None)
    else if s[0] == '+' then Digits(s[1..])
    else if s == "0x" || s == "0X" then None
    else Digits(s)
  }

  /** `view.setUint8(j++, b)` after the checks. */
  function Put(p: Parser, digits: string): Result<Parser, ParseError>
    requires |digits| <= 2
  {
    if p.symbolNext then Err(InvalidSymbol)
    else
      var b := ParseInt16(digits);
      if b.None? || b.value < 0 || b.value > 255 then Err(NotHex)
      else if p.at >= |p.view.bytes| then Err(OutOfBounds)
      else Ok(p.(view := p.view.(bytes := p.view.bytes[p.at := b.value as byte]), at := p.at + 1, symbolNext := true))
  }

  /** How many characters a turn of the loop takes off the text. */
  function Taken(text: string): nat
    requires text != ""
  {
    if SymbolMarks(text[0]).Some? || |text| == 1 then 1 else 2
  }

  function Turn(p: Parser, text: string): Result<Parser, ParseError>
    requires text != ""
  {
    var marks := SymbolMarks(text[0]);
    if marks.Some? then Place(p, marks.value) else Put(p, text[..Taken(text)])
  }

  function Finish(p: Parser): Result<View, ParseError> {
    if !p.hasOffset || !p.hasLimit then Err(MissingOffsetOrLimit)
    else if p.at < |p.view.bytes| then Err(MissingBytes)
    else Ok(p.view)
  }

  /** The rest of a parse from a state of the loop. */
  function ParseRest(p: Parser, text: string): Result<View, ParseError>
    decreases |text|
  {
    if text == "" then Finish(p)
    else
      var next := Turn(p, text);
      if next.Err? then Err(next.error) else ParseRest(next.value, text[Taken(text)..])
  }

  function Parse(text: string): Result<View, ParseError> {
    ParseRest(NewParser(Capacity(text)), text)
  }

  // ----- Round trip -----

  /** The text after the symbol at `i`. */
  function Remaining(v: View, i: nat): string
    requires i <= |v.bytes|
    decreases |v.bytes| - i
  {
    if i == |v.bytes| then ""
    else Hex(v.bytes[i]) + Symbol(v, i + 1) + Remaining(v, i + 1)
  }

  lemma {:induction false} PrintedRemaining(v: View, i: nat)
    requires i <= |v.bytes|
    ensures Printed(v, |v.bytes|) == Printed(v, i) + Remaining(v, i)
    decreases |v.bytes| - i
  {
    hide Hex, Symbol;
    if i < |v.bytes| {
      PrintedRemaining(v, i + 1);
      var a, h, s, r := Printed(v, i), Hex(v.bytes[i]), Symbol(v, i + 1), Remaining(v, i + 1);
      assert a + h + s + r == a + (h + s + r);
    }
  }

  lemma {:induction false} RemainingLength(v: View, i: nat)
    requires i < |v.bytes|
    ensures |Remaining(v, i)| == 3 * (|v.bytes| - i) - 1 + |Symbol(v, |v.bytes|)|
    decreases |v.bytes| - i
  {
    if i + 1 < |v.bytes| {
      RemainingLength(v, i + 1);
    }
  }

  /** The parser allocates exactly the printed buffer's capacity. */
  lemma CapacityRecovered(v: View)
    ensures Capacity(Printed(v, |v.bytes|)) == |v.bytes|
  {
    PrintedRemaining(v, 0);
    if |v.bytes| > 0 {
      RemainingLength(v, 0);
    }
  }

  lemma HexParses(b: byte)
    ensures ParseInt16(Hex(b)) == Some(b as int)
    ensures SymbolMarks(Hex(b)[0]).None?
  {
    DigitOf(b as int / 16);
    DigitOf(b as int % 16);
  }

  lemma DigitOf(n: nat)
    requires n < 16
    ensures var c := HEX_DIGITS[n];
            && Digit(c) == Some(n) && SymbolMarks(c).None? && !WhiteSpace(c)
            && c != '-' && c != '+' && c != 'x' && c != 'X'
  {
    assert '0' <= HEX_DIGITS[n] <= '9' || 'A' <= HEX_DIGITS[n] <= 'F';
  }

  /** The loop's state once the first `n` bytes and, if `symbol`, the symbol after them have been read. */
  function Reached(v: View, n: nat, symbol: bool): Parser
    requires n <= |v.bytes|
  {
    var seen := if symbol then n as int else n - 1;
    Parser(
      View(v.bytes[..n] + seq(|v.bytes| - n, _ => 0),
           if v.offset <= seen then v.offset else 0,
           if 0 <= v.mark <= seen then v.mark else -1,
           if v.limit <= seen then v.limit else |v.bytes|),
      n, n > 0 && (!symbol || Symbol(v, n) == ""),
      v.offset <= seen, 0 <= v.mark <= seen, v.limit <= seen)
  }

  lemma SymbolPlaces(v: View, n: nat)
    requires n <= |v.bytes| && Symbol(v, n) != ""
    ensures SymbolMarks(Symbol(v, n)[0]) == Some(Marks(n == v.offset, n == v.mark, n == v.limit))
  {
  }

  /** Reading the symbol at `n`. */
  lemma ReadsSymbol(v: View, n: nat, rest: string)
    requires n <= |v.bytes|
    requires Symbol(v, n) == "" ==> n == 0 || rest == ""
    ensures ParseRest(Reached(v, n, false), Symbol(v, n) + rest) == ParseRest(Reached(v, n, true), rest)
  {
    hide SymbolMarks, Put;
    if Symbol(v, n) == "" {
      assert "" + rest == rest;
      assert Reached(v, n, false) == Reached(v, n, true);
    } else {
      SymbolPlaces(v, n);
      var text := Symbol(v, n) + rest;
      assert text[0] == Symbol(v, n)[0];
      assert text[1..] == rest;
      hide Symbol;
      assert Turn(Reached(v, n, false), text) == Ok(Reached(v, n, true));
    }
  }

  /** Reading byte `n`. */
  lemma ReadsByte(v: View, n: nat, rest: string)
    requires n < |v.bytes|
    ensures ParseRest(Reached(v, n, true), Hex(v.bytes[n]) + rest) == ParseRest(Reached(v, n + 1, false), rest)
  {
    hide SymbolMarks, ParseInt16, Hex, Place;
    var h := Hex(v.bytes[n]);
    HexParses(v.bytes[n]);
    var text := h + rest;
    assert text[0] == h[0] && text[..2] == h && text[2..] == rest;
    assert Taken(text) == 2;
    assert v.bytes[..n + 1] == v.bytes[..n] + [v.bytes[n]];
    assert Turn(Reached(v, n, true), text) == Ok(Reached(v, n + 1, false)) by {
      var left := v.bytes[..n] + seq(|v.bytes| - n, _ => 0 as byte);
      assert left[n := v.bytes[n]] == v.bytes[..n + 1] + seq(|v.bytes| - n - 1, _ => 0 as byte);
    }
  }

  lemma {:induction false} ReadsRemaining(v: View, n: nat)
    requires n <= |v.bytes|
    ensures ParseRest(Reached(v, n, true), Remaining(v, n)) == Finish(Reached(v, |v.bytes|, true))
    decreases |v.bytes| - n
  {
    hide Reached, Symbol, Hex, Turn, Finish;
    if n < |v.bytes| {
      var h, s, r := Hex(v.bytes[n]), Symbol(v, n + 1), Remaining(v, n + 1);
      assert h + s + r == h + (s + r);
      ReadsByte(v, n, s + r);
      ReadsSymbol(v, n + 1, r);
      ReadsRemaining(v, n + 1);
    }
  }

  /** Everything a printed buffer parses to: the buffer itself but for a mark outside it, or an error. */
  function Reparsed(v: View): Result<View, ParseError> {
    if v.offset > |v.bytes| || v.limit > |v.bytes| then Err(MissingOffsetOrLimit)
    else Ok(v.(mark := if 0 <= v.mark <= |v.bytes| then v.mark else -1))
  }

  lemma FreshReached(v: View)
    ensures NewParser(|v.bytes|) == Reached(v, 0, false)
  {
    assert v.bytes[..0] + seq(|v.bytes|, _ => 0) == seq(|v.bytes|, _ => 0);
  }

  lemma {:induction false} ParsePrinted(v: View)
    ensures Parse(Printed(v, |v.bytes|)) == Reparsed(v)
  {
    hide Symbol, ParseRest, Turn, Remaining;
    CapacityRecovered(v);
    PrintedRemaining(v, 0);
    FreshReached(v);
    ReadsSymbolFirst(v);
    ReadsRemaining(v, 0);
    assert v.bytes[..|v.bytes|] + seq(0, _ => 0) == v.bytes;
  }

  lemma ReadsSymbolFirst(v: View)
    ensures ParseRest(Reached(v, 0, false), Symbol(v, 0) + Remaining(v, 0)) ==
            ParseRest(Reached(v, 0, true), Remaining(v, 0))
  {
    ReadsSymbol(v, 0, Remaining(v, 0));
  }

  /** Printing and parsing restores a buffer if and only if what it marks lies inside it. */
  lemma RoundTripIff(v: View)
    ensures Parse(Printed(v, |v.bytes|)) == Ok(v)
       <==> v.offset <= |v.bytes| && v.limit <= |v.bytes| && -1 <= v.mark <= |v.bytes|
  {
    hide Parse, Printed;
    ParsePrinted(v);
  }
}
