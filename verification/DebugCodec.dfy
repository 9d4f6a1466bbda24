/**
 * `toDebug` and `fromDebug` (`packages/bytebuffer/debug.ts`) on buffer objects, as
 * the loops they are.
 */
module DebugCodec {
  import opened Basics
  import opened Buffers
  import opened DebugText

  function ViewOf(bb: ByteBuffer): View
    reads bb, bb.buffer
  {
    View(bb.buffer[..], bb.offset, bb.markedOffset, bb.limit)
  }

  method ToDebug(bb: ByteBuffer) returns (hex: string)
    ensures hex == Printed(ViewOf(bb), bb.buffer.Length)
  {
    hide Symbol, Hex;
    var i, k := -1, bb.buffer.Length;
    hex := "";
    while i < k
      invariant -1 <= i <= k
      invariant hex == if i == -1 then "" else Printed(ViewOf(bb), i)
    {
      if i != -1 {
        hex := hex + Hex(bb.buffer[i]);
      }
      i := i + 1;
      hex := hex + Symbol(ViewOf(bb), i);
    }
  }

  lemma StartsFresh(text: string)
    ensures Parse(text) == ParseRest(NewParser(Capacity(text)), text)
  {
  }

  lemma ParseTurn(p: Parser, text: string)
    requires text != ""
    ensures var next := Turn(p, text);
            ParseRest(p, text) == if next.Err? then Err(next.error) else ParseRest(next.value, text[Taken(text)..])
  {
  }

  lemma ParseEnd(p: Parser)
    ensures ParseRest(p, "") == Finish(p)
  {
  }

  method FromDebug(text: string) returns (r: Result<ByteBuffer, ParseError>)
    ensures r.Ok? ==> fresh(r.value) && fresh(r.value.buffer)
    ensures r.Ok? ==> Parse(text) == Ok(ViewOf(r.value))
    ensures r.Err? ==> Parse(text) == Err(r.error)
  {
    hide SymbolMarks, ParseInt16, Capacity, Parse, ParseRest;
    StartsFresh(text);
    var bb := new ByteBuffer(Capacity(text));
    var i, j := 0, 0;
    var symbolNext, hasOffset, hasMark, hasLimit := false, false, false, false;
    assert text[0..] == text;
    while i < |text|
      invariant 0 <= i <= |text|
      invariant fresh(bb) && fresh(bb.buffer)
      invariant Parse(text) == ParseRest(Parser(ViewOf(bb), j, symbolNext, hasOffset, hasMark, hasLimit), text[i..])
    {
      ghost var rest := text[i..];
      ghost var before := Parser(ViewOf(bb), j, symbolNext, hasOffset, hasMark, hasLimit);
      ParseTurn(before, rest);
      var ch := text[i];
      i := i + 1;
      var marks := SymbolMarks(ch);
      if marks.Some? {
        var m := marks.value;
        if (m.offset && hasOffset) || (m.mark && hasMark) || (m.limit && hasLimit) {
          return Err(InvalidSymbol);
        }
        hasOffset, hasMark, hasLimit := hasOffset || m.offset, hasMark || m.mark, hasLimit || m.limit;
        bb.offset := if m.offset then j else bb.offset;
        bb.markedOffset := if m.mark then j else bb.markedOffset;
        bb.limit := if m.limit then j else bb.limit;
        symbolNext := false;
        assert text[i..] == rest[1..];
      } else {
        if symbolNext {
          return Err(InvalidSymbol);
        }
        var digits := if i < |text| then [ch, text[i]] else [ch];
        i := if i < |text| then i + 1 else i;
        assert digits == rest[..Taken(rest)] && text[i..] == rest[Taken(rest)..];
        var b := ParseInt16(digits);
        if b.None? || b.value < 0 || b.value > 255 {
          return Err(NotHex);
        }
        if j >= bb.buffer.Length {
          return Err(OutOfBounds);
        }
        bb.buffer[j] := b.value as byte;
        j := j + 1;
        symbolNext := true;
      }
      assert Turn(before, rest) == Ok(Parser(ViewOf(bb), j, symbolNext, hasOffset, hasMark, hasLimit));
    }
    assert text[i..] == "";
    ParseEnd(Parser(ViewOf(bb), j, symbolNext, hasOffset, hasMark, hasLimit));
    if !hasOffset || !hasLimit {
      return Err(MissingOffsetOrLimit);
    }
    if j < bb.buffer.Length {
      return Err(MissingBytes);
    }
    r := Ok(bb);
  }

  /** Printing a buffer and parsing the text yields a buffer in the same state, whatever is marked inside it. */
  method PrintAndParse(bb: ByteBuffer) returns (again: ByteBuffer)
    requires bb.offset <= bb.buffer.Length && bb.limit <= bb.buffer.Length
    requires -1 <= bb.markedOffset <= bb.buffer.Length
    ensures fresh(again) && fresh(again.buffer)
    ensures ViewOf(again) == ViewOf(bb)
  {
    var text := ToDebug(bb);
    RoundTripIff(ViewOf(bb));
    var r := FromDebug(text);
    again := r.value;
  }
}
