/** The two transform streams, working on byte buffers in place. */
module ChannelStreams {
  import opened Basics
  import opened Varint
  import opened Buffers
  import opened Channel

  /** The 16 bytes of a fresh buffer, with a frame written into it. */
  lemma FrameStored(packet: seq<byte>)
    requires |Frame(packet)| <= MAX_FRAME
    ensures var header := Stored(seq(16, _ => 0), 0, Encode(|packet|));
            && |header| < TWO31
            && Growable(16, |Encode(|packet|)|) && Growable(|header|, |Frame(packet)|)
            && HoldsAt(Stored(header, |Encode(|packet|)|, packet), 0, Frame(packet))
  {
    var h := |Encode(|packet|)|;
    var header := Stored(seq(16, _ => 0), 0, Encode(|packet|));
    SmallGrows(16, h);
    SmallGrows(|header|, |Frame(packet)|);
    StoredAt(seq(16, _ => 0), 0, Encode(|packet|));
    StoredAt(header, h, packet);
    var bytes := Stored(header, h, packet);
    assert bytes[..h] == header[..h];
    assert bytes[0..h + |packet|] == bytes[..h] + bytes[h..h + |packet|];
  }

  /** `PacketOutbound._transform`: the chunks pushed for one packet. */
  method Outbound(packet: seq<byte>, channelWidth: nat) returns (pushed: seq<seq<byte>>)
    requires channelWidth > 0 && |Frame(packet)| <= MAX_FRAME
    ensures pushed == Chunked(Frame(packet), channelWidth)
  {
    hide Stored, Overlay, Padded, Encode, HoldsAt, Chunked, GrowAll, ByteBuffer.Accounts;
    Size32(|packet|);
    FrameStored(packet);
    var buffer := new ByteBuffer(16);
    var header := buffer.WriteVarint32(|packet|);
    var body := buffer.Append(packet);
    buffer.Flip();
    pushed := PushChunks(buffer, channelWidth, Frame(packet));
  }

  /** The loop over the bytes to send. */
  method PushChunks(buffer: ByteBuffer, channelWidth: nat, ghost frame: seq<byte>) returns (pushed: seq<seq<byte>>)
    requires channelWidth > 0
    requires buffer.offset == 0 && buffer.limit == |frame| && HoldsAt(buffer.Bytes(), 0, frame)
    modifies buffer`offset
    ensures pushed == Chunked(frame, channelWidth)
  {
    pushed := [];
    var bytesToSend := buffer.limit - buffer.offset;
    assert frame[0..] == frame && [] + Chunked(frame, channelWidth) == Chunked(frame, channelWidth);
    while bytesToSend > 0
      invariant 0 <= bytesToSend && buffer.offset + bytesToSend == |frame|
      invariant pushed + Chunked(frame[buffer.offset..], channelWidth) == Chunked(frame, channelWidth)
      decreases bytesToSend
    {
      var toSend := Min(bytesToSend, channelWidth);
      ghost var start := buffer.offset;
      ghost var rest := frame[start..];
      var chunk := buffer.ReadBytes(toSend);
      SliceOfHeld(buffer.Bytes(), frame, start, toSend);
      NextChunk(rest, channelWidth, toSend);
      assert frame[start + toSend..] == rest[toSend..];
      PushOne(pushed, rest[..toSend], Chunked(rest[toSend..], channelWidth));
      pushed := pushed + [chunk.value];
      bytesToSend := bytesToSend - toSend;
    }
    assert buffer.offset == |frame| && frame[|frame|..] == [];
    assert Chunked([], channelWidth) == [] && pushed + [] == pushed;
  }

  lemma PushOne(pushed: seq<seq<byte>>, chunk: seq<byte>, rest: seq<seq<byte>>)
    ensures (pushed + [chunk]) + rest == pushed + ([chunk] + rest)
  {
  }

  lemma SliceOfHeld(bytes: seq<byte>, frame: seq<byte>, start: nat, n: nat)
    requires HoldsAt(bytes, 0, frame) && start + n <= |frame|
    ensures bytes[start..start + n] == frame[start..][..n]
  {
    forall j | start <= j < start + n ensures bytes[j] == frame[j] {
      assert bytes[0..|frame|][j] == frame[j];
    }
  }

  lemma NextChunk(rest: seq<byte>, width: nat, n: nat)
    requires width > 0 && rest != [] && n == Min(|rest|, width)
    ensures Chunked(rest, width) == [rest[..n]] + Chunked(rest[n..], width)
  {
    if |rest| <= width {
      assert rest[..n] == rest && rest[n..] == [];
    }
  }

  /** How a call goes: it returns, it throws, or it never comes back. */
  datatype Outcome = Returned | Threw | Hung

  function OutcomeOf(l: Looped): Outcome {
    match l
    case Ended(_, _) => Returned
    case Failed => Threw
    case Forever => Hung
  }

  class PacketInBound {
    const buffer: ByteBuffer
    /** Everything pushed so far. */
    var pushed: seq<seq<byte>>

    function View(): Decoder
      reads this, buffer, buffer.buffer
    {
      Decoder(buffer.Bytes(), buffer.offset, buffer.limit)
    }

    ghost predicate Valid()
      reads this, buffer, buffer.buffer
    {
      buffer.Accounts() && buffer.buffer.Length < TWO31 && buffer.offset <= buffer.buffer.Length
    }

    constructor ()
      ensures fresh(buffer) && fresh(buffer.buffer) && Valid() && View() == EMPTY_DECODER && pushed == []
    {
      buffer := new ByteBuffer(1024);
      pushed := [];
    }

    /** `_transform`. */
    method Transform(chunk: seq<byte>) returns (outcome: Outcome)
      requires Valid() && |chunk| < TWO31
      modifies this, buffer, buffer.buffer
      ensures fresh(buffer.buffer) || buffer.buffer == old(buffer.buffer)
      ensures outcome == if !Growable(|old(buffer.Bytes())|, old(buffer.offset) + |chunk|) then Threw
                         else OutcomeOf(Loop(Arrive(old(View()), chunk)))
      ensures outcome == Returned ==>
                var l := Loop(Arrive(old(View()), chunk));
                View() == l.next && pushed == old(pushed) + l.packets && Valid()
    {
      hide Turn, Stored, Grown, Loop, GrowAll, ByteBuffer.Accounts, OutcomeOf;
      ghost var arrived := Arrive(View(), chunk);
      ghost var bytes := buffer.Bytes();
      var ok := buffer.EnsureCapacity(|chunk| + buffer.offset);
      if !ok {
        return Threw;
      }
      AppendAfterGrowth(bytes, buffer.offset, chunk);
      var _ := buffer.Append(chunk);
      buffer.Flip();
      assert View() == arrived;
      outcome := Extract();
    }

    /** The loop over complete packets. */
    method Extract() returns (outcome: Outcome)
      requires Valid() && View().limit <= |View().bytes|
      modifies this, buffer, buffer.buffer
      ensures buffer.buffer == old(buffer.buffer)
      ensures outcome == OutcomeOf(Loop(old(View())))
      ensures outcome == Returned ==>
                var l := Loop(old(View()));
                View() == l.next && pushed == old(pushed) + l.packets && Valid()
    {
      hide Turn, Loop;
      ghost var start := Loop(View());
      ghost var emitted: seq<seq<byte>> := [];
      EmittedNothing(start);
      var again := true;
      while again
        invariant buffer.buffer == old(buffer.buffer)
        invariant pushed == old(pushed) + emitted
        invariant Valid()
        invariant if again then View().limit <= |View().bytes| && EmittedFirst(emitted, Loop(View())) == start
                  else start == Ended(View(), emitted)
        decreases again, if again then buffer.limit else 0
      {
        ghost var d := View();
        LoopStep(d);
        var ok;
        ok, again := ExtractOne();
        if !ok {
          return Threw;
        }
        if again && pushed[|pushed| - 1] == [] {
          return Hung; // nothing has changed, so every further turn is this one
        }
        if again {
          EmittedMore(emitted, Turn(d).packet, Loop(View()));
        }
        ghost var more := if Turn(d).Emitted? then [Turn(d).packet] else [];
        assert pushed == old(pushed) + (emitted + more);
        emitted := emitted + more;
      }
      outcome := Returned;
    }

    /** Pushes the next `length` bytes and moves them out of the buffer. */
    method Emit(length: nat)
      requires Valid() && buffer.offset + length <= buffer.limit <= buffer.buffer.Length
      modifies this, buffer, buffer.buffer
      ensures buffer.buffer == old(buffer.buffer) && Valid()
      ensures pushed == old(pushed) + [old(buffer.Bytes())[old(buffer.offset)..old(buffer.offset) + length]]
      ensures View() == Decoder(MovedDown(old(buffer.Bytes()), length), 0, old(buffer.limit) - length)
    {
      var src := buffer.buffer;
      var result := src[buffer.offset..buffer.offset + length];
      assert result == src[..][buffer.offset..buffer.offset + length];
      pushed := pushed + [result];
      CopyDown(src, length);
      buffer.offset := 0;
      buffer.limit := buffer.limit - length;
    }

    /** One turn of the loop. */
    method ExtractOne() returns (ok: bool, again: bool)
      requires Valid() && View().limit <= |View().bytes|
      modifies this, buffer, buffer.buffer
      ensures buffer.buffer == old(buffer.buffer)
      ensures ok <==> !Turn(old(View())).Broken?
      ensures ok ==>
                match Turn(old(View()))
                case Emitted(packet, next, more) =>
                  View() == next && pushed == old(pushed) + [packet] && Valid() && again == more
                case Waiting(next) => View() == next && pushed == old(pushed) && Valid() && !again
                case Broken => false
      ensures !ok ==> pushed == old(pushed) && !again
    {
      hide Read32, MovedDown, ByteBuffer.Accounts;
      again := false;
      var length := buffer.ReadVarint32();
      if length.Err? {
        return false, false;
      }
      var unresolved := buffer.limit - buffer.offset;
      if length.value <= unresolved {
        if length.value < 0 {
          return false, false;
        }
        Emit(length.value);
        again := unresolved - length.value > 0;
      } else {
        buffer.offset := buffer.limit;
        buffer.limit := buffer.buffer.Length;
      }
      ok := true;
    }
  }

  // Both streams together.

  lemma {:induction false} ChunkSizes(bytes: seq<byte>, width: nat)
    requires width > 0
    ensures forall chunk <- Chunked(bytes, width) :: |chunk| <= |bytes|
  {
    if |bytes| > width {
      ChunkSizes(bytes[width..], width);
    }
  }

  /** Feeds chunks to a decoder one per call. */
  method Feed(inbound: PacketInBound, chunks: seq<seq<byte>>, ghost more: seq<seq<byte>>)
    requires inbound.Valid() && FeedAll(inbound.View(), chunks + more).Some?
    requires forall chunk <- chunks :: |chunk| < TWO31
    modifies inbound, inbound.buffer, inbound.buffer.buffer
    ensures inbound.Valid()
    ensures fresh(inbound.buffer.buffer) || inbound.buffer.buffer == old(inbound.buffer.buffer)
    ensures PushedFirst(inbound.pushed, FeedAll(inbound.View(), more))
         == PushedFirst(old(inbound.pushed), FeedAll(old(inbound.View()), chunks + more))
  {
    hide Loop, Arrive, PushedFirst, Growable;
    ghost var result := PushedFirst(inbound.pushed, FeedAll(inbound.View(), chunks + more));
    SomeKept(inbound.pushed, FeedAll(inbound.View(), chunks + more));
    for k := 0 to |chunks|
      invariant inbound.Valid()
      invariant fresh(inbound.buffer.buffer) || inbound.buffer.buffer == old(inbound.buffer.buffer)
      invariant result.Some? && PushedFirst(inbound.pushed, FeedAll(inbound.View(), chunks[k..] + more)) == result
    {
      ghost var before, d := inbound.pushed, inbound.View();
      ghost var rest := chunks[k..] + more;
      assert rest[0] == chunks[k] && rest[1..] == chunks[k + 1..] + more;
      SomeKept(before, FeedAll(d, rest));
      FeedOne(d, rest);
      var _ := inbound.Transform(chunks[k]);
      PushedMore(before, Loop(Arrive(d, chunks[k])).packets, FeedAll(inbound.View(), rest[1..]));
    }
    assert chunks[|chunks|..] + more == more;
  }

  lemma SomeKept(packets: seq<seq<byte>>, rest: Option<(Decoder, seq<seq<byte>>)>)
    ensures PushedFirst(packets, rest).Some? <==> rest.Some?
  {
  }

  lemma FeedOne(d: Decoder, chunks: seq<seq<byte>>)
    requires chunks != [] && FeedAll(d, chunks).Some?
    ensures Growable(|d.bytes|, d.offset + |chunks[0]|)
    ensures Arrive(d, chunks[0]).limit <= |Arrive(d, chunks[0]).bytes|
    ensures var l := Loop(Arrive(d, chunks[0]));
            l.Ended? && FeedAll(d, chunks) == PushedFirst(l.packets, FeedAll(l.next, chunks[1..]))
  {
    hide Loop, Arrive, Growable, PushedFirst;
  }

  /** Packets written to an encoder whose chunks are piped into a decoder, one per call, arrive as they were. */
  method Relay(packets: seq<seq<byte>>, channelWidth: nat) returns (received: seq<seq<byte>>)
    requires channelWidth > 0
    requires forall i :: 0 <= i < |packets| ==>
               |Frame(packets[i])| <= MAX_FRAME && channelWidth >= |Encode(|packets[i]|)|
    ensures received == packets
  {
    hide Frame, Encode, Chunked, FeedAll, PushedFirst;
    var inbound := new PacketInBound();
    FreshIsEmpty();
    StreamDecodes(EMPTY_DECODER, packets, channelWidth);
    ghost var result := FeedAll(EMPTY_DECODER, Sent(packets, channelWidth));
    PushedNothing(result);
    assert packets[0..] == packets;
    for i := 0 to |packets|
      invariant fresh(inbound.buffer) && fresh(inbound.buffer.buffer) && inbound.Valid()
      invariant PushedFirst(inbound.pushed, FeedAll(inbound.View(), Sent(packets[i..], channelWidth))) == result
    {
      var chunks := Outbound(packets[i], channelWidth);
      ChunkSizes(Frame(packets[i]), channelWidth);
      assert packets[i..][1..] == packets[i + 1..];
      SomeKept(inbound.pushed, FeedAll(inbound.View(), Sent(packets[i..], channelWidth)));
      Feed(inbound, chunks, Sent(packets[i + 1..], channelWidth));
    }
    FeedNothing(inbound.pushed, inbound.View());
    received := inbound.pushed;
  }

  lemma FreshIsEmpty()
    ensures Pending(EMPTY_DECODER, [])
  {
  }

  lemma FeedNothing(pushed: seq<seq<byte>>, d: Decoder)
    ensures PushedFirst(pushed, FeedAll(d, [])) == Some((d, pushed))
  {
    assert pushed + [] == pushed;
  }

  lemma EmittedNothing(l: Looped)
    ensures EmittedFirst([], l) == l
  {
    if l.Ended? {
      assert [] + l.packets == l.packets;
    }
  }

  lemma EmittedMore(emitted: seq<seq<byte>>, packet: seq<byte>, l: Looped)
    ensures EmittedFirst(emitted, EmittedFirst([packet], l)) == EmittedFirst(emitted + [packet], l)
  {
    if l.Ended? {
      assert emitted + ([packet] + l.packets) == emitted + [packet] + l.packets;
    }
  }

  /** `copyWithin(0, n)`. */
  method CopyDown(a: array<byte>, n: nat)
    requires n <= a.Length
    modifies a
    ensures a[..] == MovedDown(old(a[..]), n)
  {
    for i := 0 to a.Length - n
      invariant forall j :: 0 <= j < i ==> a[j] == old(a[j + n])
      invariant forall j :: i <= j < a.Length ==> a[j] == old(a[j])
    {
      a[i] := a[i + n];
    }
  }

  /** Growing first and then appending stores the same bytes. */
  lemma AppendAfterGrowth(bytes: seq<byte>, at: nat, chunk: seq<byte>)
    requires at <= |bytes|
    ensures Stored(Padded(bytes, Grown(|bytes|, at + |chunk|)), at, chunk) == Stored(bytes, at, chunk)
  {
    var padded := Padded(bytes, Grown(|bytes|, at + |chunk|));
    assert Padded(padded, |padded|) == padded;
  }
}
