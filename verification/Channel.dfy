/**
 * Packet framing: `PacketOutbound` prefixes a packet with its length and cuts
 * it into chunks, `PacketInBound` puts the chunks together again.
 */
module Channel {
  import opened Basics
  import opened Varint
  import opened Buffers

  /** A packet on the wire. */
  function Frame(packet: seq<byte>): (f: seq<byte>)
    ensures |f| > 0
  {
    Encode(|packet|) + packet
  }

  /** Pieces of `width` bytes, the last one possibly shorter. */
  function Chunked(bytes: seq<byte>, width: nat): seq<seq<byte>>
    requires width > 0
  {
    if bytes == [] then []
    else if |bytes| <= width then [bytes]
    else [bytes[..width]] + Chunked(bytes[width..], width)
  }

  /** The sizes for which every growth of a buffer stays below 2^31 bytes. */
  const MAX_FRAME: nat := 0x4000_0000

  lemma SmallGrows(capacity: nat, needed: nat)
    requires capacity < TWO31 && needed <= MAX_FRAME
    ensures Growable(capacity, needed) && Grown(capacity, needed) < TWO31
  {
  }

  // The decoder, one turn of its loop at a time.

  /** The decoder's buffer: the bytes of its array, the offset and the limit. */
  datatype Decoder = Decoder(bytes: seq<byte>, offset: nat, limit: nat)

  datatype Turned =
    | Emitted(packet: seq<byte>, next: Decoder, again: bool)
    | Waiting(next: Decoder)
    | Broken

  /** A chunk is appended behind the bytes already there and the buffer flipped. */
  function Arrive(d: Decoder, chunk: seq<byte>): (a: Decoder)
    ensures a.limit <= |a.bytes|
  {
    Decoder(Stored(d.bytes, d.offset, chunk), 0, d.offset + |chunk|)
  }

  /** `copyWithin(0, n)`. */
  function MovedDown(bytes: seq<byte>, n: nat): (r: seq<byte>)
    requires n <= |bytes|
    ensures |r| == |bytes|
  {
    bytes[n..] + bytes[|bytes| - n..]
  }

  /** One turn: after a packet only its payload length is moved out of the buffer, not its header. */
  function Turn(d: Decoder): Turned
    requires d.limit <= |d.bytes|
  {
    var reading := Read32(d.bytes, d.limit, d.offset);
    if reading.Err? then Broken
    else
      var start := d.offset + reading.value.length;
      var length := reading.value.value;
      var unresolved := d.limit - start;
      if length <= unresolved then
        if length < 0 then Broken
        else Emitted(d.bytes[start..start + length],
                     Decoder(MovedDown(d.bytes, length), 0, d.limit - length),
                     unresolved - length > 0)
      else
        Waiting(Decoder(d.bytes, d.limit, |d.bytes|))
  }

  const EMPTY_DECODER := Decoder(seq(1024, _ => 0), 0, 1024)

  /** Between chunks the decoder holds exactly `content`. */
  predicate Pending(d: Decoder, content: seq<byte>) {
    d.offset == |content| <= |d.bytes| < TWO31 && d.bytes[..d.offset] == content
  }

  lemma ArriveHolds(d: Decoder, content: seq<byte>, chunk: seq<byte>)
    requires Pending(d, content) && |content + chunk| <= MAX_FRAME
    ensures var a := Arrive(d, chunk);
            a.offset == 0 && a.limit == |content + chunk| <= |a.bytes| < TWO31 && a.bytes[..a.limit] == content + chunk
  {
    SmallGrows(|d.bytes|, |content + chunk|);
    var a := Arrive(d, chunk);
    StoredAt(d.bytes, d.offset, chunk);
    assert a.bytes[..d.offset] == content;
    assert a.bytes[d.offset..d.offset + |chunk|] == chunk;
    assert a.bytes[..a.limit] == a.bytes[..d.offset] + a.bytes[d.offset..a.limit];
  }

  /** The length header at the front of a frame, or of a prefix that contains it. */
  lemma HeaderReads(bytes: seq<byte>, limit: nat, packet: seq<byte>, n: nat)
    requires |packet| < TWO31 && limit <= |bytes| && limit == n
    requires |Encode(|packet|)| <= n <= |Frame(packet)| && bytes[..limit] == Frame(packet)[..n]
    ensures Read32(bytes, limit, 0) == Ok(Reading(|packet|, |Encode(|packet|)|))
  {
    hide Encode, Read32;
    var h := |Encode(|packet|)|;
    assert Frame(packet)[..n][..h] == Frame(packet)[..h] == Encode(|packet|);
    assert bytes[0..h] == bytes[..limit][..h];
    Read32Decodes(bytes, limit, 0, |packet|);
    Size32(|packet|);
  }

  /** A chunk that leaves the frame incomplete is kept. */
  lemma PartialFrame(d: Decoder, content: seq<byte>, chunk: seq<byte>, packet: seq<byte>)
    requires Pending(d, content) && |Frame(packet)| <= MAX_FRAME
    requires |content + chunk| < |Frame(packet)| && content + chunk == Frame(packet)[..|content + chunk|]
    requires |Encode(|packet|)| <= |content + chunk|
    ensures var t := Turn(Arrive(d, chunk)); t.Waiting? && Pending(t.next, content + chunk)
  {
    ArriveHolds(d, content, chunk);
    var a := Arrive(d, chunk);
    HeaderReads(a.bytes, a.limit, packet, |content + chunk|);
  }

  /** A turn on a whole frame, with or without bytes behind it. */
  lemma TurnOnFrame(a: Decoder, packet: seq<byte>, behind: seq<byte>)
    requires a.offset == 0 && a.limit <= |a.bytes| && |packet| < TWO31
    requires a.bytes[..a.limit] == Frame(packet) + behind
    ensures Turn(a) == Emitted(packet, Decoder(MovedDown(a.bytes, |packet|), 0, a.limit - |packet|), |behind| > 0)
  {
    var h := |Encode(|packet|)|;
    FrontOfFrame(a.bytes, a.limit, packet, behind);
    Read32Decodes(a.bytes, a.limit, 0, |packet|);
    Size32(|packet|);
  }

  /** Header and payload in a buffer that starts with a frame. */
  lemma FrontOfFrame(bytes: seq<byte>, limit: nat, packet: seq<byte>, behind: seq<byte>)
    requires limit <= |bytes| && bytes[..limit] == Frame(packet) + behind
    ensures var h := |Encode(|packet|)|;
            && limit == h + |packet| + |behind|
            && HoldsAt(bytes, 0, Encode(|packet|)) && bytes[h..h + |packet|] == packet
  {
    hide Encode;
    var h := |Encode(|packet|)|;
    var content := Frame(packet) + behind;
    assert content[..h] == Encode(|packet|) && content[h..h + |packet|] == packet;
    assert bytes[0..h] == bytes[..limit][..h];
    assert bytes[h..h + |packet|] == bytes[..limit][h..h + |packet|];
  }

  /** A chunk that completes the frame yields the packet and leaves nothing behind. */
  lemma CompleteFrame(d: Decoder, content: seq<byte>, chunk: seq<byte>, packet: seq<byte>)
    requires Pending(d, content) && |Frame(packet)| <= MAX_FRAME
    requires content + chunk == Frame(packet)
    ensures var t := Turn(Arrive(d, chunk)); t.Emitted? && t.packet == packet && !t.again && Pending(t.next, [])
  {
    ArriveHolds(d, content, chunk);
    assert Frame(packet) + [] == Frame(packet);
    TurnOnFrame(Arrive(d, chunk), packet, []);
  }

  // The decoder's loop.

  /** How the loop over one chunk goes: to its end, into an exception, or on for ever. */
  datatype Looped = Ended(next: Decoder, packets: seq<seq<byte>>) | Failed | Forever

  /** The whole loop; a turn that emits an empty packet and goes round again changes nothing, so it repeats. */
  function Loop(d: Decoder): Looped
    requires d.limit <= |d.bytes|
    decreases d.limit
  {
    match Turn(d)
    case Broken => Failed
    case Waiting(next) => Ended(next, [])
    case Emitted(packet, next, again) =>
      if !again then Ended(next, [packet])
      else if packet == [] then Forever
      else EmittedFirst([packet], Loop(next))
  }

  /** Packets already emitted, put before those the rest of the loop emits. */
  function EmittedFirst(packets: seq<seq<byte>>, l: Looped): Looped {
    if l.Ended? then Ended(l.next, packets + l.packets) else l
  }

  lemma LoopStep(d: Decoder)
    requires d.limit <= |d.bytes|
    ensures match Turn(d)
            case Broken => Loop(d) == Failed
            case Waiting(next) => Loop(d) == Ended(next, [])
            case Emitted(packet, next, again) =>
              && next.limit == d.limit - |packet| && next.limit <= |next.bytes|
              && Loop(d) == if !again then Ended(next, [packet])
                            else if packet == [] then Forever
                            else EmittedFirst([packet], Loop(next))
  {
  }

  /** Chunks fed one per call; `None` when a call throws or does not return. */
  function FeedAll(d: Decoder, chunks: seq<seq<byte>>): Option<(Decoder, seq<seq<byte>>)>
    decreases |chunks|
  {
    if chunks == [] then Some((d, []))
    else if !Growable(|d.bytes|, d.offset + |chunks[0]|) then None
    else match Loop(Arrive(d, chunks[0]))
      case Ended(next, packets) => PushedFirst(packets, FeedAll(next, chunks[1..]))
      case _ => None
  }

  /** Packets already pushed, put before those still to come. */
  function PushedFirst(packets: seq<seq<byte>>, rest: Option<(Decoder, seq<seq<byte>>)>)
    : Option<(Decoder, seq<seq<byte>>)>
  {
    if rest.Some? then Some((rest.value.0, packets + rest.value.1)) else None
  }

  lemma PushedNothing(rest: Option<(Decoder, seq<seq<byte>>)>)
    ensures PushedFirst([], rest) == rest
  {
    if rest.Some? {
      assert [] + rest.value.1 == rest.value.1;
    }
  }

  lemma PushedMore(packets: seq<seq<byte>>, more: seq<seq<byte>>, rest: Option<(Decoder, seq<seq<byte>>)>)
    ensures PushedFirst(packets, PushedFirst(more, rest)) == PushedFirst(packets + more, rest)
  {
    if rest.Some? {
      assert packets + (more + rest.value.1) == packets + more + rest.value.1;
    }
  }

  lemma FeedFirst(d: Decoder, chunk: seq<byte>, more: seq<seq<byte>>, next: Decoder, packets: seq<seq<byte>>)
    requires Growable(|d.bytes|, d.offset + |chunk|) && Loop(Arrive(d, chunk)) == Ended(next, packets)
    ensures FeedAll(d, [chunk] + more) == PushedFirst(packets, FeedAll(next, more))
  {
    hide Loop, Arrive, Growable, PushedFirst;
    assert ([chunk] + more)[1..] == more;
  }

  /** What `PacketOutbound` pushes for a sequence of packets. */
  function Sent(packets: seq<seq<byte>>, width: nat): seq<seq<byte>>
    requires width > 0
  {
    if packets == [] then [] else Chunked(Frame(packets[0]), width) + Sent(packets[1..], width)
  }

  /** The last chunk of a frame. */
  lemma LastChunk(d: Decoder, content: seq<byte>, rest: seq<byte>, packet: seq<byte>, more: seq<seq<byte>>)
    returns (d': Decoder)
    requires Pending(d, content) && |Frame(packet)| <= MAX_FRAME && content + rest == Frame(packet)
    ensures Pending(d', [])
    ensures FeedAll(d, [rest] + more) == PushedFirst([packet], FeedAll(d', more))
  {
    hide Turn, Arrive, Growable, Frame, FeedAll, Loop, PushedFirst;
    ArriveFits(d, content, rest);
    CompleteFrame(d, content, rest, packet);
    d' := Turn(Arrive(d, rest)).next;
    LoopStep(Arrive(d, rest));
    FeedFirst(d, rest, more, d', [packet]);
  }

  /** A chunk inside a frame. */
  lemma InnerChunk(d: Decoder, content: seq<byte>, head: seq<byte>, tail: seq<byte>, packet: seq<byte>,
                   more: seq<seq<byte>>)
    returns (waiting: Decoder)
    requires Pending(d, content) && |Frame(packet)| <= MAX_FRAME
    requires content + head + tail == Frame(packet) && tail != [] && |content + head| >= |Encode(|packet|)|
    ensures Pending(waiting, content + head)
    ensures FeedAll(d, [head] + more) == FeedAll(waiting, more)
  {
    hide Turn, Arrive, Growable, Encode, Frame, FeedAll, Loop, PushedFirst;
    ArriveFits(d, content, head);
    assert content + head == Frame(packet)[..|content + head|];
    PartialFrame(d, content, head, packet);
    waiting := Turn(Arrive(d, head)).next;
    LoopStep(Arrive(d, head));
    FeedFirst(d, head, more, waiting, []);
    PushedNothing(FeedAll(waiting, more));
  }

  /** The rest of a frame, cut into chunks, completes the packet and hands over to what follows. */
  lemma {:induction false} FrameDecodes(d: Decoder, content: seq<byte>, rest: seq<byte>, packet: seq<byte>,
                                        width: nat, more: seq<seq<byte>>)
    returns (d': Decoder)
    requires width > 0 && Pending(d, content) && |Frame(packet)| <= MAX_FRAME
    requires content + rest == Frame(packet) && rest != []
    requires |content| + width >= |Encode(|packet|)|
    ensures Pending(d', [])
    ensures FeedAll(d, Chunked(rest, width) + more) == PushedFirst([packet], FeedAll(d', more))
    decreases |rest|
  {
    hide Encode, Frame, FeedAll, PushedFirst, Pending;
    if |rest| <= width {
      d' := LastChunk(d, content, rest, packet, more);
    } else {
      var head, tail := rest[..width], rest[width..];
      assert rest == head + tail;
      assert content + head + tail == Frame(packet);
      assert [head] + Chunked(tail, width) + more == [head] + (Chunked(tail, width) + more);
      var waiting := InnerChunk(d, content, head, tail, packet, Chunked(tail, width) + more);
      d' := FrameDecodes(waiting, content + head, tail, packet, width, more);
    }
  }

  /** There is room for another chunk of a frame. */
  lemma ArriveFits(d: Decoder, content: seq<byte>, chunk: seq<byte>)
    requires Pending(d, content) && |content + chunk| <= MAX_FRAME
    ensures Growable(|d.bytes|, d.offset + |chunk|)
    ensures Arrive(d, chunk).limit <= |Arrive(d, chunk).bytes|
  {
    SmallGrows(|d.bytes|, |content + chunk|);
  }

  /**
   * Every sequence of packets comes out of the decoder as it went into the
   * encoder, the decoder being empty after each, for every channel width that
   * holds the length headers.
   */
  lemma {:induction false} StreamDecodes(d: Decoder, packets: seq<seq<byte>>, width: nat)
    requires width > 0 && Pending(d, [])
    requires forall i :: 0 <= i < |packets| ==> |Frame(packets[i])| <= MAX_FRAME && width >= |Encode(|packets[i]|)|
    ensures var f := FeedAll(d, Sent(packets, width)); f.Some? && f.value.1 == packets && Pending(f.value.0, [])
    decreases |packets|
  {
    hide Turn, Loop, Arrive, Encode, Chunked;
    if packets != [] {
      var frame := Frame(packets[0]);
      assert [] + frame == frame;
      var d' := FrameDecodes(d, [], frame, packets[0], width, Sent(packets[1..], width));
      StreamDecodes(d', packets[1..], width);
      assert [packets[0]] + packets[1..] == packets;
    }
  }

  // Chunks that hold bytes of two packets.

  /**
   * Two empty packets in one chunk: the turn emits an empty packet and leaves
   * the buffer as it was, so the decoder's loop never ends.
   */
  lemma CoalescedEmptyPacketsLoop(d: Decoder)
    requires Pending(d, [])
    ensures var a := Arrive(d, Frame([]) + Frame([])); Turn(a) == Emitted([], a, true) && Loop(a) == Forever
  {
    hide Turn, Loop, Arrive;
    var chunk := Frame([]) + Frame([]);
    assert [] + chunk == chunk;
    ArriveHolds(d, [], chunk);
    var a := Arrive(d, chunk);
    TurnOnFrame(a, [], Frame([]));
    assert a.bytes[0..] + a.bytes[|a.bytes|..] == a.bytes;
    RepeatsForever(a, a);
  }

  lemma RepeatsForever(a: Decoder, next: Decoder)
    requires a.limit <= |a.bytes| && Turn(a) == Emitted([], next, true)
    ensures Loop(a) == Forever
  {
    hide Turn;
  }

  /** The bytes a packet leaves in the decoder: as many as its length header has. */
  function Stale(packet: seq<byte>): seq<byte> {
    Frame(packet)[|packet|..]
  }

  /**
   * A turn on a chunk that holds a whole frame and perhaps more emits the packet,
   * and goes round again exactly when there is more, with the stale bytes still
   * in front of it.
   */
  lemma {:induction false} FrameLeavesItsHeader(d: Decoder, packet: seq<byte>, behind: seq<byte>)
    requires Pending(d, []) && |Frame(packet) + behind| <= MAX_FRAME
    ensures var t := Turn(Arrive(d, Frame(packet) + behind));
            && t.Emitted? && t.packet == packet && (t.again <==> behind != [])
            && t.next.offset == 0 && t.next.limit <= |t.next.bytes| < TWO31
            && t.next.bytes[..t.next.limit] == Stale(packet) + behind
  {
    var chunk := Frame(packet) + behind;
    assert [] + chunk == chunk;
    ArriveHolds(d, [], chunk);
    TurnOnFrame(Arrive(d, chunk), packet, behind);
    ShiftedContent(Arrive(d, chunk), packet, behind);
  }

  lemma ShiftedContent(a: Decoder, packet: seq<byte>, behind: seq<byte>)
    requires a.limit <= |a.bytes| && a.bytes[..a.limit] == Frame(packet) + behind
    ensures |packet| <= a.limit
    ensures MovedDown(a.bytes, |packet|)[..a.limit - |packet|] == Stale(packet) + behind
  {
    var n := |packet|;
    assert MovedDown(a.bytes, n)[..a.limit - n] == a.bytes[..a.limit][n..];
    assert (Frame(packet) + behind)[n..] == Frame(packet)[n..] + behind;
  }

  /** The stale bytes of `p` and the header of `q` read as one length, that of `q`. */
  predicate ReadsThrough(p: seq<byte>, q: seq<byte>) {
    var header := Stale(p) + Encode(|q|);
    Read32(header, |header|, 0) == Ok(Reading(|q|, |header|))
  }

  /** The bytes of a number decide how it reads, whatever is behind them. */
  lemma {:induction false} ReadsAlike(a: seq<byte>, b: seq<byte>, n: nat, limitA: int, limitB: int, pos: nat,
                                      c: nat, acc: nat)
    requires n <= |a| && n <= |b| && a[..n] == b[..n] && limitA >= n - 1 && limitB >= n - 1
    requires var r := ReadLoop(a, limitA, pos, c, acc); r.Ok? && pos + (r.value.length - c) == n
    ensures ReadLoop(b, limitB, pos, c, acc) == ReadLoop(a, limitA, pos, c, acc)
    decreases |a| - pos
  {
    ReadTakes(a, limitA, pos, c, acc);
    assert pos < n && a[pos] == a[..n][pos] == b[..n][pos] == b[pos];
    if a[pos] >= 128 {
      var x := a[pos] as int;
      ReadsAlike(a, b, n, limitA, limitB, pos + 1, c + 1, if c < 5 then acc + Shifted(x % 128, c) else acc);
    }
  }

  /** A reading takes at least one byte, and all it takes but the last have the continuation bit. */
  lemma {:induction false} ReadTakes(a: seq<byte>, limit: int, pos: nat, c: nat, acc: nat)
    requires ReadLoop(a, limit, pos, c, acc).Ok?
    ensures var end := pos + (ReadLoop(a, limit, pos, c, acc).value.length - c);
            pos < end <= |a| && forall i :: pos <= i < end - 1 ==> a[i] >= 128
    decreases |a| - pos
  {
    if a[pos] >= 128 {
      var x := a[pos] as int;
      ReadTakes(a, limit, pos + 1, c + 1, if c < 5 then acc + Shifted(x % 128, c) else acc);
    }
  }

  lemma ReadsThroughAt(p: seq<byte>, q: seq<byte>, bytes: seq<byte>, limit: nat)
    requires limit <= |bytes| && bytes[..limit] == Stale(p) + Frame(q)
    ensures limit == |Stale(p)| + |Encode(|q|)| + |q| && bytes[|Stale(p)| + |Encode(|q|)|..limit] == q
    ensures ReadsThrough(p, q) <==> Read32(bytes, limit, 0) == Ok(Reading(|q|, |Stale(p)| + |Encode(|q|)|))
  {
    hide ReadLoop, Encode, Stale;
    var header := Stale(p) + Encode(|q|);
    var n := |header|;
    assert Stale(p) + Frame(q) == header + q;
    assert bytes[..n] == bytes[..limit][..n] == header[..n];
    assert bytes[n..limit] == bytes[..limit][n..] == q;
    if ReadsThrough(p, q) {
      ReadsAlike(header, bytes, n, n, limit, 0, 0, 0);
    }
    if Read32(bytes, limit, 0) == Ok(Reading(|q|, n)) {
      ReadsAlike(bytes, header, n, limit, n, 0, 0, 0);
    }
  }

  /** How the loop goes on behind the first of two packets. */
  lemma SecondTurn(d: Decoder, p: seq<byte>, q: seq<byte>)
    requires d.offset == 0 && d.limit <= |d.bytes| < TWO31 && d.bytes[..d.limit] == Stale(p) + Frame(q)
    ensures ReadsThrough(p, q) <==>
              (var l := Loop(d); l.Ended? && l.packets == [q] && Pending(l.next, []))
  {
    hide Read32, Stale, Frame, ReadsThrough, MovedDown, Encode;
    ReadsThroughAt(p, q, d.bytes, d.limit);
    var start := |Stale(p)| + |Encode(|q|)|;
    if ReadsThrough(p, q) {
      LastPacket(d, start, q);
    }
    var l := Loop(d);
    if l.Ended? && l.packets == [q] && Pending(l.next, []) {
      EndsWithPacket(d, q);
    }
  }

  /** Exactly one packet is left. */
  lemma LastPacket(d: Decoder, start: nat, q: seq<byte>)
    requires d.offset == 0 && d.limit <= |d.bytes| < TWO31 && d.limit == start + |q|
    requires Read32(d.bytes, d.limit, 0) == Ok(Reading(|q|, start)) && d.bytes[start..d.limit] == q
    ensures var l := Loop(d); l.Ended? && l.packets == [q] && Pending(l.next, [])
  {
  }

  /** A loop that leaves the decoder empty after one packet took the last turn on it. */
  lemma EndsWithPacket(d: Decoder, q: seq<byte>)
    requires d.offset == 0 && d.limit <= |d.bytes|
    requires var l := Loop(d); l.Ended? && l.packets == [q] && Pending(l.next, [])
    ensures var r := Read32(d.bytes, d.limit, 0); r.Ok? && r.value.value == |q| && r.value.length == d.limit - |q|
  {
    hide Read32;
    var t := Turn(d);
    if t.Emitted? && t.again {
      NothingMore(t.next);
    }
  }

  /** A loop that still has bytes either emits a packet or keeps them. */
  lemma NothingMore(d: Decoder)
    requires d.limit <= |d.bytes| && d.limit > 0
    ensures var l := Loop(d); l.Ended? && l.packets == [] ==> !Pending(l.next, [])
  {
    hide Read32;
  }

  /**
   * Two packets in one chunk arrive as they are, leaving the decoder empty, if
   * and only if the stale bytes of the first and the length header of the
   * second read as the second's length.
   */
  lemma {:induction false} TwoPacketsIff(d: Decoder, p: seq<byte>, q: seq<byte>)
    requires Pending(d, []) && |Frame(p) + Frame(q)| <= MAX_FRAME
    ensures var l := Loop(Arrive(d, Frame(p) + Frame(q)));
            (l.Ended? && l.packets == [p, q] && Pending(l.next, [])) <==> ReadsThrough(p, q)
  {
    hide Turn, Frame, Stale, ReadsThrough, Arrive, Pending;
    FrameLeavesItsHeader(d, p, Frame(q));
    var a := Arrive(d, Frame(p) + Frame(q));
    var next := Turn(a).next;
    SecondTurn(next, p, q);
    if p == [] {
      EmptyStops(q);
    } else {
      assert forall packets: seq<seq<byte>> :: [p] + packets == [p, q] <==> packets == [q] by {
        forall packets: seq<seq<byte>> ensures [p] + packets == [p, q] <==> packets == [q] {
          AfterFirst(p, q, packets);
        }
      }
    }
  }

  lemma AfterFirst(p: seq<byte>, q: seq<byte>, packets: seq<seq<byte>>)
    ensures [p] + packets == [p, q] <==> packets == [q]
  {
    if [p] + packets == [p, q] {
      assert packets == ([p] + packets)[1..];
    }
  }

  lemma EmptyStops(q: seq<byte>)
    ensures !ReadsThrough([], q)
  {
    assert Stale([]) == [0];
    assert (Stale([]) + Encode(|q|))[0] == 0;
  }

  /** So every stale byte must have the continuation bit. */
  lemma IntactMeansContinued(p: seq<byte>, q: seq<byte>)
    requires ReadsThrough(p, q)
    ensures forall i :: 0 <= i < |Stale(p)| ==> Stale(p)[i] >= 128
  {
    hide Stale, Encode;
    var header := Stale(p) + Encode(|q|);
    ReadTakes(header, |header|, 0, 0, 0);
    assert forall i :: 0 <= i < |Stale(p)| ==> header[i] == Stale(p)[i];
  }

  lemma ContinuedZero()
    ensures ReadsThrough([0x80], [])
  {
    var header := Stale([0x80]) + Encode(0);
    assert header == [0x80, 0];
    assert ReadLoop(header, 2, 1, 1, 0) == Ok(Reading(0, 2));
  }

  lemma StoppedMeansMisread(p: seq<byte>, q: seq<byte>, i: nat)
    requires i < |Stale(p)| && Stale(p)[i] < 128
    ensures !ReadsThrough(p, q)
  {
    hide Stale, ReadsThrough;
    if ReadsThrough(p, q) {
      IntactMeansContinued(p, q);
    }
  }

  /** One that arrives: the packet `80`, whose last byte continues into the empty packet's header. */
  lemma TwoPacketsIntact(d: Decoder)
    requires Pending(d, [])
    ensures Frame([0x80]) + Frame([]) == [1, 0x80, 0]
    ensures var l := Loop(Arrive(d, [1, 0x80, 0])); l.Ended? && l.packets == [[0x80], []] && Pending(l.next, [])
  {
    hide Loop, Arrive, Pending;
    assert Frame([0x80]) + Frame([]) == [1, 0x80, 0];
    ContinuedZero();
    TwoPacketsIff(d, [0x80], []);
  }

  /** One that does not: the packets `01` and `02`. */
  lemma TwoPacketsMisread(d: Decoder)
    requires Pending(d, [])
    ensures Frame([1]) + Frame([2]) == [1, 1, 1, 2]
    ensures var l := Loop(Arrive(d, [1, 1, 1, 2])); !(l.Ended? && l.packets == [[1], [2]] && Pending(l.next, []))
  {
    hide Loop, Arrive, Pending;
    assert Frame([1]) + Frame([2]) == [1, 1, 1, 2];
    assert Stale([1])[0] == 1;
    TwoPacketsIff(d, [1], [2]);
    StoppedMeansMisread([1], [2], 0);
  }
}
