/** Downloads that finish without the source on disk. */
module DownloadWitnesses {
  import opened Basics
  import opened SegmentLoop
  import opened ControlledHandler
  import opened SharedFile
  import opened SharedFileInvariant
  import opened RangedDownload
  import opened DownloadReach
  import opened DownloadGaps
  import opened Tiling

  const LIMITS := Limits(5, 5, 2)

  // Four bytes in two segments.

  const FOUR := Job([7, 8, 9, 10], LIMITS, 1, 4)

  const FIRST_PARAMS := Params(0, 2, true, 0, false, true, false)

  function Pair(inflight: seq<Write>, attempt: nat, phase: Phase): World {
    var segments := [Segment(false, 0, 2, Started(0), attempt, phase), Segment(false, 2, 4, Started(2), 0, Ready)];
    World(map[], inflight, segments, false)
  }

  /** The first segment's response, `n` bytes of it received. */
  function Received(n: nat, pending: nat, outcome: Option<Outcome>): Phase {
    Running(FIRST_PARAMS, Handler(206, 0, n, 2, false, n > 0, false, pending, outcome), Streaming(n))
  }

  lemma TwoChunks()
    ensures Chunks(4, 2) == [Chunk(0, 1), Chunk(2, 3)] && Tiles(Chunks(4, 2), 0, 4)
    ensures Ranged(Chunks(4, 2)) == Pair([], 0, Ready)
  {
    assert CeilDiv(4, 2) == 2;
    assert ChunksFrom(4, 4, 2) == [] && ChunksFrom(2, 4, 2) == [Chunk(2, 3)] + [];
    var chunks := Chunks(4, 2);
    assert chunks[1..] == [Chunk(2, 3)] && chunks[1..][1..] == [];
    assert Ranged(chunks).segments == Pair([], 0, Ready).segments;
  }

  lemma FirstResponse()
    ensures Leads(FOUR, Pair([], 0, Ready), Pair([], 1, Received(0, 0, None)))
  {
    LeadsTwice(FOUR, Pair([], 0, Ready), Start(0, false, true), Deliver(0, Headers(206, Range(0, Some(4)), None)));
  }

  lemma FirstStalls()
    ensures Leads(FOUR, Pair([], 1, Received(0, 0, None)),
                  Pair([Write(0, 1, 0, [7])], 1, Received(1, 1, Some(Rejected(ManagedAbort(Stall))))))
  {
    LeadsTwice(FOUR, Pair([], 1, Received(0, 0, None)), Deliver(0, Data([7])), Deliver(0, Sampled(true, true, false)));
  }

  function Stalled(): World {
    Pair([Write(0, 1, 0, [7])], 1, Received(1, 1, Some(Rejected(ManagedAbort(Stall)))))
  }

  lemma StalledReached()
    ensures Leads(FOUR, Ranged(Chunks(4, 2)), Stalled())
  {
    hide Leads, Ranged, Chunks;
    TwoChunks();
    FirstResponse();
    FirstStalls();
    LeadsThrough(FOUR, Pair([], 0, Ready), Pair([], 1, Received(0, 0, None)), Stalled());
  }

  /** The loop goes round again, for the same URL, with the first byte behind it. */
  lemma StalledGoesOn()
    ensures Enabled(FOUR, Stalled(), Conclude(0, false))
    ensures VerdictOf(FOUR, Stalled().segments[0], false, false) == Continue(Loop(1, 0, 0, 1, false, false, 0), false)
    ensures CanFinish(FOUR, Stalled().segments[1])
  {
  }

  /**
   * A stall rejects the first attempt of the first segment with its byte not
   * yet on disk; the next attempt resumes behind that byte, both segments
   * finish, and the file is not the source.
   */
  lemma LateWriteLeavesGap()
    ensures exists w :: Leads(FOUR, Ranged(Chunks(4, 2)), w) && AllFinished(w) && w.file != Image(FOUR.source)
  {
    hide Leads, Ranged, Chunks, AllFinished, VerdictOf, Step, CanFinish, Tiles, Enabled, Image;
    var w, m := Stalled(), Conclude(0, false);
    TwoChunks();
    StalledReached();
    StalledGoesOn();
    LeavingPendingAllowsGap(FOUR, Chunks(4, 2), w, 0, false, 0);
    var w' :| Leads(FOUR, Step(FOUR, w, m), w') && AllFinished(w') && w'.file != Image(FOUR.source);
    LeadsOn(FOUR, w, m);
    LeadsThrough(FOUR, w, Step(FOUR, w, m), w');
    LeadsThrough(FOUR, Ranged(Chunks(4, 2)), w, w');
  }

  // A whole-file stream of three bytes.

  const THREE := Job([7, 8, 9], LIMITS, 1, 3)

  const WHOLE_PARAMS := Params(0, 0, false, -1, false, true, false)

  function Whole(file: map<nat, byte>, inflight: seq<Write>, loop: Loop, attempt: nat, phase: Phase): World {
    World(file, inflight, [Segment(true, 0, 3, loop, attempt, phase)], false)
  }

  function Stream(n: nat, pending: nat, outcome: Option<Outcome>): Phase {
    Running(WHOLE_PARAMS, Handler(200, 0, n, 3, false, n > 0, false, pending, outcome), Streaming(n))
  }

  const AFTER_STALL := Loop(1, 0, 0, 1, false, false, 0)

  function StreamOpened(): World {
    Whole(map[], [], Started(0), 1, Stream(0, 0, None))
  }

  lemma WholeOpens()
    ensures Leads(THREE, Whole(map[], [], Started(0), 0, Ready), StreamOpened())
  {
    var w := Whole(map[], [], Started(0), 0, Ready);
    LeadsTwice(THREE, w, Start(0, false, true), Deliver(0, Headers(200, Absent, Some(3))));
  }

  function OneLanded(): World {
    Whole(map[0 := 7], [], Started(0), 1, Stream(1, 0, None))
  }

  lemma WholeReceives()
    ensures Leads(THREE, StreamOpened(), OneLanded())
  {
    var w := StreamOpened();
    var w' := Step(THREE, w, Deliver(0, Data([7])));
    assert w'.inflight == [Write(0, 1, 0, [7])];
    assert Step(THREE, w', Land(0)).file == map[0 := 7];
    LeadsTwice(THREE, w, Deliver(0, Data([7])), Land(0));
  }

  function AfterStall(): World {
    Whole(map[0 := 7], [], AFTER_STALL, 1, Ready)
  }

  lemma WholeStalls()
    ensures Leads(THREE, OneLanded(), AfterStall())
  {
    LeadsTwice(THREE, OneLanded(), Deliver(0, Sampled(true, true, false)), Conclude(0, false));
  }

  function Resumed(): World {
    Whole(map[0 := 7], [], AFTER_STALL, 2, Running(WHOLE_PARAMS, NewHandler(WHOLE_PARAMS, 3), Waiting))
  }

  lemma WholeResumes()
    ensures Leads(THREE, AfterStall(), Resumed())
  {
    LeadsOn(THREE, AfterStall(), Start(0, false, true));
  }

  lemma ResumedReached()
    ensures Leads(THREE, WholeFile(THREE.source, []), Resumed())
  {
    hide Leads;
    var w0 := Whole(map[], [], Started(0), 0, Ready);
    assert WholeFile(THREE.source, []) == w0;
    WholeOpens();
    WholeReceives();
    WholeStalls();
    WholeResumes();
    LeadsThrough(THREE, w0, StreamOpened(), OneLanded());
    LeadsThrough(THREE, w0, OneLanded(), AfterStall());
    LeadsThrough(THREE, w0, AfterStall(), Resumed());
  }

  lemma ResumedInv()
    ensures Inv(THREE, Resumed()) && !Held(Resumed().file, Resumed().inflight, 0, 1)
  {
    assert SegmentOk(THREE, Resumed().file, [], 0, Resumed().segments[0]);
  }

  /**
   * A stream of three bytes stalls after the first, which is on disk; the
   * request for bytes from 1 on is answered from 2 on, the download finishes
   * with nothing in flight, and byte 1 is missing.
   */
  lemma UnalignedResponseLeavesGap()
    ensures exists w ::
              Leads(THREE, WholeFile(THREE.source, []), w) && AllFinished(w) && w.inflight == [] && 1 !in w.file
  {
    hide Inv, Leads, Held, AllFinished;
    var w := Resumed();
    var m := Deliver(0, Headers(206, Range(2, Some(3)), None));
    ResumedReached();
    ResumedInv();
    MisalignedAllowsGap(THREE, w, 2, Some(3), None, 1);
    var w' :|
      && Leads(THREE, Step(THREE, w, m), w')
      && AllFinished(w') && w'.inflight == [] && 1 !in w'.file && w'.file != Image(THREE.source);
    LeadsOn(THREE, w, m);
    LeadsThrough(THREE, w, Step(THREE, w, m), w');
    LeadsThrough(THREE, WholeFile(THREE.source, []), w, w');
  }
}
