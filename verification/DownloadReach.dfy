/** What the download state machine can get to from a state. */
module DownloadReach {
  import opened SharedFile

  lemma {:induction false} RunAppend(job: Job, w: World, a: seq<Move>, b: seq<Move>)
    requires Legal(job, w, a) && Legal(job, Run(job, w, a), b)
    ensures Legal(job, w, a + b) && Run(job, w, a + b) == Run(job, Run(job, w, a), b)
    decreases |a|
  {
    if a == [] {
      assert a + b == b;
    } else {
      assert (a + b)[1..] == a[1..] + b;
      RunAppend(job, Step(job, w, a[0]), a[1..], b);
    }
  }

  /** Some run leads from `w` to `w'`. */
  ghost predicate Leads(job: Job, w: World, w': World) {
    exists moves :: Legal(job, w, moves) && Run(job, w, moves) == w'
  }

  lemma LeadsNowhere(job: Job, w: World)
    ensures Leads(job, w, w)
  {
    var moves: seq<Move> := [];
    assert Legal(job, w, moves) && Run(job, w, moves) == w;
  }

  lemma LeadsThrough(job: Job, a: World, b: World, c: World)
    requires Leads(job, a, b) && Leads(job, b, c)
    ensures Leads(job, a, c)
  {
    var m1 :| Legal(job, a, m1) && Run(job, a, m1) == b;
    var m2 :| Legal(job, b, m2) && Run(job, b, m2) == c;
    RunAppend(job, a, m1, m2);
  }

  lemma LeadsOn(job: Job, w: World, m: Move)
    requires Enabled(job, w, m)
    ensures Leads(job, w, Step(job, w, m))
  {
    var moves := [m];
    assert moves[1..] == [];
    assert Legal(job, Step(job, w, m), moves[1..]);
    assert Legal(job, w, moves) && Run(job, w, moves) == Step(job, w, m);
  }

  lemma LeadsTwice(job: Job, w: World, m1: Move, m2: Move)
    requires Enabled(job, w, m1) && Enabled(job, Step(job, w, m1), m2)
    ensures Leads(job, w, Step(job, Step(job, w, m1), m2))
  {
    LeadsOn(job, w, m1);
    LeadsOn(job, Step(job, w, m1), m2);
    LeadsThrough(job, w, Step(job, w, m1), Step(job, Step(job, w, m1), m2));
  }
}
