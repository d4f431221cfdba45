/** End to end: from different local views to one total order of vertices
    (doc/protocol/03-finaldag-consensus.md, sections 10, 11 and 15.5). */
module TotalOrder {
  import opened Schedule
  import opened Dag
  import opened Decider
  import opened DeciderAgreement
  import opened Linearisation

  /** The committed proposals of a decision log, in order; skipped slots contribute nothing. */
  function Commits(log: seq<(Slot, Decision)>): seq<Id> {
    if log == [] then []
    else (if log[0].1.Commit? then [log[0].1.proposal] else []) + Commits(log[1..])
  }

  lemma {:induction false} CommitsOfPrefix(log: seq<(Slot, Decision)>, more: seq<(Slot, Decision)>)
    requires log <= more
    ensures Commits(log) <= Commits(more)
  {
    if log != [] {
      CommitsOfPrefix(log[1..], more[1..]);
    }
  }

  lemma {:induction false} CommitsAreHeld(e: Epoch, l: Graph, h: nat, s: Slot)
    requires WellFormed(e, l) && e.IsSlot(s)
    ensures forall p | p in Commits(DecidedPrefix(e, l, h, s)) :: p in l
    decreases Gap(h, s), e.slotsPerRound - s.rank
  {
    hide TryDirectDecide, VertexOk;
    var log := DecidedPrefix(e, l, h, s);
    if log != [] {
      assert log[0] == (s, DecisionOf(e, l, h, s)) && log[1..] == DecidedPrefix(e, l, h, e.Next(s));
      CommitsAreHeld(e, l, h, e.Next(s));
    }
  }

  lemma {:induction false} OutputOfPrefix(e: Epoch, g: Graph, commits: seq<Id>, more: seq<Id>)
    requires WellFormed(e, g) && commits <= more && forall p | p in more :: p in g
    ensures Output(e, g, commits) <= Output(e, g, more)
    decreases |more| - |commits|
  {
    if commits != more {
      var longer := more[..|commits| + 1];
      assert longer[..|commits|] == commits;
      OutputOfPrefix(e, g, longer, more);
    }
  }

  /** What a node has output after its last decider call. */
  function Stream(e: Epoch, calls: seq<Call>): seq<Id>
    requires e.Valid() && calls != [] && forall i | 0 <= i < |calls| :: WellFormed(e, calls[i].view)
    requires forall p | p in Commits(EmittedLog(e, calls)) :: p in calls[|calls| - 1].view
  {
    Output(e, calls[|calls| - 1].view, Commits(EmittedLog(e, calls)))
  }

  lemma LogCommitsAreHeld(e: Epoch, g: Graph, byzantine: set<nat>, calls: seq<Call>)
    requires e.Valid() && Run(e, g, byzantine, calls) && calls != []
    ensures forall p | p in Commits(EmittedLog(e, calls)) :: p in calls[|calls| - 1].view
  {
    IncrementalLogIsFromScratch(e, g, byzantine, calls);
    var last := calls[|calls| - 1];
    CommitsAreHeld(e, last.view, last.highest, Slot(1, 0));
  }

  /** The k-th entry of the log, if it is a commit, is the next one emitted after the commits before it;
      a skip adds none. */
  lemma {:induction false} CommitsKeepLogOrder(log: seq<(Slot, Decision)>, k: nat)
    requires k < |log|
    ensures var at := |Commits(log[..k])|;
      if log[k].1.Commit? then at < |Commits(log)| && Commits(log)[at] == log[k].1.proposal && |Commits(log[..k + 1])| == at + 1
      else |Commits(log[..k + 1])| == at
    decreases k
  {
    if k == 0 {
      assert log[..1] == [log[0]];
      assert [log[0]][1..] == [];
    } else {
      CommitsKeepLogOrder(log[1..], k - 1);
      assert log[..k][1..] == log[1..][..k - 1] && log[..k + 1][1..] == log[1..][..k];
    }
  }

  ghost predicate Committed(log: seq<(Slot, Decision)>, p: Id) {
    exists k | 0 <= k < |log| :: log[k].1 == Commit(p)
  }

  lemma {:induction false} CommitsComeFromTheLog(log: seq<(Slot, Decision)>, p: Id)
    ensures p in Commits(log) <==> Committed(log, p)
    decreases |log|
  {
    if log != [] {
      CommitsComeFromTheLog(log[1..], p);
      if k :| 0 <= k < |log| && log[k].1 == Commit(p) {
        if k > 0 {
          assert log[1..][k - 1].1 == Commit(p);
        }
      }
      if k :| 0 <= k < |log[1..]| && log[1..][k].1 == Commit(p) {
        assert log[k + 1].1 == Commit(p);
      }
    }
  }

  lemma StreamOfView(e: Epoch, l: Graph, g: Graph, log: seq<(Slot, Decision)>, v: Id)
    requires ViewOf(e, l, g) && forall p | p in Commits(log) :: p in l
    ensures NoDuplicates(Output(e, l, Commits(log)))
    ensures v in Output(e, l, Commits(log)) <==> exists p :: p in g && Committed(log, p) && v in Past(e, g, p)
  {
    var commits := Commits(log);
    OutputEmitsEachVertexOnce(e, l, commits);
    EmittedIsUnionOfPasts(e, l, commits, v);
    hide WellFormed, Past, Commits, Output, EmittedBy, VertexOk, Committed;
    forall p | p in l
      ensures p in g && Past(e, l, p) == Past(e, g, p)
    {
      ViewPast(e, l, g, p);
    }
    forall p
      ensures p in commits <==> Committed(log, p)
    {
      CommitsComeFromTheLog(log, p);
    }
  }

  /** The stream holds the causal pasts of what the log committed, each vertex once, and nothing else. */
  lemma StreamIsTheCommittedPasts(e: Epoch, g: Graph, byzantine: set<nat>, calls: seq<Call>, v: Id)
    requires e.Valid() && Run(e, g, byzantine, calls) && calls != []
    ensures WellFormed(e, g) && forall p | p in Commits(EmittedLog(e, calls)) :: p in calls[|calls| - 1].view
    ensures NoDuplicates(Stream(e, calls))
    ensures v in Stream(e, calls) <==> exists p :: p in g && Committed(EmittedLog(e, calls), p) && v in Past(e, g, p)
  {
    LogCommitsAreHeld(e, g, byzantine, calls);
    assert NodeView(e, g, byzantine, calls[|calls| - 1].view);
    hide WellFormed, Past, EmittedLog, Commits, Output, VertexOk, Committed;
    StreamOfView(e, calls[|calls| - 1].view, g, EmittedLog(e, calls), v);
  }

  /** Total order: at any time the vertex stream of one node is a prefix of the other's, whatever
      each has received, in what order, and however its decider calls were interleaved. */
  lemma StreamsAreComparable(e: Epoch, g: Graph, byzantine: set<nat>, mine: seq<Call>, theirs: seq<Call>)
    requires e.Valid() && Run(e, g, byzantine, mine) && Run(e, g, byzantine, theirs)
    requires mine != [] && theirs != []
    ensures forall p | p in Commits(EmittedLog(e, mine)) :: p in mine[|mine| - 1].view
    ensures forall p | p in Commits(EmittedLog(e, theirs)) :: p in theirs[|theirs| - 1].view
    ensures Stream(e, mine) <= Stream(e, theirs) || Stream(e, theirs) <= Stream(e, mine)
  {
    LogCommitsAreHeld(e, g, byzantine, mine);
    LogCommitsAreHeld(e, g, byzantine, theirs);
    LogsAreComparable(e, g, byzantine, mine, theirs);
    var m, t := Commits(EmittedLog(e, mine)), Commits(EmittedLog(e, theirs));
    OutputIsViewIndependent(e, mine[|mine| - 1].view, g, m);
    OutputIsViewIndependent(e, theirs[|theirs| - 1].view, g, t);
    if EmittedLog(e, mine) <= EmittedLog(e, theirs) {
      CommitsOfPrefix(EmittedLog(e, mine), EmittedLog(e, theirs));
      OutputOfPrefix(e, g, m, t);
    } else {
      CommitsOfPrefix(EmittedLog(e, theirs), EmittedLog(e, mine));
      OutputOfPrefix(e, g, t, m);
    }
  }
}
