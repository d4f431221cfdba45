/** Runs that meet the assumptions of the consensus results (doc/protocol/03-finaldag-consensus.md,
    sections 4, 8.1 and 14): for every valid epoch a DAG of any number of rounds in which everyone
    references everyone, and the same with a proposer that equivocates. */
module LockstepRuns {
  import opened Wrappers
  import opened Quorum
  import opened Schedule
  import opened Dag
  import opened Certificates
  import opened Decider
  import opened DeciderAgreement
  import opened Drainage
  import opened FastPath

  /** Every valid tuple and every number of slots has a valid epoch. */
  lemma EveryTupleHasAnEpoch(params: Parameters, slotsPerRound: nat) returns (e: Epoch)
    requires params.Valid() && 1 <= slotsPerRound <= params.quorum
    ensures e.Valid() && e.params == params && e.slotsPerRound == slotsPerRound
  {
    var n := params.validatorCount;
    var permutation: nat -> seq<nat> := (cycle: nat) => seq(n, i => i);
    var proposer: Slot -> nat := (s: Slot) => if s.round < 1 then 0 else Entry(OffsetOf(s.round, n), s.rank, n);
    e := Epoch(params, slotsPerRound, permutation, proposer);
  }

  // ---------------------------------------------------------------- rounds in lockstep

  /** The number of vertices in the first rounds; round r holds the IDs from Base(n, r - 1) on. */
  function Base(n: nat, rounds: nat): nat {
    if rounds == 0 then 0 else Base(n, rounds - 1) + n
  }

  lemma {:induction false} BaseGrows(n: nat, a: nat, b: nat)
    requires a <= b
    ensures Base(n, a) <= Base(n, b)
    decreases b
  {
    if a < b {
      BaseGrows(n, a, b - 1);
    }
  }

  function VertexAt(n: nat, round: nat, author: nat): Vertex
    requires 1 <= round
  {
    if round == 1 then Vertex(author, 1, None, [], [])
    else Vertex(author, round, Some(Base(n, round - 2) + author), seq(n, (i: nat) => Base(n, round - 2) + i), [])
  }

  function Layer(n: nat, round: nat): Graph
    requires 1 <= round
  {
    map id: nat | Base(n, round - 1) <= id < Base(n, round - 1) + n :: LayerVertex(n, round, id)
  }

  function LayerVertex(n: nat, round: nat, id: Id): Vertex
    requires 1 <= round && Base(n, round - 1) <= id
  {
    VertexAt(n, round, id - Base(n, round - 1))
  }

  function Lockstep(n: nat, rounds: nat): Graph {
    if rounds == 0 then map[] else Lockstep(n, rounds - 1) + Layer(n, rounds)
  }

  function IdOf(n: nat, round: nat, author: nat): Id
    requires 1 <= round
  {
    Base(n, round - 1) + author
  }

  lemma {:induction false} LockstepAt(n: nat, rounds: nat, round: nat, author: nat)
    requires 1 <= round <= rounds && author < n
    ensures IdOf(n, round, author) in Lockstep(n, rounds) && IdOf(n, round, author) < Base(n, rounds)
    ensures Lockstep(n, rounds)[IdOf(n, round, author)] == VertexAt(n, round, author)
    decreases rounds
  {
    hide VertexAt;
    if round < rounds {
      LockstepAt(n, rounds - 1, round, author);
    }
  }

  lemma {:induction false} LockstepOnly(n: nat, rounds: nat, id: Id) returns (round: nat, author: nat)
    requires id in Lockstep(n, rounds)
    ensures 1 <= round <= rounds && author < n && id == IdOf(n, round, author)
    ensures Lockstep(n, rounds)[id] == VertexAt(n, round, author)
    decreases rounds
  {
    hide VertexAt;
    if id in Layer(n, rounds) {
      round, author := rounds, id - Base(n, rounds - 1);
    } else {
      round, author := LockstepOnly(n, rounds - 1, id);
    }
  }

  /** The whole round is there. */
  predicate FullRound(g: Graph, n: nat, round: nat)
    requires 1 <= round
  {
    forall a: nat | a < n :: Present(g, n, round, a)
  }

  predicate Present(g: Graph, n: nat, round: nat, author: nat)
    requires 1 <= round
  {
    var id := IdOf(n, round, author);
    id in g && g[id].author == author && g[id].round == round
  }

  lemma VertexAtIsOk(e: Epoch, g: Graph, round: nat, author: nat)
    requires e.Valid() && 1 <= round && author < e.params.validatorCount
    requires IdOf(e.params.validatorCount, round, author) in g
    requires g[IdOf(e.params.validatorCount, round, author)] == VertexAt(e.params.validatorCount, round, author)
    requires round > 1 ==> FullRound(g, e.params.validatorCount, round - 1)
    ensures VertexOk(e, g, IdOf(e.params.validatorCount, round, author))
  {
    var n, v := e.params.validatorCount, IdOf(e.params.validatorCount, round, author);
    if round > 1 {
      ParentsArePresent(e, g, round - 1, author, v);
    }
  }

  lemma ParentsArePresent(e: Epoch, g: Graph, previous: nat, author: nat, v: Id)
    requires e.Valid() && 1 <= previous && author < e.params.validatorCount
    requires v in g && g[v] == VertexAt(e.params.validatorCount, previous + 1, author)
    requires FullRound(g, e.params.validatorCount, previous)
    ensures ParentsBelow(g, v) && StrongOk(g, v, e.params.quorum)
    ensures g[v].own.value in g && g[g[v].own.value].author == author
  {
    var n, x := e.params.validatorCount, g[v];
    forall i: nat | i < n
      ensures x.strong[i] in g && g[x.strong[i]].author == i && g[x.strong[i]].round == previous
    {
      assert Present(g, n, previous, i);
    }
    assert Present(g, n, previous, author);
    forall i | 0 <= i < |x.Parents()|
      ensures x.Parents()[i] in g && g[x.Parents()[i]].round < x.round
    {
      assert x.Parents()[i] == if i == 0 then x.own.value else x.strong[i - 1];
    }
  }

  lemma LockstepIsFull(n: nat, rounds: nat, round: nat)
    requires 1 <= round <= rounds
    ensures FullRound(Lockstep(n, rounds), n, round)
  {
    forall a: nat | a < n
      ensures Present(Lockstep(n, rounds), n, round, a)
    {
      LockstepAt(n, rounds, round, a);
    }
  }

  lemma LockstepIsWellFormed(e: Epoch, rounds: nat)
    requires e.Valid()
    ensures WellFormed(e, Lockstep(e.params.validatorCount, rounds))
    ensures FaultBound(e, Lockstep(e.params.validatorCount, rounds), {})
  {
    var n, g := e.params.validatorCount, Lockstep(e.params.validatorCount, rounds);
    forall v | v in g
      ensures VertexOk(e, g, v)
    {
      hide Lockstep, VertexOk, FullRound;
      var round, author := LockstepOnly(n, rounds, v);
      if round > 1 {
        LockstepIsFull(n, rounds, round - 1);
      }
      VertexAtIsOk(e, g, round, author);
    }
    forall v, w | v in g && w in g && g[v].author == g[w].author && g[v].round == g[w].round
      ensures v == w
    {
      hide Lockstep, VertexOk, IdOf;
      var round, author := LockstepOnly(n, rounds, v);
      var round', author' := LockstepOnly(n, rounds, w);
    }
  }

  lemma LockstepReferences(e: Epoch, rounds: nat, k: nat, a: nat, b: nat)
    requires e.Valid() && WellFormed(e, Lockstep(e.params.validatorCount, rounds))
    requires 1 <= k < rounds && a < e.params.validatorCount && b < e.params.validatorCount
    ensures var n, g := e.params.validatorCount, Lockstep(e.params.validatorCount, rounds);
      IdOf(n, k, a) in g && IdOf(n, k + 1, b) in g && IdOf(n, k, a) in Past(e, g, IdOf(n, k + 1, b))
  {
    hide Lockstep, VertexOk;
    var n, g := e.params.validatorCount, Lockstep(e.params.validatorCount, rounds);
    LockstepAt(n, rounds, k, a);
    LockstepAt(n, rounds, k + 1, b);
    assert g[IdOf(n, k + 1, b)].strong[a] == IdOf(n, k, a);
    StrongParentInPast(e, g, IdOf(n, k + 1, b), a);
  }

  lemma LockstepStrong(n: nat, rounds: nat, k: nat, a: nat, b: nat)
    requires 1 <= k < rounds && a < n && b < n
    ensures IdOf(n, k + 1, b) in Lockstep(n, rounds)
    ensures var x := Lockstep(n, rounds)[IdOf(n, k + 1, b)];
      && x.author == b && x.round == k + 1 && |x.strong| == n && x.strong[a] == IdOf(n, k, a)
    ensures IdOf(n, k, a) in Lockstep(n, rounds) && Lockstep(n, rounds)[IdOf(n, k, a)].author == a
  {
    hide Lockstep;
    LockstepAt(n, rounds, k, a);
    LockstepAt(n, rounds, k + 1, b);
  }

  lemma LockstepReferencing(e: Epoch, rounds: nat, k: nat, proposer: nat, a: nat, author: nat)
    requires e.Valid() && WellFormed(e, Lockstep(e.params.validatorCount, rounds)) && 1 <= k && k + 2 <= rounds
    requires proposer < e.params.validatorCount && a < e.params.validatorCount && author < e.params.validatorCount
    ensures var n, g := e.params.validatorCount, Lockstep(e.params.validatorCount, rounds);
      && IdOf(n, k + 2, author) in g && g[IdOf(n, k + 2, author)].round == k + 2
      && a in ReferencingAuthors(e, g, IdOf(n, k + 2, author), IdOf(n, k, proposer))
  {
    hide Lockstep, WellFormed, Past, IdOf, VertexAt, ReferencingAuthors;
    var n, g := e.params.validatorCount, Lockstep(e.params.validatorCount, rounds);
    LockstepStrong(n, rounds, k + 1, a, author);
    LockstepReferences(e, rounds, k, proposer, a);
    ReferencingAuthor(e, g, IdOf(n, k + 2, author), IdOf(n, k, proposer), a);
  }

  lemma QuorumFits(e: Epoch)
    requires e.Valid()
    ensures e.params.quorum <= e.params.validatorCount
  {
  }

  lemma LockstepAllReference(e: Epoch, rounds: nat, k: nat, proposer: nat, author: nat)
    requires e.Valid() && WellFormed(e, Lockstep(e.params.validatorCount, rounds)) && 1 <= k && k + 2 <= rounds
    requires proposer < e.params.validatorCount && author < e.params.validatorCount
    ensures var n, g := e.params.validatorCount, Lockstep(e.params.validatorCount, rounds);
      && IdOf(n, k + 2, author) in g && g[IdOf(n, k + 2, author)].round == k + 2
      && g[IdOf(n, k + 2, author)].author == author
      && |ReferencingAuthors(e, g, IdOf(n, k + 2, author), IdOf(n, k, proposer))| >= n
  {
    hide Lockstep, WellFormed, IdOf, VertexAt, ReferencingAuthors, Epoch.Valid;
    var n: nat := e.params.validatorCount;
    var g, p, c := Lockstep(n, rounds), IdOf(n, k, proposer), IdOf(n, k + 2, author);
    LockstepStrong(n, rounds, k + 1, author, author);
    var all := ReferencingAuthors(e, g, c, p);
    forall a | a in Below(n)
      ensures a in all
    {
      LockstepReferencing(e, rounds, k, proposer, a, author);
    }
    SubsetSize(Below(n), all);
  }

  lemma LockstepShows(e: Epoch, rounds: nat, s: Slot, proposer: nat, author: nat)
    requires e.Valid() && WellFormed(e, Lockstep(e.params.validatorCount, rounds))
    requires 1 <= s.round && s.round + 2 <= rounds
    requires proposer < e.params.validatorCount && author < e.params.validatorCount
    ensures var n, g := e.params.validatorCount, Lockstep(e.params.validatorCount, rounds);
      && IdOf(n, s.round + 2, author) in g && g[IdOf(n, s.round + 2, author)].author == author
      && ShowsReferences(e, g, s, IdOf(n, s.round, proposer), IdOf(n, s.round + 2, author))
  {
    hide Lockstep, WellFormed, IdOf, VertexAt, ReferencingAuthors, Epoch.Valid;
    QuorumFits(e);
    LockstepAllReference(e, rounds, s.round, proposer, author);
  }

  lemma LockstepIsTimely(e: Epoch, rounds: nat, s: Slot, proposer: nat)
    requires e.Valid() && WellFormed(e, Lockstep(e.params.validatorCount, rounds))
    requires 1 <= s.round && s.round + 2 <= rounds && proposer < e.params.validatorCount
    ensures |TimelyAuthors(e, Lockstep(e.params.validatorCount, rounds), s,
                           IdOf(e.params.validatorCount, s.round, proposer))| >= e.params.quorum
  {
    hide Lockstep, WellFormed, ShowsReferences, IdOf;
    var n, g := e.params.validatorCount, Lockstep(e.params.validatorCount, rounds);
    forall a | a in Below(n)
      ensures a in TimelyAuthors(e, g, s, IdOf(n, s.round, proposer))
    {
      LockstepShows(e, rounds, s, proposer, a);
    }
    SubsetSize(Below(n), TimelyAuthors(e, g, s, IdOf(n, s.round, proposer)));
  }

  lemma LockstepIsComplete(e: Epoch, rounds: nat)
    requires e.Valid() && 1 <= rounds
    ensures Complete(e, Lockstep(e.params.validatorCount, rounds), rounds)
  {
    hide Lockstep, IdOf;
    var n, g := e.params.validatorCount, Lockstep(e.params.validatorCount, rounds);
    forall a | a in Below(n)
      ensures a in RoundAuthors(g, rounds)
    {
      LockstepAt(n, rounds, rounds, a);
    }
    SubsetSize(Below(n), RoundAuthors(g, rounds));
  }

  lemma LockstepProposal(e: Epoch, rounds: nat, s: Slot)
    requires e.Valid() && e.IsSlot(s) && s.round <= rounds
    ensures e.proposer(s) < e.params.validatorCount
    ensures var g, p := Lockstep(e.params.validatorCount, rounds), IdOf(e.params.validatorCount, s.round, e.proposer(s));
      p in g && InSlot(e, g, p, s)
  {
    assert e.proposer(s) == e.ScheduledProposer(s);
    LockstepAt(e.params.validatorCount, rounds, s.round, e.proposer(s));
  }

  /** In it every slot is committed as soon as two more rounds are complete. */
  lemma LockstepCommits(e: Epoch, rounds: nat, s: Slot) returns (g: Graph, p: Id)
    requires e.Valid() && e.IsSlot(s) && s.round + 2 <= rounds
    ensures NodeView(e, g, {}, g) && Complete(e, g, rounds) && p in g && InSlot(e, g, p, s)
    ensures DecisionOf(e, g, rounds, s) == Commit(p)
  {
    hide Lockstep, VertexOk, TimelyAuthors, Complete, TryDirectDecide, DirectCommit, InSlot, IdOf;
    g, p := Lockstep(e.params.validatorCount, rounds), IdOf(e.params.validatorCount, s.round, e.proposer(s));
    LockstepIsWellFormed(e, rounds);
    LockstepProposal(e, rounds, s);
    LockstepIsTimely(e, rounds, s, e.proposer(s));
    LockstepIsComplete(e, rounds);
    TimelyHonestProposalCommits(e, g, {}, s, p);
    DirectCommitIsReturned(e, g, {}, g, s, p);
    DirectDecisionIsFinal(e, g, rounds, s);
  }

  /** It meets every premise of the horizon theorem and of the drainage theorem, for any set of f
      authors that is distrusted and any number of rounds. */
  lemma LockstepMeetsTheHorizonPremises(e: Epoch, byzantine: set<nat>, rounds: nat) returns (g: Graph)
    requires e.Valid() && |byzantine| <= e.params.maxByzantine && 1 <= rounds
    ensures NodeView(e, g, byzantine, g) && Complete(e, g, rounds)
    ensures forall k: nat | 1 <= k && k + 2 <= rounds :: TimelyPrimary(e, g, k) && PrimaryCommitted(e, g, k)
  {
    hide Lockstep, VertexOk, Complete, DirectCommit, IdOf;
    g := Lockstep(e.params.validatorCount, rounds);
    LockstepIsWellFormed(e, rounds);
    LockstepIsComplete(e, rounds);
    forall k: nat | 1 <= k && k + 2 <= rounds
      ensures TimelyPrimary(e, g, k) && PrimaryCommitted(e, g, k)
    {
      hide TimelyAuthors;
      var s := Slot(k, 0);
      LockstepProposal(e, rounds, s);
      LockstepIsTimely(e, rounds, s, e.proposer(s));
      TimelyHonestProposalCommits(e, g, {}, s, IdOf(e.params.validatorCount, k, e.proposer(s)));
    }
  }

  // ---------------------------------------------------------------- an equivocating proposer

  /** The twin of author b's first vertex, with an ID of its own. */
  function TwinId(n: nat, rounds: nat): Id {
    Base(n, rounds)
  }

  function EquivocatorAt(n: nat, b: nat, twin: Id): Vertex {
    Vertex(b, 2, Some(twin), seq(n, (i: nat) => if i == b then twin else IdOf(n, 1, i)), [])
  }

  /** Lockstep rounds in which b has signed two first vertices and builds on the twin itself, while
      everyone else references the other one. */
  function Equivocation(n: nat, rounds: nat, b: nat): Graph {
    var twin := TwinId(n, rounds);
    Lockstep(n, rounds)
      [twin := Vertex(b, 1, None, [], [])]
      [IdOf(n, 2, b) := EquivocatorAt(n, b, twin)]
  }

  lemma EquivocationAt(n: nat, rounds: nat, b: nat, round: nat, author: nat)
    requires 1 <= round <= rounds && 3 <= rounds && author < n && b < n
    ensures var g, id := Equivocation(n, rounds, b), IdOf(n, round, author);
      && id in g && g[id].author == author && g[id].round == round && id != TwinId(n, rounds)
      && (id != IdOf(n, 2, b) ==> g[id] == VertexAt(n, round, author))
      && (id == IdOf(n, 2, b) ==> round == 2 && author == b)
  {
    hide Lockstep;
    LockstepAt(n, rounds, round, author);
    LockstepAt(n, rounds, 2, b);
    IdsDiffer(n, round, author, 2, b);
  }

  lemma IdsDiffer(n: nat, round: nat, author: nat, round': nat, author': nat)
    requires 1 <= round && 1 <= round' && author < n && author' < n
    ensures IdOf(n, round, author) == IdOf(n, round', author') ==> round == round' && author == author'
  {
    if round < round' {
      BaseGrows(n, round, round' - 1);
    } else if round' < round {
      BaseGrows(n, round', round - 1);
    }
  }

  lemma EquivocationOnly(n: nat, rounds: nat, b: nat, id: Id) returns (round: nat, author: nat)
    requires 3 <= rounds && b < n && id in Equivocation(n, rounds, b) && id != TwinId(n, rounds)
    ensures 1 <= round <= rounds && author < n && id == IdOf(n, round, author)
  {
    hide Lockstep;
    LockstepAt(n, rounds, 2, b);
    round, author := LockstepOnly(n, rounds, id);
  }

  lemma EquivocationIsFull(n: nat, rounds: nat, b: nat, round: nat)
    requires 1 <= round <= rounds && 3 <= rounds && b < n
    ensures FullRound(Equivocation(n, rounds, b), n, round)
  {
    hide Equivocation;
    forall a: nat | a < n
      ensures Present(Equivocation(n, rounds, b), n, round, a)
    {
      EquivocationAt(n, rounds, b, round, a);
    }
  }

  lemma EquivocationIsOk(e: Epoch, rounds: nat, b: nat, round: nat, author: nat)
    requires e.Valid() && 3 <= rounds && b < e.params.validatorCount
    requires 1 <= round <= rounds && author < e.params.validatorCount
    ensures var n, g := e.params.validatorCount, Equivocation(e.params.validatorCount, rounds, b);
      IdOf(n, round, author) in g && VertexOk(e, g, IdOf(n, round, author))
  {
    hide Equivocation, VertexOk, IdOf, FullRound;
    var n, g := e.params.validatorCount, Equivocation(e.params.validatorCount, rounds, b);
    EquivocationAt(n, rounds, b, round, author);
    if round > 1 {
      EquivocationIsFull(n, rounds, b, round - 1);
    }
    if IdOf(n, round, author) != IdOf(n, 2, b) {
      VertexAtIsOk(e, g, round, author);
    } else {
      TwinVertex(n, rounds, b);
      EquivocatorVertex(n, rounds, b);
      EquivocatorIsOk(e, g, b, TwinId(n, rounds));
    }
  }

  lemma EquivocatorVertex(n: nat, rounds: nat, b: nat)
    requires 3 <= rounds && b < n
    ensures IdOf(n, 2, b) in Equivocation(n, rounds, b)
    ensures Equivocation(n, rounds, b)[IdOf(n, 2, b)] == EquivocatorAt(n, b, TwinId(n, rounds))
  {
  }

  lemma EquivocatorIsOk(e: Epoch, g: Graph, b: nat, twin: Id)
    requires e.Valid() && b < e.params.validatorCount && twin in g && g[twin] == Vertex(b, 1, None, [], [])
    requires IdOf(e.params.validatorCount, 2, b) in g && FullRound(g, e.params.validatorCount, 1)
    requires g[IdOf(e.params.validatorCount, 2, b)] == EquivocatorAt(e.params.validatorCount, b, twin)
    ensures VertexOk(e, g, IdOf(e.params.validatorCount, 2, b))
  {
    var n, y := e.params.validatorCount, IdOf(e.params.validatorCount, 2, b);
    var x := g[y];
    hide IdOf;
    forall i: nat | i < n
      ensures x.strong[i] in g && g[x.strong[i]].author == i && g[x.strong[i]].round == 1
    {
      assert Present(g, n, 1, i);
    }
    forall i | 0 <= i < |x.Parents()|
      ensures x.Parents()[i] in g && g[x.Parents()[i]].round < 2
    {
      assert x.Parents()[i] == if i == 0 then twin else x.strong[i - 1];
    }
  }

  lemma EquivocationIsWellFormed(e: Epoch, rounds: nat, b: nat)
    requires e.Valid() && 3 <= rounds && b < e.params.validatorCount
    ensures WellFormed(e, Equivocation(e.params.validatorCount, rounds, b))
    ensures FaultBound(e, Equivocation(e.params.validatorCount, rounds, b), {b})
  {
    var n, g, twin := e.params.validatorCount, Equivocation(e.params.validatorCount, rounds, b), TwinId(e.params.validatorCount, rounds);
    TwinVertex(n, rounds, b);
    hide Equivocation, TwinId;
    forall v | v in g
      ensures VertexOk(e, g, v)
    {
      if v != twin {
        hide VertexOk, IdOf;
        var round, author := EquivocationOnly(n, rounds, b, v);
        EquivocationIsOk(e, rounds, b, round, author);
      }
    }
    forall v, w | v in g && w in g && g[v].author == g[w].author && g[v].round == g[w].round && g[v].author !in {b}
      ensures v == w
    {
      hide VertexOk;
      var round, author := EquivocationOnly(n, rounds, b, v);
      var round', author' := EquivocationOnly(n, rounds, b, w);
      EquivocationAt(n, rounds, b, round, author);
      EquivocationAt(n, rounds, b, round', author');
    }
  }

  lemma TwinVertex(n: nat, rounds: nat, b: nat)
    requires 3 <= rounds && b < n
    ensures TwinId(n, rounds) in Equivocation(n, rounds, b)
    ensures Equivocation(n, rounds, b)[TwinId(n, rounds)] == Vertex(b, 1, None, [], [])
  {
    LockstepAt(n, rounds, 2, b);
  }

  /** The vertex at position `at` is the only proposal of the slot among the parents of v. */
  predicate OnlyProposal(e: Epoch, g: Graph, s: Slot, v: Id, at: nat)
    requires e.Valid() && e.IsSlot(s) && v in g
  {
    var parents := g[v].Parents();
    && at < |parents|
    && (forall i | 0 <= i < |parents| :: parents[i] in g)
    && (forall i | 0 <= i < |parents| :: InSlot(e, g, parents[i], s) ==> parents[i] == parents[at])
    && InSlot(e, g, parents[at], s)
  }

  /** Below a second-round vertex there are only its parents. */
  lemma OnlyParentsBelow(e: Epoch, g: Graph, v: Id, r: Id) returns (i: nat)
    requires WellFormed(e, g) && v in g && g[v].round == 2 && r in Past(e, g, v) && r != v
    ensures i < |g[v].Parents()| && g[v].Parents()[i] == r
  {
    assert VertexOk(e, g, v);
    i :| 0 <= i < |g[v].Parents()| && r in Past(e, g, g[v].Parents()[i]);
    assert VertexOk(e, g, r);
  }

  /** A second-round vertex supports the one proposal of a first-round slot among its parents. */
  lemma SecondRoundSupport(e: Epoch, g: Graph, s: Slot, v: Id, at: nat)
    requires WellFormed(e, g) && e.IsSlot(s) && s.round == 1 && v in g && g[v].round == 2 && OnlyProposal(e, g, s, v, at)
    ensures SupportedProposal(e, g, v, s) == Some(g[v].Parents()[at])
  {
    hide WellFormed, VertexOk, Epoch.Valid;
    var p := g[v].Parents()[at];
    ParentInPast(e, g, v, at);
    hide Past, SupportedProposal;
    NoSupportMeansNoProposalBelow(e, g, v, s);
    var r := SupportedProposal(e, g, v, s).value;
    var i := OnlyParentsBelow(e, g, v, r);
  }

  lemma ParentAt(x: Vertex, i: nat)
    requires x.own.Some? && x.weak == [] && i <= |x.strong|
    ensures |x.Parents()| == 1 + |x.strong|
    ensures x.Parents()[i] == if i == 0 then x.own.value else x.strong[i - 1]
  {
  }

  /** What the parents of an honest author's second vertex are. */
  lemma HonestParents(n: nat, rounds: nat, b: nat, a: nat, i: nat)
    requires 3 <= rounds && a < n && b < n && a != b && i <= n
    ensures var g, v, u := Equivocation(n, rounds, b), IdOf(n, 2, a), if i == 0 then a else i - 1;
      && v in g && g[v].round == 2 && |g[v].Parents()| == n + 1
      && g[v].Parents()[i] == IdOf(n, 1, u) && IdOf(n, 1, u) in g
      && g[IdOf(n, 1, u)].author == u && g[IdOf(n, 1, u)].round == 1
  {
    EquivocationAt(n, rounds, b, 2, a);
    EquivocationAt(n, rounds, b, 1, if i == 0 then a else i - 1);
    hide Equivocation;
    IdsDiffer(n, 2, a, 2, b);
    var g, v := Equivocation(n, rounds, b), IdOf(n, 2, a);
    assert g[v] == VertexAt(n, 2, a);
    ParentAt(g[v], i);
  }

  /** What those of the equivocator's second vertex are. */
  lemma EquivocatorParents(n: nat, rounds: nat, b: nat, i: nat)
    requires 3 <= rounds && b < n && i <= n
    ensures var g, v, twin := Equivocation(n, rounds, b), IdOf(n, 2, b), TwinId(n, rounds);
      && v in g && g[v].round == 2 && |g[v].Parents()| == n + 1 && twin in g && g[twin] == Vertex(b, 1, None, [], [])
      && if i == 0 || i - 1 == b then g[v].Parents()[i] == twin
         else g[v].Parents()[i] == IdOf(n, 1, i - 1) && IdOf(n, 1, i - 1) in g && g[IdOf(n, 1, i - 1)].author == i - 1
  {
    TwinVertex(n, rounds, b);
    EquivocatorVertex(n, rounds, b);
    if i > 0 {
      EquivocationAt(n, rounds, b, 1, i - 1);
    }
    hide Equivocation, TwinId;
    ParentAt(Equivocation(n, rounds, b)[IdOf(n, 2, b)], i);
  }

  lemma HonestSupportInEquivocation(e: Epoch, rounds: nat, s: Slot, a: nat)
    requires e.Valid() && 3 <= rounds && e.IsSlot(s) && s.round == 1
    requires e.proposer(s) < e.params.validatorCount && a < e.params.validatorCount && a != e.proposer(s)
    requires WellFormed(e, Equivocation(e.params.validatorCount, rounds, e.proposer(s)))
    ensures var n, g := e.params.validatorCount, Equivocation(e.params.validatorCount, rounds, e.proposer(s));
      && IdOf(n, 2, a) in g
      && SupportedProposal(e, g, IdOf(n, 2, a), s) == Some(IdOf(n, 1, e.proposer(s)))
  {
    hide Equivocation, WellFormed, SupportedProposal, IdOf, Epoch.Valid;
    var n: nat, b := e.params.validatorCount, e.proposer(s);
    var g, v := Equivocation(n, rounds, b), IdOf(n, 2, a);
    HonestParents(n, rounds, b, a, b + 1);
    forall i | 0 <= i < |g[v].Parents()|
      ensures g[v].Parents()[i] in g && (InSlot(e, g, g[v].Parents()[i], s) ==> g[v].Parents()[i] == g[v].Parents()[b + 1])
    {
      HonestParents(n, rounds, b, a, i);
    }
    SecondRoundSupport(e, g, s, v, b + 1);
  }

  lemma TwinSupportInEquivocation(e: Epoch, rounds: nat, s: Slot)
    requires e.Valid() && 3 <= rounds && e.IsSlot(s) && s.round == 1 && e.proposer(s) < e.params.validatorCount
    requires WellFormed(e, Equivocation(e.params.validatorCount, rounds, e.proposer(s)))
    ensures var n, g := e.params.validatorCount, Equivocation(e.params.validatorCount, rounds, e.proposer(s));
      && IdOf(n, 2, e.proposer(s)) in g
      && SupportedProposal(e, g, IdOf(n, 2, e.proposer(s)), s) == Some(TwinId(n, rounds))
  {
    hide Equivocation, WellFormed, SupportedProposal, IdOf, TwinId, Epoch.Valid;
    var n: nat, b := e.params.validatorCount, e.proposer(s);
    var g, v := Equivocation(n, rounds, b), IdOf(n, 2, b);
    EquivocatorParents(n, rounds, b, 0);
    forall i | 0 <= i < |g[v].Parents()|
      ensures g[v].Parents()[i] in g && (InSlot(e, g, g[v].Parents()[i], s) ==> g[v].Parents()[i] == g[v].Parents()[0])
    {
      EquivocatorParents(n, rounds, b, i);
    }
    SecondRoundSupport(e, g, s, v, 0);
  }

  lemma SupportAuthor(e: Epoch, g: Graph, c: Id, s: Slot, p: Id, i: nat)
    requires WellFormed(e, g) && e.IsSlot(s) && c in g && g[c].round == s.round + 2
    requires i < |g[c].strong| && g[c].strong[i] in g && SupportedProposal(e, g, g[c].strong[i], s) == Some(p)
    ensures g[g[c].strong[i]].author in SupportAuthors(e, g, c, s, p)
  {
    hide WellFormed, SupportedProposal;
  }

  lemma ThirdRoundStrong(n: nat, rounds: nat, b: nat, author: nat, a: nat)
    requires 3 <= rounds && author < n && a < n && b < n
    ensures var g, c := Equivocation(n, rounds, b), IdOf(n, 3, author);
      && c in g && g[c].author == author && g[c].round == 3 && |g[c].strong| == n
      && g[c].strong[a] == IdOf(n, 2, a) && IdOf(n, 2, a) in g && g[IdOf(n, 2, a)].author == a
  {
    EquivocationAt(n, rounds, b, 3, author);
    EquivocationAt(n, rounds, b, 2, a);
    hide Equivocation;
    IdsDiffer(n, 3, author, 2, b);
    assert Equivocation(n, rounds, b)[IdOf(n, 3, author)] == VertexAt(n, 3, author);
  }

  lemma EquivocationCertifies(e: Epoch, rounds: nat, s: Slot, author: nat)
    requires e.Valid() && 3 <= rounds && e.IsSlot(s) && s.round == 1
    requires e.proposer(s) < e.params.validatorCount && author < e.params.validatorCount
    requires WellFormed(e, Equivocation(e.params.validatorCount, rounds, e.proposer(s)))
    ensures var n, g := e.params.validatorCount, Equivocation(e.params.validatorCount, rounds, e.proposer(s));
      && IdOf(n, 3, author) in g && g[IdOf(n, 3, author)].author == author
      && Certifies(e, g, IdOf(n, 3, author), s, IdOf(n, 1, e.proposer(s)))
  {
    hide Equivocation, WellFormed, SupportedProposal, IdOf, SupportAuthors;
    var n, b := e.params.validatorCount, e.proposer(s);
    var g, c, p := Equivocation(n, rounds, b), IdOf(n, 3, author), IdOf(n, 1, b);
    ThirdRoundStrong(n, rounds, b, author, author);
    forall a | a in Below(n) - {b}
      ensures a in SupportAuthors(e, g, c, s, p)
    {
      ThirdRoundStrong(n, rounds, b, author, a);
      HonestSupportInEquivocation(e, rounds, s, a);
      SupportAuthor(e, g, c, s, p, a);
    }
    SubsetSize(Below(n) - {b}, SupportAuthors(e, g, c, s, p));
    assert |Below(n) - {b}| == n - 1;
  }

  /** A proposer signs two vertices for its slot and both find support, yet one of them, and only that
      one, is committed: the safety results speak of DAGs with equivocation too. */
  lemma EquivocatingProposerCommits(e: Epoch, rounds: nat, s: Slot) returns (g: Graph, p: Id, twin: Id)
    requires e.Valid() && 3 <= rounds && e.IsSlot(s) && s.round == 1
    ensures NodeView(e, g, {e.proposer(s)}, g) && p in g && twin in g && p != twin
    ensures InSlot(e, g, p, s) && InSlot(e, g, twin, s)
    ensures exists v, w | v in g && w in g ::
      SupportedProposal(e, g, v, s) == Some(p) && SupportedProposal(e, g, w, s) == Some(twin)
    ensures DecisionOf(e, g, rounds, s) == Commit(p)
  {
    var n, b := e.params.validatorCount, e.proposer(s);
    assert b == e.ScheduledProposer(s);
    g, p, twin := Equivocation(n, rounds, b), IdOf(n, 1, b), TwinId(n, rounds);
    EquivocationIsWellFormed(e, rounds, b);
    TwinVertex(n, rounds, b);
    EquivocationAt(n, rounds, b, 1, b);
    hide Equivocation, VertexOk, TwinId, IdOf, SupportedProposal, Certifies, TryDirectDecide;
    var a := if b == 0 then 1 else 0;
    HonestSupportInEquivocation(e, rounds, s, a);
    TwinSupportInEquivocation(e, rounds, s);
    EquivocationIsCommitted(e, rounds, s);
    DirectCommitIsReturned(e, g, {b}, g, s, p);
    DirectDecisionIsFinal(e, g, rounds, s);
  }

  lemma EquivocationIsCommitted(e: Epoch, rounds: nat, s: Slot)
    requires e.Valid() && 3 <= rounds && e.IsSlot(s) && s.round == 1 && e.proposer(s) < e.params.validatorCount
    requires WellFormed(e, Equivocation(e.params.validatorCount, rounds, e.proposer(s)))
    ensures DirectCommit(e, Equivocation(e.params.validatorCount, rounds, e.proposer(s)), s,
                         IdOf(e.params.validatorCount, 1, e.proposer(s)))
  {
    hide Equivocation, IdOf, Certifies, WellFormed;
    var n, b := e.params.validatorCount, e.proposer(s);
    var g, p := Equivocation(n, rounds, b), IdOf(n, 1, b);
    forall a | a in Below(n)
      ensures a in CertifierAuthors(e, g, s, p)
    {
      EquivocationCertifies(e, rounds, s, a);
    }
    SubsetSize(Below(n), CertifierAuthors(e, g, s, p));
  }
}
