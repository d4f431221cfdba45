/** The three-round fast path (doc/protocol/03-finaldag-consensus.md, sections 8.1, 14.2 and 14.3): an
    honest proposal that q authors reference in time is directly committed. */
module FastPath {
  import opened Wrappers
  import opened Quorum
  import opened Schedule
  import opened Dag
  import opened Certificates
  import opened Decider
  import opened DeciderAgreement
  import opened Drainage

  /** An honest author's proposal is the only vertex of its slot, so whoever has it in its past
      supports it. */
  lemma HonestProposalIsSupported(e: Epoch, g: Graph, byzantine: set<nat>, s: Slot, p: Id, b: Id)
    requires WellFormed(e, g) && FaultBound(e, g, byzantine) && e.IsSlot(s)
    requires p in g && InSlot(e, g, p, s) && e.proposer(s) !in byzantine
    requires b in g && p in Past(e, g, b) && g[b].round > s.round
    ensures SupportedProposal(e, g, b, s) == Some(p)
  {
    NoSupportMeansNoProposalBelow(e, g, b, s);
  }

  /** Authors of the strong parents of c that have p in their past. */
  function ReferencingAuthors(e: Epoch, g: Graph, c: Id, p: Id): set<nat>
    requires WellFormed(e, g) && c in g && g[c].round > 1
  {
    assert VertexOk(e, g, c);
    set i | 0 <= i < |g[c].strong| && p in Past(e, g, g[c].strong[i]) :: g[g[c].strong[i]].author
  }

  lemma ReferencingAuthor(e: Epoch, g: Graph, c: Id, p: Id, i: nat)
    requires WellFormed(e, g) && c in g && g[c].round > 1 && i < |g[c].strong| && g[c].strong[i] in g
    requires p in Past(e, g, g[c].strong[i])
    ensures g[g[c].strong[i]].author in ReferencingAuthors(e, g, c, p)
  {
    hide WellFormed, Past;
  }

  /** The decision-round vertex c shows q references to p. */
  predicate ShowsReferences(e: Epoch, g: Graph, s: Slot, p: Id, c: Id)
    requires WellFormed(e, g) && c in g
  {
    g[c].round == s.round + 2 && g[c].round > 1 && |ReferencingAuthors(e, g, c, p)| >= e.params.quorum
  }

  lemma ReferencesCertify(e: Epoch, g: Graph, byzantine: set<nat>, s: Slot, p: Id, c: Id)
    requires WellFormed(e, g) && FaultBound(e, g, byzantine) && e.IsSlot(s)
    requires p in g && InSlot(e, g, p, s) && e.proposer(s) !in byzantine
    requires c in g && ShowsReferences(e, g, s, p, c)
    ensures Certifies(e, g, c, s, p)
  {
    assert VertexOk(e, g, c);
    forall a | a in ReferencingAuthors(e, g, c, p)
      ensures a in SupportAuthors(e, g, c, s, p)
    {
      var i :| 0 <= i < |g[c].strong| && p in Past(e, g, g[c].strong[i]) && g[g[c].strong[i]].author == a;
      HonestProposalIsSupported(e, g, byzantine, s, p, g[c].strong[i]);
    }
    SubsetSize(ReferencingAuthors(e, g, c, p), SupportAuthors(e, g, c, s, p));
  }

  function TimelyAuthors(e: Epoch, g: Graph, s: Slot, p: Id): set<nat>
    requires WellFormed(e, g)
  {
    set c | c in g && ShowsReferences(e, g, s, p, c) :: g[c].author
  }

  /** Vertices of q authors in the decision round, each with q strong parents that have seen the
      honest proposal, commit it directly. Only references are counted here, no support. */
  lemma TimelyHonestProposalCommits(e: Epoch, g: Graph, byzantine: set<nat>, s: Slot, p: Id)
    requires WellFormed(e, g) && FaultBound(e, g, byzantine) && e.IsSlot(s)
    requires p in g && InSlot(e, g, p, s) && e.proposer(s) !in byzantine
    requires |TimelyAuthors(e, g, s, p)| >= e.params.quorum
    ensures DirectCommit(e, g, s, p)
  {
    forall a | a in TimelyAuthors(e, g, s, p)
      ensures a in CertifierAuthors(e, g, s, p)
    {
      var c :| c in g && ShowsReferences(e, g, s, p, c) && g[c].author == a;
      ReferencesCertify(e, g, byzantine, s, p, c);
    }
    hide ShowsReferences, Certifies, VertexOk;
    SubsetSize(TimelyAuthors(e, g, s, p), CertifierAuthors(e, g, s, p));
  }

  /** In the view, the honest primary of the round was proposed and referenced in time. */
  ghost predicate TimelyPrimary(e: Epoch, l: Graph, round: nat)
    requires WellFormed(e, l) && 1 <= round
  {
    exists p | p in l :: InSlot(e, l, p, Slot(round, 0)) && |TimelyAuthors(e, l, Slot(round, 0), p)| >= e.params.quorum
  }

  /** Once every honest primary from some round on is referenced in time, no slot stays undecided
      beyond its horizon: the safety and the combinatorial half of the liveness argument together. */
  lemma TimelyPrimariesDecideEverything(e: Epoch, g: Graph, byzantine: set<nat>, l: Graph, h: nat, s: Slot, good: nat)
    requires NodeView(e, g, byzantine, l)
    requires forall k: nat | 1 <= k && good <= k && k + 2 <= h && HonestPrimary(e, byzantine, k) :: TimelyPrimary(e, l, k)
    requires e.IsSlot(s) && h >= DecisionHorizon(e, s.round, good)
    ensures s.round <= h && !DecisionOf(e, l, h, s).Undecided?
  {
    LocalFaultBound(e, g, byzantine, l);
    forall k | 1 <= k && good <= k && k + 2 <= h && HonestPrimary(e, byzantine, k)
      ensures PrimaryCommitted(e, l, k)
    {
      assert TimelyPrimary(e, l, k);
      var p :| p in l && InSlot(e, l, p, Slot(k, 0)) && |TimelyAuthors(e, l, Slot(k, 0), p)| >= e.params.quorum;
      TimelyHonestProposalCommits(e, l, byzantine, Slot(k, 0), p);
    }
    hide DecisionOf, PrimaryCommitted, TimelyPrimary;
    DecidedByHorizon(e, g, byzantine, l, h, s, good);
  }
}
