/** What the decision of a slot means on the DAG itself (doc/protocol/03-finaldag-consensus.md,
    sections 6 to 10): which vertices must exist, and below which anchor, for a slot to be skipped,
    committed or left open. Nothing here is said in terms of the decider's own branches. */
module DecisionMeaning {
  import opened Wrappers
  import opened Schedule
  import opened Dag
  import opened Certificates
  import opened Decider
  import opened DeciderAgreement

  // ---------------------------------------------------------------- patterns on the DAG

  /** v lies in the round after s, and below it there is no vertex of the slot's proposer in the
      slot's round. */
  ghost predicate SawNothing(e: Epoch, g: Graph, v: Id, s: Slot)
    requires WellFormed(e, g)
  {
    && v in g && g[v].round == s.round + 1
    && forall p | p in Past(e, g, v) && p != v :: !(g[p].round == s.round && g[p].author == e.proposer(s))
  }

  ghost predicate ManySawNothing(e: Epoch, g: Graph, s: Slot)
    requires WellFormed(e, g)
  {
    |UnawareAuthors(e, g, s)| >= e.params.quorum
  }

  ghost function UnawareAuthors(e: Epoch, g: Graph, s: Slot): set<nat>
    requires WellFormed(e, g)
  {
    set v | v in g && SawNothing(e, g, v, s) :: g[v].author
  }

  /** c lies two rounds above s, and strong parents of q authors support p. */
  ghost predicate ShowsSupport(e: Epoch, g: Graph, c: Id, s: Slot, p: Id)
    requires WellFormed(e, g) && e.IsSlot(s)
  {
    && c in g && g[c].round == s.round + 2
    && |set u | u in g[c].strong && u in g && SupportedProposal(e, g, u, s) == Some(p) :: g[u].author| >= e.params.quorum
  }

  ghost predicate ManyShowSupport(e: Epoch, g: Graph, s: Slot, p: Id)
    requires WellFormed(e, g) && e.IsSlot(s)
  {
    |ShowingAuthors(e, g, s, p)| >= e.params.quorum
  }

  ghost function ShowingAuthors(e: Epoch, g: Graph, s: Slot, p: Id): set<nat>
    requires WellFormed(e, g) && e.IsSlot(s)
  {
    set c | c in g && ShowsSupport(e, g, c, s, p) :: g[c].author
  }

  ghost predicate NoDirectPattern(e: Epoch, g: Graph, s: Slot)
    requires WellFormed(e, g) && e.IsSlot(s)
  {
    !ManySawNothing(e, g, s) && forall p :: !ManyShowSupport(e, g, s, p)
  }

  /** Every slot in a round above the bound and before the end is skipped. */
  ghost predicate SkippedUpTo(e: Epoch, l: Graph, h: nat, bound: nat, end: Slot)
    requires WellFormed(e, l)
  {
    forall t | e.IsSlot(t) && bound < t.round <= h && Before(t, end) :: DecisionOf(e, l, h, t) == Skip
  }

  /** No slot is left that could serve as anchor. */
  ghost predicate AllSkipped(e: Epoch, l: Graph, h: nat, bound: nat)
    requires WellFormed(e, l)
  {
    SkippedUpTo(e, l, h, bound, Slot(h + 1, 0))
  }

  /** a is the nearest slot more than two rounds above s, and at most h, that is not skipped. */
  ghost predicate NearestOpenOrCommitted(e: Epoch, l: Graph, h: nat, s: Slot, a: Slot)
    requires WellFormed(e, l)
  {
    && e.IsSlot(a) && s.round + 2 < a.round <= h && DecisionOf(e, l, h, a) != Skip
    && SkippedUpTo(e, l, h, s.round + 2, a)
  }

  /** Below the vertex some certificate of the slot shows support for p. */
  ghost predicate CertifiedBelow(e: Epoch, g: Graph, anchor: Id, s: Slot, p: Id)
    requires WellFormed(e, g) && e.IsSlot(s) && anchor in g
  {
    exists c :: c in Past(e, g, anchor) && ShowsSupport(e, g, c, s, p)
  }

  // ---------------------------------------------------------------- the decider's predicates say the same

  lemma NoSupportIsSawNothing(e: Epoch, g: Graph, v: Id, s: Slot)
    requires WellFormed(e, g) && e.IsSlot(s) && v in g && g[v].round == s.round + 1
    ensures SupportedProposal(e, g, v, s).None? <==> SawNothing(e, g, v, s)
  {
    assert e.Valid();
    hide WellFormed, Past, SupportedProposal, SearchParents, Epoch.Valid;
    NoSupportMeansNoProposalBelow(e, g, v, s);
    assert forall p | p in Past(e, g, v) ::
      InSlot(e, g, p, s) == (g[p].round == s.round && g[p].author == e.proposer(s));
  }

  lemma SkipIsAboutThePast(e: Epoch, g: Graph, s: Slot)
    requires WellFormed(e, g) && e.IsSlot(s)
    ensures DirectSkip(e, g, s) <==> ManySawNothing(e, g, s)
  {
    hide WellFormed, Past, SupportedProposal, VertexOk, Epoch.Valid;
    forall v | v in g && g[v].round == s.round + 1
      ensures SupportedProposal(e, g, v, s).None? <==> SawNothing(e, g, v, s)
    {
      NoSupportIsSawNothing(e, g, v, s);
    }
    hide SawNothing;
    var mine := UnawareAuthors(e, g, s);
    forall a
      ensures a in NoSupportAuthors(e, g, s) <==> a in mine
    {
      SawNothingRound(e, g, s);
    }
    assert NoSupportAuthors(e, g, s) == mine;
  }

  lemma SawNothingRound(e: Epoch, g: Graph, s: Slot)
    requires WellFormed(e, g)
    ensures forall v | SawNothing(e, g, v, s) :: v in g && g[v].round == s.round + 1
  {
    hide WellFormed, Past;
  }

  lemma CertificatesShowSupport(e: Epoch, g: Graph, c: Id, s: Slot, p: Id)
    requires WellFormed(e, g) && e.IsSlot(s) && c in g
    ensures Certifies(e, g, c, s, p) <==> ShowsSupport(e, g, c, s, p)
  {
    if g[c].round == s.round + 2 {
      assert VertexOk(e, g, c);
      hide WellFormed, Past, SupportedProposal;
      var mine := set u | u in g[c].strong && u in g && SupportedProposal(e, g, u, s) == Some(p) :: g[u].author;
      assert SupportAuthors(e, g, c, s, p) == mine;
    }
  }

  lemma CommitIsAboutSupport(e: Epoch, g: Graph, s: Slot, p: Id)
    requires WellFormed(e, g) && e.IsSlot(s)
    ensures DirectCommit(e, g, s, p) <==> ManyShowSupport(e, g, s, p)
  {
    forall c | c in g
      ensures Certifies(e, g, c, s, p) <==> ShowsSupport(e, g, c, s, p)
    {
      CertificatesShowSupport(e, g, c, s, p);
    }
    hide WellFormed, Certifies, ShowsSupport;
    assert CertifierAuthors(e, g, s, p) == ShowingAuthors(e, g, s, p);
  }

  // ---------------------------------------------------------------- direct decisions

  /** When vertices of q authors in the next round have no vertex of the slot below them, the slot is
      skipped. */
  lemma UnseenSlotIsSkipped(e: Epoch, l: Graph, h: nat, s: Slot)
    requires WellFormed(e, l) && e.IsSlot(s) && s.round <= h
    requires ManySawNothing(e, l, s)
    ensures DecisionOf(e, l, h, s) == Skip
  {
    hide WellFormed, Past, DirectSkip, ManySawNothing, DecisionOf;
    SkipIsAboutThePast(e, l, s);
    DirectDecisionIsFinal(e, l, h, s);
  }

  /** When vertices of q authors two rounds above each show q supporters of p, p is committed. */
  lemma SupportedSlotIsCommitted(e: Epoch, g: Graph, byzantine: set<nat>, l: Graph, h: nat, s: Slot, p: Id)
    requires NodeView(e, g, byzantine, l) && e.IsSlot(s) && s.round <= h
    requires ManyShowSupport(e, l, s, p)
    ensures DecisionOf(e, l, h, s) == Commit(p)
  {
    hide WellFormed, DirectCommit, ManyShowSupport, TryDirectDecide, DecisionOf;
    CommitIsAboutSupport(e, l, s, p);
    DirectCommitIsReturned(e, g, byzantine, l, s, p);
    DirectDecisionIsFinal(e, l, h, s);
  }

  lemma NoPatternNoDirectDecision(e: Epoch, l: Graph, s: Slot)
    requires WellFormed(e, l) && e.IsSlot(s)
    requires NoDirectPattern(e, l, s)
    ensures TryDirectDecide(e, l, s).Undecided?
  {
    SkipIsAboutThePast(e, l, s);
    forall p
      ensures !DirectCommit(e, l, s, p)
    {
      CommitIsAboutSupport(e, l, s, p);
    }
    hide WellFormed, DirectCommit, ManyShowSupport, DirectSkip, ManySawNothing;
    assert CommittedProposals(e, l, s) == {};
  }

  // ---------------------------------------------------------------- indirect decisions

  /** What the anchor found says, and nothing else. */
  lemma IndirectIs(e: Epoch, l: Graph, h: nat, s: Slot)
    requires WellFormed(e, l) && e.IsSlot(s) && s.round <= h && TryDirectDecide(e, l, s).Undecided?
    ensures var anchor := FirstAnchorAfter(Sequence(e, l, h, e.Next(s)), s.round + 2);
      && (anchor.None? || anchor.value.final.Undecided? ==> DecisionOf(e, l, h, s).Undecided?)
      && (anchor.Some? && !anchor.value.final.Undecided? ==>
          && anchor.value.final.Commit? && anchor.value.final.proposal in l
          && DecisionOf(e, l, h, s) == FromCandidates(CertifiedCandidates(e, l, anchor.value.final.proposal, s)))
  {
    hide WellFormed, VertexOk, TryDirectDecide, CertifiedCandidates, FirstAnchorAfter;
  }

  /** Without either pattern, and without a slot to serve as anchor, the slot stays open. */
  lemma NoAnchorLeavesOpen(e: Epoch, l: Graph, h: nat, s: Slot)
    requires WellFormed(e, l) && e.IsSlot(s) && s.round <= h
    requires NoDirectPattern(e, l, s)
    requires AllSkipped(e, l, h, s.round + 2)
    ensures DecisionOf(e, l, h, s).Undecided?
  {
    hide VertexOk, RecordOf, NoDirectPattern, AllSkipped, TryDirectDecide, DecisionOf, Sequence, FirstAnchorAfter;
    NoPatternNoDirectDecision(e, l, s);
    NoAnchorFound(e, l, h, e.Next(s), s.round + 2);
    IndirectIs(e, l, h, s);
  }

  lemma SkippedAt(e: Epoch, l: Graph, h: nat, bound: nat, end: Slot, t: Slot)
    requires WellFormed(e, l) && SkippedUpTo(e, l, h, bound, end)
    requires e.IsSlot(t) && bound < t.round <= h && Before(t, end)
    ensures DecisionOf(e, l, h, t) == Skip
  {
  }

  lemma SequenceHead(e: Epoch, l: Graph, h: nat, s: Slot)
    requires WellFormed(e, l) && e.IsSlot(s) && s.round <= h
    ensures var records := Sequence(e, l, h, s);
      records != [] && records[0] == RecordOf(e, l, h, s) && records[1..] == Sequence(e, l, h, e.Next(s))
  {
    hide RecordOf;
    SequenceStep(e, l, h, s);
  }

  lemma {:induction false} NoAnchorFound(e: Epoch, l: Graph, h: nat, s: Slot, bound: nat)
    requires WellFormed(e, l) && e.IsSlot(s) && AllSkipped(e, l, h, bound)
    ensures FirstAnchorAfter(Sequence(e, l, h, s), bound).None?
    decreases Gap(h, s), e.slotsPerRound - s.rank
  {
    hide WellFormed, VertexOk, RecordOf, SkippedUpTo;
    if s.round <= h {
      SequenceHead(e, l, h, s);
      NoAnchorFound(e, l, h, e.Next(s), bound);
      if s.round > bound {
        SkippedAt(e, l, h, bound, Slot(h + 1, 0), s);
      }
    }
  }

  lemma {:induction false} NearestIsFound(e: Epoch, l: Graph, h: nat, s: Slot, bound: nat, a: Slot)
    requires WellFormed(e, l) && e.IsSlot(s) && e.IsSlot(a) && (s == a || Before(s, a))
    requires bound < a.round <= h && Eligible(DecisionOf(e, l, h, a)) && SkippedUpTo(e, l, h, bound, a)
    ensures FirstAnchorAfter(Sequence(e, l, h, s), bound) == Some(RecordOf(e, l, h, a))
    decreases Gap(h, s), e.slotsPerRound - s.rank
  {
    DirectSkipTestIsRedundant(e, l, h, s);
    hide WellFormed, VertexOk, RecordOf, SkippedUpTo, Sequence;
    SequenceHead(e, l, h, s);
    if s != a {
      NearestIsFound(e, l, h, e.Next(s), bound, a);
      if s.round > bound {
        SkippedAt(e, l, h, bound, a, s);
      }
    }
  }

  lemma AnchorOfSlot(e: Epoch, g: Graph, byzantine: set<nat>, l: Graph, h: nat, s: Slot, a: Slot)
    requires NodeView(e, g, byzantine, l) && e.IsSlot(s) && s.round <= h
    requires NearestOpenOrCommitted(e, l, h, s, a)
    ensures FirstAnchorAfter(Sequence(e, l, h, e.Next(s)), s.round + 2) == Some(RecordOf(e, l, h, a))
    ensures DecisionOf(e, l, h, a).Undecided? || DecisionOf(e, l, h, a).Commit?
  {
    NotHalted(e, g, byzantine, l, h, a);
    hide VertexOk, DecisionOf, RecordOf, Sequence, FirstAnchorAfter, SkippedUpTo;
    NearestIsFound(e, l, h, e.Next(s), s.round + 2, a);
  }

  lemma NotHalted(e: Epoch, g: Graph, byzantine: set<nat>, l: Graph, h: nat, a: Slot)
    requires NodeView(e, g, byzantine, l) && e.IsSlot(a) && a.round <= h
    ensures DecisionOf(e, l, h, a) != SafetyHalt
  {
    hide DecisionOf;
    NeverHalts(e, g, byzantine, l, h);
  }

  /** Without either pattern the nearest slot above that is not skipped decides, and no other: while
      it is open the slot is open too. */
  lemma OpenAnchorLeavesOpen(e: Epoch, g: Graph, byzantine: set<nat>, l: Graph, h: nat, s: Slot, a: Slot)
    requires NodeView(e, g, byzantine, l) && e.IsSlot(s) && s.round <= h
    requires NoDirectPattern(e, l, s)
    requires NearestOpenOrCommitted(e, l, h, s, a) && DecisionOf(e, l, h, a).Undecided?
    ensures DecisionOf(e, l, h, s).Undecided?
  {
    NoPatternNoDirectDecision(e, l, s);
    AnchorOfSlot(e, g, byzantine, l, h, s, a);
    hide VertexOk, RecordOf, Sequence, FirstAnchorAfter, NoDirectPattern, TryDirectDecide;
    IndirectIs(e, l, h, s);
    FinalIs(e, l, h, a);
  }

  lemma FinalIs(e: Epoch, l: Graph, h: nat, a: Slot)
    requires WellFormed(e, l) && e.IsSlot(a) && a.round <= h
    ensures RecordOf(e, l, h, a).final == DecisionOf(e, l, h, a)
    ensures DecisionOf(e, l, h, a).Commit? ==>
      var p := DecisionOf(e, l, h, a).proposal; p in l && l[p].round == a.round && l[p].author == e.proposer(a)
  {
    hide WellFormed, VertexOk;
  }

  lemma CandidatesAreCertified(e: Epoch, l: Graph, anchor: Id, s: Slot, p: Id)
    requires WellFormed(e, l) && e.IsSlot(s) && anchor in l
    ensures p in CertifiedCandidates(e, l, anchor, s) <==> CertifiedBelow(e, l, anchor, s, p)
  {
    hide WellFormed, Past, Certifies, CertifiedCandidates, ShowsSupport;
    if p in CertifiedCandidates(e, l, anchor, s) {
      var c := ACandidateHasACertificate(e, l, anchor, s, p);
      CertificatesShowSupport(e, l, c, s, p);
    }
    if CertifiedBelow(e, l, anchor, s, p) {
      var c :| c in Past(e, l, anchor) && ShowsSupport(e, l, c, s, p);
      CertificatesShowSupport(e, l, c, s, p);
      ACertificateMakesACandidate(e, l, anchor, s, c, p);
    }
  }

  lemma FromCandidatesIs(candidates: set<Id>, p: Id)
    requires |candidates| <= 1
    ensures FromCandidates(candidates) == Commit(p) <==> p in candidates
    ensures FromCandidates(candidates) == Skip <==> candidates == {}
  {
    if |candidates| == 1 {
      var only := Least(candidates);
      assert candidates == {only} by {
        SetOfOne(candidates, only);
      }
    }
  }

  lemma SetOfOne(all: set<Id>, x: Id)
    requires |all| == 1 && x in all
    ensures all == {x}
  {
    var rest := all - {x};
    assert |rest| == 0;
  }

  /** Without either pattern a committed anchor decides by its own past alone: what is certified below
      it is committed, and if nothing is, the slot is skipped. */
  lemma CommittedAnchorDecides(
      e: Epoch, g: Graph, byzantine: set<nat>, l: Graph, h: nat, s: Slot, a: Slot, anchor: Id, p: Id)
    requires NodeView(e, g, byzantine, l) && e.IsSlot(s) && s.round <= h
    requires NoDirectPattern(e, l, s)
    requires NearestOpenOrCommitted(e, l, h, s, a) && DecisionOf(e, l, h, a) == Commit(anchor)
    ensures anchor in l && l[anchor].round == a.round && l[anchor].author == e.proposer(a)
    ensures DecisionOf(e, l, h, s) == Commit(p) <==> CertifiedBelow(e, l, anchor, s, p)
    ensures DecisionOf(e, l, h, s) == Skip <==> forall p' :: !CertifiedBelow(e, l, anchor, s, p')
  {
    NoPatternNoDirectDecision(e, l, s);
    AnchorOfSlot(e, g, byzantine, l, h, s, a);
    LocalFaultBound(e, g, byzantine, l);
    hide VertexOk, RecordOf, Sequence, FirstAnchorAfter, NoDirectPattern, TryDirectDecide,
         FaultBound, CertifiedBelow, CertifiedCandidates, FromCandidates, DecisionOf;
    IndirectIs(e, l, h, s);
    FinalIs(e, l, h, a);
    var candidates := CertifiedCandidates(e, l, anchor, s);
    AtMostOneCandidate(e, l, byzantine, s, anchor);
    FromCandidatesIs(candidates, p);
    forall p'
      ensures p' in candidates <==> CertifiedBelow(e, l, anchor, s, p')
    {
      CandidatesAreCertified(e, l, anchor, s, p');
    }
  }

  // ---------------------------------------------------------------- exactly when

  /** The nearest slot above that is not skipped is committed, and its vertex is `anchor`. */
  ghost predicate CommittedAnchor(e: Epoch, l: Graph, h: nat, s: Slot, a: Slot, anchor: Id)
    requires WellFormed(e, l)
  {
    NearestOpenOrCommitted(e, l, h, s, a) && DecisionOf(e, l, h, a) == Commit(anchor)
  }

  ghost predicate AnchorCertifies(e: Epoch, l: Graph, h: nat, s: Slot, p: Id)
    requires WellFormed(e, l) && e.IsSlot(s)
  {
    exists a, anchor :: anchor in l && CommittedAnchor(e, l, h, s, a, anchor) && CertifiedBelow(e, l, anchor, s, p)
  }

  ghost predicate AnchorCertifiesNothing(e: Epoch, l: Graph, h: nat, s: Slot)
    requires WellFormed(e, l) && e.IsSlot(s)
  {
    exists a, anchor :: anchor in l && CommittedAnchor(e, l, h, s, a, anchor)
      && forall p :: !CertifiedBelow(e, l, anchor, s, p)
  }

  lemma {:induction false} AnchorOrNone(
      e: Epoch, g: Graph, byzantine: set<nat>, l: Graph, h: nat, bound: nat, s: Slot) returns (a: Slot)
    requires NodeView(e, g, byzantine, l) && e.IsSlot(s) && bound < s.round
    requires SkippedUpTo(e, l, h, bound, s)
    ensures e.IsSlot(a) && bound < a.round && SkippedUpTo(e, l, h, bound, a)
    ensures a.round <= h ==> DecisionOf(e, l, h, a) != Skip
    decreases Gap(h, s), e.slotsPerRound - s.rank
  {
    hide WellFormed, VertexOk, DecisionOf;
    a := s;
    if s.round <= h && DecisionOf(e, l, h, s) == Skip {
      a := AnchorOrNone(e, g, byzantine, l, h, bound, e.Next(s));
    }
  }

  lemma OneNearest(e: Epoch, l: Graph, h: nat, s: Slot, a: Slot, b: Slot)
    requires WellFormed(e, l) && NearestOpenOrCommitted(e, l, h, s, a) && NearestOpenOrCommitted(e, l, h, s, b)
    ensures a == b
  {
    hide WellFormed, DecisionOf, SkippedUpTo;
    if Before(a, b) {
      SkippedAt(e, l, h, s.round + 2, b, a);
    } else if Before(b, a) {
      SkippedAt(e, l, h, s.round + 2, a, b);
    }
  }

  /** What the decision of any slot of any view is, and why: both patterns and the anchor, and nothing
      else. */
  lemma DecisionIsExact(e: Epoch, g: Graph, byzantine: set<nat>, l: Graph, h: nat, s: Slot, p: Id)
    requires NodeView(e, g, byzantine, l) && e.IsSlot(s) && s.round <= h
    ensures DecisionOf(e, l, h, s) == Skip <==>
      ManySawNothing(e, l, s) || (NoDirectPattern(e, l, s) && AnchorCertifiesNothing(e, l, h, s))
    ensures DecisionOf(e, l, h, s) == Commit(p) <==>
      ManyShowSupport(e, l, s, p) || (NoDirectPattern(e, l, s) && AnchorCertifies(e, l, h, s, p))
  {
    hide WellFormed, VertexOk, FaultBound, DecisionOf, ManySawNothing, ManyShowSupport, NearestOpenOrCommitted, CertifiedBelow;
    if ManySawNothing(e, l, s) {
      UnseenSlotIsSkipped(e, l, h, s);
    }
    if p' :| ManyShowSupport(e, l, s, p') {
      SupportedSlotIsCommitted(e, g, byzantine, l, h, s, p');
      if ManyShowSupport(e, l, s, p) {
        SupportedSlotIsCommitted(e, g, byzantine, l, h, s, p);
      }
    }
    if NoDirectPattern(e, l, s) {
      AnchorIsExact(e, g, byzantine, l, h, s, p);
    }
  }

  lemma AnchorIsExact(e: Epoch, g: Graph, byzantine: set<nat>, l: Graph, h: nat, s: Slot, p: Id)
    requires NodeView(e, g, byzantine, l) && e.IsSlot(s) && s.round <= h && NoDirectPattern(e, l, s)
    ensures DecisionOf(e, l, h, s) == Skip <==> AnchorCertifiesNothing(e, l, h, s)
    ensures DecisionOf(e, l, h, s) == Commit(p) <==> AnchorCertifies(e, l, h, s, p)
  {
    hide VertexOk, FaultBound, DecisionOf, NoDirectPattern, CertifiedBelow;
    var a := AnchorOrNone(e, g, byzantine, l, h, s.round + 2, Slot(s.round + 3, 0));
    if a.round > h {
      NoAnchorLeavesOpen(e, l, h, s);
      forall b, anchor
        ensures !CommittedAnchor(e, l, h, s, b, anchor)
      {
      }
    } else {
      hide AllSkipped, SkippedUpTo;
      assert NearestOpenOrCommitted(e, l, h, s, a);
      hide NearestOpenOrCommitted;
      forall b | NearestOpenOrCommitted(e, l, h, s, b)
        ensures b == a
      {
        OneNearest(e, l, h, s, a, b);
      }
      AnchorOfSlot(e, g, byzantine, l, h, s, a);
      var d := DecisionOf(e, l, h, a);
      if d.Undecided? {
        OpenAnchorLeavesOpen(e, g, byzantine, l, h, s, a);
      } else {
        CommittedAnchorDecides(e, g, byzantine, l, h, s, a, d.proposal, p);
        assert CommittedAnchor(e, l, h, s, a, d.proposal);
      }
    }
  }

  // ---------------------------------------------------------------- what is emitted

  /** The emitted prefix is the decisions of consecutive slots, the first one included, up to the last
      before an open slot or the highest round. */
  lemma {:induction false} PrefixIsConsecutive(e: Epoch, l: Graph, h: nat, s: Slot, k: nat) returns (t: Slot)
    requires WellFormed(e, l) && e.IsSlot(s) && k <= |DecidedPrefix(e, l, h, s)|
    ensures e.IsSlot(t)
    ensures k == 0 ==> t == s
    ensures k > 0 ==> t == (var u := DecidedPrefix(e, l, h, s)[k - 1].0; if e.IsSlot(u) then e.Next(u) else u)
    ensures k < |DecidedPrefix(e, l, h, s)| ==>
      t.round <= h && !DecisionOf(e, l, h, t).Undecided? && DecidedPrefix(e, l, h, s)[k] == (t, DecisionOf(e, l, h, t))
    ensures k == |DecidedPrefix(e, l, h, s)| ==> t.round > h || DecisionOf(e, l, h, t).Undecided?
    decreases k
  {
    hide DecisionOf;
    if k == 0 {
      t := s;
    } else {
      t := PrefixIsConsecutive(e, l, h, e.Next(s), k - 1);
    }
  }
}
