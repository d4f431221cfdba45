/** A run in which a slot is skipped (doc/protocol/03-finaldag-consensus.md, sections 8.2 to 10): the
    proposer of a first-round slot signs nothing, everyone else signs in both rounds, and the decider
    emits the skip. */
module SilentProposer {
  import opened Wrappers
  import opened Quorum
  import opened Schedule
  import opened Dag
  import opened Decider
  import opened DeciderAgreement
  import opened DecisionMeaning
  import opened Drainage

  /** All authors but b, in author order. */
  function Others(n: nat, b: nat): seq<Id>
    requires b < n
  {
    seq(n - 1, (i: nat) => if i < b then i else i + 1)
  }

  /** Author a has ID a in round 1 and n + a in round 2, where it references all that exists. */
  function Silence(n: nat, b: nat): Graph
    requires b < n
  {
    map id: nat | id < 2 * n && id != b && id != n + b ::
      if id < n then Vertex(id, 1, None, [], [])
      else Vertex(id - n, 2, Some(id - n), Others(n, b), [])
  }

  lemma OthersAt(n: nat, b: nat)
    requires b < n
    ensures |Others(n, b)| == n - 1
    ensures forall i | 0 <= i < n - 1 :: Others(n, b)[i] == if i < b then i else i + 1
  {
  }

  lemma EnoughOthers(e: Epoch)
    requires e.Valid()
    ensures 0 < e.params.quorum <= e.params.validatorCount - 1
  {
  }

  lemma SecondRoundIsOk(e: Epoch, b: nat, v: Id)
    requires e.Valid() && b < e.params.validatorCount
    requires v in Silence(e.params.validatorCount, b) && e.params.validatorCount <= v
    ensures VertexOk(e, Silence(e.params.validatorCount, b), v)
  {
    var n, g := e.params.validatorCount, Silence(e.params.validatorCount, b);
    var x := g[v];
    EnoughOthers(e);
    OthersAt(n, b);
    hide Epoch.Valid, Others;
    assert x.strong == Others(n, b);
    assert StrongOk(g, v, e.params.quorum);
    forall i | 0 <= i < |x.Parents()|
      ensures x.Parents()[i] in g && g[x.Parents()[i]].round == 1
    {
      assert x.Parents()[i] == if i == 0 then v - n else x.strong[i - 1];
    }
  }

  lemma SilenceIsWellFormed(e: Epoch, b: nat)
    requires e.Valid() && b < e.params.validatorCount
    ensures WellFormed(e, Silence(e.params.validatorCount, b))
    ensures NodeView(e, Silence(e.params.validatorCount, b), {}, Silence(e.params.validatorCount, b))
  {
    var n, g := e.params.validatorCount, Silence(e.params.validatorCount, b);
    forall v | v in g
      ensures VertexOk(e, g, v)
    {
      if n <= v {
        SecondRoundIsOk(e, b, v);
      }
    }
  }

  /** Nobody has the silent author below it. */
  lemma NobodySawIt(e: Epoch, s: Slot, a: nat)
    requires e.Valid() && e.IsSlot(s) && s.round == 1 && e.proposer(s) < e.params.validatorCount
    requires a < e.params.validatorCount && a != e.proposer(s)
    requires WellFormed(e, Silence(e.params.validatorCount, e.proposer(s)))
    ensures var n, g := e.params.validatorCount, Silence(e.params.validatorCount, e.proposer(s));
      n + a in g && g[n + a].author == a && g[n + a].round == 2 && SawNothing(e, g, n + a, s)
  {
    hide WellFormed, Past, VertexOk, Epoch.Valid;
    var n, g := e.params.validatorCount, Silence(e.params.validatorCount, e.proposer(s));
    forall p | p in Past(e, g, n + a) && p != n + a
      ensures g[p].author != e.proposer(s)
    {
      assert g[p].author != e.proposer(s);
    }
  }

  lemma ManySaidNothing(e: Epoch, s: Slot)
    requires e.Valid() && e.IsSlot(s) && s.round == 1 && e.proposer(s) < e.params.validatorCount
    requires WellFormed(e, Silence(e.params.validatorCount, e.proposer(s)))
    ensures var g := Silence(e.params.validatorCount, e.proposer(s)); ManySawNothing(e, g, s) && Complete(e, g, 2)
  {
    hide WellFormed, SawNothing, Silence;
    var n, b := e.params.validatorCount, e.proposer(s);
    var g := Silence(n, b);
    var unaware := UnawareAuthors(e, g, s);
    forall a | a in Below(n) - {b}
      ensures a in unaware && a in RoundAuthors(g, 2)
    {
      NobodySawIt(e, s, a);
    }
    assert |Below(n) - {b}| == n - 1;
    SubsetSize(Below(n) - {b}, unaware);
    SubsetSize(Below(n) - {b}, RoundAuthors(g, 2));
  }

  lemma SilentAuthors(n: nat, b: nat)
    requires b < n
    ensures forall v | v in Silence(n, b) :: Silence(n, b)[v].author != b && Silence(n, b)[v].round <= 2
  {
  }

  /** The slot of a proposer that signs nothing is output as skipped once two rounds are complete, and
      it is all that is output when the round has no other slot. */
  lemma SilentProposerIsSkipped(e: Epoch, s: Slot) returns (g: Graph)
    requires e.Valid() && e.IsSlot(s) && s.round == 1
    ensures NodeView(e, g, {}, g) && Complete(e, g, 2)
    ensures forall v | v in g :: g[v].author != e.proposer(s)
    ensures DecidedPrefix(e, g, 2, s) != [] && DecidedPrefix(e, g, 2, s)[0] == (s, Skip)
    ensures e.slotsPerRound == 1 ==> DecidedPrefix(e, g, 2, s) == [(s, Skip)]
  {
    hide Silence, VertexOk, DecisionOf, ManySawNothing, Complete;
    assert e.proposer(s) == e.ScheduledProposer(s);
    g := Silence(e.params.validatorCount, e.proposer(s));
    SilentAuthors(e.params.validatorCount, e.proposer(s));
    SilenceIsWellFormed(e, e.proposer(s));
    ManySaidNothing(e, s);
    UnseenSlotIsSkipped(e, g, 2, s);
    if e.slotsPerRound == 1 {
      NothingAboveRoundTwo(e, g, Slot(2, 0));
    }
  }

  lemma NothingAboveRoundTwo(e: Epoch, g: Graph, s: Slot)
    requires WellFormed(e, g) && e.IsSlot(s) && s.round == 2
    requires forall v | v in g :: g[v].round <= 2
    ensures DecisionOf(e, g, 2, s).Undecided?
  {
    EnoughOthers(e);
    hide WellFormed, Past, SupportedProposal;
    assert UnawareAuthors(e, g, s) == {};
    forall p
      ensures !ManyShowSupport(e, g, s, p)
    {
      assert ShowingAuthors(e, g, s, p) == {};
    }
    NoAnchorLeavesOpen(e, g, 2, s);
  }
}
