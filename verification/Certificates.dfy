/** Certificate patterns and the direct decision predicates
    (doc/protocol/03-finaldag-consensus.md, sections 7, 8 and 9.3). */
module Certificates {
  import opened Wrappers
  import opened Quorum
  import opened Schedule
  import opened Dag

  /** Authors of the strong parents of c that support proposal p of slot s. */
  function SupportAuthors(e: Epoch, g: Graph, c: Id, s: Slot, p: Id): set<nat>
    requires WellFormed(e, g) && e.IsSlot(s) && c in g && g[c].round == s.round + 2
  {
    assert VertexOk(e, g, c);
    set i | 0 <= i < |g[c].strong| && SupportedProposal(e, g, g[c].strong[i], s) == Some(p)
      :: g[g[c].strong[i]].author
  }

  /** c, in the decision round, shows q supporters of p among its strong parents. */
  predicate Certifies(e: Epoch, g: Graph, c: Id, s: Slot, p: Id)
    requires WellFormed(e, g) && e.IsSlot(s) && c in g
  {
    g[c].round == s.round + 2 && |SupportAuthors(e, g, c, s, p)| >= e.params.quorum
  }

  function CertifierAuthors(e: Epoch, g: Graph, s: Slot, p: Id): set<nat>
    requires WellFormed(e, g) && e.IsSlot(s)
  {
    set c | c in g && Certifies(e, g, c, s, p) :: g[c].author
  }

  predicate DirectCommit(e: Epoch, g: Graph, s: Slot, p: Id)
    requires WellFormed(e, g) && e.IsSlot(s)
  {
    |CertifierAuthors(e, g, s, p)| >= e.params.quorum
  }

  function NoSupportAuthors(e: Epoch, g: Graph, s: Slot): set<nat>
    requires WellFormed(e, g) && e.IsSlot(s)
  {
    set v | v in g && g[v].round == s.round + 1 && SupportedProposal(e, g, v, s).None? :: g[v].author
  }

  predicate DirectSkip(e: Epoch, g: Graph, s: Slot)
    requires WellFormed(e, g) && e.IsSlot(s)
  {
    |NoSupportAuthors(e, g, s)| >= e.params.quorum
  }

  /** Some vertex of the anchor's causal past certifies p. */
  predicate CertifiedLink(e: Epoch, g: Graph, anchor: Id, s: Slot, p: Id)
    requires WellFormed(e, g) && e.IsSlot(s) && anchor in g
  {
    exists c | c in Past(e, g, anchor) :: Certifies(e, g, c, s, p)
  }

  function CertifiedCandidates(e: Epoch, g: Graph, anchor: Id, s: Slot): set<Id>
    requires WellFormed(e, g) && e.IsSlot(s) && anchor in g
  {
    set p | p in Past(e, g, anchor) && InSlot(e, g, p, s) && CertifiedLink(e, g, anchor, s, p)
  }

  // ---------------------------------------------------------------- quorum arguments on authors

  lemma Supporter(e: Epoch, g: Graph, c: Id, s: Slot, p: Id, author: nat) returns (v: Id)
    requires WellFormed(e, g) && e.IsSlot(s) && c in g && g[c].round == s.round + 2
    requires author in SupportAuthors(e, g, c, s, p)
    ensures v in g && v in Past(e, g, c)
    ensures g[v].author == author && g[v].round == s.round + 1
    ensures SupportedProposal(e, g, v, s) == Some(p)
  {
    assert VertexOk(e, g, c);
    var i :| 0 <= i < |g[c].strong| && SupportedProposal(e, g, g[c].strong[i], s) == Some(p)
          && g[g[c].strong[i]].author == author;
    v := g[c].strong[i];
    StrongParentInPast(e, g, c, i);
  }

  lemma AuthorsAreValidators(e: Epoch, g: Graph, c: Id, s: Slot, p: Id)
    requires WellFormed(e, g) && e.IsSlot(s)
    ensures c in g && g[c].round == s.round + 2 ==> SupportAuthors(e, g, c, s, p) <= Validators(e.params)
    ensures CertifierAuthors(e, g, s, p) <= Validators(e.params)
    ensures NoSupportAuthors(e, g, s) <= Validators(e.params)
  {
    if c in g && g[c].round == s.round + 2 {
      forall a | a in SupportAuthors(e, g, c, s, p)
        ensures a in Validators(e.params)
      {
        var v := Supporter(e, g, c, s, p, a);
        assert VertexOk(e, g, v);
      }
    }
    forall v | v in g
      ensures g[v].author in Validators(e.params)
    {
      assert VertexOk(e, g, v);
    }
  }

  /** Two certificates of one slot certify the same proposal: equivocation cannot win twice. */
  lemma CertificateIsUnique(e: Epoch, g: Graph, byzantine: set<nat>, s: Slot, c: Id, p: Id, d: Id, p': Id)
    requires WellFormed(e, g) && FaultBound(e, g, byzantine) && e.IsSlot(s)
    requires c in g && d in g && Certifies(e, g, c, s, p) && Certifies(e, g, d, s, p')
    ensures p == p'
  {
    AuthorsAreValidators(e, g, c, s, p);
    AuthorsAreValidators(e, g, d, s, p');
    var h := QuorumsShareAnHonestMember(e.params,
      SupportAuthors(e, g, c, s, p), SupportAuthors(e, g, d, s, p'), byzantine);
    var v := Supporter(e, g, c, s, p, h);
    var w := Supporter(e, g, d, s, p', h);
    assert v == w;
  }

  /** A directly skipped slot has no certificate anywhere, in no view and in no past. */
  lemma SkipExcludesCertificate(e: Epoch, g: Graph, byzantine: set<nat>, s: Slot, c: Id, p: Id)
    requires WellFormed(e, g) && FaultBound(e, g, byzantine) && e.IsSlot(s)
    requires DirectSkip(e, g, s) && c in g
    ensures !Certifies(e, g, c, s, p)
  {
    if Certifies(e, g, c, s, p) {
      AuthorsAreValidators(e, g, c, s, p);
      var h := QuorumsShareAnHonestMember(e.params,
        SupportAuthors(e, g, c, s, p), NoSupportAuthors(e, g, s), byzantine);
      var v := Supporter(e, g, c, s, p, h);
      // the honest v would also have to be the one that supports nothing
      assert false;
    }
  }

  lemma CertificateShowsProposal(e: Epoch, g: Graph, s: Slot, c: Id, p: Id)
    requires WellFormed(e, g) && e.IsSlot(s) && c in g && Certifies(e, g, c, s, p)
    ensures p in Past(e, g, c) && InSlot(e, g, p, s)
  {
    var a :| a in SupportAuthors(e, g, c, s, p);
    var v := Supporter(e, g, c, s, p, a);
    PastIsClosed(e, g, c, v);
  }

  lemma ACertifier(e: Epoch, g: Graph, s: Slot, p: Id, author: nat) returns (c: Id)
    requires WellFormed(e, g) && e.IsSlot(s) && author in CertifierAuthors(e, g, s, p)
    ensures c in g && Certifies(e, g, c, s, p) && g[c].author == author
  {
    c :| c in g && Certifies(e, g, c, s, p) && g[c].author == author;
  }

  /** Direct commit and direct skip of one slot exclude each other, and so do two direct commits. */
  lemma DirectDecisionsAgree(e: Epoch, g: Graph, byzantine: set<nat>, s: Slot, p: Id, p': Id)
    requires WellFormed(e, g) && FaultBound(e, g, byzantine) && e.IsSlot(s)
    requires DirectCommit(e, g, s, p)
    ensures !DirectSkip(e, g, s)
    ensures DirectCommit(e, g, s, p') ==> p == p'
    ensures p in g && InSlot(e, g, p, s)
  {
    var a :| a in CertifierAuthors(e, g, s, p);
    var c := ACertifier(e, g, s, p, a);
    CertificateShowsProposal(e, g, s, c, p);
    if DirectSkip(e, g, s) {
      SkipExcludesCertificate(e, g, byzantine, s, c, p);
    }
    if DirectCommit(e, g, s, p') {
      var b :| b in CertifierAuthors(e, g, s, p');
      var d := ACertifier(e, g, s, p', b);
      CertificateIsUnique(e, g, byzantine, s, c, p, d, p');
    }
  }

  // ---------------------------------------------------------------- a direct commit is never lost

  function StrongAuthors(g: Graph, v: Id, k: nat): set<nat>
    requires v in g && k <= |g[v].strong|
    requires forall i | 0 <= i < |g[v].strong| :: g[v].strong[i] in g
  {
    set i | 0 <= i < k :: g[g[v].strong[i]].author
  }

  lemma {:induction false} StrongAuthorsAreDistinct(g: Graph, v: Id, k: nat)
    requires v in g && k <= |g[v].strong|
    requires forall i | 0 <= i < |g[v].strong| :: g[v].strong[i] in g
    requires forall i, j | 0 <= i < j < |g[v].strong| :: g[g[v].strong[i]].author < g[g[v].strong[j]].author
    ensures |StrongAuthors(g, v, k)| == k
  {
    if k > 0 {
      StrongAuthorsAreDistinct(g, v, k - 1);
      var last := g[g[v].strong[k - 1]].author;
      assert last !in StrongAuthors(g, v, k - 1);
      assert StrongAuthors(g, v, k) == StrongAuthors(g, v, k - 1) + {last};
    }
  }

  /** From round r+3 on, every vertex has one of the q certificates in its past. */
  lemma {:induction false} DirectCommitIsBelowEveryLaterVertex(
      e: Epoch, g: Graph, byzantine: set<nat>, s: Slot, p: Id, a: Id) returns (c: Id)
    requires WellFormed(e, g) && FaultBound(e, g, byzantine) && e.IsSlot(s)
    requires DirectCommit(e, g, s, p) && a in g && g[a].round >= s.round + 3
    ensures c in Past(e, g, a) && Certifies(e, g, c, s, p)
    decreases g[a].round
  {
    assert VertexOk(e, g, a);
    if g[a].round == s.round + 3 {
      var strong := StrongAuthors(g, a, |g[a].strong|);
      StrongAuthorsAreDistinct(g, a, |g[a].strong|);
      StrongAuthorsAreValidators(e, g, a);
      AuthorsAreValidators(e, g, a, s, p);
      var h := QuorumsShareAnHonestMember(e.params, strong, CertifierAuthors(e, g, s, p), byzantine);
      c := ACertifier(e, g, s, p, h);
      var i :| 0 <= i < |g[a].strong| && g[g[a].strong[i]].author == h;
      StrongParentInPast(e, g, a, i);
      assert g[a].strong[i] == c;
    } else {
      StrongParentInPast(e, g, a, 0);
      c := DirectCommitIsBelowEveryLaterVertex(e, g, byzantine, s, p, g[a].strong[0]);
    }
  }

  lemma StrongAuthorsAreValidators(e: Epoch, g: Graph, a: Id)
    requires WellFormed(e, g) && a in g && g[a].round > 1
    ensures VertexOk(e, g, a)
    ensures StrongAuthors(g, a, |g[a].strong|) <= Validators(e.params)
  {
    assert VertexOk(e, g, a);
    forall i | 0 <= i < |g[a].strong|
      ensures g[g[a].strong[i]].author in Validators(e.params)
    {
      assert VertexOk(e, g, g[a].strong[i]);
    }
  }

  lemma ACandidateHasACertificate(e: Epoch, g: Graph, a: Id, s: Slot, p: Id) returns (c: Id)
    requires WellFormed(e, g) && e.IsSlot(s) && a in g && p in CertifiedCandidates(e, g, a, s)
    ensures c in g && c in Past(e, g, a) && Certifies(e, g, c, s, p)
  {
    hide WellFormed, Certifies;
    c :| c in Past(e, g, a) && Certifies(e, g, c, s, p);
  }

  lemma ACertificateMakesACandidate(e: Epoch, g: Graph, a: Id, s: Slot, c: Id, p: Id)
    requires WellFormed(e, g) && e.IsSlot(s) && a in g && c in Past(e, g, a) && Certifies(e, g, c, s, p)
    ensures p in CertifiedCandidates(e, g, a, s)
  {
    hide Certifies;
    CertificateShowsProposal(e, g, s, c, p);
    PastIsClosed(e, g, a, c);
  }

  /** So whatever anchor is used, the only candidate for a directly committed slot is its proposal. */
  lemma DirectCommitFixesCandidates(e: Epoch, g: Graph, byzantine: set<nat>, s: Slot, p: Id, a: Id)
    requires WellFormed(e, g) && FaultBound(e, g, byzantine) && e.IsSlot(s)
    requires DirectCommit(e, g, s, p) && a in g && g[a].round >= s.round + 3
    ensures CertifiedCandidates(e, g, a, s) == {p}
  {
    hide WellFormed, Past, Certifies, CertifiedCandidates, DirectCommit, FaultBound;
    var c := DirectCommitIsBelowEveryLaterVertex(e, g, byzantine, s, p, a);
    ACertificateMakesACandidate(e, g, a, s, c, p);
    forall p' | p' in CertifiedCandidates(e, g, a, s)
      ensures p' == p
    {
      var d := ACandidateHasACertificate(e, g, a, s, p');
      CertificateIsUnique(e, g, byzantine, s, c, p, d, p');
    }
  }

  lemma DirectSkipLeavesNoCandidate(e: Epoch, g: Graph, byzantine: set<nat>, s: Slot, a: Id)
    requires WellFormed(e, g) && FaultBound(e, g, byzantine) && e.IsSlot(s)
    requires DirectSkip(e, g, s) && a in g
    ensures CertifiedCandidates(e, g, a, s) == {}
  {
    hide WellFormed, Past, Certifies, CertifiedCandidates, DirectSkip, FaultBound;
    if p :| p in CertifiedCandidates(e, g, a, s) {
      var c := ACandidateHasACertificate(e, g, a, s, p);
      SkipExcludesCertificate(e, g, byzantine, s, c, p);
    }
  }

  lemma AtMostOneMember<T>(all: set<T>)
    requires forall x, y | x in all && y in all :: x == y
    ensures |all| <= 1
  {
    if x :| x in all {
      assert all == {x};
    }
  }

  /** Two candidates never arise, whatever the anchor. */
  lemma AtMostOneCandidate(e: Epoch, g: Graph, byzantine: set<nat>, s: Slot, a: Id)
    requires WellFormed(e, g) && FaultBound(e, g, byzantine) && e.IsSlot(s) && a in g
    ensures |CertifiedCandidates(e, g, a, s)| <= 1
    ensures forall p, p' | p in CertifiedCandidates(e, g, a, s) && p' in CertifiedCandidates(e, g, a, s) :: p == p'
  {
    hide WellFormed, Past, Certifies, CertifiedCandidates, FaultBound;
    var all := CertifiedCandidates(e, g, a, s);
    forall p, p' | p in all && p' in all
      ensures p == p'
    {
      var c := ACandidateHasACertificate(e, g, a, s, p);
      var d := ACandidateHasACertificate(e, g, a, s, p');
      CertificateIsUnique(e, g, byzantine, s, c, p, d, p');
    }
    AtMostOneMember(all);
  }

  lemma ViewCertifies(e: Epoch, l: Graph, g: Graph, c: Id, s: Slot, p: Id)
    requires ViewOf(e, l, g) && e.IsSlot(s) && c in l
    ensures Certifies(e, l, c, s, p) == Certifies(e, g, c, s, p)
  {
    assert VertexOk(e, l, c);
    if l[c].round == s.round + 2 {
      forall i | 0 <= i < |l[c].strong|
        ensures SupportedProposal(e, l, l[c].strong[i], s) == SupportedProposal(e, g, l[c].strong[i], s)
      {
        ViewSupport(e, l, g, l[c].strong[i], s);
      }
      assert SupportAuthors(e, l, c, s, p) == SupportAuthors(e, g, c, s, p);
    }
  }

  /** Direct decisions taken in a view hold in the whole DAG. */
  lemma ViewDirect(e: Epoch, l: Graph, g: Graph, s: Slot, p: Id)
    requires ViewOf(e, l, g) && e.IsSlot(s)
    ensures DirectCommit(e, l, s, p) ==> DirectCommit(e, g, s, p)
    ensures DirectSkip(e, l, s) ==> DirectSkip(e, g, s)
  {
    forall c | c in l
      ensures Certifies(e, l, c, s, p) == Certifies(e, g, c, s, p)
      ensures SupportedProposal(e, l, c, s) == SupportedProposal(e, g, c, s)
    {
      ViewCertifies(e, l, g, c, s, p);
      ViewSupport(e, l, g, c, s);
    }
    SubsetSize(CertifierAuthors(e, l, s, p), CertifierAuthors(e, g, s, p));
    SubsetSize(NoSupportAuthors(e, l, s), NoSupportAuthors(e, g, s));
  }

  /** Candidates depend on the anchor's past only, never on what else a node has seen. */
  lemma ViewCandidates(e: Epoch, l: Graph, g: Graph, a: Id, s: Slot)
    requires ViewOf(e, l, g) && e.IsSlot(s) && a in l
    ensures CertifiedCandidates(e, l, a, s) == CertifiedCandidates(e, g, a, s)
  {
    ViewPast(e, l, g, a);
    forall c, p | c in Past(e, l, a)
      ensures Certifies(e, l, c, s, p) == Certifies(e, g, c, s, p)
    {
      ViewCertifies(e, l, g, c, s, p);
    }
    forall p
      ensures CertifiedLink(e, l, a, s, p) == CertifiedLink(e, g, a, s, p)
    {
    }
  }
}
