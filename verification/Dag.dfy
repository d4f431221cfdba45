/** The metadata DAG: vertices, causal past, and support as an ordered depth-first search
    (doc/protocol/03-finaldag-consensus.md, sections 5 and 6).

    A vertex ID stands for the collision-free hash of the vertex core, so a DAG is a map from IDs.
    The synthetic round-0 anchors are terminal tokens: a round-1 vertex simply has no parents here.
    A round above 1 without own parent is one that rejoined through a checkpoint, which is no edge. */
module Dag {
  import opened Wrappers
  import opened Schedule

  type Id = nat

  datatype Vertex = Vertex(author: nat, round: nat, own: Option<Id>, strong: seq<Id>, weak: seq<Id>) {
    /** The order in which the search visits parents. */
    function Parents(): seq<Id> {
      (if own.Some? then [own.value] else []) + strong + weak
    }
  }

  lemma OwnParentComesFirst(x: Vertex)
    requires x.own.Some?
    ensures |x.Parents()| > 0 && x.Parents()[0] == x.own.value
  {
  }

  lemma StrongParentIsParent(x: Vertex, i: nat) returns (k: nat)
    requires i < |x.strong|
    ensures k < |x.Parents()| && x.Parents()[k] == x.strong[i]
  {
    k := (if x.own.Some? then 1 else 0) + i;
  }

  type Graph = map<Id, Vertex>

  predicate ParentsBelow(g: Graph, v: Id)
    requires v in g
  {
    forall i | 0 <= i < |g[v].Parents()| ::
      g[v].Parents()[i] in g && g[g[v].Parents()[i]].round < g[v].round
  }

  /** The strong parents: previous round, at most one per author in author order, at least q. */
  predicate StrongOk(g: Graph, v: Id, q: int)
    requires v in g
  {
    && |g[v].strong| >= q
    && (forall i | 0 <= i < |g[v].strong| :: g[v].strong[i] in g && g[g[v].strong[i]].round == g[v].round - 1)
    && (forall i, j | 0 <= i < j < |g[v].strong| :: g[g[v].strong[i]].author < g[g[v].strong[j]].author)
  }

  predicate VertexOk(e: Epoch, g: Graph, v: Id)
    requires v in g
  {
    && g[v].author < e.params.validatorCount
    && 1 <= g[v].round
    && ParentsBelow(g, v)
    && (g[v].round == 1 ==> g[v].Parents() == [])
    && (g[v].round > 1 ==> StrongOk(g, v, e.params.quorum))
    && (g[v].own.Some? ==> g[v].own.value in g && g[g[v].own.value].author == g[v].author)
  }

  /** Every vertex is valid on the wire and its parents are held too. */
  ghost predicate WellFormed(e: Epoch, g: Graph) {
    e.Valid() && forall v | v in g :: VertexOk(e, g, v)
  }

  /** The fault assumption: at most f Byzantine authors, the others sign one vertex per round. */
  ghost predicate FaultBound(e: Epoch, g: Graph, byzantine: set<nat>) {
    && |byzantine| <= e.params.maxByzantine
    && forall v, w | v in g && w in g && g[v].author == g[w].author && g[v].round == g[w].round
                     && g[v].author !in byzantine :: v == w
  }

  // ---------------------------------------------------------------- causal past

  /** The vertex itself and everything its signed parent edges reach. */
  function Past(e: Epoch, g: Graph, v: Id): (past: set<Id>)
    requires WellFormed(e, g) && v in g
    ensures v in past
    ensures forall u | u in past :: u in g && g[u].round <= g[v].round && (u != v ==> g[u].round < g[v].round)
    decreases g[v].round
  {
    assert VertexOk(e, g, v);
    {v} + set i, u | 0 <= i < |g[v].Parents()| && u in Past(e, g, g[v].Parents()[i]) :: u
  }

  /** Past is causally closed. */
  lemma {:induction false} PastIsClosed(e: Epoch, g: Graph, v: Id, u: Id)
    requires WellFormed(e, g) && v in g && u in Past(e, g, v)
    ensures Past(e, g, u) <= Past(e, g, v)
    decreases g[v].round
  {
    assert VertexOk(e, g, v);
    if u != v {
      var i :| 0 <= i < |g[v].Parents()| && u in Past(e, g, g[v].Parents()[i]);
      PastIsClosed(e, g, g[v].Parents()[i], u);
    }
  }

  lemma ParentInPast(e: Epoch, g: Graph, v: Id, i: nat)
    requires WellFormed(e, g) && v in g && i < |g[v].Parents()|
    ensures VertexOk(e, g, v)
    ensures Past(e, g, g[v].Parents()[i]) <= Past(e, g, v)
  {
    assert VertexOk(e, g, v);
  }

  lemma StrongParentInPast(e: Epoch, g: Graph, v: Id, i: nat)
    requires WellFormed(e, g) && v in g && i < |g[v].strong|
    ensures VertexOk(e, g, v) && g[v].strong[i] in g
    ensures Past(e, g, g[v].strong[i]) <= Past(e, g, v)
  {
    var k := StrongParentIsParent(g[v], i);
    ParentInPast(e, g, v, k);
  }

  // ---------------------------------------------------------------- support

  predicate InSlot(e: Epoch, g: Graph, v: Id, s: Slot)
    requires e.Valid() && e.IsSlot(s) && v in g
  {
    g[v].round == s.round && g[v].author == e.proposer(s)
  }

  /** What the ordered tree search from v, v included, finds first. */
  function Search(e: Epoch, g: Graph, v: Id, s: Slot): (r: Option<Id>)
    requires WellFormed(e, g) && e.IsSlot(s) && v in g
    ensures r.Some? ==> r.value in Past(e, g, v) && InSlot(e, g, r.value, s)
    decreases g[v].round
  {
    if InSlot(e, g, v, s) then Some(v) else SearchParents(e, g, v, s, 0)
  }

  function SearchParents(e: Epoch, g: Graph, v: Id, s: Slot, i: nat): (r: Option<Id>)
    requires WellFormed(e, g) && e.IsSlot(s) && v in g && i <= |g[v].Parents()|
    ensures r.Some? ==> r.value in Past(e, g, v) && InSlot(e, g, r.value, s) && s.round < g[v].round
    decreases g[v].round, |g[v].Parents()| - i
  {
    if i == |g[v].Parents()| then None
    else
      ParentInPast(e, g, v, i);
      var found := Search(e, g, g[v].Parents()[i], s);
      if found.Some? then found else SearchParents(e, g, v, s, i + 1)
  }

  /** The proposal of slot s that b supports: the search starts at the parents of b. */
  function SupportedProposal(e: Epoch, g: Graph, b: Id, s: Slot): (r: Option<Id>)
    requires WellFormed(e, g) && e.IsSlot(s) && b in g
    ensures r.Some? ==> r.value in Past(e, g, b) && InSlot(e, g, r.value, s) && s.round < g[b].round
  {
    SearchParents(e, g, b, s, 0)
  }

  lemma SearchStep(e: Epoch, g: Graph, v: Id, s: Slot, i: nat)
    requires WellFormed(e, g) && e.IsSlot(s) && v in g && i < |g[v].Parents()|
    ensures g[v].Parents()[i] in g && g[g[v].Parents()[i]].round < g[v].round
    ensures SearchParents(e, g, v, s, i) ==
      (var found := Search(e, g, g[v].Parents()[i], s);
       if found.Some? then found else SearchParents(e, g, v, s, i + 1))
  {
    ParentInPast(e, g, v, i);
  }

  /** A fruitless search has visited every parent in vain. */
  lemma {:induction false} FruitlessParents(e: Epoch, g: Graph, v: Id, s: Slot, i: nat, j: nat)
    requires WellFormed(e, g) && e.IsSlot(s) && v in g && i <= j < |g[v].Parents()|
    requires SearchParents(e, g, v, s, i).None?
    ensures g[v].Parents()[j] in g && g[g[v].Parents()[j]].round < g[v].round && Search(e, g, g[v].Parents()[j], s).None?
    decreases j - i
  {
    hide WellFormed, Past, Search, SearchParents, Vertex.Parents;
    SearchStep(e, g, v, s, i);
    if i < j {
      FruitlessParents(e, g, v, s, i + 1, j);
    }
  }

  /** Nothing is missed: a fruitless search from v means no proposal of the slot in Past(v). */
  lemma {:induction false} SearchMissesNothing(e: Epoch, g: Graph, v: Id, s: Slot, p: Id)
    requires WellFormed(e, g) && e.IsSlot(s) && v in g
    requires Search(e, g, v, s).None?
    requires p in g && InSlot(e, g, p, s)
    ensures p !in Past(e, g, v)
    decreases g[v].round
  {
    if p in Past(e, g, v) {
      var i :| 0 <= i < |g[v].Parents()| && p in Past(e, g, g[v].Parents()[i]);
      hide Past, SearchParents;
      FruitlessParents(e, g, v, s, 0, i);
      SearchMissesNothing(e, g, g[v].Parents()[i], s, p);
    }
  }

  /** Support is decided exactly by the strict past. */
  lemma NoSupportMeansNoProposalBelow(e: Epoch, g: Graph, b: Id, s: Slot)
    requires WellFormed(e, g) && e.IsSlot(s) && b in g
    ensures SupportedProposal(e, g, b, s).None?
       <==> forall p | p in Past(e, g, b) && p != b :: !InSlot(e, g, p, s)
  {
    if SupportedProposal(e, g, b, s).None? {
      forall p | p in Past(e, g, b) && p != b
        ensures !InSlot(e, g, p, s)
      {
        if InSlot(e, g, p, s) {
          var i :| 0 <= i < |g[b].Parents()| && p in Past(e, g, g[b].Parents()[i]);
          FruitlessParents(e, g, b, s, 0, i);
          SearchMissesNothing(e, g, g[b].Parents()[i], s, p);
        }
      }
    }
  }

  /** What the search finds at or below v: v itself if it belongs to the slot, else what v supports. */
  lemma FoundAt(e: Epoch, g: Graph, v: Id, s: Slot)
    requires WellFormed(e, g) && e.IsSlot(s) && v in g
    ensures Search(e, g, v, s) ==
      if g[v].round == s.round && g[v].author == e.proposer(s) then Some(v) else SupportedProposal(e, g, v, s)
  {
    hide Past, SearchParents;
  }

  lemma {:induction false} FirstHit(e: Epoch, g: Graph, b: Id, s: Slot, i: nat, k: nat)
    requires WellFormed(e, g) && e.IsSlot(s) && b in g && i <= k < |g[b].Parents()|
    requires forall j | i <= j <= k :: g[b].Parents()[j] in g
    requires forall j | i <= j < k :: Search(e, g, g[b].Parents()[j], s).None?
    requires Search(e, g, g[b].Parents()[k], s).Some?
    ensures SearchParents(e, g, b, s, i) == Search(e, g, g[b].Parents()[k], s)
    decreases k - i
  {
    hide WellFormed, Past, Search, SearchParents;
    SearchStep(e, g, b, s, i);
    if i < k {
      FirstHit(e, g, b, s, i + 1, k);
    }
  }

  /** The parents that come before the i-th strong parent (weak == false) or the i-th weak one: the own
      parent first, then the strong parents in author order, then the weak ones as listed. */
  function VisitedBefore(x: Vertex, weak: bool, i: nat): seq<Id>
    requires i <= if weak then |x.weak| else |x.strong|
  {
    (if x.own.Some? then [x.own.value] else []) + if weak then x.strong + x.weak[..i] else x.strong[..i]
  }

  lemma VisitedBeforeIsPrefix(x: Vertex, weak: bool, i: nat)
    requires i < if weak then |x.weak| else |x.strong|
    ensures var before := VisitedBefore(x, weak, i);
      && |before| < |x.Parents()| && x.Parents()[|before|] == (if weak then x.weak[i] else x.strong[i])
      && forall j | 0 <= j < |before| :: before[j] == x.Parents()[j]
  {
  }

  /** The find of the own parent is the support, whatever the other parents would find. */
  lemma OwnParentDecides(e: Epoch, g: Graph, b: Id, s: Slot)
    requires WellFormed(e, g) && e.IsSlot(s) && b in g && g[b].own.Some? && g[b].own.value in g
    requires Search(e, g, g[b].own.value, s).Some?
    ensures SupportedProposal(e, g, b, s) == Search(e, g, g[b].own.value, s)
  {
    hide WellFormed, Past, Search, SearchParents;
    OwnParentComesFirst(g[b]);
    SearchStep(e, g, b, s, 0);
  }

  /** Otherwise the first strong parent with a find decides, and only then the first weak one. */
  lemma VisitOrder(e: Epoch, g: Graph, b: Id, s: Slot, weak: bool, i: nat)
    requires WellFormed(e, g) && e.IsSlot(s) && b in g
    requires i < if weak then |g[b].weak| else |g[b].strong|
    requires forall u | u in VisitedBefore(g[b], weak, i) :: u in g && Search(e, g, u, s).None?
    ensures var hit := if weak then g[b].weak[i] else g[b].strong[i];
      hit in g && (Search(e, g, hit, s).Some? ==> SupportedProposal(e, g, b, s) == Search(e, g, hit, s))
  {
    var before, hit := VisitedBefore(g[b], weak, i), if weak then g[b].weak[i] else g[b].strong[i];
    VisitedBeforeIsPrefix(g[b], weak, i);
    ParentIsHeld(e, g, b, |before|);
    hide WellFormed, Past, Search, SearchParents, VisitedBefore, Vertex.Parents;
    if Search(e, g, hit, s).Some? {
      forall j | 0 <= j < |before|
        ensures g[b].Parents()[j] in g && Search(e, g, g[b].Parents()[j], s).None?
      {
        assert before[j] in before;
      }
      FirstHit(e, g, b, s, 0, |before|);
    }
  }

  // ---------------------------------------------------------------- sticky support

  /** a is b or an own-parent ancestor of b; a rejoin ends the chain. */
  predicate OwnChain(e: Epoch, g: Graph, b: Id, a: Id)
    requires WellFormed(e, g) && b in g
    decreases g[b].round
  {
    a == b || (g[b].own.Some? &&
      (OwnParentComesFirst(g[b]); ParentInPast(e, g, b, 0); OwnChain(e, g, g[b].own.value, a)))
  }

  /** Sticky support: whoever once supported p supports p in every later vertex of its own chain. */
  lemma {:induction false} SupportIsSticky(e: Epoch, g: Graph, b: Id, a: Id, s: Slot)
    requires WellFormed(e, g) && e.IsSlot(s) && b in g
    requires OwnChain(e, g, b, a) && a in g
    requires SupportedProposal(e, g, a, s).Some?
    ensures SupportedProposal(e, g, b, s) == SupportedProposal(e, g, a, s)
    decreases g[b].round
  {
    if a != b {
      OwnParentComesFirst(g[b]);
      ParentInPast(e, g, b, 0);
      var own := g[b].own.value;
      SupportIsSticky(e, g, own, a, s);
      // own lies above the slot's round, so the search passes through it to its parents
      assert !InSlot(e, g, own, s);
      assert Search(e, g, own, s) == SupportedProposal(e, g, own, s);
      SearchStep(e, g, b, s, 0);
    }
  }

  /** An honest author's own parent is its highest earlier vertex unless it rejoined. */
  ghost predicate HonestOwnParent(g: Graph, v: Id)
    requires v in g
  {
    g[v].own.Some? ==>
      && g[v].own.value in g
      && forall u | u in g && g[u].author == g[v].author && g[u].round < g[v].round
           :: g[u].round <= g[g[v].own.value].round
  }

  /** An honest author that does not rejoin in between cannot switch to an equivocating proposal. */
  lemma {:induction false} HonestSupportNeverSwitches(e: Epoch, g: Graph, byzantine: set<nat>, a: Id, b: Id, s: Slot)
    requires WellFormed(e, g) && FaultBound(e, g, byzantine) && e.IsSlot(s)
    requires a in g && b in g && g[a].author == g[b].author && g[a].author !in byzantine
    requires g[a].round <= g[b].round
    requires forall v | v in g && g[v].author == g[a].author && g[a].round < g[v].round <= g[b].round
               :: g[v].own.Some? && HonestOwnParent(g, v)
    requires SupportedProposal(e, g, a, s).Some?
    ensures SupportedProposal(e, g, b, s) == SupportedProposal(e, g, a, s)
  {
    HonestChain(e, g, byzantine, a, b);
    SupportIsSticky(e, g, b, a, s);
  }

  lemma {:induction false} HonestChain(e: Epoch, g: Graph, byzantine: set<nat>, a: Id, b: Id)
    requires WellFormed(e, g) && FaultBound(e, g, byzantine)
    requires a in g && b in g && g[a].author == g[b].author && g[a].author !in byzantine
    requires g[a].round <= g[b].round
    requires forall v | v in g && g[v].author == g[a].author && g[a].round < g[v].round <= g[b].round
               :: g[v].own.Some? && HonestOwnParent(g, v)
    ensures OwnChain(e, g, b, a)
    decreases g[b].round
  {
    if a != b {
      assert g[a].round < g[b].round;
      OwnParentComesFirst(g[b]);
      ParentInPast(e, g, b, 0);
      assert HonestOwnParent(g, b);
      HonestChain(e, g, byzantine, a, g[b].own.value);
    }
  }

  // ---------------------------------------------------------------- local views

  /** l is a causally closed part of g: closedness is l's own well-formedness. */
  ghost predicate ViewOf(e: Epoch, l: Graph, g: Graph) {
    WellFormed(e, l) && WellFormed(e, g) && forall v | v in l :: v in g && l[v] == g[v]
  }

  lemma {:induction false} ViewPast(e: Epoch, l: Graph, g: Graph, v: Id)
    requires ViewOf(e, l, g) && v in l
    ensures Past(e, l, v) == Past(e, g, v)
    decreases l[v].round
  {
    assert VertexOk(e, l, v);
    forall i | 0 <= i < |l[v].Parents()|
      ensures Past(e, l, l[v].Parents()[i]) == Past(e, g, l[v].Parents()[i])
    {
      ViewPast(e, l, g, l[v].Parents()[i]);
    }
  }

  lemma ViewVertex(e: Epoch, l: Graph, g: Graph, v: Id)
    requires ViewOf(e, l, g) && v in l
    ensures WellFormed(e, l) && WellFormed(e, g) && v in g && g[v] == l[v]
  {
  }

  lemma ParentIsHeld(e: Epoch, g: Graph, v: Id, i: nat)
    requires WellFormed(e, g) && v in g && i < |g[v].Parents()|
    ensures g[v].Parents()[i] in g && g[g[v].Parents()[i]].round < g[v].round
  {
    assert VertexOk(e, g, v);
  }

  lemma SearchEnd(e: Epoch, g: Graph, v: Id, s: Slot)
    requires WellFormed(e, g) && e.IsSlot(s) && v in g
    ensures SearchParents(e, g, v, s, |g[v].Parents()|) == None
  {
  }

  lemma SearchFromParents(e: Epoch, g: Graph, v: Id, s: Slot)
    requires WellFormed(e, g) && e.IsSlot(s) && v in g
    ensures Search(e, g, v, s) ==
      if g[v].round == s.round && g[v].author == e.proposer(s) then Some(v) else SearchParents(e, g, v, s, 0)
  {
    hide Past, SearchParents;
  }

  /** Support depends on the vertex alone, not on the view it is computed in. */
  lemma {:induction false} ViewSearch(e: Epoch, l: Graph, g: Graph, v: Id, s: Slot, i: nat)
    requires ViewOf(e, l, g) && e.IsSlot(s) && v in l && i <= |l[v].Parents()|
    ensures SearchParents(e, l, v, s, i) == SearchParents(e, g, v, s, i)
    decreases l[v].round, |l[v].Parents()| - i
  {
    hide ViewOf, WellFormed, Past, Search, SearchParents, InSlot;
    ViewVertex(e, l, g, v);
    if i == |l[v].Parents()| {
      SearchEnd(e, l, v, s);
      SearchEnd(e, g, v, s);
    } else {
      var parent := l[v].Parents()[i];
      ParentIsHeld(e, l, v, i);
      ViewVertex(e, l, g, parent);
      ViewSearch(e, l, g, parent, s, 0);
      SearchFromParents(e, l, parent, s);
      SearchFromParents(e, g, parent, s);
      ViewSearch(e, l, g, v, s, i + 1);
      SearchStep(e, l, v, s, i);
      SearchStep(e, g, v, s, i);
    }
  }

  lemma ViewSupport(e: Epoch, l: Graph, g: Graph, v: Id, s: Slot)
    requires ViewOf(e, l, g) && e.IsSlot(s) && v in l
    ensures SupportedProposal(e, l, v, s) == SupportedProposal(e, g, v, s)
  {
    ViewSearch(e, l, g, v, s, 0);
  }
}
