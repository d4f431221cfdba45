/** Support as it is computed: one depth-first search with a visited set
    (doc/protocol/03-finaldag-consensus.md, section 6.1), proved equal to the plain tree search. */
module SupportSearch {
  import opened Wrappers
  import opened Quorum
  import opened Schedule
  import opened Dag

  /** What the search may rely on: a visited vertex was either exhausted in vain or lies above v,
      on the path that led here. */
  ghost predicate VisitedInVain(e: Epoch, g: Graph, s: Slot, visited: set<Id>, round: nat)
    requires WellFormed(e, g) && e.IsSlot(s)
  {
    forall u | u in visited :: u in g && (Search(e, g, u, s).None? || g[u].round >= round)
  }

  /** Searches from v. `expanded` counts the vertices whose parents were visited: each new one once. */
  method Visit(e: Epoch, g: Graph, v: Id, s: Slot, visited: set<Id>)
    returns (found: Option<Id>, after: set<Id>, expanded: nat)
    requires WellFormed(e, g) && e.IsSlot(s) && v in g
    requires VisitedInVain(e, g, s, visited, g[v].round + 1)
    ensures found == Search(e, g, v, s)
    ensures visited <= after && |after| == |visited| + expanded
    ensures forall u | u in after :: u in g && (u in visited || found.Some? || Search(e, g, u, s).None?)
    decreases g[v].round, 1
  {
    if v in visited {
      return None, visited, 0;
    }
    if InSlot(e, g, v, s) {
      return Some(v), visited, 0;
    }
    found, after, expanded := VisitParents(e, g, v, s, visited + {v});
    expanded := expanded + 1;
  }

  /** The parents of v in their fixed order; v itself is already marked. */
  method VisitParents(e: Epoch, g: Graph, v: Id, s: Slot, visited: set<Id>)
    returns (found: Option<Id>, after: set<Id>, expanded: nat)
    requires WellFormed(e, g) && e.IsSlot(s) && v in g
    requires VisitedInVain(e, g, s, visited, g[v].round)
    ensures found == SearchParents(e, g, v, s, 0)
    ensures visited <= after && |after| == |visited| + expanded
    ensures forall u | u in after :: u in g && (u in visited || found.Some? || Search(e, g, u, s).None?)
    decreases g[v].round, 0
  {
    found, after, expanded := None, visited, 0;
    var i := 0;
    while i < |g[v].Parents()|
      invariant 0 <= i <= |g[v].Parents()|
      invariant SearchParents(e, g, v, s, i) == SearchParents(e, g, v, s, 0)
      invariant found.None? && visited <= after && |after| == |visited| + expanded
      invariant forall u | u in after :: u in g && (u in visited || Search(e, g, u, s).None?)
    {
      SearchStep(e, g, v, s, i);
      var more;
      found, after, more := Visit(e, g, g[v].Parents()[i], s, after);
      expanded := expanded + more;
      if found.Some? {
        return;
      }
      i := i + 1;
    }
  }

  /** The search of section 6.1: it starts at the parents of b with nothing visited, terminates,
      expands every vertex at most once, and finds what the plain ordered tree search finds. */
  method FindSupportedProposal(e: Epoch, g: Graph, b: Id, s: Slot)
    returns (found: Option<Id>, expanded: nat)
    requires WellFormed(e, g) && e.IsSlot(s) && b in g
    ensures found == SupportedProposal(e, g, b, s)
    ensures expanded <= |g|
  {
    var after;
    found, after, expanded := VisitParents(e, g, b, s, {});
    SubsetSize(after, g.Keys);
  }
}
