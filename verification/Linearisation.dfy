/** From committed proposals to a total order of vertices
    (doc/protocol/03-finaldag-consensus.md, section 11): each commit emits its causal past minus
    what was emitted before, sorted by round, author and vertex ID. */
module Linearisation {
  import opened Schedule
  import opened Dag

  predicate Earlier(g: Graph, v: Id, w: Id)
    requires v in g && w in g
  {
    g[v].round < g[w].round
    || (g[v].round == g[w].round && g[v].author < g[w].author)
    || (g[v].round == g[w].round && g[v].author == g[w].author && v < w)
  }

  predicate IsFirst(g: Graph, v: Id, ids: set<Id>)
    requires ids <= g.Keys
  {
    v in ids && forall w | w in ids && w != v :: Earlier(g, v, w)
  }

  lemma {:induction false} FirstExists(g: Graph, ids: set<Id>)
    requires ids <= g.Keys && ids != {}
    ensures exists v :: IsFirst(g, v, ids)
  {
    var k :| k in ids;
    if ids == {k} {
      assert IsFirst(g, k, ids);
    } else {
      FirstExists(g, ids - {k});
      var m :| IsFirst(g, m, ids - {k});
      assert forall w | w in ids :: w == k || w in ids - {k};
      assert IsFirst(g, if Earlier(g, k, m) then k else m, ids);
    }
  }

  /** The vertices of `ids` in (round, author, vertex ID) order. */
  function Sorted(g: Graph, ids: set<Id>): (order: seq<Id>)
    requires ids <= g.Keys
    ensures forall v :: v in order <==> v in ids
    decreases |ids|
  {
    if ids == {} then []
    else
      FirstExists(g, ids);
      var v :| v in ids && IsFirst(g, v, ids);
      [v] + Sorted(g, ids - {v})
  }

  ghost predicate StrictlyAscending(g: Graph, order: seq<Id>) {
    && (forall i | 0 <= i < |order| :: order[i] in g)
    && (forall i, j | 0 <= i < j < |order| :: Earlier(g, order[i], order[j]))
  }

  lemma {:induction false} SortedIsAscending(g: Graph, ids: set<Id>)
    requires ids <= g.Keys
    ensures StrictlyAscending(g, Sorted(g, ids))
    decreases |ids|
  {
    if ids != {} {
      var order := Sorted(g, ids);
      SortedIsAscending(g, ids - {order[0]});
      assert order[1..] == Sorted(g, ids - {order[0]});
      forall i, j | 0 <= i < j < |order|
        ensures Earlier(g, order[i], order[j])
      {
        assert order[j] == order[1..][j - 1];
        assert order[1..][j - 1] in order[1..];
        if i > 0 {
          assert order[i] == order[1..][i - 1];
        }
      }
      forall i | 0 <= i < |order|
        ensures order[i] in g
      {
        assert order[i] in order;
      }
    }
  }

  lemma ListingTail(g: Graph, ids: set<Id>, order: seq<Id>)
    requires StrictlyAscending(g, order) && order != []
    requires forall v :: v in order <==> v in ids
    ensures forall v :: v in order[1..] <==> v in ids - {order[0]}
    ensures StrictlyAscending(g, order[1..])
  {
    forall v
      ensures v in order[1..] <==> v in ids - {order[0]}
    {
      if v in order[1..] {
        var i :| 0 <= i < |order[1..]| && order[1..][i] == v;
        assert v == order[i + 1] && Earlier(g, order[0], order[i + 1]);
      } else if v in ids {
        assert v in [order[0]] + order[1..];
      }
    }
  }

  lemma AscendingHeadIsFirst(g: Graph, ids: set<Id>, order: seq<Id>)
    requires ids <= g.Keys && StrictlyAscending(g, order) && order != []
    requires forall v :: v in order <==> v in ids
    ensures IsFirst(g, order[0], ids)
  {
    forall w | w in ids && w != order[0]
      ensures Earlier(g, order[0], w)
    {
      var i :| 0 <= i < |order| && order[i] == w;
    }
    assert order[0] in order;
  }

  lemma SortedHead(g: Graph, ids: set<Id>)
    requires ids <= g.Keys && ids != {}
    ensures Sorted(g, ids) != [] && IsFirst(g, Sorted(g, ids)[0], ids)
    ensures Sorted(g, ids) == [Sorted(g, ids)[0]] + Sorted(g, ids - {Sorted(g, ids)[0]})
  {
    hide IsFirst;
    FirstExists(g, ids);
  }

  lemma FirstIsUnique(g: Graph, ids: set<Id>, v: Id, w: Id)
    requires ids <= g.Keys && IsFirst(g, v, ids) && IsFirst(g, w, ids)
    ensures v == w
  {
  }

  /** The order is the only one: any strictly ascending listing of the same vertices is this one. */
  lemma {:induction false} AscendingListingIsUnique(g: Graph, ids: set<Id>, order: seq<Id>)
    requires ids <= g.Keys && StrictlyAscending(g, order)
    requires forall v :: v in order <==> v in ids
    ensures order == Sorted(g, ids)
    decreases |ids|
  {
    if order == [] {
      assert ids == {};
    } else {
      assert order[0] in ids;
      AscendingHeadIsFirst(g, ids, order);
      ListingTail(g, ids, order);
      SortedHead(g, ids);
      hide Sorted, IsFirst, StrictlyAscending;
      FirstIsUnique(g, ids, Sorted(g, ids)[0], order[0]);
      AscendingListingIsUnique(g, ids - {order[0]}, order[1..]);
      assert order == [order[0]] + order[1..];
    }
  }

  // ---------------------------------------------------------------- deltas

  function Delta(e: Epoch, g: Graph, p: Id, emitted: set<Id>): set<Id>
    requires WellFormed(e, g) && p in g
  {
    Past(e, g, p) - emitted
  }

  /** The set of everything emitted after the given commits. */
  function EmittedBy(e: Epoch, g: Graph, commits: seq<Id>): (emitted: set<Id>)
    requires WellFormed(e, g) && forall p | p in commits :: p in g
    ensures emitted <= g.Keys
  {
    if commits == [] then {}
    else
      var before := EmittedBy(e, g, commits[..|commits| - 1]);
      before + Delta(e, g, commits[|commits| - 1], before)
  }

  /** The vertex stream: the sorted deltas one after the other. */
  function Output(e: Epoch, g: Graph, commits: seq<Id>): seq<Id>
    requires WellFormed(e, g) && forall p | p in commits :: p in g
  {
    if commits == [] then []
    else
      var before := commits[..|commits| - 1];
      Output(e, g, before) + Sorted(g, Delta(e, g, commits[|commits| - 1], EmittedBy(e, g, before)))
  }

  /** Emitting one committed proposal, as the derivation transaction does it. */
  class Emitter {
    const e: Epoch
    const g: Graph
    var emitted: set<Id>
    var stream: seq<Id>
    ghost var commits: seq<Id>

    ghost predicate Valid()
      reads this
    {
      && WellFormed(e, g) && (forall p | p in commits :: p in g)
      && emitted == EmittedBy(e, g, commits)
      && stream == Output(e, g, commits)
    }

    constructor (e: Epoch, g: Graph)
      requires WellFormed(e, g)
      ensures Valid() && commits == [] && this.e == e && this.g == g
    {
      this.e, this.g := e, g;
      emitted, stream, commits := {}, [], [];
    }

    method EmitCommit(p: Id)
      requires Valid() && p in g
      modifies this
      ensures Valid() && commits == old(commits) + [p]
      ensures stream == old(stream) + Sorted(g, Past(e, g, p) - old(emitted))
      ensures emitted == old(emitted) + Past(e, g, p)
    {
      var delta := Delta(e, g, p, emitted);
      stream := stream + Sorted(g, delta);
      emitted := emitted + delta;
      commits := commits + [p];
      assert commits[..|commits| - 1] == old(commits);
    }
  }

  /** What has been emitted is exactly the union of the committed pasts. */
  lemma {:induction false} EmittedIsUnionOfPasts(e: Epoch, g: Graph, commits: seq<Id>, v: Id)
    requires WellFormed(e, g) && forall p | p in commits :: p in g
    ensures v in EmittedBy(e, g, commits) <==> exists p | p in commits :: v in Past(e, g, p)
  {
    hide Past, VertexOk;
    if commits != [] {
      var n := |commits| - 1;
      EmittedIsUnionOfPasts(e, g, commits[..n], v);
      assert commits == commits[..n] + [commits[n]];
      assert commits[n] in commits;
      if v in EmittedBy(e, g, commits[..n]) {
        var p :| p in commits[..n] && v in Past(e, g, p);
        assert p in commits;
      } else if p :| p in commits && v in Past(e, g, p) {
        assert p in commits[..n] || p == commits[n];
      }
    }
  }

  ghost predicate NoDuplicates(s: seq<Id>) {
    forall i, j | 0 <= i < j < |s| :: s[i] != s[j]
  }

  /** Every vertex of the committed pasts is emitted exactly once and nothing else is. */
  lemma {:induction false} OutputEmitsEachVertexOnce(e: Epoch, g: Graph, commits: seq<Id>)
    requires WellFormed(e, g) && forall p | p in commits :: p in g
    ensures NoDuplicates(Output(e, g, commits))
    ensures forall v :: v in Output(e, g, commits) <==> v in EmittedBy(e, g, commits)
  {
    if commits != [] {
      var n := |commits| - 1;
      OutputEmitsEachVertexOnce(e, g, commits[..n]);
      var delta := Delta(e, g, commits[n], EmittedBy(e, g, commits[..n]));
      SortedIsAscending(g, delta);
      var before, added := Output(e, g, commits[..n]), Sorted(g, delta);
      forall i, j | 0 <= i < j < |before + added|
        ensures (before + added)[i] != (before + added)[j]
      {
        if i < |before| <= j {
          assert before[i] in before && added[j - |before|] in added;
        } else if |before| <= i {
          assert Earlier(g, added[i - |before|], added[j - |before|]);
        }
      }
    }
  }

  lemma DeltaIsNew(e: Epoch, g: Graph, commits: seq<Id>, v: Id)
    requires WellFormed(e, g) && commits != [] && forall p | p in commits :: p in g
    requires v in Delta(e, g, commits[|commits| - 1], EmittedBy(e, g, commits[..|commits| - 1]))
    ensures v in g && v in Past(e, g, commits[|commits| - 1])
    ensures forall p | p in commits[..|commits| - 1] :: v !in Past(e, g, p)
  {
    EmittedIsUnionOfPasts(e, g, commits[..|commits| - 1], v);
  }

  lemma SortedOrder(g: Graph, ids: set<Id>, i: nat, j: nat)
    requires ids <= g.Keys && i < j < |Sorted(g, ids)|
    ensures var v, w := Sorted(g, ids)[i], Sorted(g, ids)[j];
      && v in g && w in g && g[v].round <= g[w].round
      && (g[v].round == g[w].round ==> g[v].author <= g[w].author)
      && (g[v].round == g[w].round && g[v].author == g[w].author ==> v < w)
  {
    SortedIsAscending(g, ids);
    hide Sorted;
    assert Earlier(g, Sorted(g, ids)[i], Sorted(g, ids)[j]);
  }

  lemma OutputFromDelta(e: Epoch, g: Graph, commits: seq<Id>, k: nat) returns (v: Id)
    requires WellFormed(e, g) && commits != [] && forall p | p in commits :: p in g
    requires |Output(e, g, commits[..|commits| - 1])| <= k < |Output(e, g, commits)|
    ensures var n := |commits| - 1;
      var delta := Delta(e, g, commits[n], EmittedBy(e, g, commits[..n]));
      && v == Output(e, g, commits)[k]
      && k - |Output(e, g, commits[..n])| < |Sorted(g, delta)|
      && v == Sorted(g, delta)[k - |Output(e, g, commits[..n])|]
      && v in g && v in Past(e, g, commits[n]) && forall p | p in commits[..n] :: v !in Past(e, g, p)
  {
    hide WellFormed, VertexOk, Past, EmittedBy, Sorted;
    v := Output(e, g, commits)[k];
    assert v in Sorted(g, Delta(e, g, commits[|commits| - 1], EmittedBy(e, g, commits[..|commits| - 1])));
    DeltaIsNew(e, g, commits, v);
  }

  /** What one commit adds to the stream: vertices of its past and of no past committed before, by
      ascending round, within a round by ascending author, and for one author by ascending vertex ID. */
  lemma DeltaIsOrdered(e: Epoch, g: Graph, commits: seq<Id>, i: nat, j: nat)
    requires WellFormed(e, g) && commits != [] && forall p | p in commits :: p in g
    requires |Output(e, g, commits[..|commits| - 1])| <= i < j < |Output(e, g, commits)|
    ensures var n, v, w := |commits| - 1, Output(e, g, commits)[i], Output(e, g, commits)[j];
      && v in g && w in g && g[v].round <= g[w].round
      && (g[v].round == g[w].round ==> g[v].author <= g[w].author)
      && (g[v].round == g[w].round && g[v].author == g[w].author ==> v < w)
      && v in Past(e, g, commits[n]) && w in Past(e, g, commits[n])
      && forall p | p in commits[..n] :: v !in Past(e, g, p) && w !in Past(e, g, p)
  {
    hide WellFormed, VertexOk, Past, Output, EmittedBy, Sorted;
    var v := OutputFromDelta(e, g, commits, i);
    var w := OutputFromDelta(e, g, commits, j);
    var delta := Delta(e, g, commits[|commits| - 1], EmittedBy(e, g, commits[..|commits| - 1]));
    var start := |Output(e, g, commits[..|commits| - 1])|;
    SortedOrder(g, delta, i - start, j - start);
  }

  /** Inside a delta, a parent that the delta holds comes before its child. */
  lemma ParentFirstInDelta(g: Graph, ids: set<Id>, j: nat, parent: Id) returns (i: nat)
    requires ids <= g.Keys && j < |Sorted(g, ids)| && Sorted(g, ids)[j] in g
    requires parent in ids && g[parent].round < g[Sorted(g, ids)[j]].round
    ensures i < j && Sorted(g, ids)[i] == parent
  {
    var order := Sorted(g, ids);
    SortedIsAscending(g, ids);
    assert parent in order;
    i :| 0 <= i < |order| && order[i] == parent;
  }

  lemma ParentEmittedUpToDelta(e: Epoch, g: Graph, commits: seq<Id>, child: Id, k: nat)
    requires WellFormed(e, g) && commits != [] && forall p | p in commits :: p in g
    requires child in Past(e, g, commits[|commits| - 1]) && k < |g[child].Parents()|
    ensures var parent := g[child].Parents()[k];
      && parent in g && g[parent].round < g[child].round
      && var emitted := EmittedBy(e, g, commits[..|commits| - 1]);
         parent in emitted || parent in Delta(e, g, commits[|commits| - 1], emitted)
  {
    ParentInPast(e, g, child, k);
    PastIsClosed(e, g, commits[|commits| - 1], child);
  }

  /** Every parent is emitted, and before its child: each prefix of the stream is causally closed. */
  lemma {:induction false} ParentsComeFirst(e: Epoch, g: Graph, commits: seq<Id>, j: nat, k: nat) returns (i: nat)
    requires WellFormed(e, g) && forall p | p in commits :: p in g
    requires j < |Output(e, g, commits)|
    requires Output(e, g, commits)[j] in g && k < |g[Output(e, g, commits)[j]].Parents()|
    ensures i < j && Output(e, g, commits)[i] == g[Output(e, g, commits)[j]].Parents()[k]
  {
    hide VertexOk, Past, Sorted;
    var n := |commits| - 1;
    var emitted := EmittedBy(e, g, commits[..n]);
    var delta := Delta(e, g, commits[n], emitted);
    var before, added := Output(e, g, commits[..n]), Sorted(g, delta);
    if j < |before| {
      i := ParentsComeFirst(e, g, commits[..n], j, k);
    } else {
      var child := added[j - |before|];
      assert child in added;
      ParentEmittedUpToDelta(e, g, commits, child, k);
      var parent := g[child].Parents()[k];
      if parent in emitted {
        OutputEmitsEachVertexOnce(e, g, commits[..n]);
        i :| 0 <= i < |before| && before[i] == parent;
      } else {
        var at := ParentFirstInDelta(g, delta, j - |before|, parent);
        i := |before| + at;
      }
    }
  }

  /** The stream depends on the commits alone: every view that holds them derives the same one. */
  lemma {:induction false} OutputIsViewIndependent(e: Epoch, l: Graph, g: Graph, commits: seq<Id>)
    requires ViewOf(e, l, g) && forall p | p in commits :: p in l
    ensures Output(e, l, commits) == Output(e, g, commits)
    ensures EmittedBy(e, l, commits) == EmittedBy(e, g, commits)
  {
    if commits != [] {
      var n := |commits| - 1;
      OutputIsViewIndependent(e, l, g, commits[..n]);
      ViewPast(e, l, g, commits[n]);
      SortedIsViewIndependent(l, g, Delta(e, l, commits[n], EmittedBy(e, l, commits[..n])));
    }
  }

  lemma SortedIsViewIndependent(l: Graph, g: Graph, ids: set<Id>)
    requires ids <= l.Keys && forall v | v in l :: v in g && l[v] == g[v]
    ensures ids <= g.Keys && Sorted(l, ids) == Sorted(g, ids)
  {
    SortedIsAscending(l, ids);
    AscendingListingIsUnique(g, ids, Sorted(l, ids));
  }
}
