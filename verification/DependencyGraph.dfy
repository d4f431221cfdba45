/** The exact access dependency graph (doc/protocol/04-finality-execution-and-epochs.md, sections 5.2
    and 5.3). The construction keeps one last writer and the readers since then per key, so most
    conflicts get no edge of their own; they are covered by paths. */
module DependencyGraph {
  import opened Execution

  type Edges = set<(nat, nat)>

  /** The conflicts of section 5.2 between transactions i < j. */
  predicate Conflict(acc: seq<Access>, i: nat, j: nat)
    requires i < j < |acc|
  {
    || acc[i].writeKeys * acc[j].readKeys != {}
    || acc[i].writeKeys * acc[j].writeKeys != {}
    || acc[i].readKeys * acc[j].writeKeys != {}
    || acc[i].systemKeys * acc[j].systemKeys != {}
    || acc[i].sender == acc[j].sender
  }

  /** w is the last writer of k before j. */
  predicate LastWriterBefore(acc: seq<Access>, k: Key, j: nat, w: nat) {
    w < j && w < |acc| && k in acc[w].writeKeys
    && forall v | w < v < j && v < |acc| :: k !in acc[v].writeKeys
  }

  /** i read k, and nobody from i on wrote it before j. */
  predicate OpenReader(acc: seq<Access>, k: Key, j: nat, i: nat) {
    i < j && i < |acc| && k in acc[i].readKeys
    && forall v | i <= v < j && v < |acc| :: k !in acc[v].writeKeys
  }

  predicate KeyEdge(acc: seq<Access>, k: Key, i: nat, j: nat)
    requires j < |acc|
  {
    || ((k in acc[j].readKeys || k in acc[j].writeKeys) && LastWriterBefore(acc, k, j, i))
    || (k in acc[j].writeKeys && OpenReader(acc, k, j, i))
    || (k in acc[j].writeKeys && k in acc[j].readKeys && i == j)
  }

  /** Sender and system ordering: every earlier transaction of the sender or on a shared resource. */
  predicate OrderEdge(acc: seq<Access>, i: nat, j: nat)
    requires j < |acc|
  {
    i < j && (acc[i].sender == acc[j].sender || acc[i].systemKeys * acc[j].systemKeys != {})
  }

  /** The edges the construction produces, the self edge of a read-modify-write included. */
  ghost predicate IsEdge(acc: seq<Access>, i: nat, j: nat) {
    j < |acc| && (OrderEdge(acc, i, j) || exists k :: KeyEdge(acc, k, i, j))
  }

  // ---------------------------------------------------------------- the construction

  function ReadersOf(lastReaders: map<Key, set<nat>>, k: Key): set<nat> {
    if k in lastReaders then lastReaders[k] else {}
  }

  predicate Tracks(lastWriter: map<Key, nat>, k: Key, w: nat) {
    k in lastWriter && lastWriter[k] == w
  }

  /** What the two tables hold before transaction j is looked at. */
  ghost predicate TablesAt(acc: seq<Access>, j: nat, lastReaders: map<Key, set<nat>>, lastWriter: map<Key, nat>) {
    && (forall k, w: nat :: LastWriterBefore(acc, k, j, w) <==> Tracks(lastWriter, k, w))
    && (forall k, i: nat :: OpenReader(acc, k, j, i) <==> i in ReadersOf(lastReaders, k))
  }

  function WriterEdge(lastWriter: map<Key, nat>, key: Key, j: nat): Edges {
    if key in lastWriter then {(lastWriter[key], j)} else {}
  }

  function ReaderEdges(lastReaders: map<Key, set<nat>>, key: Key, j: nat): Edges {
    set i | i in ReadersOf(lastReaders, key) :: (i, j)
  }

  function FromWriters(lastWriter: map<Key, nat>, keys: set<Key>, j: nat): Edges {
    set k | k in keys && k in lastWriter :: (lastWriter[k], j)
  }

  function FromReaders(lastReaders: map<Key, set<nat>>, keys: set<Key>, j: nat): Edges {
    set k, i | k in keys && i in ReadersOf(lastReaders, k) :: (i, j)
  }

  /** j reads one key: an edge from its last writer, and j becomes a reader. */
  method AddRead(key: Key, j: nat, lastReaders: map<Key, set<nat>>, lastWriter: map<Key, nat>, edges: Edges)
    returns (lastReaders': map<Key, set<nat>>, edges': Edges)
    ensures forall k, i: nat ::
      i in ReadersOf(lastReaders', k) <==> i in ReadersOf(lastReaders, k) || (k == key && i == j)
    ensures edges' == edges + WriterEdge(lastWriter, key, j)
  {
    edges' := edges;
    if key in lastWriter {
      edges' := edges' + {(lastWriter[key], j)};
    }
    lastReaders' := lastReaders[key := ReadersOf(lastReaders, key) + {j}];
  }

  /** What the writes of j to the given keys make of the tables: their readers are cleared and j is the
      last writer. */
  ghost predicate WritesDone(
      lastReaders: map<Key, set<nat>>, lastWriter: map<Key, nat>, keys: set<Key>, j: nat,
      lastReaders': map<Key, set<nat>>, lastWriter': map<Key, nat>)
  {
    && (forall k, i: nat :: i in ReadersOf(lastReaders', k) <==> k !in keys && i in ReadersOf(lastReaders, k))
    && (forall k, w: nat :: Tracks(lastWriter', k, w) <==> if k in keys then w == j else Tracks(lastWriter, k, w))
  }

  /** The edges these writes draw: from the last writer and from the readers of every key. */
  function WriteEdges(lastReaders: map<Key, set<nat>>, lastWriter: map<Key, nat>, keys: set<Key>, j: nat): Edges {
    FromWriters(lastWriter, keys, j) + FromReaders(lastReaders, keys, j)
  }

  /** j writes one key: edges from its last writer and its readers, then j alone owns the key. */
  method AddWrite(key: Key, j: nat, lastReaders: map<Key, set<nat>>, lastWriter: map<Key, nat>, edges: Edges)
    returns (lastReaders': map<Key, set<nat>>, lastWriter': map<Key, nat>, edges': Edges)
    ensures WritesDone(lastReaders, lastWriter, {key}, j, lastReaders', lastWriter')
    ensures edges' == edges + (WriterEdge(lastWriter, key, j) + ReaderEdges(lastReaders, key, j))
  {
    edges' := edges;
    if key in lastWriter {
      edges' := edges' + {(lastWriter[key], j)};
    }
    edges' := edges' + ReaderEdges(lastReaders, key, j);
    lastReaders' := lastReaders[key := {}];
    lastWriter' := lastWriter[key := j];
  }

  /** The first inner loop, over the read keys. */
  method AddReads(readKeys: set<Key>, j: nat, lastReaders: map<Key, set<nat>>, lastWriter: map<Key, nat>, edges: Edges)
    returns (lastReaders': map<Key, set<nat>>, edges': Edges)
    ensures forall k, i: nat ::
      i in ReadersOf(lastReaders', k) <==> i in ReadersOf(lastReaders, k) || (k in readKeys && i == j)
    ensures edges' == edges + FromWriters(lastWriter, readKeys, j)
  {
    hide FromWriters, FromReaders, ReadersOf, WriterEdge;
    lastReaders', edges' := lastReaders, edges;
    var todo := readKeys;
    ghost var done: set<Key> := {};
    NoKeysNoEdges(lastReaders, lastWriter, j);
    while todo != {}
      invariant todo + done == readKeys
      invariant forall k, i: nat ::
        i in ReadersOf(lastReaders', k) <==> i in ReadersOf(lastReaders, k) || (k in done && i == j)
      invariant edges' == edges + FromWriters(lastWriter, done, j)
      decreases |todo|
    {
      var key :| key in todo;
      EdgesOfOneMoreKey(lastReaders, lastWriter, done, key, j);
      lastReaders', edges' := AddRead(key, j, lastReaders', lastWriter, edges');
      todo, done := todo - {key}, done + {key};
    }
  }

  /** The second inner loop, over the written keys. */
  method AddWrites(writeKeys: set<Key>, j: nat, lastReaders: map<Key, set<nat>>, lastWriter: map<Key, nat>, edges: Edges)
    returns (lastReaders': map<Key, set<nat>>, lastWriter': map<Key, nat>, edges': Edges)
    ensures WritesDone(lastReaders, lastWriter, writeKeys, j, lastReaders', lastWriter')
    ensures edges' == edges + WriteEdges(lastReaders, lastWriter, writeKeys, j)
  {
    hide WritesDone, WriteEdges, WriterEdge, ReaderEdges;
    lastReaders', lastWriter', edges' := lastReaders, lastWriter, edges;
    var todo := writeKeys;
    ghost var done: set<Key> := {};
    NothingWritten(lastReaders, lastWriter, j);
    while todo != {}
      invariant todo + done == writeKeys && todo !! done
      invariant WritesDone(lastReaders, lastWriter, done, j, lastReaders', lastWriter')
      invariant edges' == edges + WriteEdges(lastReaders, lastWriter, done, j)
      decreases |todo|
    {
      var key :| key in todo;
      ghost var readers, writer, before := lastReaders', lastWriter', edges';
      OpenKeysKeepTheirEdges(lastReaders, lastWriter, done, j, readers, writer, key);
      lastReaders', lastWriter', edges' := AddWrite(key, j, lastReaders', lastWriter', edges');
      WritesAdvance(lastReaders, lastWriter, done, j, readers, writer, key, lastReaders', lastWriter');
      WriteEdgesGrow(lastReaders, lastWriter, done, key, j);
      UnionRegroups(edges, WriteEdges(lastReaders, lastWriter, done, j),
                    WriterEdge(lastWriter, key, j) + ReaderEdges(lastReaders, key, j));
      todo, done := todo - {key}, done + {key};
    }
    assert done == writeKeys;
  }

  lemma UnionRegroups(a: Edges, b: Edges, c: Edges)
    ensures (a + b) + c == a + (b + c)
  {
  }

  lemma NothingWritten(lastReaders: map<Key, set<nat>>, lastWriter: map<Key, nat>, j: nat)
    ensures WritesDone(lastReaders, lastWriter, {}, j, lastReaders, lastWriter)
    ensures WriteEdges(lastReaders, lastWriter, {}, j) == {}
  {
  }

  lemma WriteEdgesGrow(lastReaders: map<Key, set<nat>>, lastWriter: map<Key, nat>, done: set<Key>, key: Key, j: nat)
    ensures WriteEdges(lastReaders, lastWriter, done + {key}, j)
         == WriteEdges(lastReaders, lastWriter, done, j) + (WriterEdge(lastWriter, key, j) + ReaderEdges(lastReaders, key, j))
  {
    EdgesOfOneMoreKey(lastReaders, lastWriter, done, key, j);
    hide FromWriters, FromReaders, WriterEdge, ReaderEdges;
  }

  lemma OpenKeysKeepTheirEdges(
      lastReaders: map<Key, set<nat>>, lastWriter: map<Key, nat>, done: set<Key>, j: nat,
      lastReaders': map<Key, set<nat>>, lastWriter': map<Key, nat>, key: Key)
    requires WritesDone(lastReaders, lastWriter, done, j, lastReaders', lastWriter') && key !in done
    ensures WriterEdge(lastWriter, key, j) == WriterEdge(lastWriter', key, j)
    ensures ReaderEdges(lastReaders, key, j) == ReaderEdges(lastReaders', key, j)
  {
    hide WriterEdge, ReaderEdges, ReadersOf, Tracks;
    SameEntrySameEdges(lastReaders, lastReaders', lastWriter, lastWriter', key, j);
  }

  lemma WritesAdvance(
      lastReaders: map<Key, set<nat>>, lastWriter: map<Key, nat>, done: set<Key>, j: nat,
      readers: map<Key, set<nat>>, writer: map<Key, nat>, key: Key,
      readers': map<Key, set<nat>>, writer': map<Key, nat>)
    requires WritesDone(lastReaders, lastWriter, done, j, readers, writer)
    requires WritesDone(readers, writer, {key}, j, readers', writer')
    ensures WritesDone(lastReaders, lastWriter, done + {key}, j, readers', writer')
  {
    hide ReadersOf, Tracks;
  }

  lemma SameEntrySameEdges(
      lastReaders: map<Key, set<nat>>, lastReaders': map<Key, set<nat>>,
      lastWriter: map<Key, nat>, lastWriter': map<Key, nat>, key: Key, j: nat)
    requires forall i: nat :: i in ReadersOf(lastReaders, key) <==> i in ReadersOf(lastReaders', key)
    requires forall w: nat :: Tracks(lastWriter, key, w) <==> Tracks(lastWriter', key, w)
    ensures WriterEdge(lastWriter, key, j) == WriterEdge(lastWriter', key, j)
    ensures ReaderEdges(lastReaders, key, j) == ReaderEdges(lastReaders', key, j)
  {
    assert key in lastWriter ==> Tracks(lastWriter, key, lastWriter[key]);
    assert key in lastWriter' ==> Tracks(lastWriter', key, lastWriter'[key]);
  }

  lemma NoKeysNoEdges(lastReaders: map<Key, set<nat>>, lastWriter: map<Key, nat>, j: nat)
    ensures FromWriters(lastWriter, {}, j) == {} && FromReaders(lastReaders, {}, j) == {}
  {
  }

  lemma EdgesOfOneMoreKey(lastReaders: map<Key, set<nat>>, lastWriter: map<Key, nat>, keys: set<Key>, key: Key, j: nat)
    ensures FromWriters(lastWriter, keys + {key}, j) == FromWriters(lastWriter, keys, j) + WriterEdge(lastWriter, key, j)
    ensures FromReaders(lastReaders, keys + {key}, j) == FromReaders(lastReaders, keys, j) + ReaderEdges(lastReaders, key, j)
  {
  }

  method BuildDependencyGraph(acc: seq<Access>) returns (edges: Edges)
    ensures forall i: nat, j: nat :: (i, j) in edges <==> IsEdge(acc, i, j)
  {
    edges := {};
    var lastReaders: map<Key, set<nat>> := map[];
    var lastWriter: map<Key, nat> := map[];
    var j := 0;
    while j < |acc|
      invariant 0 <= j <= |acc|
      invariant TablesAt(acc, j, lastReaders, lastWriter)
      invariant forall i: nat, t: nat :: (i, t) in edges <==> t < j && IsEdge(acc, i, t)
    {
      var readers, withReads := AddReads(acc[j].readKeys, j, lastReaders, lastWriter, edges);
      var readers', writer', withWrites := AddWrites(acc[j].writeKeys, j, readers, lastWriter, withReads);
      var withOrder := withWrites + set i | 0 <= i < j && OrderEdge(acc, i, j) :: (i, j);
      forall i: nat
        ensures (i, j) in withOrder <==> IsEdge(acc, i, j)
      {
        EdgesOfOneTransaction(acc, j, lastReaders, lastWriter, readers, i);
      }
      TablesAdvance(acc, j, lastReaders, lastWriter, readers', writer');
      lastReaders, lastWriter, edges := readers', writer', withOrder;
      j := j + 1;
    }
  }

  lemma EdgesOfOneTransaction(
      acc: seq<Access>, j: nat, lastReaders: map<Key, set<nat>>, lastWriter: map<Key, nat>,
      readers: map<Key, set<nat>>, i: nat)
    requires j < |acc| && TablesAt(acc, j, lastReaders, lastWriter)
    requires forall k, i: nat ::
      i in ReadersOf(readers, k) <==> i in ReadersOf(lastReaders, k) || (k in acc[j].readKeys && i == j)
    ensures IsEdge(acc, i, j) <==>
      || OrderEdge(acc, i, j)
      || (i, j) in FromWriters(lastWriter, acc[j].readKeys, j)
      || (i, j) in FromWriters(lastWriter, acc[j].writeKeys, j)
      || (i, j) in FromReaders(readers, acc[j].writeKeys, j)
  {
    forall k
      ensures KeyEdge(acc, k, i, j) <==>
        || ((k in acc[j].readKeys || k in acc[j].writeKeys) && Tracks(lastWriter, k, i))
        || (k in acc[j].writeKeys && i in ReadersOf(readers, k))
    {
      assert OpenReader(acc, k, j, i) <==> i in ReadersOf(lastReaders, k);
      assert LastWriterBefore(acc, k, j, i) <==> Tracks(lastWriter, k, i);
    }
    if IsEdge(acc, i, j) && !OrderEdge(acc, i, j) {
      var k :| KeyEdge(acc, k, i, j);
    }
    if (i, j) in FromWriters(lastWriter, acc[j].readKeys + acc[j].writeKeys, j) {
      var k :| k in acc[j].readKeys + acc[j].writeKeys && Tracks(lastWriter, k, i);
      assert KeyEdge(acc, k, i, j);
    }
    if (i, j) in FromReaders(readers, acc[j].writeKeys, j) {
      var k :| k in acc[j].writeKeys && i in ReadersOf(readers, k);
      assert KeyEdge(acc, k, i, j);
    }
  }

  lemma TablesAdvance(
      acc: seq<Access>, j: nat, lastReaders: map<Key, set<nat>>, lastWriter: map<Key, nat>,
      readers': map<Key, set<nat>>, writer': map<Key, nat>)
    requires j < |acc| && TablesAt(acc, j, lastReaders, lastWriter)
    requires forall k, i: nat :: i in ReadersOf(readers', k) <==>
      (k !in acc[j].writeKeys && (i in ReadersOf(lastReaders, k) || (k in acc[j].readKeys && i == j)))
    requires forall k, w: nat :: Tracks(writer', k, w) <==> if k in acc[j].writeKeys then w == j else Tracks(lastWriter, k, w)
    ensures TablesAt(acc, j + 1, readers', writer')
  {
    forall k, w: nat
      ensures LastWriterBefore(acc, k, j + 1, w) <==> Tracks(writer', k, w)
    {
      WriterAdvances(acc, j, k, w);
    }
    forall k, i: nat
      ensures OpenReader(acc, k, j + 1, i) <==> i in ReadersOf(readers', k)
    {
      ReaderAdvances(acc, j, k, i);
    }
  }

  lemma WriterAdvances(acc: seq<Access>, j: nat, k: Key, w: nat)
    requires j < |acc|
    ensures LastWriterBefore(acc, k, j + 1, w)
       <==> if k in acc[j].writeKeys then w == j else LastWriterBefore(acc, k, j, w)
  {
  }

  lemma ReaderAdvances(acc: seq<Access>, j: nat, k: Key, i: nat)
    requires j < |acc|
    ensures OpenReader(acc, k, j + 1, i)
       <==> k !in acc[j].writeKeys && (OpenReader(acc, k, j, i) || (i == j && k in acc[j].readKeys))
  {
  }

  // ---------------------------------------------------------------- what the graph means

  /** A path of edges with increasing indices; self edges never take part. */
  ghost predicate Reaches(acc: seq<Access>, i: nat, j: nat)
    decreases j - i
  {
    i < j && (IsEdge(acc, i, j) || exists k | i < k < j :: IsEdge(acc, i, k) && Reaches(acc, k, j))
  }

  lemma {:induction false} ReachesIsTransitive(acc: seq<Access>, i: nat, j: nat, t: nat)
    requires Reaches(acc, i, j) && Reaches(acc, j, t)
    ensures Reaches(acc, i, t)
    decreases j - i
  {
    if !IsEdge(acc, i, j) {
      var k :| i < k < j && IsEdge(acc, i, k) && Reaches(acc, k, j);
      ReachesIsTransitive(acc, k, j, t);
    }
  }

  /** Edges never invent an order: an edge between different transactions is a conflict, and every
      edge points from a smaller or equal index. */
  lemma EdgesAreConflicts(acc: seq<Access>, i: nat, j: nat)
    requires IsEdge(acc, i, j)
    ensures i <= j < |acc|
    ensures i < j ==> Conflict(acc, i, j)
    ensures i == j ==> acc[j].readKeys * acc[j].writeKeys != {}
  {
    if !OrderEdge(acc, i, j) {
      var k :| KeyEdge(acc, k, i, j);
      if i == j {
        assert k in acc[j].readKeys * acc[j].writeKeys;
      } else if LastWriterBefore(acc, k, j, i) {
        assert k in acc[i].writeKeys * acc[j].readKeys || k in acc[i].writeKeys * acc[j].writeKeys;
      } else {
        assert k in acc[i].readKeys * acc[j].writeKeys;
      }
    }
  }

  /** Two different transactions are joined exactly if they have the sender or a system resource in
      common, or touch a key, one of them writing it, with no write of that key in between: what lies
      behind a later write gets no edge. A reader that itself writes the key counts as its writer. */
  lemma EdgesJoinNearestAccesses(acc: seq<Access>, i: nat, j: nat)
    requires i < j < |acc|
    ensures IsEdge(acc, i, j) <==>
      || acc[i].sender == acc[j].sender
      || (exists r :: r in acc[i].systemKeys && r in acc[j].systemKeys)
      || (exists k :: k in acc[i].writeKeys && (k in acc[j].readKeys || k in acc[j].writeKeys)
            && forall v | i < v < j :: k !in acc[v].writeKeys)
      || (exists k :: k in acc[i].readKeys && k !in acc[i].writeKeys && k in acc[j].writeKeys
            && forall v | i < v < j :: k !in acc[v].writeKeys)
  {
    if r :| r in acc[i].systemKeys && r in acc[j].systemKeys {
      assert r in acc[i].systemKeys * acc[j].systemKeys;
    }
    if acc[i].systemKeys * acc[j].systemKeys != {} {
      var r :| r in acc[i].systemKeys * acc[j].systemKeys;
      assert r in acc[i].systemKeys && r in acc[j].systemKeys;
    }
    forall k
      ensures KeyEdge(acc, k, i, j) <==>
        || (k in acc[i].writeKeys && (k in acc[j].readKeys || k in acc[j].writeKeys)
            && forall v | i < v < j :: k !in acc[v].writeKeys)
        || (k in acc[i].readKeys && k !in acc[i].writeKeys && k in acc[j].writeKeys
            && forall v | i < v < j :: k !in acc[v].writeKeys)
    {
    }
  }

  /** The construction draws a self edge exactly for a transaction that reads and writes one key. */
  lemma SelfEdgesAreReadModifyWrites(acc: seq<Access>, j: nat)
    requires j < |acc|
    ensures IsEdge(acc, j, j) <==> acc[j].readKeys * acc[j].writeKeys != {}
  {
    if IsEdge(acc, j, j) {
      EdgesAreConflicts(acc, j, j);
    } else if k :| k in acc[j].readKeys * acc[j].writeKeys {
      assert KeyEdge(acc, k, j, j);
    }
  }

  /** The rule that every edge points from a smaller to a larger index, and with it that the graph has
      no cycle, holds of the construction exactly when no transaction reads and writes one key. */
  lemma EdgesPointUpwardsExactly(acc: seq<Access>)
    ensures (forall i: nat, j: nat | IsEdge(acc, i, j) :: i < j)
       <==> forall j | 0 <= j < |acc| :: acc[j].readKeys * acc[j].writeKeys == {}
  {
    forall j: nat | j < |acc|
      ensures IsEdge(acc, j, j) <==> acc[j].readKeys * acc[j].writeKeys != {}
    {
      SelfEdgesAreReadModifyWrites(acc, j);
    }
    forall i: nat, j: nat | IsEdge(acc, i, j)
      ensures i <= j < |acc|
    {
      EdgesAreConflicts(acc, i, j);
    }
    if j :| 0 <= j < |acc| && acc[j].readKeys * acc[j].writeKeys != {} {
      assert IsEdge(acc, j, j);
    }
  }

  /** One transaction that increments a counter. */
  const INCREMENT := [Access({0}, {0}, {}, 0)]

  /** On it the construction outputs the single edge from the transaction to itself. */
  lemma IncrementHasASelfEdge(i: nat, j: nat)
    ensures IsEdge(INCREMENT, i, j) <==> i == 0 && j == 0
  {
    SelfEdgesAreReadModifyWrites(INCREMENT, 0);
    assert 0 in INCREMENT[0].readKeys * INCREMENT[0].writeKeys;
    if IsEdge(INCREMENT, i, j) {
      EdgesAreConflicts(INCREMENT, i, j);
    }
  }

  lemma {:induction false} WriterReaches(acc: seq<Access>, k: Key, i: nat, j: nat)
    requires i < j < |acc| && k in acc[i].writeKeys
    requires k in acc[j].readKeys || k in acc[j].writeKeys
    ensures Reaches(acc, i, j)
    decreases j - i
  {
    if v :| i < v < j && k in acc[v].writeKeys {
      WriterReaches(acc, k, i, v);
      WriterReaches(acc, k, v, j);
      ReachesIsTransitive(acc, i, v, j);
    } else {
      assert LastWriterBefore(acc, k, j, i);
      assert KeyEdge(acc, k, i, j);
    }
  }

  lemma ReaderReaches(acc: seq<Access>, k: Key, i: nat, j: nat)
    requires i < j < |acc| && k in acc[i].readKeys && k in acc[j].writeKeys
    ensures Reaches(acc, i, j)
  {
    if k in acc[i].writeKeys {
      WriterReaches(acc, k, i, j);
    } else if v :| i < v < j && k in acc[v].writeKeys && forall u | i < u < v :: k !in acc[u].writeKeys {
      assert OpenReader(acc, k, v, i);
      assert KeyEdge(acc, k, i, v);
      WriterReaches(acc, k, v, j);
    } else {
      NoFirstWriterMeansNone(acc, k, i, j);
      assert OpenReader(acc, k, j, i);
      assert KeyEdge(acc, k, i, j);
    }
  }

  lemma {:induction false} NoFirstWriterMeansNone(acc: seq<Access>, k: Key, i: nat, j: nat)
    requires i < j <= |acc|
    requires !exists v | i < v < j :: k in acc[v].writeKeys && forall u | i < u < v :: k !in acc[u].writeKeys
    ensures forall v | i < v < j :: k !in acc[v].writeKeys
  {
    if j > i + 1 {
      NoFirstWriterMeansNone(acc, k, i, j - 1);
    }
  }

  /** Every conflict is covered by a path although reader sets are cleared at each write. */
  lemma ConflictsAreReached(acc: seq<Access>, i: nat, j: nat)
    requires i < j < |acc| && Conflict(acc, i, j)
    ensures Reaches(acc, i, j)
  {
    if k :| k in acc[i].writeKeys * acc[j].readKeys {
      WriterReaches(acc, k, i, j);
    } else if k :| k in acc[i].writeKeys * acc[j].writeKeys {
      WriterReaches(acc, k, i, j);
    } else if k :| k in acc[i].readKeys * acc[j].writeKeys {
      ReaderReaches(acc, k, i, j);
    } else {
      assert OrderEdge(acc, i, j);
    }
  }

  /** Chains of conflicts: the transitive order the canonical serial execution fixes. */
  ghost predicate ConflictChain(acc: seq<Access>, i: nat, j: nat)
    decreases j - i
  {
    i < j < |acc| && (Conflict(acc, i, j) || exists k | i < k < j :: Conflict(acc, i, k) && ConflictChain(acc, k, j))
  }

  /** The output edges and the full conflict relation have the same transitive meaning. */
  lemma {:induction false} PathsAreExactlyConflictChains(acc: seq<Access>, i: nat, j: nat)
    requires i < j < |acc|
    ensures Reaches(acc, i, j) <==> ConflictChain(acc, i, j)
    decreases j - i
  {
    forall k | i < k < j
      ensures Reaches(acc, k, j) <==> ConflictChain(acc, k, j)
    {
      PathsAreExactlyConflictChains(acc, k, j);
    }
    if Reaches(acc, i, j) {
      if IsEdge(acc, i, j) {
        EdgesAreConflicts(acc, i, j);
      } else {
        var k :| i < k < j && IsEdge(acc, i, k) && Reaches(acc, k, j);
        EdgesAreConflicts(acc, i, k);
      }
    }
    if ConflictChain(acc, i, j) {
      if Conflict(acc, i, j) {
        ConflictsAreReached(acc, i, j);
      } else {
        var k :| i < k < j && Conflict(acc, i, k) && ConflictChain(acc, k, j);
        ConflictsAreReached(acc, i, k);
        ReachesIsTransitive(acc, i, k, j);
      }
    }
  }
}
