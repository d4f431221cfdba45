/** Parallel execution along the dependency graph equals serial execution
    (doc/protocol/04-finality-execution-and-epochs.md, sections 5.2, 5.3 and 6.1). */
module ParallelExecution {
  import opened Wrappers
  import opened Execution
  import opened DependencyGraph

  ghost predicate AllDeterministic(txs: seq<Tx>) {
    forall tx | tx in txs :: Deterministic(tx)
  }

  /** Of the writers of what j touches, `done` has every one before j and none after. */
  ghost predicate ReadyFor(acc: seq<Access>, done: set<nat>, j: nat)
    requires j < |acc|
  {
    && (forall v: nat | v < j && Conflict(acc, v, j) :: v in done)
    && (forall v | v in done && j < v < |acc| :: !Conflict(acc, j, v))
  }

  lemma ReadyWritersOfReads(txs: seq<Tx>, parent: State, done: set<nat>, j: nat, k: Key)
    requires j < |txs| && j !in done && ReadyFor(ExactAccess(txs, parent), done, j)
    requires k in SerialOutcome(txs, parent, j).readKeys
    ensures var acc := ExactAccess(txs, parent);
      && (NoWriter(acc, k, done) <==> NoWriter(acc, k, FirstIndices(j)))
      && forall w: nat :: IsLastWriter(acc, k, done, w) <==> IsLastWriter(acc, k, FirstIndices(j), w)
  {
    var acc := ExactAccess(txs, parent);
    forall v: nat | v < |acc| && k in acc[v].writeKeys
      ensures v in done <==> v < j || (v == j && v in done)
    {
      if v < j {
        assert k in acc[v].writeKeys * acc[j].readKeys;
        assert Conflict(acc, v, j);
      } else if v > j {
        assert k in acc[j].readKeys * acc[v].writeKeys;
        assert Conflict(acc, j, v);
      }
    }
  }

  /** Reading from a state that holds the effects of `done` gives j its serial values. */
  lemma ReadsAreSerial(txs: seq<Tx>, parent: State, done: set<nat>, j: nat, s: State)
    requires AllDeterministic(txs)
    requires j < |txs| && j !in done && ReadyFor(ExactAccess(txs, parent), done, j)
    requires HoldsEffectsOf(txs, parent, done, s)
    ensures txs[j].run(s) == SerialOutcome(txs, parent, j)
  {
    var acc := ExactAccess(txs, parent);
    var serial := SerialState(txs, parent, j);
    var keys := SerialOutcome(txs, parent, j).readKeys;
    SerialStateHoldsEffects(txs, parent, j);
    forall k | k in keys
      ensures Lookup(serial, k) == Lookup(s, k)
    {
      ReadyWritersOfReads(txs, parent, done, j, k);
      LastWriterExists(acc, k, done);
    }
    assert AgreeOn(keys, serial, s);
    assert txs[j] in txs && Deterministic(txs[j]);
  }

  // ---------------------------------------------------------------- any linear extension, in place

  /** Every transaction once, and no edge runs backwards; self edges are ignored. */
  ghost predicate LinearExtension(acc: seq<Access>, order: seq<nat>) {
    && (forall i: nat :: i in order <==> i < |acc|)
    && (forall p, q | 0 <= p < q < |order| :: order[p] != order[q] && !(order[q] < order[p] && IsEdge(acc, order[q], order[p])))
  }

  lemma {:induction false} ExtensionRespectsPaths(acc: seq<Access>, order: seq<nat>, p: nat, q: nat)
    requires LinearExtension(acc, order) && p < |order| && q < |order|
    requires Reaches(acc, order[p], order[q])
    ensures p < q
    decreases order[q] - order[p]
  {
    if !IsEdge(acc, order[p], order[q]) {
      var k :| order[p] < k < order[q] && IsEdge(acc, order[p], k) && Reaches(acc, k, order[q]);
      assert order[q] in order;
      assert k in order;
      var m :| 0 <= m < |order| && order[m] == k;
      ExtensionRespectsPaths(acc, order, m, q);
    }
  }

  lemma ExtensionIsReady(acc: seq<Access>, order: seq<nat>, n: nat)
    requires LinearExtension(acc, order) && n < |order|
    ensures order[n] in order && order[n] < |acc| && ReadyFor(acc, Done(order, n), order[n])
    ensures order[n] !in Done(order, n)
  {
    var j := order[n];
    assert j in order;
    forall v: nat | v < j && Conflict(acc, v, j)
      ensures v in Done(order, n)
    {
      assert v in order;
      var p :| 0 <= p < |order| && order[p] == v;
      ConflictsAreReached(acc, v, j);
      ExtensionRespectsPaths(acc, order, p, n);
    }
    forall v | v in Done(order, n) && j < v < |acc|
      ensures !Conflict(acc, j, v)
    {
      var p :| 0 <= p < n && order[p] == v;
      if Conflict(acc, j, v) {
        ConflictsAreReached(acc, j, v);
        ExtensionRespectsPaths(acc, order, n, p);
      }
    }
  }

  function Done(order: seq<nat>, n: nat): set<nat>
    requires n <= |order|
  {
    set p | 0 <= p < n :: order[p]
  }

  /** Running the transactions one after the other in the given order on one shared state. */
  function InPlaceState(txs: seq<Tx>, parent: State, order: seq<nat>, n: nat): State
    requires n <= |order| && forall i | i in order :: i < |txs|
    decreases n, 0
  {
    if n == 0 then parent
    else Apply(InPlaceState(txs, parent, order, n - 1), InPlaceOutcome(txs, parent, order, n - 1).writeSet)
  }

  function InPlaceOutcome(txs: seq<Tx>, parent: State, order: seq<nat>, n: nat): Outcome
    requires n < |order| && forall i | i in order :: i < |txs|
    decreases n, 1
  {
    assert order[n] in order;
    txs[order[n]].run(InPlaceState(txs, parent, order, n))
  }

  lemma OrderHoldsIndices(acc: seq<Access>, order: seq<nat>)
    requires LinearExtension(acc, order)
    ensures forall i | i in order :: i < |acc|
  {
  }

  lemma {:induction false} InPlaceHoldsEffects(txs: seq<Tx>, parent: State, order: seq<nat>, n: nat)
    requires AllDeterministic(txs) && LinearExtension(ExactAccess(txs, parent), order) && n <= |order|
    ensures HoldsEffectsOf(txs, parent, Done(order, n), InPlaceState(txs, parent, order, n))
    ensures forall p | 0 <= p < n ::
      order[p] < |txs| && InPlaceOutcome(txs, parent, order, p) == SerialOutcome(txs, parent, order[p])
  {
    var acc := ExactAccess(txs, parent);
    OrderHoldsIndices(acc, order);
    if n > 0 {
      hide AllDeterministic, LinearExtension, SerialOutcome, ReadyFor, HoldsEffectsOf;
      var j := order[n - 1];
      InPlaceHoldsEffects(txs, parent, order, n - 1);
      ExtensionIsReady(acc, order, n - 1);
      var s := InPlaceState(txs, parent, order, n - 1);
      ReadsAreSerial(txs, parent, Done(order, n - 1), j, s);
      WritesExtendInOrder(txs, parent, Done(order, n - 1), j);
      ApplyExtendsEffects(txs, parent, Done(order, n - 1), j, s);
      assert Done(order, n) == Done(order, n - 1) + {j};
    }
  }

  lemma WritesExtendInOrder(txs: seq<Tx>, parent: State, done: set<nat>, j: nat)
    requires j < |txs| && j !in done && ReadyFor(ExactAccess(txs, parent), done, j)
    ensures forall v, k | v in done && v < |txs| && k in SerialOutcome(txs, parent, v).writeSet
                        && k in SerialOutcome(txs, parent, j).writeSet :: v < j
  {
    var acc := ExactAccess(txs, parent);
    forall v, k | v in done && v < |txs| && k in SerialOutcome(txs, parent, v).writeSet
                && k in SerialOutcome(txs, parent, j).writeSet
      ensures v < j
    {
      assert k in acc[j].writeKeys * acc[v].writeKeys;
    }
  }

  /** Order independence: along any linear extension of the built graph every transaction reads its
      serial values, produces its serial receipt and writes, and the final state is the serial one. */
  lemma LinearExtensionsAreSerial(txs: seq<Tx>, parent: State, order: seq<nat>, edges: Edges)
    requires AllDeterministic(txs)
    requires forall i: nat, j: nat :: (i, j) in edges <==> IsEdge(ExactAccess(txs, parent), i, j)
    requires forall i: nat :: i in order <==> i < |txs|
    requires forall p, q | 0 <= p < q < |order| ::
      order[p] != order[q] && ((order[q], order[p]) in edges ==> order[q] == order[p])
    ensures forall p | 0 <= p < |order| ::
      order[p] in order && InPlaceOutcome(txs, parent, order, p) == SerialOutcome(txs, parent, order[p])
    ensures InPlaceState(txs, parent, order, |order|) == SerialState(txs, parent, |txs|)
  {
    var acc := ExactAccess(txs, parent);
    assert LinearExtension(acc, order);
    InPlaceHoldsEffects(txs, parent, order, |order|);
    SerialStateHoldsEffects(txs, parent, |txs|);
    forall i: nat
      ensures i in Done(order, |order|) <==> i in FirstIndices(|txs|)
    {
      assert i in order <==> i < |txs|;
    }
    assert Done(order, |order|) == FirstIndices(|txs|);
    EffectsDetermineState(txs, parent, FirstIndices(|txs|),
      InPlaceState(txs, parent, order, |order|), SerialState(txs, parent, |txs|));
    assert forall p | 0 <= p < |order| :: order[p] in order;
  }

  // ---------------------------------------------------------------- multi-version reads

  /** The read rule: the version of the greatest completed writer below j, else the parent value. */
  function MvccRead(parent: State, versions: map<nat, Outcome>, j: nat, k: Key): Option<Value> {
    if j == 0 then Lookup(parent, k)
    else if (j - 1) in versions && k in versions[j - 1].writeSet then Effect(versions[j - 1].writeSet[k])
    else MvccRead(parent, versions, j - 1, k)
  }

  /** The writer whose version the rule picks. */
  function MvccWriter(versions: map<nat, Outcome>, j: nat, k: Key): (w: Option<nat>)
    ensures w.Some? ==> w.value < j && w.value in versions && k in versions[w.value].writeSet
  {
    if j == 0 then None
    else if (j - 1) in versions && k in versions[j - 1].writeSet then Some(j - 1)
    else MvccWriter(versions, j - 1, k)
  }

  lemma {:induction false} ReadIsOfItsWriter(parent: State, versions: map<nat, Outcome>, j: nat, k: Key)
    ensures var w := MvccWriter(versions, j, k);
      MvccRead(parent, versions, j, k) == if w.Some? then Effect(versions[w.value].writeSet[k]) else Lookup(parent, k)
  {
    if j > 0 {
      ReadIsOfItsWriter(parent, versions, j - 1, k);
    }
  }

  /** The state that transaction j sees through that rule. */
  function MvccView(parent: State, versions: map<nat, Outcome>, j: nat): State {
    if j == 0 then parent
    else if (j - 1) in versions then Apply(MvccView(parent, versions, j - 1), versions[j - 1].writeSet)
    else MvccView(parent, versions, j - 1)
  }

  lemma {:induction false} ViewFollowsReadRule(parent: State, versions: map<nat, Outcome>, j: nat, k: Key)
    ensures Lookup(MvccView(parent, versions, j), k) == MvccRead(parent, versions, j, k)
  {
    if j > 0 {
      ViewFollowsReadRule(parent, versions, j - 1, k);
    }
  }

  lemma {:induction false} ViewHoldsEffects(txs: seq<Tx>, parent: State, versions: map<nat, Outcome>, j: nat)
    requires j <= |txs|
    requires AreSerial(txs, parent, versions)
    ensures HoldsEffectsOf(txs, parent, versions.Keys * FirstIndices(j), MvccView(parent, versions, j))
  {
    if j > 0 {
      ViewHoldsEffects(txs, parent, versions, j - 1);
      var before := versions.Keys * FirstIndices(j - 1);
      if j - 1 in versions {
        ApplyExtendsEffects(txs, parent, before, j - 1, MvccView(parent, versions, j - 1));
        assert versions.Keys * FirstIndices(j) == before + {j - 1};
      } else {
        assert versions.Keys * FirstIndices(j) == before;
      }
    }
  }

  /** A concurrent run. The n-th transaction to complete is order[n]; it reads the versions of the
      first starts[n] completions, among which are all its ancestors in the graph. */
  datatype Schedule = Schedule(order: seq<nat>, starts: seq<nat>)

  ghost predicate ValidSchedule(acc: seq<Access>, plan: Schedule) {
    && |plan.starts| == |plan.order|
    && (forall n | 0 <= n < |plan.order| :: plan.order[n] < |acc| && plan.starts[n] <= n)
    && (forall p, q | 0 <= p < q < |plan.order| :: plan.order[p] != plan.order[q])
    && (forall n, i: nat | 0 <= n < |plan.order| && Reaches(acc, i, plan.order[n]) :: i in plan.order[..plan.starts[n]])
  }

  function Versions(txs: seq<Tx>, parent: State, plan: Schedule, n: nat): map<nat, Outcome>
    requires |plan.starts| == |plan.order| && n <= |plan.order|
    requires forall m | 0 <= m < |plan.order| :: plan.order[m] < |txs| && plan.starts[m] <= m
    decreases n, 0
  {
    if n == 0 then map[]
    else Versions(txs, parent, plan, n - 1)[plan.order[n - 1] := SpeculativeOutcome(txs, parent, plan, n - 1)]
  }

  function SpeculativeOutcome(txs: seq<Tx>, parent: State, plan: Schedule, n: nat): Outcome
    requires |plan.starts| == |plan.order| && n < |plan.order|
    requires forall m | 0 <= m < |plan.order| :: plan.order[m] < |txs| && plan.starts[m] <= m
    decreases n, 1
  {
    var j := plan.order[n];
    txs[j].run(MvccView(parent, Versions(txs, parent, plan, plan.starts[n]), j))
  }

  ghost predicate AreSerial(txs: seq<Tx>, parent: State, versions: map<nat, Outcome>) {
    forall v | v in versions :: v < |txs| && versions[v] == SerialOutcome(txs, parent, v)
  }

  lemma {:induction false} CompletedAreVersioned(txs: seq<Tx>, parent: State, plan: Schedule, n: nat)
    requires |plan.starts| == |plan.order| && n <= |plan.order|
    requires forall m | 0 <= m < |plan.order| :: plan.order[m] < |txs| && plan.starts[m] <= m
    ensures Versions(txs, parent, plan, n).Keys == Done(plan.order, n)
  {
    if n > 0 {
      CompletedAreVersioned(txs, parent, plan, n - 1);
      assert Done(plan.order, n) == Done(plan.order, n - 1) + {plan.order[n - 1]};
    }
  }

  lemma OneMoreVersion(txs: seq<Tx>, parent: State, plan: Schedule, n: nat)
    requires |plan.starts| == |plan.order| && n < |plan.order|
    requires forall m | 0 <= m < |plan.order| :: plan.order[m] < |txs| && plan.starts[m] <= m
    ensures Versions(txs, parent, plan, 0) == map[]
    ensures Versions(txs, parent, plan, n + 1)
         == Versions(txs, parent, plan, n)[plan.order[n] :=
              txs[plan.order[n]].run(MvccView(parent, Versions(txs, parent, plan, plan.starts[n]), plan.order[n]))]
  {
    hide MvccView;
  }

  lemma ScheduleShape(acc: seq<Access>, plan: Schedule)
    requires ValidSchedule(acc, plan)
    ensures |plan.starts| == |plan.order|
    ensures forall m | 0 <= m < |plan.order| :: plan.order[m] < |acc| && plan.starts[m] <= m
  {
  }

  /** Whenever a transaction starts after its ancestors, its multi-version run is its serial run. */
  lemma {:induction false} ConcurrentRunsAreSerial(txs: seq<Tx>, parent: State, plan: Schedule, n: nat)
    requires AllDeterministic(txs) && ValidSchedule(ExactAccess(txs, parent), plan) && n <= |plan.order|
    ensures AreSerial(txs, parent, Versions(txs, parent, plan, n))
    decreases n
  {
    hide AreSerial, AllDeterministic, MvccView, SerialOutcome, Versions, ValidSchedule;
    ScheduleShape(ExactAccess(txs, parent), plan);
    if n > 0 {
      ConcurrentRunsAreSerial(txs, parent, plan, n - 1);
      ConcurrentRunsAreSerial(txs, parent, plan, plan.starts[n - 1]);
      CompletedAreVersioned(txs, parent, plan, plan.starts[n - 1]);
      OneRunIsSerial(txs, parent, plan, n - 1, Versions(txs, parent, plan, plan.starts[n - 1]));
      OneMoreVersion(txs, parent, plan, n - 1);
      AddSerialVersion(txs, parent, Versions(txs, parent, plan, n - 1), plan.order[n - 1]);
    } else {
      NothingVersioned(txs, parent, plan);
    }
  }

  lemma NothingVersioned(txs: seq<Tx>, parent: State, plan: Schedule)
    requires |plan.starts| == |plan.order|
    requires forall m | 0 <= m < |plan.order| :: plan.order[m] < |txs| && plan.starts[m] <= m
    ensures AreSerial(txs, parent, Versions(txs, parent, plan, 0))
  {
  }

  lemma AddSerialVersion(txs: seq<Tx>, parent: State, versions: map<nat, Outcome>, j: nat)
    requires j < |txs| && AreSerial(txs, parent, versions)
    ensures AreSerial(txs, parent, versions[j := SerialOutcome(txs, parent, j)])
  {
  }

  /** When all have completed, applying the write sets in index order gives the serial state. */
  lemma ConcurrentBlockIsSerial(txs: seq<Tx>, parent: State, plan: Schedule)
    requires AllDeterministic(txs) && ValidSchedule(ExactAccess(txs, parent), plan)
    requires forall i: nat | i < |txs| :: i in plan.order
    ensures MvccView(parent, Versions(txs, parent, plan, |plan.order|), |txs|) == SerialState(txs, parent, |txs|)
  {
    var versions := Versions(txs, parent, plan, |plan.order|);
    ConcurrentRunsAreSerial(txs, parent, plan, |plan.order|);
    CompletedAreVersioned(txs, parent, plan, |plan.order|);
    ViewHoldsEffects(txs, parent, versions, |txs|);
    SerialStateHoldsEffects(txs, parent, |txs|);
    forall i: nat | i < |txs|
      ensures i in versions
    {
      assert i in plan.order && i in Done(plan.order, |plan.order|);
    }
    assert versions.Keys * FirstIndices(|txs|) == FirstIndices(|txs|);
    EffectsDetermineState(txs, parent, FirstIndices(|txs|),
      MvccView(parent, versions, |txs|), SerialState(txs, parent, |txs|));
  }

  lemma OneRunIsSerial(txs: seq<Tx>, parent: State, plan: Schedule, n: nat, versions: map<nat, Outcome>)
    requires AllDeterministic(txs) && ValidSchedule(ExactAccess(txs, parent), plan) && n < |plan.order|
    requires versions.Keys == Done(plan.order, plan.starts[n])
    requires AreSerial(txs, parent, versions)
    ensures txs[plan.order[n]].run(MvccView(parent, versions, plan.order[n])) == SerialOutcome(txs, parent, plan.order[n])
  {
    var j := plan.order[n];
    ViewHoldsEffects(txs, parent, versions, j);
    var done := versions.Keys * FirstIndices(j);
    ScheduleIsReady(ExactAccess(txs, parent), plan, n, done);
    ReadsAreSerial(txs, parent, done, j, MvccView(parent, versions, j));
  }

  /** Every serial writer of a key that j reads is an ancestor of j, and has completed when j starts. */
  lemma WritersOfReadsAreAncestors(acc: seq<Access>, plan: Schedule, n: nat, w: nat, k: Key)
    requires ValidSchedule(acc, plan) && n < |plan.order| && w < plan.order[n]
    requires k in acc[w].writeKeys && k in acc[plan.order[n]].readKeys
    ensures Reaches(acc, w, plan.order[n]) && w in plan.order[..plan.starts[n]] && w in Done(plan.order, plan.starts[n])
  {
    assert k in acc[w].writeKeys * acc[plan.order[n]].readKeys;
    ConflictsAreReached(acc, w, plan.order[n]);
    assert w in plan.order[..plan.starts[n]];
  }

  /** The whole read rule: the version that is read is that of the last serial writer below the reader,
      and this writer is a completed ancestor in the graph; the parent state is read exactly when
      nobody below writes the key. */
  lemma ChosenWriterIsACompletedAncestor(txs: seq<Tx>, parent: State, plan: Schedule, n: nat, k: Key)
    requires AllDeterministic(txs) && ValidSchedule(ExactAccess(txs, parent), plan) && n < |plan.order|
    requires k in SpeculativeOutcome(txs, parent, plan, n).readKeys
    ensures var acc, j := ExactAccess(txs, parent), plan.order[n];
      match MvccWriter(Versions(txs, parent, plan, plan.starts[n]), j, k)
      case Some(w) =>
        IsLastWriter(acc, k, FirstIndices(j), w) && Reaches(acc, w, j) && w in plan.order[..plan.starts[n]]
      case None => NoWriter(acc, k, FirstIndices(j))
  {
    var acc, j := ExactAccess(txs, parent), plan.order[n];
    var versions := Versions(txs, parent, plan, plan.starts[n]);
    ConcurrentRunsAreSerial(txs, parent, plan, plan.starts[n]);
    CompletedAreVersioned(txs, parent, plan, plan.starts[n]);
    OneRunIsSerial(txs, parent, plan, n, versions);
    forall w: nat | w < j && k in acc[w].writeKeys
      ensures w in versions && Reaches(acc, w, j) && w in plan.order[..plan.starts[n]]
    {
      WritersOfReadsAreAncestors(acc, plan, n, w, k);
    }
    hide Versions, SpeculativeOutcome, ValidSchedule, SerialOutcome;
    PickedWriterIsLast(txs, parent, versions, j, k);
  }

  /** When all serial writers of a key below j are versioned, the rule picks the last of them. */
  lemma {:induction false} PickedWriterIsLast(txs: seq<Tx>, parent: State, versions: map<nat, Outcome>, j: nat, k: Key)
    requires j <= |txs| && AreSerial(txs, parent, versions)
    requires forall w: nat | w < j && k in ExactAccess(txs, parent)[w].writeKeys :: w in versions
    ensures match MvccWriter(versions, j, k)
            case Some(w) => IsLastWriter(ExactAccess(txs, parent), k, FirstIndices(j), w)
            case None => NoWriter(ExactAccess(txs, parent), k, FirstIndices(j))
  {
    hide SerialOutcome;
    if j > 0 {
      PickedWriterIsLast(txs, parent, versions, j - 1, k);
    }
  }

  lemma ScheduleIsReady(acc: seq<Access>, plan: Schedule, n: nat, done: set<nat>)
    requires ValidSchedule(acc, plan) && n < |plan.order|
    requires done == Done(plan.order, plan.starts[n]) * FirstIndices(plan.order[n])
    ensures ReadyFor(acc, done, plan.order[n]) && plan.order[n] !in done
  {
    var j := plan.order[n];
    forall v: nat | v < j && Conflict(acc, v, j)
      ensures v in done
    {
      ConflictsAreReached(acc, v, j);
      assert v in plan.order[..plan.starts[n]];
    }
  }
}
