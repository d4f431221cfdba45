/** From the versioned store to the certified prefix
    (doc/protocol/04-finality-execution-and-epochs.md, sections 6 and 7): what the runs of a schedule
    record is certified completely, and what a version has to hold for that to be safe. */
module ScheduledCertification {
  import opened Wrappers
  import opened Execution
  import opened ParallelExecution
  import opened PrefixCertification

  // ---------------------------------------------------------------- runs along the graph

  /** The VM keeps every run inside the signed scope. */
  ghost predicate AllScoped(txs: seq<Tx>) {
    forall i, s: State | 0 <= i < |txs| :: txs[i].run(s).readKeys + txs[i].run(s).writeSet.Keys <= txs[i].scope
  }

  /** What the worker that completes n-th reports: its outcome and, for each key it read, the version
      that the read rule gave it. */
  function WorkerResult(txs: seq<Tx>, parent: State, plan: Schedule, n: nat, predicted: Access): SpeculativeResult
    requires |plan.starts| == |plan.order| && n < |plan.order|
    requires forall m | 0 <= m < |plan.order| :: plan.order[m] < |txs| && plan.starts[m] <= m
  {
    var j, seen := plan.order[n], Versions(txs, parent, plan, plan.starts[n]);
    var outcome := SpeculativeOutcome(txs, parent, plan, n);
    SpeculativeResult(
      j, Some(predicted), false,
      map k | k in outcome.readKeys :: VersionedValue(MvccWriter(seen, j, k), MvccRead(parent, seen, j, k)),
      outcome)
  }

  /** The results are those of the schedule's own workers. */
  ghost predicate RecordedBy(txs: seq<Tx>, parent: State, plan: Schedule, results: seq<SpeculativeResult>)
    requires ValidSchedule(ExactAccess(txs, parent), plan)
  {
    && |results| == |txs|
    && forall n | 0 <= n < |plan.order| ::
         results[plan.order[n]] == WorkerResult(txs, parent, plan, n, ExactAccess(txs, parent)[plan.order[n]])
  }

  lemma WorkerOutcomeIsSerial(txs: seq<Tx>, parent: State, plan: Schedule, n: nat)
    requires AllDeterministic(txs) && ValidSchedule(ExactAccess(txs, parent), plan) && n < |plan.order|
    ensures SpeculativeOutcome(txs, parent, plan, n) == SerialOutcome(txs, parent, plan.order[n])
    ensures AreSerial(txs, parent, Versions(txs, parent, plan, plan.starts[n]))
  {
    ConcurrentRunsAreSerial(txs, parent, plan, plan.starts[n]);
    CompletedAreVersioned(txs, parent, plan, plan.starts[n]);
    OneRunIsSerial(txs, parent, plan, n, Versions(txs, parent, plan, plan.starts[n]));
  }

  lemma AllOutcomesAreSerial(txs: seq<Tx>, parent: State, plan: Schedule, results: seq<SpeculativeResult>)
    requires AllDeterministic(txs) && ValidSchedule(ExactAccess(txs, parent), plan)
    requires RecordedBy(txs, parent, plan, results) && forall i: nat | i < |txs| :: i in plan.order
    ensures CertifiedBelow(txs, parent, results, |txs|)
  {
    forall v: nat | v < |txs|
      ensures results[v].outcome == SerialOutcome(txs, parent, v)
    {
      assert v in plan.order;
      var n :| 0 <= n < |plan.order| && plan.order[n] == v;
      WorkerOutcomeIsSerial(txs, parent, plan, n);
    }
  }

  /** The last serial writer below j is the latest one among the results. */
  lemma {:induction false} LatestIsLastWriter(
      txs: seq<Tx>, parent: State, results: seq<SpeculativeResult>, j: nat, k: Key, w: Option<nat>)
    requires j <= |txs| == |results| && CertifiedBelow(txs, parent, results, |txs|)
    requires match w
             case Some(i) => IsLastWriter(ExactAccess(txs, parent), k, FirstIndices(j), i)
             case None => NoWriter(ExactAccess(txs, parent), k, FirstIndices(j))
    ensures LatestWriter(results, j, k) == w
    decreases j
  {
    hide SerialOutcome;
    if j > 0 && k !in results[j - 1].outcome.writeSet {
      LatestIsLastWriter(txs, parent, results, j - 1, k, w);
    }
  }

  /** A worker recorded the latest version of each key. */
  lemma WorkerVersionIsLatest(
      txs: seq<Tx>, parent: State, plan: Schedule, results: seq<SpeculativeResult>, n: nat, k: Key)
    requires AllDeterministic(txs) && ValidSchedule(ExactAccess(txs, parent), plan) && n < |plan.order|
    requires |results| == |txs| && CertifiedBelow(txs, parent, results, |txs|)
    requires k in SpeculativeOutcome(txs, parent, plan, n).readKeys
    ensures var j, seen := plan.order[n], Versions(txs, parent, plan, plan.starts[n]);
      VersionedValue(MvccWriter(seen, j, k), MvccRead(parent, seen, j, k)) == LatestVersion(parent, results, j, k)
  {
    var j, seen := plan.order[n], Versions(txs, parent, plan, plan.starts[n]);
    ChosenWriterIsACompletedAncestor(txs, parent, plan, n, k);
    WorkerOutcomeIsSerial(txs, parent, plan, n);
    ReadIsOfItsWriter(parent, seen, j, k);
    LatestIsLastWriter(txs, parent, results, j, k, MvccWriter(seen, j, k));
  }

  lemma WorkerResultIsGenuine(txs: seq<Tx>, parent: State, plan: Schedule, n: nat, predicted: Access)
    requires AllDeterministic(txs) && ValidSchedule(ExactAccess(txs, parent), plan) && n < |plan.order|
    ensures Genuine(txs[plan.order[n]], WorkerResult(txs, parent, plan, n, predicted))
  {
    var j, seen := plan.order[n], Versions(txs, parent, plan, plan.starts[n]);
    var r := WorkerResult(txs, parent, plan, n, predicted);
    forall k | k in r.exactReadVersions
      ensures r.exactReadVersions[k].value == Lookup(MvccView(parent, seen, j), k)
    {
      ViewFollowsReadRule(parent, seen, j, k);
    }
    assert txs[j] in txs && Deterministic(txs[j]);
    ProducedIsGenuine(txs[j], MvccView(parent, seen, j), r);
  }

  lemma WorkerResultValidates(txs: seq<Tx>, parent: State, plan: Schedule, results: seq<SpeculativeResult>, n: nat)
    requires AllDeterministic(txs) && AllScoped(txs) && ValidSchedule(ExactAccess(txs, parent), plan)
    requires RecordedBy(txs, parent, plan, results) && CertifiedBelow(txs, parent, results, |txs|) && n < |plan.order|
    ensures ValidateSpeculativeResult(txs, parent, results, plan.order[n])
  {
    var j, acc := plan.order[n], ExactAccess(txs, parent);
    var r := WorkerResult(txs, parent, plan, n, acc[j]);
    WorkerOutcomeIsSerial(txs, parent, plan, n);
    WorkerResultIsGenuine(txs, parent, plan, n, acc[j]);
    forall k | k in r.exactReadVersions
      ensures r.exactReadVersions[k] == LatestVersion(parent, results, j, k)
    {
      WorkerVersionIsLatest(txs, parent, plan, results, n, k);
    }
    hide Genuine, Versions, SpeculativeOutcome, LatestVersion, ValidSchedule;
  }

  /** The store and the certification fit together: whatever overlapping schedule waits for the
      ancestors in the graph, what its workers record is certified to the last transaction. */
  lemma GraphScheduledResultsCertify(txs: seq<Tx>, parent: State, plan: Schedule, results: seq<SpeculativeResult>)
    requires AllDeterministic(txs) && AllScoped(txs) && ValidSchedule(ExactAccess(txs, parent), plan)
    requires forall i: nat | i < |txs| :: i in plan.order
    requires RecordedBy(txs, parent, plan, results)
    ensures |results| == |txs| && FirstInvalid(txs, parent, results, 0) == |txs|
  {
    AllOutcomesAreSerial(txs, parent, plan, results);
    forall v: nat | v < |txs|
      ensures ValidateSpeculativeResult(txs, parent, results, v)
    {
      assert v in plan.order;
      var n :| 0 <= n < |plan.order| && plan.order[n] == v;
      WorkerResultValidates(txs, parent, plan, results, n);
    }
  }

  /** So nothing is executed a second time. */
  method ExecuteScheduledBlock(
      txs: seq<Tx>, parent: State, ghost plan: Schedule, results: seq<SpeculativeResult>, prefixSize: nat)
    returns (halted: bool, state: State, receipts: seq<int>, executed: seq<nat>)
    requires AllDeterministic(txs) && AllScoped(txs) && ValidSchedule(ExactAccess(txs, parent), plan)
    requires forall i: nat | i < |txs| :: i in plan.order
    requires RecordedBy(txs, parent, plan, results) && 0 < prefixSize
    ensures halted <==> OverflowsSomewhere(txs, parent, results, prefixSize)
    ensures !halted ==> executed == []
    ensures !halted ==> state == SerialState(txs, parent, |txs|) && receipts == SerialReceipts(txs, parent, |txs|)
  {
    GraphScheduledResultsCertify(txs, parent, plan, results);
    halted, state, receipts, executed := ExecuteBlock(txs, parent, results, prefixSize);
  }

  // ---------------------------------------------------------------- versions that only name the writer

  /** The comparison of section 7.1 when a version is the writer's index alone. */
  predicate WritersCurrent(results: seq<SpeculativeResult>, i: nat)
    requires i < |results|
  {
    var versions := results[i].exactReadVersions;
    forall k | k in versions :: versions[k].writer == LatestWriter(results, i, k)
  }

  /** A transaction that reads all the given keys and puts the value of one of them on its receipt. */
  function Probe(keys: set<Key>, k: Key): Tx {
    Tx(0, keys, (s: State) => Outcome(keys, map[], {}, Encode(Lookup(s, k))))
  }

  /** An injection of optional values into the receipts. */
  function Encode(v: Option<Value>): int {
    match v
    case None => 0
    case Some(x) => if x >= 0 then x + 1 else x
  }

  lemma ProbeIsDeterministic(keys: set<Key>, k: Key)
    requires k in keys
    ensures Deterministic(Probe(keys, k))
  {
    forall s: State, t: State | AgreeOn(Probe(keys, k).run(s).readKeys, s, t)
      ensures Probe(keys, k).run(t) == Probe(keys, k).run(s)
    {
      assert k in Probe(keys, k).run(s).readKeys;
    }
  }

  /** tx does on the recorded values what it does serially. */
  ghost predicate SerialOn(txs: seq<Tx>, parent: State, i: nat, versions: map<Key, VersionedValue>, tx: Tx)
    requires i <= |txs|
  {
    tx.run(RecordedState(versions)) == tx.run(SerialState(txs, parent, i))
  }

  /** Each recorded value is still what its writer's present result holds. */
  predicate ValuesCurrent(parent: State, results: seq<SpeculativeResult>, i: nat)
    requires i < |results|
  {
    var versions := results[i].exactReadVersions;
    forall k | k in versions :: versions[k].value == LatestVersion(parent, results, i, k).value
  }

  lemma CurrentValuesAreSafe(txs: seq<Tx>, parent: State, results: seq<SpeculativeResult>, i: nat, tx: Tx)
    requires i < |txs| == |results| && CertifiedBelow(txs, parent, results, i) && ValuesCurrent(parent, results, i)
    requires Deterministic(tx)
    requires tx.run(RecordedState(results[i].exactReadVersions)).readKeys <= results[i].exactReadVersions.Keys
    ensures SerialOn(txs, parent, i, results[i].exactReadVersions, tx)
  {
    hide LatestVersion, SerialState, CertifiedBelow;
    var versions, state := results[i].exactReadVersions, SerialState(txs, parent, i);
    forall k | k in versions
      ensures Lookup(RecordedState(versions), k) == Lookup(state, k)
    {
      VersionsAreSerialValues(txs, parent, results, i, k);
    }
    assert AgreeOn(tx.run(RecordedState(versions)).readKeys, RecordedState(versions), state);
  }

  lemma StaleValueIsSeen(txs: seq<Tx>, parent: State, results: seq<SpeculativeResult>, i: nat, k: Key)
    requires i < |txs| == |results| && CertifiedBelow(txs, parent, results, i)
    requires k in results[i].exactReadVersions
    requires results[i].exactReadVersions[k].value != LatestVersion(parent, results, i, k).value
    ensures var versions := results[i].exactReadVersions;
      Deterministic(Probe(versions.Keys, k)) && !SerialOn(txs, parent, i, versions, Probe(versions.Keys, k))
  {
    hide LatestVersion, SerialState, CertifiedBelow;
    VersionsAreSerialValues(txs, parent, results, i, k);
    ProbeIsDeterministic(results[i].exactReadVersions.Keys, k);
  }

  /** When the writers match, the recorded reads are safe for every transaction that stays within them
      exactly if each recorded value is still what its writer's present result holds. So the index
      is enough as long as no writer was run again with another result after it was read. */
  lemma WriterIndexIsEnoughExactly(txs: seq<Tx>, parent: State, results: seq<SpeculativeResult>, i: nat)
    requires i < |txs| == |results| && CertifiedBelow(txs, parent, results, i) && WritersCurrent(results, i)
    ensures var versions := results[i].exactReadVersions;
      (forall tx | Deterministic(tx) && tx.run(RecordedState(versions)).readKeys <= versions.Keys ::
         SerialOn(txs, parent, i, versions, tx))
      <==> ValuesCurrent(parent, results, i)
    ensures VersionsCurrent(parent, results, i) <==> ValuesCurrent(parent, results, i)
  {
    var versions := results[i].exactReadVersions;
    if ValuesCurrent(parent, results, i) {
      hide Deterministic, SerialOn, CertifiedBelow;
      forall tx | Deterministic(tx) && tx.run(RecordedState(versions)).readKeys <= versions.Keys
        ensures SerialOn(txs, parent, i, versions, tx)
      {
        CurrentValuesAreSafe(txs, parent, results, i, tx);
      }
    } else {
      var k :| k in versions && versions[k].value != LatestVersion(parent, results, i, k).value;
      hide Deterministic, SerialOn, CertifiedBelow;
      StaleValueIsSeen(txs, parent, results, i, k);
    }
  }

  // A block in which the second transaction was retried: it first copied from the parent state, and
  // again after the first one had written; the third read what the first attempt had left.

  const SETTER := Tx(0, {0}, (s: State) => Outcome({}, map[0 := Put(1)], {}, 0))
  const COPIER := Tx(1, {0, 1}, (s: State) => Outcome({0}, map[1 := Put(if 0 in s then s[0] else 0)], {}, 0))
  const REPORTER := Tx(2, {1}, (s: State) => Outcome({1}, map[], {}, if 1 in s then s[1] else 0))

  const RETRIED := [SETTER, COPIER, REPORTER]

  const FIRST_ATTEMPT := SpeculativeResult(
    1, None, false, map[0 := VersionedValue(None, None)], Outcome({0}, map[1 := Put(0)], {}, 0))

  const RETRIED_RESULTS := [
    SpeculativeResult(0, Some(Access({}, {0}, {}, 0)), false, map[], Outcome({}, map[0 := Put(1)], {}, 0)),
    SpeculativeResult(1, Some(Access({0}, {1}, {}, 1)), false, map[0 := VersionedValue(Some(0), Some(1))],
                      Outcome({0}, map[1 := Put(1)], {}, 0)),
    SpeculativeResult(2, Some(Access({1}, {}, {}, 2)), false, map[1 := VersionedValue(Some(1), Some(0))],
                      Outcome({1}, map[], {}, 0))]

  lemma RetriedSerially()
    ensures SerialState(RETRIED, map[], 1) == map[0 := 1]
    ensures SerialState(RETRIED, map[], 2) == map[0 := 1, 1 := 1]
    ensures SerialOutcome(RETRIED, map[], 0) == Outcome({}, map[0 := Put(1)], {}, 0)
    ensures SerialOutcome(RETRIED, map[], 1) == Outcome({0}, map[1 := Put(1)], {}, 0)
    ensures SerialOutcome(RETRIED, map[], 2) == Outcome({1}, map[], {}, 1)
  {
    assert SerialState(RETRIED, map[], 0) == map[];
    assert SerialState(RETRIED, map[], 1) == Apply(map[], map[0 := Put(1)]);
    assert SerialState(RETRIED, map[], 2) == Apply(map[0 := 1], map[1 := Put(1)]);
  }

  lemma RetriedIsDeterministic()
    ensures AllDeterministic(RETRIED)
  {
    forall s: State, t: State | AgreeOn({0}, s, t)
      ensures COPIER.run(t) == COPIER.run(s)
    {
      assert Lookup(s, 0) == Lookup(t, 0);
    }
    forall s: State, t: State | AgreeOn({1}, s, t)
      ensures REPORTER.run(t) == REPORTER.run(s)
    {
      assert Lookup(s, 1) == Lookup(t, 1);
    }
    assert Deterministic(SETTER) && Deterministic(COPIER) && Deterministic(REPORTER);
  }

  /** The index alone does miss a retried writer: every result is genuine and every index the latest, yet
      the third outcome is not the serial one. Comparing the value too refuses it. */
  lemma RetriedWriterIsMissedByItsIndex()
    ensures AllDeterministic(RETRIED) && CertifiedBelow(RETRIED, map[], RETRIED_RESULTS, 2)
    ensures Genuine(COPIER, FIRST_ATTEMPT) && forall i | 0 <= i < 3 :: Genuine(RETRIED[i], RETRIED_RESULTS[i])
    ensures RETRIED_RESULTS[2].exactReadVersions[1].value == Effect(FIRST_ATTEMPT.outcome.writeSet[1])
    ensures WritersCurrent(RETRIED_RESULTS, 2)
    ensures RETRIED_RESULTS[2].outcome != SerialOutcome(RETRIED, map[], 2)
    ensures !ValidateSpeculativeResult(RETRIED, map[], RETRIED_RESULTS, 2)
  {
    RetriedSerially();
    RetriedIsDeterministic();
    hide SerialState, SerialOutcome, AllDeterministic;
    assert RecordedState(map[]) == map[];
    assert RecordedState(RETRIED_RESULTS[1].exactReadVersions) == map[0 := 1];
    assert RecordedState(RETRIED_RESULTS[2].exactReadVersions) == map[1 := 0];
    assert 1 in RETRIED_RESULTS[2].exactReadVersions;
  }
}
