/** Certifying speculative results in index order and falling back once to serial execution
    (doc/protocol/04-finality-execution-and-epochs.md, sections 6.3, 7.1 and 7.2). */
module PrefixCertification {
  import opened Wrappers
  import opened Execution
  import opened ParallelExecution

  const UINT32_MAX := 0xFFFF_FFFF

  /** What a read found: the writer's index, or none for the parent state, and the value or absence. */
  datatype VersionedValue = VersionedValue(writer: Option<nat>, value: Option<Value>)

  /** What a speculative run reports. predicted is the access set the graph was built with, none if no
      exact set was known; authoritative says that the run was the serial one of a barrier. */
  datatype SpeculativeResult = SpeculativeResult(
    txIndex: nat, predicted: Option<Access>, authoritative: bool, exactReadVersions: map<Key, VersionedValue>,
    outcome: Outcome)

  function AccessOf(tx: Tx, o: Outcome): Access {
    Access(o.readKeys, o.writeSet.Keys, o.systemKeys, tx.sender)
  }

  /** The latest writer of k below i according to the results. */
  function LatestWriter(results: seq<SpeculativeResult>, i: nat, k: Key): (w: Option<nat>)
    requires i <= |results|
    ensures w.Some? ==> w.value < i && k in results[w.value].outcome.writeSet
  {
    if i == 0 then None
    else if k in results[i - 1].outcome.writeSet then Some(i - 1)
    else LatestWriter(results, i - 1, k)
  }

  /** What that writer's result, or the parent state, holds. */
  function LatestVersion(parent: State, results: seq<SpeculativeResult>, i: nat, k: Key): VersionedValue
    requires i <= |results|
  {
    var w := LatestWriter(results, i, k);
    VersionedValue(w, if w.Some? then Effect(results[w.value].outcome.writeSet[k]) else Lookup(parent, k))
  }

  /** The values behind the recorded versions. */
  function RecordedState(versions: map<Key, VersionedValue>): (s: State)
    ensures forall k | k in versions :: Lookup(s, k) == versions[k].value
  {
    map k | k in versions && versions[k].value.Some? :: versions[k].value.value
  }

  /** The outcome is what the VM makes of the values the run recorded, whatever those are. */
  predicate Genuine(tx: Tx, r: SpeculativeResult) {
    && r.exactReadVersions.Keys == r.outcome.readKeys
    && tx.run(RecordedState(r.exactReadVersions)) == r.outcome
  }

  /** Every read version is the latest one below i. */
  predicate VersionsCurrent(parent: State, results: seq<SpeculativeResult>, i: nat)
    requires i < |results|
  {
    var versions := results[i].exactReadVersions;
    forall k | k in versions :: versions[k] == LatestVersion(parent, results, i, k)
  }

  /** The conditions of section 7.1 for index i, given that everything below i is certified: index,
      exact access or barrier, scope (which a scope violation's receipt has to respect as any other),
      read versions, and an outcome by the rules of the VM. Nothing is run on the certified state. */
  predicate ValidateSpeculativeResult(txs: seq<Tx>, parent: State, results: seq<SpeculativeResult>, i: nat)
    requires i < |txs| == |results|
  {
    var r := results[i];
    && r.txIndex == i
    && (r.authoritative || r.predicted == Some(AccessOf(txs[i], r.outcome)))
    && r.outcome.readKeys + r.outcome.writeSet.Keys <= txs[i].scope
    && VersionsCurrent(parent, results, i)
    && Genuine(txs[i], r)
  }

  ghost predicate CertifiedBelow(txs: seq<Tx>, parent: State, results: seq<SpeculativeResult>, i: nat)
    requires i <= |txs| == |results|
  {
    forall v | 0 <= v < i :: results[v].outcome == SerialOutcome(txs, parent, v)
  }

  /** Over certified results, the latest version of a key holds its serial value. */
  lemma {:induction false} VersionsAreSerialValues(txs: seq<Tx>, parent: State, results: seq<SpeculativeResult>, i: nat, k: Key)
    requires i <= |txs| == |results| && CertifiedBelow(txs, parent, results, i)
    ensures LatestVersion(parent, results, i, k).value == Lookup(SerialState(txs, parent, i), k)
  {
    if i > 0 {
      assert results[i - 1].outcome == SerialOutcome(txs, parent, i - 1);
      hide SerialOutcome;
      VersionsAreSerialValues(txs, parent, results, i - 1, k);
    }
  }

  /** A run that recorded what it read is genuine, on whatever state it ran. */
  lemma ProducedIsGenuine(tx: Tx, s: State, r: SpeculativeResult)
    requires Deterministic(tx) && r.outcome == tx.run(s) && r.exactReadVersions.Keys == r.outcome.readKeys
    requires forall k | k in r.exactReadVersions :: r.exactReadVersions[k].value == Lookup(s, k)
    ensures Genuine(tx, r)
  {
    assert AgreeOn(tx.run(s).readKeys, s, RecordedState(r.exactReadVersions));
  }

  /** Versions carry the proof: a result that some run produced, on any state, is the serial outcome as
      soon as the versions it recorded are the latest ones. */
  lemma CurrentVersionsMakeItSerial(txs: seq<Tx>, parent: State, results: seq<SpeculativeResult>, i: nat, s: State)
    requires i < |txs| == |results| && Deterministic(txs[i]) && CertifiedBelow(txs, parent, results, i)
    requires results[i].outcome == txs[i].run(s) && results[i].exactReadVersions.Keys == results[i].outcome.readKeys
    requires forall k | k in results[i].exactReadVersions :: results[i].exactReadVersions[k].value == Lookup(s, k)
    requires VersionsCurrent(parent, results, i)
    ensures results[i].outcome == SerialOutcome(txs, parent, i)
  {
    forall k | k in txs[i].run(s).readKeys
      ensures Lookup(s, k) == Lookup(SerialState(txs, parent, i), k)
    {
      assert k in results[i].exactReadVersions;
      VersionsAreSerialValues(txs, parent, results, i, k);
    }
    assert AgreeOn(txs[i].run(s).readKeys, s, SerialState(txs, parent, i));
  }

  /** A result passes exactly when it is the serial outcome, with the serial read versions, inside the
      signed scope and with its access foreseen: nothing wrong is certified, nothing right rejected. */
  lemma ValidatedExactlyWhenSerial(txs: seq<Tx>, parent: State, results: seq<SpeculativeResult>, i: nat)
    requires i < |txs| == |results| && AllDeterministic(txs) && CertifiedBelow(txs, parent, results, i)
    ensures var r, serial := results[i], SerialOutcome(txs, parent, i);
      ValidateSpeculativeResult(txs, parent, results, i) <==>
        && r.txIndex == i
        && r.outcome == serial
        && (r.authoritative || r.predicted == Some(AccessOf(txs[i], serial)))
        && r.exactReadVersions.Keys == serial.readKeys
        && serial.readKeys + serial.writeSet.Keys <= txs[i].scope
        && forall k | k in serial.readKeys :: r.exactReadVersions[k] == LatestVersion(parent, results, i, k)
  {
    var r, state := results[i], SerialState(txs, parent, i);
    var seen := RecordedState(r.exactReadVersions);
    assert txs[i] in txs && Deterministic(txs[i]);
    if VersionsCurrent(parent, results, i) && r.exactReadVersions.Keys == r.outcome.readKeys {
      forall k | k in r.outcome.readKeys
        ensures Lookup(seen, k) == Lookup(state, k)
      {
        VersionsAreSerialValues(txs, parent, results, i, k);
      }
      assert AgreeOn(r.outcome.readKeys, seen, state) && AgreeOn(r.outcome.readKeys, state, seen);
    }
  }

  /** The first index that does not certify, or the number of transactions. */
  function FirstInvalid(txs: seq<Tx>, parent: State, results: seq<SpeculativeResult>, i: nat): (j: nat)
    requires i <= |txs| == |results|
    ensures i <= j <= |txs|
    ensures forall v | i <= v < j :: ValidateSpeculativeResult(txs, parent, results, v)
    ensures j < |txs| ==> !ValidateSpeculativeResult(txs, parent, results, j)
    decreases |txs| - i
  {
    if i < |txs| && ValidateSpeculativeResult(txs, parent, results, i)
    then FirstInvalid(txs, parent, results, i + 1) else i
  }

  lemma SerialStep(txs: seq<Tx>, parent: State, i: nat)
    requires i < |txs|
    ensures var outcome := txs[i].run(SerialState(txs, parent, i));
      && SerialState(txs, parent, i + 1) == Apply(SerialState(txs, parent, i), outcome.writeSet)
      && SerialReceipts(txs, parent, i + 1) == SerialReceipts(txs, parent, i) + [outcome.receipt]
  {
    hide Apply;
  }

  lemma SerialStart(txs: seq<Tx>, parent: State, results: seq<SpeculativeResult>)
    requires |txs| == |results|
    ensures CertifiedBelow(txs, parent, results, 0)
    ensures SerialState(txs, parent, 0) == parent && SerialReceipts(txs, parent, 0) == []
  {
  }

  lemma CertifiedStep(txs: seq<Tx>, parent: State, results: seq<SpeculativeResult>, i: nat)
    requires AllDeterministic(txs) && i < |txs| == |results|
    requires CertifiedBelow(txs, parent, results, i) && ValidateSpeculativeResult(txs, parent, results, i)
    requires FirstInvalid(txs, parent, results, 0) >= i
    ensures CertifiedBelow(txs, parent, results, i + 1)
    ensures FirstInvalid(txs, parent, results, 0) >= i + 1
    ensures SerialState(txs, parent, i + 1) == Apply(SerialState(txs, parent, i), results[i].outcome.writeSet)
    ensures SerialReceipts(txs, parent, i + 1) == SerialReceipts(txs, parent, i) + [results[i].outcome.receipt]
  {
    hide ValidateSpeculativeResult, FirstInvalid, Apply, SerialState, SerialReceipts;
    ValidatedExactlyWhenSerial(txs, parent, results, i);
    SerialStep(txs, parent, i);
  }

  /** One window: certify index by index, in order, up to the window's end or the first failure. */
  method CertifyWindow(
      txs: seq<Tx>, parent: State, results: seq<SpeculativeResult>, start: nat, end: nat,
      before: State, receiptsBefore: seq<int>)
    returns (state: State, receipts: seq<int>, stop: nat)
    requires AllDeterministic(txs) && |txs| == |results| && start <= end <= |txs|
    requires FirstInvalid(txs, parent, results, 0) >= start
    requires CertifiedBelow(txs, parent, results, start)
    requires before == SerialState(txs, parent, start) && receiptsBefore == SerialReceipts(txs, parent, start)
    ensures stop <= end && CertifiedBelow(txs, parent, results, stop)
    ensures stop == end || stop == FirstInvalid(txs, parent, results, 0)
    ensures FirstInvalid(txs, parent, results, 0) >= stop
    ensures state == SerialState(txs, parent, stop) && receipts == SerialReceipts(txs, parent, stop)
  {
    hide CertifiedBelow, SerialState, SerialReceipts, ValidateSpeculativeResult, AllDeterministic;
    state, receipts, stop := before, receiptsBefore, start;
    while stop < end
      invariant start <= stop <= end && CertifiedBelow(txs, parent, results, stop)
      invariant FirstInvalid(txs, parent, results, 0) >= stop
      invariant state == SerialState(txs, parent, stop) && receipts == SerialReceipts(txs, parent, stop)
    {
      if !ValidateSpeculativeResult(txs, parent, results, stop) {
        return;
      }
      CertifiedStep(txs, parent, results, stop);
      state := Apply(state, results[stop].outcome.writeSet);
      receipts := receipts + [results[stop].outcome.receipt];
      stop := stop + 1;
    }
  }

  // ---------------------------------------------------------------- windows

  /** The first index of window w. */
  function WindowStart(w: nat, size: nat): nat {
    if w == 0 then 0 else WindowStart(w - 1, size) + size
  }

  /** The index behind the last one of window w; the last window may be shorter. */
  function WindowEnd(w: nat, size: nat, count: nat): nat {
    if WindowStart(w + 1, size) < count then WindowStart(w + 1, size) else count
  }

  lemma {:induction false} WindowStartIsMultiple(w: nat, size: nat)
    ensures WindowStart(w, size) == w * size
    decreases w
  {
    if w > 0 {
      WindowStartIsMultiple(w - 1, size);
      assert w * size == (w - 1) * size + size;
    }
  }

  lemma {:induction false} WindowStartsGrow(v: nat, w: nat, size: nat)
    requires v <= w
    ensures WindowStart(v, size) <= WindowStart(w, size)
    decreases w
  {
    if v < w {
      WindowStartsGrow(v, w - 1, size);
    }
  }

  /** Certification gets to window w: it exists and everything before it has validated. */
  ghost predicate ReachesWindow(txs: seq<Tx>, parent: State, results: seq<SpeculativeResult>, size: nat, w: nat)
    requires |txs| == |results|
  {
    WindowStart(w, size) < |txs| && WindowStart(w, size) <= FirstInvalid(txs, parent, results, 0)
  }

  /** Some window that is reached ends beyond the 32-bit range. */
  ghost predicate OverflowsSomewhere(txs: seq<Tx>, parent: State, results: seq<SpeculativeResult>, size: nat)
    requires |txs| == |results|
  {
    exists w: nat :: ReachesWindow(txs, parent, results, size, w) && WindowStart(w, size) + size > UINT32_MAX
  }

  /** The first windows have their end inside the range, and their checkpoint is on record. */
  ghost predicate Recorded(txs: seq<Tx>, parent: State, size: nat, checkpoints: seq<(int, State)>) {
    forall w | 0 <= w < |checkpoints| ::
      && WindowEnd(w, size, |txs|) <= |txs| && WindowStart(w, size) + size <= UINT32_MAX
      && checkpoints[w] == (WindowEnd(w, size, |txs|) - 1, SerialState(txs, parent, WindowEnd(w, size, |txs|)))
  }

  lemma WindowsBehindAreNotReached(
      txs: seq<Tx>, parent: State, results: seq<SpeculativeResult>, size: nat, n: nat, checkpoints: seq<(int, State)>)
    requires |txs| == |results| && Recorded(txs, parent, size, checkpoints) && |checkpoints| <= n
    requires forall w: nat | |checkpoints| <= w < n :: WindowStart(w, size) + size <= UINT32_MAX
    requires WindowStart(n, size) >= |txs| || WindowStart(n, size) > FirstInvalid(txs, parent, results, 0)
    ensures !OverflowsSomewhere(txs, parent, results, size)
  {
    forall w: nat | ReachesWindow(txs, parent, results, size, w)
      ensures WindowStart(w, size) + size <= UINT32_MAX
    {
      if n <= w {
        WindowStartsGrow(n, w, size);
      }
    }
  }

  /** How many windows lie completely before index `failed`, or cover all transactions. */
  function CompletedWindows(failed: nat, count: nat, size: nat): nat
    requires 0 < size
  {
    if failed < count then failed / size else (count + size - 1) / size
  }

  lemma WindowCount(failed: nat, count: nat, size: nat, windows: nat)
    requires 0 < size && failed <= count
    requires failed < count ==> WindowStart(windows, size) <= failed < WindowStart(windows, size) + size
    requires failed == count ==> count <= WindowStart(windows, size) < count + size
    ensures windows == CompletedWindows(failed, count, size)
  {
    WindowStartIsMultiple(windows, size);
    if failed < count {
      QuotientIs(failed, size, windows, failed - windows * size);
    } else {
      QuotientIs(count + size - 1, size, windows, count + size - 1 - windows * size);
    }
  }

  lemma QuotientIs(x: nat, n: nat, d: nat, r: nat)
    requires r < n && x == d * n + r
    ensures x / n == d
  {
    var gap := x / n - d;
    assert gap * n == r - x % n;
    if gap >= 1 {
      MultipleIsLarge(gap, n);
    } else if gap <= -1 {
      MultipleIsLarge(-gap, n);
    }
  }

  lemma MultipleIsLarge(gap: int, n: nat)
    requires gap >= 1
    ensures gap * n >= n
  {
  }

  /** Before the first window, between two, or behind the last one. */
  predicate AtWindow(failed: nat, count: nat, size: nat, w: nat) {
    if failed < count then failed == WindowStart(w, size)
    else failed == count <= WindowStart(w, size) < count + size
  }

  lemma FirstWindow(txs: seq<Tx>, parent: State, size: nat)
    requires 0 < size
    ensures AtWindow(0, |txs|, size, 0) && Recorded(txs, parent, size, [])
  {
  }

  lemma WindowIsRecorded(
      txs: seq<Tx>, parent: State, size: nat, start: nat, end: nat, checkpoints: seq<(int, State)>, state: State)
    requires start < |txs| && AtWindow(start, |txs|, size, |checkpoints|) && Recorded(txs, parent, size, checkpoints)
    requires start + size <= UINT32_MAX && end == (if start + size < |txs| then start + size else |txs|)
    requires state == SerialState(txs, parent, end)
    ensures AtWindow(end, |txs|, size, |checkpoints| + 1)
    ensures Recorded(txs, parent, size, checkpoints + [(end - 1, state)])
  {
    hide SerialState;
  }

  lemma StoppedInWindow(
      txs: seq<Tx>, parent: State, results: seq<SpeculativeResult>, size: nat, start: nat, failed: nat,
      checkpoints: seq<(int, State)>)
    requires |txs| == |results| && 0 < size && start <= failed < |txs| && failed < start + size <= UINT32_MAX
    requires AtWindow(start, |txs|, size, |checkpoints|) && Recorded(txs, parent, size, checkpoints)
    requires failed == FirstInvalid(txs, parent, results, 0)
    ensures !OverflowsSomewhere(txs, parent, results, size)
    ensures |checkpoints| == CompletedWindows(failed, |txs|, size)
  {
    hide FirstInvalid, SerialState, OverflowsSomewhere, CompletedWindows;
    WindowCount(failed, |txs|, size, |checkpoints|);
    WindowsBehindAreNotReached(txs, parent, results, size, |checkpoints| + 1, checkpoints);
  }

  lemma StoppedAtEnd(
      txs: seq<Tx>, parent: State, results: seq<SpeculativeResult>, size: nat, checkpoints: seq<(int, State)>)
    requires |txs| == |results| && 0 < size
    requires AtWindow(|txs|, |txs|, size, |checkpoints|) && Recorded(txs, parent, size, checkpoints)
    ensures !OverflowsSomewhere(txs, parent, results, size)
    ensures |checkpoints| == CompletedWindows(|txs|, |txs|, size)
  {
    hide FirstInvalid, SerialState, OverflowsSomewhere, CompletedWindows;
    WindowCount(|txs|, |txs|, size, |checkpoints|);
    WindowsBehindAreNotReached(txs, parent, results, size, |checkpoints|, checkpoints);
  }

  lemma OverflowIsReached(
      txs: seq<Tx>, parent: State, results: seq<SpeculativeResult>, size: nat, start: nat, w: nat)
    requires |txs| == |results| && start < |txs| && AtWindow(start, |txs|, size, w)
    requires start <= FirstInvalid(txs, parent, results, 0) && start + size > UINT32_MAX
    ensures OverflowsSomewhere(txs, parent, results, size)
  {
    hide FirstInvalid;
    assert ReachesWindow(txs, parent, results, size, w);
  }

  /** CertifyPrefix: windows of the configured size, and a checkpoint after each completed one. It halts
      exactly when a window it gets to ends beyond the 32-bit range. Otherwise it stops at the first
      invalid index, and the checkpoints are those of the completed windows, one for each, in order. */
  method CertifyPrefix(txs: seq<Tx>, parent: State, results: seq<SpeculativeResult>, prefixSize: nat)
    returns (halted: bool, prefix: int, state: State, failed: nat, receipts: seq<int>, checkpoints: seq<(int, State)>)
    requires AllDeterministic(txs) && |txs| == |results| && 0 < prefixSize
    ensures halted <==> OverflowsSomewhere(txs, parent, results, prefixSize)
    ensures !halted ==> failed == FirstInvalid(txs, parent, results, 0) && prefix == failed - 1
    ensures !halted ==> state == SerialState(txs, parent, failed) && receipts == SerialReceipts(txs, parent, failed)
    ensures Recorded(txs, parent, prefixSize, checkpoints)
    ensures !halted ==> |checkpoints| == CompletedWindows(failed, |txs|, prefixSize)
  {
    hide ValidateSpeculativeResult, FirstInvalid, CertifiedBelow, SerialState, SerialReceipts, Apply, AllDeterministic,
      OverflowsSomewhere, Recorded, WindowStart, WindowEnd, CompletedWindows, AtWindow;
    halted, prefix, state, failed, receipts, checkpoints := false, -1, parent, 0, [], [];
    SerialStart(txs, parent, results);
    FirstWindow(txs, parent, prefixSize);
    while failed < |txs|
      invariant failed <= |txs| && prefix == failed - 1 && !halted
      invariant AtWindow(failed, |txs|, prefixSize, |checkpoints|)
      invariant FirstInvalid(txs, parent, results, 0) >= failed
      invariant CertifiedBelow(txs, parent, results, failed)
      invariant state == SerialState(txs, parent, failed) && receipts == SerialReceipts(txs, parent, failed)
      invariant Recorded(txs, parent, prefixSize, checkpoints)
      decreases |txs| - failed
    {
      if failed + prefixSize > UINT32_MAX {
        halted := true;
        OverflowIsReached(txs, parent, results, prefixSize, failed, |checkpoints|);
        return;
      }
      var end := if failed + prefixSize < |txs| then failed + prefixSize else |txs|;
      ghost var start := failed;
      state, receipts, failed := CertifyWindow(txs, parent, results, failed, end, state, receipts);
      prefix := failed - 1;
      if failed < end {
        StoppedInWindow(txs, parent, results, prefixSize, start, failed, checkpoints);
        return;
      }
      WindowIsRecorded(txs, parent, prefixSize, start, end, checkpoints, state);
      checkpoints := checkpoints + [(prefix, state)];
    }
    StoppedAtEnd(txs, parent, results, prefixSize, checkpoints);
  }

  /** The single authoritative serial fallback; `executed` lists the indices it ran. */
  method AuthoritativeFallback(txs: seq<Tx>, ghost parent: State, j: nat, stateAfterPrefix: State, prefixReceipts: seq<int>)
    returns (state: State, receipts: seq<int>, executed: seq<nat>)
    requires j <= |txs|
    requires stateAfterPrefix == SerialState(txs, parent, j) && prefixReceipts == SerialReceipts(txs, parent, j)
    ensures state == SerialState(txs, parent, |txs|) && receipts == SerialReceipts(txs, parent, |txs|)
    ensures |executed| == |txs| - j && forall t | 0 <= t < |executed| :: executed[t] == j + t
  {
    state, receipts, executed := stateAfterPrefix, prefixReceipts, [];
    var i := j;
    while i < |txs|
      invariant j <= i <= |txs|
      invariant state == SerialState(txs, parent, i) && receipts == SerialReceipts(txs, parent, i)
      invariant |executed| == i - j && forall t | 0 <= t < |executed| :: executed[t] == j + t
    {
      hide SerialState, SerialReceipts, Apply;
      SerialStep(txs, parent, i);
      var outcome := txs[i].run(state);
      state := Apply(state, outcome.writeSet);
      receipts := receipts + [outcome.receipt];
      executed := executed + [i];
      i := i + 1;
    }
  }

  /** Speculation is invisible: whatever the speculative results are and whatever the window size,
      the block ends in the serial state with the serial receipts; the prefix that certified is not
      run again and every index after it is run exactly once. */
  method ExecuteBlock(txs: seq<Tx>, parent: State, results: seq<SpeculativeResult>, prefixSize: nat)
    returns (halted: bool, state: State, receipts: seq<int>, executed: seq<nat>)
    requires AllDeterministic(txs) && |txs| == |results| && 0 < prefixSize
    ensures !halted ==> state == SerialState(txs, parent, |txs|) && receipts == SerialReceipts(txs, parent, |txs|)
    ensures var j := FirstInvalid(txs, parent, results, 0);
      !halted ==> |executed| == |txs| - j && forall t | 0 <= t < |executed| :: executed[t] == j + t
    ensures halted <==> OverflowsSomewhere(txs, parent, results, prefixSize)
  {
    var prefix, failed, checkpoints;
    halted, prefix, state, failed, receipts, checkpoints := CertifyPrefix(txs, parent, results, prefixSize);
    executed := [];
    if !halted && failed < |txs| {
      state, receipts, executed := AuthoritativeFallback(txs, parent, failed, state, receipts);
    }
  }
}
