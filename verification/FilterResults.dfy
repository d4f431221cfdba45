/** What the occurrence filter achieves on every run, with crashes anywhere
    (doc/protocol/04-finality-execution-and-epochs.md, section 3.2). */
module FilterResults {
  import opened PrefilterBudget
  import opened OccurrenceFilter
  import opened FilterRecovery
  import opened FilterInvariants

  predicate SourcesOk(env: Env, occs: seq<Occurrence>) {
    forall k: nat | k < |occs| :: SourceOk(env, occs[k]) && occs[k].streamMatches
  }

  /** The transaction ID commits to the whole envelope. */
  predicate IdsCommit(occs: seq<Occurrence>) {
    forall j: nat, k: nat | j < |occs| && k < |occs| && occs[j].tx.id == occs[k].tx.id :: occs[j].tx == occs[k].tx
  }

  // ---------------------------------------------------------------- every machine state

  ghost predicate MemoryFine(env: Env, occs: seq<Occurrence>, o: Outcome) {
    match o
    case Running(c) => Inv(env, occs, c)
    case other => other.CandidateInvalid? && !SourcesOk(env, occs)
  }

  lemma {:induction false} RunsKeepInv(env: Env, occs: seq<Occurrence>, m: Machine, es: seq<Event>)
    requires MachineShaped(env, occs, m) && MemoryFine(env, occs, m.memory) && Inv(env, occs, m.durable)
    ensures var r := After(env, occs, m, es); MemoryFine(env, occs, r.memory) && Inv(env, occs, r.durable)
    decreases es
  {
    hide Inv, Step;
    if es == [] {
    } else {
      if es[0].Work? && m.memory.Running? && m.memory.checkpoint.cursor < |occs| {
        StepStays(env, occs, m.memory.checkpoint);
      }
      RunsKeepInv(env, occs, Next(env, occs, m, es[0]), es[1..]);
    }
  }

  /** However often the machine crashes: what is durable always passes the recovery checks, recovery
      never finds corruption, no checked operation halts execution, and the pass is only ever given
      up over an invalid causal source. */
  lemma RecoveryNeverFindsCorruption(env: Env, occs: seq<Occurrence>, es: seq<Event>)
    requires EnvOk(env)
    ensures var r := After(env, occs, Boot(env), es);
      && Inv(env, occs, r.durable)
      && (r.memory.Running? || r.memory.CandidateInvalid?)
      && (r.memory.Running? ==> Inv(env, occs, r.memory.checkpoint))
      && (SourcesOk(env, occs) ==> r.memory.Running?)
  {
    StartIsFine(env, occs);
    RunsKeepInv(env, occs, Boot(env), es);
  }

  lemma AllWork(n: nat) returns (es: seq<Event>)
    ensures |es| == n && forall i | 0 <= i < |es| :: es[i].Work?
  {
    es := seq(n, _ => Work);
  }

  /** The uninterrupted pass over valid sources ends, with every fact of the invariant. */
  lemma PassSucceeds(env: Env, occs: seq<Occurrence>)
    requires EnvOk(env) && SourcesOk(env, occs)
    ensures var r := FilterFrom(env, occs, Start(env));
      && r.Running? && Inv(env, occs, r.checkpoint) && r.checkpoint.cursor == |occs| == |r.checkpoint.marks|
      && r.checkpoint.inflight.None? && NoneStarted(r.checkpoint)
  {
    hide Inv;
    var es := AllWork(StepsLeft(occs, Start(env)));
    WorkReachesTheEnd(env, occs, Boot(env), es);
    CrashesAreInvisible(env, occs, es);
    RecoveryNeverFindsCorruption(env, occs, es);
    EndIsSettled(env, occs, FilterFrom(env, occs, Start(env)).checkpoint);
  }

  lemma EndIsSettled(env: Env, occs: seq<Occurrence>, c: Checkpoint)
    requires Inv(env, occs, c) && c.cursor == |occs|
    ensures c.inflight.None? && NoneStarted(c) && |c.marks| == |occs|
  {
    hide BooksBalance, WinnersOk, SponsorsIsolated, Cheap;
    forall id | id in c.attempts
      ensures !c.attempts[id].status.STARTED?
    {
      assert SuffixRecordOk(env, occs, c, id);
    }
  }

  /** The state in which the pass over valid sources ends. */
  function Result(env: Env, occs: seq<Occurrence>): Checkpoint
    requires EnvOk(env) && SourcesOk(env, occs)
  {
    PassSucceeds(env, occs);
    FilterFrom(env, occs, Start(env)).checkpoint
  }

  lemma {:induction false} InvalidSourceStops(env: Env, occs: seq<Occurrence>, c: Checkpoint, k: nat)
    requires Inv(env, occs, c) && c.cursor <= k < |occs| && !SourceOk(env, occs[k])
    ensures FilterFrom(env, occs, c) == CandidateInvalid
    decreases StepsLeft(occs, c)
  {
    hide BooksBalance, ScansAreChargedOnce, RecordsOk, WinnersOk, SponsorsIsolated, SourceOk, Body;
    StepKeepsCompletion(env, occs, c);
    if c.cursor < k {
      StepStays(env, occs, c);
      hide Step;
      match Step(env, occs, c)
      case Running(d) =>
        StepsRunOut(env, occs, c);
        InvalidSourceStops(env, occs, d, k);
      case other =>
    }
  }

  /** A single occurrence whose source does not verify, wherever it is, rejects the whole candidate. */
  lemma InvalidSourceRejectsCandidate(env: Env, occs: seq<Occurrence>, k: nat)
    requires EnvOk(env) && k < |occs| && !SourceOk(env, occs[k])
    ensures FilterFrom(env, occs, Start(env)) == CandidateInvalid
  {
    hide Inv, SourceOk;
    StartIsFine(env, occs);
    InvalidSourceStops(env, occs, Start(env), k);
  }

  // ---------------------------------------------------------------- charges

  /** Every pool's spend is its completed scans and its suffix receipts, so no pool is overdrawn; all
      scans together cost what the occurrences that were not refused cost, each once. */
  lemma NothingIsChargedTwice(env: Env, occs: seq<Occurrence>, p: Pool)
    requires EnvOk(env) && SourcesOk(env, occs) && IsPool(env.config.validators, p)
    ensures var r := Result(env, occs);
      && IsPool(|r.scanReserved|, p)
      && CompletedScans(r, p) + AttemptTotal(r.attempts, p) <= Cap(env, p)
      && IsPool(|r.budget.reserveLeft|, p)
      && Left(r.budget, p) == Cap(env, p) - CompletedScans(r, p) - AttemptTotal(r.attempts, p)
      && |r.marks| == |occs|
      && Sum(r.scanReserved) + r.scanShared == ScansCharged(occs, r.marks)
  {
    PassSucceeds(env, occs);
    assert Balanced(env, Result(env, occs), p);
  }

  /** A transaction has at most one suffix receipt, for its exact cost, paid by the author of the
      vertex that carried the occurrence, and with the result that verification gives. */
  lemma SuffixReceiptsAreGenuine(env: Env, occs: seq<Occurrence>, id: TxId)
    requires EnvOk(env) && SourcesOk(env, occs) && id in Result(env, occs).attempts
    ensures var a := Result(env, occs).attempts[id];
      && a.origin < |occs| && occs[a.origin].tx.id == id && a.receipt.sponsor == occs[a.origin].vertexAuthor
      && a.receipt.reserved + a.receipt.shared == ExpensiveWorkCost(occs[a.origin].tx.suffixFields)
      && a.status == (if env.suffixValid(occs[a.origin].tx) then VALID else INVALID)
  {
    PassSucceeds(env, occs);
    hide BooksBalance, WinnersOk, SponsorsIsolated, Cheap, ExpensiveWorkCost;
    assert SuffixRecordOk(env, occs, Result(env, occs), id);
  }

  // ---------------------------------------------------------------- sponsors

  predicate IsCap(mark: Mark) {
    mark.PREFILTER_SCAN_CAP? || mark.PREFILTER_VERIFY_CAP?
  }

  /** As long as the work of a sponsor's own items fits its reserve none of them is capped, whatever
      every other sponsor does. */
  lemma SponsorsAreIsolated(env: Env, occs: seq<Occurrence>, k: nat)
    requires EnvOk(env) && SourcesOk(env, occs) && k < |occs|
    requires Demand(occs, occs[k].sponsor, k + 1) <= env.config.reserve
    ensures |Result(env, occs).marks| == |occs|
    ensures !IsCap(Result(env, occs).marks[k])
  {
    PassSucceeds(env, occs);
    hide BooksBalance, WinnersOk, RecordsOk;
    assert CapIsEarned(env, occs, Result(env, occs).marks, k);
  }

  lemma {:induction false} UnspentSponsorDemandsNothing(occs: seq<Occurrence>, s: nat, k: nat)
    requires k <= |occs| && forall j: nat | j < k :: occs[j].sponsor != s
    ensures Demand(occs, s, k) == 0
    decreases k
  {
    if k > 0 {
      UnspentSponsorDemandsNothing(occs, s, k - 1);
    }
  }

  /** In particular a sponsor that has brought nothing yet gets one item through, however large the
      limits allow it to be. */
  lemma FirstItemIsNeverCapped(env: Env, occs: seq<Occurrence>, k: nat, signers: nat, signatures: nat, payload: Payload)
    requires EnvOk(env) && SourcesOk(env, occs) && k < |occs|
    requires forall j: nat | j < k :: occs[j].sponsor != occs[k].sponsor
    requires occs[k].tx.suffixFields == FieldsOf(signers, signatures, payload)
    requires WithinLimits(env.config.limits, occs[k].itemLength, signers, signatures, payload)
    ensures |Result(env, occs).marks| == |occs|
    ensures !IsCap(Result(env, occs).marks[k])
  {
    UnspentSponsorDemandsNothing(occs, occs[k].sponsor, k);
    MaximumCoversEveryItem(env.config.limits, occs[k].itemLength, signers, signatures, payload);
    SponsorsAreIsolated(env, occs, k);
  }

  /** An occurrence that has an attempt is not capped any more. */
  lemma AttemptIsNeverCapped(env: Env, occ: Occurrence, c: Checkpoint, next: nat, reservation: Reservation)
    requires occ.tx.id in c.attempts && InflightInRange(c) && c.reservedGas + occ.tx.gasLimit <= UINT64_MAX
    requires c.attempts[occ.tx.id].status.STARTED? ==> StartedHere(c.attempts[occ.tx.id], c.cursor, occ)
    ensures var o := AfterAttempt(env, occ, c, next, reservation);
      o.Running? && |o.checkpoint.marks| == |c.marks| + 1 && !IsCap(o.checkpoint.marks[|c.marks|])
  {
    hide Finish;
  }

  /** A scanned occurrence is not capped if the sponsor's own reserve can pay the suffix. */
  lemma PaidSuffixIsNeverCapped(env: Env, occs: seq<Occurrence>, c: Checkpoint)
    requires Inv(env, occs, c) && c.cursor < |occs| && c.inflight.Some? && SourceOk(env, occs[c.cursor])
    requires Left(c.budget, Own(occs[c.cursor].sponsor)) >= ExpensiveWorkCost(occs[c.cursor].tx.suffixFields)
    ensures var o := AfterScan(env, occs[c.cursor], c);
      o.Running? && |o.checkpoint.marks| == c.cursor + 1 && !IsCap(o.checkpoint.marks[c.cursor])
  {
    var occ := occs[c.cursor];
    CheapNeverHalts(env, occs, c);
    assert |c.marks| == c.cursor && env.config.maxGas <= UINT64_MAX;
    hide BooksBalance, ScansAreChargedOnce, WinnersOk, SponsorsIsolated, ConfigOk, ExpensiveWorkCost, ScanWorkCost,
      Finish, TryChargePrefilter, AfterAttempt;
    match Cheap(env, occ, c)
    case Rejected(mark) => RejectionIsNoCap(env, occ, c);
    case Halted => assert false;
    case Passed(next, reservation) =>
      hide Cheap;
      assert StartAttempt(env, occ, c).Attempted?;
      if occ.tx.id in c.attempts {
        assert SuffixRecordOk(env, occs, c, occ.tx.id);
      }
      AttemptIsNeverCapped(env, occ, StartAttempt(env, occ, c).checkpoint, next, reservation);
  }

  /** A sponsor whose reserve is untouched, whatever it brought before, gets one item through, however
      large the limits allow it to be and however empty the shared pool is. */
  lemma UntouchedReserveIsNeverCapped(
      env: Env, occs: seq<Occurrence>, c: Checkpoint, signers: nat, signatures: nat, payload: Payload)
    requires Inv(env, occs, c) && c.cursor < |occs| && c.inflight.None? && SourceOk(env, occs[c.cursor])
    requires Left(c.budget, Own(occs[c.cursor].sponsor)) == env.config.reserve
    requires occs[c.cursor].tx.suffixFields == FieldsOf(signers, signatures, payload)
    requires WithinLimits(env.config.limits, occs[c.cursor].itemLength, signers, signatures, payload)
    ensures var o := Body(env, occs, c);
      o.Running? && |o.checkpoint.marks| == c.cursor + 1 && !IsCap(o.checkpoint.marks[c.cursor])
  {
    var occ := occs[c.cursor];
    MaximumCoversEveryItem(env.config.limits, occ.itemLength, signers, signatures, payload);
    assert MaxSinglePrefilterVerificationWork(env.config.limits) <= env.config.reserve;
    hide ScanWorkCost, ExpensiveWorkCost, MaxSinglePrefilterVerificationWork, WithinLimits, FieldsOf, Inv, AfterScan;
    PaidScanIsCharged(env, occ, c);
    ChargesStay(env, occs, c);
    PaidSuffixIsNeverCapped(env, occs, Scan(env, occ, c).checkpoint);
  }

  lemma PaidScanIsCharged(env: Env, occ: Occurrence, c: Checkpoint)
    requires |c.budget.reserveLeft| == |c.scanReserved| == env.config.validators && c.inflight.None?
    requires SourceOk(env, occ) && ScanWorkCost(occ.itemLength) <= Left(c.budget, Own(occ.sponsor))
    ensures var r := Scan(env, occ, c);
      && r.Scanned? && r.checkpoint.inflight.Some? && r.checkpoint.cursor == c.cursor
      && Left(r.checkpoint.budget, Own(occ.sponsor)) == Left(c.budget, Own(occ.sponsor)) - ScanWorkCost(occ.itemLength)
  {
    hide ScanWorkCost;
  }

  // ---------------------------------------------------------------- winners

  /** The positions of the winners among the occurrences. */
  function Positions(marks: seq<Mark>): seq<nat> {
    if marks == [] then []
    else
      var k := |marks| - 1;
      if marks[k].WINNER? then Positions(marks[..k]) + [k] else Positions(marks[..k])
  }

  /** The positions increase, hold the marks, and give the chosen winners. */
  predicate PicksOut(occs: seq<Occurrence>, marks: seq<Mark>, ps: seq<nat>, ws: seq<Winner>)
    requires |marks| <= |occs|
  {
    && |ws| == |ps|
    && (forall i: nat | i < |ps| :: ps[i] < |marks| && ws[i] == Winner(i, occs[ps[i]].tx) && marks[ps[i]].WINNER?)
    && (forall i: nat, j: nat | i < j < |ps| :: ps[i] < ps[j])
  }

  lemma PickExtends(occs: seq<Occurrence>, marks: seq<Mark>, ps: seq<nat>, ws: seq<Winner>)
    requires 0 < |marks| <= |occs| && PicksOut(occs, marks[..|marks| - 1], ps, ws)
    ensures var k := |marks| - 1;
      if marks[k].WINNER? then PicksOut(occs, marks, ps + [k], ws + [Winner(|ws|, occs[k].tx)])
      else PicksOut(occs, marks, ps, ws)
  {
    assert forall i: nat | i < |ps| :: marks[ps[i]] == marks[..|marks| - 1][ps[i]];
  }

  lemma {:induction false} ChosenIsASubsequence(occs: seq<Occurrence>, marks: seq<Mark>)
    requires |marks| <= |occs|
    ensures PicksOut(occs, marks, Positions(marks), Chosen(occs, marks))
    decreases |marks|
  {
    if marks == [] {
    } else {
      var k := |marks| - 1;
      var ps, ws := Positions(marks[..k]), Chosen(occs, marks[..k]);
      ChosenIsASubsequence(occs, marks[..k]);
      PickExtends(occs, marks, ps, ws);
      hide PicksOut;
    }
  }

  /** The winners are a subsequence of the occurrences, numbered from zero, with distinct transactions,
      all eligible, within the block's count and gas. */
  lemma WinnersAreSound(env: Env, occs: seq<Occurrence>)
    requires EnvOk(env) && SourcesOk(env, occs)
    ensures var r := Result(env, occs);
      var ps := Positions(r.marks);
      && |r.winners| == |ps| <= env.config.maxTransactions
      && (forall i: nat | i < |ps| :: ps[i] < |occs| && r.winners[i] == Winner(i, occs[ps[i]].tx))
      && (forall i: nat, j: nat | i < j < |ps| :: ps[i] < ps[j] && r.winners[i].tx.id != r.winners[j].tx.id)
      && (forall i: nat | i < |ps| :: Eligible(env, r.winners[i].tx))
      && r.reservedGas == Gas(r.winners) <= env.config.maxGas
  {
    hide BooksBalance, SponsorsIsolated, RecordsOk, NoncesOk, Eligible;
    PassSucceeds(env, occs);
    ChosenIsASubsequence(occs, Result(env, occs).marks);
  }

  /** Every winner's own envelope passed the expensive verification, and was charged for it. */
  lemma WinnersAreVerified(env: Env, occs: seq<Occurrence>, k: nat)
    requires EnvOk(env) && SourcesOk(env, occs) && IdsCommit(occs) && k < |Result(env, occs).winners|
    ensures var tx := Result(env, occs).winners[k].tx;
      env.suffixValid(tx) && tx.id in Result(env, occs).attempts
  {
    hide BooksBalance, SponsorsIsolated, NoncesOk, Eligible, Cheap, ExpensiveWorkCost;
    PassSucceeds(env, occs);
    var r := Result(env, occs);
    ChosenIsASubsequence(occs, r.marks);
    var id := r.winners[k].tx.id;
    assert id in r.accepted;
    assert SuffixRecordOk(env, occs, r, id);
    assert occs[Positions(r.marks)[k]].tx == occs[r.attempts[id].origin].tx;
  }

  /** The nonces of one sender's winners, in order. */
  function NoncesOf(ws: seq<Winner>, sender: Address): seq<nat> {
    if ws == [] then []
    else
      var k := |ws| - 1;
      if ws[k].tx.sender == sender then NoncesOf(ws[..k], sender) + [ws[k].tx.nonce] else NoncesOf(ws[..k], sender)
  }

  lemma {:induction false} FollowingNoncesAreContiguous(env: Env, ws: seq<Winner>, sender: Address)
    requires forall k: nat | k < |ws| :: NonceFollows(env, ws, k)
    ensures |NoncesOf(ws, sender)| == CountOf(ws, sender)
    ensures forall i: nat | i < |NoncesOf(ws, sender)| :: NoncesOf(ws, sender)[i] == FirstNonce(env, sender) + i
    decreases ws
  {
    if ws == [] {
    } else {
      var n := |ws| - 1;
      forall k: nat | k < n
        ensures NonceFollows(env, ws[..n], k)
      {
        assert NonceFollows(env, ws, k);
        assert ws[..n][..k] == ws[..k];
      }
      FollowingNoncesAreContiguous(env, ws[..n], sender);
      assert NonceFollows(env, ws, n);
    }
  }

  /** Each sender's winners carry the nonces from the parent state's next one on, without gap or
      repetition, and its next nonce never passes the sentinel of an exhausted account. */
  lemma NoncesAreContiguous(env: Env, occs: seq<Occurrence>, sender: Address)
    requires EnvOk(env) && SourcesOk(env, occs)
    ensures var r := Result(env, occs);
      var nonces := NoncesOf(r.winners, sender);
      && (forall i: nat | i < |nonces| :: nonces[i] == FirstNonce(env, sender) + i)
      && NextNonce(env, r.nextNonce, sender) == FirstNonce(env, sender) + |nonces| <= UINT64_MAX
  {
    hide BooksBalance, SponsorsIsolated, RecordsOk, Eligible, IdsOk, CapsOk;
    PassSucceeds(env, occs);
    FollowingNoncesAreContiguous(env, Result(env, occs).winners, sender);
  }

  lemma {:induction false} CountMeansPresence(ws: seq<Winner>, k: nat)
    requires k < |ws|
    ensures CountOf(ws, ws[k].tx.sender) > CountOf(ws[..k], ws[k].tx.sender)
    decreases |ws|
  {
    var n := |ws| - 1;
    if k == n {
    } else {
      CountMeansPresence(ws[..n], k);
      assert ws[..n][..k] == ws[..k];
    }
  }

  lemma {:induction false} CountGrows(ws: seq<Winner>, j: nat, k: nat, sender: Address)
    requires j <= k <= |ws|
    ensures CountOf(ws[..j], sender) <= CountOf(ws[..k], sender)
    decreases k
  {
    if j < k {
      CountGrows(ws, j, k - 1, sender);
      assert ws[..k][..k - 1] == ws[..k - 1];
    }
  }

  /** An account that the block creates has no second winner in it. */
  lemma NewAccountsActOnce(env: Env, occs: seq<Occurrence>, j: nat, k: nat)
    requires EnvOk(env) && SourcesOk(env, occs) && j < k < |Result(env, occs).winners|
    requires Result(env, occs).winners[j].tx.sender !in env.accounts
    ensures Result(env, occs).winners[k].tx.sender != Result(env, occs).winners[j].tx.sender
  {
    hide BooksBalance, SponsorsIsolated, RecordsOk, IdsOk, CapsOk;
    PassSucceeds(env, occs);
    var ws := Result(env, occs).winners;
    var sender := ws[j].tx.sender;
    if ws[k].tx.sender == sender {
      assert Eligible(env, ws[k].tx) && ws[k].tx.nonce == 0;
      assert NonceFollows(env, ws, k);
      CountMeansPresence(ws[..j + 1], j);
      assert ws[..j + 1][..j] == ws[..j];
      CountGrows(ws, j + 1, k, sender);
    }
  }
}
