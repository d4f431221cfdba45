/** What every state of the occurrence filter satisfies, crashes included
    (doc/protocol/04-finality-execution-and-epochs.md, section 3.2).

    Four groups of facts: the books balance and every charge is on record once; the records match the
    occurrences they name; the winners are what the nonce, duplicate and cap rules allow; and no
    sponsor is capped while what it asked for fits its own reserve. */
module FilterInvariants {
  import opened Wrappers
  import opened PrefilterBudget
  import opened OccurrenceFilter
  import opened FilterRecovery

  // ---------------------------------------------------------------- sums

  /** What all suffix receipts together took from a pool. */
  ghost function AttemptTotal(m: map<TxId, PrefilterAttempt>, p: Pool): nat {
    if m == map[] then 0
    else
      var id :| id in m;
      Part(m[id].receipt, p) + AttemptTotal(m - {id}, p)
  }

  lemma {:induction false} AttemptTotalTakesAnyOrder(m: map<TxId, PrefilterAttempt>, id: TxId, p: Pool)
    requires id in m
    ensures AttemptTotal(m, p) == Part(m[id].receipt, p) + AttemptTotal(m - {id}, p)
    decreases |m|
  {
    var first :| first in m && AttemptTotal(m, p) == Part(m[first].receipt, p) + AttemptTotal(m - {first}, p);
    if first != id {
      AttemptTotalTakesAnyOrder(m - {first}, id, p);
      AttemptTotalTakesAnyOrder(m - {id}, first, p);
      assert (m - {first}) - {id} == (m - {id}) - {first};
    }
  }

  lemma AttemptTotalOfUpdate(m: map<TxId, PrefilterAttempt>, id: TxId, a: PrefilterAttempt, p: Pool)
    ensures AttemptTotal(m[id := a], p) == Part(a.receipt, p) + AttemptTotal(m - {id}, p)
    ensures id !in m ==> m - {id} == m
    ensures id in m ==> AttemptTotal(m, p) == Part(m[id].receipt, p) + AttemptTotal(m - {id}, p)
  {
    AttemptTotalTakesAnyOrder(m[id := a], id, p);
    assert m[id := a] - {id} == m - {id};
    if id in m {
      AttemptTotalTakesAnyOrder(m, id, p);
    }
  }

  function Sum(s: seq<nat>): nat {
    if s == [] then 0 else s[0] + Sum(s[1..])
  }

  lemma {:induction false} SumOfUpdate(s: seq<nat>, i: nat, x: nat)
    requires i < |s|
    ensures Sum(s[i := x]) == Sum(s) - s[i] + x
    decreases i
  {
    if i == 0 {
      assert s[i := x][1..] == s[1..];
    } else {
      assert s[i := x][1..] == s[1..][i - 1 := x];
      SumOfUpdate(s[1..], i - 1, x);
    }
  }

  // ---------------------------------------------------------------- the books

  function Cap(env: Env, p: Pool): nat
    requires ConfigOk(env.config)
  {
    if p.Own? then env.config.reserve else SharedCap(env.config)
  }

  function CompletedScans(c: Checkpoint, p: Pool): nat
    requires IsPool(|c.scanReserved|, p)
  {
    if p.Own? then c.scanReserved[p.sponsor] else c.scanShared
  }

  function InflightPart(c: Checkpoint, p: Pool): nat {
    if c.inflight.Some? then Part(c.inflight.value.receipt, p) else 0
  }

  /** What left the pool is on the completed scans, the receipt in flight and the suffix receipts. */
  ghost predicate Balanced(env: Env, c: Checkpoint, p: Pool)
    requires ConfigOk(env.config) && IsPool(|c.budget.reserveLeft|, p) && IsPool(|c.scanReserved|, p)
  {
    Left(c.budget, p) + CompletedScans(c, p) + InflightPart(c, p) + AttemptTotal(c.attempts, p) == Cap(env, p)
  }

  ghost predicate BooksBalance(env: Env, occs: seq<Occurrence>, c: Checkpoint)
    requires ConfigOk(env.config) && Shaped(env, occs, c)
  {
    forall p: Pool | IsPool(env.config.validators, p) :: Balanced(env, c, p)
  }

  /** The scan cost of every finished occurrence that was not refused its scan, each once. */
  function ScansCharged(occs: seq<Occurrence>, marks: seq<Mark>): nat
    requires |marks| <= |occs|
  {
    if marks == [] then 0
    else
      var k := |marks| - 1;
      ScansCharged(occs, marks[..k])
      + if marks[k].PREFILTER_SCAN_CAP? then 0 else ScanWorkCost(occs[k].itemLength)
  }

  predicate ScansAreChargedOnce(occs: seq<Occurrence>, c: Checkpoint) {
    && |c.marks| == c.cursor <= |occs|
    && Sum(c.scanReserved) + c.scanShared == ScansCharged(occs, c.marks)
  }

  // ---------------------------------------------------------------- the records

  predicate ScanRecordOk(env: Env, occs: seq<Occurrence>, c: Checkpoint) {
    c.inflight.Some? ==>
      var a := c.inflight.value;
      && c.cursor < |occs| && SourceOk(env, occs[c.cursor]) && InflightMatches(a, c.cursor, occs[c.cursor])
      && a.receipt.sponsor == a.sponsor && a.receipt.reserved + a.receipt.shared == a.cost
  }

  /** The suffix record names the occurrence that paid for it; one that only started is of the current
      occurrence, whose scan is in flight and whose cheap prefix passes. */
  predicate SuffixRecordOk(env: Env, occs: seq<Occurrence>, c: Checkpoint, id: TxId)
    requires id in c.attempts
  {
    var a := c.attempts[id];
    && a.origin <= c.cursor && a.origin < |occs| && occs[a.origin].tx.id == id
    && a.sponsor == a.receipt.sponsor == occs[a.origin].sponsor
    && a.receipt.reserved + a.receipt.shared == a.cost == ExpensiveWorkCost(occs[a.origin].tx.suffixFields)
    && (match a.status
        case STARTED => a.origin == c.cursor && c.inflight.Some? && Cheap(env, occs[c.cursor], c).Passed?
        case VALID => env.suffixValid(occs[a.origin].tx)
        case INVALID => !env.suffixValid(occs[a.origin].tx))
  }

  predicate RecordsOk(env: Env, occs: seq<Occurrence>, c: Checkpoint) {
    && ScanRecordOk(env, occs, c)
    && forall id | id in c.attempts :: SuffixRecordOk(env, occs, c, id)
  }

  predicate NoneStarted(c: Checkpoint) {
    forall id | id in c.attempts :: !c.attempts[id].status.STARTED?
  }

  // ---------------------------------------------------------------- the winners

  /** The occurrences marked as winners, in order and numbered. */
  function Chosen(occs: seq<Occurrence>, marks: seq<Mark>): (ws: seq<Winner>)
    requires |marks| <= |occs|
  {
    if marks == [] then []
    else
      var k := |marks| - 1;
      var before := Chosen(occs, marks[..k]);
      if marks[k].WINNER? then before + [Winner(|before|, occs[k].tx)] else before
  }

  function Gas(ws: seq<Winner>): nat {
    if ws == [] then 0 else Gas(ws[..|ws| - 1]) + ws[|ws| - 1].tx.gasLimit
  }

  function FirstNonce(env: Env, sender: Address): nat {
    if sender in env.accounts then env.accounts[sender].nextNonce else 0
  }

  function CountOf(ws: seq<Winner>, sender: Address): nat {
    if ws == [] then 0
    else CountOf(ws[..|ws| - 1], sender) + if ws[|ws| - 1].tx.sender == sender then 1 else 0
  }

  /** Winner k has the nonce that follows those of the same sender's winners before it. */
  predicate NonceFollows(env: Env, ws: seq<Winner>, k: nat)
    requires k < |ws|
  {
    ws[k].tx.nonce == FirstNonce(env, ws[k].tx.sender) + CountOf(ws[..k], ws[k].tx.sender)
  }

  ghost predicate NoncesOk(env: Env, c: Checkpoint) {
    && (forall k: nat | k < |c.winners| :: NonceFollows(env, c.winners, k))
    && (forall a: Address :: NextNonce(env, c.nextNonce, a) == FirstNonce(env, a) + CountOf(c.winners, a) <= UINT64_MAX)
    && (forall a: Address | a !in env.accounts :: a in c.created <==> a in c.nextNonce)
  }

  predicate IdsOk(c: Checkpoint) {
    && (forall k: nat | k < |c.winners| :: c.winners[k].tx.id in c.accepted)
    && (forall j: nat, k: nat | j < k < |c.winners| :: c.winners[j].tx.id != c.winners[k].tx.id)
    && (forall id | id in c.accepted :: id in c.attempts && c.attempts[id].status.VALID?)
  }

  predicate CapsOk(env: Env, c: Checkpoint) {
    |c.winners| <= env.config.maxTransactions && c.reservedGas == Gas(c.winners) <= env.config.maxGas
  }

  /** The transaction is in its window, under the active policy, and creates only what is missing. */
  predicate Eligible(env: Env, tx: Tx) {
    && tx.validFrom <= env.height <= tx.validUntil && tx.nonce < UINT64_MAX
    && (if tx.isCreate then tx.sender !in env.accounts && tx.nonce == 0 && env.createContextOk(tx)
        else tx.sender in env.accounts && tx.policyHash == env.accounts[tx.sender].policyHash)
  }

  predicate EligibleOk(env: Env, c: Checkpoint) {
    forall k: nat | k < |c.winners| :: Eligible(env, c.winners[k].tx)
  }

  ghost predicate WinnersOk(env: Env, occs: seq<Occurrence>, c: Checkpoint) {
    && |c.marks| == c.cursor <= |occs| && c.winners == Chosen(occs, c.marks)
    && NoncesOk(env, c) && IdsOk(c) && CapsOk(env, c) && EligibleOk(env, c)
  }

  // ---------------------------------------------------------------- sponsor isolation

  function ItemWork(occ: Occurrence): nat {
    ScanWorkCost(occ.itemLength) + ExpensiveWorkCost(occ.tx.suffixFields)
  }

  /** Both costs of all the items that a sponsor brought among the first k. */
  function Demand(occs: seq<Occurrence>, sponsor: nat, k: nat): nat
    requires k <= |occs|
  {
    if k == 0 then 0
    else Demand(occs, sponsor, k - 1) + if occs[k - 1].sponsor == sponsor then ItemWork(occs[k - 1]) else 0
  }

  /** What the current occurrence has already taken from its sponsor at most. */
  function Pending(occs: seq<Occurrence>, c: Checkpoint, sponsor: nat): nat {
    if c.cursor >= |occs| || c.inflight.None? || occs[c.cursor].sponsor != sponsor then 0
    else
      var id := occs[c.cursor].tx.id;
      ScanWorkCost(occs[c.cursor].itemLength)
      + if id in c.attempts && c.attempts[id].origin == c.cursor then ExpensiveWorkCost(occs[c.cursor].tx.suffixFields) else 0
  }

  predicate CapIsEarned(env: Env, occs: seq<Occurrence>, marks: seq<Mark>, k: nat)
    requires k < |marks| && k < |occs|
  {
    marks[k].PREFILTER_SCAN_CAP? || marks[k].PREFILTER_VERIFY_CAP? ==>
      env.config.reserve < Demand(occs, occs[k].sponsor, k + 1)
  }

  predicate SponsorsIsolated(env: Env, occs: seq<Occurrence>, c: Checkpoint)
    requires Shaped(env, occs, c)
  {
    && |c.marks| == c.cursor
    && (forall s: nat | s < env.config.validators ::
          env.config.reserve <= Left(c.budget, Own(s)) + Demand(occs, s, c.cursor) + Pending(occs, c, s))
    && forall k: nat | k < |c.marks| :: CapIsEarned(env, occs, c.marks, k)
  }

  ghost predicate Inv(env: Env, occs: seq<Occurrence>, c: Checkpoint) {
    && EnvOk(env) && Shaped(env, occs, c)
    && BooksBalance(env, occs, c) && ScansAreChargedOnce(occs, c) && RecordsOk(env, occs, c)
    && WinnersOk(env, occs, c) && SponsorsIsolated(env, occs, c)
  }

  lemma {:induction false} SumOfZeros(n: nat)
    ensures Sum(seq(n, _ => 0)) == 0
  {
    if n > 0 {
      assert seq(n, _ => 0)[1..] == seq(n - 1, _ => 0);
      SumOfZeros(n - 1);
    }
  }

  lemma StartIsFine(env: Env, occs: seq<Occurrence>)
    requires EnvOk(env)
    ensures Inv(env, occs, Start(env))
  {
    SumOfZeros(env.config.validators);
  }

  // ---------------------------------------------------------------- what charges keep

  /** The state after the scan charge. */
  function ScanChargedState(c: Checkpoint, occ: Occurrence, charge: Charge): Checkpoint
    requires charge.Charged?
  {
    c.(budget := charge.budget,
       inflight := Some(ScanAttempt(c.cursor, BindingOf(c.cursor, occ), occ.sponsor, occ.itemLength,
                                    ScanWorkCost(occ.itemLength), charge.receipt)))
  }

  lemma ScanChargeKeepsBooks(env: Env, occs: seq<Occurrence>, c: Checkpoint, charge: Charge)
    requires Inv(env, occs, c) && c.cursor < |occs| && c.inflight.None? && SourceOk(env, occs[c.cursor])
    requires charge == TryChargePrefilter(c.budget, occs[c.cursor].sponsor, ScanWorkCost(occs[c.cursor].itemLength))
    requires charge.Charged?
    ensures var d := ScanChargedState(c, occs[c.cursor], charge);
      && Shaped(env, occs, d) && BooksBalance(env, occs, d) && ScansAreChargedOnce(occs, d)
  {
    hide Cheap, WinnersOk, SponsorsIsolated, RecordsOk, ScanWorkCost, TryChargePrefilter, AttemptTotal, ScansCharged;
    var d := ScanChargedState(c, occs[c.cursor], charge);
    forall p: Pool | IsPool(env.config.validators, p)
      ensures Balanced(env, d, p)
    {
      assert Balanced(env, c, p);
      ChargeIsOnTheReceipt(c.budget, occs[c.cursor].sponsor, ScanWorkCost(occs[c.cursor].itemLength), p);
    }
  }

  lemma ScanChargeKeepsRest(env: Env, occs: seq<Occurrence>, c: Checkpoint, charge: Charge)
    requires Inv(env, occs, c) && c.cursor < |occs| && c.inflight.None? && SourceOk(env, occs[c.cursor])
    requires charge == TryChargePrefilter(c.budget, occs[c.cursor].sponsor, ScanWorkCost(occs[c.cursor].itemLength))
    requires charge.Charged?
    ensures var d := ScanChargedState(c, occs[c.cursor], charge);
      && Shaped(env, occs, d) && RecordsOk(env, occs, d) && WinnersOk(env, occs, d) && SponsorsIsolated(env, occs, d)
  {
    hide Cheap, ScanWorkCost, ExpensiveWorkCost, BooksBalance, ScansAreChargedOnce, Chosen, Gas, CountOf, NextNonce, TryChargePrefilter;
    var d := ScanChargedState(c, occs[c.cursor], charge);
    forall id | id in d.attempts
      ensures SuffixRecordOk(env, occs, d, id)
    {
      assert SuffixRecordOk(env, occs, c, id);
    }
    forall s: nat | s < env.config.validators
      ensures env.config.reserve <= Left(d.budget, Own(s)) + Demand(occs, s, d.cursor) + Pending(occs, d, s)
    {
      assert env.config.reserve <= Left(c.budget, Own(s)) + Demand(occs, s, c.cursor) + Pending(occs, c, s);
      ChargeIsOnTheReceipt(c.budget, occs[c.cursor].sponsor, ScanWorkCost(occs[c.cursor].itemLength), Own(s));
    }
  }

  lemma AttemptChargeKeepsBooks(env: Env, occs: seq<Occurrence>, c: Checkpoint, d: Checkpoint)
    requires Inv(env, occs, c) && c.cursor < |occs| && SourceOk(env, occs[c.cursor])
    requires occs[c.cursor].tx.id !in c.attempts && StartAttempt(env, occs[c.cursor], c) == Attempted(d)
    ensures Shaped(env, occs, d) && BooksBalance(env, occs, d) && ScansAreChargedOnce(occs, d)
  {
    hide Cheap, WinnersOk, SponsorsIsolated, RecordsOk, ScanWorkCost, ExpensiveWorkCost, TryChargePrefilter, AttemptTotal, ScansCharged;
    var occ := occs[c.cursor];
    forall p: Pool | IsPool(env.config.validators, p)
      ensures Balanced(env, d, p)
    {
      assert Balanced(env, c, p);
      ChargeIsOnTheReceipt(c.budget, occ.sponsor, ExpensiveWorkCost(occ.tx.suffixFields), p);
      AttemptTotalOfUpdate(c.attempts, occ.tx.id, d.attempts[occ.tx.id], p);
    }
  }

  lemma AttemptChargeKeepsRecords(env: Env, occs: seq<Occurrence>, c: Checkpoint, d: Checkpoint)
    requires Inv(env, occs, c) && c.cursor < |occs| && c.inflight.Some? && Cheap(env, occs[c.cursor], c).Passed?
    requires SourceOk(env, occs[c.cursor])
    requires occs[c.cursor].tx.id !in c.attempts && StartAttempt(env, occs[c.cursor], c) == Attempted(d)
    ensures RecordsOk(env, occs, d)
  {
    hide ScanWorkCost, ExpensiveWorkCost, BooksBalance, ScansAreChargedOnce, WinnersOk, TryChargePrefilter, SponsorsIsolated;
    CheapIgnoresCharges(env, occs[c.cursor], c, d);
    hide Cheap;
    forall id | id in d.attempts
      ensures SuffixRecordOk(env, occs, d, id)
    {
      if id in c.attempts {
        assert SuffixRecordOk(env, occs, c, id);
      }
    }
  }

  lemma AttemptChargeKeepsSponsors(env: Env, occs: seq<Occurrence>, c: Checkpoint, d: Checkpoint)
    requires Inv(env, occs, c) && c.cursor < |occs| && c.inflight.Some?
    requires SourceOk(env, occs[c.cursor])
    requires occs[c.cursor].tx.id !in c.attempts && StartAttempt(env, occs[c.cursor], c) == Attempted(d)
    ensures Shaped(env, occs, d) && SponsorsIsolated(env, occs, d)
  {
    hide ScanWorkCost, ExpensiveWorkCost, BooksBalance, ScansAreChargedOnce, WinnersOk, TryChargePrefilter, RecordsOk, Cheap;
    var occ := occs[c.cursor];
    forall s: nat | s < env.config.validators
      ensures env.config.reserve <= Left(d.budget, Own(s)) + Demand(occs, s, d.cursor) + Pending(occs, d, s)
    {
      assert env.config.reserve <= Left(c.budget, Own(s)) + Demand(occs, s, c.cursor) + Pending(occs, c, s);
      ChargeIsOnTheReceipt(c.budget, occ.sponsor, ExpensiveWorkCost(occ.tx.suffixFields), Own(s));
    }
  }

  /** A change of attempts that leaves the accepted ones alone leaves the winners alone. */
  lemma AttemptsKeepWinners(env: Env, occs: seq<Occurrence>, c: Checkpoint, d: Checkpoint)
    requires WinnersOk(env, occs, c)
    requires d == c.(budget := d.budget, attempts := d.attempts)
    requires forall id | id in c.accepted :: id in d.attempts && d.attempts[id].status.VALID?
    ensures WinnersOk(env, occs, d)
  {
    hide Chosen, Gas, CountOf, NextNonce, FirstNonce;
  }

  lemma SuffixResultKeepsBooks(env: Env, occs: seq<Occurrence>, c: Checkpoint)
    requires Inv(env, occs, c) && c.cursor < |occs| && occs[c.cursor].tx.id in c.attempts
    ensures var d := RunSuffix(env, occs[c.cursor], c);
      && Shaped(env, occs, d) && BooksBalance(env, occs, d) && ScansAreChargedOnce(occs, d)
      && SponsorsIsolated(env, occs, d)
  {
    hide ScanWorkCost, ExpensiveWorkCost, AttemptTotal, ScansCharged, WinnersOk, RecordsOk, Demand;
    var id, d := occs[c.cursor].tx.id, RunSuffix(env, occs[c.cursor], c);
    forall p: Pool | IsPool(env.config.validators, p)
      ensures Balanced(env, d, p)
    {
      assert Balanced(env, c, p);
      AttemptTotalOfUpdate(c.attempts, id, d.attempts[id], p);
    }
    forall s: nat | s < env.config.validators
      ensures env.config.reserve <= Left(d.budget, Own(s)) + Demand(occs, s, d.cursor) + Pending(occs, d, s)
    {
      assert env.config.reserve <= Left(c.budget, Own(s)) + Demand(occs, s, c.cursor) + Pending(occs, c, s);
    }
  }

  lemma SuffixResultKeepsRecords(env: Env, occs: seq<Occurrence>, c: Checkpoint)
    requires RecordsOk(env, occs, c) && c.cursor < |occs| && occs[c.cursor].tx.id in c.attempts
    requires c.attempts[occs[c.cursor].tx.id].status.STARTED?
    ensures RecordsOk(env, occs, RunSuffix(env, occs[c.cursor], c)) && NoneStarted(RunSuffix(env, occs[c.cursor], c))
  {
    hide ExpensiveWorkCost, ScanWorkCost, Cheap, SourceOk, InflightMatches;
    var id, d := occs[c.cursor].tx.id, RunSuffix(env, occs[c.cursor], c);
    forall other | other in d.attempts
      ensures SuffixRecordOk(env, occs, d, other) && !d.attempts[other].status.STARTED?
    {
      assert SuffixRecordOk(env, occs, c, other);
      assert SuffixRecordOk(env, occs, c, id);
    }
  }

  lemma SuffixResultKeepsWinners(env: Env, occs: seq<Occurrence>, c: Checkpoint)
    requires WinnersOk(env, occs, c) && c.cursor < |occs| && occs[c.cursor].tx.id in c.attempts
    requires c.attempts[occs[c.cursor].tx.id].status.STARTED?
    ensures WinnersOk(env, occs, RunSuffix(env, occs[c.cursor], c))
  {
    hide NoncesOk, CapsOk, EligibleOk, Chosen;
    AttemptsKeepWinners(env, occs, c, RunSuffix(env, occs[c.cursor], c));
  }

  lemma SuffixResultKeeps(env: Env, occs: seq<Occurrence>, c: Checkpoint)
    requires Inv(env, occs, c) && c.cursor < |occs| && occs[c.cursor].tx.id in c.attempts
    requires c.attempts[occs[c.cursor].tx.id].status.STARTED?
    ensures Inv(env, occs, RunSuffix(env, occs[c.cursor], c)) && NoneStarted(RunSuffix(env, occs[c.cursor], c))
  {
    hide RecordsOk, WinnersOk, BooksBalance, ScansAreChargedOnce, SponsorsIsolated, RunSuffix, NoneStarted;
    SuffixResultKeepsBooks(env, occs, c);
    SuffixResultKeepsRecords(env, occs, c);
    SuffixResultKeepsWinners(env, occs, c);
  }

  // ---------------------------------------------------------------- what finishing keeps

  /** The charges may be finished with the given mark. */
  ghost predicate MayFinish(env: Env, occs: seq<Occurrence>, c: Checkpoint, mark: Mark) {
    && EnvOk(env) && Shaped(env, occs, c) && c.cursor < |occs| && NoneStarted(c)
    && BooksBalance(env, occs, c) && ScansAreChargedOnce(occs, c) && RecordsOk(env, occs, c)
    && SponsorsIsolated(env, occs, c)
    && (mark.PREFILTER_SCAN_CAP? <==> c.inflight.None?)
    && (mark.PREFILTER_SCAN_CAP? || mark.PREFILTER_VERIFY_CAP? ==>
          env.config.reserve < Demand(occs, occs[c.cursor].sponsor, c.cursor + 1))
  }

  lemma FinishKeepsBooks(env: Env, occs: seq<Occurrence>, c: Checkpoint, mark: Mark)
    requires MayFinish(env, occs, c, mark)
    ensures var d := Finish(c, mark);
      Shaped(env, occs, d) && BooksBalance(env, occs, d) && ScansAreChargedOnce(occs, d)
  {
    hide ScanWorkCost, ExpensiveWorkCost, AttemptTotal, SponsorsIsolated, Demand, Cheap;
    var d := Finish(c, mark);
    forall p: Pool | IsPool(env.config.validators, p)
      ensures Balanced(env, d, p)
    {
      assert Balanced(env, c, p);
    }
    assert d.marks[..c.cursor] == c.marks;
    if c.inflight.Some? {
      var r := c.inflight.value.receipt;
      SumOfUpdate(c.scanReserved, r.sponsor, c.scanReserved[r.sponsor] + r.reserved);
    }
  }

  lemma FinishKeepsRecords(env: Env, occs: seq<Occurrence>, c: Checkpoint, mark: Mark)
    requires RecordsOk(env, occs, c) && NoneStarted(c) && InflightInRange(c) && c.cursor < |occs|
    ensures RecordsOk(env, occs, Finish(c, mark))
  {
    hide ScanWorkCost, ExpensiveWorkCost, Cheap;
    var d := Finish(c, mark);
    forall id | id in d.attempts
      ensures SuffixRecordOk(env, occs, d, id)
    {
      assert SuffixRecordOk(env, occs, c, id);
    }
  }

  lemma FinishKeepsRest(env: Env, occs: seq<Occurrence>, c: Checkpoint, mark: Mark)
    requires MayFinish(env, occs, c, mark)
    ensures var d := Finish(c, mark);
      Shaped(env, occs, d) && RecordsOk(env, occs, d) && SponsorsIsolated(env, occs, d)
  {
    hide ScanWorkCost, ExpensiveWorkCost, AttemptTotal, BooksBalance, ScansAreChargedOnce, Cheap, ConfigOk;
    FinishKeepsRecords(env, occs, c, mark);
    hide RecordsOk, NoneStarted;
    var d := Finish(c, mark);
    forall s: nat | s < env.config.validators
      ensures env.config.reserve <= Left(d.budget, Own(s)) + Demand(occs, s, d.cursor) + Pending(occs, d, s)
    {
      assert env.config.reserve <= Left(c.budget, Own(s)) + Demand(occs, s, c.cursor) + Pending(occs, c, s);
    }
    forall k: nat | k < |d.marks|
      ensures CapIsEarned(env, occs, d.marks, k)
    {
      if k < |c.marks| {
        assert CapIsEarned(env, occs, c.marks, k);
      }
    }
  }

  lemma FinishKeepsWinners(env: Env, occs: seq<Occurrence>, c: Checkpoint, mark: Mark)
    requires WinnersOk(env, occs, c) && InflightInRange(c) && c.cursor < |occs| && !mark.WINNER?
    ensures WinnersOk(env, occs, Finish(c, mark))
  {
    hide NextNonce, FirstNonce, CountOf, Gas, Eligible;
    assert Finish(c, mark).marks[..c.cursor] == c.marks;
  }

  lemma FinishWithoutWinnerKeeps(env: Env, occs: seq<Occurrence>, c: Checkpoint, mark: Mark)
    requires Inv(env, occs, c) && MayFinish(env, occs, c, mark) && !mark.WINNER?
    ensures Inv(env, occs, Finish(c, mark))
  {
    hide BooksBalance, ScansAreChargedOnce, RecordsOk, SponsorsIsolated, WinnersOk, Finish;
    FinishKeepsBooks(env, occs, c, mark);
    FinishKeepsRest(env, occs, c, mark);
    FinishKeepsWinners(env, occs, c, mark);
  }

  // ---------------------------------------------------------------- what accepting keeps

  lemma AcceptKeepsNonces(env: Env, occ: Occurrence, c: Checkpoint, next: nat, reservation: Reservation)
    requires EnvOk(env) && NoncesOk(env, c) && Cheap(env, occ, c) == Passed(next, reservation)
    ensures NoncesOk(env, Accept(occ, c, next, reservation))
  {
    var d := Accept(occ, c, next, reservation);
    var n := |c.winners|;
    assert d.winners[..n] == c.winners;
    forall k: nat | k < |d.winners|
      ensures NonceFollows(env, d.winners, k)
    {
      if k < n {
        assert NonceFollows(env, c.winners, k);
        assert d.winners[..k] == c.winners[..k];
      } else {
        assert NextNonce(env, c.nextNonce, occ.tx.sender) == next;
      }
    }
    forall a: Address
      ensures NextNonce(env, d.nextNonce, a) == FirstNonce(env, a) + CountOf(d.winners, a) <= UINT64_MAX
    {
      assert NextNonce(env, c.nextNonce, a) == FirstNonce(env, a) + CountOf(c.winners, a);
      assert NextNonce(env, c.nextNonce, occ.tx.sender) == next;
    }
  }

  lemma AcceptKeepsIdsAndCaps(env: Env, occ: Occurrence, c: Checkpoint, next: nat, reservation: Reservation)
    requires IdsOk(c) && CapsOk(env, c) && Cheap(env, occ, c) == Passed(next, reservation)
    requires occ.tx.id in c.attempts && c.attempts[occ.tx.id].status.VALID?
    requires EnvOk(env) && EligibleOk(env, c) && NoncesOk(env, c)
    ensures IdsOk(Accept(occ, c, next, reservation)) && CapsOk(env, Accept(occ, c, next, reservation))
    ensures EligibleOk(env, Accept(occ, c, next, reservation))
  {
    assert NextNonce(env, c.nextNonce, occ.tx.sender) <= UINT64_MAX;
    hide NextNonce, NoncesOk, ConfigOk;
    assert Accept(occ, c, next, reservation).winners[..|c.winners|] == c.winners;
  }

  /** Winners, nonces and gas are not in the books, the records or the sponsors' accounts. */
  lemma AcceptKeepsCharges(env: Env, occs: seq<Occurrence>, c: Checkpoint, d: Checkpoint, mark: Mark)
    requires MayFinish(env, occs, c, mark)
    requires d == c.(winners := d.winners, accepted := d.accepted, nextNonce := d.nextNonce, reservedGas := d.reservedGas,
                     reservation := d.reservation, created := d.created)
    ensures MayFinish(env, occs, d, mark)
  {
    hide Cheap, ScanWorkCost, ExpensiveWorkCost, AttemptTotal, Demand, ScansCharged;
    forall p: Pool | IsPool(env.config.validators, p)
      ensures Balanced(env, d, p)
    {
      assert Balanced(env, c, p);
    }
    forall id | id in d.attempts
      ensures SuffixRecordOk(env, occs, d, id)
    {
      assert SuffixRecordOk(env, occs, c, id);
    }
    forall s: nat | s < env.config.validators
      ensures env.config.reserve <= Left(d.budget, Own(s)) + Demand(occs, s, d.cursor) + Pending(occs, d, s)
    {
      assert env.config.reserve <= Left(c.budget, Own(s)) + Demand(occs, s, c.cursor) + Pending(occs, c, s);
    }
  }

  /** Finishing with a winner adds the accepted transaction to the chosen ones. */
  lemma FinishedWinnersAreChosen(env: Env, occs: seq<Occurrence>, c: Checkpoint, next: nat, reservation: Reservation)
    requires c.cursor < |occs| && WinnersOk(env, occs, c) && InflightInRange(c)
    requires var d := Accept(occs[c.cursor], c, next, reservation); NoncesOk(env, d) && IdsOk(d) && CapsOk(env, d) && EligibleOk(env, d)
    ensures WinnersOk(env, occs, Finish(Accept(occs[c.cursor], c, next, reservation), WINNER))
  {
    hide NextNonce, FirstNonce, CountOf, Gas;
    var d := Accept(occs[c.cursor], c, next, reservation);
    assert Finish(d, WINNER).marks[..c.cursor] == c.marks;
  }

  lemma AcceptKeeps(env: Env, occs: seq<Occurrence>, c: Checkpoint, next: nat, reservation: Reservation)
    requires Inv(env, occs, c) && MayFinish(env, occs, c, WINNER)
    requires Cheap(env, occs[c.cursor], c) == Passed(next, reservation)
    requires occs[c.cursor].tx.id in c.attempts && c.attempts[occs[c.cursor].tx.id].status.VALID?
    ensures Inv(env, occs, Finish(Accept(occs[c.cursor], c, next, reservation), WINNER))
  {
    hide BooksBalance, ScansAreChargedOnce, RecordsOk, SponsorsIsolated, NoncesOk, IdsOk, CapsOk, EligibleOk, Cheap, Finish, Chosen;
    var occ := occs[c.cursor];
    var d := Accept(occ, c, next, reservation);
    AcceptKeepsNonces(env, occ, c, next, reservation);
    AcceptKeepsIdsAndCaps(env, occ, c, next, reservation);
    FinishedWinnersAreChosen(env, occs, c, next, reservation);
    AcceptKeepsCharges(env, occs, c, d, WINNER);
    FinishKeepsBooks(env, occs, d, WINNER);
    FinishKeepsRest(env, occs, d, WINNER);
  }

  // ---------------------------------------------------------------- every step

  lemma ChargesStay(env: Env, occs: seq<Occurrence>, c: Checkpoint)
    requires Inv(env, occs, c) && c.cursor < |occs| && Scan(env, occs[c.cursor], c).Scanned? && c.inflight.None?
    ensures Inv(env, occs, Scan(env, occs[c.cursor], c).checkpoint)
  {
    var occ := occs[c.cursor];
    var charge := TryChargePrefilter(c.budget, occ.sponsor, ScanWorkCost(occ.itemLength));
    ScanChargeKeepsBooks(env, occs, c, charge);
    ScanChargeKeepsRest(env, occs, c, charge);
    hide BooksBalance, ScansAreChargedOnce, RecordsOk, SponsorsIsolated, WinnersOk, TryChargePrefilter, ScanWorkCost;
  }

  lemma ScanCapStays(env: Env, occs: seq<Occurrence>, c: Checkpoint)
    requires Inv(env, occs, c) && c.cursor < |occs| && Scan(env, occs[c.cursor], c).ScanCapped?
    ensures Inv(env, occs, Scan(env, occs[c.cursor], c).checkpoint)
  {
    hide BooksBalance, ScansAreChargedOnce, WinnersOk, ScanWorkCost, ExpensiveWorkCost, Cheap;
    var s := occs[c.cursor].sponsor;
    assert env.config.reserve <= Left(c.budget, Own(s)) + Demand(occs, s, c.cursor) + Pending(occs, c, s);
    forall id | id in c.attempts
      ensures !c.attempts[id].status.STARTED?
    {
      assert SuffixRecordOk(env, occs, c, id);
    }
    FinishWithoutWinnerKeeps(env, occs, c, PREFILTER_SCAN_CAP);
  }

  /** Only the current transaction can have started, and only while its cheap prefix passes. */
  lemma StartedIsCurrent(env: Env, occs: seq<Occurrence>, c: Checkpoint)
    requires Inv(env, occs, c) && c.cursor < |occs|
    requires
      || !Cheap(env, occs[c.cursor], c).Passed?
      || occs[c.cursor].tx.id !in c.attempts || !c.attempts[occs[c.cursor].tx.id].status.STARTED?
    ensures NoneStarted(c)
  {
    hide BooksBalance, ScansAreChargedOnce, WinnersOk, SponsorsIsolated, ScanWorkCost, ExpensiveWorkCost, Cheap;
    forall id | id in c.attempts
      ensures !c.attempts[id].status.STARTED?
    {
      assert SuffixRecordOk(env, occs, c, id);
    }
  }

  lemma VerifyCapIsEarned(env: Env, occs: seq<Occurrence>, c: Checkpoint)
    requires Inv(env, occs, c) && c.cursor < |occs| && c.inflight.Some? && SourceOk(env, occs[c.cursor])
    requires occs[c.cursor].tx.id !in c.attempts && StartAttempt(env, occs[c.cursor], c).VerifyCapped?
    ensures env.config.reserve < Demand(occs, occs[c.cursor].sponsor, c.cursor + 1)
  {
    hide BooksBalance, ScansAreChargedOnce, WinnersOk, RecordsOk, ScanWorkCost, ExpensiveWorkCost, Cheap;
    var s := occs[c.cursor].sponsor;
    assert env.config.reserve <= Left(c.budget, Own(s)) + Demand(occs, s, c.cursor) + Pending(occs, c, s);
  }

  lemma CheapNeverHalts(env: Env, occs: seq<Occurrence>, c: Checkpoint)
    requires Inv(env, occs, c) && c.cursor < |occs|
    ensures !Cheap(env, occs[c.cursor], c).Halted?
    ensures Cheap(env, occs[c.cursor], c).Passed? ==>
      c.reservedGas + occs[c.cursor].tx.gasLimit <= env.config.maxGas && occs[c.cursor].tx.id !in c.accepted
  {
    hide BooksBalance, ScansAreChargedOnce, RecordsOk, SponsorsIsolated, NoncesOk, IdsOk, Chosen, Gas, NextNonce;
  }

  lemma AttemptStays(env: Env, occs: seq<Occurrence>, c: Checkpoint, d: Checkpoint)
    requires Inv(env, occs, c) && c.cursor < |occs| && c.inflight.Some? && Cheap(env, occs[c.cursor], c).Passed?
    requires SourceOk(env, occs[c.cursor])
    requires occs[c.cursor].tx.id !in c.attempts && StartAttempt(env, occs[c.cursor], c) == Attempted(d)
    ensures Inv(env, occs, d)
  {
    AttemptChargeKeepsBooks(env, occs, c, d);
    AttemptChargeKeepsRecords(env, occs, c, d);
    AttemptChargeKeepsSponsors(env, occs, c, d);
    CheapNeverHalts(env, occs, c);
    hide BooksBalance, ScansAreChargedOnce, RecordsOk, SponsorsIsolated, NoncesOk, CapsOk, Chosen, TryChargePrefilter, ExpensiveWorkCost, Cheap;
    AttemptsKeepWinners(env, occs, c, d);
  }

  lemma RejectionIsNoCap(env: Env, occ: Occurrence, c: Checkpoint)
    requires Cheap(env, occ, c).Rejected?
    ensures var mark := Cheap(env, occ, c).mark;
      !mark.PREFILTER_SCAN_CAP? && !mark.PREFILTER_VERIFY_CAP? && !mark.WINNER?
  {
  }

  /** A first charge of the suffix, or its refusal, keeps everything. */
  lemma FirstAttemptStays(env: Env, occs: seq<Occurrence>, c: Checkpoint)
    requires Inv(env, occs, c) && c.cursor < |occs| && c.inflight.Some? && SourceOk(env, occs[c.cursor])
    requires Cheap(env, occs[c.cursor], c).Passed? && occs[c.cursor].tx.id !in c.attempts
    ensures ScannedStep(env, occs[c.cursor], c).Running?
    ensures Inv(env, occs, ScannedStep(env, occs[c.cursor], c).checkpoint)
  {
    var occ := occs[c.cursor];
    hide BooksBalance, ScansAreChargedOnce, SponsorsIsolated, WinnersOk, RecordsOk, Cheap, StartAttempt, Finish,
      ConfigOk, ScanWorkCost, ExpensiveWorkCost;
    match StartAttempt(env, occ, c)
    case VerifyCapped =>
      StartedIsCurrent(env, occs, c);
      VerifyCapIsEarned(env, occs, c);
      FinishWithoutWinnerKeeps(env, occs, c, PREFILTER_VERIFY_CAP);
    case Attempted(d) => AttemptStays(env, occs, c, d);
  }

  lemma SettledMayFinish(env: Env, occs: seq<Occurrence>, c: Checkpoint, mark: Mark)
    requires Inv(env, occs, c) && c.cursor < |occs| && c.inflight.Some? && NoneStarted(c)
    requires !mark.PREFILTER_SCAN_CAP? && !mark.PREFILTER_VERIFY_CAP?
    ensures MayFinish(env, occs, c, mark)
  {
    hide BooksBalance, ScansAreChargedOnce, SponsorsIsolated, WinnersOk, RecordsOk;
  }

  /** A terminal attempt leads to a rejection or a winner and keeps everything. */
  lemma ConclusionStays(env: Env, occs: seq<Occurrence>, c: Checkpoint, next: nat, reservation: Reservation)
    requires Inv(env, occs, c) && c.cursor < |occs| && c.inflight.Some? && SourceOk(env, occs[c.cursor])
    requires Cheap(env, occs[c.cursor], c) == Passed(next, reservation)
    requires occs[c.cursor].tx.id in c.attempts && !c.attempts[occs[c.cursor].tx.id].status.STARTED?
    ensures Conclude(occs[c.cursor], c, next, reservation).Running?
    ensures Inv(env, occs, Conclude(occs[c.cursor], c, next, reservation).checkpoint)
  {
    var occ := occs[c.cursor];
    CheapNeverHalts(env, occs, c);
    assert env.config.maxGas <= UINT64_MAX;
    hide BooksBalance, ScansAreChargedOnce, SponsorsIsolated, WinnersOk, RecordsOk, Cheap, Finish, Accept, ConfigOk,
      MayFinish, NoneStarted;
    StartedIsCurrent(env, occs, c);
    SettledMayFinish(env, occs, c, WINNER);
    SettledMayFinish(env, occs, c, STATIC_OR_AUTH_INVALID_OCCURRENCE);
    if c.attempts[occ.tx.id].status.INVALID? {
      FinishWithoutWinnerKeeps(env, occs, c, STATIC_OR_AUTH_INVALID_OCCURRENCE);
    } else {
      AcceptKeeps(env, occs, c, next, reservation);
    }
  }

  /** What a passed cheap prefix leads to keeps everything. */
  lemma PassedStepStays(env: Env, occs: seq<Occurrence>, c: Checkpoint)
    requires Inv(env, occs, c) && c.cursor < |occs| && c.inflight.Some? && SourceOk(env, occs[c.cursor])
    requires Cheap(env, occs[c.cursor], c).Passed?
    ensures ScannedStep(env, occs[c.cursor], c).Running?
    ensures Inv(env, occs, ScannedStep(env, occs[c.cursor], c).checkpoint)
  {
    var occ := occs[c.cursor];
    hide BooksBalance, ScansAreChargedOnce, SponsorsIsolated, WinnersOk, Cheap, StartAttempt, Finish, Conclude,
      RunSuffix, ConfigOk, ScanWorkCost, ExpensiveWorkCost;
    if occ.tx.id !in c.attempts {
      FirstAttemptStays(env, occs, c);
    } else if c.attempts[occ.tx.id].status.STARTED? {
      assert SuffixRecordOk(env, occs, c, occ.tx.id);
      SuffixResultKeeps(env, occs, c);
    } else {
      ConclusionStays(env, occs, c, Cheap(env, occ, c).next, Cheap(env, occ, c).reservation);
    }
  }

  /** A step whose scan is charged keeps everything, and never finds corruption or a reason to halt. */
  lemma ScannedStepStays(env: Env, occs: seq<Occurrence>, c: Checkpoint)
    requires Inv(env, occs, c) && c.cursor < |occs| && c.inflight.Some? && SourceOk(env, occs[c.cursor])
    ensures ScannedStep(env, occs[c.cursor], c).Running?
    ensures Inv(env, occs, ScannedStep(env, occs[c.cursor], c).checkpoint)
  {
    var occ := occs[c.cursor];
    CheapNeverHalts(env, occs, c);
    if Cheap(env, occ, c).Passed? {
      PassedStepStays(env, occs, c);
    } else {
      hide BooksBalance, ScansAreChargedOnce, SponsorsIsolated, WinnersOk, RecordsOk, Cheap, Finish, ConfigOk;
      StartedIsCurrent(env, occs, c);
      RejectionIsNoCap(env, occ, c);
      FinishWithoutWinnerKeeps(env, occs, c, Cheap(env, occ, c).mark);
    }
  }

  /** A step only ever stops because the causal source itself is invalid. */
  lemma StepStays(env: Env, occs: seq<Occurrence>, c: Checkpoint)
    requires Inv(env, occs, c) && c.cursor < |occs|
    ensures match Step(env, occs, c)
            case Running(d) => Inv(env, occs, d)
            case other =>
              && other.CandidateInvalid?
              && (!SourceOk(env, occs[c.cursor]) || !occs[c.cursor].streamMatches)
  {
    var occ := occs[c.cursor];
    if SourceOk(env, occ) {
      hide BooksBalance, ScansAreChargedOnce, SponsorsIsolated, WinnersOk, Cheap, ScannedStep;
      if c.inflight.Some? {
        ScannedStepStays(env, occs, c);
      } else if Scan(env, occ, c).Scanned? {
        ChargesStay(env, occs, c);
      } else if Scan(env, occ, c).ScanCapped? {
        ScanCapStays(env, occs, c);
      }
    }
  }
}
