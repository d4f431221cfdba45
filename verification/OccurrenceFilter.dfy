/** The single pass over causal occurrences
    (doc/protocol/04-finality-execution-and-epochs.md, section 3.2).

    The functions state what the body of the loop does to the data of a checkpoint; FilterPass carries
    the variables of the source and updates them in its order.

    A cursor is the zero-based position of an occurrence. A source binding stands for its hash.
    Payload checks, the cheap reservation and the expensive suffix are deterministic functions of the
    transaction, as the source demands of them. The cross-ledger scheduler is not part of this model. */
module OccurrenceFilter {
  import opened Wrappers
  import opened PrefilterBudget

  type TxId = nat
  type Address = nat

  datatype Tx = Tx(
    id: TxId, sender: Address, nonce: nat, gasLimit: nat, validFrom: nat, validUntil: nat, isCreate: bool,
    policyHash: nat, suffixFields: SuffixFields)

  /** What the verified causal source says about one occurrence. sourceVerified is the outcome of
      resolving the cursor, streamMatches that of the plain byte comparison, wellFormed that of the
      bounded canonical structure check. */
  datatype Occurrence = Occurrence(
    tx: Tx, sponsor: nat, vertexAuthor: nat, batchAuthor: nat, vertexOrdinal: nat, referenceIndex: nat,
    batchId: nat, batchIndex: nat, itemLength: nat, sourceVerified: bool, streamMatches: bool, wellFormed: bool)

  datatype SourceBinding = SourceBinding(
    cursor: nat, vertexOrdinal: nat, referenceIndex: nat, batchId: nat, batchIndex: nat, itemLength: nat,
    sponsor: nat, batchAuthor: nat)

  datatype ScanAttempt = ScanAttempt(
    origin: nat, binding: SourceBinding, sponsor: nat, itemLength: nat, cost: nat, receipt: Receipt)

  datatype Status = STARTED | VALID | INVALID

  datatype PrefilterAttempt = PrefilterAttempt(
    status: Status, origin: nat, sponsor: nat, cost: nat, receipt: Receipt)

  datatype Reservation = Reservation(bodyBytes: nat, writes: nat, events: nat, returnBytes: nat)

  datatype Prepared = Prepared(next: Reservation) | DeterministicReject(rejectClass: nat) | ExceedsCaps

  datatype Winner = Winner(index: nat, tx: Tx)

  datatype Mark =
    | PREFILTER_SCAN_CAP
    | STATIC_INVALID
    | FUTURE_HEIGHT
    | EXPIRED_OCCURRENCE
    | DUPLICATE_OCCURRENCE
    | AUTH_INVALID_OCCURRENCE
    | NONCE_EXHAUSTED
    | STALE_OR_DUPLICATE_NONCE
    | FUTURE_NONCE
    | BLOCK_CAP
    | PREPARE_REJECTED(rejectClass: nat)
    | PREFILTER_VERIFY_CAP
    | STATIC_OR_AUTH_INVALID_OCCURRENCE
    | WINNER

  datatype Account = Account(policyHash: nat, nextNonce: nat)

  datatype Config = Config(validators: nat, reserve: nat, maxWork: nat, maxTransactions: nat, maxGas: nat, limits: Limits)

  /** Everything the pass reads and never changes. */
  datatype Env = Env(
    config: Config, height: nat, accounts: map<Address, Account>, emptyReservation: Reservation,
    createContextOk: Tx -> bool, prepare: (Reservation, Tx, nat) -> Prepared, suffixValid: Tx -> bool)

  datatype Checkpoint = Checkpoint(
    cursor: nat, inflight: Option<ScanAttempt>, budget: Budget, scanReserved: seq<nat>, scanShared: nat,
    attempts: map<TxId, PrefilterAttempt>, nextNonce: map<Address, nat>, accepted: set<TxId>,
    created: set<Address>, winners: seq<Winner>, reservedGas: nat, reservation: Reservation, marks: seq<Mark>)

  datatype Outcome = Running(checkpoint: Checkpoint) | CandidateInvalid | RecoveryStateCorrupt | ExecutionHalt

  /** What the protocol configuration and the width of its integers guarantee. */
  predicate ConfigOk(c: Config) {
    && c.validators * c.reserve <= c.maxWork <= UINT64_MAX
    && MaxSinglePrefilterVerificationWork(c.limits) <= c.reserve
    && c.maxGas <= UINT64_MAX
  }

  predicate EnvOk(env: Env) {
    && ConfigOk(env.config)
    && forall a | a in env.accounts :: env.accounts[a].nextNonce <= UINT64_MAX
  }

  function SharedCap(c: Config): nat
    requires ConfigOk(c)
  {
    c.maxWork - c.validators * c.reserve
  }

  function Start(env: Env): Checkpoint
    requires ConfigOk(env.config)
  {
    var n := env.config.validators;
    Checkpoint(0, None, Budget(seq(n, _ => env.config.reserve), SharedCap(env.config)), seq(n, _ => 0), 0, map[],
               map[], {}, {}, [], 0, env.emptyReservation, [])
  }

  /** The arrays have one entry for every validator and the cursor is inside the pass. */
  predicate Shaped(env: Env, occs: seq<Occurrence>, c: Checkpoint) {
    && |c.budget.reserveLeft| == env.config.validators && |c.scanReserved| == env.config.validators
    && c.cursor <= |occs|
    && InflightInRange(c)
  }

  // ---------------------------------------------------------------- the phases of the loop body

  predicate SourceOk(env: Env, occ: Occurrence) {
    && occ.sourceVerified && occ.sponsor < env.config.validators && occ.batchAuthor < env.config.validators
    && occ.sponsor == occ.vertexAuthor
  }

  function BindingOf(cursor: nat, occ: Occurrence): SourceBinding {
    SourceBinding(cursor, occ.vertexOrdinal, occ.referenceIndex, occ.batchId, occ.batchIndex, occ.itemLength,
                  occ.sponsor, occ.batchAuthor)
  }

  predicate InflightMatches(a: ScanAttempt, cursor: nat, occ: Occurrence) {
    && a.origin == cursor && a.binding == BindingOf(cursor, occ) && a.sponsor == occ.sponsor
    && a.itemLength == occ.itemLength && a.cost == ScanWorkCost(occ.itemLength)
  }

  predicate SameShape(c: Checkpoint, d: Checkpoint) {
    |c.budget.reserveLeft| == |d.budget.reserveLeft| && |c.scanReserved| == |d.scanReserved|
  }

  /** If the outcome goes on, it stands right behind the occurrence that c was at. */
  predicate MovesOn(c: Checkpoint, o: Outcome) {
    o.Running? ==> SameShape(c, o.checkpoint) && o.checkpoint.cursor == c.cursor + 1 && o.checkpoint.inflight.None?
  }

  predicate InflightInRange(c: Checkpoint) {
    c.inflight.Some? ==> c.inflight.value.receipt.sponsor < |c.scanReserved|
  }

  /** FinishOccurrenceAndCheckpoint: the receipt in flight joins the completed scans. */
  function Finish(c: Checkpoint, mark: Mark): (r: Checkpoint)
    requires InflightInRange(c)
    ensures MovesOn(c, Running(r)) && r.marks == c.marks + [mark]
  {
    match c.inflight
    case None => c.(cursor := c.cursor + 1, marks := c.marks + [mark])
    case Some(a) =>
      c.(scanReserved := c.scanReserved[a.receipt.sponsor := c.scanReserved[a.receipt.sponsor] + a.receipt.reserved],
         scanShared := c.scanShared + a.receipt.shared,
         inflight := None,
         cursor := c.cursor + 1,
         marks := c.marks + [mark])
  }

  datatype ScanOutcome = Scanned(checkpoint: Checkpoint) | ScanCapped(checkpoint: Checkpoint) | Aborted(outcome: Outcome)

  /** From the top of the body to the end of the scan charge. */
  function Scan(env: Env, occ: Occurrence, c: Checkpoint): (r: ScanOutcome)
    requires |c.budget.reserveLeft| == |c.scanReserved| == env.config.validators
    ensures match r
            case Scanned(d) =>
              && SameShape(c, d) && d.cursor == c.cursor && SourceOk(env, occ)
              && d.inflight.Some? && InflightMatches(d.inflight.value, c.cursor, occ)
              && (c.inflight.None? ==> d.inflight.value.receipt.sponsor == occ.sponsor)
              && (c.inflight.Some? ==> d == c)
            case ScanCapped(d) => MovesOn(c, Running(d))
            case Aborted(o) => !o.Running?
  {
    if !SourceOk(env, occ) then Aborted(CandidateInvalid)
    else match c.inflight
         case Some(a) => if InflightMatches(a, c.cursor, occ) then Scanned(c) else Aborted(RecoveryStateCorrupt)
         case None =>
           var cost := ScanWorkCost(occ.itemLength);
           match TryChargePrefilter(c.budget, occ.sponsor, cost)
           case Failed =>
             if occ.streamMatches then ScanCapped(Finish(c, PREFILTER_SCAN_CAP)) else Aborted(CandidateInvalid)
           case Charged(budget, receipt) =>
             Scanned(c.(budget := budget, inflight := Some(ScanAttempt(
               c.cursor, BindingOf(c.cursor, occ), occ.sponsor, occ.itemLength, cost, receipt))))
  }

  /** working_next_nonce, lazily backed by the parent state. */
  function NextNonce(env: Env, nextNonce: map<Address, nat>, sender: Address): nat {
    if sender in nextNonce then nextNonce[sender]
    else if sender in env.accounts then env.accounts[sender].nextNonce
    else 0
  }

  datatype CheapOutcome = Passed(next: nat, reservation: Reservation) | Rejected(mark: Mark) | Halted

  predicate AuthOk(env: Env, tx: Tx, c: Checkpoint) {
    if tx.isCreate then tx.sender !in env.accounts && tx.sender !in c.created && env.createContextOk(tx)
    else tx.sender in env.accounts && tx.policyHash == env.accounts[tx.sender].policyHash
  }

  /** From the nonce window to the reservation, once the account checks passed. */
  function CheapNonceAndCaps(env: Env, tx: Tx, c: Checkpoint): CheapOutcome {
    var next := if tx.isCreate then 0 else NextNonce(env, c.nextNonce, tx.sender);
    if next == UINT64_MAX then Rejected(NONCE_EXHAUSTED)
    else if tx.nonce < next then Rejected(STALE_OR_DUPLICATE_NONCE)
    else if tx.nonce > next then Rejected(FUTURE_NONCE)
    else if |c.winners| >= env.config.maxTransactions then Rejected(BLOCK_CAP)
    else if env.config.maxGas < c.reservedGas then Halted
    else if tx.gasLimit > env.config.maxGas - c.reservedGas then Rejected(BLOCK_CAP)
    else match env.prepare(c.reservation, tx, |c.winners|)
         case DeterministicReject(rejectClass) => Rejected(PREPARE_REJECTED(rejectClass))
         case ExceedsCaps => Rejected(BLOCK_CAP)
         case Prepared(reservation) => Passed(next, reservation)
  }

  /** The cheap prefix: everything before the expensive suffix is charged. */
  function Cheap(env: Env, occ: Occurrence, c: Checkpoint): CheapOutcome {
    var tx := occ.tx;
    if !occ.wellFormed then Rejected(STATIC_INVALID)
    else if tx.validFrom > env.height then Rejected(FUTURE_HEIGHT)
    else if tx.validUntil < env.height then Rejected(EXPIRED_OCCURRENCE)
    else if tx.id in c.accepted then Rejected(DUPLICATE_OCCURRENCE)
    else if !AuthOk(env, tx, c) then Rejected(AUTH_INVALID_OCCURRENCE)
    else CheapNonceAndCaps(env, tx, c)
  }

  datatype AttemptOutcome = Attempted(checkpoint: Checkpoint) | VerifyCapped

  /** Look up the attempt of the transaction, or charge its suffix and start one. */
  function StartAttempt(env: Env, occ: Occurrence, c: Checkpoint): (r: AttemptOutcome)
    requires occ.sponsor < |c.budget.reserveLeft|
    ensures r.Attempted? ==> occ.tx.id in r.checkpoint.attempts && SameShape(c, r.checkpoint)
    ensures r.Attempted? ==> r.checkpoint.cursor == c.cursor && r.checkpoint.inflight == c.inflight
  {
    if occ.tx.id in c.attempts then Attempted(c)
    else
      var cost := ExpensiveWorkCost(occ.tx.suffixFields);
      match TryChargePrefilter(c.budget, occ.sponsor, cost)
      case Failed => VerifyCapped
      case Charged(budget, receipt) =>
        Attempted(c.(budget := budget, attempts := c.attempts[
          occ.tx.id := PrefilterAttempt(STARTED, c.cursor, occ.sponsor, cost, receipt)]))
  }

  predicate StartedHere(a: PrefilterAttempt, cursor: nat, occ: Occurrence) {
    a.origin == cursor && a.sponsor == occ.sponsor
  }

  /** The suffix has a terminal result; its charge does not change any more. */
  function RunSuffix(env: Env, occ: Occurrence, c: Checkpoint): Checkpoint
    requires occ.tx.id in c.attempts
  {
    var status := if env.suffixValid(occ.tx) then VALID else INVALID;
    c.(attempts := c.attempts[occ.tx.id := c.attempts[occ.tx.id].(status := status)])
  }

  /** The transaction becomes a winner. */
  function Accept(occ: Occurrence, c: Checkpoint, next: nat, reservation: Reservation): Checkpoint {
    c.(winners := c.winners + [Winner(|c.winners|, occ.tx)],
       accepted := c.accepted + {occ.tx.id},
       nextNonce := c.nextNonce[occ.tx.sender := next + 1],
       reservedGas := c.reservedGas + occ.tx.gasLimit,
       reservation := reservation,
       created := if occ.tx.isCreate then c.created + {occ.tx.sender} else c.created)
  }

  /** From a terminal attempt to the end of the body. */
  function Conclude(occ: Occurrence, c: Checkpoint, next: nat, reservation: Reservation): (r: Outcome)
    requires occ.tx.id in c.attempts
    requires InflightInRange(c)
    ensures MovesOn(c, r)
  {
    if c.attempts[occ.tx.id].status.INVALID? then Running(Finish(c, STATIC_OR_AUTH_INVALID_OCCURRENCE))
    else if c.reservedGas + occ.tx.gasLimit > UINT64_MAX then ExecutionHalt
    else Running(Finish(Accept(occ, c, next, reservation), WINNER))
  }

  function AfterAttempt(env: Env, occ: Occurrence, c: Checkpoint, next: nat, reservation: Reservation): (r: Outcome)
    requires occ.tx.id in c.attempts
    requires InflightInRange(c)
    ensures MovesOn(c, r)
  {
    var attempt := c.attempts[occ.tx.id];
    if !attempt.status.STARTED? then Conclude(occ, c, next, reservation)
    else if !StartedHere(attempt, c.cursor, occ) then RecoveryStateCorrupt
    else Conclude(occ, RunSuffix(env, occ, c), next, reservation)
  }

  function AfterScan(env: Env, occ: Occurrence, c: Checkpoint): (r: Outcome)
    requires occ.sponsor < |c.budget.reserveLeft|
    requires InflightInRange(c)
    ensures MovesOn(c, r)
  {
    match Cheap(env, occ, c)
    case Rejected(mark) => Running(Finish(c, mark))
    case Halted => ExecutionHalt
    case Passed(next, reservation) =>
      match StartAttempt(env, occ, c)
      case VerifyCapped => Running(Finish(c, PREFILTER_VERIFY_CAP))
      case Attempted(started) => AfterAttempt(env, occ, started, next, reservation)
  }

  /** One uninterrupted execution of the loop body, from the top. */
  function Body(env: Env, occs: seq<Occurrence>, c: Checkpoint): (r: Outcome)
    requires Shaped(env, occs, c) && c.cursor < |occs|
    ensures MovesOn(c, r)
  {
    match Scan(env, occs[c.cursor], c)
    case Aborted(outcome) => outcome
    case ScanCapped(next) => Running(next)
    case Scanned(next) => AfterScan(env, occs[c.cursor], next)
  }

  /** The rest of the pass, uninterrupted. */
  function FilterFrom(env: Env, occs: seq<Occurrence>, c: Checkpoint): (r: Outcome)
    requires Shaped(env, occs, c)
    decreases |occs| - c.cursor
  {
    if c.cursor == |occs| then Running(c)
    else match Body(env, occs, c)
         case Running(next) => FilterFrom(env, occs, next)
         case other => other
  }
}
