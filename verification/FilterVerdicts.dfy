/** What mark each occurrence gets, exactly (doc/protocol/04-finality-execution-and-epochs.md, section
    3.2): said of the occurrence, the parent state and the winners before it, not of the filter's
    working variables nor of its branches. */
module FilterVerdicts {
  import opened PrefilterBudget
  import opened OccurrenceFilter
  import opened FilterRecovery
  import opened FilterInvariants
  import opened FilterResults

  // ---------------------------------------------------------------- the block so far

  /** What the winners reserve, one after the other. */
  function ReservationAfter(env: Env, ws: seq<Winner>): Reservation {
    if ws == [] then env.emptyReservation
    else
      var k := |ws| - 1;
      match env.prepare(ReservationAfter(env, ws[..k]), ws[k].tx, k)
      case Prepared(next) => next
      case _ => env.emptyReservation
  }

  predicate HasWon(ws: seq<Winner>, id: TxId) {
    exists j: nat | j < |ws| :: ws[j].tx.id == id
  }

  predicate CreatedBy(ws: seq<Winner>, a: Address) {
    exists j: nat | j < |ws| :: ws[j].tx.isCreate && ws[j].tx.sender == a
  }

  /** The mark of an occurrence whose suffix was verified. */
  predicate Verified(mark: Mark) {
    mark.WINNER? || mark.STATIC_OR_AUTH_INVALID_OCCURRENCE?
  }

  /** An earlier occurrence of the transaction had its suffix verified. */
  predicate Tried(occs: seq<Occurrence>, marks: seq<Mark>, id: TxId)
    requires |marks| <= |occs|
  {
    exists j: nat | j < |marks| :: occs[j].tx.id == id && Verified(marks[j])
  }

  /** The nonce that the block has to bring next for an account. */
  function ExpectedNonce(env: Env, ws: seq<Winner>, a: Address): nat {
    FirstNonce(env, a) + CountOf(ws, a)
  }

  // ---------------------------------------------------------------- what is asked of an occurrence

  predicate AccountFits(env: Env, ws: seq<Winner>, tx: Tx) {
    if tx.isCreate then tx.sender !in env.accounts && !CreatedBy(ws, tx.sender) && env.createContextOk(tx)
    else tx.sender in env.accounts && tx.policyHash == env.accounts[tx.sender].policyHash
  }

  predicate Screened(env: Env, ws: seq<Winner>, occ: Occurrence) {
    && occ.wellFormed && occ.tx.validFrom <= env.height <= occ.tx.validUntil
    && !HasWon(ws, occ.tx.id) && AccountFits(env, ws, occ.tx)
  }

  predicate NextInLine(env: Env, ws: seq<Winner>, tx: Tx) {
    ExpectedNonce(env, ws, tx.sender) < UINT64_MAX && tx.nonce == ExpectedNonce(env, ws, tx.sender)
  }

  predicate FitsCountAndGas(env: Env, ws: seq<Winner>, tx: Tx) {
    |ws| < env.config.maxTransactions && Gas(ws) + tx.gasLimit <= env.config.maxGas
  }

  function Preparation(env: Env, ws: seq<Winner>, tx: Tx): Prepared {
    env.prepare(ReservationAfter(env, ws), tx, |ws|)
  }

  /** Nothing but its own verification stands between the occurrence and the block. */
  predicate Admissible(env: Env, ws: seq<Winner>, occ: Occurrence) {
    && Screened(env, ws, occ) && NextInLine(env, ws, occ.tx) && FitsCountAndGas(env, ws, occ.tx)
    && Preparation(env, ws, occ.tx).Prepared?
  }

  /** The condition of every mark. `left` is what the sponsor's reserve and the shared pool still hold
      together, and `tried` says that the suffix is paid and verified already. */
  predicate Deserves(env: Env, ws: seq<Winner>, tried: bool, left: nat, occ: Occurrence, mark: Mark) {
    var tx := occ.tx;
    var scanPaid := ScanWorkCost(occ.itemLength) <= left;
    var suffixPaid := tried || ItemWork(occ) <= left;
    match mark
    case PREFILTER_SCAN_CAP => !scanPaid
    case STATIC_INVALID => scanPaid && !occ.wellFormed
    case FUTURE_HEIGHT => scanPaid && occ.wellFormed && env.height < tx.validFrom
    case EXPIRED_OCCURRENCE => scanPaid && occ.wellFormed && tx.validFrom <= env.height && tx.validUntil < env.height
    case DUPLICATE_OCCURRENCE =>
      scanPaid && occ.wellFormed && tx.validFrom <= env.height <= tx.validUntil && HasWon(ws, tx.id)
    case AUTH_INVALID_OCCURRENCE =>
      && scanPaid && occ.wellFormed && tx.validFrom <= env.height <= tx.validUntil
      && !HasWon(ws, tx.id) && !AccountFits(env, ws, tx)
    case NONCE_EXHAUSTED => scanPaid && Screened(env, ws, occ) && ExpectedNonce(env, ws, tx.sender) == UINT64_MAX
    case STALE_OR_DUPLICATE_NONCE =>
      scanPaid && Screened(env, ws, occ) && tx.nonce < ExpectedNonce(env, ws, tx.sender) < UINT64_MAX
    case FUTURE_NONCE =>
      && scanPaid && Screened(env, ws, occ)
      && ExpectedNonce(env, ws, tx.sender) < UINT64_MAX && ExpectedNonce(env, ws, tx.sender) < tx.nonce
    case BLOCK_CAP =>
      && scanPaid && Screened(env, ws, occ) && NextInLine(env, ws, tx)
      && (!FitsCountAndGas(env, ws, tx) || Preparation(env, ws, tx).ExceedsCaps?)
    case PREPARE_REJECTED(rejectClass) =>
      && scanPaid && Screened(env, ws, occ) && NextInLine(env, ws, tx) && FitsCountAndGas(env, ws, tx)
      && Preparation(env, ws, tx) == DeterministicReject(rejectClass)
    case PREFILTER_VERIFY_CAP => scanPaid && Admissible(env, ws, occ) && !suffixPaid
    case STATIC_OR_AUTH_INVALID_OCCURRENCE => scanPaid && Admissible(env, ws, occ) && suffixPaid && !env.suffixValid(tx)
    case WINNER => scanPaid && Admissible(env, ws, occ) && suffixPaid && env.suffixValid(tx)
  }

  /** No occurrence deserves two marks. */
  lemma OneMarkIsDeserved(env: Env, ws: seq<Winner>, tried: bool, left: nat, occ: Occurrence, a: Mark, b: Mark)
    requires Deserves(env, ws, tried, left, occ, a) && Deserves(env, ws, tried, left, occ, b)
    ensures a == b
  {
    hide ScanWorkCost, ItemWork, HasWon, AccountFits, Gas, CountOf, FirstNonce, ReservationAfter;
  }

  // ---------------------------------------------------------------- the working variables

  /** The reservation, the two sets and the attempts say what the winners and the marks say. */
  ghost predicate History(env: Env, occs: seq<Occurrence>, c: Checkpoint) {
    && c.reservation == ReservationAfter(env, c.winners)
    && (forall id :: id in c.accepted <==> HasWon(c.winners, id))
    && (forall a :: a in c.created <==> CreatedBy(c.winners, a))
    && |c.marks| <= |occs| && forall id :: id in c.attempts <==> Tried(occs, c.marks, id)
  }

  lemma StartHasHistory(env: Env, occs: seq<Occurrence>)
    requires ConfigOk(env.config)
    ensures History(env, occs, Start(env))
  {
  }

  /** The cheap prefix, told by the winners. */
  predicate CheapVerdict(env: Env, ws: seq<Winner>, tried: bool, left: nat, occ: Occurrence, r: CheapOutcome) {
    match r
    case Passed(next, reservation) =>
      && Admissible(env, ws, occ) && next == ExpectedNonce(env, ws, occ.tx.sender)
      && Preparation(env, ws, occ.tx) == Prepared(reservation)
    case Rejected(mark) =>
      !IsCap(mark) && !Verified(mark) && Deserves(env, ws, tried, left, occ, mark)
    case Halted => false
  }

  lemma CreatorsAreNew(env: Env, c: Checkpoint, tx: Tx)
    requires NoncesOk(env, c) && tx.isCreate && tx.sender !in env.accounts && tx.sender !in c.created
    ensures ExpectedNonce(env, c.winners, tx.sender) == 0
  {
    assert NextNonce(env, c.nextNonce, tx.sender) == 0;
    hide CountOf;
  }

  lemma CheapIsExact(env: Env, occs: seq<Occurrence>, occ: Occurrence, c: Checkpoint, tried: bool, left: nat)
    requires EnvOk(env) && NoncesOk(env, c) && CapsOk(env, c) && History(env, occs, c)
    requires ScanWorkCost(occ.itemLength) <= left
    ensures CheapVerdict(env, c.winners, tried, left, occ, Cheap(env, occ, c))
  {
    var tx := occ.tx;
    assert NextNonce(env, c.nextNonce, tx.sender) == ExpectedNonce(env, c.winners, tx.sender) <= UINT64_MAX;
    assert tx.id in c.accepted <==> HasWon(c.winners, tx.id);
    assert tx.sender in c.created <==> CreatedBy(c.winners, tx.sender);
    if tx.isCreate && tx.sender !in env.accounts && tx.sender !in c.created {
      CreatorsAreNew(env, c, tx);
    }
    assert AuthOk(env, tx, c) <==> AccountFits(env, c.winners, tx);
    hide ScanWorkCost, ItemWork, HasWon, CreatedBy, Gas, CountOf, FirstNonce, ReservationAfter, NextNonce, NoncesOk,
         ConfigOk, ExpectedNonce, History, AuthOk, AccountFits;
    assert c.reservedGas == Gas(c.winners) <= env.config.maxGas;
  }

  // ---------------------------------------------------------------- one occurrence

  /** What finishing the occurrence with its mark changes, charges apart. */
  ghost predicate Effect(occ: Occurrence, c: Checkpoint, d: Checkpoint, mark: Mark, reservation: Reservation) {
    && d.marks == c.marks + [mark]
    && d.attempts.Keys == c.attempts.Keys + (if Verified(mark) then {occ.tx.id} else {})
    && (if mark.WINNER? then
          && d.winners == c.winners + [Winner(|c.winners|, occ.tx)] && d.accepted == c.accepted + {occ.tx.id}
          && d.created == c.created + (if occ.tx.isCreate then {occ.tx.sender} else {}) && d.reservation == reservation
        else
          && d.winners == c.winners && d.accepted == c.accepted && d.created == c.created
          && d.reservation == c.reservation)
  }

  lemma AttemptEffect(env: Env, occ: Occurrence, c: Checkpoint, next: nat, reservation: Reservation)
    requires occ.tx.id in c.attempts && InflightInRange(c) && c.reservedGas + occ.tx.gasLimit <= UINT64_MAX
    requires match c.attempts[occ.tx.id].status
             case STARTED => StartedHere(c.attempts[occ.tx.id], c.cursor, occ)
             case VALID => env.suffixValid(occ.tx)
             case INVALID => !env.suffixValid(occ.tx)
    ensures var o := AfterAttempt(env, occ, c, next, reservation);
      o.Running? && Effect(occ, c, o.checkpoint, if env.suffixValid(occ.tx) then WINNER else STATIC_OR_AUTH_INVALID_OCCURRENCE,
                           reservation)
  {
    var attempt := c.attempts[occ.tx.id];
    if attempt.status.STARTED? {
      assert RunSuffix(env, occ, c).attempts.Keys == c.attempts.Keys;
    }
    assert c.attempts.Keys == c.attempts.Keys + {occ.tx.id};
  }

  lemma FirstAttemptEffect(env: Env, occ: Occurrence, c: Checkpoint, next: nat, reservation: Reservation)
    requires occ.sponsor < |c.budget.reserveLeft| && occ.tx.id !in c.attempts && InflightInRange(c)
    requires c.reservedGas + occ.tx.gasLimit <= UINT64_MAX && StartAttempt(env, occ, c).Attempted?
    ensures var o := AfterAttempt(env, occ, StartAttempt(env, occ, c).checkpoint, next, reservation);
      o.Running? && Effect(occ, c, o.checkpoint, if env.suffixValid(occ.tx) then WINNER else STATIC_OR_AUTH_INVALID_OCCURRENCE,
                           reservation)
  {
    hide ExpensiveWorkCost, TryChargePrefilter, AfterAttempt;
    var d := StartAttempt(env, occ, c).checkpoint;
    AttemptEffect(env, occ, d, next, reservation);
    assert d.attempts.Keys == c.attempts.Keys + {occ.tx.id};
  }

  lemma FinishEffect(occ: Occurrence, c: Checkpoint, mark: Mark, reservation: Reservation)
    requires InflightInRange(c) && !Verified(mark)
    ensures Effect(occ, c, Finish(c, mark), mark, reservation)
  {
    assert c.attempts.Keys == c.attempts.Keys + {};
  }

  /** What follows a scan, told by the cheap prefix and by what is left for the suffix. */
  lemma AfterScanEffect(env: Env, occs: seq<Occurrence>, c: Checkpoint)
    requires Inv(env, occs, c) && c.cursor < |occs| && c.inflight.Some? && SourceOk(env, occs[c.cursor])
    requires IdsCommit(occs) && NoneStarted(c)
    ensures var (occ, o) := (occs[c.cursor], AfterScan(env, occs[c.cursor], c));
      var left := Left(c.budget, Own(occ.sponsor)) + Left(c.budget, Common);
      && o.Running?
      && match Cheap(env, occ, c)
         case Rejected(mark) => Effect(occ, c, o.checkpoint, mark, c.reservation)
         case Halted => false
         case Passed(next, reservation) =>
           Effect(occ, c, o.checkpoint,
             if occ.tx.id !in c.attempts && ExpensiveWorkCost(occ.tx.suffixFields) > left then PREFILTER_VERIFY_CAP
             else if env.suffixValid(occ.tx) then WINNER else STATIC_OR_AUTH_INVALID_OCCURRENCE,
             reservation)
  {
    var occ := occs[c.cursor];
    CheapNeverHalts(env, occs, c);
    assert env.config.maxGas <= UINT64_MAX;
    if occ.tx.id in c.attempts {
      TriedBefore(env, occs, c);
    }
    hide BooksBalance, ScansAreChargedOnce, WinnersOk, SponsorsIsolated, RecordsOk, ConfigOk, ExpensiveWorkCost, ScanWorkCost,
      Finish, TryChargePrefilter, AfterAttempt, Effect, IdsCommit, NoneStarted;
    match Cheap(env, occ, c)
    case Rejected(mark) =>
      RejectionIsUnverified(env, occ, c);
      FinishEffect(occ, c, mark, c.reservation);
    case Halted => assert false;
    case Passed(next, reservation) =>
      hide Cheap;
      match StartAttempt(env, occ, c)
      case VerifyCapped => FinishEffect(occ, c, PREFILTER_VERIFY_CAP, reservation);
      case Attempted(d) =>
        if occ.tx.id in c.attempts {
          AttemptEffect(env, occ, c, next, reservation);
        } else {
          FirstAttemptEffect(env, occ, c, next, reservation);
        }
  }

  lemma RejectionIsUnverified(env: Env, occ: Occurrence, c: Checkpoint)
    requires Cheap(env, occ, c).Rejected?
    ensures !Verified(Cheap(env, occ, c).mark)
  {
  }

  /** An attempt of an earlier occurrence has the result of this one's envelope. */
  lemma TriedBefore(env: Env, occs: seq<Occurrence>, c: Checkpoint)
    requires RecordsOk(env, occs, c) && c.cursor < |occs| && occs[c.cursor].tx.id in c.attempts
    requires IdsCommit(occs) && NoneStarted(c)
    ensures c.attempts[occs[c.cursor].tx.id].status == if env.suffixValid(occs[c.cursor].tx) then VALID else INVALID
  {
    hide Cheap, ExpensiveWorkCost, ScanRecordOk;
    var id := occs[c.cursor].tx.id;
    assert SuffixRecordOk(env, occs, c, id);
    assert occs[c.attempts[id].origin].tx == occs[c.cursor].tx;
  }

  lemma NothingStarted(env: Env, occs: seq<Occurrence>, c: Checkpoint)
    requires RecordsOk(env, occs, c) && c.inflight.None?
    ensures NoneStarted(c)
  {
    hide Cheap, ExpensiveWorkCost, ScanRecordOk;
    forall id | id in c.attempts
      ensures !c.attempts[id].status.STARTED?
    {
      assert SuffixRecordOk(env, occs, c, id);
    }
  }

  /** Charging the scan takes its cost from the two pools and changes nothing else. */
  lemma ScanTakesItsCost(env: Env, occs: seq<Occurrence>, c: Checkpoint)
    requires Inv(env, occs, c) && c.cursor < |occs| && c.inflight.None? && SourceOk(env, occs[c.cursor])
    ensures var (occ, r) := (occs[c.cursor], Scan(env, occs[c.cursor], c));
      var left := Left(c.budget, Own(occ.sponsor)) + Left(c.budget, Common);
      && (r.Scanned? <==> ScanWorkCost(occ.itemLength) <= left)
      && (r.ScanCapped? <==> ScanWorkCost(occ.itemLength) > left && occ.streamMatches)
      && (r.ScanCapped? ==> r.checkpoint == Finish(c, PREFILTER_SCAN_CAP))
      && (r.Scanned? ==>
            && r.checkpoint == c.(budget := r.checkpoint.budget, inflight := r.checkpoint.inflight)
            && r.checkpoint.inflight.Some?
            && Left(r.checkpoint.budget, Own(occ.sponsor)) + Left(r.checkpoint.budget, Common)
               == left - ScanWorkCost(occ.itemLength))
  {
    hide BooksBalance, ScansAreChargedOnce, WinnersOk, SponsorsIsolated, RecordsOk, ScanWorkCost, ConfigOk;
    var occ := occs[c.cursor];
    if TryChargePrefilter(c.budget, occ.sponsor, ScanWorkCost(occ.itemLength)).Charged? {
      ChargeIsOnTheReceipt(c.budget, occ.sponsor, ScanWorkCost(occ.itemLength), Own(occ.sponsor));
      ChargeIsOnTheReceipt(c.budget, occ.sponsor, ScanWorkCost(occ.itemLength), Common);
    }
  }

  function LeftFor(c: Checkpoint, sponsor: nat): nat
    requires sponsor < |c.budget.reserveLeft|
  {
    Left(c.budget, Own(sponsor)) + Left(c.budget, Common)
  }

  /** The pass stands in front of an occurrence of a valid source, with nothing in flight. */
  ghost predicate InFront(env: Env, occs: seq<Occurrence>, c: Checkpoint) {
    && Inv(env, occs, c) && History(env, occs, c) && c.inflight.None?
    && c.cursor < |occs| && SourceOk(env, occs[c.cursor]) && occs[c.cursor].streamMatches
  }

  /** d is c after the occurrence got a mark it deserves, and nothing but what goes with the mark is
      changed. */
  ghost predicate Judged(env: Env, occ: Occurrence, c: Checkpoint, d: Checkpoint, mark: Mark)
    requires occ.sponsor < |c.budget.reserveLeft|
  {
    && Deserves(env, c.winners, occ.tx.id in c.attempts, LeftFor(c, occ.sponsor), occ, mark)
    && Effect(occ, c, d, mark, if mark.WINNER? then Preparation(env, c.winners, occ.tx).next else c.reservation)
  }

  lemma EffectOfScanned(occ: Occurrence, c: Checkpoint, scanned: Checkpoint, d: Checkpoint, mark: Mark, a: Reservation, b: Reservation)
    requires scanned == c.(budget := scanned.budget, inflight := scanned.inflight)
    requires Effect(occ, scanned, d, mark, a) && (mark.WINNER? ==> a == b)
    ensures Effect(occ, c, d, mark, b)
  {
  }

  lemma InvParts(env: Env, occs: seq<Occurrence>, c: Checkpoint)
    requires Inv(env, occs, c)
    ensures EnvOk(env) && NoncesOk(env, c) && CapsOk(env, c) && RecordsOk(env, occs, c) && Shaped(env, occs, c)
    ensures |c.marks| == c.cursor <= |occs| && c.winners == Chosen(occs, c.marks)
  {
    hide BooksBalance, ScansAreChargedOnce, SponsorsIsolated, RecordsOk, NoncesOk, CapsOk, EnvOk, Chosen;
  }

  /** The mark that follows from the cheap prefix and what can be paid. */
  function MarkAfter(env: Env, occ: Occurrence, cheap: CheapOutcome, tried: bool, left: nat): Mark
    requires !cheap.Halted?
  {
    if cheap.Rejected? then cheap.mark
    else if !tried && ItemWork(occ) > left then PREFILTER_VERIFY_CAP
    else if env.suffixValid(occ.tx) then WINNER else STATIC_OR_AUTH_INVALID_OCCURRENCE
  }

  lemma MarkAfterIsDeserved(env: Env, ws: seq<Winner>, occ: Occurrence, cheap: CheapOutcome, tried: bool, left: nat)
    requires CheapVerdict(env, ws, tried, left, occ, cheap) && ScanWorkCost(occ.itemLength) <= left
    ensures Deserves(env, ws, tried, left, occ, MarkAfter(env, occ, cheap, tried, left))
    ensures MarkAfter(env, occ, cheap, tried, left).WINNER? ==>
      cheap.Passed? && Preparation(env, ws, occ.tx) == Prepared(cheap.reservation)
  {
    hide ScanWorkCost, ItemWork, Screened, NextInLine, FitsCountAndGas, Preparation;
  }

  /** The state after the scan, when it can be paid. */
  lemma ScannedStaysInFront(env: Env, occs: seq<Occurrence>, c: Checkpoint) returns (scanned: Checkpoint)
    requires InFront(env, occs, c) && ScanWorkCost(occs[c.cursor].itemLength) <= LeftFor(c, occs[c.cursor].sponsor)
    ensures Scan(env, occs[c.cursor], c) == Scanned(scanned)
    ensures Inv(env, occs, scanned) && NoneStarted(scanned) && scanned.inflight.Some?
    ensures scanned == c.(budget := scanned.budget, inflight := scanned.inflight)
    ensures LeftFor(scanned, occs[c.cursor].sponsor) == LeftFor(c, occs[c.cursor].sponsor) - ScanWorkCost(occs[c.cursor].itemLength)
    ensures Cheap(env, occs[c.cursor], scanned) == Cheap(env, occs[c.cursor], c)
  {
    ScanTakesItsCost(env, occs, c);
    scanned := Scan(env, occs[c.cursor], c).checkpoint;
    ChargesStay(env, occs, c);
    InvParts(env, occs, c);
    NothingStarted(env, occs, c);
    CheapIgnoresCharges(env, occs[c.cursor], c, scanned);
  }

  /** The mark that the body gives is one the occurrence deserves, and nothing but what goes with the
      mark is changed. */
  lemma BodyVerdict(env: Env, occs: seq<Occurrence>, c: Checkpoint) returns (mark: Mark)
    requires InFront(env, occs, c) && IdsCommit(occs)
    ensures Body(env, occs, c).Running? && Judged(env, occs[c.cursor], c, Body(env, occs, c).checkpoint, mark)
  {
    InvParts(env, occs, c);
    var occ := occs[c.cursor];
    var left, tried := LeftFor(c, occ.sponsor), occ.tx.id in c.attempts;
    if ScanWorkCost(occ.itemLength) > left {
      ScanTakesItsCost(env, occs, c);
      hide Inv, History, ScanWorkCost, Finish, Effect, RecordsOk, NoncesOk, CapsOk, Scan;
      mark := PREFILTER_SCAN_CAP;
      FinishEffect(occ, c, mark, c.reservation);
    } else {
      var scanned := ScannedStaysInFront(env, occs, c);
      CheapIsExact(env, occs, occ, c, tried, left);
      AfterScanEffect(env, occs, scanned);
      hide Inv, History, ScanWorkCost, Scan, AfterScan, Effect, Cheap, NoneStarted, RecordsOk, NoncesOk, CapsOk, Deserves, Preparation;
      var cheap := Cheap(env, occ, c);
      MarkAfterIsDeserved(env, c.winners, occ, cheap, tried, left);
      mark := MarkAfter(env, occ, cheap, tried, left);
      var d := AfterScan(env, occ, scanned).checkpoint;
      EffectOfScanned(occ, c, scanned, d, mark, if cheap.Passed? then cheap.reservation else c.reservation,
        if mark.WINNER? then Preparation(env, c.winners, occ.tx).next else c.reservation);
    }
  }

  // ---------------------------------------------------------------- the whole pass

  lemma OneMoreWinner(env: Env, ws: seq<Winner>, tx: Tx, id: TxId, a: Address)
    ensures var longer := ws + [Winner(|ws|, tx)];
      && (HasWon(longer, id) <==> HasWon(ws, id) || id == tx.id)
      && (CreatedBy(longer, a) <==> CreatedBy(ws, a) || (tx.isCreate && a == tx.sender))
      && (Preparation(env, ws, tx).Prepared? ==> ReservationAfter(env, longer) == Preparation(env, ws, tx).next)
  {
    var longer := ws + [Winner(|ws|, tx)];
    assert longer[..|ws|] == ws && longer[|ws|].tx == tx;
    if j: nat :| j < |ws| && ws[j].tx.id == id {
      assert longer[j].tx.id == id;
    }
    if j: nat :| j < |ws| && ws[j].tx.isCreate && ws[j].tx.sender == a {
      assert longer[j].tx.isCreate && longer[j].tx.sender == a;
    }
  }

  lemma OneMoreMark(occs: seq<Occurrence>, marks: seq<Mark>, mark: Mark, id: TxId)
    requires |marks| < |occs|
    ensures Tried(occs, marks + [mark], id) <==> Tried(occs, marks, id) || (id == occs[|marks|].tx.id && Verified(mark))
  {
    var longer := marks + [mark];
    assert longer[|marks|] == mark;
    if j: nat :| j < |marks| && occs[j].tx.id == id && Verified(marks[j]) {
      assert Verified(longer[j]);
    }
    if j: nat :| j < |longer| && occs[j].tx.id == id && Verified(longer[j]) {
      assert j < |marks| ==> Verified(marks[j]);
    }
  }

  lemma HistoryStays(env: Env, occs: seq<Occurrence>, c: Checkpoint, d: Checkpoint, mark: Mark)
    requires History(env, occs, c) && |c.marks| < |occs| && occs[|c.marks|].sponsor < |c.budget.reserveLeft|
    requires Judged(env, occs[|c.marks|], c, d, mark)
    ensures History(env, occs, d)
  {
    var occ := occs[|c.marks|];
    OneMoreWinner(env, c.winners, occ.tx, 0, 0);
    assert mark.WINNER? ==> Preparation(env, c.winners, occ.tx).Prepared?;
    hide HasWon, CreatedBy, Tried, ReservationAfter, Deserves, Preparation;
    forall id
      ensures id in d.accepted <==> HasWon(d.winners, id)
      ensures id in d.attempts <==> Tried(occs, d.marks, id)
    {
      OneMoreWinner(env, c.winners, occ.tx, id, 0);
      OneMoreMark(occs, c.marks, mark, id);
      assert id in d.attempts <==> id in d.attempts.Keys;
    }
    forall a
      ensures a in d.created <==> CreatedBy(d.winners, a)
    {
      OneMoreWinner(env, c.winners, occ.tx, 0, a);
    }
  }

  /** The body keeps what its steps keep. */
  lemma {:induction false} BodyStays(env: Env, occs: seq<Occurrence>, c: Checkpoint)
    requires Inv(env, occs, c) && c.cursor < |occs| && Body(env, occs, c).Running?
    ensures Inv(env, occs, Body(env, occs, c).checkpoint)
    decreases StepsLeft(occs, c)
  {
    InvParts(env, occs, c);
    StepStays(env, occs, c);
    hide Inv;
    ResumingGivesTheSame(env, occs, c);
    if Step(env, occs, c).Running? {
      StepsRunOut(env, occs, c);
      hide Step, Body;
      if Step(env, occs, c).checkpoint.cursor == c.cursor {
        BodyStays(env, occs, Step(env, occs, c).checkpoint);
      }
    }
  }

  /** Where the uninterrupted pass stands after k occurrences. */
  function StateAt(env: Env, occs: seq<Occurrence>, k: nat): (o: Outcome)
    requires ConfigOk(env.config) && k <= |occs|
    ensures o.Running? ==> Shaped(env, occs, o.checkpoint) && o.checkpoint.cursor == k
  {
    if k == 0 then Running(Start(env))
    else match StateAt(env, occs, k - 1)
         case Running(c) => Body(env, occs, c)
         case other => other
  }

  /** There it is in front of the next occurrence, with the marks the end result has so far. */
  lemma {:induction false} StateIsFine(env: Env, occs: seq<Occurrence>, k: nat)
    requires EnvOk(env) && SourcesOk(env, occs) && IdsCommit(occs) && k <= |occs|
    ensures var o := StateAt(env, occs, k);
      && o.Running? && Inv(env, occs, o.checkpoint) && History(env, occs, o.checkpoint) && o.checkpoint.inflight.None?
      && FilterFrom(env, occs, Start(env)) == FilterFrom(env, occs, o.checkpoint)
    decreases k
  {
    if k == 0 {
      StartIsFine(env, occs);
      StartHasHistory(env, occs);
    } else {
      StateIsFine(env, occs, k - 1);
      var c := StateAt(env, occs, k - 1).checkpoint;
      hide Inv, History, IdsCommit, Body;
      InvParts(env, occs, c);
      var mark := BodyVerdict(env, occs, c);
      BodyStays(env, occs, c);
      HistoryStays(env, occs, c, Body(env, occs, c).checkpoint, mark);
    }
  }

  lemma OneMoreStateMark(env: Env, occs: seq<Occurrence>, k: nat) returns (mark: Mark)
    requires EnvOk(env) && SourcesOk(env, occs) && IdsCommit(occs) && k < |occs|
    ensures StateAt(env, occs, k).Running? && StateAt(env, occs, k + 1).Running?
    ensures |StateAt(env, occs, k).checkpoint.marks| == k
    ensures StateAt(env, occs, k + 1).checkpoint.marks == StateAt(env, occs, k).checkpoint.marks + [mark]
  {
    StateIsFine(env, occs, k);
    StateIsFine(env, occs, k + 1);
    var c := StateAt(env, occs, k).checkpoint;
    hide Inv, History, IdsCommit, Body;
    InvParts(env, occs, c);
    mark := BodyVerdict(env, occs, c);
  }

  lemma {:induction false} MarksOnlyGrow(env: Env, occs: seq<Occurrence>, j: nat, k: nat)
    requires EnvOk(env) && SourcesOk(env, occs) && IdsCommit(occs) && j <= k <= |occs|
    ensures StateAt(env, occs, j).Running? && StateAt(env, occs, k).Running?
    ensures |StateAt(env, occs, k).checkpoint.marks| == k
    ensures StateAt(env, occs, j).checkpoint.marks == StateAt(env, occs, k).checkpoint.marks[..j]
    decreases k
  {
    hide EnvOk, SourcesOk, IdsCommit, StateAt;
    if j < k {
      MarksOnlyGrow(env, occs, j, k - 1);
      var mark := OneMoreStateMark(env, occs, k - 1);
    } else {
      StateMarks(env, occs, k);
    }
  }

  lemma StateMarks(env: Env, occs: seq<Occurrence>, k: nat)
    requires EnvOk(env) && SourcesOk(env, occs) && IdsCommit(occs) && k <= |occs|
    ensures StateAt(env, occs, k).Running? && |StateAt(env, occs, k).checkpoint.marks| == k
  {
    StateIsFine(env, occs, k);
    hide Inv, History, IdsCommit, Body, EnvOk, SourcesOk;
    InvParts(env, occs, StateAt(env, occs, k).checkpoint);
  }

  /** What the sponsor of occurrence k can still be charged when the pass reaches it. */
  function BudgetAt(env: Env, occs: seq<Occurrence>, k: nat): nat
    requires EnvOk(env) && SourcesOk(env, occs) && IdsCommit(occs) && k < |occs|
  {
    StateIsFine(env, occs, k);
    LeftFor(StateAt(env, occs, k).checkpoint, occs[k].sponsor)
  }

  lemma EndIsTheResult(env: Env, occs: seq<Occurrence>)
    requires EnvOk(env) && SourcesOk(env, occs) && IdsCommit(occs)
    ensures StateAt(env, occs, |occs|) == Running(Result(env, occs))
  {
    hide Inv, History, Body;
    StateIsFine(env, occs, |occs|);
  }

  /** What the state at position k says in terms of the marks of the result. */
  lemma StateFromMarks(env: Env, occs: seq<Occurrence>, k: nat) returns (c: Checkpoint)
    requires EnvOk(env) && SourcesOk(env, occs) && IdsCommit(occs) && k < |occs|
    ensures |Result(env, occs).marks| == |occs|
    ensures StateAt(env, occs, k) == Running(c) && InFront(env, occs, c) && c.cursor == k
    ensures c.marks == Result(env, occs).marks[..k] && c.winners == Chosen(occs, c.marks)
    ensures occs[k].tx.id in c.attempts <==> Tried(occs, c.marks, occs[k].tx.id)
    ensures BudgetAt(env, occs, k) == LeftFor(c, occs[k].sponsor)
    ensures StateAt(env, occs, k + 1) == Body(env, occs, c)
  {
    EndIsTheResult(env, occs);
    MarksOnlyGrow(env, occs, k, |occs|);
    StateIsFine(env, occs, k);
    c := StateAt(env, occs, k).checkpoint;
    hide Inv, IdsCommit, Body, Result;
    InvParts(env, occs, c);
  }

  /** The mark of every occurrence of the pass, exactly: it is the one whose condition the occurrence
      meets, given the parent state, the winners before it, and what its sponsor can pay. */
  lemma MarkIsExact(env: Env, occs: seq<Occurrence>, k: nat, mark: Mark)
    requires EnvOk(env) && SourcesOk(env, occs) && IdsCommit(occs) && k < |occs|
    ensures |Result(env, occs).marks| == |occs|
    ensures var before := Result(env, occs).marks[..k];
      Result(env, occs).marks[k] == mark <==>
        Deserves(env, Chosen(occs, before), Tried(occs, before, occs[k].tx.id), BudgetAt(env, occs, k), occs[k], mark)
  {
    var c := StateFromMarks(env, occs, k);
    hide Inv, History, IdsCommit, Body, Result, Deserves, StateAt, BudgetAt, EnvOk, SourcesOk;
    var given := BodyVerdict(env, occs, c);
    MarkOfPosition(env, occs, k, given);
    if Deserves(env, c.winners, occs[k].tx.id in c.attempts, LeftFor(c, occs[k].sponsor), occs[k], mark) {
      OneMarkIsDeserved(env, c.winners, occs[k].tx.id in c.attempts, LeftFor(c, occs[k].sponsor), occs[k], given, mark);
    }
  }

  lemma MarkOfPosition(env: Env, occs: seq<Occurrence>, k: nat, mark: Mark)
    requires EnvOk(env) && SourcesOk(env, occs) && IdsCommit(occs) && k < |occs|
    requires StateAt(env, occs, k).Running? && StateAt(env, occs, k + 1).Running?
    requires StateAt(env, occs, k + 1).checkpoint.marks == StateAt(env, occs, k).checkpoint.marks + [mark]
    ensures |Result(env, occs).marks| == |occs| && Result(env, occs).marks[k] == mark
  {
    EndIsTheResult(env, occs);
    MarksOnlyGrow(env, occs, k, |occs|);
    MarksOnlyGrow(env, occs, k + 1, |occs|);
    hide StateAt, Result, EnvOk, SourcesOk, IdsCommit;
    assert Result(env, occs).marks[..k + 1][k] == mark;
  }

  /** What a sponsor has not yet asked of its reserve, it can still be charged. */
  lemma ReserveIsKept(env: Env, occs: seq<Occurrence>, k: nat)
    requires EnvOk(env) && SourcesOk(env, occs) && IdsCommit(occs) && k < |occs|
    ensures env.config.reserve <= BudgetAt(env, occs, k) + Demand(occs, occs[k].sponsor, k)
  {
    var c := StateFromMarks(env, occs, k);
    hide BooksBalance, ScansAreChargedOnce, WinnersOk, RecordsOk, StateAt, History, BudgetAt, Result;
    assert env.config.reserve <= Left(c.budget, Own(occs[k].sponsor)) + Demand(occs, occs[k].sponsor, k) + Pending(occs, c, occs[k].sponsor);
  }

  lemma PaidOccurrenceWins(env: Env, occs: seq<Occurrence>, k: nat)
    requires EnvOk(env) && SourcesOk(env, occs) && IdsCommit(occs) && k < |occs|
    requires Demand(occs, occs[k].sponsor, k + 1) <= env.config.reserve
    ensures |Result(env, occs).marks| == |occs|
    ensures Result(env, occs).marks[k].WINNER? <==>
      Admissible(env, Chosen(occs, Result(env, occs).marks[..k]), occs[k]) && env.suffixValid(occs[k].tx)
  {
    ReserveIsKept(env, occs, k);
    MarkIsExact(env, occs, k, WINNER);
    assert ItemWork(occs[k]) <= BudgetAt(env, occs, k);
    hide Result, Tried, Chosen, BudgetAt, EnvOk, SourcesOk, IdsCommit, Deserves, ItemWork, Admissible;
    var before := Result(env, occs).marks[..k];
    PaidWinner(env, Chosen(occs, before), Tried(occs, before, occs[k].tx.id), BudgetAt(env, occs, k), occs[k]);
  }

  lemma PaidWinner(env: Env, ws: seq<Winner>, tried: bool, left: nat, occ: Occurrence)
    requires ItemWork(occ) <= left
    ensures Deserves(env, ws, tried, left, occ, WINNER) <==> Admissible(env, ws, occ) && env.suffixValid(occ.tx)
  {
    hide ScanWorkCost, ExpensiveWorkCost, Admissible;
  }

  /** While the work of a sponsor's own items fits its reserve, an occurrence wins exactly if it is well
      formed, in its window, new to the block, backed by its account, next in line, within the block's
      count and gas, accepted by the preparation, and its suffix verifies. */
  lemma HonestOccurrenceWins(env: Env, occs: seq<Occurrence>, k: nat)
    requires EnvOk(env) && SourcesOk(env, occs) && IdsCommit(occs) && k < |occs|
    requires Demand(occs, occs[k].sponsor, k + 1) <= env.config.reserve
    ensures |Result(env, occs).marks| == |occs|
    ensures var (ws, occ, tx) := (Chosen(occs, Result(env, occs).marks[..k]), occs[k], occs[k].tx);
      Result(env, occs).marks[k].WINNER? <==>
        && occ.wellFormed
        && tx.validFrom <= env.height <= tx.validUntil
        && (forall j: nat | j < |ws| :: ws[j].tx.id != tx.id)
        && (if tx.isCreate
            then tx.sender !in env.accounts && env.createContextOk(tx)
              && forall j: nat | j < |ws| :: !(ws[j].tx.isCreate && ws[j].tx.sender == tx.sender)
            else tx.sender in env.accounts && tx.policyHash == env.accounts[tx.sender].policyHash)
        && tx.nonce == FirstNonce(env, tx.sender) + CountOf(ws, tx.sender) < UINT64_MAX
        && |ws| < env.config.maxTransactions && Gas(ws) + tx.gasLimit <= env.config.maxGas
        && env.prepare(ReservationAfter(env, ws), tx, |ws|).Prepared?
        && env.suffixValid(tx)
  {
    PaidOccurrenceWins(env, occs, k);
    hide Result, Chosen, EnvOk, SourcesOk, IdsCommit, Admissible, FirstNonce, CountOf, Gas, ReservationAfter;
    AdmissibleMeans(env, Chosen(occs, Result(env, occs).marks[..k]), occs[k]);
  }

  lemma AdmissibleMeans(env: Env, ws: seq<Winner>, occ: Occurrence)
    ensures var tx := occ.tx;
      Admissible(env, ws, occ) <==>
        && occ.wellFormed
        && tx.validFrom <= env.height <= tx.validUntil
        && (forall j: nat | j < |ws| :: ws[j].tx.id != tx.id)
        && (if tx.isCreate
            then tx.sender !in env.accounts && env.createContextOk(tx)
              && forall j: nat | j < |ws| :: !(ws[j].tx.isCreate && ws[j].tx.sender == tx.sender)
            else tx.sender in env.accounts && tx.policyHash == env.accounts[tx.sender].policyHash)
        && tx.nonce == FirstNonce(env, tx.sender) + CountOf(ws, tx.sender) < UINT64_MAX
        && |ws| < env.config.maxTransactions && Gas(ws) + tx.gasLimit <= env.config.maxGas
        && env.prepare(ReservationAfter(env, ws), tx, |ws|).Prepared?
  {
    hide FirstNonce, CountOf, Gas, ReservationAfter;
  }

  // ---------------------------------------------------------------- sources and records

  /** The candidate is given up exactly over a source that does not verify, a sponsor or a batch author
      out of range, a sponsor that is not the author of the containing vertex, or, where the scan cannot
      be paid, bytes that differ. */
  lemma SourceChecksAreExact(env: Env, occs: seq<Occurrence>, c: Checkpoint)
    requires Shaped(env, occs, c) && c.cursor < |occs|
    ensures var occ := occs[c.cursor];
      Body(env, occs, c) == CandidateInvalid <==>
        || !occ.sourceVerified || occ.sponsor >= env.config.validators || occ.batchAuthor >= env.config.validators
        || occ.sponsor != occ.vertexAuthor
        || (c.inflight.None? && !occ.streamMatches
            && ScanWorkCost(occ.itemLength) > Left(c.budget, Own(occ.sponsor)) + Left(c.budget, Common))
  {
    hide ScanWorkCost, ExpensiveWorkCost, Cheap, Finish, Accept, StartAttempt;
  }

  /** A restart finds the scan record of its occurrence corrupt exactly if some field is not the one that
      the verified source gives. */
  lemma ForeignScanIsCorruption(env: Env, occs: seq<Occurrence>, c: Checkpoint)
    requires Shaped(env, occs, c) && c.cursor < |occs| && c.inflight.Some? && SourceOk(env, occs[c.cursor])
    ensures var (occ, a) := (occs[c.cursor], c.inflight.value);
      var same :=
        && a.origin == c.cursor && a.sponsor == occ.sponsor && a.itemLength == occ.itemLength
        && a.cost == ScanWorkCost(occ.itemLength)
        && a.binding.cursor == c.cursor && a.binding.vertexOrdinal == occ.vertexOrdinal
        && a.binding.referenceIndex == occ.referenceIndex && a.binding.batchId == occ.batchId
        && a.binding.batchIndex == occ.batchIndex && a.binding.itemLength == occ.itemLength
        && a.binding.sponsor == occ.sponsor && a.binding.batchAuthor == occ.batchAuthor;
      && (!same ==> Body(env, occs, c) == RecoveryStateCorrupt)
      && (same ==> Body(env, occs, c) == AfterScan(env, occ, c))
  {
    hide ScanWorkCost, AfterScan;
  }

  /** And a suffix record that only started exactly if another occurrence or another sponsor started it. */
  lemma ForeignAttemptIsCorruption(env: Env, occ: Occurrence, c: Checkpoint)
    requires occ.sponsor < |c.budget.reserveLeft| && InflightInRange(c)
    ensures AfterScan(env, occ, c) == RecoveryStateCorrupt <==>
      && Cheap(env, occ, c).Passed? && occ.tx.id in c.attempts && c.attempts[occ.tx.id].status.STARTED?
      && (c.attempts[occ.tx.id].origin != c.cursor || c.attempts[occ.tx.id].sponsor != occ.sponsor)
  {
    hide Cheap, Finish, Accept, TryChargePrefilter, ExpensiveWorkCost;
  }
}
