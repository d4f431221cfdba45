/** The occurrence filter as the source runs it: variables that one loop updates in place
    (doc/protocol/04-finality-execution-and-epochs.md:230-426). */
module FilterPass {
  import opened Wrappers
  import opened PrefilterBudget
  import opened OccurrenceFilter
  import opened FilterRecovery

  class Filter {
    const env: Env
    const occs: seq<Occurrence>

    var cursor: nat
    var inflight: Option<ScanAttempt>
    var sponsorRemaining: seq<nat>
    var sharedRemaining: nat
    var completedScanReserved: seq<nat>
    var completedScanShared: nat
    var attempts: map<TxId, PrefilterAttempt>
    var workingNextNonce: map<Address, nat>
    var accepted: set<TxId>
    var created: set<Address>
    var winners: seq<Winner>
    var reservedGas: nat
    var reservation: Reservation
    var marks: seq<Mark>

    /** Begin from a checkpoint: the initial one, or whatever was durable when the last run stopped. */
    constructor (env: Env, occs: seq<Occurrence>, checkpoint: Checkpoint)
      ensures this.env == env && this.occs == occs && View() == checkpoint
    {
      this.env, this.occs := env, occs;
      cursor, inflight := checkpoint.cursor, checkpoint.inflight;
      sponsorRemaining, sharedRemaining := checkpoint.budget.reserveLeft, checkpoint.budget.sharedLeft;
      completedScanReserved, completedScanShared := checkpoint.scanReserved, checkpoint.scanShared;
      attempts, workingNextNonce := checkpoint.attempts, checkpoint.nextNonce;
      accepted, created, winners := checkpoint.accepted, checkpoint.created, checkpoint.winners;
      reservedGas, reservation, marks := checkpoint.reservedGas, checkpoint.reservation, checkpoint.marks;
    }

    function View(): Checkpoint
      reads this
    {
      Checkpoint(cursor, inflight, Budget(sponsorRemaining, sharedRemaining), completedScanReserved,
                 completedScanShared, attempts, workingNextNonce, accepted, created, winners, reservedGas,
                 reservation, marks)
    }

    method TryCharge(sponsor: nat, cost: nat) returns (receipt: Option<Receipt>)
      requires sponsor < |sponsorRemaining|
      modifies this`sponsorRemaining, this`sharedRemaining
      ensures match TryChargePrefilter(old(View()).budget, sponsor, cost)
              case Charged(budget, r) => receipt == Some(r) && View() == old(View()).(budget := budget)
              case Failed => receipt == None && View() == old(View())
    {
      var own := cost;
      if sponsorRemaining[sponsor] < cost {
        own := sponsorRemaining[sponsor];
      }
      var rest := cost - own;
      if rest > sharedRemaining {
        return None;
      }
      sponsorRemaining := sponsorRemaining[sponsor := sponsorRemaining[sponsor] - own];
      sharedRemaining := sharedRemaining - rest;
      receipt := Some(Receipt(sponsor, own, rest));
    }

    method FinishOccurrence(mark: Mark)
      requires InflightInRange(View())
      modifies this`cursor, this`inflight, this`completedScanReserved, this`completedScanShared, this`marks
      ensures View() == Finish(old(View()), mark)
    {
      if inflight.Some? {
        var r := inflight.value.receipt;
        completedScanReserved := completedScanReserved[r.sponsor := completedScanReserved[r.sponsor] + r.reserved];
        completedScanShared := completedScanShared + r.shared;
        inflight := None;
      }
      cursor := cursor + 1;
      marks := marks + [mark];
    }

    /** The scan charge with its in-flight record, or their check after a restart. */
    method ScanOccurrence(occ: Occurrence) returns (r: ScanOutcome)
      requires |sponsorRemaining| == |completedScanReserved| == env.config.validators && InflightInRange(View())
      modifies this
      ensures r == Scan(env, occ, old(View()))
      ensures !r.Aborted? ==> View() == r.checkpoint
    {
      if !SourceOk(env, occ) {
        return Aborted(CandidateInvalid);
      }
      if inflight.Some? {
        if InflightMatches(inflight.value, cursor, occ) {
          return Scanned(View());
        }
        return Aborted(RecoveryStateCorrupt);
      }
      var cost := ScanWorkCost(occ.itemLength);
      var charge := TryCharge(occ.sponsor, cost);
      if charge.None? {
        if !occ.streamMatches {
          return Aborted(CandidateInvalid);
        }
        FinishOccurrence(PREFILTER_SCAN_CAP);
        return ScanCapped(View());
      }
      inflight := Some(ScanAttempt(cursor, BindingOf(cursor, occ), occ.sponsor, occ.itemLength, cost, charge.value));
      r := Scanned(View());
    }

    /** The checks of the cheap prefix, one after the other; they change nothing. */
    method CheckCheapPrefix(occ: Occurrence) returns (r: CheapOutcome)
      ensures r == Cheap(env, occ, View())
    {
      var tx := occ.tx;
      if !occ.wellFormed {
        return Rejected(STATIC_INVALID);
      }
      if tx.validFrom > env.height {
        return Rejected(FUTURE_HEIGHT);
      }
      if tx.validUntil < env.height {
        return Rejected(EXPIRED_OCCURRENCE);
      }
      if tx.id in accepted {
        return Rejected(DUPLICATE_OCCURRENCE);
      }
      var next := 0;
      if tx.isCreate {
        if tx.sender in env.accounts || tx.sender in created || !env.createContextOk(tx) {
          return Rejected(AUTH_INVALID_OCCURRENCE);
        }
      } else {
        if tx.sender !in env.accounts || tx.policyHash != env.accounts[tx.sender].policyHash {
          return Rejected(AUTH_INVALID_OCCURRENCE);
        }
        next := NextNonce(env, workingNextNonce, tx.sender);
      }
      if next == UINT64_MAX {
        return Rejected(NONCE_EXHAUSTED);
      }
      if tx.nonce < next {
        return Rejected(STALE_OR_DUPLICATE_NONCE);
      }
      if tx.nonce > next {
        return Rejected(FUTURE_NONCE);
      }
      if |winners| >= env.config.maxTransactions {
        return Rejected(BLOCK_CAP);
      }
      if env.config.maxGas < reservedGas {
        return Halted;
      }
      if tx.gasLimit > env.config.maxGas - reservedGas {
        return Rejected(BLOCK_CAP);
      }
      match env.prepare(reservation, tx, |winners|) {
        case DeterministicReject(rejectClass) => r := Rejected(PREPARE_REJECTED(rejectClass));
        case ExceedsCaps => r := Rejected(BLOCK_CAP);
        case Prepared(nextReservation) => r := Passed(next, nextReservation);
      }
    }

    /** The suffix charge with its STARTED record, unless the transaction has one already. */
    method ObtainAttempt(occ: Occurrence) returns (obtained: bool)
      requires occ.sponsor < |sponsorRemaining|
      modifies this
      ensures match StartAttempt(env, occ, old(View()))
              case Attempted(c) => obtained && View() == c
              case VerifyCapped => !obtained && View() == old(View())
    {
      if occ.tx.id in attempts {
        return true;
      }
      var cost := ExpensiveWorkCost(occ.tx.suffixFields);
      var charge := TryCharge(occ.sponsor, cost);
      if charge.None? {
        return false;
      }
      attempts := attempts[occ.tx.id := PrefilterAttempt(STARTED, cursor, occ.sponsor, cost, charge.value)];
      obtained := true;
    }

    method AcceptWinner(occ: Occurrence, next: nat, nextReservation: Reservation)
      modifies this`winners, this`accepted, this`workingNextNonce, this`reservedGas, this`reservation, this`created
      ensures View() == Accept(occ, old(View()), next, nextReservation)
    {
      winners, accepted, workingNextNonce, reservedGas, reservation, created :=
        winners + [Winner(|winners|, occ.tx)], accepted + {occ.tx.id}, workingNextNonce[occ.tx.sender := next + 1],
        reservedGas + occ.tx.gasLimit, nextReservation, if occ.tx.isCreate then created + {occ.tx.sender} else created;
    }

    /** From a terminal attempt to the end of the body. */
    method ConcludeOccurrence(occ: Occurrence, next: nat, nextReservation: Reservation) returns (r: Outcome)
      requires occ.tx.id in attempts && InflightInRange(View())
      modifies this
      ensures r == Conclude(occ, old(View()), next, nextReservation)
      ensures r.Running? ==> View() == r.checkpoint
    {
      hide Finish;
      if attempts[occ.tx.id].status.INVALID? {
        FinishOccurrence(STATIC_OR_AUTH_INVALID_OCCURRENCE);
      } else if reservedGas + occ.tx.gasLimit > UINT64_MAX {
        return ExecutionHalt;
      } else {
        AcceptWinner(occ, next, nextReservation);
        FinishOccurrence(WINNER);
      }
      r := Running(View());
    }

    /** From the end of the scan to the end of the body. */
    method JudgeOccurrence(occ: Occurrence) returns (r: Outcome)
      requires occ.sponsor < |sponsorRemaining| && InflightInRange(View())
      modifies this
      ensures r == AfterScan(env, occ, old(View()))
      ensures r.Running? ==> View() == r.checkpoint
    {
      hide Cheap, StartAttempt, Finish, Conclude;
      var cheap := CheckCheapPrefix(occ);
      match cheap {
        case Rejected(mark) =>
          FinishOccurrence(mark);
          return Running(View());
        case Halted =>
          return ExecutionHalt;
        case Passed(next, nextReservation) =>
          var obtained := ObtainAttempt(occ);
          if !obtained {
            FinishOccurrence(PREFILTER_VERIFY_CAP);
            return Running(View());
          }
          var attempt := attempts[occ.tx.id];
          if attempt.status.STARTED? {
            if !StartedHere(attempt, cursor, occ) {
              return RecoveryStateCorrupt;
            }
            var status := if env.suffixValid(occ.tx) then VALID else INVALID;
            attempts := attempts[occ.tx.id := attempt.(status := status)];
          }
          r := ConcludeOccurrence(occ, next, nextReservation);
      }
    }

    /** The loop, from whatever checkpoint the filter began with to the end of the occurrences. */
    method FilterOccurrences() returns (r: Outcome)
      requires Shaped(env, occs, View())
      modifies this
      ensures r == FilterFrom(env, occs, old(View()))
      ensures r.Running? ==> View() == r.checkpoint
    {
      while cursor < |occs|
        invariant Shaped(env, occs, View())
        invariant FilterFrom(env, occs, View()) == FilterFrom(env, occs, old(View()))
        decreases |occs| - cursor
      {
        hide Scan, AfterScan;
        ghost var before := View();
        var occ := occs[cursor];
        var scan := ScanOccurrence(occ);
        match scan {
          case Aborted(outcome) =>
            return outcome;
          case ScanCapped(_) =>
          case Scanned(_) =>
            var judged := JudgeOccurrence(occ);
            if !judged.Running? {
              return judged;
            }
        }
        assert Body(env, occs, before) == Running(View());
      }
      r := Running(View());
    }
  }

  /** A filter that restarts from any checkpoint that a crash may have left behind ends exactly as the
      pass that was never interrupted. */
  method RestartFilter(env: Env, occs: seq<Occurrence>, ghost es: seq<Event>, durable: Checkpoint) returns (r: Outcome)
    requires ConfigOk(env.config) && durable == After(env, occs, Boot(env), es).durable
    ensures r == FilterFrom(env, occs, Start(env))
  {
    RunsStayOnTheWay(env, occs, Boot(env), es, FilterFrom(env, occs, Start(env)));
    var filter := new Filter(env, occs, durable);
    r := filter.FilterOccurrences();
  }
}
