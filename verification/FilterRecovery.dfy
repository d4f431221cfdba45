/** Crash and restart of the occurrence filter
    (doc/protocol/04-finality-execution-and-epochs.md, section 3.2, checkpoint rules).

    A step goes from one state that may be made durable to the next: the scan charge together with its
    in-flight record, the suffix charge together with its STARTED record, the terminal suffix result,
    the finished occurrence. A machine works in memory, makes its memory durable now and then, and
    falls back to what is durable when it crashes or pauses. */
module FilterRecovery {
  import opened OccurrenceFilter

  /** What the body does next when the scan of the occurrence is already charged. */
  function ScannedStep(env: Env, occ: Occurrence, c: Checkpoint): Outcome
    requires occ.sponsor < |c.budget.reserveLeft| && InflightInRange(c)
  {
    match Cheap(env, occ, c)
    case Rejected(mark) => Running(Finish(c, mark))
    case Halted => ExecutionHalt
    case Passed(next, reservation) =>
      if occ.tx.id !in c.attempts then
        match StartAttempt(env, occ, c)
        case VerifyCapped => Running(Finish(c, PREFILTER_VERIFY_CAP))
        case Attempted(started) => Running(started)
      else if !c.attempts[occ.tx.id].status.STARTED? then Conclude(occ, c, next, reservation)
      else if !StartedHere(c.attempts[occ.tx.id], c.cursor, occ) then RecoveryStateCorrupt
      else Running(RunSuffix(env, occ, c))
  }

  /** The next state that may be made durable, from the data of the last one alone. */
  function Step(env: Env, occs: seq<Occurrence>, c: Checkpoint): (r: Outcome)
    requires Shaped(env, occs, c) && c.cursor < |occs|
    ensures r.Running? ==> Shaped(env, occs, r.checkpoint) && c.cursor <= r.checkpoint.cursor <= c.cursor + 1
  {
    match Scan(env, occs[c.cursor], c)
    case Aborted(outcome) => outcome
    case ScanCapped(next) => Running(next)
    case Scanned(next) => if c.inflight.None? then Running(next) else ScannedStep(env, occs[c.cursor], c)
  }

  /** The cheap prefix does not look at budgets, in-flight records or attempts. */
  lemma CheapIgnoresCharges(env: Env, occ: Occurrence, c: Checkpoint, d: Checkpoint)
    requires d == c.(budget := d.budget, inflight := d.inflight, attempts := d.attempts)
    ensures Cheap(env, occ, d) == Cheap(env, occ, c)
  {
  }

  lemma RescanChangesNothing(env: Env, occ: Occurrence, c: Checkpoint, d: Checkpoint)
    requires |c.budget.reserveLeft| == |c.scanReserved| == env.config.validators
    requires Scan(env, occ, c) == Scanned(d)
    ensures Scan(env, occ, d) == Scanned(d)
  {
  }

  lemma ScannedStepIsPartOfTheBody(env: Env, occ: Occurrence, c: Checkpoint)
    requires occ.sponsor < |c.budget.reserveLeft| && InflightInRange(c)
    ensures match ScannedStep(env, occ, c)
            case Running(d) =>
              if d.cursor == c.cursor then
                SameShape(c, d) && d.inflight == c.inflight && AfterScan(env, occ, d) == AfterScan(env, occ, c)
              else AfterScan(env, occ, c) == Running(d)
            case other => AfterScan(env, occ, c) == other
  {
    hide Finish, Conclude;
    var o := ScannedStep(env, occ, c);
    if o.Running? && o.checkpoint.cursor == c.cursor {
      CheapIgnoresCharges(env, occ, c, o.checkpoint);
      hide Cheap;
    }
  }

  /** Executing the body from the top on the state after a step gives what executing it on the state
      before the step gives: nothing is charged or decided a second time. */
  lemma ResumingGivesTheSame(env: Env, occs: seq<Occurrence>, c: Checkpoint)
    requires Shaped(env, occs, c) && c.cursor < |occs|
    ensures match Step(env, occs, c)
            case Running(d) =>
              if d.cursor == c.cursor then Body(env, occs, d) == Body(env, occs, c)
              else Body(env, occs, c) == Running(d)
            case other => Body(env, occs, c) == other
  {
    hide AfterScan, ScannedStep, InflightMatches;
    var occ := occs[c.cursor];
    var scan := Scan(env, occ, c);
    if scan.Scanned? {
      RescanChangesNothing(env, occ, c, scan.checkpoint);
      if c.inflight.Some? {
        ScannedStepIsPartOfTheBody(env, occ, c);
        var o := ScannedStep(env, occ, c);
        if o.Running? && o.checkpoint.cursor == c.cursor {
          assert Scan(env, occ, o.checkpoint) == Scanned(o.checkpoint);
        }
      }
    }
  }

  /** How many steps are left at most. */
  function StepsLeft(occs: seq<Occurrence>, c: Checkpoint): nat
    requires c.cursor <= |occs|
  {
    4 * (|occs| - c.cursor)
    - if c.cursor == |occs| || c.inflight.None? then 0
      else if occs[c.cursor].tx.id !in c.attempts then 1
      else if c.attempts[occs[c.cursor].tx.id].status.STARTED? then 2
      else 3
  }

  lemma StepsRunOut(env: Env, occs: seq<Occurrence>, c: Checkpoint)
    requires Shaped(env, occs, c) && c.cursor < |occs| && Step(env, occs, c).Running?
    ensures StepsLeft(occs, Step(env, occs, c).checkpoint) < StepsLeft(occs, c)
  {
    hide Cheap, Conclude, SourceOk, InflightMatches;
  }

  // ---------------------------------------------------------------- the machine

  datatype Machine = Machine(memory: Outcome, durable: Checkpoint)

  datatype Event = Work | Persist | Crash

  predicate MachineShaped(env: Env, occs: seq<Occurrence>, m: Machine) {
    && Shaped(env, occs, m.durable)
    && (m.memory.Running? ==> Shaped(env, occs, m.memory.checkpoint))
  }

  function Next(env: Env, occs: seq<Occurrence>, m: Machine, e: Event): (r: Machine)
    requires MachineShaped(env, occs, m)
    ensures MachineShaped(env, occs, r)
  {
    match e
    case Work =>
      if m.memory.Running? && m.memory.checkpoint.cursor < |occs|
      then m.(memory := Step(env, occs, m.memory.checkpoint))
      else m
    case Persist => if m.memory.Running? then m.(durable := m.memory.checkpoint) else m
    case Crash => m.(memory := Running(m.durable))
  }

  function After(env: Env, occs: seq<Occurrence>, m: Machine, es: seq<Event>): (r: Machine)
    requires MachineShaped(env, occs, m)
    ensures MachineShaped(env, occs, r)
    decreases es
  {
    if es == [] then m else After(env, occs, Next(env, occs, m, es[0]), es[1..])
  }

  /** The machine as the pass begins. */
  function Boot(env: Env): Machine
    requires ConfigOk(env.config)
  {
    Machine(Running(Start(env)), Start(env))
  }

  predicate Ended(occs: seq<Occurrence>, o: Outcome) {
    o.Running? ==> o.checkpoint.cursor == |occs|
  }

  /** What an uninterrupted pass makes of the outcome. */
  function Completed(env: Env, occs: seq<Occurrence>, o: Outcome): Outcome
    requires o.Running? ==> Shaped(env, occs, o.checkpoint)
  {
    if o.Running? then FilterFrom(env, occs, o.checkpoint) else o
  }

  lemma StepKeepsCompletion(env: Env, occs: seq<Occurrence>, c: Checkpoint)
    requires Shaped(env, occs, c) && c.cursor < |occs|
    ensures Completed(env, occs, Step(env, occs, c)) == FilterFrom(env, occs, c)
  {
    hide Step, Body;
    ResumingGivesTheSame(env, occs, c);
  }

  /** Memory and durable state are both on the way to the same end. */
  predicate OnTheWay(env: Env, occs: seq<Occurrence>, m: Machine, end: Outcome)
    requires MachineShaped(env, occs, m)
  {
    Completed(env, occs, m.memory) == end && FilterFrom(env, occs, m.durable) == end
  }

  lemma {:induction false} RunsStayOnTheWay(env: Env, occs: seq<Occurrence>, m: Machine, es: seq<Event>, end: Outcome)
    requires MachineShaped(env, occs, m) && OnTheWay(env, occs, m, end)
    ensures OnTheWay(env, occs, After(env, occs, m, es), end)
    decreases es
  {
    hide FilterFrom, Step;
    if es == [] {
    } else {
      if es[0].Work? && m.memory.Running? && m.memory.checkpoint.cursor < |occs| {
        StepKeepsCompletion(env, occs, m.memory.checkpoint);
      }
      RunsStayOnTheWay(env, occs, Next(env, occs, m, es[0]), es[1..], end);
    }
  }

  /** Whatever crashes happened and whatever was durable then: a run that ends, ends with exactly the
      outcome of the uninterrupted pass, down to every budget, attempt, mark and winner. */
  lemma CrashesAreInvisible(env: Env, occs: seq<Occurrence>, es: seq<Event>)
    requires ConfigOk(env.config)
    requires Ended(occs, After(env, occs, Boot(env), es).memory)
    ensures After(env, occs, Boot(env), es).memory == FilterFrom(env, occs, Start(env))
  {
    RunsStayOnTheWay(env, occs, Boot(env), es, FilterFrom(env, occs, Start(env)));
  }

  /** From any machine, enough uninterrupted work reaches the end. */
  lemma {:induction false} WorkReachesTheEnd(env: Env, occs: seq<Occurrence>, m: Machine, es: seq<Event>)
    requires MachineShaped(env, occs, m) && forall i | 0 <= i < |es| :: es[i].Work?
    requires m.memory.Running? ==> |es| >= StepsLeft(occs, m.memory.checkpoint)
    ensures Ended(occs, After(env, occs, m, es).memory)
    decreases es
  {
    hide Step;
    if es == [] {
    } else {
      if m.memory.Running? && m.memory.checkpoint.cursor < |occs| && Step(env, occs, m.memory.checkpoint).Running? {
        StepsRunOut(env, occs, m.memory.checkpoint);
      }
      WorkReachesTheEnd(env, occs, Next(env, occs, m, es[0]), es[1..]);
    }
  }
}
