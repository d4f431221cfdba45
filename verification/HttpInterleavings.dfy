/** Every interleaving of any number of Serve and Shutdown calls on one HTTP server
    (pkg/api/httpserver/server.go).

    One event lets one call take one step: a critical section under s.mu, a channel receive or a
    library call. Nothing is asked of the library's Listener, which may fail before or after it calls
    BeforeServeFunc or never return; a Shutdown ends because its context has a deadline. */
module HttpInterleavings {
  import opened Wrappers
  import opened Channels
  import opened HttpLifecycle

  /** Where a call stands. ServeStarting is inside the library before BeforeServeFunc and
      ServeAccepting after it answered nil. */
  datatype Pc =
    | ServeStart(listenerGiven: bool)
    | ServeStarting
    | ServeAccepting
    | ServeReturned(err: Err)
    | ServeDone(result: Err)
    | ServeRefused(result: Err)
    | ShutdownStart(context: Context)
    | ClosingListener
    | DrainingApp
    | AwaitExit(err: Err)
    | Finishing(err: Err)
    | Waiting
    | ReadingResult
    | ShutdownDone(result: Err)
    | ShutdownRefused(result: Err)

  /** Everything but where the calls stand. server is the call that entered Serve and stopper the one
      that moved the server to stopping; accepted counts the nil answers of BeforeServeFunc,
      libraryErr is what the library's Listener returned to server, stoppedStarting says that the stopper
      found the server still starting, answer is what the listener's Close or the library's shutdown
      returned to it, timedOut that its wait for Serve ended by the deadline, gaveUp that serveDone was
      open then, and errWrites counts the assignments of shutdownErr. */
  datatype Globals = Globals(
    shared: Shared, server: Option<nat>, stopper: Option<nat>, accepted: nat, libraryErr: Option<Err>,
    stoppedStarting: bool, answer: Option<Err>, timedOut: bool, gaveUp: bool, errWrites: nat)

  datatype World = World(globals: Globals, pcs: seq<Pc>)

  datatype Move = Move(globals: Globals, pc: Pc)

  /** err is what the library or the listener returns; flag chooses between BeforeServeFunc and an
      early return, and between an expired context and a closed serveDone. */
  datatype Event = CallStep(call: nat, err: Err, flag: bool)

  const InitialGlobals := Globals(InitialShared, None, None, 0, None, false, None, false, false, 0)

  ghost predicate Initial(w: World) {
    && w.globals == InitialGlobals
    && forall i: nat | i < |w.pcs| :: w.pcs[i].ServeStart? || w.pcs[i].ShutdownStart?
  }

  predicate Returned(pc: Pc) {
    pc.ServeDone? || pc.ServeRefused? || pc.ShutdownDone? || pc.ShutdownRefused?
  }

  predicate Ready(g: Globals, pc: Pc, flag: bool) {
    && !Returned(pc)
    && (pc.AwaitExit? && !flag ==> g.shared.serveDone.Closed?)
    && (pc.Waiting? ==> g.shared.shutdownDone.Closed?)
  }

  predicate ServeCall(pc: Pc) {
    || pc.ServeStart? || pc.ServeStarting? || pc.ServeAccepting? || pc.ServeReturned? || pc.ServeDone?
    || pc.ServeRefused?
  }

  function ServeMove(g: Globals, i: nat, pc: Pc, err: Err, flag: bool): Move {
    match pc
    case ServeStart(given) =>
      if !given then Move(g, ServeRefused(ErrNilListener)) else
      var (shared, outcome) := EnterServe(g.shared);
      (match outcome
       case Entered => Move(g.(shared := shared, server := Some(i)), ServeStarting)
       case AlreadyServing => Move(g, ServeRefused(ErrServerAlreadyServing))
       case Rejected => Move(g, ServeRefused(ErrServerStopped)))
    case ServeStarting =>
      if !flag then Move(g.(libraryErr := Some(err)), ServeReturned(err)) else
      var (shared, answer) := BeforeServe(g.shared);
      if answer.NoError? then Move(g.(shared := shared, accepted := g.accepted + 1), ServeAccepting)
      else Move(g.(shared := shared, libraryErr := Some(answer)), ServeReturned(answer))
    case ServeAccepting => Move(g.(libraryErr := Some(err)), ServeReturned(err))
    case ServeReturned(returned) =>
      Move(g.(shared := ExitServe(g.shared)),
           ServeDone(ServeResult(g.shared.state.Stopping? || g.shared.state.Stopped?, returned)))
    case _ => Move(g, pc)
  }

  function ShutdownMove(g: Globals, i: nat, pc: Pc, err: Err, flag: bool): Move {
    match pc
    case ShutdownStart(context) =>
      if context.NilContext? then Move(g, ShutdownRefused(ErrNilShutdownContext))
      else if context.Unbounded? then Move(g, ShutdownRefused(ErrUnboundedShutdownContext)) else
      var (shared, outcome) := BeginShutdown(g.shared);
      (match outcome
       case StoppedIdle => Move(g.(shared := shared), ShutdownDone(NoError))
       case ReturnStored => Move(g, ShutdownDone(g.shared.shutdownErr))
       case WaitForDone => Move(g, Waiting)
       case CloseListener => Move(g.(shared := shared, stopper := Some(i), stoppedStarting := true), ClosingListener)
       case DrainApp => Move(g.(shared := shared, stopper := Some(i)), DrainingApp))
    case ClosingListener => Move(g.(answer := Some(err)), AwaitExit(CloseResult(err)))
    case DrainingApp => Move(g.(answer := Some(err)), AwaitExit(DrainResult(err)))
    case AwaitExit(kept) =>
      Move(g.(timedOut := flag, gaveUp := flag && g.shared.serveDone.Open?),
           Finishing(Join(kept, if flag then ContextExpired else NoError)))
    case Finishing(result) =>
      Move(g.(shared := FinishShutdown(g.shared, result), errWrites := g.errWrites + 1), ShutdownDone(result))
    case Waiting => Move(g, ReadingResult)
    case ReadingResult => Move(g, ShutdownDone(g.shared.shutdownErr))
    case _ => Move(g, pc)
  }

  function Act(g: Globals, i: nat, pc: Pc, err: Err, flag: bool): Move {
    if ServeCall(pc) then ServeMove(g, i, pc, err, flag) else ShutdownMove(g, i, pc, err, flag)
  }

  predicate Enabled(w: World, e: Event) {
    e.call < |w.pcs| && Ready(w.globals, w.pcs[e.call], e.flag)
  }

  function Next(w: World, e: Event): World
    requires Enabled(w, e)
  {
    var move := Act(w.globals, e.call, w.pcs[e.call], e.err, e.flag);
    World(move.globals, w.pcs[e.call := move.pc])
  }

  /** The events of a run, each enabled when it happens. */
  predicate Runs(w: World, es: seq<Event>)
    decreases es
  {
    es == [] || (Enabled(w, es[0]) && Runs(Next(w, es[0]), es[1..]))
  }

  function After(w: World, es: seq<Event>): World
    requires Runs(w, es)
    decreases es
  {
    if es == [] then w else After(Next(w, es[0]), es[1..])
  }

  // ---------------------------------------------------------------- the invariant

  /** The call entered Serve and has not closed serveDone. */
  predicate InServe(pc: Pc) {
    pc.ServeStarting? || pc.ServeAccepting? || pc.ServeReturned?
  }

  predicate Entrant(pc: Pc) {
    InServe(pc) || pc.ServeDone?
  }

  /** The call moved the server to stopping and has not finished. */
  predicate Draining(pc: Pc) {
    pc.ClosingListener? || pc.DrainingApp? || pc.AwaitExit? || pc.Finishing?
  }

  predicate Up(state: LifecycleState) {
    state.Starting? || state.Serving?
  }

  /** The error was made by a wait for Serve that its context cut short. */
  predicate CutShort(err: Err) {
    err.Joined? && err.second.ContextExpired?
  }

  predicate ServingOk(g: Globals, serving: Option<Pc>) {
    var s := g.shared;
    && !s.panicked
    && (s.hasListener <==> s.serveDone.Open?)
    && (match serving
        case None => g.server.None? && s.serveDone.Nil? && g.accepted == 0 && g.stopper.None?
        case Some(pc) =>
          && g.server.Some? && Entrant(pc) && !s.state.Idle?
          && s.serveDone == (if InServe(pc) then Open else Closed)
          && (pc.ServeStarting? ==> g.accepted == 0 && !s.state.Serving?)
          && (pc.ServeAccepting? ==> g.accepted == 1 && !s.state.Starting?)
          && (s.state.Starting? ==> g.accepted == 0)
          && g.accepted <= 1)
    && (g.stoppedStarting ==> g.stopper.Some? && g.accepted == 0)
  }

  /** What the fields are while no Shutdown drains. */
  predicate UndrainedOk(g: Globals, serving: Option<Pc>) {
    var s := g.shared;
    && g.errWrites == 0 && s.shutdownErr.NoError? && !g.gaveUp
    && (match serving
        case None => (s.state.Idle? || s.state.Stopped?) && s.shutdownDone.Nil?
        case Some(pc) => if InServe(pc) then Up(s.state) && s.shutdownDone.Open?
                         else s.state.Stopped? && s.shutdownDone.Closed?)
  }

  /** What the fields are once a Shutdown drains, given where it stands. */
  predicate DrainedOk(g: Globals, draining: Pc) {
    var s := g.shared;
    && (if Draining(draining) then
          s.state.Stopping? && s.shutdownDone.Open? && s.shutdownErr.NoError? && g.errWrites == 0
        else
          && draining.ShutdownDone? && s.state.Stopped? && s.shutdownDone.Closed? && g.errWrites == 1
          && (s.serveDone.Closed? || g.gaveUp) && (g.gaveUp ==> CutShort(s.shutdownErr)))
    && (draining.Finishing? ==> (s.serveDone.Closed? || g.gaveUp) && (g.gaveUp ==> CutShort(draining.err)))
    && (Draining(draining) && !draining.Finishing? ==> !g.gaveUp)
    && (draining.ClosingListener? ==> g.stoppedStarting)
    && (draining.DrainingApp? ==> !g.stoppedStarting)
  }

  predicate FieldsOk(g: Globals, serving: Option<Pc>, draining: Option<Pc>) {
    && ServingOk(g, serving)
    && (match draining
        case None => g.stopper.None? && UndrainedOk(g, serving)
        case Some(pc) => g.stopper.Some? && DrainedOk(g, pc))
  }

  /** What the call i, standing at pc, may rely on. */
  predicate CallOk(g: Globals, i: nat, pc: Pc) {
    && (Entrant(pc) <==> g.server == Some(i))
    && (Draining(pc) ==> g.stopper == Some(i))
    && (g.stopper == Some(i) ==> Draining(pc) || pc.ShutdownDone?)
    && (pc.Waiting? ==> g.stopper.Some?)
    && (pc.ReadingResult? ==> g.stopper.Some? && g.shared.shutdownDone.Closed?)
    && (pc.ShutdownDone? ==> g.shared.state.Stopped? && pc.result == g.shared.shutdownErr)
  }

  /** Where the distinguished call stands after call i moved to pc. */
  function Follow(who: Option<nat>, i: nat, pc: Pc, before: Option<Pc>): Option<Pc> {
    if who == Some(i) then Some(pc) else before
  }

  /** A step of call i, standing at pc, is about to be taken from globals the invariant allows. */
  predicate StepOk(g: Globals, serving: Option<Pc>, draining: Option<Pc>, i: nat, pc: Pc, flag: bool) {
    && FieldsOk(g, serving, draining) && CallOk(g, i, pc) && Ready(g, pc, flag)
    && (g.server == Some(i) ==> serving == Some(pc))
    && (g.stopper == Some(i) ==> draining == Some(pc))
  }

  predicate KeptBy(m: Move, serving: Option<Pc>, draining: Option<Pc>, i: nat) {
    && CallOk(m.globals, i, m.pc)
    && FieldsOk(m.globals, Follow(m.globals.server, i, m.pc, serving), Follow(m.globals.stopper, i, m.pc, draining))
  }

  lemma ServeKeeps(g: Globals, serving: Option<Pc>, draining: Option<Pc>, i: nat, pc: Pc, err: Err, flag: bool)
    requires StepOk(g, serving, draining, i, pc, flag) && ServeCall(pc)
    ensures KeptBy(ServeMove(g, i, pc, err, flag), serving, draining, i)
  {
    hide Is;
  }

  lemma ShutdownStartKeeps(g: Globals, serving: Option<Pc>, draining: Option<Pc>, i: nat, pc: Pc, err: Err, flag: bool)
    requires StepOk(g, serving, draining, i, pc, flag) && pc.ShutdownStart?
    ensures KeptBy(ShutdownMove(g, i, pc, err, flag), serving, draining, i)
  {
    hide Is;
  }

  lemma DrainKeeps(g: Globals, serving: Option<Pc>, draining: Option<Pc>, i: nat, pc: Pc, err: Err, flag: bool)
    requires StepOk(g, serving, draining, i, pc, flag) && !ServeCall(pc) && !pc.ShutdownStart?
    ensures KeptBy(ShutdownMove(g, i, pc, err, flag), serving, draining, i)
  {
    hide Is;
  }

  lemma ActKeeps(g: Globals, serving: Option<Pc>, draining: Option<Pc>, i: nat, pc: Pc, err: Err, flag: bool)
    requires StepOk(g, serving, draining, i, pc, flag)
    ensures KeptBy(Act(g, i, pc, err, flag), serving, draining, i)
  {
    hide FieldsOk, CallOk, KeptBy, ServeMove, ShutdownMove;
    if ServeCall(pc) {
      ServeKeeps(g, serving, draining, i, pc, err, flag);
    } else if pc.ShutdownStart? {
      ShutdownStartKeeps(g, serving, draining, i, pc, err, flag);
    } else {
      DrainKeeps(g, serving, draining, i, pc, err, flag);
    }
  }

  lemma OthersKeep(g: Globals, serving: Option<Pc>, draining: Option<Pc>, i: nat, pc: Pc, err: Err, flag: bool,
                   j: nat, other: Pc)
    requires StepOk(g, serving, draining, i, pc, flag)
    requires j != i && CallOk(g, j, other)
    ensures CallOk(Act(g, i, pc, err, flag).globals, j, other)
  {
    hide Is;
  }

  // ---------------------------------------------------------------- every reachable world

  function Standing(w: World, who: Option<nat>): Option<Pc> {
    if who.Some? && who.value < |w.pcs| then Some(w.pcs[who.value]) else None
  }

  predicate Inv(w: World) {
    var g := w.globals;
    && FieldsOk(g, Standing(w, g.server), Standing(w, g.stopper))
    && forall i: nat | i < |w.pcs| :: CallOk(g, i, w.pcs[i])
  }

  lemma RolesArePassedOn(g: Globals, i: nat, pc: Pc, err: Err, flag: bool)
    ensures var next := Act(g, i, pc, err, flag).globals;
      && (next.server == g.server || next.server == Some(i))
      && (next.stopper == g.stopper || next.stopper == Some(i))
  {
    hide EnterServe, BeforeServe, BeginShutdown, ExitServe, FinishShutdown, ServeResult, CloseResult, DrainResult;
  }

  lemma StepKeepsInv(w: World, e: Event)
    requires Inv(w) && Enabled(w, e)
    ensures Inv(Next(w, e))
  {
    hide FieldsOk, CallOk, Act, Ready;
    var g, i, next := w.globals, e.call, Next(w, e);
    var pc := w.pcs[i];
    var serving, draining := Standing(w, g.server), Standing(w, g.stopper);
    assert CallOk(g, i, pc);
    ActKeeps(g, serving, draining, i, pc, e.err, e.flag);
    RolesArePassedOn(g, i, pc, e.err, e.flag);
    assert Standing(next, next.globals.server) == Follow(next.globals.server, i, next.pcs[i], serving);
    assert Standing(next, next.globals.stopper) == Follow(next.globals.stopper, i, next.pcs[i], draining);
    forall j: nat | j < |next.pcs|
      ensures CallOk(next.globals, j, next.pcs[j])
    {
      assert CallOk(g, j, w.pcs[j]);
      if j != i {
        OthersKeep(g, serving, draining, i, pc, e.err, e.flag, j, w.pcs[j]);
      }
    }
  }

  lemma {:induction false} InvariantHolds(w: World, es: seq<Event>)
    requires Inv(w) && Runs(w, es)
    ensures Inv(After(w, es))
    decreases es
  {
    hide Inv, Next, Enabled;
    if es == [] {
    } else {
      StepKeepsInv(w, es[0]);
      InvariantHolds(Next(w, es[0]), es[1..]);
    }
  }

  lemma InitialWorldIsFine(w: World)
    requires Initial(w)
    ensures Inv(w)
  {
  }

  /** Some run from some initial world ends here. */
  ghost predicate Reachable(w: World) {
    exists first: World, es: seq<Event> :: Initial(first) && Runs(first, es) && After(first, es) == w
  }

  lemma ReachableIsFine(w: World)
    requires Reachable(w)
    ensures Inv(w)
  {
    hide Inv, Initial, Runs, After;
    var first: World, es: seq<Event> :| Initial(first) && Runs(first, es) && After(first, es) == w;
    InitialWorldIsFine(first);
    InvariantHolds(first, es);
  }

  // ---------------------------------------------------------------- what the calls report

  predicate Down(state: LifecycleState) {
    state.Stopping? || state.Stopped?
  }

  /** What the drain does not report: nil, an already closed listener, and, when it drained rather than
      closed the listener, a library that was not running. */
  predicate Forgiven(closing: bool, answer: Err) {
    answer.NoError? || Is(answer, ErrNetClosed) || (!closing && Is(answer, ErrNotRunning))
  }

  /** The drain reports what is not forgiven, and its own deadline if that ended the wait for Serve. */
  predicate DrainErr(g: Globals, err: Err) {
    && g.answer.Some?
    && (var forgiven := Forgiven(g.stoppedStarting, g.answer.value);
        if forgiven && !g.timedOut then err == NoError
        else err == Joined(if forgiven then NoError else g.answer.value, if g.timedOut then ContextExpired else NoError))
  }

  /** What Serve returns when the library returned libraryErr: nil for the errors that only say it was
      stopped, if a Shutdown had asked for that, and otherwise the library's error. */
  predicate ServeErr(asked: bool, libraryErr: Err, result: Err) {
    if asked && (libraryErr.NoError? || Is(libraryErr, ErrNetClosed) || Is(libraryErr, ErrServerStopped))
    then result == NoError else result == libraryErr
  }

  /** Why a Serve call may have been turned away. */
  predicate RefusalOk(g: Globals, result: Err) {
    match result
    case ErrNilListener => true
    case ErrServerAlreadyServing => g.server.Some?
    case ErrServerStopped => Down(g.shared.state)
    case _ => false
  }

  /** What the call at pc reports, or will report. */
  predicate CallReports(g: Globals, pc: Pc) {
    match pc
    case ServeStarting => g.libraryErr.None?
    case ServeAccepting => g.libraryErr.None?
    case ServeReturned(err) => g.libraryErr == Some(err)
    case ServeDone(result) => g.libraryErr.Some? && ServeErr(g.stopper.Some?, g.libraryErr.value, result)
    case ServeRefused(result) => RefusalOk(g, result)
    case ClosingListener => g.stoppedStarting && g.answer.None?
    case DrainingApp => !g.stoppedStarting && g.answer.None?
    case AwaitExit(kept) =>
      && g.answer.Some?
      && kept == (if Forgiven(g.stoppedStarting, g.answer.value) then NoError else g.answer.value)
    case Finishing(err) => DrainErr(g, err)
    case ShutdownDone(result) => if g.stopper.None? then result == NoError else DrainErr(g, result)
    case _ => true
  }

  predicate StoreReports(g: Globals) {
    && (g.stopper.Some? && g.shared.shutdownDone.Closed? ==> DrainErr(g, g.shared.shutdownErr))
    && (g.stopper.None? ==> g.answer.None? && !g.stoppedStarting && g.shared.shutdownErr.NoError?)
    && (g.server.None? ==> g.libraryErr.None?)
  }

  predicate Reports(w: World) {
    StoreReports(w.globals) && forall i: nat | i < |w.pcs| :: CallReports(w.globals, w.pcs[i])
  }

  lemma ServeReports(g: Globals, serving: Option<Pc>, draining: Option<Pc>, i: nat, pc: Pc, err: Err, flag: bool)
    requires StepOk(g, serving, draining, i, pc, flag) && ServeCall(pc)
    requires CallReports(g, pc) && StoreReports(g)
    ensures CallReports(ServeMove(g, i, pc, err, flag).globals, ServeMove(g, i, pc, err, flag).pc)
    ensures StoreReports(ServeMove(g, i, pc, err, flag).globals)
  {
    hide Is;
  }

  lemma ShutdownReports(g: Globals, serving: Option<Pc>, draining: Option<Pc>, i: nat, pc: Pc, err: Err, flag: bool)
    requires StepOk(g, serving, draining, i, pc, flag) && !ServeCall(pc)
    requires CallReports(g, pc) && StoreReports(g)
    ensures CallReports(ShutdownMove(g, i, pc, err, flag).globals, ShutdownMove(g, i, pc, err, flag).pc)
    ensures StoreReports(ShutdownMove(g, i, pc, err, flag).globals)
  {
    hide Is;
  }

  lemma OthersReportServe(g: Globals, serving: Option<Pc>, draining: Option<Pc>, i: nat, pc: Pc, err: Err, flag: bool,
                          j: nat, other: Pc)
    requires StepOk(g, serving, draining, i, pc, flag) && ServeCall(pc)
    requires j != i && CallOk(g, j, other) && CallReports(g, other)
    ensures CallReports(ServeMove(g, i, pc, err, flag).globals, other)
  {
    hide Is;
  }

  lemma OthersReportShutdown(g: Globals, serving: Option<Pc>, draining: Option<Pc>, i: nat, pc: Pc, err: Err, flag: bool,
                             j: nat, other: Pc)
    requires StepOk(g, serving, draining, i, pc, flag) && !ServeCall(pc)
    requires j != i && CallOk(g, j, other) && CallReports(g, other)
    requires g.server == Some(j) ==> serving == Some(other)
    ensures CallReports(ShutdownMove(g, i, pc, err, flag).globals, other)
  {
    hide Is;
  }

  lemma StepReports(w: World, e: Event)
    requires Inv(w) && Enabled(w, e) && Reports(w)
    ensures Reports(Next(w, e))
  {
    hide FieldsOk, CallOk, ServeMove, ShutdownMove, Ready, CallReports, StoreReports;
    var g, i := w.globals, e.call;
    var pc, serving, draining := w.pcs[i], Standing(w, g.server), Standing(w, g.stopper);
    assert CallOk(g, i, pc);
    if ServeCall(pc) {
      ServeReports(g, serving, draining, i, pc, e.err, e.flag);
    } else {
      ShutdownReports(g, serving, draining, i, pc, e.err, e.flag);
    }
    forall j: nat | j < |w.pcs|
      ensures CallReports(Next(w, e).globals, Next(w, e).pcs[j])
    {
      if j != i {
        if ServeCall(pc) {
          OthersReportServe(g, serving, draining, i, pc, e.err, e.flag, j, w.pcs[j]);
        } else {
          OthersReportShutdown(g, serving, draining, i, pc, e.err, e.flag, j, w.pcs[j]);
        }
      }
    }
  }

  lemma {:induction false} RunReports(w: World, es: seq<Event>)
    requires Inv(w) && Reports(w) && Runs(w, es)
    ensures Inv(After(w, es)) && Reports(After(w, es))
    decreases es
  {
    hide Inv, Next, Enabled, Reports;
    if es == [] {
    } else {
      StepReports(w, es[0]);
      StepKeepsInv(w, es[0]);
      RunReports(Next(w, es[0]), es[1..]);
    }
  }

  lemma ReportsHold(w: World)
    requires Reachable(w)
    ensures Inv(w) && Reports(w)
  {
    var first: World, es: seq<Event> :| Initial(first) && Runs(first, es) && After(first, es) == w;
    InitialWorldIsFine(first);
    assert Reports(first);
    hide Inv, Initial, Runs, After, Reports;
    RunReports(first, es);
  }

  // ---------------------------------------------------------------- safety

  /** Every section finds the fields as the object demands: Valid() always, an open serveDone for the end
      of Serve, and a stopping server for the end of Shutdown. */
  lemma SectionsMeetTheirPreconditions(w: World, i: nat)
    requires Reachable(w) && i < |w.pcs|
    ensures SharedOk(w.globals.shared)
    ensures w.pcs[i].ServeReturned? ==> w.globals.shared.serveDone.Open?
    ensures w.pcs[i].Finishing? ==> w.globals.shared.state.Stopping?
  {
    ReachableIsFine(w);
    assert CallOk(w.globals, i, w.pcs[i]);
  }

  /** No channel is closed twice or while nil, the library is let into serving at most once, the
      stored error is written at most once, and a server that is starting or serving has its listener
      and both channels. */
  lemma LifecycleIsSafe(w: World)
    requires Reachable(w)
    ensures !w.globals.shared.panicked && w.globals.accepted <= 1 && w.globals.errWrites <= 1
    ensures Up(w.globals.shared.state) ==>
      w.globals.shared.hasListener && w.globals.shared.serveDone.Open? && w.globals.shared.shutdownDone.Open?
  {
    ReachableIsFine(w);
  }

  lemma RolesAreHeldOnce(w: World, i: nat, j: nat)
    requires Reachable(w) && i < |w.pcs| && j < |w.pcs|
    ensures Entrant(w.pcs[i]) && Entrant(w.pcs[j]) ==> i == j
    ensures Draining(w.pcs[i]) && Draining(w.pcs[j]) ==> i == j
  {
    ReachableIsFine(w);
    assert CallOk(w.globals, i, w.pcs[i]) && CallOk(w.globals, j, w.pcs[j]);
  }

  /** A Shutdown that found the server starting keeps it from ever accepting. */
  lemma ShutdownWhileStartingPreventsServing(w: World, es: seq<Event>)
    requires Reachable(w) && Runs(w, es) && w.globals.stoppedStarting
    ensures w.globals.accepted == 0 && After(w, es).globals.accepted == 0
    ensures !After(w, es).globals.shared.state.Serving?
  {
    ReachableIsFine(w);
    InvariantHolds(w, es);
    StoppingIsRemembered(w, es);
  }

  lemma StepRemembersStopping(w: World, e: Event)
    requires Enabled(w, e) && w.globals.stoppedStarting
    ensures Next(w, e).globals.stoppedStarting
  {
    hide EnterServe, BeforeServe, BeginShutdown, ExitServe, FinishShutdown, ServeResult, CloseResult, DrainResult;
  }

  lemma {:induction false} StoppingIsRemembered(w: World, es: seq<Event>)
    requires Runs(w, es) && w.globals.stoppedStarting
    ensures After(w, es).globals.stoppedStarting
    decreases es
  {
    hide Next, Enabled;
    if es == [] {
    } else {
      StepRemembersStopping(w, es[0]);
      StoppingIsRemembered(Next(w, es[0]), es[1..]);
    }
  }

  /** Every Shutdown that passed its context checks returns the same value, its own deadline or not. */
  lemma ShutdownsAgree(w: World, i: nat, j: nat)
    requires Reachable(w) && i < |w.pcs| && j < |w.pcs| && w.pcs[i].ShutdownDone? && w.pcs[j].ShutdownDone?
    ensures w.pcs[i].result == w.pcs[j].result == w.globals.shared.shutdownErr
    ensures w.globals.shared.state.Stopped?
  {
    ReachableIsFine(w);
    assert CallOk(w.globals, i, w.pcs[i]) && CallOk(w.globals, j, w.pcs[j]);
  }

  /** And which value that is. A Shutdown that met no drain returns nil. After a drain the result is nil
      exactly if the wait for Serve was not cut short and what the listener or the library answered is
      forgiven; an answer that is not forgiven and an expired deadline can both be found in the result,
      and nothing else can. */
  lemma ShutdownResult(w: World, i: nat, target: Err)
    requires Reachable(w) && i < |w.pcs| && w.pcs[i].ShutdownDone?
    ensures w.globals.stopper.None? ==> w.pcs[i].result == NoError
    ensures w.globals.stopper.Some? ==>
      && w.globals.answer.Some?
      && var answer, result := w.globals.answer.value, w.pcs[i].result;
         var forgiven := answer.NoError? || Is(answer, ErrNetClosed) || (!w.globals.stoppedStarting && Is(answer, ErrNotRunning));
      && (result == NoError <==> forgiven && !w.globals.timedOut)
      && (!forgiven ==> Is(result, answer))
      && (w.globals.timedOut ==> Is(result, ContextExpired))
      && (Is(result, target) && !target.NoError? && target != result ==>
            (!forgiven && Is(answer, target)) || (w.globals.timedOut && target == ContextExpired))
  {
    ReportsHold(w);
    assert CallReports(w.globals, w.pcs[i]);
    hide Inv, Reports, CallReports;
    if w.globals.stopper.Some? {
      JoinedHolds(w.globals, w.pcs[i].result, target);
    }
  }

  lemma JoinedHolds(g: Globals, err: Err, target: Err)
    requires DrainErr(g, err)
    ensures !Forgiven(g.stoppedStarting, g.answer.value) ==> Is(err, g.answer.value)
    ensures g.timedOut ==> Is(err, ContextExpired)
    ensures Is(err, target) && !target.NoError? && target != err ==>
      (!Forgiven(g.stoppedStarting, g.answer.value) && Is(g.answer.value, target)) || (g.timedOut && target == ContextExpired)
  {
    if err.Joined? {
      assert Is(err.first, err.first) && Is(err.second, err.second);
      if Is(err, target) && !target.NoError? && target != err {
        assert Is(err.first, target) || Is(err.second, target);
        assert Is(NoError, target) <==> target.NoError?;
        assert Is(ContextExpired, target) <==> target.ContextExpired?;
      }
    }
  }

  /** The recorded answer and deadline are those of the drain's own steps. */
  lemma DrainIsRecorded(w: World, i: nat, err: Err, flag: bool)
    requires Reachable(w) && Enabled(w, CallStep(i, err, flag)) && Draining(w.pcs[i]) && !w.pcs[i].Finishing?
    ensures var g, pc, next := w.globals, w.pcs[i], Next(w, CallStep(i, err, flag));
      && (pc.ClosingListener? ==> g.stoppedStarting)
      && (pc.DrainingApp? ==> !g.stoppedStarting)
      && (!pc.AwaitExit? ==> g.answer.None? && next.globals == g.(answer := Some(err)) && next.pcs[i].AwaitExit?)
      && (pc.AwaitExit? ==> next.globals.answer == g.answer && next.globals.timedOut == flag && next.pcs[i].Finishing?)
  {
    ReportsHold(w);
    ReportsAt(w, i);
    hide Is, Inv, Reports, Reachable;
  }

  /** And no other step touches them. */
  lemma RecordsStay(w: World, e: Event)
    requires Enabled(w, e) && (!Draining(w.pcs[e.call]) || w.pcs[e.call].Finishing?)
    ensures Next(w, e).globals.answer == w.globals.answer && Next(w, e).globals.timedOut == w.globals.timedOut
  {
    hide Is, ExitServe, FinishShutdown, ServeResult, EnterServe, BeforeServe, BeginShutdown;
  }

  /** What a Serve that entered the library returns. Unless a Shutdown drains, the library's error comes
      back as it is; if one does, nil and the errors of a stopped server become nil and any other error
      still comes back. */
  lemma ServeResultIsExact(w: World, i: nat)
    requires Reachable(w) && i < |w.pcs| && w.pcs[i].ServeDone?
    ensures w.globals.libraryErr.Some?
    ensures w.globals.stopper.None? ==> w.pcs[i].result == w.globals.libraryErr.value
    ensures w.globals.stopper.Some? ==>
      (w.pcs[i].result == NoError <==>
        || w.globals.libraryErr.value == NoError
        || Is(w.globals.libraryErr.value, ErrNetClosed) || Is(w.globals.libraryErr.value, ErrServerStopped))
    ensures w.pcs[i].result != NoError ==> w.pcs[i].result == w.globals.libraryErr.value
  {
    ReportsHold(w);
    assert CallReports(w.globals, w.pcs[i]);
  }

  lemma StepKeepsLibraryErr(w: World, e: Event)
    requires Inv(w) && Reports(w) && Enabled(w, e) && w.globals.libraryErr.Some?
    ensures Next(w, e).globals.libraryErr == w.globals.libraryErr
  {
    assert CallReports(w.globals, w.pcs[e.call]);
    hide Is;
  }

  lemma {:induction false} LibraryErrStays(w: World, es: seq<Event>)
    requires Inv(w) && Reports(w) && Runs(w, es) && w.globals.libraryErr.Some?
    ensures After(w, es).globals.libraryErr == w.globals.libraryErr
    decreases es
  {
    hide Inv, Next, Enabled, Reports;
    if es != [] {
      StepKeepsLibraryErr(w, es[0]);
      StepReports(w, es[0]);
      StepKeepsInv(w, es[0]);
      LibraryErrStays(Next(w, es[0]), es[1..]);
    }
  }

  /** Over runs: what the library returns to Serve is what Serve returns in the end, or nil. */
  lemma LibraryErrorComesBack(w: World, i: nat, err: Err, flag: bool, es: seq<Event>)
    requires Reachable(w) && Enabled(w, CallStep(i, err, flag)) && Runs(Next(w, CallStep(i, err, flag)), es)
    requires w.pcs[i].ServeAccepting? || (w.pcs[i].ServeStarting? && !flag)
    requires i < |After(Next(w, CallStep(i, err, flag)), es).pcs|
    requires After(Next(w, CallStep(i, err, flag)), es).pcs[i].ServeDone?
    ensures var last := After(Next(w, CallStep(i, err, flag)), es);
      && (last.globals.stopper.None? ==> last.pcs[i].result == err)
      && (last.globals.stopper.Some? ==>
            if err == NoError || Is(err, ErrNetClosed) || Is(err, ErrServerStopped)
            then last.pcs[i].result == NoError else last.pcs[i].result == err)
  {
    ReportsHold(w);
    var next := Next(w, CallStep(i, err, flag));
    StepReports(w, CallStep(i, err, flag));
    StepKeepsInv(w, CallStep(i, err, flag));
    assert next.globals.libraryErr == Some(err);
    hide Inv, Next, Enabled, Reports, After, Runs;
    LibraryErrStays(next, es);
    RunReports(next, es);
    ReportsAt(After(next, es), i);
  }

  lemma ReportsAt(w: World, i: nat)
    requires Reports(w) && i < |w.pcs|
    ensures CallReports(w.globals, w.pcs[i])
  {
  }

  /** A call that meets a server which is up, coming down or down is turned away for that reason. */
  lemma EntryIsExact(w: World, i: nat, err: Err, flag: bool)
    requires Reachable(w) && Enabled(w, CallStep(i, err, flag)) && w.pcs[i] == ServeStart(true)
    ensures var state, next := w.globals.shared.state, Next(w, CallStep(i, err, flag)).pcs[i];
      && (next.ServeStarting? <==> state.Idle?)
      && (next == ServeRefused(ErrServerAlreadyServing) <==> Up(state))
      && (next == ServeRefused(ErrServerStopped) <==> Down(state))
  {
  }

  /** Every Serve that was refused has one of the three reasons. */
  lemma RefusalsHaveReasons(w: World, i: nat)
    requires Reachable(w) && i < |w.pcs| && w.pcs[i].ServeRefused?
    ensures w.pcs[i].result in {ErrNilListener, ErrServerAlreadyServing, ErrServerStopped}
    ensures w.pcs[i].result == ErrServerAlreadyServing ==> w.globals.server.Some?
    ensures w.pcs[i].result == ErrServerStopped ==> Down(w.globals.shared.state)
  {
    ReportsHold(w);
    ReportsAt(w, i);
  }

  /** Where a call that began at `start` may stand. */
  predicate FromStart(start: Pc, pc: Pc) {
    match start
    case ServeStart(given) =>
      if given then ServeCall(pc) && pc != ServeStart(false) && pc != ServeRefused(ErrNilListener)
      else pc == start || pc == ServeRefused(ErrNilListener)
    case ShutdownStart(context) =>
      (match context
       case NilContext => pc == start || pc == ShutdownRefused(ErrNilShutdownContext)
       case Unbounded => pc == start || pc == ShutdownRefused(ErrUnboundedShutdownContext)
       case Bounded => !ServeCall(pc) && !pc.ShutdownRefused? && (pc.ShutdownStart? ==> pc == start))
    case _ => false
  }

  /** Arguments are checked first and alone: over any run a nil listener and a nil or unbounded context
      give their own error and nothing else, and no other call is refused for them. */
  lemma {:induction false} ArgumentsAreChecked(first: World, es: seq<Event>, i: nat)
    requires Initial(first) && Runs(first, es) && i < |first.pcs|
    ensures |After(first, es).pcs| == |first.pcs| && FromStart(first.pcs[i], After(first, es).pcs[i])
  {
    ArgumentsFrom(first, es, i, first.pcs[i]);
  }

  lemma {:induction false} ArgumentsFrom(w: World, es: seq<Event>, i: nat, start: Pc)
    requires Runs(w, es) && i < |w.pcs| && FromStart(start, w.pcs[i])
    ensures |After(w, es).pcs| == |w.pcs| && FromStart(start, After(w, es).pcs[i])
    decreases es
  {
    hide Act, FromStart;
    if es != [] {
      var e := es[0];
      if e.call == i {
        assert Ready(w.globals, w.pcs[i], e.flag);
        hide Ready;
        ArgumentsStep(w.globals, i, w.pcs[i], e.err, e.flag, start);
      }
      ArgumentsFrom(Next(w, e), es[1..], i, start);
    }
  }

  lemma ArgumentsStep(g: Globals, i: nat, pc: Pc, err: Err, flag: bool, start: Pc)
    requires FromStart(start, pc) && !Returned(pc)
    ensures FromStart(start, Act(g, i, pc, err, flag).pc)
  {
    hide Is, ExitServe, FinishShutdown, ServeResult, CloseResult, DrainResult, Join;
  }

  /** Under a stopped server Serve is in progress only if the draining call gave up on it. */
  lemma ServeOutlivesOnlyIfGivenUp(w: World, k: nat)
    requires Reachable(w) && k < |w.pcs| && w.globals.shared.state.Stopped? && InServe(w.pcs[k])
    ensures w.globals.gaveUp
  {
    ReachableIsFine(w);
    assert CallOk(w.globals, k, w.pcs[k]);
  }

  /** And it is left in progress exactly then. Where the drain waits for Serve, only the deadline is
      enabled while Serve k is in progress; the drain gives up exactly if it takes the deadline there;
      and finishing, which is enabled next, stops the server with Serve in progress exactly if it has. */
  lemma GivingUpIsExact(w: World, i: nat, k: nat, err: Err, flag: bool, later: bool)
    requires Reachable(w) && i < |w.pcs| && w.pcs[i].AwaitExit? && w.globals.server == Some(k) && k < |w.pcs|
    requires Enabled(w, CallStep(i, err, flag))
    ensures InServe(w.pcs[k]) ==> flag
    ensures var waited := Next(w, CallStep(i, err, flag));
      && (waited.globals.gaveUp <==> flag && InServe(w.pcs[k]))
      && Enabled(waited, CallStep(i, err, later))
      && var finished := Next(waited, CallStep(i, err, later));
         && finished.globals.shared.state.Stopped? && finished.pcs[i].ShutdownDone?
         && (InServe(finished.pcs[k]) <==> waited.globals.gaveUp)
  {
    ReachableIsFine(w);
    assert CallOk(w.globals, i, w.pcs[i]) && CallOk(w.globals, k, w.pcs[k]);
  }

  /** A Shutdown that returned means that Serve has exited unless the draining call gave up on it; a nil
      result means that it did not. */
  lemma ShutdownMeansServeExited(w: World, i: nat, k: nat)
    requires Reachable(w) && i < |w.pcs| && k < |w.pcs| && w.pcs[i].ShutdownDone?
    ensures !w.globals.gaveUp ==> !InServe(w.pcs[k])
    ensures w.pcs[i].result.NoError? ==> !w.globals.gaveUp
    ensures w.globals.gaveUp ==> Is(w.pcs[i].result, ContextExpired)
  {
    ReachableIsFine(w);
    assert CallOk(w.globals, i, w.pcs[i]) && CallOk(w.globals, k, w.pcs[k]);
    if CutShort(w.pcs[i].result) {
      assert Is(w.pcs[i].result.second, ContextExpired);
    }
  }

  lemma {:induction false} RunsExtend(w: World, es: seq<Event>, e: Event)
    requires Runs(w, es) && Enabled(After(w, es), e)
    ensures Runs(w, es + [e]) && After(w, es + [e]) == Next(After(w, es), e)
    decreases es
  {
    hide Next, Enabled;
    if es == [] {
      assert [e][1..] == [];
    } else {
      assert (es + [e])[1..] == es[1..] + [e];
      RunsExtend(Next(w, es[0]), es[1..], e);
    }
  }

  lemma ReachableStep(w: World, e: Event)
    requires Reachable(w) && Enabled(w, e)
    ensures Reachable(Next(w, e))
  {
    hide Initial, Next, Enabled;
    var first: World, es: seq<Event> :| Initial(first) && Runs(first, es) && After(first, es) == w;
    RunsExtend(first, es, e);
  }

  lemma InitialIsReachable(w: World)
    requires Initial(w)
    ensures Reachable(w)
  {
    assert Runs(w, []) && After(w, []) == w;
  }

  lemma StepFrom(w: World, e: Event) returns (next: World)
    requires Reachable(w) && Enabled(w, e)
    ensures Reachable(next) && next == Next(w, e)
  {
    ReachableStep(w, e);
    next := Next(w, e);
  }

  /** Serve has been let in and a Shutdown has yet to begin. */
  const ACCEPTING := World(
    Globals(Shared(Serving, true, Open, Open, NoError, false), Some(0), None, 1, None, false, None, false, false, 0),
    [ServeAccepting, ShutdownStart(Bounded)])

  lemma AcceptingIsReachable()
    ensures Reachable(ACCEPTING)
  {
    hide Reachable, Runs, After;
    var w0 := World(InitialGlobals, [ServeStart(true), ShutdownStart(Bounded)]);
    InitialIsReachable(w0);
    var w1 := StepFrom(w0, CallStep(0, NoError, true));
    assert w1.pcs == [ServeStarting, ShutdownStart(Bounded)];
    var w2 := StepFrom(w1, CallStep(0, NoError, true));
    assert w2.pcs == [ServeAccepting, ShutdownStart(Bounded)];
  }

  /** A Shutdown drains. */
  const DRAINING := World(
    Globals(Shared(Stopping, true, Open, Open, NoError, false), Some(0), Some(1), 1, None, false, None, false, false, 0),
    [ServeAccepting, DrainingApp])

  lemma DrainingIsReachable()
    ensures Reachable(DRAINING)
  {
    hide Reachable, Runs, After, ServeMove;
    AcceptingIsReachable();
    var next := StepFrom(ACCEPTING, CallStep(1, NoError, true));
    assert next.pcs == [ServeAccepting, DrainingApp];
  }

  /** The drain has given up on Serve. */
  const CUT_SHORT := World(
    Globals(Shared(Stopping, true, Open, Open, NoError, false), Some(0), Some(1), 1, None, false, Some(LibraryFailure), true, true, 0),
    [ServeAccepting, Finishing(Joined(LibraryFailure, ContextExpired))])

  lemma CutShortIsReachable()
    ensures Reachable(CUT_SHORT)
  {
    hide Reachable, Runs, After, ServeMove;
    DrainingIsReachable();
    var waiting := StepFrom(DRAINING, CallStep(1, LibraryFailure, true));
    assert waiting.pcs == [ServeAccepting, AwaitExit(LibraryFailure)];
    var cut := StepFrom(waiting, CallStep(1, NoError, true));
    assert cut.pcs == [ServeAccepting, Finishing(Joined(LibraryFailure, ContextExpired))];
  }

  /** The exception does happen: Serve may still run after the server stopped. */
  lemma ServeMayOutliveShutdown()
    ensures exists w: World ::
      Reachable(w) && |w.pcs| == 2 && w.globals.shared.state.Stopped? && InServe(w.pcs[0]) && w.pcs[1].ShutdownDone?
  {
    hide Reachable, Runs, After, ServeMove;
    CutShortIsReachable();
    var w6 := StepFrom(CUT_SHORT, CallStep(1, NoError, true));
    assert w6.pcs[0] == ServeAccepting;
  }

  /** A Serve that outlives the Shutdown still closes serveDone, touches nothing else that the
      Shutdown left, and returns nil if all that happened to it was being stopped. */
  lemma LateServeExit(w: World, i: nat, err: Err, flag: bool)
    requires Reachable(w) && i < |w.pcs| && w.pcs[i].ServeReturned? && w.globals.shared.state.Stopped?
    ensures Enabled(w, CallStep(i, err, flag))
    ensures var next := Next(w, CallStep(i, err, flag));
      && next.globals.shared == w.globals.shared.(hasListener := false, serveDone := Closed)
      && next.pcs[i].ServeDone?
      && (next.pcs[i].result.NoError? <==>
            || w.pcs[i].err.NoError? || Is(w.pcs[i].err, ErrNetClosed) || Is(w.pcs[i].err, ErrServerStopped))
  {
    ReachableIsFine(w);
    assert CallOk(w.globals, i, w.pcs[i]);
  }

  function Rank(state: LifecycleState): nat {
    match state
    case Idle => 0
    case Starting => 1
    case Serving => 2
    case Stopping => 3
    case Stopped => 4
  }

  /** What no step undoes. */
  predicate Advances(g: Globals, later: Globals) {
    && Rank(g.shared.state) <= Rank(later.shared.state)
    && ChanRank(g.shared.serveDone) <= ChanRank(later.shared.serveDone)
    && ChanRank(g.shared.shutdownDone) <= ChanRank(later.shared.shutdownDone)
    && (g.shared.shutdownDone.Closed? ==>
          later.shared.shutdownErr == g.shared.shutdownErr && later.errWrites == g.errWrites)
    && g.accepted <= later.accepted
  }

  lemma ActAdvances(g: Globals, serving: Option<Pc>, draining: Option<Pc>, i: nat, pc: Pc, err: Err, flag: bool)
    requires StepOk(g, serving, draining, i, pc, flag)
    ensures Advances(g, Act(g, i, pc, err, flag).globals)
  {
    hide Is;
  }

  lemma StepAdvances(w: World, e: Event)
    requires Inv(w) && Enabled(w, e)
    ensures Advances(w.globals, Next(w, e).globals)
  {
    hide FieldsOk, CallOk, Act, Ready, Advances;
    var g := w.globals;
    assert CallOk(g, e.call, w.pcs[e.call]);
    ActAdvances(g, Standing(w, g.server), Standing(w, g.stopper), e.call, w.pcs[e.call], e.err, e.flag);
  }

  /** State and channels never go back, and nothing writes the stored error after its waiters were
      released. */
  lemma RunsAdvance(w: World, es: seq<Event>)
    requires Reachable(w) && Runs(w, es)
    ensures Advances(w.globals, After(w, es).globals)
  {
    ReachableIsFine(w);
    RunsAdvanceFrom(w, es);
  }

  lemma {:induction false} RunsAdvanceFrom(w: World, es: seq<Event>)
    requires Inv(w) && Runs(w, es)
    ensures Advances(w.globals, After(w, es).globals)
    decreases es
  {
    hide Inv, Next, Enabled;
    if es == [] {
    } else {
      StepAdvances(w, es[0]);
      StepKeepsInv(w, es[0]);
      RunsAdvanceFrom(Next(w, es[0]), es[1..]);
    }
  }

  // ---------------------------------------------------------------- progress

  predicate PendingShutdown(pc: Pc) {
    !ServeCall(pc) && !Returned(pc)
  }

  /** An event that happens unless another one does. Calls inside the library's Listener are not
      counted on, and neither is a Serve caller that has yet to take the mutex. */
  predicate Forced(w: World, e: Event) {
    Enabled(w, e) && PendingShutdown(w.pcs[e.call])
  }

  /** No reachable world holds up a Shutdown, whatever Serve and the library do. */
  lemma PendingShutdownsAreNeverStuck(w: World, i: nat)
    requires Reachable(w) && i < |w.pcs| && PendingShutdown(w.pcs[i])
    ensures exists e :: Forced(w, e)
  {
    ReachableIsFine(w);
    assert CallOk(w.globals, i, w.pcs[i]);
    if w.pcs[i].Waiting? && !w.globals.shared.shutdownDone.Closed? {
      var j := w.globals.stopper.value;
      assert CallOk(w.globals, j, w.pcs[j]);
      assert Forced(w, CallStep(j, NoError, true));
    } else {
      assert Forced(w, CallStep(i, NoError, true));
    }
  }

  /** A run that has gone as far as it must leaves no Shutdown behind, even if Serve never returns. */
  lemma FinishedRunsHaveNoPendingShutdown(w: World, i: nat)
    requires Reachable(w) && i < |w.pcs| && !(exists e :: Forced(w, e))
    ensures !PendingShutdown(w.pcs[i])
    ensures w.pcs[i].ShutdownDone? ==> w.pcs[i].result == w.globals.shared.shutdownErr
  {
    if PendingShutdown(w.pcs[i]) {
      PendingShutdownsAreNeverStuck(w, i);
    }
    if w.pcs[i].ShutdownDone? {
      ShutdownsAgree(w, i, i);
    }
  }

  /** How many steps a call can still take. */
  function StepsLeft(pc: Pc): nat {
    match pc
    case ServeStart(_) => 4
    case ServeStarting => 3
    case ServeAccepting => 2
    case ServeReturned(_) => 1
    case ShutdownStart(_) => 4
    case ClosingListener => 3
    case DrainingApp => 3
    case AwaitExit(_) => 2
    case Finishing(_) => 1
    case Waiting => 2
    case ReadingResult => 1
    case _ => 0
  }

  function Budget(pcs: seq<Pc>): nat {
    if pcs == [] then 0 else StepsLeft(pcs[0]) + Budget(pcs[1..])
  }

  lemma {:induction false} MovingOneCall(pcs: seq<Pc>, i: nat, pc: Pc)
    requires i < |pcs|
    ensures Budget(pcs[i := pc]) == Budget(pcs) - StepsLeft(pcs[i]) + StepsLeft(pc)
    decreases i
  {
    if i == 0 {
      assert pcs[i := pc][1..] == pcs[1..];
    } else {
      assert pcs[i := pc][1..] == pcs[1..][i - 1 := pc];
      MovingOneCall(pcs[1..], i - 1, pc);
    }
  }

  lemma ActsUseUpSteps(g: Globals, i: nat, pc: Pc, err: Err, flag: bool)
    requires !Returned(pc)
    ensures StepsLeft(Act(g, i, pc, err, flag).pc) < StepsLeft(pc)
  {
    hide Is, ExitServe, FinishShutdown, ServeResult, CloseResult, DrainResult;
  }

  /** No run is longer than the budget of its first world, so every run ends. */
  lemma {:induction false} RunsAreBounded(w: World, es: seq<Event>)
    requires Runs(w, es)
    ensures |es| + Budget(After(w, es).pcs) <= Budget(w.pcs)
    decreases es
  {
    if es == [] {
    } else {
      hide Act, Ready;
      var e := es[0];
      ActsUseUpSteps(w.globals, e.call, w.pcs[e.call], e.err, e.flag);
      MovingOneCall(w.pcs, e.call, Act(w.globals, e.call, w.pcs[e.call], e.err, e.flag).pc);
      RunsAreBounded(Next(w, e), es[1..]);
    }
  }
}
