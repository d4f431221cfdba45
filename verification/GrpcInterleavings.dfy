/** Every interleaving of any number of Serve, Shutdown and RefreshHealth calls on one gRPC server
    (pkg/api/grpcserver/server.go and pkg/api/grpcserver/health.go).

    A world is the shared state, who holds the server mutex, what was asked of the library, and where
    each call stands. One event lets one call take one step: a critical section, a channel receive or
    a library call. The sections that call health.shutdown take two steps with the mutex held in
    between, because a refresh takes only the bridge's own mutex and can fall between them.

    The library is constrained in one way only, and only for the progress results: its Serve returns
    once Stop was called or GracefulStop returned, and GracefulStop returns once Stop was called. */
module GrpcInterleavings {
  import opened Wrappers
  import opened Channels
  import opened GrpcLifecycle

  /** Where a call stands. */
  datatype Pc =
    | ServeStart(listenerGiven: bool)
    | ServeEntered
    | ServeRunning
    | ServeReturned(err: Err)
    | ServeExitHolding(err: Err)
    | ServeDone(result: Err)
    | ServeRefused(result: Err)
    | ShutdownStart(context: Context)
    | IdleHolding
    | ServingHolding
    | CheckingContext
    | Selecting
    | Drained
    | AwaitGraceful
    | AwaitServe(err: Err)
    | Finishing(err: Err)
    | Waiting
    | ReadingResult
    | ShutdownDone(result: Err)
    | ShutdownRefused(result: Err)
    | RefreshStart
    | RefreshGot(ready: bool)
    | RefreshDone

  /** Everything but where the calls stand. server is the call that entered serving and stopper the
      one that drains; entered counts calls of the library's Serve, libraryErr is what that call returned,
      and errWrites counts the assignments of shutdownErr. */
  datatype Globals = Globals(
    shared: Shared, holder: Option<nat>, stopCalled: bool, gracefulCalled: bool, gracefulDone: bool,
    server: Option<nat>, stopper: Option<nat>, entered: nat, libraryErr: Option<Err>, errWrites: nat)

  datatype World = World(globals: Globals, pcs: seq<Pc>)

  /** What one step of a call leaves behind. */
  datatype Move = Move(globals: Globals, pc: Pc)

  /** err is what the library or the listener returns and flag settles the other choices: which case of the select
      fires, whether the context has expired, what the readiness snapshot says. */
  datatype Event = CallStep(call: nat, err: Err, flag: bool) | GracefulReturns

  const InitialGlobals := Globals(InitialShared, None, false, false, false, None, None, 0, None, 0)

  ghost predicate Initial(w: World) {
    && w.globals == InitialGlobals
    && forall i: nat | i < |w.pcs| :: w.pcs[i].ServeStart? || w.pcs[i].ShutdownStart? || w.pcs[i].RefreshStart?
  }

  /** The next step of the call is a section it enters by taking the server mutex. */
  predicate NeedsMutex(pc: Pc) {
    || (pc.ServeStart? && pc.listenerGiven) || pc.ServeReturned? || (pc.ShutdownStart? && pc.context.Bounded?)
    || pc.Finishing? || pc.ReadingResult?
  }

  predicate Returned(pc: Pc) {
    pc.ServeDone? || pc.ServeRefused? || pc.ShutdownDone? || pc.ShutdownRefused? || pc.RefreshDone?
  }

  predicate Ready(g: Globals, pc: Pc, flag: bool) {
    && !Returned(pc)
    && (NeedsMutex(pc) ==> g.holder.None?)
    && (pc.AwaitGraceful? || (pc.Selecting? && flag) ==> g.gracefulDone)
    && (pc.AwaitServe? ==> g.shared.serveDone.Closed?)
    && (pc.Waiting? ==> g.shared.shutdownDone.Closed?)
  }

  function ServeMove(g: Globals, i: nat, pc: Pc, err: Err): Move {
    match pc
    case ServeStart(given) =>
      if !given then Move(g, ServeRefused(ErrNilListener)) else
      var (shared, outcome) := EnterServe(g.shared);
      (match outcome
       case Entered => Move(g.(shared := shared, server := Some(i)), ServeEntered)
       case AlreadyServing => Move(g, ServeRefused(ErrServerAlreadyServing))
       case Rejected => Move(g, ServeRefused(RefusedResult(err))))
    case ServeEntered => Move(g.(entered := g.entered + 1), ServeRunning)
    case ServeRunning => Move(g.(libraryErr := Some(err)), ServeReturned(err))
    case ServeReturned(returned) =>
      if g.shared.state.Serving? then
        Move(g.(shared := ExitServe(g.shared), holder := Some(i)), ServeExitHolding(returned))
      else
        Move(g.(shared := ExitServe(g.shared)),
             ServeDone(ServeResult(g.shared.state.Stopping? || g.shared.state.Stopped?, returned)))
    case ServeExitHolding(returned) =>
      Move(g.(shared := ExitUnasked(g.shared), holder := None), ServeDone(ServeResult(false, returned)))
    case _ => Move(g, pc)
  }

  function ShutdownMove(g: Globals, i: nat, pc: Pc, flag: bool): Move {
    match pc
    case ShutdownStart(context) =>
      if context.NilContext? then Move(g, ShutdownRefused(ErrNilShutdownContext))
      else if context.Unbounded? then Move(g, ShutdownRefused(ErrUnboundedShutdownContext)) else
      var (shared, outcome) := BeginShutdown(g.shared);
      (match outcome
       case StoppedIdle => Move(g.(shared := shared, holder := Some(i)), IdleHolding)
       case ReturnStored => Move(g, ShutdownDone(g.shared.shutdownErr))
       case WaitForDone => Move(g, Waiting)
       case Drain => Move(g.(shared := shared, holder := Some(i), stopper := Some(i)), ServingHolding))
    case IdleHolding => Move(g.(shared := SilenceHealth(g.shared), holder := None), ShutdownDone(NoError))
    case ServingHolding => Move(g.(shared := SilenceHealth(g.shared), holder := None), CheckingContext)
    case CheckingContext =>
      if flag then Move(g.(stopCalled := true), AwaitServe(ContextExpired))
      else Move(g.(gracefulCalled := true), Selecting)
    case Selecting =>
      if flag then Move(g, Drained) else Move(g.(stopCalled := true), AwaitGraceful)
    case Drained =>
      if flag then Move(g.(stopCalled := true), AwaitServe(ContextExpired)) else Move(g, AwaitServe(NoError))
    case AwaitGraceful => Move(g, AwaitServe(ContextExpired))
    case AwaitServe(err) => Move(g, Finishing(err))
    case Finishing(err) =>
      Move(g.(shared := FinishShutdown(g.shared, err), errWrites := g.errWrites + 1), ShutdownDone(err))
    case Waiting => Move(g, ReadingResult)
    case ReadingResult => Move(g, ShutdownDone(g.shared.shutdownErr))
    case _ => Move(g, pc)
  }

  function RefreshMove(g: Globals, pc: Pc, flag: bool): Move {
    match pc
    case RefreshStart => Move(g, RefreshGot(flag))
    case RefreshGot(ready) =>
      Move(g.(shared := g.shared.(health := RefreshHealth(g.shared.health, ready))), RefreshDone)
    case _ => Move(g, pc)
  }

  predicate ServeCall(pc: Pc) {
    || pc.ServeStart? || pc.ServeEntered? || pc.ServeRunning? || pc.ServeReturned? || pc.ServeExitHolding?
    || pc.ServeDone? || pc.ServeRefused?
  }

  predicate RefreshCall(pc: Pc) {
    pc.RefreshStart? || pc.RefreshGot? || pc.RefreshDone?
  }

  function Act(g: Globals, i: nat, pc: Pc, err: Err, flag: bool): Move {
    if ServeCall(pc) then ServeMove(g, i, pc, err)
    else if RefreshCall(pc) then RefreshMove(g, pc, flag)
    else ShutdownMove(g, i, pc, flag)
  }

  predicate Enabled(w: World, e: Event) {
    match e
    case GracefulReturns => w.globals.gracefulCalled && !w.globals.gracefulDone
    case CallStep(i, _, flag) => i < |w.pcs| && Ready(w.globals, w.pcs[i], flag)
  }

  function Next(w: World, e: Event): World
    requires Enabled(w, e)
  {
    match e
    case GracefulReturns => w.(globals := w.globals.(gracefulDone := true))
    case CallStep(i, err, flag) =>
      var move := Act(w.globals, i, w.pcs[i], err, flag);
      World(move.globals, w.pcs[i := move.pc])
  }

  /** The events of a run, each enabled when it happens. */
  predicate Runs(w: World, es: seq<Event>)
    decreases es
  {
    es == [] || (Enabled(w, es[0]) && Runs(Next(w, es[0]), es[1..]))
  }

  function After(w: World, es: seq<Event>): World
    requires Runs(w, es)
    decreases es
  {
    if es == [] then w else After(Next(w, es[0]), es[1..])
  }

  // ---------------------------------------------------------------- the invariant

  predicate Holding(pc: Pc) {
    pc.ServeExitHolding? || pc.IdleHolding? || pc.ServingHolding?
  }

  /** The call entered serving and has not closed serveDone. */
  predicate InServe(pc: Pc) {
    pc.ServeEntered? || pc.ServeRunning? || pc.ServeReturned?
  }

  predicate Entrant(pc: Pc) {
    InServe(pc) || pc.ServeExitHolding? || pc.ServeDone?
  }

  /** The call moved the server to stopping and has not finished. */
  predicate Draining(pc: Pc) {
    || pc.ServingHolding? || pc.CheckingContext? || pc.Selecting? || pc.Drained? || pc.AwaitGraceful?
    || pc.AwaitServe? || pc.Finishing?
  }

  predicate Down(state: LifecycleState) {
    state.Stopping? || state.Stopped?
  }

  /** What the fields are while no Shutdown drains, given where the serving call stands. */
  predicate UndrainedOk(g: Globals, serving: Option<Pc>) {
    var s := g.shared;
    && !g.stopCalled && !g.gracefulCalled && g.errWrites == 0 && s.shutdownErr.NoError?
    && (match serving
        case None =>
          && (s.state.Idle? || s.state.Stopped?) && s.shutdownDone.Nil?
          && (g.holder.Some? ==> s.state.Stopped?)
        case Some(pc) =>
          && s.state == (if InServe(pc) then Serving else Stopped)
          && s.shutdownDone == (if pc.ServeDone? then Closed else Open)
          && (pc.ServeExitHolding? <==> g.holder.Some?)
          && (g.holder.Some? ==> g.holder == g.server))
  }

  /** What the fields are once a Shutdown drains, given where it stands. */
  predicate DrainedOk(g: Globals, draining: Pc) {
    var s := g.shared;
    && (if Draining(draining) then
          s.state.Stopping? && s.shutdownDone.Open? && s.shutdownErr.NoError? && g.errWrites == 0
        else
          && draining.ShutdownDone? && s.state.Stopped? && s.shutdownDone.Closed? && g.errWrites == 1
          && s.serveDone.Closed?)
    && (g.holder.Some? <==> draining.ServingHolding?)
    && (g.holder.Some? ==> g.holder == g.stopper)
    && (draining.Finishing? ==> s.serveDone.Closed?)
    && (draining.Selecting? || draining.AwaitGraceful? ==> g.gracefulCalled)
    && (draining.AwaitGraceful? ==> g.stopCalled)
    && (draining.Drained? ==> g.gracefulDone)
    && (draining.AwaitServe? ==> g.stopCalled || g.gracefulDone)
    && (draining.ServingHolding? || draining.CheckingContext? ==> !g.stopCalled && !g.gracefulCalled)
  }

  predicate ServingOk(g: Globals, serving: Option<Pc>) {
    var s := g.shared;
    && !s.panicked
    && (s.hasListener <==> s.serveDone.Open?)
    && (match serving
        case None => g.server.None? && s.serveDone.Nil? && g.entered == 0 && g.stopper.None?
        case Some(pc) =>
          && g.server.Some? && Entrant(pc) && !s.state.Idle?
          && s.serveDone == (if InServe(pc) then Open else Closed)
          && g.entered == (if pc.ServeEntered? then 0 else 1)
          && (pc.ServeExitHolding? ==> g.stopper.None?))
  }

  predicate HealthOk(g: Globals) {
    && (g.shared.health.stopped <==> Down(g.shared.state) && g.holder.None?)
    && (g.shared.health.stopped ==> g.shared.health.status.NOT_SERVING?)
    && (g.stopCalled || g.gracefulCalled ==> g.shared.health.stopped)
  }

  predicate FieldsOk(g: Globals, serving: Option<Pc>, draining: Option<Pc>) {
    && ServingOk(g, serving)
    && HealthOk(g)
    && (match draining
        case None => g.stopper.None? && UndrainedOk(g, serving)
        case Some(pc) => g.stopper.Some? && DrainedOk(g, pc))
  }

  /** What the call i, standing at pc, may rely on. */
  predicate CallOk(g: Globals, i: nat, pc: Pc) {
    && (Holding(pc) <==> g.holder == Some(i))
    && (Entrant(pc) <==> g.server == Some(i))
    && (Draining(pc) ==> g.stopper == Some(i))
    && (g.stopper == Some(i) ==> Draining(pc) || pc.ShutdownDone?)
    && (pc.IdleHolding? ==> g.server.None? && g.shared.state.Stopped?)
    && (pc.Waiting? ==> g.stopper.Some?)
    && (pc.ReadingResult? ==> g.stopper.Some? && g.shared.shutdownDone.Closed?)
    && (pc.ShutdownDone? ==> g.shared.state.Stopped? && pc.result == g.shared.shutdownErr)
  }

  /** Where the distinguished call stands after call i moved to pc. */
  function Follow(who: Option<nat>, i: nat, pc: Pc, before: Option<Pc>): Option<Pc> {
    if who == Some(i) then Some(pc) else before
  }

  /** A step of call i, standing at pc, is about to be taken from globals the invariant allows. */
  predicate StepOk(g: Globals, serving: Option<Pc>, draining: Option<Pc>, i: nat, pc: Pc, flag: bool) {
    && FieldsOk(g, serving, draining) && CallOk(g, i, pc) && Ready(g, pc, flag)
    && (g.server == Some(i) ==> serving == Some(pc))
    && (g.stopper == Some(i) ==> draining == Some(pc))
  }

  predicate KeptBy(m: Move, serving: Option<Pc>, draining: Option<Pc>, i: nat) {
    && CallOk(m.globals, i, m.pc)
    && FieldsOk(m.globals, Follow(m.globals.server, i, m.pc, serving), Follow(m.globals.stopper, i, m.pc, draining))
  }

  lemma ServeStartKeeps(g: Globals, serving: Option<Pc>, draining: Option<Pc>, i: nat, pc: Pc, err: Err, flag: bool)
    requires StepOk(g, serving, draining, i, pc, flag) && pc.ServeStart?
    ensures KeptBy(ServeMove(g, i, pc, err), serving, draining, i)
  {
  }

  lemma ServeKeeps(g: Globals, serving: Option<Pc>, draining: Option<Pc>, i: nat, pc: Pc, err: Err, flag: bool)
    requires StepOk(g, serving, draining, i, pc, flag) && ServeCall(pc) && !pc.ServeStart?
    ensures KeptBy(ServeMove(g, i, pc, err), serving, draining, i)
  {
  }

  lemma RefreshKeeps(g: Globals, serving: Option<Pc>, draining: Option<Pc>, i: nat, pc: Pc, flag: bool)
    requires StepOk(g, serving, draining, i, pc, flag) && RefreshCall(pc)
    ensures KeptBy(RefreshMove(g, pc, flag), serving, draining, i)
  {
  }

  lemma ShutdownStartKeeps(g: Globals, serving: Option<Pc>, draining: Option<Pc>, i: nat, pc: Pc, flag: bool)
    requires StepOk(g, serving, draining, i, pc, flag) && pc.ShutdownStart?
    ensures KeptBy(ShutdownMove(g, i, pc, flag), serving, draining, i)
  {
  }

  lemma DrainKeeps(g: Globals, serving: Option<Pc>, draining: Option<Pc>, i: nat, pc: Pc, flag: bool)
    requires StepOk(g, serving, draining, i, pc, flag) && Draining(pc) && !pc.Finishing?
    ensures KeptBy(ShutdownMove(g, i, pc, flag), serving, draining, i)
  {
  }

  lemma FinishKeeps(g: Globals, serving: Option<Pc>, draining: Option<Pc>, i: nat, pc: Pc, flag: bool)
    requires StepOk(g, serving, draining, i, pc, flag)
    requires pc.IdleHolding? || pc.Finishing? || pc.Waiting? || pc.ReadingResult?
    ensures KeptBy(ShutdownMove(g, i, pc, flag), serving, draining, i)
  {
  }

  lemma OthersKeep(g: Globals, serving: Option<Pc>, draining: Option<Pc>, i: nat, pc: Pc, err: Err, flag: bool,
                   j: nat, other: Pc)
    requires StepOk(g, serving, draining, i, pc, flag)
    requires j != i && CallOk(g, j, other)
    ensures CallOk(Act(g, i, pc, err, flag).globals, j, other)
  {
  }

  // ---------------------------------------------------------------- every reachable world

  function Standing(w: World, who: Option<nat>): Option<Pc> {
    if who.Some? && who.value < |w.pcs| then Some(w.pcs[who.value]) else None
  }

  predicate Inv(w: World) {
    var g := w.globals;
    && (g.holder.Some? ==> g.holder.value < |w.pcs|)
    && FieldsOk(g, Standing(w, g.server), Standing(w, g.stopper))
    && forall i: nat | i < |w.pcs| :: CallOk(g, i, w.pcs[i])
  }

  lemma ActKeeps(g: Globals, serving: Option<Pc>, draining: Option<Pc>, i: nat, pc: Pc, err: Err, flag: bool)
    requires StepOk(g, serving, draining, i, pc, flag)
    ensures KeptBy(Act(g, i, pc, err, flag), serving, draining, i)
  {
    hide FieldsOk, CallOk, KeptBy, ServeMove, ShutdownMove, RefreshMove;
    if pc.ServeStart? {
      ServeStartKeeps(g, serving, draining, i, pc, err, flag);
    } else if ServeCall(pc) {
      ServeKeeps(g, serving, draining, i, pc, err, flag);
    } else if RefreshCall(pc) {
      RefreshKeeps(g, serving, draining, i, pc, flag);
    } else if pc.ShutdownStart? {
      ShutdownStartKeeps(g, serving, draining, i, pc, flag);
    } else if Draining(pc) && !pc.Finishing? {
      DrainKeeps(g, serving, draining, i, pc, flag);
    } else {
      FinishKeeps(g, serving, draining, i, pc, flag);
    }
  }

  /** A step makes its own call the server or the stopper, or neither, and takes or gives the mutex. */
  predicate PassesRoles(g: Globals, i: nat, next: Globals) {
    && (next.server == g.server || next.server == Some(i))
    && (next.stopper == g.stopper || next.stopper == Some(i))
    && (next.holder == g.holder || next.holder == Some(i) || next.holder.None?)
  }

  lemma ServePassesRoles(g: Globals, i: nat, pc: Pc, err: Err)
    ensures PassesRoles(g, i, ServeMove(g, i, pc, err).globals)
  {
    hide EnterServe, ExitServe, ExitUnasked, ServeResult;
  }

  lemma ShutdownPassesRoles(g: Globals, i: nat, pc: Pc, flag: bool)
    ensures PassesRoles(g, i, ShutdownMove(g, i, pc, flag).globals)
  {
    hide BeginShutdown, SilenceHealth, FinishShutdown;
  }

  lemma RolesArePassedOn(g: Globals, i: nat, pc: Pc, err: Err, flag: bool)
    ensures PassesRoles(g, i, Act(g, i, pc, err, flag).globals)
  {
    ServePassesRoles(g, i, pc, err);
    ShutdownPassesRoles(g, i, pc, flag);
    hide ServeMove, ShutdownMove;
  }

  lemma GracefulReturnKeeps(w: World)
    requires Inv(w)
    ensures Inv(w.(globals := w.globals.(gracefulDone := true)))
  {
    var next := w.(globals := w.globals.(gracefulDone := true));
    assert Standing(next, next.globals.server) == Standing(w, w.globals.server);
    assert Standing(next, next.globals.stopper) == Standing(w, w.globals.stopper);
    forall j: nat | j < |w.pcs|
      ensures CallOk(next.globals, j, next.pcs[j])
    {
      assert CallOk(w.globals, j, w.pcs[j]);
    }
  }

  /** The calls that did not move, and the one that did, may go on relying on what they rely on. */
  lemma CallsStayOk(w: World, e: Event)
    requires Inv(w) && Enabled(w, e) && e.CallStep?
    ensures forall j: nat | j < |w.pcs| :: CallOk(Next(w, e).globals, j, Next(w, e).pcs[j])
  {
    hide FieldsOk, CallOk, Act, Ready;
    var g, i := w.globals, e.call;
    var serving, draining := Standing(w, g.server), Standing(w, g.stopper);
    assert CallOk(g, i, w.pcs[i]);
    ActKeeps(g, serving, draining, i, w.pcs[i], e.err, e.flag);
    forall j: nat | j < |w.pcs|
      ensures CallOk(Next(w, e).globals, j, Next(w, e).pcs[j])
    {
      assert CallOk(g, j, w.pcs[j]);
      if j != i {
        OthersKeep(g, serving, draining, i, w.pcs[i], e.err, e.flag, j, w.pcs[j]);
      }
    }
  }

  lemma FieldsStayOk(w: World, e: Event)
    requires Inv(w) && Enabled(w, e) && e.CallStep?
    ensures var next := Next(w, e);
      && FieldsOk(next.globals, Standing(next, next.globals.server), Standing(next, next.globals.stopper))
      && (next.globals.holder.Some? ==> next.globals.holder.value < |next.pcs|)
  {
    hide FieldsOk, CallOk, Act, Ready;
    var g, i, next := w.globals, e.call, Next(w, e);
    var pc := w.pcs[i];
    var serving, draining := Standing(w, g.server), Standing(w, g.stopper);
    assert CallOk(g, i, pc);
    ActKeeps(g, serving, draining, i, pc, e.err, e.flag);
    RolesArePassedOn(g, i, pc, e.err, e.flag);
    assert Standing(next, next.globals.server) == Follow(next.globals.server, i, next.pcs[i], serving);
    assert Standing(next, next.globals.stopper) == Follow(next.globals.stopper, i, next.pcs[i], draining);
  }

  lemma StepKeepsInv(w: World, e: Event)
    requires Inv(w) && Enabled(w, e)
    ensures Inv(Next(w, e))
  {
    if e.GracefulReturns? {
      GracefulReturnKeeps(w);
    } else {
      FieldsStayOk(w, e);
      CallsStayOk(w, e);
      hide FieldsOk, CallOk, Act, Ready, Enabled, Standing;
    }
  }

  lemma {:induction false} InvariantHolds(w: World, es: seq<Event>)
    requires Inv(w) && Runs(w, es)
    ensures Inv(After(w, es))
    decreases es
  {
    hide Inv, Next, Enabled;
    if es == [] {
    } else {
      StepKeepsInv(w, es[0]);
      InvariantHolds(Next(w, es[0]), es[1..]);
    }
  }

  lemma InitialWorldIsFine(w: World)
    requires Initial(w)
    ensures Inv(w)
  {
  }

  /** Some run from some initial world ends here. */
  ghost predicate Reachable(w: World) {
    exists first: World, es: seq<Event> :: Initial(first) && Runs(first, es) && After(first, es) == w
  }

  lemma ReachableIsFine(w: World)
    requires Reachable(w)
    ensures Inv(w)
  {
    hide Inv, Initial, Runs, After;
    var first: World, es: seq<Event> :| Initial(first) && Runs(first, es) && After(first, es) == w;
    InitialWorldIsFine(first);
    InvariantHolds(first, es);
  }

  // ---------------------------------------------------------------- what the calls report

  /** What the drain reports: the expired context if it had to force the stop, and otherwise nothing. */
  predicate DrainErr(g: Globals, err: Err) {
    if g.stopCalled then err == ContextExpired else err == NoError && (g.stopper.Some? ==> g.gracefulDone)
  }

  /** What Serve returns when the library returned libraryErr: nil for the errors that only say it was
      stopped, if a Shutdown had asked for that, and otherwise the library's error. */
  predicate ServeErr(asked: bool, libraryErr: Err, result: Err) {
    if asked && libraryErr in {NoError, LibraryServerStopped} then result == NoError else result == libraryErr
  }

  /** Why a Serve call may have been turned away. */
  predicate RefusalOk(g: Globals, result: Err) {
    match result
    case ErrNilListener => true
    case ErrServerAlreadyServing => g.server.Some?
    case ErrServerStopped => Down(g.shared.state)
    case StoppedAndClose => Down(g.shared.state)
    case _ => false
  }

  /** What the call at pc reports, or will report. */
  predicate CallReports(g: Globals, pc: Pc) {
    match pc
    case ServeEntered => g.libraryErr.None?
    case ServeRunning => g.libraryErr.None?
    case ServeReturned(err) => g.libraryErr == Some(err)
    case ServeExitHolding(err) => g.libraryErr == Some(err)
    case ServeDone(result) => g.libraryErr.Some? && ServeErr(g.stopper.Some?, g.libraryErr.value, result)
    case ServeRefused(result) => RefusalOk(g, result)
    case ServingHolding => !g.stopCalled
    case CheckingContext => !g.stopCalled
    case Selecting => !g.stopCalled
    case Drained => !g.stopCalled && g.gracefulDone
    case AwaitGraceful => g.stopCalled
    case AwaitServe(err) => DrainErr(g, err)
    case Finishing(err) => DrainErr(g, err)
    case ShutdownDone(result) => DrainErr(g, result)
    case _ => true
  }

  /** The stored error is what the drain reports, and no library call has returned before one entered. */
  predicate StoreReports(g: Globals) {
    && (g.shared.shutdownDone.Closed? || g.stopper.None? ==> DrainErr(g, g.shared.shutdownErr))
    && (g.server.None? ==> g.libraryErr.None?)
  }

  predicate Reports(w: World) {
    StoreReports(w.globals) && forall i: nat | i < |w.pcs| :: CallReports(w.globals, w.pcs[i])
  }

  lemma ServeReports(g: Globals, serving: Option<Pc>, draining: Option<Pc>, i: nat, pc: Pc, err: Err, flag: bool)
    requires StepOk(g, serving, draining, i, pc, flag) && ServeCall(pc)
    requires CallReports(g, pc) && StoreReports(g)
    ensures CallReports(ServeMove(g, i, pc, err).globals, ServeMove(g, i, pc, err).pc)
    ensures StoreReports(ServeMove(g, i, pc, err).globals)
  {
  }

  lemma ShutdownReports(g: Globals, serving: Option<Pc>, draining: Option<Pc>, i: nat, pc: Pc, flag: bool)
    requires StepOk(g, serving, draining, i, pc, flag) && !ServeCall(pc) && !RefreshCall(pc)
    requires CallReports(g, pc) && StoreReports(g)
    ensures CallReports(ShutdownMove(g, i, pc, flag).globals, ShutdownMove(g, i, pc, flag).pc)
    ensures StoreReports(ShutdownMove(g, i, pc, flag).globals)
  {
  }

  lemma OthersReportServe(g: Globals, serving: Option<Pc>, draining: Option<Pc>, i: nat, pc: Pc, err: Err, flag: bool,
                          j: nat, other: Pc)
    requires StepOk(g, serving, draining, i, pc, flag) && ServeCall(pc)
    requires j != i && CallOk(g, j, other) && CallReports(g, other)
    ensures CallReports(ServeMove(g, i, pc, err).globals, other)
  {
  }

  lemma OthersReportShutdown(g: Globals, serving: Option<Pc>, draining: Option<Pc>, i: nat, pc: Pc, flag: bool,
                             j: nat, other: Pc)
    requires StepOk(g, serving, draining, i, pc, flag) && !ServeCall(pc) && !RefreshCall(pc)
    requires j != i && CallOk(g, j, other) && CallReports(g, other)
    requires g.server == Some(j) ==> serving == Some(other)
    ensures CallReports(ShutdownMove(g, i, pc, flag).globals, other)
  {
  }

  lemma OthersReport(g: Globals, serving: Option<Pc>, draining: Option<Pc>, i: nat, pc: Pc, err: Err, flag: bool,
                     j: nat, other: Pc)
    requires StepOk(g, serving, draining, i, pc, flag)
    requires j != i && CallOk(g, j, other) && CallReports(g, other)
    requires g.server == Some(j) ==> serving == Some(other)
    ensures CallReports(Act(g, i, pc, err, flag).globals, other)
  {
    if ServeCall(pc) {
      hide FieldsOk, CallOk, CallReports, ServeMove;
      OthersReportServe(g, serving, draining, i, pc, err, flag, j, other);
    } else if !RefreshCall(pc) {
      hide FieldsOk, CallOk, CallReports, ShutdownMove;
      OthersReportShutdown(g, serving, draining, i, pc, flag, j, other);
    }
  }

  lemma StepReports(w: World, e: Event)
    requires Inv(w) && Enabled(w, e) && Reports(w)
    ensures Reports(Next(w, e))
  {
    var g := w.globals;
    if e.CallStep? {
      hide FieldsOk, CallOk, ServeMove, ShutdownMove, Ready, CallReports, StoreReports;
      var i, serving, draining := e.call, Standing(w, g.server), Standing(w, g.stopper);
      var pc := w.pcs[i];
      assert CallOk(g, i, pc);
      if ServeCall(pc) {
        ServeReports(g, serving, draining, i, pc, e.err, e.flag);
      } else if RefreshCall(pc) {
        RefreshReports(g, pc, e.flag);
      } else {
        ShutdownReports(g, serving, draining, i, pc, e.flag);
      }
      hide Act;
      forall j: nat | j < |w.pcs|
        ensures CallReports(Next(w, e).globals, Next(w, e).pcs[j])
      {
        if j != i {
          OthersReport(g, serving, draining, i, pc, e.err, e.flag, j, w.pcs[j]);
        }
      }
    }
  }

  lemma RefreshReports(g: Globals, pc: Pc, flag: bool)
    requires RefreshCall(pc) && StoreReports(g)
    ensures CallReports(RefreshMove(g, pc, flag).globals, RefreshMove(g, pc, flag).pc)
    ensures StoreReports(RefreshMove(g, pc, flag).globals)
  {
  }

  lemma {:induction false} RunReports(w: World, es: seq<Event>)
    requires Inv(w) && Reports(w) && Runs(w, es)
    ensures Reports(After(w, es))
    decreases es
  {
    hide Inv, Next, Enabled, Reports;
    if es == [] {
    } else {
      StepReports(w, es[0]);
      StepKeepsInv(w, es[0]);
      RunReports(Next(w, es[0]), es[1..]);
    }
  }

  lemma ReportsHold(w: World)
    requires Reachable(w)
    ensures Inv(w) && Reports(w)
  {
    var first: World, es: seq<Event> :| Initial(first) && Runs(first, es) && After(first, es) == w;
    InitialWorldIsFine(first);
    assert Reports(first);
    hide Inv, Initial, Runs, After, Reports;
    InvariantHolds(first, es);
    RunReports(first, es);
  }

  // ---------------------------------------------------------------- safety

  /** Whoever takes the mutex finds the fields as the sections of the object demand: Valid() always,
      an open serveDone for the end of Serve, and a stopping server whose Serve has exited for the end
      of Shutdown. */
  lemma SectionsMeetTheirPreconditions(w: World, i: nat)
    requires Reachable(w) && i < |w.pcs| && w.globals.holder.None?
    ensures SharedOk(w.globals.shared)
    ensures w.pcs[i].ServeReturned? ==> w.globals.shared.serveDone.Open?
    ensures w.pcs[i].Finishing? ==> w.globals.shared.state.Stopping? && w.globals.shared.serveDone.Closed?
  {
    ReachableIsFine(w);
    assert CallOk(w.globals, i, w.pcs[i]);
  }

  /** One entry into the library, no double or nil close, one write of the stored error, and no
      server that stopped after serving while its Serve still runs. */
  lemma LifecycleIsSafe(w: World)
    requires Reachable(w)
    ensures !w.globals.shared.panicked && w.globals.entered <= 1 && w.globals.errWrites <= 1
    ensures w.globals.shared.state.Stopped? && w.globals.server.Some? ==> w.globals.shared.serveDone.Closed?
    ensures w.globals.shared.serveDone.Closed? && w.globals.holder.None? ==>
      forall i: nat | i < |w.pcs| :: !InServe(w.pcs[i]) && !w.pcs[i].ServeExitHolding?
  {
    ReachableIsFine(w);
    forall i: nat | i < |w.pcs|
      ensures w.globals.shared.serveDone.Closed? && w.globals.holder.None? ==>
        !InServe(w.pcs[i]) && !w.pcs[i].ServeExitHolding?
    {
      assert CallOk(w.globals, i, w.pcs[i]);
    }
  }

  /** Two Serve calls are never past the entry section, and two Shutdown calls never drain. */
  lemma RolesAreHeldOnce(w: World, i: nat, j: nat)
    requires Reachable(w) && i < |w.pcs| && j < |w.pcs|
    ensures Entrant(w.pcs[i]) && Entrant(w.pcs[j]) ==> i == j
    ensures Draining(w.pcs[i]) && Draining(w.pcs[j]) ==> i == j
    ensures Holding(w.pcs[i]) && Holding(w.pcs[j]) ==> i == j
  {
    ReachableIsFine(w);
    assert CallOk(w.globals, i, w.pcs[i]) && CallOk(w.globals, j, w.pcs[j]);
  }

  /** Every Shutdown that passed its context checks returns the same value. */
  lemma ShutdownsAgree(w: World, i: nat, j: nat)
    requires Reachable(w) && i < |w.pcs| && j < |w.pcs| && w.pcs[i].ShutdownDone? && w.pcs[j].ShutdownDone?
    ensures w.pcs[i].result == w.pcs[j].result == w.globals.shared.shutdownErr
    ensures w.globals.shared.state.Stopped?
  {
    ReachableIsFine(w);
    assert CallOk(w.globals, i, w.pcs[i]) && CallOk(w.globals, j, w.pcs[j]);
  }

  /** And which value that is: the expired context if the library had to be stopped by force, nil if it
      never was; nil after a drain means that the library's own graceful stop had ended. */
  lemma ShutdownResult(w: World, i: nat)
    requires Reachable(w) && i < |w.pcs| && w.pcs[i].ShutdownDone?
    ensures w.pcs[i].result == if w.globals.stopCalled then ContextExpired else NoError
    ensures w.pcs[i].result == NoError && w.globals.stopper.Some? ==> w.globals.gracefulDone
  {
    ReportsHold(w);
    assert CallReports(w.globals, w.pcs[i]);
  }

  /** What a Serve that entered the library returns. Unless a Shutdown drains, the library's error comes
      back as it is; if one does, nil and the library's own stop error become nil and any other error
      still comes back. */
  lemma ServeResultIsExact(w: World, i: nat)
    requires Reachable(w) && i < |w.pcs| && w.pcs[i].ServeDone?
    ensures w.globals.libraryErr.Some?
    ensures w.globals.stopper.None? ==> w.pcs[i].result == w.globals.libraryErr.value
    ensures w.globals.stopper.Some? ==>
      (w.pcs[i].result == NoError <==>
        w.globals.libraryErr.value == NoError || w.globals.libraryErr.value == LibraryServerStopped)
    ensures w.pcs[i].result != NoError ==> w.pcs[i].result == w.globals.libraryErr.value
  {
    ReportsHold(w);
    assert CallReports(w.globals, w.pcs[i]);
  }

  lemma StepKeepsLibraryErr(w: World, e: Event)
    requires Inv(w) && Reports(w) && Enabled(w, e) && w.globals.libraryErr.Some?
    ensures Next(w, e).globals.libraryErr == w.globals.libraryErr
  {
    if e.CallStep? {
      ReportsAt(w, e.call);
      hide Inv, Reports, EnterServe, ExitServe, ExitUnasked, ServeResult, BeginShutdown, SilenceHealth, FinishShutdown,
           RefreshHealth;
    }
  }

  lemma {:induction false} LibraryErrStays(w: World, es: seq<Event>)
    requires Inv(w) && Reports(w) && Runs(w, es) && w.globals.libraryErr.Some?
    ensures After(w, es).globals.libraryErr == w.globals.libraryErr
    decreases es
  {
    hide Inv, Next, Enabled, Reports;
    if es != [] {
      StepKeepsLibraryErr(w, es[0]);
      StepReports(w, es[0]);
      StepKeepsInv(w, es[0]);
      LibraryErrStays(Next(w, es[0]), es[1..]);
    }
  }

  lemma ReportsAt(w: World, i: nat)
    requires Reports(w) && i < |w.pcs|
    ensures CallReports(w.globals, w.pcs[i])
  {
  }

  /** Over runs: what the library returns to Serve is what Serve returns in the end, or nil. */
  lemma LibraryErrorComesBack(w: World, i: nat, err: Err, flag: bool, es: seq<Event>)
    requires Reachable(w) && Enabled(w, CallStep(i, err, flag)) && Runs(Next(w, CallStep(i, err, flag)), es)
    requires w.pcs[i].ServeRunning? && i < |After(Next(w, CallStep(i, err, flag)), es).pcs|
    requires After(Next(w, CallStep(i, err, flag)), es).pcs[i].ServeDone?
    ensures var last := After(Next(w, CallStep(i, err, flag)), es);
      last.pcs[i].result ==
        if last.globals.stopper.Some? && err in {NoError, LibraryServerStopped} then NoError else err
  {
    ReportsHold(w);
    var next := Next(w, CallStep(i, err, flag));
    StepReports(w, CallStep(i, err, flag));
    StepKeepsInv(w, CallStep(i, err, flag));
    assert next.globals.libraryErr == Some(err);
    hide Inv, Next, Enabled, Reports, After, Runs;
    LibraryErrStays(next, es);
    RunReports(next, es);
    ReportsAt(After(next, es), i);
  }

  /** A call that meets a server which is up, coming down or down is turned away for that reason, and a
      refused listener that does not close cleanly is reported. */
  lemma EntryIsExact(w: World, i: nat, closeErr: Err, flag: bool)
    requires Reachable(w) && Enabled(w, CallStep(i, closeErr, flag)) && w.pcs[i] == ServeStart(true)
    ensures var state, next := w.globals.shared.state, Next(w, CallStep(i, closeErr, flag)).pcs[i];
      && (next.ServeEntered? <==> state.Idle?)
      && (next == ServeRefused(ErrServerAlreadyServing) <==> state.Serving?)
      && (next == ServeRefused(ErrServerStopped) <==> Down(state) && closeErr in {NoError, ErrNetClosed})
      && (next == ServeRefused(StoppedAndClose) <==> Down(state) && closeErr !in {NoError, ErrNetClosed})
  {
  }

  /** Every Serve that was refused has one of the four reasons. */
  lemma RefusalsHaveReasons(w: World, i: nat)
    requires Reachable(w) && i < |w.pcs| && w.pcs[i].ServeRefused?
    ensures w.pcs[i].result in {ErrNilListener, ErrServerAlreadyServing, ErrServerStopped, StoppedAndClose}
    ensures w.pcs[i].result == ErrServerAlreadyServing ==> w.globals.server.Some?
    ensures w.pcs[i].result in {ErrServerStopped, StoppedAndClose} ==> Down(w.globals.shared.state)
  {
    ReportsHold(w);
    assert CallReports(w.globals, w.pcs[i]);
  }

  /** Health is down exactly while the server is, and the library is asked to stop only then. */
  lemma HealthFollowsState(w: World)
    requires Reachable(w)
    ensures w.globals.holder.None? ==> (w.globals.shared.health.stopped <==> Down(w.globals.shared.state))
    ensures w.globals.stopCalled || w.globals.gracefulCalled ==> w.globals.shared.health == Health(true, NOT_SERVING)
  {
    ReachableIsFine(w);
  }

  function Rank(state: LifecycleState): nat {
    match state
    case Idle => 0
    case Serving => 1
    case Stopping => 2
    case Stopped => 3
  }

  /** What no step undoes. */
  predicate Advances(g: Globals, later: Globals) {
    && Rank(g.shared.state) <= Rank(later.shared.state)
    && ChanRank(g.shared.serveDone) <= ChanRank(later.shared.serveDone)
    && ChanRank(g.shared.shutdownDone) <= ChanRank(later.shared.shutdownDone)
    && (g.shared.health.stopped ==> later.shared.health == g.shared.health)
    && (g.shared.shutdownDone.Closed? ==>
          later.shared.shutdownErr == g.shared.shutdownErr && later.errWrites == g.errWrites)
    && g.entered <= later.entered
  }

  lemma ServeAdvances(g: Globals, serving: Option<Pc>, draining: Option<Pc>, i: nat, pc: Pc, err: Err, flag: bool)
    requires StepOk(g, serving, draining, i, pc, flag) && ServeCall(pc)
    ensures Advances(g, ServeMove(g, i, pc, err).globals)
  {
  }

  lemma ShutdownAdvances(g: Globals, serving: Option<Pc>, draining: Option<Pc>, i: nat, pc: Pc, flag: bool)
    requires StepOk(g, serving, draining, i, pc, flag) && !ServeCall(pc) && !RefreshCall(pc)
    ensures Advances(g, ShutdownMove(g, i, pc, flag).globals)
  {
  }

  lemma ActAdvances(g: Globals, serving: Option<Pc>, draining: Option<Pc>, i: nat, pc: Pc, err: Err, flag: bool)
    requires StepOk(g, serving, draining, i, pc, flag)
    ensures Advances(g, Act(g, i, pc, err, flag).globals)
  {
    hide FieldsOk, CallOk, ServeMove, ShutdownMove;
    if ServeCall(pc) {
      ServeAdvances(g, serving, draining, i, pc, err, flag);
    } else if !RefreshCall(pc) {
      ShutdownAdvances(g, serving, draining, i, pc, flag);
    }
  }

  lemma StepAdvances(w: World, e: Event)
    requires Inv(w) && Enabled(w, e)
    ensures Advances(w.globals, Next(w, e).globals)
  {
    if e.CallStep? {
      hide FieldsOk, CallOk, Act, Ready, Advances;
      var g := w.globals;
      assert CallOk(g, e.call, w.pcs[e.call]);
      ActAdvances(g, Standing(w, g.server), Standing(w, g.stopper), e.call, w.pcs[e.call], e.err, e.flag);
    }
  }

  /** State and channels never go back, a stopped health bridge keeps its status whatever refreshes
      are still under way, and nothing writes the stored error after its waiters were released. */
  lemma {:induction false} RunsAdvance(w: World, es: seq<Event>)
    requires Reachable(w) && Runs(w, es)
    ensures Advances(w.globals, After(w, es).globals)
  {
    ReachableIsFine(w);
    RunsAdvanceFrom(w, es);
  }

  lemma {:induction false} RunsAdvanceFrom(w: World, es: seq<Event>)
    requires Inv(w) && Runs(w, es)
    ensures Advances(w.globals, After(w, es).globals)
    decreases es
  {
    hide Inv, Next, Enabled;
    if es == [] {
    } else {
      StepAdvances(w, es[0]);
      StepKeepsInv(w, es[0]);
      RunsAdvanceFrom(Next(w, es[0]), es[1..]);
    }
  }

  /** Once a Shutdown began and left its first section, no run ever shows SERVING again, even one in
      which refreshes go on with snapshots they took before. */
  lemma HealthStaysDown(w: World, es: seq<Event>)
    requires Reachable(w) && Runs(w, es)
    requires Down(w.globals.shared.state) && w.globals.holder.None?
    ensures After(w, es).globals.shared.health == Health(true, NOT_SERVING)
  {
    ReachableIsFine(w);
    RunsAdvance(w, es);
  }

  // ---------------------------------------------------------------- what a call can come to

  /** Where a call that began at `start` may stand. */
  predicate FromStart(start: Pc, pc: Pc) {
    match start
    case ServeStart(given) =>
      if given then ServeCall(pc) && pc != ServeStart(false) && pc != ServeRefused(ErrNilListener)
      else pc == start || pc == ServeRefused(ErrNilListener)
    case ShutdownStart(context) =>
      (match context
       case NilContext => pc == start || pc == ShutdownRefused(ErrNilShutdownContext)
       case Unbounded => pc == start || pc == ShutdownRefused(ErrUnboundedShutdownContext)
       case Bounded => !ServeCall(pc) && !RefreshCall(pc) && !pc.ShutdownRefused? && (pc.ShutdownStart? ==> pc == start))
    case _ => RefreshCall(pc)
  }

  /** Arguments are checked first and alone: over any run a nil listener and a nil or unbounded context
      give their own error and nothing else, and no other call is refused for them. */
  lemma {:induction false} ArgumentsAreChecked(first: World, es: seq<Event>, i: nat)
    requires Initial(first) && Runs(first, es) && i < |first.pcs|
    ensures |After(first, es).pcs| == |first.pcs| && FromStart(first.pcs[i], After(first, es).pcs[i])
  {
    ArgumentsFrom(first, es, i, first.pcs[i]);
  }

  lemma {:induction false} ArgumentsFrom(w: World, es: seq<Event>, i: nat, start: Pc)
    requires Runs(w, es) && i < |w.pcs| && FromStart(start, w.pcs[i])
    requires start.ServeStart? || start.ShutdownStart? || start.RefreshStart?
    ensures |After(w, es).pcs| == |w.pcs| && FromStart(start, After(w, es).pcs[i])
    decreases es
  {
    hide Act, FromStart;
    if es != [] {
      var e := es[0];
      if e.CallStep? && e.call == i {
        assert Ready(w.globals, w.pcs[i], e.flag);
        hide Ready;
        ArgumentsStep(w.globals, i, w.pcs[i], e.err, e.flag, start);
      }
      ArgumentsFrom(Next(w, e), es[1..], i, start);
    }
  }

  lemma ArgumentsStep(g: Globals, i: nat, pc: Pc, err: Err, flag: bool, start: Pc)
    requires FromStart(start, pc) && !Returned(pc)
    requires start.ServeStart? || start.ShutdownStart? || start.RefreshStart?
    ensures FromStart(start, Act(g, i, pc, err, flag).pc)
  {
    hide BeginShutdown, SilenceHealth, FinishShutdown, ExitServe, ExitUnasked, ServeResult, RefreshHealth;
  }

  /** The step settles what the drain will report: the context is found expired, at the start, while the
      graceful stop goes on or after it has ended, or it is found still running after it has ended. */
  predicate Settles(w: World, e: Event) {
    && Enabled(w, e) && e.CallStep?
    && (var pc := w.pcs[e.call];
        (pc.CheckingContext? && e.flag) || (pc.Selecting? && !e.flag) || pc.Drained?)
  }

  predicate SettledPc(pc: Pc, err: Err) {
    pc == AwaitServe(err) || pc == Finishing(err) || pc == ShutdownDone(err) || (pc.AwaitGraceful? && err == ContextExpired)
  }

  /** The draining call will return err. */
  predicate Settled(w: World, err: Err) {
    && w.globals.stopper.Some? && w.globals.stopper.value < |w.pcs|
    && SettledPc(w.pcs[w.globals.stopper.value], err)
  }

  lemma SettledStays(w: World, e: Event, err: Err)
    requires Inv(w) && Enabled(w, e) && Settled(w, err)
    ensures Settled(Next(w, e), err)
  {
    if e.CallStep? {
      var g, i := w.globals, e.call;
      assert CallOk(g, i, w.pcs[i]);
      StopperIsFixed(g, Standing(w, g.server), Standing(w, g.stopper), i, w.pcs[i], e.err, e.flag);
      hide FieldsOk, CallOk, Act, Ready;
      if g.stopper == Some(i) {
        SettledStep(g, i, w.pcs[i], e.err, e.flag, err);
      }
    }
  }

  lemma StopperIsFixed(g: Globals, serving: Option<Pc>, draining: Option<Pc>, i: nat, pc: Pc, err: Err, flag: bool)
    requires StepOk(g, serving, draining, i, pc, flag) && g.stopper.Some?
    ensures Act(g, i, pc, err, flag).globals.stopper == g.stopper
  {
  }

  lemma SettledStep(g: Globals, i: nat, pc: Pc, libraryErr: Err, flag: bool, err: Err)
    requires SettledPc(pc, err)
    ensures SettledPc(Act(g, i, pc, libraryErr, flag).pc, err)
  {
  }

  lemma {:induction false} SettledRuns(w: World, es: seq<Event>, err: Err)
    requires Inv(w) && Runs(w, es) && Settled(w, err)
    ensures Settled(After(w, es), err) && Inv(After(w, es))
    decreases es
  {
    hide Inv, Next, Enabled, Settled;
    if es != [] {
      SettledStays(w, es[0], err);
      StepKeepsInv(w, es[0]);
      SettledRuns(Next(w, es[0]), es[1..], err);
    }
  }

  lemma SettlesForGood(w: World, e: Event)
    requires Inv(w) && Settles(w, e)
    ensures Settled(Next(w, e), if w.pcs[e.call].Drained? && !e.flag then NoError else ContextExpired)
  {
    assert CallOk(w.globals, e.call, w.pcs[e.call]);
  }

  /** An expiry that the drain sees is never lost: however the run goes on, every Shutdown that returns
      reports it, and if the drain ended in time every Shutdown returns nil. */
  lemma ExpiryIsReported(w: World, e: Event, es: seq<Event>, j: nat)
    requires Reachable(w) && Settles(w, e) && Runs(Next(w, e), es)
    requires j < |After(Next(w, e), es).pcs| && After(Next(w, e), es).pcs[j].ShutdownDone?
    ensures After(Next(w, e), es).pcs[j].result == if w.pcs[e.call].Drained? && !e.flag then NoError else ContextExpired
  {
    ReachableIsFine(w);
    var err := if w.pcs[e.call].Drained? && !e.flag then NoError else ContextExpired;
    SettlesForGood(w, e);
    StepKeepsInv(w, e);
    hide Next, Enabled, Settles;
    SettledRuns(Next(w, e), es, err);
    var last := After(Next(w, e), es);
    hide After, Runs;
    assert CallOk(last.globals, j, last.pcs[j]) && CallOk(last.globals, last.globals.stopper.value, last.pcs[last.globals.stopper.value]);
  }

  /** A refresh publishes the snapshot it took, unless the bridge was stopped in between, and touches
      nothing else. */
  lemma RefreshPublishesItsSnapshot(w: World, i: nat, err: Err, flag: bool)
    requires Enabled(w, CallStep(i, err, flag)) && RefreshCall(w.pcs[i])
    ensures var next := Next(w, CallStep(i, err, flag));
      && (w.pcs[i].RefreshStart? ==> next.globals == w.globals && next.pcs[i] == RefreshGot(flag))
      && (w.pcs[i].RefreshGot? ==>
            && next.pcs[i] == RefreshDone
            && next.globals == w.globals.(shared := w.globals.shared.(health := next.globals.shared.health))
            && next.globals.shared.health.stopped == w.globals.shared.health.stopped
            && (if w.globals.shared.health.stopped then next.globals.shared.health == w.globals.shared.health
                else next.globals.shared.health.status.SERVING? <==> w.pcs[i].ready))
  {
  }

  // ---------------------------------------------------------------- progress

  /** The call is a Shutdown that has not returned. */
  predicate PendingShutdown(pc: Pc) {
    !ServeCall(pc) && !RefreshCall(pc) && !Returned(pc)
  }

  /** An event that happens unless another one does: every enabled one, except that the library's
      Serve need not return before Stop was called or GracefulStop returned, and GracefulStop need
      not return before Stop was called. */
  predicate Forced(w: World, e: Event) {
    && Enabled(w, e)
    && (e.GracefulReturns? ==> w.globals.stopCalled)
    && (e.CallStep? && w.pcs[e.call].ServeRunning? ==> w.globals.stopCalled || w.globals.gracefulDone)
  }

  /** The library's Serve returns once the drain waits for it, so the drain goes on. */
  lemma DrainCanMove(w: World, i: nat)
    requires Inv(w) && i < |w.pcs| && Draining(w.pcs[i]) && w.globals.holder.None?
    ensures exists e :: Forced(w, e)
  {
    var g := w.globals;
    assert CallOk(g, i, w.pcs[i]);
    if w.pcs[i].AwaitServe? && !g.shared.serveDone.Closed? {
      var k := g.server.value;
      assert CallOk(g, k, w.pcs[k]);
      assert Forced(w, CallStep(k, NoError, false));
    } else if w.pcs[i].AwaitGraceful? && !g.gracefulDone {
      assert Forced(w, GracefulReturns);
    } else {
      assert Forced(w, CallStep(i, NoError, false));
    }
  }

  lemma HolderCanMove(w: World)
    requires Inv(w) && w.globals.holder.Some?
    ensures exists e :: Forced(w, e)
  {
    var k := w.globals.holder.value;
    assert CallOk(w.globals, k, w.pcs[k]);
    assert Forced(w, CallStep(k, NoError, false));
  }

  /** No reachable world holds up a Shutdown. */
  lemma PendingShutdownsAreNeverStuck(w: World, i: nat)
    requires Reachable(w) && i < |w.pcs| && PendingShutdown(w.pcs[i])
    ensures exists e :: Forced(w, e)
  {
    ReachableIsFine(w);
    var g := w.globals;
    assert CallOk(g, i, w.pcs[i]);
    if g.holder.Some? {
      HolderCanMove(w);
    } else if Draining(w.pcs[i]) {
      DrainCanMove(w, i);
    } else if w.pcs[i].Waiting? && !g.shared.shutdownDone.Closed? {
      DrainCanMove(w, g.stopper.value);
    } else {
      assert Forced(w, CallStep(i, NoError, false));
    }
  }

  /** How many steps a call can still take. */
  function StepsLeft(pc: Pc): nat {
    match pc
    case ServeStart(_) => 5
    case ServeEntered => 4
    case ServeRunning => 3
    case ServeReturned(_) => 2
    case ServeExitHolding(_) => 1
    case ShutdownStart(_) => 8
    case IdleHolding => 1
    case ServingHolding => 7
    case CheckingContext => 6
    case Selecting => 5
    case Drained => 4
    case AwaitGraceful => 4
    case AwaitServe(_) => 3
    case Finishing(_) => 2
    case Waiting => 2
    case ReadingResult => 1
    case RefreshStart => 2
    case RefreshGot(_) => 1
    case _ => 0
  }

  function TotalLeft(pcs: seq<Pc>): nat {
    if pcs == [] then 0 else StepsLeft(pcs[0]) + TotalLeft(pcs[1..])
  }

  function Budget(w: World): nat {
    TotalLeft(w.pcs) + if w.globals.gracefulDone then 0 else 1
  }

  lemma {:induction false} MovingOneCall(pcs: seq<Pc>, i: nat, pc: Pc)
    requires i < |pcs|
    ensures TotalLeft(pcs[i := pc]) == TotalLeft(pcs) - StepsLeft(pcs[i]) + StepsLeft(pc)
    decreases i
  {
    if i == 0 {
      assert pcs[i := pc][1..] == pcs[1..];
    } else {
      assert pcs[i := pc][1..] == pcs[1..][i - 1 := pc];
      MovingOneCall(pcs[1..], i - 1, pc);
    }
  }

  lemma ActsUseUpSteps(g: Globals, i: nat, pc: Pc, err: Err, flag: bool)
    requires !Returned(pc)
    ensures StepsLeft(Act(g, i, pc, err, flag).pc) < StepsLeft(pc)
    ensures g.gracefulDone ==> Act(g, i, pc, err, flag).globals.gracefulDone
  {
  }

  /** No run is longer than the budget of its first world, so every run ends. */
  lemma {:induction false} RunsAreBounded(w: World, es: seq<Event>)
    requires Runs(w, es)
    ensures |es| + Budget(After(w, es)) <= Budget(w)
    decreases es
  {
    if es == [] {
    } else {
      var e := es[0];
      if e.CallStep? {
        hide Act, Ready;
        ActsUseUpSteps(w.globals, e.call, w.pcs[e.call], e.err, e.flag);
        MovingOneCall(w.pcs, e.call, Act(w.globals, e.call, w.pcs[e.call], e.err, e.flag).pc);
      }
      RunsAreBounded(Next(w, e), es[1..]);
    }
  }

  /** A run that has gone as far as it must: every Shutdown has returned, all with one value, and if
      the server ever served and was shut down then its Serve has returned too. */
  lemma FinishedRunsAreComplete(w: World, i: nat)
    requires Reachable(w) && i < |w.pcs| && !(exists e :: Forced(w, e))
    ensures !PendingShutdown(w.pcs[i])
    ensures w.pcs[i].ShutdownDone? ==> w.pcs[i].result == w.globals.shared.shutdownErr
    ensures w.pcs[i].ShutdownDone? ==> forall k: nat | k < |w.pcs| && ServeCall(w.pcs[k]) :: Returned(w.pcs[k])
  {
    if PendingShutdown(w.pcs[i]) {
      PendingShutdownsAreNeverStuck(w, i);
    }
    ReachableIsFine(w);
    assert CallOk(w.globals, i, w.pcs[i]);
    if w.pcs[i].ShutdownDone? {
      if w.globals.holder.Some? {
        HolderCanMove(w);
      }
      forall k: nat | k < |w.pcs| && ServeCall(w.pcs[k])
        ensures Returned(w.pcs[k])
      {
        assert CallOk(w.globals, k, w.pcs[k]);
        assert !Forced(w, CallStep(k, NoError, false));
      }
    }
  }
}
