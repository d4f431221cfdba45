/** The single-use gRPC server lifecycle and its health bridge
    (pkg/api/grpcserver/server.go and pkg/api/grpcserver/health.go).

    The classes carry the fields of the source; each method is one critical section. What a section
    does is stated by a function on Shared, and the transition system of GrpcInterleavings runs the
    same functions in every interleaving of any number of callers. */
module GrpcLifecycle {

  import opened Channels

  datatype LifecycleState = Idle | Serving | Stopping | Stopped

  datatype Status = NOT_SERVING | SERVING

  /** LibraryServerStopped is the library's own error of that name; StoppedAndClose is ErrServerStopped
      joined with what closing the refused listener returned. */
  datatype Err =
    | NoError
    | ContextExpired
    | ErrServerAlreadyServing
    | ErrServerStopped
    | StoppedAndClose
    | LibraryServerStopped
    | ErrNetClosed
    | ErrNilListener
    | ErrNilShutdownContext
    | ErrUnboundedShutdownContext
    | LibraryFailure

  datatype Health = Health(stopped: bool, status: Status)

  /** Everything the mutexes protect. panicked records a close of a nil or closed channel. */
  datatype Shared = Shared(
    state: LifecycleState, hasListener: bool, serveDone: Chan, shutdownDone: Chan, shutdownErr: Err,
    health: Health, panicked: bool)

  const InitialShared := Shared(Idle, false, Nil, Nil, NoError, Health(false, NOT_SERVING), false)

  // ---------------------------------------------------------------- what each critical section does

  function CloseServeDone(s: Shared): Shared {
    if s.serveDone.Open? then s.(serveDone := Closed) else s.(panicked := true)
  }

  function CloseShutdownDone(s: Shared): Shared {
    if s.shutdownDone.Open? then s.(shutdownDone := Closed) else s.(panicked := true)
  }

  function RefreshHealth(h: Health, ready: bool): Health {
    if h.stopped then h else h.(status := if ready then SERVING else NOT_SERVING)
  }

  /** After the library's own shutdown the published status is NOT_SERVING. */
  function ShutdownHealth(h: Health): Health {
    if h.stopped then h else Health(true, NOT_SERVING)
  }

  datatype EnterOutcome = Entered | AlreadyServing | Rejected

  function EnterServe(s: Shared): (Shared, EnterOutcome) {
    match s.state
    case Idle => (s.(state := Serving, hasListener := true, serveDone := Open, shutdownDone := Open), Entered)
    case Serving => (s, AlreadyServing)
    case Stopping => (s, Rejected)
    case Stopped => (s, Rejected)
  }

  /** The first half of Serve's closing section, up to the test for stateServing. */
  function ExitServe(s: Shared): Shared {
    var closed := CloseServeDone(s.(hasListener := false));
    if s.state.Serving? then closed.(state := Stopped) else closed
  }

  /** The second half, taken only when Serve ended by itself. */
  function ExitUnasked(s: Shared): Shared {
    CloseShutdownDone(s.(health := ShutdownHealth(s.health)))
  }

  function ServeResult(stopping: bool, err: Err): Err {
    if stopping && (err.NoError? || err.LibraryServerStopped?) then NoError else err
  }

  /** What Serve returns to a caller that came too late, after closing its listener. */
  function RefusedResult(closeErr: Err): Err {
    if closeErr.NoError? || closeErr.ErrNetClosed? then ErrServerStopped else StoppedAndClose
  }

  datatype BeginOutcome = StoppedIdle | ReturnStored | WaitForDone | Drain

  /** Shutdown's section up to the call of health.shutdown, which StoppedIdle and Drain make next
      while still holding the mutex. */
  function BeginShutdown(s: Shared): (Shared, BeginOutcome) {
    match s.state
    case Idle => (s.(state := Stopped), StoppedIdle)
    case Stopped => (s, ReturnStored)
    case Stopping => (s, WaitForDone)
    case Serving => (s.(state := Stopping), Drain)
  }

  function SilenceHealth(s: Shared): Shared {
    s.(health := ShutdownHealth(s.health))
  }

  function FinishShutdown(s: Shared, err: Err): Shared {
    CloseShutdownDone(s.(shutdownErr := err, state := Stopped))
  }

  /** What holds of the protected fields whenever nobody is inside a section. */
  predicate SharedOk(s: Shared) {
    && !s.panicked
    && (s.hasListener <==> s.serveDone.Open?)
    && (s.health.stopped <==> s.state.Stopping? || s.state.Stopped?)
    && (s.health.stopped ==> s.health.status.NOT_SERVING?)
    && (match s.state
        case Idle => s.serveDone.Nil? && s.shutdownDone.Nil? && s.shutdownErr.NoError?
        case Serving => s.serveDone.Open? && s.shutdownDone.Open? && s.shutdownErr.NoError?
        case Stopping => !s.serveDone.Nil? && s.shutdownDone.Open? && s.shutdownErr.NoError?
        case Stopped =>
          || (s.serveDone.Nil? && s.shutdownDone.Nil? && s.shutdownErr.NoError?)
          || (s.serveDone.Closed? && s.shutdownDone.Closed?))
  }

  lemma ExitKeepsSharedOk(s: Shared)
    requires SharedOk(s) && s.serveDone.Open?
    ensures SharedOk(if s.state.Serving? then ExitUnasked(ExitServe(s)) else ExitServe(s))
  {
  }

  // ---------------------------------------------------------------- the objects

  class HealthBridge {
    var stopped: bool
    var status: Status

    constructor ()
      ensures Valid() && View() == Health(false, NOT_SERVING)
    {
      stopped, status := false, NOT_SERVING;
    }

    function View(): Health
      reads this
    {
      Health(stopped, status)
    }

    predicate Valid()
      reads this
    {
      stopped ==> status.NOT_SERVING?
    }

    /** The section under bridge.mu; ready is the snapshot taken before it, possibly stale. */
    method Refresh(ready: bool)
      requires Valid()
      modifies this
      ensures Valid() && stopped == old(stopped)
      ensures View() == RefreshHealth(old(View()), ready)
    {
      var next := NOT_SERVING;
      if ready {
        next := SERVING;
      }
      if stopped {
        return;
      }
      status := next;
    }

    method Shutdown()
      requires Valid()
      modifies this
      ensures Valid() && stopped
      ensures View() == ShutdownHealth(old(View()))
    {
      if stopped {
        return;
      }
      stopped := true;
      status := NOT_SERVING;
    }
  }

  class Server {
    const health: HealthBridge
    var state: LifecycleState
    var hasListener: bool
    var serveDone: Chan
    var shutdownDone: Chan
    var shutdownErr: Err
    var panicked: bool

    constructor ()
      ensures Valid() && View() == InitialShared && fresh(health)
    {
      health := new HealthBridge();
      state, hasListener, serveDone, shutdownDone := Idle, false, Nil, Nil;
      shutdownErr, panicked := NoError, false;
    }

    function View(): Shared
      reads this, health
    {
      Shared(state, hasListener, serveDone, shutdownDone, shutdownErr, health.View(), panicked)
    }

    predicate Valid()
      reads this, health
    {
      SharedOk(View())
    }

    /** RefreshHealth; ready is the snapshot it took before. */
    method Refresh(ready: bool)
      requires Valid()
      modifies health
      ensures Valid() && View() == old(View()).(health := RefreshHealth(old(View()).health, ready))
    {
      health.Refresh(ready);
    }

    method CloseServe()
      modifies this
      ensures View() == CloseServeDone(old(View()))
    {
      if serveDone.Open? {
        serveDone := Closed;
      } else {
        panicked := true;
      }
    }

    method CloseShutdown()
      modifies this
      ensures View() == CloseShutdownDone(old(View()))
    {
      if shutdownDone.Open? {
        shutdownDone := Closed;
      } else {
        panicked := true;
      }
    }

    method ServeEnter() returns (outcome: EnterOutcome)
      requires Valid()
      modifies this
      ensures Valid()
      ensures (View(), outcome) == EnterServe(old(View()))
    {
      match state {
        case Idle =>
          state := Serving;
          hasListener := true;
          serveDone := Open;
          shutdownDone := Open;
          outcome := Entered;
        case Serving =>
          outcome := AlreadyServing;
        case Stopping =>
          outcome := Rejected;
        case Stopped =>
          outcome := Rejected;
      }
    }

    method ServeExit(err: Err) returns (result: Err)
      requires Valid() && serveDone.Open?
      modifies this, health
      ensures Valid()
      ensures View() == if old(state).Serving? then ExitUnasked(ExitServe(old(View()))) else ExitServe(old(View()))
      ensures result == ServeResult(old(state).Stopping? || old(state).Stopped?, err)
    {
      ExitKeepsSharedOk(View());
      hide CloseServeDone, CloseShutdownDone, ShutdownHealth, SharedOk;
      var stopping, serving := state.Stopping? || state.Stopped?, state.Serving?;
      hasListener := false;
      CloseServe();
      if serving {
        state := Stopped;
        health.Shutdown();
        CloseShutdown();
      }
      result := if stopping && (err.NoError? || err.LibraryServerStopped?) then NoError else err;
    }

    method ShutdownBegin() returns (outcome: BeginOutcome)
      requires Valid()
      modifies this, health
      ensures Valid()
      ensures outcome == BeginShutdown(old(View())).1
      ensures View() == if outcome.StoppedIdle? || outcome.Drain? then SilenceHealth(BeginShutdown(old(View())).0) else old(View())
    {
      match state {
        case Idle =>
          state := Stopped;
          health.Shutdown();
          outcome := StoppedIdle;
        case Stopped =>
          outcome := ReturnStored;
        case Stopping =>
          outcome := WaitForDone;
        case Serving =>
          state := Stopping;
          health.Shutdown();
          outcome := Drain;
      }
    }

    method ShutdownFinish(err: Err) returns (result: Err)
      requires Valid() && state.Stopping? && serveDone.Closed?
      modifies this
      ensures Valid()
      ensures View() == FinishShutdown(old(View()), err) && result == err
    {
      shutdownErr := err;
      state := Stopped;
      CloseShutdown();
      result := err;
    }
  }
}
