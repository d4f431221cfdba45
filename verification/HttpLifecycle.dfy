/** The single-use HTTP server lifecycle (pkg/api/httpserver/server.go).

    Each method of the class is one critical section under s.mu; what it does is stated by a function
    on Shared, and the transition system of HttpInterleavings runs the same functions. */
module HttpLifecycle {
  import opened Channels

  datatype LifecycleState = Idle | Starting | Serving | Stopping | Stopped

  /** Joined is errors.Join of two errors of which one at least is not nil, Wrapped is fmt.Errorf
      with %w. */
  datatype Err =
    | NoError
    | ContextExpired
    | ErrServerAlreadyServing
    | ErrServerStopped
    | ErrNilListener
    | ErrNilShutdownContext
    | ErrUnboundedShutdownContext
    | ErrNetClosed
    | ErrNotRunning
    | LibraryFailure
    | Wrapped(inner: Err)
    | Joined(first: Err, second: Err)

  /** errors.Is for the errors above. */
  predicate Is(err: Err, target: Err) {
    || err == target
    || (err.Wrapped? && Is(err.inner, target))
    || (err.Joined? && (Is(err.first, target) || Is(err.second, target)))
  }

  function Join(a: Err, b: Err): Err {
    if a.NoError? && b.NoError? then NoError else Joined(a, b)
  }

  /** Everything s.mu protects. panicked records a close of a nil or closed channel. */
  datatype Shared = Shared(
    state: LifecycleState, hasListener: bool, serveDone: Chan, shutdownDone: Chan, shutdownErr: Err, panicked: bool)

  const InitialShared := Shared(Idle, false, Nil, Nil, NoError, false)

  // ---------------------------------------------------------------- what each critical section does

  function CloseServeDone(s: Shared): Shared {
    if s.serveDone.Open? then s.(serveDone := Closed) else s.(panicked := true)
  }

  function CloseShutdownDone(s: Shared): Shared {
    if s.shutdownDone.Open? then s.(shutdownDone := Closed) else s.(panicked := true)
  }

  datatype EnterOutcome = Entered | AlreadyServing | Rejected

  function EnterServe(s: Shared): (Shared, EnterOutcome) {
    match s.state
    case Idle => (s.(state := Starting, hasListener := true, serveDone := Open, shutdownDone := Open), Entered)
    case Starting => (s, AlreadyServing)
    case Serving => (s, AlreadyServing)
    case Stopping => (s, Rejected)
    case Stopped => (s, Rejected)
  }

  /** What the library calls once, right before it starts to accept. */
  function BeforeServe(s: Shared): (Shared, Err) {
    match s.state
    case Starting => (s.(state := Serving), NoError)
    case Stopping => (s, ErrServerStopped)
    case Stopped => (s, ErrServerStopped)
    case _ => (s, Wrapped(ErrServerStopped))
  }

  function ExitServe(s: Shared): Shared {
    var closed := CloseServeDone(s.(hasListener := false));
    if s.state.Starting? || s.state.Serving? then CloseShutdownDone(closed.(state := Stopped)) else closed
  }

  /** What Serve returns, given whether its closing section saw the server going down. */
  function ServeResult(stopping: bool, err: Err): Err {
    if stopping && (err.NoError? || Is(err, ErrNetClosed) || Is(err, ErrServerStopped)) then NoError else err
  }

  datatype BeginOutcome = StoppedIdle | ReturnStored | WaitForDone | CloseListener | DrainApp

  function BeginShutdown(s: Shared): (Shared, BeginOutcome) {
    match s.state
    case Idle => (s.(state := Stopped), StoppedIdle)
    case Stopped => (s, ReturnStored)
    case Stopping => (s, WaitForDone)
    case Starting => (s.(state := Stopping), CloseListener)
    case Serving => (s.(state := Stopping), DrainApp)
  }

  /** What is kept of the error of listener.Close or of ShutdownWithContext. */
  function CloseResult(err: Err): Err {
    if Is(err, ErrNetClosed) then NoError else err
  }

  function DrainResult(err: Err): Err {
    if Is(err, ErrNotRunning) || Is(err, ErrNetClosed) then NoError else err
  }

  function FinishShutdown(s: Shared, err: Err): Shared {
    CloseShutdownDone(s.(shutdownErr := err, state := Stopped))
  }

  /** What holds of the protected fields between sections. A stopped server may still have its Serve
      call, and with it an open serveDone and a listener. */
  predicate SharedOk(s: Shared) {
    && !s.panicked
    && (s.hasListener <==> s.serveDone.Open?)
    && (match s.state
        case Idle => s.serveDone.Nil? && s.shutdownDone.Nil? && s.shutdownErr.NoError?
        case Starting => s.serveDone.Open? && s.shutdownDone.Open? && s.shutdownErr.NoError?
        case Serving => s.serveDone.Open? && s.shutdownDone.Open? && s.shutdownErr.NoError?
        case Stopping => !s.serveDone.Nil? && s.shutdownDone.Open? && s.shutdownErr.NoError?
        case Stopped =>
          || (s.serveDone.Nil? && s.shutdownDone.Nil? && s.shutdownErr.NoError?)
          || (!s.serveDone.Nil? && s.shutdownDone.Closed?))
  }

  lemma ExitKeepsSharedOk(s: Shared)
    requires SharedOk(s) && s.serveDone.Open?
    ensures SharedOk(ExitServe(s))
  {
  }

  // ---------------------------------------------------------------- the object

  class Server {
    var state: LifecycleState
    var hasListener: bool
    var serveDone: Chan
    var shutdownDone: Chan
    var shutdownErr: Err
    var panicked: bool

    constructor ()
      ensures Valid() && View() == InitialShared
    {
      state, hasListener, serveDone, shutdownDone := Idle, false, Nil, Nil;
      shutdownErr, panicked := NoError, false;
    }

    function View(): Shared
      reads this
    {
      Shared(state, hasListener, serveDone, shutdownDone, shutdownErr, panicked)
    }

    predicate Valid()
      reads this
    {
      SharedOk(View())
    }

    method CloseServe()
      modifies this
      ensures View() == CloseServeDone(old(View()))
    {
      if serveDone.Open? {
        serveDone := Closed;
      } else {
        panicked := true;
      }
    }

    method CloseShutdown()
      modifies this
      ensures View() == CloseShutdownDone(old(View()))
    {
      if shutdownDone.Open? {
        shutdownDone := Closed;
      } else {
        panicked := true;
      }
    }

    method ServeEnter() returns (outcome: EnterOutcome)
      requires Valid()
      modifies this
      ensures Valid()
      ensures (View(), outcome) == EnterServe(old(View()))
    {
      match state {
        case Idle =>
          state := Starting;
          hasListener := true;
          serveDone := Open;
          shutdownDone := Open;
          outcome := Entered;
        case Starting =>
          outcome := AlreadyServing;
        case Serving =>
          outcome := AlreadyServing;
        case Stopping =>
          outcome := Rejected;
        case Stopped =>
          outcome := Rejected;
      }
    }

    method BeforeServeFunc() returns (err: Err)
      requires Valid()
      modifies this
      ensures Valid()
      ensures (View(), err) == BeforeServe(old(View()))
    {
      match state {
        case Starting =>
          state := Serving;
          err := NoError;
        case Stopping =>
          err := ErrServerStopped;
        case Stopped =>
          err := ErrServerStopped;
        case _ =>
          err := Wrapped(ErrServerStopped);
      }
    }

    method ServeExit(err: Err) returns (result: Err)
      requires Valid() && serveDone.Open?
      modifies this
      ensures Valid()
      ensures View() == ExitServe(old(View()))
      ensures result == ServeResult(old(state).Stopping? || old(state).Stopped?, err)
    {
      ExitKeepsSharedOk(View());
      hide Is, CloseServeDone, CloseShutdownDone, SharedOk;
      var stopping := state.Stopping? || state.Stopped?;
      var up := state.Starting? || state.Serving?;
      hasListener := false;
      CloseServe();
      if up {
        state := Stopped;
        CloseShutdown();
      }
      result := if stopping && (err.NoError? || Is(err, ErrNetClosed) || Is(err, ErrServerStopped)) then NoError else err;
    }

    method ShutdownBegin() returns (outcome: BeginOutcome)
      requires Valid()
      modifies this
      ensures Valid()
      ensures (View(), outcome) == BeginShutdown(old(View()))
    {
      match state {
        case Idle =>
          state := Stopped;
          outcome := StoppedIdle;
        case Stopped =>
          outcome := ReturnStored;
        case Stopping =>
          outcome := WaitForDone;
        case Starting =>
          state := Stopping;
          outcome := CloseListener;
        case Serving =>
          state := Stopping;
          outcome := DrainApp;
      }
    }

    method ShutdownFinish(err: Err) returns (result: Err)
      requires Valid() && state.Stopping?
      modifies this
      ensures Valid()
      ensures View() == FinishShutdown(old(View()), err) && result == err
    {
      shutdownErr := err;
      state := Stopped;
      CloseShutdown();
      result := err;
    }
  }
}
