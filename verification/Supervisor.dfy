/** The connect, listen and reconnect loop (src/client/io.rs) with its error and close-code policy. */
module Supervisor {
  import opened Bytes

  const PRODUCTIVE_SESSION_SECS := 60

  datatype Error =
    | Http | HttpStatus | WebSocket | Tls | TlsPinMismatch | Protocol | Auth | Crypto | Json | Io | Timeout
    | ConnectionLost
    | ReconnectExhausted | NoEventSlots | TooManyConnections | UserDisabled | NotLocal | HandlerPanic | StoppedError
    | InvalidUuid | NotConnected | Backpressure | ChannelClosed
  {
    predicate IsTerminal() { NotLocal? || UserDisabled? || HandlerPanic? }

    predicate NeedsLongBackoff() { NoEventSlots? || TooManyConnections? }

    /** The step is added to the message; what the supervisor dispatches on passes through. */
    function InStep(): (e: Error)
      ensures e.IsTerminal() == IsTerminal() && e.NeedsLongBackoff() == NeedsLongBackoff()
      ensures IsTerminal() || NeedsLongBackoff() ==> e == this
    {
      if IsTerminal() || NeedsLongBackoff() then this else Auth
    }
  }

  datatype Backoff = Normal | Long

  function BackoffForClose(code: Option<nat>): (b: Backoff)
  {
    if code == Some(4003) || code == Some(4007) || code == Some(4008) then Long else Normal
  }

  function TerminalClose(code: Option<nat>): (e: Option<Error>)
  {
    if code == Some(4006) then Some(UserDisabled) else None
  }

  predicate ShouldContinue(attempt: nat, maxAttempts: nat) { maxAttempts == 0 || attempt < maxAttempts }

  datatype ConnState = Closed | Connecting | Connected | Reconnecting

  datatype Lifecycle = ConnectedEvent | ReconnectedEvent | ConnectionClosedEvent(code: Option<nat>) | ClosedEvent

  datatype Outcome = Stopped | Disconnected(code: Option<nat>) | Failed(error: Error)

  /** What an observer sees of a run: state changes, callbacks, the one-shot `ready`, sessions and observed stops. */
  datatype Event =
    | StateSet(state: ConnState)
    | Emitted(event: Lifecycle, panics: bool)
    | Ready(ok: bool)
    | StopSeen
    | SessionStart
    | SessionEnd(outcome: Outcome, connectedFor: Option<nat>)
    | Waiting(backoff: Backoff)
    | HandlerPanicked
    | CloseMet(code: Option<nat>, connected: bool)

  /**
   * Why no session came about: a close frame during the handshake, at a step that is named or not, or any other error.
   */
  datatype Failure = Raised(cause: Error) | ClosedEarly(code: Option<nat>, named: bool) {
    /** A close frame becomes a plain error; its code is not looked at. */
    function Error(): (e: Error)
    {
      match this
      case Raised(e) => e
      case ClosedEarly(_, named) => if named then ConnectionLost.InStep() else ConnectionLost
    }
  }

  datatype ReadOutcome = CloseFrame(code: Option<nat>) | IdleTimeout | Broken(error: Error)

  /**
   * What the surroundings do during one session: it is refused before it is connected, or it runs. A panic of the
   * handler may be hidden behind another error, since the handshake ignores how killing a displaced token ends. A stop
   * may be requested while the session reads or while the writer is joined; the command channel may be lost with the
   * writer.
   */
  datatype Session =
    | NotMade(failure: Failure, swallowedPanic: bool)
    | Ran(panicOnConnect: bool, read: ReadOutcome, stopWhileReading: bool, stopWhileJoining: bool, rejoined: bool,
          seconds: nat)

  /** One iteration of the loop: when a stop is requested, what the session does, which callbacks panic. */
  datatype Round = Round(stopBefore: bool, session: Session, panicOnClose: bool, stopWhileWaiting: bool,
                         panicAtEnd: bool)

  /** The supervisor's variables; `ready` while the one-shot is unresolved, `channel` while the receiver is held. */
  datatype Sup = Sup(state: ConnState, ready: bool, attempt: nat, everConnected: bool, panicked: bool, stopped: bool,
                     channel: bool, done: bool, trace: seq<Event>)

  const START := Sup(Closed, true, 0, false, false, false, true, false, [])

  function Note(s: Sup, e: Event): (t: Sup) { s.(trace := s.trace + [e]) }

  function SetState(s: Sup, state: ConnState): (t: Sup) { Note(s.(state := state), StateSet(state)) }

  function Emit(s: Sup, event: Lifecycle, panics: bool): (t: Sup)
  {
    Note(s.(panicked := s.panicked || panics), Emitted(event, panics))
  }

  /** A callback inside a message panicked; the flag is never reset. */
  function Panic(s: Sup, panics: bool): (t: Sup) { if panics then Note(s.(panicked := true), HandlerPanicked) else s }

  /** A close frame arrives, during the handshake or once connected. */
  function Heard(s: Sup, code: Option<nat>, connected: bool): (t: Sup) { Note(s, CloseMet(code, connected)) }

  function Resolve(s: Sup, ok: bool): (t: Sup) { if s.ready then Note(s.(ready := false), Ready(ok)) else s }

  /** Loading the stop flag, which may have been set meanwhile and is never reset. */
  function LoadStop(s: Sup, requested: bool): (t: Sup)
  {
    if s.stopped || requested then Note(s.(stopped := true), StopSeen) else s
  }

  /** `finish`. */
  function Finish(s: Sup, panics: bool): (t: Sup)
  {
    Emit(Resolve(SetState(s, Closed), false), ClosedEvent, panics).(done := true)
  }

  /** How a wait ends the run: the state and the last event, with `ready` resolved long before. */
  function GiveUp(s: Sup, panics: bool): (t: Sup) { Emit(SetState(s, Closed), ClosedEvent, panics).(done := true) }

  datatype Result = Result(sup: Sup, outcome: Outcome, connectedFor: Option<nat>)

  /** A session is up: state, event and `ready`, in this order. */
  function Opened(s: Sup, panics: bool): (t: Sup)
  {
    Resolve(Emit(SetState(s, Connected), if s.everConnected then ReconnectedEvent else ConnectedEvent, panics), true)
  }

  /** The read loop returned: the state leaves Connected unless a stop was requested, then the writer is joined. */
  function WoundUp(s: Sup, session: Session): (t: Sup)
    requires session.Ran?
  {
    var s := if session.read.CloseFrame? then Heard(s, session.read.code, true) else s;
    var s := LoadStop(Panic(s, session.read == Broken(HandlerPanic)), session.stopWhileReading);
    var s := if s.stopped then s else SetState(s, Reconnecting);
    LoadStop(s.(channel := session.rejoined), session.stopWhileJoining)
  }

  /** The state-setting skeleton of `session_once`. */
  function SessionOnce(s: Sup, session: Session): (r: Result)
  {
    match session
    case NotMade(failure, swallowedPanic) =>
      var s := if failure.ClosedEarly? then Heard(s, failure.code, false) else s;
      Result(Panic(s, failure.Error().HandlerPanic? || swallowedPanic), Failed(failure.Error()), None)
    case Ran(panicOnConnect, read, _, _, _, seconds) =>
      var s := WoundUp(Opened(s, panicOnConnect), session);
      var outcome := if s.stopped then Stopped
                     else match read
                          case CloseFrame(code) => Disconnected(code)
                          case IdleTimeout => Failed(Timeout)
                          case Broken(e) => Failed(e);
      Result(s, outcome, Some(seconds))
  }

  /** `wait_reconnect`; `done` when it gives up. */
  function WaitReconnect(maxAttempts: nat, s: Sup, backoff: Backoff, r: Round): (t: Sup)
  {
    if !ShouldContinue(s.attempt, maxAttempts) then GiveUp(s, r.panicAtEnd)
    else
      var s := SetState(Note(s.(attempt := s.attempt + 1), Waiting(backoff)), Reconnecting);
      var s := LoadStop(s, r.stopWhileWaiting);
      if s.stopped then GiveUp(s, r.panicAtEnd) else s
  }

  /** The bookkeeping after a session: a connected one is remembered, a productive one clears the attempts. */
  function AfterSession(s: Sup, connectedFor: Option<nat>): (t: Sup)
  {
    if connectedFor.None? then s
    else s.(everConnected := true, attempt := if connectedFor.value >= PRODUCTIVE_SESSION_SECS then 0 else s.attempt)
  }

  /** The reaction to a session's outcome. */
  function React(maxAttempts: nat, s: Sup, outcome: Outcome, r: Round): (t: Sup)
  {
    match outcome
    case Stopped => Finish(s, r.panicAtEnd)
    case Disconnected(code) =>
      var s := Emit(s, ConnectionClosedEvent(code), r.panicOnClose);
      if TerminalClose(code).Some? then Finish(s, r.panicAtEnd)
      else WaitReconnect(maxAttempts, s, BackoffForClose(code), r)
    case Failed(e) =>
      if e.IsTerminal() || !s.everConnected then Finish(s, r.panicAtEnd)
      else WaitReconnect(maxAttempts, s, if e.NeedsLongBackoff() then Long else Normal, r)
  }

  /** One iteration of the loop of `run_supervisor`. */
  function Iterate(maxAttempts: nat, s: Sup, r: Round): (t: Sup)
  {
    var s := LoadStop(s, r.stopBefore);
    if s.stopped || s.panicked then Finish(s, r.panicAtEnd)
    else
      var s := SetState(s, if s.everConnected then Reconnecting else Connecting);
      if !s.channel then Finish(s, r.panicAtEnd)
      else
        var result := SessionOnce(Note(s, SessionStart), r.session);
        var s := Note(result.sup, SessionEnd(result.outcome, result.connectedFor));
        React(maxAttempts, AfterSession(s, result.connectedFor), result.outcome, r)
  }

  /** A run over the rounds its surroundings offer; it may fail at setup, and rounds after its end are not played. */
  function Run(maxAttempts: nat, setup: bool, rounds: seq<Round>): (s: Sup)
  {
    if rounds == [] then (if setup then START else Finish(START, false))
    else
      var s := Run(maxAttempts, setup, rounds[..|rounds| - 1]);
      if s.done then s else Iterate(maxAttempts, s, rounds[|rounds| - 1])
  }

  /** A run that has ended stays as it is. */
  lemma {:induction false} RunStays(maxAttempts: nat, setup: bool, rounds: seq<Round>, i: nat)
    requires i <= |rounds| && Run(maxAttempts, setup, rounds[..i]).done
    ensures Run(maxAttempts, setup, rounds) == Run(maxAttempts, setup, rounds[..i])
    decreases |rounds| - i
  {
    hide Iterate, Finish;
    if i < |rounds| {
      assert rounds[..i + 1][..i] == rounds[..i];
      RunStays(maxAttempts, setup, rounds, i + 1);
    } else {
      assert rounds[..i] == rounds;
    }
  }

  /** The supervisor task: its local variables and the shared cells it writes. */
  class SupervisorTask {
    var state: ConnState
    var ready: bool
    var attempt: nat
    var everConnected: bool
    var panicked: bool
    var stopped: bool
    var channel: bool
    var done: bool
    var trace: seq<Event>

    function View(): (s: Sup)
      reads this
    {
      Sup(state, ready, attempt, everConnected, panicked, stopped, channel, done, trace)
    }

    constructor ()
      ensures View() == START
    {
      state, ready, attempt, everConnected := Closed, true, 0, false;
      panicked, stopped, channel, done, trace := false, false, true, false, [];
    }

    method ChangeState(to: ConnState)
      modifies this
      ensures View() == SetState(old(View()), to)
    {
      state := to;
      trace := trace + [StateSet(to)];
    }

    method DeliverLifecycle(event: Lifecycle, panics: bool)
      modifies this
      ensures View() == Emit(old(View()), event, panics)
    {
      if panics {
        panicked := true;
      }
      trace := trace + [Emitted(event, panics)];
    }

    method SignalReady(ok: bool)
      modifies this
      ensures View() == Resolve(old(View()), ok)
    {
      if ready {
        ready := false;
        trace := trace + [Ready(ok)];
      }
    }

    method StopRequested(requested: bool) returns (stop: bool)
      modifies this
      ensures View() == LoadStop(old(View()), requested) && stop == stopped
    {
      stop := stopped || requested;
      if stop {
        stopped := true;
        trace := trace + [StopSeen];
      }
    }

    method FinishRun(panics: bool)
      modifies this
      ensures View() == Finish(old(View()), panics)
    {
      hide Emit, Resolve, SetState;
      ChangeState(Closed);
      SignalReady(false);
      DeliverLifecycle(ClosedEvent, panics);
      done := true;
    }

    /** The end of `session_once`: the read loop returned and the writer is joined. */
    method WindUp(session: Session)
      requires session.Ran?
      modifies this
      ensures View() == WoundUp(old(View()), session)
    {
      hide LoadStop, SetState;
      if session.read.CloseFrame? {
        trace := trace + [CloseMet(session.read.code, true)];
      }
      if session.read == Broken(HandlerPanic) {
        panicked, trace := true, trace + [HandlerPanicked];
      }
      var stop := StopRequested(session.stopWhileReading);
      assert View().stopped == stop;
      if !stop {
        ChangeState(Reconnecting);
      }
      channel := session.rejoined;
      var _ := StopRequested(session.stopWhileJoining);
    }

    /** `session_once`. */
    method RunSession(session: Session) returns (outcome: Outcome, connectedFor: Option<nat>)
      modifies this
      ensures Result(View(), outcome, connectedFor) == SessionOnce(old(View()), session)
    {
      hide Emit, Resolve, SetState, LoadStop, Error.InStep;
      match session {
        case NotMade(failure, swallowedPanic) =>
          if failure.ClosedEarly? {
            trace := trace + [CloseMet(failure.code, false)];
          }
          if failure.Error().HandlerPanic? || swallowedPanic {
            panicked, trace := true, trace + [HandlerPanicked];
          }
          outcome, connectedFor := Failed(failure.Error()), None;
        case Ran(panicOnConnect, read, _, _, _, seconds) =>
          var event := if everConnected then ReconnectedEvent else ConnectedEvent;
          ChangeState(Connected);
          DeliverLifecycle(event, panicOnConnect);
          SignalReady(true);
          assert View() == Opened(old(View()), panicOnConnect);
          WindUp(session);
          connectedFor := Some(seconds);
          if stopped {
            outcome := Stopped;
          } else {
            outcome := match read
              case CloseFrame(code) => Disconnected(code)
              case IdleTimeout => Failed(Timeout)
              case Broken(e) => Failed(e);
          }
          assert View().stopped == stopped;
      }
    }

    /** How a wait ends the run. */
    method AbandonWait(panics: bool)
      modifies this
      ensures View() == GiveUp(old(View()), panics)
    {
      hide Emit, SetState;
      ChangeState(Closed);
      DeliverLifecycle(ClosedEvent, panics);
      done := true;
    }

    method CountAttempt(backoff: Backoff)
      modifies this
      ensures View() == Note(old(View()).(attempt := old(View()).attempt + 1), Waiting(backoff))
    {
      attempt, trace := attempt + 1, trace + [Waiting(backoff)];
    }

    /** `wait_reconnect`. */
    method Wait(maxAttempts: nat, backoff: Backoff, r: Round)
      modifies this
      ensures View() == WaitReconnect(maxAttempts, old(View()), backoff, r)
    {
      hide SetState, Note, LoadStop, GiveUp;
      assert View().attempt == attempt;
      if !ShouldContinue(attempt, maxAttempts) {
        AbandonWait(r.panicAtEnd);
        return;
      }
      CountAttempt(backoff);
      ChangeState(Reconnecting);
      var stop := StopRequested(r.stopWhileWaiting);
      assert View().stopped == stop;
      if stop {
        AbandonWait(r.panicAtEnd);
      }
    }

    /** The match on a session's outcome. */
    method HandleOutcome(maxAttempts: nat, outcome: Outcome, r: Round)
      modifies this
      ensures View() == React(maxAttempts, old(View()), outcome, r)
    {
      hide WaitReconnect, Finish;
      match outcome {
        case Stopped => FinishRun(r.panicAtEnd);
        case Disconnected(code) =>
          DeliverLifecycle(ConnectionClosedEvent(code), r.panicOnClose);
          if TerminalClose(code).Some? {
            FinishRun(r.panicAtEnd);
          } else {
            Wait(maxAttempts, BackoffForClose(code), r);
          }
        case Failed(e) =>
          if e.IsTerminal() || !everConnected {
            FinishRun(r.panicAtEnd);
          } else {
            Wait(maxAttempts, if e.NeedsLongBackoff() then Long else Normal, r);
          }
      }
    }

    /** One iteration of the loop. */
    method PlayRound(maxAttempts: nat, r: Round)
      modifies this
      ensures View() == Iterate(maxAttempts, old(View()), r)
    {
      hide Finish, SessionOnce, React, SetState, LoadStop;
      var stop := StopRequested(r.stopBefore);
      assert View().stopped == stop && View().panicked == panicked;
      if stop || panicked {
        FinishRun(r.panicAtEnd);
        return;
      }
      assert View().everConnected == everConnected;
      ChangeState(if everConnected then Reconnecting else Connecting);
      assert View().channel == channel;
      if !channel {
        FinishRun(r.panicAtEnd);
        return;
      }
      ghost var before := View();
      trace := trace + [SessionStart];
      assert View() == Note(before, SessionStart);
      var outcome, connectedFor := RunSession(r.session);
      before := View();
      trace := trace + [SessionEnd(outcome, connectedFor)];
      assert View() == Note(before, SessionEnd(outcome, connectedFor));
      if connectedFor.Some? {
        everConnected := true;
        if connectedFor.value >= PRODUCTIVE_SESSION_SECS {
          attempt := 0;
        }
      }
      assert View() == AfterSession(Note(before, SessionEnd(outcome, connectedFor)), connectedFor);
      hide Note, AfterSession;
      HandleOutcome(maxAttempts, outcome, r);
    }

    /** `run_supervisor`: iterations of the loop until one of them returns. */
    method RunSupervisor(maxAttempts: nat, setup: bool, rounds: seq<Round>)
      requires View() == START
      modifies this
      ensures View() == Run(maxAttempts, setup, rounds)
      ensures done ==> state == Closed && Count(trace, IsReady) == 1
      ensures forall i | 0 <= i < |trace| :: Is(trace[i], IsClosed) ==> done && i == |trace| - 1
      ensures forall i, j | 0 <= i < j < |trace| && Fatal(trace[i]) :: trace[j] != SessionStart
      ensures maxAttempts > 0 ==> Count(trace, IsStart) <= 1 + maxAttempts * (Count(trace, IsProductive) + 1)
    {
      hide Iterate, Finish, Count, Fatal, Is;
      if !setup {
        FinishRun(false);
      }
      var i := 0;
      while i < |rounds| && !done
        invariant i <= |rounds| && View() == Run(maxAttempts, setup, rounds[..i])
      {
        assert rounds[..i + 1][..i] == rounds[..i];
        PlayRound(maxAttempts, rounds[i]);
        i := i + 1;
      }
      if done {
        RunStays(maxAttempts, setup, rounds, i);
      } else {
        assert rounds[..i] == rounds;
      }
      Promises(maxAttempts, setup, rounds);
    }
  }

  // What a trace must look like.

  /** No session may follow: a callback panicked, or the session ended with something reconnecting cannot change. */
  predicate Fatal(e: Event) {
    match e
    case Emitted(_, panics) => panics
    case HandlerPanicked => true
    case CloseMet(code, connected) => connected && TerminalClose(code).Some?
    case SessionEnd(Failed(error), _) => error.IsTerminal()
    case SessionEnd(Disconnected(code), _) => TerminalClose(code).Some?
    case _ => false
  }

  predicate Productive(e: Event) {
    e.SessionEnd? && e.connectedFor.Some? && e.connectedFor.value >= PRODUCTIVE_SESSION_SECS
  }

  /** What an observer remembers of a trace, and whether every event so far was allowed. */
  datatype Observer = Observer(state: ConnState, readies: nat, connects: nat, closed: bool, inSession: bool, up: bool,
                               stop: bool, fatal: bool, starts: nat, productive: nat, lawful: bool)

  const FRESH := Observer(Closed, 0, 0, false, false, false, false, false, 0, 0, true)

  /** Whether an event is allowed: nothing follows `Closed`, and each kind has its own condition. */
  predicate Allowed(o: Observer, e: Event) {
    && !o.closed
    && match e
       case StateSet(state) => state == Connected ==> o.inSession
       case Emitted(ConnectedEvent, _) => o.inSession && o.connects == 0
       case Emitted(ReconnectedEvent, _) => o.inSession && o.connects > 0
       case Emitted(ClosedEvent, _) => o.state == Closed && o.readies == 1 && !o.inSession
       case Ready(_) => o.readies == 0
       case SessionStart => !o.inSession && !o.fatal && o.state != Connected
       case SessionEnd(_, _) => o.inSession && (o.state == Connected ==> o.stop)
       case CloseMet(_, connected) => o.inSession && connected == o.up
       case _ => true
  }

  function One(b: bool): (n: nat) { if b then 1 else 0 }

  function Watch(o: Observer, e: Event): (r: Observer)
  {
    var connected := e.Emitted? && e.event.ConnectedEvent?;
    var reconnected := e.Emitted? && e.event.ReconnectedEvent?;
    var bound := e.SessionStart? || e.SessionEnd?;
    Observer(if e.StateSet? then e.state else o.state,
             o.readies + One(e.Ready?),
             o.connects + One(connected),
             o.closed || (e.Emitted? && e.event.ClosedEvent?),
             if bound then e.SessionStart? else o.inSession,
             !bound && (o.up || connected || reconnected),
             o.stop || e.StopSeen?,
             o.fatal || Fatal(e),
             o.starts + One(e.SessionStart?),
             o.productive + One(Productive(e)),
             o.lawful && Allowed(o, e))
  }

  function Observe(trace: seq<Event>): (o: Observer)
  {
    if trace == [] then FRESH else Watch(Observe(trace[..|trace| - 1]), trace[|trace| - 1])
  }

  lemma Noted(s: Sup, e: Event)
    ensures Observe(Note(s, e).trace) == Watch(Observe(s.trace), e)
  {
  }

  /** The observer's view agrees with the supervisor's variables. */
  predicate Tracks(s: Sup) {
    var o := Observe(s.trace);
    && o.lawful && o.closed == s.done && o.state == s.state && o.stop == s.stopped
    && o.readies == (if s.ready then 0 else 1)
    && (s.everConnected ==> !s.ready)
  }

  /** At the head of the loop. */
  predicate AtHead(s: Sup) {
    var o := Observe(s.trace);
    && Tracks(s) && !s.done && !o.inSession && s.state != Connected
    && o.connects == (if s.everConnected then 1 else 0)
    && (o.fatal ==> s.panicked)
  }

  predicate AtEnd(s: Sup) { Tracks(s) && s.done && s.state == Closed && !s.ready }

  lemma SetStateTracks(s: Sup, state: ConnState)
    requires Tracks(s) && !s.done && (state == Connected ==> Observe(s.trace).inSession)
    ensures Tracks(SetState(s, state))
    ensures Observe(SetState(s, state).trace) == Observe(s.trace).(state := state)
  {
    hide Observe;
    Noted(s.(state := state), StateSet(state));
  }

  lemma ResolveTracks(s: Sup, ok: bool)
    requires Tracks(s) && !s.done
    ensures Tracks(Resolve(s, ok)) && Observe(Resolve(s, ok).trace) == Observe(s.trace).(readies := 1)
  {
    hide Observe;
    Noted(s.(ready := false), Ready(ok));
  }

  lemma LoadStopTracks(s: Sup, requested: bool)
    requires Tracks(s) && !s.done
    ensures Tracks(LoadStop(s, requested))
    ensures Observe(LoadStop(s, requested).trace) == Observe(s.trace).(stop := s.stopped || requested)
  {
    hide Observe;
    Noted(s.(stopped := true), StopSeen);
  }

  /** Both ways to end: `ready` is resolved by then. */
  lemma EndTracks(s: Sup, panics: bool)
    requires Tracks(s) && !s.done && !Observe(s.trace).inSession
    ensures AtEnd(Finish(s, panics)) && Observe(Finish(s, panics).trace).starts == Observe(s.trace).starts
    ensures Observe(Finish(s, panics).trace).productive == Observe(s.trace).productive
    ensures !s.ready ==> Finish(s, panics) == GiveUp(s, panics)
  {
    hide Observe;
    SetStateTracks(s, Closed);
    ResolveTracks(SetState(s, Closed), false);
    var t := Resolve(SetState(s, Closed), false);
    Noted(t.(panicked := t.panicked || panics), Emitted(ClosedEvent, panics));
  }

  lemma EmitTracks(s: Sup, event: Lifecycle, panics: bool)
    requires Tracks(s) && !event.ClosedEvent? && Allowed(Observe(s.trace), Emitted(event, panics))
    ensures Tracks(Emit(s, event, panics))
    ensures Observe(Emit(s, event, panics).trace)
         == Observe(s.trace).(fatal := Observe(s.trace).fatal || panics,
                              connects := Observe(s.trace).connects + (if event.ConnectedEvent? then 1 else 0),
                              up := Observe(s.trace).up || event.ConnectedEvent? || event.ReconnectedEvent?)
  {
    hide Observe;
    Noted(s.(panicked := s.panicked || panics), Emitted(event, panics));
  }

  lemma PanicTracks(s: Sup, panics: bool)
    requires Tracks(s) && !s.done
    ensures Tracks(Panic(s, panics))
    ensures Observe(Panic(s, panics).trace) == Observe(s.trace).(fatal := Observe(s.trace).fatal || panics)
  {
    hide Observe;
    Noted(s.(panicked := true), HandlerPanicked);
  }

  lemma HeardTracks(s: Sup, code: Option<nat>, connected: bool)
    requires Tracks(s) && !s.done && Observe(s.trace).inSession && Observe(s.trace).up == connected
    ensures Tracks(Heard(s, code, connected))
    ensures Observe(Heard(s, code, connected).trace)
         == Observe(s.trace).(fatal := Observe(s.trace).fatal || (connected && code == Some(4006)))
  {
    hide Observe;
    Noted(s, CloseMet(code, connected));
  }

  /** What holds between the start and the end of a session; `last` when a terminal close was read. */
  predicate Within(s: Sup, before: Sup, last: bool) {
    var o, was := Observe(s.trace), Observe(before.trace);
    && Tracks(s) && !s.done && o.inSession && (o.fatal ==> s.panicked || last)
    && o.starts == was.starts && o.productive == was.productive
    && s.attempt == before.attempt && s.everConnected == before.everConnected
  }

  lemma OpenedTracks(s: Sup, panics: bool)
    requires Within(s, s, false) && Observe(s.trace).connects == (if s.everConnected then 1 else 0)
    ensures var t := Opened(s, panics);
            Within(t, s, false) && !t.ready && Observe(t.trace).connects == 1 && Observe(t.trace).up
  {
    hide Observe;
    SetStateTracks(s, Connected);
    var s1 := SetState(s, Connected);
    var event := if s.everConnected then ReconnectedEvent else ConnectedEvent;
    EmitTracks(s1, event, panics);
    ResolveTracks(Emit(s1, event, panics), true);
  }

  lemma WoundUpTracks(s: Sup, session: Session)
    requires session.Ran? && Within(s, s, false) && Observe(s.trace).up
    ensures var t := WoundUp(s, session);
            && Within(t, s, session.read == CloseFrame(Some(4006)))
            && t.ready == s.ready && Observe(t.trace).connects == Observe(s.trace).connects
            && (t.state == Connected ==> t.stopped)
  {
    hide Observe, Allowed, Fatal, Productive, Watch;
    var last := session.read == CloseFrame(Some(4006));
    if session.read.CloseFrame? {
      HeardTracks(s, session.read.code, true);
    }
    var s1 := if session.read.CloseFrame? then Heard(s, session.read.code, true) else s;
    assert Within(s1, s, last) && s1.ready == s.ready && Observe(s1.trace).connects == Observe(s.trace).connects;
    hide Heard, LoadStop, SetState, Panic, Within;
    WithinSelf(s, s1, last);
    ReadTracks(s1, session, last);
    WithinChain(s, s1, WoundUp(s, session), last);
  }

  lemma SeenTracks(s: Sup, panics: bool, stops: bool, last: bool)
    requires Within(s, s, last)
    ensures var t := LoadStop(Panic(s, panics), stops);
            Within(t, s, last) && t.ready == s.ready && Observe(t.trace).connects == Observe(s.trace).connects
  {
    hide Observe, Allowed, Fatal, Productive, Watch;
    PanicTracks(s, panics);
    LoadStopTracks(Panic(s, panics), stops);
  }

  lemma WithinChain(s: Sup, t: Sup, u: Sup, last: bool)
    requires Within(t, s, last) && Within(u, t, last)
    ensures Within(u, s, last)
  {
    hide Observe, Tracks;
  }

  lemma WithinSelf(s: Sup, t: Sup, last: bool)
    requires Within(t, s, last)
    ensures Within(t, t, last)
  {
    hide Observe, Tracks;
  }

  /** A panic and a stop are noticed. */
  lemma ReadTracks(s: Sup, session: Session, last: bool)
    requires session.Ran? && Within(s, s, last)
    ensures var seen := LoadStop(Panic(s, session.read == Broken(HandlerPanic)), session.stopWhileReading);
            var left := if seen.stopped then seen else SetState(seen, Reconnecting);
            var t := LoadStop(left.(channel := session.rejoined), session.stopWhileJoining);
            && Within(t, s, last) && t.ready == s.ready && Observe(t.trace).connects == Observe(s.trace).connects
            && (t.state == Connected ==> t.stopped)
  {
    hide Observe, LoadStop, SetState, Panic, Within;
    SeenTracks(s, session.read == Broken(HandlerPanic), session.stopWhileReading, last);
    var seen := LoadStop(Panic(s, session.read == Broken(HandlerPanic)), session.stopWhileReading);
    WithinSelf(s, seen, last);
    LeftTracks(seen, session, last);
    var left := if seen.stopped then seen else SetState(seen, Reconnecting);
    WithinChain(s, seen, LoadStop(left.(channel := session.rejoined), session.stopWhileJoining), last);
  }

  /** Leaving Connected, and joining the writer. */
  lemma LeftTracks(s: Sup, session: Session, last: bool)
    requires session.Ran? && Within(s, s, last)
    ensures var left := if s.stopped then s else SetState(s, Reconnecting);
            var t := LoadStop(left.(channel := session.rejoined), session.stopWhileJoining);
            && Within(t, s, last) && t.ready == s.ready && Observe(t.trace).connects == Observe(s.trace).connects
            && (t.state == Connected ==> t.stopped)
  {
    hide Observe, Allowed, Fatal, Productive, Watch;
    if !s.stopped {
      SetStateTracks(s, Reconnecting);
    }
    var left := if s.stopped then s else SetState(s, Reconnecting);
    LoadStopTracks(left.(channel := session.rejoined), session.stopWhileJoining);
  }

  /** `session_once`: afterwards the state is Connected only if a stop was seen, and then the outcome is a stop. */
  lemma SessionTracks(s: Sup, session: Session)
    requires Within(s, s, false) && s.state != Connected && !Observe(s.trace).up
    requires Observe(s.trace).connects == (if s.everConnected then 1 else 0)
    ensures var r := SessionOnce(s, session);
            && Within(r.sup, s, r.outcome.Stopped? || r.outcome == Disconnected(Some(4006)))
            && (r.sup.state == Connected ==> r.sup.stopped && r.outcome.Stopped?)
            && (r.outcome.Disconnected? ==> r.connectedFor.Some?)
            && (r.connectedFor.Some? ==> !r.sup.ready)
            && Observe(r.sup.trace).connects == (if s.everConnected || r.connectedFor.Some? then 1 else 0)
  {
    hide Observe, Opened, WoundUp, Error.InStep;
    match session
    case NotMade(failure, swallowedPanic) =>
      if failure.ClosedEarly? {
        HeardTracks(s, failure.code, false);
        PanicTracks(Heard(s, failure.code, false), failure.Error().HandlerPanic? || swallowedPanic);
      } else {
        PanicTracks(s, failure.Error().HandlerPanic? || swallowedPanic);
      }
    case Ran(panicOnConnect, _, _, _, _, _) =>
      OpenedTracks(s, panicOnConnect);
      WoundUpTracks(Opened(s, panicOnConnect), session);
  }

  /** Sessions started so far, against the attempts spent and the productive sessions that refunded them. */
  predicate Budget(maxAttempts: nat, s: Sup, extra: nat) {
    maxAttempts > 0 ==>
      && s.attempt <= maxAttempts
      && Observe(s.trace).starts <= maxAttempts * Observe(s.trace).productive + s.attempt + extra
  }

  lemma EndInBudget(maxAttempts: nat, s: Sup, panics: bool)
    requires Tracks(s) && !s.done && !Observe(s.trace).inSession && Budget(maxAttempts, s, 1)
    ensures AtEnd(Finish(s, panics)) && Budget(maxAttempts, Finish(s, panics), 1)
  {
    hide Observe, Tracks, AtEnd;
    EndTracks(s, panics);
  }

  lemma EndIsDone(s: Sup, panics: bool)
    ensures Finish(s, panics).done
  {
  }

  lemma WaitTracks(maxAttempts: nat, s: Sup, backoff: Backoff, r: Round)
    requires Tracks(s) && !s.done && !s.ready && s.everConnected && s.state != Connected
    requires var o := Observe(s.trace); !o.inSession && o.connects == 1 && (o.fatal ==> s.panicked)
    requires Budget(maxAttempts, s, 1)
    ensures var t := WaitReconnect(maxAttempts, s, backoff, r);
            if t.done then AtEnd(t) && Budget(maxAttempts, t, 1)
            else AtHead(t) && Budget(maxAttempts, t, 0) && Observe(t.trace).starts == Observe(s.trace).starts
  {
    hide Observe, Finish, GiveUp, AtEnd;
    if ShouldContinue(s.attempt, maxAttempts) {
      var s1 := s.(attempt := s.attempt + 1);
      Noted(s1, Waiting(backoff));
      var s2 := Note(s1, Waiting(backoff));
      SetStateTracks(s2, Reconnecting);
      var s3 := SetState(s2, Reconnecting);
      LoadStopTracks(s3, r.stopWhileWaiting);
      var s4 := LoadStop(s3, r.stopWhileWaiting);
      EndTracks(s4, r.panicAtEnd);
      EndInBudget(maxAttempts, s4, r.panicAtEnd);
      EndIsDone(s4, r.panicAtEnd);
    } else {
      EndTracks(s, r.panicAtEnd);
      EndInBudget(maxAttempts, s, r.panicAtEnd);
      EndIsDone(s, r.panicAtEnd);
    }
  }

  /** What holds when the loop reacts to a session's outcome. */
  predicate Reacting(s: Sup, outcome: Outcome) {
    var o := Observe(s.trace);
    && Tracks(s) && !s.done && !o.inSession && o.connects == (if s.everConnected then 1 else 0)
    && (o.fatal ==> s.panicked || outcome.Stopped? || Fatal(SessionEnd(outcome, None)))
    && (!outcome.Stopped? ==> s.state != Connected)
    && (outcome.Disconnected? ==> s.everConnected)
  }

  lemma DisconnectTracks(maxAttempts: nat, s: Sup, code: Option<nat>, r: Round)
    requires Reacting(s, Disconnected(code)) && Budget(maxAttempts, s, 1)
    ensures var t := React(maxAttempts, s, Disconnected(code), r);
            if t.done then AtEnd(t) && Budget(maxAttempts, t, 1)
            else AtHead(t) && Budget(maxAttempts, t, 0) && Observe(t.trace).starts == Observe(s.trace).starts
  {
    hide Observe, WaitReconnect, Finish, AtHead, AtEnd;
    EmitTracks(s, ConnectionClosedEvent(code), r.panicOnClose);
    var s1 := Emit(s, ConnectionClosedEvent(code), r.panicOnClose);
    assert Budget(maxAttempts, s1, 1);
    hide Budget;
    if TerminalClose(code).Some? {
      EndInBudget(maxAttempts, s1, r.panicAtEnd);
    } else {
      WaitTracks(maxAttempts, s1, BackoffForClose(code), r);
    }
    EndIsDone(s1, r.panicAtEnd);
  }

  lemma ReactTracks(maxAttempts: nat, s: Sup, outcome: Outcome, r: Round)
    requires Reacting(s, outcome) && Budget(maxAttempts, s, 1)
    ensures var t := React(maxAttempts, s, outcome, r);
            if t.done then AtEnd(t) && Budget(maxAttempts, t, 1)
            else AtHead(t) && Budget(maxAttempts, t, 0) && Observe(t.trace).starts == Observe(s.trace).starts
  {
    hide Observe, WaitReconnect, Finish, Emit, AtHead, AtEnd, Budget;
    EndIsDone(s, r.panicAtEnd);
    match outcome
    case Stopped => EndInBudget(maxAttempts, s, r.panicAtEnd);
    case Disconnected(code) =>
      hide React;
      DisconnectTracks(maxAttempts, s, code, r);
    case Failed(e) =>
      if e.IsTerminal() || !s.everConnected {
        EndInBudget(maxAttempts, s, r.panicAtEnd);
      } else {
        WaitTracks(maxAttempts, s, if e.NeedsLongBackoff() then Long else Normal, r);
      }
  }

  /** Starting a session from the head of the loop. */
  lemma StartTracks(s: Sup, state: ConnState)
    requires AtHead(s) && !s.panicked && state != Connected
    ensures var t := Note(SetState(s, state), SessionStart);
            && Within(t, t, false) && t.state != Connected && !Observe(t.trace).up
            && Observe(t.trace).connects == (if t.everConnected then 1 else 0)
            && Observe(t.trace).starts == Observe(s.trace).starts + 1
            && Observe(t.trace).productive == Observe(s.trace).productive
  {
  }

  lemma Refund(maxAttempts: nat, productive: nat)
    ensures maxAttempts * (productive + 1) == maxAttempts * productive + maxAttempts
  {
  }

  /** The end of a session and the bookkeeping after it. */
  lemma EndOfSessionTracks(maxAttempts: nat, before: Sup, r: Result)
    requires Within(r.sup, before, r.outcome.Stopped? || r.outcome == Disconnected(Some(4006)))
    requires Budget(maxAttempts, before, 1)
    requires r.sup.state == Connected ==> r.sup.stopped && r.outcome.Stopped?
    requires (r.outcome.Disconnected? ==> r.connectedFor.Some?) && (r.connectedFor.Some? ==> !r.sup.ready)
    requires Observe(r.sup.trace).connects == (if before.everConnected || r.connectedFor.Some? then 1 else 0)
    ensures var t := AfterSession(Note(r.sup, SessionEnd(r.outcome, r.connectedFor)), r.connectedFor);
            && Reacting(t, r.outcome) && Budget(maxAttempts, t, 1)
            && Observe(t.trace).starts == Observe(before.trace).starts
  {
    hide Observe;
    Noted(r.sup, SessionEnd(r.outcome, r.connectedFor));
    Refund(maxAttempts, Observe(before.trace).productive);
  }

  /** A whole session from the head of the loop, and the reaction to it. */
  lemma SessionRound(maxAttempts: nat, s: Sup, state: ConnState, r: Round)
    requires AtHead(s) && !s.panicked && state != Connected && Budget(maxAttempts, s, 0)
    ensures var begun := Note(SetState(s, state), SessionStart);
            var result := SessionOnce(begun, r.session);
            var ended := AfterSession(Note(result.sup, SessionEnd(result.outcome, result.connectedFor)),
                                      result.connectedFor);
            var t := React(maxAttempts, ended, result.outcome, r);
            if t.done then AtEnd(t) && Budget(maxAttempts, t, 1)
            else AtHead(t) && Budget(maxAttempts, t, 0) && Observe(t.trace).starts == Observe(s.trace).starts + 1
  {
    hide Observe, Finish, SessionOnce, React, AfterSession, Allowed, Fatal, Watch, Within, AtHead, AtEnd, Tracks;
    StartTracks(s, state);
    var begun := Note(SetState(s, state), SessionStart);
    assert Budget(maxAttempts, begun, 1);
    var result := SessionOnce(begun, r.session);
    SessionTracks(begun, r.session);
    EndOfSessionTracks(maxAttempts, begun, result);
    hide Budget;
    ReactTracks(maxAttempts, AfterSession(Note(result.sup, SessionEnd(result.outcome, result.connectedFor)),
                                          result.connectedFor), result.outcome, r);
  }

  lemma IterateTracks(maxAttempts: nat, s: Sup, r: Round)
    requires AtHead(s) && Budget(maxAttempts, s, 0)
    ensures var t := Iterate(maxAttempts, s, r);
            if t.done then AtEnd(t) && Budget(maxAttempts, t, 1)
            else AtHead(t) && Budget(maxAttempts, t, 0) && Observe(t.trace).starts == Observe(s.trace).starts + 1
  {
    LoadStopTracks(s, r.stopBefore);
    var s0 := LoadStop(s, r.stopBefore);
    assert AtHead(s0) && Budget(maxAttempts, s0, 0) && Budget(maxAttempts, s0, 1)
        && Tracks(s0) && !s0.done && !Observe(s0.trace).inSession
        && Observe(s0.trace).starts == Observe(s.trace).starts by { hide Observe; }
    hide Observe, Finish, SessionOnce, React, SetState, Note, AfterSession, LoadStop, AtHead, AtEnd, Tracks, Budget;
    var state := if s0.everConnected then Reconnecting else Connecting;
    EndIsDone(s0, r.panicAtEnd);
    if s0.stopped || s0.panicked {
      EndInBudget(maxAttempts, s0, r.panicAtEnd);
    } else if s0.channel {
      SetStateIs(s0, state);
      SessionRound(maxAttempts, s0, state, r);
    } else {
      SetStateIs(s0, state);
      LostChannel(maxAttempts, s0, state);
      EndInBudget(maxAttempts, SetState(s0, state), r.panicAtEnd);
      EndIsDone(SetState(s0, state), r.panicAtEnd);
    }
  }

  lemma LostChannel(maxAttempts: nat, s: Sup, state: ConnState)
    requires AtHead(s) && Budget(maxAttempts, s, 1) && state != Connected
    ensures var t := SetState(s, state);
            Tracks(t) && !t.done && !Observe(t.trace).inSession && Budget(maxAttempts, t, 1)
  {
    hide Observe;
    SetStateTracks(s, state);
  }

  lemma SetStateIs(s: Sup, state: ConnState)
    ensures SetState(s, state) == s.(state := state, trace := SetState(s, state).trace)
  {
  }

  lemma StartsAtHead(maxAttempts: nat)
    ensures AtHead(START) && Budget(maxAttempts, START, 0) && Observe(START.trace) == FRESH
  {
  }

  /** Every run is lawful at every point; while it goes on, each round has started a session. */
  lemma {:induction false} RunTracks(maxAttempts: nat, setup: bool, rounds: seq<Round>)
    ensures var s := Run(maxAttempts, setup, rounds);
            if s.done then AtEnd(s) && Budget(maxAttempts, s, 1)
            else AtHead(s) && Budget(maxAttempts, s, 0) && Observe(s.trace).starts == |rounds|
  {
    hide Iterate, Observe, AtHead, AtEnd, Budget, Finish;
    if rounds == [] {
      StartsAtHead(maxAttempts);
      EndIsDone(START, false);
      if !setup {
        assert Budget(maxAttempts, START, 1) && Tracks(START) && !START.done && !Observe(START.trace).inSession
               by { StartCanEnd(maxAttempts); }
        EndInBudget(maxAttempts, START, false);
      }
    } else {
      var before := Run(maxAttempts, setup, rounds[..|rounds| - 1]);
      RunTracks(maxAttempts, setup, rounds[..|rounds| - 1]);
      if !before.done {
        IterateTracks(maxAttempts, before, rounds[|rounds| - 1]);
      }
    }
  }

  lemma StartCanEnd(maxAttempts: nat)
    ensures Budget(maxAttempts, START, 1) && Tracks(START) && !START.done && !Observe(START.trace).inSession
  {
  }

  // What lawful traces look like, event by event.

  lemma LawfulBefore(trace: seq<Event>)
    requires trace != [] && Observe(trace).lawful
    ensures var before := trace[..|trace| - 1];
            Observe(before).lawful && Allowed(Observe(before), trace[|trace| - 1])
  {
  }

  lemma {:induction false} LawfulPrefix(trace: seq<Event>, n: nat)
    requires n <= |trace| && Observe(trace).lawful
    ensures Observe(trace[..n]).lawful
    decreases |trace| - n
  {
    hide Observe;
    if n < |trace| {
      LawfulPrefix(trace, n + 1);
      LawfulBefore(trace[..n + 1]);
      assert trace[..n + 1][..n] == trace[..n];
    } else {
      assert trace[..n] == trace;
    }
  }

  datatype Kind = IsReady | IsConnected | IsReconnected | IsClosed | IsStart | IsProductive

  predicate Is(e: Event, kind: Kind) {
    match kind
    case IsReady => e.Ready?
    case IsConnected => e.Emitted? && e.event.ConnectedEvent?
    case IsReconnected => e.Emitted? && e.event.ReconnectedEvent?
    case IsClosed => e.Emitted? && e.event.ClosedEvent?
    case IsStart => e.SessionStart?
    case IsProductive => Productive(e)
  }

  function Count(trace: seq<Event>, kind: Kind): (n: nat)
  {
    if trace == [] then 0 else Count(trace[..|trace| - 1], kind) + if Is(trace[|trace| - 1], kind) then 1 else 0
  }

  lemma WatchCounts(o: Observer, e: Event)
    ensures var r := Watch(o, e);
            && r.readies == o.readies + (if Is(e, IsReady) then 1 else 0)
            && r.connects == o.connects + (if Is(e, IsConnected) then 1 else 0)
            && r.starts == o.starts + (if Is(e, IsStart) then 1 else 0)
            && r.productive == o.productive + (if Is(e, IsProductive) then 1 else 0)
  {
    hide Allowed, Fatal, Productive;
  }

  lemma {:induction false} CountsAgree(trace: seq<Event>)
    ensures var o := Observe(trace);
            && Count(trace, IsReady) == o.readies && Count(trace, IsConnected) == o.connects
            && Count(trace, IsStart) == o.starts && Count(trace, IsProductive) == o.productive
  {
    if trace != [] {
      hide Watch, Is;
      CountsAgree(trace[..|trace| - 1]);
      WatchCounts(Observe(trace[..|trace| - 1]), trace[|trace| - 1]);
    }
  }

  lemma {:induction false} OneConnect(trace: seq<Event>)
    requires Observe(trace).lawful
    ensures Observe(trace).connects <= 1
  {
    if trace != [] {
      LawfulBefore(trace);
      OneConnect(trace[..|trace| - 1]);
    }
  }

  /** An event is allowed by what precedes it. */
  lemma AllowedAt(trace: seq<Event>, i: nat)
    requires Observe(trace).lawful && i < |trace|
    ensures Observe(trace[..i]).lawful && Allowed(Observe(trace[..i]), trace[i])
  {
    hide Observe, Allowed;
    LawfulPrefix(trace, i + 1);
    LawfulBefore(trace[..i + 1]);
    assert trace[..i + 1][..i] == trace[..i];
  }

  lemma ClosedIff(trace: seq<Event>)
    requires Observe(trace).lawful
    ensures Observe(trace).closed <==> trace != [] && Is(trace[|trace| - 1], IsClosed)
  {
    hide Fatal, Productive;
    if trace != [] {
      LawfulBefore(trace);
    }
  }

  lemma ClosedIsLast(trace: seq<Event>, i: nat)
    requires Observe(trace).lawful && i < |trace|
    ensures Is(trace[i], IsClosed) ==> i == |trace| - 1
  {
    hide Observe, Is;
    if i + 1 < |trace| {
      AllowedAt(trace, i + 1);
      ClosedIff(trace[..i + 1]);
    }
  }

  lemma WatchFatal(o: Observer, e: Event)
    ensures Watch(o, e).fatal == (o.fatal || Fatal(e))
  {
    hide Fatal, Productive, Allowed;
  }

  lemma {:induction false} FatalSeen(trace: seq<Event>, i: nat)
    requires i < |trace| && Fatal(trace[i])
    ensures Observe(trace).fatal
  {
    hide Fatal, Watch;
    WatchFatal(Observe(trace[..|trace| - 1]), trace[|trace| - 1]);
    if i < |trace| - 1 {
      FatalSeen(trace[..|trace| - 1], i);
    }
  }

  lemma NoStartAfterFatal(trace: seq<Event>, i: nat, j: nat)
    requires Observe(trace).lawful && i < j < |trace| && Fatal(trace[i])
    ensures trace[j] != SessionStart
  {
    hide Observe, Fatal;
    AllowedAt(trace, j);
    FatalSeen(trace[..j], i);
  }

  /** Between sessions, at any point of a lawful trace, the state is Connected only after a stop was seen. */
  lemma {:induction false} ConnectedBetween(trace: seq<Event>)
    requires Observe(trace).lawful
    ensures var o := Observe(trace); !o.inSession && o.state == Connected ==> o.stop
  {
    if trace != [] {
      LawfulBefore(trace);
      ConnectedBetween(trace[..|trace| - 1]);
    }
  }

  // The promises to the user of the client.

  /** The wait before the next session that the end of this one calls for. */
  function BackoffAfter(session: Session): (b: Backoff)
  {
    match session
    case NotMade(Raised(e), _) => if e == NoEventSlots || e == TooManyConnections then Long else Normal
    case NotMade(ClosedEarly(_, _), _) => Normal
    case Ran(_, CloseFrame(code), _, _, _, _) => if code in {Some(4003), Some(4007), Some(4008)} then Long else Normal
    case Ran(_, Broken(e), _, _, _, _) => if e == NoEventSlots || e == TooManyConnections then Long else Normal
    case Ran(_, IdleTimeout, _, _, _, _) => Normal
  }

  function LastWait(trace: seq<Event>): (b: Option<Backoff>)
  {
    if trace == [] then None
    else if trace[|trace| - 1].Waiting? then Some(trace[|trace| - 1].backoff)
    else LastWait(trace[..|trace| - 1])
  }

  lemma LastWaitNote(s: Sup, e: Event)
    ensures LastWait(Note(s, e).trace) == if e.Waiting? then Some(e.backoff) else LastWait(s.trace)
  {
    assert (s.trace + [e])[..|s.trace|] == s.trace;
  }

  lemma WaitNoted(maxAttempts: nat, s: Sup, backoff: Backoff, r: Round)
    ensures var t := WaitReconnect(maxAttempts, s, backoff, r); !t.done ==> LastWait(t.trace) == Some(backoff)
  {
    hide LastWait;
    if ShouldContinue(s.attempt, maxAttempts) {
      var s1 := s.(attempt := s.attempt + 1);
      LastWaitNote(s1, Waiting(backoff));
      var s2 := Note(s1, Waiting(backoff));
      LastWaitNote(s2.(state := Reconnecting), StateSet(Reconnecting));
      var s3 := SetState(s2, Reconnecting);
      LastWaitNote(s3.(stopped := true), StopSeen);
    }
  }

  /** What an ordinary session leaves for the reaction. */
  lemma OutcomeIs(s: Sup, session: Session)
    ensures var r := SessionOnce(s, session);
            match session
            case NotMade(failure, _) => r.outcome == Failed(failure.Error())
            case Ran(_, read, _, _, _, _) =>
              r.outcome.Stopped? || r.outcome == match read
                                                 case CloseFrame(code) => Disconnected(code)
                                                 case IdleTimeout => Failed(Timeout)
                                                 case Broken(e) => Failed(e)
  {
    hide Opened, WoundUp, Heard, Panic, Error.InStep;
  }

  /**
   * A round that leads to another one waits long exactly if its session read close code 4003, 4007 or 4008 or ended
   * with one of the two capacity errors; a close code met during the handshake always gets the normal wait.
   */
  lemma BackoffIs(maxAttempts: nat, s: Sup, r: Round)
    requires !s.done
    ensures var t := Iterate(maxAttempts, s, r); !t.done ==> LastWait(t.trace) == Some(BackoffAfter(r.session))
  {
    hide Finish, SessionOnce, WaitReconnect, LastWait, LoadStop, SetState, Note, AfterSession, Emit;
    var s0 := LoadStop(s, r.stopBefore);
    var s1 := SetState(s0, if s0.everConnected then Reconnecting else Connecting);
    EndIsDone(s0, r.panicAtEnd);
    EndIsDone(s1, r.panicAtEnd);
    var result := SessionOnce(Note(s1, SessionStart), r.session);
    OutcomeIs(Note(s1, SessionStart), r.session);
    var s2 := AfterSession(Note(result.sup, SessionEnd(result.outcome, result.connectedFor)), result.connectedFor);
    ReactWaits(maxAttempts, s2, result.outcome, r);
  }

  lemma ReactWaits(maxAttempts: nat, s: Sup, outcome: Outcome, r: Round)
    ensures var t := React(maxAttempts, s, outcome, r);
            var long := || outcome in {Disconnected(Some(4003)), Disconnected(Some(4007)), Disconnected(Some(4008))}
                        || outcome in {Failed(NoEventSlots), Failed(TooManyConnections)};
            !t.done ==> !outcome.Stopped? && LastWait(t.trace) == Some(if long then Long else Normal)
  {
    hide Finish, WaitReconnect, LastWait, Emit;
    EndIsDone(s, r.panicAtEnd);
    match outcome
    case Stopped =>
    case Disconnected(code) =>
      var s1 := Emit(s, ConnectionClosedEvent(code), r.panicOnClose);
      EndIsDone(s1, r.panicAtEnd);
      WaitNoted(maxAttempts, s1, BackoffForClose(code), r);
    case Failed(e) => WaitNoted(maxAttempts, s, if e.NeedsLongBackoff() then Long else Normal, r);
  }

  lemma RunLawful(maxAttempts: nat, setup: bool, rounds: seq<Round>)
    ensures Tracks(Run(maxAttempts, setup, rounds))
  {
    hide Run, Observe;
    RunTracks(maxAttempts, setup, rounds);
  }

  /**
   * In every run `Connected` comes at most once and before any `Reconnected`, `ready` at most once, `Closed` only last.
   */
  lemma RunEvents(maxAttempts: nat, setup: bool, rounds: seq<Round>)
    ensures var trace := Run(maxAttempts, setup, rounds).trace;
            && Count(trace, IsConnected) <= 1 && Count(trace, IsReady) <= 1
            && forall i | 0 <= i < |trace| ::
                 && (Is(trace[i], IsReconnected) ==> Count(trace[..i], IsConnected) == 1)
                 && (Is(trace[i], IsClosed) ==> i == |trace| - 1)
  {
    hide Run, Observe, Count;
    var trace := Run(maxAttempts, setup, rounds).trace;
    RunLawful(maxAttempts, setup, rounds);
    CountsAgree(trace);
    OneConnect(trace);
    forall i | 0 <= i < |trace|
      ensures (Is(trace[i], IsReconnected) ==> Count(trace[..i], IsConnected) == 1)
              && (Is(trace[i], IsClosed) ==> i == |trace| - 1)
    {
      ClosedIsLast(trace, i);
      AllowedAt(trace, i);
      OneConnect(trace[..i]);
      CountsAgree(trace[..i]);
    }
  }

  /** No session starts after a handler panic, a terminal error or a terminal close code. */
  lemma NoSessionAfterFatal(maxAttempts: nat, setup: bool, rounds: seq<Round>)
    ensures var trace := Run(maxAttempts, setup, rounds).trace;
            forall i, j | 0 <= i < j < |trace| && Fatal(trace[i]) :: trace[j] != SessionStart
  {
    hide Run, Observe, Fatal;
    RunLawful(maxAttempts, setup, rounds);
    var trace := Run(maxAttempts, setup, rounds).trace;
    forall i, j | 0 <= i < j < |trace| && Fatal(trace[i]) ensures trace[j] != SessionStart {
      NoStartAfterFatal(trace, i, j);
    }
  }

  /** A session follows close code 4006 only if it was met before the session was announced as connected. */
  lemma SessionAfterDisabled(maxAttempts: nat, setup: bool, rounds: seq<Round>)
    ensures var trace := Run(maxAttempts, setup, rounds).trace;
            forall i, j | 0 <= i < j < |trace| && trace[i].CloseMet? && trace[i].code == Some(4006)
                            && trace[j].SessionStart? ::
              !Observe(trace[..i]).up
  {
    hide Run, Observe;
    NoSessionAfterFatal(maxAttempts, setup, rounds);
    RunLawful(maxAttempts, setup, rounds);
    var trace := Run(maxAttempts, setup, rounds).trace;
    forall i | 0 <= i < |trace| ensures trace[i].CloseMet? ==> trace[i].connected == Observe(trace[..i]).up {
      AllowedAt(trace, i);
    }
  }

  /** Nothing keeps the next round from starting a session. */
  predicate Live(s: Sup) { !s.done && !s.stopped && !s.panicked && s.channel }

  /** The session meets close code 4006, during its handshake or once connected. */
  predicate MeetsDisabled(session: Session) {
    match session
    case NotMade(failure, _) => failure.ClosedEarly? && failure.code == Some(4006)
    case Ran(_, read, _, _, _, _) => read == CloseFrame(Some(4006))
  }

  /** What is left for the reaction to 4006: a plain error, or the terminal close unless a stop was seen. */
  lemma DisabledOutcome(s: Sup, session: Session)
    requires MeetsDisabled(session)
    ensures var r := SessionOnce(s, session);
            && (session.Ran? ==> r.outcome.Stopped? || r.outcome == Disconnected(Some(4006)))
            && (session.NotMade? ==>
                  && r.outcome.Failed? && !r.outcome.error.IsTerminal() && r.connectedFor.None?
                  && r.sup == s.(panicked := r.sup.panicked, trace := r.sup.trace)
                  && r.sup.panicked == (s.panicked || session.swallowedPanic))
  {
    hide Opened, WoundUp;
  }

  lemma WaitGoesOnIff(maxAttempts: nat, s: Sup, backoff: Backoff, r: Round)
    requires Live(s.(panicked := false))
    ensures var t := WaitReconnect(maxAttempts, s, backoff, r);
            if ShouldContinue(s.attempt, maxAttempts) && !r.stopWhileWaiting
            then Live(t.(panicked := false)) && t.panicked == s.panicked else t.done
  {
  }

  /**
   * Whether the client goes on after 4006: if and only if a handshake met it, in a client that was connected before,
   * with attempts left and no stop while it waits.
   */
  lemma GoesOnIff(maxAttempts: nat, s: Sup, r: Round)
    requires Live(s) && !r.stopBefore && MeetsDisabled(r.session)
    ensures var t := Iterate(maxAttempts, s, r);
            && (!t.done <==>
                r.session.NotMade? && s.everConnected && ShouldContinue(s.attempt, maxAttempts) && !r.stopWhileWaiting)
            && (!t.done ==> (Live(t) <==> !r.session.swallowedPanic))
            && (!t.done ==> !t.stopped && t.channel)
  {
    hide Finish, SessionOnce, WaitReconnect, MeetsDisabled;
    var s1 := SetState(LoadStop(s, r.stopBefore), if s.everConnected then Reconnecting else Connecting);
    var begun := Note(s1, SessionStart);
    DisabledOutcome(begun, r.session);
    var result := SessionOnce(begun, r.session);
    var s2 := AfterSession(Note(result.sup, SessionEnd(result.outcome, result.connectedFor)), result.connectedFor);
    EndIsDone(s2, r.panicAtEnd);
    if result.outcome.Disconnected? {
      EndIsDone(Emit(s2, ConnectionClosedEvent(result.outcome.code), r.panicOnClose), r.panicAtEnd);
    } else if result.outcome.Failed? {
      WaitGoesOnIff(maxAttempts, s2, if result.outcome.error.NeedsLongBackoff() then Long else Normal, r);
    }
  }

  /** The round starts a session. */
  predicate Begins(maxAttempts: nat, s: Sup, r: Round) {
    var t := Iterate(maxAttempts, s, r);
    !s.done && s.trace <= t.trace && SessionStart in t.trace[|s.trace|..]
  }

  lemma FinishAdds(s: Sup, panics: bool)
    ensures s.trace <= Finish(s, panics).trace && SessionStart !in Finish(s, panics).trace[|s.trace|..]
  {
  }

  predicate Grows(s: Sup, t: Sup) { s.trace <= t.trace }

  lemma GrowsOn(s: Sup, t: Sup, u: Sup)
    requires Grows(s, t) && Grows(t, u)
    ensures Grows(s, u)
  {
  }

  lemma StepsGrow(s: Sup, b: bool, state: ConnState, code: Option<nat>)
    ensures Grows(s, LoadStop(s, b)) && Grows(s, Panic(s, b)) && Grows(s, SetState(s, state))
            && Grows(s, Heard(s, code, b))
    ensures Grows(s, s) && Grows(s, s.(channel := b))
  {
  }

  lemma WoundUpGrows(s: Sup, session: Session)
    requires session.Ran?
    ensures Grows(s, WoundUp(s, session))
  {
    hide Grows, LoadStop, Panic, SetState, Heard;
    var code := if session.read.CloseFrame? then session.read.code else None;
    StepsGrow(s, true, Reconnecting, code);
    var s1 := if session.read.CloseFrame? then Heard(s, code, true) else s;
    var panics := session.read == Broken(HandlerPanic);
    StepsGrow(s1, panics, Reconnecting, code);
    GrowsOn(s, s1, Panic(s1, panics));
    var s2 := LoadStop(Panic(s1, panics), session.stopWhileReading);
    StepsGrow(Panic(s1, panics), session.stopWhileReading, Reconnecting, code);
    GrowsOn(s, Panic(s1, panics), s2);
    var s3 := if s2.stopped then s2 else SetState(s2, Reconnecting);
    StepsGrow(s2, true, Reconnecting, code);
    GrowsOn(s, s2, s3);
    StepsGrow(s3, session.rejoined, Reconnecting, code);
    GrowsOn(s, s3, s3.(channel := session.rejoined));
    StepsGrow(s3.(channel := session.rejoined), session.stopWhileJoining, Reconnecting, code);
    GrowsOn(s, s3.(channel := session.rejoined), WoundUp(s, session));
  }

  lemma OpenedGrows(s: Sup, panics: bool)
    ensures Grows(s, Opened(s, panics))
  {
  }

  lemma SessionGrows(s: Sup, session: Session)
    ensures Grows(s, SessionOnce(s, session).sup)
  {
    hide WoundUp, Opened, Grows, Heard, Panic, Error.InStep;
    match session
    case NotMade(failure, swallowedPanic) =>
      var panics := failure.Error().HandlerPanic? || swallowedPanic;
      var s1 := if failure.ClosedEarly? then Heard(s, failure.code, false) else s;
      StepsGrow(s, false, Closed, if failure.ClosedEarly? then failure.code else None);
      StepsGrow(s1, panics, Closed, None);
      GrowsOn(s, s1, Panic(s1, panics));
    case Ran(panicOnConnect, _, _, _, _, _) =>
      OpenedGrows(s, panicOnConnect);
      WoundUpGrows(Opened(s, panicOnConnect), session);
      GrowsOn(s, Opened(s, panicOnConnect), WoundUp(Opened(s, panicOnConnect), session));
  }

  lemma GiveUpGrows(s: Sup, panics: bool)
    ensures Grows(s, GiveUp(s, panics))
  {
  }

  lemma CountedGrows(s: Sup, backoff: Backoff)
    ensures Grows(s, Note(s.(attempt := s.attempt + 1), Waiting(backoff)))
  {
  }

  lemma WaitGrows(maxAttempts: nat, s: Sup, backoff: Backoff, r: Round)
    ensures Grows(s, WaitReconnect(maxAttempts, s, backoff, r))
  {
    hide Grows, LoadStop, GiveUp, SetState, Note;
    var s0 := Note(s.(attempt := s.attempt + 1), Waiting(backoff));
    var s1 := SetState(s0, Reconnecting);
    CountedGrows(s, backoff);
    StepsGrow(s0, false, Reconnecting, None);
    GrowsOn(s, s0, s1);
    var s2 := LoadStop(s1, r.stopWhileWaiting);
    GiveUpGrows(s, r.panicAtEnd);
    StepsGrow(s1, r.stopWhileWaiting, Reconnecting, None);
    GrowsOn(s, s1, s2);
    GiveUpGrows(s2, r.panicAtEnd);
    GrowsOn(s, s2, GiveUp(s2, r.panicAtEnd));
  }

  lemma ReactGrows(maxAttempts: nat, s: Sup, outcome: Outcome, r: Round)
    ensures Grows(s, React(maxAttempts, s, outcome, r))
  {
    hide Finish, WaitReconnect;
    match outcome
    case Stopped => FinishAdds(s, r.panicAtEnd);
    case Disconnected(code) =>
      var s1 := Emit(s, ConnectionClosedEvent(code), r.panicOnClose);
      FinishAdds(s1, r.panicAtEnd);
      WaitGrows(maxAttempts, s1, BackoffForClose(code), r);
      GrowsOn(s, s1, React(maxAttempts, s, outcome, r));
    case Failed(e) =>
      FinishAdds(s, r.panicAtEnd);
      WaitGrows(maxAttempts, s, if e.NeedsLongBackoff() then Long else Normal, r);
  }

  /** A round starts a session exactly if the client is live and no stop is seen at its head. */
  lemma BeginsIff(maxAttempts: nat, s: Sup, r: Round)
    ensures Begins(maxAttempts, s, r) <==> Live(s) && !r.stopBefore
  {
    hide Finish, SessionOnce, React;
    var s0 := LoadStop(s, r.stopBefore);
    var s1 := SetState(s0, if s0.everConnected then Reconnecting else Connecting);
    FinishAdds(s0, r.panicAtEnd);
    FinishAdds(s1, r.panicAtEnd);
    var begun := Note(s1, SessionStart);
    SessionGrows(begun, r.session);
    var result := SessionOnce(begun, r.session);
    var s2 := AfterSession(Note(result.sup, SessionEnd(result.outcome, result.connectedFor)), result.connectedFor);
    ReactGrows(maxAttempts, s2, result.outcome, r);
    if Live(s) && !r.stopBefore {
      var t := Iterate(maxAttempts, s, r);
      assert begun.trace <= t.trace;
      assert t.trace[|s.trace|..][1] == begun.trace[|s.trace| + 1] == SessionStart;
    }
  }

  /**
   * Behind a round that meets 4006 the next one starts a session if and only if a handshake met it, in a client that
   * was connected before, with attempts left, no stop on the way and no panic behind the error.
   */
  lemma SessionAfterDisabledIff(maxAttempts: nat, s: Sup, r: Round, next: Round)
    requires Live(s) && !r.stopBefore && MeetsDisabled(r.session)
    ensures Begins(maxAttempts, Iterate(maxAttempts, s, r), next) <==>
            && r.session.NotMade? && !r.session.swallowedPanic && s.everConnected
            && ShouldContinue(s.attempt, maxAttempts) && !r.stopWhileWaiting && !next.stopBefore
  {
    hide Iterate, Begins, MeetsDisabled;
    GoesOnIff(maxAttempts, s, r);
    BeginsIff(maxAttempts, Iterate(maxAttempts, s, r), next);
  }

  /**
   * A terminated run has resolved `ready` exactly once, ends with the only `Closed` event and leaves the state Closed.
   */
  lemma TerminatedRun(maxAttempts: nat, setup: bool, rounds: seq<Round>)
    ensures var s := Run(maxAttempts, setup, rounds);
            s.done ==>
              && Count(s.trace, IsReady) == 1 && s.state == Closed && s.trace != []
              && forall i | 0 <= i < |s.trace| :: Is(s.trace[i], IsClosed) <==> i == |s.trace| - 1
  {
    hide Run, Observe, Count;
    var s := Run(maxAttempts, setup, rounds);
    RunTracks(maxAttempts, setup, rounds);
    CountsAgree(s.trace);
    ClosedIff(s.trace);
    forall i | 0 <= i < |s.trace| ensures Is(s.trace[i], IsClosed) ==> i == |s.trace| - 1 {
      ClosedIsLast(s.trace, i);
    }
  }

  /** Between sessions the state is never Connected unless a stop was requested. */
  lemma NotConnectedBetween(maxAttempts: nat, setup: bool, rounds: seq<Round>)
    ensures var trace := Run(maxAttempts, setup, rounds).trace;
            forall n | 0 <= n <= |trace| ::
              (var o := Observe(trace[..n]); !o.inSession && o.state == Connected ==> o.stop)
  {
    hide Run, Observe;
    RunLawful(maxAttempts, setup, rounds);
    var trace := Run(maxAttempts, setup, rounds).trace;
    forall n | 0 <= n <= |trace|
      ensures (var o := Observe(trace[..n]); !o.inSession && o.state == Connected ==> o.stop)
    {
      LawfulPrefix(trace, n);
      ConnectedBetween(trace[..n]);
    }
  }

  /** With `m > 0` attempts and `k` productive sessions, at most `1 + m * (k + 1)` sessions start. */
  lemma SessionBound(maxAttempts: nat, setup: bool, rounds: seq<Round>)
    requires maxAttempts > 0
    ensures var trace := Run(maxAttempts, setup, rounds).trace;
            Count(trace, IsStart) <= 1 + maxAttempts * (Count(trace, IsProductive) + 1)
  {
    hide Run, Observe, Count;
    RunTracks(maxAttempts, setup, rounds);
    var trace := Run(maxAttempts, setup, rounds).trace;
    CountsAgree(trace);
    Refund(maxAttempts, Count(trace, IsProductive));
  }

  /** So a run that is offered more rounds than that has ended. */
  lemma RunEnds(maxAttempts: nat, setup: bool, rounds: seq<Round>)
    requires maxAttempts > 0
    ensures |rounds| > maxAttempts * (Count(Run(maxAttempts, setup, rounds).trace, IsProductive) + 1)
            ==> Run(maxAttempts, setup, rounds).done
  {
    hide Run, Observe, Count;
    RunTracks(maxAttempts, setup, rounds);
    var trace := Run(maxAttempts, setup, rounds).trace;
    CountsAgree(trace);
    Refund(maxAttempts, Count(trace, IsProductive));
  }

  /** The promises in the form `RunSupervisor` makes them. */
  lemma Promises(maxAttempts: nat, setup: bool, rounds: seq<Round>)
    ensures var s := Run(maxAttempts, setup, rounds);
            && (s.done ==> s.state == Closed && Count(s.trace, IsReady) == 1)
            && (forall i | 0 <= i < |s.trace| :: Is(s.trace[i], IsClosed) ==> s.done && i == |s.trace| - 1)
            && (forall i, j | 0 <= i < j < |s.trace| && Fatal(s.trace[i]) :: s.trace[j] != SessionStart)
            && (maxAttempts > 0 ==>
                  Count(s.trace, IsStart) <= 1 + maxAttempts * (Count(s.trace, IsProductive) + 1))
  {
    hide Run, Observe, Count, Fatal;
    var s := Run(maxAttempts, setup, rounds);
    TerminatedRun(maxAttempts, setup, rounds);
    NoSessionAfterFatal(maxAttempts, setup, rounds);
    if maxAttempts > 0 {
      SessionBound(maxAttempts, setup, rounds);
    }
    RunLawful(maxAttempts, setup, rounds);
    ClosedIff(s.trace);
    forall i | 0 <= i < |s.trace| ensures Is(s.trace[i], IsClosed) ==> s.done && i == |s.trace| - 1 {
      ClosedIsLast(s.trace, i);
    }
  }

  // That does happen: a client that was connected once, then meets the close while reconnecting.

  function Quiet(session: Session): (r: Round) { Round(false, session, false, false, false) }

  const DROPPED := Quiet(Ran(false, IdleTimeout, false, false, true, 0))

  /** A client between two sessions that nothing keeps from starting another. */
  predicate Going(s: Sup) { !s.done && !s.stopped && !s.panicked && s.channel && s.everConnected && !s.ready }

  lemma FirstRound(maxAttempts: nat)
    ensures var s := Iterate(maxAttempts, START, DROPPED); Going(s) && s.attempt == 1
  {
  }

  function EarlyClose(code: Option<nat>, named: bool): (r: Round) { Quiet(NotMade(ClosedEarly(code, named), false)) }

  /** A close frame during a handshake: noted, not acted on, and one attempt spent if there is one left. */
  lemma EarlyCloseRound(maxAttempts: nat, s: Sup, code: Option<nat>, named: bool)
    requires Going(s)
    ensures var t := Iterate(maxAttempts, s, EarlyClose(code, named));
            && (if ShouldContinue(s.attempt, maxAttempts) then Going(t) && t.attempt == s.attempt + 1 else t.done)
            && s.trace + [StateSet(Reconnecting), SessionStart, CloseMet(code, false)] <= t.trace
  {
  }

  /** A run that goes on by one early close. */
  lemma PlayEarlyClose(maxAttempts: nat, rounds: seq<Round>, code: Option<nat>, named: bool)
    requires Going(Run(maxAttempts, true, rounds))
    ensures var s, t := Run(maxAttempts, true, rounds), Run(maxAttempts, true, rounds + [EarlyClose(code, named)]);
            && (if ShouldContinue(s.attempt, maxAttempts) then Going(t) && t.attempt == s.attempt + 1 else t.done)
            && s.trace + [StateSet(Reconnecting), SessionStart, CloseMet(code, false)] <= t.trace
  {
    hide Iterate;
    assert (rounds + [EarlyClose(code, named)])[..|rounds|] == rounds;
    EarlyCloseRound(maxAttempts, Run(maxAttempts, true, rounds), code, named);
  }

  lemma PlayFirst(maxAttempts: nat)
    ensures Going(Run(maxAttempts, true, [DROPPED])) && Run(maxAttempts, true, [DROPPED]).attempt == 1
  {
    hide Iterate, Going;
    assert [DROPPED][..0] == [];
    FirstRound(maxAttempts);
    assert Run(maxAttempts, true, []) == START;
  }

  /**
   * Whatever the code, 4006 included, another session starts behind a close frame met while reconnecting, unless the
   * limit is a single attempt, which that session spent.
   */
  lemma SessionAfterEarlyClose(maxAttempts: nat, code: Option<nat>, named: bool)
    requires maxAttempts != 1
    ensures var trace := Run(maxAttempts, true, [DROPPED] + [EarlyClose(code, named)]
                             + [EarlyClose(code, named)]).trace;
            exists i, j | 0 <= i < j < |trace| :: trace[i] == CloseMet(code, false) && trace[j] == SessionStart
  {
    hide Run, Going;
    PlayFirst(maxAttempts);
    var s0 := Run(maxAttempts, true, [DROPPED]);
    PlayEarlyClose(maxAttempts, [DROPPED], code, named);
    var s1 := Run(maxAttempts, true, [DROPPED] + [EarlyClose(code, named)]);
    PlayEarlyClose(maxAttempts, [DROPPED] + [EarlyClose(code, named)], code, named);
    var trace := Run(maxAttempts, true, [DROPPED] + [EarlyClose(code, named)] + [EarlyClose(code, named)]).trace;
    assert trace[|s0.trace| + 2] == s1.trace[|s0.trace| + 2] == CloseMet(code, false);
    assert trace[|s1.trace| + 1] == SessionStart;
  }

  function Repeated(r: Round, n: nat): (rounds: seq<Round>) { if n == 0 then [] else Repeated(r, n - 1) + [r] }

  /**
   * Without a limit on attempts it goes on like that for ever: `n` such closes, `n + 1` sessions, and the run not over.
   */
  lemma {:induction false} KnocksOn(code: Option<nat>, named: bool, n: nat)
    ensures var s := Run(0, true, [DROPPED] + Repeated(EarlyClose(code, named), n));
            Going(s) && Count(s.trace, IsStart) == n + 1
  {
    var early := EarlyClose(code, named);
    var rounds := [DROPPED] + Repeated(early, n);
    hide Run, Count, Going;
    if n == 0 {
      assert rounds == [DROPPED];
      PlayFirst(0);
    } else {
      KnocksOn(code, named, n - 1);
      assert rounds == [DROPPED] + Repeated(early, n - 1) + [early];
      PlayEarlyClose(0, [DROPPED] + Repeated(early, n - 1), code, named);
    }
    RepeatedLength(early, n);
    GoingOn(Run(0, true, rounds));
    RunTracks(0, true, rounds);
    CountsAgree(Run(0, true, rounds).trace);
  }

  lemma {:induction false} RepeatedLength(r: Round, n: nat)
    ensures |Repeated(r, n)| == n
  {
    if n > 0 {
      RepeatedLength(r, n - 1);
    }
  }

  lemma GoingOn(s: Sup)
    requires Going(s)
    ensures !s.done
  {
  }
}
