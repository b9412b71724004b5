/** The mutex sections of the runtime that owns an MCP instance's tmux connection.

    Channels used as signals are numbered in order of creation, and closed holds one entry for
    every close of one. */
module Runtime {
  import opened Options

  datatype Mode = Unbound | Binding | Bound | Terminal | Closed

  /** The identities errors.Is finds in an error. */
  datatype Error = Error(
    noServer: bool,
    daemonReplaced: bool,
    controlClosed: bool,
    outcomeUnknown: bool,
    canceled: bool,
    deadline: bool)

  predicate IsContextError(e: Error) { e.canceled || e.deadline }

  predicate IsIndeterminate(e: Error) { e.outcomeUnknown && !e.canceled && !e.deadline }

  predicate IsIntrinsicTerminal(e: Error) { e.daemonReplaced || e.controlClosed || IsIndeterminate(e) }

  /** Absence of the server is terminal only once a daemon is bound. */
  predicate IsTerminal(e: Error, mode: Mode) { IsIntrinsicTerminal(e) || (e.noServer && mode.Bound?) }

  type Signal = nat
  type Connection = nat
  type Session = nat

  datatype State = State(
    mode: Mode,
    probe: Option<Signal>,
    binding: Option<Signal>,
    unboundActive: nat,
    unboundDrained: Option<Signal>,
    cause: Option<Error>,
    original: Option<Session>,
    command: Option<Connection>,
    signals: nat,
    closed: multiset<Signal>)

  const INSTANCE_CLOSED := Error(false, false, false, false, false, false)

  function New(): State { State(Unbound, None, None, 0, None, None, None, None, 0, multiset{}) }

  function Closing(closed: multiset<Signal>, signal: Option<Signal>): multiset<Signal>
  {
    if signal.Some? then closed + multiset{signal.value} else closed
  }

  function FinishBindingSignal(s: State): State
  {
    s.(closed := Closing(s.closed, s.binding), binding := None)
  }

  /** What an acquisition finds in one look at the state. */
  datatype Look = Ready | Refused | Healed(lost: Option<Connection>) | Await(signal: Signal) | Probe(probe: Signal)
    | Create(drained: Option<Signal>)

  function Heal(s: State): State
  {
    s.(original := None, command := None, cause := None, mode := Unbound)
  }

  /** The look of acquireCommand; createSession starts a binding where this starts a probe. */
  function LookUp(s: State, creation: bool): (State, Look)
  {
    match s.mode
    case Bound => (s, Ready)
    case Closed => (s, Refused)
    case Terminal => (Heal(s), Healed(s.command))
    case Binding => (s, if s.binding.Some? then Await(s.binding.value) else Refused)
    case Unbound =>
      if s.probe.Some? then (s, Await(s.probe.value))
      else if creation then
        (s.(mode := Binding, binding := Some(s.signals), signals := s.signals + 1), Create(s.unboundDrained))
      else (s.(probe := Some(s.signals), signals := s.signals + 1), Probe(s.signals))
  }

  /** The result tells whether the acquisition succeeded; with lease it then holds one. */
  function FinishAbsentProbe(s: State, probe: Signal, lease: bool): (State, bool)
  {
    if s.probe != Some(probe) then (s, false)
    else
      var t := s.(probe := None, closed := s.closed + multiset{probe});
      if t.mode != Unbound then (t, false)
      else if !lease then (t, true)
      else if t.unboundActive == 0 then
        (t.(unboundDrained := Some(t.signals), signals := t.signals + 1, unboundActive := 1), true)
      else (t.(unboundActive := t.unboundActive + 1), true)
  }

  function FinishProbe(s: State, probe: Signal): State
  {
    if s.probe == Some(probe) then s.(probe := None, closed := s.closed + multiset{probe}) else s
  }

  function BeginBinding(s: State, probe: Signal): (State, Option<Signal>, bool)
  {
    var t := FinishProbe(s, probe);
    if t.mode != Unbound then (t, None, false)
    else (t.(mode := Binding, binding := Some(t.signals), signals := t.signals + 1), t.unboundDrained, true)
  }

  function ReleaseUnbound(s: State): State
  {
    if s.unboundActive == 0 then s
    else if s.unboundActive == 1 then
      s.(unboundActive := 0, closed := Closing(s.closed, s.unboundDrained), unboundDrained := None)
    else s.(unboundActive := s.unboundActive - 1)
  }

  /** The result is the connection the caller must close: its own, when the binding it opened
      it for is over. */
  function FinishBinding(s: State, original: Session, connection: Option<Connection>): (State, Option<Connection>)
  {
    if s.mode != Binding then (FinishBindingSignal(s), connection)
    else (FinishBindingSignal(s.(original := Some(original), command := connection, mode := Bound)), None)
  }

  /** Whether the failed binding may be tried again, and the connection the caller must close. */
  function FailBinding(s: State, original: Option<Session>, connection: Option<Connection>, e: Error, creation: bool):
      (State, bool, Option<Connection>)
  {
    if s.mode != Binding then (FinishBindingSignal(s), false, connection)
    else if connection.None? && !IsIntrinsicTerminal(e) && (!creation || original.None?) then
      (FinishBindingSignal(s.(mode := Unbound, cause := None)), true, None)
    else
      (FinishBindingSignal(s.(original := original, command := None, cause := Some(e), mode := Terminal)), false,
       connection)
  }

  /** The section of observe for a terminal error, and the connection it loses. */
  function Observe(s: State, e: Error): (State, Option<Connection>)
  {
    if s.mode.Terminal? || s.mode.Closed? then (s, None)
    else
      (FinishBindingSignal(s.(cause := Some(e), mode := Terminal, original := None, command := None)), s.command)
  }

  /** The section of Close, and the connection it snapshots. */
  function Shut(s: State): (State, Option<Connection>)
  {
    var t := s.(closed := Closing(s.closed, s.probe), probe := None, mode := Closed,
                cause := if s.cause.None? then Some(INSTANCE_CLOSED) else s.cause);
    (FinishBindingSignal(t), s.command)
  }

  class TmuxRuntime {
    var mode: Mode
    var probe: Option<Signal>
    var binding: Option<Signal>
    var unboundActive: nat
    var unboundDrained: Option<Signal>
    var cause: Option<Error>
    var original: Option<Session>
    var commandConnection: Option<Connection>
    var signals: nat
    var closed: multiset<Signal>

    ghost function Contents(): State
      reads this
    {
      State(mode, probe, binding, unboundActive, unboundDrained, cause, original, commandConnection, signals, closed)
    }

    constructor ()
      ensures Contents() == New()
    {
      mode, unboundActive, signals, closed := Unbound, 0, 0, multiset{};
      probe, binding, unboundDrained, cause, original, commandConnection := None, None, None, None, None, None;
    }

    method MakeSignal() returns (signal: Signal)
      modifies this`signals
      ensures signal == old(signals) && signals == old(signals) + 1
    {
      signal := signals;
      signals := signals + 1;
    }

    method CloseSignal(signal: Signal)
      modifies this`closed
      ensures closed == old(closed) + multiset{signal}
    {
      closed := closed + multiset{signal};
    }

    method FinishBindingSignalLocked()
      modifies this`binding, this`closed
      ensures Contents() == FinishBindingSignal(old(Contents()))
    {
      if binding.Some? {
        CloseSignal(binding.value);
        binding := None;
      }
    }

    method HealTerminalLocked() returns (lost: Option<Connection>)
      modifies this
      ensures Contents() == Heal(old(Contents())) && lost == old(commandConnection)
    {
      lost := commandConnection;
      original := None;
      commandConnection := None;
      cause := None;
      mode := Unbound;
    }

    /** One turn of the acquisition loop under the mutex. */
    method TakeLook(creation: bool) returns (look: Look)
      modifies this
      ensures (Contents(), look) == LookUp(old(Contents()), creation)
    {
      match mode
      case Bound => return Ready;
      case Closed => return Refused;
      case Terminal =>
        var lost := HealTerminalLocked();
        return Healed(lost);
      case Binding =>
        if binding.Some? { return Await(binding.value); }
        return Refused;
      case Unbound =>
        if probe.Some? { return Await(probe.value); }
        if creation {
          mode := Binding;
          var signal := MakeSignal();
          binding := Some(signal);
          return Create(unboundDrained);
        }
        var signal := MakeSignal();
        probe := Some(signal);
        return Probe(signal);
    }

    method EndAbsentProbe(mine: Signal, lease: bool) returns (acquired: bool)
      modifies this
      ensures (Contents(), acquired) == FinishAbsentProbe(old(Contents()), mine, lease)
    {
      if probe != Some(mine) { return false; }
      probe := None;
      CloseSignal(mine);
      if mode != Unbound { return false; }
      if !lease { return true; }
      if unboundActive == 0 {
        var signal := MakeSignal();
        unboundDrained := Some(signal);
      }
      unboundActive := unboundActive + 1;
      return true;
    }

    method EndProbe(mine: Signal)
      modifies this
      ensures Contents() == FinishProbe(old(Contents()), mine)
    {
      if probe == Some(mine) {
        probe := None;
        CloseSignal(mine);
      }
    }

    method StartBinding(mine: Signal) returns (drained: Option<Signal>, ok: bool)
      modifies this
      ensures (Contents(), drained, ok) == BeginBinding(old(Contents()), mine)
    {
      if probe == Some(mine) {
        probe := None;
        CloseSignal(mine);
      }
      if mode != Unbound { return None, false; }
      mode := Binding;
      var signal := MakeSignal();
      binding := Some(signal);
      return unboundDrained, true;
    }

    method EndLease()
      modifies this
      ensures Contents() == ReleaseUnbound(old(Contents()))
    {
      if unboundActive == 0 { return; }
      unboundActive := unboundActive - 1;
      if unboundActive == 0 {
        if unboundDrained.Some? { CloseSignal(unboundDrained.value); }
        unboundDrained := None;
      }
    }

    method EndBinding(session: Session, connection: Option<Connection>) returns (close: Option<Connection>)
      modifies this
      ensures (Contents(), close) == FinishBinding(old(Contents()), session, connection)
    {
      if mode != Binding {
        FinishBindingSignalLocked();
        return connection;
      }
      original := Some(session);
      commandConnection := connection;
      mode := Bound;
      FinishBindingSignalLocked();
      return None;
    }

    method AbandonBinding(session: Option<Session>, connection: Option<Connection>, e: Error, creation: bool)
        returns (reset: bool, close: Option<Connection>)
      modifies this
      ensures (Contents(), reset, close) == FailBinding(old(Contents()), session, connection, e, creation)
    {
      hide IsIntrinsicTerminal, FinishBindingSignal;
      if mode != Binding {
        FinishBindingSignalLocked();
        return false, connection;
      }
      var retryable := connection.None? && !IsIntrinsicTerminal(e) && (!creation || session.None?);
      if retryable {
        mode := Unbound;
        cause := None;
        FinishBindingSignalLocked();
        return true, None;
      }
      original := session;
      commandConnection := None;
      cause := Some(e);
      mode := Terminal;
      FinishBindingSignalLocked();
      return false, connection;
    }

    method ObserveTerminal(e: Error) returns (lost: Option<Connection>)
      modifies this
      ensures (Contents(), lost) == Observe(old(Contents()), e)
    {
      if mode.Terminal? || mode.Closed? { return None; }
      cause := Some(e);
      mode := Terminal;
      lost := commandConnection;
      original := None;
      commandConnection := None;
      FinishBindingSignalLocked();
    }

    method CloseRuntime() returns (connection: Option<Connection>)
      modifies this
      ensures (Contents(), connection) == Shut(old(Contents()))
    {
      hide FinishBindingSignal;
      if probe.Some? {
        CloseSignal(probe.value);
        probe := None;
      }
      mode := Closed;
      if cause.None? { cause := Some(INSTANCE_CLOSED); }
      connection := commandConnection;
      FinishBindingSignalLocked();
    }
  }
}
