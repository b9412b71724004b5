/** Everything that uses the runtime at once: acquisitions, session creations, leases, observed
    errors and closes, interleaved one mutex section or one close at a time. */
module RuntimeRuns {
  import opened Counting
  import opened Options
  import opened Runtime

  datatype Kind = Acquire(lease: bool) | Creating

  /** Where a goroutine is. */
  datatype Pc =
    | Looking(kind: Kind, reprobed: bool)
    | Losing(lost: Option<Connection>, kind: Kind, reprobed: bool)
    | Waiting(signal: Signal, kind: Kind, reprobed: bool)
    | Probing(probe: Signal, lease: bool, reprobed: bool)
    | Draining(drained: Option<Signal>, kind: Kind, reprobed: bool)
    | Binder(kind: Kind, reprobed: bool)
    | Opened(connection: Option<Connection>, session: Option<Session>, err: Option<Error>, creation: bool,
        mayRetry: bool, kind: Kind, reprobed: bool)
    | Discarding(doomed: Connection)
    | Holding
    | Noticing(e: Error)
    | Judging(e: Error)
    | Stopping
    | Shutting(snapshot: Option<Connection>)
    | Done

  /** What the environment decides in a goroutine's next step. */
  datatype Move =
    | Go
    | ContextEnds(e: Error)
    | Found
    | Missing
    | Broken(e: Error)
    | Connects(session: Option<Session>, opens: bool, err: Option<Error>, creation: bool)

  datatype Step = Arrive(kind: Kind) | Report(e: Error) | Close | Thread(i: nat, move: Move)

  /** made counts the connections opened so far, which name them; handed holds one entry for
      every connection given to a close. interrupted tells whether an error was ever observed
      during a binding. */
  datatype System = System(rt: State, threads: seq<Pc>, prober: nat, made: nat, handed: multiset<Connection>,
    once: bool, interrupted: bool)

  function Init(): System { System(New(), [], 0, 0, multiset{}, false, false) }

  /** What one step of a goroutine does. */
  datatype Effect = Effect(rt: State, pc: Pc, opens: bool, hands: Option<Connection>, shuts: bool, interrupts: bool)

  function Only(rt: State, pc: Pc): Effect { Effect(rt, pc, false, None, false, false) }

  function Discard(connection: Option<Connection>, otherwise: Pc): Pc
  {
    if connection.Some? then Discarding(connection.value) else otherwise
  }

  function Looked(rt: State, kind: Kind, reprobed: bool): Effect
  {
    var (t, look) := LookUp(rt, kind.Creating?);
    match look
    case Ready => Only(t, Done)
    case Refused => Only(t, Done)
    case Healed(lost) => Only(t, Losing(lost, kind, reprobed))
    case Await(signal) => Only(t, Waiting(signal, kind, reprobed))
    case Probe(probe) => Only(t, Probing(probe, kind.Acquire? && kind.lease, reprobed))
    case Create(drained) => Only(t, Draining(drained, kind, reprobed))
  }

  function Answered(rt: State, pc: Pc, move: Move): Effect
    requires pc.Probing?
  {
    match move
    case Broken(e) => if e.noServer then Only(rt, pc) else Only(FinishProbe(rt, pc.probe), Noticing(e))
    case Missing =>
      var (t, ok) := FinishAbsentProbe(rt, pc.probe, pc.lease);
      Only(t, if !ok then Looking(Acquire(pc.lease), pc.reprobed) else if pc.lease then Holding else Done)
    case Found =>
      var (t, drained, ok) := BeginBinding(rt, pc.probe);
      Only(t, if ok then Draining(drained, Acquire(pc.lease), pc.reprobed) else Looking(Acquire(pc.lease), pc.reprobed))
    case _ => Only(rt, pc)
  }

  function Settled(rt: State, pc: Pc): Effect
    requires pc.Opened?
  {
    if pc.err.None? then
      var (t, close) := FinishBinding(rt, if pc.session.Some? then pc.session.value else 0, pc.connection);
      var next := if rt.mode.Binding? && pc.kind.Creating? && !pc.creation then Looking(pc.kind, pc.reprobed) else Done;
      Only(t, Discard(close, next))
    else
      var e := pc.err.value;
      var (t, reset, close) := FailBinding(rt, pc.session, pc.connection, e, pc.creation);
      var again := reset && pc.mayRetry && !pc.reprobed && !IsContextError(e);
      Only(t, Discard(close, if again then Looking(pc.kind, true) else Done))
  }

  function Act(rt: State, made: nat, once: bool, pc: Pc, move: Move): Effect
  {
    match pc
    case Looking(kind, reprobed) => Looked(rt, kind, reprobed)
    case Losing(lost, kind, reprobed) => Effect(rt, Looking(kind, reprobed), false, lost, false, false)
    case Waiting(signal, kind, reprobed) =>
      Only(rt, if move.ContextEnds? then Done else if signal in rt.closed then Looking(kind, reprobed) else pc)
    case Probing(_, _, _) => Answered(rt, pc, move)
    case Draining(drained, kind, reprobed) =>
      if move.ContextEnds? && drained.Some? then
        Only(rt, Opened(None, None, Some(move.e), kind.Creating?, false, kind, reprobed))
      else Only(rt, if drained.None? || drained.value in rt.closed then Binder(kind, reprobed) else pc)
    case Binder(kind, reprobed) =>
      if move.Connects? && (move.creation ==> kind.Creating?) && (move.err.None? ==> move.session.Some?) then
        var connection := if move.opens then Some(made) else None;
        Effect(rt, Opened(connection, move.session, move.err, move.creation, !move.creation, kind, reprobed),
               move.opens, None, false, false)
      else Only(rt, pc)
    case Opened(_, _, _, _, _, _, _) => Settled(rt, pc)
    case Discarding(connection) => Effect(rt, Done, false, Some(connection), false, false)
    case Holding => Only(ReleaseUnbound(rt), Done)
    case Noticing(e) => Only(rt, if IsTerminal(e, rt.mode) then Judging(e) else Done)
    case Judging(e) =>
      var (t, lost) := Observe(rt, e);
      Effect(t, Discard(lost, Done), false, None, false, rt.mode.Binding?)
    case Stopping =>
      var (t, snapshot) := Shut(rt);
      Only(t, Shutting(snapshot))
    case Shutting(snapshot) => Effect(rt, Done, false, if once then None else snapshot, true, false)
    case Done => Only(rt, pc)
  }

  function HandsOf(connection: Option<Connection>): multiset<Connection>
  {
    if connection.Some? then multiset{connection.value} else multiset{}
  }

  function Moves(s: System, step: Step): System
  {
    match step
    case Arrive(kind) => s.(threads := s.threads + [Looking(kind, false)])
    case Report(e) => s.(threads := s.threads + [Noticing(e)])
    case Close => s.(threads := s.threads + [Stopping])
    case Thread(i, move) =>
      if i >= |s.threads| then s
      else
        var e := Act(s.rt, s.made, s.once, s.threads[i], move);
        System(e.rt, s.threads[i := e.pc], if e.pc.Probing? && !s.threads[i].Probing? then i else s.prober,
               s.made + if e.opens then 1 else 0, s.handed + HandsOf(e.hands), s.once || e.shuts,
               s.interrupted || e.interrupts)
  }

  function After(steps: seq<Step>): System
  {
    if steps == [] then Init() else Moves(After(steps[..|steps| - 1]), steps[|steps| - 1])
  }

  // ---------------------------------------------------------------- one state

  predicate Issued(s: State, signal: Option<Signal>)
  {
    signal.Some? ==> signal.value < s.signals && s.closed[signal.value] == 0
  }

  /** The signals agree with the state, and no state but Bound and Closed names a connection. */
  ghost predicate Wired(s: State)
  {
    && (s.binding.Some? <==> s.mode.Binding?)
    && (s.probe.Some? ==> s.mode.Unbound? || s.mode.Terminal?)
    && (s.unboundDrained.Some? <==> s.unboundActive > 0)
    && (s.command.Some? ==> s.mode.Bound? || s.mode.Closed?)
    && Issued(s, s.probe) && Issued(s, s.binding) && Issued(s, s.unboundDrained)
    && (s.probe.Some? ==> s.probe != s.binding && s.probe != s.unboundDrained)
    && (s.binding.Some? ==> s.binding != s.unboundDrained)
    && forall g: nat :: s.closed[g] <= if g < s.signals then 1 else 0
  }

  /** Whoever waits for signal may go on, or the state still holds it. */
  predicate Pending(s: State, signal: Signal)
  {
    signal in s.closed || s.probe == Some(signal) || s.binding == Some(signal)
  }

  ghost predicate Progress(s: State, t: State)
  {
    && s.closed <= t.closed
    && (s.probe.Some? && t.probe != s.probe ==> s.probe.value in t.closed)
    && (s.binding.Some? && t.binding != s.binding ==> s.binding.value in t.closed)
    && (s.unboundDrained.Some? && t.unboundDrained != s.unboundDrained ==>
          s.unboundDrained.value in t.closed && t.unboundActive == 0)
    && (s.mode.Closed? ==> t.mode.Closed? && t.command == s.command)
    && (t.unboundActive > s.unboundActive ==> s.mode.Unbound? && t.mode.Unbound?)
  }

  predicate IsHolder(pc: Pc) { pc.Holding? }

  /** A goroutine between starting a binding and ending it. */
  predicate IsBinder(pc: Pc) { pc.Draining? || pc.Binder? || pc.Opened? }

  /** Whether a goroutine has connection c in hand. */
  predicate Carries(pc: Pc, c: Connection)
  {
    match pc
    case Losing(lost, _, _) => lost == Some(c)
    case Opened(connection, _, _, _, _, _, _) => connection == Some(c)
    case Discarding(connection) => connection == c
    case _ => false
  }

  function Carrier(c: Connection): Pc -> bool { pc => Carries(pc, c) }

  function One(b: bool): nat { if b then 1 else 0 }

  /** Whether c is the runtime's own connection and not handed to a close. */
  predicate IsCurrent(rt: State, once: bool, c: Connection) { !once && rt.command == Some(c) }

  predicate PcFits(rt: State, pc: Pc)
  {
    match pc
    case Waiting(signal, _, _) => Pending(rt, signal)
    case Draining(drained, _, _) =>
      drained.Some? ==> drained.value in rt.closed || rt.unboundDrained == drained
    case Shutting(snapshot) => rt.mode.Closed? && snapshot == rt.command
    case _ => true
  }

  /** What a binder knows of the leases while no error was observed during its binding. */
  predicate LeasesDrained(rt: State, pc: Pc)
  {
    match pc
    case Draining(drained, _, _) => rt.unboundActive == 0 || (drained.Some? && rt.unboundDrained == drained)
    case Binder(_, _) => rt.unboundActive == 0
    case Opened(_, _, err, _, _, _, _) => err.None? ==> rt.unboundActive == 0
    case _ => true
  }

  predicate Unsettled(mode: Mode) { mode.Unbound? || mode.Bound? || mode.Terminal? }

  ghost predicate Kept(s: State, t: State) { Wired(t) && Progress(s, t) }

  lemma LookUpKeeps(s: State, creation: bool)
    requires Wired(s)
    ensures Kept(s, LookUp(s, creation).0)
  {
  }

  lemma FinishProbeKeeps(s: State, probe: Signal)
    requires Wired(s)
    ensures Kept(s, FinishProbe(s, probe))
  {
  }

  lemma FinishAbsentProbeKeeps(s: State, probe: Signal, lease: bool)
    requires Wired(s)
    ensures Kept(s, FinishAbsentProbe(s, probe, lease).0)
  {
  }

  lemma BeginBindingKeeps(s: State, probe: Signal)
    requires Wired(s) && (s.mode.Closed? || s.probe == Some(probe))
    ensures Kept(s, BeginBinding(s, probe).0)
  {
    hide FinishProbe;
    FinishProbeKeeps(s, probe);
    if s.probe == Some(probe) { ProbeEnds(s, probe); }
  }

  lemma ProbeEnds(s: State, probe: Signal)
    requires s.probe == Some(probe)
    ensures FinishProbe(s, probe) == s.(probe := None, closed := s.closed + multiset{probe})
  {
  }

  lemma ReleaseUnboundKeeps(s: State)
    requires Wired(s)
    ensures Kept(s, ReleaseUnbound(s))
  {
  }

  lemma FinishBindingSignalKeeps(s: State, t: State)
    requires Wired(s) && !t.mode.Binding? && t == s.(mode := t.mode, cause := t.cause, original := t.original, command := t.command)
    requires t.command.Some? ==> t.mode.Bound? || t.mode.Closed?
    requires s.probe.Some? ==> t.mode.Unbound? || t.mode.Terminal?
    requires s.mode.Closed? ==> t.mode.Closed? && t.command == s.command
    ensures Kept(s, FinishBindingSignal(t))
  {
  }

  lemma FinishBindingKeeps(s: State, session: Session, connection: Option<Connection>)
    requires Wired(s)
    ensures Kept(s, FinishBinding(s, session, connection).0)
  {
    hide FinishBindingSignal, Kept;
    FinishBindingSignalKeeps(s, if s.mode.Binding? then
      s.(original := Some(session), command := connection, mode := Bound) else s);
  }

  lemma FailBindingKeeps(s: State, session: Option<Session>, connection: Option<Connection>, e: Error, creation: bool)
    requires Wired(s)
    ensures Kept(s, FailBinding(s, session, connection, e, creation).0)
  {
    hide FinishBindingSignal, Kept, IsIntrinsicTerminal;
    FinishBindingSignalKeeps(s, if !s.mode.Binding? then s
      else if connection.None? && !IsIntrinsicTerminal(e) && (!creation || session.None?) then
        s.(mode := Unbound, cause := None)
      else s.(original := session, command := None, cause := Some(e), mode := Terminal));
  }

  lemma ObserveKeeps(s: State, e: Error)
    requires Wired(s)
    ensures Kept(s, Observe(s, e).0)
  {
    if s.mode.Terminal? || s.mode.Closed? {
    } else {
      FinishBindingSignalKeeps(s, s.(cause := Some(e), mode := Terminal, original := None, command := None));
    }
  }

  lemma ShutKeeps(s: State)
    requires Wired(s)
    ensures Kept(s, Shut(s).0)
  {
  }

  /** Leases and connections are neither made nor lost by a goroutine's step. */
  predicate Balanced(rt: State, made: nat, once: bool, pc: Pc, e: Effect, c: Connection)
  {
    && e.rt.unboundActive == rt.unboundActive - One(IsHolder(pc)) + One(IsHolder(e.pc))
    && One(e.hands == Some(c)) + One(Carries(e.pc, c)) + One(IsCurrent(e.rt, once || e.shuts, c))
       == One(Carries(pc, c)) + One(IsCurrent(rt, once, c)) + One(e.opens && c == made)
    && (e.shuts ==> e.rt.mode.Closed?)
  }

  /** How one goroutine's step changes who is binding. */
  predicate BindersMove(rt: State, pc: Pc, e: Effect)
  {
    && (IsBinder(e.pc) && !IsBinder(pc) ==> rt.mode.Unbound? && e.rt.mode.Binding?)
    && (IsBinder(pc) && !IsBinder(e.pc) ==> !e.rt.mode.Binding?)
    && (e.rt.mode.Binding? && !rt.mode.Binding? ==> IsBinder(e.pc) && !IsBinder(pc))
    && (rt.mode.Binding? && Unsettled(e.rt.mode) && !e.interrupts ==> IsBinder(pc) && !IsBinder(e.pc))
    && (e.rt.mode.Binding? && (IsBinder(pc) ==> LeasesDrained(rt, pc)) ==> LeasesDrained(e.rt, e.pc))
    && (e.rt.mode.Bound? ==> (rt.mode.Bound? && e.rt.unboundActive <= rt.unboundActive)
                             || (rt.mode.Binding? && IsBinder(pc)
                                 && (LeasesDrained(rt, pc) ==> e.rt.unboundActive == 0)))
  }

  /** How one goroutine's step changes who is probing. */
  predicate ProbeMoves(rt: State, pc: Pc, e: Effect)
  {
    if e.pc.Probing? && !pc.Probing? then
      rt.probe.None? && rt.mode.Unbound? && e.rt.probe == Some(e.pc.probe)
    else if pc.Probing? then
      || (e.pc == pc && e.rt == rt)
      || (!e.pc.Probing? && e.rt.probe == if rt.probe == Some(pc.probe) then None else rt.probe)
    else e.rt.probe == rt.probe || (e.rt.mode.Closed? && e.rt.probe.None?)
  }

  lemma ActKeeps(rt: State, made: nat, once: bool, pc: Pc, move: Move)
    requires Wired(rt) && (pc.Probing? ==> rt.mode.Closed? || rt.probe == Some(pc.probe))
    ensures Kept(rt, Act(rt, made, once, pc, move).rt)
  {
    hide Wired, Progress, LookUp, FinishProbe, FinishAbsentProbe, BeginBinding, ReleaseUnbound, FinishBinding,
      FailBinding, Observe, Shut, IsTerminal, IsContextError;
    NothingKeeps(rt);
    match pc
    case Looking(kind, _) => LookUpKeeps(rt, kind.Creating?);
    case Probing(probe, lease, _) =>
      FinishProbeKeeps(rt, probe);
      FinishAbsentProbeKeeps(rt, probe, lease);
      BeginBindingKeeps(rt, probe);
    case Opened(connection, session, err, creation, _, _, _) =>
      FinishBindingKeeps(rt, if session.Some? then session.value else 0, connection);
      if err.Some? { FailBindingKeeps(rt, session, connection, err.value, creation); }
    case Holding => ReleaseUnboundKeeps(rt);
    case Judging(e) => ObserveKeeps(rt, e);
    case Stopping => ShutKeeps(rt);
    case _ =>
  }

  lemma NothingKeeps(rt: State)
    requires Wired(rt)
    ensures Kept(rt, rt)
  {
  }

  /** What the balance of a step rests on. */
  predicate Balancing(rt: State, once: bool, pc: Pc)
  {
    && (rt.command.Some? ==> rt.mode.Bound? || rt.mode.Closed?) && (once ==> rt.mode.Closed?)
    && (pc.Holding? ==> rt.unboundActive > 0)
    && (pc.Shutting? ==> rt.mode.Closed? && pc.snapshot == rt.command)
  }

  lemma LookBalances(rt: State, made: nat, once: bool, pc: Pc, c: Connection)
    requires Balancing(rt, once, pc) && pc.Looking?
    ensures Balanced(rt, made, once, pc, Looked(rt, pc.kind, pc.reprobed), c)
  {
  }

  lemma AnswerBalances(rt: State, made: nat, once: bool, pc: Pc, move: Move, c: Connection)
    requires Balancing(rt, once, pc) && pc.Probing?
    ensures Balanced(rt, made, once, pc, Answered(rt, pc, move), c)
  {
  }

  lemma SettleBalances(rt: State, made: nat, once: bool, pc: Pc, c: Connection)
    requires Balancing(rt, once, pc) && pc.Opened?
    ensures Balanced(rt, made, once, pc, Settled(rt, pc), c)
  {
    hide IsIntrinsicTerminal, IsContextError, Closing;
  }

  lemma ObserveBalances(rt: State, e: Error)
    requires rt.command.Some? ==> rt.mode.Bound? || rt.mode.Closed?
    ensures var (t, lost) := Observe(rt, e);
      && t.unboundActive == rt.unboundActive && (rt.mode.Closed? ==> t == rt && lost.None?)
      && (!rt.mode.Closed? ==> t.command.None? && lost == rt.command)
  {
  }

  lemma ShutBalances(rt: State)
    ensures var (t, snapshot) := Shut(rt); t.unboundActive == rt.unboundActive && t.command == rt.command
  {
  }

  lemma ErrorBalances(rt: State, made: nat, once: bool, pc: Pc, move: Move, c: Connection)
    requires Balancing(rt, once, pc) && (pc.Judging? || pc.Stopping? || pc.Shutting?)
    ensures Balanced(rt, made, once, pc, Act(rt, made, once, pc, move), c)
  {
    hide IsTerminal, Looked, Answered, Settled, Observe, Shut;
    if pc.Judging? { ObserveBalances(rt, pc.e); }
    ShutBalances(rt);
  }

  lemma LeaseBalances(rt: State, made: nat, once: bool, pc: Pc, move: Move, c: Connection)
    requires Balancing(rt, once, pc) && (pc.Holding? || pc.Noticing? || pc.Waiting? || pc.Draining?)
    ensures Balanced(rt, made, once, pc, Act(rt, made, once, pc, move), c)
  {
    hide IsTerminal, Looked, Answered, Settled, Closing;
  }

  lemma ActBalances(rt: State, made: nat, once: bool, pc: Pc, move: Move, c: Connection)
    requires Balancing(rt, once, pc)
    ensures Balanced(rt, made, once, pc, Act(rt, made, once, pc, move), c)
  {
    hide IsTerminal, Looked, Answered, Settled, Observe, Shut, ReleaseUnbound;
    if pc.Looking? { LookBalances(rt, made, once, pc, c); }
    else if pc.Probing? { AnswerBalances(rt, made, once, pc, move, c); }
    else if pc.Opened? { SettleBalances(rt, made, once, pc, c); }
    else if pc.Judging? || pc.Stopping? || pc.Shutting? { ErrorBalances(rt, made, once, pc, move, c); }
    else if pc.Holding? || pc.Noticing? || pc.Waiting? || pc.Draining? {
      LeaseBalances(rt, made, once, pc, move, c);
    }
  }

  lemma SettlingEnds(rt: State, pc: Pc)
    requires pc.Opened?
    ensures var e := Settled(rt, pc);
      && (e.pc.Looking? || e.pc.Done? || e.pc.Discarding?) && e.rt.unboundActive == rt.unboundActive
      && (!rt.mode.Binding? ==> e.rt.mode == rt.mode)
      && (rt.mode.Binding? ==> if pc.err.None? then e.rt.mode.Bound? else e.rt.mode.Unbound? || e.rt.mode.Terminal?)
  {
    hide IsIntrinsicTerminal, IsContextError, Closing;
  }

  lemma SettleMovesBinders(rt: State, pc: Pc)
    requires pc.Opened?
    ensures BindersMove(rt, pc, Settled(rt, pc))
  {
    hide Settled;
    SettlingEnds(rt, pc);
  }

  lemma AnswerMovesBinders(rt: State, pc: Pc, move: Move)
    requires pc.Probing? && (rt.unboundDrained.Some? <==> rt.unboundActive > 0)
    ensures BindersMove(rt, pc, Answered(rt, pc, move))
  {
  }

  lemma LookMovesBinders(rt: State, pc: Pc)
    requires pc.Looking? && (rt.unboundDrained.Some? <==> rt.unboundActive > 0)
    ensures BindersMove(rt, pc, Looked(rt, pc.kind, pc.reprobed))
  {
  }

  lemma ErrorMovesBinders(rt: State, made: nat, once: bool, pc: Pc, move: Move)
    requires pc.Judging? || pc.Stopping? || pc.Shutting? || pc.Holding? || pc.Noticing?
    ensures BindersMove(rt, pc, Act(rt, made, once, pc, move))
  {
    hide IsTerminal, Looked, Answered, Settled, Closing;
  }

  lemma ActMovesBinders(rt: State, made: nat, once: bool, pc: Pc, move: Move)
    requires Wired(rt)
    ensures BindersMove(rt, pc, Act(rt, made, once, pc, move))
  {
    hide IsTerminal, Looked, Answered, Settled, Observe, Shut, ReleaseUnbound;
    if pc.Looking? { LookMovesBinders(rt, pc); }
    else if pc.Probing? { AnswerMovesBinders(rt, pc, move); }
    else if pc.Opened? { SettleMovesBinders(rt, pc); }
    else if pc.Judging? || pc.Stopping? || pc.Shutting? || pc.Holding? || pc.Noticing? {
      ErrorMovesBinders(rt, made, once, pc, move);
    }
  }

  lemma ActMovesProbe(rt: State, made: nat, once: bool, pc: Pc, move: Move)
    ensures ProbeMoves(rt, pc, Act(rt, made, once, pc, move))
  {
    hide IsTerminal, IsIntrinsicTerminal, Closing;
    if pc.Probing? { AnswerMovesProbe(rt, pc, move); }
  }

  lemma AnswerMovesProbe(rt: State, pc: Pc, move: Move)
    requires pc.Probing?
    ensures ProbeMoves(rt, pc, Answered(rt, pc, move))
  {
    hide Closing;
  }

  lemma ActFits(rt: State, made: nat, once: bool, pc: Pc, move: Move)
    requires Wired(rt) && PcFits(rt, pc)
    ensures var e := Act(rt, made, once, pc, move); PcFits(e.rt, e.pc)
  {
    hide IsTerminal, IsIntrinsicTerminal, Issued;
  }

  // ---------------------------------------------------------------- the invariant

  ghost predicate Owned(s: System)
  {
    forall c: nat :: s.handed[c] + Tally(s.threads, Carrier(c)) + One(IsCurrent(s.rt, s.once, c)) == One(c < s.made)
  }

  ghost predicate Probed(s: System)
  {
    && (s.rt.probe.Some? ==> s.prober < |s.threads| && s.threads[s.prober].Probing?)
    && forall i :: 0 <= i < |s.threads| && s.threads[i].Probing? ==>
         s.rt.mode.Closed? || (i == s.prober && s.rt.probe == Some(s.threads[i].probe))
  }

  /** While no error was observed during a binding, at most one goroutine binds, and only in
      Binding or once closed. */
  predicate Calm(s: System)
  {
    Tally(s.threads, IsBinder) <= (if Unsettled(s.rt.mode) then 0 else 1)
  }

  ghost predicate Inv(s: System)
  {
    && Wired(s.rt) && Owned(s) && Probed(s)
    && s.rt.unboundActive == Tally(s.threads, IsHolder)
    && (s.once ==> s.rt.mode.Closed?)
    && (forall i :: 0 <= i < |s.threads| ==> PcFits(s.rt, s.threads[i]))
    && (s.rt.mode.Binding? ==> Tally(s.threads, IsBinder) > 0)
    && (!s.interrupted ==> Calm(s))
  }

  lemma FitsStay(s: State, t: State, pc: Pc)
    requires Kept(s, t) && PcFits(s, pc)
    ensures PcFits(t, pc)
    ensures s.mode.Binding? && t.mode.Binding? && LeasesDrained(s, pc) ==> LeasesDrained(t, pc)
  {
  }

  lemma ThreadBalances(s: System, i: nat)
    requires Inv(s) && i < |s.threads|
    ensures PcFits(s.rt, s.threads[i]) && Balancing(s.rt, s.once, s.threads[i])
  {
    hide Wired, Tally, Probed, Calm, Owned;
    TallyHolds(s.threads, IsHolder, i);
    CommandNeedsMode(s.rt);
  }

  lemma StepCarries(s: System, i: nat, move: Move, c: nat)
    requires Inv(s) && i < |s.threads|
    ensures var t := Moves(s, Thread(i, move));
      t.handed[c] + Tally(t.threads, Carrier(c)) + One(IsCurrent(t.rt, t.once, c)) == One(c < t.made)
  {
    hide Wired, Tally, Act, Probed, Calm, IsCurrent, Carries, Unsettled;
    var pc := s.threads[i];
    var e := Act(s.rt, s.made, s.once, pc, move);
    ThreadBalances(s, i);
    ActBalances(s.rt, s.made, s.once, pc, move, c);
    TallyUpdate(s.threads, Carrier(c), i, e.pc);
    assert Carrier(c)(e.pc) == Carries(e.pc, c) && Carrier(c)(pc) == Carries(pc, c);
  }

  lemma StepOwns(s: System, i: nat, move: Move)
    requires Inv(s) && i < |s.threads|
    ensures Owned(Moves(s, Thread(i, move)))
    ensures var t := Moves(s, Thread(i, move));
            t.rt.unboundActive == Tally(t.threads, IsHolder) && (t.once && !s.once ==> t.rt.mode.Closed?)
  {
    hide Wired, Tally, Act, Probed, Calm, IsCurrent, Carries;
    var pc, t := s.threads[i], Moves(s, Thread(i, move));
    var e := Act(s.rt, s.made, s.once, pc, move);
    ThreadBalances(s, i);
    TallyUpdate(s.threads, IsHolder, i, e.pc);
    ActBalances(s.rt, s.made, s.once, pc, move, 0);
    forall c: nat
      ensures t.handed[c] + Tally(t.threads, Carrier(c)) + One(IsCurrent(t.rt, t.once, c)) == One(c < t.made)
    {
      StepCarries(s, i, move, c);
    }
  }

  lemma CommandNeedsMode(s: State)
    requires Wired(s)
    ensures s.command.Some? ==> s.mode.Bound? || s.mode.Closed?
  {
  }

  lemma StepProbes(s: System, i: nat, move: Move)
    requires Inv(s) && i < |s.threads|
    ensures Probed(Moves(s, Thread(i, move)))
    ensures Kept(s.rt, Moves(s, Thread(i, move)).rt)
  {
    hide Tally, Act, Calm, Owned, PcFits;
    var pc := s.threads[i];
    ActKeeps(s.rt, s.made, s.once, pc, move);
    ActMovesProbe(s.rt, s.made, s.once, pc, move);
  }

  lemma StepFits(s: System, i: nat, move: Move)
    requires Inv(s) && i < |s.threads|
    ensures var t := Moves(s, Thread(i, move)); forall j :: 0 <= j < |t.threads| ==> PcFits(t.rt, t.threads[j])
  {
    hide Tally, Act, Calm, Owned, PcFits, Kept, LeasesDrained;
    var t := Moves(s, Thread(i, move));
    ActKeeps(s.rt, s.made, s.once, s.threads[i], move);
    ActFits(s.rt, s.made, s.once, s.threads[i], move);
    forall j | 0 <= j < |t.threads| ensures PcFits(t.rt, t.threads[j]) {
      if j != i { FitsStay(s.rt, t.rt, s.threads[j]); }
    }
  }

  lemma StepBinds(s: System, i: nat, move: Move)
    requires Inv(s) && i < |s.threads|
    ensures var t := Moves(s, Thread(i, move));
            (t.rt.mode.Binding? ==> Tally(t.threads, IsBinder) > 0) && (!t.interrupted ==> Calm(t))
  {
    hide Tally, Act, Owned, Probed, PcFits, Wired, LeasesDrained, Progress;
    var pc, t := s.threads[i], Moves(s, Thread(i, move));
    StepProbes(s, i, move);
    ClosedStays(s.rt, t.rt);
    ActMovesBinders(s.rt, s.made, s.once, pc, move);
    TallyUpdate(s.threads, IsBinder, i, t.threads[i]);
    TallyHolds(s.threads, IsBinder, i);
  }

  lemma ClosedStays(s: State, t: State)
    requires Kept(s, t)
    ensures s.mode.Closed? ==> t.mode.Closed?
  {
  }

  lemma ArrivalKeepsInv(s: System, pc: Pc)
    requires Inv(s) && (pc.Looking? || pc.Noticing? || pc.Stopping?)
    ensures Inv(s.(threads := s.threads + [pc]))
  {
    hide Tally, Wired;
    TallyAppend(s.threads, IsHolder, pc);
    TallyAppend(s.threads, IsBinder, pc);
    ArrivalOwns(s, pc);
  }

  lemma ArrivalOwns(s: System, pc: Pc)
    requires Owned(s) && (pc.Looking? || pc.Noticing? || pc.Stopping?)
    ensures Owned(s.(threads := s.threads + [pc]))
  {
    hide Tally, IsCurrent;
    forall c: nat ensures Tally(s.threads + [pc], Carrier(c)) == Tally(s.threads, Carrier(c)) {
      TallyAppend(s.threads, Carrier(c), pc);
    }
  }

  lemma MovesKeepInv(s: System, step: Step)
    requires Inv(s)
    ensures Inv(Moves(s, step))
  {
    hide Tally, Act, Owned, Probed, PcFits, Wired, LeasesDrained, Progress, Calm;
    match step
    case Arrive(kind) => ArrivalKeepsInv(s, Looking(kind, false));
    case Report(e) => ArrivalKeepsInv(s, Noticing(e));
    case Close => ArrivalKeepsInv(s, Stopping);
    case Thread(i, move) =>
      if i < |s.threads| {
        StepOwns(s, i, move);
        StepProbes(s, i, move);
        StepFits(s, i, move);
        StepBinds(s, i, move);
        ClosedStays(s.rt, Moves(s, step).rt);
      }
  }

  lemma InitInv()
    ensures Inv(Init())
  {
  }

  lemma {:induction false} EveryRunKeepsInv(steps: seq<Step>)
    ensures Inv(After(steps))
  {
    hide Moves, Inv;
    if steps == [] {
      InitInv();
    } else {
      EveryRunKeepsInv(steps[..|steps| - 1]);
      MovesKeepInv(After(steps[..|steps| - 1]), steps[|steps| - 1]);
    }
  }

  // ---------------------------------------------------------------- every run

  /** In every reachable state the signals say what the state is: the binding signal is open
      exactly in Binding, a probe only in Unbound or Terminal and its prober is at work, the
      drained signal exactly while leases are live, the count is the number of leases held, and
      no signal is closed twice. */
  lemma SignalsAgreeWithTheState(steps: seq<Step>)
    ensures var s := After(steps);
      && (s.rt.binding.Some? <==> s.rt.mode.Binding?)
      && (s.rt.mode.Binding? ==> exists i :: 0 <= i < |s.threads| && IsBinder(s.threads[i]))
      && (s.rt.probe.Some? ==> s.rt.mode.Unbound? || s.rt.mode.Terminal?)
      && (s.rt.probe.Some? ==> s.prober < |s.threads| && s.threads[s.prober].Probing?)
      && (s.rt.probe.Some? ==> s.rt.probe == Some(s.threads[s.prober].probe))
      && (s.rt.unboundDrained.Some? <==> s.rt.unboundActive > 0)
      && s.rt.unboundActive == Tally(s.threads, IsHolder)
      && (forall g: nat :: s.rt.closed[g] <= 1)
      && Issued(s.rt, s.rt.probe) && Issued(s.rt, s.rt.binding) && Issued(s.rt, s.rt.unboundDrained)
  {
    hide After, Tally, Owned, Calm, PcFits, Issued;
    EveryRunKeepsInv(steps);
    TallyAll(After(steps).threads, IsBinder);
  }

  /** Nobody waits for a signal that is neither closed nor still held by the state. */
  lemma NoWaiterIsForgotten(steps: seq<Step>, i: nat)
    requires i < |After(steps).threads|
    ensures var rt, pc := After(steps).rt, After(steps).threads[i];
      && (pc.Waiting? ==> pc.signal in rt.closed || rt.probe == Some(pc.signal) || rt.binding == Some(pc.signal))
      && (pc.Draining? && pc.drained.Some? ==> pc.drained.value in rt.closed || rt.unboundDrained == pc.drained)
  {
    hide After, Tally, Owned, Calm, Wired, Probed;
    EveryRunKeepsInv(steps);
    assert PcFits(After(steps).rt, After(steps).threads[i]);
  }

  /** Every connection opened is the current one, in one goroutine's hands, or handed to a close,
      and exactly one of these; only a bound or closed runtime has a current one. */
  lemma ConnectionsHaveOneOwner(steps: seq<Step>, c: Connection)
    ensures var s := After(steps);
      && s.handed[c] + Tally(s.threads, Carrier(c)) + One(IsCurrent(s.rt, s.once, c)) == One(c < s.made)
      && (s.rt.command.Some? ==> s.rt.mode.Bound? || s.rt.mode.Closed?)
  {
    hide After, Tally, Probed, Calm, PcFits, IsCurrent, Issued;
    EveryRunKeepsInv(steps);
  }

  /** Once the runtime has closed and nobody has a connection in hand, all that were ever opened
      have been handed to a close once. */
  lemma ClosingLeaksNothing(steps: seq<Step>, c: Connection)
    requires After(steps).once && c < After(steps).made
    requires forall i :: 0 <= i < |After(steps).threads| ==> !Carries(After(steps).threads[i], c)
    ensures After(steps).handed[c] == 1
  {
    hide After, Tally, Carries;
    ConnectionsHaveOneOwner(steps, c);
    TallyAll(After(steps).threads, Carrier(c));
  }

  // ---------------------------------------------------------------- who binds for whom

  /** For each goroutine, the signal of the binding it last started. */
  function Owns(steps: seq<Step>): (own: seq<Option<Signal>>)
    ensures |own| == |After(steps).threads|
  {
    if steps == [] then []
    else
      var before := steps[..|steps| - 1];
      var s, own, step := After(before), Owns(before), steps[|steps| - 1];
      match step
      case Thread(i, _) =>
        if i < |own| && IsBinder(After(steps).threads[i]) && !IsBinder(s.threads[i]) then
          own[i := After(steps).rt.binding]
        else own
      case _ => own + [None]
  }

  /** A goroutine that is binding started a binding, and knows the leases of that one drained. */
  ghost predicate KnowsItsBinding(s: System, i: nat, own: Option<Signal>)
    requires i < |s.threads|
  {
    IsBinder(s.threads[i]) ==>
      && own.Some? && own.value < s.rt.signals
      && (s.rt.binding == own ==> LeasesDrained(s.rt, s.threads[i]))
      && (!s.interrupted && s.rt.mode.Binding? ==> s.rt.binding == own)
  }

  /** A binding signal that appears is the next one issued, and none is exchanged for another. */
  predicate BindingMoves(s: State, t: State)
  {
    && s.signals <= t.signals
    && (t.binding.Some? && t.binding != s.binding ==>
          s.binding.None? && t.binding == Some(t.signals - 1) && s.signals < t.signals)
  }

  lemma ActMovesBinding(rt: State, made: nat, once: bool, pc: Pc, move: Move)
    requires Wired(rt)
    ensures BindingMoves(rt, Act(rt, made, once, pc, move).rt)
  {
    hide IsTerminal, IsIntrinsicTerminal, Issued, Closing;
    if pc.Opened? { SettleMovesBinding(rt, pc); }
    else if pc.Probing? { AnswerMovesBinding(rt, pc, move); }
  }

  lemma SettleMovesBinding(rt: State, pc: Pc)
    requires pc.Opened?
    ensures BindingMoves(rt, Settled(rt, pc).rt)
  {
    hide IsIntrinsicTerminal, Closing;
  }

  lemma AnswerMovesBinding(rt: State, pc: Pc, move: Move)
    requires pc.Probing? && (rt.binding.Some? <==> rt.mode.Binding?)
    ensures BindingMoves(rt, Answered(rt, pc, move).rt)
  {
    hide Closing;
  }

  /** While calm, a goroutine that binds does so alone, and in the current binding if any. */
  lemma CalmBinderIsAlone(s: System, i: nat, j: nat)
    requires !s.interrupted && Calm(s) && i < |s.threads| && j < |s.threads| && i != j
    requires IsBinder(s.threads[i])
    ensures !IsBinder(s.threads[j]) && !Unsettled(s.rt.mode)
  {
    hide Tally;
    TallyHolds(s.threads, IsBinder, i);
    if IsBinder(s.threads[j]) {
      var rest := s.threads[i := Done];
      TallyUpdate(s.threads, IsBinder, i, Done);
      TallyHolds(rest, IsBinder, j);
    }
  }

  /** The goroutine that moves. */
  lemma MoverKnows(s: System, i: nat, move: Move, own: Option<Signal>)
    requires Inv(s) && i < |s.threads| && KnowsItsBinding(s, i, own)
    ensures var t := Moves(s, Thread(i, move));
      KnowsItsBinding(t, i, if IsBinder(t.threads[i]) && !IsBinder(s.threads[i]) then t.rt.binding else own)
  {
    hide Act, Tally, Owned, Probed, PcFits, LeasesDrained, Calm, Progress;
    var t := Moves(s, Thread(i, move));
    ActMovesBinders(s.rt, s.made, s.once, s.threads[i], move);
    ActMovesBinding(s.rt, s.made, s.once, s.threads[i], move);
    StepProbes(s, i, move);
  }

  /** A goroutine that looks on. */
  lemma OtherKnows(s: System, i: nat, move: Move, j: nat, own: Option<Signal>)
    requires Inv(s) && i < |s.threads| && j < |s.threads| && i != j && KnowsItsBinding(s, j, own)
    ensures KnowsItsBinding(Moves(s, Thread(i, move)), j, own)
  {
    hide Act, Tally, Owned, Probed, LeasesDrained, Progress, Calm;
    var t := Moves(s, Thread(i, move));
    if IsBinder(s.threads[j]) {
      ActMovesBinders(s.rt, s.made, s.once, s.threads[i], move);
      ActMovesBinding(s.rt, s.made, s.once, s.threads[i], move);
      StepProbes(s, i, move);
      assert PcFits(s.rt, s.threads[j]);
      FitsStay(s.rt, t.rt, s.threads[j]);
      if !s.interrupted { CalmBinderIsAlone(s, j, i); }
    }
  }

  lemma {:induction false} BindersKnowTheirBinding(steps: seq<Step>)
    ensures forall i: nat :: i < |After(steps).threads| ==> KnowsItsBinding(After(steps), i, Owns(steps)[i])
  {
    hide KnowsItsBinding, Act;
    if steps != [] {
      var before, step := steps[..|steps| - 1], steps[|steps| - 1];
      var s, own := After(before), Owns(before);
      BindersKnowTheirBinding(before);
      EveryRunKeepsInv(before);
      forall i: nat | i < |After(steps).threads| ensures KnowsItsBinding(After(steps), i, Owns(steps)[i]) {
        match step
        case Thread(k, move) =>
          if k < |s.threads| {
            if i == k { MoverKnows(s, k, move, own[k]); } else { OtherKnows(s, k, move, i, own[i]); }
          }
        case _ => ArrivalKnows(s, step, i, own + [None]);
      }
    }
  }

  lemma ArrivalKnows(s: System, step: Step, i: nat, own: seq<Option<Signal>>)
    requires !step.Thread? && |own| == |s.threads| + 1 && i < |own|
    requires i < |s.threads| ==> KnowsItsBinding(s, i, own[i])
    ensures KnowsItsBinding(Moves(s, step), i, own[i])
  {
  }

  /** In every run, interrupted or not, a runtime becomes bound over live leases exactly when the
      goroutine that finishes did not start the current binding and leases are live at that
      moment. */
  lemma BindsOverALeaseExactly(steps: seq<Step>, i: nat, move: Move)
    requires i < |After(steps).threads|
    ensures var s, t := After(steps), After(steps + [Thread(i, move)]);
      s.rt.mode.Binding? && t.rt.mode.Bound? ==>
        && IsBinder(s.threads[i]) && t.rt.unboundActive == s.rt.unboundActive
        && (t.rt.unboundActive > 0 <==> s.rt.binding != Owns(steps)[i] && s.rt.unboundActive > 0)
  {
    hide Act, Tally, Owned, Probed, PcFits, LeasesDrained, Calm, After, Owns, Wired;
    var s := After(steps);
    OneMore(steps, Thread(i, move));
    EveryRunKeepsInv(steps);
    BindersKnowTheirBinding(steps);
    ActMovesBinders(s.rt, s.made, s.once, s.threads[i], move);
    BindingKeepsLeases(s, i, move);
  }

  lemma BindingKeepsLeases(s: System, i: nat, move: Move)
    requires Inv(s) && i < |s.threads|
    ensures var t := Moves(s, Thread(i, move));
            IsBinder(s.threads[i]) && s.rt.mode.Binding? && t.rt.mode.Bound? ==> t.rt.unboundActive == s.rt.unboundActive
  {
    hide Act, Tally, Owned, Probed, PcFits, LeasesDrained, Calm, Progress, Wired, Carries, IsCurrent;
    CommandNeedsMode(s.rt);
    assert PcFits(s.rt, s.threads[i]);
    if IsBinder(s.threads[i]) {
      ActBalances(s.rt, s.made, s.once, s.threads[i], move, 0);
      if Moves(s, Thread(i, move)).threads[i].Holding? { BinderTakesNoLease(s.rt, s.made, s.once, s.threads[i], move); }
    }
  }

  lemma BinderTakesNoLease(rt: State, made: nat, once: bool, pc: Pc, move: Move)
    requires IsBinder(pc)
    ensures !Act(rt, made, once, pc, move).pc.Holding?
  {
    hide FinishBindingSignal, IsIntrinsicTerminal;
  }

  lemma UninterruptedBinderOwns(steps: seq<Step>, i: nat)
    requires i < |After(steps).threads|
    ensures var s := After(steps);
      !s.interrupted && s.rt.mode.Binding? && IsBinder(s.threads[i]) ==> s.rt.binding == Owns(steps)[i]
  {
    hide After, Owns;
    BindersKnowTheirBinding(steps);
    assert KnowsItsBinding(After(steps), i, Owns(steps)[i]);
  }

  /** A step of an uninterrupted run adds no lease to a bound runtime, and binds it over none. */
  lemma UninterruptedStep(steps: seq<Step>, i: nat, move: Move)
    requires i < |After(steps).threads| && !After(steps).interrupted
    requires After(steps).rt.mode.Bound? ==> After(steps).rt.unboundActive == 0
    ensures var t := After(steps + [Thread(i, move)]); t.rt.mode.Bound? ==> t.rt.unboundActive == 0
  {
    hide After, Owns, Act, Tally, Owned, Probed, PcFits, LeasesDrained, Calm;
    var s := After(steps);
    OneMore(steps, Thread(i, move));
    EveryRunKeepsInv(steps);
    BindsOverALeaseExactly(steps, i, move);
    UninterruptedBinderOwns(steps, i);
    ActMovesBinders(s.rt, s.made, s.once, s.threads[i], move);
  }

  lemma {:induction false} UninterruptedRun(steps: seq<Step>)
    requires !After(steps).interrupted
    ensures After(steps).rt.mode.Bound? ==> After(steps).rt.unboundActive == 0
  {
    hide Act, After;
    if steps != [] {
      var before, step := steps[..|steps| - 1], steps[|steps| - 1];
      assert before + [step] == steps;
      OneMore(before, step);
      UninterruptedRun(before);
      if step.Thread? && step.i < |After(before).threads| { UninterruptedStep(before, step.i, step.move); }
    } else {
      EmptyRun();
    }
  }

  lemma EmptyRun()
    ensures After([]) == Init()
  {
  }

  /** While no error is observed during a binding, every goroutine that binds started the current
      binding, so a bound runtime has no live lease, and no two goroutines bind at once. */
  lemma BoundHasNoLease(steps: seq<Step>)
    requires !After(steps).interrupted
    ensures After(steps).rt.mode.Bound? ==> After(steps).rt.unboundActive == 0
    ensures Tally(After(steps).threads, IsBinder) <= 1
  {
    hide After, Tally, Owned, Probed, PcFits, Wired;
    UninterruptedRun(steps);
    EveryRunKeepsInv(steps);
  }

  /** Closed is never left, and names the same connection for ever. */
  lemma {:induction false} ClosedIsNeverLeft(steps: seq<Step>, more: seq<Step>)
    requires After(steps).rt.mode.Closed?
    ensures After(steps + more).rt.mode.Closed? && After(steps + more).rt.command == After(steps).rt.command
  {
    hide Act, Tally, Inv;
    if more == [] {
      assert steps + more == steps;
    } else {
      var all, n := steps + more, |more| - 1;
      assert all[..|all| - 1] == steps + more[..n];
      ClosedIsNeverLeft(steps, more[..n]);
      EveryRunKeepsInv(steps + more[..n]);
      StepStaysClosed(After(steps + more[..n]), all[|all| - 1]);
    }
  }

  lemma StepStaysClosed(s: System, step: Step)
    requires Inv(s) && s.rt.mode.Closed?
    ensures Moves(s, step).rt.mode.Closed? && Moves(s, step).rt.command == s.rt.command
  {
    hide Act, Tally, Owned, Calm, PcFits, Probed;
    if step.Thread? && step.i < |s.threads| { StepProbes(s, step.i, step.move); }
  }

  lemma OneMore(steps: seq<Step>, step: Step)
    ensures After(steps + [step]) == Moves(After(steps), step)
  {
    assert (steps + [step])[..|steps|] == steps;
  }

  const LOST := Error(false, true, false, false, false, false)

  lemma Extend(steps: seq<Step>, i: nat, move: Move)
    requires i < |After(steps).threads|
    ensures var s, t := After(steps), After(steps + [Thread(i, move)]);
      var e := Act(s.rt, s.made, s.once, s.threads[i], move);
      && t.rt == e.rt && t.threads == s.threads[i := e.pc] && t.interrupted == (s.interrupted || e.interrupts)
      && t.once == (s.once || e.shuts)
  {
    hide Act, After;
    OneMore(steps, Thread(i, move));
  }

  lemma Arrives(steps: seq<Step>, kind: Kind)
    ensures var s, t := After(steps), After(steps + [Arrive(kind)]);
      t == s.(threads := s.threads + [Looking(kind, false)])
  {
    hide Act, After;
    OneMore(steps, Arrive(kind));
  }

  /** A runtime without signals, leases or connection. */
  predicate Bare(rt: State)
  {
    rt.probe.None? && rt.unboundActive == 0 && rt.unboundDrained.None? && rt.command.None?
  }

  /** A creation past its drain. */
  lemma CreationBinds() returns (steps: seq<Step>)
    ensures var s := After(steps);
      s.rt.mode.Binding? && Bare(s.rt) && s.threads == [Binder(Creating, false)]
  {
    hide After;
    steps := [];
    AfterNothing();
    Arrives(steps, Creating);
    steps := steps + [Arrive(Creating)];
    assert After(steps).threads == [Looking(Creating, false)];
    Extend(steps, 0, Go);
    steps := steps + [Thread(0, Go)];
    assert After(steps).threads == [Draining(None, Creating, false)];
    Extend(steps, 0, Go);
    steps := steps + [Thread(0, Go)];
  }

  lemma AfterNothing()
    ensures After([]) == Init()
  {
  }

  /** An error is observed while it binds. */
  lemma BindingIsInterrupted() returns (steps: seq<Step>)
    ensures var s := After(steps);
      s.interrupted && s.rt.mode.Terminal? && Bare(s.rt) && s.threads == [Binder(Creating, false), Done]
  {
    hide After;
    steps := CreationBinds();
    OneMore(steps, Report(LOST));
    steps := steps + [Report(LOST)];
    assert After(steps).threads == [Binder(Creating, false), Noticing(LOST)];
    Extend(steps, 1, Go);
    steps := steps + [Thread(1, Go)];
    assert After(steps).threads == [Binder(Creating, false), Judging(LOST)];
    Extend(steps, 1, Go);
    steps := steps + [Thread(1, Go)];
  }

  /** The next acquisition heals the runtime and starts a probe. */
  lemma RuntimeHeals() returns (steps: seq<Step>)
    ensures var s := After(steps);
      && s.interrupted && s.rt.mode.Unbound? && s.rt.unboundActive == 0
      && |s.threads| == 3 && s.threads[0] == Binder(Creating, false)
      && s.threads[2].Probing? && s.threads[2].lease && s.rt.probe == Some(s.threads[2].probe)
  {
    hide After;
    steps := BindingIsInterrupted();
    Arrives(steps, Acquire(true));
    steps := steps + [Arrive(Acquire(true))];
    Extend(steps, 2, Go);
    steps := steps + [Thread(2, Go)];
    assert After(steps).threads[2] == Losing(None, Acquire(true), false) && After(steps).rt.mode.Unbound?;
    Extend(steps, 2, Go);
    steps := steps + [Thread(2, Go)];
    assert After(steps).threads[2] == Looking(Acquire(true), false);
    Extend(steps, 2, Go);
    steps := steps + [Thread(2, Go)];
  }

  /** It gets a lease, and another creation starts a binding that waits for the lease. */
  lemma BindingWaitsForALease() returns (steps: seq<Step>)
    ensures var s := After(steps);
      && s.interrupted && s.rt.mode.Binding? && s.rt.unboundActive == 1
      && |s.threads| == 4 && s.threads[0] == Binder(Creating, false)
  {
    hide After;
    steps := RuntimeHeals();
    Extend(steps, 2, Missing);
    steps := steps + [Thread(2, Missing)];
    assert After(steps).rt.unboundActive == 1 && After(steps).rt.probe.None? && After(steps).rt.mode.Unbound?;
    Arrives(steps, Creating);
    steps := steps + [Arrive(Creating)];
    Extend(steps, 3, Go);
    steps := steps + [Thread(3, Go)];
  }

  /** The condition is needed: the interrupted creation finishes inside the later binding, and
      the runtime is bound over the lease. */
  lemma InterruptedBindingBindsOverALease() returns (steps: seq<Step>)
    ensures After(steps).interrupted && After(steps).rt.mode.Bound? && After(steps).rt.unboundActive == 1
  {
    hide After;
    steps := BindingWaitsForALease();
    var connects := Connects(Some(0), true, None, true);
    Extend(steps, 0, connects);
    steps := steps + [Thread(0, connects)];
    assert After(steps).threads[0].Opened? && After(steps).threads[0].err.None? && After(steps).rt.mode.Binding?;
    Extend(steps, 0, Go);
    steps := steps + [Thread(0, Go)];
  }
}
