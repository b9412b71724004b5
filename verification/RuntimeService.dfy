/** What callers get from the runtime: which errors end it, what it then reports, and that
    acquisitions get through. */
module RuntimeService {
  import opened Counting
  import opened Options
  import opened Runtime
  import opened RuntimeRuns

  // ---------------------------------------------------------------- what the fields say

  /** What the runtime names in each mode: a server only while bound, and an error once lost. */
  predicate FieldsFit(s: State)
  {
    match s.mode
    case Unbound => s.original.None? && s.command.None? && s.cause.None?
    case Binding => s.original.None? && s.command.None? && s.cause.None?
    case Bound => s.original.Some? && s.cause.None?
    case Terminal => s.command.None? && s.cause.Some?
    case Closed => s.cause.Some?
  }

  /** A cause stays until the runtime is healed, and closing gives one only if there is none. */
  predicate CauseStays(s: State, t: State)
  {
    && (s.cause.Some? && !t.mode.Unbound? ==> t.cause == s.cause)
    && (s.cause.None? && t.mode.Closed? ==> t.cause == Some(INSTANCE_CLOSED))
  }

  lemma LookFits(rt: State, kind: Kind, reprobed: bool)
    requires FieldsFit(rt)
    ensures FieldsFit(Looked(rt, kind, reprobed).rt) && CauseStays(rt, Looked(rt, kind, reprobed).rt)
  {
  }

  lemma AnswerFits(rt: State, pc: Pc, move: Move)
    requires FieldsFit(rt) && pc.Probing?
    ensures FieldsFit(Answered(rt, pc, move).rt) && CauseStays(rt, Answered(rt, pc, move).rt)
  {
  }

  lemma SettleFits(rt: State, pc: Pc)
    requires FieldsFit(rt) && pc.Opened?
    ensures FieldsFit(Settled(rt, pc).rt) && CauseStays(rt, Settled(rt, pc).rt)
  {
    hide IsIntrinsicTerminal, IsContextError, Closing;
  }

  lemma ActFitsFields(rt: State, made: nat, once: bool, pc: Pc, move: Move)
    requires FieldsFit(rt)
    ensures FieldsFit(Act(rt, made, once, pc, move).rt) && CauseStays(rt, Act(rt, made, once, pc, move).rt)
  {
    hide Looked, Answered, Settled, Closing, IsTerminal;
    if pc.Looking? { LookFits(rt, pc.kind, pc.reprobed); }
    else if pc.Probing? { AnswerFits(rt, pc, move); }
    else if pc.Opened? { SettleFits(rt, pc); }
  }

  lemma StepFitsFields(s: System, step: Step)
    requires FieldsFit(s.rt)
    ensures FieldsFit(Moves(s, step).rt) && CauseStays(s.rt, Moves(s, step).rt)
  {
    hide Act;
    if step.Thread? && step.i < |s.threads| { ActFitsFields(s.rt, s.made, s.once, s.threads[step.i], step.move); }
  }

  /** In every run the runtime names a server only while it is bound, and has an error to report
      exactly once it is lost or closed; the first cause is the one reported, also after a close,
      until the runtime is healed. */
  lemma {:induction false} EveryStateKnowsItsCause(steps: seq<Step>)
    ensures FieldsFit(After(steps).rt)
    ensures forall step :: CauseStays(After(steps).rt, After(steps + [step]).rt)
  {
    hide Moves, FieldsFit, CauseStays;
    if steps == [] {
      assert FieldsFit(After(steps).rt) by { NewFits(); }
    } else {
      EveryStateKnowsItsCause(steps[..|steps| - 1]);
      StepFitsFields(After(steps[..|steps| - 1]), steps[|steps| - 1]);
    }
    forall step ensures CauseStays(After(steps).rt, After(steps + [step]).rt) {
      OneMore(steps, step);
      StepFitsFields(After(steps), step);
    }
  }

  lemma NewFits()
    ensures FieldsFit(New()) && After([]).rt == New()
  {
  }

  // ---------------------------------------------------------------- which errors end it

  /** The error shows that the daemon is not the one bound, that the connection is gone, or that
      it is unknown what tmux did, other than by the caller's own context. */
  predicate Untrusted(e: Error)
  {
    e.daemonReplaced || e.controlClosed || (e.outcomeUnknown && !(e.canceled || e.deadline))
  }

  /** An error goes on to end the runtime exactly if it shows the daemon lost, or the server absent
      that the runtime was bound to. A context's end, a refused command or an absent server before
      any binding ends nothing. */
  lemma ErrorsAreJudgedExactly(s: System, i: nat, move: Move)
    requires i < |s.threads| && s.threads[i].Noticing?
    ensures var t, e := Moves(s, Thread(i, move)), s.threads[i].e;
      && t.rt == s.rt
      && (t.threads[i] == Judging(e) <==> Untrusted(e) || (e.noServer && s.rt.mode.Bound?))
      && (t.threads[i] != Judging(e) ==> t.threads[i].Done?)
  {
  }

  /** What makes a goroutine's step lose the runtime, and with which error. */
  predicate Loses(rt: State, pc: Pc, e: Error)
  {
    match pc
    case Judging(judged) => judged == e && !rt.mode.Terminal? && !rt.mode.Closed?
    case Opened(connection, session, err, creation, _, _, _) =>
      err == Some(e) && rt.mode.Binding? && (connection.Some? || Untrusted(e) || (creation && session.Some?))
    case _ => false
  }

  /** In every run the runtime is lost exactly by an error judged to be terminal, or by a binding
      that failed after something had been opened or created, or with such an error; it then
      reports that error, and names the session that the failed binding had. */
  lemma LostExactly(steps: seq<Step>, i: nat, move: Move, e: Error)
    requires i < |After(steps).threads|
    ensures var s, t := After(steps), After(steps + [Thread(i, move)]);
      !s.rt.mode.Terminal? ==>
        && (t.rt.mode.Terminal? && t.rt.cause == Some(e) <==> Loses(s.rt, s.threads[i], e))
        && (t.rt.mode.Terminal? ==>
              t.rt.original == if s.threads[i].Opened? then s.threads[i].session else None)
  {
    hide After, Looked, Answered, Closing, IsContextError;
    var s := After(steps);
    OneMore(steps, Thread(i, move));
    NeverTerminal(s.rt, s.threads[i], move);
  }

  lemma NeverTerminal(rt: State, pc: Pc, move: Move)
    ensures pc.Looking? && !rt.mode.Terminal? ==> !Looked(rt, pc.kind, pc.reprobed).rt.mode.Terminal?
    ensures pc.Probing? && !rt.mode.Terminal? ==> !Answered(rt, pc, move).rt.mode.Terminal?
  {
  }

  /** A goroutine whose binding failed looks again exactly on its first try, if it may, and if the
      failure was no end of its context and left nothing behind; the runtime is then unbound. */
  lemma RetriesExactly(rt: State, pc: Pc)
    requires pc.Opened? && pc.err.Some?
    ensures var t, e := Settled(rt, pc), pc.err.value;
      && (t.pc.Looking? <==>
            && rt.mode.Binding? && pc.connection.None? && !Untrusted(e) && !(pc.creation && pc.session.Some?)
            && pc.mayRetry && !pc.reprobed && !e.canceled && !e.deadline)
      && (t.pc.Looking? ==> t.pc.reprobed && t.rt.mode.Unbound?)
      && (rt.mode.Binding? ==>
            (t.rt.mode.Unbound? <==> pc.connection.None? && !Untrusted(e) && !(pc.creation && pc.session.Some?)))
  {
    hide Closing;
  }

  // ---------------------------------------------------------------- acquisitions get through

  /** In every run an acquisition is served at once only by a bound runtime, refused only by a
      closed one, and otherwise waits for a signal that is held, or goes on itself. */
  lemma RefusedExactlyWhenClosed(steps: seq<Step>, creation: bool)
    ensures var rt := After(steps).rt;
      var (t, look) := LookUp(rt, creation);
      && (look.Ready? <==> rt.mode.Bound?) && (look.Refused? <==> rt.mode.Closed?)
      && (look.Await? ==> t == rt && (rt.probe == Some(look.signal) || rt.binding == Some(look.signal)))
  {
    hide After, Tally, Owned, Probed, PcFits, Calm;
    EveryRunKeepsInv(steps);
  }

  predicate AllDone(threads: seq<Pc>) { forall i :: 0 <= i < |threads| ==> threads[i].Done? }

  /** Nobody is at work. */
  predicate Quiet(s: System) { AllDone(s.threads) }

  lemma QuietIsFree(steps: seq<Step>)
    requires Quiet(After(steps))
    ensures var rt := After(steps).rt;
      rt.unboundActive == 0 && rt.unboundDrained.None? && rt.probe.None? && !rt.mode.Binding?
  {
    hide After, Tally, Owned, PcFits, Calm, Issued;
    var s := After(steps);
    EveryRunKeepsInv(steps);
    TallyAll(s.threads, IsHolder);
    TallyAll(s.threads, IsBinder);
  }

  lemma Steps(steps: seq<Step>, i: nat, move: Move) returns (more: seq<Step>)
    requires i < |After(steps).threads|
    ensures var s := After(steps);
      var e := Act(s.rt, s.made, s.once, s.threads[i], move);
      && more == steps + [Thread(i, move)]
      && After(more).rt == e.rt && After(more).threads == s.threads[i := e.pc]
      && After(more).made == s.made + if e.opens then 1 else 0
  {
    hide Act, After;
    more := steps + [Thread(i, move)];
    OneMore(steps, Thread(i, move));
  }

  /** A step of the last goroutine. */
  lemma Goes(steps: seq<Step>, move: Move) returns (more: seq<Step>)
    requires After(steps).threads != []
    ensures var s, i := After(steps), |After(steps).threads| - 1;
      var e := Act(s.rt, s.made, s.once, s.threads[i], move);
      && more == steps + [Thread(i, move)]
      && After(more).rt == e.rt && After(more).threads == s.threads[i := e.pc]
      && After(more).made == s.made + if e.opens then 1 else 0
  {
    hide Act, After;
    more := Steps(steps, |After(steps).threads| - 1, move);
  }

  /** The last goroutine is at pc, and nobody else is at work. */
  predicate Alone(s: System, pc: Pc)
  {
    s.threads != [] && AllDone(s.threads[..|s.threads| - 1]) && s.threads[|s.threads| - 1] == pc
  }

  predicate Fresh(rt: State) { rt.unboundActive == 0 && rt.unboundDrained.None? && rt.probe.None? }

  /** A goroutine that comes to a runtime that is at rest and not closed looks at it unbound, healed
      if need be, or bound. */
  lemma ComesIn(steps: seq<Step>, kind: Kind) returns (more: seq<Step>)
    requires Quiet(After(steps)) && !After(steps).rt.mode.Closed?
    ensures var s, t := After(steps), After(more);
      && steps <= more && Alone(t, Looking(kind, false)) && Fresh(t.rt) && t.made == s.made
      && if s.rt.mode.Bound? then t.rt == s.rt else t.rt.mode.Unbound?
  {
    hide After;
    QuietIsFree(steps);
    Arrives(steps, kind);
    more := steps + [Arrive(kind)];
    var n := |After(steps).threads|;
    assert After(more).threads[..n] == After(steps).threads;
    if After(steps).rt.mode.Terminal? {
      more := Goes(more, Go);
      assert After(more).threads[n].Losing? && After(more).threads[..n] == After(steps).threads;
      more := Goes(more, Go);
      assert After(more).threads[..n] == After(steps).threads;
    }
  }

  /** From starting a binding, when nobody holds a lease, to the bound runtime. */
  lemma Binds(steps: seq<Step>, kind: Kind, session: Session, creation: bool) returns (more: seq<Step>)
    requires Alone(After(steps), Draining(None, kind, false)) && After(steps).rt.mode.Binding?
    requires creation <==> kind.Creating?
    ensures var s, t := After(steps), After(more);
      && steps <= more && Quiet(t) && t.rt.mode.Bound?
      && t.rt.command == Some(s.made) && t.rt.original == Some(session)
  {
    hide After;
    var n := |After(steps).threads| - 1;
    var others := After(steps).threads[..n];
    more := Goes(steps, Go);
    assert After(more).threads[n] == Binder(kind, false) && After(more).threads[..n] == others;
    more := Goes(more, Connects(Some(session), true, None, creation));
    assert After(more).threads[n].Opened? && After(more).threads[..n] == others;
    more := Goes(more, Go);
    assert After(more).threads[n].Done? && After(more).threads[..n] == others;
  }

  /** An acquisition alone at work gets through: a bound runtime serves it as it is; an unbound or
      lost one is bound to a session of the server found, over a new connection. */
  lemma AnAcquisitionBinds(steps: seq<Step>, lease: bool, session: Session) returns (more: seq<Step>)
    requires Quiet(After(steps)) && !After(steps).rt.mode.Closed?
    ensures var s, t := After(steps), After(more);
      && steps <= more && Quiet(t) && t.rt.mode.Bound?
      && if s.rt.mode.Bound? then t.rt == s.rt
         else t.rt.command == Some(s.made) && t.rt.original == Some(session)
  {
    hide After;
    more := ComesIn(steps, Acquire(lease));
    var n := |After(more).threads| - 1;
    var others := After(more).threads[..n];
    more := Goes(more, Go);
    assert After(more).threads[..n] == others;
    if !After(steps).rt.mode.Bound? {
      assert After(more).threads[n].Probing?;
      more := Goes(more, Found);
      assert After(more).threads[n] == Draining(None, Acquire(lease), false) && After(more).threads[..n] == others;
      more := Binds(more, Acquire(lease), session, false);
    }
  }

  /** Without a server an acquisition gets the unbound runtime, with a lease if it asked for one. */
  lemma AnAbsentServerIsLeased(steps: seq<Step>, lease: bool) returns (more: seq<Step>)
    requires Quiet(After(steps)) && !After(steps).rt.mode.Closed? && !After(steps).rt.mode.Bound?
    ensures var t := After(more);
      && steps <= more && t.rt.mode.Unbound? && t.rt.probe.None?
      && (lease ==> Alone(t, Holding) && t.rt.unboundActive == 1)
      && (!lease ==> Quiet(t) && t.rt.unboundActive == 0)
  {
    hide After;
    more := ComesIn(steps, Acquire(lease));
    var n := |After(more).threads| - 1;
    var others := After(more).threads[..n];
    more := Goes(more, Go);
    assert After(more).threads[n].Probing? && After(more).threads[..n] == others;
    more := Goes(more, Missing);
    assert After(more).threads[..n] == others;
  }

  /** Giving the only lease back leaves none, and the runtime as it is. */
  lemma ALeaseIsGivenBack(steps: seq<Step>) returns (more: seq<Step>)
    requires Alone(After(steps), Holding)
    ensures var s, t := After(steps), After(more);
      steps <= more && Quiet(t) && t.rt.unboundActive == 0 && t.rt.unboundDrained.None? && t.rt.mode == s.rt.mode
  {
    hide After, Closing;
    var n := |After(steps).threads| - 1;
    var others := After(steps).threads[..n];
    more := Goes(steps, Go);
    assert After(more).threads[n].Done? && After(more).threads[..n] == others;
    QuietIsFree(more);
  }

  /** A session creation alone at work binds the runtime to the session it creates, and keeps the
      connection that created it. */
  lemma ACreationBinds(steps: seq<Step>, session: Session) returns (more: seq<Step>)
    requires Quiet(After(steps)) && !After(steps).rt.mode.Closed? && !After(steps).rt.mode.Bound?
    ensures var s, t := After(steps), After(more);
      && steps <= more && Quiet(t) && t.rt.mode.Bound?
      && t.rt.command == Some(s.made) && t.rt.original == Some(session)
  {
    hide After;
    more := ComesIn(steps, Creating);
    var n := |After(more).threads| - 1;
    var others := After(more).threads[..n];
    more := Goes(more, Go);
    assert After(more).threads[n] == Draining(None, Creating, false) && After(more).threads[..n] == others;
    more := Binds(more, Creating, session, true);
  }

  /** A creation that finds a server binds the runtime to it first and then looks again, to create
      its session on the bound runtime. */
  lemma ACreationBindsWhatItFinds(steps: seq<Step>, session: Session) returns (more: seq<Step>)
    requires Quiet(After(steps)) && !After(steps).rt.mode.Closed? && !After(steps).rt.mode.Bound?
    ensures var s, t := After(steps), After(more);
      && steps <= more && Alone(t, Looking(Creating, false)) && t.rt.mode.Bound?
      && t.rt.command == Some(s.made) && t.rt.original == Some(session)
  {
    hide After;
    more := ComesIn(steps, Creating);
    var n := |After(more).threads| - 1;
    var others := After(more).threads[..n];
    more := Goes(more, Go);
    assert After(more).threads[n] == Draining(None, Creating, false) && After(more).threads[..n] == others;
    more := Goes(more, Go);
    assert After(more).threads[n] == Binder(Creating, false) && After(more).threads[..n] == others;
    more := Goes(more, Connects(Some(session), true, None, false));
    assert After(more).threads[n].Opened? && After(more).threads[..n] == others;
    more := Goes(more, Go);
    assert After(more).threads[..n] == others;
  }

  // ---------------------------------------------------------------- everybody leaves

  const CANCELED := Error(false, false, false, false, true, false)

  /** The steps are the goroutine's own, with what its context's end makes of them. */
  predicate OnlyBy(steps: seq<Step>, more: seq<Step>, i: nat, n: nat)
  {
    steps <= more && |more| <= |steps| + n && forall k :: |steps| <= k < |more| ==> more[k].Thread? && more[k].i == i
  }

  predicate Leaves(s: System, i: nat) { i < |s.threads| && s.threads[i].Done? }

  lemma BinderLeaves(steps: seq<Step>, i: nat) returns (more: seq<Step>)
    requires i < |After(steps).threads|
    requires var pc := After(steps).threads[i]; pc.Draining? || pc.Binder?
    ensures OnlyBy(steps, more, i, 4) && Leaves(After(more), i)
  {
    hide After, Looked, Answered, Closing;
    more := steps;
    if After(more).threads[i].Draining? { more := Steps(more, i, ContextEnds(CANCELED)); }
    if After(more).threads[i].Binder? { more := Steps(more, i, Connects(None, false, Some(CANCELED), false)); }
    assert After(more).threads[i].Opened? && After(more).threads[i].err == Some(CANCELED);
    more := Steps(more, i, Go);
    if After(more).threads[i].Discarding? { more := Steps(more, i, Go); }
  }

  lemma OpenedLeaves(steps: seq<Step>, i: nat) returns (more: seq<Step>)
    requires i < |After(steps).threads| && After(steps).threads[i].Opened?
    ensures OnlyBy(steps, more, i, 2)
    ensures i < |After(more).threads| && (After(more).threads[i].Done? || After(more).threads[i].Looking?)
  {
    hide After, Looked, Answered, Closing, IsIntrinsicTerminal, IsContextError;
    more := Steps(steps, i, Go);
    if After(more).threads[i].Discarding? { more := Steps(more, i, Go); }
  }

  lemma LookingLeaves(steps: seq<Step>, i: nat) returns (more: seq<Step>)
    requires i < |After(steps).threads| && After(steps).threads[i].Looking? && !After(steps).rt.mode.Terminal?
    ensures OnlyBy(steps, more, i, 5) && Leaves(After(more), i)
  {
    hide After;
    more := Steps(steps, i, Go);
    if After(more).threads[i].Waiting? { more := Steps(more, i, ContextEnds(CANCELED)); }
    else if After(more).threads[i].Probing? { more := ProbingLeaves(more, i); }
    else if After(more).threads[i].Draining? { more := BinderLeaves(more, i); }
  }

  lemma ProbingLeaves(steps: seq<Step>, i: nat) returns (more: seq<Step>)
    requires i < |After(steps).threads| && After(steps).threads[i].Probing?
    ensures OnlyBy(steps, more, i, 2) && Leaves(After(more), i)
  {
    hide After, Looked;
    more := Steps(steps, i, Broken(CANCELED));
    assert After(more).threads[i] == Noticing(CANCELED);
    more := Steps(more, i, Go);
  }

  /** In every reachable state a goroutine whose context ends leaves by at most nine steps of its
      own: it waits for nobody. */
  lemma EveryGoroutineLeaves(steps: seq<Step>, i: nat) returns (more: seq<Step>)
    requires i < |After(steps).threads|
    ensures OnlyBy(steps, more, i, 9) && Leaves(After(more), i)
  {
    hide After, Looked, Answered, Settled;
    more := steps;
    match After(steps).threads[i]
    case Waiting(_, _, _) => more := Steps(steps, i, ContextEnds(CANCELED));
    case Probing(_, _, _) => more := ProbingLeaves(steps, i);
    case Draining(_, _, _) => more := BinderLeaves(steps, i);
    case Binder(_, _) => more := BinderLeaves(steps, i);
    case Noticing(_) => more := NoticingLeaves(steps, i);
    case Judging(_) => more := NoticingLeaves(steps, i);
    case Stopping =>
      more := Steps(steps, i, Go);
      more := Steps(more, i, Go);
    case Shutting(_) => more := Steps(steps, i, Go);
    case Discarding(_) => more := Steps(steps, i, Go);
    case Holding => more := Steps(steps, i, Go);
    case Done =>
    case Opened(_, _, _, _, _, _, _) =>
      more := OpenedLeaves(steps, i);
      if After(more).threads[i].Looking? { more := HealedLooksAndLeaves(more, i); }
    case Looking(_, _) => more := HealedLooksAndLeaves(steps, i);
    case Losing(_, _, _) =>
      more := Steps(steps, i, Go);
      more := HealedLooksAndLeaves(more, i);
  }

  lemma HealedLooksAndLeaves(steps: seq<Step>, i: nat) returns (more: seq<Step>)
    requires i < |After(steps).threads| && After(steps).threads[i].Looking?
    ensures OnlyBy(steps, more, i, 7) && Leaves(After(more), i)
  {
    hide After, Answered, Settled;
    more := steps;
    if After(more).rt.mode.Terminal? {
      more := Steps(more, i, Go);
      assert After(more).threads[i].Losing? && After(more).rt.mode.Unbound?;
      more := Steps(more, i, Go);
    }
    more := LookingLeaves(more, i);
  }

  lemma NoticingLeaves(steps: seq<Step>, i: nat) returns (more: seq<Step>)
    requires i < |After(steps).threads| && (After(steps).threads[i].Noticing? || After(steps).threads[i].Judging?)
    ensures OnlyBy(steps, more, i, 3) && Leaves(After(more), i)
  {
    hide After, Closing, IsTerminal;
    more := steps;
    if After(more).threads[i].Noticing? { more := Steps(more, i, Go); }
    if After(more).threads[i].Judging? { more := Steps(more, i, Go); }
    if After(more).threads[i].Discarding? { more := Steps(more, i, Go); }
  }

  /** A goroutine that waits goes on exactly when its signal has been closed, and a binding is
      counted as interrupted exactly when an observed error ends it. */
  lemma WaitersGoOnExactly(steps: seq<Step>, i: nat, move: Move)
    requires i < |After(steps).threads|
    ensures var s, t := After(steps), After(steps + [Thread(i, move)]);
      && (s.threads[i].Waiting? && !move.ContextEnds? ==>
            t.rt == s.rt && (t.threads[i] != s.threads[i] <==> s.threads[i].signal in s.rt.closed))
      && (s.threads[i].Draining? && !move.ContextEnds? ==>
            (t.threads[i].Binder? <==> (s.threads[i].drained.Some? ==> s.threads[i].drained.value in s.rt.closed)))
      && (t.interrupted <==> s.interrupted || (s.rt.mode.Binding? && t.rt.mode.Terminal? && s.threads[i].Judging?))
  {
    hide After, Looked, Answered, Settled, Closing;
    OneMore(steps, Thread(i, move));
    OthersInterruptNothing(After(steps).rt, After(steps).threads[i], move);
  }

  lemma OthersInterruptNothing(rt: State, pc: Pc, move: Move)
    ensures pc.Looking? ==> !Looked(rt, pc.kind, pc.reprobed).interrupts
    ensures pc.Probing? ==> !Answered(rt, pc, move).interrupts
    ensures pc.Opened? ==> !Settled(rt, pc).interrupts
  {
    hide LookUp, FinishProbe, FinishAbsentProbe, BeginBinding, FinishBinding, FailBinding;
  }
}
