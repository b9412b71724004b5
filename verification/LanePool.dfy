/** A pool of control connections, each carrying one command at a time.

    Every lane is a connection with its own callers and request loop, as RequestLifecycle models
    it, and its steps interleave with the pool's. Receiving from and sending to the channel of
    free lanes, each check, and each mutex section, is one step. A step whose guard does not
    hold leaves the state as it is. */
module LanePool {
  import opened ControlGuard
  import opened CapturedResults
  import opened ControlRequest
  import opened Counting
  import opened Options
  import opened ReplyFence
  import R = RequestLifecycle

  datatype CallError = InvalidRequest | Of(failure: Failure)

  const NO_ERROR := Of(NoFailure)

  /** A failed command that says nothing about its connection. */
  predicate ConnectionSurvives(err: CallError)
  {
    err.InvalidRequest? || (!err.failure.NoFailure? && err.failure.cause == ContextError)
  }

  predicate OutcomeIsUnknown(err: CallError) { err.Of? && err.failure.OutcomeUnknown? }

  datatype Pool = Pool(lanes: nat, free: seq<nat>, live: int, failure: Option<CallError>, stopped: bool, drained: nat)

  function NewPool(lanes: nat): Pool { Pool(lanes, seq(lanes, i => i), lanes, None, false, 0) }

  /** The mutex section of release for a connection that is gone. */
  function Retire(p: Pool, err: CallError): (Pool, bool)
  {
    (p.(failure := if p.failure.None? then Some(err) else p.failure, live := p.live - 1), p.live - 1 == 0)
  }

  class ControlLanePool {
    const lanes: nat
    var free: seq<nat>
    var live: int
    var failure: Option<CallError>
    var stopped: bool
    /** How often the drained channel was closed. */
    var drained: nat

    ghost function State(): Pool
      reads this
    {
      Pool(lanes, free, live, failure, stopped, drained)
    }

    constructor (lanes: nat)
      ensures State() == NewPool(lanes)
    {
      this.lanes, live := lanes, lanes;
      free, failure, stopped, drained := [], None, false, 0;
      new;
      for i := 0 to lanes
        invariant State() == NewPool(lanes).(free := seq(i, k => k))
      {
        free := free + [i];
      }
    }

    method Receive() returns (lane: Option<nat>)
      modifies this`free
      ensures lane == if old(free) == [] then None else Some(old(free)[0])
      ensures State() == old(State()).(free := if old(free) == [] then [] else old(free)[1..])
    {
      if |free| == 0 { return None; }
      lane := Some(free[0]);
      free := free[1..];
    }

    method Send(lane: nat) returns (sent: bool)
      modifies this`free
      ensures sent == (|old(free)| < lanes)
      ensures State() == old(State()).(free := if sent then old(free) + [lane] else old(free))
    {
      if |free| == lanes || |free| > lanes { return false; }
      free := free + [lane];
      sent := true;
    }

    method RetireLane(err: CallError) returns (closeDrained: bool)
      modifies this`live, this`failure
      ensures (State(), closeDrained) == Retire(old(State()), err)
    {
      if failure.None? { failure := Some(err); }
      live := live - 1;
      closeDrained := live == 0;
    }
  }

  // ---------------------------------------------------------------- callers and fences

  /** Where a caller or a fence goroutine is. */
  datatype Pc =
    | Idle
    | CheckingStop
    | CheckingDrain
    | Selecting
    | Got(lane: nat)
    | GotInTime(lane: nat)
    | PuttingBack(lane: nat)
    | Calling(lane: nat)
    | Awaiting(lane: nat, request: nat)
    | Crossing(lane: nat, request: nat)
    | Releasing(lane: nat, err: CallError)
    | Closing(lane: nat, last: bool)
    | Done

  /** Which of the four a lane is: free, with a goroutine (held, or draining behind a fence),
      or retired. */
  datatype Place = Free | With(thread: nat) | Retired

  /** A lane's requests are numbered in the order they are sent, and used counts them. */
  datatype System = System(pool: Pool, threads: seq<Pc>, places: seq<Place>, lanes: seq<R.System>, used: seq<nat>)

  function Init(envs: seq<R.Env>): System
  {
    System(NewPool(|envs|), [], seq(|envs|, i => Free), seq(|envs|, i requires 0 <= i < |envs| => R.Init(envs[i])),
           seq(|envs|, i => 0))
  }

  datatype Step =
    | Arrive
    | Stop
    | OnLane(lane: nat, step: R.Step)
    | Check(i: nat, contextDone: bool)
    | Take(i: nat)
    | GiveUp(i: nat)
    | PutBack(i: nat)
    | Reject(i: nat)
    | Launch(i: nat)
    | Finish(i: nat)
    | Cross(i: nat)
    | Release(i: nat)
    | CloseDrained(i: nat)

  function To(s: System, i: nat, pc: Pc): System
    requires i < |s.threads|
  {
    s.(threads := s.threads[i := pc])
  }

  function Put(s: System, lane: nat, place: Place): System
  {
    if lane < |s.places| then s.(places := s.places[lane := place]) else s
  }

  /** Sending a lane back; a full channel blocks. */
  function SendBack(s: System, i: nat, lane: nat): System
    requires i < |s.threads|
  {
    if |s.pool.free| >= s.pool.lanes then s
    else Put(To(s, i, Done), lane, Free).(pool := s.pool.(free := s.pool.free + [lane]))
  }

  /** What the lane's own step may be: of requests sent so far, and a fence is sent with a
      context that never ends. */
  predicate Allowed(s: System, lane: nat, step: R.Step)
    requires lane < |s.used|
  {
    step.Caller? ==>
      step.r < s.used[lane] && (step.move.ContextFires? ==> Crossing(lane, step.r) !in s.threads)
  }

  /** Whether the goroutine's request has come back. */
  predicate CameBack(s: System, pc: Pc)
    requires pc.Awaiting? || pc.Crossing?
  {
    pc.lane < |s.lanes| && pc.request < |s.lanes[pc.lane].reqs| && s.lanes[pc.lane].reqs[pc.request].caller.Returned?
  }

  function ErrorOf(s: System, pc: Pc): CallError
    requires (pc.Awaiting? || pc.Crossing?) && CameBack(s, pc)
  {
    Of(s.lanes[pc.lane].reqs[pc.request].caller.response.failure)
  }

  /** Whether the lane has a request to send. */
  predicate CanSend(envs: seq<R.Env>, s: System, lane: nat)
  {
    lane < |envs| && lane < |s.used| && s.used[lane] < |envs[lane].jobs|
  }

  function Moves(envs: seq<R.Env>, s: System, step: Step): System
  {
    match step
    case Arrive => s.(threads := s.threads + [Idle])
    case Stop => s.(pool := s.pool.(stopped := true))
    case OnLane(l, move) =>
      if l < |s.lanes| && l < |envs| && l < |s.used| && |s.lanes[l].reqs| == |envs[l].jobs| && Allowed(s, l, move) then
        s.(lanes := s.lanes[l := R.Moves(envs[l], s.lanes[l], move)])
      else s
    case _ => if step.i < |s.threads| then ThreadMoves(envs, s, step.i, step) else s
  }

  /** One check of acquire. */
  function Checked(s: System, pc: Pc, contextDone: bool): Pc
  {
    match pc
    case Idle => if contextDone then Done else CheckingStop
    case CheckingStop => if s.pool.stopped then Done else CheckingDrain
    case CheckingDrain => if s.pool.drained > 0 then Done else Selecting
    case Got(lane) => if contextDone then PuttingBack(lane) else GotInTime(lane)
    case GotInTime(lane) => if s.pool.stopped then PuttingBack(lane) else Calling(lane)
    case _ => pc
  }

  function ThreadMoves(envs: seq<R.Env>, s: System, i: nat, step: Step): System
    requires i < |s.threads|
  {
    var pc := s.threads[i];
    match step
    case Check(_, contextDone) => To(s, i, Checked(s, pc, contextDone))
    case Take(_) =>
      if !pc.Selecting? || s.pool.free == [] then s
      else
        var lane := s.pool.free[0];
        Put(To(s, i, Got(lane)), lane, With(i)).(pool := s.pool.(free := s.pool.free[1..]))
    case GiveUp(_) => if pc.Selecting? then To(s, i, Done) else s
    case PutBack(_) => if pc.PuttingBack? then SendBack(s, i, pc.lane) else s
    case Reject(_) => if pc.Calling? then To(s, i, Releasing(pc.lane, InvalidRequest)) else s
    case Launch(_) =>
      if pc.Calling? && CanSend(envs, s, pc.lane) then
        To(s, i, Awaiting(pc.lane, s.used[pc.lane])).(used := s.used[pc.lane := s.used[pc.lane] + 1])
      else s
    case Finish(_) =>
      if !pc.Awaiting? || !CameBack(s, pc) then s
      else
        var err := ErrorOf(s, pc);
        if OutcomeIsUnknown(err) && ConnectionSurvives(err) then
          if CanSend(envs, s, pc.lane) then
            Put(s.(threads := s.threads[i := Done] + [Crossing(pc.lane, s.used[pc.lane])],
                   used := s.used[pc.lane := s.used[pc.lane] + 1]), pc.lane, With(|s.threads|))
          else s
        else To(s, i, Releasing(pc.lane, err))
    case Cross(_) =>
      if pc.Crossing? && CameBack(s, pc) then To(s, i, Releasing(pc.lane, ErrorOf(s, pc))) else s
    case Release(_) =>
      if !pc.Releasing? then s
      else if pc.err == NO_ERROR || ConnectionSurvives(pc.err) then SendBack(s, i, pc.lane)
      else
        var (pool, last) := Retire(s.pool, pc.err);
        Put(To(s, i, Closing(pc.lane, last)), pc.lane, Retired).(pool := pool)
    case CloseDrained(_) =>
      if !pc.Closing? then s
      else To(s, i, Done).(pool := s.pool.(drained := s.pool.drained + if pc.last then 1 else 0))
    case _ => s
  }

  function After(envs: seq<R.Env>, steps: seq<Step>): System
  {
    if steps == [] then Init(envs) else Moves(envs, After(envs, steps[..|steps| - 1]), steps[|steps| - 1])
  }

  // ---------------------------------------------------------------- places and counts

  predicate IsFree(p: Place) { p.Free? }

  predicate IsRetired(p: Place) { p.Retired? }

  predicate IsCloser(pc: Pc) { pc.Closing? && pc.last }

  function LaneOf(pc: Pc): Option<nat>
  {
    match pc
    case Got(lane) => Some(lane)
    case GotInTime(lane) => Some(lane)
    case PuttingBack(lane) => Some(lane)
    case Calling(lane) => Some(lane)
    case Awaiting(lane, _) => Some(lane)
    case Crossing(lane, _) => Some(lane)
    case Releasing(lane, _) => Some(lane)
    case _ => None
  }

  /** Every lane is in exactly one place, and the channel and the goroutines agree. */
  ghost predicate Placed(s: System)
  {
    && |s.places| == |s.lanes| == |s.used| == s.pool.lanes
    && (forall l: nat :: multiset(s.pool.free)[l] == if l < |s.places| && s.places[l].Free? then 1 else 0)
    && (forall i :: 0 <= i < |s.threads| && LaneOf(s.threads[i]).Some? ==>
          LaneOf(s.threads[i]).value < |s.places| && s.places[LaneOf(s.threads[i]).value] == With(i))
    && (forall l :: 0 <= l < |s.places| && s.places[l].With? ==>
          s.places[l].thread < |s.threads| && LaneOf(s.threads[s.places[l].thread]) == Some(l))
  }

  ghost predicate Counted(s: System)
  {
    && |s.pool.free| == Tally(s.places, IsFree)
    && s.pool.live == |s.places| - Tally(s.places, IsRetired)
    && s.pool.drained + Tally(s.threads, IsCloser) == if s.pool.lanes > 0 && s.pool.live == 0 then 1 else 0
  }

  // ---------------------------------------------------------------- what is left on a lane

  /** Request r has returned and told nothing against its connection. */
  predicate Heard(lane: R.System, r: nat)
    requires r < |lane.reqs|
  {
    lane.reqs[r].caller.Returned? && !R.Ends(lane.reqs[r].caller.response)
  }

  /** Besides, nothing of it is left on the connection, nor ever will be. */
  predicate Quiet(lane: R.System, r: nat)
    requires r < |lane.reqs|
  {
    Heard(lane, r) && (R.IsDrained(lane, r) || lane.reqs[r].caller.response.failure.Unsent?)
  }

  ghost predicate QuietBelow(lane: R.System, n: nat)
  {
    n <= |lane.reqs| && forall r: nat :: r < n ==> Quiet(lane, r)
  }

  /** Each request before the fence is quiet, or is as soon as the loop has the fence. */
  ghost predicate BehindFence(lane: R.System, q: nat)
  {
    && q < |lane.reqs| && !lane.reqs[q].contextDone
    && forall r: nat :: r < q ==> Heard(lane, r) && (Quiet(lane, r) || R.Behind(lane, r, q))
  }

  /** The lane keeps its connection's invariant, and requests not sent yet are untouched. */
  ghost predicate LaneFits(env: R.Env, lane: R.System, used: nat)
  {
    && R.GoodEnv(env) && R.Inv(env, lane) && R.EndsFit(lane) && used <= |lane.reqs| == |env.jobs|
    && forall r: nat :: used <= r < |lane.reqs| ==> lane.reqs[r] == R.FRESH
  }

  /** What a goroutine may rely on of its lane. */
  ghost predicate HolderFits(lane: R.System, used: nat, pc: Pc)
  {
    match pc
    case Got(_) => QuietBelow(lane, used)
    case GotInTime(_) => QuietBelow(lane, used)
    case PuttingBack(_) => QuietBelow(lane, used)
    case Calling(_) => QuietBelow(lane, used)
    case Awaiting(_, r) => used == r + 1 && QuietBelow(lane, r)
    case Crossing(_, q) => used == q + 1 && BehindFence(lane, q)
    case Releasing(_, err) =>
      if err == NO_ERROR || ConnectionSurvives(err) then QuietBelow(lane, used) else R.Closed(lane)
    case _ => true
  }

  ghost predicate Clean(envs: seq<R.Env>, s: System)
  {
    && |s.places| == |s.lanes| == |s.used| == |envs|
    && (forall l :: 0 <= l < |envs| ==> LaneFits(envs[l], s.lanes[l], s.used[l]))
    && (forall l :: 0 <= l < |envs| && s.places[l].Free? ==> QuietBelow(s.lanes[l], s.used[l]))
    && (forall l :: 0 <= l < |envs| && s.places[l].Retired? ==> R.Closed(s.lanes[l]))
    && (forall i :: 0 <= i < |s.threads| && LaneOf(s.threads[i]).Some? ==>
          var l := LaneOf(s.threads[i]).value; l < |envs| && HolderFits(s.lanes[l], s.used[l], s.threads[i]))
  }

  ghost predicate Inv(envs: seq<R.Env>, s: System) { Placed(s) && Counted(s) && Clean(envs, s) }

  // ---------------------------------------------------------------- a lane's own steps

  lemma QuietStays(env: R.Env, lane: R.System, step: R.Step, r: nat)
    requires R.Inv(env, lane) && r < |lane.reqs| && Quiet(lane, r)
    ensures Quiet(R.Moves(env, lane, step), r)
  {
    hide R.Moves, R.Inv, R.IsDrained;
    SameSize(env, lane);
    R.ReturnedStays(env, lane, step, r);
    if R.IsDrained(lane, r) { R.DrainedStays(env, lane, step, r); }
  }

  lemma SameSize(env: R.Env, lane: R.System)
    requires R.Inv(env, lane)
    ensures |lane.reqs| == |env.jobs|
  {
    hide R.Fits;
  }

  /** A step of others leaves a request that was not received alone, but for its context. */
  lemma UntouchedStays(env: R.Env, lane: R.System, step: R.Step, r: nat)
    requires R.Inv(env, lane) && r < |lane.reqs| && !(step.Caller? && step.r == r)
    ensures R.Moves(env, lane, step).reqs[r].contextDone == lane.reqs[r].contextDone
    ensures lane.reqs[r] == R.FRESH ==> R.Moves(env, lane, step).reqs[r] == R.FRESH
  {
    hide Drain, R.CallerMoves, R.Advance;
    assert R.Fits(env.jobs[r], lane.reqs[r], R.At(lane.runner, r));
    if step.Runner? && !lane.runner.Waiting? && !lane.runner.Stopped? && !lane.runner.Reading? {
      LoopLeavesContext(lane.reqs[r], lane.runner, lane.closeRequested, step.writeFails);
    }
  }

  lemma LoopLeavesContext(q: R.Req, at: R.RunnerPc, closing: bool, writeFails: bool)
    requires !at.Waiting? && !at.Stopped? && !at.Reading?
    ensures R.Advance(q, at, closing, writeFails).0.contextDone == q.contextDone
  {
  }

  lemma OnlyFiringEnds(q: R.Req, move: R.CallerStep, closing: bool, stopped: bool)
    ensures !move.ContextFires? ==> R.CallerMoves(q, move, closing, stopped).contextDone == q.contextDone
  {
  }

  lemma ContextStays(env: R.Env, lane: R.System, step: R.Step, q: nat)
    requires R.Inv(env, lane) && q < |lane.reqs| && !(step.Caller? && step.r == q && step.move.ContextFires?)
    ensures R.Moves(env, lane, step).reqs[q].contextDone == lane.reqs[q].contextDone
  {
    hide Drain, R.CallerMoves, R.Advance, R.Fits;
    SameSize(env, lane);
    if step.Caller? && step.r == q {
      OnlyFiringEnds(lane.reqs[q], step.move, lane.closeRequested, lane.stopRequested || lane.runner.Stopped?);
    } else {
      UntouchedStays(env, lane, step, q);
    }
  }

  lemma LaneStepFits(env: R.Env, lane: R.System, used: nat, step: R.Step)
    requires LaneFits(env, lane, used) && (step.Caller? ==> step.r < used)
    ensures LaneFits(env, R.Moves(env, lane, step), used)
  {
    hide R.Moves, R.Inv, R.GoodEnv, R.EndsFit;
    R.MovesKeepInv(env, lane, step);
    R.EndsFitStays(env, lane, step);
    forall r: nat | used <= r < |lane.reqs| ensures R.Moves(env, lane, step).reqs[r] == R.FRESH {
      UntouchedStays(env, lane, step, r);
    }
  }

  lemma LaneStepKeepsQuiet(env: R.Env, lane: R.System, n: nat, step: R.Step)
    requires R.Inv(env, lane) && QuietBelow(lane, n)
    ensures QuietBelow(R.Moves(env, lane, step), n)
  {
    hide R.Moves, R.Inv, Quiet;
    SameSize(env, lane);
    forall r: nat | r < n ensures Quiet(R.Moves(env, lane, step), r) { QuietStays(env, lane, step, r); }
  }

  lemma LaneStepKeepsFence(env: R.Env, lane: R.System, q: nat, step: R.Step)
    requires R.Inv(env, lane) && BehindFence(lane, q)
    requires !(step.Caller? && step.r == q && step.move.ContextFires?)
    ensures BehindFence(R.Moves(env, lane, step), q)
  {
    hide R.Moves, R.Inv, Quiet, R.Behind;
    SameSize(env, lane);
    ContextStays(env, lane, step, q);
    forall r: nat | r < q ensures Quiet(R.Moves(env, lane, step), r) || R.Behind(R.Moves(env, lane, step), r, q) {
      if Quiet(lane, r) { QuietStays(env, lane, step, r); } else { R.BehindStays(env, lane, step, r, q); }
    }
    forall r: nat | r < q ensures Heard(R.Moves(env, lane, step), r) {
      assert Heard(lane, r);
      R.ReturnedStays(env, lane, step, r);
    }
  }

  // ---------------------------------------------------------------- how requests come back

  /** A request that came back without a failure, or unsent, leaves nothing on the lane. */
  lemma CameBackQuiet(env: R.Env, lane: R.System, r: nat)
    requires R.Inv(env, lane) && r < |lane.reqs| && lane.reqs[r].caller.Returned?
    requires !lane.reqs[r].caller.response.failure.OutcomeUnknown? && Heard(lane, r)
    ensures Quiet(lane, r)
  {
    hide OwnResults, FrameResults, Plain;
    assert R.Fits(env.jobs[r], lane.reqs[r], R.At(lane.runner, r));
  }

  /** One whose caller stopped waiting was received, and a request sent after it was not yet. */
  lemma UnknownIsReceived(env: R.Env, lane: R.System, used: nat, r: nat)
    requires LaneFits(env, lane, used) && r < used < |lane.reqs| && lane.reqs[r].caller.Returned?
    requires lane.reqs[r].caller.response.failure.OutcomeUnknown?
    ensures R.Behind(lane, r, used)
  {
    hide OwnResults, FrameResults, Plain;
    assert R.Fits(env.jobs[r], lane.reqs[r], R.At(lane.runner, r));
  }

  /** A fence that came back with no failure has drained the lane, and one that failed proves the
      connection gone. */
  lemma FenceCameBack(env: R.Env, lane: R.System, q: nat)
    requires R.Inv(env, lane) && BehindFence(lane, q) && lane.reqs[q].caller.Returned?
    ensures var err := Of(lane.reqs[q].caller.response.failure);
            err == NO_ERROR || ConnectionSurvives(err) ==> QuietBelow(lane, q + 1)
  {
    hide OwnResults, FrameResults, Plain, Quiet, R.IsDrained;
    assert R.Fits(env.jobs[q], lane.reqs[q], R.At(lane.runner, q));
    if lane.reqs[q].caller.response.failure.NoFailure? {
      CameBackQuiet(env, lane, q);
      forall r: nat | r < q ensures Quiet(lane, r) {
        if R.IsDrained(lane, r) { DrainedIsQuiet(lane, r); }
      }
    }
  }

  lemma DrainedIsQuiet(lane: R.System, r: nat)
    requires r < |lane.reqs| && R.IsDrained(lane, r) && Heard(lane, r)
    ensures Quiet(lane, r)
  {
  }

  // ---------------------------------------------------------------- steps of the pool

  /** A step of goroutine i that moves one lane: free or its own before, free, its own or
      retired after. */
  ghost predicate MovesLane(s: System, t: System, i: nat, lane: nat)
  {
    && |s.places| == s.pool.lanes == t.pool.lanes && lane < |s.places| && i < |s.threads|
    && |t.threads| == |s.threads| && t.threads == s.threads[i := t.threads[i]]
    && |t.places| == |s.places| && t.places == s.places[lane := t.places[lane]]
    && t.lanes == s.lanes && t.used == s.used
    && (s.places[lane].Free? || s.places[lane] == With(i))
    && LaneOf(s.threads[i]) == (if s.places[lane].Free? then None else Some(lane))
    && LaneOf(t.threads[i]) == (if t.places[lane] == With(i) then Some(lane) else None)
    && (t.places[lane].With? ==> t.places[lane] == With(i))
    && multiset(t.pool.free) == multiset(s.pool.free)[lane := if t.places[lane].Free? then 1 else 0]
  }

  lemma MoveKeepsPlaced(s: System, t: System, i: nat, lane: nat)
    requires Placed(s) && MovesLane(s, t, i, lane)
    ensures Placed(t)
  {
  }

  lemma MoveKeepsClean(envs: seq<R.Env>, s: System, t: System, i: nat, lane: nat)
    requires Clean(envs, s) && MovesLane(s, t, i, lane)
    requires lane < |envs| && (t.places[lane].Free? ==> QuietBelow(s.lanes[lane], s.used[lane]))
    requires t.places[lane].Retired? ==> R.Closed(s.lanes[lane])
    requires LaneOf(t.threads[i]).Some? ==> HolderFits(s.lanes[lane], s.used[lane], t.threads[i])
    ensures Clean(envs, t)
  {
    hide LaneFits, QuietBelow, HolderFits;
  }

  lemma MoveKeepsCounted(s: System, t: System, i: nat, lane: nat)
    requires Counted(s) && MovesLane(s, t, i, lane)
    requires |t.pool.free| == |s.pool.free| - (if s.places[lane].Free? then 1 else 0) + (if t.places[lane].Free? then 1 else 0)
    requires t.pool.live == s.pool.live - if t.places[lane].Retired? then 1 else 0
    requires t.pool.drained == s.pool.drained && !IsCloser(s.threads[i])
    requires IsCloser(t.threads[i]) <==> t.places[lane].Retired? && t.pool.live == 0
    ensures Counted(t)
  {
    hide Tally, LaneOf;
    TallyUpdate(s.threads, IsCloser, i, t.threads[i]);
    TallyUpdate(s.places, IsFree, lane, t.places[lane]);
    TallyUpdate(s.places, IsRetired, lane, t.places[lane]);
    TallyHolds(s.places, IsRetired, lane);
  }

  lemma FirstIsFree(envs: seq<R.Env>, s: System)
    requires Inv(envs, s) && s.pool.free != []
    ensures var lane := s.pool.free[0];
      && lane < |s.places| == |envs| == s.pool.lanes && s.places[lane].Free? && QuietBelow(s.lanes[lane], s.used[lane])
      && multiset(s.pool.free[1..]) == multiset(s.pool.free)[lane := 0]
  {
    hide Tally, Counted, LaneFits, QuietBelow, HolderFits;
    var lane, rest := s.pool.free[0], s.pool.free[1..];
    assert s.pool.free == [lane] + rest;
    assert multiset(s.pool.free) == multiset{lane} + multiset(rest);
    assert multiset(s.pool.free)[lane] >= 1;
  }

  lemma HoldsItsLane(envs: seq<R.Env>, s: System, i: nat)
    requires Inv(envs, s) && i < |s.threads| && LaneOf(s.threads[i]).Some?
    ensures var lane := LaneOf(s.threads[i]).value;
      && lane < |s.places| == |s.lanes| == |s.used| == |envs| == s.pool.lanes && s.places[lane] == With(i)
      && multiset(s.pool.free)[lane] == 0 && |s.pool.free| < s.pool.lanes
      && HolderFits(s.lanes[lane], s.used[lane], s.threads[i]) && LaneFits(envs[lane], s.lanes[lane], s.used[lane])
  {
    hide Tally, LaneFits, QuietBelow, HolderFits;
    TallyHolds(s.places, IsFree, LaneOf(s.threads[i]).value);
  }

  lemma TakeKeepsInv(envs: seq<R.Env>, s: System, i: nat)
    requires Inv(envs, s) && i < |s.threads|
    ensures Inv(envs, ThreadMoves(envs, s, i, Take(i)))
  {
    hide Tally, Placed, Counted, Clean, QuietBelow;
    if s.threads[i].Selecting? && s.pool.free != [] {
      var lane, t := s.pool.free[0], ThreadMoves(envs, s, i, Take(i));
      FirstIsFree(envs, s);
      MoveKeepsPlaced(s, t, i, lane);
      MoveKeepsCounted(s, t, i, lane);
      MoveKeepsClean(envs, s, t, i, lane);
    }
  }

  lemma SendBackKeepsInv(envs: seq<R.Env>, s: System, i: nat, lane: nat)
    requires Inv(envs, s) && i < |s.threads| && LaneOf(s.threads[i]) == Some(lane)
    requires lane < |s.lanes| && lane < |s.used| && QuietBelow(s.lanes[lane], s.used[lane])
    ensures Inv(envs, SendBack(s, i, lane))
    ensures SendBack(s, i, lane).threads[i] == Done
  {
    hide Tally, Placed, Counted, Clean, QuietBelow;
    HoldsItsLane(envs, s, i);
    var t := SendBack(s, i, lane);
    assert multiset(s.pool.free + [lane]) == multiset(s.pool.free)[lane := 1];
    MoveKeepsPlaced(s, t, i, lane);
    MoveKeepsCounted(s, t, i, lane);
    MoveKeepsClean(envs, s, t, i, lane);
  }

  lemma RetireKeepsInv(envs: seq<R.Env>, s: System, i: nat)
    requires Inv(envs, s) && i < |s.threads| && s.threads[i].Releasing?
    requires s.threads[i].err != NO_ERROR && !ConnectionSurvives(s.threads[i].err)
    ensures Inv(envs, ThreadMoves(envs, s, i, Release(i)))
  {
    hide Tally, Placed, Counted, Clean, QuietBelow;
    HoldsItsLane(envs, s, i);
    var lane, t := s.threads[i].lane, ThreadMoves(envs, s, i, Release(i));
    MoveKeepsPlaced(s, t, i, lane);
    MoveKeepsCounted(s, t, i, lane);
    MoveKeepsClean(envs, s, t, i, lane);
  }

  /** A goroutine that goes on, with the lane it has if any. */
  lemma GoesOn(envs: seq<R.Env>, s: System, i: nat, pc: Pc)
    requires Inv(envs, s) && i < |s.threads|
    requires LaneOf(pc) == LaneOf(s.threads[i]) && IsCloser(pc) == IsCloser(s.threads[i])
    requires LaneOf(pc).Some? ==>
      var l := LaneOf(pc).value; l < |s.lanes| && l < |s.used| && HolderFits(s.lanes[l], s.used[l], pc)
    ensures Inv(envs, To(s, i, pc))
  {
    hide Tally, LaneFits, QuietBelow, HolderFits;
    TallyUpdate(s.threads, IsCloser, i, pc);
  }

  /** Sending the next request of a lane, by its holder or by a fence goroutine. */
  lemma SentKeepsFits(env: R.Env, lane: R.System, used: nat)
    requires LaneFits(env, lane, used) && used < |env.jobs|
    ensures LaneFits(env, lane, used + 1) && lane.reqs[used] == R.FRESH
  {
    hide R.Inv, R.GoodEnv;
  }

  lemma LaunchKeepsInv(envs: seq<R.Env>, s: System, i: nat)
    requires Inv(envs, s) && i < |s.threads| && s.threads[i].Calling? && CanSend(envs, s, s.threads[i].lane)
    ensures Inv(envs, ThreadMoves(envs, s, i, Launch(i)))
  {
    hide Tally, LaneFits, QuietBelow, Counted;
    HoldsItsLane(envs, s, i);
    var lane := s.threads[i].lane;
    SentKeepsFits(envs[lane], s.lanes[lane], s.used[lane]);
    var t := ThreadMoves(envs, s, i, Launch(i));
    LaunchPlaces(s, t, i, lane);
    LaunchCounts(s, t, i);
  }

  lemma LaunchPlaces(s: System, t: System, i: nat, lane: nat)
    requires Placed(s) && i < |s.threads| && LaneOf(s.threads[i]) == Some(lane) && lane < |s.used|
    requires t == To(s, i, Awaiting(lane, s.used[lane])).(used := s.used[lane := s.used[lane] + 1])
    ensures Placed(t)
  {
  }

  lemma LaunchCounts(s: System, t: System, i: nat)
    requires Counted(s) && i < |s.threads| && !IsCloser(s.threads[i])
    requires t.pool == s.pool && t.places == s.places && |t.threads| == |s.threads| && t.threads == s.threads[i := t.threads[i]]
    requires !IsCloser(t.threads[i])
    ensures Counted(t)
  {
    hide Tally;
    TallyUpdate(s.threads, IsCloser, i, t.threads[i]);
  }

  /** A lane passes, with its next request, to a new fence goroutine. */
  ghost predicate Forks(s: System, t: System, i: nat, lane: nat)
  {
    && lane < |s.places| == |s.lanes| == |s.used| && i < |s.threads|
    && s.places[lane] == With(i) && LaneOf(s.threads[i]) == Some(lane) && !IsCloser(s.threads[i])
    && t == s.(threads := s.threads[i := Done] + [Crossing(lane, s.used[lane])],
               places := s.places[lane := With(|s.threads|)], used := s.used[lane := s.used[lane] + 1])
  }

  lemma ForkKeepsPlaced(s: System, t: System, i: nat, lane: nat)
    requires Placed(s) && Forks(s, t, i, lane)
    ensures Placed(t)
  {
  }

  lemma ForkKeepsClean(envs: seq<R.Env>, s: System, t: System, i: nat, lane: nat)
    requires Placed(s) && Clean(envs, s) && Forks(s, t, i, lane)
    requires LaneFits(envs[lane], s.lanes[lane], s.used[lane] + 1) && BehindFence(s.lanes[lane], s.used[lane])
    ensures Clean(envs, t)
  {
    hide LaneFits, QuietBelow, BehindFence;
  }

  lemma ForkKeepsCounted(s: System, t: System, i: nat, lane: nat)
    requires Counted(s) && Forks(s, t, i, lane)
    ensures Counted(t)
  {
    hide Tally;
    TallyUpdate(s.threads, IsCloser, i, Done);
    TallyAppend(s.threads[i := Done], IsCloser, Crossing(lane, s.used[lane]));
    TallyUpdate(s.places, IsFree, lane, With(|s.threads|));
    TallyUpdate(s.places, IsRetired, lane, With(|s.threads|));
  }

  lemma FenceStarts(env: R.Env, lane: R.System, used: nat, r: nat)
    requires LaneFits(env, lane, used) && r + 1 == used < |lane.reqs| && QuietBelow(lane, r)
    requires Heard(lane, r) && lane.reqs[r].caller.response.failure.OutcomeUnknown?
    ensures BehindFence(lane, used)
  {
    hide R.Inv, R.GoodEnv, R.Behind, R.IsDrained, R.Ends, R.EndsFit;
    UnknownIsReceived(env, lane, used, r);
    forall k: nat | k < used ensures Heard(lane, k) && (Quiet(lane, k) || R.Behind(lane, k, used)) {
      if k < r { assert Quiet(lane, k); }
    }
  }

  lemma ForkKeepsInv(envs: seq<R.Env>, s: System, i: nat)
    requires Inv(envs, s) && i < |s.threads| && s.threads[i].Awaiting? && CameBack(s, s.threads[i])
    requires OutcomeIsUnknown(ErrorOf(s, s.threads[i])) && ConnectionSurvives(ErrorOf(s, s.threads[i]))
    requires CanSend(envs, s, s.threads[i].lane)
    ensures Inv(envs, ThreadMoves(envs, s, i, Finish(i)))
  {
    hide Tally, Placed, Counted, Clean, LaneFits, QuietBelow, BehindFence;
    HoldsItsLane(envs, s, i);
    var lane, t := s.threads[i].lane, ThreadMoves(envs, s, i, Finish(i));
    SentKeepsFits(envs[lane], s.lanes[lane], s.used[lane]);
    LaneIsFull(envs[lane], s.lanes[lane], s.used[lane]);
    FenceStarts(envs[lane], s.lanes[lane], s.used[lane], s.threads[i].request);
    ForkKeepsPlaced(s, t, i, lane);
    ForkKeepsClean(envs, s, t, i, lane);
    ForkKeepsCounted(s, t, i, lane);
  }

  lemma FinishKeepsInv(envs: seq<R.Env>, s: System, i: nat)
    requires Inv(envs, s) && i < |s.threads|
    ensures Inv(envs, ThreadMoves(envs, s, i, Finish(i)))
  {
    hide Tally, Placed, Counted, Clean, LaneFits, QuietBelow, BehindFence;
    var pc := s.threads[i];
    if pc.Awaiting? && CameBack(s, pc) {
      HoldsItsLane(envs, s, i);
      var lane, err := pc.lane, ErrorOf(s, pc);
      if OutcomeIsUnknown(err) && ConnectionSurvives(err) {
        if CanSend(envs, s, lane) { ForkKeepsInv(envs, s, i); }
      } else {
        ClosedIfEnded(envs[lane], s.lanes[lane], s.used[lane], pc.request);
        if !OutcomeIsUnknown(err) && Heard(s.lanes[lane], pc.request) {
          QuietAfter(envs[lane], s.lanes[lane], s.used[lane], pc.request);
        }
        GoesOn(envs, s, i, Releasing(lane, err));
      }
    }
  }

  lemma LaneIsFull(env: R.Env, lane: R.System, used: nat)
    requires LaneFits(env, lane, used)
    ensures |lane.reqs| == |env.jobs| && R.Inv(env, lane)
  {
  }

  /** A failure that the connection does not survive is heard of a closed connection only. */
  lemma ClosedIfEnded(env: R.Env, lane: R.System, used: nat, r: nat)
    requires LaneFits(env, lane, used) && r < |lane.reqs| && lane.reqs[r].caller.Returned?
    ensures var err := Of(lane.reqs[r].caller.response.failure);
      && (Heard(lane, r) <==> err == NO_ERROR || ConnectionSurvives(err))
      && (!Heard(lane, r) ==> R.Closed(lane))
  {
    hide R.Inv, R.GoodEnv;
    assert R.ReqEnds(lane.reqs[r], R.Closed(lane));
  }

  lemma QuietAfter(env: R.Env, lane: R.System, used: nat, r: nat)
    requires LaneFits(env, lane, used) && r + 1 == used && QuietBelow(lane, r) && r < |lane.reqs|
    requires Heard(lane, r) && !lane.reqs[r].caller.response.failure.OutcomeUnknown?
    ensures QuietBelow(lane, used)
  {
    hide R.Inv, R.GoodEnv, Quiet;
    CameBackQuiet(env, lane, r);
  }

  lemma CrossKeepsInv(envs: seq<R.Env>, s: System, i: nat)
    requires Inv(envs, s) && i < |s.threads|
    ensures Inv(envs, ThreadMoves(envs, s, i, Cross(i)))
  {
    hide Tally, Placed, Counted, Clean, LaneFits, QuietBelow, BehindFence;
    var pc := s.threads[i];
    if pc.Crossing? && CameBack(s, pc) {
      HoldsItsLane(envs, s, i);
      LaneIsFull(envs[pc.lane], s.lanes[pc.lane], s.used[pc.lane]);
      FenceCameBack(envs[pc.lane], s.lanes[pc.lane], pc.request);
      ClosedIfEnded(envs[pc.lane], s.lanes[pc.lane], s.used[pc.lane], pc.request);
      GoesOn(envs, s, i, Releasing(pc.lane, ErrorOf(s, pc)));
    }
  }

  lemma ThreadKeepsInv(envs: seq<R.Env>, s: System, i: nat, step: Step)
    requires Inv(envs, s) && i < |s.threads|
    ensures Inv(envs, ThreadMoves(envs, s, i, step))
  {
    hide Tally, Placed, Counted, Clean, QuietBelow, LaneFits, BehindFence;
    var pc := s.threads[i];
    if LaneOf(pc).Some? { HoldsItsLane(envs, s, i); }
    match step
    case Check(_, contextDone) => GoesOn(envs, s, i, Checked(s, pc, contextDone));
    case Take(_) => TakeKeepsInv(envs, s, i);
    case GiveUp(_) => if pc.Selecting? { GoesOn(envs, s, i, Done); }
    case PutBack(_) => if pc.PuttingBack? { SendBackKeepsInv(envs, s, i, pc.lane); }
    case Reject(_) => if pc.Calling? { GoesOn(envs, s, i, Releasing(pc.lane, InvalidRequest)); }
    case Launch(_) => if pc.Calling? && CanSend(envs, s, pc.lane) { LaunchKeepsInv(envs, s, i); }
    case Finish(_) => FinishKeepsInv(envs, s, i);
    case Cross(_) => CrossKeepsInv(envs, s, i);
    case Release(_) =>
      if pc.Releasing? {
        if pc.err == NO_ERROR || ConnectionSurvives(pc.err) { SendBackKeepsInv(envs, s, i, pc.lane); }
        else { RetireKeepsInv(envs, s, i); }
      }
    case CloseDrained(_) => if pc.Closing? { CloseKeepsInv(envs, s, i); }
    case _ =>
  }

  lemma CloseKeepsInv(envs: seq<R.Env>, s: System, i: nat)
    requires Inv(envs, s) && i < |s.threads| && s.threads[i].Closing?
    ensures Inv(envs, ThreadMoves(envs, s, i, CloseDrained(i)))
  {
    hide Tally, LaneFits, QuietBelow;
    var t := ThreadMoves(envs, s, i, CloseDrained(i));
    CloseKeepsOthers(envs, s, t, i);
    TallyUpdate(s.threads, IsCloser, i, Done);
  }

  lemma CloseKeepsOthers(envs: seq<R.Env>, s: System, t: System, i: nat)
    requires Placed(s) && Clean(envs, s) && i < |s.threads| && s.threads[i].Closing?
    requires t == To(s, i, Done).(pool := t.pool) && t.pool.free == s.pool.free && t.pool.lanes == s.pool.lanes
    ensures Placed(t) && Clean(envs, t)
  {
    hide LaneFits, QuietBelow;
  }

  lemma ArriveKeepsInv(envs: seq<R.Env>, s: System)
    requires Inv(envs, s)
    ensures Inv(envs, s.(threads := s.threads + [Idle]))
  {
    hide Tally, LaneFits, QuietBelow;
    TallyAppend(s.threads, IsCloser, Idle);
  }

  lemma StopKeepsInv(envs: seq<R.Env>, s: System)
    requires Inv(envs, s)
    ensures Inv(envs, s.(pool := s.pool.(stopped := true)))
  {
    hide LaneFits, QuietBelow, HolderFits;
  }

  lemma LaneStepKeepsHolder(env: R.Env, s: System, lane: nat, step: R.Step, pc: Pc)
    requires lane < |s.lanes| && lane < |s.used| && LaneFits(env, s.lanes[lane], s.used[lane])
    requires Allowed(s, lane, step) && pc in s.threads && LaneOf(pc) == Some(lane)
    requires HolderFits(s.lanes[lane], s.used[lane], pc)
    ensures |s.lanes[lane].reqs| == |env.jobs|
    ensures HolderFits(R.Moves(env, s.lanes[lane], step), s.used[lane], pc)
  {
    hide R.Moves, QuietBelow, BehindFence, LaneFits;
    LaneIsFull(env, s.lanes[lane], s.used[lane]);
    if pc.Crossing? { LaneStepKeepsFence(env, s.lanes[lane], pc.request, step); }
    else if pc.Awaiting? { LaneStepKeepsQuiet(env, s.lanes[lane], pc.request, step); }
    else if !pc.Releasing? || pc.err == NO_ERROR || ConnectionSurvives(pc.err) {
      LaneStepKeepsQuiet(env, s.lanes[lane], s.used[lane], step);
    } else {
      ClosedStays(env, s.lanes[lane], s.used[lane], step);
    }
  }

  lemma ClosedStays(env: R.Env, lane: R.System, used: nat, step: R.Step)
    requires LaneFits(env, lane, used) && R.Closed(lane)
    ensures |lane.reqs| == |env.jobs| && R.Closed(R.Moves(env, lane, step))
  {
    hide R.Inv, R.GoodEnv, R.Moves;
    R.EndsFitStays(env, lane, step);
  }

  lemma LaneStepKeepsInv(envs: seq<R.Env>, s: System, lane: nat, step: R.Step)
    requires Inv(envs, s) && lane < |envs|
    requires |s.used| == |s.lanes| == |envs| && |s.lanes[lane].reqs| == |envs[lane].jobs| && Allowed(s, lane, step)
    ensures Inv(envs, s.(lanes := s.lanes[lane := R.Moves(envs[lane], s.lanes[lane], step)]))
  {
    hide R.Moves, QuietBelow, LaneFits, HolderFits, Counted, Allowed;
    var t := s.(lanes := s.lanes[lane := R.Moves(envs[lane], s.lanes[lane], step)]);
    AllowedIsSent(s, lane, step);
    LaneStepFits(envs[lane], s.lanes[lane], s.used[lane], step);
    LaneIsFull(envs[lane], s.lanes[lane], s.used[lane]);
    if s.places[lane].Free? { LaneStepKeepsQuiet(envs[lane], s.lanes[lane], s.used[lane], step); }
    if s.places[lane].Retired? { ClosedStays(envs[lane], s.lanes[lane], s.used[lane], step); }
    forall i | 0 <= i < |s.threads| && LaneOf(s.threads[i]) == Some(lane)
      ensures HolderFits(t.lanes[lane], t.used[lane], s.threads[i])
    {
      LaneStepKeepsHolder(envs[lane], s, lane, step, s.threads[i]);
    }
    assert Counted(t) by { SameCounts(s, t); }
  }

  lemma AllowedIsSent(s: System, lane: nat, step: R.Step)
    requires lane < |s.used| && Allowed(s, lane, step)
    ensures step.Caller? ==> step.r < s.used[lane]
  {
  }

  lemma SameCounts(s: System, t: System)
    requires Counted(s) && t.pool == s.pool && t.places == s.places && t.threads == s.threads
    ensures Counted(t)
  {
  }

  lemma InitInv(envs: seq<R.Env>)
    requires forall l :: 0 <= l < |envs| ==> R.GoodEnv(envs[l])
    ensures Inv(envs, Init(envs))
  {
    hide Tally, R.Inv, R.GoodEnv;
    var s := Init(envs);
    TallyAll(s.places, IsFree);
    TallyAll(s.places, IsRetired);
    TallyAll(s.threads, IsCloser);
    OnceEach(|envs|);
    forall l | 0 <= l < |envs| ensures LaneFits(envs[l], s.lanes[l], s.used[l]) { R.InitFits(envs[l]); }
  }

  lemma {:induction false} OnceEach(lanes: nat)
    ensures var free := NewPool(lanes).free; forall l: nat :: multiset(free)[l] == if l < lanes then 1 else 0
  {
    if lanes > 0 {
      OnceEach(lanes - 1);
      assert NewPool(lanes).free == NewPool(lanes - 1).free + [lanes - 1];
    }
  }

  /** In every run of the pool and all its connections, each lane is in exactly one place, which
      the channel and the goroutines agree on, live counts the lanes not retired, the drained
      channel has been or is about to be closed exactly when all are retired, and nothing is left
      on a free lane. */
  lemma {:induction false} EveryRunKeepsLanes(envs: seq<R.Env>, steps: seq<Step>)
    requires forall l :: 0 <= l < |envs| ==> R.GoodEnv(envs[l])
    ensures Inv(envs, After(envs, steps))
  {
    hide ThreadMoves, Placed, Counted, Clean, R.GoodEnv, Allowed;
    if steps == [] {
      InitInv(envs);
    } else {
      EveryRunKeepsLanes(envs, steps[..|steps| - 1]);
      var s, step := After(envs, steps[..|steps| - 1]), steps[|steps| - 1];
      match step
      case Arrive => ArriveKeepsInv(envs, s);
      case Stop => StopKeepsInv(envs, s);
      case OnLane(l, move) => OnLaneKeepsInv(envs, s, l, move);
      case _ => if step.i < |s.threads| { ThreadKeepsInv(envs, s, step.i, step); }
    }
  }

  lemma OnLaneKeepsInv(envs: seq<R.Env>, s: System, l: nat, move: R.Step)
    requires Inv(envs, s)
    ensures Inv(envs, Moves(envs, s, OnLane(l, move)))
  {
    hide Placed, Counted, R.Moves, Allowed;
    if l < |s.lanes| && l < |envs| && l < |s.used| && |s.lanes[l].reqs| == |envs[l].jobs| && Allowed(s, l, move) {
      LaneStepKeepsInv(envs, s, l, move);
    }
  }

  // ---------------------------------------------------------------- every run

  /** Every written request of the lane has been answered up to its boundary. */
  ghost predicate Drained(lane: R.System)
  {
    forall r :: 0 <= r < |lane.reqs| && lane.reqs[r].written ==> lane.reqs[r].bounded
  }

  lemma QuietIsDrained(env: R.Env, lane: R.System, used: nat)
    requires LaneFits(env, lane, used) && QuietBelow(lane, used)
    ensures Drained(lane)
  {
    hide OwnResults, FrameResults, Plain;
    forall r | 0 <= r < |lane.reqs| && lane.reqs[r].written ensures lane.reqs[r].bounded {
      assert R.Fits(env.jobs[r], lane.reqs[r], R.At(lane.runner, r));
      if r < used { assert Quiet(lane, r); }
    }
  }

  /** A lane is retired only when its connection is closed or its loop has stopped, and no lane is
      free once a call on it heard that its connection had ended. */
  lemma RetiredExactlyWhenEnded(envs: seq<R.Env>, steps: seq<Step>, l: nat)
    requires forall l :: 0 <= l < |envs| ==> R.GoodEnv(envs[l])
    requires l < |envs|
    ensures var s := After(envs, steps);
      && |s.places| == |s.lanes| == |s.used| == |envs| && s.used[l] <= |s.lanes[l].reqs|
      && (s.places[l].Retired? ==> R.Closed(s.lanes[l]))
      && (s.places[l].Free? ==> forall r :: 0 <= r < s.used[l] ==>
            s.lanes[l].reqs[r].caller.Returned? && !R.Ends(s.lanes[l].reqs[r].caller.response))
  {
    hide After, Tally, Placed, Counted, HolderFits, R.Closed, R.IsDrained, R.EndsFit, R.Inv, R.GoodEnv, R.Ends;
    EveryRunKeepsLanes(envs, steps);
    var s := After(envs, steps);
    assert LaneFits(envs[l], s.lanes[l], s.used[l]);
    if s.places[l].Free? {
      forall r | 0 <= r < s.used[l]
        ensures s.lanes[l].reqs[r].caller.Returned? && !R.Ends(s.lanes[l].reqs[r].caller.response)
      {
        assert Quiet(s.lanes[l], r);
      }
    }
  }

  /** What a goroutine may rely on when it takes a lane, and owes when it gives it back. */
  predicate HoldsDrained(pc: Pc)
  {
    pc.Got? || pc.GotInTime? || pc.PuttingBack? || pc.Calling?
    || (pc.Releasing? && (pc.err == NO_ERROR || ConnectionSurvives(pc.err)))
  }

  /** No lane is handed out, held for the next command or given back with an unanswered command
      on it, whatever its callers, its request loop and its fences did. */
  lemma FreeLanesAreDrained(envs: seq<R.Env>, steps: seq<Step>)
    requires forall l :: 0 <= l < |envs| ==> R.GoodEnv(envs[l])
    ensures var s := After(envs, steps);
      && |s.lanes| == |envs|
      && (forall l :: l in s.pool.free ==> l < |s.lanes| && Drained(s.lanes[l]))
      && (forall i :: 0 <= i < |s.threads| && HoldsDrained(s.threads[i]) ==>
            LaneOf(s.threads[i]).value < |s.lanes| && Drained(s.lanes[LaneOf(s.threads[i]).value]))
  {
    hide After, Tally, LaneFits, QuietBelow, Counted, Drained;
    EveryRunKeepsLanes(envs, steps);
    var s := After(envs, steps);
    forall l | l in s.pool.free ensures l < |s.lanes| && Drained(s.lanes[l]) {
      assert multiset(s.pool.free)[l] > 0;
      QuietIsDrained(envs[l], s.lanes[l], s.used[l]);
    }
    forall i | 0 <= i < |s.threads| && HoldsDrained(s.threads[i])
      ensures LaneOf(s.threads[i]).value < |s.lanes| && Drained(s.lanes[LaneOf(s.threads[i]).value])
    {
      var l := LaneOf(s.threads[i]).value;
      QuietIsDrained(envs[l], s.lanes[l], s.used[l]);
    }
  }

  /** A call through the pool that succeeds returns exactly its own replies. */
  lemma PooledCallsGetTheirOwnReplies(envs: seq<R.Env>, steps: seq<Step>, l: nat, r: nat)
    requires forall l :: 0 <= l < |envs| ==> R.GoodEnv(envs[l])
    requires l < |envs| && r < |envs[l].jobs|
    ensures var s := After(envs, steps);
      && |s.lanes| == |envs| && |s.lanes[l].reqs| == |envs[l].jobs|
      && var q, job := s.lanes[l].reqs[r], envs[l].jobs[r];
         q.caller.Returned? && q.caller.response.failure.NoFailure? ==>
           q.caller.response.results == OwnResults(job.call, [], job.own)
  {
    hide After, Tally, Placed, Counted, QuietBelow, HolderFits, OwnResults, FrameResults, Plain;
    EveryRunKeepsLanes(envs, steps);
    var lane := After(envs, steps).lanes[l];
    LaneIsFull(envs[l], lane, After(envs, steps).used[l]);
    assert R.Fits(envs[l].jobs[r], lane.reqs[r], R.At(lane.runner, r));
  }

  /** In every run no two goroutines hold one lane, no held lane is free or retired, sends to the
      channel never block, and drained is closed at most once and only when no lane is left. */
  lemma LanesAreConserved(envs: seq<R.Env>, steps: seq<Step>)
    requires forall l :: 0 <= l < |envs| ==> R.GoodEnv(envs[l])
    ensures var s := After(envs, steps);
      && (forall i, j :: 0 <= i < j < |s.threads| && LaneOf(s.threads[i]).Some? ==>
            LaneOf(s.threads[i]) != LaneOf(s.threads[j]))
      && (forall i :: 0 <= i < |s.threads| && LaneOf(s.threads[i]).Some? ==>
            LaneOf(s.threads[i]).value < |envs| && LaneOf(s.threads[i]).value !in s.pool.free
            && |s.pool.free| < |envs|)
      && |s.pool.free| <= s.pool.live <= |envs|
      && s.pool.drained <= 1 && (s.pool.drained == 1 ==> s.pool.live == 0 && s.pool.free == [])
  {
    hide After, Tally, LaneFits, QuietBelow, HolderFits;
    EveryRunKeepsLanes(envs, steps);
    var s := After(envs, steps);
    forall i | 0 <= i < |s.threads| && LaneOf(s.threads[i]).Some? ensures |s.pool.free| < |envs| {
      TallyHolds(s.places, IsFree, LaneOf(s.threads[i]).value);
    }
    FreeAreNotRetired(s.places);
  }

  lemma {:induction false} FreeAreNotRetired(places: seq<Place>)
    ensures Tally(places, IsFree) + Tally(places, IsRetired) <= |places|
  {
    if places != [] { FreeAreNotRetired(places[..|places| - 1]); }
  }

  /** The pool is drained when the goroutine that retired the last lane has finished. */
  lemma LastRetirementDrains(envs: seq<R.Env>, steps: seq<Step>)
    requires (forall l :: 0 <= l < |envs| ==> R.GoodEnv(envs[l])) && envs != []
    ensures var s := After(envs, steps);
      s.pool.live == 0 ==>
        (s.pool.drained == 1 <==> forall i :: 0 <= i < |s.threads| ==> !IsCloser(s.threads[i]))
  {
    hide After, Tally, LaneFits, QuietBelow, HolderFits;
    EveryRunKeepsLanes(envs, steps);
    TallyAll(After(envs, steps).threads, IsCloser);
  }

  // ---------------------------------------------------------------- who is turned away

  predicate KeepsFailure(s: System, t: System)
  {
    && (s.pool.failure.Some? ==> t.pool.failure == s.pool.failure)
    && (t.pool.live < s.pool.live ==> t.pool.failure.Some?)
  }

  lemma StepKeepsFailure(envs: seq<R.Env>, s: System, step: Step)
    ensures KeepsFailure(s, Moves(envs, s, step))
    ensures s.pool.failure.None? && Moves(envs, s, step).pool.failure.Some? ==>
              step.Release? && step.i < |s.threads| && s.threads[step.i].Releasing?
              && Moves(envs, s, step).pool.failure == Some(s.threads[step.i].err)
  {
    hide R.Moves, Allowed;
  }

  /** In every run the failure reported for the pool is that of the first lane retired. */
  lemma TheFirstFailureIsKept(envs: seq<R.Env>, steps: seq<Step>, step: Step)
    ensures var s, t := After(envs, steps), After(envs, steps + [step]);
      && KeepsFailure(s, t)
      && (s.pool.failure.None? && t.pool.failure.Some? ==>
            step.Release? && step.i < |s.threads| && s.threads[step.i].Releasing?
            && t.pool.failure == Some(s.threads[step.i].err))
  {
    hide Moves;
    assert (steps + [step])[..|steps|] == steps;
    StepKeepsFailure(envs, After(envs, steps), step);
  }

  /** The goroutine has not come past the checks that turn it away: of its context, of a stopped
      and of a drained pool. */
  predicate Outside(pc: Pc, stopped: bool, drained: bool)
  {
    pc.Done? || pc.Idle? || (pc.CheckingStop? && (stopped || drained)) || (pc.CheckingDrain? && drained)
  }

  lemma StaysOutside(envs: seq<R.Env>, s: System, step: Step, i: nat, stopped: bool, drained: bool)
    requires i < |s.threads| && Outside(s.threads[i], stopped, drained)
    requires stopped ==> s.pool.stopped
    requires drained ==> s.pool.drained > 0
    requires stopped || drained || (step.Check? && step.i == i ==> step.contextDone)
    ensures var t := Moves(envs, s, step);
      && i < |t.threads| && Outside(t.threads[i], stopped, drained)
      && (stopped ==> t.pool.stopped) && (drained ==> t.pool.drained > 0)
  {
    hide R.Moves, Allowed;
  }

  /** A caller that comes to a stopped or drained pool, or whose context had ended when it came,
      never holds a lane. */
  lemma {:induction false} NobodyIsServedTooLate(envs: seq<R.Env>, steps: seq<Step>, more: seq<Step>, i: nat)
    requires i < |After(envs, steps).threads| && After(envs, steps).threads[i].Idle?
    requires var pool := After(envs, steps).pool;
      pool.stopped || pool.drained > 0
      || forall k :: 0 <= k < |more| && more[k].Check? && more[k].i == i ==> more[k].contextDone
    ensures var s, pool := After(envs, steps + more), After(envs, steps).pool;
      && i < |s.threads| && LaneOf(s.threads[i]).None? && Outside(s.threads[i], pool.stopped, pool.drained > 0)
      && (pool.stopped ==> s.pool.stopped) && (pool.drained > 0 ==> s.pool.drained > 0)
  {
    hide Moves;
    if more == [] {
      assert steps + more == steps;
    } else {
      var n, all, pool := |more| - 1, steps + more, After(envs, steps).pool;
      assert all[..|all| - 1] == steps + more[..n];
      NobodyIsServedTooLate(envs, steps, more[..n], i);
      StaysOutside(envs, After(envs, steps + more[..n]), all[|all| - 1], i, pool.stopped, pool.drained > 0);
    }
  }

  /** A call begins only while the pool is not stopped. */
  lemma CallsBeginOnAnOpenPool(envs: seq<R.Env>, s: System, step: Step, i: nat)
    requires i < |s.threads| && !s.threads[i].Calling?
    ensures var t := Moves(envs, s, step);
      |t.threads| >= |s.threads| && (t.threads[i].Calling? ==> s.threads[i].GotInTime? && !s.pool.stopped)
      && (t.threads[i].GotInTime? && !s.threads[i].GotInTime? ==> s.threads[i].Got? && step == Check(i, false))
  {
    hide R.Moves, Allowed;
  }

  // ---------------------------------------------------------------- calls get through

  lemma Goes(envs: seq<R.Env>, steps: seq<Step>, step: Step) returns (more: seq<Step>)
    ensures more == steps + [step] && After(envs, more) == Moves(envs, After(envs, steps), step)
  {
    hide Moves;
    more := steps + [step];
    assert more[..|steps|] == steps;
  }

  /** A lane is a connection of its own: its state is one that RequestLifecycle reaches. */
  lemma {:induction false} LanesAreRuns(envs: seq<R.Env>, steps: seq<Step>, l: nat) returns (run: seq<R.Step>)
    requires l < |envs|
    ensures |After(envs, steps).lanes| == |envs| && After(envs, steps).lanes[l] == R.After(envs[l], run)
  {
    hide R.Moves, Allowed, ThreadMoves;
    if steps == [] {
      run := [];
    } else {
      var s, step := After(envs, steps[..|steps| - 1]), steps[|steps| - 1];
      run := LanesAreRuns(envs, steps[..|steps| - 1], l);
      ThreadsLeaveLanes(envs, s, step);
      if step.OnLane? && step.lane == l && After(envs, steps).lanes[l] != s.lanes[l] {
        run := R.Goes(envs[l], run, step.step);
      }
    }
  }

  lemma ThreadsLeaveLanes(envs: seq<R.Env>, s: System, step: Step)
    ensures !step.OnLane? ==> Moves(envs, s, step).lanes == s.lanes
  {
  }

  /** The lane's own steps, taken in the pool. */
  lemma {:induction false} LaneGoes(envs: seq<R.Env>, steps: seq<Step>, l: nat, r: nat, run: seq<R.Step>, longer: seq<R.Step>)
      returns (more: seq<Step>)
    requires l < |envs| && |After(envs, steps).lanes| == |After(envs, steps).used| == |envs|
    requires After(envs, steps).lanes[l] == R.After(envs[l], run) && run <= longer
    requires forall i :: |run| <= i < |longer| ==>
               R.Undisturbing(longer[i], r) && (longer[i].Caller? ==> r < After(envs, steps).used[l])
    ensures steps <= more
    ensures var s := After(envs, steps);
            After(envs, more) == s.(lanes := s.lanes[l := R.After(envs[l], longer)])
    decreases |longer|
  {
    hide R.After, R.Moves, ThreadMoves;
    if |longer| == |run| {
      more := steps;
      assert longer == run;
    } else {
      var n := |longer| - 1;
      more := LaneGoes(envs, steps, l, r, run, longer[..n]);
      LaneAfterOne(envs[l], longer);
      more := Goes(envs, more, OnLane(l, longer[n]));
    }
  }

  lemma LaneAfterOne(env: R.Env, steps: seq<R.Step>)
    requires steps != []
    ensures R.After(env, steps) == R.Moves(env, R.After(env, steps[..|steps| - 1]), steps[|steps| - 1])
    ensures |R.After(env, steps[..|steps| - 1]).reqs| == |env.jobs|
  {
    hide R.Moves;
  }

  /** On a lane that is free and whose connection is open the loop has not decided to stop. */
  lemma FreeLaneGoesOn(env: R.Env, lane: R.System, used: nat)
    requires LaneFits(env, lane, used) && QuietBelow(lane, used) && !R.Closed(lane)
    ensures R.GoesOn(lane.runner) && !lane.runner.Closing?
  {
    hide OwnResults, FrameResults, Plain;
    if !lane.runner.Waiting? {
      var r := lane.runner.r;
      assert R.Fits(env.jobs[r], lane.reqs[r], lane.runner);
      if r < used { assert Quiet(lane, r); }
    }
  }

  /** The pool has a free lane whose connection is open and has a request to send. */
  predicate Serves(envs: seq<R.Env>, s: System)
  {
    && !s.pool.stopped && s.pool.drained == 0 && s.pool.free != []
    && var l := s.pool.free[0]; CanSend(envs, s, l) && l < |s.lanes| && !R.Closed(s.lanes[l])
  }

  /** A new pool serves: it has all its lanes, open and free, with all their requests to send. */
  lemma ANewPoolServes(envs: seq<R.Env>, l: nat)
    requires l < |envs|
    ensures var s := After(envs, []);
      && !s.pool.stopped && s.pool.drained == 0 && s.pool.failure.None? && |s.pool.free| == |envs| && s.pool.free[l] == l
      && |s.lanes| == |s.used| == |envs| && s.used[l] == 0 && s.lanes[l] == R.Init(envs[l])
  {
  }

  lemma TakesALane(envs: seq<R.Env>, steps: seq<Step>) returns (more: seq<Step>)
    requires Serves(envs, After(envs, steps))
    ensures steps <= more
    ensures var s, t, i := After(envs, steps), After(envs, more), |After(envs, steps).threads|;
      && t.threads == s.threads + [Calling(s.pool.free[0])] && t.lanes == s.lanes && t.used == s.used
      && t.pool == s.pool.(free := s.pool.free[1..])
  {
    hide After, Put, R.Closed;
    var i, l := |After(envs, steps).threads|, After(envs, steps).pool.free[0];
    var others := After(envs, steps).threads;
    more := Goes(envs, steps, Arrive);
    more := Goes(envs, more, Check(i, false));
    assert After(envs, more).threads == others + [CheckingStop];
    more := Goes(envs, more, Check(i, false));
    assert After(envs, more).threads == others + [CheckingDrain];
    more := Goes(envs, more, Check(i, false));
    assert After(envs, more).threads == others + [Selecting];
    more := Goes(envs, more, Take(i));
    PuttingMovesPlaces(To(After(envs, more[..|more| - 1]), i, Got(l)), l, With(i));
    assert After(envs, more).threads == others + [Got(l)];
    more := Goes(envs, more, Check(i, false));
    assert After(envs, more).threads == others + [GotInTime(l)];
    more := Goes(envs, more, Check(i, false));
  }

  lemma PuttingMovesPlaces(s: System, lane: nat, place: Place)
    ensures Put(s, lane, place) == s.(places := Put(s, lane, place).places)
  {
  }

  /** The goroutine's call over its lane, once the loop is back from whatever it was at. */
  lemma CallsOverItsLane(envs: seq<R.Env>, steps: seq<Step>, i: nat, l: nat) returns (more: seq<Step>)
    requires forall l :: 0 <= l < |envs| ==> R.GoodEnv(envs[l])
    requires var s := After(envs, steps); i < |s.threads| && s.threads[i] == Calling(l) && l < |s.lanes|
    requires CanSend(envs, After(envs, steps), l) && !R.Closed(After(envs, steps).lanes[l])
    ensures steps <= more
    ensures var s, t := After(envs, steps), After(envs, more);
      var r := s.used[l];
      && r < |envs[l].jobs| && t.threads == s.threads[i := Awaiting(l, r)] && t.pool == s.pool
      && l < |t.lanes| && r < |t.lanes[l].reqs|
      && t.lanes[l].reqs[r].caller == R.Returned(Response(OwnResults(envs[l].jobs[r].call, [], envs[l].jobs[r].own), NoFailure))
  {
    hide After, R.After, Placed, Counted, Clean, R.Closed, QuietBelow, LaneFits, OwnResults, R.Moves, R.GoodEnv, R.GoesOn;
    var env, r := envs[l], After(envs, steps).used[l];
    EveryRunKeepsLanes(envs, steps);
    CleanLane(envs, After(envs, steps), i, l);
    var run := LanesAreRuns(envs, steps, l);
    FreeLaneGoesOn(env, After(envs, steps).lanes[l], r);
    OpenIsClear(env, After(envs, steps).lanes[l]);
    var waiting := R.LoopComesBack(env, run);
    more := LaneGoes(envs, steps, l, r, run, waiting);
    EveryRunKeepsLanes(envs, more);
    CleanLane(envs, After(envs, more), i, l);
    NextIsFresh(env, After(envs, more).lanes[l], r);
    var before := more;
    more := Goes(envs, more, Launch(i));
    assert After(envs, more).lanes == After(envs, before).lanes;
    var served := R.AnUndisturbedCallSucceeds(env, waiting, r);
    more := LaneGoes(envs, more, l, r, waiting, served);
  }

  lemma CleanLane(envs: seq<R.Env>, s: System, i: nat, l: nat)
    requires Inv(envs, s) && i < |s.threads| && s.threads[i] == Calling(l)
    ensures l < |s.lanes| == |s.used| == |envs| && LaneFits(envs[l], s.lanes[l], s.used[l])
    ensures QuietBelow(s.lanes[l], s.used[l])
  {
    hide Placed, Counted, LaneFits, QuietBelow;
  }

  lemma OpenIsClear(env: R.Env, lane: R.System)
    ensures !R.Closed(lane) ==> !lane.closeRequested && !lane.stopRequested && !lane.runner.Stopped?
  {
  }

  lemma NextIsFresh(env: R.Env, lane: R.System, used: nat)
    requires LaneFits(env, lane, used) && used < |lane.reqs|
    ensures lane.reqs[used] == R.FRESH
  {
  }

  lemma GivesBack(envs: seq<R.Env>, steps: seq<Step>, i: nat, l: nat, r: nat) returns (more: seq<Step>)
    requires forall l :: 0 <= l < |envs| ==> R.GoodEnv(envs[l])
    requires var s := After(envs, steps);
      && i < |s.threads| && s.threads[i] == Awaiting(l, r) && CameBack(s, s.threads[i])
      && s.lanes[l].reqs[r].caller.response.failure.NoFailure?
    ensures steps <= more
    ensures var s, t := After(envs, steps), After(envs, more);
      t.threads == s.threads[i := Done] && t.lanes == s.lanes && t.pool == s.pool.(free := s.pool.free + [l])
  {
    hide After, Placed, Counted, Clean, R.GoodEnv, Put;
    more := Goes(envs, steps, Finish(i));
    assert After(envs, more).threads[i] == Releasing(l, NO_ERROR);
    LanesAreConserved(envs, more);
    EveryRunKeepsLanes(envs, more);
    PoolKeepsLanes(envs, After(envs, more));
    PuttingMovesPlaces(To(After(envs, more), i, Done), l, Free);
    more := Goes(envs, more, Release(i));
  }

  /** A call through the pool gets its replies, and gives its lane back: in every reachable state
      of a pool with a free lane whose connection is open, whatever was called before. */
  lemma APooledCallSucceeds(envs: seq<R.Env>, steps: seq<Step>) returns (more: seq<Step>)
    requires forall l :: 0 <= l < |envs| ==> R.GoodEnv(envs[l])
    requires Serves(envs, After(envs, steps))
    ensures steps <= more
    ensures var s, t := After(envs, steps), After(envs, more);
      var l := s.pool.free[0];
      var r, i := s.used[l], |s.threads|;
      && t.threads == s.threads + [Done] && t.pool == s.pool.(free := s.pool.free[1..] + [l])
      && l < |t.lanes| && r < |t.lanes[l].reqs|
      && t.lanes[l].reqs[r].caller == R.Returned(Response(OwnResults(envs[l].jobs[r].call, [], envs[l].jobs[r].own), NoFailure))
  {
    hide After, R.After, Placed, Counted, Clean, R.Closed, OwnResults, R.GoodEnv, Put, Moves;
    var i, l := |After(envs, steps).threads|, After(envs, steps).pool.free[0];
    var r, others := After(envs, steps).used[l], After(envs, steps).threads;
    more := TakesALane(envs, steps);
    more := CallsOverItsLane(envs, more, i, l);
    assert After(envs, more).threads == others + [Awaiting(l, r)];
    more := GivesBack(envs, more, i, l, r);
  }

  lemma PoolKeepsLanes(envs: seq<R.Env>, s: System)
    requires Inv(envs, s)
    ensures s.pool.lanes == |envs|
  {
    hide Counted, LaneFits, QuietBelow;
  }

  // ---------------------------------------------------------------- and everybody leaves

  /** A goroutine that waits for nothing but its own next step. */
  predicate CanLeave(s: System, pc: Pc)
  {
    (pc.Awaiting? || pc.Crossing?) ==> CameBack(s, pc) && !(pc.Awaiting? && Abandoned(ErrorOf(s, pc)))
  }

  /** The caller stopped waiting for a command that tmux still runs: a fence takes its lane over. */
  predicate Abandoned(err: CallError) { OutcomeIsUnknown(err) && ConnectionSurvives(err) }

  predicate Left(s: System, i: nat) { i < |s.threads| && s.threads[i].Done? }

  lemma ReleasingLeaves(envs: seq<R.Env>, steps: seq<Step>, i: nat) returns (more: seq<Step>)
    requires forall l :: 0 <= l < |envs| ==> R.GoodEnv(envs[l])
    requires var s := After(envs, steps); i < |s.threads| && (s.threads[i].Releasing? || s.threads[i].PuttingBack?)
    ensures steps <= more && |more| <= |steps| + 2 && Left(After(envs, more), i)
    ensures forall k :: |steps| <= k < |more| ==> !more[k].Arrive? && !more[k].Stop? && !more[k].OnLane? && more[k].i == i
  {
    hide After, Placed, Counted, Clean, R.GoodEnv, Put;
    LanesAreConserved(envs, steps);
    EveryRunKeepsLanes(envs, steps);
    PoolKeepsLanes(envs, After(envs, steps));
    var l := After(envs, steps).threads[i].lane;
    PuttingMovesPlaces(To(After(envs, steps), i, Done), l, Free);
    if After(envs, steps).threads[i].PuttingBack? {
      more := Goes(envs, steps, PutBack(i));
    } else {
      var (pool, last) := Retire(After(envs, steps).pool, After(envs, steps).threads[i].err);
      PuttingMovesPlaces(To(After(envs, steps), i, Closing(l, last)), l, Retired);
      more := Goes(envs, steps, Release(i));
      if After(envs, more).threads[i].Closing? { more := Goes(envs, more, CloseDrained(i)); }
    }
  }

  lemma SelectingLeaves(envs: seq<R.Env>, steps: seq<Step>, i: nat) returns (more: seq<Step>)
    requires var s := After(envs, steps);
      i < |s.threads| && (s.threads[i].CheckingStop? || s.threads[i].CheckingDrain? || s.threads[i].Selecting?)
    ensures steps <= more && |more| <= |steps| + 3 && Left(After(envs, more), i)
    ensures forall k :: |steps| <= k < |more| ==> !more[k].Arrive? && !more[k].Stop? && !more[k].OnLane? && more[k].i == i
  {
    hide After;
    more := steps;
    if After(envs, more).threads[i].CheckingStop? { more := Goes(envs, more, Check(i, true)); }
    if After(envs, more).threads[i].CheckingDrain? { more := Goes(envs, more, Check(i, true)); }
    if After(envs, more).threads[i].Selecting? { more := Goes(envs, more, GiveUp(i)); }
  }

  /** In every reachable state a goroutine leaves by at most four steps of its own, its context
      ending if need be, except that one whose request is on its way waits for the response, and
      one that abandons its request hands its lane to a fence. */
  lemma EveryGoroutineLeaves(envs: seq<R.Env>, steps: seq<Step>, i: nat) returns (more: seq<Step>)
    requires forall l :: 0 <= l < |envs| ==> R.GoodEnv(envs[l])
    requires i < |After(envs, steps).threads| && CanLeave(After(envs, steps), After(envs, steps).threads[i])
    ensures steps <= more && |more| <= |steps| + 4 && Left(After(envs, more), i)
    ensures forall k :: |steps| <= k < |more| ==> !more[k].Arrive? && !more[k].Stop? && !more[k].OnLane? && more[k].i == i
  {
    hide After, R.GoodEnv, SendBack, Retire, Put;
    var pc := After(envs, steps).threads[i];
    more := steps;
    match pc
    case Idle => more := Goes(envs, steps, Check(i, true));
    case CheckingStop => more := SelectingLeaves(envs, steps, i);
    case CheckingDrain => more := SelectingLeaves(envs, steps, i);
    case Selecting => more := SelectingLeaves(envs, steps, i);
    case Got(_) =>
      more := Goes(envs, steps, Check(i, true));
      more := ReleasingLeaves(envs, more, i);
    case GotInTime(_) =>
      more := Goes(envs, steps, Check(i, true));
      if After(envs, more).threads[i].Calling? { more := Goes(envs, more, Reject(i)); }
      more := ReleasingLeaves(envs, more, i);
    case PuttingBack(_) => more := ReleasingLeaves(envs, steps, i);
    case Calling(_) =>
      more := Goes(envs, steps, Reject(i));
      more := ReleasingLeaves(envs, more, i);
    case Awaiting(_, _) =>
      more := Goes(envs, steps, Finish(i));
      more := ReleasingLeaves(envs, more, i);
    case Crossing(_, _) =>
      more := Goes(envs, steps, Cross(i));
      more := ReleasingLeaves(envs, more, i);
    case Releasing(_, _) => more := ReleasingLeaves(envs, steps, i);
    case Closing(_, _) => more := Goes(envs, steps, CloseDrained(i));
    case Done =>
  }
}
