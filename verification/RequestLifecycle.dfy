/** Callers and the one request loop of a control connection, interleaved step by step.

    Every channel operation, atomic load, store and swap is one step. A step whose guard does
    not hold leaves the state as it is, so every sequence of steps is a run. */
module RequestLifecycle {
  import opened ControlGuard
  import opened ControlProtocol
  import opened CapturedResults
  import opened ReplyFence
  import opened ControlRequest
  import opened Options

  /** A request, what it writes, and what tmux answers it with: its own frames, then the fence. */
  datatype Job = Job(call: Call, sent: Sent, own: seq<Frame>, a: Frame, b: Frame)

  datatype Env = Env(fence: Fence, tmux: Tmux, jobs: seq<Job>)

  predicate GoodJob(fence: Fence, job: Job)
  {
    IsFence(fence, job.a, job.b) && NoBoundary(fence, Plain(job.own))
  }

  /** tmux answers the text that the request writes with the job's frames. */
  predicate Replied(tmux: Tmux, r: nat, job: Job)
  {
    Answers(tmux, r, job.sent.Input()) == job.own + [job.a, job.b]
  }

  predicate GoodEnv(env: Env)
  {
    && Distinct(env.fence)
    && forall r :: 0 <= r < |env.jobs| ==> GoodJob(env.fence, env.jobs[r]) && Replied(env.tmux, r, env.jobs[r])
  }

  /** Where a caller is: in submitControlRequest, await, or cancelBeforeWrite. */
  datatype CallerPc =
    | Fresh
    | Entering
    | Submitting
    | Awaiting
    | Loading
    | Swapping(seen: RequestState)
    | Checking
    | Taking
    | Returned(response: Response)

  /** Where the request loop is, and with which request. */
  datatype RunnerPc =
    | Waiting
    | Received(r: nat)
    | Accepting(r: nat)
    | Closing(r: nat)
    | Starting(r: nat)
    | Dropping(r: nat)
    | Claiming(r: nat)
    | Sending(r: nat)
    | Reading(r: nat)
    | Finishing(r: nat, response: Response, keep: bool)
    | Responding(r: nat, response: Response, keep: bool)
    | Stopped

  datatype Req = Req(
    caller: CallerPc,
    state: RequestState,
    channel: Option<Response>,
    contextDone: bool,
    received: bool,
    written: bool,
    bounded: bool,
    answers: nat)

  const FRESH := Req(Fresh, Pending, None, false, false, false, false, 0)

  datatype System = System(
    reqs: seq<Req>,
    runner: RunnerPc,
    inbound: seq<Frame>,
    closeRequested: bool,
    stopRequested: bool)

  function Init(env: Env): System
  {
    System(seq(|env.jobs|, i => FRESH), Waiting, [], false, false)
  }

  /** stopped is the select's choice between a done context and stopped requests. */
  datatype CallerStep = ContextFires | Start | Submit | GiveUp(stopped: bool) | Receive | SeeDone | Load | Swap | Check

  datatype Step =
    | Caller(r: nat, move: CallerStep)
    | Rendezvous(r: nat)
    | CloseRequest
    | StopRequests
    | Runner(writeFails: bool, delivered: nat)

  /** What ctx.Err() returns. */
  function ContextFailure(q: Req): Failure
  {
    if q.contextDone then Unsent(ContextError) else NoFailure
  }

  function CallerMoves(q: Req, move: CallerStep, closing: bool, stopped: bool): Req
  {
    match move
    case ContextFires => q.(contextDone := true)
    case Start =>
      if !q.caller.Fresh? then q
      else if q.contextDone then q.(caller := Returned(Response([], Unsent(ContextError))))
      else q.(caller := Entering)
    case Submit =>
      if !q.caller.Entering? then q
      else if closing then q.(caller := Returned(Response([], Unsent(ClientClosed))))
      else q.(caller := Submitting)
    case GiveUp(choice) =>
      if !q.caller.Submitting? then q
      else if choice && stopped then q.(caller := Returned(Response([], Unsent(ClientClosed))))
      else if !choice && q.contextDone then q.(caller := Returned(Response([], Unsent(ContextError))))
      else q
    case Receive =>
      if (q.caller.Awaiting? || q.caller.Taking?) && q.channel.Some? then
        q.(caller := Returned(q.channel.value), channel := None)
      else q
    case SeeDone => if q.caller.Awaiting? && q.contextDone then q.(caller := Loading) else q
    case Load =>
      if !q.caller.Loading? then q
      else if q.state.Pending? || q.state.Accepted? then q.(caller := Swapping(q.state))
      else if q.state.Canceled? then q.(caller := Returned(Response([], Unsent(ContextError))))
      else q.(caller := Checking)
    case Swap =>
      if !q.caller.Swapping? then q
      else if q.state == q.caller.seen then
        q.(state := Canceled, caller := Returned(Response([], Unsent(ContextError))))
      else q.(caller := Loading)
    case Check =>
      if !q.caller.Checking? then q
      else if q.state.Finished? then q.(caller := Taking)
      else q.(caller := Returned(Response([], OutcomeUnknown(ContextError))))
  }

  function Set(s: System, r: nat, q: Req, runner: RunnerPc): System
    requires r < |s.reqs|
  {
    s.(reqs := s.reqs[r := q], runner := runner)
  }

  /** One step of the loop with request r, apart from reading replies. */
  function Advance(q: Req, at: RunnerPc, closing: bool, writeFails: bool): (Req, RunnerPc)
    requires !at.Waiting? && !at.Stopped? && !at.Reading?
  {
    var r := at.r;
    match at
    case Received(_) =>
      if q.state.Pending? then (q.(state := Accepted), Accepting(r))
      else (q, Responding(r, Response([], ContextFailure(q)), true))
    case Accepting(_) => (q, if closing then Closing(r) else Starting(r))
    case Closing(_) => (q.(state := Finished), Responding(r, Response([], Unsent(ClientClosed)), false))
    case Starting(_) => (q, if q.contextDone then Dropping(r) else Claiming(r))
    case Dropping(_) => (q.(state := Canceled), Responding(r, Response([], ContextFailure(q)), true))
    case Claiming(_) =>
      if q.state.Accepted? then (q.(state := Writing), Sending(r))
      else (q, Responding(r, Response([], ContextFailure(q)), true))
    case Sending(_) =>
      (q.(written := true),
       if writeFails then Finishing(r, Response([], OutcomeUnknown(WriteError)), false) else Reading(r))
    case Finishing(_, response, keep) => (q.(state := Finished), Responding(r, response, keep))
    case Responding(_, response, keep) =>
      if q.channel.Some? then (q, at)
      else (q.(channel := Some(response), answers := q.answers + 1), if keep then Waiting else Stopped)
  }

  function RunnerMoves(env: Env, s: System, writeFails: bool, delivered: nat): System
    requires |s.reqs| == |env.jobs|
  {
    if s.runner.Waiting? then (if s.stopRequested then s.(runner := Stopped) else s)
    else if s.runner.Stopped? || s.runner.r >= |s.reqs| then s
    else
      var r := s.runner.r;
      var q, job := s.reqs[r], env.jobs[r];
      if s.runner.Reading? then
        var frames := if delivered < |s.inbound| then s.inbound[..delivered] else s.inbound;
        var d := Drain(env.fence, job.call, None, [], frames);
        var response := Response(d.results, if d.bounded then NoFailure else OutcomeUnknown(StreamError));
        Set(s, r, q.(bounded := d.bounded), Finishing(r, response, d.bounded)).(inbound := d.rest)
      else
        var (t, runner) := Advance(q, s.runner, s.closeRequested, writeFails);
        var replies := if s.runner.Sending? && !writeFails then Answers(env.tmux, r, job.sent.Input()) else [];
        Set(s, r, t, runner).(inbound := s.inbound + replies)
  }

  function Moves(env: Env, s: System, step: Step): (t: System)
    requires |s.reqs| == |env.jobs|
    ensures |t.reqs| == |s.reqs|
  {
    match step
    case Caller(r, move) =>
      if r >= |s.reqs| then s
      else
        s.(reqs := s.reqs[r := CallerMoves(s.reqs[r], move, s.closeRequested, s.stopRequested || s.runner.Stopped?)])
    case Rendezvous(r) =>
      if r < |s.reqs| && s.reqs[r].caller.Submitting? && s.runner.Waiting? then
        Set(s, r, s.reqs[r].(caller := Awaiting, received := true), Received(r))
      else s
    case CloseRequest => s.(closeRequested := true)
    case StopRequests => s.(stopRequested := true)
    case Runner(writeFails, delivered) => RunnerMoves(env, s, writeFails, delivered)
  }

  function After(env: Env, steps: seq<Step>): (s: System)
    ensures |s.reqs| == |env.jobs|
  {
    if steps == [] then Init(env) else Moves(env, After(env, steps[..|steps| - 1]), steps[|steps| - 1])
  }

  // ---------------------------------------------------------------- the invariant

  /** A response to request q says no more and no less than what became of it. */
  predicate Proper(job: Job, q: Req, response: Response)
  {
    match response.failure
    case NoFailure => q.written && q.bounded && response.results == OwnResults(job.call, [], job.own)
    case Unsent(cause) => !q.written && response.results == [] && (cause == ContextError ==> q.contextDone)
    case OutcomeUnknown(cause) =>
      && response.results <= FrameResults(Plain(job.own), job.call)
      && (cause == ContextError ==> q.contextDone)
      && (cause != ContextError ==> q.written && !q.bounded)
  }

  /** A caller's own report that it stopped waiting. */
  predicate FromContext(response: Response)
  {
    response.failure.OutcomeUnknown? && response.failure.cause == ContextError
  }

  function At(runner: RunnerPc, r: nat): RunnerPc
  {
    if !runner.Waiting? && !runner.Stopped? && runner.r == r then runner else Waiting
  }

  /** What the runner's place says about the request it holds. */
  predicate PlaceFits(job: Job, q: Req, at: RunnerPc)
  {
    match at
    case Waiting => q.received ==> q.answers == 1 && !q.state.Pending? && !q.state.Accepted? && !q.state.Writing?
    case Stopped => false
    case Received(_) => (q.state.Pending? || q.state.Canceled?) && !q.written
    case Accepting(_) => (q.state.Accepted? || q.state.Canceled?) && !q.written
    case Closing(_) => (q.state.Accepted? || q.state.Canceled?) && !q.written
    case Starting(_) => (q.state.Accepted? || q.state.Canceled?) && !q.written
    case Dropping(_) => (q.state.Accepted? || q.state.Canceled?) && !q.written && q.contextDone
    case Claiming(_) => (q.state.Accepted? || q.state.Canceled?) && !q.written
    case Sending(_) => q.state.Writing? && !q.written
    case Reading(_) => q.state.Writing? && q.written
    case Finishing(_, response, keep) =>
      && q.state.Writing? && q.written && (keep <==> q.bounded)
      && Proper(job, q, response) && !FromContext(response)
    case Responding(_, response, keep) =>
      && (q.state.Finished? || q.state.Canceled?) && (keep && q.written ==> q.bounded)
      && Proper(job, q, response) && !FromContext(response)
  }

  predicate CallerFits(job: Job, q: Req, at: RunnerPc)
  {
    match q.caller
    case Fresh => !q.received
    case Entering => !q.received
    case Submitting => !q.received
    case Awaiting => q.received && (q.answers == 1 ==> q.channel.Some?)
    case Loading => q.received && q.contextDone && (q.answers == 1 ==> q.channel.Some?)
    case Swapping(seen) =>
      q.received && q.contextDone && (seen.Pending? || seen.Accepted?) && (q.answers == 1 ==> q.channel.Some?)
    case Checking =>
      q.received && q.contextDone && (q.state.Writing? || q.state.Finished?) && (q.answers == 1 ==> q.channel.Some?)
    case Taking => q.received && q.contextDone && q.state.Finished? && (q.channel.Some? || at.Responding?)
    case Returned(response) =>
      && Proper(job, q, response)
      && (q.received && response.failure.Unsent? ==> q.state.Canceled? || q.state.Finished?)
      && (response.failure.NoFailure? ==> q.answers == 1)
      && (response.failure.OutcomeUnknown? ==>
            (q.state.Writing? || q.state.Finished?) && (FromContext(response) || q.answers == 1))
  }

  predicate Fits(job: Job, q: Req, at: RunnerPc)
  {
    && (!q.received ==> q.state.Pending? && !q.written && at.Waiting? && q.answers == 0)
    && (!at.Waiting? ==> q.received && q.answers == 0)
    && (q.answers == 0 ==> q.channel.None?)
    && (q.state.Canceled? ==> !q.written && q.contextDone)
    && (q.bounded ==> q.written)
    && (q.channel.Some? ==>
          Proper(job, q, q.channel.value) && !FromContext(q.channel.value))
    && PlaceFits(job, q, at)
    && CallerFits(job, q, at)
  }

  /** Every request written, other than the one the loop holds, has had its boundary read. */
  predicate OthersDrained(s: System)
  {
    forall r :: 0 <= r < |s.reqs| && At(s.runner, r).Waiting? && s.reqs[r].written ==> s.reqs[r].bounded
  }

  predicate Inv(env: Env, s: System)
  {
    && |s.reqs| == |env.jobs|
    && (forall r :: 0 <= r < |s.reqs| ==> Fits(env.jobs[r], s.reqs[r], At(s.runner, r)))
    && (!s.runner.Waiting? && !s.runner.Stopped? ==> s.runner.r < |s.reqs|)
    && (!s.runner.Stopped? ==> OthersDrained(s))
    && if s.runner.Reading? then
         var job := env.jobs[s.runner.r]; s.inbound == job.own + [job.a, job.b] && !s.reqs[s.runner.r].bounded
       else s.inbound == []
  }

  lemma CallerKeepsFits(job: Job, q: Req, at: RunnerPc, move: CallerStep, closing: bool, stopped: bool)
    requires Fits(job, q, at)
    ensures Fits(job, CallerMoves(q, move, closing, stopped), at)
  {
    hide OwnResults, FrameResults, Plain;
  }

  /** The request a runner step works on keeps its invariant; the others are untouched. */
  lemma OneMoves(env: Env, s: System, r: nat, q: Req, runner: RunnerPc, inbound: seq<Frame>)
    requires Inv(env, s) && !s.runner.Waiting? && !s.runner.Stopped? && r == s.runner.r
    requires r < |s.reqs| && Fits(env.jobs[r], q, At(runner, r))
    requires !runner.Waiting? && !runner.Stopped? ==> runner.r == r
    requires runner.Waiting? && q.written ==> q.bounded
    requires if runner.Reading? then inbound == env.jobs[r].own + [env.jobs[r].a, env.jobs[r].b] && !q.bounded
             else inbound == []
    ensures Inv(env, Set(s, r, q, runner).(inbound := inbound))
  {
    hide Fits;
    var t := Set(s, r, q, runner).(inbound := inbound);
    forall i | 0 <= i < |t.reqs| ensures Fits(env.jobs[i], t.reqs[i], At(t.runner, i)) {
      assert Fits(env.jobs[i], s.reqs[i], At(s.runner, i));
      assert i != r ==> At(t.runner, i) == At(s.runner, i) == Waiting;
    }
  }

  lemma ReadIsProper(env: Env, r: nat, q: Req, inbound: seq<Frame>, delivered: nat)
    requires GoodEnv(env) && r < |env.jobs|
    requires Fits(env.jobs[r], q, Reading(r)) && !q.bounded
    requires inbound == env.jobs[r].own + [env.jobs[r].a, env.jobs[r].b]
    ensures var frames := if delivered < |inbound| then inbound[..delivered] else inbound;
      var d := Drain(env.fence, env.jobs[r].call, None, [], frames);
      var response := Response(d.results, if d.bounded then NoFailure else OutcomeUnknown(StreamError));
      && d.rest == [] && Fits(env.jobs[r], q.(bounded := d.bounded), Finishing(r, response, d.bounded))
  {
    hide OwnResults, FrameResults, Plain, Drain, IsFence, NoBoundary;
    var job := env.jobs[r];
    assert GoodJob(env.fence, job);
    if delivered < |inbound| {
      CutStreamYieldsAPrefix(env.fence, job.call, job.own, job.a, job.b, delivered);
    } else {
      ReplyAlignsExactly(env.fence, job.call, job.own, job.a, job.b, []);
      assert [job.a, job.b] + [] == [job.a, job.b];
    }
  }

  lemma AdvanceKeepsFits(job: Job, q: Req, at: RunnerPc, closing: bool, writeFails: bool)
    requires !at.Waiting? && !at.Stopped? && !at.Reading? && Fits(job, q, at)
    ensures var (t, runner) := Advance(q, at, closing, writeFails);
      && Fits(job, t, At(runner, at.r))
      && (runner.Reading? <==> at.Sending? && !writeFails) && !t.bounded == !q.bounded
      && (!runner.Waiting? && !runner.Stopped? ==> runner.r == at.r)
      && (runner.Waiting? && t.written ==> t.bounded)
      && (at.Sending? ==> !t.bounded)
  {
    hide OwnResults, FrameResults, Plain;
  }

  lemma JobIsReplied(env: Env, r: nat)
    requires GoodEnv(env) && r < |env.jobs|
    ensures Replied(env.tmux, r, env.jobs[r])
  {
  }

  lemma RunnerKeepsInv(env: Env, s: System, writeFails: bool, delivered: nat)
    requires GoodEnv(env) && Inv(env, s)
    ensures Inv(env, RunnerMoves(env, s, writeFails, delivered))
  {
    hide OwnResults, FrameResults, Plain, Drain, IsFence, NoBoundary, GoodEnv, Fits, Advance, Answers;
    if s.runner.Waiting? {
      var t := RunnerMoves(env, s, writeFails, delivered);
      assert forall i :: At(t.runner, i) == At(s.runner, i);
    } else if !s.runner.Stopped? {
      var r := s.runner.r;
      var q, job := s.reqs[r], env.jobs[r];
      assert Fits(job, q, s.runner);
      var t := RunnerMoves(env, s, writeFails, delivered);
      if s.runner.Reading? {
        ReadIsProper(env, r, q, s.inbound, delivered);
      } else {
        AdvanceKeepsFits(job, q, s.runner, s.closeRequested, writeFails);
        assert Answers(env.tmux, r, job.sent.Input()) == job.own + [job.a, job.b] by { JobIsReplied(env, r); }
        assert [] + (job.own + [job.a, job.b]) == job.own + [job.a, job.b];
        assert s.inbound + [] == [];
      }
      assert t == Set(s, r, t.reqs[r], t.runner).(inbound := t.inbound);
      OneMoves(env, s, r, t.reqs[r], t.runner, t.inbound);
    }
  }

  lemma MovesKeepInv(env: Env, s: System, step: Step)
    requires GoodEnv(env) && Inv(env, s)
    ensures Inv(env, Moves(env, s, step))
  {
    hide OwnResults, FrameResults, Plain, Drain, GoodEnv, Advance, CallerMoves, Fits, RunnerMoves;
    match step
    case Caller(r, move) =>
      if r < |s.reqs| {
        assert Fits(env.jobs[r], s.reqs[r], At(s.runner, r));
        CallerKeepsFits(env.jobs[r], s.reqs[r], At(s.runner, r), move, s.closeRequested,
                        s.stopRequested || s.runner.Stopped?);
        CallerLeavesBounded(s.reqs[r], move, s.closeRequested, s.stopRequested || s.runner.Stopped?);
      }
    case Rendezvous(r) =>
      if r < |s.reqs| && s.reqs[r].caller.Submitting? && s.runner.Waiting? {
        assert forall i :: 0 <= i < |s.reqs| ==> Fits(env.jobs[i], s.reqs[i], At(s.runner, i));
        HandingOver(env.jobs[r], s.reqs[r], r);
        var t := Moves(env, s, step);
        assert forall i :: i != r ==> At(t.runner, i) == At(s.runner, i);
      }
    case CloseRequest =>
    case StopRequests =>
    case Runner(writeFails, delivered) => RunnerKeepsInv(env, s, writeFails, delivered);
  }

  lemma CallerLeavesBounded(q: Req, move: CallerStep, closing: bool, stopped: bool)
    ensures var t := CallerMoves(q, move, closing, stopped); t.bounded == q.bounded && t.written == q.written
  {
  }

  lemma HandingOver(job: Job, q: Req, r: nat)
    requires Fits(job, q, Waiting) && q.caller.Submitting?
    ensures Fits(job, q.(caller := Awaiting, received := true), Received(r))
  {
  }

  lemma {:induction false} EveryRunKeepsInv(env: Env, steps: seq<Step>)
    requires GoodEnv(env)
    ensures Inv(env, After(env, steps))
  {
    hide Moves, Fits, GoodEnv;
    if steps == [] {
      InitFits(env);
    } else {
      EveryRunKeepsInv(env, steps[..|steps| - 1]);
      MovesKeepInv(env, After(env, steps[..|steps| - 1]), steps[|steps| - 1]);
    }
  }

  lemma InitFits(env: Env)
    ensures Inv(env, Init(env))
  {
  }

  // ---------------------------------------------------------------- every run

  /** In every reachable state, a caller that got a result got exactly its own replies, also
      when callers before it gave up; one told that nothing was sent had nothing written; and
      one told that the outcome is unknown got only replies of its own. A context error is never
      a nil one, so no request fails as a success. */
  lemma EveryCallerGetsItsOwnReplies(env: Env, steps: seq<Step>, r: nat)
    requires GoodEnv(env) && r < |env.jobs|
    requires After(env, steps).reqs[r].caller.Returned?
    ensures var q, job := After(env, steps).reqs[r], env.jobs[r];
      var response := q.caller.response;
      match response.failure
      case NoFailure => q.written && q.bounded && response.results == OwnResults(job.call, [], job.own)
      case Unsent(cause) => !q.written && response.results == [] && (cause == ContextError ==> q.contextDone)
      case OutcomeUnknown(cause) =>
        response.results <= FrameResults(Plain(job.own), job.call) && (cause == ContextError || (q.written && !q.bounded))
  {
    hide After, GoodEnv, OwnResults, FrameResults, Plain;
    EveryRunKeepsInv(env, steps);
    assert Fits(env.jobs[r], After(env, steps).reqs[r], At(After(env, steps).runner, r));
  }

  /** A request of single lines, whose fence tmux answers, is a job with what tmux answers to its
      command lines as its own frames. */
  lemma RequestIsReplied(tmux: Tmux, r: nat, call: Call, sent: Sent, a: Frame, b: Frame)
    requires OneLineEach(sent) && AnswersFence(tmux, r, sent, a, b)
    ensures Replied(tmux, r, Job(call, sent, Answered(tmux, r, 0, CommandLines(sent)), a, b))
  {
    hide Answers, Answered;
    InputIsAnswered(tmux, r, sent, a, b);
  }

  /** From what is written to what is returned: in every run a result is what tmux answered to the
      request's own command lines, in order, and to nothing else. */
  lemma EveryCallerGetsItsAnswers(env: Env, steps: seq<Step>, r: nat)
    requires GoodEnv(env) && r < |env.jobs|
    requires var job := env.jobs[r]; OneLineEach(job.sent) && AnswersFence(env.tmux, r, job.sent, job.a, job.b)
    requires After(env, steps).reqs[r].caller.Returned?
    requires After(env, steps).reqs[r].caller.response.failure.NoFailure?
    ensures var job := env.jobs[r];
      After(env, steps).reqs[r].caller.response.results
      == OwnResults(job.call, [], Answered(env.tmux, r, 0, CommandLines(job.sent)))
  {
    hide After, GoodEnv, OwnResults, Answers, Answered, CommandLines, AnswersFence;
    var job := env.jobs[r];
    EveryCallerGetsItsOwnReplies(env, steps, r);
    JobIsReplied(env, r);
    InputIsAnswered(env.tmux, r, job.sent, job.a, job.b);
    var own := Answered(env.tmux, r, 0, CommandLines(job.sent));
    assert (own + [job.a, job.b])[..|own|] == own && (job.own + [job.a, job.b])[..|job.own|] == job.own;
  }

  /** Written, and no boundary seen: whoever is answered hears that the outcome is unknown. */
  lemma UnboundedWriteIsUnknown(env: Env, steps: seq<Step>, r: nat)
    requires GoodEnv(env) && r < |env.jobs|
    ensures var q := After(env, steps).reqs[r];
      q.written && !q.bounded ==>
        && (q.caller.Returned? ==> q.caller.response.failure.OutcomeUnknown?)
        && (q.channel.Some? ==> q.channel.value.failure.OutcomeUnknown?)
  {
    hide After, GoodEnv, OwnResults, FrameResults, Plain;
    EveryRunKeepsInv(env, steps);
    assert Fits(env.jobs[r], After(env, steps).reqs[r], At(After(env, steps).runner, r));
  }

  /** A request the loop received is answered exactly once, into an empty channel; one it did
      not receive is never answered. No request is written twice, and a caller that found its
      request finished waits only for an answer already sent or about to be. */
  lemma EveryReceivedRequestIsAnsweredOnce(env: Env, steps: seq<Step>, r: nat)
    requires GoodEnv(env) && r < |env.jobs|
    ensures var s := After(env, steps);
      var q, at := s.reqs[r], At(s.runner, r);
      && q.answers + (if at.Waiting? then 0 else 1) == (if q.received then 1 else 0)
      && (at.Responding? ==> q.channel.None?)
      && (at.Sending? ==> !q.written)
      && (q.caller.Taking? ==> q.channel.Some? || at.Responding?)
  {
    hide After, GoodEnv, OwnResults, FrameResults, Plain;
    EveryRunKeepsInv(env, steps);
    assert Fits(env.jobs[r], After(env, steps).reqs[r], At(After(env, steps).runner, r));
  }

  /** While the loop runs, no reply of an earlier request is left on the connection. */
  lemma EarlierRequestsAreDrained(env: Env, steps: seq<Step>, r: nat)
    requires GoodEnv(env) && r < |env.jobs| && !After(env, steps).runner.Stopped?
    requires At(After(env, steps).runner, r).Waiting?
    ensures After(env, steps).reqs[r].written ==> After(env, steps).reqs[r].bounded
    ensures !After(env, steps).runner.Reading? ==> After(env, steps).inbound == []
  {
    hide After, GoodEnv, Fits;
    EveryRunKeepsInv(env, steps);
  }

  /** Request r is over and done with on the connection: whatever was written of it has been
      answered up to its boundary. */
  predicate IsDrained(s: System, r: nat)
    requires r < |s.reqs|
  {
    s.reqs[r].received && At(s.runner, r).Waiting? && (s.reqs[r].written ==> s.reqs[r].bounded)
  }

  /** Request r was received before request q, and is drained once q is received too. */
  predicate Behind(s: System, r: nat, q: nat)
    requires r < |s.reqs| && q < |s.reqs|
  {
    s.reqs[r].received && (s.reqs[q].received ==> IsDrained(s, r))
  }

  lemma CallerLeavesReceived(q: Req, move: CallerStep, closing: bool, stopped: bool)
    ensures CallerMoves(q, move, closing, stopped).received == q.received
  {
  }

  lemma DrainedStays(env: Env, s: System, step: Step, r: nat)
    requires Inv(env, s) && r < |s.reqs| && IsDrained(s, r)
    ensures IsDrained(Moves(env, s, step), r)
  {
    hide Drain, CallerMoves, Advance, OthersDrained;
    var stopped := s.stopRequested || s.runner.Stopped?;
    assert Fits(env.jobs[r], s.reqs[r], Waiting);
    if step.Caller? {
      CallerLeavesBounded(s.reqs[r], step.move, s.closeRequested, stopped);
      CallerLeavesReceived(s.reqs[r], step.move, s.closeRequested, stopped);
    } else if step.Runner? && !s.runner.Waiting? && !s.runner.Stopped? && !s.runner.Reading? {
      AdvanceKeepsFits(env.jobs[s.runner.r], s.reqs[s.runner.r], s.runner, s.closeRequested, step.writeFails);
    } else if step.Rendezvous? && step.r == r && s.reqs[r].caller.Submitting? {
      assert false;
    }
  }

  lemma LoopLeavesReceived(q: Req, at: RunnerPc, closing: bool, writeFails: bool)
    requires !at.Waiting? && !at.Stopped? && !at.Reading?
    ensures Advance(q, at, closing, writeFails).0.received == q.received
  {
  }

  /** Only handing a request over makes it received. */
  lemma OnlyRendezvousReceives(env: Env, s: System, step: Step, q: nat)
    requires |s.reqs| == |env.jobs| && q < |s.reqs|
    ensures Moves(env, s, step).reqs[q].received <==>
              s.reqs[q].received
              || (step == Rendezvous(q) && s.reqs[q].caller.Submitting? && s.runner.Waiting?)
  {
    hide Drain, CallerMoves, Advance;
    var stopped := s.stopRequested || s.runner.Stopped?;
    if step.Caller? {
      CallerLeavesReceived(s.reqs[q], step.move, s.closeRequested, stopped);
    } else if step.Runner? && !s.runner.Waiting? && !s.runner.Stopped? && !s.runner.Reading? {
      LoopLeavesReceived(s.reqs[q], s.runner, s.closeRequested, step.writeFails);
    }
  }

  lemma BehindStays(env: Env, s: System, step: Step, r: nat, q: nat)
    requires Inv(env, s) && r < |s.reqs| && q < |s.reqs| && r != q && Behind(s, r, q)
    ensures Behind(Moves(env, s, step), r, q)
  {
    hide Moves, Fits;
    OnlyRendezvousReceives(env, s, step, r);
    OnlyRendezvousReceives(env, s, step, q);
    if s.reqs[q].received {
      DrainedStays(env, s, step, r);
    } else if step == Rendezvous(q) && s.reqs[q].caller.Submitting? && s.runner.Waiting? {
      assert IsDrained(s, r);
      HandingOverLeaves(env, s, r, q);
    }
  }

  lemma HandingOverLeaves(env: Env, s: System, r: nat, q: nat)
    requires |s.reqs| == |env.jobs| && r < |s.reqs| && q < |s.reqs| && r != q && IsDrained(s, r)
    requires s.reqs[q].caller.Submitting? && s.runner.Waiting?
    ensures IsDrained(Moves(env, s, Rendezvous(q)), r)
  {
  }

  /** A request that comes back without a failure has drained every request received before it:
      this is what sending a fence behind a command is for. */
  lemma {:induction false} FenceDrainsWhatIsBeforeIt(env: Env, steps: seq<Step>, more: seq<Step>, r: nat, q: nat)
    requires GoodEnv(env) && r < |env.jobs| && q < |env.jobs|
    requires After(env, steps).reqs[r].received && !After(env, steps).reqs[q].received
    ensures var s := After(env, steps + more);
      && Behind(s, r, q)
      && (s.reqs[q].caller.Returned? && s.reqs[q].caller.response.failure.NoFailure? ==>
            IsDrained(s, r) && (s.reqs[r].written ==> s.reqs[r].bounded))
  {
    hide Moves, GoodEnv, OwnResults, FrameResults, Plain;
    if more == [] {
      assert steps + more == steps;
    } else {
      var all, n := steps + more, |more| - 1;
      assert all[..|all| - 1] == steps + more[..n];
      FenceDrainsWhatIsBeforeIt(env, steps, more[..n], r, q);
      EveryRunKeepsInv(env, steps + more[..n]);
      BehindStays(env, After(env, steps + more[..n]), all[|all| - 1], r, q);
    }
    EveryRunKeepsInv(env, steps + more);
    assert Fits(env.jobs[q], After(env, steps + more).reqs[q], At(After(env, steps + more).runner, q));
  }

  lemma ReturnedIsFinal(q: Req, move: CallerStep, closing: bool, stopped: bool)
    requires q.caller.Returned?
    ensures CallerMoves(q, move, closing, stopped).caller == q.caller
  {
  }

  lemma LoopLeavesCaller(q: Req, at: RunnerPc, closing: bool, writeFails: bool)
    requires !at.Waiting? && !at.Stopped? && !at.Reading?
    ensures Advance(q, at, closing, writeFails).0.caller == q.caller
  {
  }

  lemma ReturnedStays(env: Env, s: System, step: Step, r: nat)
    requires |s.reqs| == |env.jobs| && r < |s.reqs| && s.reqs[r].caller.Returned?
    ensures Moves(env, s, step).reqs[r].caller == s.reqs[r].caller
  {
    hide Drain, CallerMoves, Advance;
    var stopped := s.stopRequested || s.runner.Stopped?;
    if step.Caller? {
      ReturnedIsFinal(s.reqs[r], step.move, s.closeRequested, stopped);
    } else if step.Runner? && !s.runner.Waiting? && !s.runner.Stopped? && !s.runner.Reading? {
      LoopLeavesCaller(s.reqs[r], s.runner, s.closeRequested, step.writeFails);
    }
  }

  /** A request that was cancelled or given up unwritten: it is in a state that is never written. */
  predicate Dead(q: Req) { q.received && !q.written && (q.state.Canceled? || q.state.Finished?) }

  lemma DeadStays(env: Env, s: System, step: Step, r: nat)
    requires GoodEnv(env) && Inv(env, s) && r < |s.reqs| && Dead(s.reqs[r])
    ensures Dead(Moves(env, s, step).reqs[r])
  {
    hide Drain, OwnResults, FrameResults, Plain, GoodEnv, CallerFits, Proper, CallerMoves, Advance, Answers, OthersDrained;
    assert Fits(env.jobs[r], s.reqs[r], At(s.runner, r));
    if step.Caller? && step.r == r {
      CallerLeavesDead(s.reqs[r], step.move, s.closeRequested, s.stopRequested || s.runner.Stopped?);
    } else if step.Runner? && At(s.runner, r) == s.runner && !s.runner.Waiting? && !s.runner.Stopped? && !s.runner.Reading? {
      LoopLeavesDead(env.jobs[r], s.reqs[r], s.runner, s.closeRequested, step.writeFails);
    }
  }

  lemma CallerLeavesDead(q: Req, move: CallerStep, closing: bool, stopped: bool)
    requires Dead(q)
    ensures Dead(CallerMoves(q, move, closing, stopped))
  {
  }

  lemma LoopLeavesDead(job: Job, q: Req, at: RunnerPc, closing: bool, writeFails: bool)
    requires !at.Waiting? && !at.Stopped? && !at.Reading? && Dead(q) && PlaceFits(job, q, at)
    ensures Dead(Advance(q, at, closing, writeFails).0)
  {
    hide OwnResults, FrameResults, Plain, Proper;
  }

  /** A bare error means the request line was never written, and never will be. */
  lemma {:induction false} UnsentIsNeverWritten(env: Env, steps: seq<Step>, more: seq<Step>, r: nat)
    requires GoodEnv(env) && r < |env.jobs|
    requires After(env, steps).reqs[r].caller.Returned?
    ensures After(env, steps + more).reqs[r].caller == After(env, steps).reqs[r].caller
    ensures After(env, steps).reqs[r].caller.response.failure.Unsent? ==> !After(env, steps + more).reqs[r].written
  {
    hide Moves, GoodEnv, OwnResults, FrameResults, Plain;
    if more == [] {
      assert steps + more == steps;
    } else {
      var all, n := steps + more, |more| - 1;
      assert all[..|all| - 1] == steps + more[..n];
      UnsentIsNeverWritten(env, steps, more[..n], r);
      EveryRunKeepsInv(env, steps + more[..n]);
      ReturnedStays(env, After(env, steps + more[..n]), all[|all| - 1], r);
    }
    EveryCallerGetsItsOwnReplies(env, steps + more, r);
  }

  /** No cancelled request is ever written. */
  lemma {:induction false} CancelledIsNeverWritten(env: Env, steps: seq<Step>, more: seq<Step>, r: nat)
    requires GoodEnv(env) && r < |env.jobs|
    requires After(env, steps).reqs[r].state.Canceled?
    ensures Dead(After(env, steps + more).reqs[r])
  {
    hide Moves, GoodEnv, OwnResults, FrameResults, Plain, CallerFits, Proper;
    if more == [] {
      assert steps + more == steps;
      EveryRunKeepsInv(env, steps);
      assert Fits(env.jobs[r], After(env, steps).reqs[r], At(After(env, steps).runner, r));
    } else {
      var all, n := steps + more, |more| - 1;
      assert all[..|all| - 1] == steps + more[..n];
      CancelledIsNeverWritten(env, steps, more[..n], r);
      EveryRunKeepsInv(env, steps + more[..n]);
      DeadStays(env, After(env, steps + more[..n]), all[|all| - 1], r);
    }
  }

  // ---------------------------------------------------------------- how callers return

  predicate Closed(s: System) { s.closeRequested || s.stopRequested || s.runner.Stopped? }

  /** Where a caller's response comes from: the loop's, out of its channel; or its own, when its
      request never reached the loop, was cancelled there, or is being written. */
  predicate ReturnsProperly(q: Req, t: Req, closed: bool)
    requires t.caller.Returned?
  {
    var response := t.caller.response;
    if q.channel == Some(response) && t.channel.None? then q.received
    else
      && response.results == []
      && match response.failure
         case NoFailure => false
         case Unsent(cause) =>
           if q.received then cause == ContextError && q.contextDone && t.state.Canceled?
           else if cause == ContextError then q.contextDone
           else cause == ClientClosed && closed
         case OutcomeUnknown(cause) => cause == ContextError && q.received && q.contextDone && q.state.Writing?
  }

  lemma CallerReturnsProperly(job: Job, q: Req, at: RunnerPc, move: CallerStep, closing: bool, stopped: bool)
    requires Fits(job, q, at) && !q.caller.Returned?
    ensures var t := CallerMoves(q, move, closing, stopped);
      t.caller.Returned? ==>
        && ReturnsProperly(q, t, closing || stopped)
        && (q.state.Finished? ==> q.channel == Some(t.caller.response))
  {
    hide OwnResults, FrameResults, Plain, Proper;
  }

  /** In every run: a caller reports an unknown outcome of its own accord only while its request is
      being written; once the request has finished it returns the loop's response. */
  lemma CallersReturnProperly(env: Env, steps: seq<Step>, step: Step, r: nat)
    requires GoodEnv(env) && r < |env.jobs| && !After(env, steps).reqs[r].caller.Returned?
    requires After(env, steps + [step]).reqs[r].caller.Returned?
    ensures var s := After(env, steps);
      var q, t := s.reqs[r], After(env, steps + [step]).reqs[r];
      && ReturnsProperly(q, t, Closed(s))
      && (q.state.Finished? ==> q.channel == Some(t.caller.response))
  {
    hide GoodEnv, Drain, Advance, CallerMoves, ReturnsProperly, Fits;
    EveryRunKeepsInv(env, steps);
    assert (steps + [step])[..|steps|] == steps;
    var s := After(env, steps);
    var at := At(s.runner, r);
    assert Fits(env.jobs[r], s.reqs[r], at);
    if step.Caller? {
      CallerReturnsProperly(env.jobs[r], s.reqs[r], at, step.move, s.closeRequested, s.stopRequested || s.runner.Stopped?);
    } else if step.Runner? && !s.runner.Waiting? && !s.runner.Stopped? && !s.runner.Reading? {
      LoopLeavesCaller(s.reqs[s.runner.r], s.runner, s.closeRequested, step.writeFails);
    }
  }

  // ---------------------------------------------------------------- what gets through

  lemma Goes(env: Env, steps: seq<Step>, step: Step) returns (more: seq<Step>)
    ensures more == steps + [step] && After(env, more) == Moves(env, After(env, steps), step)
  {
    hide Moves;
    more := steps + [step];
    assert more[..|steps|] == steps;
  }

  /** A step of the loop other than reading or writing. */
  lemma LoopGoes(env: Env, steps: seq<Step>, r: nat) returns (more: seq<Step>)
    requires var runner := After(env, steps).runner;
      !runner.Waiting? && !runner.Stopped? && !runner.Reading? && !runner.Sending? && runner.r == r < |env.jobs|
    ensures more == steps + [Runner(false, 0)]
    ensures var s := After(env, steps); var (q, runner) := Advance(s.reqs[r], s.runner, s.closeRequested, false);
            After(env, more) == Set(s, r, q, runner)
  {
    hide Advance, After, Answers;
    more := Goes(env, steps, Runner(false, 0));
    assert After(env, steps).inbound + [] == After(env, steps).inbound;
  }

  /** A step of the loop, or of caller r without its context ending. */
  predicate Undisturbing(step: Step, r: nat)
  {
    match step
    case Caller(q, move) => q == r && !move.ContextFires?
    case Rendezvous(q) => q == r
    case Runner(_, _) => true
    case _ => false
  }

  /** From a waiting loop to its holding the request, about to write it. */
  lemma CallerGetsIn(env: Env, steps: seq<Step>, r: nat) returns (more: seq<Step>)
    requires GoodEnv(env) && r < |env.jobs|
    requires var s := After(env, steps); s.runner.Waiting? && !Closed(s) && s.reqs[r] == FRESH
    ensures var s := After(env, more);
      && s.runner == Sending(r) && !Closed(s)
      && s.reqs[r] == FRESH.(caller := Awaiting, received := true, state := Writing)
    ensures steps <= more && forall i :: |steps| <= i < |more| ==> Undisturbing(more[i], r)
  {
    hide After, GoodEnv, Answers, Drain, RunnerMoves;
    more := Goes(env, steps, Caller(r, Start));
    more := Goes(env, more, Caller(r, Submit));
    assert After(env, more).reqs[r] == FRESH.(caller := Submitting);
    more := Goes(env, more, Rendezvous(r));
    assert After(env, more).runner == Received(r);
    more := LoopGoes(env, more, r);
    assert After(env, more).runner == Accepting(r);
    more := LoopGoes(env, more, r);
    assert After(env, more).runner == Starting(r);
    more := LoopGoes(env, more, r);
    more := LoopGoes(env, more, r);
  }

  /** A call that nobody cancels or closes gets its replies: from any reachable state in which the
      loop waits, and whatever other callers did before. */
  lemma AnUndisturbedCallSucceeds(env: Env, steps: seq<Step>, r: nat) returns (more: seq<Step>)
    requires GoodEnv(env) && r < |env.jobs|
    requires var s := After(env, steps); s.runner.Waiting? && !Closed(s) && s.reqs[r] == FRESH
    ensures steps <= more && forall i :: |steps| <= i < |more| ==> Undisturbing(more[i], r)
    ensures var s, job := After(env, more), env.jobs[r];
      && s.runner.Waiting? && !Closed(s)
      && s.reqs[r].caller == Returned(Response(OwnResults(job.call, [], job.own), NoFailure))
  {
    hide After, GoodEnv, Answers, Drain, RunnerMoves, Inv, OwnResults;
    more := CallerGetsIn(env, steps, r);
    more := RequestIsServed(env, more, r);
    more := LoopGoes(env, more, r);
    assert After(env, more).runner.Responding?;
    more := LoopGoes(env, more, r);
    more := Goes(env, more, Caller(r, Receive));
  }

  lemma RequestIsServed(env: Env, steps: seq<Step>, r: nat) returns (more: seq<Step>)
    requires GoodEnv(env) && r < |env.jobs|
    requires var s := After(env, steps); s.runner == Sending(r) && !Closed(s)
    ensures steps <= more && forall i :: |steps| <= i < |more| ==> Undisturbing(more[i], r)
    ensures var s, t, job := After(env, steps), After(env, more), env.jobs[r];
      && t.runner == Finishing(r, Response(OwnResults(job.call, [], job.own), NoFailure), true) && !Closed(t)
      && t.reqs == s.reqs[r := s.reqs[r].(written := true, bounded := true)]
  {
    hide After, Answers, Drain, Inv, OwnResults, Plain, NoBoundary, IsFence;
    var job := env.jobs[r];
    EveryRunKeepsInv(env, steps);
    JobIsReplied(env, r);
    assert GoodJob(env.fence, job);
    assert After(env, steps).inbound == [] by { NothingInbound(env, After(env, steps)); }
    more := Goes(env, steps, Runner(false, 0));
    assert [] + (job.own + [job.a, job.b]) == job.own + [job.a, job.b];
    var frames := After(env, more).inbound;
    assert frames == job.own + [job.a, job.b] && After(env, more).runner == Reading(r);
    ReplyAlignsExactly(env.fence, job.call, job.own, job.a, job.b, []);
    assert [job.a, job.b] + [] == [job.a, job.b];
    more := Goes(env, more, Runner(false, |frames|));
  }

  lemma NothingInbound(env: Env, s: System)
    requires Inv(env, s) && !s.runner.Reading?
    ensures s.inbound == []
  {
    hide Fits;
  }

  function Rank(runner: RunnerPc): nat
  {
    match runner
    case Received(_) => 8
    case Accepting(_) => 7
    case Starting(_) => 6
    case Claiming(_) => 5
    case Sending(_) => 4
    case Reading(_) => 3
    case Finishing(_, _, _) => 2
    case Closing(_) => 1
    case Dropping(_) => 2
    case Responding(_, _, _) => 1
    case _ => 0
  }

  /** The loop has not decided to stop. */
  predicate GoesOn(runner: RunnerPc) { !runner.Stopped? && (runner.Finishing? || runner.Responding? ==> runner.keep) }

  lemma AdvanceGoesOn(job: Job, q: Req, at: RunnerPc)
    requires Fits(job, q, at) && GoesOn(at) && !at.Waiting? && !at.Reading? && !at.Closing?
    ensures var runner := Advance(q, at, false, false).1;
            GoesOn(runner) && Rank(runner) < Rank(at) && !runner.Closing?
  {
    hide OwnResults, FrameResults, Plain, Proper;
  }

  /** On an open connection a loop that has not decided to stop comes back for the next request. */
  lemma {:induction false} LoopComesBack(env: Env, steps: seq<Step>) returns (more: seq<Step>)
    requires GoodEnv(env)
    requires var s := After(env, steps); !Closed(s) && GoesOn(s.runner) && !s.runner.Closing?
    ensures steps <= more && forall i :: |steps| <= i < |more| ==> more[i].Runner?
    ensures var s, t := After(env, steps), After(env, more);
            t.runner.Waiting? && !Closed(t)
    decreases Rank(After(env, steps).runner)
  {
    hide After, GoodEnv, Answers, Drain, OwnResults, Plain, NoBoundary, IsFence, Advance, Fits;
    var s := After(env, steps);
    more := steps;
    if !s.runner.Waiting? {
      EveryRunKeepsInv(env, steps);
      var r := s.runner.r;
      if s.runner.Reading? {
        ReadsToTheEnd(env, s);
        more := Goes(env, steps, Runner(false, |s.inbound|));
      } else {
        assert Fits(env.jobs[r], s.reqs[r], s.runner);
        AdvanceGoesOn(env.jobs[r], s.reqs[r], s.runner);
        more := Goes(env, steps, Runner(false, 0));
      }
      more := LoopComesBack(env, more);
    }
  }

  lemma ReadsToTheEnd(env: Env, s: System)
    requires GoodEnv(env) && Inv(env, s) && s.runner.Reading?
    ensures Drain(env.fence, env.jobs[s.runner.r].call, None, [], s.inbound).bounded
  {
    hide Drain, OwnResults, Plain, NoBoundary, IsFence, Fits;
    var job := env.jobs[s.runner.r];
    assert GoodJob(env.fence, job);
    ReplyAlignsExactly(env.fence, job.call, job.own, job.a, job.b, []);
    assert [job.a, job.b] + [] == [job.a, job.b];
  }

  lemma CallerGoes(env: Env, steps: seq<Step>, r: nat, move: CallerStep) returns (more: seq<Step>)
    requires r < |env.jobs|
    ensures more == steps + [Caller(r, move)]
    ensures var s, t := After(env, steps), After(env, more);
      && t.reqs[r] == CallerMoves(s.reqs[r], move, s.closeRequested, s.stopRequested || s.runner.Stopped?)
      && t.runner == s.runner
  {
    hide After, CallerMoves;
    more := Goes(env, steps, Caller(r, move));
  }

  /** The response is not in the channel yet, but the loop is about to put it there. */
  predicate AboutToReturn(s: System, r: nat)
    requires r < |s.reqs|
  {
    s.reqs[r].caller.Returned? || (s.reqs[r].caller.Taking? && At(s.runner, r).Responding?)
  }

  lemma TakingReturns(env: Env, steps: seq<Step>, r: nat) returns (more: seq<Step>)
    requires GoodEnv(env) && r < |env.jobs| && After(env, steps).reqs[r].caller.Taking?
    ensures steps <= more && |more| <= |steps| + 1 && AboutToReturn(After(env, more), r)
    ensures forall i :: |steps| <= i < |more| ==> more[i].Caller? && more[i].r == r
  {
    hide After, GoodEnv, OwnResults, FrameResults, Plain;
    EveryRunKeepsInv(env, steps);
    assert Fits(env.jobs[r], After(env, steps).reqs[r], At(After(env, steps).runner, r));
    more := CallerGoes(env, steps, r, Receive);
  }

  lemma CheckingReturns(env: Env, steps: seq<Step>, r: nat) returns (more: seq<Step>)
    requires GoodEnv(env) && r < |env.jobs| && After(env, steps).reqs[r].caller.Checking?
    ensures steps <= more && |more| <= |steps| + 2 && AboutToReturn(After(env, more), r)
    ensures forall i :: |steps| <= i < |more| ==> more[i].Caller? && more[i].r == r
  {
    hide After, GoodEnv;
    more := CallerGoes(env, steps, r, Check);
    if After(env, more).reqs[r].caller.Taking? { more := TakingReturns(env, more, r); }
  }

  lemma LoadingReturns(env: Env, steps: seq<Step>, r: nat) returns (more: seq<Step>)
    requires GoodEnv(env) && r < |env.jobs| && After(env, steps).reqs[r].caller.Loading?
    ensures steps <= more && |more| <= |steps| + 3 && AboutToReturn(After(env, more), r)
    ensures forall i :: |steps| <= i < |more| ==> more[i].Caller? && more[i].r == r
  {
    hide After, GoodEnv;
    more := CallerGoes(env, steps, r, Load);
    if After(env, more).reqs[r].caller.Swapping? { more := CallerGoes(env, more, r, Swap); }
    else if After(env, more).reqs[r].caller.Checking? { more := CheckingReturns(env, more, r); }
  }

  lemma EnteringReturns(env: Env, steps: seq<Step>, r: nat) returns (more: seq<Step>)
    requires r < |env.jobs| && After(env, steps).reqs[r].contextDone
    requires var caller := After(env, steps).reqs[r].caller; caller.Fresh? || caller.Entering? || caller.Submitting?
    ensures steps <= more && |more| <= |steps| + 2 && After(env, more).reqs[r].caller.Returned?
    ensures forall i :: |steps| <= i < |more| ==> more[i].Caller? && more[i].r == r
  {
    hide After;
    if After(env, steps).reqs[r].caller.Fresh? {
      more := CallerGoes(env, steps, r, Start);
    } else if After(env, steps).reqs[r].caller.Entering? {
      more := CallerGoes(env, steps, r, Submit);
      if After(env, more).reqs[r].caller.Submitting? { more := CallerGoes(env, more, r, GiveUp(false)); }
    } else {
      more := CallerGoes(env, steps, r, GiveUp(false));
    }
  }

  /** A caller whose context has ended returns by at most four steps of its own, unless the loop
      is about to give it its response: it waits for nothing that tmux does. */
  lemma ACancelledCallerReturns(env: Env, steps: seq<Step>, r: nat) returns (more: seq<Step>)
    requires GoodEnv(env) && r < |env.jobs| && After(env, steps).reqs[r].contextDone
    ensures steps <= more && |more| <= |steps| + 4 && AboutToReturn(After(env, more), r)
    ensures forall i :: |steps| <= i < |more| ==> more[i].Caller? && more[i].r == r
  {
    hide After, GoodEnv;
    more := steps;
    match After(env, steps).reqs[r].caller
    case Fresh => more := EnteringReturns(env, steps, r);
    case Entering => more := EnteringReturns(env, steps, r);
    case Submitting => more := EnteringReturns(env, steps, r);
    case Awaiting =>
      more := CallerGoes(env, steps, r, SeeDone);
      more := LoadingReturns(env, more, r);
    case Loading => more := LoadingReturns(env, steps, r);
    case Swapping(_) =>
      more := CallerGoes(env, steps, r, Swap);
      if After(env, more).reqs[r].caller.Loading? { more := LoadingReturns(env, more, r); }
    case Checking => more := CheckingReturns(env, steps, r);
    case Taking => more := TakingReturns(env, steps, r);
    case Returned(_) =>
  }

  // ---------------------------------------------------------------- when a connection has ended

  /** A failure other than a context's: it tells that the connection has ended. */
  predicate Ends(response: Response)
  {
    !response.failure.NoFailure? && response.failure.cause != ContextError
  }

  predicate ReqEnds(q: Req, closed: bool)
  {
    && (q.caller.Returned? && Ends(q.caller.response) ==> closed)
    && (q.channel.Some? && Ends(q.channel.value) ==> closed)
  }

  predicate LoopEnds(at: RunnerPc, closing: bool)
  {
    && (at.Finishing? || at.Responding? ==> (Ends(at.response) <==> !at.keep))
    && (at.Responding? && at.response.failure.Unsent? && Ends(at.response) ==> closing)
    && (at.Finishing? ==> !at.response.failure.Unsent?)
    && (at.Closing? ==> closing)
  }

  /** Such a failure is told only of a connection that is closed, or whose loop is ending. */
  predicate EndsFit(s: System)
  {
    LoopEnds(s.runner, s.closeRequested) && forall r :: 0 <= r < |s.reqs| ==> ReqEnds(s.reqs[r], Closed(s))
  }

  lemma CallerEnds(q: Req, move: CallerStep, closing: bool, stopped: bool)
    requires ReqEnds(q, closing || stopped)
    ensures ReqEnds(CallerMoves(q, move, closing, stopped), closing || stopped)
  {
  }

  lemma AdvanceEnds(q: Req, at: RunnerPc, closing: bool, writeFails: bool, closed: bool)
    requires !at.Waiting? && !at.Stopped? && !at.Reading?
    requires LoopEnds(at, closing) && ReqEnds(q, closed)
    ensures var (t, runner) := Advance(q, at, closing, writeFails);
            LoopEnds(runner, closing) && ReqEnds(t, closed || runner.Stopped?)
  {
  }

  lemma EndsFitStays(env: Env, s: System, step: Step)
    requires |s.reqs| == |env.jobs| && EndsFit(s)
    ensures EndsFit(Moves(env, s, step))
    ensures Closed(s) ==> Closed(Moves(env, s, step))
  {
    hide Drain, Answers, CallerMoves, Advance, Ends;
    var closed := s.stopRequested || s.runner.Stopped?;
    if step.Caller? && step.r < |s.reqs| {
      CallerEnds(s.reqs[step.r], step.move, s.closeRequested, closed);
    } else if step.Runner? && !s.runner.Waiting? && !s.runner.Stopped? && !s.runner.Reading? && s.runner.r < |s.reqs| {
      AdvanceEnds(s.reqs[s.runner.r], s.runner, s.closeRequested, step.writeFails, Closed(s));
    } else if step.Runner? && s.runner.Reading? {
      HowReadingEnds();
    }
  }

  lemma HowReadingEnds()
    ensures forall results :: !Ends(Response(results, NoFailure))
    ensures forall results :: Ends(Response(results, OutcomeUnknown(StreamError)))
  {
  }

  lemma {:induction false} EveryRunEndsFit(env: Env, steps: seq<Step>)
    ensures EndsFit(After(env, steps))
  {
    hide Moves, EndsFit;
    if steps == [] {
      assert EndsFit(Init(env)) by { InitEndsFit(env); }
    } else {
      EveryRunEndsFit(env, steps[..|steps| - 1]);
      EndsFitStays(env, After(env, steps[..|steps| - 1]), steps[|steps| - 1]);
    }
  }

  lemma InitEndsFit(env: Env)
    ensures EndsFit(Init(env))
  {
  }

  /** In every run a caller hears a failure other than its context's only of a connection that was
      closed or whose loop has stopped. */
  lemma OnlyClosedConnectionsEnd(env: Env, steps: seq<Step>, r: nat)
    requires r < |env.jobs|
    ensures var s := After(env, steps);
      s.reqs[r].caller.Returned? && Ends(s.reqs[r].caller.response) ==> Closed(s)
  {
    hide After;
    EveryRunEndsFit(env, steps);
  }

  // ---------------------------------------------------------------- what comes too late

  /** The request has not come past the check that a close, or its ended context, fails it at. */
  predicate TooLate(s: System, r: nat)
    requires r < |s.reqs|
  {
    var q, at := s.reqs[r], At(s.runner, r);
    && !q.written
    && ((s.closeRequested && (!q.received || at.Received? || at.Accepting?))
        || (q.contextDone && (!q.received || at.Received? || at.Accepting? || at.Starting?))
        || (q.received && (at.Waiting? || at.Closing? || at.Dropping? || (at.Responding? && !q.written))))
  }

  lemma TooLateStays(env: Env, s: System, step: Step, r: nat)
    requires Inv(env, s) && r < |s.reqs| && TooLate(s, r)
    ensures TooLate(Moves(env, s, step), r)
  {
    hide Drain, Answers, OwnResults, FrameResults, Plain, OthersDrained, Proper, CallerMoves;
    assert Fits(env.jobs[r], s.reqs[r], At(s.runner, r));
    if step.Caller? {
      var stopped := s.stopRequested || s.runner.Stopped?;
      CallerLeavesBounded(s.reqs[r], step.move, s.closeRequested, stopped);
      CallerLeavesReceived(s.reqs[r], step.move, s.closeRequested, stopped);
      ContextStaysDone(s.reqs[r], step.move, s.closeRequested, stopped);
    }
  }

  lemma ContextStaysDone(q: Req, move: CallerStep, closing: bool, stopped: bool)
    ensures q.contextDone ==> CallerMoves(q, move, closing, stopped).contextDone
  {
  }

  /** A request that a close or the end of its context finds before the loop has checked for it is
      never written. */
  lemma {:induction false} NothingIsWrittenTooLate(env: Env, steps: seq<Step>, more: seq<Step>, r: nat)
    requires GoodEnv(env) && r < |env.jobs| && TooLate(After(env, steps), r)
    ensures !After(env, steps + more).reqs[r].written && TooLate(After(env, steps + more), r)
  {
    hide Moves, GoodEnv, Inv, TooLate;
    if more == [] {
      assert steps + more == steps;
    } else {
      var all, n := steps + more, |more| - 1;
      assert all[..|all| - 1] == steps + more[..n];
      NothingIsWrittenTooLate(env, steps, more[..n], r);
      EveryRunKeepsInv(env, steps + more[..n]);
      TooLateStays(env, After(env, steps + more[..n]), all[|all| - 1], r);
    }
    assert TooLate(After(env, steps + more), r);
    NotWritten(After(env, steps + more), r);
  }

  lemma NotWritten(s: System, r: nat)
    requires r < |s.reqs| && TooLate(s, r)
    ensures !s.reqs[r].written
  {
  }

  /** A caller that comes to a closed connection never gets to the loop. */
  lemma {:induction false} NobodyEntersAfterClose(env: Env, steps: seq<Step>, more: seq<Step>, r: nat)
    requires r < |env.jobs|
    requires var s := After(env, steps); s.closeRequested && (s.reqs[r].caller.Fresh? || s.reqs[r].caller.Entering?)
    requires !After(env, steps).reqs[r].received
    ensures var s := After(env, steps + more);
      && s.closeRequested && !s.reqs[r].received
      && (s.reqs[r].caller.Fresh? || s.reqs[r].caller.Entering? || s.reqs[r].caller.Returned?)
  {
    hide Moves;
    if more == [] {
      assert steps + more == steps;
    } else {
      var all, n := steps + more, |more| - 1;
      assert all[..|all| - 1] == steps + more[..n];
      NobodyEntersAfterClose(env, steps, more[..n], r);
      ClosedToNewcomers(env, After(env, steps + more[..n]), all[|all| - 1], r);
    }
  }

  lemma ClosedToNewcomers(env: Env, s: System, step: Step, r: nat)
    requires |s.reqs| == |env.jobs| && r < |s.reqs| && s.closeRequested && !s.reqs[r].received
    requires s.reqs[r].caller.Fresh? || s.reqs[r].caller.Entering? || s.reqs[r].caller.Returned?
    ensures var t := Moves(env, s, step);
      && t.closeRequested && !t.reqs[r].received
      && (t.reqs[r].caller.Fresh? || t.reqs[r].caller.Entering? || t.reqs[r].caller.Returned?)
  {
    hide Drain, Answers;
    OnlyRendezvousReceives(env, s, step, r);
    if step.Runner? && !s.runner.Waiting? && !s.runner.Stopped? && !s.runner.Reading? && s.runner.r < |s.reqs| {
      LoopLeavesCaller(s.reqs[s.runner.r], s.runner, s.closeRequested, step.writeFails);
    }
  }

  /** The loop stops exactly when it is asked to while it waits, or once it has told a caller that
      the connection has ended. */
  lemma LoopStopsExactly(env: Env, steps: seq<Step>, step: Step)
    ensures var s, t := After(env, steps), After(env, steps + [step]);
      !s.runner.Stopped? ==>
        (t.runner.Stopped? <==>
           step.Runner?
           && ((s.runner.Waiting? && s.stopRequested)
               || (s.runner.Responding? && s.runner.r < |s.reqs| && s.reqs[s.runner.r].channel.None?
                   && Ends(s.runner.response))))
  {
    hide After, Drain, Answers, CallerMoves;
    EveryRunEndsFit(env, steps);
    assert (steps + [step])[..|steps|] == steps;
    var more := Goes(env, steps, step);
  }

  /** A caller that the loop has not taken returns by at most three steps of its own once the loop
      was asked to stop, or has. */
  lemma AStoppedLoopLetsGo(env: Env, steps: seq<Step>, r: nat) returns (more: seq<Step>)
    requires r < |env.jobs| && (After(env, steps).stopRequested || After(env, steps).runner.Stopped?)
    requires var caller := After(env, steps).reqs[r].caller; caller.Fresh? || caller.Entering? || caller.Submitting?
    ensures steps <= more && |more| <= |steps| + 3 && After(env, more).reqs[r].caller.Returned?
    ensures forall i :: |steps| <= i < |more| ==> more[i].Caller? && more[i].r == r
  {
    hide After, RunnerMoves;
    more := steps;
    if After(env, more).reqs[r].caller.Fresh? { more := Goes(env, more, Caller(r, Start)); }
    if After(env, more).reqs[r].caller.Entering? { more := Goes(env, more, Caller(r, Submit)); }
    if After(env, more).reqs[r].caller.Submitting? { more := Goes(env, more, Caller(r, GiveUp(true))); }
  }
}
