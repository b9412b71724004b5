/** The whole path of a control connection, from callers to printed lines and back: requests are
    written while tmux prints, the parser reads line by line with its capture carried from
    request to request, and the loop reads own frames as they come.

    One line read, one write, one item printed and each step of RequestLifecycle is a step here;
    a step whose guard does not hold leaves the state as it is. */
module WireSystem {
  import opened ControlGuard
  import opened ControlProtocol
  import opened CapturedResults
  import opened ReplyFence
  import opened ReplyStream
  import opened Options
  import opened ControlRequest
  import R = RequestLifecycle

  /** What tmux prints once a request is written, with notifications and other clients' blocks
      among it, and the frames of its own that this makes. */
  datatype Exchange =
    | Framing(job: R.Job, items: seq<Item>)
    | Capturing(job: R.Job, nonce: string, before: seq<Item>, own: Item, printed: seq<string>, close: Item,
        after: seq<Item>)

  datatype Env = Env(table: Table, fence: Fence, tmux: Tmux, exchanges: seq<Exchange>)

  predicate GoodExchange(table: Table, fence: Fence, x: Exchange)
  {
    && IsFence(fence, x.job.a, x.job.b)
    && match x
       case Framing(job, items) =>
         && !job.sent.Captures()
         && AllPrintable(items) && OwnFrames(Outcomes(items)) == job.own + [job.a, job.b]
         && NoBoundary(fence, job.own)
       case Capturing(job, nonce, before, own, printed, close, after) =>
         && job.sent.Captures() && job.sent.nonce == nonce
         && CaptureRequest(table, nonce, before, own, close) && close.guard.flags != 0
         && !LooksFenced(table, nonce, printed)
         && AllPrintable(after) && OwnFrames(Outcomes(after)) == [job.a, job.b]
         && job.own == [FrameOf(own), FenceFrame(close, Text(table, printed))]
  }

  predicate GoodEnv(env: Env)
  {
    && Distinct(env.fence)
    && forall r :: 0 <= r < |env.exchanges| ==>
         GoodExchange(env.table, env.fence, env.exchanges[r]) && R.Replied(env.tmux, r, env.exchanges[r].job)
  }

  function LinesOf(x: Exchange): seq<string>
  {
    match x
    case Framing(_, items) => Printed(items)
    case Capturing(_, _, before, own, printed, close, after) =>
      CaptureStream(before, own, printed, close) + Printed(after)
  }

  /** What the caller is to get: the own blocks, or the own block and the printed text cut into
      results. */
  function Replies(table: Table, x: Exchange): seq<Result>
  {
    match x
    case Framing(job, _) => FrameResults(job.own, job.call)
    case Capturing(job, _, _, own, printed, _, _) =>
      (if own.Block? then [FrameResult(FrameOf(own), job.call.command)] else [])
      + ResultsOf(Text(table, printed), job.call.shellOutput, job.call.command)
  }

  /** The connection as RequestLifecycle sees it, where the frames of a request are there once
      it is written. */
  function FrameEnv(env: Env): (e: R.Env)
    ensures |e.jobs| == |env.exchanges|
  {
    R.Env(env.fence, env.tmux, seq(|env.exchanges|, i requires 0 <= i < |env.exchanges| => env.exchanges[i].job))
  }

  /** sys.inbound holds the own frames parsed and not read by the loop; output holds the lines
      printed and not parsed. ended is set once the stream has ended or failed. */
  datatype Wire = Wire(sys: R.System, parser: Parser, output: seq<string>, ended: bool)

  datatype Step = Call(step: R.Step) | Loop(writeFails: bool) | ReadLine | Print(item: Item) | StreamEnds

  function Init(env: Env): Wire { Wire(R.Init(FrameEnv(env)), IDLE, [], false) }

  /** Printed for no request of this connection. */
  predicate Unrelated(item: Item) { Printable(item) && (item.Block? ==> item.guard.flags == 0) }

  function Own(outcome: Outcome): seq<Frame>
  {
    if outcome.Completed? && OwnReply(outcome.frame) then [outcome.frame] else []
  }

  function Reads(env: Env, w: Wire): Wire
  {
    if w.ended || w.output == [] then w
    else
      var (q, outcome) := Consume(env.table, w.parser, w.output[0]);
      if outcome.Failed? then w.(ended := true)
      else w.(parser := q, output := w.output[1..], sys := w.sys.(inbound := w.sys.inbound + Own(outcome)))
  }

  function Arming(p: Parser, nonce: string): Parser { p.(capture := Some(Capture(nonce, false, false, []))) }

  /** A step of the request loop: a capture is armed before its request is written; replies are
      read up to the boundary, or to the end of the stream. */
  function LoopMoves(env: Env, w: Wire, writeFails: bool): Wire
    requires |w.sys.reqs| == |env.exchanges|
  {
    var runner := w.sys.runner;
    var step := R.Runner(writeFails, |w.sys.inbound|);
    var sys := R.Moves(FrameEnv(env), w.sys, step);
    if runner.Sending? && runner.r < |env.exchanges| then
      var x := env.exchanges[runner.r];
      if x.job.sent.Captures() && w.parser.capture.None? then w.(parser := Arming(w.parser, x.job.sent.nonce))
      else w.(sys := sys.(inbound := w.sys.inbound), output := w.output + if writeFails then [] else LinesOf(x))
    else if runner.Reading? && runner.r < |env.exchanges| then
      var d := Drain(env.fence, env.exchanges[runner.r].job.call, None, [], w.sys.inbound);
      if d.bounded then w.(sys := sys) else if w.ended then w.(sys := sys, output := []) else w
    else w.(sys := sys)
  }

  function Moves(env: Env, w: Wire, step: Step): (t: Wire)
    requires |w.sys.reqs| == |env.exchanges|
    ensures |t.sys.reqs| == |w.sys.reqs|
  {
    match step
    case Call(s) => if s.Runner? then w else w.(sys := R.Moves(FrameEnv(env), w.sys, s))
    case Loop(writeFails) => LoopMoves(env, w, writeFails)
    case ReadLine => Reads(env, w)
    case Print(item) => if !w.ended && Unrelated(item) then w.(output := w.output + Lines(item)) else w
    case StreamEnds => w.(ended := true)
  }

  function After(env: Env, steps: seq<Step>): (w: Wire)
    ensures |w.sys.reqs| == |env.exchanges|
  {
    if steps == [] then Init(env) else Moves(env, After(env, steps[..|steps| - 1]), steps[|steps| - 1])
  }

  // ---------------------------------------------------------------- the frames to come

  /** What becomes of the lines not yet parsed. */
  function Ahead(env: Env, w: Wire): Parsed { ConsumeAll(env.table, w.parser, w.output) }

  /** The connection on which every printed own frame has come in already. */
  function Abstract(env: Env, w: Wire): R.System
  {
    w.sys.(inbound := w.sys.inbound + OwnFrames(Ahead(env, w).outcomes))
  }

  predicate FencesOwn(outcomes: seq<Outcome>)
  {
    forall i :: 0 <= i < |outcomes| && outcomes[i].Completed? && outcomes[i].frame.fence ==> OwnReply(outcomes[i].frame)
  }

  /** Where the parser is once it has read everything printed. */
  function End(env: Env, w: Wire): Parser
  {
    var runner := w.sys.runner;
    if runner.Sending? && runner.r < |env.exchanges| && env.exchanges[runner.r].Capturing? && w.parser.capture.Some?
    then Armed(env.exchanges[runner.r].nonce)
    else IDLE
  }

  predicate Calm(p: Parser) { p.guard.None? && p.output == "" && ReadsFrames(p) }

  /** Everything printed will be parsed, and while the loop runs it leaves the parser idle, or
      armed for the request about to be written. */
  ghost predicate Settled(env: Env, w: Wire)
  {
    var ahead := Ahead(env, w);
    if R.GoesOn(w.sys.runner) then !Fails(ahead) && ahead.parser == End(env, w) && FencesOwn(ahead.outcomes)
    else w.ended || (!Fails(ahead) && Calm(ahead.parser))
  }

  lemma FailsConcat(p: Parser, left: seq<Outcome>, right: seq<Outcome>)
    requires !Fails(Parsed(p, left)) && !Fails(Parsed(p, right))
    ensures forall q :: !Fails(Parsed(q, left + right))
  {
    forall q ensures !Fails(Parsed(q, left + right)) {
      forall i | 0 <= i < |left + right| ensures !(left + right)[i].Failed? {
        if i < |left| { assert !Parsed(p, left).outcomes[i].Failed?; }
        else { assert !Parsed(p, right).outcomes[i - |left|].Failed?; }
      }
    }
  }

  /** More lines after those to come. */
  lemma Continues(table: Table, p: Parser, lines: seq<string>, more: seq<string>)
    requires !Fails(ConsumeAll(table, p, lines))
    ensures var first := ConsumeAll(table, p, lines);
      var second, all := ConsumeAll(table, first.parser, more), ConsumeAll(table, p, lines + more);
      && all.parser == second.parser
      && OwnFrames(all.outcomes) == OwnFrames(first.outcomes) + OwnFrames(second.outcomes)
      && (!Fails(second) ==> !Fails(all))
      && (FencesOwn(first.outcomes) && FencesOwn(second.outcomes) ==> FencesOwn(all.outcomes))
  {
    hide ConsumeAll, Fails;
    var first := ConsumeAll(table, p, lines);
    var second := ConsumeAll(table, first.parser, more);
    ConsumeConcat(table, p, lines, more);
    OwnFramesConcat(first.outcomes, second.outcomes);
    if !Fails(second) {
      FailsOnly(first, Parsed(first.parser, first.outcomes));
      FailsOnly(second, Parsed(first.parser, second.outcomes));
      FailsConcat(first.parser, first.outcomes, second.outcomes);
    }
  }

  lemma FailsOnly(a: Parsed, b: Parsed)
    requires a.outcomes == b.outcomes
    ensures Fails(a) <==> Fails(b)
  {
  }

  /** One line fewer to come. */
  lemma Advances(table: Table, p: Parser, lines: seq<string>)
    requires lines != []
    ensures var (q, outcome) := Consume(table, p, lines[0]);
      var all, rest := ConsumeAll(table, p, lines), ConsumeAll(table, q, lines[1..]);
      && (outcome.Failed? ==> Fails(all))
      && (!outcome.Failed? ==>
            && OwnFrames(all.outcomes) == Own(outcome) + OwnFrames(rest.outcomes) && all.parser == rest.parser
            && (!Fails(all) ==> !Fails(rest)) && (FencesOwn(all.outcomes) ==> FencesOwn(rest.outcomes)))
  {
    hide Consume;
    var (q, outcome) := Consume(table, p, lines[0]);
    var all, rest := ConsumeAll(table, p, lines), ConsumeAll(table, q, lines[1..]);
    if outcome.Failed? {
      FailedShows(q, outcome);
    } else if outcome.Nothing? {
      assert [] + OwnFrames(rest.outcomes) == OwnFrames(rest.outcomes);
    } else {
      assert all.outcomes[1..] == rest.outcomes;
      assert forall i :: 0 <= i < |rest.outcomes| ==> all.outcomes[i + 1] == rest.outcomes[i];
    }
  }

  lemma {:induction false} DisarmedStays(table: Table, p: Parser, lines: seq<string>)
    requires p.capture.None?
    ensures ConsumeAll(table, p, lines).parser.capture.None?
    decreases |lines|
  {
    hide GuardOf;
    if lines != [] { DisarmedStays(table, Consume(table, p, lines[0]).0, lines[1..]); }
  }

  /** A capture ends with a frame of its own. */
  lemma {:induction false} DisarmingShows(table: Table, p: Parser, lines: seq<string>)
    requires p.capture.Some? && ConsumeAll(table, p, lines).parser.capture.None?
    requires FencesOwn(ConsumeAll(table, p, lines).outcomes)
    ensures OwnFrames(ConsumeAll(table, p, lines).outcomes) != []
    decreases |lines|
  {
    hide GuardOf, FencesOwn, ConsumeAll, ControlNotification.Parse;
    if lines == [] {
      NothingConsumed(table, p);
    } else {
      var (q, outcome) := Consume(table, p, lines[0]);
      Advances(table, p, lines);
      if outcome.Failed? {
        FailingStops(table, p, lines);
      } else if q.capture.Some? {
        DisarmingShows(table, q, lines[1..]);
      } else {
        FenceIsOwn(table, p, lines);
      }
    }
  }

  lemma NothingConsumed(table: Table, p: Parser)
    ensures ConsumeAll(table, p, []) == Parsed(p, [])
  {
  }

  lemma FailingStops(table: Table, p: Parser, lines: seq<string>)
    requires lines != [] && Consume(table, p, lines[0]).1.Failed?
    ensures ConsumeAll(table, p, lines).parser.capture == p.capture
  {
    hide GuardOf;
  }

  lemma FenceIsOwn(table: Table, p: Parser, lines: seq<string>)
    requires lines != [] && p.capture.Some? && Consume(table, p, lines[0]).0.capture.None?
    requires FencesOwn(ConsumeAll(table, p, lines).outcomes)
    ensures Own(Consume(table, p, lines[0]).1) != []
  {
    hide GuardOf, ControlNotification.Parse;
    assert ConsumeAll(table, p, lines).outcomes[0] == Consume(table, p, lines[0]).1;
  }

  /** A capture may be armed wherever the stream stands, also inside another client's block: as
      long as no own frame is to come, what is parsed stays the same. */
  lemma {:induction false} ArmAnywhere(table: Table, p: Parser, nonce: string, lines: seq<string>)
    requires p.capture.None? && OwnFrames(ConsumeAll(table, p, lines).outcomes) == []
    ensures var r := ConsumeAll(table, p, lines);
            ConsumeAll(table, Arming(p, nonce), lines) == Parsed(Arming(r.parser, nonce), r.outcomes)
    decreases |lines|
  {
    hide GuardOf, ConsumeAll, Consume;
    if lines == [] {
      NothingConsumed(table, p);
      NothingConsumed(table, Arming(p, nonce));
    } else {
      Advances(table, p, lines);
      ArmedLine(table, p, nonce, lines[0]);
      if !Consume(table, p, lines[0]).1.Failed? {
        ArmAnywhere(table, Consume(table, p, lines[0]).0, nonce, lines[1..]);
      }
      ConsumesFirst(table, p, lines);
      ConsumesFirst(table, Arming(p, nonce), lines);
    }
  }

  lemma ConsumesFirst(table: Table, p: Parser, lines: seq<string>)
    requires lines != []
    ensures var (q, outcome) := Consume(table, p, lines[0]);
      ConsumeAll(table, p, lines)
      == if outcome.Failed? then Parsed(q, [outcome]) else Behind(outcome, ConsumeAll(table, q, lines[1..]))
  {
    hide Consume;
  }

  lemma ArmedLine(table: Table, p: Parser, nonce: string, line: string)
    requires p.capture.None?
    ensures var (q, outcome) := Consume(table, p, line);
      && q.capture.None?
      && (Own(outcome) == [] ==> Consume(table, Arming(p, nonce), line) == (Arming(q, nonce), outcome))
  {
    hide GuardOf;
  }

  // ---------------------------------------------------------------- what is printed

  /** A request's lines, read from an idle parser, armed for a capture. */
  lemma ExchangeIsParsed(table: Table, fence: Fence, x: Exchange)
    requires GoodExchange(table, fence, x)
    ensures var r := ConsumeAll(table, if x.Capturing? then Armed(x.nonce) else IDLE, LinesOf(x));
      && !Fails(r) && r.parser == IDLE && FencesOwn(r.outcomes)
      && OwnFrames(r.outcomes) == x.job.own + [x.job.a, x.job.b]
  {
    hide ConsumeAll, Fails, FencesOwn, Printed, Outcomes, IsFence, NoBoundary, CaptureStream, CaptureRequest,
      LooksFenced, AllPrintable, Text;
    match x
    case Framing(job, items) =>
      ParsingUndoesPrinting(table, IDLE, items);
      OutcomesNeverFail(IDLE, items);
      PrintedFences(items);
    case Capturing(job, nonce, before, own, printed, close, after) =>
      var lines := CaptureStream(before, own, printed, close);
      CaptureIsParsed(table, nonce, before, own, printed, close);
      ParsingUndoesPrinting(table, IDLE, after);
      OutcomesNeverFail(IDLE, after);
      PrintedFences(after);
      Continues(table, Armed(nonce), lines, Printed(after));
  }

  lemma CaptureIsParsed(table: Table, nonce: string, before: seq<Item>, own: Item, printed: seq<string>, fence: Item)
    requires CaptureRequest(table, nonce, before, own, fence) && fence.guard.flags != 0
    requires !LooksFenced(table, nonce, printed)
    ensures var r := ConsumeAll(table, Armed(nonce), CaptureStream(before, own, printed, fence));
      && !Fails(r) && r.parser == IDLE && FencesOwn(r.outcomes)
      && OwnFrames(r.outcomes) == [FrameOf(own), FenceFrame(fence, Text(table, printed))]
  {
    hide ConsumeAll, Fails, Printed, Outcomes, CaptureStream, LooksFenced, AllPrintable, Text, Notes;
    CaptureNeverFails(table, nonce, before, own, printed, fence);
    CapturedFrames(table, nonce, before, own, printed, fence);
    CaptureSeparates(table, nonce, before, own, printed, fence);
    PrintedFences(before);
    NotesHaveNoFences(table, printed);
  }

  lemma PrintedFences(items: seq<Item>)
    ensures FencesOwn(Outcomes(items))
  {
    hide Joined;
  }

  lemma {:induction false} NotesHaveNoFences(table: Table, lines: seq<string>)
    ensures FencesOwn(Notes(table, lines))
  {
    hide IsNotification;
    if lines != [] { NotesHaveNoFences(table, lines[..|lines| - 1]); }
  }

  lemma UnrelatedIsParsed(table: Table, p: Parser, item: Item)
    requires Unrelated(item) && Calm(p)
    ensures var r := ConsumeAll(table, p, Lines(item));
      !Fails(r) && r.parser == p && FencesOwn(r.outcomes) && OwnFrames(r.outcomes) == []
  {
    hide ConsumeAll, Fails, GuardOf, Joined;
    var items := [item];
    assert Printed(items) == Lines(item) by { assert items[..0] == []; assert [] + Lines(item) == Lines(item); }
    assert NoneOwn(items);
    ParsingUndoesPrinting(table, p, items);
    OutcomesNeverFail(p, items);
    PrintedFences(items);
    OthersAreNoFrames(items);
  }

  // ---------------------------------------------------------------- one step

  /** No line fails while the stream lasts, and reading one changes nothing of what is to come. */
  lemma ReadKeeps(env: Env, w: Wire)
    requires Settled(env, w)
    ensures !w.ended && w.output != [] ==> !Consume(env.table, w.parser, w.output[0]).1.Failed?
    ensures Abstract(env, Reads(env, w)) == Abstract(env, w) && Settled(env, Reads(env, w))
  {
    hide Consume, ConsumeAll, Fails, FencesOwn;
    if !w.ended && w.output != [] {
      var (q, outcome) := Consume(env.table, w.parser, w.output[0]);
      Advances(env.table, w.parser, w.output);
      var rest := ConsumeAll(env.table, q, w.output[1..]);
      assert w.sys.inbound + Own(outcome) + OwnFrames(rest.outcomes)
          == w.sys.inbound + (Own(outcome) + OwnFrames(rest.outcomes));
      if w.parser.capture.None? { ArmedLine(env.table, w.parser, "", w.output[0]); }
      else if q.capture.None? { DisarmedStays(env.table, q, w.output[1..]); }
    }
  }

  lemma PrintKeeps(env: Env, w: Wire, item: Item)
    requires Settled(env, w) && !w.ended && Unrelated(item)
    ensures var t := w.(output := w.output + Lines(item));
      Abstract(env, t) == Abstract(env, w) && Settled(env, t)
  {
    hide ConsumeAll, Fails, FencesOwn, Unrelated, Lines;
    var ahead := Ahead(env, w);
    UnrelatedIsParsed(env.table, ahead.parser, item);
    Continues(env.table, w.parser, w.output, Lines(item));
    assert OwnFrames(ahead.outcomes) + [] == OwnFrames(ahead.outcomes);
  }

  /** Arming leaves the frames to come as they are: none is of this connection. */
  lemma ArmKeeps(env: Env, w: Wire)
    requires Settled(env, w) && w.sys.runner.Sending? && w.sys.runner.r < |env.exchanges|
    requires env.exchanges[w.sys.runner.r].Capturing? && w.parser.capture.None? && Abstract(env, w).inbound == []
    ensures var t := w.(parser := Arming(w.parser, env.exchanges[w.sys.runner.r].nonce));
      Abstract(env, t) == Abstract(env, w) && Settled(env, t)
  {
    hide ConsumeAll, Fails, FencesOwn;
    var nonce := env.exchanges[w.sys.runner.r].nonce;
    var ahead := Ahead(env, w);
    ArmAnywhere(env.table, w.parser, nonce, w.output);
    FailsOnly(ahead, Parsed(Arming(ahead.parser, nonce), ahead.outcomes));
  }

  /** Writing a request brings its frames, whatever is still to be parsed before them. */
  lemma WriteKeeps(env: Env, w: Wire, sys: R.System)
    requires GoodEnv(env) && Settled(env, w) && w.sys.runner.Sending? && w.sys.runner.r < |env.exchanges|
    requires env.exchanges[w.sys.runner.r].Capturing? ==> w.parser.capture.Some?
    requires R.GoesOn(sys.runner) && !sys.runner.Sending? && sys.inbound == w.sys.inbound
    ensures var x := env.exchanges[w.sys.runner.r];
      var t := w.(sys := sys, output := w.output + LinesOf(x));
      && Abstract(env, t).inbound == Abstract(env, w).inbound + (x.job.own + [x.job.a, x.job.b]) && Settled(env, t)
  {
    hide ConsumeAll, Fails, FencesOwn, LinesOf, GoodExchange;
    var x := env.exchanges[w.sys.runner.r];
    ExchangeIsParsed(env.table, env.fence, x);
    Continues(env.table, w.parser, w.output, LinesOf(x));
    var more := x.job.own + [x.job.a, x.job.b];
    assert w.sys.inbound + (OwnFrames(Ahead(env, w).outcomes) + more)
        == w.sys.inbound + OwnFrames(Ahead(env, w).outcomes) + more;
  }

  /** The loop moves on; with a request about to be written, no capture is left from another. */
  lemma RunnerKeepsSettled(env: Env, w: Wire, sys: R.System)
    requires Settled(env, w) && (R.GoesOn(sys.runner) ==> R.GoesOn(w.sys.runner)) && sys.inbound == w.sys.inbound
    requires sys.runner.Sending? && !w.sys.runner.Sending? ==> Abstract(env, w).inbound == []
    requires w.sys.runner.Sending? ==> sys.runner == w.sys.runner || !R.GoesOn(sys.runner)
    ensures Settled(env, w.(sys := sys))
  {
    hide ConsumeAll, Fails, FencesOwn;
    if sys.runner.Sending? && !w.sys.runner.Sending? && w.parser.capture.Some? {
      DisarmingShows(env.table, w.parser, w.output);
    }
  }

  /** A step of RequestLifecycle that reads and writes nothing, with more frames there. */
  lemma OtherInbound(e: R.Env, s: R.System, step: R.Step, inbound: seq<Frame>)
    requires |s.reqs| == |e.jobs|
    requires step.Runner? ==> !s.runner.Reading? && (s.runner.Sending? ==> step.writeFails)
    ensures R.Moves(e, s.(inbound := inbound), step) == R.Moves(e, s, step).(inbound := inbound)
    ensures R.Moves(e, s, step).inbound == s.inbound
    ensures var t := R.Moves(e, s, step).runner;
      && (R.GoesOn(t) ==> R.GoesOn(s.runner))
      && (s.runner.Sending? ==> t == s.runner || !R.GoesOn(t))
      && (t.Sending? && !s.runner.Sending? ==> !s.runner.Reading?)
  {
    hide Drain, R.CallerMoves;
    assert inbound + [] == inbound && s.inbound + [] == s.inbound;
  }

  /** What is armed and written for an exchange is what its text is. */
  lemma SentFits(env: Env, r: nat)
    requires GoodEnv(env) && r < |env.exchanges|
    ensures var x := env.exchanges[r];
      && (x.job.sent.Captures() <==> x.Capturing?) && (x.Capturing? ==> x.job.sent.nonce == x.nonce)
      && R.Replied(env.tmux, r, x.job)
  {
    hide R.Replied, AllPrintable, CaptureRequest, LooksFenced, IsFence, NoBoundary;
  }

  lemma FrameEnvIsGood(env: Env)
    requires GoodEnv(env)
    ensures R.GoodEnv(FrameEnv(env))
  {
    hide R.Replied, GoodExchange;
    forall r | 0 <= r < |env.exchanges|
      ensures R.GoodJob(env.fence, env.exchanges[r].job) && R.Replied(env.tmux, r, env.exchanges[r].job)
    {
      JobIsGood(env.table, env.fence, env.exchanges[r]);
    }
  }

  lemma JobIsGood(table: Table, fence: Fence, x: Exchange)
    requires GoodExchange(table, fence, x)
    ensures R.GoodJob(fence, x.job)
    ensures OwnResults(x.job.call, [], x.job.own) == Replies(table, x)
  {
    hide CaptureRequest, LooksFenced, AllPrintable, Text, IsFence, ResultsOf, Outcomes;
    match x
    case Framing(job, items) =>
      PrintedFramesAreNoFences(items);
      FirstHasNoFences(job.own, [job.a, job.b]);
      PlainWithoutFences(job.own);
      assert ResultsOf([], job.call.shellOutput, job.call.command) == [] by { NoText(job.call); }
      assert FrameResults(job.own, job.call) + [] == FrameResults(job.own, job.call);
    case Capturing(job, nonce, before, own, printed, close, after) =>
      OwnIsBlock(table, nonce, before, own, close);
      var reply, held := FrameOf(own), FenceFrame(close, Text(table, printed));
      assert job.own[1..] == [held] && [held][1..] == [] && [reply][1..] == [];
      assert Plain([held]) == [] && [reply] + [] == [reply];
      assert job.own[0] == reply && Plain(job.own) == [reply] + Plain([held]) == [reply];
      assert FrameResults([reply], job.call) == [FrameResult(reply, job.call.command)] + [];
      assert LastCaptured([], job.own) == LastCaptured([], [held]) == LastCaptured(held.captured, []);
  }

  lemma NoText(call: Call)
    ensures ResultsOf([], call.shellOutput, call.command) == []
  {
  }

  lemma OwnIsBlock(table: Table, nonce: string, before: seq<Item>, own: Item, fence: Item)
    requires CaptureRequest(table, nonce, before, own, fence)
    ensures own.Block? && fence.Block?
  {
  }

  ghost predicate Refines(env: Env, w: Wire, t: Wire, step: Option<R.Step>)
    requires |w.sys.reqs| == |env.exchanges|
  {
    && Settled(env, t)
    && Abstract(env, t) == if step.None? then Abstract(env, w) else R.Moves(FrameEnv(env), Abstract(env, w), step.value)
  }

  ghost predicate Inv(env: Env, w: Wire)
    requires |w.sys.reqs| == |env.exchanges|
  {
    R.Inv(FrameEnv(env), Abstract(env, w)) && Settled(env, w)
  }

  lemma OtherRefines(env: Env, w: Wire, step: R.Step)
    requires |w.sys.reqs| == |env.exchanges| && Inv(env, w)
    requires step.Runner? ==> !w.sys.runner.Reading? && (w.sys.runner.Sending? ==> step.writeFails)
    ensures Refines(env, w, w.(sys := R.Moves(FrameEnv(env), w.sys, step)), Some(step))
  {
    hide R.Moves, ConsumeAll, Settled, R.Fits, R.OthersDrained;
    var e := FrameEnv(env);
    var sys := R.Moves(e, w.sys, step);
    OtherInbound(e, w.sys, step, Abstract(env, w).inbound);
    RunnerKeepsSettled(env, w, sys);
  }

  lemma WriteRefines(env: Env, w: Wire)
    requires GoodEnv(env) && |w.sys.reqs| == |env.exchanges| && Inv(env, w) && w.sys.runner.Sending?
    requires w.sys.runner.r < |env.exchanges|
    requires env.exchanges[w.sys.runner.r].Capturing? ==> w.parser.capture.Some?
    ensures Refines(env, w, LoopMoves(env, w, false), Some(R.Runner(false, |w.sys.inbound|)))
    ensures LoopMoves(env, w, false).sys.runner.Reading?
  {
    hide Ahead, Settled, R.Fits, R.OthersDrained, Drain, LinesOf, GoodEnv, Answers;
    SentFits(env, w.sys.runner.r);
    var sys := R.Moves(FrameEnv(env), w.sys, R.Runner(false, |w.sys.inbound|)).(inbound := w.sys.inbound);
    WriteKeeps(env, w, sys);
  }

  lemma ReadRefines(env: Env, w: Wire, writeFails: bool)
    requires GoodEnv(env) && |w.sys.reqs| == |env.exchanges| && Inv(env, w) && w.sys.runner.Reading?
    requires w.sys.runner.r < |env.exchanges|
    ensures var t := LoopMoves(env, w, writeFails);
            Refines(env, w, t, if t == w then None else Some(R.Runner(writeFails, |w.sys.inbound|)))
  {
    hide ConsumeAll, Fails, FencesOwn, R.Fits, R.OthersDrained, Drain, LinesOf, GoodEnv, IsFence, NoBoundary, Plain;
    var e, job := FrameEnv(env), env.exchanges[w.sys.runner.r].job;
    var d := Drain(env.fence, job.call, None, [], w.sys.inbound);
    var coming := OwnFrames(Ahead(env, w).outcomes);
    assert R.GoodJob(env.fence, job) && Distinct(env.fence) by { FrameEnvIsGood(env); assert e.jobs[w.sys.runner.r] == job; }
    assert w.sys.inbound + coming == job.own + [job.a, job.b];
    ReadsUpTo(e, w.sys, coming, writeFails);
    if d.bounded { BoundedIsWhole(env.fence, job, w.sys.inbound, coming); }
    BoundaryIsLast(env.fence, job, w.sys.inbound, coming);
    NothingConsumed(env.table, w.parser);
    assert d.rest + [] == [];
  }

  /** What the loop reads does not depend on the frames that have not come. */
  lemma ReadsUpTo(e: R.Env, s: R.System, coming: seq<Frame>, writeFails: bool)
    requires |s.reqs| == |e.jobs| && s.runner.Reading? && s.runner.r < |s.reqs|
    ensures var t := R.Moves(e, s, R.Runner(writeFails, |s.inbound|));
      var d := Drain(e.fence, e.jobs[s.runner.r].call, None, [], s.inbound);
      && t == R.Moves(e, s.(inbound := s.inbound + coming), R.Runner(writeFails, |s.inbound|))
      && t.inbound == d.rest && t.runner.Finishing? && t.runner.keep == d.bounded
  {
    hide Drain, R.CallerMoves, R.Advance;
    assert (s.inbound + coming)[..|s.inbound|] == s.inbound;
    if coming == [] { assert s.inbound + coming == s.inbound; }
  }

  lemma BoundedIsWhole(fence: Fence, job: R.Job, frames: seq<Frame>, coming: seq<Frame>)
    requires Distinct(fence) && R.GoodJob(fence, job) && frames + coming == job.own + [job.a, job.b]
    requires Drain(fence, job.call, None, [], frames).bounded
    ensures coming == []
  {
    hide Drain, IsFence, NoBoundary, Plain;
    if coming != [] {
      assert (frames + coming)[..|frames|] == frames;
      CutStreamYieldsAPrefix(fence, job.call, job.own, job.a, job.b, |frames|);
    }
  }

  lemma BoundaryIsLast(fence: Fence, job: R.Job, frames: seq<Frame>, coming: seq<Frame>)
    requires Distinct(fence) && R.GoodJob(fence, job) && frames + coming == job.own + [job.a, job.b]
    ensures Drain(fence, job.call, None, [], frames).rest == []
  {
    hide Drain, IsFence, NoBoundary, Plain;
    if coming != [] {
      assert (frames + coming)[..|frames|] == frames;
      CutStreamYieldsAPrefix(fence, job.call, job.own, job.a, job.b, |frames|);
    } else {
      assert frames + coming == frames && [job.a, job.b] + [] == [job.a, job.b];
      ReplyAlignsExactly(fence, job.call, job.own, job.a, job.b, []);
    }
  }

  // ---------------------------------------------------------------- every run

  /** The step of RequestLifecycle that a step here is, if any. */
  function FrameStep(env: Env, w: Wire, step: Step): Option<R.Step>
    requires |w.sys.reqs| == |env.exchanges|
  {
    match step
    case Call(s) => if s.Runner? then None else Some(s)
    case Loop(writeFails) =>
      if LoopMoves(env, w, writeFails).sys == w.sys then None else Some(R.Runner(writeFails, |w.sys.inbound|))
    case _ => None
  }

  function FrameRun(env: Env, steps: seq<Step>): seq<R.Step>
  {
    if steps == [] then []
    else
      var n := |steps| - 1;
      var step := FrameStep(env, After(env, steps[..n]), steps[n]);
      FrameRun(env, steps[..n]) + if step.Some? then [step.value] else []
  }

  lemma LoopRefines(env: Env, w: Wire, writeFails: bool)
    requires GoodEnv(env) && |w.sys.reqs| == |env.exchanges| && Inv(env, w)
    ensures Refines(env, w, LoopMoves(env, w, writeFails), FrameStep(env, w, Loop(writeFails)))
  {
    hide R.Fits, R.OthersDrained, Drain, Settled, R.Advance, R.CallerMoves, ConsumeAll, GoodEnv, Answers;
    var runner := w.sys.runner;
    if runner.Sending? {
      SentFits(env, runner.r);
      var x := env.exchanges[runner.r];
      if x.Capturing? && w.parser.capture.None? { ArmKeeps(env, w); }
      else if writeFails { FailedWriteRefines(env, w); }
      else { WriteRefines(env, w); }
    } else if runner.Reading? {
      ReadRefines(env, w, writeFails);
    } else {
      OtherRefines(env, w, R.Runner(writeFails, |w.sys.inbound|));
    }
  }

  lemma FailedWriteRefines(env: Env, w: Wire)
    requires GoodEnv(env) && |w.sys.reqs| == |env.exchanges| && Inv(env, w) && w.sys.runner.Sending?
    requires env.exchanges[w.sys.runner.r].Capturing? ==> w.parser.capture.Some?
    ensures Refines(env, w, LoopMoves(env, w, true), Some(R.Runner(true, |w.sys.inbound|)))
    ensures LoopMoves(env, w, true).sys.runner.Finishing?
  {
    hide R.Fits, R.OthersDrained, Drain, Settled, R.CallerMoves, ConsumeAll, GoodEnv, Answers;
    SentFits(env, w.sys.runner.r);
    var step := R.Runner(true, |w.sys.inbound|);
    OtherRefines(env, w, step);
    OtherInbound(FrameEnv(env), w.sys, step, w.sys.inbound);
    assert w.output + [] == w.output;
  }

  lemma StepRefines(env: Env, w: Wire, step: Step)
    requires GoodEnv(env) && |w.sys.reqs| == |env.exchanges| && Inv(env, w)
    ensures Refines(env, w, Moves(env, w, step), FrameStep(env, w, step))
  {
    hide R.Fits, R.Inv, Settled, R.Moves, LoopMoves, Reads, ConsumeAll, GoodEnv, Unrelated;
    match step
    case Call(s) => if !s.Runner? { OtherRefines(env, w, s); }
    case Loop(writeFails) => LoopRefines(env, w, writeFails);
    case ReadLine => ReadKeeps(env, w);
    case Print(item) => if !w.ended && Unrelated(item) { PrintKeeps(env, w, item); }
    case StreamEnds => EndKeeps(env, w);
  }

  lemma RefiningKeepsInv(env: Env, w: Wire, t: Wire, move: Option<R.Step>)
    requires GoodEnv(env) && |w.sys.reqs| == |t.sys.reqs| == |env.exchanges| && Inv(env, w) && Refines(env, w, t, move)
    ensures Inv(env, t)
  {
    hide R.Inv, Settled, R.Moves, Ahead, GoodEnv;
    FrameEnvIsGood(env);
    if move.Some? { R.MovesKeepInv(FrameEnv(env), Abstract(env, w), move.value); }
  }

  lemma EndKeeps(env: Env, w: Wire)
    requires Settled(env, w)
    ensures Abstract(env, w.(ended := true)) == Abstract(env, w) && Settled(env, w.(ended := true))
  {
    hide ConsumeAll, Fails, FencesOwn;
  }

  lemma InitInv(env: Env)
    ensures Inv(env, Init(env)) && Abstract(env, Init(env)) == R.Init(FrameEnv(env))
  {
    NothingConsumed(env.table, IDLE);
    NothingFailed(IDLE);
    R.InitFits(FrameEnv(env));
  }

  /** Every run over printed lines is a run of RequestLifecycle, in which the frames of a request
      are there once it is written; and whatever is printed will be parsed. */
  lemma {:induction false} LinesRefineFrames(env: Env, steps: seq<Step>)
    requires GoodEnv(env)
    ensures Abstract(env, After(env, steps)) == R.After(FrameEnv(env), FrameRun(env, steps))
    ensures Inv(env, After(env, steps))
  {
    hide Moves, FrameStep, Inv, GoodEnv, Abstract, R.Moves;
    if steps == [] {
      InitInv(env);
    } else {
      var n := |steps| - 1;
      var w, moves := After(env, steps[..n]), FrameRun(env, steps[..n]);
      LinesRefineFrames(env, steps[..n]);
      StepRefines(env, w, steps[n]);
      RefiningKeepsInv(env, w, After(env, steps), FrameStep(env, w, steps[n]));
      var move := FrameStep(env, w, steps[n]);
      if move.Some? { assert (moves + [move.value])[..|moves|] == moves; }
      else { assert moves + [] == moves; }
    }
  }

  /** In every run over printed lines, whatever callers give up and whatever else tmux prints: a
      result is exactly what tmux printed for the request, and a failure says no more and no less
      than what became of it. */
  lemma EveryCallerGetsWhatWasPrinted(env: Env, steps: seq<Step>, r: nat)
    requires GoodEnv(env) && r < |env.exchanges|
    requires After(env, steps).sys.reqs[r].caller.Returned?
    ensures var q := After(env, steps).sys.reqs[r];
      var response, replies := q.caller.response, Replies(env.table, env.exchanges[r]);
      match response.failure
      case NoFailure => q.written && q.bounded && response.results == replies
      case Unsent(_) => !q.written && response.results == []
      case OutcomeUnknown(cause) => response.results <= replies && (cause.ContextError? || (q.written && !q.bounded))
  {
    hide After, GoodEnv, Inv, R.After, FrameRun, OwnResults, Replies, Plain, FrameResults, GoodExchange;
    var e := FrameEnv(env);
    LinesRefineFrames(env, steps);
    FrameEnvIsGood(env);
    R.EveryCallerGetsItsOwnReplies(e, FrameRun(env, steps), r);
    assert GoodExchange(env.table, env.fence, env.exchanges[r]) by { ExchangeOf(env, r); }
    JobIsGood(env.table, env.fence, env.exchanges[r]);
    assert e.jobs[r] == env.exchanges[r].job;
    FramesComeFirst(e.jobs[r]);
  }

  lemma ExchangeOf(env: Env, r: nat)
    requires GoodEnv(env) && r < |env.exchanges|
    ensures GoodExchange(env.table, env.fence, env.exchanges[r])
  {
    hide GoodExchange;
  }

  lemma FramesComeFirst(job: R.Job)
    ensures FrameResults(Plain(job.own), job.call) <= OwnResults(job.call, [], job.own)
  {
  }

  /** In every run no line read fails to parse; what is left over is never read as another
      request's: with no request being read there is no own frame, neither come nor to come, and
      the parser is on its way to idle; and a loop that reads a request needs nothing but the
      lines already printed. */
  lemma NothingIsLeftOver(env: Env, steps: seq<Step>)
    requires GoodEnv(env)
    ensures var w := After(env, steps);
      var ahead, runner := Ahead(env, w), w.sys.runner;
      && (!w.ended && w.output != [] ==> !Consume(env.table, w.parser, w.output[0]).1.Failed?)
      && (R.GoesOn(runner) && !runner.Sending? ==> ahead.parser == IDLE)
      && (!runner.Reading? ==> w.sys.inbound == [] && OwnFrames(ahead.outcomes) == [])
      && (runner.Reading? ==>
            runner.r < |env.exchanges| &&
            var x := env.exchanges[runner.r];
            Drain(env.fence, x.job.call, None, [], w.sys.inbound + OwnFrames(ahead.outcomes))
            == Drained(Replies(env.table, x), [], true))
  {
    hide After, GoodEnv, ConsumeAll, Consume, R.Fits, Drain, Replies, R.OthersDrained, Plain, IsFence, NoBoundary,
      OwnResults, GoodExchange, Fails, FencesOwn;
    LinesRefineFrames(env, steps);
    var w := After(env, steps);
    ReadKeeps(env, w);
    if w.sys.runner.Reading? {
      var r := w.sys.runner.r;
      ExchangeOf(env, r);
      JobIsGood(env.table, env.fence, env.exchanges[r]);
      var job := env.exchanges[r].job;
      assert Distinct(env.fence) by { FrameEnvIsGood(env); }
      assert [job.a, job.b] + [] == [job.a, job.b];
      ReplyAlignsExactly(env.fence, job.call, job.own, job.a, job.b, []);
    }
  }

  // ---------------------------------------------------------------- what is printed arrives

  lemma Goes(env: Env, steps: seq<Step>, step: Step) returns (more: seq<Step>)
    ensures more == steps + [step] && After(env, more) == Moves(env, After(env, steps), step)
  {
    hide Moves;
    more := steps + [step];
    assert more[..|steps|] == steps;
  }

  /** While the stream lasts, reading line by line brings in every own frame printed, and leaves the
      parser where all that was printed leaves it. */
  lemma {:induction false} ReadingCatchesUp(env: Env, steps: seq<Step>) returns (more: seq<Step>)
    requires GoodEnv(env) && !After(env, steps).ended
    ensures steps <= more && |more| == |steps| + |After(env, steps).output|
    ensures forall i :: |steps| <= i < |more| ==> more[i].ReadLine?
    ensures var w, t := After(env, steps), After(env, more);
      && t.output == [] && !t.ended && t.sys == Abstract(env, w) && t.parser == Ahead(env, w).parser
    decreases |After(env, steps).output|
  {
    hide After, GoodEnv, Consume, ConsumeAll, Settled;
    var w := After(env, steps);
    LinesRefineFrames(env, steps);
    if w.output == [] {
      more := steps;
      NothingConsumed(env.table, w.parser);
      assert w.sys.inbound + [] == w.sys.inbound;
    } else {
      ReadKeeps(env, w);
      more := Goes(env, steps, ReadLine);
      assert Ahead(env, After(env, more)).parser == Ahead(env, w).parser by { ReadingKeepsParser(env, w); }
      more := ReadingCatchesUp(env, more);
    }
  }

  lemma ReadingKeepsParser(env: Env, w: Wire)
    requires Settled(env, w) && !w.ended && w.output != []
    ensures Ahead(env, Reads(env, w)).parser == Ahead(env, w).parser
    ensures Reads(env, w).output == w.output[1..] && !Reads(env, w).ended
  {
    hide Consume, ConsumeAll, Fails, FencesOwn;
    Advances(env.table, w.parser, w.output);
  }

  /** A loop that reads a request finishes it: with the whole of its replies as soon as what was
      printed has been read, and without its boundary if the stream ended before. */
  lemma AReadingLoopFinishes(env: Env, steps: seq<Step>) returns (more: seq<Step>)
    requires GoodEnv(env) && After(env, steps).sys.runner.Reading?
    ensures steps <= more
    ensures var w, t := After(env, steps), After(env, more);
      && w.sys.runner.r < |env.exchanges| && t.sys.runner.Finishing? && t.sys.runner.r == w.sys.runner.r
      && (!w.ended ==>
            && t.sys.runner.keep
            && t.sys.runner.response == Response(Replies(env.table, env.exchanges[w.sys.runner.r]), NoFailure))
      && (t.sys.runner.keep <==> t.sys.runner.response.failure.NoFailure?)
  {
    hide After, GoodEnv, ConsumeAll, Consume, Drain, Replies, Settled, Abstract;
    NothingIsLeftOver(env, steps);
    more := steps;
    if !After(env, steps).ended {
      more := ReadingCatchesUp(env, steps);
      AbstractReads(env, After(env, steps));
    }
    more := Goes(env, more, Loop(false));
  }

  lemma AbstractReads(env: Env, w: Wire)
    ensures Abstract(env, w).runner == w.sys.runner && Abstract(env, w).reqs == w.sys.reqs
    ensures Abstract(env, w).inbound == w.sys.inbound + OwnFrames(Ahead(env, w).outcomes)
  {
  }
}
