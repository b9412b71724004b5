/** Running one request on a control connection. */
module ControlRequest {
  import opened Bytes
  import opened ControlGuard
  import opened ControlProtocol
  import opened CapturedResults
  import opened ReplyFence
  import opened Options

  datatype RequestState = Pending | Accepted | Writing | Finished | Canceled

  datatype Cause = ContextError | WriteError | StreamError | ClientClosed

  /** How a request failed: before anything was sent, or with an outcome tmux may have reached. */
  datatype Failure = NoFailure | Unsent(cause: Cause) | OutcomeUnknown(cause: Cause)

  datatype Response = Response(results: seq<Result>, failure: Failure)

  /** Two lines tmux cannot parse, each answered by its own error. */
  const REPLY_FENCE_INPUT := "\\400\n\\uZZZZ\n"

  /** What a request writes: a command line, or nothing but the fence; with a nonce, the command
      that ends its capture. */
  datatype Sent = Sent(line: string, fenceOnly: bool, nonce: string) {
    predicate Captures() { !fenceOnly && nonce != "" }

    function Input(): string
    {
      if fenceOnly then REPLY_FENCE_INPUT
      else if nonce == "" then line + "\n" + REPLY_FENCE_INPUT
      else line + "\ndisplay-message -p " + nonce + "\n" + REPLY_FENCE_INPUT
    }
  }

  class Request {
    const call: Call
    const line: string
    const fenceOnly: bool
    const nonce: string
    var state: RequestState

    constructor (call: Call, line: string, fenceOnly: bool, nonce: string)
      ensures this.call == call && this.line == line && this.fenceOnly == fenceOnly && this.nonce == nonce
      ensures state == Pending
    {
      this.call, this.line, this.fenceOnly, this.nonce := call, line, fenceOnly, nonce;
      state := Pending;
    }

    method CompareAndSwap(from: RequestState, to: RequestState) returns (ok: bool)
      modifies this
      ensures ok == (old(state) == from)
      ensures state == if ok then to else old(state)
    {
      ok := state == from;
      if ok { state := to; }
    }

    function Contents(): Sent { Sent(line, fenceOnly, nonce) }
  }

  class ControlClient {
    const parser: StreamParser
    const replyFence: Fence
    /** What has been written to tmux, and the own frames the stream delivers before it ends. */
    var written: string
    var inbound: seq<Frame>

    constructor (parser: StreamParser, replyFence: Fence, inbound: seq<Frame>)
      ensures this.parser == parser && this.replyFence == replyFence && this.inbound == inbound && written == ""
    {
      this.parser, this.replyFence, this.inbound := parser, replyFence, inbound;
      written := "";
    }

    method NextOwnFrame() returns (frame: Option<Frame>)
      modifies this`inbound
      ensures frame == (if old(inbound) == [] then None else Some(old(inbound)[0]))
      ensures inbound == (if old(inbound) == [] then [] else old(inbound)[1..])
    {
      if |inbound| == 0 { return None; }
      frame := Some(inbound[0]);
      inbound := inbound[1..];
    }

    /** Reads the replies of a request that has been written. */
    method ReadReplies(call: Call) returns (results: seq<Result>, bounded: bool)
      modifies this`inbound
      ensures Drained(results, inbound, bounded) == Drain(replyFence, call, None, [], old(inbound))
    {
      hide ResultsOf;
      results := [];
      var pendingFirst: Option<Frame> := None;
      var captured: seq<string> := [];
      while true
        invariant Drain(replyFence, call, None, [], old(inbound))
               == Ahead(results, Drain(replyFence, call, pendingFirst, captured, inbound))
        decreases |inbound|
      {
        ghost var before := inbound;
        var next := NextOwnFrame();
        if next.None? {
          assert results + [] == results;
          return results, false;
        }
        var frame := next.value;
        if frame.fence {
          captured := frame.captured;
          continue;
        }
        ghost var goal := Drain(replyFence, call, pendingFirst, captured, before);
        ghost var soFar := results;
        if pendingFirst.Some? {
          if replyFence.second.Matches(frame) {
            var last := CaptureResults(captured, call.shellOutput, call.command);
            results := results + last;
            return results, true;
          }
          results := results + [FrameResult(pendingFirst.value, call.command)];
        } else {
          assert results + [] == results;
        }
        ghost var held := pendingFirst;
        pendingFirst := None;
        if replyFence.first.Matches(frame) {
          pendingFirst := Some(frame);
          AheadTwice(soFar, HeldResults(held, call), Drain(replyFence, call, pendingFirst, captured, inbound));
          continue;
        }
        results := results + [FrameResult(frame, call.command)];
        assert results == soFar + (HeldResults(held, call) + [FrameResult(frame, call.command)]);
        AheadTwice(soFar, HeldResults(held, call) + [FrameResult(frame, call.command)],
                   Drain(replyFence, call, None, captured, inbound));
      }
    }

    /** Runs a request the loop has accepted. The two context readings and the failure of the
        write are the environment's. */
    method ExecuteControlRequest(request: Request, contextDone: bool, writeFails: bool)
        returns (response: Response, keepRunning: bool)
      modifies this, parser, request
      ensures contextDone ==> request.state == Canceled
      ensures !contextDone && old(request.state) != Accepted ==> request.state == old(request.state)
      ensures contextDone || old(request.state) != Accepted ==>
                && response == Response([], Unsent(ContextError)) && keepRunning
                && written == old(written) && inbound == old(inbound) && parser.State() == old(parser.State())
      ensures !contextDone && old(request.state) == Accepted ==>
                && request.state == Finished && written == old(written) + request.Contents().Input()
                && parser.State() == (if request.Contents().Captures() then old(parser.State()).(capture :=
                     Some(Capture(request.nonce, false, false, []))) else old(parser.State()))
                && if writeFails then
                     inbound == old(inbound) && response == Response([], OutcomeUnknown(WriteError)) && !keepRunning
                   else
                     var d := Drain(replyFence, request.call, None, [], old(inbound));
                     && inbound == d.rest && keepRunning == d.bounded
                     && response == Response(d.results, if d.bounded then NoFailure else OutcomeUnknown(StreamError))
    {
      hide Drain;
      if contextDone {
        request.state := Canceled;
        return Response([], Unsent(ContextError)), true;
      }
      var won := request.CompareAndSwap(Accepted, Writing);
      if !won { return Response([], Unsent(ContextError)), true; }
      var input := REPLY_FENCE_INPUT;
      if !request.fenceOnly {
        input := request.line + "\n" + REPLY_FENCE_INPUT;
        if request.nonce != "" {
          parser.Arm(request.nonce);
          input := request.line + "\ndisplay-message -p " + request.nonce + "\n" + REPLY_FENCE_INPUT;
        }
      }
      written := written + input;
      if writeFails {
        request.state := Finished;
        return Response([], OutcomeUnknown(WriteError)), false;
      }
      var results, bounded := ReadReplies(request.call);
      request.state := Finished;
      return Response(results, if bounded then NoFailure else OutcomeUnknown(StreamError)), bounded;
    }
  }

  lemma AheadTwice(left: seq<Result>, right: seq<Result>, d: Drained)
    ensures Ahead(left, Ahead(right, d)) == Ahead(left + right, d)
  {
    assert left + (right + d.results) == (left + right) + d.results;
  }

  // ---------------------------------------------------------------- what tmux reads

  /** The frames with which tmux answers line k of what request r writes. */
  type Tmux = (nat, nat, string) -> seq<Frame>

  /** tmux answers line by line, in order. */
  function Answered(tmux: Tmux, r: nat, k: nat, lines: seq<string>): seq<Frame>
    decreases |lines|
  {
    if lines == [] then [] else tmux(r, k, lines[0]) + Answered(tmux, r, k + 1, lines[1..])
  }

  /** What tmux answers to the text request r writes. */
  function Answers(tmux: Tmux, r: nat, text: string): seq<Frame> { Answered(tmux, r, 0, LinesIn(text)) }

  predicate OneLineEach(sent: Sent) { Unbroken(sent.line) && Unbroken(sent.nonce) }

  /** The command lines of a request: its own, and for a capture the one that prints the nonce. */
  function CommandLines(sent: Sent): seq<string>
  {
    if sent.fenceOnly then []
    else if sent.nonce == "" then [sent.line]
    else [sent.line, "display-message -p " + sent.nonce]
  }

  lemma FenceLines()
    ensures LinesIn(REPLY_FENCE_INPUT) == ["\\400", "\\uZZZZ"]
  {
    hide LinesIn, IndexOf;
    FenceLinesAreUnbroken();
    FirstLine("\\400", "\\uZZZZ\n");
    FirstLine("\\uZZZZ", "");
    assert REPLY_FENCE_INPUT == "\\400" + "\n" + "\\uZZZZ\n";
    assert "\\uZZZZ\n" == "\\uZZZZ" + "\n" + "";
    NoLines();
  }

  lemma FenceLinesAreUnbroken()
    ensures Unbroken("\\400") && Unbroken("\\uZZZZ")
  {
  }

  lemma NoLines()
    ensures LinesIn("") == []
  {
  }

  /** tmux reads the command lines and then the two lines of the fence, and nothing else. */
  lemma InputReadsBack(sent: Sent)
    requires OneLineEach(sent)
    ensures LinesIn(sent.Input()) == CommandLines(sent) + ["\\400", "\\uZZZZ"]
    ensures sent.Captures() <==> |CommandLines(sent)| == 2
  {
    hide LinesIn, Unbroken;
    FenceLines();
    if sent.fenceOnly {
      assert CommandLines(sent) + ["\\400", "\\uZZZZ"] == ["\\400", "\\uZZZZ"];
    } else if sent.nonce == "" {
      FirstLine(sent.line, REPLY_FENCE_INPUT);
    } else {
      var second := "display-message -p " + sent.nonce;
      assert Unbroken(second) by { PrintIsUnbroken(); UnbrokenConcat("display-message -p ", sent.nonce); }
      var rest := second + "\n" + REPLY_FENCE_INPUT;
      assert sent.Input() == sent.line + "\n" + rest;
      FirstLine(sent.line, rest);
      FirstLine(second, REPLY_FENCE_INPUT);
    }
  }

  lemma PrintIsUnbroken()
    ensures Unbroken("display-message -p ")
  {
    NoNewline("display-message -p ");
  }

  /** What tmux answers to a request is what it answers to its command lines and then to the two
      lines of the fence. */
  lemma {:induction false} AnsweredConcat(tmux: Tmux, r: nat, k: nat, left: seq<string>, right: seq<string>)
    ensures Answered(tmux, r, k, left + right) == Answered(tmux, r, k, left) + Answered(tmux, r, k + |left|, right)
    decreases |left|
  {
    if left == [] {
      assert left + right == right && [] + Answered(tmux, r, k, right) == Answered(tmux, r, k, right);
    } else {
      AnsweredConcat(tmux, r, k + 1, left[1..], right);
      assert (left + right)[1..] == left[1..] + right;
      assert tmux(r, k, left[0]) + (Answered(tmux, r, k + 1, left[1..]) + Answered(tmux, r, k + |left|, right))
          == Answered(tmux, r, k, left) + Answered(tmux, r, k + |left|, right);
    }
  }

  /** tmux answers each line of the fence with one frame, like a and b. */
  predicate AnswersFence(tmux: Tmux, r: nat, sent: Sent, a: Frame, b: Frame)
  {
    var n := |CommandLines(sent)|;
    tmux(r, n, "\\400") == [a] && tmux(r, n + 1, "\\uZZZZ") == [b]
  }

  /** The frames behind a request's text are its own and then the fence's. */
  lemma InputIsAnswered(tmux: Tmux, r: nat, sent: Sent, a: Frame, b: Frame)
    requires OneLineEach(sent) && AnswersFence(tmux, r, sent, a, b)
    ensures Answers(tmux, r, sent.Input()) == Answered(tmux, r, 0, CommandLines(sent)) + [a, b]
  {
    hide LinesIn, CommandLines, Unbroken;
    InputReadsBack(sent);
    var lines, fence := CommandLines(sent), ["\\400", "\\uZZZZ"];
    AnsweredConcat(tmux, r, 0, lines, fence);
    assert fence[1..] == ["\\uZZZZ"] && fence[1..][1..] == [];
    assert [a] + ([b] + []) == [a, b];
  }
}
