/** From printed lines to results: the parser and the reply fence together. */
module ReplyStream {
  import opened ControlGuard
  import opened ControlProtocol
  import opened CapturedResults
  import opened ReplyFence
  import opened Options

  /** The own frames among what the parser emits. */
  function OwnFrames(outcomes: seq<Outcome>): seq<Frame>
  {
    if outcomes == [] then []
    else
      var head := outcomes[0];
      (if head.Completed? && OwnReply(head.frame) then [head.frame] else []) + OwnFrames(outcomes[1..])
  }

  lemma {:induction false} OwnFramesConcat(left: seq<Outcome>, right: seq<Outcome>)
    ensures OwnFrames(left + right) == OwnFrames(left) + OwnFrames(right)
  {
    if left == [] {
      assert left + right == right && [] + OwnFrames(right) == OwnFrames(right);
    } else {
      OwnFramesConcat(left[1..], right);
      assert (left + right)[1..] == left[1..] + right;
      var head := if left[0].Completed? && OwnReply(left[0].frame) then [left[0].frame] else [];
      assert head + (OwnFrames(left[1..]) + OwnFrames(right)) == (head + OwnFrames(left[1..])) + OwnFrames(right);
    }
  }

  predicate NoFences(frames: seq<Frame>) { frames == [] || (!frames[0].fence && NoFences(frames[1..])) }

  lemma {:induction false} PrintedFramesAreNoFences(items: seq<Item>)
    ensures NoFences(OwnFrames(Outcomes(items)))
  {
    hide Joined;
    if items != [] {
      PrintedFramesAreNoFences(items[1..]);
      assert Outcomes(items)[1..] == Outcomes(items[1..]);
      var rest := OwnFrames(Outcomes(items[1..]));
      assert [] + rest == rest;
      if items[0].Block? { assert ([FrameOf(items[0])] + rest)[1..] == rest; }
    }
  }

  lemma {:induction false} PlainWithoutFences(frames: seq<Frame>)
    requires NoFences(frames)
    ensures Plain(frames) == frames && LastCaptured([], frames) == []
  {
    if frames != [] { PlainWithoutFences(frames[1..]); }
  }

  lemma {:induction false} FirstHasNoFences(left: seq<Frame>, right: seq<Frame>)
    requires NoFences(left + right)
    ensures NoFences(left)
  {
    if left != [] {
      assert (left + right)[1..] == left[1..] + right;
      FirstHasNoFences(left[1..], right);
    }
  }

  /** From lines to results: tmux prints a request's own reply blocks and then its fence, with
      notifications and other clients' blocks anywhere among them. The request returns exactly
      its own blocks, payload bytes included, and leaves whatever follows. */
  lemma PrintedRepliesAreReturned(table: Table, fence: Fence, call: Call, items: seq<Item>, own: seq<Frame>,
      a: Frame, b: Frame, rest: seq<Frame>)
    requires Distinct(fence) && IsFence(fence, a, b)
    ensures AllPrintable(items) && OwnFrames(Outcomes(items)) == own + [a, b] ==>
      (Drain(fence, call, None, [], OwnFrames(ConsumeAll(table, IDLE, Printed(items)).outcomes) + rest)
       == Drained(FrameResults(own, call), rest, true)
       <==> NoBoundary(fence, own))
  {
    hide ConsumeAll, Printed, Outcomes, NoBoundary, IsFence, Drain, AllPrintable;
    if AllPrintable(items) && OwnFrames(Outcomes(items)) == own + [a, b] {
      ParsingUndoesPrinting(table, IDLE, items);
      PrintedFramesAreNoFences(items);
      FirstHasNoFences(own, [a, b]);
      PlainWithoutFences(own);
      assert own + [a, b] + rest == own + ([a, b] + rest);
      ReplyAlignsExactly(fence, call, own, a, b, rest);
      assert FrameResults(own, call) + [] == FrameResults(own, call);
    }
  }

  lemma {:induction false} NotesAreNoFrames(table: Table, lines: seq<string>)
    ensures OwnFrames(Notes(table, lines)) == []
  {
    hide IsNotification;
    if lines != [] {
      var n := |lines| - 1;
      NotesAreNoFrames(table, lines[..n]);
      OwnFramesConcat(Notes(table, lines[..n]), if IsNotification(table, lines[n]) then [Notified(lines[n])] else []);
    }
  }

  lemma {:induction false} OthersAreNoFrames(items: seq<Item>)
    requires NoneOwn(items)
    ensures OwnFrames(Outcomes(items)) == []
  {
    hide Joined;
    if items != [] {
      assert Outcomes(items)[1..] == Outcomes(items[1..]);
      OthersAreNoFrames(items[1..]);
    }
  }

  /** The own frames of a whole captured request, up to and including its fence frame. */
  lemma CapturedFrames(table: Table, nonce: string, before: seq<Item>, own: Item, printed: seq<string>, fence: Item)
    requires CaptureRequest(table, nonce, before, own, fence) && fence.guard.flags != 0
    requires !LooksFenced(table, nonce, printed)
    ensures ConsumeAll(table, Armed(nonce), CaptureStream(before, own, printed, fence)).parser == IDLE
    ensures OwnFrames(ConsumeAll(table, Armed(nonce), CaptureStream(before, own, printed, fence)).outcomes)
         == [FrameOf(own), FenceFrame(fence, Text(table, printed))]
  {
    hide ConsumeAll, Printed, Outcomes, Joined, LooksFenced, Text, Notes, CaptureStream, AllPrintable;
    CaptureSeparates(table, nonce, before, own, printed, fence);
    NotesAreNoFrames(table, printed);
    OthersAreNoFrames(before);
    var reply, last := [OutcomeOf(own)], [Completed(FenceFrame(fence, Text(table, printed)))];
    OwnFramesConcat(Outcomes(before), reply);
    OwnFramesConcat(Notes(table, printed), last);
    OwnFramesConcat(Outcomes(before) + reply, Notes(table, printed) + last);
    assert reply[1..] == [] && last[1..] == [];
  }

  /** The frames a captured request draws from its stream up to its reply fence. */
  lemma CapturedTextIsReturned(fence: Fence, call: Call, reply: Frame, held: Frame, a: Frame, b: Frame, rest: seq<Frame>)
    requires Distinct(fence) && IsFence(fence, a, b) && !reply.fence && held.fence
    ensures Drain(fence, call, None, [], [reply, held] + ([a, b] + rest))
         == Drained([FrameResult(reply, call.command)] + ResultsOf(held.captured, call.shellOutput, call.command), rest, true)
  {
    hide ResultsOf, IsFence;
    var own := [reply, held];
    assert own[1..] == [held] && [held][1..] == [] && [reply][1..] == [];
    assert Plain([held]) == [] && [reply] + [] == [reply] && Plain(own) == [reply];
    assert FrameResults([reply], call) == [FrameResult(reply, call.command)] + [] == [FrameResult(reply, call.command)];
    assert LastCaptured([], own) == LastCaptured([], [held]) == LastCaptured(held.captured, []);
    ReplyAlignsExactly(fence, call, own, a, b, rest);
  }

  /** From lines to results for a capture request: its own reply, then the text its command
      printed, cut into results, whatever that text looks like. */
  lemma PrintedTextIsReturned(table: Table, nonce: string, before: seq<Item>, own: Item, printed: seq<string>,
      close: Item, fence: Fence, call: Call, after: seq<Item>, a: Frame, b: Frame)
    requires Distinct(fence) && IsFence(fence, a, b)
    ensures
      && CaptureRequest(table, nonce, before, own, close) && close.guard.flags != 0
      && !LooksFenced(table, nonce, printed)
      && AllPrintable(after) && OwnFrames(Outcomes(after)) == [a, b] ==>
        var lines := CaptureStream(before, own, printed, close) + Printed(after);
        Drain(fence, call, None, [], OwnFrames(ConsumeAll(table, Armed(nonce), lines).outcomes))
        == Drained([FrameResult(FrameOf(own), call.command)]
                   + ResultsOf(Text(table, printed), call.shellOutput, call.command), [], true)
  {
    hide ConsumeAll, Printed, Outcomes, Joined, LooksFenced, Text, Notes, CaptureStream, AllPrintable, ResultsOf,
      Drain, IsFence, Fails;
    if && CaptureRequest(table, nonce, before, own, close) && close.guard.flags != 0
       && !LooksFenced(table, nonce, printed)
       && AllPrintable(after) && OwnFrames(Outcomes(after)) == [a, b] {
      CapturedFrames(table, nonce, before, own, printed, close);
      ParsingUndoesPrinting(table, IDLE, after);
      CaptureNeverFails(table, nonce, before, own, printed, close);
      var first := ConsumeAll(table, Armed(nonce), CaptureStream(before, own, printed, close));
      ConsumeConcat(table, Armed(nonce), CaptureStream(before, own, printed, close), Printed(after));
      OwnFramesConcat(first.outcomes, Outcomes(after));
      CapturedTextIsReturned(fence, call, FrameOf(own), FenceFrame(close, Text(table, printed)), a, b, []);
      assert [a, b] + [] == [a, b];
    }
  }

  lemma CaptureNeverFails(table: Table, nonce: string, before: seq<Item>, own: Item, printed: seq<string>, fence: Item)
    requires CaptureRequest(table, nonce, before, own, fence) && !LooksFenced(table, nonce, printed)
    ensures !Fails(ConsumeAll(table, Armed(nonce), CaptureStream(before, own, printed, fence)))
  {
    hide ConsumeAll, Printed, Joined, LooksFenced, Text, CaptureStream, AllPrintable, CaptureRequest;
    CaptureSeparates(table, nonce, before, own, printed, fence);
    NotesNeverFail(table, IDLE, printed);
  }
}
