/** The reply fence: how many of the reply frames on a connection belong to one request. */
module ReplyFence {
  import opened ControlGuard
  import opened ControlProtocol
  import opened CapturedResults
  import opened Options

  /** What a frame shows of a parse failure tmux always answers alike. */
  datatype Fingerprint = Fingerprint(flags: nat, text: string) {
    predicate Matches(frame: Frame) { frame.failed && frame.guard.flags == flags && frame.text == text }
  }

  datatype Fence = Fence(first: Fingerprint, second: Fingerprint)

  datatype Calibrated = Calibrated(fence: Fence) | Rejected(reason: string)

  function NewReplyFence(first: Frame, second: Frame): (r: Calibrated)
    ensures r.Calibrated? ==>
              && r.fence.first.Matches(first) && r.fence.second.Matches(second)
              && OwnReply(first) && OwnReply(second)
              && forall frame :: !(r.fence.first.Matches(frame) && r.fence.second.Matches(frame))
    ensures r.Rejected? <==>
              || !(first.failed && second.failed && OwnReply(first) && OwnReply(second))
              || (first.guard.flags == second.guard.flags && first.text == second.text)
  {
    if !first.failed || !second.failed || !OwnReply(first) || !OwnReply(second) then
      Rejected("control reply fence calibration did not fail")
    else
      var fence := Fence(Fingerprint(first.guard.flags, first.text), Fingerprint(second.guard.flags, second.text));
      if fence.first == fence.second then Rejected("control reply fence calibration is not distinct")
      else Calibrated(fence)
  }

  predicate Distinct(fence: Fence) { fence.first != fence.second }

  /** The part of a request its replies depend on. */
  datatype Call = Call(command: seq<string>, shellOutput: bool)

  /** What a request reads: its results, the frames left over, and whether it saw its boundary. */
  datatype Drained = Drained(results: seq<Result>, rest: seq<Frame>, bounded: bool)

  function Ahead(results: seq<Result>, d: Drained): Drained { d.(results := results + d.results) }

  function HeldResults(held: Option<Frame>, call: Call): seq<Result>
  {
    if held.Some? then [FrameResult(held.value, call.command)] else []
  }

  /** Reads own frames up to the boundary. A frame like the first half of the fence is held
      until the next one tells a reply A, A, B from the boundary A, B. */
  function Drain(fence: Fence, call: Call, held: Option<Frame>, captured: seq<string>, frames: seq<Frame>): Drained
    decreases |frames|
  {
    if frames == [] then Drained([], [], false)
    else
      var frame, rest := frames[0], frames[1..];
      if frame.fence then Drain(fence, call, held, frame.captured, rest)
      else if held.Some? && fence.second.Matches(frame) then
        Drained(ResultsOf(captured, call.shellOutput, call.command), rest, true)
      else if fence.first.Matches(frame) then
        Ahead(HeldResults(held, call), Drain(fence, call, Some(frame), captured, rest))
      else
        Ahead(HeldResults(held, call) + [FrameResult(frame, call.command)], Drain(fence, call, None, captured, rest))
  }

  // ---------------------------------------------------------------- alignment

  /** The frames that are no capture fence. */
  function Plain(frames: seq<Frame>): seq<Frame>
  {
    if frames == [] then [] else (if frames[0].fence then [] else [frames[0]]) + Plain(frames[1..])
  }

  /** What the last capture fence carried. */
  function LastCaptured(captured: seq<string>, frames: seq<Frame>): seq<string>
    decreases |frames|
  {
    if frames == [] then captured
    else LastCaptured(if frames[0].fence then frames[0].captured else captured, frames[1..])
  }

  function FrameResults(frames: seq<Frame>, call: Call): seq<Result>
  {
    if frames == [] then [] else [FrameResult(frames[0], call.command)] + FrameResults(frames[1..], call)
  }

  /** No frame like the fence's first half stands directly before one like its second half. */
  predicate NoBoundary(fence: Fence, frames: seq<Frame>)
  {
    |frames| < 2 || (!(fence.first.Matches(frames[0]) && fence.second.Matches(frames[1])) && NoBoundary(fence, frames[1..]))
  }

  predicate IsFence(fence: Fence, a: Frame, b: Frame)
  {
    !a.fence && !b.fence && fence.first.Matches(a) && fence.second.Matches(b)
  }

  function HeldFrames(held: Option<Frame>): seq<Frame> { if held.Some? then [held.value] else [] }

  /** What a request returns when its own frames are these. */
  function OwnResults(call: Call, captured: seq<string>, own: seq<Frame>): seq<Result>
  {
    FrameResults(Plain(own), call) + ResultsOf(LastCaptured(captured, own), call.shellOutput, call.command)
  }

  lemma BoundaryAfter(fence: Fence, frame: Frame, frames: seq<Frame>)
    requires NoBoundary(fence, [frame] + frames)
    ensures NoBoundary(fence, frames)
    ensures frames != [] ==> !(fence.first.Matches(frame) && fence.second.Matches(frames[0]))
  {
    assert ([frame] + frames)[1..] == frames;
  }

  lemma BoundaryBefore(fence: Fence, frame: Frame, frames: seq<Frame>)
    requires frames != [] ==> !(fence.first.Matches(frame) && fence.second.Matches(frames[0]))
    ensures NoBoundary(fence, [frame] + frames) <==> NoBoundary(fence, frames)
  {
    assert ([frame] + frames)[1..] == frames;
  }

  lemma {:induction false} ReplyAligns(fence: Fence, call: Call, held: Option<Frame>, captured: seq<string>,
      own: seq<Frame>, a: Frame, b: Frame, rest: seq<Frame>)
    requires Distinct(fence) && IsFence(fence, a, b)
    requires held.Some? ==> fence.first.Matches(held.value)
    requires NoBoundary(fence, HeldFrames(held) + Plain(own))
    ensures Drain(fence, call, held, captured, own + ([a, b] + rest))
         == Drained(HeldResults(held, call) + OwnResults(call, captured, own), rest, true)
    decreases |own|
  {
    hide ResultsOf, NoBoundary;
    var frames := own + ([a, b] + rest);
    if own == [] {
      assert frames == [a, b] + rest;
      assert frames[1..][1..] == rest && frames[1..][0] == b;
    } else {
      assert frames[0] == own[0] && frames[1..] == own[1..] + ([a, b] + rest);
      var plain := Plain(own[1..]);
      if own[0].fence {
        assert [] + plain == plain;
        ReplyAligns(fence, call, held, own[0].captured, own[1..], a, b, rest);
      } else {
        var next := if fence.first.Matches(own[0]) then Some(own[0]) else None;
        assert ([own[0]] + plain)[1..] == plain;
        if held.Some? { BoundaryAfter(fence, held.value, [own[0]] + plain); }
        assert [] + ([own[0]] + plain) == [own[0]] + plain;
        if next.None? {
          BoundaryAfter(fence, own[0], plain);
          assert [] + plain == plain;
        }
        ReplyAligns(fence, call, next, captured, own[1..], a, b, rest);
        Regroup(fence, call, held, next, captured, own, plain);
      }
    }
  }

  lemma Regroup(fence: Fence, call: Call, held: Option<Frame>, next: Option<Frame>, captured: seq<string>,
      own: seq<Frame>, plain: seq<Frame>)
    requires own != [] && !own[0].fence && plain == Plain(own[1..])
    requires next == if fence.first.Matches(own[0]) then Some(own[0]) else None
    ensures HeldResults(held, call) + (if next.Some? then [] else [FrameResult(own[0], call.command)])
            + (HeldResults(next, call) + OwnResults(call, captured, own[1..]))
         == HeldResults(held, call) + OwnResults(call, captured, own)
  {
    hide ResultsOf;
    assert ([own[0]] + plain)[1..] == plain;
    assert FrameResults(Plain(own), call) == [FrameResult(own[0], call.command)] + FrameResults(plain, call);
  }

  /** A reply that holds the boundary itself ends the request early: frames are left over. */
  lemma {:induction false} ReplyEndsEarly(fence: Fence, call: Call, held: Option<Frame>, captured: seq<string>,
      own: seq<Frame>, more: seq<Frame>)
    requires Distinct(fence)
    requires held.Some? ==> fence.first.Matches(held.value)
    requires !NoBoundary(fence, HeldFrames(held) + Plain(own))
    ensures |Drain(fence, call, held, captured, own + more).rest| >= |more|
    decreases |own|
  {
    hide ResultsOf, NoBoundary;
    if own == [] {
      ShortHasNoBoundary(fence, HeldFrames(held) + Plain(own));
    } else {
      var frames := own + more;
      assert frames[0] == own[0] && frames[1..] == own[1..] + more;
      var plain := Plain(own[1..]);
      if own[0].fence {
        assert [] + plain == plain;
        ReplyEndsEarly(fence, call, held, own[0].captured, own[1..], more);
      } else if !(held.Some? && fence.second.Matches(own[0])) {
        var next := if fence.first.Matches(own[0]) then Some(own[0]) else None;
        assert ([own[0]] + plain)[1..] == plain;
        if held.Some? { BoundaryBefore(fence, held.value, [own[0]] + plain); }
        assert [] + ([own[0]] + plain) == [own[0]] + plain;
        if next.None? {
          BoundaryBefore(fence, own[0], plain);
          assert [] + plain == plain;
        }
        ReplyEndsEarly(fence, call, next, captured, own[1..], more);
      }
    }
  }

  lemma ShortHasNoBoundary(fence: Fence, frames: seq<Frame>)
    requires |frames| < 2
    ensures NoBoundary(fence, frames)
  {
  }

  /** A request returns exactly its own frames and consumes exactly them and its fence, whatever
      its last frame looks like, if and only if its reply does not hold the boundary itself. */
  lemma ReplyAlignsExactly(fence: Fence, call: Call, own: seq<Frame>, a: Frame, b: Frame, rest: seq<Frame>)
    requires Distinct(fence) && IsFence(fence, a, b)
    ensures Drain(fence, call, None, [], own + ([a, b] + rest)) == Drained(OwnResults(call, [], own), rest, true)
       <==> NoBoundary(fence, Plain(own))
  {
    hide NoBoundary, Plain, ResultsOf;
    assert HeldFrames(None) + Plain(own) == Plain(own);
    if NoBoundary(fence, Plain(own)) {
      ReplyAligns(fence, call, None, [], own, a, b, rest);
      assert HeldResults(None, call) + OwnResults(call, [], own) == OwnResults(call, [], own);
    } else {
      ReplyEndsEarly(fence, call, None, [], own, [a, b] + rest);
    }
  }

  // ---------------------------------------------------------------- a stream that ends

  /** The frames known to be replies: all but a last one that may be half a boundary. */
  function Proven(fence: Fence, frames: seq<Frame>): seq<Frame>
  {
    if frames == [] then []
    else if |frames| == 1 && fence.first.Matches(frames[0]) then []
    else [frames[0]] + Proven(fence, frames[1..])
  }

  lemma ProvenAhead(fence: Fence, frame: Frame, frames: seq<Frame>)
    requires frames != [] || !fence.first.Matches(frame)
    ensures Proven(fence, [frame] + frames) == [frame] + Proven(fence, frames)
  {
    assert ([frame] + frames)[1..] == frames;
  }

  lemma ResultsAhead(frame: Frame, frames: seq<Frame>, call: Call)
    ensures FrameResults([frame] + frames, call) == [FrameResult(frame, call.command)] + FrameResults(frames, call)
  {
    assert ([frame] + frames)[1..] == frames;
  }

  /** A stream that ends before the boundary still yields every frame proven a reply. */
  lemma {:induction false} StreamEnds(fence: Fence, call: Call, held: Option<Frame>, captured: seq<string>,
      frames: seq<Frame>)
    requires held.Some? ==> fence.first.Matches(held.value)
    requires NoBoundary(fence, HeldFrames(held) + Plain(frames))
    ensures Drain(fence, call, held, captured, frames)
         == Drained(FrameResults(Proven(fence, HeldFrames(held) + Plain(frames)), call), [], false)
    decreases |frames|
  {
    hide ResultsOf, NoBoundary, FrameResults, FrameResult, Proven;
    if frames == [] {
      assert HeldFrames(held) + Plain(frames) == HeldFrames(held);
      HeldIsUnproven(fence, held, call);
    } else {
      var frame := frames[0];
      var plain := Plain(frames[1..]);
      assert [] + plain == plain && [] + ([frame] + plain) == [frame] + plain;
      if frame.fence {
        StreamEnds(fence, call, held, frame.captured, frames[1..]);
      } else {
        var next := if fence.first.Matches(frame) then Some(frame) else None;
        if held.Some? {
          BoundaryAfter(fence, held.value, [frame] + plain);
          ProvenAhead(fence, held.value, [frame] + plain);
          ResultsAhead(held.value, Proven(fence, [frame] + plain), call);
        }
        if next.None? {
          BoundaryAfter(fence, frame, plain);
          ProvenAhead(fence, frame, plain);
          ResultsAhead(frame, Proven(fence, plain), call);
        }
        StreamEnds(fence, call, next, captured, frames[1..]);
      }
    }
  }

  lemma HeldIsUnproven(fence: Fence, held: Option<Frame>, call: Call)
    requires held.Some? ==> fence.first.Matches(held.value)
    ensures FrameResults(Proven(fence, HeldFrames(held)), call) == []
  {
  }

  lemma {:induction false} PlainConcat(left: seq<Frame>, right: seq<Frame>)
    ensures Plain(left + right) == Plain(left) + Plain(right)
  {
    if left == [] {
      assert left + right == right && [] + Plain(right) == Plain(right);
    } else {
      PlainConcat(left[1..], right);
      assert (left + right)[1..] == left[1..] + right;
      var head := if left[0].fence then [] else [left[0]];
      assert head + (Plain(left[1..]) + Plain(right)) == (head + Plain(left[1..])) + Plain(right);
    }
  }

  lemma {:induction false} NoBoundaryInPrefix(fence: Fence, left: seq<Frame>, right: seq<Frame>)
    requires NoBoundary(fence, left + right)
    ensures NoBoundary(fence, left)
  {
    if |left| >= 2 {
      assert (left + right)[1..] == left[1..] + right;
      NoBoundaryInPrefix(fence, left[1..], right);
    }
  }

  lemma {:induction false} NoBoundaryThenFirst(fence: Fence, frames: seq<Frame>, a: Frame)
    requires Distinct(fence) && fence.first.Matches(a) && NoBoundary(fence, frames)
    ensures NoBoundary(fence, frames + [a])
  {
    if |frames| >= 2 {
      assert (frames + [a])[1..] == frames[1..] + [a];
      NoBoundaryThenFirst(fence, frames[1..], a);
    } else if |frames| == 1 {
      assert (frames + [a])[1..] == [a];
    }
  }

  lemma {:induction false} ProvenIsPrefix(fence: Fence, left: seq<Frame>, right: seq<Frame>, call: Call)
    ensures FrameResults(Proven(fence, left), call) <= FrameResults(left + right, call)
  {
    if left != [] && !(|left| == 1 && fence.first.Matches(left[0])) {
      ProvenIsPrefix(fence, left[1..], right, call);
      assert (left + right)[1..] == left[1..] + right;
      ResultsAhead(left[0], Proven(fence, left[1..]), call);
    }
  }

  lemma {:induction false} ProvenWithoutFirst(fence: Fence, frames: seq<Frame>, a: Frame)
    requires fence.first.Matches(a)
    ensures Proven(fence, frames + [a]) == frames
  {
    if frames != [] {
      assert (frames + [a])[1..] == frames[1..] + [a];
      ProvenWithoutFirst(fence, frames[1..], a);
    }
  }

  /** A stream cut anywhere before the boundary yields a prefix of the request's replies. */
  lemma CutStreamYieldsAPrefix(fence: Fence, call: Call, own: seq<Frame>, a: Frame, b: Frame, sent: nat)
    requires Distinct(fence) && IsFence(fence, a, b) && NoBoundary(fence, Plain(own))
    requires sent <= |own| + 1
    ensures var d := Drain(fence, call, None, [], (own + [a, b])[..sent]);
            !d.bounded && d.rest == [] && d.results <= FrameResults(Plain(own), call)
  {
    hide NoBoundary, ResultsOf, Proven, FrameResults;
    var frames := (own + [a, b])[..sent];
    assert HeldFrames(None) + Plain(frames) == Plain(frames);
    if sent <= |own| {
      assert frames == own[..sent] && own == own[..sent] + own[sent..];
      PlainConcat(own[..sent], own[sent..]);
      NoBoundaryInPrefix(fence, Plain(own[..sent]), Plain(own[sent..]));
      ProvenIsPrefix(fence, Plain(own[..sent]), Plain(own[sent..]), call);
    } else {
      assert frames == own + [a];
      PlainConcat(own, [a]);
      assert Plain([a]) == [a];
      NoBoundaryThenFirst(fence, Plain(own), a);
      ProvenWithoutFirst(fence, Plain(own), a);
    }
    StreamEnds(fence, call, None, [], frames);
  }
}
