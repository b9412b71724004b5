/** The control-mode line parser: reply blocks, notifications, and the capture of what a
    command prints after its reply. */
module ControlProtocol {
  import opened ControlGuard
  import ControlNotification
  import opened Options

  type Table = t: seq<ControlNotification.Definition> | ControlNotification.WellFormed(t) witness []

  /** A completed reply block. `fence` marks the reply to a capture's fence command, and
      `captured` holds the lines that came before it. */
  datatype Frame = Frame(guard: Guard, text: string, failed: bool, fence: bool, captured: seq<string>)

  /** tmux marks the reply to a command of this client with a nonzero flag. */
  predicate OwnReply(frame: Frame) { frame.guard.flags != 0 }

  /** What one line completes: a reply block, a notification, a protocol error, or nothing. */
  datatype Outcome = Nothing | Completed(frame: Frame) | Notified(record: string) | Failed(reason: string)

  datatype Capture = Capture(nonce: string, started: bool, fencing: bool, lines: seq<string>)

  datatype Parser = Parser(guard: Option<Guard>, output: string, capture: Option<Capture>)

  const IDLE := Parser(None, "", None)

  predicate Closes(guard: Guard, line: string)
  {
    var g := GuardOf(line);
    g.IsGuard? && g.guard == guard && g.kind != Begin
  }

  predicate Opens(line: string)
  {
    var g := GuardOf(line);
    g.IsGuard? && g.kind == Begin
  }

  function Framed(p: Parser, line: string): (Parser, Outcome)
  {
    var g := GuardOf(line);
    if p.guard.Some? then
      if Closes(p.guard.value, line) then
        (p.(guard := None, output := ""),
         Completed(Frame(p.guard.value, p.output, g.kind == Error, false, [])))
      else (p.(output := p.output + line + "\n"), Nothing)
    else
      match g
      case BadGuard(reason) => (p, Failed(reason))
      case IsGuard(kind, guard) =>
        if kind != Begin then (p, Failed("closing guard has no active frame"))
        else (p.(guard := Some(guard)), Nothing)
      case NotGuard =>
        if line == "" || line[0] != '%' then (p, Failed("record is neither a begin guard nor notification"))
        else (p, Notified(line))
  }

  /** Whether a captured nonce line is the fence: the line before it primed a reply block. */
  predicate AtFence(capture: Capture, line: string)
  {
    line == capture.nonce && capture.lines != [] && Opens(capture.lines[|capture.lines| - 1])
  }

  function Captured(table: Table, p: Parser, line: string): (Parser, Outcome)
    requires p.capture.Some?
  {
    var c := p.capture.value;
    if AtFence(c, line) then
      var last := |c.lines| - 1;
      (Parser(Some(GuardOf(c.lines[last]).guard), line + "\n", Some(c.(lines := c.lines[..last], fencing := true))),
       Nothing)
    else if ControlNotification.Parse(table, line).Ok? then (p, Notified(line))
    else (p.(capture := Some(c.(lines := c.lines + [line]))), Nothing)
  }

  function Consume(table: Table, p: Parser, line: string): (Parser, Outcome)
  {
    if p.capture.None? then Framed(p, line)
    else
      var c := p.capture.value;
      if c.started && !c.fencing then Captured(table, p, line)
      else
        var (q, outcome) := Framed(p, line);
        if outcome.Completed? && c.fencing then
          (q.(capture := None), Completed(outcome.frame.(fence := true, captured := c.lines)))
        else if outcome.Completed? && OwnReply(outcome.frame) then
          (q.(capture := Some(c.(started := true))), outcome)
        else (q, outcome)
  }

  class StreamParser {
    var guard: Option<Guard>
    var output: string
    var capture: Option<Capture>

    ghost function State(): Parser
      reads this
    {
      Parser(guard, output, capture)
    }

    constructor ()
      ensures State() == IDLE
    {
      guard, output, capture := None, "", None;
    }

    /** Captures what follows the next own reply, up to the fence frame that holds nonce. */
    method Arm(nonce: string)
      modifies this
      ensures State() == old(State()).(capture := Some(Capture(nonce, false, false, [])))
    {
      capture := Some(Capture(nonce, false, false, []));
    }

    method ConsumeFramed(line: string) returns (outcome: Outcome)
      modifies this`guard, this`output
      ensures (State(), outcome) == Framed(old(State()), line)
    {
      var g := GuardOf(line);
      if guard.Some? {
        if g.IsGuard? && g.guard == guard.value && (g.kind == End || g.kind == Error) {
          outcome := Completed(Frame(guard.value, output, g.kind == Error, false, []));
          guard, output := None, "";
          return;
        }
        output := output + line + "\n";
        return Nothing;
      }
      if g.BadGuard? { return Failed(g.reason); }
      if g.IsGuard? {
        if g.kind != Begin { return Failed("closing guard has no active frame"); }
        guard := Some(g.guard);
        return Nothing;
      }
      if line == "" || line[0] != '%' { return Failed("record is neither a begin guard nor notification"); }
      return Notified(line);
    }

    method ConsumeCaptured(table: Table, line: string) returns (outcome: Outcome)
      requires capture.Some?
      modifies this
      ensures (State(), outcome) == Captured(table, old(State()), line)
    {
      var c := capture.value;
      if line == c.nonce && |c.lines| != 0 {
        var last := |c.lines| - 1;
        var g := GuardOf(c.lines[last]);
        if g.IsGuard? && g.kind == Begin {
          capture := Some(c.(lines := c.lines[..last], fencing := true));
          guard := Some(g.guard);
          output := line + "\n";
          return Nothing;
        }
      }
      if ControlNotification.Parse(table, line).Ok? { return Notified(line); }
      capture := Some(c.(lines := c.lines + [line]));
      return Nothing;
    }

    method ConsumeLine(table: Table, line: string) returns (outcome: Outcome)
      modifies this
      ensures (State(), outcome) == Consume(table, old(State()), line)
    {
      hide GuardOf;
      if capture.None? {
        outcome := ConsumeFramed(line);
        return;
      }
      var c := capture.value;
      if c.started && !c.fencing {
        outcome := ConsumeCaptured(table, line);
        return;
      }
      outcome := ConsumeFramed(line);
      if outcome.Completed? {
        if c.fencing {
          outcome := Completed(outcome.frame.(fence := true, captured := c.lines));
          capture := None;
        } else if OwnReply(outcome.frame) {
          capture := Some(c.(started := true));
        }
      }
    }

    /** The stream may end only between reply blocks. */
    method Finish() returns (ok: bool)
      ensures ok <==> State().guard.None?
    {
      return guard.None?;
    }
  }

  // ---------------------------------------------------------------- streams

  datatype Parsed = Parsed(parser: Parser, outcomes: seq<Outcome>)

  function Behind(outcome: Outcome, rest: Parsed): Parsed
  {
    if outcome.Nothing? then rest else rest.(outcomes := [outcome] + rest.outcomes)
  }

  /** Consumes lines until one fails; lines that complete nothing leave no outcome. */
  function ConsumeAll(table: Table, p: Parser, lines: seq<string>): Parsed
    decreases |lines|
  {
    if lines == [] then Parsed(p, [])
    else
      var (q, outcome) := Consume(table, p, lines[0]);
      if outcome.Failed? then Parsed(q, [outcome]) else Behind(outcome, ConsumeAll(table, q, lines[1..]))
  }

  predicate Fails(r: Parsed) { exists i :: 0 <= i < |r.outcomes| && r.outcomes[i].Failed? }

  /** What is parsed after `first` gives r. */
  function Then(first: Parsed, r: Parsed): Parsed { Parsed(r.parser, first.outcomes + r.outcomes) }

  lemma ThenBehind(outcome: Outcome, rest: Parsed, r: Parsed)
    ensures Then(Behind(outcome, rest), r) == Behind(outcome, Then(rest, r))
    ensures !outcome.Failed? && Fails(rest) ==> Fails(Behind(outcome, rest))
  {
    if !outcome.Nothing? {
      assert [outcome] + rest.outcomes + r.outcomes == [outcome] + (rest.outcomes + r.outcomes);
      var all := [outcome] + rest.outcomes;
      assert forall i :: 0 <= i < |rest.outcomes| ==> all[i + 1] == rest.outcomes[i];
    }
  }

  lemma {:induction false} ConsumeConcat(table: Table, p: Parser, left: seq<string>, right: seq<string>)
    requires !Fails(ConsumeAll(table, p, left))
    ensures var first := ConsumeAll(table, p, left);
            ConsumeAll(table, p, left + right) == Then(first, ConsumeAll(table, first.parser, right))
    decreases |left|
  {
    hide Consume, Fails;
    if left == [] {
      assert left + right == right;
      assert [] + ConsumeAll(table, p, right).outcomes == ConsumeAll(table, p, right).outcomes;
    } else {
      var (q, outcome) := Consume(table, p, left[0]);
      var rest := ConsumeAll(table, q, left[1..]);
      assert (left + right)[1..] == left[1..] + right;
      if outcome.Failed? {
        FailedShows(q, outcome);
      } else {
        ThenBehind(outcome, rest, ConsumeAll(table, rest.parser, right));
        ConsumeConcat(table, q, left[1..], right);
      }
    }
  }

  lemma FailedShows(p: Parser, outcome: Outcome)
    requires outcome.Failed?
    ensures Fails(Parsed(p, [outcome]))
  {
    assert Parsed(p, [outcome]).outcomes[0].Failed?;
  }

  /** Something tmux prints: a notification, or a reply block between two guard lines. */
  datatype Item =
    | Note(record: string)
    | Block(open: string, guard: Guard, body: seq<string>, close: string, failed: bool)

  function Joined(lines: seq<string>): string
  {
    if lines == [] then "" else Joined(lines[..|lines| - 1]) + lines[|lines| - 1] + "\n"
  }

  predicate NoneCloses(guard: Guard, body: seq<string>)
  {
    forall i :: 0 <= i < |body| ==> !Closes(guard, body[i])
  }

  /** The block's guard lines carry its guard, however they spell the numbers. */
  predicate Guarded(b: Item)
    requires b.Block?
  {
    && GuardOf(b.open) == IsGuard(Begin, b.guard)
    && GuardOf(b.close) == IsGuard(if b.failed then Error else End, b.guard)
  }

  predicate Printable(item: Item)
  {
    match item
    case Note(record) => record != "" && record[0] == '%' && GuardOf(record).NotGuard?
    case Block(_, guard, body, _, _) => Guarded(item) && NoneCloses(guard, body)
  }

  function Lines(item: Item): seq<string>
  {
    match item
    case Note(record) => [record]
    case Block(open, _, body, close, _) => [open] + body + [close]
  }

  function FrameOf(b: Item): Frame
    requires b.Block?
  {
    Frame(b.guard, Joined(b.body), b.failed, false, [])
  }

  function OutcomeOf(item: Item): Outcome
  {
    if item.Note? then Notified(item.record) else Completed(FrameOf(item))
  }

  function Printed(items: seq<Item>): seq<string>
  {
    if items == [] then [] else Printed(items[..|items| - 1]) + Lines(items[|items| - 1])
  }

  function Outcomes(items: seq<Item>): seq<Outcome>
  {
    seq(|items|, i requires 0 <= i < |items| => OutcomeOf(items[i]))
  }

  predicate AllPrintable(items: seq<Item>) { forall i :: 0 <= i < |items| ==> Printable(items[i]) }

  /** A parser reading framed lines: outside a captured region. */
  predicate ReadsFrames(p: Parser)
  {
    p.capture.Some? ==> !p.capture.value.started && !p.capture.value.fencing
  }

  lemma {:induction false} BodyIsKept(table: Table, p: Parser, body: seq<string>)
    requires ReadsFrames(p) && p.guard.Some? && NoneCloses(p.guard.value, body)
    ensures ConsumeAll(table, p, body) == Parsed(p.(output := p.output + Joined(body)), [])
    decreases |body|
  {
    hide GuardOf;
    if body == [] {
      assert p.output + "" == p.output;
    } else {
      var n := |body| - 1;
      BodyIsKept(table, p, body[..n]);
      var q := p.(output := p.output + Joined(body[..n]));
      assert body == body[..n] + [body[n]];
      ConsumeConcat(table, p, body[..n], [body[n]]);
      OneLine(table, q, body[n]);
      assert q.output + body[n] + "\n" == p.output + Joined(body);
    }
  }

  lemma OneLine(table: Table, p: Parser, line: string)
    ensures var (q, outcome) := Consume(table, p, line);
            ConsumeAll(table, p, [line]) == Parsed(q, if outcome.Nothing? then [] else [outcome])
  {
    assert [line][1..] == [];
  }

  /** A block whose body holds no closing guard of its own is read back whole. */
  lemma BlockReadsBack(table: Table, p: Parser, b: Item)
    requires b.Block? && Printable(b)
    requires p.guard.None? && p.output == "" && ReadsFrames(p) && (p.capture.Some? ==> !OwnReply(FrameOf(b)))
    ensures ConsumeAll(table, p, Lines(b)) == Parsed(p, [OutcomeOf(b)])
  {
    hide GuardOf;
    var q := p.(guard := Some(b.guard));
    OneLine(table, p, b.open);
    BodyIsKept(table, q, b.body);
    ConsumeConcat(table, p, [b.open], b.body);
    var r := q.(output := "" + Joined(b.body));
    assert "" + Joined(b.body) == Joined(b.body);
    ConsumeConcat(table, p, [b.open] + b.body, [b.close]);
    OneLine(table, r, b.close);
  }

  lemma NoteReadsBack(table: Table, p: Parser, item: Item)
    requires item.Note? && Printable(item) && p.guard.None? && ReadsFrames(p)
    ensures ConsumeAll(table, p, Lines(item)) == Parsed(p, [OutcomeOf(item)])
  {
    OneLine(table, p, item.record);
  }

  predicate NoneOwn(items: seq<Item>)
  {
    forall i :: 0 <= i < |items| && items[i].Block? ==> items[i].guard.flags == 0
  }

  /** Parsing undoes printing: any interleaving of notifications and reply blocks comes back
      item for item, payload bytes included. With a capture armed this covers everything
      before the client's own reply. */
  lemma {:induction false} ParsingUndoesPrinting(table: Table, p: Parser, items: seq<Item>)
    requires p.guard.None? && p.output == "" && ReadsFrames(p) && AllPrintable(items)
    requires p.capture.Some? ==> NoneOwn(items)
    ensures ConsumeAll(table, p, Printed(items)) == Parsed(p, Outcomes(items))
    decreases |items|
  {
    hide Consume, GuardOf, Joined, Fails, NoneCloses, Guarded, Outcomes;
    if items == [] {
      assert Outcomes(items) == [] by { NoOutcomes(); }
    } else {
      var n := |items| - 1;
      ParsingUndoesPrinting(table, p, items[..n]);
      OutcomesNeverFail(p, items[..n]);
      assert Printable(items[n]);
      ConsumeConcat(table, p, Printed(items[..n]), Lines(items[n]));
      if items[n].Block? {
        BlockReadsBack(table, p, items[n]);
      } else {
        NoteReadsBack(table, p, items[n]);
      }
      OutcomesLast(items);
    }
  }

  lemma NoOutcomes()
    ensures Outcomes([]) == []
  {
  }

  lemma OutcomesLast(items: seq<Item>)
    requires items != []
    ensures Outcomes(items) == Outcomes(items[..|items| - 1]) + [OutcomeOf(items[|items| - 1])]
  {
    hide OutcomeOf;
  }

  lemma OutcomesNeverFail(p: Parser, items: seq<Item>)
    ensures !Fails(Parsed(p, Outcomes(items)))
  {
    hide FrameOf;
  }

  lemma {:induction false} OpenBlockShows(table: Table, p: Parser, lines: seq<string>)
    requires p.guard.Some? && p.capture.None?
    ensures var r := ConsumeAll(table, p, lines); r.parser.guard.Some? || r.outcomes != []
    decreases |lines|
  {
    hide GuardOf;
    if lines != [] {
      var (q, outcome) := Consume(table, p, lines[0]);
      if outcome.Nothing? { OpenBlockShows(table, q, lines[1..]); }
    }
  }

  /** No nonempty run of lines passes unseen between two idle states. */
  lemma LinesShow(table: Table, lines: seq<string>)
    requires lines != []
    ensures ConsumeAll(table, IDLE, lines) != Parsed(IDLE, [])
  {
    hide GuardOf;
    var (q, outcome) := Consume(table, IDLE, lines[0]);
    if outcome.Nothing? { OpenBlockShows(table, q, lines[1..]); }
  }

  /** The condition is exact: a block whose body holds a closing guard of its own, however
      spelled, is never read back as itself. */
  lemma BlockReadsBackExactly(table: Table, b: Item)
    requires b.Block? && Guarded(b)
    ensures ConsumeAll(table, IDLE, Lines(b)) == Parsed(IDLE, [OutcomeOf(b)]) <==> NoneCloses(b.guard, b.body)
  {
    if NoneCloses(b.guard, b.body) {
      BlockReadsBack(table, IDLE, b);
    } else {
      var i :| 0 <= i < |b.body| && Closes(b.guard, b.body[i]);
      ClosedBlockShows(table, b, i);
    }
  }

  lemma {:induction false} ClosedBlockShows(table: Table, b: Item, i: nat)
    requires b.Block? && Guarded(b) && i < |b.body| && Closes(b.guard, b.body[i])
    ensures ConsumeAll(table, IDLE, Lines(b)) != Parsed(IDLE, [OutcomeOf(b)])
    decreases i
  {
    hide GuardOf;
    if j :| 0 <= j < i && Closes(b.guard, b.body[j]) {
      ClosedBlockShows(table, b, j);
    } else {
      var early := Block(b.open, b.guard, b.body[..i], b.body[i], GuardOf(b.body[i]).kind == Error);
      var rest := b.body[i + 1..] + [b.close];
      BlockReadsBack(table, IDLE, early);
      assert Lines(b) == Lines(early) + rest;
      ConsumeConcat(table, IDLE, Lines(early), rest);
      LinesShow(table, rest);
      assert ConsumeAll(table, IDLE, Lines(b)).outcomes[1..] == ConsumeAll(table, IDLE, rest).outcomes;
    }
  }

  /** The stream may end after any printed items, but not inside a block. */
  lemma FinishFailsInsideABlock(table: Table, items: seq<Item>, b: Item, sent: nat)
    requires AllPrintable(items) && b.Block? && Printable(b) && sent <= |b.body|
    ensures ConsumeAll(table, IDLE, Printed(items)).parser.guard.None?
    ensures ConsumeAll(table, IDLE, Printed(items) + ([b.open] + b.body[..sent])).parser.guard.Some?
  {
    hide GuardOf;
    ParsingUndoesPrinting(table, IDLE, items);
    ConsumeConcat(table, IDLE, Printed(items), [b.open] + b.body[..sent]);
    OneLine(table, IDLE, b.open);
    ConsumeConcat(table, IDLE, [b.open], b.body[..sent]);
    BodyIsKept(table, IDLE.(guard := Some(b.guard)), b.body[..sent]);
  }

  // ---------------------------------------------------------------- captures

  /** The generated table names no guard. */
  predicate NoGuards(table: Table)
  {
    forall kind :: ControlNotification.Lookup(table, KindText(kind)).Err?
  }

  predicate IsNotification(table: Table, line: string) { ControlNotification.Parse(table, line).Ok? }

  /** The printed lines that are the command's text. */
  function Text(table: Table, lines: seq<string>): seq<string>
  {
    if lines == [] then []
    else
      var n := |lines| - 1;
      Text(table, lines[..n]) + if IsNotification(table, lines[n]) then [] else [lines[n]]
  }

  /** The notifications among the printed lines. */
  function Notes(table: Table, lines: seq<string>): seq<Outcome>
  {
    if lines == [] then []
    else
      var n := |lines| - 1;
      Notes(table, lines[..n]) + if IsNotification(table, lines[n]) then [Notified(lines[n])] else []
  }

  /** A parser collecting a command's text. */
  function Collecting(nonce: string, lines: seq<string>): Parser
  {
    Parser(None, "", Some(Capture(nonce, true, false, lines)))
  }

  /** Some printed line is the nonce right behind a line that reads like an opening guard. */
  predicate LooksFenced(table: Table, nonce: string, lines: seq<string>)
  {
    lines != [] &&
    var n := |lines| - 1;
    LooksFenced(table, nonce, lines[..n]) || AtFence(Capture(nonce, true, false, Text(table, lines[..n])), lines[n])
  }

  lemma {:induction false} NonceUnseen(table: Table, nonce: string, lines: seq<string>)
    requires nonce !in lines
    ensures !LooksFenced(table, nonce, lines)
  {
    if lines != [] {
      var n := |lines| - 1;
      assert forall line :: line in lines[..n] ==> line in lines;
      assert lines[n] in lines;
      NonceUnseen(table, nonce, lines[..n]);
    }
  }

  lemma CapturedLine(table: Table, nonce: string, lines: seq<string>, line: string)
    requires !AtFence(Capture(nonce, true, false, lines), line)
    ensures ConsumeAll(table, Collecting(nonce, lines), [line])
         == if IsNotification(table, line) then Parsed(Collecting(nonce, lines), [Notified(line)])
            else Parsed(Collecting(nonce, lines + [line]), [])
  {
    hide GuardOf, AtFence, ControlNotification.Parse;
    OneLine(table, Collecting(nonce, lines), line);
  }

  lemma {:induction false} NotesNeverFail(table: Table, p: Parser, lines: seq<string>)
    ensures !Fails(Parsed(p, Notes(table, lines)))
  {
    hide GuardOf, ControlNotification.Parse, IsNotification;
    if lines != [] { NotesNeverFail(table, p, lines[..|lines| - 1]); }
  }

  lemma {:induction false} TextIsCollected(table: Table, nonce: string, lines: seq<string>)
    requires !LooksFenced(table, nonce, lines)
    ensures ConsumeAll(table, Collecting(nonce, []), lines)
         == Parsed(Collecting(nonce, Text(table, lines)), Notes(table, lines))
    ensures !Fails(ConsumeAll(table, Collecting(nonce, []), lines))
  {
    hide Consume, GuardOf, AtFence, IsNotification, Fails;
    if lines != [] {
      var n := |lines| - 1;
      TextIsCollected(table, nonce, lines[..n]);
      assert lines == lines[..n] + [lines[n]];
      ConsumeConcat(table, Collecting(nonce, []), lines[..n], [lines[n]]);
      CapturedLine(table, nonce, Text(table, lines[..n]), lines[n]);
      TextStays(table, lines);
    }
    NotesNeverFail(table, Collecting(nonce, Text(table, lines)), lines);
  }

  lemma TextStays(table: Table, lines: seq<string>)
    ensures lines != [] && IsNotification(table, lines[|lines| - 1]) ==>
              Text(table, lines) == Text(table, lines[..|lines| - 1])
    ensures lines != [] && !IsNotification(table, lines[|lines| - 1]) ==>
              Notes(table, lines) == Notes(table, lines[..|lines| - 1])
  {
    hide IsNotification;
  }

  lemma GuardIsText(table: Table, line: string)
    requires NoGuards(table) && Opens(line)
    ensures !IsNotification(table, line)
  {
    hide ControlNotification.Lookup, ControlNotification.ArgumentsOf, ControlNotification.FirstFraming, ParseFields;
    assert ControlNotification.Lookup(table, KindText(Begin)).Err?;
  }

  /** The stream of one captured request: what precedes its reply, the reply, what the
      command prints, and the reply to the fence command, whose body is the nonce. */
  function CaptureStream(before: seq<Item>, own: Item, printed: seq<string>, fence: Item): seq<string>
  {
    Printed(before) + Lines(own) + printed + Lines(fence)
  }

  predicate CaptureRequest(table: Table, nonce: string, before: seq<Item>, own: Item, fence: Item)
  {
    && NoGuards(table) && nonce != "" && nonce[0] != '%'
    && AllPrintable(before) && NoneOwn(before)
    && own.Block? && Printable(own) && own.guard.flags != 0
    && fence.Block? && Guarded(fence) && fence.body == [nonce]
  }

  function Armed(nonce: string): Parser { IDLE.(capture := Some(Capture(nonce, false, false, []))) }

  function FenceFrame(fence: Item, text: seq<string>): Frame
    requires fence.Block?
  {
    Frame(fence.guard, Joined(fence.body), fence.failed, true, text)
  }

  lemma OwnReplyStarts(table: Table, nonce: string, own: Item)
    requires own.Block? && Printable(own) && own.guard.flags != 0
    ensures ConsumeAll(table, Armed(nonce), Lines(own)) == Parsed(Collecting(nonce, []), [OutcomeOf(own)])
  {
    hide GuardOf;
    var p := Armed(nonce);
    var q := p.(guard := Some(own.guard));
    OneLine(table, p, own.open);
    BodyIsKept(table, q, own.body);
    ConsumeConcat(table, p, [own.open], own.body);
    assert "" + Joined(own.body) == Joined(own.body);
    var r := q.(output := Joined(own.body));
    ConsumeConcat(table, p, [own.open] + own.body, [own.close]);
    OneLine(table, r, own.close);
  }

  lemma BeforeText(table: Table, nonce: string, before: seq<Item>, own: Item, rest: seq<string>)
    requires AllPrintable(before) && NoneOwn(before)
    requires own.Block? && Printable(own) && own.guard.flags != 0
    ensures ConsumeAll(table, Armed(nonce), Printed(before) + Lines(own) + rest)
         == Then(Parsed(IDLE, Outcomes(before) + [OutcomeOf(own)]), ConsumeAll(table, Collecting(nonce, []), rest))
  {
    hide Consume, GuardOf, Printable, Joined, Lines, Printed;
    ParsingUndoesPrinting(table, Armed(nonce), before);
    OwnReplyStarts(table, nonce, own);
    ConsumeConcat(table, Armed(nonce), Printed(before), Lines(own));
    ConsumeConcat(table, Armed(nonce), Printed(before) + Lines(own), rest);
  }

  /** The parser inside the reply to the fence command. */
  function InFence(nonce: string, guard: Guard, text: seq<string>): Parser
  {
    Parser(Some(guard), nonce + "\n", Some(Capture(nonce, true, true, text)))
  }

  lemma FenceOpens(table: Table, nonce: string, text: seq<string>, fence: Item)
    requires NoGuards(table) && nonce != "" && nonce[0] != '%'
    requires fence.Block? && Guarded(fence)
    ensures ConsumeAll(table, Collecting(nonce, text), [fence.open])
         == Parsed(Collecting(nonce, text + [fence.open]), [])
    ensures ConsumeAll(table, Collecting(nonce, text + [fence.open]), [nonce])
         == Parsed(InFence(nonce, fence.guard, text), [])
  {
    hide GuardOf, ControlNotification.Parse;
    GuardIsText(table, fence.open);
    OpensWithPercent(fence.open);
    CapturedLine(table, nonce, text, fence.open);
    assert (text + [fence.open])[..|text|] == text;
    OneLine(table, Collecting(nonce, text + [fence.open]), nonce);
  }

  lemma FenceCloses(table: Table, nonce: string, text: seq<string>, fence: Item)
    requires fence.Block? && Guarded(fence) && fence.body == [nonce]
    ensures ConsumeAll(table, InFence(nonce, fence.guard, text), [fence.close])
         == Parsed(IDLE, [Completed(FenceFrame(fence, text))])
  {
    hide GuardOf;
    OneLine(table, InFence(nonce, fence.guard, text), fence.close);
    assert [nonce][..0] == [];
    assert Joined([nonce]) == "" + nonce + "\n" == nonce + "\n";
  }

  lemma FenceEnds(table: Table, nonce: string, text: seq<string>, fence: Item)
    requires NoGuards(table) && nonce != "" && nonce[0] != '%'
    requires fence.Block? && Guarded(fence) && fence.body == [nonce]
    ensures ConsumeAll(table, Collecting(nonce, text), Lines(fence))
         == Parsed(IDLE, [Completed(FenceFrame(fence, text))])
  {
    hide GuardOf, Consume, NoGuards, ConsumeAll;
    FenceOpens(table, nonce, text, fence);
    FenceCloses(table, nonce, text, fence);
    assert Lines(fence) == [fence.open] + ([nonce] + [fence.close]);
    ConsumeConcat(table, Collecting(nonce, text + [fence.open]), [nonce], [fence.close]);
    ConsumeConcat(table, Collecting(nonce, text), [fence.open], [nonce] + [fence.close]);
    var ends := [Completed(FenceFrame(fence, text))];
    assert [] + ends == ends;
  }

  lemma OpensWithPercent(line: string)
    requires Opens(line)
    ensures line != "" && line[0] == '%'
  {
    hide ParseFields;
  }

  /** A capture separates a command's text from the protocol: whatever it prints, lines that
      read like guards included, the fence frame carries exactly the lines that are not
      well-formed notifications, in order, the notifications are emitted apart, and the
      parser ends idle and disarmed. */
  lemma CaptureSeparates(table: Table, nonce: string, before: seq<Item>, own: Item, printed: seq<string>, fence: Item)
    requires CaptureRequest(table, nonce, before, own, fence)
    requires !LooksFenced(table, nonce, printed)
    ensures ConsumeAll(table, Armed(nonce), CaptureStream(before, own, printed, fence))
         == Parsed(IDLE, Outcomes(before) + [OutcomeOf(own)]
                         + (Notes(table, printed) + [Completed(FenceFrame(fence, Text(table, printed)))]))
  {
    hide Consume, GuardOf, Joined, Lines, Printed, LooksFenced;
    TextIsCollected(table, nonce, printed);
    FenceEnds(table, nonce, Text(table, printed), fence);
    ConsumeConcat(table, Collecting(nonce, []), printed, Lines(fence));
    BeforeText(table, nonce, before, own, printed + Lines(fence));
    assert CaptureStream(before, own, printed, fence) == Printed(before) + Lines(own) + (printed + Lines(fence));
  }

  /** Every fence frame among the outcomes carries this text. */
  predicate FencesCarry(outcomes: seq<Outcome>, text: seq<string>)
  {
    forall i :: 0 <= i < |outcomes| && outcomes[i].Completed? && outcomes[i].frame.fence ==>
      outcomes[i].frame.captured == text
  }

  predicate PastText(p: Parser, text: seq<string>)
  {
    p.capture.Some? ==> p.capture.value.fencing && p.capture.value.lines == text
  }

  lemma {:induction false} PastTextCarries(table: Table, p: Parser, lines: seq<string>, text: seq<string>)
    requires PastText(p, text)
    ensures FencesCarry(ConsumeAll(table, p, lines).outcomes, text)
    decreases |lines|
  {
    hide GuardOf;
    if lines != [] {
      var (q, outcome) := Consume(table, p, lines[0]);
      if !outcome.Failed? { PastTextCarries(table, q, lines[1..], text); }
    }
  }

  /** A printed nonce behind an opening guard ends the capture there. */
  lemma FencedLine(table: Table, nonce: string, lines: seq<string>, line: string) returns (q: Parser)
    requires AtFence(Capture(nonce, true, false, lines), line)
    ensures ConsumeAll(table, Collecting(nonce, lines), [line]) == Parsed(q, [])
    ensures PastText(q, lines[..|lines| - 1])
  {
    hide GuardOf;
    var step := Consume(table, Collecting(nonce, lines), line);
    q := step.0;
    OneLine(table, Collecting(nonce, lines), line);
  }

  lemma {:induction false} EarlyFence(table: Table, nonce: string, lines: seq<string>, rest: seq<string>)
      returns (text: seq<string>)
    requires LooksFenced(table, nonce, lines)
    ensures |text| < |Text(table, lines)|
    ensures FencesCarry(ConsumeAll(table, Collecting(nonce, []), lines + rest).outcomes, text)
    decreases |lines|
  {
    hide Consume, ConsumeAll, GuardOf, AtFence, IsNotification, FencesCarry, Fails, PastText, Notes;
    var n := |lines| - 1;
    var first, last := lines[..n], [lines[n]];
    assert lines + rest == first + (last + rest);
    if LooksFenced(table, nonce, first) {
      text := EarlyFence(table, nonce, first, last + rest);
    } else {
      var before := Text(table, first);
      var q := FencedLine(table, nonce, before, lines[n]);
      text := FencedText(table, nonce, before, lines[n]);
      TextIsCollected(table, nonce, first);
      ConsumeConcat(table, Collecting(nonce, []), first, last + rest);
      NothingFailed(q);
      ConsumeConcat(table, Collecting(nonce, before), last, rest);
      PastTextCarries(table, q, rest, text);
      NotesAreNoFences(table, first, ConsumeAll(table, q, rest).outcomes, text);
      assert [] + ConsumeAll(table, q, rest).outcomes == ConsumeAll(table, q, rest).outcomes;
    }
  }

  lemma FencedText(table: Table, nonce: string, lines: seq<string>, line: string) returns (text: seq<string>)
    requires AtFence(Capture(nonce, true, false, lines), line)
    ensures lines != [] && text == lines[..|lines| - 1]
  {
    text := lines[..|lines| - 1];
  }

  lemma NothingFailed(p: Parser)
    ensures !Fails(Parsed(p, []))
  {
  }

  lemma {:induction false} NotesAreNoFences(table: Table, lines: seq<string>, more: seq<Outcome>, text: seq<string>)
    requires FencesCarry(more, text)
    ensures FencesCarry(Notes(table, lines) + more, text)
  {
    hide GuardOf, IsNotification;
    if lines != [] {
      var n := |lines| - 1;
      var last := if IsNotification(table, lines[n]) then [Notified(lines[n])] else [];
      NotesAreNoFences(table, lines[..n], last + more, text);
      assert Notes(table, lines) + more == Notes(table, lines[..n]) + (last + more);
    }
  }

  /** The condition is exact: the stream is read back with the command's whole text if and only
      if no printed nonce stands behind a line that reads like an opening guard. */
  lemma CaptureSeparatesExactly(table: Table, nonce: string, before: seq<Item>, own: Item, printed: seq<string>,
      fence: Item)
    ensures CaptureRequest(table, nonce, before, own, fence) ==>
      (ConsumeAll(table, Armed(nonce), CaptureStream(before, own, printed, fence))
       == Parsed(IDLE, Outcomes(before) + [OutcomeOf(own)]
                       + (Notes(table, printed) + [Completed(FenceFrame(fence, Text(table, printed)))]))
       <==> !LooksFenced(table, nonce, printed))
  {
    hide Consume, ConsumeAll, GuardOf, Joined, Lines, Printed, LooksFenced, Text, Notes;
    if CaptureRequest(table, nonce, before, own, fence) {
      if !LooksFenced(table, nonce, printed) {
        CaptureSeparates(table, nonce, before, own, printed, fence);
      } else {
        FencedCaptureDiffers(table, nonce, before, own, printed, fence);
      }
    }
  }

  lemma FencedCaptureDiffers(table: Table, nonce: string, before: seq<Item>, own: Item, printed: seq<string>,
      fence: Item)
    requires CaptureRequest(table, nonce, before, own, fence) && LooksFenced(table, nonce, printed)
    ensures ConsumeAll(table, Armed(nonce), CaptureStream(before, own, printed, fence))
         != Parsed(IDLE, Outcomes(before) + [OutcomeOf(own)]
                         + (Notes(table, printed) + [Completed(FenceFrame(fence, Text(table, printed)))]))
  {
    hide Consume, ConsumeAll, GuardOf, Joined, Lines, Printed, LooksFenced, Text, Notes;
    var text := EarlyFence(table, nonce, printed, Lines(fence));
    BeforeText(table, nonce, before, own, printed + Lines(fence));
    assert CaptureStream(before, own, printed, fence) == Printed(before) + Lines(own) + (printed + Lines(fence));
    var got := ConsumeAll(table, Collecting(nonce, []), printed + Lines(fence)).outcomes;
    var all := Notes(table, printed) + [Completed(FenceFrame(fence, Text(table, printed)))];
    DifferByTheLast(Outcomes(before) + [OutcomeOf(own)], got, all);
    assert all[|all| - 1].frame.fence && all[|all| - 1].frame.captured != text;
  }

  lemma DifferByTheLast(prefix: seq<Outcome>, left: seq<Outcome>, right: seq<Outcome>)
    ensures prefix + left == prefix + right ==> left == right
  {
    if prefix + left == prefix + right {
      assert left == (prefix + left)[|prefix|..];
      assert right == (prefix + right)[|prefix|..];
    }
  }

  // ---------------------------------------------------------------- one line, exactly

  /** Between blocks a line opens a block, is a notification, or fails, and exactly one of these: a
      closing guard, a malformed one and anything without a percent sign fail. */
  lemma IdleLineExactly(p: Parser, line: string)
    requires p.guard.None?
    ensures var (q, outcome) := Framed(p, line);
      && (Opens(line) <==> q.guard.Some?) && (Opens(line) ==> outcome.Nothing? && q == p.(guard := Some(GuardOf(line).guard)))
      && (outcome == Notified(line) <==> line != "" && line[0] == '%' && GuardOf(line).NotGuard?)
      && (outcome.Failed? <==> !Opens(line) && outcome != Notified(line)) && (!Opens(line) ==> q == p)
  {
    hide GuardOf;
    if GuardOf(line).IsGuard? || GuardOf(line).BadGuard? { GuardStarts(line); }
  }

  lemma GuardStarts(line: string)
    ensures !GuardOf(line).NotGuard? ==> line != "" && line[0] == '%'
  {
    hide ParseFields;
  }
}
