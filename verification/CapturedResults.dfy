/** The lines a capture request collected, cut into reply frames and bare error text. */
module CapturedResults {
  import opened Bytes
  import opened ControlGuard
  import opened ControlProtocol
  import opened Options

  /** One result of a request. A result that is no reply frame has zero guard numbers. */
  datatype Result = Result(command: seq<string>, text: string, guard: Guard, failed: bool)

  const NO_GUARD := Guard(0, 0, 0)

  function FrameResult(frame: Frame, command: seq<string>): Result
  {
    Result(command, frame.text, frame.guard, frame.failed)
  }

  /** A stretch of captured lines: a whole reply frame, or lines that form none. */
  datatype Piece =
    | Bare(lines: seq<string>)
    | Framed(open: string, body: seq<string>, close: string)

  function PieceLines(piece: Piece): seq<string>
  {
    match piece
    case Bare(lines) => lines
    case Framed(open, body, close) => [open] + body + [close]
  }

  function Flatten(pieces: seq<Piece>): seq<string>
  {
    if pieces == [] then [] else PieceLines(pieces[0]) + Flatten(pieces[1..])
  }

  function GuardAt(line: string): Guard
  {
    var g := GuardOf(line);
    if g.IsGuard? then g.guard else NO_GUARD
  }

  predicate Failing(line: string)
  {
    var g := GuardOf(line);
    g.IsGuard? && g.kind == Error
  }

  predicate NoneOpens(lines: seq<string>)
  {
    lines == [] || (!Opens(lines[0]) && NoneOpens(lines[1..]))
  }

  predicate NoneClose(guard: Guard, lines: seq<string>)
  {
    lines == [] || (!Closes(guard, lines[0]) && NoneClose(guard, lines[1..]))
  }

  /** The frame opened by the first opening line, if any, is never closed. */
  predicate Unclosed(lines: seq<string>)
  {
    lines == [] || if Opens(lines[0]) then NoneClose(GuardAt(lines[0]), lines[1..]) else Unclosed(lines[1..])
  }

  /** Pieces as the results name them: whole frames, and between them maximal runs of lines
      that open no frame; only the last run may hold an opening line, of a frame never closed. */
  predicate Sound(pieces: seq<Piece>)
  {
    pieces == [] ||
    match pieces[0]
    case Framed(open, body, close) =>
      Opens(open) && NoneClose(GuardAt(open), body) && Closes(GuardAt(open), close) && Sound(pieces[1..])
    case Bare(lines) =>
      lines != [] &&
      if |pieces| == 1 then Unclosed(lines) else NoneOpens(lines) && pieces[1].Framed? && Sound(pieces[1..])
  }

  function FirstClose(guard: Guard, lines: seq<string>): (n: nat)
    ensures n <= |lines|
  {
    if lines == [] || Closes(guard, lines[0]) then 0 else 1 + FirstClose(guard, lines[1..])
  }

  function WithBare(lines: seq<string>, pieces: seq<Piece>): seq<Piece>
  {
    if lines == [] then pieces
    else if pieces != [] && pieces[0].Bare? then [Bare(lines + pieces[0].lines)] + pieces[1..]
    else [Bare(lines)] + pieces
  }

  function Pieces(lines: seq<string>): seq<Piece>
    decreases |lines|
  {
    if lines == [] then []
    else if !Opens(lines[0]) then WithBare([lines[0]], Pieces(lines[1..]))
    else
      var n := FirstClose(GuardAt(lines[0]), lines[1..]) + 1;
      if n == |lines| then [Bare(lines)]
      else [Framed(lines[0], lines[1..n], lines[n])] + Pieces(lines[n + 1..])
  }

  function PieceResult(piece: Piece, command: seq<string>): Result
  {
    match piece
    case Bare(lines) => Result(command, Joined(lines), NO_GUARD, true)
    case Framed(open, body, close) =>
      Result(command, Joined(body), GuardAt(open), Failing(close))
  }

  function PieceResults(pieces: seq<Piece>, command: seq<string>): seq<Result>
  {
    if pieces == [] then [] else [PieceResult(pieces[0], command)] + PieceResults(pieces[1..], command)
  }

  lemma {:induction false} FirstCloseIsFirst(guard: Guard, lines: seq<string>)
    ensures var n := FirstClose(guard, lines); NoneClose(guard, lines[..n]) && (n < |lines| ==> Closes(guard, lines[n]))
    ensures FirstClose(guard, lines) == |lines| ==> NoneClose(guard, lines)
  {
    hide GuardOf, Closes;
    if lines != [] && !Closes(guard, lines[0]) {
      FirstCloseIsFirst(guard, lines[1..]);
      var n := FirstClose(guard, lines[1..]);
      assert lines[..n + 1][1..] == lines[1..][..n];
    }
  }

  lemma BareGrows(line: string, lines: seq<string>, rest: seq<Piece>)
    requires !Opens(line) && Sound([Bare(lines)] + rest)
    ensures Sound([Bare([line] + lines)] + rest)
  {
    hide GuardOf, Opens, Closes, NoneClose, GuardAt;
    var all, grown := [Bare(lines)] + rest, [Bare([line] + lines)] + rest;
    assert all[1..] == rest && grown[1..] == rest;
    assert ([line] + lines)[1..] == lines;
  }

  lemma BareStarts(line: string, pieces: seq<Piece>)
    requires !Opens(line) && Sound(pieces) && (pieces != [] ==> pieces[0].Framed?)
    ensures Sound([Bare([line])] + pieces)
  {
    hide GuardOf, Opens, Closes, NoneClose, GuardAt;
    var grown := [Bare([line])] + pieces;
    assert [line][1..] == [];
    assert grown[1..] == pieces && grown[0] == Bare([line]);
    if pieces == [] {
      assert Unclosed([line]);
    } else {
      assert NoneOpens([line]) && grown[1] == pieces[0];
    }
  }

  lemma FlattenFirst(piece: Piece, pieces: seq<Piece>)
    ensures Flatten([piece] + pieces) == PieceLines(piece) + Flatten(pieces)
  {
    hide PieceLines;
    assert ([piece] + pieces)[1..] == pieces;
  }

  lemma BareInFront(line: string, pieces: seq<Piece>)
    requires !Opens(line) && Sound(pieces)
    ensures Sound(WithBare([line], pieces))
    ensures Flatten(WithBare([line], pieces)) == [line] + Flatten(pieces)
  {
    hide GuardOf, Opens, Closes, Sound, Flatten, GuardAt;
    if pieces != [] && pieces[0].Bare? {
      var lines, rest := pieces[0].lines, pieces[1..];
      assert pieces == [Bare(lines)] + rest;
      BareGrows(line, lines, rest);
      FlattenFirst(Bare(lines), rest);
      FlattenFirst(Bare([line] + lines), rest);
      assert ([line] + lines) + Flatten(rest) == [line] + (lines + Flatten(rest));
    } else {
      BareStarts(line, pieces);
      FlattenFirst(Bare([line]), pieces);
    }
  }

  lemma FramedInFront(open: string, body: seq<string>, close: string, pieces: seq<Piece>)
    requires Opens(open) && NoneClose(GuardAt(open), body) && Closes(GuardAt(open), close) && Sound(pieces)
    ensures Sound([Framed(open, body, close)] + pieces)
  {
    hide GuardOf, Opens, Closes, NoneClose, GuardAt;
    assert ([Framed(open, body, close)] + pieces)[1..] == pieces;
  }

  /** Every captured line stands in exactly one piece, in order, and the pieces are sound. */
  lemma {:induction false} PiecesCoverTheLines(lines: seq<string>)
    ensures Sound(Pieces(lines))
    ensures Flatten(Pieces(lines)) == lines
    decreases |lines|
  {
    hide GuardOf, Opens, Closes, NoneClose, GuardAt, Pieces, FirstClose, Sound, Flatten, WithBare;
    if lines == [] {
      NothingToCut();
      NothingIsSound();
    } else if !Opens(lines[0]) {
      PiecesCoverTheLines(lines[1..]);
      BareInFront(lines[0], Pieces(lines[1..]));
      BareFirst(lines);
    } else {
      var tail, g := lines[1..], GuardAt(lines[0]);
      var n := FirstClose(g, tail);
      FirstCloseIsFirst(g, tail);
      if n == |tail| {
        NeverClosed(lines);
        UnclosedIsBare(lines);
        UnclosedIsSound(lines);
      } else {
        var body, close, rest := tail[..n], tail[n], tail[n + 1..];
        PiecesCoverTheLines(rest);
        FramedPiece(lines[0], body, close, rest);
        FramedInFront(lines[0], body, close, Pieces(rest));
        FlattenFirst(Framed(lines[0], body, close), Pieces(rest));
        assert [lines[0]] + body + [close] + rest == lines;
      }
    }
  }

  lemma NothingIsSound()
    ensures Sound([]) && Flatten([]) == []
  {
  }

  lemma BareFirst(lines: seq<string>)
    requires lines != [] && !Opens(lines[0])
    ensures Pieces(lines) == WithBare([lines[0]], Pieces(lines[1..]))
    ensures [lines[0]] + lines[1..] == lines
  {
  }

  lemma NeverClosed(lines: seq<string>)
    requires lines != [] && Opens(lines[0]) && NoneClose(GuardAt(lines[0]), lines[1..])
    ensures Unclosed(lines)
  {
  }

  lemma UnclosedIsSound(lines: seq<string>)
    requires lines != [] && Unclosed(lines)
    ensures Sound([Bare(lines)]) && Flatten([Bare(lines)]) == lines
  {
    hide GuardOf, Opens, Closes, GuardAt, Unclosed;
    assert Flatten([Bare(lines)]) == lines + [] == lines;
  }

  /** There is only one way to cut the lines into sound pieces. */
  lemma {:induction false} CutIsUnique(pieces: seq<Piece>)
    requires Sound(pieces)
    ensures Pieces(Flatten(pieces)) == pieces
    decreases |pieces|
  {
    hide GuardOf, Opens, Closes, NoneClose, GuardAt, Pieces, Unclosed, NoneOpens, FirstClose;
    if pieces == [] {
      NothingToCut();
    } else {
      var rest := pieces[1..];
      assert pieces == [pieces[0]] + rest;
      match pieces[0]
      case Framed(open, body, close) =>
        CutIsUnique(rest);
        FramedPiece(open, body, close, Flatten(rest));
      case Bare(lines) =>
        if rest == [] {
          assert Flatten(pieces) == lines + [] == lines;
          UnclosedIsBare(lines);
        } else {
          assert rest[0] == pieces[1];
          CutIsUnique(rest);
          BarePieces(lines, Flatten(rest));
        }
    }
  }

  lemma NothingToCut()
    ensures Pieces([]) == []
  {
  }

  /** The pieces are the one sound cut of the lines. */
  lemma PiecesAreTheCut(lines: seq<string>, pieces: seq<Piece>)
    ensures pieces == Pieces(lines) <==> Sound(pieces) && Flatten(pieces) == lines
  {
    hide GuardOf, Opens, Closes, Sound, Flatten, Pieces;
    PiecesCoverTheLines(lines);
    if Sound(pieces) && Flatten(pieces) == lines { CutIsUnique(pieces); }
  }

  lemma {:induction false} CloseIsFound(guard: Guard, body: seq<string>, close: string, rest: seq<string>)
    requires NoneClose(guard, body) && Closes(guard, close)
    ensures FirstClose(guard, body + [close] + rest) == |body|
  {
    hide GuardOf, Closes;
    var lines := body + [close] + rest;
    if body == [] {
      assert lines[0] == close;
    } else {
      assert lines[1..] == body[1..] + [close] + rest;
      CloseIsFound(guard, body[1..], close, rest);
    }
  }

  lemma FramedPiece(open: string, body: seq<string>, close: string, rest: seq<string>)
    requires Opens(open) && NoneClose(GuardAt(open), body) && Closes(GuardAt(open), close)
    ensures Pieces([open] + body + [close] + rest) == [Framed(open, body, close)] + Pieces(rest)
  {
    hide GuardOf, Opens, Closes, NoneClose, FirstClose, GuardAt;
    var lines := [open] + body + [close] + rest;
    var tail := body + [close] + rest;
    assert lines[1..] == tail;
    CloseIsFound(GuardAt(open), body, close, rest);
    var n := |body| + 1;
    assert lines[1..n] == body && lines[n] == close && lines[n + 1..] == rest;
  }

  lemma {:induction false} NoneCloseFinds(guard: Guard, lines: seq<string>)
    requires NoneClose(guard, lines)
    ensures FirstClose(guard, lines) == |lines|
  {
    hide GuardOf, Closes;
    if lines != [] { NoneCloseFinds(guard, lines[1..]); }
  }

  lemma {:induction false} UnclosedIsBare(lines: seq<string>)
    requires Unclosed(lines) && lines != []
    ensures Pieces(lines) == [Bare(lines)]
    decreases |lines|
  {
    hide GuardOf, Opens, Closes, GuardAt;
    if Opens(lines[0]) {
      NoneCloseFinds(GuardAt(lines[0]), lines[1..]);
    } else if |lines| > 1 {
      UnclosedIsBare(lines[1..]);
      assert [lines[0]] + lines[1..] == lines;
    } else {
      assert lines[1..] == [];
      assert [lines[0]] == lines;
    }
  }

  lemma {:induction false} BarePieces(bare: seq<string>, rest: seq<string>)
    requires NoneOpens(bare)
    ensures Pieces(bare + rest) == WithBare(bare, Pieces(rest))
    decreases |bare|
  {
    hide GuardOf, Opens, Closes, FirstClose;
    if bare == [] {
      assert bare + rest == rest;
    } else {
      assert (bare + rest)[1..] == bare[1..] + rest;
      BarePieces(bare[1..], rest);
      assert (bare + rest)[0] == bare[0] && [bare[0]] + bare[1..] == bare;
      WithBareTwice(bare[0], bare[1..], Pieces(rest));
    }
  }

  lemma WithBareTwice(line: string, lines: seq<string>, pieces: seq<Piece>)
    ensures WithBare([line], WithBare(lines, pieces)) == WithBare([line] + lines, pieces)
  {
    assert [line] + [] == [line];
    if lines != [] {
      if pieces != [] && pieces[0].Bare? {
        assert ([Bare(lines + pieces[0].lines)] + pieces[1..])[1..] == pieces[1..];
        assert [line] + (lines + pieces[0].lines) == ([line] + lines) + pieces[0].lines;
      } else {
        assert ([Bare(lines)] + pieces)[1..] == pieces;
      }
    }
  }

  /** What a capture request returns for the lines it collected. */
  function ResultsOf(lines: seq<string>, shellOutput: bool, command: seq<string>): seq<Result>
  {
    if lines == [] then []
    else if shellOutput then [Result(command, Joined(lines), NO_GUARD, false)]
    else PieceResults(Pieces(lines), command)
  }

  lemma {:induction false} StillNoneOpens(bare: seq<string>, line: string)
    requires NoneOpens(bare) && !Opens(line)
    ensures NoneOpens(bare + [line])
  {
    hide GuardOf, Opens;
    if bare == [] {
      assert bare + [line] == [line] && [line][1..] == [];
    } else {
      StillNoneOpens(bare[1..], line);
      assert (bare + [line])[1..] == bare[1..] + [line];
    }
  }

  lemma {:induction false} StillNoneClose(guard: Guard, body: seq<string>, line: string)
    requires NoneClose(guard, body) && !Closes(guard, line)
    ensures NoneClose(guard, body + [line])
  {
    hide GuardOf, Closes;
    if body == [] {
      assert body + [line] == [line] && [line][1..] == [];
    } else {
      StillNoneClose(guard, body[1..], line);
      assert (body + [line])[1..] == body[1..] + [line];
    }
  }

  /** Lines that have opened a frame and not closed it. */
  predicate Open(lines: seq<string>)
  {
    lines != [] ==> Opens(lines[0]) && NoneClose(GuardAt(lines[0]), lines[1..])
  }

  lemma {:induction false} OpenIsUnclosed(bare: seq<string>, open: seq<string>)
    requires NoneOpens(bare) && Open(open)
    ensures Unclosed(bare + open)
    decreases |bare|
  {
    hide GuardOf, Opens, Closes, GuardAt, NoneClose;
    if bare == [] {
      assert bare + open == open;
    } else {
      OpenIsUnclosed(bare[1..], open);
      assert (bare + open)[1..] == bare[1..] + open;
    }
  }

  function BareResults(lines: seq<string>, command: seq<string>): seq<Result>
  {
    if lines == [] then [] else [Result(command, Joined(lines), NO_GUARD, true)]
  }

  lemma FlushedFrame(bare: seq<string>, open: seq<string>, close: string, rest: seq<string>, command: seq<string>)
    requires NoneOpens(bare) && Open(open) && open != [] && Closes(GuardAt(open[0]), close)
    ensures PieceResults(Pieces(bare + open + ([close] + rest)), command)
         == BareResults(bare, command) + [Result(command, Joined(open[1..]), GuardAt(open[0]), Failing(close))]
            + PieceResults(Pieces(rest), command)
  {
    hide GuardOf, Opens, Closes, GuardAt, NoneClose, Failing, Joined, Pieces;
    var frame := Framed(open[0], open[1..], close);
    FramedPiece(open[0], open[1..], close, rest);
    assert bare + open + ([close] + rest) == bare + ([open[0]] + open[1..] + [close] + rest);
    BarePieces(bare, [open[0]] + open[1..] + [close] + rest);
    var tail := [frame] + Pieces(rest);
    assert tail[1..] == Pieces(rest);
    if bare != [] {
      assert ([Bare(bare)] + tail)[1..] == tail;
    }
  }

  lemma FlushedRest(bare: seq<string>, open: seq<string>, command: seq<string>)
    requires NoneOpens(bare) && Open(open)
    ensures PieceResults(Pieces(bare + open), command) == BareResults(bare + open, command)
  {
    hide GuardOf, Opens, Closes, GuardAt, Joined, Open;
    if bare + open != [] {
      OpenIsUnclosed(bare, open);
      UnclosedIsBare(bare + open);
      assert [Bare(bare + open)][1..] == [];
    }
  }

  lemma OpenGrows(open: seq<string>, line: string)
    requires Open(open)
    requires if open == [] then Opens(line) else !Closes(GuardAt(open[0]), line)
    ensures Open(open + [line])
    ensures open != [] ==> (open + [line])[0] == open[0]
    ensures Joined((open + [line])[1..]) == if open == [] then "" else Joined(open[1..]) + line + "\n"
  {
    hide GuardOf, Opens, Closes, GuardAt;
    if open == [] {
      assert [line][1..] == [] && open + [line] == [line];
    } else {
      var body := open[1..];
      assert (open + [line])[1..] == body + [line];
      assert (body + [line])[..|body|] == body;
      StillNoneClose(GuardAt(open[0]), body, line);
    }
  }

  /** The parser that has read open and nothing else. */
  function Reading(open: seq<string>): Parser
  {
    if open == [] then IDLE else Parser(Some(GuardAt(open[0])), Joined(open[1..]), None)
  }

  lemma ReadingStep(open: seq<string>, line: string)
    requires Open(open) && (open == [] ==> Opens(line))
    ensures var (q, outcome) := ControlProtocol.Framed(Reading(open), line);
      if open != [] && Closes(GuardAt(open[0]), line) then
        q == IDLE && outcome == Completed(Frame(GuardAt(open[0]), Joined(open[1..]), Failing(line), false, []))
      else q == Reading(open + [line]) && outcome == Nothing
  {
    hide GuardOf, NoneClose, Joined;
    if open == [] || !Closes(GuardAt(open[0]), line) { OpenGrows(open, line); }
  }

  /** The results still to come: bare and open are read, and lines[i..] is not. */
  function ToCome(bare: seq<string>, open: seq<string>, lines: seq<string>, i: nat, command: seq<string>): seq<Result>
    requires i <= |lines|
  {
    PieceResults(Pieces(bare + open + lines[i..]), command)
  }

  lemma ToComeMoves(bare: seq<string>, open: seq<string>, lines: seq<string>, i: nat, command: seq<string>)
    requires i < |lines|
    ensures ToCome(bare, open, lines, i, command) == ToCome(bare, open + [lines[i]], lines, i + 1, command)
    ensures open == [] ==>
              ToCome(bare, open, lines, i, command) == ToCome(bare + [lines[i]], open, lines, i + 1, command)
  {
    hide Pieces, PieceResults;
    assert bare + open + lines[i..] == bare + (open + [lines[i]]) + lines[i + 1..];
    if open == [] {
      assert bare + open + lines[i..] == (bare + [lines[i]]) + open + lines[i + 1..];
    }
  }

  lemma ToComeCloses(bare: seq<string>, open: seq<string>, lines: seq<string>, i: nat, command: seq<string>)
    requires i < |lines| && NoneOpens(bare) && Open(open) && open != [] && Closes(GuardAt(open[0]), lines[i])
    ensures ToCome(bare, open, lines, i, command)
         == BareResults(bare, command)
            + [Result(command, Joined(open[1..]), GuardAt(open[0]), Failing(lines[i]))]
            + ToCome([], [], lines, i + 1, command)
  {
    hide GuardOf, Opens, Closes, GuardAt, NoneOpens, Open, Joined, Pieces, PieceResults, Failing, BareResults;
    FlushedFrame(bare, open, lines[i], lines[i + 1..], command);
    assert lines[i..] == [lines[i]] + lines[i + 1..];
    assert [] + [] + lines[i + 1..] == lines[i + 1..];
  }

  lemma ToComeEnds(bare: seq<string>, open: seq<string>, lines: seq<string>, command: seq<string>)
    requires NoneOpens(bare) && Open(open)
    ensures ToCome(bare, open, lines, |lines|, command) == BareResults(bare + open, command)
    ensures ToCome([], [], lines, 0, command) == PieceResults(Pieces(lines), command)
  {
    hide GuardOf, Opens, Closes, GuardAt, NoneOpens, Open, Joined, Pieces, PieceResults, BareResults;
    assert bare + open + lines[|lines|..] == bare + open;
    assert [] + [] + lines[0..] == lines;
    FlushedRest(bare, open, command);
  }

  method Flush(results: seq<Result>, bare: seq<string>, command: seq<string>) returns (flushed: seq<Result>)
    ensures flushed == results + BareResults(bare, command)
  {
    flushed := results;
    if |bare| != 0 {
      flushed := results + [Result(command, Joined(bare), NO_GUARD, true)];
    }
  }

  /** A line that is consumed opens a frame or stands inside one, so consuming it never fails
      and the source's recovery from a failed line has nothing to do. */
  method CaptureResults(lines: seq<string>, shellOutput: bool, command: seq<string>) returns (results: seq<Result>)
    ensures results == ResultsOf(lines, shellOutput, command)
  {
    hide GuardOf, Opens, Closes, GuardAt, NoneOpens, Open, Joined, Pieces, PieceResults, Failing, Reading,
      ControlProtocol.Framed, BareResults, ToCome;
    if |lines| == 0 { return []; }
    if shellOutput { return [Result(command, Joined(lines), NO_GUARD, false)]; }
    results := [];
    var bare, open: seq<string> := [], [];
    var parser := new StreamParser();
    StartOpen();
    ToComeEnds([], [], lines, command);
    for i := 0 to |lines|
      invariant fresh(parser)
      invariant parser.State() == Reading(open)
      invariant parser.guard.None? <==> open == []
      invariant NoneOpens(bare) && Open(open)
      invariant PieceResults(Pieces(lines), command) == results + ToCome(bare, open, lines, i, command)
    {
      ToComeMoves(bare, open, lines, i, command);
      if parser.guard.None? && !Opens(lines[i]) {
        StillNoneOpens(bare, lines[i]);
        bare := bare + [lines[i]];
        continue;
      }
      ReadingStep(open, lines[i]);
      var outcome := parser.ConsumeFramed(lines[i]);
      if outcome.Completed? {
        ToComeCloses(bare, open, lines, i, command);
        results := Flush(results, bare, command);
        results := results + [FrameResult(outcome.frame, command)];
        bare, open := [], [];
        StartOpen();
      } else {
        OpenGrows(open, lines[i]);
        open := open + [lines[i]];
        ReadingOpens(open);
      }
    }
    ToComeEnds(bare, open, lines, command);
    bare := bare + open;
    results := Flush(results, bare, command);
  }

  lemma StartOpen()
    ensures Reading([]) == IDLE && Open([]) && NoneOpens([])
  {
  }

  lemma ReadingOpens(open: seq<string>)
    requires open != []
    ensures Reading(open).guard.Some?
  {
  }

  // ---------------------------------------------------------------- what results hold

  lemma {:induction false} JoinedLines(lines: seq<string>, rest: string)
    requires AllUnbroken(lines)
    ensures LinesIn(Joined(lines) + rest) == lines + LinesIn(rest)
  {
    hide LinesIn, Unbroken;
    if lines == [] {
      assert Joined(lines) + rest == rest && lines + LinesIn(rest) == LinesIn(rest);
    } else {
      var n := |lines| - 1;
      var last := lines[n] + "\n" + rest;
      assert Joined(lines) + rest == Joined(lines[..n]) + last;
      JoinedLines(lines[..n], last);
      FirstLine(lines[n], rest);
      assert lines == lines[..n] + [lines[n]];
      assert lines[..n] + ([lines[n]] + LinesIn(rest)) == lines + LinesIn(rest);
    }
  }

  /** Joined lines are read back line by line. */
  lemma JoinedReadsBack(lines: seq<string>)
    requires AllUnbroken(lines)
    ensures LinesIn(Joined(lines)) == lines
  {
    JoinedLines(lines, "");
    assert Joined(lines) + "" == Joined(lines);
    assert LinesIn("") == [] && lines + [] == lines;
  }

  /** A result holds its piece: a frame's guard, outcome and body, or bare lines as an error. */
  predicate Holds(piece: Piece, r: Result, command: seq<string>)
  {
    && r.command == command
    && match piece
       case Bare(lines) => r.failed && r.guard == NO_GUARD && LinesIn(r.text) == lines
       case Framed(open, body, close) =>
         && GuardOf(open) == IsGuard(Begin, r.guard)
         && GuardOf(close) == IsGuard(if r.failed then Error else End, r.guard)
         && LinesIn(r.text) == body
  }

  lemma {:induction false} PieceIsUnbroken(pieces: seq<Piece>, i: nat)
    requires i < |pieces| && AllUnbroken(Flatten(pieces))
    ensures AllUnbroken(match pieces[i] case Bare(lines) => lines case Framed(_, body, _) => body)
  {
    hide Unbroken;
    var first := PieceLines(pieces[0]);
    var all := Flatten(pieces);
    if i == 0 {
      assert all[..|first|] == first;
      if pieces[0].Framed? { assert first[1..|first| - 1] == pieces[0].body; }
    } else {
      assert all[|first|..] == Flatten(pieces[1..]);
      PieceIsUnbroken(pieces[1..], i - 1);
    }
  }

  lemma {:induction false} PieceResultsHold(pieces: seq<Piece>, command: seq<string>)
    requires Sound(pieces) && AllUnbroken(Flatten(pieces))
    ensures var rs := PieceResults(pieces, command);
      |rs| == |pieces| && forall i :: 0 <= i < |pieces| ==> Holds(pieces[i], rs[i], command)
  {
    hide GuardOf, Joined, LinesIn, Unbroken, NoneClose, NoneOpens, Unclosed;
    if pieces != [] {
      PieceIsUnbroken(pieces, 0);
      assert Flatten(pieces)[|PieceLines(pieces[0])|..] == Flatten(pieces[1..]);
      SoundRest(pieces);
      PieceResultsHold(pieces[1..], command);
      match pieces[0]
      case Bare(lines) => JoinedReadsBack(lines);
      case Framed(open, body, close) => JoinedReadsBack(body);
    }
  }

  lemma SoundRest(pieces: seq<Piece>)
    requires pieces != [] && Sound(pieces)
    ensures Sound(pieces[1..])
    ensures pieces[0].Framed? ==> Opens(pieces[0].open) && Closes(GuardAt(pieces[0].open), pieces[0].close)
  {
    hide GuardOf, Opens, Closes, NoneClose, NoneOpens, Unclosed;
  }

  /** Nothing captured is lost in the results: a shell command's one result holds all lines, and
      otherwise the results hold the pieces of the one sound cut, one each and in order. */
  lemma ResultsHoldTheLines(lines: seq<string>, shellOutput: bool, command: seq<string>)
    requires AllUnbroken(lines)
    ensures var rs := ResultsOf(lines, shellOutput, command);
      if lines == [] then rs == []
      else if shellOutput then
        |rs| == 1 && rs[0].command == command && !rs[0].failed && rs[0].guard == NO_GUARD && LinesIn(rs[0].text) == lines
      else
        exists pieces ::
          && Sound(pieces) && Flatten(pieces) == lines && |pieces| == |rs|
          && forall i :: 0 <= i < |rs| ==> Holds(pieces[i], rs[i], command)
  {
    hide Holds, Joined, LinesIn, Unbroken, Sound, Flatten, Pieces;
    if shellOutput {
      JoinedReadsBack(lines);
    } else {
      PiecesCoverTheLines(lines);
      PieceResultsHold(Pieces(lines), command);
    }
  }
}
