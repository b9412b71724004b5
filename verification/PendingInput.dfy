/** What this process has typed on each pane's line and not submitted. Lines are sequences of
    runes. */
module PendingInput {

  const SUBMIT_KEYS: set<string> := {"Enter", "C-m", "KPEnter"}
  const KILL_KEYS: set<string> := {"C-u", "C-c"}
  const ERASE_KEYS: set<string> := {"BSpace", "C-h"}

  /** Which runes print; unicode.IsPrint is a parameter of the model. */
  type Printing = char -> bool

  // ---------------------------------------------------------------- one key at a time

  /** What a key does to the line it is typed on. */
  datatype Press = Ends | Erases | Keeps | Types(rune: char) | Unmodelled

  function PressOf(key: string, prints: Printing): Press
  {
    if key in SUBMIT_KEYS || key in KILL_KEYS then Ends
    else if key in ERASE_KEYS then Erases
    else if key == "DC" then Keeps
    else if key == "Space" then Types(' ')
    else if |key| == 1 && prints(key[0]) then Types(key[0])
    else Unmodelled
  }

  function DropLast(line: string): string { if line == "" then "" else line[..|line| - 1] }

  function Pressed(line: string, press: Press): string
  {
    match press
    case Ends => ""
    case Erases => DropLast(line)
    case Keeps => line
    case Types(rune) => line + [rune]
    case Unmodelled => line
  }

  predicate Modelled(keys: seq<string>, prints: Printing)
  {
    keys == [] || (Modelled(keys[..|keys| - 1], prints) && !PressOf(keys[|keys| - 1], prints).Unmodelled?)
  }

  /** The line after the keys, typed one at a time. */
  function Replay(line: string, keys: seq<string>, prints: Printing): string
  {
    if keys == [] then line
    else Pressed(Replay(line, keys[..|keys| - 1], prints), PressOf(keys[|keys| - 1], prints))
  }

  predicate EndsLine(rune: char) { rune == '\r' || rune == '\n' }

  /** The line after literal runes: the line discipline reads a line break as Enter. */
  function ReplayRunes(line: string, runes: string): string
  {
    if runes == "" then line
    else
      var rest, rune := ReplayRunes(line, runes[..|runes| - 1]), runes[|runes| - 1];
      if EndsLine(rune) then "" else rest + [rune]
  }

  function Join(keys: seq<string>): string
  {
    if keys == [] then "" else Join(keys[..|keys| - 1]) + keys[|keys| - 1]
  }

  // ---------------------------------------------------------------- the summary

  /** What a dispatch adds before tmux takes it, the line it leaves behind when it ends one,
      and how many runes it erases of what was there. */
  datatype Summary = Summary(text: string, afterEnd: string, endsLine: bool, overflow: nat)

  const NOTHING := Summary("", "", false, 0)

  function Trim(line: string, count: nat): string
  {
    if count == 0 || line == "" then line else Trim(line[..|line| - 1], count - 1)
  }

  /** What is pending once a dispatch was recorded, taken and, if it ended the line, settled. */
  function Applied(line: string, s: Summary): string
  {
    if s.endsLine then s.afterEnd else Trim(line, s.overflow) + s.text
  }

  /** The keys as tmux and the line discipline take them; a dispatch that holds a key that is
      not modelled is not followed. */
  function Taken(line: string, keys: seq<string>, literal: bool, prints: Printing): string
  {
    if literal then ReplayRunes(line, Join(keys))
    else if Modelled(keys, prints) then Replay(line, keys, prints)
    else line
  }

  predicate Breakless(runes: string) { '\r' !in runes && '\n' !in runes }

  /** What stands behind the last line break of runes, if there is one, begins at cut. */
  predicate LastLineAt(runes: string, cut: nat)
  {
    cut <= |runes| && (cut > 0 ==> runes[cut - 1] == '\r' || runes[cut - 1] == '\n') && Breakless(runes[cut..])
  }

  lemma LastLineGrows(runes: string, rune: char, cut: nat)
    requires LastLineAt(runes, cut) && rune != '\r' && rune != '\n'
    ensures LastLineAt(runes + [rune], cut) && (runes + [rune])[cut..] == runes[cut..] + [rune]
  {
    assert (runes + [rune])[cut..] == runes[cut..] + [rune];
  }

  /** Literal text is typed as it is, except that each line break in it ends the line: what is left
      is what stands behind the last. */
  lemma {:induction false} LiteralLeavesTheLastLine(line: string, runes: string) returns (cut: nat)
    ensures LastLineAt(runes, cut)
    ensures ReplayRunes(line, runes) == if cut == 0 then line + runes else runes[cut..]
  {
    hide Breakless;
    if runes == "" {
      cut := 0;
      assert line + runes == line;
      assert LastLineAt("", 0) by { NothingBreaks(); }
    } else {
      var n := |runes| - 1;
      var rest := runes[..n];
      assert runes == rest + [runes[n]];
      cut := LiteralLeavesTheLastLine(line, rest);
      if EndsLine(runes[n]) {
        cut := n + 1;
        assert runes[n + 1..] == "";
        NothingBreaks();
      } else {
        LastLineGrows(rest, runes[n], cut);
        assert line + rest + [runes[n]] == line + runes;
      }
    }
  }

  lemma NothingBreaks()
    ensures Breakless("") && LastLineAt("", 0)
  {
  }

  /** Each key is one printing rune. */
  predicate AllRunes(keys: seq<string>, prints: Printing)
  {
    forall i :: 0 <= i < |keys| ==> |keys[i]| == 1 && prints(keys[i][0])
  }

  /** Runes typed one key at a time are the text, and as many backspaces take it back. */
  lemma {:induction false} ErasingUndoesTyping(line: string, keys: seq<string>, prints: Printing)
    requires AllRunes(keys, prints)
    ensures Modelled(keys, prints) && Replay(line, keys, prints) == line + Join(keys)
    ensures Replay(line + Join(keys), seq(|keys|, i => "BSpace"), prints) == line
  {
    if keys == [] {
      assert line + "" == line;
    } else {
      var n := |keys| - 1;
      ErasingUndoesTyping(line, keys[..n], prints);
      RuneTypes(keys[n], prints);
      assert line + Join(keys[..n]) + keys[n] == line + Join(keys);
      EraseFirst(line + Join(keys[..n]), keys[n], n, prints);
    }
  }

  lemma RuneTypes(key: string, prints: Printing)
    requires |key| == 1 && prints(key[0])
    ensures PressOf(key, prints) == Types(key[0])
  {
    assert forall name :: name in SUBMIT_KEYS + KILL_KEYS + ERASE_KEYS ==> |name| > 1;
    assert |"DC"| == 2 && |"Space"| == 5;
  }

  lemma {:induction false} EraseFirst(line: string, rune: string, n: nat, prints: Printing)
    requires |rune| == 1
    ensures Replay(line + rune, seq(n + 1, i => "BSpace"), prints) == Replay(line, seq(n, i => "BSpace"), prints)
  {
    var more := seq(n + 1, i => "BSpace");
    assert more[..n] == seq(n, i => "BSpace");
    assert PressOf("BSpace", prints) == Erases;
    if n == 0 {
      assert more[..0] == [];
      assert (line + rune)[..|line|] == line;
    } else {
      EraseFirst(line, rune, n - 1, prints);
      assert seq(n, i => "BSpace")[..n - 1] == seq(n - 1, i => "BSpace");
    }
  }

  lemma LastLineOfText(runes: string, cut: nat)
    requires LastLineAt(runes, cut)
    ensures cut > 0 ==> !Breakless(runes)
  {
    if cut > 0 { assert runes[cut - 1] in runes; }
  }

  /** Literal keys are text whatever they are called; other keys are text if they are runes, end the
      line if they submit or discard it, and a sequence with a key that is neither is not followed. */
  lemma LiteralKeysAreText(line: string, keys: seq<string>, key: string, prints: Printing)
    ensures Breakless(Join(keys)) ==> Taken(line, keys, true, prints) == line + Join(keys)
    ensures AllRunes(keys, prints) ==> Taken(line, keys, false, prints) == line + Join(keys)
    ensures key in {"Enter", "C-m", "KPEnter", "C-u", "C-c"} && Modelled(keys, prints) ==>
              Taken(line, keys + [key], false, prints) == ""
    ensures PressOf(key, prints).Unmodelled? ==> Taken(line, keys + [key], false, prints) == line
  {
    var cut := LiteralLeavesTheLastLine(line, Join(keys));
    LastLineOfText(Join(keys), cut);
    if AllRunes(keys, prints) { ErasingUndoesTyping(line, keys, prints); }
    assert (keys + [key])[..|keys|] == keys;
  }

  lemma {:induction false} TrimOne(line: string, count: nat)
    ensures Trim(line, count + 1) == DropLast(Trim(line, count))
  {
    if count > 0 && line != "" { TrimOne(line[..|line| - 1], count - 1); }
  }

  lemma ModelledPrefix(keys: seq<string>, n: nat, prints: Printing)
    requires n <= |keys| && Modelled(keys, prints)
    ensures Modelled(keys[..n], prints)
  {
    if n < |keys| {
      ModelledPrefix(keys[..|keys| - 1], n, prints);
      assert keys[..|keys| - 1][..n] == keys[..n];
    } else {
      assert keys[..n] == keys;
    }
  }

  /** Drops the last rune a builder holds. */
  method DropLastRune(held: string) returns (rest: string)
    ensures rest == DropLast(held)
  {
    if held == "" { return ""; }
    return held[..|held| - 1];
  }

  method TrimTrailingRunes(text: string, count: nat) returns (rest: string)
    ensures rest == Trim(text, count)
  {
    rest := text;
    var left := count;
    while left > 0 && rest != ""
      invariant Trim(text, count) == Trim(rest, left)
    {
      rest := rest[..|rest| - 1];
      left := left - 1;
    }
  }

  /** One past the last line break of joined, or 0 when there is none. */
  method AfterLastBreak(joined: string) returns (cut: nat)
    ensures cut <= |joined| && (cut > 0 ==> EndsLine(joined[cut - 1]))
    ensures forall k :: cut <= k < |joined| ==> !EndsLine(joined[k])
  {
    cut := |joined|;
    while cut > 0 && !EndsLine(joined[cut - 1])
      invariant cut <= |joined| && forall k :: cut <= k < |joined| ==> !EndsLine(joined[k])
    {
      cut := cut - 1;
    }
  }

  lemma {:induction false} ReplayPlain(line: string, runes: string, cut: nat)
    requires cut <= |runes| && forall k :: cut <= k < |runes| ==> !EndsLine(runes[k])
    ensures ReplayRunes(line, runes) == ReplayRunes(line, runes[..cut]) + runes[cut..]
    decreases |runes|
  {
    if cut == |runes| {
      assert runes[..cut] == runes;
    } else {
      var n := |runes| - 1;
      ReplayPlain(line, runes[..n], cut);
      assert runes[..n][..cut] == runes[..cut];
      assert runes[cut..] == runes[..n][cut..] + [runes[n]];
    }
  }

  /** The part of the line that was there before the dispatch. */
  function Base(line: string, endsLine: bool, overflow: nat): string
  {
    if endsLine then "" else Trim(line, overflow)
  }

  lemma OneMoreKey(line: string, keys: seq<string>, i: nat, prints: Printing)
    requires i < |keys|
    ensures Replay(line, keys[..i + 1], prints) == Pressed(Replay(line, keys[..i], prints), PressOf(keys[i], prints))
    ensures Modelled(keys[..i + 1], prints) <==> Modelled(keys[..i], prints) && !PressOf(keys[i], prints).Unmodelled?
  {
    assert keys[..i + 1][..i] == keys[..i] && keys[..i + 1][i] == keys[i];
  }

  lemma ErasesBefore(line: string, endsLine: bool, overflow: nat)
    ensures DropLast(Base(line, endsLine, overflow) + "") == Base(line, endsLine, overflow + 1) + ""
  {
    TrimOne(line, overflow);
    assert Base(line, endsLine, overflow) + "" == Base(line, endsLine, overflow);
  }

  lemma ErasesTyped(base: string, typed: string)
    requires typed != ""
    ensures DropLast(base + typed) == base + DropLast(typed)
  {
  }

  /** For keys whose effect is modelled, or literal text, what the summary makes of any line is
      what typing them one at a time makes of it. A dispatch that holds any other key is
      reported as nothing. */
  method WillType(keys: seq<string>, literal: bool, prints: Printing) returns (s: Summary)
    ensures forall line :: Applied(line, s) == Taken(line, keys, literal, prints)
    ensures s.endsLine ==> s.text == "" && s.overflow == 0
    ensures !literal && !Modelled(keys, prints) ==> s == NOTHING
  {
    if literal {
      s := WillTypeLiteral(keys);
      return;
    }
    hide PressOf, Trim, Base, Modelled, Replay;
    var typed, endsLine, overflow := "", false, 0;
    ReplayStarts(keys, prints);
    for i := 0 to |keys|
      invariant Modelled(keys[..i], prints)
      invariant forall line :: Replay(line, keys[..i], prints) == Base(line, endsLine, overflow) + typed
    {
      var key := keys[i];
      ghost var press := PressOf(key, prints);
      Pressing(key, prints);
      forall line
        ensures Replay(line, keys[..i + 1], prints) == Pressed(Base(line, endsLine, overflow) + typed, press)
      {
        OneMoreKey(line, keys, i, prints);
      }
      OneMoreKey("", keys, i, prints);
      if key in SUBMIT_KEYS || key in KILL_KEYS {
        endsLine, typed, overflow := true, "", 0;
        LineEnded();
        continue;
      }
      if key in ERASE_KEYS {
        if typed == "" {
          forall line { ErasesBefore(line, endsLine, overflow); }
          overflow := overflow + 1;
        } else {
          forall line { ErasesTyped(Base(line, endsLine, overflow), typed); }
          typed := DropLastRune(typed);
        }
        continue;
      }
      if key == "DC" { continue; }
      if key == "Space" {
        key := " ";
      } else if |key| != 1 || !prints(key[0]) {
        if Modelled(keys, prints) { ModelledPrefix(keys, i + 1, prints); }
        NothingApplies();
        return NOTHING;
      }
      forall line { TypesOne(Base(line, endsLine, overflow), typed, key); }
      typed := typed + key;
    }
    assert keys[..|keys|] == keys;
    s := if endsLine then Summary("", typed, true, 0) else Summary(typed, "", false, overflow);
    forall line ensures Applied(line, s) == Base(line, endsLine, overflow) + typed {
      SummaryApplies(line, s, endsLine, overflow, typed);
    }
  }

  method WillTypeLiteral(keys: seq<string>) returns (s: Summary)
    ensures forall line :: Applied(line, s) == ReplayRunes(line, Join(keys))
    ensures s.endsLine ==> s.text == "" && s.overflow == 0
  {
    hide Join;
    var joined := JoinKeys(keys);
    var cut := AfterLastBreak(joined);
    forall line ensures ReplayRunes(line, joined) == if cut > 0 then joined[cut..] else line + joined {
      ReplayPlain(line, joined, cut);
      if cut > 0 {
        assert joined[..cut][..cut - 1] == joined[..cut - 1];
        assert "" + joined[cut..] == joined[cut..];
      }
    }
    return if cut > 0 then Summary("", joined[cut..], true, 0) else Summary(joined, "", false, 0);
  }

  lemma Pressing(key: string, prints: Printing)
    ensures var press := PressOf(key, prints);
      && (press.Ends? <==> key in SUBMIT_KEYS || key in KILL_KEYS)
      && (press.Erases? <==> key in ERASE_KEYS)
      && (press.Keeps? <==> key == "DC")
      && (press.Types? ==> if key == "Space" then press.rune == ' ' else key == [press.rune] && prints(key[0]))
      && (press.Unmodelled? <==> key !in SUBMIT_KEYS && key !in KILL_KEYS && key !in ERASE_KEYS && key != "DC"
                                 && key != "Space" && (|key| != 1 || !prints(key[0])))
  {
  }

  lemma ReplayStarts(keys: seq<string>, prints: Printing)
    ensures Modelled(keys[..0], prints)
    ensures forall line :: Replay(line, keys[..0], prints) == Base(line, false, 0) + ""
  {
  }

  lemma LineEnded()
    ensures forall line :: Base(line, true, 0) + "" == ""
  {
  }

  lemma NothingApplies()
    ensures forall line :: Applied(line, NOTHING) == line
  {
    forall line ensures Applied(line, NOTHING) == line { assert Trim(line, 0) + "" == line; }
  }

  lemma TypesOne(base: string, typed: string, key: string)
    requires |key| == 1
    ensures (base + typed) + [key[0]] == base + (typed + key)
  {
  }

  lemma SummaryApplies(line: string, s: Summary, endsLine: bool, overflow: nat, typed: string)
    requires s == if endsLine then Summary("", typed, true, 0) else Summary(typed, "", false, overflow)
    ensures Applied(line, s) == Base(line, endsLine, overflow) + typed
  {
    assert "" + typed == typed;
  }

  method JoinKeys(keys: seq<string>) returns (joined: string)
    ensures joined == Join(keys)
  {
    joined := "";
    for i := 0 to |keys|
      invariant joined == Join(keys[..i])
    {
      joined := joined + keys[i];
      assert keys[..i + 1][..i] == keys[..i];
    }
    assert keys[..|keys|] == keys;
  }

  // ---------------------------------------------------------------- pending lines

  type Pane = string

  /** The pending text of each pane; a pane with none is absent. */
  type Lines = m: map<Pane, string> | forall p :: p in m ==> m[p] != "" witness map[]

  function Of(m: Lines, pane: Pane): string { if pane in m then m[pane] else "" }

  function With(m: Lines, pane: Pane, text: string): Lines
  {
    if text == "" then m - {pane} else m[pane := text]
  }

  lemma OfWith(m: Lines, pane: Pane, text: string)
    ensures forall p :: Of(With(m, pane, text), p) == if p == pane then text else Of(m, p)
  {
  }

  lemma OnePaneMore(panes: seq<Pane>, i: nat)
    requires i < |panes|
    ensures forall p :: p in panes[..i + 1] <==> p in panes[..i] || p == panes[i]
    ensures DistinctPanes(panes) ==> panes[i] !in panes[..i]
    ensures panes[..|panes|] == panes
  {
    assert panes[..i + 1] == panes[..i] + [panes[i]];
  }

  predicate DistinctPanes(panes: seq<Pane>) { forall i, j :: 0 <= i < j < |panes| ==> panes[i] != panes[j] }

  class PendingLines {
    var byPane: Lines

    constructor ()
      ensures byPane == map[]
    {
      byPane := map[];
    }

    method ApplyDelta(pane: Pane, overflow: nat, text: string) returns (was: string)
      modifies this
      ensures was == Of(old(byPane), pane) && byPane == With(old(byPane), pane, Trim(was, overflow) + text)
    {
      was := Of(byPane, pane);
      var trimmed := TrimTrailingRunes(was, overflow);
      var next := trimmed + text;
      if next == "" {
        byPane := byPane - {pane};
        return;
      }
      byPane := byPane[pane := next];
    }

    method Clear(pane: Pane)
      modifies this
      ensures byPane == With(old(byPane), pane, "")
    {
      byPane := byPane - {pane};
    }

    method Restore(pane: Pane, text: string)
      modifies this
      ensures byPane == With(old(byPane), pane, text)
    {
      if text == "" {
        byPane := byPane - {pane};
        return;
      }
      byPane := byPane[pane := text];
    }

    /** previous is what RestoreAll puts back. */
    method Record(panes: seq<Pane>, overflow: nat, text: string) returns (previous: map<Pane, string>)
      modifies this
      ensures overflow == 0 && text == "" ==> byPane == old(byPane) && previous == map[]
      ensures overflow > 0 || text != "" ==> previous.Keys == set p | p in panes
      ensures DistinctPanes(panes) ==>
                && (forall p :: p in previous ==> previous[p] == Of(old(byPane), p))
                && (forall p :: Of(byPane, p) == if p in panes then Trim(Of(old(byPane), p), overflow) + text
                                                 else Of(old(byPane), p))
    {
      hide Trim, With, Of, DistinctPanes;
      previous := map[];
      if overflow == 0 && text == "" {
        forall p { NothingRecorded(Of(byPane, p)); }
        return;
      }
      for i := 0 to |panes|
        invariant previous.Keys == set p | p in panes[..i]
        invariant DistinctPanes(panes) ==> forall p :: p in previous ==> previous[p] == Of(old(byPane), p)
        invariant DistinctPanes(panes) ==>
                    forall p :: Of(byPane, p) == if p in panes[..i] then Trim(Of(old(byPane), p), overflow) + text
                                                 else Of(old(byPane), p)
      {
        OnePaneMore(panes, i);
        ghost var before := byPane;
        var was := ApplyDelta(panes[i], overflow, text);
        OfWith(before, panes[i], Trim(was, overflow) + text);
        previous := previous[panes[i] := was];
      }
      assert panes[..|panes|] == panes;
    }

    method RestoreAll(previous: map<Pane, string>)
      modifies this
      ensures forall p :: Of(byPane, p) == if p in previous then previous[p] else Of(old(byPane), p)
    {
      hide Of, With;
      var left := previous.Keys;
      while left != {}
        invariant left <= previous.Keys
        invariant forall p :: Of(byPane, p) == if p in previous && p !in left then previous[p] else Of(old(byPane), p)
        decreases |left|
      {
        var id :| id in left;
        OfWith(byPane, id, previous[id]);
        Restore(id, previous[id]);
        left := left - {id};
      }
    }

    method ClearAll(panes: seq<Pane>)
      modifies this
      ensures forall p :: Of(byPane, p) == if p in panes then "" else Of(old(byPane), p)
    {
      for i := 0 to |panes|
        invariant forall p :: Of(byPane, p) == if p in panes[..i] then "" else Of(old(byPane), p)
      {
        Clear(panes[i]);
        assert panes[..i + 1] == panes[..i] + [panes[i]];
      }
      assert panes[..|panes|] == panes;
    }

    /** One dispatch with no other at work on its panes: record, send, and settle. accepted
        tells whether tmux took the keys and enterAccepted whether it took a separate Enter. */
    method SendKeys(panes: seq<Pane>, keys: seq<string>, literal: bool, enter: bool, prints: Printing,
        accepted: bool, enterAccepted: bool)
      requires DistinctPanes(panes)
      modifies this
      ensures forall p :: p !in panes ==> Of(byPane, p) == Of(old(byPane), p)
      ensures forall p :: p in panes ==>
                Of(byPane, p) == if !accepted then Of(old(byPane), p)
                                 else if enter && enterAccepted then ""
                                 else Taken(Of(old(byPane), p), keys, literal, prints)
    {
      hide Taken, Trim, Of;
      var s := WillType(keys, literal, prints);
      var previous := Record(panes, s.overflow, s.text);
      if !accepted {
        RestoreAll(previous);
        return;
      }
      if s.endsLine {
        ClearAll(panes);
        var _ := Record(panes, 0, s.afterEnd);
        forall p { AfterEndIsAll(p, s); }
      }
      if enter && enterAccepted { ClearAll(panes); }
    }
  }

  lemma NothingRecorded(line: string)
    ensures Trim(line, 0) + "" == line
  {
  }

  lemma AfterEndIsAll(line: string, s: Summary)
    ensures Trim("", 0) + s.afterEnd == s.afterEnd
    ensures s.endsLine ==> Applied(line, s) == s.afterEnd
  {
  }
}
