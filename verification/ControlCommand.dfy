/** The command line a control client writes, and how tmux reads it back. */
module ControlCommand {
  import opened Bytes

  datatype Result<+T> = Ok(value: T) | Err(reason: string)

  const EMPTY_COMMAND := "must not be empty"
  const CONTAINS_NUL := "contains NUL, which tmux cannot represent"

  predicate Printable(c: char) { ' ' <= c <= '~' }

  /** A byte that stays as it is between single quotes. */
  predicate Plain(c: byte) { Printable(c) && c != '\'' }

  function OctalDigit(d: nat): (c: char)
    requires d < 8
    ensures '0' <= c <= '7' && c as int == '0' as int + d
  {
    ('0' as int + d) as char
  }

  /** The three octal digits of a byte, behind a backslash. */
  function Escape(c: byte): (s: string)
    ensures |s| == 4
  {
    ['\\', OctalDigit(c as int / 64), OctalDigit(c as int / 8 % 8), OctalDigit(c as int % 8)]
  }

  /** A byte written outside quotes. */
  function Bare(c: byte): string { if c == '\'' then "\"'\"" else Escape(c) }

  /** One byte, with the quote it opens or closes. */
  function EncodeHead(c: byte, quoted: bool): string
  {
    if Plain(c) then (if quoted then [c] else ['\'', c]) else (if quoted then "'" else "") + Bare(c)
  }

  /** What the rest of an argument is written as; `quoted` says a single quote is open. */
  function EncodeRest(argument: bytes, quoted: bool): string
  {
    if argument == [] then (if quoted then "'" else "")
    else EncodeHead(argument[0], quoted) + EncodeRest(argument[1..], Plain(argument[0]))
  }

  function EncodeArgument(argument: bytes, commandList: bool): string
  {
    if commandList && argument == ";" then ";"
    else if argument == [] then "''"
    else EncodeRest(argument, false)
  }

  function EncodeAll(arguments: seq<bytes>, commandList: bool): string
  {
    if arguments == [] then ""
    else
      var last := |arguments| - 1;
      var argument := EncodeArgument(arguments[last], commandList);
      if last == 0 then argument else EncodeAll(arguments[..last], commandList) + " " + argument
  }

  predicate HasNul(arguments: seq<bytes>)
  {
    exists i :: 0 <= i < |arguments| && '\0' in arguments[i]
  }

  function Encode(arguments: seq<bytes>, commandList: bool): Result<string>
  {
    if arguments == [] || arguments[0] == [] then Err(EMPTY_COMMAND)
    else if HasNul(arguments) then Err(CONTAINS_NUL)
    else Ok(EncodeAll(arguments, commandList))
  }

  /** Writes one byte, opening or closing the quote it needs. */
  method WriteByte(before: string, value: byte, open: bool) returns (encoded: string, quoted: bool)
    ensures encoded == before + EncodeHead(value, open) && quoted == Plain(value)
  {
    encoded, quoted := before, open;
    if Plain(value) {
      if !quoted {
        encoded := encoded + "'";
        quoted := true;
      }
      encoded := encoded + [value];
    } else {
      if quoted {
        encoded := encoded + "'";
        quoted := false;
      }
      encoded := encoded + Bare(value);
    }
  }

  /** Writes one argument a byte at a time, keeping an open quote across plain bytes. */
  method WriteQuoted(before: string, argument: bytes) returns (encoded: string)
    ensures encoded == before + EncodeRest(argument, false)
  {
    encoded := before;
    var quoted := false;
    for offset := 0 to |argument|
      invariant encoded + EncodeRest(argument[offset..], quoted) == before + EncodeRest(argument, false)
    {
      var value := argument[offset];
      assert argument[offset..][1..] == argument[offset + 1..];
      Associative(encoded, EncodeHead(value, quoted), EncodeRest(argument[offset + 1..], Plain(value)));
      encoded, quoted := WriteByte(encoded, value, quoted);
    }
    if quoted { encoded := encoded + "'"; }
  }

  method EncodeControlCommand(arguments: seq<bytes>, commandList: bool) returns (result: Result<string>)
    ensures result == Encode(arguments, commandList)
  {
    hide EncodeRest;
    if |arguments| == 0 || arguments[0] == [] { return Err(EMPTY_COMMAND); }
    var encoded := "";
    for index := 0 to |arguments|
      invariant encoded == EncodeAll(arguments[..index], commandList)
      invariant forall i :: 0 <= i < index ==> '\0' !in arguments[i]
    {
      var argument := arguments[index];
      assert arguments[..index + 1][..index] == arguments[..index];
      if '\0' in argument { return Err(CONTAINS_NUL); }
      if index != 0 { encoded := encoded + " "; }
      ghost var before := encoded;
      if commandList && argument == ";" {
        encoded := encoded + ";";
      } else if argument == [] {
        encoded := encoded + "''";
      } else {
        encoded := WriteQuoted(encoded, argument);
      }
      assert encoded == before + EncodeArgument(argument, commandList);
    }
    assert arguments[..|arguments|] == arguments;
    return Ok(encoded);
  }

  // ---------------------------------------------------------------- tmux's reader

  /** A word of the command, or the bare semicolon between two commands of a list. */
  datatype Token = Word(text: bytes) | Separator

  datatype Mode = Between | Unquoted | SingleQuoted | DoubleQuoted

  function Octal(s: string): (r: Result<byte>)
  {
    if |s| == 3 && '0' <= s[0] <= '3' && '0' <= s[1] <= '7' && '0' <= s[2] <= '7'
    then Ok(((s[0] as int - '0' as int) * 64 + (s[1] as int - '0' as int) * 8 + (s[2] as int - '0' as int)) as char)
    else Err("not a byte in octal")
  }

  function Emit(tokens: seq<Token>, mode: Mode, word: bytes): seq<Token>
  {
    if mode == Between then tokens else tokens + [Word(word)]
  }

  /** tmux's reading of one line: single quotes are literal, double quotes are literal for
      the one character the encoder puts there, a backslash outside quotes starts three
      octal digits, spaces end words and a bare semicolon separates commands. */
  function Read(line: string, mode: Mode, word: bytes, tokens: seq<Token>): (r: Result<seq<Token>>)
    decreases |line|
  {
    if line == "" then
      if mode == SingleQuoted || mode == DoubleQuoted then Err("unterminated quote")
      else Ok(Emit(tokens, mode, word))
    else
      var c, rest := line[0], line[1..];
      if c as int >= 256 then Err("not a byte")
      else if mode == SingleQuoted then
        if c == '\'' then Read(rest, Unquoted, word, tokens) else Read(rest, mode, word + [c], tokens)
      else if mode == DoubleQuoted then
        if c == '"' then Read(rest, Unquoted, word, tokens)
        else if c == '\'' then Read(rest, mode, word + [c], tokens)
        else Err("not read here")
      else if c == ' ' then Read(rest, Between, [], Emit(tokens, mode, word))
      else if c == '\'' then Read(rest, SingleQuoted, word, tokens)
      else if c == '"' then Read(rest, DoubleQuoted, word, tokens)
      else if c == ';' then Read(rest, Between, [], Emit(tokens, mode, word) + [Separator])
      else if c == '\\' then
        if |rest| < 3 then Err("incomplete escape")
        else
          match Octal(rest[..3])
          case Err(e) => Err(e)
          case Ok(b) => Read(rest[3..], Unquoted, word + [b], tokens)
      else Err("not read here")
  }

  /** The token an argument of the vector stands for. */
  function TokenOf(argument: bytes, commandList: bool): Token
  {
    if commandList && argument == ";" then Separator else Word(argument)
  }

  function TokensOf(arguments: seq<bytes>, commandList: bool): seq<Token>
  {
    seq(|arguments|, i requires 0 <= i < |arguments| => TokenOf(arguments[i], commandList))
  }

  lemma EscapeReadsBack(c: byte, line: string, word: bytes, tokens: seq<Token>)
    ensures Read(Escape(c) + line, Unquoted, word, tokens) == Read(line, Unquoted, word + [c], tokens)
    ensures Read(Escape(c) + line, Between, word, tokens) == Read(line, Unquoted, word + [c], tokens)
  {
    var all := Escape(c) + line;
    assert all[1..][..3] == Escape(c)[1..];
    assert all[1..][3..] == line;
    assert Octal(all[1..][..3]) == Ok(c) by { OctalInverse(c as int); }
  }

  lemma OctalInverse(n: nat)
    requires n < 256
    ensures n / 64 < 4 && n / 64 * 64 + n / 8 % 8 * 8 + n % 8 == n
  {
  }

  lemma BareReadsBack(c: byte, line: string, mode: Mode, word: bytes, tokens: seq<Token>)
    requires mode == Unquoted || mode == Between
    ensures Read(Bare(c) + line, mode, word, tokens) == Read(line, Unquoted, word + [c], tokens)
  {
    if c == '\'' {
      var all := "\"'\"" + line;
      assert all[1..][1..][1..] == line;
      assert Read(all, mode, word, tokens) == Read(all[1..], DoubleQuoted, word, tokens);
      assert Read(all[1..], DoubleQuoted, word, tokens) == Read(all[1..][1..], DoubleQuoted, word + [c], tokens);
    } else {
      EscapeReadsBack(c, line, word, tokens);
    }
  }

  /** Opening or closing a single quote adds nothing to the word. */
  lemma QuoteReadsBack(line: string, mode: Mode, word: bytes, tokens: seq<Token>)
    requires mode != DoubleQuoted
    ensures Read("'" + line, mode, word, tokens)
         == Read(line, if mode == SingleQuoted then Unquoted else SingleQuoted, word, tokens)
  {
    assert ("'" + line)[1..] == line;
  }

  lemma PlainReadsBack(c: byte, line: string, word: bytes, tokens: seq<Token>)
    requires Plain(c)
    ensures Read([c] + line, SingleQuoted, word, tokens) == Read(line, SingleQuoted, word + [c], tokens)
  {
    assert ([c] + line)[1..] == line;
  }

  lemma HeadReadsBack(c: byte, quoted: bool, tail: string, mode: Mode, word: bytes, tokens: seq<Token>)
    requires if quoted then mode == SingleQuoted else mode == Unquoted || mode == Between
    ensures Read(EncodeHead(c, quoted) + tail, mode, word, tokens)
         == Read(tail, if Plain(c) then SingleQuoted else Unquoted, word + [c], tokens)
  {
    if Plain(c) {
      PlainReadsBack(c, tail, word, tokens);
      if !quoted {
        assert ['\'', c] + tail == "'" + ([c] + tail);
        QuoteReadsBack([c] + tail, mode, word, tokens);
      }
    } else if quoted {
      Associative("'", Bare(c), tail);
      QuoteReadsBack(Bare(c) + tail, mode, word, tokens);
      BareReadsBack(c, tail, Unquoted, word, tokens);
    } else {
      assert "" + Bare(c) == Bare(c);
      BareReadsBack(c, tail, mode, word, tokens);
    }
  }

  /** Reading the rest of an argument adds exactly its bytes to the word being read. */
  lemma {:induction false} RestReadsBack(argument: bytes, quoted: bool, line: string, mode: Mode, word: bytes, tokens: seq<Token>)
    requires if quoted then mode == SingleQuoted else mode == Unquoted || (mode == Between && argument != [])
    ensures Read(EncodeRest(argument, quoted) + line, mode, word, tokens)
         == Read(line, Unquoted, word + argument, tokens)
    decreases |argument|
  {
    if argument == [] {
      assert word + argument == word;
      assert "" + line == line;
      if quoted { QuoteReadsBack(line, mode, word, tokens); }
    } else {
      var c, rest := argument[0], argument[1..];
      var plain := Plain(c);
      var encoded := EncodeRest(rest, plain);
      RestReadsBack(rest, plain, line, if plain then SingleQuoted else Unquoted, word + [c], tokens);
      assert word + argument == word + [c] + rest;
      Associative(EncodeHead(c, quoted), encoded, line);
      HeadReadsBack(c, quoted, encoded + line, mode, word, tokens);
    }
  }

  /** A word ends at the end of the line or at a space. */
  lemma WordEnds(line: string, word: bytes, tokens: seq<Token>)
    requires line == "" || line[0] == ' '
    ensures Read(line, Unquoted, word, tokens) == After(line, tokens + [Word(word)])
  {
  }

  lemma SemicolonReadsBack(line: string, tokens: seq<Token>)
    requires line == "" || line[0] == ' '
    ensures Read(";" + line, Between, [], tokens) == After(line, tokens + [Separator])
  {
    assert (";" + line)[1..] == line;
  }

  lemma ArgumentReadsBack(argument: bytes, commandList: bool, line: string, tokens: seq<Token>)
    requires line == "" || line[0] == ' '
    ensures Read(EncodeArgument(argument, commandList) + line, Between, [], tokens)
         == After(line, tokens + [TokenOf(argument, commandList)])
  {
    hide Read, EncodeRest, After;
    if commandList && argument == ";" {
      SemicolonReadsBack(line, tokens);
    } else if argument == [] {
      assert "''" + line == "'" + ("'" + line);
      QuoteReadsBack("'" + line, Between, [], tokens);
      QuoteReadsBack(line, SingleQuoted, [], tokens);
      WordEnds(line, [], tokens);
    } else {
      RestReadsBack(argument, false, line, Between, [], tokens);
      assert [] + argument == argument;
      WordEnds(line, argument, tokens);
    }
  }

  /** What is read once a word has ended at the end of the line or at a space. */
  function After(line: string, tokens: seq<Token>): Result<seq<Token>>
  {
    if line == "" then Ok(tokens) else Read(line[1..], Between, [], tokens)
  }

  lemma {:induction false} AllReadsBack(arguments: seq<bytes>, commandList: bool, line: string)
    requires arguments != [] && (line == "" || line[0] == ' ')
    ensures Read(EncodeAll(arguments, commandList) + line, Between, [], [])
         == After(line, TokensOf(arguments, commandList))
    decreases |arguments|
  {
    var last := |arguments| - 1;
    var before, final := arguments[..last], EncodeArgument(arguments[last], commandList);
    TokensOfLast(arguments, commandList);
    ArgumentReadsBack(arguments[last], commandList, line, TokensOf(before, commandList));
    if last != 0 {
      var rest := " " + (final + line);
      Spaced(EncodeAll(before, commandList), final, line);
      AllReadsBack(before, commandList, rest);
    }
  }

  lemma Spaced(before: string, final: string, line: string)
    ensures before + " " + final + line == before + (" " + (final + line))
    ensures (" " + (final + line))[1..] == final + line
  {
  }

  lemma TokensOfLast(arguments: seq<bytes>, commandList: bool)
    requires arguments != []
    ensures TokensOf(arguments, commandList)
         == TokensOf(arguments[..|arguments| - 1], commandList) + [TokenOf(arguments[|arguments| - 1], commandList)]
    ensures |arguments| == 1 ==> TokensOf(arguments[..0], commandList) == []
  {
  }

  predicate OneLine(s: string) { forall i :: 0 <= i < |s| ==> Printable(s[i]) }

  lemma {:induction false} RestIsOneLine(argument: bytes, quoted: bool)
    ensures OneLine(EncodeRest(argument, quoted))
    decreases |argument|
  {
    if argument != [] {
      RestIsOneLine(argument[1..], Plain(argument[0]));
    }
  }

  lemma {:induction false} AllIsOneLine(arguments: seq<bytes>, commandList: bool)
    ensures OneLine(EncodeAll(arguments, commandList))
    decreases |arguments|
  {
    if arguments != [] {
      var last := |arguments| - 1;
      AllIsOneLine(arguments[..last], commandList);
      RestIsOneLine(arguments[last], false);
    }
  }

  /** Every argument vector tmux can represent survives the wire: the line is printable
      ASCII, so it is one line, and tmux reads the original vector back from it, a bare
      semicolon being a separator only in a command list. Only an empty command and a NUL
      are refused. */
  lemma CommandReadsBack(arguments: seq<bytes>, commandList: bool)
    ensures var encoded := Encode(arguments, commandList);
            && (encoded.Ok? <==> arguments != [] && arguments[0] != [] && !HasNul(arguments))
            && (encoded.Ok? ==>
                  && OneLine(encoded.value) && Unbroken(encoded.value)
                  && Read(encoded.value, Between, [], []) == Ok(TokensOf(arguments, commandList)))
  {
    if arguments != [] {
      var line := EncodeAll(arguments, commandList);
      AllIsOneLine(arguments, commandList);
      AllReadsBack(arguments, commandList, "");
      assert line + "" == line;
      NoNewline(line);
    }
  }

  /** No two argument vectors are sent as the same line. */
  lemma EncodingIsInjective(left: seq<bytes>, right: seq<bytes>, commandList: bool)
    requires Encode(left, commandList).Ok? && Encode(left, commandList) == Encode(right, commandList)
    ensures left == right
  {
    CommandReadsBack(left, commandList);
    CommandReadsBack(right, commandList);
    var l, r := TokensOf(left, commandList), TokensOf(right, commandList);
    assert |left| == |l| == |r| == |right|;
    forall i | 0 <= i < |left|
      ensures left[i] == right[i]
    {
      assert l[i] == r[i];
    }
  }
}
