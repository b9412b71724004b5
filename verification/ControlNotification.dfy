/** Parsing of tmux control-mode notification records against a definition table. */
module ControlNotification {
  import opened Bytes

  datatype Tail = TailNone | TailRequired | TailOptional | TailColon

  datatype Definition = Definition(kind: string, prefixArguments: nat, tail: Tail, allowEmptyTail: bool)

  datatype Error = Malformed(offset: int, reason: string) | UnknownKind

  datatype Result<+T> = Ok(value: T) | Err(error: Error)

  datatype Output = NoOutput | Output(pane: string, data: string)

  datatype Notification = Notification(kind: string, arguments: seq<string>, output: Output)

  const OUTPUT: string := "%output"
  const EXTENDED_OUTPUT: string := "%extended-output"

  predicate CarriesOutput(kind: string) { kind == OUTPUT || kind == EXTENDED_OUTPUT }

  /** The generated table gives each output notification its pane as first argument. */
  predicate WellFormed(table: seq<Definition>)
  {
    forall i :: 0 <= i < |table| && CarriesOutput(table[i].kind) ==> table[i].prefixArguments >= 1
  }

  // ---------------------------------------------------------------- pane output

  predicate IsOctal(c: char) { '0' <= c <= '7' }

  function OctalValue(s: string): nat
    requires |s| == 3 && forall i :: 0 <= i < 3 ==> IsOctal(s[i])
  {
    var a, b, c := s[0] as int - '0' as int, s[1] as int - '0' as int, s[2] as int - '0' as int;
    assert IsOctal(s[0]) && IsOctal(s[1]) && IsOctal(s[2]);
    a * 64 + b * 8 + c
  }

  /** Where the first octal digit of an escape is not one, if it is not. */
  function BadDigit(s: string): (i: nat)
    requires |s| == 3
    ensures i <= 3 && (i == 3 <==> forall k :: 0 <= k < 3 ==> IsOctal(s[k]))
  {
    if !IsOctal(s[0]) then 0 else if !IsOctal(s[1]) then 1 else if !IsOctal(s[2]) then 2 else 3
  }

  /** What decoding gives once `before` has been decoded and the rest gives r. */
  function Prepend(before: string, r: Result<string>): Result<string>
  {
    if r.Err? then r else Ok(before + r.value)
  }

  /** The bytes an output tail stands for: a backslash and three octal digits are one
      byte, anything else is itself. Offsets in errors count from `base`. */
  function Decode(value: string, base: int): Result<string>
    decreases |value|
  {
    if value == "" then Ok("")
    else if value[0] != '\\' then Prepend(value[..1], Decode(value[1..], base + 1))
    else if |value| < 4 then Err(Malformed(base, "output escape is incomplete"))
    else if BadDigit(value[1..4]) < 3 then
      Err(Malformed(base + 1 + BadDigit(value[1..4]), "output escape is not three-digit octal"))
    else if OctalValue(value[1..4]) > 255 then Err(Malformed(base, "output escape exceeds one byte"))
    else Prepend([OctalValue(value[1..4]) as char], Decode(value[4..], base + 4))
  }

  lemma Prepended(before: string, next: string, r: Result<string>)
    ensures Prepend(before + next, r) == Prepend(before, Prepend(next, r))
    ensures Prepend("", r) == r
  {
    if r.Ok? {
      Associative(before, next, r.value);
      assert "" + r.value == r.value;
    }
  }

  /** The three digits of an escape, folded as they are read. */
  method DecodeDigits(digits: string, base: int) returns (result: Result<nat>)
    requires |digits| == 3
    ensures result == if BadDigit(digits) < 3
                      then Err(Malformed(base + BadDigit(digits), "output escape is not three-digit octal"))
                      else Ok(OctalValue(digits))
  {
    var decoded := 0;
    for offset := 0 to 3
      invariant forall k :: 0 <= k < offset ==> IsOctal(digits[k])
      invariant offset == 0 ==> decoded == 0
      invariant offset == 1 ==> decoded == digits[0] as int - '0' as int
      invariant offset == 2 ==> decoded == (digits[0] as int - '0' as int) * 8 + (digits[1] as int - '0' as int)
      invariant offset == 3 ==> decoded == OctalValue(digits)
    {
      var digit := digits[offset];
      if digit < '0' || digit > '7' {
        return Err(Malformed(base + offset, "output escape is not three-digit octal"));
      }
      decoded := decoded * 8 + (digit as int - '0' as int);
    }
    return Ok(decoded);
  }

  method DecodeControlOutput(value: string, base: int) returns (result: Result<string>)
    ensures result == Decode(value, base)
  {
    var output := "";
    var offset := 0;
    Prepended("", "", Decode(value, base));
    assert value[0..] == value;
    while offset < |value|
      invariant offset <= |value|
      invariant Decode(value, base) == Prepend(output, Decode(value[offset..], base + offset))
    {
      ghost var rest := value[offset..];
      if value[offset] != '\\' {
        assert rest[1..] == value[offset + 1..] && rest[..1] == [value[offset]];
        Prepended(output, [value[offset]], Decode(rest[1..], base + offset + 1));
        output := output + [value[offset]];
        offset := offset + 1;
      } else {
        if offset + 4 > |value| {
          return Err(Malformed(base + offset, "output escape is incomplete"));
        }
        assert rest[1..4] == value[offset + 1..offset + 4] && rest[4..] == value[offset + 4..];
        var decoded := DecodeDigits(value[offset + 1..offset + 4], base + offset + 1);
        if decoded.Err? { return Err(decoded.error); }
        if decoded.value > 0xff {
          return Err(Malformed(base + offset, "output escape exceeds one byte"));
        }
        Prepended(output, [decoded.value as char], Decode(rest[4..], base + offset + 4));
        output := output + [decoded.value as char];
        offset := offset + 4;
      }
    }
    assert output + "" == output;
    return Ok(output);
  }

  function Octal(c: byte): (s: string)
    ensures |s| == 3 && forall i :: 0 <= i < 3 ==> IsOctal(s[i])
  {
    [('0' as int + c as int / 64) as char, ('0' as int + c as int / 8 % 8) as char, ('0' as int + c as int % 8) as char]
  }

  /** An encoder's choice, byte by byte: escape it, or leave it raw. A backslash has no raw form. */
  function EncodeOutput(data: bytes, escaped: seq<bool>): string
    requires |data| == |escaped|
  {
    if data == [] then []
    else (if escaped[0] || data[0] == '\\' then ['\\'] + Octal(data[0]) else [data[0]])
         + EncodeOutput(data[1..], escaped[1..])
  }

  lemma OctalInverse(c: byte)
    ensures OctalValue(Octal(c)) == c as int && BadDigit(Octal(c)) == 3
  {
    assert c as int / 64 * 64 + c as int / 8 % 8 * 8 + c as int % 8 == c as int;
  }

  lemma {:induction false} DecodeInvertsEncode(data: bytes, escaped: seq<bool>, base: int)
    requires |data| == |escaped|
    ensures Decode(EncodeOutput(data, escaped), base) == Ok(data)
  {
    if data != [] {
      var c := data[0];
      var value, rest := EncodeOutput(data, escaped), EncodeOutput(data[1..], escaped[1..]);
      assert [c] + data[1..] == data;
      if escaped[0] || c == '\\' {
        DecodeInvertsEncode(data[1..], escaped[1..], base + 4);
        assert value[1..4] == Octal(c) && value[4..] == rest;
        OctalInverse(c);
      } else {
        DecodeInvertsEncode(data[1..], escaped[1..], base + 1);
        assert value[..1] == [c] && value[1..] == rest;
      }
    }
  }

  predicate IsBytes(s: string) { forall i :: 0 <= i < |s| ==> s[i] as int < 256 }

  /** Everything decoded was written by such an encoder: the choices are recovered too. */
  lemma {:induction false} DecodedWasEncoded(value: string, base: int) returns (escaped: seq<bool>)
    requires IsBytes(value) && Decode(value, base).Ok?
    ensures IsBytes(Decode(value, base).value) && |escaped| == |Decode(value, base).value|
    ensures EncodeOutput(Decode(value, base).value, escaped) == value
    decreases |value|
  {
    if value == "" {
      escaped := [];
    } else if value[0] != '\\' {
      escaped := DecodedWasEncoded(value[1..], base + 1);
      var rest: bytes := Decode(value[1..], base + 1).value;
      assert (value[..1] + rest)[1..] == rest;
      escaped := [false] + escaped;
      assert escaped[1..] == escaped[1..];
    } else {
      escaped := DecodedWasEncoded(value[4..], base + 4);
      var n := OctalValue(value[1..4]);
      OctalDigits(value[1..4]);
      assert value == ['\\'] + value[1..4] + value[4..];
      assert Octal(n as char) == value[1..4];
      var rest: bytes := Decode(value[4..], base + 4).value;
      assert ([n as char] + rest)[1..] == rest;
      escaped := [true] + escaped;
    }
  }

  lemma OctalDigits(s: string)
    requires |s| == 3 && (forall i :: 0 <= i < 3 ==> IsOctal(s[i])) && OctalValue(s) < 256
    ensures var n := OctalValue(s);
            && n / 64 == s[0] as int - '0' as int
            && n / 8 % 8 == s[1] as int - '0' as int
            && n % 8 == s[2] as int - '0' as int
  {
  }

  /** An output tail decodes to `data` exactly when some encoder that writes a backslash as
      \134 and each other byte raw or as \ooo wrote it for `data`. */
  lemma DecodeIsTheInverse(value: bytes, data: bytes, base: int)
    ensures Decode(value, base) == Ok(data)
       <==> exists escaped: seq<bool> :: |escaped| == |data| && EncodeOutput(data, escaped) == value
  {
    if Decode(value, base) == Ok(data) {
      var escaped := DecodedWasEncoded(value, base);
    }
    forall escaped: seq<bool> | |escaped| == |data| && EncodeOutput(data, escaped) == value
      ensures Decode(value, base) == Ok(data)
    {
      DecodeInvertsEncode(data, escaped, base);
    }
  }

  // ---------------------------------------------------------------- records

  predicate IsFraming(c: char) { c == '\0' || c == '\r' || c == '\n' }

  function FirstFraming(s: string): (i: nat)
    ensures i <= |s|
  {
    if s == "" || IsFraming(s[0]) then 0 else 1 + FirstFraming(s[1..])
  }

  predicate IsLetter(c: char) { 'a' <= c <= 'z' }

  /** Where a kind stops being lower-case words joined by single hyphens, or |kind|. */
  function KindEnds(kind: string, offset: nat, previousHyphen: bool): (i: nat)
    requires offset <= |kind| && (previousHyphen ==> offset >= 1)
    ensures i <= |kind|
    decreases |kind| - offset
  {
    if offset == |kind| then (if previousHyphen then |kind| - 1 else |kind|)
    else if IsLetter(kind[offset]) || IsDigit(kind[offset]) then KindEnds(kind, offset + 1, false)
    else if kind[offset] != '-' || previousHyphen then offset
    else KindEnds(kind, offset + 1, true)
  }

  lemma {:induction false} KindIsSpaceless(kind: string, offset: nat, previousHyphen: bool)
    requires offset <= |kind| && (previousHyphen ==> offset >= 1)
    requires KindEnds(kind, offset, previousHyphen) == |kind|
    ensures Spaceless(kind[offset..])
    decreases |kind| - offset
  {
    if offset < |kind| {
      KindIsSpaceless(kind, offset + 1, kind[offset] == '-');
      assert kind[offset..][1..] == kind[offset + 1..];
    }
  }

  /** -1 for a well-formed kind, else the offset of what is wrong with it. */
  function MalformedKind(kind: string): (i: int)
  {
    if |kind| < 2 || kind[0] != '%' || !IsLetter(kind[1]) then (if |kind| < 1 then |kind| else 1)
    else
      var i := KindEnds(kind, 2, false);
      if i == |kind| then -1 else i
  }

  lemma WellFormedKind(kind: string)
    requires MalformedKind(kind) == -1
    ensures kind != "" && kind[0] == '%' && Spaceless(kind)
  {
    KindIsSpaceless(kind, 2, false);
    assert kind[1..][1..] == kind[2..];
  }

  function Lookup(table: seq<Definition>, kind: string): (found: Result<Definition>)
    ensures found.Ok? ==> found.value.kind == kind && found.value in table
    ensures found.Err? ==> found.error == UnknownKind
  {
    if table == [] then Err(UnknownKind)
    else if table[0].kind == kind then Ok(table[0])
    else Lookup(table[1..], kind)
  }

  datatype Prefix = Prefix(arguments: seq<string>, rest: string)

  datatype Cut = Cut(field: string, rest: string)

  /** The argument `text` starts with, behind its space, and what follows it. */
  function CutField(text: string, at: int): (r: Result<Cut>)
    ensures r.Ok? ==> |r.value.field| + |r.value.rest| + 1 == |text|
  {
    if text == "" then Err(Malformed(at, "required argument is missing"))
    else if text[0] != ' ' then Err(Malformed(at, "argument delimiter is missing"))
    else if |text| == 1 || text[1] == ' ' then Err(Malformed(at + 1, "required argument is empty"))
    else
      var end := 1 + IndexOf(text[1..], ' ');
      Ok(Cut(text[1..end], text[end..]))
  }

  /** The first `count` arguments of `text`, which lies at offset `at`, and what follows. */
  function PrefixOf(text: string, at: int, count: nat): (r: Result<Prefix>)
    ensures r.Ok? ==> |r.value.arguments| == count && |r.value.rest| <= |text|
    decreases count
  {
    if count == 0 then Ok(Prefix([], text))
    else
      match CutField(text, at)
      case Err(e) => Err(e)
      case Ok(cut) => Continue([cut.field], PrefixOf(cut.rest, at + 1 + |cut.field|, count - 1))
  }

  function Continue(before: seq<string>, r: Result<Prefix>): (c: Result<Prefix>)
    ensures c.Ok? == r.Ok?
  {
    if r.Err? then r else Ok(Prefix(before + r.value.arguments, r.value.rest))
  }

  lemma Continued(before: seq<string>, next: string, r: Result<Prefix>)
    ensures Continue(before + [next], r) == Continue(before, Continue([next], r))
    ensures Continue([], r) == r
  {
    if r.Ok? {
      assert before + [next] + r.value.arguments == before + ([next] + r.value.arguments);
      assert [] + r.value.arguments == r.value.arguments;
    }
  }

  lemma CutRender(text: string, at: int)
    requires CutField(text, at).Ok?
    ensures var cut := CutField(text, at).value; IsField(cut.field) && text == " " + cut.field + cut.rest
  {
    var i := IndexOf(text[1..], ' ');
    IndexOfTaken(text[1..], ' ');
    assert text[1..1 + i] == text[1..][..i];
    assert text == " " + text[1..1 + i] + text[1 + i..];
  }

  lemma CutReads(field: string, rest: string, at: int)
    requires IsField(field) && (rest == "" || rest[0] == ' ')
    ensures CutField(" " + field + rest, at) == Ok(Cut(field, rest))
  {
    var text := " " + field + rest;
    FieldEnds(field, rest);
    assert text[1..] == field + rest;
    assert text[1] == field[0];
    assert text[1..1 + |field|] == field && text[1 + |field|..] == rest;
  }

  const COLON := " : "

  /** The position of the first " : " in s, or |s|. */
  function IndexOfColon(s: string): (i: nat)
    ensures i <= |s| && (i < |s| ==> i + 2 < |s|)
  {
    if |s| < 3 then |s|
    else if s[0] == ' ' && s[1] == ':' && s[2] == ' ' then 0
    else if IndexOfColon(s[1..]) == |s| - 1 then |s|
    else 1 + IndexOfColon(s[1..])
  }

  lemma {:induction false} ColonIsThere(s: string)
    requires IndexOfColon(s) < |s|
    ensures var i := IndexOfColon(s); s == s[..i] + COLON + s[i + 3..]
  {
    var i := IndexOfColon(s);
    if i > 0 {
      ColonIsThere(s[1..]);
      assert s[1..][..i - 1] == s[..i][1..] && s[1..][i + 2..] == s[i + 3..];
    }
  }

  /** No tail delimiter starts inside a field. */
  lemma {:induction false} SkipField(field: string, rest: string)
    requires Spaceless(field) && |rest| >= 3 && IndexOfColon(rest) < |rest|
    ensures IndexOfColon(field + rest) == |field| + IndexOfColon(rest)
  {
    if field == "" {
      assert field + rest == rest;
    } else {
      SkipField(field[1..], rest);
      assert (field + rest)[1..] == field[1..] + rest;
    }
  }

  /** A delimiter starts at a field's space exactly when the field is a lone colon. */
  lemma SkipSpacedField(field: string, rest: string)
    requires IsField(field) && |rest| >= 3 && rest[0] == ' ' && IndexOfColon(rest) < |rest|
    ensures IndexOfColon(" " + field + rest) == if field == ":" then 0 else 1 + |field| + IndexOfColon(rest)
  {
    hide IndexOf, IndexOfColon;
    SkipField(field, rest);
    BehindSpace(field, rest);
    if |field| > 1 { SpacelessAt(field, 1); }
    ColonStep(" " + field + rest);
    LoneColon(field);
  }

  lemma BehindSpace(field: string, rest: string)
    requires field != "" && rest != ""
    ensures var all := " " + field + rest;
            && all[0] == ' ' && all[1..] == field + rest
            && all[1] == field[0] && all[2] == if |field| == 1 then rest[0] else field[1]
  {
  }

  lemma LoneColon(field: string)
    ensures field == ":" <==> |field| == 1 && field[0] == ':'
  {
  }

  lemma ColonStep(s: string)
    requires |s| >= 3 && s[0] == ' ' && IndexOfColon(s[1..]) < |s| - 1
    ensures IndexOfColon(s) == if s[1] == ':' && s[2] == ' ' then 0 else 1 + IndexOfColon(s[1..])
  {
  }

  lemma SpacelessAt(s: string, k: nat)
    requires Spaceless(s) && k < |s|
    ensures s[k] != ' '
  {
    IndexOfIsFirst(s, ' ', k);
  }

  function SpaceTail(rest: string, at: int, allowEmpty: bool): (r: Result<seq<string>>)
    requires rest != ""
  {
    if rest[0] != ' ' then Err(Malformed(at, "tail delimiter is missing"))
    else if rest[1..] == "" && !allowEmpty then Err(Malformed(at + 1, "tail is empty"))
    else Ok([rest[1..]])
  }

  function ColonTail(rest: string, at: int, allowEmpty: bool): (r: Result<seq<string>>)
  {
    var separator := IndexOfColon(rest);
    if separator == |rest| then Err(Malformed(at, "colon tail delimiter is missing"))
    else if separator != 0 && rest[0] != ' ' then Err(Malformed(at, "argument delimiter is missing"))
    else
      var future := if separator == 0 then [] else Split(rest[1..separator]);
      if HasEmpty(future) then Err(Malformed(at, "future argument is empty"))
      else if rest[separator + 3..] == "" && !allowEmpty then Err(Malformed(at + separator + 3, "tail is empty"))
      else Ok(future + [rest[separator + 3..]])
  }

  function TailOf(rest: string, at: int, definition: Definition): (r: Result<seq<string>>)
  {
    match definition.tail
    case TailNone =>
      if rest != "" then Err(Malformed(at, "record has unexpected trailing data")) else Ok([])
    case TailRequired =>
      if rest == "" then Err(Malformed(at, "required tail is missing"))
      else SpaceTail(rest, at, definition.allowEmptyTail)
    case TailOptional =>
      if rest == "" then Ok([]) else SpaceTail(rest, at, definition.allowEmptyTail)
    case TailColon => ColonTail(rest, at, definition.allowEmptyTail)
  }

  function ArgumentsOf(text: string, at: int, definition: Definition): (r: Result<seq<string>>)
    ensures r.Ok? ==> |r.value| >= definition.prefixArguments
  {
    match PrefixOf(text, at, definition.prefixArguments)
    case Err(e) => Err(e)
    case Ok(prefix) =>
      match TailOf(prefix.rest, at + |text| - |prefix.rest|, definition)
      case Err(e) => Err(e)
      case Ok(tail) => Ok(prefix.arguments + tail)
  }

  /** Reads the argument at `start`; on success `end` is where it ends. */
  method ReadField(record: string, start: nat) returns (result: Result<Cut>, end: nat)
    requires start <= |record|
    ensures result == CutField(record[start..], start)
    ensures result.Ok? ==> start < end <= |record| && result.value == Cut(record[start + 1..end], record[end..])
  {
    end := start;
    assert start < |record| ==> record[start..][1..] == record[start + 1..];
    if start == |record| { return Err(Malformed(start, "required argument is missing")), end; }
    if record[start] != ' ' { return Err(Malformed(start, "argument delimiter is missing")), end; }
    var position := start + 1;
    if position == |record| || record[position] == ' ' {
      return Err(Malformed(position, "required argument is empty")), end;
    }
    end := position + IndexOf(record[position..], ' ');
    assert record[start..][1..end - start] == record[position..end];
    assert record[start..][end - start..] == record[end..];
    return Ok(Cut(record[position..end], record[end..])), end;
  }

  /** The parser's argument loop, over a moving position. */
  method ParseControlNotificationArguments(record: string, start: nat, definition: Definition)
    returns (result: Result<seq<string>>)
    requires start <= |record|
    ensures result == ArgumentsOf(record[start..], start, definition)
  {
    hide CutField, TailOf;
    var arguments: seq<string> := [];
    var position := start;
    var count := definition.prefixArguments;
    var index := 0;
    Continued([], "", PrefixOf(record[start..], start, count));
    while index < count
      invariant index <= count && start <= position <= |record|
      invariant PrefixOf(record[start..], start, count)
             == Continue(arguments, PrefixOf(record[position..], position, count - index))
    {
      var cut, end := ReadField(record, position);
      if cut.Err? { return Err(cut.error); }
      Continued(arguments, cut.value.field, PrefixOf(cut.value.rest, end, count - index - 1));
      arguments := arguments + [cut.value.field];
      position := end;
      index := index + 1;
    }
    assert arguments + [] == arguments;
    var tail := TailOf(record[position..], position, definition);
    if tail.Err? { return tail; }
    return Ok(arguments + tail.value);
  }

  function Parse(table: seq<Definition>, line: string): (r: Result<Notification>)
    requires WellFormed(table)
  {
    if line == "" then Err(Malformed(0, "record is empty"))
    else if FirstFraming(line) < |line| then Err(Malformed(FirstFraming(line), "record contains framing byte"))
    else if line[0] != '%' then Err(Malformed(0, "record does not start with a notification kind"))
    else
      var kindEnd := IndexOf(line, ' ');
      var kind := line[..kindEnd];
      if MalformedKind(kind) != -1 then Err(Malformed(MalformedKind(kind), "notification kind is malformed"))
      else if Lookup(table, kind).Err? then Err(UnknownKind)
      else
        match ArgumentsOf(line[kindEnd..], kindEnd, Lookup(table, kind).value)
        case Err(e) => Err(e)
        case Ok(arguments) =>
          if !CarriesOutput(kind) then Ok(Notification(kind, arguments, NoOutput))
          else
            var tail := arguments[|arguments| - 1];
            match Decode(tail, |line| - |tail|)
            case Err(e) => Err(e)
            case Ok(data) => Ok(Notification(kind, arguments, Output(arguments[0], data)))
  }

  // ---------------------------------------------------------------- rendering

  /** The arguments as tmux writes them behind a kind, by the definition's tail form. */
  function RenderArguments(definition: Definition, arguments: seq<string>): string
  {
    if definition.tail == TailColon && arguments != [] then
      Spaced(arguments[..|arguments| - 1]) + COLON + arguments[|arguments| - 1]
    else Spaced(arguments)
  }

  function Render(definition: Definition, arguments: seq<string>): string
  {
    definition.kind + RenderArguments(definition, arguments)
  }

  /** Extra arguments before a colon tail. A lone colon there would read as the delimiter. */
  predicate Extras(fields: seq<string>)
  {
    fields == [] || (IsField(fields[0]) && fields[0] != ":" && Extras(fields[1..]))
  }

  /** The tails a definition allows behind its prefix arguments. */
  predicate AllowedTail(definition: Definition, tail: seq<string>)
  {
    var n := |tail|;
    match definition.tail
    case TailNone => n == 0
    case TailRequired => n == 1 && (definition.allowEmptyTail || tail[0] != "")
    case TailOptional => n == 0 || (n == 1 && (definition.allowEmptyTail || tail[0] != ""))
    case TailColon => n >= 1 && (definition.allowEmptyTail || tail[n - 1] != "") && Extras(tail[..n - 1])
  }

  /** The argument vectors a definition allows. */
  predicate Allowed(definition: Definition, arguments: seq<string>)
  {
    var p := definition.prefixArguments;
    |arguments| >= p && AllFields(arguments[..p]) && AllowedTail(definition, arguments[p..])
  }

  lemma {:induction false} PrefixRender(text: string, at: int, count: nat)
    requires PrefixOf(text, at, count).Ok?
    ensures var prefix := PrefixOf(text, at, count).value;
            text == Spaced(prefix.arguments) + prefix.rest && AllFields(prefix.arguments)
    decreases count
  {
    hide CutField, Spaced, AllFields, IsField;
    if count == 0 {
      NoFields();
      assert text == "" + text;
    } else {
      var cut := CutField(text, at).value;
      PrefixRender(cut.rest, at + 1 + |cut.field|, count - 1);
      var prefix := PrefixOf(cut.rest, at + 1 + |cut.field|, count - 1).value;
      CutRender(text, at);
      PrependField(text, cut, prefix);
    }
  }

  lemma PrependField(text: string, cut: Cut, prefix: Prefix)
    requires text == " " + cut.field + cut.rest && cut.rest == Spaced(prefix.arguments) + prefix.rest
    requires IsField(cut.field) && AllFields(prefix.arguments)
    ensures text == Spaced([cut.field] + prefix.arguments) + prefix.rest
    ensures AllFields([cut.field] + prefix.arguments)
  {
    hide Spaced, AllFields, IsField;
    SpacedCons(cut.field, prefix.arguments);
    Associative(" " + cut.field, Spaced(prefix.arguments), prefix.rest);
  }

  lemma {:induction false} PrefixReads(arguments: seq<string>, rest: string, at: int)
    requires AllFields(arguments) && (rest == "" || rest[0] == ' ')
    ensures PrefixOf(Spaced(arguments) + rest, at, |arguments|) == Ok(Prefix(arguments, rest))
    decreases |arguments|
  {
    hide CutField, IndexOf;
    if arguments == [] {
      assert Spaced(arguments) + rest == rest;
    } else {
      var field, others := arguments[0], Spaced(arguments[1..]) + rest;
      Associative(" " + field, Spaced(arguments[1..]), rest);
      CutReads(field, others, at);
      PrefixReads(arguments[1..], rest, at + 1 + |field|);
      assert [field] + arguments[1..] == arguments;
    }
  }

  /** Spaced fields hide no earlier tail delimiter exactly when none is a lone colon. */
  lemma {:induction false} ColonFound(fields: seq<string>, tail: string)
    requires AllFields(fields)
    ensures var found := IndexOfColon(Spaced(fields) + (COLON + tail));
            && found <= |Spaced(fields)|
            && (found == |Spaced(fields)| <==> Extras(fields))
  {
    if fields == [] {
      assert Spaced(fields) + (COLON + tail) == COLON + tail;
    } else {
      var rest := Spaced(fields[1..]) + (COLON + tail);
      ColonFound(fields[1..], tail);
      Associative(" " + fields[0], Spaced(fields[1..]), COLON + tail);
      assert rest[0] == ' ';
      SkipSpacedField(fields[0], rest);
    }
  }

  lemma {:induction false} ExtrasAreFields(fields: seq<string>)
    requires Extras(fields)
    ensures AllFields(fields) && AllSpaceless(fields) && !HasEmpty(fields)
  {
    if fields != [] { ExtrasAreFields(fields[1..]); }
  }

  lemma ColonTailRender(rest: string, at: int, definition: Definition)
    requires definition.tail == TailColon && ColonTail(rest, at, definition.allowEmptyTail).Ok?
    ensures var tail := ColonTail(rest, at, definition.allowEmptyTail).value;
            AllowedTail(definition, tail) && rest == RenderArguments(definition, tail)
  {
    var separator := IndexOfColon(rest);
    var future := if separator == 0 then [] else Split(rest[1..separator]);
    var last := rest[separator + 3..];
    ColonIsThere(rest);
    assert (future + [last])[..|future|] == future;
    if separator != 0 {
      var s := rest[1..separator];
      SpacedSplit(s);
      SplitIsSpaceless(s);
      NonemptyAreFields(future);
      assert rest[..separator] == " " + s;
    }
    assert Spaced(future) == rest[..separator];
    Associative(rest[..separator], COLON, last);
    ColonFound(future, last);
  }

  lemma TailRender(rest: string, at: int, definition: Definition)
    requires TailOf(rest, at, definition).Ok?
    ensures var tail := TailOf(rest, at, definition).value;
            AllowedTail(definition, tail) && rest == RenderArguments(definition, tail)
  {
    if definition.tail == TailColon {
      ColonTailRender(rest, at, definition);
    } else if rest != "" {
      SpacedCons(rest[1..], []);
      assert rest == rest[..1] + rest[1..];
    }
  }

  lemma TailReads(tail: seq<string>, at: int, definition: Definition)
    requires AllowedTail(definition, tail)
    ensures TailOf(RenderArguments(definition, tail), at, definition) == Ok(tail)
  {
    if definition.tail == TailColon {
      ColonTailReads(tail[..|tail| - 1], tail[|tail| - 1], at, definition.allowEmptyTail);
      assert tail == tail[..|tail| - 1] + [tail[|tail| - 1]];
    } else if tail != [] {
      assert tail == [tail[0]];
      SpacedCons(tail[0], []);
      DropFirst(" ", tail[0]);
    }
  }

  lemma ColonTailReads(future: seq<string>, last: string, at: int, allowEmpty: bool)
    requires Extras(future) && (allowEmpty || last != "")
    ensures ColonTail(Spaced(future) + COLON + last, at, allowEmpty) == Ok(future + [last])
  {
    ExtrasAreFields(future);
    ColonFound(future, last);
    Associative(Spaced(future), COLON, last);
    var rest := Spaced(future) + COLON + last;
    var n := |Spaced(future)|;
    assert rest[n + 3..] == last;
    if future != [] {
      SplitSpaced(future);
      assert rest[1..n] == Spaced(future)[1..];
    }
  }

  /** Rendering splits into the prefix arguments and the tail. */
  lemma RenderSplits(definition: Definition, prefix: seq<string>, tail: seq<string>)
    requires definition.tail == TailColon ==> tail != []
    ensures RenderArguments(definition, prefix + tail) == Spaced(prefix) + RenderArguments(definition, tail)
  {
    hide Spaced;
    if definition.tail == TailColon {
      var n := |tail| - 1;
      assert (prefix + tail)[..|prefix| + n] == prefix + tail[..n];
      SpacedConcat(prefix, tail[..n]);
    } else {
      SpacedConcat(prefix, tail);
    }
  }

  lemma ArgumentsRender(text: string, at: int, definition: Definition)
    requires ArgumentsOf(text, at, definition).Ok?
    ensures var arguments := ArgumentsOf(text, at, definition).value;
            Allowed(definition, arguments) && text == RenderArguments(definition, arguments)
  {
    hide PrefixOf, TailOf, Spaced, AllFields, AllowedTail, RenderArguments;
    PrefixRender(text, at, definition.prefixArguments);
    var prefix := PrefixOf(text, at, definition.prefixArguments).value;
    var where := at + |text| - |prefix.rest|;
    TailRender(prefix.rest, where, definition);
    var tail := TailOf(prefix.rest, where, definition).value;
    RenderSplits(definition, prefix.arguments, tail);
    Parts(prefix.arguments, tail);
  }

  lemma Parts(left: seq<string>, right: seq<string>)
    ensures (left + right)[..|left|] == left && (left + right)[|left|..] == right
  {
  }

  lemma ArgumentsRead(arguments: seq<string>, at: int, definition: Definition)
    requires Allowed(definition, arguments)
    ensures ArgumentsOf(RenderArguments(definition, arguments), at, definition) == Ok(arguments)
  {
    hide PrefixOf, TailOf, Spaced, AllFields, RenderArguments;
    var p := definition.prefixArguments;
    var prefix, tail := arguments[..p], arguments[p..];
    assert arguments == prefix + tail;
    RenderSplits(definition, prefix, tail);
    var rest := RenderArguments(definition, tail);
    RenderedStarts(definition, tail);
    PrefixReads(prefix, rest, at);
    TailReads(tail, at + |Spaced(prefix) + rest| - |rest|, definition);
  }

  lemma {:induction false} DecodeIgnoresBase(value: string, base: int, other: int)
    ensures Decode(value, base).Ok? == Decode(value, other).Ok?
    ensures Decode(value, base).Ok? ==> Decode(value, base) == Decode(value, other)
    decreases |value|
  {
    if value != "" {
      if value[0] != '\\' {
        DecodeIgnoresBase(value[1..], base + 1, other + 1);
      } else if |value| >= 4 {
        DecodeIgnoresBase(value[4..], base + 4, other + 4);
      }
    }
  }

  /** Whether the output an allowed record carries, if any, can be decoded. */
  predicate Decodable(definition: Definition, arguments: seq<string>)
  {
    CarriesOutput(definition.kind) ==> arguments != [] && Decode(arguments[|arguments| - 1], 0).Ok?
  }

  /** A record stands for a kind and arguments when it is how tmux writes them. */
  predicate StandsFor(table: seq<Definition>, line: string, kind: string, arguments: seq<string>)
  {
    && Lookup(table, kind).Ok? && MalformedKind(kind) == -1
    && var definition := Lookup(table, kind).value;
       && Allowed(definition, arguments) && Decodable(definition, arguments)
       && FirstFraming(line) == |line| && line == Render(definition, arguments)
  }

  lemma ParsedStandsFor(table: seq<Definition>, line: string)
    requires WellFormed(table) && Parse(table, line).Ok?
    ensures var n := Parse(table, line).value; StandsFor(table, line, n.kind, n.arguments)
  {
    hide ArgumentsOf, IndexOf, RenderArguments, Allowed, MalformedKind, FirstFraming, Lookup, Decode;
    var kindEnd := IndexOf(line, ' ');
    var kind := line[..kindEnd];
    var definition := Lookup(table, kind).value;
    TakeDrop(line, kindEnd);
    ArgumentsRender(line[kindEnd..], kindEnd, definition);
    var arguments := ArgumentsOf(line[kindEnd..], kindEnd, definition).value;
    if CarriesOutput(kind) {
      var tail := arguments[|arguments| - 1];
      DecodeIgnoresBase(tail, |line| - |tail|, 0);
    }
  }

  lemma RenderedStarts(definition: Definition, arguments: seq<string>)
    ensures var rendered := RenderArguments(definition, arguments);
            rendered == "" || rendered[0] == ' '
  {
    if definition.tail == TailColon && arguments != [] {
      var future := arguments[..|arguments| - 1];
      assert future != [] ==> Spaced(future)[0] == ' ';
    }
  }

  lemma StandingParses(table: seq<Definition>, line: string, kind: string, arguments: seq<string>)
    requires WellFormed(table) && StandsFor(table, line, kind, arguments)
    ensures var r := Parse(table, line); r.Ok? && r.value.kind == kind && r.value.arguments == arguments
  {
    hide ArgumentsOf, IndexOf, RenderArguments, Allowed, MalformedKind, FirstFraming, Lookup, Decode;
    var definition := Lookup(table, kind).value;
    var rendered := RenderArguments(definition, arguments);
    RenderedStarts(definition, arguments);
    WellFormedKind(kind);
    FieldEnds(kind, rendered);
    DropFirst(kind, rendered);
    ArgumentsRead(arguments, |kind|, definition);
    if CarriesOutput(kind) {
      var tail := arguments[|arguments| - 1];
      DecodeIgnoresBase(tail, |line| - |tail|, 0);
    }
  }

  /** Parsing is lossless for every table: a record is accepted as a kind and arguments
      exactly when it is, byte for byte, how tmux writes them by the kind's tail form. */
  lemma ParsingIsLossless(table: seq<Definition>, line: string, kind: string, arguments: seq<string>)
    requires WellFormed(table)
    ensures var r := Parse(table, line);
            (r.Ok? && r.value.kind == kind && r.value.arguments == arguments)
            <==> StandsFor(table, line, kind, arguments)
  {
    if Parse(table, line).Ok? {
      ParsedStandsFor(table, line);
    }
    if StandsFor(table, line, kind, arguments) {
      StandingParses(table, line, kind, arguments);
    }
  }

  lemma ParsedOutput(table: seq<Definition>, line: string)
    requires WellFormed(table) && Parse(table, line).Ok?
    ensures var n := Parse(table, line).value;
      if !CarriesOutput(n.kind) then n.output.NoOutput?
      else
        && n.output.Output? && n.arguments != [] && n.output.pane == n.arguments[0]
        && var tail := n.arguments[|n.arguments| - 1]; Decode(tail, |line| - |tail|) == Ok(n.output.data)
  {
    hide ArgumentsOf, IndexOf, MalformedKind, FirstFraming, Lookup, Decode;
  }

  /** An accepted record carries output exactly if its kind does: its first argument's pane, and
      the data that an encoder wrote as its last argument. */
  lemma OutputIsDecoded(table: seq<Definition>, line: string, tail: bytes, data: bytes)
    requires WellFormed(table) && Parse(table, line).Ok?
    ensures var n := Parse(table, line).value;
      if n.kind != "%output" && n.kind != "%extended-output" then n.output.NoOutput?
      else
        && n.output.Output? && n.arguments != [] && n.output.pane == n.arguments[0]
        && (tail == n.arguments[|n.arguments| - 1] ==>
              (n.output.data == data
               <==> exists escaped: seq<bool> :: |escaped| == |data| && EncodeOutput(data, escaped) == tail))
  {
    hide Parse, Decode, EncodeOutput;
    ParsedOutput(table, line);
    DecodeIsTheInverse(tail, data, |line| - |tail|);
  }

  // ---------------------------------------------------------------- exactly what is refused first

  /** A byte that frames records is found exactly if there is one, and the first of them. */
  lemma {:induction false} FirstFramingExactly(s: string)
    ensures FirstFraming(s) == |s| <==> '\0' !in s && '\r' !in s && '\n' !in s
    ensures var i := FirstFraming(s);
      && '\0' !in s[..i] && '\r' !in s[..i] && '\n' !in s[..i]
      && (i < |s| ==> s[i] in {'\0', '\r', '\n'})
  {
    if s != "" && s[0] !in {'\0', '\r', '\n'} {
      FirstFramingExactly(s[1..]);
      var i := FirstFraming(s[1..]);
      assert s == [s[0]] + s[1..] && s[..i + 1] == [s[0]] + s[1..][..i];
    }
  }

  predicate Lower(c: char) { 'a' <= c && c <= 'z' }

  predicate InWord(c: char) { Lower(c) || ('0' <= c && c <= '9') }

  /** What stands at i cannot: it is in no word, and no single hyphen between words. */
  predicate BadAt(kind: string, i: nat)
    requires 2 <= i < |kind|
  {
    !InWord(kind[i]) && (kind[i] != '-' || kind[i - 1] == '-' || i == |kind| - 1)
  }

  lemma {:induction false} KindEndsExactly(kind: string, offset: nat, previousHyphen: bool)
    requires 2 <= offset <= |kind| && (previousHyphen <==> kind[offset - 1] == '-')
    ensures var i := KindEnds(kind, offset, previousHyphen);
      if previousHyphen && offset == |kind| then i == offset - 1
      else offset <= i && (forall k :: offset <= k < i ==> !BadAt(kind, k)) && (i < |kind| ==> BadAt(kind, i))
    decreases |kind| - offset
  {
    if offset < |kind| {
      if IsLetter(kind[offset]) || IsDigit(kind[offset]) {
        KindEndsExactly(kind, offset + 1, false);
      } else if kind[offset] == '-' && !previousHyphen {
        KindEndsExactly(kind, offset + 1, true);
      }
    }
  }

  /** A kind is well formed exactly if it is a percent sign, a lower-case letter, and then letters,
      digits and single hyphens between them; otherwise the first place that is wrong is told. */
  lemma MalformedKindExactly(kind: string)
    ensures var i := MalformedKind(kind);
      if |kind| < 2 || kind[0] != '%' || !Lower(kind[1]) then i == if kind == "" then 0 else 1
      else if i == -1 then forall k :: 2 <= k < |kind| ==> !BadAt(kind, k)
      else 2 <= i < |kind| && BadAt(kind, i) && forall k :: 2 <= k < i ==> !BadAt(kind, k)
  {
    if |kind| >= 2 && kind[0] == '%' && Lower(kind[1]) { KindEndsExactly(kind, 2, false); }
  }

  /** Whether place i of an output tail is one an error may name: an escape that is cut short or too
      large, or the first character of an escape that is no octal digit. */
  predicate Wrong(value: string, i: int)
  {
    0 <= i < |value| && (WrongEscape(value, i) || (!IsOctal(value[i]) && BehindBackslash(value, i)))
  }

  predicate WrongEscape(value: string, i: nat)
    requires i < |value|
  {
    value[i] == '\\'
    && (i + 4 > |value| || (BadDigit(value[i + 1..i + 4]) == 3 && OctalValue(value[i + 1..i + 4]) > 255))
  }

  predicate BehindBackslash(value: string, i: nat)
    requires i < |value|
  {
    (i >= 1 && value[i - 1] == '\\') || (i >= 2 && value[i - 2] == '\\') || (i >= 3 && value[i - 3] == '\\')
  }

  lemma WrongBehind(before: string, value: string, i: int)
    requires Wrong(value, i)
    ensures Wrong(before + value, |before| + i)
  {
    var all, n := before + value, |before|;
    assert all[n + i] == value[i];
    if value[i] == '\\' && i + 4 <= |value| {
      assert all[n + i + 1..n + i + 4] == value[i + 1..i + 4];
    }
    assert forall k :: 0 <= k < |value| ==> all[n + k] == value[k];
  }

  /** An error in an output tail points at what is wrong with it. */
  lemma {:induction false} OutputErrorsPoint(value: string, base: int)
    ensures Decode(value, base).Err? ==>
              Decode(value, base).error.Malformed? && Wrong(value, Decode(value, base).error.offset - base)
    decreases |value|
  {
    hide Wrong;
    if value != "" && Decode(value, base).Err? {
      if value[0] != '\\' {
        OutputErrorsPoint(value[1..], base + 1);
        WrongBehind(value[..1], value[1..], Decode(value[1..], base + 1).error.offset - base - 1);
        assert value[..1] + value[1..] == value;
      } else if |value| < 4 || BadDigit(value[1..4]) < 3 || OctalValue(value[1..4]) > 255 {
        WrongHere(value, base);
      } else {
        OutputErrorsPoint(value[4..], base + 4);
        WrongBehind(value[..4], value[4..], Decode(value[4..], base + 4).error.offset - base - 4);
        assert value[..4] + value[4..] == value;
      }
    }
  }

  lemma WrongHere(value: string, base: int)
    requires value != "" && value[0] == '\\' && Decode(value, base).Err?
    requires |value| < 4 || BadDigit(value[1..4]) < 3 || OctalValue(value[1..4]) > 255
    ensures Decode(value, base).error.Malformed? && Wrong(value, Decode(value, base).error.offset - base)
  {
    if |value| >= 4 && BadDigit(value[1..4]) < 3 {
      var j := BadDigit(value[1..4]);
      assert value[1..4][j] == value[j + 1];
    }
  }

  /** A kind is known exactly if the table names it, and then by the first definition that does. */
  lemma {:induction false} LookupExactly(table: seq<Definition>, kind: string)
    ensures Lookup(table, kind).Ok? <==> exists i :: 0 <= i < |table| && table[i].kind == kind
    ensures Lookup(table, kind).Ok? ==>
              exists i :: 0 <= i < |table| && table[i] == Lookup(table, kind).value && forall k :: 0 <= k < i ==> table[k].kind != kind
  {
    if table != [] && table[0].kind != kind {
      LookupExactly(table[1..], kind);
      assert forall i :: 0 < i < |table| ==> table[i] == table[1..][i - 1];
      if Lookup(table, kind).Ok? {
        var i :| 0 <= i < |table[1..]| && table[1..][i] == Lookup(table, kind).value
                 && forall k :: 0 <= k < i ==> table[1..][k].kind != kind;
        assert table[i + 1] == Lookup(table, kind).value;
        forall k | 0 <= k < i + 1 ensures table[k].kind != kind {
          if k > 0 { assert table[1..][k - 1] == table[k]; }
        }
      }
    }
  }

  /** An error in an argument or a tail points at the place where its space is missing, or at the
      place behind the space where nothing stands. */
  lemma ArgumentErrorsPoint(text: string, at: int)
    ensures CutField(text, at).Err? ==>
              && CutField(text, at).error.Malformed?
              && var i := CutField(text, at).error.offset - at;
                 || (i == 0 && (text == "" || text[0] != ' '))
                 || (i == 1 && text != "" && text[0] == ' ' && (|text| == 1 || text[1] == ' '))
    ensures text != "" && SpaceTail(text, at, false).Err? ==>
              && SpaceTail(text, at, false).error.Malformed?
              && var i := SpaceTail(text, at, false).error.offset - at;
                 (i == 0 && text[0] != ' ') || (i == 1 && text == " ")
  {
  }
}
