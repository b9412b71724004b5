/** The guard lines that open and close a reply block in tmux control mode. */
module ControlGuard {
  import opened Bytes
  import opened Options

  datatype GuardKind = Begin | End | Error

  datatype Guard = Guard(timestamp: nat, number: nat, flags: nat)

  datatype GuardLine = NotGuard | BadGuard(reason: string) | IsGuard(kind: GuardKind, guard: Guard)

  const TWO_63 := 0x8000_0000_0000_0000
  const TWO_64 := 0x1_0000_0000_0000_0000

  function KindText(kind: GuardKind): string
  {
    match kind case Begin => "%begin" case End => "%end" case Error => "%error"
  }

  /** strconv.ParseUint in base ten and 64 bits. */
  function ParseUnsigned(s: string): Option<nat>
  {
    if s != "" && AllDigits(s) && Value(s) < TWO_64 then Some(Value(s)) else None
  }

  /** strconv.ParseInt in base ten and 64 bits: a leading sign is accepted. */
  function ParseSigned(s: string): Option<int>
  {
    var signed := s != "" && (s[0] == '+' || s[0] == '-');
    match ParseUnsigned(if signed then s[1..] else s)
    case None => None
    case Some(n) =>
      var value := if signed && s[0] == '-' then 0 - n as int else n as int;
      if -TWO_63 <= value < TWO_63 then Some(value) else None
  }

  function ParseNonnegative(s: string): Option<nat>
  {
    match ParseSigned(s)
    case None => None
    case Some(n) => if n < 0 then None else Some(n)
  }

  /** Whether a line is a kind's text alone or followed by a space. */
  predicate Names(line: string, kind: GuardKind)
  {
    IndexOf(line, ' ') == |KindText(kind)| && line[..IndexOf(line, ' ')] == KindText(kind)
  }

  function ParseFields(kind: GuardKind, fields: seq<string>): GuardLine
  {
    if |fields| != 4 then BadGuard("guard must contain three numeric fields")
    else if ParseNonnegative(fields[1]).None? then BadGuard("timestamp is not a nonnegative integer")
    else if ParseUnsigned(fields[2]).None? then BadGuard("command number is not a nonnegative integer")
    else if ParseNonnegative(fields[3]).None? then BadGuard("flags are not a nonnegative integer")
    else
      IsGuard(kind, Guard(ParseNonnegative(fields[1]).value, ParseUnsigned(fields[2]).value,
                          ParseNonnegative(fields[3]).value))
  }

  function GuardOf(line: string): (r: GuardLine)
  {
    if Names(line, Begin) then ParseFields(Begin, Split(line))
    else if Names(line, End) then ParseFields(End, Split(line))
    else if Names(line, Error) then ParseFields(Error, Split(line))
    else NotGuard
  }

  /** How tmux prints a guard. */
  function Print(kind: GuardKind, g: Guard): string
  {
    KindText(kind) + Spaced([Decimal(g.timestamp), Decimal(g.number), Decimal(g.flags)])
  }

  lemma SignlessParses(n: nat)
    requires n < TWO_63
    ensures ParseNonnegative(Decimal(n)) == Some(n)
  {
    DecimalIsNumeral(n);
    FirstIsDigit(Decimal(n));
  }

  lemma {:induction false} FirstIsDigit(s: string)
    requires s != "" && AllDigits(s)
    ensures IsDigit(s[0])
  {
    if |s| > 1 { FirstIsDigit(s[..|s| - 1]); }
  }

  /** A printed guard reads back, whenever its numbers fit the fields tmux prints. */
  lemma PrintedGuardReadsBack(kind: GuardKind, g: Guard)
    requires g.timestamp < TWO_63 && g.number < TWO_64 && g.flags < TWO_63
    ensures GuardOf(Print(kind, g)) == IsGuard(kind, g)
  {
    hide Decimal, ParseNonnegative, IsField;
    var fields := [Decimal(g.timestamp), Decimal(g.number), Decimal(g.flags)];
    SignlessParses(g.timestamp);
    SignlessParses(g.flags);
    DecimalIsNumeral(g.timestamp);
    DecimalIsNumeral(g.number);
    DecimalIsNumeral(g.flags);
    ThreeFields(fields);
    SplitKind(kind, fields);
  }

  lemma ThreeFields(fields: seq<string>)
    requires |fields| == 3 && IsField(fields[0]) && IsField(fields[1]) && IsField(fields[2])
    ensures AllSpaceless(fields)
  {
    assert AllSpaceless(fields[3..]);
    assert fields[2..][1..] == fields[3..] && fields[1..][1..] == fields[2..];
    assert AllSpaceless(fields[2..]);
  }

  lemma KindIsOneWord(kind: GuardKind)
    ensures Spaceless(KindText(kind))
  {
    var s := KindText(kind);
    assert s[1..][1..][1..] == s[3..] && s[3..][1..] == s[4..];
    assert |s| > 4 ==> s[4..][1..] == s[5..];
    assert |s| > 5 ==> s[5..][1..] == s[6..];
  }

  lemma SplitKind(kind: GuardKind, fields: seq<string>)
    requires fields != [] && AllSpaceless(fields)
    ensures var line := KindText(kind) + Spaced(fields);
            Split(line) == [KindText(kind)] + fields && forall k :: Names(line, k) <==> k == kind
  {
    hide IndexOf, Split, AllSpaceless;
    var rest := Spaced(fields);
    var text := KindText(kind);
    KindIsOneWord(kind);
    SplitSpaced(fields);
    assert rest[0] == ' ';
    FieldEnds(text, rest);
    DropFirst(text, rest);
    assert rest == " " + rest[1..];
    SplitField(text, rest[1..]);
    KindsDiffer();
  }

  lemma KindsDiffer()
    ensures forall j, k :: KindText(j) == KindText(k) ==> j == k
  {
    assert KindText(Begin)[1] == 'b' && KindText(End)[1] == 'e' && KindText(Error)[1] == 'e';
    assert |KindText(End)| != |KindText(Error)|;
  }

  /** A guard line is read field by field. */
  lemma SpelledGuard(kind: GuardKind, fields: seq<string>)
    requires |fields| == 3 && IsField(fields[0]) && IsField(fields[1]) && IsField(fields[2])
    ensures GuardOf(KindText(kind) + Spaced(fields)) == ParseFields(kind, [KindText(kind)] + fields)
  {
    ThreeFields(fields);
    SplitKind(kind, fields);
  }

  lemma {:induction false} LeadingZero(s: string)
    requires s != "" && AllDigits(s)
    ensures AllDigits("0" + s) && Value("0" + s) == Value(s)
  {
    var n := |s| - 1;
    assert ("0" + s)[..n + 1] == "0" + s[..n];
    if n > 0 {
      LeadingZero(s[..n]);
    } else {
      assert "0" + s[..n] == "0";
      assert "0"[..0] == "";
    }
  }

  lemma SignAndZero(s: string)
    requires s != "" && AllDigits(s)
    ensures IsField("+" + s) && IsField("0" + s) && IsField(s)
    ensures ParseNonnegative("+" + s) == ParseNonnegative(s) && ParseUnsigned("0" + s) == ParseUnsigned(s)
  {
    FirstIsDigit(s);
    LeadingZero(s);
    DigitsAreSpaceless(s);
    assert ("+" + s)[1..] == s && ("0" + s)[1..] == s;
  }

  /** Guards are told apart by value, not by text: a plus sign before the timestamp or a
      leading zero in the command number changes nothing. */
  lemma GuardsMatchByValue(kind: GuardKind, timestamp: string, number: string, flags: string)
    requires timestamp != "" && AllDigits(timestamp) && number != "" && AllDigits(number)
    requires flags != "" && AllDigits(flags)
    ensures GuardOf(KindText(kind) + Spaced(["+" + timestamp, "0" + number, flags]))
         == GuardOf(KindText(kind) + Spaced([timestamp, number, flags]))
  {
    hide ParseNonnegative, ParseUnsigned, IsField, Spaced, GuardOf;
    SignAndZero(timestamp);
    SignAndZero(number);
    SignAndZero(flags);
    SpelledGuard(kind, ["+" + timestamp, "0" + number, flags]);
    SpelledGuard(kind, [timestamp, number, flags]);
  }

  // ---------------------------------------------------------------- exactly which lines are guards

  predicate Numeral(s: string, value: nat, bound: nat) { s != "" && AllDigits(s) && Value(s) == value < bound }

  /** A numeral that a sign may precede; a minus sign only that of zero. */
  predicate SignedNumeral(s: string, value: nat, bound: nat)
  {
    || Numeral(s, value, bound)
    || (s != "" && s[0] == '+' && Numeral(s[1..], value, bound))
    || (s != "" && s[0] == '-' && value == 0 && Numeral(s[1..], 0, bound))
  }

  predicate Spells(fields: seq<string>, g: Guard)
  {
    && |fields| == 3 && SignedNumeral(fields[0], g.timestamp, TWO_63)
    && Numeral(fields[1], g.number, TWO_64) && SignedNumeral(fields[2], g.flags, TWO_63)
  }

  lemma UnsignedExactly(s: string, n: nat)
    ensures ParseUnsigned(s) == Some(n) <==> Numeral(s, n, TWO_64)
  {
  }

  lemma NonnegativeExactly(s: string, n: nat)
    ensures ParseNonnegative(s) == Some(n) <==> SignedNumeral(s, n, TWO_63)
  {
    hide AllDigits, Value;
    if s != "" && (s[0] == '+' || s[0] == '-') { SignIsNoDigit(s); }
  }

  lemma SignIsNoDigit(s: string)
    requires s != "" && (s[0] == '+' || s[0] == '-')
    ensures !AllDigits(s)
  {
    if AllDigits(s) { FirstIsDigit(s); }
  }

  lemma NumeralIsField(s: string, n: nat, bound: nat)
    ensures SignedNumeral(s, n, bound) ==> IsField(s)
  {
    if s != "" && AllDigits(s) { DigitsAreSpaceless(s); }
    if s != "" && AllDigits(s[1..]) { DigitsAreSpaceless(s[1..]); }
  }

  /** The fields of a line that names a kind, and the line they make. */
  lemma NamedLine(line: string, kind: GuardKind)
    requires Names(line, kind)
    ensures Split(line)[0] == KindText(kind) && line == KindText(kind) + Spaced(Split(line)[1..])
  {
    var fields := Split(line);
    SpacedSplit(line);
    assert fields == [fields[0]] + fields[1..];
    SpacedCons(fields[0], fields[1..]);
    assert (" " + line)[1..] == line && (" " + fields[0] + Spaced(fields[1..]))[1..] == fields[0] + Spaced(fields[1..]);
  }

  lemma SpelledIsGuard(kind: GuardKind, fields: seq<string>, g: Guard)
    requires Spells(fields, g)
    ensures GuardOf(KindText(kind) + Spaced(fields)) == IsGuard(kind, g)
  {
    hide GuardOf, ParseNonnegative, ParseUnsigned, SignedNumeral, Numeral, Spaced, IsField;
    NonnegativeExactly(fields[0], g.timestamp);
    UnsignedExactly(fields[1], g.number);
    NonnegativeExactly(fields[2], g.flags);
    NumeralIsField(fields[0], g.timestamp, TWO_63);
    assert SignedNumeral(fields[1], g.number, TWO_64) by { PlainIsSigned(fields[1], g.number, TWO_64); }
    NumeralIsField(fields[1], g.number, TWO_64);
    NumeralIsField(fields[2], g.flags, TWO_63);
    SpelledGuard(kind, fields);
  }

  lemma PlainIsSigned(s: string, n: nat, bound: nat)
    requires Numeral(s, n, bound)
    ensures SignedNumeral(s, n, bound)
  {
  }

  lemma GuardIsSpelled(line: string, kind: GuardKind, g: Guard)
    requires GuardOf(line) == IsGuard(kind, g)
    ensures Names(line, kind) && |Split(line)| == 4 && Spells(Split(line)[1..], g)
  {
    hide ParseNonnegative, ParseUnsigned, SignedNumeral, Numeral, Names, Split;
    var fields := Split(line);
    if |fields| == 4 {
      NonnegativeExactly(fields[1], g.timestamp);
      UnsignedExactly(fields[2], g.number);
      NonnegativeExactly(fields[3], g.flags);
    }
  }

  /** A line is read as a guard exactly if it is the kind's text and three fields that spell its
      numbers, signs and leading zeros allowed, each in its range. */
  lemma GuardExactly(line: string, kind: GuardKind, g: Guard)
    ensures GuardOf(line) == IsGuard(kind, g)
       <==> exists fields :: Spells(fields, g) && line == KindText(kind) + Spaced(fields)
  {
    hide GuardOf, Spells, Spaced, Split, Names;
    if GuardOf(line) == IsGuard(kind, g) {
      GuardIsSpelled(line, kind, g);
      NamedLine(line, kind);
    }
    forall fields | Spells(fields, g) && line == KindText(kind) + Spaced(fields) ensures GuardOf(line) == IsGuard(kind, g) {
      SpelledIsGuard(kind, fields, g);
    }
  }

  /** A line is left to others exactly if it is no kind's text, alone or before a space. */
  lemma NotGuardExactly(line: string)
    ensures GuardOf(line).NotGuard? <==> forall kind :: line != KindText(kind) && !(KindText(kind) + " " <= line)
  {
    hide ParseFields, IndexOf;
    forall kind ensures Names(line, kind) <==> line == KindText(kind) || KindText(kind) + " " <= line {
      NamesExactly(line, kind);
    }
    assert Names(line, Begin) || Names(line, End) || Names(line, Error) <==> exists kind :: Names(line, kind);
    ParseFieldsIsNoOther();
  }

  lemma ParseFieldsIsNoOther()
    ensures forall kind, fields :: !ParseFields(kind, fields).NotGuard?
  {
    hide ParseNonnegative, ParseUnsigned;
  }

  lemma NamesExactly(line: string, kind: GuardKind)
    ensures Names(line, kind) <==> line == KindText(kind) || KindText(kind) + " " <= line
  {
    hide IndexOf;
    var text := KindText(kind);
    KindIsOneWord(kind);
    if line == text {
      assert text + "" == text;
      FieldEnds(text, "");
    }
    if text + " " <= line {
      var rest := line[|text|..];
      assert line == text + rest && rest[0] == ' ';
      FieldEnds(text, rest);
    }
  }
}
