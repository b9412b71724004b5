/** Byte strings, decimal numerals and fields separated by spaces, as the control protocol
    uses them. A byte is a character below 256, so that text can be written as literals. */
module Bytes {

  type byte = c: char | c as int < 256 witness '\0'
  type bytes = seq<byte>

  predicate IsDigit(c: char) { '0' <= c <= '9' }

  predicate AllDigits(s: string)
  {
    s == "" || (IsDigit(s[|s| - 1]) && AllDigits(s[..|s| - 1]))
  }

  function Digit(d: nat): (c: char)
    requires d < 10
    ensures IsDigit(c) && c as int == '0' as int + d
  {
    ('0' as int + d) as char
  }

  /** The decimal numeral of n, without sign or leading zeros. */
  function Decimal(n: nat): string
  {
    (if n < 10 then "" else Decimal(n / 10)) + [Digit(n % 10)]
  }

  /** The number a run of digits denotes; the empty run denotes zero. */
  function Value(s: string): nat
    requires AllDigits(s)
  {
    if s == "" then 0 else Value(s[..|s| - 1]) * 10 + (s[|s| - 1] as int - '0' as int)
  }

  lemma {:induction false} DecimalIsNumeral(n: nat)
    ensures IsField(Decimal(n)) && AllDigits(Decimal(n)) && Value(Decimal(n)) == n
  {
    var s := Decimal(n);
    var high := if n < 10 then "" else Decimal(n / 10);
    assert s[..|s| - 1] == high;
    if n >= 10 { DecimalIsNumeral(n / 10); }
    DigitsAreSpaceless(s);
  }

  lemma {:induction false} DigitsAreSpaceless(s: string)
    requires AllDigits(s)
    ensures Spaceless(s)
  {
    if s != "" {
      var n := |s| - 1;
      DigitsAreSpaceless(s[..n]);
      SpacelessConcat(s[..n], [s[n]]);
      assert s[..n] + [s[n]] == s;
    }
  }

  lemma {:induction false} SpacelessConcat(a: string, b: string)
    requires Spaceless(a) && Spaceless(b)
    ensures Spaceless(a + b)
  {
    if a == "" {
      assert a + b == b;
    } else {
      SpacelessConcat(a[1..], b);
      assert (a + b)[1..] == a[1..] + b;
    }
  }

  /** The position of the first c in s, or |s| when there is none. */
  function IndexOf(s: string, c: char): (i: nat)
    ensures i <= |s| && (i < |s| ==> s[i] == c)
  {
    if s == "" || s[0] == c then 0 else 1 + IndexOf(s[1..], c)
  }

  lemma {:induction false} IndexOfIsFirst(s: string, c: char, k: nat)
    requires k < IndexOf(s, c)
    ensures s[k] != c
  {
    if k > 0 { IndexOfIsFirst(s[1..], c, k - 1); }
  }

  lemma {:induction false} IndexOfTaken(s: string, c: char)
    ensures IndexOf(s[..IndexOf(s, c)], c) == IndexOf(s, c)
  {
    var i := IndexOf(s, c);
    if i > 0 {
      IndexOfTaken(s[1..], c);
      assert s[..i][1..] == s[1..][..i - 1];
    }
  }

  predicate Spaceless(s: string) { IndexOf(s, ' ') == |s| }

  predicate IsField(s: string) { s != "" && Spaceless(s) }

  predicate AllFields(fields: seq<string>)
  {
    fields == [] || (IsField(fields[0]) && AllFields(fields[1..]))
  }

  predicate HasEmpty(fields: seq<string>)
  {
    fields != [] && (fields[0] == "" || HasEmpty(fields[1..]))
  }

  predicate AllSpaceless(fields: seq<string>)
  {
    fields == [] || (Spaceless(fields[0]) && AllSpaceless(fields[1..]))
  }

  /** The fields of s, which single spaces separate. */
  function Split(s: string): (fields: seq<string>)
    ensures |fields| >= 1
    decreases |s|
  {
    var i := IndexOf(s, ' ');
    if i == |s| then [s] else [s[..i]] + Split(s[i + 1..])
  }

  lemma {:induction false} SplitIsSpaceless(s: string)
    ensures AllSpaceless(Split(s))
    decreases |s|
  {
    var i := IndexOf(s, ' ');
    if i < |s| {
      SplitIsSpaceless(s[i + 1..]);
      IndexOfTaken(s, ' ');
      assert Split(s)[1..] == Split(s[i + 1..]);
    }
  }

  lemma {:induction false} NonemptyAreFields(fields: seq<string>)
    requires AllSpaceless(fields)
    ensures AllFields(fields) <==> !HasEmpty(fields)
  {
    if fields != [] { NonemptyAreFields(fields[1..]); }
  }

  /** Each field behind one space. */
  function Spaced(fields: seq<string>): string
  {
    if fields == [] then "" else " " + fields[0] + Spaced(fields[1..])
  }

  lemma Associative(a: string, b: string, c: string)
    ensures (a + b) + c == a + (b + c)
  {
  }

  lemma TakeDrop(s: string, i: nat)
    requires i <= |s|
    ensures s[..i] + s[i..] == s
  {
  }

  lemma DropFirst(first: string, rest: string)
    ensures (first + rest)[|first|..] == rest && (first + rest)[..|first|] == first
  {
  }

  lemma NoFields()
    ensures Spaced([]) == "" && AllFields([]) && AllSpaceless([])
  {
  }

  lemma SpacedCons(field: string, fields: seq<string>)
    ensures Spaced([field] + fields) == " " + field + Spaced(fields)
    ensures Spaced([field]) == " " + field
    ensures AllFields([field] + fields) <==> IsField(field) && AllFields(fields)
  {
    assert ([field] + fields)[1..] == fields;
    assert [field][1..] == [];
  }

  /** A field ends where a space or the end of the text follows it. */
  lemma {:induction false} FieldEnds(field: string, rest: string)
    requires Spaceless(field) && (rest == "" || rest[0] == ' ')
    ensures IndexOf(field + rest, ' ') == |field|
  {
    if field == "" {
      assert field + rest == rest;
    } else {
      FieldEnds(field[1..], rest);
      assert (field + rest)[1..] == field[1..] + rest;
    }
  }

  lemma SplitField(field: string, rest: string)
    requires Spaceless(field)
    ensures Split(field + (" " + rest)) == [field] + Split(rest)
  {
    FieldEnds(field, " " + rest);
    DropFirst(field, " " + rest);
    assert (field + (" " + rest))[|field| + 1..] == rest;
  }

  lemma {:induction false} SpacedSplit(s: string)
    ensures Spaced(Split(s)) == " " + s
    decreases |s|
  {
    var i := IndexOf(s, ' ');
    if i == |s| {
      SpacedCons(s, []);
    } else {
      SpacedSplit(s[i + 1..]);
      SpacedCons(s[..i], Split(s[i + 1..]));
      assert s == s[..i] + (" " + s[i + 1..]);
      Associative(" ", s[..i], " " + s[i + 1..]);
    }
  }

  lemma {:induction false} SplitSpaced(fields: seq<string>)
    requires fields != [] && AllSpaceless(fields)
    ensures Spaced(fields) != "" && Split(Spaced(fields)[1..]) == fields
  {
    var rest := Spaced(fields[1..]);
    assert Spaced(fields)[1..] == fields[0] + rest;
    if |fields| == 1 {
      assert fields[0] + rest == fields[0];
      assert fields == [fields[0]];
    } else {
      SplitSpaced(fields[1..]);
      assert rest == " " + rest[1..];
      SplitField(fields[0], rest[1..]);
    }
  }

  lemma {:induction false} SpacedConcat(left: seq<string>, right: seq<string>)
    ensures Spaced(left + right) == Spaced(left) + Spaced(right)
  {
    if left == [] {
      assert left + right == right;
    } else {
      SpacedConcat(left[1..], right);
      assert (left + right)[1..] == left[1..] + right;
    }
  }

  // ---------------------------------------------------------------- lines

  predicate Unbroken(s: string) { IndexOf(s, '\n') == |s| }

  predicate AllUnbroken(lines: seq<string>) { forall i :: 0 <= i < |lines| ==> Unbroken(lines[i]) }

  /** The whole lines of a text, each ended by a newline. */
  function LinesIn(text: string): seq<string>
    decreases |text|
  {
    var i := IndexOf(text, '\n');
    if i == |text| then [] else [text[..i]] + LinesIn(text[i + 1..])
  }

  lemma {:induction false} NoNewline(s: string)
    requires '\n' !in s
    ensures Unbroken(s)
  {
    if s != "" { NoNewline(s[1..]); }
  }

  lemma {:induction false} UnbrokenConcat(a: string, b: string)
    requires Unbroken(a) && Unbroken(b)
    ensures Unbroken(a + b)
  {
    if a == "" {
      assert a + b == b;
    } else {
      UnbrokenConcat(a[1..], b);
      assert (a + b)[1..] == a[1..] + b;
    }
  }

  lemma {:induction false} UnbrokenEnds(line: string, rest: string)
    requires Unbroken(line)
    ensures IndexOf(line + "\n" + rest, '\n') == |line|
  {
    var text := line + "\n" + rest;
    if line != "" {
      assert text[1..] == line[1..] + "\n" + rest;
      UnbrokenEnds(line[1..], rest);
    }
  }

  /** A line written in front of a text is the first line read. */
  lemma FirstLine(line: string, rest: string)
    requires Unbroken(line)
    ensures LinesIn(line + "\n" + rest) == [line] + LinesIn(rest)
  {
    var text := line + "\n" + rest;
    UnbrokenEnds(line, rest);
    assert text[..|line|] == line && text[|line| + 1..] == rest;
  }
}
