/** The panes an input call may reserve, and the order reservations sort them in. */
module PaneIdentity {
  import opened Bytes

  datatype Identity = Identity(endpoint: nat, serverPid: nat, serverStart: nat, pane: string)

  const TWO_32 := 0x1_0000_0000

  /** A pane id as tmux prints it: a percent sign and a 32-bit decimal without leading zeros. */
  predicate CanonicalPane(pane: string)
  {
    && |pane| >= 2 && pane[0] == '%' && AllDigits(pane[1..])
    && Value(pane[1..]) < TWO_32 && pane == "%" + Decimal(Value(pane[1..]))
  }

  predicate ValidIdentity(id: Identity)
  {
    id.endpoint != 0 && id.serverPid != 0 && id.serverStart != 0 && CanonicalPane(id.pane)
  }

  /** Exactly the printed forms of the 32-bit numbers are pane ids. */
  lemma CanonicalPanesAreNumbers(pane: string)
    ensures CanonicalPane(pane) <==> exists n: nat :: n < TWO_32 && pane == "%" + Decimal(n)
  {
    if CanonicalPane(pane) {
      assert pane == "%" + Decimal(Value(pane[1..]));
    }
    if n: nat :| n < TWO_32 && pane == "%" + Decimal(n) {
      DecimalIsNumeral(n);
      assert pane[1..] == Decimal(n);
    }
  }

  function CompareNumbers(a: nat, b: nat): int { if a < b then -1 else if a > b then 1 else 0 }

  /** strings.Compare. */
  function CompareText(a: string, b: string): int
  {
    if a == b then 0
    else if a == "" then -1
    else if b == "" then 1
    else if a[0] != b[0] then CompareNumbers(a[0] as nat, b[0] as nat)
    else CompareText(a[1..], b[1..])
  }

  function Compare(a: Identity, b: Identity): int
  {
    if a.endpoint != b.endpoint then CompareNumbers(a.endpoint, b.endpoint)
    else if a.serverPid != b.serverPid then CompareNumbers(a.serverPid, b.serverPid)
    else if a.serverStart != b.serverStart then CompareNumbers(a.serverStart, b.serverStart)
    else CompareText(a.pane, b.pane)
  }

  lemma {:induction false} TextOrder(a: string, b: string)
    ensures CompareText(a, b) == 0 - CompareText(b, a)
    ensures CompareText(a, b) == 0 <==> a == b
  {
    if a != "" && b != "" && a[0] == b[0] && a != b {
      assert a == [a[0]] + a[1..] && b == [b[0]] + b[1..];
      TextOrder(a[1..], b[1..]);
    }
  }

  lemma {:induction false} TextOrderIsTransitive(a: string, b: string, c: string)
    requires CompareText(a, b) <= 0 && CompareText(b, c) <= 0
    ensures CompareText(a, c) <= 0
  {
    TextOrder(a, b);
    TextOrder(b, c);
    if a != "" && b != "" && c != "" && a != b && b != c && a[0] == b[0] == c[0] {
      TextOrderIsTransitive(a[1..], b[1..], c[1..]);
    }
  }

  /** The comparison is a total order on identities, so sorting has one result. */
  lemma IdentityOrder(a: Identity, b: Identity, c: Identity)
    ensures Compare(a, b) == 0 - Compare(b, a)
    ensures Compare(a, b) == 0 <==> a == b
    ensures Compare(a, b) <= 0 && Compare(b, c) <= 0 ==> Compare(a, c) <= 0
  {
    TextOrder(a.pane, b.pane);
    if CompareText(a.pane, b.pane) <= 0 && CompareText(b.pane, c.pane) <= 0 {
      TextOrderIsTransitive(a.pane, b.pane, c.pane);
    }
  }

  predicate Ordered(s: seq<Identity>)
  {
    |s| < 2 || (Compare(s[0], s[1]) <= 0 && Ordered(s[1..]))
  }

  function Insert(x: Identity, s: seq<Identity>): seq<Identity>
  {
    if s == [] || Compare(x, s[0]) <= 0 then [x] + s else [s[0]] + Insert(x, s[1..])
  }

  /** slices.SortFunc by Compare. */
  function Sort(s: seq<Identity>): seq<Identity>
  {
    if s == [] then [] else Insert(s[0], Sort(s[1..]))
  }

  lemma {:induction false} InsertOrders(x: Identity, s: seq<Identity>)
    requires Ordered(s)
    ensures Ordered(Insert(x, s)) && multiset(Insert(x, s)) == multiset{x} + multiset(s)
    ensures Insert(x, s)[0] == x || (s != [] && Insert(x, s)[0] == s[0])
  {
    hide Compare;
    if s == [] || Compare(x, s[0]) <= 0 {
      assert ([x] + s)[1..] == s;
    } else {
      var rest := Insert(x, s[1..]);
      InsertOrders(x, s[1..]);
      IdentityOrder(x, s[0], s[0]);
      assert ([s[0]] + rest)[1..] == rest;
      assert s == [s[0]] + s[1..];
    }
  }

  /** Sorting orders the identities and keeps them all. */
  lemma {:induction false} SortOrders(s: seq<Identity>)
    ensures Ordered(Sort(s)) && multiset(Sort(s)) == multiset(s)
  {
    if s != [] {
      SortOrders(s[1..]);
      InsertOrders(s[0], Sort(s[1..]));
      assert s == [s[0]] + s[1..];
    }
  }

  lemma {:induction false} FirstIsLeast(s: seq<Identity>, x: Identity)
    requires Ordered(s) && x in s
    ensures Compare(s[0], x) <= 0
  {
    hide Compare;
    IdentityOrder(s[0], s[0], s[0]);
    if x != s[0] {
      assert x in s[1..];
      FirstIsLeast(s[1..], x);
      IdentityOrder(s[0], s[1], x);
    }
  }

  /** Two ordered lists of the same identities are the same list. */
  lemma {:induction false} OrderedIsUnique(a: seq<Identity>, b: seq<Identity>)
    requires Ordered(a) && Ordered(b) && multiset(a) == multiset(b)
    ensures a == b
  {
    assert |multiset(a)| == |a| && |multiset(b)| == |b|;
    if a != [] {
      assert a[0] in multiset(b) && b[0] in multiset(a);
      FirstIsLeast(a, b[0]);
      FirstIsLeast(b, a[0]);
      IdentityOrder(a[0], b[0], a[0]);
      assert a == [a[0]] + a[1..] && b == [b[0]] + b[1..];
      assert multiset(a[1..]) == multiset(a) - multiset{a[0]};
      assert multiset(b[1..]) == multiset(b) - multiset{b[0]};
      OrderedIsUnique(a[1..], b[1..]);
    }
  }

  predicate AllValid(s: seq<Identity>) { forall id :: id in s ==> ValidIdentity(id) }

  /** No identity is asked for twice. */
  predicate Distinct(s: seq<Identity>) { forall i, j :: 0 <= i < j < |s| ==> s[i] != s[j] }

  predicate NoneAdjacent(s: seq<Identity>)
  {
    |s| < 2 || (s[0] != s[1] && NoneAdjacent(s[1..]))
  }

  /** In an ordered list equal identities stand side by side. */
  lemma {:induction false} OrderedDuplicatesAreAdjacent(s: seq<Identity>)
    requires Ordered(s)
    ensures NoneAdjacent(s) <==> Distinct(s)
  {
    hide Compare;
    if |s| >= 2 {
      OrderedDuplicatesAreAdjacent(s[1..]);
      if NoneAdjacent(s) {
        forall j | 1 <= j < |s| ensures s[0] != s[j] {
          assert s[j] in s[1..] by { assert s[1..][j - 1] == s[j]; }
          FirstIsLeast(s[1..], s[j]);
          IdentityOrder(s[0], s[1], s[j]);
        }
        TailDistinct(s);
      }
      if Distinct(s) { assert forall i, j :: 0 <= i < j < |s| - 1 ==> s[1..][i] == s[i + 1] && s[1..][j] == s[j + 1]; }
    }
  }

  lemma TailDistinct(s: seq<Identity>)
    requires s != [] && Distinct(s[1..]) && forall j :: 1 <= j < |s| ==> s[0] != s[j]
    ensures Distinct(s)
  {
    assert forall i :: 1 <= i < |s| ==> s[i] == s[1..][i - 1];
  }
}
