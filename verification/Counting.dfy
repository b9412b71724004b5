/** Counting the elements of a sequence that satisfy a predicate. */
module Counting {
  function Tally<T>(s: seq<T>, p: T -> bool): (n: nat)
    ensures n <= |s|
  {
    if s == [] then 0 else Tally(s[..|s| - 1], p) + if p(s[|s| - 1]) then 1 else 0
  }

  lemma {:induction false} TallyUpdate<T>(s: seq<T>, p: T -> bool, i: nat, x: T)
    requires i < |s|
    ensures Tally(s[i := x], p) == Tally(s, p) - (if p(s[i]) then 1 else 0) + (if p(x) then 1 else 0)
  {
    var n := |s| - 1;
    if i == n {
      assert s[i := x][..n] == s[..n];
    } else {
      assert s[i := x][..n] == s[..n][i := x];
      TallyUpdate(s[..n], p, i, x);
    }
  }

  lemma TallyAppend<T>(s: seq<T>, p: T -> bool, x: T)
    ensures Tally(s + [x], p) == Tally(s, p) + if p(x) then 1 else 0
  {
    assert (s + [x])[..|s|] == s;
  }

  lemma {:induction false} TallyHolds<T>(s: seq<T>, p: T -> bool, i: nat)
    requires i < |s|
    ensures p(s[i]) ==> Tally(s, p) > 0
    ensures !p(s[i]) ==> Tally(s, p) < |s|
  {
    if i < |s| - 1 { TallyHolds(s[..|s| - 1], p, i); }
  }

  lemma {:induction false} TallyAll<T>(s: seq<T>, p: T -> bool)
    ensures Tally(s, p) == |s| <==> forall i :: 0 <= i < |s| ==> p(s[i])
    ensures Tally(s, p) == 0 <==> forall i :: 0 <= i < |s| ==> !p(s[i])
  {
    if s != [] {
      var n := |s| - 1;
      TallyAll(s[..n], p);
      assert forall i :: 0 <= i < n ==> s[..n][i] == s[i];
    }
  }
}
