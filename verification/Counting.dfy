/** Counting the elements of a sequence that satisfy a predicate. */
module Counting {

  function Positions<T>(s: seq<T>, f: T -> bool): set<int> {
    set i | 0 <= i < |s| && f(s[i])
  }

  function Count<T>(s: seq<T>, f: T -> bool): nat {
    |Positions(s, f)|
  }

  lemma {:induction false} CountSnoc<T>(s: seq<T>, x: T, f: T -> bool)
    ensures Count(s + [x], f) == Count(s, f) + (if f(x) then 1 else 0)
  {
    assert Positions(s + [x], f) == Positions(s, f) + (if f(x) then {|s|} else {});
  }

  /** Changing one element moves the count by what that element contributes. */
  lemma {:induction false} CountUpdate<T>(s: seq<T>, i: nat, x: T, f: T -> bool)
    requires i < |s|
    ensures Count(s[i := x], f) + (if f(s[i]) then 1 else 0) == Count(s, f) + (if f(x) then 1 else 0)
  {
    var rest := Positions(s, f) - {i};
    assert Positions(s, f) == rest + (if f(s[i]) then {i} else {});
    assert Positions(s[i := x], f) == rest + (if f(x) then {i} else {});
  }

  lemma {:induction false} CountZero<T>(s: seq<T>, f: T -> bool)
    ensures Count(s, f) == 0 <==> forall i :: 0 <= i < |s| ==> !f(s[i])
  {
    forall i | 0 <= i < |s| && f(s[i]) ensures Count(s, f) != 0 {
      assert i in Positions(s, f);
    }
  }

  lemma {:induction false} CountAll<T>(s: seq<T>, f: T -> bool)
    ensures Count(s, f) <= |s|
    ensures Count(s, f) == |s| <==> forall i :: 0 <= i < |s| ==> f(s[i])
  {
    if s == [] {
      CountZero(s, f);
    } else {
      var n := |s| - 1;
      CountAll(s[..n], f);
      assert s == s[..n] + [s[n]];
      CountSnoc(s[..n], s[n], f);
      assert forall i :: 0 <= i < n ==> s[..n][i] == s[i];
    }
  }

  /** Two positions that count make the count at least two. */
  lemma {:induction false} CountTwo<T>(s: seq<T>, i: nat, j: nat, f: T -> bool)
    requires i < |s| && j < |s| && i != j && f(s[i]) && f(s[j])
    ensures Count(s, f) >= 2
  {
    var rest := Positions(s, f) - {i, j};
    assert Positions(s, f) == rest + {i, j};
  }
}
