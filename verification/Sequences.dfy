/** Lists without repetitions, as linked lists of distinct nodes are. */
module Sequences {

  ghost predicate Unrepeated<T>(s: seq<T>)
  {
    forall i, j :: 0 <= i < j < |s| ==> s[i] != s[j]
  }

  /** The list with `x` spliced out. */
  function Without<T(==)>(s: seq<T>, x: T): (r: seq<T>)
  {
    if s == [] then [] else if s[0] == x then s[1..] else [s[0]] + Without(s[1..], x)
  }

  lemma {:induction false} WithoutMembers<T>(s: seq<T>, x: T)
    requires Unrepeated(s)
    ensures Unrepeated(Without(s, x)) && forall y :: y in Without(s, x) <==> y in s && y != x
  {
    if s != [] {
      WithoutMembers(s[1..], x);
      var rest := Without(s[1..], x);
      assert forall y :: y in s <==> y == s[0] || y in s[1..];
      assert s[0] !in s[1..];
    }
  }

  lemma {:induction false} WithoutLast<T>(s: seq<T>, x: T, last: T)
    requires x in s
    ensures Without(s + [last], x) == Without(s, x) + [last]
  {
    if s[0] != x {
      WithoutLast(s[1..], x, last);
      assert (s + [last])[1..] == s[1..] + [last];
    } else {
      assert (s + [last])[1..] == s[1..] + [last];
    }
  }

  /** Whatever is left was there before. */
  lemma {:induction false} WithoutElement<T>(s: seq<T>, x: T, i: nat)
    requires i < |Without(s, x)|
    ensures exists j :: 0 <= j < |s| && s[j] == Without(s, x)[i]
  {
    if s[0] == x {
      assert s[i + 1] == Without(s, x)[i];
    } else if i > 0 {
      WithoutElement(s[1..], x, i - 1);
      var j :| 0 <= j < |s[1..]| && s[1..][j] == Without(s[1..], x)[i - 1];
      assert s[j + 1] == Without(s, x)[i];
    }
  }
}
