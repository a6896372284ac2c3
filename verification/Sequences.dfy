/** Reversing and repeating. */
module Sequences {

  function Reversed<T>(s: seq<T>): (r: seq<T>)
    ensures |r| == |s| && forall i :: 0 <= i < |s| ==> r[i] == s[|s| - 1 - i]
  {
    seq(|s|, i requires 0 <= i < |s| => s[|s| - 1 - i])
  }

  lemma ReversedAppend<T>(s: seq<T>, x: T)
    ensures Reversed(s + [x]) == [x] + Reversed(s)
  {
  }

  lemma ReversedTwice<T>(s: seq<T>)
    ensures Reversed(Reversed(s)) == s
  {
  }

  /** The same element `n` times. */
  function Repeat<T>(x: T, n: nat): (r: seq<T>)
    ensures |r| == n && forall i :: 0 <= i < n ==> r[i] == x
  {
    seq(n, _ => x)
  }

  /** How many elements at the start equal `x`. */
  function Leading<T(==)>(x: T, s: seq<T>): (n: nat)
    ensures n <= |s| && s[..n] == Repeat(x, n) && (n < |s| ==> s[n] != x)
  {
    if s == [] || s[0] != x then 0
    else
      var n := 1 + Leading(x, s[1..]);
      assert s[..n] == [x] + s[1..][..n - 1];
      n
  }

  lemma {:induction false} LeadingOf<T>(x: T, n: nat, s: seq<T>)
    requires s == [] || s[0] != x
    ensures Leading(x, Repeat(x, n) + s) == n
  {
    if n == 0 {
      assert Repeat(x, n) + s == s;
    } else {
      LeadingOf(x, n - 1, s);
      assert (Repeat(x, n) + s)[1..] == Repeat(x, n - 1) + s;
    }
  }
}
