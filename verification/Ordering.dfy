/** Sorted sequences, and sets of numbers in ascending order, as ordered containers are iterated. */
module Ordering {

  predicate Increasing(s: seq<nat>) {
    forall i, j :: 0 <= i < j < |s| ==> s[i] < s[j]
  }

  lemma {:induction false} FindLeast(s: set<nat>) returns (m: nat)
    requires s != {}
    ensures m in s && forall y :: y in s ==> m <= y
    decreases |s|
  {
    m :| m in s;
    var rest := s - {m};
    if rest != {} {
      var l := FindLeast(rest);
      forall y | y in s ensures y == m || l <= y {
        assert y == m || y in rest;
      }
      m := if m < l then m else l;
    } else {
      assert s == {m};
    }
  }

  lemma LeastExists(s: set<nat>)
    requires s != {}
    ensures exists x :: x in s && forall y :: y in s ==> x <= y
  {
    var m := FindLeast(s);
  }

  function Least(s: set<nat>): (x: nat)
    requires s != {}
    ensures x in s && forall y :: y in s ==> x <= y
  {
    LeastExists(s);
    var x :| x in s && forall y :: y in s ==> x <= y;
    x
  }

  /** The elements of a set, least first. */
  function Ascending(s: set<nat>): (r: seq<nat>)
    ensures |r| == |s| && Increasing(r) && (forall x :: x in s <==> x in r)
    decreases |s|
  {
    if s == {} then []
    else
      var x := Least(s);
      var rest := Ascending(s - {x});
      assert forall i :: 0 <= i < |rest| ==> rest[i] in s - {x};
      [x] + rest
  }

  // ---------- sorting by an order ----------

  ghost predicate TotalOrder<T(!new)>(le: (T, T) -> bool) {
    && (forall a, b :: le(a, b) || le(b, a))
    && (forall a, b, c :: le(a, b) && le(b, c) ==> le(a, c))
  }

  predicate SortedBy<T>(s: seq<T>, le: (T, T) -> bool) {
    forall i, j :: 0 <= i < j < |s| ==> le(s[i], s[j])
  }

  lemma PrependSorted<T(!new)>(x: T, s: seq<T>, le: (T, T) -> bool)
    requires SortedBy(s, le) && forall i :: 0 <= i < |s| ==> le(x, s[i])
    ensures SortedBy([x] + s, le)
  {
  }

  lemma FirstIsLeast<T(!new)>(x: T, s: seq<T>, le: (T, T) -> bool)
    requires TotalOrder(le) && SortedBy(s, le) && s != [] && le(x, s[0])
    ensures forall i :: 0 <= i < |s| ==> le(x, s[i])
  {
  }

  /** A sorted sequence with one more element. */
  function InsertBy<T(!new)>(x: T, s: seq<T>, le: (T, T) -> bool): (r: seq<T>)
    requires TotalOrder(le) && SortedBy(s, le)
    ensures SortedBy(r, le) && multiset(r) == multiset(s) + multiset{x} && |r| == |s| + 1
    ensures forall y :: y in r ==> y == x || y in s
  {
    if s == [] then [x]
    else if le(x, s[0]) then
      FirstIsLeast(x, s, le);
      PrependSorted(x, s, le);
      [x] + s
    else
      var rest := InsertBy(x, s[1..], le);
      assert s == [s[0]] + s[1..];
      PrependTail(s, rest, x, le);
      [s[0]] + rest
  }

  lemma PrependTail<T(!new)>(s: seq<T>, rest: seq<T>, x: T, le: (T, T) -> bool)
    requires TotalOrder(le) && SortedBy(s, le) && s != [] && !le(x, s[0]) && SortedBy(rest, le)
    requires forall y :: y in rest ==> y == x || y in s[1..]
    ensures SortedBy([s[0]] + rest, le)
  {
    forall i | 0 <= i < |rest| ensures le(s[0], rest[i]) {
      assert rest[i] in rest;
    }
    PrependSorted(s[0], rest, le);
  }

  function SortBy<T(!new)>(s: seq<T>, le: (T, T) -> bool): (r: seq<T>)
    requires TotalOrder(le)
    ensures SortedBy(r, le) && multiset(r) == multiset(s) && |r| == |s|
  {
    if s == [] then []
    else
      assert s == [s[0]] + s[1..];
      InsertBy(s[0], SortBy(s[1..], le), le)
  }
}
