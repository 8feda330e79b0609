/**
 * Vector operations the engine uses in several places: removing an element
 * by moving the last one into its place and popping the back, and sorting
 * by a comparer, given here as an integer rank, and searching front to back
 * for the first element that matches.
 */
module Sequences {
  /** Removing index i by moving the last element into it. */
  function SwapRemove<T>(s: seq<T>, i: nat): (r: seq<T>)
    requires i < |s|
    ensures |r| == |s| - 1
    ensures multiset(r) == multiset(s) - multiset{s[i]}
    ensures forall j :: 0 <= j < i ==> r[j] == s[j]
    ensures i < |r| ==> r[i] == s[|s| - 1]
    ensures forall j :: i < j < |r| ==> r[j] == s[j]
  {
    var t := s[i := s[|s| - 1]];
    SwapRemoveCounts(s, i);
    t[..|s| - 1]
  }

  lemma SwapRemoveCounts<T>(s: seq<T>, i: nat)
    requires i < |s|
    ensures multiset(s[i := s[|s| - 1]][..|s| - 1]) == multiset(s) - multiset{s[i]}
  {
    var n := |s|;
    var t := s[i := s[n - 1]];
    assert t == t[..n - 1] + [t[n - 1]];
    assert t[n - 1] == s[n - 1];
    var a := multiset(t[..n - 1]);
    forall x
      ensures a[x] == (multiset(s) - multiset{s[i]})[x]
    {
      assert multiset(t)[x] == a[x] + multiset{s[n - 1]}[x];
      assert multiset(t)[x] == multiset(s)[x] - multiset{s[i]}[x] + multiset{s[n - 1]}[x];
    }
  }

  /** Ordered by `rank`, ties in any order. */
  predicate SortedBy<T>(s: seq<T>, rank: T -> int)
  {
    forall i, j :: 0 <= i < j < |s| ==> rank(s[i]) <= rank(s[j])
  }

  /** `s` with `x` inserted before the first element it does not outrank. */
  function Insert<T>(x: T, s: seq<T>, rank: T -> int): (r: seq<T>)
    ensures multiset(r) == multiset(s) + multiset{x}
    ensures forall c :: c in r ==> c == x || c in s
  {
    if |s| == 0 then [x]
    else if rank(x) <= rank(s[0]) then [x] + s
    else
      assert s == [s[0]] + s[1..];
      [s[0]] + Insert(x, s[1..], rank)
  }

  lemma {:induction false} InsertSorted<T>(x: T, s: seq<T>, rank: T -> int)
    requires SortedBy(s, rank)
    ensures SortedBy(Insert(x, s, rank), rank)
  {
    if |s| > 0 && rank(x) > rank(s[0]) {
      var rest := Insert(x, s[1..], rank);
      InsertSorted(x, s[1..], rank);
      assert s == [s[0]] + s[1..];
      forall c | c in rest
        ensures rank(s[0]) <= rank(c)
      {
        if c != x {
          var k :| 0 <= k < |s| - 1 && s[1..][k] == c;
          assert s[k + 1] == c;
        }
      }
    }
  }

  /** Insertion sort: a permutation of `s` ordered by `rank`. */
  function SortBy<T>(s: seq<T>, rank: T -> int): (r: seq<T>)
    ensures SortedBy(r, rank)
    ensures multiset(r) == multiset(s)
  {
    if |s| == 0 then []
    else
      assert s == s[..|s| - 1] + [s[|s| - 1]];
      InsertSorted(s[|s| - 1], SortBy(s[..|s| - 1], rank), rank);
      Insert(s[|s| - 1], SortBy(s[..|s| - 1], rank), rank)
  }

  /** The index of the first element satisfying `matches`, or -1 when none does. */
  function FirstIndex<T>(table: seq<T>, matches: T -> bool): (r: int)
    ensures -1 <= r < |table|
    ensures r >= 0 ==> matches(table[r]) && forall j :: 0 <= j < r ==> !matches(table[j])
    ensures r < 0 ==> forall j :: 0 <= j < |table| ==> !matches(table[j])
  {
    if |table| == 0 then -1
    else if matches(table[0]) then 0
    else
      var i := FirstIndex(table[1..], matches);
      assert forall j :: 0 < j < |table| ==> table[j] == table[1..][j - 1];
      if i < 0 then -1 else i + 1
  }

  /** A front-to-back search for the first element satisfying `matches`. */
  method FindFirst<T>(table: seq<T>, matches: T -> bool) returns (index: int)
    ensures index == FirstIndex(table, matches)
  {
    var i := 0;
    while i < |table|
      invariant 0 <= i <= |table|
      invariant forall j :: 0 <= j < i ==> !matches(table[j])
    {
      if matches(table[i]) {
        return i;
      }
      i := i + 1;
    }
    return -1;
  }
}
