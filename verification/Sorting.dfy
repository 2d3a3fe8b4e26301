/** Stable sorting by a comparison. */
module Sorting {

  function InsertInto<T>(atMost: (T, T) -> bool, x: T, s: seq<T>): seq<T>
  {
    if s == [] || atMost(x, s[0]) then [x] + s else [s[0]] + InsertInto(atMost, x, s[1..])
  }

  function Sort<T>(atMost: (T, T) -> bool, s: seq<T>): seq<T>
  {
    if s == [] then [] else InsertInto(atMost, s[0], Sort(atMost, s[1..]))
  }

  ghost predicate Ordered<T>(atMost: (T, T) -> bool, s: seq<T>)
  {
    forall i, j | 0 <= i < j < |s| :: atMost(s[i], s[j])
  }

  ghost predicate Compares<T(!new)>(atMost: (T, T) -> bool)
  {
    && (forall x, y :: atMost(x, y) || atMost(y, x))
    && (forall x, y, z :: atMost(x, y) && atMost(y, z) ==> atMost(x, z))
  }

  lemma {:induction false} InsertKeepsMembers<T(!new)>(atMost: (T, T) -> bool, x: T, s: seq<T>)
    ensures multiset(InsertInto(atMost, x, s)) == multiset(s) + multiset{x}
    ensures forall y :: y in InsertInto(atMost, x, s) <==> y in s || y == x
  {
    if s == [] || atMost(x, s[0]) {
    } else {
      InsertKeepsMembers(atMost, x, s[1..]);
      assert s == [s[0]] + s[1..];
    }
  }

  lemma {:induction false} InsertSorts<T(!new)>(atMost: (T, T) -> bool, x: T, s: seq<T>)
    requires Compares(atMost) && Ordered(atMost, s)
    ensures Ordered(atMost, InsertInto(atMost, x, s))
  {
    if s == [] || atMost(x, s[0]) {
    } else {
      InsertSorts(atMost, x, s[1..]);
      InsertKeepsMembers(atMost, x, s[1..]);
      var r := InsertInto(atMost, x, s[1..]);
      hide InsertInto, Compares;
      forall i | 0 <= i < |r|
        ensures atMost(s[0], r[i])
      {
        assert r[i] in r;
      }
    }
  }

  lemma {:induction false} SortSorts<T(!new)>(atMost: (T, T) -> bool, s: seq<T>)
    requires Compares(atMost)
    ensures Ordered(atMost, Sort(atMost, s))
    ensures multiset(Sort(atMost, s)) == multiset(s)
    ensures forall x :: x in Sort(atMost, s) <==> x in s
  {
    if s != [] {
      SortSorts(atMost, s[1..]);
      InsertSorts(atMost, s[0], Sort(atMost, s[1..]));
      InsertKeepsMembers(atMost, s[0], Sort(atMost, s[1..]));
      assert s == [s[0]] + s[1..];
      hide InsertInto, Compares;
    }
  }

  lemma {:induction false} SortKeepsOrdered<T(!new)>(atMost: (T, T) -> bool, s: seq<T>)
    requires Ordered(atMost, s)
    ensures Sort(atMost, s) == s
  {
    if s != [] {
      SortKeepsOrdered(atMost, s[1..]);
    }
  }
}
