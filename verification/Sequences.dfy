/** Filters, mappings and duplicate removal on sequences. */
module Sequences {

  /** The elements satisfying `p`, in order. */
  function Filter<T(!new)>(p: T -> bool, s: seq<T>): (r: seq<T>)
  {
    if s == [] then [] else (if p(s[0]) then [s[0]] else []) + Filter(p, s[1..])
  }

  function Map<T(!new), U(!new)>(f: T -> U, s: seq<T>): (r: seq<U>)
    ensures |r| == |s| && forall i | 0 <= i < |s| :: r[i] == f(s[i])
  {
    if s == [] then [] else [f(s[0])] + Map(f, s[1..])
  }

  lemma {:induction false} FilterAppend<T(!new)>(p: T -> bool, a: seq<T>, b: seq<T>)
    ensures Filter(p, a + b) == Filter(p, a) + Filter(p, b)
  {
    if a == [] {
      assert a + b == b;
    } else {
      var first := if p(a[0]) then [a[0]] else [];
      FilterAppend(p, a[1..], b);
      assert (a + b)[1..] == a[1..] + b;
      assert Filter(p, a + b) == first + (Filter(p, a[1..]) + Filter(p, b));
      assert Filter(p, a) == first + Filter(p, a[1..]);
      hide Filter;
    }
  }

  lemma FilterNext<T(!new)>(p: T -> bool, s: seq<T>, i: nat)
    requires i < |s|
    ensures Filter(p, s[..i + 1]) == Filter(p, s[..i]) + if p(s[i]) then [s[i]] else []
  {
    assert s[..i + 1] == s[..i] + [s[i]];
    FilterAppend(p, s[..i], [s[i]]);
    assert Filter(p, [s[i]][1..]) == [];
  }

  lemma {:induction false} FilterMember<T(!new)>(p: T -> bool, s: seq<T>, x: T)
    ensures x in Filter(p, s) <==> x in s && p(x)
  {
    if s != [] {
      FilterMember(p, s[1..], x);
    }
  }

  lemma MapAppend<T(!new), U(!new)>(f: T -> U, a: seq<T>, b: seq<T>)
    ensures Map(f, a + b) == Map(f, a) + Map(f, b)
  {
    hide Map;
    assert Map(f, a + b) == Map(f, a) + Map(f, b);
  }

  /** A filter keeps every occurrence of what it keeps. */
  lemma {:induction false} FilterCounts<T(!new)>(p: T -> bool, s: seq<T>, x: T)
    ensures multiset(Filter(p, s))[x] == if p(x) then multiset(s)[x] else 0
  {
    if s != [] {
      assert s == [s[0]] + s[1..];
      FilterCounts(p, s[1..], x);
    }
  }

  /** What a filter kept, a stricter one may be applied to; what it dropped is gone. */
  lemma {:induction false} FilterAgain<T(!new)>(p: T -> bool, q: T -> bool, s: seq<T>)
    ensures (forall x | x in s && p(x) :: q(x)) ==> Filter(p, Filter(q, s)) == Filter(p, s)
    ensures (forall x | x in s && p(x) :: !q(x)) ==> Filter(p, Filter(q, s)) == []
  {
    if s != [] {
      FilterAgain(p, q, s[1..]);
      assert s[0] in s;
      assert forall x | x in s[1..] :: x in s;
      FilterAppend(p, if q(s[0]) then [s[0]] else [], Filter(q, s[1..]));
    }
  }

  /** Two elements a filter keeps stay in order. */
  lemma {:induction false} FilterKeepsPair<T(!new)>(p: T -> bool, s: seq<T>, i: nat, j: nat) returns (a: nat, b: nat)
    requires i < j < |s| && p(s[i]) && p(s[j])
    ensures a < b < |Filter(p, s)| && Filter(p, s)[a] == s[i] && Filter(p, s)[b] == s[j]
  {
    if i > 0 {
      a, b := FilterKeepsPair(p, s[1..], i - 1, j - 1);
      if p(s[0]) { a, b := a + 1, b + 1; }
    } else {
      assert s[j] == s[1..][j - 1];
      FilterMember(p, s[1..], s[j]);
      var k :| 0 <= k < |Filter(p, s[1..])| && Filter(p, s[1..])[k] == s[j];
      a, b := 0, k + 1;
    }
  }

  /** `r` is what stands at the positions `at` of `s`, in order. */
  ghost predicate PickedAt<T(!new)>(s: seq<T>, at: seq<nat>, r: seq<T>)
  {
    && |r| == |at|
    && (forall i, j | 0 <= i < j < |at| :: at[i] < at[j])
    && (forall i | 0 <= i < |at| :: at[i] < |s| && r[i] == s[at[i]])
  }

  /** A filter keeps what stands at the positions that satisfy it. */
  lemma {:induction false} FilterPicks<T(!new)>(p: T -> bool, s: seq<T>) returns (at: seq<nat>)
    ensures PickedAt(s, at, Filter(p, s)) && forall k: nat :: k in at <==> k < |s| && p(s[k])
  {
    at := [];
    if s != [] {
      var n := |s| - 1;
      at := FilterPicks(p, s[..n]);
      FilterNext(p, s, n);
      assert s[..n + 1] == s;
      hide Filter;
      forall i | 0 <= i < |at|
        ensures at[i] < n
      {
        assert at[i] in at;
      }
      if p(s[n]) { at := at + [n]; }
    }
  }

  ghost predicate NoDuplicates<T(!new)>(s: seq<T>)
  {
    forall i, j | 0 <= i < j < |s| :: s[i] != s[j]
  }

  /** The first occurrence of every element, in order. */
  function Unique<T(==,!new)>(s: seq<T>): (r: seq<T>)
    ensures forall x :: x in r <==> x in s
    ensures NoDuplicates(r)
  {
    if s == [] then []
    else
      var front, last := Unique(s[..|s| - 1]), s[|s| - 1];
      assert s == s[..|s| - 1] + [last];
      if last in front then front else front + [last]
  }

  /** A duplicate-free beginning survives duplicate removal unchanged. */
  lemma {:induction false} UniqueKeepsPrefix<T(!new)>(a: seq<T>, b: seq<T>)
    requires NoDuplicates(a)
    ensures |Unique(a + b)| >= |a| && Unique(a + b)[..|a|] == a
  {
    if b != [] {
      assert (a + b)[..|a + b| - 1] == a + b[..|b| - 1];
      UniqueKeepsPrefix(a, b[..|b| - 1]);
    } else {
      assert a + b == a;
      if a != [] {
        var n := |a| - 1;
        assert a[..n] + [] == a[..n];
        UniqueKeepsPrefix(a[..n], []);
        assert forall x | x in a[..n] :: x != a[n];
        assert Unique(a[..n]) == a[..n] by { UniqueOfDistinct(a[..n]); }
      }
    }
  }

  lemma {:induction false} UniqueOfDistinct<T(!new)>(a: seq<T>)
    requires NoDuplicates(a)
    ensures Unique(a) == a
  {
    if a != [] {
      var n := |a| - 1;
      UniqueOfDistinct(a[..n]);
      assert forall x | x in a[..n] :: x != a[n];
    }
  }

  function Remove<T>(s: seq<T>, k: nat): seq<T>
    requires k < |s|
  {
    s[..k] + s[k + 1..]
  }

  lemma RemoveFirst<T>(s: seq<T>)
    requires s != []
    ensures Remove(s, 0) == s[1..]
  {
  }

  lemma RemoveCounts<T>(s: seq<T>, k: nat)
    requires k < |s|
    ensures multiset(s) == multiset(Remove(s, k)) + multiset{s[k]}
    ensures multiset(Remove(s, k)) == multiset(s) - multiset{s[k]}
  {
    assert s == s[..k] + ([s[k]] + s[k + 1..]);
  }

  lemma MapRemove<T(!new), U(!new)>(f: T -> U, s: seq<T>, k: nat)
    requires k < |s|
    ensures Map(f, Remove(s, k)) == Remove(Map(f, s), k)
  {
    hide Map;
    assert forall i | 0 <= i < |s| - 1 :: Remove(s, k)[i] == s[if i < k then i else i + 1];
  }
}
