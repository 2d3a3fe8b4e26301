/** How much two lists of shapes have in common, and when that is a share of the smaller set. */
module Overlaps {
  import opened Sequences

  function Among(ids: set<string>): string -> bool { (x: string) => x in ids }

  function Members(s: seq<string>): set<string>
  {
    set x | x in s
  }

  /** The fraction of the shorter list whose entries occur in the other. */
  function Overlap(a: seq<string>, b: seq<string>): real
  {
    var small, large := if |a| <= |b| then a else b, if |a| <= |b| then b else a;
    if small == [] then 0.0 else |Filter(Among(Members(large)), small)| as real / |small| as real
  }

  function Smaller(m: nat, n: nat): nat { if m <= n then m else n }

  /** The fraction of the smaller set of shapes that the other has too. */
  function Share(a: seq<string>, b: seq<string>): real
  {
    var n := Smaller(|Members(a)|, |Members(b)|);
    if n == 0 then 0.0 else |Members(a) * Members(b)| as real / n as real
  }

  /** No shape occurs more often than another that occurs. */
  ghost predicate OccurEqually(a: seq<string>)
  {
    forall x, y | x in a && y in a :: multiset(a)[x] == multiset(a)[y]
  }

  // ----- counting -----

  lemma {:induction false} FilterAgrees(p: string -> bool, q: string -> bool, s: seq<string>)
    requires forall x | x in s :: p(x) == q(x)
    ensures Filter(p, s) == Filter(q, s)
  {
    if s != [] {
      assert forall x | x in s[1..] :: x in s;
      FilterAgrees(p, q, s[1..]);
    }
  }

  /** Keeping one shape more keeps its occurrences too. */
  lemma {:induction false} OneMoreKept(a: seq<string>, keep: set<string>, x: string)
    requires x !in keep
    ensures |Filter(Among(keep + {x}), a)| == |Filter(Among(keep), a)| + multiset(a)[x]
  {
    if a != [] {
      OneMoreKept(a[1..], keep, x);
      assert a == [a[0]] + a[1..];
    }
  }

  lemma NothingKept(a: seq<string>)
    ensures Filter(Among({}), a) == []
  {
    if a != [] {
      NothingKept(a[1..]);
    }
  }

  lemma {:induction false} EqualCount(a: seq<string>, keep: set<string>, k: nat)
    requires forall x | x in keep :: multiset(a)[x] == k
    ensures |Filter(Among(keep), a)| == k * |keep|
    decreases keep
  {
    if keep == {} {
      NothingKept(a);
    } else {
      var x :| x in keep;
      var rest := keep - {x};
      EqualCount(a, rest, k);
      OneMoreKept(a, rest, x);
      hide Filter;
      assert rest + {x} == keep;
      TimesNext(k, |rest|);
    }
  }

  lemma TimesNext(k: nat, n: nat)
    ensures k * (n + 1) == k * n + k
  {
  }

  /** Only the members of a list matter to what is kept of it, and keeping them all keeps it whole. */
  lemma {:induction false} MembersMatter(a: seq<string>, keep: set<string>)
    ensures Filter(Among(keep), a) == Filter(Among(Members(a) * keep), a)
    ensures Filter(Among(Members(a)), a) == a
  {
    FilterAgrees(Among(keep), Among(Members(a) * keep), a);
    KeptWhole(a, Members(a));
  }

  lemma {:induction false} KeptWhole(a: seq<string>, keep: set<string>)
    requires forall x | x in a :: x in keep
    ensures Filter(Among(keep), a) == a
  {
    if a != [] {
      assert forall x | x in a[1..] :: x in a;
      KeptWhole(a[1..], keep);
    }
  }

  lemma Cancel(k: nat, n: nat, m: nat)
    requires k > 0 && m > 0
    ensures (k * m) > 0 && (k * n) as real / (k * m) as real == n as real / m as real
  {
    assert k * m >= m;
    var x, d := n as real / m as real, m as real;
    assert x * d == n as real;
    assert (k * n) as real == k as real * (x * d);
    assert (k * m) as real == k as real * d;
    Regroup(k as real, x, d);
    QuotientIs((k * n) as real, (k * m) as real, x);
  }

  lemma Regroup(k: real, x: real, d: real)
    ensures k * (x * d) == x * (k * d)
  {
  }

  lemma QuotientIs(p: real, q: real, x: real)
    requires q != 0.0 && p == x * q
    ensures p / q == x
  {
  }

  lemma MembersOfSome(a: seq<string>)
    requires a != []
    ensures Members(a) != {} && |Members(a)| > 0 && multiset(a)[a[0]] > 0
  {
    assert a[0] in Members(a) && a[0] in multiset(a);
  }

  lemma EqualOccurrencesGiveShare(a: seq<string>, b: seq<string>)
    requires a != [] && |a| <= |b| && OccurEqually(a) && |Members(a)| <= |Members(b)|
    ensures Overlap(a, b) == Share(a, b)
  {
    var k, shared := multiset(a)[a[0]], Members(a) * Members(b);
    MembersOfSome(a);
    assert forall x | x in Members(a) :: multiset(a)[x] == k by { assert a[0] in a; }
    MembersMatter(a, Members(b));
    EqualCount(a, shared, k);
    EqualCount(a, Members(a), k);
    Cancel(k, |shared|, |Members(a)|);
  }

  // ----- and only then -----

  function Dashes(n: nat): string { seq(n, i => '-') }

  /** There are any number of strings longer than a given length. */
  lemma {:induction false} LongStrings(above: nat, n: nat) returns (long: set<string>)
    ensures |long| == n && forall x | x in long :: |x| > above
    decreases n
  {
    if n == 0 {
      return {};
    }
    var rest := LongStrings(above + 1, n - 1);
    assert |Dashes(above + 1)| == above + 1;
    long := rest + {Dashes(above + 1)};
  }

  lemma {:induction false} LengthBound(a: seq<string>) returns (n: nat)
    ensures forall x | x in a :: |x| <= n
  {
    if a == [] {
      return 0;
    }
    var m := LengthBound(a[1..]);
    assert forall x | x in a :: x == a[0] || x in a[1..];
    n := if |a[0]| > m then |a[0]| else m;
  }

  lemma {:induction false} SubsetOfSize(s: set<string>, k: nat) returns (t: set<string>)
    requires k <= |s|
    ensures t <= s && |t| == k
    decreases |s|
  {
    if k == |s| {
      return s;
    }
    var x :| x in s;
    t := SubsetOfSize(s - {x}, k);
  }

  lemma {:induction false} ListOf(s: set<string>) returns (list: seq<string>)
    ensures Members(list) == s
    decreases |s|
  {
    if s == {} {
      return [];
    }
    var x :| x in s;
    var rest := ListOf(s - {x});
    list := [x] + rest;
    assert forall y :: y in list <==> y == x || y in Members(rest);
  }

  /** A set of shapes can be listed at any length that is long enough. */
  lemma LongListOf(s: set<string>, n: nat) returns (list: seq<string>)
    requires s != {}
    ensures Members(list) == s && |list| >= n
  {
    var x :| x in s;
    var all := ListOf(s);
    var more := seq(n, i => x);
    list := all + more;
    assert forall y :: y in list <==> y in all || y in more;
    assert forall y | y in more :: y == x;
    assert forall y :: y in Members(all) <==> y in all;
  }

  lemma OneKept(a: seq<string>, x: string)
    ensures |Filter(Among({x}), a)| == multiset(a)[x]
  {
    NothingKept(a);
    OneMoreKept(a, {}, x);
    hide Filter;
    assert {} + {x} == {x};
  }

  /** A list of `k` shapes at least as long as `a`, with nothing of it except `x`. */
  lemma OnlyOneShared(a: seq<string>, x: string, k: nat) returns (b: seq<string>)
    requires x in a && k >= 1
    ensures |b| >= |a| && |Members(b)| == k && Members(a) * Members(b) == {x}
  {
    var n := LengthBound(a);
    var long := LongStrings(n, k - 1);
    b := LongListOf(long + {x}, |a|);
    hide Members;
    assert x in a && |x| <= n;
    InMembers(a);
    assert Members(a) * (long + {x}) == {x};
  }

  lemma InMembers(a: seq<string>)
    ensures forall y :: y in Members(a) <==> y in a
  {
  }

  lemma OverlapOnOne(a: seq<string>, b: seq<string>, x: string)
    requires x in a && |a| <= |b| && Members(a) * Members(b) == {x}
    ensures Overlap(a, b) == multiset(a)[x] as real / |a| as real
  {
    MembersMatter(a, Members(b));
    OneKept(a, x);
    hide Filter, Members;
  }

  lemma ShareOfOne(a: seq<string>, b: seq<string>, x: string)
    requires Members(a) * Members(b) == {x}
    ensures var n := Smaller(|Members(a)|, |Members(b)|); n > 0 && Share(a, b) == 1.0 / n as real
  {
    assert x in Members(a) && x in Members(b);
    hide Members;
    assert |{x}| == 1;
  }

  /** A list with fewer shapes than `a`, all of them in `a`, shares all it has and overlaps in part. */
  lemma {:induction false} SomeDropped(a: seq<string>, keep: set<string>, x: string)
    requires x in a && x !in keep
    ensures |Filter(Among(keep), a)| < |a|
  {
    if a[0] == x {
      FilterIsNoLonger(Among(keep), a[1..]);
    } else {
      SomeDropped(a[1..], keep, x);
    }
  }

  lemma {:induction false} FilterIsNoLonger(p: string -> bool, s: seq<string>)
    ensures |Filter(p, s)| <= |s|
  {
    if s != [] {
      FilterIsNoLonger(p, s[1..]);
    }
  }

  lemma FewerAllShared(a: seq<string>, k: nat) returns (b: seq<string>)
    requires 1 <= k < |Members(a)|
    ensures |a| <= |b| && |Members(b)| == k && Overlap(a, b) != Share(a, b)
  {
    var shared := SubsetOfSize(Members(a), k);
    b := LongListOf(shared, |a|);
    assert shared != Members(a) && !(Members(a) <= shared);
    var x :| x in Members(a) && x !in shared;
    assert x in a;
    SomeDropped(a, Members(b), x);
    hide Filter, Members;
    assert Members(a) * Members(b) == Members(b);
    var n := |Filter(Among(Members(b)), a)|;
    assert Overlap(a, b) == n as real / |a| as real;
    LessThanOne(n, |a|);
    assert Share(a, b) == 1.0 by { QuotientIs(k as real, k as real, 1.0); }
  }

  lemma LessThanOne(m: nat, n: nat)
    requires m < n
    ensures m as real / n as real < 1.0
  {
  }

  /** Against lists of `k` different shapes, at least as long as `a`, the overlap is the share of the smaller set. */
  ghost predicate GivesShare(a: seq<string>, k: nat)
  {
    forall b | |a| <= |b| && |Members(b)| == k :: Overlap(a, b) == Share(a, b)
  }

  /**
   * The overlap of a list with the lists that are at least as long and have `k` different shapes is the share of the
   * smaller set exactly when the shapes of the list are no more than `k` and all occur equally often in it.
   */
  lemma OverlapIsShare(a: seq<string>, k: nat)
    requires k >= 1
    ensures GivesShare(a, k) <==> OccurEqually(a) && |Members(a)| <= k
  {
    if a == [] {
      assert Members(a) == {};
    } else if |Members(a)| > k {
      var b := FewerAllShared(a, k);
    } else if OccurEqually(a) {
      forall b | |a| <= |b| && |Members(b)| == k
        ensures Overlap(a, b) == Share(a, b)
      {
        EqualOccurrencesGiveShare(a, b);
      }
    } else {
      var x, y :| x in a && y in a && multiset(a)[x] != multiset(a)[y];
      var b := OnlyOneShared(a, x, k);
      var c := OnlyOneShared(a, y, k);
      OverlapOnOne(a, b, x);
      OverlapOnOne(a, c, y);
      ShareOfOne(a, b, x);
      ShareOfOne(a, c, y);
      SameQuotient(multiset(a)[x], multiset(a)[y], |a|);
    }
  }

  lemma SameQuotient(m: nat, n: nat, d: nat)
    requires d > 0
    ensures m as real / d as real == n as real / d as real ==> m == n
  {
    assert m as real == m as real / d as real * d as real;
    assert n as real == n as real / d as real * d as real;
  }

  /**
   * Which list comes first does not matter if their lengths differ, or if they have equally many shapes and each list
   * has all of its own equally often.
   */
  lemma OverlapIsSymmetric(a: seq<string>, b: seq<string>)
    ensures |a| != |b| ==> Overlap(a, b) == Overlap(b, a)
    ensures a != [] && |a| == |b| && OccurEqually(a) && OccurEqually(b) && |Members(a)| == |Members(b)| ==>
      Overlap(a, b) == Overlap(b, a)
  {
    if a != [] && |a| == |b| && OccurEqually(a) && OccurEqually(b) && |Members(a)| == |Members(b)| {
      EqualOccurrencesGiveShare(a, b);
      EqualOccurrencesGiveShare(b, a);
      MembersOfSome(a);
      MembersOfSome(b);
      hide Overlap, OccurEqually, Members;
      assert Members(a) * Members(b) == Members(b) * Members(a);
    }
  }

  /** One of three different shapes is shared, but as it is listed three times the lists count as more than half alike. */
  lemma RepetitionPassesThreshold(x: string, y: string, z: string, b: seq<string>)
    requires x != y && y != z && x != z && |b| == 5 && |Members(b)| >= 3 && x in b && y !in b && z !in b
    ensures Overlap([x, x, x, y, z], b) == 3.0 / 5.0 && Share([x, x, x, y, z], b) == 1.0 / 3.0
  {
    var a := [x, x, x, y, z];
    assert multiset(a)[x] == 3;
    assert Members(a) == {x, y, z} && Members(a) * Members(b) == {x} && |{x, y, z}| == 3;
    hide Members, Share, Overlap;
    OverlapOnOne(a, b, x);
    ShareOfOne(a, b, x);
  }

  /**
   * The shorter list need not have the smaller set: one of its three shapes is one of the two of the other list, which
   * is half of these, and the lists do not count as half alike.
   */
  lemma ShorterIsNotSmaller(x: string, y: string, z: string, p: string)
    requires x != y && y != z && x != z && p != x && p != y && p != z
    ensures var a, b := [x, y, z], [p, p, p, x];
      |a| <= |b| && OccurEqually(a) && Overlap(a, b) == 1.0 / 3.0 && Share(a, b) == 1.0 / 2.0
  {
    var a, b := [x, y, z], [p, p, p, x];
    assert multiset(a)[x] == 1 && multiset(a)[y] == 1 && multiset(a)[z] == 1;
    assert Members(a) == {x, y, z} && Members(b) == {p, x} && Members(a) * Members(b) == {x};
    assert |{x, y, z}| == 3 && |{p, x}| == 2;
    hide Members, Share, Overlap;
    OverlapOnOne(a, b, x);
    ShareOfOne(a, b, x);
  }
}
