/** The drawing order of shapes, kept by fractional keys on the shapes themselves. */
module ZOrder {
  import opened Options
  import opened Sequences

  /** Keys from a dense order; an identifier is a string of code units. */
  datatype Shape = Shape(id: string, zIndex: real)

  datatype ReorderMode = Front | Back | Forward | Backward

  // ----- the order every client agrees on -----

  /** Alphabetic order of strings. */
  predicate Before(a: string, b: string)
  {
    b != [] && (a == [] || a[0] < b[0] || (a[0] == b[0] && Before(a[1..], b[1..])))
  }

  function CompareOrder(a: Shape, b: Shape): int
  {
    if a.zIndex < b.zIndex then -1
    else if a.zIndex > b.zIndex then 1
    else if Before(a.id, b.id) then -1
    else if Before(b.id, a.id) then 1
    else 0
  }

  lemma {:induction false} BeforeIsTotal(a: string, b: string)
    ensures !(Before(a, b) && Before(b, a))
    ensures a == b || Before(a, b) || Before(b, a)
    ensures !Before(a, a)
  {
    if a != [] {
      BeforeIsTotal(a[1..], a[1..]);
      if b != [] {
        BeforeIsTotal(a[1..], b[1..]);
        assert a == [a[0]] + a[1..] && b == [b[0]] + b[1..];
      }
    }
  }

  lemma {:induction false} BeforeIsTransitive(a: string, b: string, c: string)
    requires Before(a, b) && Before(b, c)
    ensures Before(a, c)
  {
    if a != [] && b != [] && a[0] == b[0] == c[0] {
      BeforeIsTransitive(a[1..], b[1..], c[1..]);
    }
  }

  /** A strict total order on shapes: only shapes with the same key and the same id compare equal. */
  lemma CompareIsTotalOrder(a: Shape, b: Shape, c: Shape)
    ensures CompareOrder(a, b) == -CompareOrder(b, a)
    ensures CompareOrder(a, b) == 0 <==> a == b
    ensures CompareOrder(a, b) < 0 && CompareOrder(b, c) < 0 ==> CompareOrder(a, c) < 0
  {
    BeforeIsTotal(a.id, b.id);
    BeforeIsTotal(b.id, b.id);
    if Before(a.id, b.id) && Before(b.id, c.id) {
      BeforeIsTransitive(a.id, b.id, c.id);
    }
    BeforeIsTotal(a.id, c.id);
    hide Before;
  }

  /** The strings agree up to the `k`-th character, where `a` ends or has the smaller one. */
  ghost predicate IsSmallerAt(a: string, b: string, k: nat)
  {
    k <= |a| && k < |b| && a[..k] == b[..k] && (k == |a| || a[k] < b[k])
  }

  /** The first difference decides, and a proper beginning comes first. */
  lemma {:induction false} BeforeIsAlphabetic(a: string, b: string)
    ensures Before(a, b) <==> exists k: nat :: IsSmallerAt(a, b, k)
  {
    if a == [] || b == [] || a[0] < b[0] {
      assert b != [] ==> IsSmallerAt(a, b, 0);
    } else {
      BeforeIsAlphabetic(a[1..], b[1..]);
      assert Before(a, b) <==> a[0] == b[0] && Before(a[1..], b[1..]);
      hide IsSmallerAt;
      if k: nat :| IsSmallerAt(a, b, k) {
        SmallerFurther(a, b, k);
      }
      if k: nat :| IsSmallerAt(a[1..], b[1..], k) {
        SmallerFurther(a, b, k);
      }
    }
  }

  lemma SmallerFurther(a: string, b: string, k: nat)
    requires a != [] && b != [] && !(a[0] < b[0])
    ensures IsSmallerAt(a, b, k) ==> k > 0 && a[0] == b[0] && IsSmallerAt(a[1..], b[1..], k - 1)
    ensures a[0] == b[0] && IsSmallerAt(a[1..], b[1..], k) ==> IsSmallerAt(a, b, k + 1)
  {
    if IsSmallerAt(a, b, k) {
      assert k > 0;
      assert a[0] == a[..k][0] == b[..k][0] == b[0];
      assert a[1..][..k - 1] == a[..k][1..] == b[..k][1..] == b[1..][..k - 1];
    }
    if a[0] == b[0] && IsSmallerAt(a[1..], b[1..], k) {
      assert a[..k + 1] == [a[0]] + a[1..][..k] == b[..k + 1];
    }
  }

  /** The lower key is drawn first; of equal keys, the alphabetically first id. */
  lemma LowerIsDrawnFirst(a: Shape, b: Shape)
    ensures CompareOrder(a, b) < 0 <==>
            a.zIndex < b.zIndex || (a.zIndex == b.zIndex && exists k: nat :: IsSmallerAt(a.id, b.id, k))
  {
    BeforeIsAlphabetic(a.id, b.id);
    hide Before, IsSmallerAt;
  }

  ghost predicate Sorted(s: seq<Shape>)
  {
    forall i, j | 0 <= i < j < |s| :: CompareOrder(s[i], s[j]) < 0
  }

  ghost predicate DistinctIds(s: seq<Shape>)
  {
    forall i, j | 0 <= i < j < |s| :: s[i].id != s[j].id
  }

  lemma {:induction false} NeighboursSort(s: seq<Shape>)
    requires forall i | 0 < i < |s| :: CompareOrder(s[i - 1], s[i]) < 0
    ensures Sorted(s)
  {
    if s != [] {
      var n := |s| - 1;
      NeighboursSort(s[..n]);
      forall i | 0 <= i < n
        ensures CompareOrder(s[i], s[n]) < 0
      {
        assert CompareOrder(s[n - 1], s[n]) < 0;
        if i < n - 1 {
          assert CompareOrder(s[..n][i], s[..n][n - 1]) < 0;
          CompareIsTotalOrder(s[i], s[n - 1], s[n]);
        }
      }
      hide CompareOrder;
      assert forall i, j | 0 <= i < j < n :: s[i] == s[..n][i] && s[j] == s[..n][j];
    }
  }

  /** Sorting has one possible result. */
  lemma {:induction false} SortedIsUnique(a: seq<Shape>, b: seq<Shape>)
    requires Sorted(a) && Sorted(b) && multiset(a) == multiset(b)
    ensures a == b
  {
    if a == [] || b == [] {
      assert |a| == |multiset(a)| == |multiset(b)| == |b|;
    } else {
      FirstIsLeast(a, b);
      FirstIsLeast(b, a);
      CompareIsTotalOrder(a[0], b[0], b[0]);
      hide CompareOrder;
      TailsMatch(a, b);
      SortedIsUnique(a[1..], b[1..]);
    }
  }

  lemma TailsMatch(a: seq<Shape>, b: seq<Shape>)
    requires a != [] && b != [] && a[0] == b[0] && multiset(a) == multiset(b)
    ensures multiset(a[1..]) == multiset(b[1..])
  {
    hide Remove;
    RemoveFirst(a);
    RemoveFirst(b);
    RemoveCounts(a, 0);
    RemoveCounts(b, 0);
  }

  lemma FirstIsLeast(a: seq<Shape>, b: seq<Shape>)
    requires Sorted(a) && multiset(a) == multiset(b) && a != [] && b != []
    ensures CompareOrder(a[0], b[0]) <= 0
  {
    assert b[0] in multiset(b);
    assert b[0] in multiset(a);
    var k :| 0 <= k < |a| && a[k] == b[0];
    CompareIsTotalOrder(a[0], a[0], a[0]);
  }

  // ----- the order a mode asks for -----

  function Chosen(ids: set<string>): Shape -> bool { (s: Shape) => s.id in ids }

  function Others(ids: set<string>): Shape -> bool { (s: Shape) => s.id !in ids }

  function Reversed(s: seq<Shape>): (r: seq<Shape>)
    ensures |r| == |s| && forall i | 0 <= i < |s| :: r[i] == s[|s| - 1 - i]
  {
    if s == [] then [] else Reversed(s[1..]) + [s[0]]
  }

  /** One swap each, from the top down: a chosen shape goes past the other shape now above it. */
  function Stepped(ordered: seq<Shape>, ids: set<string>): (r: seq<Shape>)
    ensures |r| == |ordered|
  {
    if ordered == [] then []
    else
      var r := Stepped(ordered[1..], ids);
      if ordered[0].id in ids && r != [] && r[0].id !in ids then [r[0], ordered[0]] + r[1..] else [ordered[0]] + r
  }

  function Target(ordered: seq<Shape>, ids: set<string>, mode: ReorderMode): seq<Shape>
  {
    match mode
    case Front => Filter(Others(ids), ordered) + Filter(Chosen(ids), ordered)
    case Back => Filter(Chosen(ids), ordered) + Filter(Others(ids), ordered)
    case Forward => Stepped(ordered, ids)
    case Backward => Reversed(Stepped(Reversed(ordered), ids))
  }

  /** The board with the positions from `i` up already stepped. */
  function SteppedFrom(ordered: seq<Shape>, ids: set<string>, i: nat): (r: seq<Shape>)
    requires i <= |ordered|
    ensures |r| == |ordered|
  {
    ordered[..i] + Stepped(ordered[i..], ids)
  }

  lemma SteppedOnce(ordered: seq<Shape>, ids: set<string>, i: nat)
    requires i + 1 < |ordered|
    ensures var was := SteppedFrom(ordered, ids, i + 1);
      SteppedFrom(ordered, ids, i) ==
        if was[i].id in ids && was[i + 1].id !in ids then was[i := was[i + 1]][i + 1 := was[i]] else was
  {
    var above := Stepped(ordered[i + 1..], ids);
    assert ordered[i..][1..] == ordered[i + 1..];
    assert Stepped(ordered[i..], ids) ==
      if ordered[i].id in ids && above[0].id !in ids then [above[0], ordered[i]] + above[1..] else [ordered[i]] + above;
    hide Stepped;
  }

  lemma SteppedEnds(ordered: seq<Shape>, ids: set<string>)
    ensures SteppedFrom(ordered, ids, 0) == Stepped(ordered, ids)
    ensures |ordered| > 0 ==> SteppedFrom(ordered, ids, |ordered| - 1) == ordered
  {
    assert ordered[0..] == ordered;
    if |ordered| > 0 {
      assert Stepped(ordered[|ordered| - 1..], ids) == ordered[|ordered| - 1..];
    }
    hide Stepped;
  }

  /** In place, from the second-highest position down. */
  method StepForward(ordered: seq<Shape>, ids: set<string>) returns (result: array<Shape>)
    ensures fresh(result)
    ensures result[..] == Stepped(ordered, ids)
  {
    result := new Shape[|ordered|](k requires 0 <= k < |ordered| => ordered[k]);
    assert result[..] == ordered;
    SteppedEnds(ordered, ids);
    hide *;
    var i := |ordered| - 2;
    while 0 <= i
      invariant -2 <= i && (0 <= i ==> i + 1 < |ordered|)
      invariant i + 1 <= |ordered| && result[..] == SteppedFrom(ordered, ids, if i < 0 then 0 else i + 1)
    {
      SteppedOnce(ordered, ids, i);
      ghost var was := result[..];
      var current, next := result[i], result[i + 1];
      if current.id in ids && next.id !in ids {
        result[i], result[i + 1] := next, current;
        assert result[..] == was[i := next][i + 1 := current];
      }
      i := i - 1;
    }
  }

  // ----- what every mode keeps and what it changes -----

  /** The chosen shapes stay in order among themselves, and so do the others. */
  ghost predicate KeepsOrder(s: seq<Shape>, t: seq<Shape>, ids: set<string>)
  {
    && Filter(Chosen(ids), t) == Filter(Chosen(ids), s)
    && Filter(Others(ids), t) == Filter(Others(ids), s)
  }

  lemma KeptOrderIsPermutation(s: seq<Shape>, t: seq<Shape>, ids: set<string>)
    requires KeepsOrder(s, t, ids)
    ensures multiset(t) == multiset(s)
  {
    forall x: Shape
      ensures multiset(t)[x] == multiset(s)[x]
    {
      FilterCounts(Chosen(ids), s, x);
      FilterCounts(Chosen(ids), t, x);
      FilterCounts(Others(ids), s, x);
      FilterCounts(Others(ids), t, x);
    }
  }

  lemma FilterPair(p: Shape -> bool, a: Shape, b: Shape, s: seq<Shape>)
    ensures Filter(p, [a, b] + s) == (if p(a) then [a] else []) + (if p(b) then [b] else []) + Filter(p, s)
  {
    assert ([a, b] + s)[1..] == [b] + s;
    assert ([b] + s)[1..] == s;
  }

  lemma {:induction false} SteppedKeepsOrder(s: seq<Shape>, ids: set<string>)
    ensures KeepsOrder(s, Stepped(s, ids), ids)
  {
    if s != [] {
      var r := Stepped(s[1..], ids);
      SteppedKeepsOrder(s[1..], ids);
      if s[0].id in ids && r != [] && r[0].id !in ids {
        assert r == [r[0]] + r[1..];
        FilterPair(Chosen(ids), r[0], s[0], r[1..]);
        FilterPair(Others(ids), r[0], s[0], r[1..]);
      } else {
        assert ([s[0]] + r)[1..] == r;
      }
    }
  }

  lemma {:induction false} FilterReversed(p: Shape -> bool, s: seq<Shape>)
    ensures Filter(p, Reversed(s)) == Reversed(Filter(p, s))
  {
    if s != [] {
      FilterReversed(p, s[1..]);
      FilterAppend(p, Reversed(s[1..]), [s[0]]);
      assert [s[0]][1..] == [];
      if p(s[0]) {
        assert ([s[0]] + Filter(p, s[1..]))[1..] == Filter(p, s[1..]);
      }
    }
  }

  /** Whatever the mode, the board keeps its shapes, and neither the chosen shapes nor the others are mixed up. */
  lemma TargetKeepsOrder(ordered: seq<Shape>, ids: set<string>, mode: ReorderMode)
    ensures KeepsOrder(ordered, Target(ordered, ids, mode), ids)
    ensures multiset(Target(ordered, ids, mode)) == multiset(ordered)
  {
    var c, o := Chosen(ids), Others(ids);
    match mode {
      case Forward => SteppedKeepsOrder(ordered, ids);
      case Backward =>
        var back := Reversed(ordered);
        SteppedKeepsOrder(back, ids);
        FilterReversed(c, Stepped(back, ids));
        FilterReversed(o, Stepped(back, ids));
        FilterReversed(c, back);
        FilterReversed(o, back);
        assert Reversed(back) == ordered;
      case _ =>
        FilterAgain(c, c, ordered);
        FilterAgain(c, o, ordered);
        FilterAgain(o, c, ordered);
        FilterAgain(o, o, ordered);
        FilterAppend(c, Filter(o, ordered), Filter(c, ordered));
        FilterAppend(o, Filter(o, ordered), Filter(c, ordered));
        FilterAppend(c, Filter(c, ordered), Filter(o, ordered));
        FilterAppend(o, Filter(c, ordered), Filter(o, ordered));
    }
    KeptOrderIsPermutation(ordered, Target(ordered, ids, mode), ids);
  }

  /** How many unchosen shapes lie below the one named `id` (all of them if there is none). */
  function OthersBelow(s: seq<Shape>, ids: set<string>, id: string): nat
  {
    if s == [] || s[0].id == id then 0 else (if s[0].id in ids then 0 else 1) + OthersBelow(s[1..], ids, id)
  }

  function CountOthers(s: seq<Shape>, ids: set<string>): nat
  {
    |Filter(Others(ids), s)|
  }

  ghost predicate Holds(s: seq<Shape>, id: string)
  {
    exists x | x in s :: x.id == id
  }

  function Min(a: int, b: int): int { if a < b then a else b }

  function Max(a: int, b: int): int { if a < b then b else a }

  lemma {:induction false} FirstPassesOne(s: seq<Shape>, ids: set<string>)
    requires DistinctIds(s) && s != [] && s[0].id in ids
    ensures OthersBelow(Stepped(s, ids), ids, s[0].id) == Min(1, CountOthers(s, ids))
    decreases |s|, 0
  {
    var rest := s[1..];
    var r := Stepped(rest, ids);
    SteppedKeepsOrder(rest, ids);
    if r != [] && r[0].id in ids {
      FilterMember(Chosen(ids), r, r[0]);
      FilterMember(Chosen(ids), rest, r[0]);
      SteppedPassesOne(rest, ids, r[0].id);
    } else if r != [] {
      FilterMember(Others(ids), r, r[0]);
      assert Stepped(s, ids)[1..] == [s[0]] + r[1..];
    }
  }

  lemma {:induction false} SteppedPassesOne(s: seq<Shape>, ids: set<string>, id: string)
    requires DistinctIds(s) && id in ids && Holds(s, id)
    ensures OthersBelow(Stepped(s, ids), ids, id) == Min(OthersBelow(s, ids, id) + 1, CountOthers(s, ids))
    decreases |s|, 1
  {
    if s[0].id == id {
      FirstPassesOne(s, ids);
    } else {
      var rest := s[1..];
      var r := Stepped(rest, ids);
      HoldsFurther(s, id);
      SteppedPassesOne(rest, ids, id);
      hide Holds, DistinctIds;
      if s[0].id in ids && r != [] && r[0].id !in ids {
        assert Stepped(s, ids)[1..] == [s[0]] + r[1..];
        assert ([s[0]] + r[1..])[1..] == r[1..];
      }
    }
  }

  lemma {:induction false} BelowAppend(a: seq<Shape>, b: seq<Shape>, ids: set<string>, id: string)
    requires id in ids
    ensures OthersBelow(a + b, ids, id) ==
            if Holds(a, id) then OthersBelow(a, ids, id) else CountOthers(a, ids) + OthersBelow(b, ids, id)
    ensures OthersBelow(a, ids, id) <= CountOthers(a, ids)
  {
    if a == [] {
      assert a + b == b;
    } else {
      assert (a + b)[1..] == a[1..] + b;
      assert a[0].id == id ==> Holds(a, id) by { assert a[0] in a; }
      assert a[0].id != id ==> (Holds(a, id) <==> Holds(a[1..], id)) by {
        assert a == [a[0]] + a[1..];
        assert forall x | x in a[1..] :: x in a;
      }
      BelowAppend(a[1..], b, ids, id);
    }
  }

  /** Every other shape is below a chosen one or above it. */
  lemma {:induction false} BelowOrAbove(s: seq<Shape>, ids: set<string>, id: string)
    requires DistinctIds(s) && id in ids && Holds(s, id)
    ensures OthersBelow(s, ids, id) + OthersBelow(Reversed(s), ids, id) == CountOthers(s, ids)
  {
    var rest := s[1..];
    FilterReversed(Others(ids), rest);
    BelowAppend(Reversed(rest), [s[0]], ids, id);
    ReversedHolds(rest, id);
    hide DistinctIds, Filter;
    assert Reversed(s) == Reversed(rest) + [s[0]];
    hide Reversed;
    if s[0].id != id {
      HoldsFurther(s, id);
      assert DistinctIds(rest) by { RestIsDistinct(s); }
      BelowOrAbove(rest, ids, id);
    }
  }

  lemma HoldsFurther(s: seq<Shape>, id: string)
    requires Holds(s, id) && s[0].id != id
    ensures Holds(s[1..], id)
  {
    var x :| x in s && x.id == id;
    assert x in s[1..];
  }

  lemma RestIsDistinct(s: seq<Shape>)
    requires DistinctIds(s) && s != []
    ensures DistinctIds(s[1..])
  {
  }

  lemma ReversedHolds(s: seq<Shape>, id: string)
    ensures Holds(Reversed(s), id) <==> Holds(s, id)
  {
    assert forall x | x in Reversed(s) :: x in s;
    assert forall x | x in s :: x in Reversed(s) by {
      assert Reversed(Reversed(s)) == s;
    }
  }

  /**
   * Where each mode puts a chosen shape among the others: above all, below all, one further up when one lies above,
   * one further down when one lies below.
   */
  lemma ModeMoves(ordered: seq<Shape>, ids: set<string>, mode: ReorderMode, id: string)
    requires DistinctIds(ordered) && id in ids && Holds(ordered, id)
    ensures OthersBelow(Target(ordered, ids, mode), ids, id) ==
      match mode
      case Front => CountOthers(ordered, ids)
      case Back => 0
      case Forward => Min(OthersBelow(ordered, ids, id) + 1, CountOthers(ordered, ids))
      case Backward => Max(OthersBelow(ordered, ids, id) - 1, 0)
  {
    match mode
    case Forward => SteppedPassesOne(ordered, ids, id);
    case Backward => BackwardMoves(ordered, ids, id);
    case _ => EndMoves(ordered, ids, id);
  }

  lemma {:induction false} ReversedIsPermutation(s: seq<Shape>)
    ensures multiset(Reversed(s)) == multiset(s)
  {
    if s != [] {
      ReversedIsPermutation(s[1..]);
      assert s == [s[0]] + s[1..];
    }
  }

  lemma OnceInDistinct(s: seq<Shape>, x: Shape)
    requires DistinctIds(s) && x in s
    ensures multiset(s)[x] == 1
  {
    var k :| 0 <= k < |s| && s[k] == x;
    assert s == s[..k] + [x] + s[k + 1..];
    assert x !in s[..k] && x !in s[k + 1..];
  }

  lemma TwiceCounts(t: seq<Shape>, i: nat, j: nat)
    requires i < j < |t| && t[i] == t[j]
    ensures multiset(t)[t[i]] >= 2
  {
    assert t == t[..i] + [t[i]] + t[i + 1..j] + [t[j]] + t[j + 1..];
  }

  /** A permutation of a board with distinct ids has the same shapes, each once. */
  lemma PermutationKeeps(s: seq<Shape>, t: seq<Shape>, id: string)
    requires multiset(s) == multiset(t)
    ensures |s| == |t| && (Holds(s, id) <==> Holds(t, id))
    ensures DistinctIds(s) ==> DistinctIds(t)
  {
    assert |s| == |multiset(s)| == |multiset(t)| == |t|;
    assert forall x :: x in s <==> x in multiset(s);
    assert forall x :: x in t <==> x in multiset(t);
    if DistinctIds(s) {
      forall i, j | 0 <= i < j < |t|
        ensures t[i].id != t[j].id
      {
        assert t[i] in s && t[j] in s;
        assert t[i].id == t[j].id ==> t[i] == t[j];
        if t[i] == t[j] {
          OnceInDistinct(s, t[i]);
          TwiceCounts(t, i, j);
        }
      }
    }
  }

  /** Seen from above, what was below is what remains. */
  lemma Mirror(s: seq<Shape>, ids: set<string>, id: string)
    requires DistinctIds(s) && id in ids && Holds(s, id)
    ensures var t := Reversed(s);
      && DistinctIds(t) && Holds(t, id) && CountOthers(t, ids) == CountOthers(s, ids)
      && OthersBelow(t, ids, id) == CountOthers(s, ids) - OthersBelow(s, ids, id)
  {
    hide *;
    ReversedIsPermutation(s);
    PermutationKeeps(s, Reversed(s), id);
    BelowOrAbove(s, ids, id);
    BelowOrAbove(Reversed(s), ids, id);
    assert Reversed(Reversed(s)) == s;
  }

  lemma SteppedKeeps(s: seq<Shape>, ids: set<string>, id: string)
    requires DistinctIds(s) && Holds(s, id)
    ensures var t := Stepped(s, ids); DistinctIds(t) && Holds(t, id) && CountOthers(t, ids) == CountOthers(s, ids)
  {
    hide DistinctIds, Holds, Stepped, Filter;
    SteppedKeepsOrder(s, ids);
    KeptOrderIsPermutation(s, Stepped(s, ids), ids);
    PermutationKeeps(s, Stepped(s, ids), id);
  }

  lemma BackwardMoves(ordered: seq<Shape>, ids: set<string>, id: string)
    requires DistinctIds(ordered) && id in ids && Holds(ordered, id)
    ensures OthersBelow(Target(ordered, ids, Backward), ids, id) == Max(OthersBelow(ordered, ids, id) - 1, 0)
  {
    var back := Reversed(ordered);
    hide Stepped, OthersBelow, Holds, CountOthers, DistinctIds, Reversed;
    Mirror(ordered, ids, id);
    SteppedPassesOne(back, ids, id);
    SteppedKeeps(back, ids, id);
    Mirror(Stepped(back, ids), ids, id);
  }

  lemma EndMoves(ordered: seq<Shape>, ids: set<string>, id: string)
    requires id in ids && Holds(ordered, id)
    ensures OthersBelow(Target(ordered, ids, Front), ids, id) == CountOthers(ordered, ids)
    ensures OthersBelow(Target(ordered, ids, Back), ids, id) == 0
  {
    var c, o := Filter(Chosen(ids), ordered), Filter(Others(ids), ordered);
    FilterAgain(Others(ids), Others(ids), ordered);
    FilterAgain(Others(ids), Chosen(ids), ordered);
    BelowAppend(o, c, ids, id);
    BelowAppend(c, o, ids, id);
    assert Holds(c, id) by {
      var x :| x in ordered && x.id == id;
      FilterMember(Chosen(ids), ordered, x);
    }
    assert !Holds(o, id) by {
      forall x | x in o
        ensures x.id != id
      {
        FilterMember(Others(ids), ordered, x);
      }
    }
    assert OthersBelow(c, ids, id) == 0 by { BelowAppend(c, [], ids, id); }
    hide OthersBelow, Filter;
  }

  // ----- new keys -----

  /** The contract of `generateNKeysBetween`: `n` ascending keys strictly between the bounds, where there are any. */
  ghost predicate AreBetween(keys: seq<real>, low: Option<real>, high: Option<real>, n: nat)
  {
    && |keys| == n
    && (forall k | 0 < k < n :: keys[k - 1] < keys[k])
    && (n > 0 && low.Some? ==> low.value < keys[0])
    && (n > 0 && high.Some? ==> keys[n - 1] < high.value)
  }

  type Generator = (Option<real>, Option<real>, nat) -> seq<real>

  ghost predicate Generates(gen: Generator)
  {
    forall low: Option<real>, high: Option<real>, n: nat {:trigger gen(low, high, n)} ::
      low.None? || high.None? || low.value < high.value ==> AreBetween(gen(low, high, n), low, high, n)
  }

  function Middle(low: Option<real>, high: Option<real>): real
  {
    match (low, high)
    case (Some(a), Some(b)) => (a + b) / 2.0
    case (Some(a), None) => a + 1.0
    case (None, Some(b)) => b - 1.0
    case (None, None) => 0.0
  }

  /** The contract can be met. */
  function Halving(low: Option<real>, high: Option<real>, n: nat): seq<real>
    decreases n
  {
    if n == 0 then [] else [Middle(low, high)] + Halving(Some(Middle(low, high)), high, n - 1)
  }

  lemma {:induction false} HalvingIsBetween(low: Option<real>, high: Option<real>, n: nat)
    requires low.None? || high.None? || low.value < high.value
    ensures AreBetween(Halving(low, high, n), low, high, n)
    decreases n
  {
    if n > 0 {
      HalvingIsBetween(Some(Middle(low, high)), high, n - 1);
    }
  }

  lemma HalvingGenerates()
    ensures Generates(Halving)
  {
    forall low: Option<real>, high: Option<real>, n: nat | low.None? || high.None? || low.value < high.value
      ensures AreBetween(Halving(low, high, n), low, high, n)
    {
      HalvingIsBetween(low, high, n);
    }
  }

  function KeyBefore(target: seq<Shape>, i: nat): Option<real>
  {
    if 0 < i <= |target| then Some(target[i - 1].zIndex) else None
  }

  function KeyAfter(target: seq<Shape>, end: nat): Option<real>
  {
    if end < |target| then Some(target[end].zIndex) else None
  }

  function KeyAt(keys: seq<real>, k: int): real
  {
    if 0 <= k < |keys| then keys[k] else 0.0
  }

  function IdsOf(s: seq<Shape>): set<string>
  {
    set x | x in s :: x.id
  }

  lemma IdsAppend(a: seq<Shape>, b: seq<Shape>)
    ensures IdsOf(a + b) == IdsOf(a) + IdsOf(b)
    ensures forall x :: IdsOf([x]) == {x.id}
  {
    forall id | id in IdsOf(a) + IdsOf(b)
      ensures id in IdsOf(a + b)
    {
      if id in IdsOf(a) {
        var x :| x in a && x.id == id;
        assert x in a + b;
      } else {
        var x :| x in b && x.id == id;
        assert x in a + b;
      }
    }
  }

  /** A longest stretch of moved shapes. */
  ghost predicate IsRun(target: seq<Shape>, moved: set<string>, i: nat, end: nat)
  {
    && i < end <= |target|
    && (forall k | i <= k < end :: target[k].id in moved)
    && (i > 0 ==> target[i - 1].id !in moved)
    && (end < |target| ==> target[end].id !in moved)
  }

  /** Both neighbours of a run have the same key, or even keys the wrong way round. */
  ghost predicate RunClashes(target: seq<Shape>, moved: set<string>, i: nat, end: nat)
  {
    IsRun(target, moved, i, end) && KeyBefore(target, i).Some? && KeyAfter(target, end).Some?
    && KeyBefore(target, i).value >= KeyAfter(target, end).value
  }

  ghost predicate Clash(target: seq<Shape>, moved: set<string>)
  {
    exists i: nat, end: nat :: RunClashes(target, moved, i, end)
  }

  predicate HasKey(x: Shape, keys: map<string, real>, key: real)
  {
    x.id in keys && keys[x.id] == key
  }

  ghost predicate RunKeyed(gen: Generator, target: seq<Shape>, keys: map<string, real>, i: nat, end: nat)
    requires i <= end <= |target|
  {
    forall k | i <= k < end ::
      HasKey(target[k], keys, KeyAt(gen(KeyBefore(target, i), KeyAfter(target, end), end - i), k - i))
  }

  /** Every shape of the board gets a new key when some run clashes; otherwise exactly the moved ones, run by run. */
  ghost predicate KeysFor(gen: Generator, target: seq<Shape>, moved: set<string>, keys: map<string, real>)
  {
    if Clash(target, moved) then
      keys.Keys == IdsOf(target)
      && forall k | 0 <= k < |target| :: HasKey(target[k], keys, KeyAt(gen(None, None, |target|), k))
    else
      keys.Keys == IdsOf(target) * moved
      && forall i, end | IsRun(target, moved, i, end) :: RunKeyed(gen, target, keys, i, end)
  }

  method Renumber(target: seq<Shape>, gen: Generator) returns (keys: map<string, real>)
    requires DistinctIds(target)
    ensures keys.Keys == IdsOf(target)
    ensures forall k | 0 <= k < |target| :: HasKey(target[k], keys, KeyAt(gen(None, None, |target|), k))
  {
    var newKeys := gen(None, None, |target|);
    keys := map[];
    for i := 0 to |target|
      invariant keys.Keys == IdsOf(target[..i])
      invariant forall k | 0 <= k < i :: HasKey(target[k], keys, KeyAt(newKeys, k))
    {
      assert target[..i + 1] == target[..i] + [target[i]];
      keys := keys[target[i].id := KeyAt(newKeys, i)];
    }
    assert target[..|target|] == target;
  }

  /** What the loop has done when it stands at `i`. */
  ghost predicate KeyedUpTo(gen: Generator, target: seq<Shape>, moved: set<string>, keys: map<string, real>, i: nat)
    requires i <= |target|
  {
    && (0 < i < |target| && target[i - 1].id in moved ==> target[i].id !in moved)
    && keys.Keys == IdsOf(target[..i]) * moved
    && forall a: nat, b: nat | IsRun(target, moved, a, b) && b <= i :: RunKeyed(gen, target, keys, a, b) && !RunClashes(target, moved, a, b)
  }

  lemma PassOver(gen: Generator, target: seq<Shape>, moved: set<string>, keys: map<string, real>, i: nat)
    requires i < |target| && target[i].id !in moved && KeyedUpTo(gen, target, moved, keys, i)
    ensures KeyedUpTo(gen, target, moved, keys, i + 1)
  {
    assert target[..i + 1] == target[..i] + [target[i]];
    forall a: nat, b: nat | IsRun(target, moved, a, b) && b <= i + 1
      ensures RunKeyed(gen, target, keys, a, b) && !RunClashes(target, moved, a, b)
    {
      assert target[b - 1].id in moved;
      hide RunKeyed, RunClashes;
    }
  }

  /** Two runs that overlap are the same. */
  lemma RunIsUnique(target: seq<Shape>, moved: set<string>, a: nat, b: nat, i: nat, end: nat)
    requires IsRun(target, moved, a, b) && IsRun(target, moved, i, end) && i < b <= end
    ensures a == i && b == end
  {
  }

  /** `keys` differs from `was` only in holding something for `ids`. */
  ghost predicate Adds(was: map<string, real>, keys: map<string, real>, ids: set<string>)
  {
    && keys.Keys == was.Keys + ids
    && (forall id | id in was && id !in ids :: keys[id] == was[id])
  }

  lemma AddsOne(was: map<string, real>, keys: map<string, real>, ids: set<string>, id: string, key: real)
    requires Adds(was, keys, ids)
    ensures Adds(was, keys[id := key], ids + {id})
  {
  }

  /** `keys` extends `was` by the run's keys. */
  ghost predicate Extends(gen: Generator, target: seq<Shape>, was: map<string, real>, keys: map<string, real>, i: nat, end: nat)
    requires i <= end <= |target|
  {
    Adds(was, keys, IdsOf(target[i..end])) && RunKeyed(gen, target, keys, i, end)
  }

  lemma EarlierRunStays(gen: Generator, target: seq<Shape>, was: map<string, real>, keys: map<string, real>,
                        a: nat, b: nat, i: nat, end: nat)
    requires DistinctIds(target) && a <= b <= i <= end <= |target|
    requires RunKeyed(gen, target, was, a, b) && Extends(gen, target, was, keys, i, end)
    ensures RunKeyed(gen, target, keys, a, b)
  {
    forall k | a <= k < b
      ensures target[k].id in was && target[k].id !in IdsOf(target[i..end])
    {
      forall x | x in target[i..end]
        ensures x.id != target[k].id
      {
        var l :| i <= l < end && target[l] == x;
      }
    }
    hide KeyBefore, KeyAfter, DistinctIds, IdsOf;
  }

  lemma RunIds(target: seq<Shape>, moved: set<string>, i: nat, end: nat)
    requires IsRun(target, moved, i, end)
    ensures IdsOf(target[..end]) * moved == IdsOf(target[..i]) * moved + IdsOf(target[i..end])
  {
    var run := target[i..end];
    assert forall x | x in run :: x.id in moved;
    assert IdsOf(run) <= moved;
    hide IdsOf, IsRun;
    IdsAppend(target[..i], run);
    assert target[..end] == target[..i] + run;
  }

  lemma RunDone(gen: Generator, target: seq<Shape>, moved: set<string>, was: map<string, real>, keys: map<string, real>,
                i: nat, end: nat)
    requires DistinctIds(target) && i <= |target| && KeyedUpTo(gen, target, moved, was, i)
    requires IsRun(target, moved, i, end) && !RunClashes(target, moved, i, end)
    requires Extends(gen, target, was, keys, i, end)
    ensures KeyedUpTo(gen, target, moved, keys, end)
  {
    RunIds(target, moved, i, end);
    assert keys.Keys == IdsOf(target[..end]) * moved;
    hide IdsOf, DistinctIds;
    forall a: nat, b: nat | IsRun(target, moved, a, b) && b <= end
      ensures RunKeyed(gen, target, keys, a, b) && !RunClashes(target, moved, a, b)
    {
      if b <= i {
        EarlierRunStays(gen, target, was, keys, a, b, i, end);
      } else {
        RunIsUnique(target, moved, a, b, i, end);
      }
      hide *;
    }
  }

  ghost predicate KeyedFrom(target: seq<Shape>, keys: map<string, real>, runKeys: seq<real>, i: nat, k: nat)
    requires i <= k <= |target|
  {
    forall j | i <= j < k :: HasKey(target[j], keys, KeyAt(runKeys, j - i))
  }

  lemma KeyNext(target: seq<Shape>, keys: map<string, real>, runKeys: seq<real>, i: nat, k: nat)
    requires DistinctIds(target) && i <= k < |target| && KeyedFrom(target, keys, runKeys, i, k)
    ensures KeyedFrom(target, keys[target[k].id := KeyAt(runKeys, k - i)], runKeys, i, k + 1)
  {
    var key := KeyAt(runKeys, k - i);
    hide KeyAt;
    forall j | i <= j < k
      ensures HasKey(target[j], keys[target[k].id := key], KeyAt(runKeys, j - i))
    {
      KeyStays(target, keys, j, k, KeyAt(runKeys, j - i), key);
    }
    assert HasKey(target[k], keys[target[k].id := key], key);
    hide HasKey, DistinctIds;
  }

  lemma KeyStays(target: seq<Shape>, keys: map<string, real>, j: nat, k: nat, had: real, key: real)
    requires DistinctIds(target) && j < k < |target| && HasKey(target[j], keys, had)
    ensures HasKey(target[j], keys[target[k].id := key], had)
  {
  }

  lemma AddsNext(target: seq<Shape>, was: map<string, real>, keys: map<string, real>, i: nat, k: nat, key: real)
    requires i <= k < |target| && Adds(was, keys, IdsOf(target[i..k]))
    ensures Adds(was, keys[target[k].id := key], IdsOf(target[i..k + 1]))
  {
    hide *;
    assert target[i..k + 1] == target[i..k] + [target[k]];
    IdsAppend(target[i..k], [target[k]]);
    AddsOne(was, keys, IdsOf(target[i..k]), target[k].id, key);
  }

  /** The keys of one run. */
  method KeyRun(target: seq<Shape>, gen: Generator, was: map<string, real>, i: nat, end: nat) returns (keys: map<string, real>)
    requires DistinctIds(target) && i <= end <= |target|
    ensures Extends(gen, target, was, keys, i, end)
  {
    var runKeys := gen(KeyBefore(target, i), KeyAfter(target, end), end - i);
    keys := was;
    assert target[i..i] == [] && IdsOf(target[i..i]) == {};
    hide IdsOf, KeyBefore, KeyAfter, KeyAt, DistinctIds, HasKey;
    for k := i to end
      invariant Adds(was, keys, IdsOf(target[i..k])) && KeyedFrom(target, keys, runKeys, i, k)
    {
      KeyNext(target, keys, runKeys, i, k);
      AddsNext(target, was, keys, i, k, KeyAt(runKeys, k - i));
      hide *;
      keys := keys[target[k].id := KeyAt(runKeys, k - i)];
    }
  }

  method AssignKeys(target: seq<Shape>, moved: set<string>, gen: Generator) returns (keys: map<string, real>)
    requires DistinctIds(target)
    ensures KeysFor(gen, target, moved, keys)
  {
    keys := map[];
    var i := 0;
    while i < |target|
      invariant i <= |target|
      invariant KeyedUpTo(gen, target, moved, keys, i)
    {
      if target[i].id !in moved {
        PassOver(gen, target, moved, keys, i);
        i := i + 1;
        continue;
      }
      var end := i;
      while end < |target| && target[end].id in moved
        invariant i <= end <= |target|
        invariant forall k | i <= k < end :: target[k].id in moved
      {
        end := end + 1;
      }
      var before, after := KeyBefore(target, i), KeyAfter(target, end);
      if before.Some? && after.Some? && before.value >= after.value {
        assert RunClashes(target, moved, i, end);
        keys := Renumber(target, gen);
        return;
      }
      ghost var was := keys;
      keys := KeyRun(target, gen, keys, i, end);
      RunDone(gen, target, moved, was, keys, i, end);
      i := end;
    }
  }

  /** The keys to write for a mode, given the whole board in drawing order, its ids distinct. */
  method ReorderKeys(ordered: seq<Shape>, ids: set<string>, mode: ReorderMode, gen: Generator) returns (keys: map<string, real>)
    requires DistinctIds(ordered)
    ensures KeysFor(gen, Target(ordered, ids, mode), ids, keys)
  {
    var moving := Filter(Chosen(ids), ordered);
    TargetIsBoard(ordered, ids, mode);
    if |moving| == 0 {
      NothingMoves(gen, ordered, Target(ordered, ids, mode), ids);
      return map[];
    }
    var rest := Filter(Others(ids), ordered);
    var target: seq<Shape>;
    match mode {
      case Front => target := rest + moving;
      case Back => target := moving + rest;
      case Forward =>
        var stepped := StepForward(ordered, ids);
        target := stepped[..];
      case Backward =>
        var stepped := StepForward(Reversed(ordered), ids);
        target := Reversed(stepped[..]);
    }
    keys := AssignKeys(target, ids, gen);
  }

  lemma TargetIsBoard(ordered: seq<Shape>, ids: set<string>, mode: ReorderMode)
    requires DistinctIds(ordered)
    ensures DistinctIds(Target(ordered, ids, mode))
    ensures forall x :: x in Target(ordered, ids, mode) <==> x in ordered
  {
    var t := Target(ordered, ids, mode);
    TargetKeepsOrder(ordered, ids, mode);
    PermutationKeeps(ordered, t, "");
    assert forall x :: x in t <==> x in multiset(t);
    assert forall x :: x in ordered <==> x in multiset(ordered);
  }

  lemma NothingMoves(gen: Generator, ordered: seq<Shape>, target: seq<Shape>, ids: set<string>)
    requires Filter(Chosen(ids), ordered) == [] && forall x :: x in target <==> x in ordered
    ensures KeysFor(gen, target, ids, map[])
  {
    forall x | x in target
      ensures x.id !in ids
    {
      FilterMember(Chosen(ids), ordered, x);
    }
    assert forall i: nat, end: nat | IsRun(target, ids, i, end) :: target[i] in target && target[i].id in ids;
    assert IdsOf(target) * ids == {};
  }

  // ----- the keys put the board in the order asked for -----

  function Rekeyed(keys: map<string, real>): Shape -> Shape
  {
    (s: Shape) => if s.id in keys then Shape(s.id, keys[s.id]) else s
  }

  /** The board once the keys are written. */
  function Apply(s: seq<Shape>, keys: map<string, real>): seq<Shape>
  {
    Map(Rekeyed(keys), s)
  }

  lemma {:induction false} FilterStaysSorted(p: Shape -> bool, s: seq<Shape>)
    requires Sorted(s)
    ensures Sorted(Filter(p, s))
  {
    if s != [] {
      FilterStaysSorted(p, s[1..]);
      forall x | x in Filter(p, s[1..])
        ensures CompareOrder(s[0], x) < 0
      {
        FilterMember(p, s[1..], x);
        var k :| 0 <= k < |s[1..]| && s[1..][k] == x;
        assert x == s[k + 1];
      }
      hide CompareOrder;
    }
  }

  /** In a board whose unchosen shapes are in order, any two of them are. */
  lemma UnmovedInOrder(target: seq<Shape>, moved: set<string>, i: nat, j: nat)
    requires Sorted(Filter(Others(moved), target)) && i < j < |target|
    requires target[i].id !in moved && target[j].id !in moved
    ensures CompareOrder(target[i], target[j]) < 0
  {
    var a, b := FilterKeepsPair(Others(moved), target, i, j);
    hide Filter, CompareOrder;
  }

  lemma RunAround(target: seq<Shape>, moved: set<string>, m: nat) returns (i: nat, end: nat)
    requires m < |target| && target[m].id in moved
    ensures IsRun(target, moved, i, end) && i <= m < end
  {
    i, end := m, m + 1;
    while i > 0 && target[i - 1].id in moved
      invariant i <= m && forall k | i <= k <= m :: target[k].id in moved
    {
      i := i - 1;
    }
    while end < |target| && target[end].id in moved
      invariant m < end <= |target| && forall k | i <= k < end :: target[k].id in moved
    {
      end := end + 1;
    }
  }

  /** The new keys of a run ascend and lie strictly between its neighbours' keys. */
  lemma RunFits(gen: Generator, target: seq<Shape>, moved: set<string>, keys: map<string, real>, i: nat, end: nat)
    requires Generates(gen) && KeysFor(gen, target, moved, keys) && !Clash(target, moved) && IsRun(target, moved, i, end)
    ensures forall k | i <= k < end :: target[k].id in keys
    ensures forall k | i < k < end :: keys[target[k - 1].id] < keys[target[k].id]
    ensures i > 0 ==> target[i - 1].zIndex < keys[target[i].id]
    ensures end < |target| ==> keys[target[end - 1].id] < target[end].zIndex
  {
    assert !RunClashes(target, moved, i, end);
    assert RunKeyed(gen, target, keys, i, end);
    var low, high := KeyBefore(target, i), KeyAfter(target, end);
    assert AreBetween(gen(low, high, end - i), low, high, end - i);
    hide Clash, KeysFor, Generates;
    forall k | i <= k < end
      ensures HasKey(target[k], keys, gen(low, high, end - i)[k - i])
    {
    }
  }

  lemma RenumberedFit(gen: Generator, target: seq<Shape>, moved: set<string>, keys: map<string, real>, m: nat)
    requires Generates(gen) && KeysFor(gen, target, moved, keys) && Clash(target, moved) && 0 < m < |target|
    ensures CompareOrder(Rekeyed(keys)(target[m - 1]), Rekeyed(keys)(target[m])) < 0
  {
    var all := gen(None, None, |target|);
    assert AreBetween(all, None, None, |target|);
    hide Generates, Clash, IdsOf;
    assert HasKey(target[m - 1], keys, KeyAt(all, m - 1)) && HasKey(target[m], keys, KeyAt(all, m));
  }

  lemma UnmovedStay(gen: Generator, target: seq<Shape>, moved: set<string>, keys: map<string, real>, x: Shape)
    requires KeysFor(gen, target, moved, keys) && !Clash(target, moved) && x.id !in moved
    ensures Rekeyed(keys)(x) == x
  {
    hide Clash, IsRun, RunKeyed, IdsOf;
    assert keys.Keys == IdsOf(target) * moved;
  }

  lemma MovedChange(gen: Generator, target: seq<Shape>, moved: set<string>, keys: map<string, real>, m: nat)
    returns (i: nat, end: nat)
    requires Generates(gen) && KeysFor(gen, target, moved, keys) && !Clash(target, moved)
    requires m < |target| && target[m].id in moved
    ensures i <= m < end <= |target| && target[m].id in keys
    ensures i < m ==> target[m - 1].id in keys && keys[target[m - 1].id] < keys[target[m].id]
    ensures i == m && m > 0 ==> target[m - 1].id !in moved && target[m - 1].zIndex < keys[target[m].id]
    ensures end == m + 1 < |target| ==> keys[target[m].id] < target[m + 1].zIndex
    ensures end > m + 1 ==> target[m + 1].id in moved
  {
    hide KeysFor, Clash, Generates;
    i, end := RunAround(target, moved, m);
    RunFits(gen, target, moved, keys, i, end);
  }

  lemma NeighboursFit(gen: Generator, target: seq<Shape>, moved: set<string>, keys: map<string, real>, m: nat)
    requires Generates(gen) && KeysFor(gen, target, moved, keys)
    requires Sorted(Filter(Others(moved), target)) && 0 < m < |target|
    ensures CompareOrder(Rekeyed(keys)(target[m - 1]), Rekeyed(keys)(target[m])) < 0
  {
    var a, b := target[m - 1], target[m];
    hide KeysFor, Clash, Generates;
    if Clash(target, moved) {
      RenumberedFit(gen, target, moved, keys, m);
    } else if b.id in moved {
      var i, end := MovedChange(gen, target, moved, keys, m);
      if i == m { UnmovedStay(gen, target, moved, keys, a); }
    } else {
      UnmovedStay(gen, target, moved, keys, b);
      if a.id in moved {
        var i, end := MovedChange(gen, target, moved, keys, m - 1);
      } else {
        UnmovedStay(gen, target, moved, keys, a);
        UnmovedInOrder(target, moved, m - 1, m);
      }
    }
  }

  lemma {:induction false} MapIsPermutation(f: Shape -> Shape, s: seq<Shape>, t: seq<Shape>)
    requires multiset(s) == multiset(t)
    ensures multiset(Map(f, s)) == multiset(Map(f, t))
  {
    hide Map;
    if s == [] {
      assert |t| == |multiset(t)| == 0;
    } else {
      assert s[0] in multiset(t);
      var k :| 0 <= k < |t| && t[k] == s[0];
      RemoveCounts(s, 0);
      RemoveCounts(t, k);
      MapIsPermutation(f, Remove(s, 0), Remove(t, k));
      MapRemove(f, s, 0);
      MapRemove(f, t, k);
      hide Remove;
      RemoveCounts(Map(f, s), 0);
      RemoveCounts(Map(f, t), k);
    }
  }

  /**
   * For every mode and selection: once the keys are written, the board sorts into exactly the order the mode asked
   * for, and no other result of sorting is possible.
   */
  lemma ReorderReachesTarget(gen: Generator, ordered: seq<Shape>, ids: set<string>, mode: ReorderMode,
                             keys: map<string, real>, sorted: seq<Shape>)
    requires Generates(gen) && DistinctIds(ordered) && Sorted(ordered)
    requires KeysFor(gen, Target(ordered, ids, mode), ids, keys)
    ensures Sorted(sorted) && multiset(sorted) == multiset(Apply(ordered, keys)) <==>
            sorted == Apply(Target(ordered, ids, mode), keys)
  {
    var target := Target(ordered, ids, mode);
    TargetKeepsOrder(ordered, ids, mode);
    FilterStaysSorted(Others(ids), ordered);
    hide Target, KeysFor, Sorted, Filter, Generates, DistinctIds, Map;
    var applied := Apply(target, keys);
    forall m | 0 < m < |target|
      ensures CompareOrder(applied[m - 1], applied[m]) < 0
    {
      NeighboursFit(gen, target, ids, keys, m);
    }
    hide CompareOrder, Rekeyed;
    NeighboursSort(applied);
    MapIsPermutation(Rekeyed(keys), ordered, target);
    if Sorted(sorted) && multiset(sorted) == multiset(applied) {
      SortedIsUnique(sorted, applied);
    }
  }

  /** Only chosen shapes get new keys, unless the unchosen neighbours of some moved run have the same key. */
  lemma OnlyChosenUnlessTied(gen: Generator, ordered: seq<Shape>, ids: set<string>, mode: ReorderMode, keys: map<string, real>)
    requires DistinctIds(ordered) && Sorted(ordered)
    requires KeysFor(gen, Target(ordered, ids, mode), ids, keys)
    ensures keys.Keys <= ids <==> !Tied(Target(ordered, ids, mode), ids)
    ensures keys.Keys == (if Tied(Target(ordered, ids, mode), ids) then IdsOf(ordered) else IdsOf(ordered) * ids)
  {
    var target := Target(ordered, ids, mode);
    TargetIsBoard(ordered, ids, mode);
    assert IdsOf(target) == IdsOf(ordered);
    ClashIsTie(ordered, ids, mode);
    if Clash(target, ids) {
      var i: nat, end: nat :| RunClashes(target, ids, i, end);
      assert target[end] in target && target[end].id in IdsOf(target);
    }
    hide Target, IdsOf, Clash, Tied, Sorted, DistinctIds;
  }

  /** Some moved run has an unchosen shape on either side, and these two have the same key. */
  ghost predicate Tied(target: seq<Shape>, moved: set<string>)
  {
    exists i: nat, end: nat :: RunTied(target, moved, i, end)
  }

  ghost predicate RunTied(target: seq<Shape>, moved: set<string>, i: nat, end: nat)
  {
    IsRun(target, moved, i, end) && KeyBefore(target, i).Some? && KeyBefore(target, i) == KeyAfter(target, end)
  }

  /** Three shapes, the lower two with the same key. */
  const TIED_BOARD := [Shape("a", 1.0), Shape("b", 1.0), Shape("c", 2.0)]

  lemma TiedBoardSteps()
    ensures Target(TIED_BOARD, {"c"}, Backward) == [TIED_BOARD[0], TIED_BOARD[2], TIED_BOARD[1]]
  {
    var a, b, c := TIED_BOARD[0], TIED_BOARD[1], TIED_BOARD[2];
    var back := [c, b, a];
    assert Reversed(TIED_BOARD) == back;
    assert back[1..] == [b, a] && [b, a][1..] == [a] && [a][1..] == [];
    assert Stepped([a], {"c"}) == [a];
    assert Stepped([b, a], {"c"}) == [b, a];
    assert Stepped(back, {"c"}) == [b, c, a];
  }

  /** The topmost steps back between the two, and all three get new keys. */
  lemma TieGivesOthersKeys(gen: Generator, keys: map<string, real>)
    requires KeysFor(gen, Target(TIED_BOARD, {"c"}, Backward), {"c"}, keys)
    ensures "a" in keys && "b" in keys
  {
    TiedBoardSteps();
    hide Target, KeysFor, IdsOf;
    assert Before("a", "b");
    assert Sorted(TIED_BOARD) && DistinctIds(TIED_BOARD);
    assert RunTied(Target(TIED_BOARD, {"c"}, Backward), {"c"}, 1, 2);
    OnlyChosenUnlessTied(gen, TIED_BOARD, {"c"}, Backward, keys);
    hide Before, CompareOrder, IsRun;
    InIds(TIED_BOARD, 0);
    InIds(TIED_BOARD, 1);
  }

  lemma InIds(s: seq<Shape>, i: nat)
    requires i < |s|
    ensures s[i].id in IdsOf(s)
  {
    assert s[i] in s;
  }

  lemma ClashIsTie(ordered: seq<Shape>, ids: set<string>, mode: ReorderMode)
    requires Sorted(ordered)
    ensures Clash(Target(ordered, ids, mode), ids) <==> Tied(Target(ordered, ids, mode), ids)
  {
    var target := Target(ordered, ids, mode);
    TargetKeepsOrder(ordered, ids, mode);
    FilterStaysSorted(Others(ids), ordered);
    hide Target, Filter, Sorted, IsRun, CompareOrder;
    if Tied(target, ids) {
      var i: nat, end: nat :| RunTied(target, ids, i, end);
      assert RunClashes(target, ids, i, end);
    }
    if Clash(target, ids) {
      var i: nat, end: nat :| RunClashes(target, ids, i, end);
      ClashingRunIsTied(target, ids, i, end);
    }
  }

  lemma ClashingRunIsTied(target: seq<Shape>, moved: set<string>, i: nat, end: nat)
    requires Sorted(Filter(Others(moved), target)) && RunClashes(target, moved, i, end)
    ensures RunTied(target, moved, i, end)
  {
    UnmovedInOrder(target, moved, i - 1, end);
    hide Filter, Sorted;
  }
}