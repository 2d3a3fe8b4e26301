/** Walks and reachability over a finite relation, the vocabulary of every graph specification below. */
module Reachability {

  /** `w` is a nonempty sequence whose consecutive elements are joined by an arc. */
  ghost predicate IsWalk<T(!new)>(arcs: set<(T, T)>, w: seq<T>)
  {
    |w| > 0 && (|w| > 1 ==> (w[0], w[1]) in arcs && IsWalk(arcs, w[1..]))
  }

  ghost predicate WalkJoins<T(!new)>(arcs: set<(T, T)>, w: seq<T>, u: T, v: T)
  {
    IsWalk(arcs, w) && w[0] == u && w[|w| - 1] == v
  }

  /** Some walk, possibly of a single vertex, leads from `u` to `v`. */
  ghost predicate Reach<T(!new)>(arcs: set<(T, T)>, u: T, v: T)
  {
    exists w: seq<T> :: WalkJoins(arcs, w, u, v)
  }

  ghost predicate MutuallyReachable<T(!new)>(arcs: set<(T, T)>, u: T, v: T)
  {
    Reach(arcs, u, v) && Reach(arcs, v, u)
  }

  ghost predicate Closed<T(!new)>(arcs: set<(T, T)>, s: set<T>)
  {
    forall u, v :: (u, v) in arcs && u in s ==> v in s
  }

  lemma ReachSelf<T(!new)>(arcs: set<(T, T)>, u: T)
    ensures Reach(arcs, u, u)
  {
    assert WalkJoins(arcs, [u], u, u);
  }

  lemma ReachArc<T(!new)>(arcs: set<(T, T)>, u: T, v: T)
    requires (u, v) in arcs
    ensures Reach(arcs, u, v)
  {
    assert [u, v][1..] == [v];
    assert WalkJoins(arcs, [u, v], u, v);
  }

  /** Two walks sharing an end point join into one. */
  lemma {:induction false} WalkAppend<T(!new)>(arcs: set<(T, T)>, a: seq<T>, b: seq<T>)
    requires IsWalk(arcs, a) && IsWalk(arcs, b) && a[|a| - 1] == b[0]
    ensures IsWalk(arcs, a + b[1..])
    ensures (a + b[1..])[0] == a[0] && (a + b[1..])[|a + b[1..]| - 1] == b[|b| - 1]
  {
    if |a| == 1 {
      assert a + b[1..] == b;
    } else {
      WalkAppend(arcs, a[1..], b);
      assert (a + b[1..])[1..] == a[1..] + b[1..];
    }
  }

  lemma ReachTransitive<T(!new)>(arcs: set<(T, T)>, u: T, v: T, x: T)
    requires Reach(arcs, u, v) && Reach(arcs, v, x)
    ensures Reach(arcs, u, x)
  {
    var a :| WalkJoins(arcs, a, u, v);
    var b :| WalkJoins(arcs, b, v, x);
    WalkAppend(arcs, a, b);
    assert WalkJoins(arcs, a + b[1..], u, x);
  }

  lemma {:induction false} WalkStaysInside<T(!new)>(arcs: set<(T, T)>, s: set<T>, w: seq<T>)
    requires Closed(arcs, s) && IsWalk(arcs, w) && w[0] in s
    ensures w[|w| - 1] in s
  {
    if |w| > 1 {
      WalkStaysInside(arcs, s, w[1..]);
    }
  }

  /** A closed set contains everything its members reach. */
  lemma ClosedContainsReach<T(!new)>(arcs: set<(T, T)>, s: set<T>, u: T, v: T)
    requires Closed(arcs, s) && u in s && Reach(arcs, u, v)
    ensures v in s
  {
    var w :| WalkJoins(arcs, w, u, v);
    WalkStaysInside(arcs, s, w);
  }
}
