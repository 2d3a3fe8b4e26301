/** Strongly connected components: Tarjan's algorithm with an explicit stack of frames. */
module Tarjan {
  import opened Reachability
  import opened Graph

  // ----- what the caller is promised -----

  /** The components are nonempty, list each vertex once, and together list exactly the vertices. */
  ghost predicate Partitions(components: seq<seq<NodeId>>, vertices: set<NodeId>)
  {
    && (forall c | 0 <= c < |components| :: components[c] != [])
    && (forall c, i, j | 0 <= c < |components| && 0 <= i < j < |components[c]| :: components[c][i] != components[c][j])
    && (forall c, d, x | 0 <= c < d < |components| && x in components[c] :: x !in components[d])
    && (forall x :: x in vertices <==> exists c :: 0 <= c < |components| && x in components[c])
  }

  /** Two vertices share a component exactly when each reaches the other. */
  ghost predicate ClassesOfMutualReachability(g: SubGraph, components: seq<seq<NodeId>>)
  {
    forall c, d, x, y | 0 <= c < |components| && 0 <= d < |components| && x in components[c] && y in components[d] ::
      c == d <==> MutuallyReachable(Arcs(g), x, y)
  }

  /** Every arc stays inside its component or points to an earlier component of the list. */
  ghost predicate ReverseTopological(g: SubGraph, components: seq<seq<NodeId>>)
  {
    forall c, d, x, y | 0 <= c < |components| && 0 <= d < |components| && x in components[c] && y in components[d]
      && (x, y) in Arcs(g) :: d <= c
  }

  // ----- the marks the search leaves on vertices -----

  /**
   * What the search knows of the vertices: discovery index, low link, stack membership, for every node with an
   * open frame the number of successors visited, and for every finished node the list position of its component.
   */
  datatype Marks = Marks(indexOf: map<NodeId, nat>, lowLink: map<NodeId, nat>, onStack: set<NodeId>,
                         next: map<NodeId, nat>, comp: map<NodeId, nat>)

  ghost function Idx(m: Marks, x: NodeId): nat { if x in m.indexOf then m.indexOf[x] else 0 }

  ghost function Low(m: Marks, x: NodeId): nat { if x in m.lowLink then m.lowLink[x] else 0 }

  ghost predicate Shape(g: SubGraph, m: Marks)
  {
    && (forall x :: x in m.indexOf <==> x in m.onStack || x in m.comp)
    && (forall x | x in m.onStack :: x !in m.comp)
    && (forall x, y | x in m.onStack && y in m.onStack && x != y :: Idx(m, x) != Idx(m, y))
    && (forall f | f in m.next :: f in m.onStack && f in m.lowLink && m.next[f] <= |Successors(g, f)|)
  }

  /** A frame reaches everything found since it was opened. */
  ghost predicate FramesReach(g: SubGraph, m: Marks)
  {
    forall f, x | f in m.next && x in m.onStack && Idx(m, f) <= Idx(m, x) :: Reach(Arcs(g), f, x)
  }

  ghost predicate Anchor(g: SubGraph, m: Marks, x: NodeId, f: NodeId)
  {
    f in m.next && Idx(m, f) <= Idx(m, x) && Reach(Arcs(g), x, f)
  }

  ghost predicate HasAnchor(g: SubGraph, m: Marks, x: NodeId)
  {
    exists f :: Anchor(g, m, x, f)
  }

  /** Every stack member reaches a frame opened no later than it was found. */
  ghost predicate Anchored(g: SubGraph, m: Marks)
  {
    forall x {:trigger HasAnchor(g, m, x)} | x in m.onStack :: HasAnchor(g, m, x)
  }

  /** The `k`-th successor of `x`, or `x` itself past the end of the list. */
  ghost function Successor(g: SubGraph, x: NodeId, k: nat): NodeId
  {
    if k < |Successors(g, x)| then Successors(g, x)[k] else x
  }

  /** The search has looked at the `k`-th successor of `x`. */
  ghost predicate Explored(g: SubGraph, m: Marks, x: NodeId, k: nat)
  {
    x in m.onStack && k < |Successors(g, x)| && (x in m.next ==> k < m.next[x])
  }

  ghost predicate ExploredIsVisited(g: SubGraph, m: Marks)
  {
    forall x, k: nat | Explored(g, m, x, k) :: Successor(g, x, k) in m.indexOf
  }

  /** `f` is the last frame opened no later than `x` was found. */
  ghost predicate Segment(m: Marks, f: NodeId, x: NodeId)
  {
    && f in m.next && Idx(m, f) <= Idx(m, x)
    && forall f' | f' in m.next && Idx(m, f') <= Idx(m, x) :: Idx(m, f') <= Idx(m, f)
  }

  /** A frame's low link bounds every explored arc of its segment that stays on the stack. */
  ghost predicate LowBounds(g: SubGraph, m: Marks)
  {
    forall f, x, k: nat | Segment(m, f, x) && Explored(g, m, x, k) && Successor(g, x, k) in m.onStack ::
      Low(m, f) <= Idx(m, Successor(g, x, k))
  }

  ghost predicate LowWitness(g: SubGraph, m: Marks, f: NodeId, y: NodeId)
  {
    y in m.onStack && Idx(m, y) == Low(m, f) && Reach(Arcs(g), f, y)
  }

  ghost predicate HasLowWitness(g: SubGraph, m: Marks, f: NodeId)
  {
    Low(m, f) <= Idx(m, f) && exists y :: LowWitness(g, m, f, y)
  }

  /** A frame's low link is at most its index, and is the index of a stack member the frame reaches. */
  ghost predicate LowAttained(g: SubGraph, m: Marks)
  {
    forall f {:trigger HasLowWitness(g, m, f)} | f in m.next :: HasLowWitness(g, m, f)
  }

  /** Finished nodes lead only to components numbered no later; each component is strongly connected. */
  ghost predicate Finished(g: SubGraph, m: Marks)
  {
    && (forall x, y | x in m.comp && (x, y) in Arcs(g) :: y in m.comp && m.comp[y] <= m.comp[x])
    && (forall x, y | x in m.comp && y in m.comp && m.comp[x] == m.comp[y] :: Reach(Arcs(g), x, y))
  }

  ghost predicate Invariant(g: SubGraph, m: Marks)
  {
    && Shape(g, m) && FramesReach(g, m) && Anchored(g, m)
    && ExploredIsVisited(g, m) && LowBounds(g, m) && LowAttained(g, m) && Finished(g, m)
  }

  /** `v` has the frame opened last. */
  ghost predicate Top(m: Marks, v: NodeId)
  {
    v in m.next && forall f | f in m.next :: Idx(m, f) <= Idx(m, v)
  }

  lemma SegmentOfOlder(m: Marks, t: Marks, f: NodeId, x: NodeId)
    requires Segment(t, f, x) && f in m.next && Idx(t, x) == Idx(m, x)
    requires forall f' | f' in m.next :: f' in t.next && Idx(t, f') == Idx(m, f')
    ensures Segment(m, f, x)
  {
    forall f' | f' in m.next && Idx(m, f') <= Idx(m, x)
      ensures Idx(m, f') <= Idx(m, f)
    {
      assert f' in t.next;
    }
  }

  // ----- opening a frame -----

  ghost function Open(m: Marks, w: NodeId, counter: nat): Marks
  {
    m.(indexOf := m.indexOf[w := counter], lowLink := m.lowLink[w := counter],
       onStack := m.onStack + {w}, next := m.next[w := 0])
  }

  ghost predicate CanOpen(g: SubGraph, m: Marks, w: NodeId, counter: nat)
  {
    && w !in m.indexOf
    && (forall x | x in m.indexOf :: m.indexOf[x] < counter)
    && (forall f | f in m.next :: Reach(Arcs(g), f, w))
  }

  lemma OpenKeepsReach(g: SubGraph, m: Marks, w: NodeId, counter: nat)
    requires Shape(g, m) && FramesReach(g, m) && CanOpen(g, m, w, counter)
    ensures Shape(g, Open(m, w, counter)) && FramesReach(g, Open(m, w, counter))
  {
    hide Reach, Successors;
    ReachSelf(Arcs(g), w);
  }

  lemma OpenKeepsAnchors(g: SubGraph, m: Marks, w: NodeId, counter: nat)
    requires Shape(g, m) && Anchored(g, m) && CanOpen(g, m, w, counter)
    ensures Anchored(g, Open(m, w, counter))
  {
    hide Reach, Successors;
    var t := Open(m, w, counter);
    ReachSelf(Arcs(g), w);
    forall x | x in t.onStack
      ensures HasAnchor(g, t, x)
    {
      if x == w {
        assert Anchor(g, t, w, w);
      } else {
        assert HasAnchor(g, m, x);
        var f :| Anchor(g, m, x, f);
        assert Anchor(g, t, x, f);
      }
    }
  }

  lemma OpenKeepsLowBounds(g: SubGraph, m: Marks, w: NodeId, counter: nat)
    requires Shape(g, m) && ExploredIsVisited(g, m) && LowBounds(g, m) && CanOpen(g, m, w, counter)
    ensures ExploredIsVisited(g, Open(m, w, counter)) && LowBounds(g, Open(m, w, counter))
  {
    hide Reach, Successors;
    var t := Open(m, w, counter);
    forall x, k: nat | Explored(g, t, x, k)
      ensures Successor(g, x, k) in t.indexOf && x != w && Explored(g, m, x, k)
    {
    }
    forall f, x, k: nat | Segment(t, f, x) && Explored(g, t, x, k) && Successor(g, x, k) in t.onStack
      ensures Low(t, f) <= Idx(t, Successor(g, x, k))
    {
      SegmentOfOlder(m, t, f, x);
    }
  }

  lemma OpenKeepsLowAttained(g: SubGraph, m: Marks, w: NodeId, counter: nat)
    requires Shape(g, m) && LowAttained(g, m) && CanOpen(g, m, w, counter)
    ensures LowAttained(g, Open(m, w, counter))
  {
    hide Reach, Successors;
    var t := Open(m, w, counter);
    ReachSelf(Arcs(g), w);
    forall f | f in t.next
      ensures HasLowWitness(g, t, f)
    {
      if f == w {
        assert LowWitness(g, t, w, w);
      } else {
        assert HasLowWitness(g, m, f);
        var y :| LowWitness(g, m, f, y);
        assert LowWitness(g, t, f, y);
      }
    }
  }

  lemma OpenKeepsInvariant(g: SubGraph, m: Marks, w: NodeId, counter: nat)
    requires Invariant(g, m) && CanOpen(g, m, w, counter)
    ensures Invariant(g, Open(m, w, counter))
  {
    hide Reach, Shape, FramesReach, Anchored, LowBounds, LowAttained, ExploredIsVisited, CanOpen;
    OpenKeepsReach(g, m, w, counter);
    OpenKeepsAnchors(g, m, w, counter);
    OpenKeepsLowBounds(g, m, w, counter);
    OpenKeepsLowAttained(g, m, w, counter);
  }

  // ----- lowering a low link -----

  ghost function Lower(m: Marks, f: NodeId, bound: nat): Marks
  {
    m.(lowLink := m.lowLink[f := if bound < Low(m, f) then bound else Low(m, f)])
  }

  lemma LowerKeepsInvariant(g: SubGraph, m: Marks, f: NodeId, y: NodeId)
    requires Invariant(g, m) && f in m.next && y in m.onStack && Reach(Arcs(g), f, y)
    ensures Invariant(g, Lower(m, f, Idx(m, y)))
  {
    hide Reach, Successors;
    LowerKeepsAnchors(g, m, f, Idx(m, y));
    LowerKeepsLowAttained(g, m, f, y);
    LowerKeepsLowBounds(g, m, f, Idx(m, y));
  }

  lemma LowerKeepsAnchors(g: SubGraph, m: Marks, f: NodeId, bound: nat)
    requires Anchored(g, m)
    ensures Anchored(g, Lower(m, f, bound))
  {
    hide Reach;
    var t := Lower(m, f, bound);
    forall x | x in t.onStack
      ensures HasAnchor(g, t, x)
    {
      assert HasAnchor(g, m, x);
      var f' :| Anchor(g, m, x, f');
      assert Anchor(g, t, x, f');
    }
  }

  lemma LowerKeepsLowBounds(g: SubGraph, m: Marks, f: NodeId, bound: nat)
    requires LowBounds(g, m)
    ensures LowBounds(g, Lower(m, f, bound))
  {
    hide Successors;
    var t := Lower(m, f, bound);
    forall f', x, k: nat | Segment(t, f', x) && Explored(g, t, x, k) && Successor(g, x, k) in t.onStack
      ensures Low(t, f') <= Idx(t, Successor(g, x, k))
    {
      SegmentOfOlder(m, t, f', x);
      assert Explored(g, m, x, k);
    }
  }

  lemma LowerKeepsLowAttained(g: SubGraph, m: Marks, f: NodeId, y: NodeId)
    requires LowAttained(g, m) && f in m.next && y in m.onStack && Reach(Arcs(g), f, y)
    ensures LowAttained(g, Lower(m, f, Idx(m, y)))
  {
    hide Reach;
    var t := Lower(m, f, Idx(m, y));
    forall f' | f' in t.next
      ensures HasLowWitness(g, t, f')
    {
      assert HasLowWitness(g, m, f');
      var z :| LowWitness(g, m, f', z);
      assert LowWitness(g, t, f', if f' == f && Idx(m, y) < Low(m, f) then y else z);
    }
  }

  // ----- looking at one more successor -----

  ghost function Advance(m: Marks, v: NodeId): Marks
    requires v in m.next
  {
    m.(next := m.next[v := m.next[v] + 1])
  }

  lemma AdvanceKeepsInvariant(g: SubGraph, m: Marks, v: NodeId)
    requires Invariant(g, m) && v in m.next && m.next[v] < |Successors(g, v)|
    requires var w := Successor(g, v, m.next[v]); w in m.indexOf && (w in m.onStack ==> Low(m, v) <= Idx(m, w))
    ensures Invariant(g, Advance(m, v))
  {
    hide Reach, Successors;
    AdvanceKeepsWitnesses(g, m, v);
    AdvanceKeepsLowBounds(g, m, v);
  }

  lemma AdvanceKeepsWitnesses(g: SubGraph, m: Marks, v: NodeId)
    requires Anchored(g, m) && LowAttained(g, m) && v in m.next
    ensures Anchored(g, Advance(m, v)) && LowAttained(g, Advance(m, v))
  {
    hide Reach;
    var t := Advance(m, v);
    forall x | x in t.onStack
      ensures HasAnchor(g, t, x)
    {
      assert HasAnchor(g, m, x);
      var f :| Anchor(g, m, x, f);
      assert Anchor(g, t, x, f);
    }
    forall f | f in t.next
      ensures HasLowWitness(g, t, f)
    {
      assert HasLowWitness(g, m, f);
      var y :| LowWitness(g, m, f, y);
      assert LowWitness(g, t, f, y);
    }
  }

  lemma AdvanceKeepsLowBounds(g: SubGraph, m: Marks, v: NodeId)
    requires Shape(g, m) && ExploredIsVisited(g, m) && LowBounds(g, m) && v in m.next && m.next[v] < |Successors(g, v)|
    requires var w := Successor(g, v, m.next[v]); w in m.indexOf && (w in m.onStack ==> Low(m, v) <= Idx(m, w))
    ensures ExploredIsVisited(g, Advance(m, v)) && LowBounds(g, Advance(m, v))
  {
    var t := Advance(m, v);
    assert ExploredIsVisited(g, t) by {
      hide Successors, LowBounds, Segment;
      assert forall x, k: nat | Explored(g, t, x, k) :: (x == v && k == m.next[v]) || Explored(g, m, x, k);
    }
    forall f, x, k: nat | Segment(t, f, x) && Explored(g, t, x, k) && Successor(g, x, k) in t.onStack
      ensures Low(t, f) <= Idx(t, Successor(g, x, k))
    {
      AdvancedBound(g, m, v, f, x, k);
    }
  }

  /** The arc just explored is bounded by what was asked of it, every other one as before. */
  lemma AdvancedBound(g: SubGraph, m: Marks, v: NodeId, f: NodeId, x: NodeId, k: nat)
    requires Shape(g, m) && LowBounds(g, m) && v in m.next && m.next[v] < |Successors(g, v)|
    requires var w := Successor(g, v, m.next[v]); w in m.onStack ==> Low(m, v) <= Idx(m, w)
    requires Segment(Advance(m, v), f, x) && Explored(g, Advance(m, v), x, k) && Successor(g, x, k) in m.onStack
    ensures Low(m, f) <= Idx(m, Successor(g, x, k))
  {
    var t := Advance(m, v);
    SegmentOfOlder(m, t, f, x);
    if x == v && k == m.next[v] {
      assert f == v;
    } else {
      hide Shape, Segment, Successors, Successor;
      assert Explored(g, m, x, k);
    }
  }

  // ----- closing a frame -----

  ghost predicate Exhausted(g: SubGraph, m: Marks, v: NodeId)
  {
    Top(m, v) && m.next[v] == |Successors(g, v)|
  }

  /** The top frame goes, its node stays on the stack. */
  ghost function Drop(m: Marks, v: NodeId): Marks
  {
    m.(next := m.next - {v})
  }

  /** `v`'s low link is an older node's index; the frame below, if any, has taken it over. */
  ghost predicate CanDrop(g: SubGraph, m: Marks, v: NodeId)
  {
    Exhausted(g, m, v) && Low(m, v) < Idx(m, v) && forall p | Top(Drop(m, v), p) :: Low(m, p) <= Low(m, v)
  }

  /** Whatever anchors at the dropped frame finds another anchor below it. */
  lemma DropKeepsAnchors(g: SubGraph, m: Marks, v: NodeId)
    requires Shape(g, m) && Anchored(g, m) && LowAttained(g, m) && CanDrop(g, m, v)
    ensures Anchored(g, Drop(m, v))
  {
    hide Reach, Successors;
    var t := Drop(m, v);
    assert HasLowWitness(g, m, v);
    var y :| LowWitness(g, m, v, y);
    assert HasAnchor(g, m, y);
    var base :| Anchor(g, m, y, base);
    ReachTransitive(Arcs(g), v, y, base);
    forall x | x in t.onStack
      ensures HasAnchor(g, t, x)
    {
      assert HasAnchor(g, m, x);
      var f :| Anchor(g, m, x, f);
      if f == v {
        ReachTransitive(Arcs(g), x, v, base);
        assert Anchor(g, t, x, base);
      } else {
        assert Anchor(g, t, x, f);
      }
    }
  }

  lemma ClosingMergesSegments(m: Marks, t: Marks, v: NodeId, f: NodeId, x: NodeId)
    requires Top(m, v) && t.next == m.next - {v} && t.indexOf == m.indexOf && Segment(t, f, x)
    ensures if Idx(m, v) <= Idx(m, x) then Segment(m, v, x) && Top(t, f) else Segment(m, f, x)
  {
    assert forall f' :: f' in t.next <==> f' in m.next && f' != v;
    assert forall f' | f' in m.next :: Idx(t, f') == Idx(m, f');
  }

  lemma DropKeepsLowBounds(g: SubGraph, m: Marks, v: NodeId)
    requires Shape(g, m) && ExploredIsVisited(g, m) && LowBounds(g, m) && CanDrop(g, m, v)
    ensures ExploredIsVisited(g, Drop(m, v)) && LowBounds(g, Drop(m, v))
  {
    hide Reach, Successors;
    var t := Drop(m, v);
    forall x, k: nat | Explored(g, t, x, k)
      ensures Explored(g, m, x, k)
    {
    }
    hide Explored, Segment;
    forall f, x, k: nat | Segment(t, f, x) && Explored(g, t, x, k) && Successor(g, x, k) in t.onStack
      ensures Low(t, f) <= Idx(t, Successor(g, x, k))
    {
      ClosingMergesSegments(m, t, v, f, x);
    }
  }

  lemma DropKeepsLowAttained(g: SubGraph, m: Marks, v: NodeId)
    requires LowAttained(g, m)
    ensures LowAttained(g, Drop(m, v))
  {
    hide Reach, Successors;
    var t := Drop(m, v);
    forall f | f in t.next
      ensures HasLowWitness(g, t, f)
    {
      assert HasLowWitness(g, m, f);
      var y :| LowWitness(g, m, f, y);
      assert LowWitness(g, t, f, y);
    }
  }

  lemma DropKeepsInvariant(g: SubGraph, m: Marks, v: NodeId)
    requires Invariant(g, m) && CanDrop(g, m, v)
    ensures Invariant(g, Drop(m, v))
  {
    hide Reach, Successors, LowBounds, LowAttained, ExploredIsVisited, Anchored;
    DropKeepsAnchors(g, m, v);
    DropKeepsLowBounds(g, m, v);
    DropKeepsLowAttained(g, m, v);
  }

  // ----- completing a component -----

  /** The stack members found since the top frame was opened. */
  ghost function Above(m: Marks, v: NodeId): set<NodeId>
  {
    set x | x in m.onStack && Idx(m, v) <= Idx(m, x)
  }

  /** The top frame goes and takes with it everything found since, as component number `c`. */
  ghost function Emit(m: Marks, v: NodeId, c: nat): Marks
  {
    m.(onStack := m.onStack - Above(m, v), next := m.next - {v}, comp := m.comp + (map x | x in Above(m, v) :: c))
  }

  ghost predicate CanEmit(g: SubGraph, m: Marks, v: NodeId, c: nat)
  {
    Exhausted(g, m, v) && Low(m, v) == Idx(m, v) && forall x | x in m.comp :: m.comp[x] < c
  }

  lemma EmittedIsStronglyConnected(g: SubGraph, m: Marks, v: NodeId, x: NodeId, y: NodeId)
    requires FramesReach(g, m) && Anchored(g, m) && Shape(g, m) && Top(m, v) && x in Above(m, v) && y in Above(m, v)
    ensures Reach(Arcs(g), x, y)
  {
    hide Reach, Successors;
    assert HasAnchor(g, m, x);
    var f :| Anchor(g, m, x, f);
    ReachTransitive(Arcs(g), x, f, v);
    ReachTransitive(Arcs(g), x, v, y);
  }

  lemma EmittedIsClosed(g: SubGraph, m: Marks, v: NodeId, c: nat, x: NodeId, y: NodeId)
    requires Shape(g, m) && ExploredIsVisited(g, m) && LowBounds(g, m) && CanEmit(g, m, v, c)
    requires x in Above(m, v) && (x, y) in Arcs(g)
    ensures y in m.comp || y in Above(m, v)
  {
    SuccessorsAreArcs(g, x, y);
    var k :| 0 <= k < |Successors(g, x)| && Successors(g, x)[k] == y;
    assert Successor(g, x, k) == y;
    hide Successors;
    assert x in m.next ==> x == v;
    assert Explored(g, m, x, k);
    assert Segment(m, v, x);
  }

  lemma EmitKeepsFinished(g: SubGraph, m: Marks, v: NodeId, c: nat)
    requires Invariant(g, m) && CanEmit(g, m, v, c)
    ensures Finished(g, Emit(m, v, c))
  {
    hide Reach, Successors;
    var t := Emit(m, v, c);
    forall x, y | x in t.comp && (x, y) in Arcs(g)
      ensures y in t.comp && t.comp[y] <= t.comp[x]
    {
      if x in Above(m, v) {
        EmittedIsClosed(g, m, v, c, x, y);
      }
    }
    forall x, y | x in t.comp && y in t.comp && t.comp[x] == t.comp[y]
      ensures Reach(Arcs(g), x, y)
    {
      if x in Above(m, v) {
        EmittedIsStronglyConnected(g, m, v, x, y);
      }
    }
  }

  lemma EmitKeepsShape(g: SubGraph, m: Marks, v: NodeId, c: nat)
    requires Shape(g, m) && FramesReach(g, m) && CanEmit(g, m, v, c)
    ensures Shape(g, Emit(m, v, c)) && FramesReach(g, Emit(m, v, c))
  {
    hide Reach, Successors;
  }

  lemma EmitKeepsWitnesses(g: SubGraph, m: Marks, v: NodeId, c: nat)
    requires Shape(g, m) && Anchored(g, m) && LowAttained(g, m) && CanEmit(g, m, v, c)
    ensures Anchored(g, Emit(m, v, c)) && LowAttained(g, Emit(m, v, c))
  {
    hide Reach, Successors;
    var t := Emit(m, v, c);
    forall x | x in t.onStack
      ensures HasAnchor(g, t, x)
    {
      assert HasAnchor(g, m, x);
      var f :| Anchor(g, m, x, f);
      assert Anchor(g, t, x, f);
    }
    forall f | f in t.next
      ensures HasLowWitness(g, t, f)
    {
      assert HasLowWitness(g, m, f);
      var y :| LowWitness(g, m, f, y);
      assert LowWitness(g, t, f, y);
    }
  }

  lemma EmitKeepsExplored(g: SubGraph, m: Marks, v: NodeId, c: nat, x: NodeId, k: nat)
    requires Exhausted(g, m, v) && Explored(g, Emit(m, v, c), x, k)
    ensures Explored(g, m, x, k) && Idx(m, x) < Idx(m, v)
  {
  }

  lemma EmitKeepsLowBounds(g: SubGraph, m: Marks, v: NodeId, c: nat)
    requires Shape(g, m) && ExploredIsVisited(g, m) && LowBounds(g, m) && CanEmit(g, m, v, c)
    ensures ExploredIsVisited(g, Emit(m, v, c)) && LowBounds(g, Emit(m, v, c))
  {
    hide Reach, Explored, Segment, Successor, Shape;
    var t := Emit(m, v, c);
    forall x, k: nat | Explored(g, t, x, k)
      ensures Successor(g, x, k) in t.indexOf
    {
      EmitKeepsExplored(g, m, v, c, x, k);
    }
    forall f, x, k: nat | Segment(t, f, x) && Explored(g, t, x, k) && Successor(g, x, k) in t.onStack
      ensures Low(t, f) <= Idx(t, Successor(g, x, k))
    {
      EmitKeepsExplored(g, m, v, c, x, k);
      ClosingMergesSegments(m, t, v, f, x);
    }
  }

  lemma EmitKeepsInvariant(g: SubGraph, m: Marks, v: NodeId, c: nat)
    requires Invariant(g, m) && CanEmit(g, m, v, c)
    ensures Invariant(g, Emit(m, v, c))
  {
    EmitKeepsFinished(g, m, v, c);
    EmitKeepsShape(g, m, v, c);
    EmitKeepsWitnesses(g, m, v, c);
    EmitKeepsLowBounds(g, m, v, c);
    hide *;
  }

  // ----- the variables of the search -----

  /** A node under exploration, with the index of the successor to look at next. */
  datatype Frame = Frame(id: NodeId, next: nat)

  /** The stack lists its members oldest first. */
  ghost predicate StackLists(stack: seq<NodeId>, m: Marks)
  {
    && (forall x :: x in stack <==> x in m.onStack)
    && (forall p, q | 0 <= p < q < |stack| :: Idx(m, stack[p]) < Idx(m, stack[q]))
  }

  ghost predicate HasFrame(frames: seq<Frame>, f: NodeId)
  {
    exists i :: 0 <= i < |frames| && frames[i].id == f
  }

  /** The frames list the nodes being explored, oldest first. */
  ghost predicate FramesList(frames: seq<Frame>, m: Marks)
  {
    && (forall i | 0 <= i < |frames| :: frames[i].id in m.next && m.next[frames[i].id] == frames[i].next)
    && (forall f {:trigger HasFrame(frames, f)} | f in m.next :: HasFrame(frames, f))
    && (forall i, j | 0 <= i < j < |frames| :: Idx(m, frames[i].id) < Idx(m, frames[j].id))
  }

  /** The list of components agrees with the numbering. */
  ghost predicate ResultLists(result: seq<seq<NodeId>>, m: Marks)
  {
    && (forall x | x in m.comp :: m.comp[x] < |result|)
    && (forall c, x | 0 <= c < |result| :: x in result[c] <==> x in m.comp && m.comp[x] == c)
    && (forall c, i, j | 0 <= c < |result| && 0 <= i < j < |result[c]| :: result[c][i] != result[c][j])
    && (forall c | 0 <= c < |result| :: result[c] != [])
  }

  lemma LastFrameIsTop(frames: seq<Frame>, m: Marks)
    requires FramesList(frames, m) && frames != []
    ensures Top(m, frames[|frames| - 1].id)
  {
    forall f | f in m.next
      ensures Idx(m, f) <= Idx(m, frames[|frames| - 1].id)
    {
      assert HasFrame(frames, f);
    }
  }

  lemma OpenKeepsStack(g: SubGraph, m: Marks, w: NodeId, counter: nat, stack: seq<NodeId>)
    requires Shape(g, m) && CanOpen(g, m, w, counter) && StackLists(stack, m)
    ensures StackLists(stack + [w], Open(m, w, counter))
  {
    hide Reach, Successors;
    assert forall p | 0 <= p < |stack| :: stack[p] in m.onStack;
  }

  lemma OpenKeepsFrames(g: SubGraph, m: Marks, w: NodeId, counter: nat, frames: seq<Frame>)
    requires Shape(g, m) && CanOpen(g, m, w, counter) && FramesList(frames, m)
    ensures FramesList(frames + [Frame(w, 0)], Open(m, w, counter))
  {
    hide Reach, Successors;
    var t := Open(m, w, counter);
    forall f | f in t.next
      ensures HasFrame(frames + [Frame(w, 0)], f)
    {
      if f == w {
        assert (frames + [Frame(w, 0)])[|frames|].id == w;
      } else {
        assert HasFrame(frames, f);
        var i :| 0 <= i < |frames| && frames[i].id == f;
        assert (frames + [Frame(w, 0)])[i].id == f;
      }
    }
  }

  lemma AdvanceKeepsLists(m: Marks, i: nat, stack: seq<NodeId>, frames: seq<Frame>)
    requires i < |frames| && StackLists(stack, m) && FramesList(frames, m)
    ensures StackLists(stack, Advance(m, frames[i].id))
    ensures FramesList(frames[i := Frame(frames[i].id, frames[i].next + 1)], Advance(m, frames[i].id))
  {
    var t, frames' := Advance(m, frames[i].id), frames[i := Frame(frames[i].id, frames[i].next + 1)];
    forall f | f in t.next
      ensures HasFrame(frames', f)
    {
      assert HasFrame(frames, f);
      var j :| 0 <= j < |frames| && frames[j].id == f;
      assert frames'[j].id == f;
    }
  }

  lemma ClosingKeepsFrames(m: Marks, t: Marks, frames: seq<Frame>)
    requires FramesList(frames, m) && frames != [] && t.next == m.next - {frames[|frames| - 1].id} && t.indexOf == m.indexOf
    ensures FramesList(frames[..|frames| - 1], t)
  {
    var n := |frames| - 1;
    forall f | f in t.next
      ensures HasFrame(frames[..n], f)
    {
      assert HasFrame(frames, f);
      var i :| 0 <= i < |frames| && frames[i].id == f;
      assert frames[..n][i].id == f;
    }
  }

  /** The stack from position `p` on is exactly what the node at `p` takes with it. */
  lemma AboveIsSuffix(m: Marks, p: nat, stack: seq<NodeId>, x: NodeId)
    requires StackLists(stack, m) && p < |stack|
    ensures x in stack[p..] <==> x in Above(m, stack[p])
    ensures x in stack[..p] <==> x in m.onStack && x !in Above(m, stack[p])
  {
    assert stack[p] in m.onStack;
    if x in m.onStack {
      var q :| 0 <= q < |stack| && stack[q] == x;
      assert if q < p then stack[..p][q] == x else stack[p..][q - p] == x;
    }
  }

  lemma EmitKeepsStack(m: Marks, v: NodeId, c: nat, p: nat, stack: seq<NodeId>)
    requires StackLists(stack, m) && p < |stack| && stack[p] == v
    ensures StackLists(stack[..p], Emit(m, v, c))
  {
    forall x
      ensures x in stack[..p] <==> x in Emit(m, v, c).onStack
    {
      AboveIsSuffix(m, p, stack, x);
    }
  }

  /** `component` is `suffix` read backwards. */
  ghost predicate IsReverse(component: seq<NodeId>, suffix: seq<NodeId>)
  {
    |component| == |suffix| && forall i | 0 <= i < |suffix| :: component[i] == suffix[|suffix| - 1 - i]
  }

  lemma ReverseSameMembers(component: seq<NodeId>, suffix: seq<NodeId>, x: NodeId)
    requires IsReverse(component, suffix)
    ensures x in component <==> x in suffix
  {
    if x in suffix {
      var q :| 0 <= q < |suffix| && suffix[q] == x;
      assert component[|suffix| - 1 - q] == x;
    }
  }

  lemma ComponentIsListed(m: Marks, v: NodeId, component: seq<NodeId>, result: seq<seq<NodeId>>)
    requires ResultLists(result, m) && component != []
    requires forall i, j | 0 <= i < j < |component| :: component[i] != component[j]
    requires forall x :: x in component <==> x in Above(m, v)
    requires forall x | x in Above(m, v) :: x !in m.comp
    ensures ResultLists(result + [component], Emit(m, v, |result|))
  {
    hide Above;
  }

  lemma EmitKeepsResult(m: Marks, v: NodeId, p: nat, stack: seq<NodeId>, component: seq<NodeId>, result: seq<seq<NodeId>>)
    requires StackLists(stack, m) && ResultLists(result, m) && p < |stack| && stack[p] == v
    requires forall x | x in m.onStack :: x !in m.comp
    requires IsReverse(component, stack[p..])
    ensures ResultLists(result + [component], Emit(m, v, |result|))
  {
    hide ResultLists;
    assert forall i, j | 0 <= i < j < |component| :: component[i] != component[j];
    forall x
      ensures x in component <==> x in Above(m, v)
    {
      AboveIsSuffix(m, p, stack, x);
      ReverseSameMembers(component, stack[p..], x);
    }
    hide IsReverse, StackLists;
    ComponentIsListed(m, v, component, result);
  }

  /** Once no frame is open, nothing is left on the stack. */
  lemma NoFramesNoStack(g: SubGraph, m: Marks)
    requires Anchored(g, m) && m.next.Keys == {}
    ensures m.onStack == {}
  {
    assert forall x | x in m.onStack :: HasAnchor(g, m, x);
  }

  // ----- the search -----

  /** Pops the stack down to and including `v`. */
  method PopComponent(stack: seq<NodeId>, onStack: set<NodeId>, v: NodeId, ghost p: nat)
    returns (rest: seq<NodeId>, left: set<NodeId>, component: seq<NodeId>)
    requires p < |stack| && stack[p] == v && forall q | p < q < |stack| :: stack[q] != v
    ensures rest == stack[..p] && IsReverse(component, stack[p..])
    ensures left == onStack - (set x | x in stack[p..])
  {
    rest, left, component := stack, onStack, [];
    var reached := false;
    while !reached
      invariant if reached then |rest| == p else p < |rest| <= |stack|
      invariant rest == stack[..|rest|] && IsReverse(component, stack[|rest|..])
      invariant left == onStack - (set x | x in stack[|rest|..])
      decreases |rest|
    {
      var last := |rest| - 1;
      var member := rest[last];
      assert stack[last..] == [member] + stack[last + 1..];
      rest, left, component := rest[..last], left - {member}, component + [member];
      reached := member == v;
    }
  }

  lemma FinalPartition(g: SubGraph, m: Marks, result: seq<seq<NodeId>>)
    requires Finished(g, m) && ResultLists(result, m)
    requires forall u | u in g.nodes :: u in m.comp
    requires forall x | x in m.comp :: x in Vertices(g)
    ensures Partitions(result, Vertices(g))
  {
    hide Reach;
    forall x | x in Vertices(g)
      ensures exists c :: 0 <= c < |result| && x in result[c]
    {
      if x !in g.nodes {
        var e :| e in g.edges && e.from in g.nodes && e.to == x;
        assert (e.from, x) in Arcs(g);
      }
      assert x in result[m.comp[x]];
    }
    forall c, d, x | 0 <= c < d < |result| && x in result[c]
      ensures x !in result[d]
    {
      assert m.comp[x] == c;
    }
  }

  lemma FinishedClasses(g: SubGraph, m: Marks, result: seq<seq<NodeId>>)
    requires Finished(g, m) && ResultLists(result, m)
    ensures ClassesOfMutualReachability(g, result) && ReverseTopological(g, result)
  {
    hide Reach;
    forall c, d, x, y | 0 <= c < |result| && 0 <= d < |result| && x in result[c] && y in result[d]
      ensures c == d <==> MutuallyReachable(Arcs(g), x, y)
    {
      if MutuallyReachable(Arcs(g), x, y) {
        ReachOnlyEarlier(g, m, x, y);
        ReachOnlyEarlier(g, m, y, x);
      }
    }
  }

  lemma ReachOnlyEarlier(g: SubGraph, m: Marks, x: NodeId, y: NodeId)
    requires Finished(g, m) && x in m.comp && Reach(Arcs(g), x, y)
    ensures y in m.comp && m.comp[y] <= m.comp[x]
  {
    ClosedContainsReach(Arcs(g), (set z | z in m.comp && m.comp[z] <= m.comp[x]), x, y);
  }

  /** The invariant of the search in terms of its variables. */
  ghost predicate Searching(g: SubGraph, m: Marks, stack: seq<NodeId>, frames: seq<Frame>,
                            result: seq<seq<NodeId>>, counter: nat)
  {
    && Invariant(g, m) && StackLists(stack, m) && FramesList(frames, m) && ResultLists(result, m)
    && (forall x | x in m.indexOf :: m.indexOf[x] < counter && x in Vertices(g))
  }

  lemma StepOpen(g: SubGraph, m: Marks, stack: seq<NodeId>, frames: seq<Frame>, result: seq<seq<NodeId>>,
                 counter: nat, w: NodeId)
    requires Searching(g, m, stack, frames, result, counter) && w in Vertices(g) && w !in m.indexOf
    requires forall f | f in m.next :: Reach(Arcs(g), f, w)
    ensures Searching(g, Open(m, w, counter), stack + [w], frames + [Frame(w, 0)], result, counter + 1)
  {
    hide Reach, Vertices;
    assert CanOpen(g, m, w, counter);
    hide CanOpen, Finished;
    OpenKeepsInvariant(g, m, w, counter);
    OpenKeepsStack(g, m, w, counter, stack);
    OpenKeepsFrames(g, m, w, counter, frames);
    hide Shape, FramesReach, Anchored, LowBounds, LowAttained, ExploredIsVisited, StackLists, FramesList;
  }

  ghost predicate Visiting(g: SubGraph, frames: seq<Frame>, v: NodeId, w: NodeId)
  {
    && frames != [] && frames[|frames| - 1].id == v
    && var k := frames[|frames| - 1].next; k < |Successors(g, v)| && Successors(g, v)[k] == w
  }

  lemma FramesReachSuccessor(g: SubGraph, m: Marks, frames: seq<Frame>, v: NodeId, w: NodeId)
    requires Shape(g, m) && FramesReach(g, m) && FramesList(frames, m) && Visiting(g, frames, v, w)
    ensures (v, w) in Arcs(g) && Reach(Arcs(g), v, w) && forall f | f in m.next :: Reach(Arcs(g), f, w)
  {
    SuccessorsAreArcs(g, v, w);
    ReachArc(Arcs(g), v, w);
    LastFrameIsTop(frames, m);
    hide Reach;
    forall f | f in m.next
      ensures Reach(Arcs(g), f, w)
    {
      ReachTransitive(Arcs(g), f, v, w);
    }
  }

  lemma StepAdvance(g: SubGraph, m: Marks, stack: seq<NodeId>, frames: seq<Frame>, result: seq<seq<NodeId>>,
                    counter: nat, i: nat)
    requires Searching(g, m, stack, frames, result, counter) && i < |frames|
    requires var v := frames[i].id; v in m.next && m.next[v] < |Successors(g, v)|
    requires var v := frames[i].id; var w := Successor(g, v, m.next[v]);
      w in m.indexOf && (w in m.onStack ==> Low(m, v) <= Idx(m, w))
    ensures Searching(g, Advance(m, frames[i].id), stack, frames[i := Frame(frames[i].id, frames[i].next + 1)], result, counter)
  {
    hide Invariant, StackLists, FramesList, Successors, Vertices;
    AdvanceKeepsInvariant(g, m, frames[i].id);
    AdvanceKeepsLists(m, i, stack, frames);
  }

  /** Looking at a visited successor: a stack member lowers the low link, anything else does not matter. */
  lemma StepFollow(g: SubGraph, m: Marks, stack: seq<NodeId>, frames: seq<Frame>, result: seq<seq<NodeId>>,
                   counter: nat, v: NodeId, w: NodeId)
    requires Searching(g, m, stack, frames, result, counter) && Visiting(g, frames, v, w) && w in m.onStack
    ensures v in m.next && Searching(g, Lower(m, v, Idx(m, w)), stack, frames, result, counter)
  {
    hide Reach, Vertices;
    FramesReachSuccessor(g, m, frames, v, w);
    hide Successors, Shape, FramesReach, Anchored, LowBounds, LowAttained, ExploredIsVisited, Finished;
    LowerKeepsInvariant(g, m, v, w);
    LowerKeepsLists(m, v, Idx(m, w), stack, frames, result);
    hide StackLists, FramesList, ResultLists;
  }

  lemma LowerKeepsLists(m: Marks, f: NodeId, bound: nat, stack: seq<NodeId>, frames: seq<Frame>, result: seq<seq<NodeId>>)
    requires StackLists(stack, m) && FramesList(frames, m) && ResultLists(result, m)
    ensures var t := Lower(m, f, bound); StackLists(stack, t) && FramesList(frames, t) && ResultLists(result, t)
  {
  }

  /** The frame below takes over the low link of the frame above it. */
  lemma StepInherit(g: SubGraph, m: Marks, stack: seq<NodeId>, frames: seq<Frame>, result: seq<seq<NodeId>>,
                    counter: nat, p: NodeId, v: NodeId)
    requires Searching(g, m, stack, frames, result, counter)
    requires p in m.next && v in m.next && Idx(m, p) < Idx(m, v)
    ensures Searching(g, Lower(m, p, Low(m, v)), stack, frames, result, counter)
  {
    hide Reach, Successors, Vertices, StackLists, FramesList, ResultLists;
    assert HasLowWitness(g, m, v);
    var y :| LowWitness(g, m, v, y);
    ReachTransitive(Arcs(g), p, v, y);
    hide Shape, FramesReach, Anchored, LowBounds, LowAttained, ExploredIsVisited, Finished;
    LowerKeepsInvariant(g, m, p, y);
    LowerKeepsLists(m, p, Low(m, v), stack, frames, result);
  }

  lemma StepDrop(g: SubGraph, m: Marks, stack: seq<NodeId>, frames: seq<Frame>, result: seq<seq<NodeId>>,
                 counter: nat, v: NodeId)
    requires Searching(g, m, stack, frames, result, counter) && frames != [] && v == frames[|frames| - 1].id
    requires CanDrop(g, m, v)
    ensures Searching(g, Drop(m, v), stack, frames[..|frames| - 1], result, counter)
  {
    hide Reach, Successors, Vertices, Invariant, FramesList, CanDrop;
    DropKeepsInvariant(g, m, v);
    ClosingKeepsFrames(m, Drop(m, v), frames);
  }

  lemma StepEmit(g: SubGraph, m: Marks, stack: seq<NodeId>, frames: seq<Frame>, result: seq<seq<NodeId>>,
                 counter: nat, v: NodeId, p: nat, component: seq<NodeId>)
    requires Searching(g, m, stack, frames, result, counter) && frames != [] && v == frames[|frames| - 1].id
    requires CanEmit(g, m, v, |result|) && p < |stack| && stack[p] == v && IsReverse(component, stack[p..])
    ensures Searching(g, Emit(m, v, |result|), stack[..p], frames[..|frames| - 1], result + [component], counter)
    ensures Emit(m, v, |result|).onStack == m.onStack - (set x | x in stack[p..])
  {
    hide Reach, Successors, Vertices, FramesList, ResultLists, CanEmit, IsReverse, FramesReach, Anchored,
      LowBounds, LowAttained, ExploredIsVisited, Finished;
    EmitKeepsResult(m, v, p, stack, component, result);
    hide Shape;
    EmitKeepsInvariant(g, m, v, |result|);
    EmitKeepsStack(m, v, |result|, p, stack);
    ClosingKeepsFrames(m, Emit(m, v, |result|), frames);
    forall x
      ensures x in stack[p..] <==> x in Above(m, v)
    {
      AboveIsSuffix(m, p, stack, x);
    }
  }

  lemma ReadyToClose(g: SubGraph, m: Marks, stack: seq<NodeId>, frames: seq<Frame>, result: seq<seq<NodeId>>, counter: nat)
    requires Searching(g, m, stack, frames, result, counter) && frames != []
    requires frames[|frames| - 1].next == |Successors(g, frames[|frames| - 1].id)|
    requires |frames| > 1 ==> Low(m, frames[|frames| - 2].id) <= Low(m, frames[|frames| - 1].id)
    ensures var v := frames[|frames| - 1].id;
      && (Low(m, v) != Idx(m, v) ==> CanDrop(g, m, v))
      && (Low(m, v) == Idx(m, v) ==> CanEmit(g, m, v, |result|))
  {
    hide Reach, Vertices, StackLists, FramesReach, Anchored, LowBounds, ExploredIsVisited, Finished, Successors;
    var n := |frames| - 1;
    var v := frames[n].id;
    LastFrameIsTop(frames, m);
    assert HasLowWitness(g, m, v);
    forall p | Top(Drop(m, v), p)
      ensures Low(m, p) <= Low(m, v)
    {
      assert HasFrame(frames, p);
      var i :| 0 <= i < |frames| && frames[i].id == p;
      assert frames[n - 1].id in Drop(m, v).next;
    }
  }

  /** Where the top frame's node sits on the stack. */
  ghost function Position(stack: seq<NodeId>, v: NodeId): (p: nat)
    requires v in stack
    ensures p < |stack| && stack[p] == v
  {
    if stack[0] == v then 0 else 1 + Position(stack[1..], v)
  }

  lemma Searched(g: SubGraph, m: Marks, stack: seq<NodeId>, result: seq<seq<NodeId>>, counter: nat)
    requires Searching(g, m, stack, [], result, counter)
    ensures m.next == map[] && m.onStack == {}
    ensures forall x :: x in m.indexOf <==> x in m.comp
  {
    hide Reach, Successors, Vertices, FramesReach, LowBounds, LowAttained, ExploredIsVisited, Finished;
    assert forall f | f in m.next :: HasFrame([], f);
    NoFramesNoStack(g, m);
  }

  lemma SearchIsCorrect(g: SubGraph, m: Marks, stack: seq<NodeId>, result: seq<seq<NodeId>>, counter: nat)
    requires Searching(g, m, stack, [], result, counter) && forall u | u in g.nodes :: u in m.indexOf
    ensures Partitions(result, Vertices(g)) && ClassesOfMutualReachability(g, result) && ReverseTopological(g, result)
  {
    Searched(g, m, stack, result, counter);
    hide Reach, Vertices, Successors, Shape, FramesReach, Anchored, LowBounds, LowAttained, ExploredIsVisited,
      StackLists, FramesList, ResultLists, Finished;
    FinalPartition(g, m, result);
    FinishedClasses(g, m, result);
  }

  lemma SuccessorFacts(g: SubGraph, m: Marks, stack: seq<NodeId>, frames: seq<Frame>, result: seq<seq<NodeId>>,
                       counter: nat, v: NodeId, w: NodeId)
    requires Searching(g, m, stack, frames, result, counter) && frames != [] && v == frames[|frames| - 1].id
    requires var k := frames[|frames| - 1].next; k < |Successors(g, v)| && Successors(g, v)[k] == w
    ensures w in Vertices(g) && Visiting(g, frames, v, w)
    ensures forall f | f in m.next :: Reach(Arcs(g), f, w)
  {
    hide Reach, Anchored, LowBounds, LowAttained, ExploredIsVisited, Finished;
    FramesReachSuccessor(g, m, frames, v, w);
  }

  lemma CanAdvance(g: SubGraph, m: Marks, stack: seq<NodeId>, frames: seq<Frame>, result: seq<seq<NodeId>>,
                   counter: nat, i: nat, w: NodeId)
    requires Searching(g, m, stack, frames, result, counter) && i < |frames|
    requires var k := frames[i].next; k < |Successors(g, frames[i].id)| && Successors(g, frames[i].id)[k] == w
    requires w in m.indexOf
    requires w in m.onStack ==> Low(m, frames[i].id) <= Idx(m, w) || Idx(m, w) + 1 == counter
    ensures var v := frames[i].id; v in m.next && m.next[v] < |Successors(g, v)| && Successor(g, v, m.next[v]) == w
    ensures w in m.onStack ==> Low(m, frames[i].id) <= Idx(m, w)
  {
    hide Reach, Successors, Vertices, FramesReach, Anchored, LowBounds, ExploredIsVisited, Finished, StackLists, ResultLists;
    assert HasLowWitness(g, m, frames[i].id);
  }

  lemma ParentFacts(g: SubGraph, m: Marks, stack: seq<NodeId>, frames: seq<Frame>, result: seq<seq<NodeId>>, counter: nat)
    requires Searching(g, m, stack, frames, result, counter) && |frames| > 1
    ensures var p, v := frames[|frames| - 2].id, frames[|frames| - 1].id;
      p in m.next && v in m.next && p in m.lowLink && v in m.lowLink && Idx(m, p) < Idx(m, v) && p != v
  {
    hide Reach, Successors, Vertices, FramesReach, Anchored, LowBounds, LowAttained, ExploredIsVisited, Finished;
  }

  lemma PositionIsUnique(g: SubGraph, m: Marks, stack: seq<NodeId>, frames: seq<Frame>, result: seq<seq<NodeId>>,
                         counter: nat, p: nat)
    requires Searching(g, m, stack, frames, result, counter) && p < |stack|
    ensures forall q | p < q < |stack| :: stack[q] != stack[p]
  {
    hide Invariant, FramesList, ResultLists, Vertices;
  }

  lemma EmptySearch(g: SubGraph)
    ensures Searching(g, Marks(map[], map[], {}, map[], map[]), [], [], [], 0)
  {
  }

  lemma RootIsVertex(g: SubGraph, root: NodeId)
    requires root in g.nodes
    ensures root in Vertices(g)
  {
  }

  lemma AdjacencyIsSuccessors(g: SubGraph, adj: map<NodeId, seq<NodeId>>, v: NodeId)
    requires adj.Keys == set u | u in g.nodes
    requires forall u | u in adj :: adj[u] == Successors(g, u)
    ensures (if v in adj then adj[v] else []) == Successors(g, v)
  {
  }

  lemma FrameFacts(g: SubGraph, m: Marks, stack: seq<NodeId>, frames: seq<Frame>, result: seq<seq<NodeId>>, counter: nat)
    requires Searching(g, m, stack, frames, result, counter) && frames != []
    ensures var f := frames[|frames| - 1];
      f.id in m.next && f.id in m.onStack && f.id in stack && f.id in m.lowLink && f.id in m.indexOf &&
      m.next[f.id] == f.next <= |Successors(g, f.id)|
  {
    hide Reach, Successors, Vertices;
  }

  /**
   * The strongly connected components of any graph: its vertices partitioned into the classes of mutual
   * reachability, listed so that arcs between components point backwards.
   */
  method StronglyConnectedComponents(g: SubGraph) returns (result: seq<seq<NodeId>>)
    ensures Partitions(result, Vertices(g))
    ensures ClassesOfMutualReachability(g, result)
    ensures ReverseTopological(g, result)
  {
    hide Reach, Vertices, Successors, Invariant, StackLists, FramesList, ResultLists, Searching, Visiting, CanOpen, Top;
    var adj := Adjacency(g);
    var indexOf: map<NodeId, nat> := map[];
    var lowLink: map<NodeId, nat> := map[];
    var onStack: set<NodeId> := {};
    var stack: seq<NodeId> := [];
    var counter := 0;
    result := [];
    ghost var m := Marks(indexOf, lowLink, onStack, map[], map[]);
    EmptySearch(g);
    for r := 0 to |g.nodes|
      invariant Searching(g, m, stack, [], result, counter)
      invariant m.indexOf == indexOf && m.lowLink == lowLink && m.onStack == onStack
      invariant forall u | u in g.nodes[..r] :: u in indexOf
    {
      var root := g.nodes[r];
      if root in indexOf { continue; }
      Searched(g, m, stack, result, counter);
      RootIsVertex(g, root);
      StepOpen(g, m, stack, [], result, counter, root);
      m := Open(m, root, counter);
      var frames := [Frame(root, 0)];
      assert [] + [Frame(root, 0)] == frames;
      indexOf, lowLink, counter := indexOf[root := counter], lowLink[root := counter], counter + 1;
      stack, onStack := stack + [root], onStack + {root};
      while frames != []
        invariant Searching(g, m, stack, frames, result, counter)
        invariant m.indexOf == indexOf && m.lowLink == lowLink && m.onStack == onStack
        invariant forall u | u in g.nodes[..r + 1] :: u in indexOf
        decreases Vertices(g) - indexOf.Keys, |frames|,
          if frames == [] then 0 else |Successors(g, frames[|frames| - 1].id)| - frames[|frames| - 1].next
      {
        var top := |frames| - 1;
        var v := frames[top].id;
        FrameFacts(g, m, stack, frames, result, counter);
        var successors := if v in adj then adj[v] else [];
        AdjacencyIsSuccessors(g, adj, v);
        if frames[top].next < |successors| {
          var w := successors[frames[top].next];
          SuccessorFacts(g, m, stack, frames, result, counter, v, w);
          if w !in indexOf {
            StepOpen(g, m, stack, frames, result, counter, w);
            m := Open(m, w, counter);
            indexOf, lowLink, counter := indexOf[w := counter], lowLink[w := counter], counter + 1;
            stack, onStack, frames := stack + [w], onStack + {w}, frames + [Frame(w, 0)];
          } else if w in onStack {
            StepFollow(g, m, stack, frames, result, counter, v, w);
            m := Lower(m, v, indexOf[w]);
            lowLink := lowLink[v := if indexOf[w] < lowLink[v] then indexOf[w] else lowLink[v]];
          }
          CanAdvance(g, m, stack, frames, result, counter, top, w);
          StepAdvance(g, m, stack, frames, result, counter, top);
          m := Advance(m, v);
          frames := frames[top := Frame(v, frames[top].next + 1)];
        } else {
          if top > 0 {
            var parent := frames[top - 1].id;
            ParentFacts(g, m, stack, frames, result, counter);
            StepInherit(g, m, stack, frames, result, counter, parent, v);
            m := Lower(m, parent, Low(m, v));
            lowLink := lowLink[parent := if lowLink[v] < lowLink[parent] then lowLink[v] else lowLink[parent]];
          }
          ReadyToClose(g, m, stack, frames, result, counter);
          if lowLink[v] == indexOf[v] {
            ghost var p := Position(stack, v);
            ghost var was := stack;
            PositionIsUnique(g, m, stack, frames, result, counter, p);
            var component;
            stack, onStack, component := PopComponent(stack, onStack, v, p);
            StepEmit(g, m, was, frames, result, counter, v, p, component);
            m := Emit(m, v, |result|);
            result := result + [component];
          } else {
            StepDrop(g, m, stack, frames, result, counter, v);
            m := Drop(m, v);
          }
          frames := frames[..top];
        }
      }
    }
    Searched(g, m, stack, result, counter);
    assert g.nodes[..|g.nodes|] == g.nodes;
    SearchIsCorrect(g, m, stack, result, counter);
  }
}
