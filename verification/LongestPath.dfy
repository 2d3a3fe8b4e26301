/** The longest path through a graph's condensation, on top of Tarjan's order. */
module LongestPath {
  import opened Reachability
  import opened Graph
  import opened Tarjan

  // ----- what the caller is promised -----

  /** How many steps of a walk leave a class of mutual reachability for good. */
  ghost function Crossings<T(!new)>(arcs: set<(T, T)>, w: seq<T>): nat
  {
    if |w| <= 1 then 0 else (if Reach(arcs, w[1], w[0]) then 0 else 1) + Crossings(arcs, w[1..])
  }

  /** `n` is the largest number of crossings of any walk. */
  ghost predicate IsMaxCrossings<T(!new)>(arcs: set<(T, T)>, n: nat)
  {
    (exists w: seq<T> :: IsWalk(arcs, w) && Crossings(arcs, w) == n) && BoundsCrossings(arcs, n)
  }

  /** Some arc leads from the class of `u` to the class of `v`, which is another one. */
  ghost predicate ClassesJoined<T(!new)>(arcs: set<(T, T)>, u: T, v: T)
  {
    && !MutuallyReachable(arcs, u, v)
    && exists a, b :: (a, b) in arcs && MutuallyReachable(arcs, u, a) && MutuallyReachable(arcs, b, v)
  }

  ghost predicate StepsJoinClasses<T(!new)>(arcs: set<(T, T)>, path: seq<T>)
  {
    forall i | 0 <= i < |path| - 1 :: ClassesJoined(arcs, path[i], path[i + 1])
  }

  /** Nothing is mutually reachable with anything but itself. */
  ghost predicate OnlySelfLoops<T(!new)>(arcs: set<(T, T)>)
  {
    forall u, v | MutuallyReachable(arcs, u, v) :: u == v
  }

  /** The edges between vertices, also those that leave a node which is not listed and so are not searched. */
  ghost function Links(g: SubGraph): set<(NodeId, NodeId)>
  {
    set e | e in g.edges && e.from in Vertices(g) && e.to in Vertices(g) :: (e.from, e.to)
  }

  /** The arcs, and perhaps more links, without any new cycle. */
  ghost predicate Extends(g: SubGraph, arcs: set<(NodeId, NodeId)>)
  {
    && Arcs(g) <= arcs <= Links(g)
    && forall x, y | x in Vertices(g) && y in Vertices(g) :: MutuallyReachable(arcs, x, y) <==> MutuallyReachable(Arcs(g), x, y)
  }

  /** No walk crosses more often than `n`. */
  ghost predicate BoundsCrossings<T(!new)>(arcs: set<(T, T)>, n: nat)
  {
    forall w: seq<T> | IsWalk(arcs, w) :: Crossings(arcs, w) <= n
  }

  /** A longest path counting what is mutually reachable as one step; a walk if only self-loops are cycles. */
  ghost predicate IsLongest(arcs: set<(NodeId, NodeId)>, path: seq<NodeId>)
  {
    && IsMaxCrossings(arcs, Hops(path)) && StepsJoinClasses(arcs, path)
    && (OnlySelfLoops(arcs) && path != [] ==> IsWalk(arcs, path))
  }

  ghost predicate IsLongestOver(g: SubGraph, arcs: set<(NodeId, NodeId)>, path: seq<NodeId>)
  {
    Extends(g, arcs) && IsLongest(arcs, path)
  }

  function Hops(path: seq<NodeId>): nat
  {
    if path == [] then 0 else |path| - 1
  }

  // ----- walks and crossings -----

  lemma {:induction false} CrossingsAppend<T(!new)>(arcs: set<(T, T)>, a: seq<T>, b: seq<T>)
    requires |a| > 0 && |b| > 0 && a[|a| - 1] == b[0]
    ensures Crossings(arcs, a + b[1..]) == Crossings(arcs, a) + Crossings(arcs, b)
  {
    hide Reach;
    if |a| == 1 {
      assert a + b[1..] == b;
    } else {
      CrossingsAppend(arcs, a[1..], b);
      assert (a + b[1..])[1..] == a[1..] + b[1..];
    }
  }

  lemma {:induction false} WalkReaches<T(!new)>(arcs: set<(T, T)>, w: seq<T>)
    requires IsWalk(arcs, w)
    ensures Reach(arcs, w[0], w[|w| - 1])
  {
    assert WalkJoins(arcs, w, w[0], w[|w| - 1]);
  }

  /** A walk between mutually reachable ends never crosses. */
  lemma {:induction false} InsideWalkDoesNotCross<T(!new)>(arcs: set<(T, T)>, w: seq<T>)
    requires IsWalk(arcs, w) && Reach(arcs, w[|w| - 1], w[0])
    ensures Crossings(arcs, w) == 0
  {
    hide Reach;
    if |w| > 1 {
      WalkReaches(arcs, w[1..]);
      ReachTransitive(arcs, w[1], w[|w| - 1], w[0]);
      ReachArc(arcs, w[0], w[1]);
      ReachTransitive(arcs, w[|w| - 1], w[0], w[1]);
      InsideWalkDoesNotCross(arcs, w[1..]);
    }
  }

  /** A path whose steps join classes is the trace of a real walk with one crossing a step. */
  lemma {:induction false} PathHasWalk<T(!new)>(arcs: set<(T, T)>, path: seq<T>, x: T) returns (w: seq<T>)
    requires path != [] && StepsJoinClasses(arcs, path) && MutuallyReachable(arcs, x, path[0])
    ensures IsWalk(arcs, w) && w[0] == x && Crossings(arcs, w) == |path| - 1
  {
    if |path| == 1 {
      return [x];
    }
    assert ClassesJoined(arcs, path[0], path[0 + 1]);
    var a, b :| (a, b) in arcs && MutuallyReachable(arcs, path[0], a) && MutuallyReachable(arcs, b, path[1]);
    ReachTransitive(arcs, x, path[0], a);
    ReachTransitive(arcs, a, path[0], x);
    var inside :| WalkJoins(arcs, inside, x, a);
    InsideWalkDoesNotCross(arcs, inside);
    forall i | 0 <= i < |path[1..]| - 1
      ensures ClassesJoined(arcs, path[1..][i], path[1..][i + 1])
    {
      var j := i + 1;
      assert ClassesJoined(arcs, path[j], path[j + 1]);
    }
    var rest := PathHasWalk(arcs, path[1..], b);
    if Reach(arcs, b, a) {
      ReachArc(arcs, a, b);
      ReachTransitive(arcs, path[0], a, b);
      ReachTransitive(arcs, path[0], b, path[1]);
      ReachTransitive(arcs, path[1], b, a);
      ReachTransitive(arcs, path[1], a, path[0]);
    }
    hide Reach;
    assert ([a] + rest)[1..] == rest;
    WalkAppend(arcs, inside, [a] + rest);
    CrossingsAppend(arcs, inside, [a] + rest);
    w := inside + ([a] + rest)[1..];
  }

  // ----- the tables -----

  /** An edge between components, remembering its ends. */
  datatype Step = Step(to: nat, from: NodeId, toNode: NodeId)

  /** The longest chain of components found from one component on, and a node path along it. */
  datatype Best = Best(length: nat, path: seq<NodeId>)

  /** What Tarjan's search promises, and the position of every vertex's component. */
  ghost predicate Condensed(g: SubGraph, components: seq<seq<NodeId>>, componentOf: map<NodeId, nat>)
  {
    && ReverseTopological(g, components) && ClassesOfMutualReachability(g, components)
    && (forall x :: x in componentOf <==> x in Vertices(g))
    && (forall x | x in componentOf :: componentOf[x] < |components| && x in components[componentOf[x]])
    && (forall c, x | 0 <= c < |components| && x in components[c] :: x in componentOf && componentOf[x] == c)
  }

  /** Positions never rise along an arc, and are the same exactly for what is mutually reachable. */
  ghost predicate Ranked(arcs: set<(NodeId, NodeId)>, components: seq<seq<NodeId>>, componentOf: map<NodeId, nat>)
  {
    && Descends(arcs, componentOf)
    && (forall x, y | x in componentOf && y in componentOf :: componentOf[x] == componentOf[y] <==> MutuallyReachable(arcs, x, y))
    && (forall x | x in componentOf :: componentOf[x] < |components| && x in components[componentOf[x]])
    && (forall c, x | 0 <= c < |components| && x in components[c] :: x in componentOf && componentOf[x] == c)
  }

  ghost predicate Descends(arcs: set<(NodeId, NodeId)>, componentOf: map<NodeId, nat>)
  {
    forall a | a in arcs :: a.0 in componentOf && a.1 in componentOf && componentOf[a.1] <= componentOf[a.0]
  }

  predicate LeadsBack(componentOf: map<NodeId, nat>, e: Edge)
  {
    e.from in componentOf && e.to in componentOf && componentOf[e.to] < componentOf[e.from]
  }

  /** What the tables count: the arcs, and every other edge to an earlier component. */
  ghost function Counted(g: SubGraph, componentOf: map<NodeId, nat>): set<(NodeId, NodeId)>
  {
    Arcs(g) + set e | e in g.edges && LeadsBack(componentOf, e) :: (e.from, e.to)
  }

  lemma {:induction false} WalkOnMore<T(!new)>(a: set<(T, T)>, b: set<(T, T)>, w: seq<T>)
    requires a <= b && IsWalk(a, w)
    ensures IsWalk(b, w)
  {
    if |w| > 1 {
      WalkOnMore(a, b, w[1..]);
    }
  }

  lemma ReachOnMore<T(!new)>(a: set<(T, T)>, b: set<(T, T)>, u: T, v: T)
    requires a <= b && Reach(a, u, v)
    ensures Reach(b, u, v)
  {
    var w :| WalkJoins(a, w, u, v);
    WalkOnMore(a, b, w);
    assert WalkJoins(b, w, u, v);
  }

  lemma ReachDescends(arcs: set<(NodeId, NodeId)>, componentOf: map<NodeId, nat>, x: NodeId, y: NodeId)
    requires Descends(arcs, componentOf) && x in componentOf && Reach(arcs, x, y)
    ensures y in componentOf && componentOf[y] <= componentOf[x]
  {
    var below := set z | z in componentOf && componentOf[z] <= componentOf[x];
    assert Closed(arcs, below) by {
      forall u, v | (u, v) in arcs && u in below
        ensures v in below
      {
        assert (u, v).0 == u && (u, v).1 == v;
      }
    }
    hide Reach;
    ClosedContainsReach(arcs, below, x, y);
  }

  lemma CountedDescends(g: SubGraph, components: seq<seq<NodeId>>, componentOf: map<NodeId, nat>)
    requires Condensed(g, components, componentOf)
    ensures Descends(Counted(g, componentOf), componentOf)
    ensures Arcs(g) <= Counted(g, componentOf) <= Links(g)
  {
    hide ClassesOfMutualReachability;
    forall a | a in Arcs(g)
      ensures a.0 in componentOf && a.1 in componentOf && componentOf[a.1] <= componentOf[a.0] && a in Links(g)
    {
      assert a.0 in Vertices(g) && a.1 in Vertices(g);
    }
  }

  /** Counting more edges to earlier components joins no components. */
  lemma CountedIsRanked(g: SubGraph, components: seq<seq<NodeId>>, componentOf: map<NodeId, nat>)
    requires Condensed(g, components, componentOf)
    ensures Ranked(Counted(g, componentOf), components, componentOf) && Extends(g, Counted(g, componentOf))
  {
    var arcs := Counted(g, componentOf);
    CountedDescends(g, components, componentOf);
    hide Counted, Arcs, Links, Descends, Reach, ReverseTopological;
    forall x, y | x in componentOf && y in componentOf
      ensures componentOf[x] == componentOf[y] <==> MutuallyReachable(arcs, x, y)
      ensures componentOf[x] == componentOf[y] <==> MutuallyReachable(Arcs(g), x, y)
    {
      assert x in components[componentOf[x]] && y in components[componentOf[y]];
      assert componentOf[x] == componentOf[y] <==> MutuallyReachable(Arcs(g), x, y);
      if componentOf[x] == componentOf[y] {
        ReachOnMore(Arcs(g), arcs, x, y);
        ReachOnMore(Arcs(g), arcs, y, x);
      } else if MutuallyReachable(arcs, x, y) {
        ReachDescends(arcs, componentOf, x, y);
        ReachDescends(arcs, componentOf, y, x);
      }
    }
  }

  /** Nodes of the components before `c`, and the first `i` of component `c`, have their positions. */
  ghost predicate PlacedUpTo(components: seq<seq<NodeId>>, componentOf: map<NodeId, nat>, c: nat, i: nat)
  {
    && (forall x | x in componentOf :: componentOf[x] < |components| && x in components[componentOf[x]])
    && (forall d, x | 0 <= d < c && d < |components| && x in components[d] :: x in componentOf && componentOf[x] == d)
    && (forall j | 0 <= j < i && c < |components| && j < |components[c]| :: HasPosition(componentOf, components[c][j], c))
  }

  predicate HasPosition(componentOf: map<NodeId, nat>, x: NodeId, c: nat)
  {
    x in componentOf && componentOf[x] == c
  }

  lemma PlaceNext(components: seq<seq<NodeId>>, componentOf: map<NodeId, nat>, c: nat, i: nat)
    requires c < |components| && i < |components[c]| && PlacedUpTo(components, componentOf, c, i)
    requires forall d | 0 <= d < c :: components[c][i] !in components[d]
    ensures PlacedUpTo(components, componentOf[components[c][i] := c], c, i + 1)
  {
  }

  lemma PlaceWhole(components: seq<seq<NodeId>>, componentOf: map<NodeId, nat>, c: nat)
    requires c < |components| && PlacedUpTo(components, componentOf, c, |components[c]|)
    ensures PlacedUpTo(components, componentOf, c + 1, 0)
  {
    forall x | x in components[c]
      ensures HasPosition(componentOf, x, c)
    {
      var j :| 0 <= j < |components[c]| && components[c][j] == x;
    }
  }

  /** Position of every node's component in the list. */
  method ComponentOf(g: SubGraph, components: seq<seq<NodeId>>) returns (componentOf: map<NodeId, nat>)
    requires Partitions(components, Vertices(g))
    requires ReverseTopological(g, components) && ClassesOfMutualReachability(g, components)
    ensures Condensed(g, components, componentOf)
  {
    hide ReverseTopological, ClassesOfMutualReachability, Vertices;
    componentOf := map[];
    for c := 0 to |components|
      invariant PlacedUpTo(components, componentOf, c, 0)
    {
      for i := 0 to |components[c]|
        invariant PlacedUpTo(components, componentOf, c, i)
      {
        assert components[c][i] in components[c];
        PlaceNext(components, componentOf, c, i);
        hide PlacedUpTo;
        componentOf := componentOf[components[c][i] := c];
      }
      PlaceWhole(components, componentOf, c);
      hide PlacedUpTo;
    }
  }

  ghost predicate IsStep(arcs: set<(NodeId, NodeId)>, componentOf: map<NodeId, nat>, a: nat, s: Step)
  {
    && s.from in componentOf && s.toNode in componentOf && componentOf[s.from] == a && componentOf[s.toNode] == s.to
    && a != s.to && (s.to < a ==> (s.from, s.toNode) in arcs)
  }

  /** Every listed step leads to another component, and those to earlier ones are counted. */
  ghost predicate StepsAreArcs(arcs: set<(NodeId, NodeId)>, componentOf: map<NodeId, nat>, outs: map<nat, seq<Step>>)
  {
    forall a, s | a in outs && s in outs[a] :: IsStep(arcs, componentOf, a, s)
  }

  ghost predicate IsListed(outs: map<nat, seq<Step>>, a: nat, s: Step)
  {
    a in outs && s in outs[a]
  }

  /** Every edge of `edges` between components is listed. */
  ghost predicate EdgesAreListed(edges: seq<Edge>, componentOf: map<NodeId, nat>, outs: map<nat, seq<Step>>)
  {
    forall e | e in edges && e.from in componentOf && e.to in componentOf && componentOf[e.from] != componentOf[e.to] ::
      IsListed(outs, componentOf[e.from], Step(componentOf[e.to], e.from, e.to))
  }

  predicate LeadsOut(componentOf: map<NodeId, nat>, e: Edge)
  {
    e.from in componentOf && e.to in componentOf && componentOf[e.from] != componentOf[e.to]
  }

  lemma EdgeIsStep(g: SubGraph, componentOf: map<NodeId, nat>, e: Edge)
    requires e in g.edges && LeadsOut(componentOf, e)
    ensures IsStep(Counted(g, componentOf), componentOf, componentOf[e.from], Step(componentOf[e.to], e.from, e.to))
  {
  }

  lemma ListingNext(arcs: set<(NodeId, NodeId)>, componentOf: map<NodeId, nat>, edges: seq<Edge>, outs: map<nat, seq<Step>>, e: Edge)
    requires StepsAreArcs(arcs, componentOf, outs) && EdgesAreListed(edges, componentOf, outs) && LeadsOut(componentOf, e)
    requires IsStep(arcs, componentOf, componentOf[e.from], Step(componentOf[e.to], e.from, e.to))
    ensures var a, step := componentOf[e.from], Step(componentOf[e.to], e.from, e.to);
      var now := outs[a := (if a in outs then outs[a] else []) + [step]];
      StepsAreArcs(arcs, componentOf, now) && EdgesAreListed(edges + [e], componentOf, now)
  {
    hide IsStep;
    var a, step := componentOf[e.from], Step(componentOf[e.to], e.from, e.to);
    var now := outs[a := (if a in outs then outs[a] else []) + [step]];
    forall f | f in edges + [e] && LeadsOut(componentOf, f)
      ensures IsListed(now, componentOf[f.from], Step(componentOf[f.to], f.from, f.to))
    {
      if f in edges {
        assert IsListed(outs, componentOf[f.from], Step(componentOf[f.to], f.from, f.to));
      }
    }
  }

  method StepsOut(g: SubGraph, componentOf: map<NodeId, nat>) returns (outs: map<nat, seq<Step>>)
    ensures StepsAreArcs(Counted(g, componentOf), componentOf, outs) && EdgesAreListed(g.edges, componentOf, outs)
  {
    outs := map[];
    assert g.edges[..0] == [];
    hide Counted;
    for i := 0 to |g.edges|
      invariant StepsAreArcs(Counted(g, componentOf), componentOf, outs) && EdgesAreListed(g.edges[..i], componentOf, outs)
    {
      var e := g.edges[i];
      assert g.edges[..i + 1] == g.edges[..i] + [e];
      if e.from in componentOf && e.to in componentOf && componentOf[e.from] != componentOf[e.to] {
        var a := componentOf[e.from];
        var list := if a in outs then outs[a] else [];
        EdgeIsStep(g, componentOf, e);
        ListingNext(Counted(g, componentOf), componentOf, g.edges[..i], outs, e);
        hide StepsAreArcs, EdgesAreListed, IsStep;
        outs := outs[a := list + [Step(componentOf[e.to], e.from, e.to)]];
      }
    }
    assert g.edges[..|g.edges|] == g.edges;
  }

  ghost function LengthAt(best: map<nat, Best>, c: nat): nat
  {
    if c in best then best[c].length else 0
  }

  /** The entry of component `c` carries a path of its length. */
  ghost predicate Settled(arcs: set<(NodeId, NodeId)>, components: seq<seq<NodeId>>, best: map<nat, Best>, c: nat)
  {
    && c < |components| && c in best
    && |best[c].path| == best[c].length + 1 && best[c].path[0] in components[c]
    && StepsJoinClasses(arcs, best[c].path)
  }

  /** The entry of component `c` is longer than that of anything earlier it steps to. */
  ghost predicate BoundsSteps(outs: map<nat, seq<Step>>, best: map<nat, Best>, c: nat)
  {
    forall s | IsListed(outs, c, s) && s.to < c :: LengthAt(best, s.to) + 1 <= LengthAt(best, c)
  }

  /** The path through an arc `from -> toNode` and on along the tail of the target's entry. */
  lemma ExtendedPath(arcs: set<(NodeId, NodeId)>, components: seq<seq<NodeId>>, componentOf: map<NodeId, nat>,
                     best: map<nat, Best>, a: nat, s: Step)
    requires Ranked(arcs, components, componentOf) && IsStep(arcs, componentOf, a, s) && s.to < a
    requires Settled(arcs, components, best, s.to)
    ensures StepsJoinClasses(arcs, [s.from, s.toNode] + best[s.to].path[1..])
  {
    hide Descends;
    var tail := best[s.to].path;
    var path := [s.from, s.toNode] + tail[1..];
    assert MutuallyReachable(arcs, s.toNode, tail[0]);
    assert !MutuallyReachable(arcs, s.from, s.toNode);
    hide Reach, Ranked;
    forall i | 0 <= i < |path| - 1
      ensures ClassesJoined(arcs, path[i], path[i + 1])
    {
      if i == 0 {
        ReachSelf(arcs, s.from);
        ReachSelf(arcs, s.toNode);
      } else {
        var j := i - 1;
        assert ClassesJoined(arcs, tail[j], tail[j + 1]);
        if i == 1 {
          JoinFromClassmate(arcs, s.toNode, tail[0], tail[1]);
        }
      }
    }
  }

  lemma JoinFromClassmate<T(!new)>(arcs: set<(T, T)>, u: T, u': T, v: T)
    requires MutuallyReachable(arcs, u, u') && ClassesJoined(arcs, u', v)
    ensures ClassesJoined(arcs, u, v)
  {
    hide Reach;
    var a, b :| (a, b) in arcs && MutuallyReachable(arcs, u', a) && MutuallyReachable(arcs, b, v);
    ReachTransitive(arcs, u, u', a);
    ReachTransitive(arcs, a, u', u);
    if MutuallyReachable(arcs, u, v) {
      ReachTransitive(arcs, u', u, v);
      ReachTransitive(arcs, v, u, u');
    }
  }

  /** No walk crosses more often than the entry of its first component says. */
  lemma {:induction false} BestBoundsWalk(arcs: set<(NodeId, NodeId)>, edges: seq<Edge>, components: seq<seq<NodeId>>,
                                          componentOf: map<NodeId, nat>, outs: map<nat, seq<Step>>, best: map<nat, Best>,
                                          w: seq<NodeId>)
    requires Ranked(arcs, components, componentOf) && EdgesAreListed(edges, componentOf, outs) && AreEdges(arcs, edges)
    requires forall x | x in componentOf :: BoundsSteps(outs, best, componentOf[x])
    requires IsWalk(arcs, w) && w[0] in componentOf
    ensures Crossings(arcs, w) <= LengthAt(best, componentOf[w[0]])
  {
    hide Reach;
    if |w| > 1 {
      var arc := (w[0], w[1]);
      assert arc in arcs && arc.1 in componentOf;
      var e :| e in edges && e.from == w[0] && e.to == w[1];
      BestBoundsWalk(arcs, edges, components, componentOf, outs, best, w[1..]);
      ReachArc(arcs, w[0], w[1]);
      var a, b := componentOf[w[0]], componentOf[w[1]];
      assert a == b <==> MutuallyReachable(arcs, w[0], w[1]);
      if a != b {
        assert b < a;
        assert BoundsSteps(outs, best, a) && IsListed(outs, a, Step(b, w[0], w[1]));
      }
    }
  }

  ghost predicate AreEdges(arcs: set<(NodeId, NodeId)>, edges: seq<Edge>)
  {
    forall a | a in arcs :: exists e :: e in edges && e.from == a.0 && e.to == a.1
  }

  lemma CountedAreEdges(g: SubGraph, componentOf: map<NodeId, nat>)
    ensures AreEdges(Counted(g, componentOf), g.edges)
  {
  }

  lemma RankIsPlace(arcs: set<(NodeId, NodeId)>, components: seq<seq<NodeId>>, componentOf: map<NodeId, nat>, x: NodeId)
    requires Ranked(arcs, components, componentOf) && x in componentOf
    ensures componentOf[x] < |components| && x in components[componentOf[x]]
  {
  }

  /** The entry chosen for component `c` once the components before it are settled. */
  method ChooseBest(ghost arcs: set<(NodeId, NodeId)>, components: seq<seq<NodeId>>, ghost componentOf: map<NodeId, nat>,
                    outs: map<nat, seq<Step>>, best: map<nat, Best>, c: nat)
    returns (chosen: Best)
    requires Ranked(arcs, components, componentOf) && c < |components| && components[c] != []
    requires StepsAreArcs(arcs, componentOf, outs)
    requires forall d: nat | d < c :: Settled(arcs, components, best, d)
    requires forall d: nat :: d in best <==> d < c
    ensures |chosen.path| == chosen.length + 1 && chosen.path[0] in components[c]
    ensures StepsJoinClasses(arcs, chosen.path)
    ensures forall s | IsListed(outs, c, s) && s.to < c :: LengthAt(best, s.to) + 1 <= chosen.length
  {
    hide Reach, Ranked, StepsJoinClasses;
    chosen := Best(0, [components[c][0]]);
    assert StepsJoinClasses(arcs, chosen.path) by { SingletonPath(arcs, components[c][0]); }
    var steps := if c in outs then outs[c] else [];
    for i := 0 to |steps|
      invariant |chosen.path| == chosen.length + 1 && chosen.path[0] in components[c]
      invariant StepsJoinClasses(arcs, chosen.path)
      invariant forall j | 0 <= j < i && steps[j].to < c :: LengthAt(best, steps[j].to) + 1 <= chosen.length
    {
      var step := steps[i];
      assert step in outs[c] && IsStep(arcs, componentOf, c, step);
      if step.to in best {
        assert Settled(arcs, components, best, step.to);
        var tail := best[step.to];
        var candidate := tail.length + 1;
        if candidate > chosen.length {
          ExtendedPath(arcs, components, componentOf, best, c, step);
          RankIsPlace(arcs, components, componentOf, step.from);
          chosen := Best(candidate, [step.from, step.toNode] + tail.path[1..]);
        }
      }
    }
  }

  lemma SingletonPath<T(!new)>(arcs: set<(T, T)>, x: T)
    ensures StepsJoinClasses(arcs, [x])
  {
  }

  lemma EarlierStaysSettled(arcs: set<(NodeId, NodeId)>, components: seq<seq<NodeId>>,
                            outs: map<nat, seq<Step>>, before: map<nat, Best>, after: map<nat, Best>, d: nat)
    requires Settled(arcs, components, before, d) && BoundsSteps(outs, before, d)
    requires forall k | k in before :: k in after && after[k] == before[k]
    requires forall k: nat | k <= d :: k in before
    ensures Settled(arcs, components, after, d) && BoundsSteps(outs, after, d)
  {
  }

  lemma LongestBounds(arcs: set<(NodeId, NodeId)>, edges: seq<Edge>, components: seq<seq<NodeId>>, componentOf: map<NodeId, nat>,
                      outs: map<nat, seq<Step>>, best: map<nat, Best>, longest: seq<NodeId>)
    requires Ranked(arcs, components, componentOf) && EdgesAreListed(edges, componentOf, outs) && AreEdges(arcs, edges)
    requires forall x | x in componentOf :: BoundsSteps(outs, best, componentOf[x]) && LengthAt(best, componentOf[x]) <= Hops(longest)
    ensures BoundsCrossings(arcs, Hops(longest))
  {
    forall w: seq<NodeId> | IsWalk(arcs, w)
      ensures Crossings(arcs, w) <= Hops(longest)
    {
      if |w| > 1 {
        var arc := (w[0], w[1]);
        assert arc in arcs && arc.0 in componentOf;
        hide Ranked, Reach, BoundsSteps, EdgesAreListed, AreEdges;
        BestBoundsWalk(arcs, edges, components, componentOf, outs, best, w);
      }
    }
  }

  lemma LongestIsMax(arcs: set<(NodeId, NodeId)>, longest: seq<NodeId>)
    requires StepsJoinClasses(arcs, longest) && BoundsCrossings(arcs, Hops(longest))
    ensures IsLongest(arcs, longest)
  {
    hide Reach, StepsJoinClasses, BoundsCrossings, OnlySelfLoops;
    if longest == [] {
      var x: NodeId :| true;
      assert IsWalk(arcs, [x]) && Crossings(arcs, [x]) == 0;
    } else {
      ReachSelf(arcs, longest[0]);
      var w := PathHasWalk(arcs, longest, longest[0]);
      JoinedPathIsWalk(arcs, longest);
    }
  }

  /** If no link leaves an unlisted node, nothing but the arcs is counted. */
  lemma OnlyArcsExtend(g: SubGraph, arcs: set<(NodeId, NodeId)>)
    requires EdgesJoinNodes(g) && Extends(g, arcs)
    ensures arcs == Arcs(g)
  {
    hide MutuallyReachable;
    assert Links(g) <= Arcs(g);
  }

  /** Without cycles other than self-calls, a path whose steps join classes is itself a walk. */
  lemma {:induction false} JoinedPathIsWalk<T(!new)>(arcs: set<(T, T)>, path: seq<T>)
    requires path != [] && StepsJoinClasses(arcs, path)
    ensures OnlySelfLoops(arcs) ==> IsWalk(arcs, path)
  {
    hide Reach;
    if OnlySelfLoops(arcs) && |path| > 1 {
      assert ClassesJoined(arcs, path[0], path[0 + 1]);
      forall i | 0 <= i < |path[1..]| - 1
        ensures ClassesJoined(arcs, path[1..][i], path[1..][i + 1])
      {
        var j := i + 1;
        assert ClassesJoined(arcs, path[j], path[j + 1]);
      }
      JoinedPathIsWalk(arcs, path[1..]);
    }
  }

  /**
   * The longest path counting the nodes of one cycle as one step; `[]` when nothing crosses. Edges from nodes that are
   * not listed are not searched, but the tables count those that lead to an earlier component: it is a longest path
   * over the arcs and such edges, which close no new cycle, and so over the arcs if every edge joins listed nodes.
   */
  method LongestPath(g: SubGraph) returns (longest: seq<NodeId>)
    ensures |longest| != 1 && exists arcs :: IsLongestOver(g, arcs, longest)
    ensures EdgesJoinNodes(g) ==> IsLongest(Arcs(g), longest)
  {
    hide Reach, ReverseTopological, ClassesOfMutualReachability, Arcs, Vertices, Links, Ranked, Counted, Extends, AreEdges,
      EdgesAreListed, StepsAreArcs, IsLongest, BoundsCrossings, EdgesJoinNodes;
    var components := StronglyConnectedComponents(g);
    var componentOf := ComponentOf(g, components);
    ghost var arcs := Counted(g, componentOf);
    CountedIsRanked(g, components, componentOf);
    CountedAreEdges(g, componentOf);
    var outs := StepsOut(g, componentOf);
    var best: map<nat, Best> := map[];
    for c := 0 to |components|
      invariant forall d: nat | d < c :: Settled(arcs, components, best, d) && BoundsSteps(outs, best, d)
      invariant forall d: nat :: d in best <==> d < c
    {
      hide StepsJoinClasses;
      var chosen := ChooseBest(arcs, components, componentOf, outs, best, c);
      ghost var before := best;
      best := best[c := chosen];
      forall d: nat | d <= c
        ensures Settled(arcs, components, best, d) && BoundsSteps(outs, best, d)
      {
        if d < c {
          EarlierStaysSettled(arcs, components, outs, before, best, d);
        }
      }
    }
    longest := [];
    var longestLength: int := -1;
    for c := 0 to |components|
      invariant -1 <= longestLength
      invariant if longestLength == -1 then longest == [] && c == 0
                else |longest| == longestLength + 1 && StepsJoinClasses(arcs, longest)
      invariant forall d: nat | d < c :: LengthAt(best, d) <= longestLength
    {
      hide StepsJoinClasses;
      assert Settled(arcs, components, best, c);
      if best[c].length > longestLength {
        longest, longestLength := best[c].path, best[c].length;
      }
    }
    if longestLength <= 0 {
      longest := [];
    }
    LongestBounds(arcs, g.edges, components, componentOf, outs, best, longest);
    LongestIsMax(arcs, longest);
    assert IsLongestOver(g, arcs, longest);
    if EdgesJoinNodes(g) { OnlyArcsExtend(g, arcs); }
  }
}
