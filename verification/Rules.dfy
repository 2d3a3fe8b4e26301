/** Three design rules: what they report follows from the graph algorithms. */
module Rules {
  import opened Reachability
  import opened Graph
  import opened Sequences
  import opened GraphIndexes
  import opened Sorting
  import Tarjan
  import LP = LongestPath

  /** A rule's finding; the explanatory text is left out. */
  datatype Finding = Finding(ruleId: string, shapeIds: seq<NodeId>)

  function MakeFinding(ruleId: string, shapeIds: seq<NodeId>): Finding
  {
    Finding(ruleId, Unique(shapeIds))
  }

  // ----- sorting by board position -----

  function NotAfter(order: map<NodeId, nat>): (NodeId, NodeId) -> bool
  {
    (x: NodeId, y: NodeId) => PositionIn(order, x) <= PositionIn(order, y)
  }

  function SortByPosition(order: map<NodeId, nat>, s: seq<NodeId>): seq<NodeId>
  {
    Sort(NotAfter(order), s)
  }

  /** The listed nodes of the board come in ascending order of their positions, and before everything else. */
  ghost predicate SortedByPosition(order: map<NodeId, nat>, s: seq<NodeId>)
  {
    forall i, j | 0 <= i < j < |s| && s[j] in order && order[s[j]] < 0x1F_FFFF_FFFF_FFFF ::
      s[i] in order && order[s[i]] <= order[s[j]]
  }

  /** The finding shows the members first, in board order, then the arrows, each shape once. */
  ghost predicate Shows(order: map<NodeId, nat>, f: Finding, members: seq<NodeId>, arrows: seq<NodeId>)
  {
    && NoDuplicates(f.shapeIds) && |members| <= |f.shapeIds|
    && multiset(f.shapeIds[..|members|]) == multiset(members) && SortedByPosition(order, f.shapeIds[..|members|])
    && (forall x :: x in f.shapeIds <==> x in members || x in arrows)
  }

  lemma SortedAscends(order: map<NodeId, nat>, s: seq<NodeId>)
    requires Ordered(NotAfter(order), s)
    ensures SortedByPosition(order, s)
  {
    forall i, j | 0 <= i < j < |s| && s[j] in order && order[s[j]] < 0x1F_FFFF_FFFF_FFFF
      ensures s[i] in order && order[s[i]] <= order[s[j]]
    {
      assert NotAfter(order)(s[i], s[j]);
    }
  }

  lemma {:induction false} DistinctCounts(s: seq<NodeId>)
    ensures NoDuplicates(s) <==> forall x | x in s :: multiset(s)[x] == 1
  {
    if s != [] {
      var n := |s| - 1;
      DistinctCounts(s[..n]);
      assert s == s[..n] + [s[n]];
      assert NoDuplicates(s) <==> NoDuplicates(s[..n]) && s[n] !in s[..n];
      if s[n] in s[..n] {
        assert multiset(s)[s[n]] > 1;
      } else {
        assert multiset(s[..n])[s[n]] == 0;
        assert forall x | x in s[..n] :: multiset(s)[x] == multiset(s[..n])[x];
      }
    }
  }

  lemma MadeFindingShows(order: map<NodeId, nat>, ruleId: string, members: seq<NodeId>, arrows: seq<NodeId>)
    requires NoDuplicates(members)
    ensures Shows(order, MakeFinding(ruleId, SortByPosition(order, members) + arrows), members, arrows)
  {
    var sorted := SortByPosition(order, members);
    SortSorts(NotAfter(order), members);
    SortedAscends(order, sorted);
    DistinctCounts(members);
    DistinctCounts(sorted);
    assert |sorted| == |multiset(sorted)| == |multiset(members)| == |members|;
    UniqueKeepsPrefix(sorted, arrows);
  }

  // ----- sub-graphs -----

  function Within(keepEdge: Edge -> bool, kept: seq<NodeId>): Edge -> bool
  {
    (e: Edge) => keepEdge(e) && e.from in kept && e.to in kept
  }

  function SubGraphOf(nodes: seq<GraphNode>, edges: seq<Edge>, keepNode: GraphNode -> bool, keepEdge: Edge -> bool): SubGraph
  {
    var kept := Ids(Filter(keepNode, nodes));
    SubGraph(kept, Filter(Within(keepEdge, kept), edges))
  }

  lemma SubGraphKeeps(nodes: seq<GraphNode>, edges: seq<Edge>, keepNode: GraphNode -> bool, keepEdge: Edge -> bool)
    ensures var g := SubGraphOf(nodes, edges, keepNode, keepEdge);
      && EdgesJoinNodes(g)
      && (forall e :: e in g.edges <==> e in edges && keepEdge(e) && e.from in g.nodes && e.to in g.nodes)
      && (forall x :: x in g.nodes <==> exists n :: n in nodes && keepNode(n) && n.id == x)
  {
    var g := SubGraphOf(nodes, edges, keepNode, keepEdge);
    forall e
      ensures e in g.edges <==> e in edges && keepEdge(e) && e.from in g.nodes && e.to in g.nodes
    {
      FilterMember(Within(keepEdge, g.nodes), edges, e);
    }
    forall x
      ensures x in g.nodes <==> exists n :: n in nodes && keepNode(n) && n.id == x
    {
      var kept := Filter(keepNode, nodes);
      if x in g.nodes {
        var i :| 0 <= i < |g.nodes| && g.nodes[i] == x;
        FilterMember(keepNode, nodes, kept[i]);
      }
      if n :| n in nodes && keepNode(n) && n.id == x {
        FilterMember(keepNode, nodes, n);
        var i :| 0 <= i < |kept| && kept[i] == n;
        assert g.nodes[i] == x;
      }
    }
  }

  // ----- synchronous call cycles -----

  function AnyNode(): GraphNode -> bool { (n: GraphNode) => true }

  function SyncEdge(): Edge -> bool { (e: Edge) => e.edgeType == Sync }

  /** The synchronous calls between components of the board. */
  ghost function SyncArcs(nodes: seq<GraphNode>, edges: seq<Edge>): set<(NodeId, NodeId)>
  {
    set e | e in edges && e.edgeType == Sync && e.from in Ids(nodes) && e.to in Ids(nodes) :: (e.from, e.to)
  }

  /** `x` calls something, possibly itself, that leads back to it. */
  ghost predicate OnCycle<T(!new)>(arcs: set<(T, T)>, x: T)
  {
    exists y :: (x, y) in arcs && Reach(arcs, y, x)
  }

  function Inside(members: seq<NodeId>): Edge -> bool
  {
    (e: Edge) => e.from in members && e.to in members
  }

  function ArrowOf(): Edge -> NodeId { (e: Edge) => e.arrowId }

  /** The arrows drawn between members. */
  function InternalArrows(edges: seq<Edge>, members: seq<NodeId>): seq<NodeId>
  {
    Map(ArrowOf(), Filter(Inside(members), edges))
  }

  /** One finding for every component with an arrow inside it. */
  function CycleFindings(order: map<NodeId, nat>, edges: seq<Edge>, components: seq<seq<NodeId>>): seq<Finding>
  {
    if components == [] then []
    else
      var members := components[0];
      var arrows := InternalArrows(edges, members);
      (if arrows == [] then [] else [MakeFinding("sync-cycle", SortByPosition(order, members) + arrows)])
      + CycleFindings(order, edges, components[1..])
  }

  predicate HasArrows(edges: seq<Edge>, members: seq<NodeId>)
  {
    InternalArrows(edges, members) != []
  }

  function WithArrows(edges: seq<Edge>): seq<NodeId> -> bool { members => HasArrows(edges, members) }

  /** The components that have an arrow inside, in list order. */
  ghost function Cyclic(edges: seq<Edge>, components: seq<seq<NodeId>>): seq<seq<NodeId>>
  {
    Filter(WithArrows(edges), components)
  }

  /** Members of the groups are mutually reachable exactly when they share a group. */
  ghost predicate GroupsAreClasses(arcs: set<(NodeId, NodeId)>, groups: seq<seq<NodeId>>)
  {
    forall c, d, x, y | 0 <= c < |groups| && 0 <= d < |groups| && x in groups[c] && y in groups[d] ::
      c == d <==> MutuallyReachable(arcs, x, y)
  }

  /** The groups list exactly the vertices on cycles. */
  ghost predicate GroupsCoverCycles(arcs: set<(NodeId, NodeId)>, groups: seq<seq<NodeId>>)
  {
    forall x :: OnCycle(arcs, x) <==> Listed(groups, x)
  }

  lemma {:induction false} FilterKeepsClasses(p: seq<NodeId> -> bool, arcs: set<(NodeId, NodeId)>, groups: seq<seq<NodeId>>)
    requires GroupsAreClasses(arcs, groups)
    ensures GroupsAreClasses(arcs, Filter(p, groups))
  {
    hide MutuallyReachable;
    if groups != [] {
      var rest := groups[1..];
      assert forall c | 0 <= c < |rest| :: rest[c] == groups[c + 1];
      FilterKeepsClasses(p, arcs, rest);
      var kept := Filter(p, rest);
      forall c, x, y | 0 <= c < |kept| && x in groups[0] && y in kept[c]
        ensures !MutuallyReachable(arcs, x, y) && !MutuallyReachable(arcs, y, x)
      {
        FilterMember(p, rest, kept[c]);
        var d :| 0 <= d < |rest| && rest[d] == kept[c];
        assert y in groups[d + 1];
      }
    }
  }

  lemma {:induction false} CycleFindingsShow(order: map<NodeId, nat>, edges: seq<Edge>, components: seq<seq<NodeId>>)
    requires forall c | 0 <= c < |components| :: NoDuplicates(components[c])
    ensures |CycleFindings(order, edges, components)| == |Cyclic(edges, components)|
    ensures forall f | f in CycleFindings(order, edges, components) :: f.ruleId == "sync-cycle"
    ensures forall k | 0 <= k < |Cyclic(edges, components)| ::
      var members := Cyclic(edges, components)[k];
      Shows(order, CycleFindings(order, edges, components)[k], members, InternalArrows(edges, members))
  {
    hide Shows, InternalArrows;
    if components != [] {
      CycleFindingsShow(order, edges, components[1..]);
      MadeFindingShows(order, "sync-cycle", components[0], InternalArrows(edges, components[0]));
    }
  }

  lemma InternalArrowsExist(edges: seq<Edge>, members: seq<NodeId>)
    ensures InternalArrows(edges, members) != [] <==> exists e :: e in edges && e.from in members && e.to in members
  {
    var kept := Filter(Inside(members), edges);
    if kept != [] {
      FilterMember(Inside(members), edges, kept[0]);
    }
    if e :| e in edges && e.from in members && e.to in members {
      FilterMember(Inside(members), edges, e);
    }
  }

  /** A component has an arrow inside exactly when its members lie on cycles. */
  lemma CyclicMeansOnCycle(g: SubGraph, components: seq<seq<NodeId>>, c: nat, x: NodeId)
    requires EdgesJoinNodes(g) && Tarjan.Partitions(components, Vertices(g))
    requires Tarjan.ClassesOfMutualReachability(g, components)
    requires c < |components| && x in components[c]
    ensures InternalArrows(g.edges, components[c]) != [] <==> OnCycle(Arcs(g), x)
  {
    hide Reach, InternalArrows;
    InternalArrowsExist(g.edges, components[c]);
    if e :| e in g.edges && e.from in components[c] && e.to in components[c] {
      assert (e.from, e.to) in Arcs(g);
      assert MutuallyReachable(Arcs(g), e.to, x);
      if x == e.from {
        assert OnCycle(Arcs(g), x);
      } else {
        assert MutuallyReachable(Arcs(g), x, e.from);
        LeavesOnCycle(Arcs(g), x, e.from);
      }
    }
    if OnCycle(Arcs(g), x) {
      var y :| (x, y) in Arcs(g) && Reach(Arcs(g), y, x);
      ReachArc(Arcs(g), x, y);
      var e :| e in g.edges && e.from == x && e.to == y;
      assert y in Vertices(g);
      var d :| 0 <= d < |components| && y in components[d];
      assert MutuallyReachable(Arcs(g), x, y);
    }
  }

  /** Whatever is mutually reachable with something else lies on a cycle. */
  lemma LeavesOnCycle<T(!new)>(arcs: set<(T, T)>, x: T, y: T)
    requires x != y && Reach(arcs, x, y) && Reach(arcs, y, x)
    ensures OnCycle(arcs, x)
  {
    var w :| WalkJoins(arcs, w, x, y);
    assert WalkJoins(arcs, w[1..], w[1], y);
    assert Reach(arcs, w[1], y);
    ReachTransitive(arcs, w[1], y, x);
  }

  lemma CyclicGroups(g: SubGraph, components: seq<seq<NodeId>>)
    requires EdgesJoinNodes(g) && Tarjan.Partitions(components, Vertices(g))
    requires Tarjan.ClassesOfMutualReachability(g, components)
    ensures GroupsAreClasses(Arcs(g), Cyclic(g.edges, components)) && GroupsCoverCycles(Arcs(g), Cyclic(g.edges, components))
  {
    hide InternalArrows, Reach, Arcs, MutuallyReachable;
    FilterKeepsClasses(WithArrows(g.edges), Arcs(g), components);
    var cyclic := Cyclic(g.edges, components);
    forall x
      ensures OnCycle(Arcs(g), x) <==> Listed(cyclic, x)
    {
      if OnCycle(Arcs(g), x) {
        OnCycleIsVertex(g, x);
        var c :| 0 <= c < |components| && x in components[c];
        CyclicMeansOnCycle(g, components, c, x);
        FilterMember(WithArrows(g.edges), components, components[c]);
        var k :| 0 <= k < |cyclic| && cyclic[k] == components[c];
      }
      if Listed(cyclic, x) {
        var k :| 0 <= k < |cyclic| && x in cyclic[k];
        FilterMember(WithArrows(g.edges), components, cyclic[k]);
        var c :| 0 <= c < |components| && components[c] == cyclic[k];
        CyclicMeansOnCycle(g, components, c, x);
      }
    }
  }

  lemma OnCycleIsVertex(g: SubGraph, x: NodeId)
    requires OnCycle(Arcs(g), x)
    ensures x in Vertices(g)
  {
  }

  /** The finding shows a group and the synchronous arrows drawn inside it. */
  ghost predicate ShowsCycle(order: map<NodeId, nat>, edges: seq<Edge>, f: Finding, group: seq<NodeId>)
  {
    f.ruleId == "sync-cycle" && exists arrows :: Shows(order, f, group, arrows) && IsInternalArrows(edges, group, arrows)
  }

  ghost predicate IsInternalArrows(edges: seq<Edge>, group: seq<NodeId>, arrows: seq<NodeId>)
  {
    forall a :: a in arrows <==>
      exists e :: e in edges && e.edgeType == Sync && e.from in group && e.to in group && e.arrowId == a
  }

  lemma InternalArrowsAre(edges: seq<Edge>, group: seq<NodeId>, a: NodeId)
    ensures a in InternalArrows(edges, group) <==> exists e :: e in edges && e.from in group && e.to in group && e.arrowId == a
  {
    var kept := Filter(Inside(group), edges);
    if a in InternalArrows(edges, group) {
      var i :| 0 <= i < |kept| && InternalArrows(edges, group)[i] == a;
      FilterMember(Inside(group), edges, kept[i]);
    }
    if e :| e in edges && e.from in group && e.to in group && e.arrowId == a {
      FilterMember(Inside(group), edges, e);
      var i :| 0 <= i < |kept| && kept[i] == e;
      assert InternalArrows(edges, group)[i] == a;
    }
  }

  lemma SyncArcsAreArcs(nodes: seq<GraphNode>, edges: seq<Edge>)
    ensures var g := SubGraphOf(nodes, edges, AnyNode(), SyncEdge());
      Arcs(g) == SyncArcs(nodes, edges) && forall x :: x in g.nodes <==> x in Ids(nodes)
  {
    SubGraphKeeps(nodes, edges, AnyNode(), SyncEdge());
    var g := SubGraphOf(nodes, edges, AnyNode(), SyncEdge());
    forall x
      ensures x in g.nodes <==> x in Ids(nodes)
    {
      if n :| n in nodes && n.id == x {
        var i :| 0 <= i < |nodes| && nodes[i] == n;
        assert Ids(nodes)[i] == x;
      }
      if x in Ids(nodes) {
        var i :| 0 <= i < |nodes| && Ids(nodes)[i] == x;
        assert nodes[i] in nodes;
      }
    }
    hide SubGraphOf, Ids;
  }

  lemma ArrowsOfGroup(nodes: seq<GraphNode>, edges: seq<Edge>, group: seq<NodeId>)
    requires forall x | x in group :: x in Ids(nodes)
    ensures IsInternalArrows(edges, group, InternalArrows(SubGraphOf(nodes, edges, AnyNode(), SyncEdge()).edges, group))
  {
    SyncArcsAreArcs(nodes, edges);
    SubGraphKeeps(nodes, edges, AnyNode(), SyncEdge());
    hide SubGraphOf, Ids, InternalArrows;
    var sync := SubGraphOf(nodes, edges, AnyNode(), SyncEdge());
    forall a
      ensures a in InternalArrows(sync.edges, group) <==>
        exists e :: e in edges && e.edgeType == Sync && e.from in group && e.to in group && e.arrowId == a
    {
      InternalArrowsAre(sync.edges, group, a);
    }
  }

  /** The findings show these groups one by one, and the groups are the classes of components on cycles. */
  ghost predicate CyclesShown(nodes: seq<GraphNode>, edges: seq<Edge>, order: map<NodeId, nat>, findings: seq<Finding>,
                              groups: seq<seq<NodeId>>)
  {
    && GroupsCoverCycles(SyncArcs(nodes, edges), groups) && GroupsAreClasses(SyncArcs(nodes, edges), groups)
    && |findings| == |groups| && forall k | 0 <= k < |findings| :: ShowsCycle(order, edges, findings[k], groups[k])
  }

  /**
   * The sync-cycle rule: one finding for every class of components on a synchronous cycle, and every component on
   * such a cycle, self-calls included, is in exactly one of them.
   */
  method SyncCycle(index: GraphIndex) returns (findings: seq<Finding>)
    requires index.Valid()
    ensures exists groups :: CyclesShown(index.nodes, index.edges, index.order, findings, groups)
  {
    hide SubGraphOf, Arcs, SyncArcs, MutuallyReachable, OnCycle, InternalArrows, Ids, Shows, IsInternalArrows, CycleFindings;
    var sync := SubGraphOf(index.nodes, index.edges, AnyNode(), SyncEdge());
    var components := Tarjan.StronglyConnectedComponents(sync);
    findings := CycleFindings(index.order, sync.edges, components);
    ghost var groups := Cyclic(sync.edges, components);
    SubGraphKeeps(index.nodes, index.edges, AnyNode(), SyncEdge());
    SyncArcsAreArcs(index.nodes, index.edges);
    CyclicGroups(sync, components);
    CycleFindingsShow(index.order, sync.edges, components);
    forall k | 0 <= k < |findings|
      ensures ShowsCycle(index.order, index.edges, findings[k], groups[k])
    {
      forall x | x in groups[k]
        ensures x in Ids(index.nodes)
      {
        FilterMember(WithArrows(sync.edges), components, groups[k]);
        var c :| 0 <= c < |components| && components[c] == groups[k];
        assert x in Vertices(sync);
      }
      ArrowsOfGroup(index.nodes, index.edges, groups[k]);
    }
    hide GroupsCoverCycles, GroupsAreClasses, ShowsCycle;
    assert CyclesShown(index.nodes, index.edges, index.order, findings, groups);
  }

  // ----- chains of synchronous calls -----

  predicate IsChainKind(k: Kind)
  {
    k == Service || k == Worker || k == ExternalApi
  }

  function ChainNode(): GraphNode -> bool { (n: GraphNode) => IsChainKind(n.kind) }

  /** Some node called `x` is an application component. */
  ghost predicate IsChainId(nodes: seq<GraphNode>, x: NodeId)
  {
    exists n :: n in nodes && (n.kind == Service || n.kind == Worker || n.kind == ExternalApi) && n.id == x
  }

  /** The synchronous calls between application components. */
  ghost function ChainArcs(nodes: seq<GraphNode>, edges: seq<Edge>): set<(NodeId, NodeId)>
  {
    set e | e in edges && e.edgeType == Sync && IsChainId(nodes, e.from) && IsChainId(nodes, e.to) :: (e.from, e.to)
  }

  /** Some chain of calls, counting a cycle as one step, is longer than the limit. */
  ghost predicate ChainExceeds(arcs: set<(NodeId, NodeId)>, limit: int)
  {
    exists w :: IsWalk(arcs, w) && LP.Crossings(arcs, w) > limit
  }

  /** The first edge drawn from `u` to `v`. */
  ghost predicate IsFirst(edges: seq<Edge>, k: nat, u: NodeId, v: NodeId)
  {
    && k < |edges| && edges[k].from == u && edges[k].to == v
    && forall j | 0 <= j < k :: !(edges[j].from == u && edges[j].to == v)
  }

  function FindEdge(edges: seq<Edge>, u: NodeId, v: NodeId): (r: seq<Edge>)
    ensures |r| <= 1 && (r != [] ==> exists k: nat :: IsFirst(edges, k, u, v) && edges[k] == r[0])
    ensures r == [] ==> forall e | e in edges :: !(e.from == u && e.to == v)
  {
    if edges == [] then []
    else if edges[0].from == u && edges[0].to == v then assert IsFirst(edges, 0, u, v); [edges[0]]
    else
      var r := FindEdge(edges[1..], u, v);
      assert forall k: nat | IsFirst(edges[1..], k, u, v) :: IsFirst(edges, k + 1, u, v);
      r
  }

  /** Every hop of the path that is drawn has the arrow of its first edge listed, and nothing else is listed. */
  ghost predicate ArrowsAlong(edges: seq<Edge>, path: seq<NodeId>, arrows: seq<NodeId>)
  {
    && (forall i | 0 <= i < |path| - 1 :: HopShown(edges, path[i], path[i + 1], arrows))
    && (forall a | a in arrows :: exists i :: 0 <= i < |path| - 1 && IsHop(edges, path[i], path[i + 1], a))
  }

  ghost predicate IsHop(edges: seq<Edge>, u: NodeId, v: NodeId, a: NodeId)
  {
    exists k: nat :: IsFirst(edges, k, u, v) && edges[k].arrowId == a
  }

  ghost predicate HopShown(edges: seq<Edge>, u: NodeId, v: NodeId, arrows: seq<NodeId>)
  {
    (exists e :: e in edges && e.from == u && e.to == v) ==> exists a :: a in arrows && IsHop(edges, u, v, a)
  }

  lemma FoundIsHop(edges: seq<Edge>, u: NodeId, v: NodeId, found: seq<Edge>)
    requires found == FindEdge(edges, u, v)
    ensures found != [] ==> IsHop(edges, u, v, found[0].arrowId)
    ensures found == [] ==> !exists e :: e in edges && e.from == u && e.to == v
  {
    hide IsFirst;
  }

  method PathArrows(edges: seq<Edge>, path: seq<NodeId>) returns (arrows: seq<NodeId>)
    ensures ArrowsAlong(edges, path, arrows)
  {
    arrows := [];
    var i := 0;
    while i < |path| - 1
      invariant 0 <= i && (path == [] || i <= |path| - 1)
      invariant forall j | 0 <= j < i && j < |path| - 1 :: HopShown(edges, path[j], path[j + 1], arrows)
      invariant forall a | a in arrows :: exists j :: 0 <= j < |path| - 1 && IsHop(edges, path[j], path[j + 1], a)
    {
      var edge := FindEdge(edges, path[i], path[i + 1]);
      FoundIsHop(edges, path[i], path[i + 1], edge);
      hide IsHop;
      if edge != [] {
        arrows := arrows + [edge[0].arrowId];
      }
      assert HopShown(edges, path[i], path[i + 1], arrows);
      i := i + 1;
    }
  }

  lemma SubGraphJoins(nodes: seq<GraphNode>, edges: seq<Edge>, keepNode: GraphNode -> bool, keepEdge: Edge -> bool)
    ensures EdgesJoinNodes(SubGraphOf(nodes, edges, keepNode, keepEdge))
  {
    SubGraphKeeps(nodes, edges, keepNode, keepEdge);
  }

  lemma PathShown(nodes: seq<GraphNode>, edges: seq<Edge>, path: seq<NodeId>, arrows: seq<NodeId>)
    requires LP.StepsJoinClasses(Arcs(SubGraphOf(nodes, edges, ChainNode(), SyncEdge())), path)
    requires ArrowsAlong(SubGraphOf(nodes, edges, ChainNode(), SyncEdge()).edges, path, arrows)
    ensures ShowsPath(nodes, edges, MakeFinding("deep-sync-chain", path + arrows), path)
  {
    hide SubGraphOf, Arcs, ArrowsAlong, LP.StepsJoinClasses;
    PathIsDistinct(Arcs(SubGraphOf(nodes, edges, ChainNode(), SyncEdge())), path);
    UniqueKeepsPrefix(path, arrows);
  }

  /** The finding shows the path, then the arrows along it. */
  ghost predicate ShowsPath(nodes: seq<GraphNode>, edges: seq<Edge>, f: Finding, path: seq<NodeId>)
  {
    && f.ruleId == "deep-sync-chain"
    && NoDuplicates(f.shapeIds) && |path| <= |f.shapeIds| && f.shapeIds[..|path|] == path
    && exists arrows :: ArrowsAlong(SubGraphOf(nodes, edges, ChainNode(), SyncEdge()).edges, path, arrows)
         && forall x :: x in f.shapeIds <==> x in path || x in arrows
  }

  lemma ChainArcsAreArcs(nodes: seq<GraphNode>, edges: seq<Edge>)
    ensures Arcs(SubGraphOf(nodes, edges, ChainNode(), SyncEdge())) == ChainArcs(nodes, edges)
  {
    SubGraphKeeps(nodes, edges, ChainNode(), SyncEdge());
    var g := SubGraphOf(nodes, edges, ChainNode(), SyncEdge());
    assert forall x :: x in g.nodes <==> IsChainId(nodes, x);
    hide SubGraphOf;
  }

  lemma ChainLimit(arcs: set<(NodeId, NodeId)>, path: seq<NodeId>, limit: int)
    requires LP.IsMaxCrossings(arcs, LP.Hops(path))
    ensures limit >= 0 ==> (LP.Hops(path) > limit <==> ChainExceeds(arcs, limit))
  {
  }

  /** A path that keeps entering new classes visits no node twice. */
  lemma PathIsDistinct(arcs: set<(NodeId, NodeId)>, path: seq<NodeId>)
    requires LP.StepsJoinClasses(arcs, path)
    ensures NoDuplicates(path)
  {
    hide Reach;
    forall i, j | 0 <= i < j < |path|
      ensures path[i] != path[j]
    {
      assert LP.ClassesJoined(arcs, path[i], path[i + 1]);
      JoinedReach(arcs, path[i], path[i + 1]);
      PathReaches(arcs, path, i + 1, j);
    }
  }

  lemma JoinedReach(arcs: set<(NodeId, NodeId)>, u: NodeId, v: NodeId)
    requires LP.ClassesJoined(arcs, u, v)
    ensures Reach(arcs, u, v)
  {
    hide Reach;
    var a, b :| (a, b) in arcs && MutuallyReachable(arcs, u, a) && MutuallyReachable(arcs, b, v);
    ReachArc(arcs, a, b);
    ReachTransitive(arcs, u, a, b);
    ReachTransitive(arcs, u, b, v);
  }

  lemma {:induction false} PathReaches(arcs: set<(NodeId, NodeId)>, path: seq<NodeId>, i: nat, j: nat)
    requires LP.StepsJoinClasses(arcs, path) && i <= j < |path|
    ensures Reach(arcs, path[i], path[j])
    decreases j - i
  {
    hide Reach;
    if i == j {
      ReachSelf(arcs, path[i]);
    } else {
      assert LP.ClassesJoined(arcs, path[i], path[i + 1]);
      JoinedReach(arcs, path[i], path[i + 1]);
      PathReaches(arcs, path, i + 1, j);
      ReachTransitive(arcs, path[i], path[i + 1], path[j]);
    }
  }

  /** The path is a longest chain, and the finding, if there is one, shows it. */
  ghost predicate ChainShown(nodes: seq<GraphNode>, edges: seq<Edge>, findings: seq<Finding>, path: seq<NodeId>)
  {
    && LP.StepsJoinClasses(ChainArcs(nodes, edges), path)
    && LP.IsMaxCrossings(ChainArcs(nodes, edges), LP.Hops(path)) && |path| != 1
    && (LP.OnlySelfLoops(ChainArcs(nodes, edges)) && path != [] ==> IsWalk(ChainArcs(nodes, edges), path))
    && (findings != [] ==> ShowsPath(nodes, edges, findings[0], path))
  }

  /**
   * The deep-chain rule. For a limit of zero or more it fires exactly when some chain is longer than the limit; it
   * then shows a longest one. Below zero, "no chain at all" counts as -1 hops.
   */
  method DeepSyncChain(index: GraphIndex, maxSyncDepth: int) returns (findings: seq<Finding>)
    requires index.Valid()
    ensures |findings| <= 1 && exists path :: ChainShown(index.nodes, index.edges, findings, path)
    ensures maxSyncDepth >= 0 ==> (findings != [] <==> ChainExceeds(ChainArcs(index.nodes, index.edges), maxSyncDepth))
    ensures maxSyncDepth == -1 ==> (findings != [] <==> ChainExceeds(ChainArcs(index.nodes, index.edges), 0))
    ensures maxSyncDepth < -1 ==> findings != []
  {
    hide SubGraphOf, Arcs, ChainArcs, LP.IsMaxCrossings, LP.StepsJoinClasses, Reach, ArrowsAlong, EdgesJoinNodes,
      ChainExceeds, ShowsPath, LP.OnlySelfLoops, IsWalk;
    var sync := SubGraphOf(index.nodes, index.edges, ChainNode(), SyncEdge());
    ChainArcsAreArcs(index.nodes, index.edges);
    SubGraphJoins(index.nodes, index.edges, ChainNode(), SyncEdge());
    var path := LP.LongestPath(sync);
    var hops := |path| - 1;
    ChainLimit(Arcs(sync), path, maxSyncDepth);
    ChainLimit(Arcs(sync), path, 0);
    if hops <= maxSyncDepth {
      assert ChainShown(index.nodes, index.edges, [], path);
      return [];
    }
    var arrows := PathArrows(sync.edges, path);
    findings := [MakeFinding("deep-sync-chain", path + arrows)];
    PathShown(index.nodes, index.edges, path, arrows);
    assert ChainShown(index.nodes, index.edges, findings, path);
  }

  // ----- disconnected components -----

  predicate HasClient(byId: map<NodeId, GraphNode>, island: seq<NodeId>)
  {
    exists id | id in island :: id in byId && byId[id].kind == Client
  }

  /** Larger wins; of two equally large islands, one with a client. */
  predicate Outranks(byId: map<NodeId, GraphNode>, a: seq<NodeId>, b: seq<NodeId>)
  {
    |a| > |b| || (|a| == |b| && HasClient(byId, a) && !HasClient(byId, b))
  }

  /** Some node of the island is a client. */
  ghost predicate ShowsClient(byId: map<NodeId, GraphNode>, island: seq<NodeId>)
  {
    exists i :: 0 <= i < |island| && island[i] in byId && byId[island[i]].kind == Client
  }

  /**
   * The main island: none is larger; if it has no client, no other of its size has one; and it is the first such
   * island.
   */
  ghost predicate IsMain(byId: map<NodeId, GraphNode>, islands: seq<seq<NodeId>>, m: nat)
  {
    && m < |islands|
    && (forall c | 0 <= c < |islands| :: |islands[c]| <= |islands[m]|)
    && (forall c | 0 <= c < |islands| && |islands[c]| == |islands[m]| && ShowsClient(byId, islands[c]) ::
         ShowsClient(byId, islands[m]))
    && (forall c | 0 <= c < m && |islands[c]| == |islands[m]| ::
         ShowsClient(byId, islands[m]) && !ShowsClient(byId, islands[c]))
  }

  lemma ClientIsShown(byId: map<NodeId, GraphNode>, island: seq<NodeId>)
    ensures HasClient(byId, island) <==> ShowsClient(byId, island)
  {
    if HasClient(byId, island) {
      var id :| id in island && id in byId && byId[id].kind == Client;
      var i :| 0 <= i < |island| && island[i] == id;
    }
    if ShowsClient(byId, island) {
      var i :| 0 <= i < |island| && island[i] in byId && byId[island[i]].kind == Client;
      assert island[i] in island;
    }
  }

  lemma FirstUnbeatenIsMain(byId: map<NodeId, GraphNode>, islands: seq<seq<NodeId>>, m: nat)
    requires m < |islands|
    requires forall c | 0 <= c < |islands| :: !Outranks(byId, islands[c], islands[m])
    requires forall c | 0 <= c < m :: Outranks(byId, islands[m], islands[c])
    ensures IsMain(byId, islands, m)
  {
    hide HasClient, ShowsClient;
    forall c | 0 <= c < |islands|
      ensures HasClient(byId, islands[c]) <==> ShowsClient(byId, islands[c])
    {
      ClientIsShown(byId, islands[c]);
    }
  }

  method MainIsland(byId: map<NodeId, GraphNode>, islands: seq<seq<NodeId>>) returns (main: nat)
    requires islands != []
    ensures IsMain(byId, islands, main)
  {
    hide HasClient;
    main := 0;
    for i := 0 to |islands|
      invariant main < |islands| && main <= i
      invariant forall c | 0 <= c < i :: !Outranks(byId, islands[c], islands[main])
      invariant forall c | 0 <= c < main :: Outranks(byId, islands[main], islands[c])
    {
      if Outranks(byId, islands[i], islands[main]) {
        main := i;
      }
    }
    FirstUnbeatenIsMain(byId, islands, main);
  }

  /** The finding shows an island and every arrow touching it. */
  ghost predicate ShowsIsland(order: map<NodeId, nat>, edges: seq<Edge>, f: Finding, island: seq<NodeId>)
  {
    f.ruleId == "disconnected" && exists arrows :: Shows(order, f, island, arrows) && TouchesIsland(edges, island, arrows)
  }

  ghost predicate TouchesIsland(edges: seq<Edge>, island: seq<NodeId>, arrows: seq<NodeId>)
  {
    forall a :: a in arrows <==> exists e :: e in edges && e.arrowId == a && (e.from in island || e.to in island)
  }

  lemma NothingTouched(edges: seq<Edge>)
    ensures TouchesIsland(edges, [], [])
  {
  }

  lemma TouchedGrows(edges: seq<Edge>, island: seq<NodeId>, arrows: seq<NodeId>, id: NodeId, touching: seq<Edge>)
    requires TouchesIsland(edges, island, arrows) && ListsTouching(edges, id, true, touching)
    ensures TouchesIsland(edges, island + [id], arrows + Map(ArrowOf(), touching))
  {
    hide ListsTouching;
    forall a
      ensures a in Map(ArrowOf(), touching) <==> exists e :: e in edges && e.arrowId == a && (e.from == id || e.to == id)
    {
      TouchingArrow(edges, id, touching, a);
    }
    hide Map;
  }

  lemma TouchingArrow(edges: seq<Edge>, id: NodeId, touching: seq<Edge>, a: NodeId)
    requires ListsTouching(edges, id, true, touching)
    ensures a in Map(ArrowOf(), touching) <==> exists e :: e in edges && e.arrowId == a && (e.from == id || e.to == id)
  {
    assert forall e :: e in edges <==> multiset(edges)[e] > 0;
    assert forall e :: e in touching <==> multiset(touching)[e] > 0;
    if e :| e in edges && e.arrowId == a && (e.from == id || e.to == id) {
      assert e in touching;
      var i :| 0 <= i < |touching| && touching[i] == e;
      assert Map(ArrowOf(), touching)[i] == a;
    }
  }

  method IslandArrows(index: GraphIndex, ordered: seq<NodeId>) returns (arrows: seq<NodeId>)
    requires index.Valid() && forall x | x in ordered :: x in Ids(index.nodes)
    ensures TouchesIsland(index.edges, ordered, arrows)
  {
    hide Ids, TouchesIsland, ListsTouching;
    arrows := [];
    NothingTouched(index.edges);
    for i := 0 to |ordered|
      invariant TouchesIsland(index.edges, ordered[..i], arrows)
    {
      var touching := index.Touching(ordered[i]);
      assert ordered[..i + 1] == ordered[..i] + [ordered[i]];
      TouchedGrows(index.edges, ordered[..i], arrows, ordered[i], touching);
      arrows := arrows + Map(ArrowOf(), touching);
    }
    assert ordered[..|ordered|] == ordered;
  }

  method IslandFinding(index: GraphIndex, island: seq<NodeId>) returns (f: Finding)
    requires index.Valid() && NoDuplicates(island) && forall x | x in island :: x in Ids(index.nodes)
    ensures ShowsIsland(index.order, index.edges, f, island)
  {
    hide Ids, Shows, TouchesIsland;
    var ordered := SortByPosition(index.order, island);
    SortSorts(NotAfter(index.order), island);
    var arrows := IslandArrows(index, ordered);
    MadeFindingShows(index.order, "disconnected", island, Unique(arrows));
    IslandShown(index.order, index.edges, island, ordered, arrows);
    f := MakeFinding("disconnected", ordered + Unique(arrows));
  }

  lemma MainIsIsland(byId: map<NodeId, GraphNode>, islands: seq<seq<NodeId>>, m: nat)
    requires IsMain(byId, islands, m)
    ensures m < |islands|
  {
  }

  lemma IslandShown(order: map<NodeId, nat>, edges: seq<Edge>, island: seq<NodeId>, ordered: seq<NodeId>, arrows: seq<NodeId>)
    requires forall x :: x in ordered <==> x in island
    requires TouchesIsland(edges, ordered, arrows)
    ensures forall f: Finding :: f.ruleId == "disconnected" && Shows(order, f, island, Unique(arrows)) ==>
              ShowsIsland(order, edges, f, island)
  {
    hide Shows;
    assert TouchesIsland(edges, island, Unique(arrows));
  }

  /** The islands are those of the board, and the findings show all but the main one, in order. */
  ghost predicate IslandsShown(nodes: seq<GraphNode>, edges: seq<Edge>, byId: map<NodeId, GraphNode>, order: map<NodeId, nat>,
                               findings: seq<Finding>, islands: seq<seq<NodeId>>, main: nat)
  {
    && IslandsPartition(nodes, islands) && IslandsAreConnected(nodes, edges, islands) && InBoardOrder(nodes, islands)
    && (|islands| < 2 ==> findings == [])
    && (|islands| >= 2 ==> IsMain(byId, islands, main) && |findings| == |islands| - 1)
    && (|islands| >= 2 ==> forall k | 0 <= k < |findings| ::
          ShowsIsland(order, edges, findings[k], islands[if k < main then k else k + 1]))
  }

  /**
   * The disconnected rule: with two islands or more, one finding for every island but the main one, so that the
   * findings cover exactly the nodes outside it.
   */
  method Disconnected(index: GraphIndex) returns (findings: seq<Finding>)
    requires index.Valid()
    ensures exists islands, main :: IslandsShown(index.nodes, index.edges, index.byId, index.order, findings, islands, main)
  {
    hide Ids, IslandsAreConnected, InBoardOrder, IsMain, ShowsIsland;
    var islands := index.Islands();
    findings := [];
    if |islands| < 2 {
      assert IslandsShown(index.nodes, index.edges, index.byId, index.order, [], islands, 0);
      return;
    }
    var main := MainIsland(index.byId, islands);
    MainIsIsland(index.byId, islands, main);
    for c := 0 to |islands|
      invariant |findings| == if c <= main then c else c - 1
      invariant forall k | 0 <= k < |findings| ::
        ShowsIsland(index.order, index.edges, findings[k], islands[if k < main then k else k + 1])
    {
      if c != main {
        forall x | x in islands[c]
          ensures x in Ids(index.nodes)
        {
          assert Listed(islands, x);
        }
        var f := IslandFinding(index, islands[c]);
        findings := findings + [f];
      }
    }
    hide IslandsPartition;
    assert IslandsShown(index.nodes, index.edges, index.byId, index.order, findings, islands, main);
  }
}
