/** Lookup tables of a design graph, and the two worklist traversals that use them. */
module GraphIndexes {
  import opened Reachability
  import opened Graph
  import opened Sequences

  datatype Kind = Client | Cdn | LoadBalancer | ApiGateway | Service | Database | Cache | Queue | ObjectStorage
    | SearchIndex | Worker | ExternalApi

  datatype GraphNode = GraphNode(id: NodeId, kind: Kind)

  function IdOf(): GraphNode -> NodeId { (n: GraphNode) => n.id }

  function Ids(nodes: seq<GraphNode>): seq<NodeId> { Map(IdOf(), nodes) }

  function Leaves(id: NodeId): Edge -> bool { (e: Edge) => e.from == id }

  function Enters(id: NodeId): Edge -> bool { (e: Edge) => e.to == id }

  function JoinsTwo(): Edge -> bool { (e: Edge) => e.from != e.to }

  function EdgesFrom(edges: seq<Edge>, id: NodeId): seq<Edge>
  {
    Filter(Leaves(id), edges)
  }

  function EdgesTo(edges: seq<Edge>, id: NodeId): seq<Edge>
  {
    Filter(Enters(id), edges)
  }

  /** `result` is the edges touching a node, each as often as listed, whatever their order. */
  ghost predicate ListsTouching(edges: seq<Edge>, id: NodeId, known: bool, result: seq<Edge>)
  {
    forall e :: multiset(result)[e] == if known && (e.from == id || e.to == id) then multiset(edges)[e] else 0
  }

  lemma NoEdges(edges: seq<Edge>)
    requires edges == []
    ensures forall id :: EdgesFrom(edges, id) == [] && EdgesTo(edges, id) == []
  {
  }

  lemma EdgesFromPush(edges: seq<Edge>, e: Edge, id: NodeId)
    ensures EdgesFrom(edges + [e], id) == EdgesFrom(edges, id) + if e.from == id then [e] else []
  {
    FilterAppend(Leaves(id), edges, [e]);
  }

  lemma EdgesToPush(edges: seq<Edge>, e: Edge, id: NodeId)
    ensures EdgesTo(edges + [e], id) == EdgesTo(edges, id) + if e.to == id then [e] else []
  {
    FilterAppend(Enters(id), edges, [e]);
  }

  /** Edges out of a node, then those into it that come from elsewhere: each touching edge as often as listed. */
  lemma TouchingCounts(edges: seq<Edge>, id: NodeId)
    ensures ListsTouching(edges, id, true, EdgesFrom(edges, id) + Filter(JoinsTwo(), EdgesTo(edges, id)))
  {
    hide Filter;
    forall e
      ensures multiset(EdgesFrom(edges, id) + Filter(JoinsTwo(), EdgesTo(edges, id)))[e]
           == if e.from == id || e.to == id then multiset(edges)[e] else 0
    {
      FilterCounts(JoinsTwo(), EdgesTo(edges, id), e);
      FilterCounts(Leaves(id), edges, e);
      FilterCounts(Enters(id), edges, e);
    }
  }

  /** Appends the edges that are not self-loops. */
  method AddJoining(leaving: seq<Edge>, entering: seq<Edge>) returns (result: seq<Edge>)
    ensures result == leaving + Filter(JoinsTwo(), entering)
  {
    result := leaving;
    for i := 0 to |entering|
      invariant result == leaving + Filter(JoinsTwo(), entering[..i])
    {
      var e := entering[i];
      FilterNext(JoinsTwo(), entering, i);
      if e.from != e.to { result := result + [e]; }
    }
    assert entering[..|entering|] == entering;
  }

  /** The same for a node that may be unknown to the index. */
  lemma TouchingOf(edges: seq<Edge>, id: NodeId, known: bool, leaving: seq<Edge>, entering: seq<Edge>)
    requires leaving == if known then EdgesFrom(edges, id) else []
    requires entering == if known then EdgesTo(edges, id) else []
    ensures ListsTouching(edges, id, known, leaving + Filter(JoinsTwo(), entering))
  {
    if known {
      TouchingCounts(edges, id);
    } else {
      assert leaving + Filter(JoinsTwo(), entering) == [];
    }
  }

  /** Two nodes joined by an edge of either direction. */
  ghost function Links(nodes: seq<GraphNode>, edges: seq<Edge>): set<(NodeId, NodeId)>
  {
    (set e | e in edges && e.from in Ids(nodes) && e.to in Ids(nodes) :: (e.from, e.to)) +
    (set e | e in edges && e.from in Ids(nodes) && e.to in Ids(nodes) :: (e.to, e.from))
  }

  /** Arcs along accepted edges leaving a node. */
  ghost function UsedArcs(nodes: seq<GraphNode>, edges: seq<Edge>, use: Edge -> bool): set<(NodeId, NodeId)>
  {
    set e | e in edges && e.from in Ids(nodes) && use(e) :: (e.from, e.to)
  }

  /** Board position of the first node called `id`. */
  ghost function FirstPosition(nodes: seq<GraphNode>, id: NodeId): nat
  {
    if nodes == [] || nodes[0].id == id then 0 else 1 + FirstPosition(nodes[1..], id)
  }

  /** Some island lists `x`. */
  ghost predicate Listed(islands: seq<seq<NodeId>>, x: NodeId)
  {
    exists c :: 0 <= c < |islands| && x in islands[c]
  }

  /** The islands are nonempty, list each node id once, and together list exactly the node ids. */
  ghost predicate IslandsPartition(nodes: seq<GraphNode>, islands: seq<seq<NodeId>>)
  {
    && (forall c | 0 <= c < |islands| :: islands[c] != [] && NoDuplicates(islands[c]))
    && (forall c, d, x | 0 <= c < d < |islands| && x in islands[c] :: x !in islands[d])
    && (forall x :: x in Ids(nodes) <==> Listed(islands, x))
  }

  /** Two node ids share an island exactly when links connect them. */
  ghost predicate IslandsAreConnected(nodes: seq<GraphNode>, edges: seq<Edge>, islands: seq<seq<NodeId>>)
  {
    forall c, d, x, y | 0 <= c < |islands| && 0 <= d < |islands| && x in islands[c] && y in islands[d] ::
      c == d <==> Reach(Links(nodes, edges), x, y)
  }

  /** Each island starts with its first node on the board, and islands come in the order of their first nodes. */
  ghost predicate InBoardOrder(nodes: seq<GraphNode>, islands: seq<seq<NodeId>>)
  {
    && (forall c, x | 0 <= c < |islands| && x in islands[c] && islands[c] != [] ::
         FirstPosition(nodes, islands[c][0]) <= FirstPosition(nodes, x))
    && (forall c, d | 0 <= c < d < |islands| && islands[c] != [] && islands[d] != [] ::
         FirstPosition(nodes, islands[c][0]) < FirstPosition(nodes, islands[d][0]))
  }

  function PositionIn(order: map<NodeId, nat>, id: NodeId): int
  {
    if id in order then order[id] else 0x1F_FFFF_FFFF_FFFF
  }

  class GraphIndex {
    const nodes: seq<GraphNode>
    const edges: seq<Edge>
    const byId: map<NodeId, GraphNode>
    const order: map<NodeId, nat>
    const outgoing: map<NodeId, seq<Edge>>
    const incoming: map<NodeId, seq<Edge>>

    ghost predicate Valid()
    {
      && byId.Keys == order.Keys == outgoing.Keys == incoming.Keys == (set x | x in Ids(nodes))
      && (forall id | id in byId :: order[id] < |nodes| && nodes[order[id]] == byId[id] && byId[id].id == id)
      && (forall id | id in outgoing :: outgoing[id] == EdgesFrom(edges, id) && incoming[id] == EdgesTo(edges, id))
    }

    constructor (nodes: seq<GraphNode>, edges: seq<Edge>)
      ensures Valid() && this.nodes == nodes && this.edges == edges
    {
      var byId, order := IndexNodes(nodes);
      var outgoing, incoming := IndexEdges((set x | x in Ids(nodes)), edges);
      this.nodes, this.edges, this.byId, this.order := nodes, edges, byId, order;
      this.outgoing, this.incoming := outgoing, incoming;
    }

    static method IndexNodes(nodes: seq<GraphNode>) returns (byId: map<NodeId, GraphNode>, order: map<NodeId, nat>)
      ensures byId.Keys == order.Keys == (set x | x in Ids(nodes))
      ensures forall id | id in byId :: order[id] < |nodes| && nodes[order[id]] == byId[id] && byId[id].id == id
    {
      byId, order := map[], map[];
      for i := 0 to |nodes|
        invariant byId.Keys == order.Keys == (set x | x in Ids(nodes)[..i])
        invariant forall id | id in byId :: order[id] < |nodes| && nodes[order[id]] == byId[id] && byId[id].id == id
      {
        var node := nodes[i];
        assert Ids(nodes)[i] == node.id;
        byId, order := byId[node.id := node], order[node.id := i];
      }
      assert Ids(nodes)[..|nodes|] == Ids(nodes);
    }

    static method IndexEdges(ids: set<NodeId>, edges: seq<Edge>)
      returns (outgoing: map<NodeId, seq<Edge>>, incoming: map<NodeId, seq<Edge>>)
      ensures outgoing.Keys == incoming.Keys == ids
      ensures forall id | id in ids :: outgoing[id] == EdgesFrom(edges, id) && incoming[id] == EdgesTo(edges, id)
    {
      hide EdgesFrom, EdgesTo;
      outgoing, incoming := map id | id in ids :: [], map id | id in ids :: [];
      NoEdges(edges[..0]);
      for i := 0 to |edges|
        invariant outgoing.Keys == incoming.Keys == ids
        invariant forall id | id in ids :: outgoing[id] == EdgesFrom(edges[..i], id)
        invariant forall id | id in ids :: incoming[id] == EdgesTo(edges[..i], id)
      {
        var e := edges[i];
        assert edges[..i + 1] == edges[..i] + [e];
        forall id | id in ids
          ensures EdgesFrom(edges[..i + 1], id) == EdgesFrom(edges[..i], id) + if e.from == id then [e] else []
          ensures EdgesTo(edges[..i + 1], id) == EdgesTo(edges[..i], id) + if e.to == id then [e] else []
        {
          EdgesFromPush(edges[..i], e, id);
          EdgesToPush(edges[..i], e, id);
        }
        if e.from in outgoing { outgoing := outgoing[e.from := outgoing[e.from] + [e]]; }
        if e.to in incoming { incoming := incoming[e.to := incoming[e.to] + [e]]; }
      }
      assert edges[..|edges|] == edges;
    }

    /** Unknown nodes sort behind all others. */
    function Position(id: NodeId): int
    {
      PositionIn(order, id)
    }

    function Out(id: NodeId): seq<Edge>
    {
      if id in outgoing then outgoing[id] else []
    }

    function In(id: NodeId): seq<Edge>
    {
      if id in incoming then incoming[id] else []
    }

    lemma TouchingLists(id: NodeId)
      requires Valid()
      ensures ListsTouching(edges, id, id in Ids(nodes), Out(id) + Filter(JoinsTwo(), In(id)))
    {
      hide Filter, JoinsTwo, ListsTouching, EdgesFrom, EdgesTo, Ids;
      TouchingOf(edges, id, id in Ids(nodes), Out(id), In(id));
    }

    /** The edges at a node, leaving or entering, each as often as the board has it. */
    method Touching(id: NodeId) returns (result: seq<Edge>)
      requires Valid()
      ensures ListsTouching(edges, id, id in Ids(nodes), result)
    {
      TouchingLists(id);
      hide *;
      result := AddJoining(Out(id), In(id));
    }

    /** Everything linked to `start`, beginning with `start`; `seen` grows by exactly that. */
    method ExploreIsland(start: NodeId, before: set<NodeId>) returns (island: seq<NodeId>, seen: set<NodeId>)
      requires Valid() && start in Ids(nodes) && start !in before && Closed(Links(nodes, edges), before)
      ensures IsIsland(nodes, edges, start, before, island)
      ensures seen == before + (set x | x in island)
    {
      hide Reach, Links, Ids, IdOf, ListsTouching, Exploring, IsIsland;
      island := [];
      var stack := [start];
      seen := before + {start};
      StartsExploring(nodes, edges, start, before);
      while stack != []
        invariant Exploring(nodes, edges, start, before, island, stack, {}, seen)
        decreases (set x | x in Ids(nodes)) - (set x | x in island)
      {
        var last := |stack| - 1;
        var id := stack[last];
        PopKeepsExploring(nodes, edges, start, before, island, stack, seen);
        assert id in (set x | x in Ids(nodes)) - (set x | x in island);
        stack, island := stack[..last], island + [id];
        assert id in island;
        var touching := Touching(id);
        for i := 0 to |touching|
          invariant Exploring(nodes, edges, start, before, island, stack, {id}, seen)
          invariant forall j | 0 <= j < i && OtherEnd(touching[j], id) in Ids(nodes) :: OtherEnd(touching[j], id) in seen
        {
          var next := OtherEnd(touching[i], id);
          if next !in seen && next in byId {
            LinkFromTouching(nodes, edges, id, touching, i);
            PushKeepsExploring(nodes, edges, start, before, island, stack, id, seen, next);
            seen, stack := seen + {next}, stack + [next];
          }
        }
        AllLinksSeen(nodes, edges, start, before, island, stack, seen, id, touching);
      }
      ExploredIsIsland(nodes, edges, start, before, island, seen);
    }

    /** The classes of nodes that edges of any type connect, directions disregarded. */
    method Islands() returns (result: seq<seq<NodeId>>)
      requires Valid()
      ensures IslandsPartition(nodes, result) && IslandsAreConnected(nodes, edges, result) && InBoardOrder(nodes, result)
    {
      hide Reach, Links, IsIsland, IslandsSoFar, IslandsPartition, IslandsAreConnected, InBoardOrder;
      var seen: set<NodeId> := {};
      result := [];
      NoIslandsYet(nodes, edges);
      for p := 0 to |nodes|
        invariant IslandsSoFar(nodes, edges, p, result, seen)
      {
        var start := nodes[p].id;
        SeenIsClosed(nodes, edges, p, result, seen);
        assert Ids(nodes)[p] == start;
        if start in seen {
          SkipKeepsIslands(nodes, edges, p, result, seen);
          continue;
        }
        var island;
        ghost var before := seen;
        island, seen := ExploreIsland(start, seen);
        AddKeepsIslands(nodes, edges, p, result, before, island);
        result := result + [island];
      }
      AllIslandsFound(nodes, edges, result, seen);
    }

    /** Nodes reachable from `starts` along edges accepted by `use`; the starts themselves always count. */
    method Reachable(starts: seq<NodeId>, use: Edge -> bool) returns (seen: set<NodeId>)
      requires Valid()
      ensures forall x :: x in seen <==> FromStarts(UsedArcs(nodes, edges, use), starts, x)
    {
      hide Reach, UsedArcs, Ids, FromStarts, Traversing, EndPoints, EdgesFrom;
      ghost var arcs := UsedArcs(nodes, edges, use);
      seen := set s | s in starts;
      var stack := starts;
      StartsTraversing(arcs, starts);
      ghost var bound := seen + EndPoints(edges);
      while stack != []
        invariant seen <= bound && Traversing(arcs, starts, stack, {}, seen)
        decreases bound - seen, |stack|
      {
        var last := |stack| - 1;
        var id := stack[last];
        PopKeepsTraversing(arcs, starts, stack, seen);
        ghost var before := seen;
        stack := stack[..last];
        var leaving := Out(id);
        for i := 0 to |leaving|
          invariant before <= seen <= bound && Traversing(arcs, starts, stack, {id}, seen)
          invariant seen == before ==> |stack| == last
          invariant forall j | 0 <= j < i && use(leaving[j]) :: leaving[j].to in seen
        {
          var e := leaving[i];
          if !use(e) || e.to in seen { continue; }
          UsedArcFromOut(nodes, edges, use, id, e);
          PushKeepsTraversing(arcs, starts, stack, id, seen, e.to);
          seen, stack := seen + {e.to}, stack + [e.to];
        }
        AllUsedArcsSeen(nodes, edges, use, id, leaving, seen);
        CloseKeepsTraversing(arcs, starts, stack, id, seen);
        assert seen != before ==> bound - seen < bound - before;
      }
      TraversedIsReachable(arcs, starts, seen);
    }
  }

  /** Some start reaches `x`. */
  ghost predicate FromStarts(arcs: set<(NodeId, NodeId)>, starts: seq<NodeId>, x: NodeId)
  {
    exists s :: s in starts && Reach(arcs, s, x)
  }

  ghost predicate Traversing(arcs: set<(NodeId, NodeId)>, starts: seq<NodeId>, stack: seq<NodeId>,
                             open: set<NodeId>, seen: set<NodeId>)
  {
    && (forall s | s in starts :: s in seen)
    && (forall x | x in stack || x in open :: x in seen)
    && (forall x | x in seen :: FromStarts(arcs, starts, x))
    && (forall x, y | x in seen && x !in stack && x !in open && (x, y) in arcs :: y in seen)
  }

  lemma StartsTraversing(arcs: set<(NodeId, NodeId)>, starts: seq<NodeId>)
    ensures Traversing(arcs, starts, starts, {}, set s | s in starts)
  {
    hide Reach;
    forall s | s in starts
      ensures FromStarts(arcs, starts, s)
    {
      ReachSelf(arcs, s);
    }
  }

  lemma PopKeepsTraversing(arcs: set<(NodeId, NodeId)>, starts: seq<NodeId>, stack: seq<NodeId>, seen: set<NodeId>)
    requires Traversing(arcs, starts, stack, {}, seen) && stack != []
    ensures Traversing(arcs, starts, stack[..|stack| - 1], {stack[|stack| - 1]}, seen)
  {
    hide FromStarts;
    assert stack == stack[..|stack| - 1] + [stack[|stack| - 1]];
  }

  lemma PushKeepsTraversing(arcs: set<(NodeId, NodeId)>, starts: seq<NodeId>, stack: seq<NodeId>, id: NodeId, seen: set<NodeId>, y: NodeId)
    requires Traversing(arcs, starts, stack, {id}, seen) && (id, y) in arcs && y !in seen
    ensures Traversing(arcs, starts, stack + [y], {id}, seen + {y})
  {
    hide Reach;
    assert FromStarts(arcs, starts, id);
    var s :| s in starts && Reach(arcs, s, id);
    ReachArc(arcs, id, y);
    ReachTransitive(arcs, s, id, y);
    assert FromStarts(arcs, starts, y);
    hide FromStarts;
  }

  lemma CloseKeepsTraversing(arcs: set<(NodeId, NodeId)>, starts: seq<NodeId>, stack: seq<NodeId>, id: NodeId, seen: set<NodeId>)
    requires Traversing(arcs, starts, stack, {id}, seen) && forall y | (id, y) in arcs :: y in seen
    ensures Traversing(arcs, starts, stack, {}, seen)
  {
    hide FromStarts;
  }

  lemma TraversedIsReachable(arcs: set<(NodeId, NodeId)>, starts: seq<NodeId>, seen: set<NodeId>)
    requires Traversing(arcs, starts, [], {}, seen)
    ensures forall x :: x in seen <==> FromStarts(arcs, starts, x)
  {
    hide Reach;
    forall x | FromStarts(arcs, starts, x)
      ensures x in seen
    {
      var s :| s in starts && Reach(arcs, s, x);
      ClosedContainsReach(arcs, seen, s, x);
    }
    hide FromStarts;
  }

  ghost function EndPoints(edges: seq<Edge>): set<NodeId>
  {
    set e | e in edges :: e.to
  }

  lemma UsedArcFromOut(nodes: seq<GraphNode>, edges: seq<Edge>, use: Edge -> bool, id: NodeId, e: Edge)
    requires id in Ids(nodes) && e in EdgesFrom(edges, id) && use(e)
    ensures (id, e.to) in UsedArcs(nodes, edges, use) && e.to in EndPoints(edges)
  {
    FilterMember(Leaves(id), edges, e);
  }

  lemma AllUsedArcsSeen(nodes: seq<GraphNode>, edges: seq<Edge>, use: Edge -> bool, id: NodeId, leaving: seq<Edge>, seen: set<NodeId>)
    requires id in Ids(nodes) ==> leaving == EdgesFrom(edges, id)
    requires forall j | 0 <= j < |leaving| && use(leaving[j]) :: leaving[j].to in seen
    ensures forall y | (id, y) in UsedArcs(nodes, edges, use) :: y in seen
  {
    forall y | (id, y) in UsedArcs(nodes, edges, use)
      ensures y in seen
    {
      var e :| e in edges && e.from in Ids(nodes) && use(e) && e.from == id && e.to == y;
      FilterMember(Leaves(id), edges, e);
      var j :| 0 <= j < |leaving| && leaving[j] == e;
    }
  }

  lemma {:induction false} FirstPositionBounds(nodes: seq<GraphNode>, p: nat, id: NodeId)
    requires p <= |nodes|
    ensures id !in Ids(nodes)[..p] ==> p <= FirstPosition(nodes, id)
    ensures id in Ids(nodes)[..p] ==> FirstPosition(nodes, id) < p
  {
    if p > 0 {
      FirstPositionBounds(nodes[1..], p - 1, id);
      assert Ids(nodes)[..p] == [nodes[0].id] + Ids(nodes[1..])[..p - 1];
    }
  }

  ghost predicate EachIsIsland(nodes: seq<GraphNode>, edges: seq<Edge>, result: seq<seq<NodeId>>)
  {
    && (forall c | 0 <= c < |result| :: result[c] != [] && IsIsland(nodes, edges, result[c][0], {}, result[c]))
    && (forall c, d, x | 0 <= c < d < |result| && x in result[c] :: x !in result[d])
  }

  /** The islands found by position `p`, with everything they list in `seen`. */
  ghost predicate IslandsSoFar(nodes: seq<GraphNode>, edges: seq<Edge>, p: nat, result: seq<seq<NodeId>>, seen: set<NodeId>)
  {
    && p <= |nodes| && EachIsIsland(nodes, edges, result)
    && (forall x :: x in seen <==> Listed(result, x))
    && (forall x | x in Ids(nodes)[..p] :: x in seen)
    && (forall c | 0 <= c < |result| && result[c] != [] :: FirstPosition(nodes, result[c][0]) < p)
    && InBoardOrder(nodes, result)
  }

  lemma NoIslandsYet(nodes: seq<GraphNode>, edges: seq<Edge>)
    ensures IslandsSoFar(nodes, edges, 0, [], {})
  {
  }

  lemma SkipKeepsIslands(nodes: seq<GraphNode>, edges: seq<Edge>, p: nat, result: seq<seq<NodeId>>, seen: set<NodeId>)
    requires IslandsSoFar(nodes, edges, p, result, seen) && p < |nodes| && nodes[p].id in seen
    ensures IslandsSoFar(nodes, edges, p + 1, result, seen)
  {
    hide EachIsIsland, InBoardOrder;
    assert Ids(nodes)[..p + 1] == Ids(nodes)[..p] + [nodes[p].id];
  }

  lemma SeenIsClosed(nodes: seq<GraphNode>, edges: seq<Edge>, p: nat, result: seq<seq<NodeId>>, seen: set<NodeId>)
    requires IslandsSoFar(nodes, edges, p, result, seen)
    ensures Closed(Links(nodes, edges), seen)
  {
    hide InBoardOrder, Links, Reach, Ids;
    forall x, y | (x, y) in Links(nodes, edges) && x in seen
      ensures y in seen
    {
      assert Listed(result, x);
      var c :| 0 <= c < |result| && x in result[c];
      assert Closed(Links(nodes, edges), set z | z in result[c]);
      assert y in result[c];
      assert Listed(result, y);
    }
  }

  lemma AddKeepsListed(result: seq<seq<NodeId>>, island: seq<NodeId>, x: NodeId)
    ensures Listed(result + [island], x) <==> Listed(result, x) || x in island
  {
    if Listed(result, x) {
      var c :| 0 <= c < |result| && x in result[c];
      assert x in (result + [island])[c];
    }
    if x in island {
      assert x in (result + [island])[|result|];
    }
  }

  lemma AddKeepsOrder(nodes: seq<GraphNode>, edges: seq<Edge>, p: nat, result: seq<seq<NodeId>>, seen: set<NodeId>, island: seq<NodeId>)
    requires IslandsSoFar(nodes, edges, p, result, seen) && p < |nodes|
    requires IsIsland(nodes, edges, nodes[p].id, seen, island)
    ensures FirstPosition(nodes, island[0]) == p && InBoardOrder(nodes, result + [island])
  {
    hide EachIsIsland, Links, Reach;
    FirstPositionBounds(nodes, p, island[0]);
    assert Ids(nodes)[..p + 1][p] == island[0];
    FirstPositionBounds(nodes, p + 1, island[0]);
    forall x | x in island
      ensures p <= FirstPosition(nodes, x)
    {
      FirstPositionBounds(nodes, p, x);
    }
  }

  lemma AddKeepsIslands(nodes: seq<GraphNode>, edges: seq<Edge>, p: nat, result: seq<seq<NodeId>>, seen: set<NodeId>, island: seq<NodeId>)
    requires IslandsSoFar(nodes, edges, p, result, seen) && p < |nodes|
    requires IsIsland(nodes, edges, nodes[p].id, seen, island)
    ensures IslandsSoFar(nodes, edges, p + 1, result + [island], seen + (set x | x in island))
  {
    hide InBoardOrder, Links, Reach, Closed;
    AddKeepsOrder(nodes, edges, p, result, seen, island);
    assert Ids(nodes)[..p + 1] == Ids(nodes)[..p] + [nodes[p].id];
    assert nodes[p].id in island;
    assert EachIsIsland(nodes, edges, result + [island]) by {
      forall c, x | 0 <= c < |result| && x in result[c]
        ensures x !in island
      {
        assert Listed(result, x);
      }
      assert IsIsland(nodes, edges, island[0], {}, island);
    }
    hide EachIsIsland, Ids, IsIsland;
    forall x
      ensures x in seen + (set y | y in island) <==> Listed(result + [island], x)
    {
      AddKeepsListed(result, island, x);
    }
  }

  lemma LinksAreSymmetric(nodes: seq<GraphNode>, edges: seq<Edge>, x: NodeId, y: NodeId)
    requires Reach(Links(nodes, edges), x, y)
    ensures Reach(Links(nodes, edges), y, x)
  {
    hide Ids;
    var w :| WalkJoins(Links(nodes, edges), w, x, y);
    assert forall u, v | (u, v) in Links(nodes, edges) :: (v, u) in Links(nodes, edges);
    hide Links;
    ReverseWalk(Links(nodes, edges), w);
  }

  lemma {:induction false} ReverseWalk<T(!new)>(arcs: set<(T, T)>, w: seq<T>)
    requires IsWalk(arcs, w) && forall u, v | (u, v) in arcs :: (v, u) in arcs
    ensures Reach(arcs, w[|w| - 1], w[0])
  {
    if |w| == 1 {
      ReachSelf(arcs, w[0]);
    } else {
      ReverseWalk(arcs, w[1..]);
      ReachArc(arcs, w[1], w[0]);
      ReachTransitive(arcs, w[|w| - 1], w[1], w[0]);
    }
  }

  lemma AllIslandsFound(nodes: seq<GraphNode>, edges: seq<Edge>, result: seq<seq<NodeId>>, seen: set<NodeId>)
    requires IslandsSoFar(nodes, edges, |nodes|, result, seen)
    ensures IslandsPartition(nodes, result) && IslandsAreConnected(nodes, edges, result) && InBoardOrder(nodes, result)
  {
    hide InBoardOrder, Links, Reach;
    assert Ids(nodes)[..|nodes|] == Ids(nodes);
    forall x
      ensures x in Ids(nodes) <==> Listed(result, x)
    {
      if Listed(result, x) {
        var c :| 0 <= c < |result| && x in result[c];
      }
    }
    forall c, d, x, y | 0 <= c < |result| && 0 <= d < |result| && x in result[c] && y in result[d]
      ensures c == d <==> Reach(Links(nodes, edges), x, y)
    {
      if c == d {
        LinksAreSymmetric(nodes, edges, result[c][0], x);
        ReachTransitive(Links(nodes, edges), x, result[c][0], y);
      }
      if Reach(Links(nodes, edges), x, y) {
        ClosedContainsReach(Links(nodes, edges), (set z | z in result[c]), x, y);
      }
    }
  }

  function OtherEnd(e: Edge, id: NodeId): NodeId
  {
    if e.from == id then e.to else e.from
  }

  ghost predicate IsIsland(nodes: seq<GraphNode>, edges: seq<Edge>, start: NodeId, before: set<NodeId>, island: seq<NodeId>)
  {
    && island != [] && island[0] == start && NoDuplicates(island)
    && Closed(Links(nodes, edges), set x | x in island)
    && (forall x | x in island :: x !in before && x in Ids(nodes) && Reach(Links(nodes, edges), start, x))
  }

  /** The worklist invariant; the links of the nodes in `open` may not all have been looked at. */
  ghost predicate Exploring(nodes: seq<GraphNode>, edges: seq<Edge>, start: NodeId, before: set<NodeId>,
                            island: seq<NodeId>, stack: seq<NodeId>, open: set<NodeId>, seen: set<NodeId>)
  {
    && NoDuplicates(island) && NoDuplicates(stack) && (forall x | x in island :: x !in stack)
    && (if island == [] then stack == [start] else island[0] == start)
    && (forall x :: x in seen <==> x in before || x in island || x in stack)
    && (forall x | x in island || x in stack :: x !in before && x in Ids(nodes) && Reach(Links(nodes, edges), start, x))
    && (forall x, y | x in island && x !in open && (x, y) in Links(nodes, edges) :: y in seen)
  }

  lemma StartsExploring(nodes: seq<GraphNode>, edges: seq<Edge>, start: NodeId, before: set<NodeId>)
    requires start in Ids(nodes) && start !in before
    ensures Exploring(nodes, edges, start, before, [], [start], {}, before + {start})
  {
    ReachSelf(Links(nodes, edges), start);
    hide Reach;
  }

  lemma PopKeepsExploring(nodes: seq<GraphNode>, edges: seq<Edge>, start: NodeId, before: set<NodeId>,
                          island: seq<NodeId>, stack: seq<NodeId>, seen: set<NodeId>)
    requires Exploring(nodes, edges, start, before, island, stack, {}, seen) && stack != []
    ensures var last := |stack| - 1;
      && Exploring(nodes, edges, start, before, island + [stack[last]], stack[..last], {stack[last]}, seen)
      && stack[last] in Ids(nodes) && stack[last] !in island
  {
    hide Reach, Links, Ids;
    var last := |stack| - 1;
    assert forall x :: x in stack <==> x in stack[..last] || x == stack[last];
    assert forall x | x in stack[..last] :: x != stack[last];
    assert forall x :: x in island + [stack[last]] <==> x in island || x == stack[last];
    assert stack[last] in stack;
  }

  lemma PushKeepsExploring(nodes: seq<GraphNode>, edges: seq<Edge>, start: NodeId, before: set<NodeId>,
                           island: seq<NodeId>, stack: seq<NodeId>, id: NodeId, seen: set<NodeId>, next: NodeId)
    requires Exploring(nodes, edges, start, before, island, stack, {id}, seen) && id in island
    requires next !in seen && (id, next) in Links(nodes, edges) && next in Ids(nodes)
    ensures Exploring(nodes, edges, start, before, island, stack + [next], {id}, seen + {next})
  {
    hide Reach, Links, Ids;
    ReachArc(Links(nodes, edges), id, next);
    ReachTransitive(Links(nodes, edges), start, id, next);
    assert forall x :: x in stack + [next] <==> x in stack || x == next;
  }

  lemma LinkFromTouching(nodes: seq<GraphNode>, edges: seq<Edge>, id: NodeId, touching: seq<Edge>, i: nat)
    requires ListsTouching(edges, id, true, touching) && id in Ids(nodes) && i < |touching|
    requires OtherEnd(touching[i], id) in Ids(nodes)
    ensures (id, OtherEnd(touching[i], id)) in Links(nodes, edges)
  {
    hide Ids;
    var e := touching[i];
    assert e in touching;
    assert multiset(touching)[e] > 0;
    assert multiset(edges)[e] > 0;
    assert e in edges;
  }

  /** Once every touching edge has been looked at, no link of `id` is missing. */
  lemma AllLinksSeen(nodes: seq<GraphNode>, edges: seq<Edge>, start: NodeId, before: set<NodeId>, island: seq<NodeId>,
                     stack: seq<NodeId>, seen: set<NodeId>, id: NodeId, touching: seq<Edge>)
    requires Exploring(nodes, edges, start, before, island, stack, {id}, seen)
    requires ListsTouching(edges, id, true, touching)
    requires forall j | 0 <= j < |touching| && OtherEnd(touching[j], id) in Ids(nodes) :: OtherEnd(touching[j], id) in seen
    ensures Exploring(nodes, edges, start, before, island, stack, {}, seen)
  {
    hide Ids, Reach;
    forall y | (id, y) in Links(nodes, edges)
      ensures y in seen
    {
      var e :| e in edges && e.from in Ids(nodes) && e.to in Ids(nodes) && ((e.from == id && e.to == y) || (e.to == id && e.from == y));
      assert multiset(edges)[e] > 0;
      assert multiset(touching)[e] > 0;
      assert e in touching;
      var j :| 0 <= j < |touching| && touching[j] == e;
      assert e.from == e.to || OtherEnd(e, id) == y;
    }
    hide Links;
  }

  lemma ExploredIsIsland(nodes: seq<GraphNode>, edges: seq<Edge>, start: NodeId, before: set<NodeId>,
                         island: seq<NodeId>, seen: set<NodeId>)
    requires Exploring(nodes, edges, start, before, island, [], {}, seen) && Closed(Links(nodes, edges), before)
    ensures IsIsland(nodes, edges, start, before, island) && seen == before + (set x | x in island)
  {
    hide Ids, Reach;
    assert forall x, y | (x, y) in Links(nodes, edges) :: (y, x) in Links(nodes, edges);
    hide Links;
  }
}
