/** The typed architecture graph of a board, and the sub-graphs the rules analyse. */
module Graph {

  /** A canvas shape id. */
  datatype NodeId = NodeId(text: string)

  datatype EdgeType = Sync | Async | Replication

  datatype Edge = Edge(arrowId: NodeId, from: NodeId, to: NodeId, edgeType: EdgeType)

  /** A selection of node ids and of edges. */
  datatype SubGraph = SubGraph(nodes: seq<NodeId>, edges: seq<Edge>)

  /** The arcs a traversal can follow: edges that leave a listed node. */
  ghost function Arcs(g: SubGraph): set<(NodeId, NodeId)>
  {
    set e | e in g.edges && e.from in g.nodes :: (e.from, e.to)
  }

  /** The listed nodes and whatever their edges point at. */
  ghost function Vertices(g: SubGraph): set<NodeId>
  {
    (set u | u in g.nodes) + (set e | e in g.edges && e.from in g.nodes :: e.to)
  }

  /** Every edge joins two listed nodes, as extraction and `subGraph` guarantee. */
  ghost predicate EdgesJoinNodes(g: SubGraph)
  {
    forall e | e in g.edges :: e.from in g.nodes && e.to in g.nodes
  }

  /** Targets of the edges leaving `u`, in edge order. */
  function Targets(edges: seq<Edge>, u: NodeId): (r: seq<NodeId>)
  {
    if edges == [] then []
    else
      var front := Targets(edges[..|edges| - 1], u);
      var last := edges[|edges| - 1];
      if last.from == u then front + [last.to] else front
  }

  /** The successor list a traversal sees; a vertex that is not a listed node has none. */
  function Successors(g: SubGraph, u: NodeId): seq<NodeId>
  {
    if u in g.nodes then Targets(g.edges, u) else []
  }

  lemma {:induction false} TargetsAreEdges(edges: seq<Edge>, u: NodeId, v: NodeId)
    ensures v in Targets(edges, u) <==> exists e :: e in edges && e.from == u && e.to == v
  {
    if edges != [] {
      var front, last := edges[..|edges| - 1], edges[|edges| - 1];
      TargetsAreEdges(front, u, v);
      assert forall e :: e in edges <==> e in front || e == last;
    }
  }

  lemma SuccessorsAreArcs(g: SubGraph, u: NodeId, v: NodeId)
    ensures v in Successors(g, u) <==> (u, v) in Arcs(g)
  {
    TargetsAreEdges(g.edges, u, v);
  }

  /** The adjacency map a traversal builds first. */
  method Adjacency(g: SubGraph) returns (adj: map<NodeId, seq<NodeId>>)
    ensures adj.Keys == set u | u in g.nodes
    ensures forall u | u in adj :: adj[u] == Successors(g, u)
  {
    adj := map u | u in g.nodes :: [];
    for i := 0 to |g.edges|
      invariant adj.Keys == set u | u in g.nodes
      invariant forall u | u in adj :: adj[u] == Targets(g.edges[..i], u)
    {
      var e := g.edges[i];
      assert g.edges[..i + 1][..i] == g.edges[..i];
      if e.from in adj {
        adj := adj[e.from := adj[e.from] + [e.to]];
      }
    }
    assert g.edges[..|g.edges|] == g.edges;
  }
}
