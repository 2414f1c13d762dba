/**
 * The in-memory service graph: nodes by identifier and edges indexed by source and by
 * target, loaded from a flat list, and the queries on it.
 */
module TopologyGraph {
  import opened Wrappers
  import opened Collections
  import opened Domain

  datatype Node = Node(id: string, kind: string, labels: Labels, metadata: Labels)
  datatype Edge = Edge(from: string, to: string, kind: string, weight: Option<int>, labels: Labels)
  datatype ServiceGraph = ServiceGraph(nodes: seq<Node>, edges: seq<Edge>)

  /** The contents of a graph object. */
  datatype Graph = Graph(nodes: map<string, Node>, edges: map<string, seq<Edge>>, rev: map<string, seq<Edge>>)

  const EMPTY_GRAPH := Graph(map[], map[], map[])
  const SERVICE_KIND := "service"

  /** An absent list reads as empty. */
  function At(m: map<string, seq<Edge>>, id: string): seq<Edge> {
    if id in m then m[id] else []
  }

  function NodeIndex(nodes: seq<Node>): map<string, Node> {
    if nodes == [] then map[] else NodeIndex(Init(nodes))[Last(nodes).id := Last(nodes)]
  }

  function SourceIndex(edges: seq<Edge>): map<string, seq<Edge>> {
    if edges == [] then map[] else
    var m, e := SourceIndex(Init(edges)), Last(edges);
    m[e.from := At(m, e.from) + [e]]
  }

  function TargetIndex(edges: seq<Edge>): map<string, seq<Edge>> {
    if edges == [] then map[] else
    var m, e := TargetIndex(Init(edges)), Last(edges);
    m[e.to := At(m, e.to) + [e]]
  }

  function Load(sg: ServiceGraph): Graph {
    Graph(NodeIndex(sg.nodes), SourceIndex(sg.edges), TargetIndex(sg.edges))
  }

  // ---- The one-hop query ----

  function EdgeKey(e: Edge): string {
    e.from + "->" + e.to
  }

  function Ends(e: Edge): (string, string) {
    (e.from, e.to)
  }

  predicate Seen<T(==)>(edges: seq<Edge>, key: Edge -> T, k: T) {
    exists i :: 0 <= i < |edges| && key(edges[i]) == k
  }

  /** The first edge of each key, in order. */
  function Firsts<T(==)>(edges: seq<Edge>, key: Edge -> T): seq<Edge> {
    if edges == [] then [] else
    Firsts(Init(edges), key) + if Seen(Init(edges), key, key(Last(edges))) then [] else [Last(edges)]
  }

  function NodeView(n: Node): TopologyNode {
    TopologyNode(n.id, n.kind)
  }

  function EdgeViews(edges: seq<Edge>): seq<TopologyEdge> {
    seq(|edges|, i requires 0 <= i < |edges| => TopologyEdge(edges[i].from, edges[i].to, edges[i].kind))
  }

  predicate Neighbour(g: Graph, id: string, other: string) {
    || (exists i :: 0 <= i < |At(g.edges, id)| && At(g.edges, id)[i].to == other)
    || (exists i :: 0 <= i < |At(g.rev, id)| && At(g.rev, id)[i].from == other)
  }

  ghost predicate Distinct<T>(s: seq<T>) {
    forall i, j | 0 <= i < j < |s| :: s[i] != s[j]
  }

  function NodeViews(g: Graph, ids: seq<string>): seq<TopologyNode>
    requires forall id | id in ids :: id in g.nodes
  {
    seq(|ids|, i requires 0 <= i < |ids| => assert ids[i] in ids; NodeView(g.nodes[ids[i]]))
  }

  /** The declared neighbours of a node, each once, in some order. */
  ghost predicate Listing(g: Graph, id: string, ids: seq<string>) {
    Distinct(ids) && forall x :: x in ids <==> Neighbour(g, id, x) && x in g.nodes
  }

  /** Every answer of the query: an undeclared service has an empty subgraph. */
  ghost predicate IsSubgraph(g: Graph, id: string, s: TopologySlice) {
    if id !in g.nodes then s == TopologySlice([], []) else
    && s.edges == EdgeViews(Firsts(At(g.edges, id) + At(g.rev, id), EdgeKey))
    && exists ids :: Listing(g, id, ids) && s.nodes == [NodeView(g.nodes[id])] + NodeViews(g, ids)
  }

  // ---- Search by labels ----

  predicate Matches(n: Node, labels: Labels) {
    n.kind == SERVICE_KIND && forall k | k in labels :: Label(n.labels, k) == labels[k]
  }

  ghost function Found(g: Graph, labels: Labels): set<string> {
    set id | id in g.nodes && Matches(g.nodes[id], labels)
  }

  // ---- Counting edges ----

  ghost function TotalEdges(m: map<string, seq<Edge>>): int {
    Sum(m.Keys, id => |At(m, id)|)
  }

  class InMemoryGraph {
    var nodes: map<string, Node>
    var edges: map<string, seq<Edge>>
    var rev: map<string, seq<Edge>>

    ghost function Value(): Graph
      reads this
    {
      Graph(nodes, edges, rev)
    }

    constructor ()
      ensures Value() == EMPTY_GRAPH
    {
      nodes, edges, rev := map[], map[], map[];
    }

    /** Nothing of what the graph held before is left. */
    method LoadFromServiceGraph(sg: ServiceGraph)
      modifies this
      ensures Value() == Load(sg)
    {
      nodes := map[];
      edges := map[];
      rev := map[];

      for i := 0 to |sg.nodes|
        invariant nodes == NodeIndex(sg.nodes[..i]) && edges == map[] && rev == map[]
      {
        var node := sg.nodes[i];
        nodes := nodes[node.id := node];
        assert Init(sg.nodes[..i + 1]) == sg.nodes[..i];
      }
      assert sg.nodes[..|sg.nodes|] == sg.nodes;

      for i := 0 to |sg.edges|
        invariant nodes == NodeIndex(sg.nodes)
        invariant edges == SourceIndex(sg.edges[..i]) && rev == TargetIndex(sg.edges[..i])
      {
        var edge := sg.edges[i];
        edges := edges[edge.from := At(edges, edge.from) + [edge]];
        rev := rev[edge.to := At(rev, edge.to) + [edge]];
        assert Init(sg.edges[..i + 1]) == sg.edges[..i];
      }
      assert sg.edges[..|sg.edges|] == sg.edges;
    }

    method GetNeighbours(id: string) returns (neighbours: seq<string>)
      ensures Distinct(neighbours)
      ensures forall x :: x in neighbours <==> Neighbour(Value(), id, x)
    {
      var seen: set<string> := {};
      var out, into := At(edges, id), At(rev, id);
      for i := 0 to |out|
        invariant forall x :: x in seen <==> exists j :: 0 <= j < i && out[j].to == x
      {
        if out[i].to !in seen {
          seen := seen + {out[i].to};
        }
      }
      ghost var targets := seen;
      for i := 0 to |into|
        invariant forall x :: x in seen <==> x in targets || exists j :: 0 <= j < i && into[j].from == x
      {
        if into[i].from !in seen {
          seen := seen + {into[i].from};
        }
      }

      neighbours := [];
      var rest := seen;
      while rest != {}
        invariant rest <= seen && Distinct(neighbours)
        invariant forall x :: x in neighbours <==> x in seen && x !in rest
        decreases rest
      {
        var x :| x in rest;
        rest := rest - {x};
        neighbours := neighbours + [x];
      }
    }

    /** The edges of a list whose keys have not been seen, appended to what is there. */
    method AddEdges(list: seq<Edge>, ghost before: seq<Edge>, kept: seq<Edge>, seen: set<string>)
      returns (kept': seq<Edge>, seen': set<string>)
      requires kept == Firsts(before, EdgeKey) && forall k :: k in seen <==> Seen(before, EdgeKey, k)
      ensures kept' == Firsts(before + list, EdgeKey) && forall k :: k in seen' <==> Seen(before + list, EdgeKey, k)
    {
      kept', seen' := kept, seen;
      assert before + list[..0] == before;
      for i := 0 to |list|
        invariant kept' == Firsts(before + list[..i], EdgeKey)
        invariant forall k :: k in seen' <==> Seen(before + list[..i], EdgeKey, k)
      {
        var edge := list[i];
        var key := EdgeKey(edge);
        ghost var upto := before + list[..i + 1];
        assert Init(upto) == before + list[..i] && Last(upto) == edge;
        if key !in seen' {
          kept' := kept' + [edge];
          seen' := seen' + {key};
        }
        forall k ensures k in seen' <==> Seen(upto, EdgeKey, k) {
          SeenGrows(upto, EdgeKey, k);
        }
      }
      assert list[..|list|] == list;
    }

    /** The declared ones of a list of identifiers, as nodes of the answer. */
    method AddNodes(neighbours: seq<string>) returns (views: seq<TopologyNode>, ghost ids: seq<string>)
      requires Distinct(neighbours)
      ensures Distinct(ids) && forall x :: x in ids <==> x in neighbours && x in nodes
      ensures views == NodeViews(Value(), ids)
    {
      views, ids := [], [];
      for i := 0 to |neighbours|
        invariant forall x :: x in ids <==> x in neighbours[..i] && x in nodes
        invariant Distinct(ids) && views == NodeViews(Value(), ids)
      {
        var n := neighbours[i];
        assert neighbours[..i + 1] == neighbours[..i] + [n];
        if n !in nodes {
          continue;
        }
        views := views + [NodeView(nodes[n])];
        ids := ids + [n];
      }
      assert neighbours[..|neighbours|] == neighbours;
    }

    method GetSubgraphForService(id: string) returns (s: TopologySlice)
      ensures IsSubgraph(Value(), id, s)
    {
      if id !in nodes {
        return TopologySlice([], []);
      }
      var neighbours := GetNeighbours(id);
      var views, ids := AddNodes(neighbours);
      assert Listing(Value(), id, ids);

      var out, into := At(edges, id), At(rev, id);
      var kept, seen := AddEdges(out, [], [], {});
      assert [] + out == out;
      kept, seen := AddEdges(into, out, kept, seen);
      var edgeViews := [];
      for i := 0 to |kept|
        invariant edgeViews == EdgeViews(kept[..i])
      {
        edgeViews := edgeViews + [TopologyEdge(kept[i].from, kept[i].to, kept[i].kind)];
      }
      assert kept[..|kept|] == kept;
      s := TopologySlice([NodeView(nodes[id])] + views, edgeViews);
    }

    method FindServiceByLabels(labels: Labels) returns (matches: seq<string>)
      ensures Distinct(matches) && forall id :: id in matches <==> id in Found(Value(), labels)
    {
      matches := [];
      var rest := nodes.Keys;
      while rest != {}
        invariant rest <= nodes.Keys && Distinct(matches)
        invariant forall id :: id in matches <==> id in Found(Value(), labels) && id !in rest
        decreases rest
      {
        var id :| id in rest;
        rest := rest - {id};
        var node := nodes[id];
        if node.kind != SERVICE_KIND {
          continue;
        }
        var allMatch := true;
        var keys := labels.Keys;
        while keys != {}
          invariant keys <= labels.Keys
          invariant allMatch && forall k | k in labels && k !in keys :: Label(node.labels, k) == labels[k]
          decreases keys
        {
          var k :| k in keys;
          keys := keys - {k};
          if Label(node.labels, k) != labels[k] {
            allMatch := false;
            break;
          }
        }
        if allMatch {
          matches := matches + [id];
        }
      }
    }

    method Stats() returns (nodeCount: nat, edgeCount: int)
      ensures nodeCount == |nodes|
      ensures edgeCount == TotalEdges(edges)
    {
      nodeCount := |nodes|;
      edgeCount := 0;
      var rest := edges.Keys;
      ghost var m := edges;
      ghost var f := id => |At(m, id)|;
      assert TotalEdges(m) == Sum(m.Keys, f);
      while rest != {}
        invariant rest <= edges.Keys && edgeCount + Sum(rest, f) == Sum(edges.Keys, f)
        decreases rest
      {
        var id :| id in rest;
        SumTake(rest, f, id);
        rest := rest - {id};
        edgeCount := edgeCount + |edges[id]|;
      }
    }
  }

  lemma SeenGrows<T>(edges: seq<Edge>, key: Edge -> T, k: T)
    requires edges != []
    ensures Seen(edges, key, k) <==> Seen(Init(edges), key, k) || key(Last(edges)) == k
  {
    if Seen(Init(edges), key, k) {
      var i :| 0 <= i < |Init(edges)| && key(Init(edges)[i]) == k;
      assert key(edges[i]) == k;
    }
    if Seen(edges, key, k) && key(Last(edges)) != k {
      var i :| 0 <= i < |edges| && key(edges[i]) == k;
      assert key(Init(edges)[i]) == k;
    }
    assert key(Last(edges)) == k ==> key(edges[|edges| - 1]) == k;
  }
}
