/**
 * The one-hop query against a scan of the list: its edges and nodes, its symmetry and
 * closure, and the handshake count over all services. Also the algebra of label search.
 */
module TopologyScan {
  import opened Wrappers
  import opened Collections
  import opened Domain
  import opened TopologyGraph
  import opened TopologyLaws

  // ---- The query returns what a scan finds ----

  /** The edges a scan finds around a node: the outgoing ones, then the incoming ones. */
  function Around(edges: seq<Edge>, id: string): seq<Edge> {
    OutOf(edges, id) + InTo(edges, id)
  }

  ghost predicate Adjacent(edges: seq<Edge>, id: string, other: string) {
    exists e :: e in edges && ((e.from == id && e.to == other) || (e.to == id && e.from == other))
  }

  predicate ArrowFree(edges: seq<Edge>) {
    forall e | e in edges :: !HasArrow(e.from) && !HasArrow(e.to)
  }

  function NodeIds(nodes: seq<TopologyNode>): seq<string> {
    seq(|nodes|, i requires 0 <= i < |nodes| => nodes[i].id)
  }

  lemma ArrowFreeTells(edges: seq<Edge>)
    requires ArrowFree(edges)
    ensures TellsEndsApart(edges)
  {
    forall e, f | e in edges && f in edges && EdgeKey(e) == EdgeKey(f) ensures Ends(e) == Ends(f) {
      EndsKnownByKeyIff(Ends(e));
      assert PairKey(Ends(f)) == PairKey(Ends(e));
    }
  }

  lemma NeighbourIsAdjacent(sg: ServiceGraph, id: string, other: string)
    ensures Neighbour(Load(sg), id, other) <==> Adjacent(sg.edges, id, other)
  {
    var out, into := OutOf(sg.edges, id), InTo(sg.edges, id);
    IndexIsFilter(sg.edges, id);
    if Neighbour(Load(sg), id, other) {
      var e := if i: nat :| i < |out| && out[i].to == other then out[i]
               else var j :| 0 <= j < |into| && into[j].from == other; into[j];
      OutOfMember(sg.edges, id, e);
      assert e in out || e in into;
    }
    if Adjacent(sg.edges, id, other) {
      var e :| e in sg.edges && ((e.from == id && e.to == other) || (e.to == id && e.from == other));
      OutOfMember(sg.edges, id, e);
      if e.from == id && e.to == other {
        var i :| 0 <= i < |out| && out[i] == e;
        assert out[i].to == other;
      } else {
        var i :| 0 <= i < |into| && into[i] == e;
        assert into[i].from == other;
      }
    }
  }

  lemma SubgraphEdges(sg: ServiceGraph, id: string, s: TopologySlice)
    requires IsSubgraph(Load(sg), id, s) && id in Declared(sg.nodes)
    ensures s.edges == EdgeViews(Firsts(Around(sg.edges, id), EdgeKey))
  {
    NodeIndexDeclares(sg.nodes);
    IndexIsFilter(sg.edges, id);
  }

  /**
   * The answer never shows more edges than the scan with the first edge of each pair of ends
   * kept. It shows those edges, and it shows as many, if and only if no two pairs of ends
   * around the service share a key; identifiers without an arrow are enough for that.
   */
  lemma SubgraphEdgesAreScanned(sg: ServiceGraph, id: string, s: TopologySlice)
    requires IsSubgraph(Load(sg), id, s) && id in Declared(sg.nodes)
    ensures |s.edges| <= |Firsts(Around(sg.edges, id), Ends)|
    ensures |s.edges| == |Firsts(Around(sg.edges, id), Ends)| <==> TellsEndsApart(Around(sg.edges, id))
    ensures s.edges == EdgeViews(Firsts(Around(sg.edges, id), Ends)) <==> TellsEndsApart(Around(sg.edges, id))
    ensures ArrowFree(Around(sg.edges, id)) ==> TellsEndsApart(Around(sg.edges, id))
  {
    var around := Around(sg.edges, id);
    SubgraphEdges(sg, id, s);
    KeysKeepFewer(around);
    FirstsAgreeIff(around);
    if ArrowFree(around) {
      ArrowFreeTells(around);
    }
  }

  /**
   * The nodes of the answer are the service, then its declared neighbours, each once. So the
   * service itself is repeated exactly when it has a self-loop.
   */
  lemma SubgraphNodesAreScanned(sg: ServiceGraph, id: string, s: TopologySlice)
    requires IsSubgraph(Load(sg), id, s) && id in Declared(sg.nodes)
    ensures s.nodes != [] && s.nodes[0].id == id
    ensures Distinct(NodeIds(s.nodes[1..]))
    ensures forall x :: x in NodeIds(s.nodes[1..]) <==> x in Declared(sg.nodes) && Adjacent(sg.edges, id, x)
    ensures forall n | n in s.nodes :: n.id in Load(sg).nodes && n == NodeView(Load(sg).nodes[n.id])
    ensures id in NodeIds(s.nodes[1..]) <==> exists e :: e in sg.edges && e.from == id && e.to == id
  {
    NodeIndexDeclares(sg.nodes);
    var g := Load(sg);
    var ids :| Listing(g, id, ids) && s.nodes == [NodeView(g.nodes[id])] + NodeViews(g, ids);
    assert s.nodes[1..] == NodeViews(g, ids);
    forall i | 0 <= i < |ids| ensures ids[i] in g.nodes && NodeViews(g, ids)[i].id == ids[i] {
      assert ids[i] in ids;
    }
    assert NodeIds(s.nodes[1..]) == ids;
    forall x ensures x in ids <==> x in Declared(sg.nodes) && Adjacent(sg.edges, id, x) {
      NeighbourIsAdjacent(sg, id, x);
    }
  }

  /** Around "a" two edges have the key "a->b->a", and the query shows only the first. */
  lemma ArrowsHideAnEdge(kind: string)
    ensures var e, f := Edge("a", "b->a", kind, None, map[]), Edge("a->b", "a", kind, None, map[]);
            var sg := ServiceGraph([Node("a", SERVICE_KIND, map[], map[])], [e, f]);
            && Around(sg.edges, "a") == [e, f]
            && Firsts(Around(sg.edges, "a"), EdgeKey) == [e]
            && Firsts(Around(sg.edges, "a"), Ends) == [e, f]
            && forall s | IsSubgraph(Load(sg), "a", s) :: s.edges == EdgeViews([e])
  {
    var e, f := Edge("a", "b->a", kind, None, map[]), Edge("a->b", "a", kind, None, map[]);
    var sg := ServiceGraph([Node("a", SERVICE_KIND, map[], map[])], [e, f]);
    SameKeyOtherEnds(e, f);
    AroundPair(e, f, "a");
    FirstsOfPair(e, f, EdgeKey);
    FirstsOfPair(e, f, Ends);
    IndexIsFilter(sg.edges, "a");
    assert Init(sg.nodes) == [] && "a" in NodeIndex(sg.nodes);
  }

  lemma SameKeyOtherEnds(e: Edge, f: Edge)
    requires e.from == "a" && e.to == "b->a" && f.from == "a->b" && f.to == "a"
    ensures EdgeKey(e) == EdgeKey(f) == "a->b->a" && Ends(e) != Ends(f) && e.to != "a" && f.from != "a"
  {
    assert |e.from| == 1 && |f.from| == 4 && |e.to| == 4;
  }

  lemma AroundPair(e: Edge, f: Edge, id: string)
    requires e.from == id && e.to != id && f.from != id && f.to == id
    ensures Around([e, f], id) == [e, f]
  {
    OneMoreEdge([], e, id);
    OneMoreEdge([e], f, id);
    assert [] + [e] == [e] && [e] + [f] == [e, f];
  }

  lemma OneMoreEdge(edges: seq<Edge>, e: Edge, id: string)
    ensures OutOf(edges + [e], id) == OutOf(edges, id) + if e.from == id then [e] else []
    ensures InTo(edges + [e], id) == InTo(edges, id) + if e.to == id then [e] else []
  {
    assert Init(edges + [e]) == edges && Last(edges + [e]) == e;
  }

  lemma FirstsOfPair<T>(e: Edge, f: Edge, key: Edge -> T)
    ensures Firsts([e, f], key) == if key(e) == key(f) then [e] else [e, f]
  {
    OneMoreFirst([], e, key);
    OneMoreFirst([e], f, key);
    assert [] + [e] == [e] && [e] + [f] == [e, f];
    assert Seen([e], key, key(f)) <==> key([e][0]) == key(f);
  }

  lemma OneMoreFirst<T>(edges: seq<Edge>, e: Edge, key: Edge -> T)
    ensures Firsts(edges + [e], key) == Firsts(edges, key) + if Seen(edges, key, key(e)) then [] else [e]
  {
    assert Init(edges + [e]) == edges && Last(edges + [e]) == e;
  }

  // ---- Symmetry and closure ----

  lemma NodesOfAnswer(sg: ServiceGraph, id: string, s: TopologySlice, x: string)
    requires IsSubgraph(Load(sg), id, s) && id in Declared(sg.nodes)
    ensures x in NodeIds(s.nodes) <==> x == id || (x in Declared(sg.nodes) && Adjacent(sg.edges, id, x))
  {
    SubgraphNodesAreScanned(sg, id, s);
    FirstThenRest(s.nodes, x);
  }

  lemma FirstThenRest(nodes: seq<TopologyNode>, x: string)
    requires nodes != []
    ensures x in NodeIds(nodes) <==> x == nodes[0].id || x in NodeIds(nodes[1..])
  {
    assert NodeIds(nodes) == [nodes[0].id] + NodeIds(nodes[1..]);
  }

  lemma OneHopIsSymmetric(sg: ServiceGraph, u: string, v: string, su: TopologySlice, sv: TopologySlice)
    requires u in Declared(sg.nodes) && v in Declared(sg.nodes)
    requires IsSubgraph(Load(sg), u, su) && IsSubgraph(Load(sg), v, sv)
    ensures v in NodeIds(su.nodes) <==> u in NodeIds(sv.nodes)
  {
    NodesOfAnswer(sg, u, su, v);
    NodesOfAnswer(sg, v, sv, u);
    assert Adjacent(sg.edges, u, v) <==> Adjacent(sg.edges, v, u);
  }

  lemma EdgeOfAnswer(sg: ServiceGraph, id: string, s: TopologySlice, e: TopologyEdge) returns (x: Edge)
    requires id in Declared(sg.nodes) && IsSubgraph(Load(sg), id, s) && e in s.edges
    ensures x in sg.edges && x.from == e.from && x.to == e.to && x.kind == e.kind && (x.from == id || x.to == id)
  {
    NodeIndexDeclares(sg.nodes);
    IndexIsFilter(sg.edges, id);
    var kept := Firsts(Around(sg.edges, id), EdgeKey);
    var i :| 0 <= i < |kept| && EdgeViews(kept)[i] == e;
    x := kept[i];
    FirstsIn(Around(sg.edges, id), EdgeKey, x);
    OutOfMember(sg.edges, id, x);
  }

  /** When all endpoints are declared, every edge of an answer joins two of its nodes. */
  lemma OneHopIsClosed(sg: ServiceGraph, id: string, s: TopologySlice, e: TopologyEdge)
    requires id in Declared(sg.nodes) && IsSubgraph(Load(sg), id, s) && e in s.edges
    requires forall x | x in sg.edges :: x.from in Declared(sg.nodes) && x.to in Declared(sg.nodes)
    ensures e.from in NodeIds(s.nodes) && e.to in NodeIds(s.nodes)
    ensures e.from == id || e.to == id
  {
    var x := EdgeOfAnswer(sg, id, s, e);
    NodesOfAnswer(sg, id, s, e.from);
    NodesOfAnswer(sg, id, s, e.to);
  }

  // ---- The handshake count ----

  ghost predicate DistinctEnds(edges: seq<Edge>) {
    edges != [] ==> DistinctEnds(Init(edges)) && !Seen(Init(edges), Ends, Ends(Last(edges)))
  }

  lemma {:induction false} DistinctEndsByIndex(edges: seq<Edge>)
    requires forall i, j | 0 <= i < j < |edges| :: Ends(edges[i]) != Ends(edges[j])
    ensures DistinctEnds(edges)
  {
    if edges != [] {
      DistinctEndsByIndex(Init(edges));
    }
  }

  lemma SeenInFilter(edges: seq<Edge>, id: string, p: (string, string))
    requires !Seen(edges, Ends, p)
    ensures !Seen(OutOf(edges, id), Ends, p) && !Seen(InTo(edges, id), Ends, p)
  {
    forall e | e in edges ensures Ends(e) != p {
      ListedIsSeen(edges, Ends, e);
    }
    forall e | e in OutOf(edges, id) || e in InTo(edges, id) ensures Ends(e) != p {
      OutOfMember(edges, id, e);
    }
    assert forall i | 0 <= i < |OutOf(edges, id)| :: OutOf(edges, id)[i] in OutOf(edges, id);
    assert forall i | 0 <= i < |InTo(edges, id)| :: InTo(edges, id)[i] in InTo(edges, id);
  }

  lemma OneMoreDistinct(edges: seq<Edge>, e: Edge)
    requires DistinctEnds(edges) && !Seen(edges, Ends, Ends(e))
    ensures DistinctEnds(edges + [e])
  {
    assert Init(edges + [e]) == edges && Last(edges + [e]) == e;
  }

  lemma {:induction false} FiltersDistinct(edges: seq<Edge>, id: string)
    requires DistinctEnds(edges)
    ensures DistinctEnds(OutOf(edges, id)) && DistinctEnds(InTo(edges, id))
  {
    if edges != [] {
      var init, last := Init(edges), Last(edges);
      FiltersDistinct(init, id);
      SeenInFilter(init, id, Ends(last));
      OneMoreDistinct(OutOf(init, id), last);
      OneMoreDistinct(InTo(init, id), last);
      assert last.from != id ==> OutOf(edges, id) == OutOf(init, id);
      assert last.to != id ==> InTo(edges, id) == InTo(init, id);
    }
  }

  lemma {:induction false} FirstsOfDistinct(edges: seq<Edge>)
    requires DistinctEnds(edges)
    ensures Firsts(edges, Ends) == edges
  {
    if edges != [] {
      FirstsOfDistinct(Init(edges));
    }
  }

  lemma SeenInEither(a: seq<Edge>, b: seq<Edge>, p: (string, string))
    ensures Seen(a + b, Ends, p) <==> Seen(a, Ends, p) || Seen(b, Ends, p)
  {
    if Seen(a, Ends, p) {
      var i :| 0 <= i < |a| && Ends(a[i]) == p;
      assert Ends((a + b)[i]) == p;
    }
    if Seen(b, Ends, p) {
      var i :| 0 <= i < |b| && Ends(b[i]) == p;
      assert Ends((a + b)[|a| + i]) == p;
    }
  }

  /** Of two lists without repeats, the second loses the edges that start at `id`, if those are the shared ones. */
  lemma {:induction false} FirstsOfTwo(a: seq<Edge>, b: seq<Edge>, id: string)
    requires DistinctEnds(a) && DistinctEnds(b)
    requires forall e | e in b :: Seen(a, Ends, Ends(e)) <==> e.from == id
    ensures |Firsts(a + b, Ends)| + |OutOf(b, id)| == |a| + |b|
    decreases b
  {
    if b == [] {
      assert a + b == a;
      FirstsOfDistinct(a);
    } else {
      assert Init(a + b) == a + Init(b) && Last(a + b) == Last(b);
      assert b == Init(b) + [Last(b)];
      FirstsOfTwo(a, Init(b), id);
      SeenInEither(a, Init(b), Ends(Last(b)));
    }
  }

  lemma {:induction false} IncomingFromItself(edges: seq<Edge>, id: string)
    ensures OutOf(InTo(edges, id), id) == Loops(edges, id)
  {
    if edges != [] {
      IncomingFromItself(Init(edges), id);
      if Last(edges).to == id {
        assert Init(InTo(edges, id)) == InTo(Init(edges), id) && Last(InTo(edges, id)) == Last(edges);
      } else {
        assert InTo(edges, id) == InTo(Init(edges), id);
      }
    }
  }

  /** Around a node every edge is found once, a self-loop as outgoing and again as incoming. */
  lemma AroundCount(edges: seq<Edge>, id: string)
    requires DistinctEnds(edges)
    ensures |Firsts(Around(edges, id), Ends)| + |Loops(edges, id)| == |OutOf(edges, id)| + |InTo(edges, id)|
  {
    var out, into := OutOf(edges, id), InTo(edges, id);
    FiltersDistinct(edges, id);
    forall e | e in into ensures Seen(out, Ends, Ends(e)) <==> e.from == id {
      OutOfMember(edges, id, e);
      if e.from == id {
        ListedIsSeen(out, Ends, e);
      }
      if Seen(out, Ends, Ends(e)) {
        var i :| 0 <= i < |out| && Ends(out[i]) == Ends(e);
        OutOfMember(edges, id, out[i]);
      }
    }
    FirstsOfTwo(out, into, id);
    IncomingFromItself(edges, id);
  }

  function EdgesIn(answers: map<string, TopologySlice>, id: string): int {
    if id in answers then |answers[id].edges| else 0
  }

  lemma AroundIn(edges: seq<Edge>, id: string)
    ensures forall e | e in Around(edges, id) :: e in edges
  {
    forall e | e in Around(edges, id) ensures e in edges {
      OutOfMember(edges, id, e);
    }
  }

  /** The count for a list without parallel edges, and a scan that deduplicates by ends. */
  lemma KeptCount(ids: set<string>, edges: seq<Edge>)
    requires DistinctEnds(edges) && forall e | e in edges :: e.from in ids && e.to in ids
    ensures Sum(ids, id => |Firsts(Around(edges, id), Ends)|) == 2 * |edges| - |AllLoops(edges)|
  {
    var kept, loops := id => |Firsts(Around(edges, id), Ends)|, id => |Loops(edges, id)|;
    var out, into := id => |OutOf(edges, id)|, id => |InTo(edges, id)|;
    var both := id => |OutOf(edges, id)| + |InTo(edges, id)|;
    forall id | id in ids ensures kept(id) + loops(id) == both(id) {
      AroundCount(edges, id);
    }
    SumAdds(ids, kept, loops, both);
    SumAdds(ids, out, into, both);
    SourcesCount(ids, edges);
    TargetsCount(ids, edges);
    LoopsCount(ids, edges);
  }

  // ---- Parallel edges ----

  lemma SeenInFirsts(edges: seq<Edge>, p: (string, string))
    ensures Seen(Firsts(edges, Ends), Ends, p) <==> Seen(edges, Ends, p)
  {
    FirstsOncePerKey(edges, Ends);
    if Seen(edges, Ends, p) {
      var i :| 0 <= i < |edges| && Ends(edges[i]) == p;
      assert edges[i] in edges;
    }
    if Seen(Firsts(edges, Ends), Ends, p) {
      var i :| 0 <= i < |Firsts(edges, Ends)| && Ends(Firsts(edges, Ends)[i]) == p;
      FirstsIn(edges, Ends, Firsts(edges, Ends)[i]);
      ListedIsSeen(edges, Ends, Firsts(edges, Ends)[i]);
    }
  }

  lemma FirstsAreDistinct(edges: seq<Edge>)
    ensures DistinctEnds(Firsts(edges, Ends))
  {
    FirstsOncePerKey(edges, Ends);
    DistinctEndsByIndex(Firsts(edges, Ends));
  }

  lemma FirstsOfFirstsStep(a: seq<Edge>, b: seq<Edge>, e: Edge)
    requires Firsts(Firsts(a, Ends) + Firsts(b, Ends), Ends) == Firsts(a + b, Ends)
    ensures Firsts(Firsts(a, Ends) + Firsts(b + [e], Ends), Ends) == Firsts(a + b + [e], Ends)
  {
    var fa, fb := Firsts(a, Ends), Firsts(b, Ends);
    OneMoreFirst(b, e, Ends);
    OneMoreFirst(a + b, e, Ends);
    SeenInEither(a, b, Ends(e));
    if Seen(b, Ends, Ends(e)) {
      assert fb + [] == fb && Firsts(a + b, Ends) + [] == Firsts(a + b, Ends);
    } else {
      SeenInEither(fa, fb, Ends(e));
      SeenInFirsts(a, Ends(e));
      SeenInFirsts(b, Ends(e));
      OneMoreFirst(fa + fb, e, Ends);
      assert fa + (fb + [e]) == fa + fb + [e];
    }
  }

  lemma FirstsOfFirstsBase(a: seq<Edge>)
    ensures Firsts(Firsts(a, Ends) + Firsts([], Ends), Ends) == Firsts(a, Ends)
  {
    FirstsAreDistinct(a);
    FirstsOfDistinct(Firsts(a, Ends));
    assert Firsts(a, Ends) + [] == Firsts(a, Ends);
  }

  /** Of two lists one after the other, each may be deduplicated before both are. */
  lemma {:induction false} FirstsOfFirsts(a: seq<Edge>, b: seq<Edge>)
    ensures Firsts(Firsts(a, Ends) + Firsts(b, Ends), Ends) == Firsts(a + b, Ends)
    decreases b
  {
    if b == [] {
      FirstsOfFirstsBase(a);
      assert a + b == a;
    } else {
      var init, last := Init(b), Last(b);
      assert b == init + [last];
      FirstsOfFirsts(a, init);
      FirstsOfFirstsStep(a, init, last);
      assert a + (init + [last]) == a + init + [last];
    }
  }

  lemma SeenInSameFilter(edges: seq<Edge>, e: Edge)
    ensures Seen(OutOf(edges, e.from), Ends, Ends(e)) <==> Seen(edges, Ends, Ends(e))
    ensures Seen(InTo(edges, e.to), Ends, Ends(e)) <==> Seen(edges, Ends, Ends(e))
  {
    if Seen(edges, Ends, Ends(e)) {
      var i :| 0 <= i < |edges| && Ends(edges[i]) == Ends(e);
      OutOfMember(edges, e.from, edges[i]);
      OutOfMember(edges, e.to, edges[i]);
      ListedIsSeen(OutOf(edges, e.from), Ends, edges[i]);
      ListedIsSeen(InTo(edges, e.to), Ends, edges[i]);
    } else {
      SeenInFilter(edges, e.from, Ends(e));
      SeenInFilter(edges, e.to, Ends(e));
    }
  }

  lemma OutOfFirstsStep(edges: seq<Edge>, e: Edge, id: string)
    requires OutOf(Firsts(edges, Ends), id) == Firsts(OutOf(edges, id), Ends)
    ensures OutOf(Firsts(edges + [e], Ends), id) == Firsts(OutOf(edges + [e], id), Ends)
  {
    var once := Firsts(edges, Ends);
    OneMoreFirst(edges, e, Ends);
    OneMoreEdge(edges, e, id);
    OneMoreEdge(once, e, id);
    SeenInSameFilter(edges, e);
    OneMoreFirst(OutOf(edges, id), e, Ends);
    assert once + [] == once && OutOf(edges, id) + [] == OutOf(edges, id);
  }

  lemma InToFirstsStep(edges: seq<Edge>, e: Edge, id: string)
    requires InTo(Firsts(edges, Ends), id) == Firsts(InTo(edges, id), Ends)
    ensures InTo(Firsts(edges + [e], Ends), id) == Firsts(InTo(edges + [e], id), Ends)
  {
    var once := Firsts(edges, Ends);
    OneMoreFirst(edges, e, Ends);
    OneMoreEdge(edges, e, id);
    OneMoreEdge(once, e, id);
    SeenInSameFilter(edges, e);
    OneMoreFirst(InTo(edges, id), e, Ends);
    assert once + [] == once && InTo(edges, id) + [] == InTo(edges, id);
  }

  /** Filtering by an end and deduplicating may be done in either order. */
  lemma {:induction false} FilterOfFirsts(edges: seq<Edge>, id: string)
    ensures OutOf(Firsts(edges, Ends), id) == Firsts(OutOf(edges, id), Ends)
    ensures InTo(Firsts(edges, Ends), id) == Firsts(InTo(edges, id), Ends)
  {
    if edges != [] {
      FilterOfFirsts(Init(edges), id);
      OutOfFirstsStep(Init(edges), Last(edges), id);
      InToFirstsStep(Init(edges), Last(edges), id);
      assert edges == Init(edges) + [Last(edges)];
    }
  }

  lemma AroundFirsts(edges: seq<Edge>, id: string)
    ensures Firsts(Around(Firsts(edges, Ends), id), Ends) == Firsts(Around(edges, id), Ends)
  {
    FilterOfFirsts(edges, id);
    FirstsOfFirsts(OutOf(edges, id), InTo(edges, id));
  }

  /** The same count for any list: parallel edges are counted once. */
  lemma KeptCountOfAny(ids: set<string>, edges: seq<Edge>)
    requires forall e | e in edges :: e.from in ids && e.to in ids
    ensures var once := Firsts(edges, Ends);
            Sum(ids, id => |Firsts(Around(edges, id), Ends)|) == 2 * |once| - |AllLoops(once)|
  {
    var once := Firsts(edges, Ends);
    FirstsAreDistinct(edges);
    forall e | e in once ensures e in edges {
      FirstsIn(edges, Ends, e);
    }
    KeptCount(ids, once);
    forall id ensures Firsts(Around(once, id), Ends) == Firsts(Around(edges, id), Ends) {
      AroundFirsts(edges, id);
    }
    SumSame(ids, id => |Firsts(Around(edges, id), Ends)|, id => |Firsts(Around(once, id), Ends)|);
  }

  /**
   * Handshake: with declared endpoints, the answers for all declared nodes hold each pair of
   * ends at most twice, a self-loop once, parallel edges counting as one; and exactly so if
   * and only if around no node two pairs of ends share a key.
   */
  lemma Handshake(sg: ServiceGraph, answers: map<string, TopologySlice>)
    requires forall e | e in sg.edges :: e.from in Declared(sg.nodes) && e.to in Declared(sg.nodes)
    requires forall id | id in Declared(sg.nodes) :: id in answers && IsSubgraph(Load(sg), id, answers[id])
    ensures var once := Firsts(sg.edges, Ends);
            var count := Sum(Declared(sg.nodes), id => EdgesIn(answers, id));
            && count <= 2 * |once| - |AllLoops(once)|
            && (count == 2 * |once| - |AllLoops(once)| <==>
                forall id | id in Declared(sg.nodes) :: TellsEndsApart(Around(sg.edges, id)))
    ensures ArrowFree(sg.edges) ==> forall id | id in Declared(sg.nodes) :: TellsEndsApart(Around(sg.edges, id))
    ensures (forall i, j | 0 <= i < j < |sg.edges| :: Ends(sg.edges[i]) != Ends(sg.edges[j])) ==>
              Firsts(sg.edges, Ends) == sg.edges
  {
    var ids, edges := Declared(sg.nodes), sg.edges;
    var shown, kept := id => EdgesIn(answers, id), id => |Firsts(Around(edges, id), Ends)|;
    KeptCountOfAny(ids, edges);
    forall id | id in ids
      ensures shown(id) <= kept(id) && (shown(id) == kept(id) <==> TellsEndsApart(Around(edges, id)))
      ensures ArrowFree(edges) ==> TellsEndsApart(Around(edges, id))
    {
      SubgraphEdgesAreScanned(sg, id, answers[id]);
      AroundIn(edges, id);
    }
    SumAtMost(ids, shown, kept);
    if forall i, j | 0 <= i < j < |edges| :: Ends(edges[i]) != Ends(edges[j]) {
      DistinctEndsByIndex(edges);
      FirstsOfDistinct(edges);
    }
  }

  // ---- Label search ----

  ghost predicate Compatible(a: Labels, b: Labels) {
    forall k | k in a && k in b :: a[k] == b[k]
  }

  /** In one graph the searches also agree when the maps are at odds and nothing matches the union. */
  lemma UnionFoundIff(g: Graph, a: Labels, b: Labels)
    ensures Found(g, a + b) == Found(g, a) * Found(g, b) <==> Compatible(a, b) || Found(g, a + b) == {}
  {
    if Compatible(a, b) {
      forall id ensures id in Found(g, a + b) <==> id in Found(g, a) && id in Found(g, b) {
        if id in Found(g, a + b) {
          var n := g.nodes[id];
          forall k | k in a ensures Label(n.labels, k) == a[k] {
            assert k in a + b;
          }
        }
      }
    } else {
      var k :| k in a && k in b && a[k] != b[k];
      forall id ensures !(id in Found(g, a) && id in Found(g, b)) {
        if id in Found(g, a) {
          assert Label(g.nodes[id].labels, k) == a[k];
        }
      }
    }
  }

  /**
   * Searching for the union of two label maps finds what both searches find, whatever the
   * graph, if and only if the maps agree where they overlap.
   */
  lemma SearchOfUnionIff(a: Labels, b: Labels)
    ensures (forall g :: Found(g, a + b) == Found(g, a) * Found(g, b)) <==> Compatible(a, b)
  {
    if Compatible(a, b) {
      forall g ensures Found(g, a + b) == Found(g, a) * Found(g, b) {
        UnionFoundIff(g, a, b);
      }
    } else {
      var g := Graph(map["n" := Node("n", SERVICE_KIND, a + b, map[])], map[], map[]);
      assert "n" in Found(g, a + b);
      UnionFoundIff(g, a, b);
    }
  }
}
