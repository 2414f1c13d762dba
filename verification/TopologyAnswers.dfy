/**
 * The answers of the graph, read off the flat list it was loaded from, position by position:
 * the nodes and edges of the one-hop query, and the services that a label search finds. At the
 * end, the answers of the client after any history of watch events.
 */
module TopologyAnswers {
  import opened Wrappers
  import opened Collections
  import opened Domain
  import opened TopologyGraph
  import opened TopologyLaws
  import opened TopologyScan
  import TopologyClient

  // ---- Selections of a list, by position ----

  predicate Increasing(at: seq<nat>) {
    forall i, j | 0 <= i < j < |at| :: at[i] < at[j]
  }

  /** `at` lists, in order, exactly the positions of the list that are wanted. */
  ghost predicate Positions(at: seq<nat>, n: nat, wanted: nat -> bool) {
    Increasing(at) && (forall i :: i in at ==> i < n) && (forall i: nat | i < n :: i in at <==> wanted(i))
  }

  /** `kept` is what stands at these positions. */
  ghost predicate StandAt(kept: seq<Edge>, edges: seq<Edge>, at: seq<nat>) {
    |kept| == |at| && forall k | 0 <= k < |at| :: at[k] < |edges| && kept[k] == edges[at[k]]
  }

  function Longer(at: seq<nat>, n: nat, take: bool): seq<nat> {
    if take then at + [n] else at
  }

  lemma OneMorePosition(at: seq<nat>, n: nat, wanted: nat -> bool, wanted': nat -> bool)
    requires Positions(at, n, wanted) && forall i: nat | i < n :: wanted(i) <==> wanted'(i)
    ensures Positions(Longer(at, n, wanted'(n)), n + 1, wanted')
  {
    var at' := Longer(at, n, wanted'(n));
    forall i | 0 <= i < |at| ensures at[i] < n {
      assert at[i] in at;
    }
    forall i: nat ensures i in at' <==> i in at || (i == n && wanted'(n)) {
      if i in at {
        var k :| 0 <= k < |at| && at[k] == i;
        assert at'[k] == i;
      }
      if wanted'(n) {
        assert at'[|at|] == n;
      }
    }
  }

  /** No earlier edge has the same text from source to target. */
  predicate FirstOfItsText(edges: seq<Edge>, i: nat) {
    i < |edges| && forall j | 0 <= j < i :: edges[j].from + "->" + edges[j].to != edges[i].from + "->" + edges[i].to
  }

  lemma FirstIsUnseen(edges: seq<Edge>)
    requires edges != []
    ensures FirstOfItsText(edges, |edges| - 1) <==> !Seen(Init(edges), EdgeKey, EdgeKey(Last(edges)))
  {
    var n := |edges| - 1;
    if Seen(Init(edges), EdgeKey, EdgeKey(Last(edges))) {
      var j :| 0 <= j < n && EdgeKey(Init(edges)[j]) == EdgeKey(Last(edges));
      assert edges[j].from + "->" + edges[j].to == edges[n].from + "->" + edges[n].to;
    }
    if !FirstOfItsText(edges, n) {
      var j :| 0 <= j < n && edges[j].from + "->" + edges[j].to == edges[n].from + "->" + edges[n].to;
      assert EdgeKey(Init(edges)[j]) == EdgeKey(Last(edges));
    }
  }

  predicate From(edges: seq<Edge>, i: nat, id: string) {
    i < |edges| && edges[i].from == id
  }

  predicate To(edges: seq<Edge>, i: nat, id: string) {
    i < |edges| && edges[i].to == id
  }

  /** The last edge may be kept as well. */
  lemma StandAtMore(kept: seq<Edge>, edges: seq<Edge>, at: seq<nat>, take: bool)
    requires edges != [] && StandAt(kept, Init(edges), at)
    ensures StandAt(kept + if take then [Last(edges)] else [], edges, Longer(at, |edges| - 1, take))
  {
  }

  lemma {:induction false} FirstsByPosition(edges: seq<Edge>) returns (at: seq<nat>)
    ensures Positions(at, |edges|, (i: nat) => FirstOfItsText(edges, i)) && StandAt(Firsts(edges, EdgeKey), edges, at)
  {
    if edges == [] {
      at := [];
    } else {
      var init, n := Init(edges), |edges| - 1;
      at := FirstsByPosition(init);
      OneMorePosition(at, n, (i: nat) => FirstOfItsText(init, i), (i: nat) => FirstOfItsText(edges, i));
      FirstIsUnseen(edges);
      StandAtMore(Firsts(init, EdgeKey), edges, at, FirstOfItsText(edges, n));
      at := Longer(at, n, FirstOfItsText(edges, n));
    }
  }

  lemma {:induction false} OutOfByPosition(edges: seq<Edge>, id: string) returns (at: seq<nat>)
    ensures Positions(at, |edges|, (i: nat) => From(edges, i, id)) && StandAt(OutOf(edges, id), edges, at)
  {
    if edges == [] {
      at := [];
    } else {
      var init, n := Init(edges), |edges| - 1;
      at := OutOfByPosition(init, id);
      OneMorePosition(at, n, (i: nat) => From(init, i, id), (i: nat) => From(edges, i, id));
      StandAtMore(OutOf(init, id), edges, at, edges[n].from == id);
      at := Longer(at, n, edges[n].from == id);
    }
  }

  lemma {:induction false} InToByPosition(edges: seq<Edge>, id: string) returns (at: seq<nat>)
    ensures Positions(at, |edges|, (i: nat) => To(edges, i, id)) && StandAt(InTo(edges, id), edges, at)
  {
    if edges == [] {
      at := [];
    } else {
      var init, n := Init(edges), |edges| - 1;
      at := InToByPosition(init, id);
      OneMorePosition(at, n, (i: nat) => To(init, i, id), (i: nat) => To(edges, i, id));
      StandAtMore(InTo(init, id), edges, at, edges[n].to == id);
      at := Longer(at, n, edges[n].to == id);
    }
  }

  // ---- The one-hop query ----

  /** What stands at these positions. */
  function Pick(edges: seq<Edge>, at: seq<nat>): seq<Edge>
    requires forall i | i in at :: i < |edges|
  {
    seq(|at|, k requires 0 <= k < |at| => assert at[k] in at; edges[at[k]])
  }

  /** The edges shown are, one by one, those at these positions. */
  ghost predicate ShownAt(shown: seq<TopologyEdge>, edges: seq<Edge>, at: seq<nat>) {
    && |shown| == |at|
    && forall k | 0 <= k < |at| ::
         && at[k] < |edges| && shown[k].from == edges[at[k]].from && shown[k].to == edges[at[k]].to
         && shown[k].kind == edges[at[k]].kind
  }

  /** All edges from the service, then all edges to it, in the order of the list; of each text the first is shown. */
  ghost predicate EdgesAt(list: seq<Edge>, id: string, shown: seq<TopologyEdge>,
                          out: seq<nat>, into: seq<nat>, at: seq<nat>)
  {
    && Positions(out, |list|, (i: nat) => From(list, i, id)) && Positions(into, |list|, (i: nat) => To(list, i, id))
    && var around := Pick(list, out) + Pick(list, into);
       Positions(at, |around|, (i: nat) => FirstOfItsText(around, i)) && ShownAt(shown, around, at)
  }

  ghost predicate ScansEdges(list: seq<Edge>, id: string, shown: seq<TopologyEdge>) {
    exists out, into, at :: EdgesAt(list, id, shown, out, into, at)
  }

  /** The last node of the list with this identifier. */
  predicate IsLastAt(list: seq<Node>, i: nat, id: string) {
    i < |list| && list[i].id == id && forall j | i < j < |list| :: list[j].id != id
  }

  lemma {:induction false} LastWithId(list: seq<Node>, id: string) returns (i: nat)
    requires id in NodeIndex(list)
    ensures IsLastAt(list, i, id)
  {
    if Last(list).id == id {
      i := |list| - 1;
    } else {
      i := LastWithId(Init(list), id);
    }
  }

  /** The last node of the list with this identifier, and its kind. */
  ghost predicate IsLastDeclared(list: seq<Node>, shown: TopologyNode) {
    exists i: nat :: IsLastAt(list, i, shown.id) && list[i].kind == shown.kind
  }

  predicate IsDeclared(list: seq<Node>, id: string) {
    exists i :: 0 <= i < |list| && list[i].id == id
  }

  predicate ShownAfter(shown: seq<TopologyNode>, id: string) {
    exists k :: 1 <= k < |shown| && shown[k].id == id
  }

  /** The service, then each declared node that an edge joins it to, once; all as last declared. */
  ghost predicate ScansNodes(list: seq<Node>, edges: seq<Edge>, id: string, shown: seq<TopologyNode>) {
    && shown != [] && shown[0].id == id
    && (forall i, j | 1 <= i < j < |shown| :: shown[i].id != shown[j].id)
    && (forall x :: ShownAfter(shown, x) <==> IsDeclared(list, x) && Adjacent(edges, id, x))
    && (forall k | 0 <= k < |shown| :: IsLastDeclared(list, shown[k]))
  }

  ghost predicate IsScan(sg: ServiceGraph, id: string, s: TopologySlice) {
    if IsDeclared(sg.nodes, id) then ScansNodes(sg.nodes, sg.edges, id, s.nodes) && ScansEdges(sg.edges, id, s.edges)
    else s.nodes == [] && s.edges == []
  }

  lemma LastOfIndex(list: seq<Node>, id: string)
    ensures IsDeclared(list, id) <==> id in NodeIndex(list)
    ensures id in NodeIndex(list) ==> IsLastDeclared(list, TopologyNode(id, NodeIndex(list)[id].kind))
  {
    NodeIndexDeclares(list);
    if id in NodeIndex(list) {
      var i := LastWithId(list, id);
      NodesLastWins(list, i);
      assert IsLastAt(list, i, id);
    }
  }

  lemma PickedEdges(edges: seq<Edge>, kept: seq<Edge>, at: seq<nat>)
    requires StandAt(kept, edges, at) && forall i | i in at :: i < |edges|
    ensures Pick(edges, at) == kept
  {
  }

  lemma AnswerScansEdges(sg: ServiceGraph, id: string, s: TopologySlice)
    requires IsSubgraph(Load(sg), id, s) && id in Declared(sg.nodes)
    ensures ScansEdges(sg.edges, id, s.edges)
  {
    SubgraphEdges(sg, id, s);
    var out := OutOfByPosition(sg.edges, id);
    var into := InToByPosition(sg.edges, id);
    PickedEdges(sg.edges, OutOf(sg.edges, id), out);
    PickedEdges(sg.edges, InTo(sg.edges, id), into);
    var at := FirstsByPosition(Around(sg.edges, id));
    assert EdgesAt(sg.edges, id, s.edges, out, into, at);
  }

  lemma ShownAfterFirst(shown: seq<TopologyNode>, x: string)
    requires shown != []
    ensures ShownAfter(shown, x) <==> x in NodeIds(shown[1..])
  {
    var rest := NodeIds(shown[1..]);
    if x in rest {
      var k :| 0 <= k < |rest| && rest[k] == x;
      assert shown[k + 1].id == x;
    }
    if ShownAfter(shown, x) {
      var k :| 1 <= k < |shown| && shown[k].id == x;
      assert rest[k - 1] == x;
    }
  }

  lemma DistinctAfterFirst(shown: seq<TopologyNode>)
    requires shown != [] && Distinct(NodeIds(shown[1..]))
    ensures forall i, j | 1 <= i < j < |shown| :: shown[i].id != shown[j].id
  {
    var rest := NodeIds(shown[1..]);
    forall i, j | 1 <= i < j < |shown| ensures shown[i].id != shown[j].id {
      assert rest[i - 1] != rest[j - 1];
    }
  }

  lemma AnswerShowsDeclared(sg: ServiceGraph, id: string, s: TopologySlice, k: nat)
    requires IsSubgraph(Load(sg), id, s) && id in Declared(sg.nodes) && k < |s.nodes|
    ensures IsLastDeclared(sg.nodes, s.nodes[k])
  {
    SubgraphNodesAreScanned(sg, id, s);
    NodeIndexDeclares(sg.nodes);
    assert s.nodes[k] in s.nodes;
    LastOfIndex(sg.nodes, s.nodes[k].id);
  }

  lemma AnswerScansNodes(sg: ServiceGraph, id: string, s: TopologySlice)
    requires IsSubgraph(Load(sg), id, s) && id in Declared(sg.nodes)
    ensures ScansNodes(sg.nodes, sg.edges, id, s.nodes)
  {
    SubgraphNodesAreScanned(sg, id, s);
    DistinctAfterFirst(s.nodes);
    forall x ensures ShownAfter(s.nodes, x) <==> IsDeclared(sg.nodes, x) && Adjacent(sg.edges, id, x) {
      ShownAfterFirst(s.nodes, x);
      LastOfIndex(sg.nodes, x);
      NodeIndexDeclares(sg.nodes);
    }
    forall k | 0 <= k < |s.nodes| ensures IsLastDeclared(sg.nodes, s.nodes[k]) {
      AnswerShowsDeclared(sg, id, s, k);
    }
  }

  /**
   * The answer for a service is the scan of the list, position by position: each edge shown has
   * the source, the target and the kind of the edge it stands for, and each node the kind that
   * the list declares last. For an undeclared service it is empty.
   */
  lemma AnswerIsScan(sg: ServiceGraph, id: string, s: TopologySlice)
    requires IsSubgraph(Load(sg), id, s)
    ensures IsScan(sg, id, s)
  {
    LastOfIndex(sg.nodes, id);
    NodeIndexDeclares(sg.nodes);
    if IsDeclared(sg.nodes, id) {
      AnswerScansNodes(sg, id, s);
      AnswerScansEdges(sg, id, s);
    }
  }

  /** Some edge of the answer has these ends. */
  predicate ShowsEnds(s: TopologySlice, from: string, to: string) {
    exists k :: 0 <= k < |s.edges| && s.edges[k].from == from && s.edges[k].to == to
  }

  lemma ShownByKey(around: seq<Edge>, s: TopologySlice, e: Edge) returns (k: nat)
    requires s.edges == EdgeViews(Firsts(around, EdgeKey)) && e in around
    ensures k < |s.edges| && s.edges[k].from + "->" + s.edges[k].to == e.from + "->" + e.to
    ensures exists f :: f in around && f.from == s.edges[k].from && f.to == s.edges[k].to
  {
    var kept := Firsts(around, EdgeKey);
    FirstsOncePerKey(around, EdgeKey);
    k :| 0 <= k < |kept| && EdgeKey(kept[k]) == EdgeKey(e);
    FirstsIn(around, EdgeKey, kept[k]);
  }

  lemma EndsShownOnce(around: seq<Edge>, s: TopologySlice, i: nat, j: nat)
    requires s.edges == EdgeViews(Firsts(around, EdgeKey)) && i < j < |s.edges|
    ensures s.edges[i].from + "->" + s.edges[i].to != s.edges[j].from + "->" + s.edges[j].to
  {
    var kept := Firsts(around, EdgeKey);
    FirstsOncePerKey(around, EdgeKey);
    assert EdgeKey(kept[i]) != EdgeKey(kept[j]);
  }

  /**
   * No two edges of an answer have the same ends. And the answer is complete, each edge at the
   * service having one with its ends there, if and only if keys tell ends apart around it.
   */
  lemma AnswerIsCompleteIff(sg: ServiceGraph, id: string, s: TopologySlice)
    requires IsSubgraph(Load(sg), id, s) && id in Declared(sg.nodes)
    ensures forall i, j | 0 <= i < j < |s.edges| :: (s.edges[i].from, s.edges[i].to) != (s.edges[j].from, s.edges[j].to)
    ensures (forall e | e in sg.edges && (e.from == id || e.to == id) :: ShowsEnds(s, e.from, e.to)) <==>
            TellsEndsApart(Around(sg.edges, id))
  {
    var around := Around(sg.edges, id);
    SubgraphEdges(sg, id, s);
    forall i, j | 0 <= i < j < |s.edges| ensures (s.edges[i].from, s.edges[i].to) != (s.edges[j].from, s.edges[j].to) {
      EndsShownOnce(around, s, i, j);
    }
    forall e ensures e in around <==> e in sg.edges && (e.from == id || e.to == id) {
      OutOfMember(sg.edges, id, e);
    }
    if TellsEndsApart(around) {
      forall e | e in around ensures ShowsEnds(s, e.from, e.to) {
        ShownWhenApart(around, s, e);
      }
    }
    if forall e | e in around :: ShowsEnds(s, e.from, e.to) {
      ApartWhenShown(around, s);
    }
  }

  lemma ShownWhenApart(around: seq<Edge>, s: TopologySlice, e: Edge)
    requires s.edges == EdgeViews(Firsts(around, EdgeKey)) && e in around && TellsEndsApart(around)
    ensures ShowsEnds(s, e.from, e.to)
  {
    var k := ShownByKey(around, s, e);
    var f :| f in around && f.from == s.edges[k].from && f.to == s.edges[k].to;
    assert Ends(f) == Ends(e);
  }

  lemma ApartWhenShown(around: seq<Edge>, s: TopologySlice)
    requires s.edges == EdgeViews(Firsts(around, EdgeKey))
    requires forall e | e in around :: ShowsEnds(s, e.from, e.to)
    ensures TellsEndsApart(around)
  {
    forall e, f | e in around && f in around && EdgeKey(e) == EdgeKey(f) ensures Ends(e) == Ends(f) {
      var i :| 0 <= i < |s.edges| && s.edges[i].from == e.from && s.edges[i].to == e.to;
      var j :| 0 <= j < |s.edges| && s.edges[j].from == f.from && s.edges[j].to == f.to;
      if i < j {
        EndsShownOnce(around, s, i, j);
      } else if j < i {
        EndsShownOnce(around, s, j, i);
      }
    }
  }

  // ---- Label search ----

  /** Each label that is asked for has that value; an absent one reads as empty. */
  predicate HasLabels(labels: Labels, asked: Labels) {
    forall k | k in asked :: if k in labels then labels[k] == asked[k] else asked[k] == ""
  }

  lemma FoundAsListed(sg: ServiceGraph, asked: Labels, id: string, i: nat)
    requires IsLastAt(sg.nodes, i, id)
    ensures id in Found(Load(sg), asked) <==> sg.nodes[i].kind == "service" && HasLabels(sg.nodes[i].labels, asked)
  {
    NodesLastWins(sg.nodes, i);
  }

  /** The search finds exactly the services of the list, as last declared, that have the labels. */
  lemma SearchIsScan(sg: ServiceGraph, asked: Labels, id: string)
    ensures id in Found(Load(sg), asked) <==>
            exists i: nat ::
              IsLastAt(sg.nodes, i, id) && sg.nodes[i].kind == "service" && HasLabels(sg.nodes[i].labels, asked)
  {
    if id in Found(Load(sg), asked) {
      var i := LastWithId(sg.nodes, id);
      FoundAsListed(sg, asked, id, i);
    }
    if i: nat :| IsLastAt(sg.nodes, i, id) && sg.nodes[i].kind == "service" && HasLabels(sg.nodes[i].labels, asked) {
      FoundAsListed(sg, asked, id, i);
    }
  }

  // ---- The client ----

  /**
   * After any history of events, the client's answer for a service is the scan of the list that
   * the last effective event carried, if that was an add or an update; else it is empty.
   */
  lemma ClientAnswersScan(es: seq<TopologyClient.Event>, i: nat, service: string, s: TopologySlice)
    requires i < |es| && TopologyClient.Effective(es[i])
    requires forall j | i < j < |es| :: !TopologyClient.Effective(es[j])
    requires IsSubgraph(TopologyClient.Replay(es), TopologyClient.ServiceId(service), s)
    ensures var id := if "svc:" <= service then service else "svc:" + service;
            match es[i]
            case Deleted(_) => s.nodes == [] && s.edges == []
            case Added(obj) => obj.Unstructured? && obj.decoded.Some? && IsScan(obj.decoded.value, id, s)
            case Updated(obj) => obj.Unstructured? && obj.decoded.Some? && IsScan(obj.decoded.value, id, s)
  {
    TopologyClient.LastEventLeaves(es, i);
    if !es[i].Deleted? {
      AnswerIsScan(es[i].obj.decoded.value, TopologyClient.ServiceId(service), s);
    }
  }
}
