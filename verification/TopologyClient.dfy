/**
 * The client that follows a service graph: watch events load a new graph, or replace the
 * graph object by an empty one, and queries go to the current object.
 */
module TopologyClient {
  import opened Wrappers
  import opened Collections
  import opened Domain
  import opened TopologyGraph

  /** What an event carries: an unstructured object that may fail to decode, or anything else. */
  datatype Object = Unstructured(decoded: Option<ServiceGraph>) | OtherObject

  datatype Event = Added(obj: Object) | Updated(obj: Object) | Deleted(obj: Object)

  /** An event that changes the graph; the others are logged or ignored. */
  predicate Effective(e: Event) {
    e.obj.Unstructured? && (e.Deleted? || e.obj.decoded.Some?)
  }

  function Apply(g: Graph, e: Event): Graph {
    match e
    case Deleted(Unstructured(_)) => EMPTY_GRAPH
    case Added(Unstructured(Some(sg))) => Load(sg)
    case Updated(Unstructured(Some(sg))) => Load(sg)
    case _ => g
  }

  function Replay(es: seq<Event>): Graph {
    if es == [] then EMPTY_GRAPH else Apply(Replay(Init(es)), Last(es))
  }

  /**
   * No residue: after any history the graph is what a fresh one is after the last effective
   * event alone, so every query answers as if nothing had come before.
   */
  lemma {:induction false} OnlyLastEventCounts(es: seq<Event>, i: nat)
    requires i < |es| && Effective(es[i]) && forall j | i < j < |es| :: !Effective(es[j])
    ensures Replay(es) == Replay([es[i]])
    decreases |es|
  {
    assert Init([es[i]]) == [];
    if i < |es| - 1 {
      OnlyLastEventCounts(Init(es), i);
      assert !Effective(es[|es| - 1]);
    }
  }

  /**
   * What the last effective event leaves: the graph of the list it carries, if it is an add or
   * an update, and an empty graph if it is a delete.
   */
  lemma {:induction false} LastEventLeaves(es: seq<Event>, i: nat)
    requires i < |es| && Effective(es[i]) && forall j | i < j < |es| :: !Effective(es[j])
    ensures es[i].Deleted? ==> Replay(es) == Graph(map[], map[], map[])
    ensures !es[i].Deleted? ==>
              es[i].obj.Unstructured? && es[i].obj.decoded.Some? && Replay(es) == Load(es[i].obj.decoded.value)
    decreases |es|
  {
    if i < |es| - 1 {
      LastEventLeaves(Init(es), i);
      assert !Effective(es[|es| - 1]);
    }
  }

  /** Without an effective event the graph is empty. */
  lemma {:induction false} NoEventLeavesNothing(es: seq<Event>)
    requires forall e | e in es :: !Effective(e)
    ensures Replay(es) == Graph(map[], map[], map[])
  {
    if es != [] {
      assert Last(es) in es && forall e | e in Init(es) :: e in es;
      NoEventLeavesNothing(Init(es));
    }
  }

  const PREFIX := "svc:"

  function ServiceId(service: string): string {
    if PREFIX <= service then service else PREFIX + service
  }

  /** Prefixing settles after one step, and merges a bare name only with its prefixed form. */
  lemma ServiceIdMerges(a: string, b: string)
    ensures "svc:" <= ServiceId(a) && (ServiceId(a) == a || ServiceId(a) == "svc:" + a)
    ensures ServiceId(ServiceId(a)) == ServiceId(a)
    ensures ServiceId(a) == ServiceId(b) <==>
            a == b || (a == PREFIX + b && !(PREFIX <= b)) || (b == PREFIX + a && !(PREFIX <= a))
  {
    assert PREFIX + a == PREFIX + b ==> (PREFIX + a)[|PREFIX|..] == (PREFIX + b)[|PREFIX|..];
    assert (PREFIX + a)[|PREFIX|..] == a && (PREFIX + b)[|PREFIX|..] == b;
  }

  class Client {
    var graph: InMemoryGraph
    ghost var history: seq<Event>

    ghost predicate Valid()
      reads this, graph
    {
      graph.Value() == Replay(history)
    }

    constructor ()
      ensures Valid() && history == [] && fresh(graph)
    {
      graph := new InMemoryGraph();
      history := [];
    }

    /** A graph that does not decode is an error and leaves the current one. */
    method UpdateGraph(obj: Option<ServiceGraph>) returns (ok: bool)
      modifies graph
      ensures ok <==> obj.Some?
      ensures graph.Value() == if ok then Load(obj.value) else old(graph.Value())
    {
      if obj.None? {
        return false;
      }
      graph.LoadFromServiceGraph(obj.value);
      return true;
    }

    method OnAdd(obj: Object)
      requires Valid()
      modifies this`history, graph
      ensures Valid() && history == old(history) + [Added(obj)]
      ensures graph.Value() == if obj.Unstructured? && obj.decoded.Some? then Load(obj.decoded.value)
                               else old(graph.Value())
    {
      Record(Added(obj));
      if obj.Unstructured? {
        var ok := UpdateGraph(obj.decoded);
      }
    }

    method OnUpdate(obj: Object)
      requires Valid()
      modifies this`history, graph
      ensures Valid() && history == old(history) + [Updated(obj)]
      ensures graph.Value() == if obj.Unstructured? && obj.decoded.Some? then Load(obj.decoded.value)
                               else old(graph.Value())
    {
      Record(Updated(obj));
      if obj.Unstructured? {
        var ok := UpdateGraph(obj.decoded);
      }
    }

    /** The object is replaced, so a query that holds the old one is not disturbed. */
    method OnDelete(obj: Object)
      requires Valid()
      modifies this
      ensures Valid() && history == old(history) + [Deleted(obj)]
      ensures old(graph).Value() == old(graph.Value())
      ensures if obj.Unstructured? then fresh(graph) && graph.Value() == Graph(map[], map[], map[])
              else graph == old(graph)
    {
      Record(Deleted(obj));
      if obj.Unstructured? {
        graph := new InMemoryGraph();
      }
    }

    ghost method Record(e: Event)
      modifies this`history
      ensures history == old(history) + [e]
      ensures Replay(history) == Apply(Replay(old(history)), e)
    {
      history := history + [e];
      assert Init(history) == old(history) && Last(history) == e;
    }

    /** The answer depends on the history only through its graph. */
    method SubgraphForService(service: string) returns (s: TopologySlice)
      requires Valid()
      ensures IsSubgraph(Replay(history), ServiceId(service), s)
    {
      var serviceId := service;
      if !(PREFIX <= service) {
        serviceId := PREFIX + service;
      }
      s := graph.GetSubgraphForService(serviceId);
    }
  }
}
