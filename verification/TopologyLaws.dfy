/**
 * The indexed graph agrees with a naive scan of the list it was loaded from: the indexes are
 * faithful, the one-hop query returns what the scan finds, and the counts add up.
 */
module TopologyLaws {
  import opened Collections
  import opened TopologyGraph

  // ---- The indexes are faithful to the list ----

  function OutOf(edges: seq<Edge>, id: string): seq<Edge> {
    if edges == [] then [] else OutOf(Init(edges), id) + if Last(edges).from == id then [Last(edges)] else []
  }

  function InTo(edges: seq<Edge>, id: string): seq<Edge> {
    if edges == [] then [] else InTo(Init(edges), id) + if Last(edges).to == id then [Last(edges)] else []
  }

  /** Each index holds the order-preserving filter of the list, and has no empty entries. */
  lemma {:induction false} IndexIsFilter(edges: seq<Edge>, id: string)
    ensures At(SourceIndex(edges), id) == OutOf(edges, id) && (id in SourceIndex(edges) <==> OutOf(edges, id) != [])
    ensures At(TargetIndex(edges), id) == InTo(edges, id) && (id in TargetIndex(edges) <==> InTo(edges, id) != [])
  {
    if edges != [] {
      IndexIsFilter(Init(edges), id);
    }
  }

  lemma CountOneMore(edges: seq<Edge>, last: Edge, e: Edge)
    ensures multiset(edges + [last])[e] == multiset(edges)[e] + if last == e then 1 else 0
  {
  }

  lemma {:induction false} OutCounts(edges: seq<Edge>, e: Edge, id: string)
    ensures multiset(OutOf(edges, id))[e] == if e.from == id then multiset(edges)[e] else 0
  {
    if edges != [] {
      var init, last := Init(edges), Last(edges);
      OutCounts(init, e, id);
      CountOneMore(init, last, e);
      CountOneMore(OutOf(init, id), last, e);
      assert edges == init + [last];
      assert last.from != id ==> OutOf(edges, id) == OutOf(init, id);
    }
  }

  lemma {:induction false} InCounts(edges: seq<Edge>, e: Edge, id: string)
    ensures multiset(InTo(edges, id))[e] == if e.to == id then multiset(edges)[e] else 0
  {
    if edges != [] {
      var init, last := Init(edges), Last(edges);
      InCounts(init, e, id);
      CountOneMore(init, last, e);
      CountOneMore(InTo(init, id), last, e);
      assert edges == init + [last];
      assert last.to != id ==> InTo(edges, id) == InTo(init, id);
    }
  }

  /** Both indexes hold every edge as often as the list does: they mirror each other. */
  lemma IndexesMirror(edges: seq<Edge>, e: Edge)
    ensures multiset(At(SourceIndex(edges), e.from))[e] == multiset(edges)[e]
    ensures multiset(At(TargetIndex(edges), e.to))[e] == multiset(edges)[e]
    ensures forall id | id != e.from :: multiset(At(SourceIndex(edges), id))[e] == 0
    ensures forall id | id != e.to :: multiset(At(TargetIndex(edges), id))[e] == 0
  {
    IndexIsFilter(edges, e.from);
    IndexIsFilter(edges, e.to);
    OutCounts(edges, e, e.from);
    InCounts(edges, e, e.to);
    forall id | id != e.from ensures multiset(At(SourceIndex(edges), id))[e] == 0 {
      IndexIsFilter(edges, id);
      OutCounts(edges, e, id);
    }
    forall id | id != e.to ensures multiset(At(TargetIndex(edges), id))[e] == 0 {
      IndexIsFilter(edges, id);
      InCounts(edges, e, id);
    }
  }

  /** Of several nodes with one identifier the last one is kept. */
  lemma {:induction false} NodesLastWins(nodes: seq<Node>, i: nat)
    requires i < |nodes| && forall j | i < j < |nodes| :: nodes[j].id != nodes[i].id
    ensures nodes[i].id in NodeIndex(nodes) && NodeIndex(nodes)[nodes[i].id] == nodes[i]
    decreases |nodes|
  {
    if i < |nodes| - 1 {
      assert nodes[|nodes| - 1].id != nodes[i].id;
      NodesLastWins(Init(nodes), i);
    }
  }

  function Declared(nodes: seq<Node>): set<string> {
    set i | 0 <= i < |nodes| :: nodes[i].id
  }

  lemma {:induction false} NodeIndexDeclares(nodes: seq<Node>)
    ensures NodeIndex(nodes).Keys == Declared(nodes)
    ensures forall id | id in NodeIndex(nodes) :: NodeIndex(nodes)[id].id == id
  {
    if nodes != [] {
      NodeIndexDeclares(Init(nodes));
      forall id ensures id in Declared(nodes) <==> id in Declared(Init(nodes)) || id == Last(nodes).id {
        if id in Declared(Init(nodes)) {
          var i :| 0 <= i < |Init(nodes)| && Init(nodes)[i].id == id;
          assert nodes[i].id == id;
        }
        if id in Declared(nodes) && id != Last(nodes).id {
          var i :| 0 <= i < |nodes| && nodes[i].id == id;
          assert Init(nodes)[i].id == id;
        }
        assert nodes[|nodes| - 1].id in Declared(nodes);
      }
    }
  }

  // ---- Counts ----

  function Loops(edges: seq<Edge>, id: string): seq<Edge> {
    if edges == [] then [] else
    Loops(Init(edges), id) + if Last(edges).from == id && Last(edges).to == id then [Last(edges)] else []
  }

  function AllLoops(edges: seq<Edge>): seq<Edge> {
    if edges == [] then [] else AllLoops(Init(edges)) + if Last(edges).from == Last(edges).to then [Last(edges)] else []
  }

  lemma {:induction false} OutOfMember(edges: seq<Edge>, id: string, e: Edge)
    ensures e in OutOf(edges, id) <==> e in edges && e.from == id
    ensures e in InTo(edges, id) <==> e in edges && e.to == id
  {
    if edges != [] {
      OutOfMember(Init(edges), id, e);
      assert edges == Init(edges) + [Last(edges)];
    }
  }

  /** `Stats` counts the distinct identifiers, and every edge of the list once. */
  lemma StatsCountTheList(sg: ServiceGraph)
    ensures |Load(sg).nodes| == |Declared(sg.nodes)|
    ensures TotalEdges(Load(sg).edges) == |sg.edges|
  {
    NodeIndexDeclares(sg.nodes);
    assert |Load(sg).nodes| == |Load(sg).nodes.Keys|;
    var m := SourceIndex(sg.edges);
    var at, out := id => |At(m, id)|, id => |OutOf(sg.edges, id)|;
    forall id ensures at(id) == out(id) {
      IndexIsFilter(sg.edges, id);
    }
    SumSame(m.Keys, at, out);
    SourcesCount(m.Keys, sg.edges);
    forall e | e in sg.edges ensures e.from in m {
      IndexIsFilter(sg.edges, e.from);
      OutOfMember(sg.edges, e.from, e);
    }
  }

  /** Counting the edges by source, over any set that holds all sources. */
  lemma {:induction false} SourcesCount(ids: set<string>, edges: seq<Edge>)
    ensures (forall e | e in edges :: e.from in ids) ==> Sum(ids, id => |OutOf(edges, id)|) == |edges|
  {
    var out := id => |OutOf(edges, id)|;
    if edges == [] {
      SumZero(ids, out);
    } else if forall e | e in edges :: e.from in ids {
      var init, e := Init(edges), Last(edges);
      assert e in edges && forall x | x in init :: x in edges;
      SourcesCount(ids, init);
      var isFrom := id => if id == e.from then 1 else 0;
      SumOfOne(ids, isFrom, e.from);
      SumAdds(ids, id => |OutOf(init, id)|, isFrom, out);
    }
  }

  lemma {:induction false} TargetsCount(ids: set<string>, edges: seq<Edge>)
    ensures (forall e | e in edges :: e.to in ids) ==> Sum(ids, id => |InTo(edges, id)|) == |edges|
  {
    var into := id => |InTo(edges, id)|;
    if edges == [] {
      SumZero(ids, into);
    } else if forall e | e in edges :: e.to in ids {
      var init, e := Init(edges), Last(edges);
      assert e in edges && forall x | x in init :: x in edges;
      TargetsCount(ids, init);
      var isTo := id => if id == e.to then 1 else 0;
      SumOfOne(ids, isTo, e.to);
      SumAdds(ids, id => |InTo(init, id)|, isTo, into);
    }
  }

  lemma {:induction false} LoopsCount(ids: set<string>, edges: seq<Edge>)
    ensures (forall e | e in edges :: e.from in ids) ==> Sum(ids, id => |Loops(edges, id)|) == |AllLoops(edges)|
  {
    var loops := id => |Loops(edges, id)|;
    if edges == [] {
      SumZero(ids, loops);
    } else if forall e | e in edges :: e.from in ids {
      var init, e := Init(edges), Last(edges);
      assert e in edges && forall x | x in init :: x in edges;
      LoopsCount(ids, init);
      var isLoop := id => if id == e.from && e.from == e.to then 1 else 0;
      if e.from == e.to {
        SumOfOne(ids, isLoop, e.from);
      } else {
        SumZero(ids, isLoop);
      }
      SumAdds(ids, id => |Loops(init, id)|, isLoop, loops);
    }
  }

  // ---- When does the key "from->to" tell edges apart? ----

  predicate HasArrow(s: string) {
    exists i :: 0 <= i < |s| - 1 && s[i] == '-' && s[i + 1] == '>'
  }

  function PairKey(p: (string, string)): string {
    p.0 + "->" + p.1
  }

  lemma SplitAtArrow(s: string) returns (l: string, r: string)
    requires HasArrow(s)
    ensures s == l + "->" + r
  {
    var i :| 0 <= i < |s| - 1 && s[i] == '-' && s[i + 1] == '>';
    l, r := s[..i], s[i + 2..];
  }

  /** A key whose ends hold no arrow has no arrow but the one at the end of its source. */
  lemma OneArrow(p: (string, string), i: nat)
    requires !HasArrow(p.0) && !HasArrow(p.1)
    requires i < |PairKey(p)| - 1 && i != |p.0|
    ensures !(PairKey(p)[i] == '-' && PairKey(p)[i + 1] == '>')
  {
    var k := PairKey(p);
    if i < |p.0| - 1 {
      assert k[i] == p.0[i] && k[i + 1] == p.0[i + 1];
    } else if i > |p.0| + 1 {
      assert k[i] == p.1[i - |p.0| - 2] && k[i + 1] == p.1[i - |p.0| - 1];
    }
  }

  /** Exactly which ends have a key that no other ends share: those without an arrow of their own. */
  lemma EndsKnownByKeyIff(p: (string, string))
    ensures (forall q: (string, string) :: PairKey(q) == PairKey(p) ==> q == p) <==> !HasArrow(p.0) && !HasArrow(p.1)
  {
    if HasArrow(p.0) {
      var l, r := SplitAtArrow(p.0);
      var q := (l, r + "->" + p.1);
      assert PairKey(q) == PairKey(p) && |q.0| < |p.0|;
    } else if HasArrow(p.1) {
      var l, r := SplitAtArrow(p.1);
      var q := (p.0 + "->" + l, r);
      assert PairKey(q) == PairKey(p) && |q.0| > |p.0|;
    } else {
      forall q: (string, string) | PairKey(q) == PairKey(p) ensures q == p {
        assert PairKey(q)[|q.0|] == '-' && PairKey(q)[|q.0| + 1] == '>';
        if |q.0| != |p.0| {
          OneArrow(p, |q.0|);
        }
        assert q.0 == PairKey(q)[..|q.0|] && q.1 == PairKey(q)[|q.0| + 2..];
        assert p.0 == PairKey(p)[..|p.0|] && p.1 == PairKey(p)[|p.0| + 2..];
      }
    }
  }

  /** In one direction, among edges that share an end, the key always tells ends apart. */
  lemma SameEndKeys(e: Edge, f: Edge)
    requires e.from == f.from || e.to == f.to
    ensures EdgeKey(e) == EdgeKey(f) <==> Ends(e) == Ends(f)
  {
    var k, n := EdgeKey(e), |EdgeKey(e)|;
    if EdgeKey(f) == k {
      assert e.from == k[..|e.from|] && f.from == k[..|f.from|];
      assert e.to == k[|e.from| + 2..] && f.to == k[|f.from| + 2..];
      assert |f.from| + |f.to| == |e.from| + |e.to|;
    }
  }

  // ---- First occurrences ----

  ghost predicate TellsEndsApart(edges: seq<Edge>) {
    forall e, f | e in edges && f in edges :: EdgeKey(e) == EdgeKey(f) ==> Ends(e) == Ends(f)
  }

  lemma {:induction false} FirstsIn<T>(edges: seq<Edge>, key: Edge -> T, e: Edge)
    requires e in Firsts(edges, key)
    ensures e in edges
  {
    if e in Firsts(Init(edges), key) {
      FirstsIn(Init(edges), key, e);
    }
    assert edges == Init(edges) + [Last(edges)];
  }

  lemma ListedIsSeen<T>(edges: seq<Edge>, key: Edge -> T, e: Edge)
    requires e in edges
    ensures Seen(edges, key, key(e))
  {
    var i :| 0 <= i < |edges| && edges[i] == e;
    assert key(edges[i]) == key(e);
  }

  /** Every key is kept, and kept once. */
  lemma {:induction false} FirstsOncePerKey<T>(edges: seq<Edge>, key: Edge -> T)
    ensures forall e | e in edges :: Seen(Firsts(edges, key), key, key(e))
    ensures forall i, j | 0 <= i < j < |Firsts(edges, key)| :: key(Firsts(edges, key)[i]) != key(Firsts(edges, key)[j])
  {
    if edges != [] {
      var init, last, kept := Init(edges), Last(edges), Firsts(Init(edges), key);
      FirstsOncePerKey(init, key);
      assert edges == init + [last];
      forall e | e in init ensures Seen(init, key, key(e)) {
        ListedIsSeen(init, key, e);
      }
      forall e | e in edges ensures Seen(Firsts(edges, key), key, key(e)) {
        if Seen(init, key, key(e)) {
          var i :| 0 <= i < |init| && key(init[i]) == key(e);
          assert init[i] in init;
          var j :| 0 <= j < |kept| && key(kept[j]) == key(init[i]);
          assert Firsts(edges, key)[j] == kept[j];
        } else {
          assert e == last;
          assert Firsts(edges, key)[|kept|] == last;
        }
      }
      forall j | 0 <= j < |kept| ensures Seen(init, key, key(kept[j])) {
        FirstsIn(init, key, kept[j]);
        var i :| 0 <= i < |init| && init[i] == kept[j];
        assert key(init[i]) == key(kept[j]);
      }
    }
  }

  lemma {:induction false} FirstsAgree(edges: seq<Edge>)
    requires TellsEndsApart(edges)
    ensures Firsts(edges, EdgeKey) == Firsts(edges, Ends)
  {
    if edges != [] {
      var init, last := Init(edges), Last(edges);
      assert edges == init + [last];
      FirstsAgree(init);
      if Seen(init, EdgeKey, EdgeKey(last)) {
        var i :| 0 <= i < |init| && EdgeKey(init[i]) == EdgeKey(last);
        assert init[i] in edges && Ends(init[i]) == Ends(last);
      }
      if Seen(init, Ends, Ends(last)) {
        var i :| 0 <= i < |init| && Ends(init[i]) == Ends(last);
        assert EdgeKey(init[i]) == EdgeKey(last);
      }
    }
  }

  lemma KeptTogether(edges: seq<Edge>, e: Edge, f: Edge)
    requires Firsts(edges, EdgeKey) == Firsts(edges, Ends)
    requires e in edges && f in edges && EdgeKey(e) == EdgeKey(f)
    ensures Ends(e) == Ends(f)
  {
    var kept := Firsts(edges, EdgeKey);
    FirstsOncePerKey(edges, EdgeKey);
    FirstsOncePerKey(edges, Ends);
    assert Seen(kept, Ends, Ends(e)) && Seen(kept, Ends, Ends(f));
    var i :| 0 <= i < |kept| && Ends(kept[i]) == Ends(e);
    var j :| 0 <= j < |kept| && Ends(kept[j]) == Ends(f);
    assert EdgeKey(kept[i]) == EdgeKey(kept[j]);
  }

  /** Keeping first edges by key keeps the first edge of each pair of ends, if and only if no two pairs share a key. */
  lemma FirstsAgreeIff(edges: seq<Edge>)
    ensures Firsts(edges, EdgeKey) == Firsts(edges, Ends) <==> TellsEndsApart(edges)
  {
    if TellsEndsApart(edges) {
      FirstsAgree(edges);
    }
    if Firsts(edges, EdgeKey) == Firsts(edges, Ends) {
      forall e, f | e in edges && f in edges && EdgeKey(e) == EdgeKey(f) ensures Ends(e) == Ends(f) {
        KeptTogether(edges, e, f);
      }
    }
  }

  /** Deduplicating by key never keeps more edges than by ends, and as many only if it keeps the same. */
  lemma {:induction false} KeysKeepFewer(edges: seq<Edge>)
    ensures |Firsts(edges, EdgeKey)| <= |Firsts(edges, Ends)|
    ensures |Firsts(edges, EdgeKey)| == |Firsts(edges, Ends)| ==> Firsts(edges, EdgeKey) == Firsts(edges, Ends)
  {
    if edges != [] {
      var init, last := Init(edges), Last(edges);
      KeysKeepFewer(init);
      if Seen(init, Ends, Ends(last)) {
        var i :| 0 <= i < |init| && Ends(init[i]) == Ends(last);
        assert EdgeKey(init[i]) == EdgeKey(last);
      }
    }
  }
}
