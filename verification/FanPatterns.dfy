/** Fan-out and fan-in: head, then the keyed items in key order, then tail. */
module FanPatterns {
  import opened Wrappers
  import opened Sequences
  import opened Text
  import opened CanonicalForm
  import opened Graphs
  import opened CompilerSpec
  import opened GradedGraphs
  import opened Patterns

  function OutEdges(kind: PatternKind, head: Node, items: seq<Keyed>): (r: seq<Edge>)
    ensures |r| == |items|
    ensures forall j | 0 <= j < |items| ::
              r[j] == Edge(IdOf(kind, j + 1), Endpoint(head.id, None), Endpoint(items[j].node.id, None))
  {
    seq(|items|, j requires 0 <= j < |items| =>
      Edge(IdOf(kind, j + 1), Endpoint(head.id, None), Endpoint(items[j].node.id, None)))
  }

  function InEdges(kind: PatternKind, items: seq<Keyed>, tail: Node): (r: seq<Edge>)
    ensures |r| == |items|
    ensures forall j | 0 <= j < |items| ::
              r[j] == Edge(IdOf(kind, |items| + j + 1), Endpoint(items[j].node.id, None),
                  Endpoint(tail.id, Some(items[j].key.text)))
  {
    seq(|items|, j requires 0 <= j < |items| =>
      Edge(IdOf(kind, |items| + j + 1), Endpoint(items[j].node.id, None), Endpoint(tail.id, Some(items[j].key.text))))
  }

  function FanEdges(kind: PatternKind, head: Node, items: seq<Keyed>, tail: Node): seq<Edge> {
    OutEdges(kind, head, items) + InEdges(kind, items, tail)
  }

  function FanNodes(head: Node, items: seq<Keyed>, tail: Node): seq<Node> {
    [head] + NodesOf(items) + [tail]
  }

  function FanGraph(kind: PatternKind, head: Node, items: seq<Keyed>, tail: Node, outputKey: Key,
      policies: Policies): Graph {
    Assemble(FanNodes(head, items, tail), FanEdges(kind, head, items, tail), head.id, tail.id, outputKey, policies)
  }

  method BuildEdges(kind: PatternKind, head: Node, items: seq<Keyed>, tail: Node) returns (edges: seq<Edge>)
    ensures edges == FanEdges(kind, head, items, tail)
  {
    hide IdOf;
    edges := [];
    var index := 1;
    for i := 0 to |items|
      invariant index == i + 1 && edges == OutEdges(kind, head, items)[..i]
    {
      edges := edges + [Edge(IdOf(kind, index), Endpoint(head.id, None), Endpoint(items[i].node.id, None))];
      index := index + 1;
    }
    for i := 0 to |items|
      invariant index == |items| + i + 1 && edges == OutEdges(kind, head, items) + InEdges(kind, items, tail)[..i]
    {
      edges := edges + [Edge(IdOf(kind, index), Endpoint(items[i].node.id, None),
          Endpoint(tail.id, Some(items[i].key.text)))];
      index := index + 1;
    }
  }

  // ---- What the compiler makes of it ------------------------------------------------------

  ghost function FanRank(head: Node, tail: Node): Ranking {
    n => if n == head.id then 0 else if n == tail.id then 2 else 1
  }

  // Distinct ids, each in its place.
  ghost predicate Distinguished(head: Node, items: seq<Keyed>, tail: Node) {
    && items != [] && head.id != tail.id
    && (forall i | 0 <= i < |items| :: items[i].node.id != head.id && items[i].node.id != tail.id)
    && NoDup(Ids(NodesOf(items)))
  }

  lemma {:induction false} FanIds(head: Node, items: seq<Keyed>, tail: Node)
    ensures Ids(FanNodes(head, items, tail)) == [head.id] + Ids(NodesOf(items)) + [tail.id]
  {}

  lemma {:induction false} IdsDistinguish(head: Node, items: seq<Keyed>, tail: Node)
    requires items != [] && NoDup(Ids(FanNodes(head, items, tail)))
    ensures Distinguished(head, items, tail)
  {
    var ids := Ids(FanNodes(head, items, tail));
    FanIds(head, items, tail);
    assert ids[0] == head.id && ids[|items| + 1] == tail.id;
    forall i | 0 <= i < |items| ensures ids[i + 1] == items[i].node.id {}
  }

  lemma {:induction false} FanEdgeAt(kind: PatternKind, head: Node, items: seq<Keyed>, tail: Node, e: Edge)
    requires e in FanEdges(kind, head, items, tail)
    ensures exists i :: 0 <= i < |items| &&
              ((e.source == Endpoint(head.id, None) && e.target == Endpoint(items[i].node.id, None))
               || (e.source == Endpoint(items[i].node.id, None)
                   && e.target == Endpoint(tail.id, Some(items[i].key.text))))
  {
    hide IdOf;
    var edges := FanEdges(kind, head, items, tail);
    var j :| 0 <= j < |edges| && edges[j] == e;
    var i := if j < |items| then j else j - |items|;
    assert 0 <= i < |items|;
  }

  lemma {:induction false} FanIdentified(kind: PatternKind, head: Node, items: seq<Keyed>, tail: Node, outputKey: Key,
      policies: Policies)
    requires NoDup(Ids(FanNodes(head, items, tail)))
    ensures WellIdentified(FanGraph(kind, head, items, tail, outputKey, policies))
  {
    hide IdOf;
    var g, ids := FanGraph(kind, head, items, tail, outputKey, policies), Ids(FanNodes(head, items, tail));
    NumberedDistinct(kind, g.edges);
    FanIds(head, items, tail);
    assert ids[0] == head.id && ids[|items| + 1] == tail.id;
    forall i | 0 <= i < |items| ensures items[i].node.id in ids {
      assert ids[i + 1] == items[i].node.id;
    }
    forall e | e in g.edges ensures e.source.node in ids && e.target.node in ids {
      FanEdgeAt(kind, head, items, tail, e);
    }
  }

  lemma {:induction false} FanClimbs(kind: PatternKind, head: Node, items: seq<Keyed>, tail: Node)
    requires Distinguished(head, items, tail)
    ensures Climbs(FanEdges(kind, head, items, tail), FanRank(head, tail))
  {
    hide FanEdges;
    forall e | e in FanEdges(kind, head, items, tail)
      ensures FanRank(head, tail)(e.source.node) < FanRank(head, tail)(e.target.node)
    {
      FanEdgeAt(kind, head, items, tail, e);
    }
  }

  lemma {:induction false} FanSteps(kind: PatternKind, head: Node, items: seq<Keyed>, tail: Node, n: NodeId)
    requires Distinguished(head, items, tail) && n in Ids(FanNodes(head, items, tail)) && n != head.id
    ensures HasStep(FanEdges(kind, head, items, tail), FanRank(head, tail), n)
  {
    hide IdOf;
    var edges := FanEdges(kind, head, items, tail);
    FanIds(head, items, tail);
    if n == tail.id {
      assert edges[|items|] in edges && edges[|items|].source.node == items[0].node.id;
    } else {
      var i :| 0 <= i < |items| && Ids(NodesOf(items))[i] == n;
      assert edges[i] in edges && edges[i].target.node == n;
    }
  }

  lemma {:induction false} FanGraded(kind: PatternKind, head: Node, items: seq<Keyed>, tail: Node, outputKey: Key,
      policies: Policies)
    requires items != [] && NoDup(Ids(FanNodes(head, items, tail)))
    ensures Graded(FanGraph(kind, head, items, tail, outputKey, policies), FanRank(head, tail))
    ensures Distinguished(head, items, tail)
  {
    hide FanEdges, FanNodes, WellIdentified, HasStep;
    IdsDistinguish(head, items, tail);
    FanIdentified(kind, head, items, tail, outputKey, policies);
    FanClimbs(kind, head, items, tail);
    forall n | n in Ids(FanNodes(head, items, tail)) && FanRank(head, tail)(n) > 0
      ensures HasStep(FanEdges(kind, head, items, tail), FanRank(head, tail), n)
    {
      FanSteps(kind, head, items, tail, n);
    }
  }

  function FanLayers(head: Node, items: seq<Keyed>, tail: Node): seq<seq<NodeId>> {
    [[head.id], Ids(NodesOf(items)), [tail.id]]
  }

  lemma {:induction false} KeepParts(a: seq<NodeId>, b: seq<NodeId>, c: seq<NodeId>, keep: set<NodeId>)
    ensures Keep(a + b + c, keep) == Keep(a, keep) + Keep(b, keep) + Keep(c, keep)
  {
    KeepConcat(a + b, c, keep);
    KeepConcat(a, b, keep);
  }

  lemma {:induction false} FanRanks(g: Graph, head: Node, items: seq<Keyed>, tail: Node, k: nat)
    requires Distinguished(head, items, tail) && g.nodes == FanNodes(head, items, tail)
    ensures var keep := OfRank(g, FanRank(head, tail), k);
            && (head.id in keep <==> k == 0) && (tail.id in keep <==> k == 2)
            && (forall n | n in Ids(NodesOf(items)) :: n in keep <==> k == 1)
            && (k >= 3 ==> keep == {})
  {
    var ids := Ids(g.nodes);
    FanIds(head, items, tail);
    assert ids[0] == head.id && ids[|items| + 1] == tail.id;
    forall n | n in Ids(NodesOf(items)) ensures n in ids && FanRank(head, tail)(n) == 1 {
      var i :| 0 <= i < |items| && Ids(NodesOf(items))[i] == n;
      assert ids[i + 1] == n;
    }
  }

  lemma {:induction false} KeepOne(a: seq<NodeId>, b: seq<NodeId>, c: seq<NodeId>, keep: set<NodeId>, inA: bool,
      inB: bool, inC: bool)
    requires forall n | n in a :: n in keep <==> inA
    requires forall n | n in b :: n in keep <==> inB
    requires forall n | n in c :: n in keep <==> inC
    ensures Keep(a + b + c, keep) == (if inA then a else []) + (if inB then b else []) + (if inC then c else [])
  {
    hide Keep;
    KeepParts(a, b, c, keep);
    KeepAll(a, keep);
    KeepAll(b, keep);
    KeepAll(c, keep);
  }

  lemma {:induction false} OnePart(a: seq<NodeId>, b: seq<NodeId>, c: seq<NodeId>, k: nat)
    ensures (if k == 0 then a else []) + (if k == 1 then b else []) + (if k == 2 then c else [])
         == if k == 0 then a else if k == 1 then b else if k == 2 then c else []
  {}

  lemma {:induction false} FanLayer(g: Graph, head: Node, items: seq<Keyed>, tail: Node, k: nat)
    requires Distinguished(head, items, tail) && g.nodes == FanNodes(head, items, tail)
    ensures Keep(Ids(g.nodes), OfRank(g, FanRank(head, tail), k)) == if k < 3 then FanLayers(head, items, tail)[k]
        else []
    ensures k >= 3 ==> OfRank(g, FanRank(head, tail), k) == {}
  {
    hide Keep, OfRank, FanRank, FanNodes, Distinguished;
    FanRanks(g, head, items, tail, k);
    FanIds(head, items, tail);
    var middle := Ids(NodesOf(items));
    KeepOne([head.id], middle, [tail.id], OfRank(g, FanRank(head, tail), k), k == 0, k == 1, k == 2);
    OnePart([head.id], middle, [tail.id], k);
  }

  lemma {:induction false} FanLayering(kind: PatternKind, head: Node, items: seq<Keyed>, tail: Node, outputKey: Key,
      policies: Policies)
    requires items != [] && NoDup(Ids(FanNodes(head, items, tail)))
    ensures IsLayering(FanGraph(kind, head, items, tail, outputKey, policies), FanLayers(head, items, tail))
  {
    hide Graded, IsLayering, FanNodes, FanEdges, OfRank, FanRank;
    var g, layers := FanGraph(kind, head, items, tail, outputKey, policies), FanLayers(head, items, tail);
    FanGraded(kind, head, items, tail, outputKey, policies);
    forall k: nat | k < 4
      ensures Keep(Ids(g.nodes), OfRank(g, FanRank(head, tail), k)) == if k < 3 then layers[k] else []
      ensures k >= 3 ==> OfRank(g, FanRank(head, tail), k) == {}
    {
      FanLayer(g, head, items, tail, k);
    }
    assert OfRank(g, FanRank(head, tail), 3) == {};
    GradedLayering(g, FanRank(head, tail), layers);
  }

  lemma {:induction false} ItemTargets(kind: PatternKind, items: seq<Keyed>, tail: Node, n: NodeId)
    requires NoDup(Ids(NodesOf(items)))
    ensures |Targets(InEdges(kind, items, tail), n)| <= 1
  {
    hide IdOf;
    var edges := InEdges(kind, items, tail);
    TargetsCount(edges, n);
    var at := LeavingAt(edges, n);
    if at != {} {
      var j :| j in at;
      assert Ids(NodesOf(items))[j] == n;
      forall i | i in at ensures i == j {
        assert Ids(NodesOf(items))[i] == n;
      }
      assert at == {j};
    }
  }

  // The head has as many targets as there are items, an item one, the tail none.
  lemma {:induction false} FanTargets(kind: PatternKind, head: Node, items: seq<Keyed>, tail: Node, n: NodeId)
    requires Distinguished(head, items, tail) && n in Ids(FanNodes(head, items, tail))
    ensures n == head.id ==> |Targets(FanEdges(kind, head, items, tail), n)| == |items|
    ensures n != head.id ==> |Targets(FanEdges(kind, head, items, tail), n)| <= 1
  {
    hide IdOf;
    var out, in_ := OutEdges(kind, head, items), InEdges(kind, items, tail);
    TargetsConcat(out, in_, n);
    TargetsOfOne(out, n);
    TargetsOfOne(in_, n);
    ItemTargets(kind, items, tail, n);
  }

  // The caller's policies leave room for n items between head and tail.
  predicate FanAllowed(n: nat, policies: Policies) {
    && (policies.maxFanOut.Some? ==> n <= policies.maxFanOut.value)
    && (policies.maxDepth.Some? ==> 3 <= policies.maxDepth.value)
  }

  // Compiled, the graph has three layers - head, items in key order, tail - and is valid
  // exactly when the caller's policies allow its fan-out and depth.
  lemma {:induction false} FanAccepted(kind: PatternKind, head: Node, items: seq<Keyed>, tail: Node, outputKey: Key,
      policies: Policies, c: Compilation)
    requires items != [] && NoDup(Ids(FanNodes(head, items, tail)))
    requires CompiledAs(FanGraph(kind, head, items, tail, outputKey, policies), c)
    ensures c.layers == FanLayers(head, items, tail)
    ensures c.valid <==> FanAllowed(|items|, policies)
    ensures |FanNodes(head, items, tail)| == |items| + 2 && |FanEdges(kind, head, items, tail)| == 2 * |items|
  {
    hide Graded, IsLayering, Targets, CompiledAs;
    var g := FanGraph(kind, head, items, tail, outputKey, policies);
    FanGraded(kind, head, items, tail, outputKey, policies);
    FanLayering(kind, head, items, tail, outputKey, policies);
    assert forall n :: FanRank(head, tail)(n) == 0 <==> n in g.entrypoints;
    GradedAccepted(g, FanRank(head, tail), FanLayers(head, items, tail), c);
    FanIds(head, items, tail);
    assert head.id in Ids(g.nodes);
    forall n | n in Ids(g.nodes)
      ensures n == head.id ==> |Targets(g.edges, n)| == |items|
      ensures n != head.id ==> |Targets(g.edges, n)| <= 1
    {
      FanTargets(kind, head, items, tail, n);
    }
  }

  // ---- What is built ---------------------------------------------------------------------------

  // The items by key.
  ghost predicate ByKey(items: seq<Keyed>, sorted: seq<Keyed>) {
    && multiset(sorted) == multiset(items)
    && forall i, j | 0 <= i < j < |sorted| :: Compare(sorted[i].key.text, sorted[j].key.text) < 0
  }

  ghost predicate FanOfNodes(nodes: seq<Node>, head: Node, sorted: seq<Keyed>, tail: Node) {
    && |nodes| == |sorted| + 2 && nodes[0] == head && nodes[|sorted| + 1] == tail
    && forall i | 0 <= i < |sorted| :: nodes[i + 1] == sorted[i].node
  }

  ghost predicate FanOfEdges(edges: seq<Edge>, head: Node, sorted: seq<Keyed>, tail: Node) {
    && |edges| == 2 * |sorted|
    && forall i | 0 <= i < |sorted| ::
         && Joins(edges[i], head.id, sorted[i].node.id, None)
         && Joins(edges[|sorted| + i], sorted[i].node.id, tail.id, Some(sorted[i].key.text))
  }

  // Head, the items and tail; an edge from head to each item, and one from each item to the port of
  // tail that bears its key.
  ghost predicate FansOut(kind: PatternKind, g: Graph, head: Node, sorted: seq<Keyed>, tail: Node) {
    && FanOfNodes(g.nodes, head, sorted, tail) && FanOfEdges(g.edges, head, sorted, tail) && Numbered(kind, g.edges)
  }

  lemma {:induction false} FanNodesAre(head: Node, items: seq<Keyed>, tail: Node)
    ensures FanOfNodes(FanNodes(head, items, tail), head, items, tail)
  {
    var nodes, middle := FanNodes(head, items, tail), NodesOf(items);
    assert |nodes| == |items| + 2 && nodes[0] == head && nodes[|items| + 1] == tail;
    forall i | 0 <= i < |items| ensures nodes[i + 1] == items[i].node {
      assert nodes[i + 1] == middle[i];
    }
  }

  lemma {:induction false} FanEdgesAre(kind: PatternKind, head: Node, items: seq<Keyed>, tail: Node)
    ensures FanOfEdges(FanEdges(kind, head, items, tail), head, items, tail)
    ensures Numbered(kind, FanEdges(kind, head, items, tail))
  {
    hide IdOf;
    var edges := FanEdges(kind, head, items, tail);
    forall i | 0 <= i < |items|
      ensures edges[i] == OutEdges(kind, head, items)[i] && edges[|items| + i] == InEdges(kind, items, tail)[i] {}
  }

  lemma {:induction false} FanFansOut(kind: PatternKind, head: Node, items: seq<Keyed>, tail: Node, outputKey: Key,
      policies: Policies)
    ensures FansOut(kind, FanGraph(kind, head, items, tail, outputKey, policies), head, items, tail)
  {
    hide IdOf, FanOfNodes, FanOfEdges, Numbered;
    FanNodesAre(head, items, tail);
    FanEdgesAre(kind, head, items, tail);
  }

  lemma {:induction false} FanSink(kind: PatternKind, head: Node, items: seq<Keyed>, tail: Node, n: NodeId)
    requires items != [] && NoDup(Ids(FanNodes(head, items, tail))) && n in Ids(FanNodes(head, items, tail))
    ensures (forall e | e in FanEdges(kind, head, items, tail) :: e.source.node != n) <==> n == tail.id
  {
    hide IdOf;
    var edges := FanEdges(kind, head, items, tail);
    IdsDistinguish(head, items, tail);
    FanIds(head, items, tail);
    if n == tail.id {
      forall e | e in edges ensures e.source.node != n {
        FanEdgeAt(kind, head, items, tail, e);
      }
    } else if n == head.id {
      assert edges[0] in edges;
    } else {
      var i :| 0 <= i < |items| && items[i].node.id == n;
      assert edges[|items| + i] in edges;
    }
  }

  lemma {:induction false} FanEnds(kind: PatternKind, head: Node, items: seq<Keyed>, tail: Node, outputKey: Key,
      policies: Policies)
    requires items != [] && NoDup(Ids(FanNodes(head, items, tail)))
    ensures EntersAndEnds(FanGraph(kind, head, items, tail, outputKey, policies), head.id, tail.id, outputKey.text)
  {
    hide IdOf, CompiledAs, FanAllowed, FanNodes, FanEdges;
    var g := FanGraph(kind, head, items, tail, outputKey, policies);
    forall c | CompiledAs(g, c) ensures c.layers == FanLayers(head, items, tail) {
      FanAccepted(kind, head, items, tail, outputKey, policies, c);
    }
    FanIds(head, items, tail);
    var ids := Ids(g.nodes);
    assert ids[0] == head.id && ids[|items| + 1] == tail.id;
    forall n | n in ids ensures (forall e | e in g.edges :: e.source.node != n) <==> n == tail.id {
      FanSink(kind, head, items, tail, n);
    }
  }

  lemma {:induction false} KeyedOrder(items: seq<Keyed>)
    requires NoDup(KeysOf(items))
    ensures OrderOn(KeyedLeq, items)
  {
    forall a, b | a in items && b in items ensures KeyedLeq(a, b) || KeyedLeq(b, a) {
      CompareIsTotalOrder(a.key.text, b.key.text, a.key.text);
    }
    forall a, b, c | a in items && b in items && c in items && KeyedLeq(a, b) && KeyedLeq(b, c) ensures KeyedLeq(a, c) {
      CompareIsTotalOrder(a.key.text, b.key.text, c.key.text);
    }
    forall a, b | a in items && b in items && KeyedLeq(a, b) && KeyedLeq(b, a) ensures a == b {
      CompareIsTotalOrder(a.key.text, b.key.text, a.key.text);
      var i :| 0 <= i < |items| && items[i] == a;
      var j :| 0 <= j < |items| && items[j] == b;
      assert KeysOf(items)[i] == KeysOf(items)[j];
    }
  }

  // Items with distinct keys are distinct, and told apart by them.
  lemma {:induction false} KeysOnce(items: seq<Keyed>)
    requires NoDup(KeysOf(items))
    ensures NoDup(items) && forall a, b | a in items && b in items && a.key == b.key :: a == b
  {
    forall i, j | 0 <= i < j < |items| ensures items[i] != items[j] {
      assert KeysOf(items)[i] != KeysOf(items)[j];
    }
    forall a, b | a in items && b in items && a.key == b.key ensures a == b {
      var i :| 0 <= i < |items| && items[i] == a;
      var j :| 0 <= j < |items| && items[j] == b;
      assert KeysOf(items)[i] == KeysOf(items)[j];
    }
  }

  lemma {:induction false} SortedByKey(items: seq<Keyed>)
    requires NoDup(KeysOf(items))
    ensures ByKey(items, Sort(items, KeyedLeq)) && |Sort(items, KeyedLeq)| == |items|
  {
    hide Sort, Compare;
    var sorted := Sort(items, KeyedLeq);
    KeyedOrder(items);
    SortSorted(items, KeyedLeq);
    assert |sorted| == |multiset(sorted)| == |multiset(items)| == |items|;
    KeysOnce(items);
    PermutationNoDup(items, sorted);
    SortMembers(items, KeyedLeq);
    forall i, j | 0 <= i < j < |sorted| ensures Compare(sorted[i].key.text, sorted[j].key.text) < 0 {
      CompareIsTotalOrder(sorted[i].key.text, sorted[j].key.text, sorted[i].key.text);
      assert sorted[i] in sorted && sorted[j] in sorted && KeyedLeq(sorted[i], sorted[j]);
    }
  }

  // The graph a fan constructor returns.
  ghost predicate IsFan(kind: PatternKind, g: Graph, head: Node, items: seq<Keyed>, tail: Node, outputKey: Key,
      policies: Policies) {
    && EntersAndEnds(g, head.id, tail.id, outputKey.text) && g.policies == policies
    && exists sorted :: ByKey(items, sorted) && FansOut(kind, g, head, sorted, tail)
  }

  lemma {:induction false} FanIs(kind: PatternKind, head: Node, items: seq<Keyed>, tail: Node, outputKey: Key,
      policies: Policies)
    requires items != [] && NoDup(KeysOf(items)) && NoDup(Ids(FanNodes(head, Sort(items, KeyedLeq), tail)))
    ensures IsFan(kind, FanGraph(kind, head, Sort(items, KeyedLeq), tail, outputKey, policies), head, items, tail,
              outputKey, policies)
  {
    hide EntersAndEnds, FansOut, ByKey, FanNodes, FanEdges;
    var sorted := Sort(items, KeyedLeq);
    SortedByKey(items);
    FanEnds(kind, head, sorted, tail, outputKey, policies);
    FanFansOut(kind, head, sorted, tail, outputKey, policies);
  }

  // ---- The constructor ------------------------------------------------------------------------

  ghost predicate FanInput(head: Node, items: seq<Keyed>, tail: Node, outputKey: Key) {
    && ValidNodeId(head.id) && ItemsOk(items) && ValidNodeId(tail.id) && SafeKey(outputKey)
    && NoDup(Ids(FanNodes(head, Sort(items, KeyedLeq), tail)))
  }

  // The fault that is reported for input that is refused.
  ghost predicate FanFault(head: Node, items: seq<Keyed>, tail: Node, outputKey: Key, e: PatternError) {
    if !ValidNodeId(head.id) then e == InvalidIdentifier
    else if !ItemsOk(items) then ItemsFault(items, e)
    else if !ValidNodeId(tail.id) then e == InvalidIdentifier
    else if !NoDup(Ids(FanNodes(head, Sort(items, KeyedLeq), tail))) then e == DuplicateNodeId
    else e == if SafeKey(outputKey) then CoreRejected else InvalidIdentifier
  }

  // `diamond`, `routedBranches` and `verifiedFanout`.
  method Fan(kind: PatternKind, head: Node, items: seq<Keyed>, tail: Node, outputKey: Key, policies: Policies)
    returns (r: Result<Graph, PatternError>)
    ensures r.Ok? <==> FanInput(head, items, tail, outputKey) && FanAllowed(|items|, policies)
    ensures r.Ok? ==> r.value == FanGraph(kind, head, Sort(items, KeyedLeq), tail, outputKey, policies)
    ensures r == Err(CoreRejected) <==> FanInput(head, items, tail, outputKey) && !FanAllowed(|items|, policies)
    ensures r.Err? ==> FanFault(head, items, tail, outputKey, r.error)
    ensures r.Ok? ==> IsFan(kind, r.value, head, items, tail, outputKey, policies)
  {
    hide IsFan, SafeKey, ValidNodeId, CompiledAs, FanNodes, FanEdges, FanAllowed, FanLayers, ItemsFault;
    if !ValidNodeId(head.id) {
      return Err(InvalidIdentifier);
    }
    var parsed := ParseKeyedNodes(items);
    if parsed.Err? {
      return Err(parsed.error);
    }
    if !ValidNodeId(tail.id) {
      return Err(InvalidIdentifier);
    }
    var sorted := parsed.value;
    var unique := UniqueNodeIds(FanNodes(head, sorted, tail));
    if !unique {
      return Err(DuplicateNodeId);
    }
    var edges := BuildEdges(kind, head, sorted, tail);
    FanIs(kind, head, items, tail, outputKey, policies);
    r := BuildGraph(Assemble(FanNodes(head, sorted, tail), edges, head.id, tail.id, outputKey, policies), outputKey);
    forall c | CompiledAs(FanGraph(kind, head, sorted, tail, outputKey, policies), c)
      ensures c.valid <==> FanAllowed(|items|, policies)
    {
      FanAccepted(kind, head, sorted, tail, outputKey, policies, c);
    }
  }

  lemma {:induction false} KeyedOrderSame(a: seq<Keyed>, b: seq<Keyed>)
    requires OrderOn(KeyedLeq, a) && forall x :: x in a <==> x in b
    ensures OrderOn(KeyedLeq, b)
  {
    hide KeyedLeq;
  }

  // The graph does not depend on the order in which the items were given.
  lemma {:induction false} OrderIrrelevant(a: seq<Keyed>, b: seq<Keyed>)
    requires multiset(a) == multiset(b) && NoDup(KeysOf(a))
    ensures Sort(a, KeyedLeq) == Sort(b, KeyedLeq)
  {
    SameMembers(a, b);
    KeyedOrder(a);
    KeyedOrderSame(a, b);
    SortSorted(a, KeyedLeq);
    SortSorted(b, KeyedLeq);
    SortMembers(a, KeyedLeq);
    SortedUnique(Sort(a, KeyedLeq), Sort(b, KeyedLeq), KeyedLeq);
  }
}
