/**
 The Python compiler's semantic phase: a second implementation, with edge lists for its
 index, a set for the next layer, a breadth-first search that marks nodes when they are
 queued, and a cycle report read off the in-degree counters. Both runtimes are shown to
 give the same verdict, layers, cycle nodes and portable findings.
 */
module PythonCompiler {
  import opened Wrappers
  import opened Sequences
  import opened Graphs
  import opened CompilerSpec
  import opened PythonFindings
  import Compiler

  datatype CompiledGraph = CompiledGraph(layers: seq<seq<NodeId>>, order: seq<NodeId>)

  datatype PythonCompilation = PythonCompilation(graph: Option<CompiledGraph>, findings: seq<Finding>)

  ghost predicate PythonCompiledAs(g: Graph, r: PythonCompilation) {
    && (r.graph.Some? <==> r.findings == [])
    && (r.graph.Some? ==> IsLayering(g, r.graph.value.layers) && r.graph.value.order == Flatten(r.graph.value.layers))
    && if !WellIdentified(g) then r.findings == IdentityFindings(g)
       else if CycleNodes(g) != [] then r.findings == [Portable(Cycle(CycleNodes(g)))]
       else exists layers :: IsLayering(g, layers) && r.findings == AllPortable(PolicyDiagnostics(g, |layers|))
  }

  // The two compilers agree on every graph.
  lemma {:induction false} CompilersAgree(g: Graph, ts: Compilation, py: PythonCompilation)
    requires CompiledAs(g, ts) && PythonCompiledAs(g, py)
    ensures ts.valid <==> py.graph.Some?
    ensures ts.valid ==> ts.layers == py.graph.value.layers
    ensures SameFindings(py.findings, ts.diagnostics)
    ensures WellIdentified(g) ==> py.findings == AllPortable(ts.diagnostics)
  {
    if !WellIdentified(g) {
      IdentityPhasesAgree(g);
      IdentityDiagnosticsExact(g);
    } else if CycleNodes(g) != [] {
      assert py.findings == AllPortable(ts.diagnostics);
      PortableFindings(ts.diagnostics);
    } else {
      var layers :| IsLayering(g, layers) && py.findings == AllPortable(PolicyDiagnostics(g, |layers|));
      LayeringUnique(g, layers, ts.layers);
      PortableFindings(ts.diagnostics);
      if py.graph.Some? {
        LayeringUnique(g, py.graph.value.layers, ts.layers);
      }
    }
  }

  // ---- Layers and the cycle report -------------------------------------------------

  // Each node's incoming and outgoing edges, in declaration order.
  ghost predicate IsIncoming(g: Graph, incoming: map<NodeId, seq<Edge>>) {
    forall n | n in Ids(g.nodes) :: n in incoming && incoming[n] == Into(g.edges, n)
  }

  ghost predicate IsOutgoing(g: Graph, outgoing: map<NodeId, seq<Edge>>) {
    forall n | n in Ids(g.nodes) :: n in outgoing && outgoing[n] == OutOf(g.edges, n)
  }

  ghost predicate Indexed(ids: seq<NodeId>, edges: seq<Edge>, incoming: map<NodeId, seq<Edge>>,
      outgoing: map<NodeId, seq<Edge>>) {
    && incoming.Keys == outgoing.Keys == Elems(ids)
    && (forall n | n in ids :: incoming[n] == Into(edges, n) && outgoing[n] == OutOf(edges, n))
  }

  lemma {:induction false} EndsInside(g: Graph)
    requires WellIdentified(g)
    ensures forall e | e in g.edges :: e.source.node in Ids(g.nodes) && e.target.node in Ids(g.nodes)
  {}

  lemma {:induction false} OneMoreEdge(edges: seq<Edge>, e: Edge, n: NodeId)
    ensures Into(edges + [e], n) == if e.target.node == n then Into(edges, n) + [e] else Into(edges, n)
    ensures OutOf(edges + [e], n) == if e.source.node == n then OutOf(edges, n) + [e] else OutOf(edges, n)
  {
    assert (edges + [e])[..|edges|] == edges;
  }

  lemma {:induction false} IndexOne(ids: seq<NodeId>, edges: seq<Edge>, e: Edge, incoming: map<NodeId, seq<Edge>>,
      outgoing: map<NodeId, seq<Edge>>)
    requires Indexed(ids, edges, incoming, outgoing) && e.source.node in ids && e.target.node in ids
    ensures e.target.node in incoming && e.source.node in outgoing
    ensures Indexed(ids, edges + [e], incoming[e.target.node := incoming[e.target.node] + [e]],
              outgoing[e.source.node := outgoing[e.source.node] + [e]])
  {
    hide Into, OutOf;
    var into := incoming[e.target.node := incoming[e.target.node] + [e]];
    var outOf := outgoing[e.source.node := outgoing[e.source.node] + [e]];
    assert into.Keys == incoming.Keys && outOf.Keys == outgoing.Keys;
    forall n | n in ids ensures into[n] == Into(edges + [e], n) && outOf[n] == OutOf(edges + [e], n) {
      OneMoreEdge(edges, e, n);
    }
  }

  lemma {:induction false} NothingIndexed(ids: seq<NodeId>)
    ensures Indexed(ids, [], map n | n in ids :: [], map n | n in ids :: [])
  {}

  lemma {:induction false} AllIndexed(g: Graph, incoming: map<NodeId, seq<Edge>>, outgoing: map<NodeId, seq<Edge>>)
    requires Indexed(Ids(g.nodes), g.edges, incoming, outgoing)
    ensures IsIncoming(g, incoming) && IsOutgoing(g, outgoing) && incoming.Keys == Elems(Ids(g.nodes))
  {
    hide Into, OutOf;
  }

  method IndexEdges(g: Graph) returns (incoming: map<NodeId, seq<Edge>>, outgoing: map<NodeId, seq<Edge>>)
    requires WellIdentified(g)
    ensures IsIncoming(g, incoming) && IsOutgoing(g, outgoing) && incoming.Keys == Elems(Ids(g.nodes))
  {
    hide Indexed, IsIncoming, IsOutgoing, WellIdentified;
    var ids := Ids(g.nodes);
    incoming := map n | n in ids :: [];
    outgoing := map n | n in ids :: [];
    NothingIndexed(ids);
    EndsInside(g);
    assert g.edges[..0] == [];
    for index := 0 to |g.edges|
      invariant Indexed(ids, g.edges[..index], incoming, outgoing)
    {
      var edge := g.edges[index];
      assert edge in g.edges;
      assert g.edges[..index + 1] == g.edges[..index] + [edge];
      IndexOne(ids, g.edges[..index], edge, incoming, outgoing);
      incoming := incoming[edge.target.node := incoming[edge.target.node] + [edge]];
      outgoing := outgoing[edge.source.node := outgoing[edge.source.node] + [edge]];
    }
    assert g.edges[..|g.edges|] == g.edges;
    AllIndexed(g, incoming, outgoing);
  }

  lemma {:induction false} IntoCount(edges: seq<Edge>, n: NodeId)
    ensures |Into(edges, n)| == Compiler.InCount(edges, {}, n)
  {
    if edges == [] {
    } else {
      IntoCount(edges[..|edges| - 1], n);
    }
  }

  // The start counters are the lengths of the incoming lists.
  lemma {:induction false} StartCounts(g: Graph, incoming: map<NodeId, seq<Edge>>)
    requires IsIncoming(g, incoming)
    ensures Compiler.CountsIncoming(g, map n | n in incoming :: |incoming[n]|, {})
  {
    forall n | n in Ids(g.nodes) ensures |incoming[n]| == Compiler.InCount(g.edges, {}, n) {
      IntoCount(g.edges, n);
    }
  }

  // The state between two layers: k layers are out and current holds the next one, in any order.
  ghost predicate Layering(g: Graph, layers: seq<seq<NodeId>>, visited: seq<NodeId>, current: seq<NodeId>) {
    && LayersSoFar(g, layers) && visited == Flatten(layers) && NoDup(visited)
    && NoDup(current) && Elems(current) == LevelSet(g, |layers|)
    && Compiler.ProcessedBelow(g, Elems(visited), |layers|)
  }

  // A set's elements in whatever order it is listed.
  method Listed(nodes: set<NodeId>) returns (s: seq<NodeId>)
    ensures NoDup(s) && Elems(s) == nodes
  {
    s := [];
    var rest := nodes;
    while rest != {}
      invariant NoDup(s) && rest <= nodes && Elems(s) == nodes - rest
    {
      var n :| n in rest;
      NoDupAppend(s, n);
      assert Elems(s + [n]) == Elems(s) + {n};
      s, rest := s + [n], rest - {n};
    }
  }

  lemma {:induction false} KeepElems(g: Graph, k: nat)
    ensures Elems(Layer(g, k)) == LevelSet(g, k)
    ensures Layer(g, k) == [] <==> LevelSet(g, k) == {}
  {
    if Layer(g, k) != [] {
      assert Layer(g, k)[0] in Layer(g, k);
    }
  }

  lemma {:induction false} StartLayering(g: Graph, counts: map<NodeId, int>)
    requires WellIdentified(g) && Compiler.CountsIncoming(g, counts, {})
    ensures Layering(g, [], [], Keep(Ids(g.nodes), Compiler.ZeroNodes(Ids(g.nodes), counts)))
    ensures Elems<NodeId>([]) == {}
  {
    Compiler.FirstLayer(g, counts);
    KeepNoDup(Ids(g.nodes), LevelSet(g, 0));
    KeepElems(g, 0);
    assert Elems<NodeId>([]) == {};
  }

  lemma {:induction false} EndLayering(g: Graph, layers: seq<seq<NodeId>>, visited: seq<NodeId>)
    requires WellIdentified(g) && Layering(g, layers, visited, [])
    ensures IsLayering(g, layers) && visited == Flatten(layers) && NoDup(visited)
    ensures LevelSet(g, |layers|) == {} && Compiler.ProcessedBelow(g, Elems(visited), |layers|)
  {
    KeepElems(g, |layers|);
    assert Elems<NodeId>([]) == {};
    AppendLayer(g, layers, []);
  }

  // Sorting the current nodes by declaration gives the next layer.
  lemma {:induction false} CurrentLayer(g: Graph, nodeOrder: map<NodeId, nat>, layers: seq<seq<NodeId>>,
      visited: seq<NodeId>, current: seq<NodeId>)
    requires Compiler.IndexOfAll(Ids(g.nodes), nodeOrder) && Layering(g, layers, visited, current) && current != []
    ensures Sort(current, Compiler.ByDeclaration(nodeOrder)) == Layer(g, |layers|) != []
    ensures LayersSoFar(g, layers) && visited == Flatten(layers) && NoDup(visited)
    ensures Compiler.ProcessedBelow(g, Elems(visited), |layers|) && NoDup(Layer(g, |layers|))
  {
    forall n | n in current ensures n in Ids(g.nodes) {
      assert n in Elems(current);
    }
    Compiler.SortIsKeep(Ids(g.nodes), nodeOrder, current);
    KeepNoDup(Ids(g.nodes), LevelSet(g, |layers|));
    assert current[0] in LevelSet(g, |layers|);
    assert current[0] in Layer(g, |layers|);
  }

  // After a layer was emitted and its edges removed, the listed nodes are the next layer's.
  lemma {:induction false} NextLayering(g: Graph, layers: seq<seq<NodeId>>, visited: seq<NodeId>, current: seq<NodeId>,
      before: set<NodeId>, layer: seq<NodeId>)
    requires |layers| > 0 && LayersSoFar(g, layers) && visited == Flatten(layers) && NoDup(visited)
    requires layer == Layer(g, |layers| - 1) != [] && Compiler.ProcessedBelow(g, before, |layers| - 1)
    requires Elems(visited) == before + Elems(layer)
    requires NoDup(current) && Elems(current) == LevelSet(g, |layers|)
    ensures Layering(g, layers, visited, current)
    ensures Elems(Ids(g.nodes)) - Elems(visited) < Elems(Ids(g.nodes)) - before
  {
    Compiler.LayerClosed(g, before, Elems(visited), layer, |layers| - 1);
    KeepElems(g, |layers| - 1);
    assert layer[0] in layer;
    assert layer[0] in Elems(Ids(g.nodes)) - before && layer[0] in Elems(visited);
  }

  // Nodes outside settled whose in-edges all come from processed.
  ghost function Freed(g: Graph, processed: set<NodeId>, settled: set<NodeId>): set<NodeId> {
    set n | n in Ids(g.nodes) && n !in settled && Compiler.InCount(g.edges, processed, n) == 0
  }

  lemma {:induction false} NoneFreed(g: Graph, done: set<NodeId>, layer: seq<NodeId>, k: nat)
    requires WellIdentified(g) && Compiler.ProcessedBelow(g, done, k) && layer == Layer(g, k)
    ensures Freed(g, done, done + Elems(layer)) == {} && Compiler.Cleared(g, done, done + Elems(layer))
    ensures forall n | n in layer :: n in Ids(g.nodes) && n !in done
  {
    Compiler.StartFrontier(g, done, layer, k);
  }

  lemma {:induction false} FreedIsLevel(g: Graph, done: set<NodeId>, layer: seq<NodeId>, k: nat)
    requires WellIdentified(g) && Compiler.ProcessedBelow(g, done, k) && layer == Layer(g, k)
    ensures Freed(g, done + Elems(layer), done + Elems(layer)) == LevelSet(g, k + 1)
  {
    var processed := done + Elems(layer);
    Compiler.LayerClosed(g, done, processed, layer, k);
    forall n | n in Ids(g.nodes)
      ensures n !in processed && Compiler.InCount(g.edges, processed, n) == 0 <==> Level(g.edges, n, k + 1)
    {
      Compiler.InCountDeep(g, processed, n, k + 1);
    }
  }

  // The targets so far are off their counters, and the set holds the open nodes at zero.
  ghost predicate Lowering(ids: seq<NodeId>, settled: set<NodeId>, counts: map<NodeId, int>, targets: seq<NodeId>,
      indegree: map<NodeId, int>, nextNodes: set<NodeId>) {
    && (forall n | n in ids :: n in counts && n in indegree && indegree[n] == counts[n] - multiset(targets)[n])
    && (forall n :: n in nextNodes <==> n in ids && n !in settled && indegree[n] == 0)
  }

  lemma {:induction false} LowerOne(ids: seq<NodeId>, settled: set<NodeId>, counts: map<NodeId, int>,
      targets: seq<NodeId>, indegree: map<NodeId, int>, nextNodes: set<NodeId>, t: NodeId)
    requires Lowering(ids, settled, counts, targets, indegree, nextNodes)
    requires t in ids && t !in settled && indegree[t] > 0
    ensures Lowering(ids, settled, counts, targets + [t], indegree[t := indegree[t] - 1],
              if indegree[t] == 1 then nextNodes + {t} else nextNodes)
  {
    assert multiset(targets + [t]) == multiset(targets) + multiset{t};
  }

  lemma {:induction false} StartLowering(g: Graph, processed: set<NodeId>, settled: set<NodeId>,
      counts: map<NodeId, int>, targets: seq<NodeId>)
    requires Compiler.CountsIncoming(g, counts, processed)
    ensures Lowering(Ids(g.nodes), settled, counts, targets[..0], counts, Freed(g, processed, settled))
  {}

  // What is still to come keeps a counter positive.
  lemma {:induction false} RestCounted(targets: seq<NodeId>, index: nat)
    requires index < |targets|
    ensures multiset(targets)[targets[index]] > multiset(targets[..index])[targets[index]]
  {
    assert targets[..index + 1] == targets[..index] + [targets[index]];
    assert targets == targets[..index + 1] + targets[index + 1..];
  }

  // A counter still has the targets to come on it.
  lemma {:induction false} PositiveLeft(g: Graph, processed: set<NodeId>, settled: set<NodeId>, v: NodeId,
      counts: map<NodeId, int>, targets: seq<NodeId>, index: nat, indegree: map<NodeId, int>, nextNodes: set<NodeId>)
    requires Compiler.CountsIncoming(g, counts, processed) && index < |targets| && targets[index] in Ids(g.nodes)
    requires forall n :: Compiler.InCount(g.edges, processed, n)
                      == Compiler.InCount(g.edges, processed + {v}, n) + multiset(targets)[n]
    requires Lowering(Ids(g.nodes), settled, counts, targets[..index], indegree, nextNodes)
    ensures targets[index] in indegree && indegree[targets[index]] > 0
    ensures targets[..index + 1] == targets[..index] + [targets[index]]
  {
    RestCounted(targets, index);
  }

  lemma {:induction false} EndLowering(g: Graph, processed: set<NodeId>, settled: set<NodeId>, v: NodeId,
      counts: map<NodeId, int>, targets: seq<NodeId>, indegree: map<NodeId, int>, nextNodes: set<NodeId>)
    requires Compiler.CountsIncoming(g, counts, processed) && Compiler.Cleared(g, processed, settled)
    requires forall n :: Compiler.InCount(g.edges, processed, n)
                      == Compiler.InCount(g.edges, processed + {v}, n) + multiset(targets)[n]
    requires Lowering(Ids(g.nodes), settled, counts, targets, indegree, nextNodes)
    ensures Compiler.CountsIncoming(g, indegree, processed + {v})
    ensures nextNodes == Freed(g, processed + {v}, settled) && Compiler.Cleared(g, processed + {v}, settled)
  {}

  method LowerTargets(g: Graph, edges: seq<Edge>, nodeId: NodeId, counts: map<NodeId, int>,
      ghost processed: set<NodeId>, ghost settled: set<NodeId>, before: set<NodeId>)
    returns (nextNodes: set<NodeId>, indegree: map<NodeId, int>)
    requires WellIdentified(g) && edges == OutOf(g.edges, nodeId) && nodeId !in processed
    requires Compiler.CountsIncoming(g, counts, processed) && before == Freed(g, processed, settled)
    requires Compiler.Cleared(g, processed, settled)
    ensures Compiler.CountsIncoming(g, indegree, processed + {nodeId})
    ensures nextNodes == Freed(g, processed + {nodeId}, settled)
    ensures Compiler.Cleared(g, processed + {nodeId}, settled)
  {
    hide WellIdentified, OutOf, Compiler.CountsIncoming, Compiler.Cleared, Freed, Lowering, Compiler.InCount;
    ghost var ids, targets := Ids(g.nodes), TargetNodes(edges);
    TargetsOfOutgoing(g.edges, nodeId);
    Compiler.RemoveNode(g, targets, nodeId, processed, settled);
    nextNodes, indegree := before, counts;
    StartLowering(g, processed, settled, counts, targets);
    for index := 0 to |edges|
      invariant Lowering(ids, settled, counts, targets[..index], indegree, nextNodes)
    {
      var target := edges[index].target.node;
      assert target == targets[index] && target in targets;
      PositiveLeft(g, processed, settled, nodeId, counts, targets, index, indegree, nextNodes);
      LowerOne(ids, settled, counts, targets[..index], indegree, nextNodes, target);
      indegree := indegree[target := indegree[target] - 1];
      if indegree[target] == 0 {
        nextNodes := nextNodes + {target};
      }
    }
    assert targets[..|targets|] == targets;
    EndLowering(g, processed, settled, nodeId, counts, targets, indegree, nextNodes);
  }

  // Lower the counters of the layer's targets and collect those that reach zero.
  method LowerLayer(g: Graph, outgoing: map<NodeId, seq<Edge>>, layer: seq<NodeId>, counts: map<NodeId, int>,
      ghost done: set<NodeId>, ghost k: nat)
    returns (nextNodes: set<NodeId>, indegree: map<NodeId, int>)
    requires WellIdentified(g) && IsOutgoing(g, outgoing) && Compiler.CountsIncoming(g, counts, done)
    requires Compiler.ProcessedBelow(g, done, k) && layer == Layer(g, k) && NoDup(layer)
    ensures Compiler.CountsIncoming(g, indegree, done + Elems(layer))
    ensures nextNodes == LevelSet(g, k + 1)
  {
    hide Compiler.CountsIncoming, Compiler.ProcessedBelow, Compiler.Cleared, Freed, Layer, LevelSet, WellIdentified;
    nextNodes, indegree := {}, counts;
    ghost var settled := done + Elems(layer);
    ghost var processed := done;
    NoneFreed(g, done, layer, k);
    for index := 0 to |layer|
      invariant processed == done + Elems(layer[..index])
      invariant Compiler.CountsIncoming(g, indegree, processed)
      invariant nextNodes == Freed(g, processed, settled)
      invariant Compiler.Cleared(g, processed, settled)
    {
      var nodeId := layer[index];
      ElemsTakeNext(layer, index);
      nextNodes, indegree := LowerTargets(g, outgoing[nodeId], nodeId, indegree, processed, settled, nextNodes);
      processed := processed + {nodeId};
    }
    assert layer[..|layer|] == layer;
    FreedIsLevel(g, done, layer, k);
  }

  lemma {:induction false} AppendVisited(g: Graph, visited: seq<NodeId>, layer: seq<NodeId>, k: nat)
    requires WellIdentified(g) && NoDup(visited) && Compiler.ProcessedBelow(g, Elems(visited), k)
        && layer == Layer(g, k)
    ensures NoDup(visited + layer) && Elems(visited + layer) == Elems(visited) + Elems(layer)
  {
    KeepNoDup(Ids(g.nodes), LevelSet(g, k));
    NoDupConcat(visited, layer);
  }

  lemma {:induction false} EmitLayer(g: Graph, done: seq<seq<NodeId>>, seen: seq<NodeId>, layer: seq<NodeId>)
    requires WellIdentified(g) && LayersSoFar(g, done) && seen == Flatten(done) && NoDup(seen)
    requires layer == Layer(g, |done|) != [] && Compiler.ProcessedBelow(g, Elems(seen), |done|)
    ensures LayersSoFar(g, done + [layer]) && seen + layer == Flatten(done + [layer]) && NoDup(seen + layer)
    ensures Elems(seen + layer) == Elems(seen) + Elems(layer)
  {
    AppendLayer(g, done, layer);
    AppendVisited(g, seen, layer, |done|);
    FlattenAppend(done, layer);
  }

  // When no layer is left, a counter is positive exactly downstream of a cycle.
  lemma {:induction false} LeftoverCounts(g: Graph, indegree: map<NodeId, int>, processed: set<NodeId>, k: nat)
    requires WellIdentified(g) && LevelSet(g, k) == {} && Compiler.ProcessedBelow(g, processed, k)
    requires Compiler.CountsIncoming(g, indegree, processed)
    ensures forall n | n in Ids(g.nodes) :: n in indegree && (indegree[n] > 0 <==> DownstreamOfCycle(g.edges, n))
  {
    forall n | n in Ids(g.nodes) ensures indegree[n] > 0 <==> DownstreamOfCycle(g.edges, n) {
      Compiler.InCountDeep(g, processed, n, k);
      StuckIffCycle(g, n, k);
      if Deep(g.edges, n, k + 1) { DeepDown(g.edges, n, k + 1, k); }
      assert n !in LevelSet(g, k);
    }
  }

  // All nodes were visited exactly when nothing is downstream of a cycle.
  lemma {:induction false} VisitedAll(g: Graph, visited: seq<NodeId>, processed: set<NodeId>, k: nat)
    requires WellIdentified(g) && LevelSet(g, k) == {} && Compiler.ProcessedBelow(g, processed, k)
    requires NoDup(visited) && Elems(visited) == processed
    ensures |visited| == |g.nodes| <==> CycleNodes(g) == []
  {
    var ids := Ids(g.nodes);
    forall n | n in ids ensures n in processed <==> !DownstreamOfCycle(g.edges, n) {
      StuckIffCycle(g, n, k);
    }
    NoDupCardinality(visited);
    NoDupCardinality(ids);
    SubsetCardinality(processed, Elems(ids));
    CycleNodesExact(g);
    assert processed == Elems(ids) <==> forall n | n in ids :: n in processed;
  }

  method KahnLayers(g: Graph, nodeOrder: map<NodeId, nat>, outgoing: map<NodeId, seq<Edge>>, counts: map<NodeId, int>)
    returns (layers: seq<seq<NodeId>>, visited: seq<NodeId>, indegree: map<NodeId, int>)
    requires WellIdentified(g) && Compiler.IndexOfAll(Ids(g.nodes), nodeOrder)
    requires IsOutgoing(g, outgoing) && Compiler.CountsIncoming(g, counts, {})
    ensures IsLayering(g, layers) && visited == Flatten(layers)
    ensures forall n | n in Ids(g.nodes) :: n in indegree && (indegree[n] > 0 <==> DownstreamOfCycle(g.edges, n))
    ensures |visited| == |g.nodes| <==> CycleNodes(g) == []
  {
    hide WellIdentified, Layering, IsLayering, Compiler.IndexOfAll, IsOutgoing, Compiler.CountsIncoming,
         Compiler.ZeroNodes, Compiler.ProcessedBelow, LayersSoFar, Layer, LevelSet, DownstreamOfCycle, CycleNodes, Keep,
         NoDup, Sort;
    var ids := Ids(g.nodes);
    indegree := counts;
    var current := Keep(ids, Compiler.ZeroNodes(ids, indegree));
    layers, visited := [], [];
    StartLayering(g, indegree);
    while current != []
      invariant Layering(g, layers, visited, current)
      invariant Compiler.CountsIncoming(g, indegree, Elems(visited))
      decreases |Elems(ids) - Elems(visited)|
    {
      ghost var before, k := Elems(visited), |layers|;
      var layer := Sort(current, Compiler.ByDeclaration(nodeOrder));
      CurrentLayer(g, nodeOrder, layers, visited, current);
      EmitLayer(g, layers, visited, layer);
      layers, visited := layers + [layer], visited + layer;
      var nextNodes;
      nextNodes, indegree := LowerLayer(g, outgoing, layer, indegree, before, k);
      current := Listed(nextNodes);
      NextLayering(g, layers, visited, current, before, layer);
      SubsetCardinality(Elems(ids) - Elems(visited), Elems(ids) - before);
    }
    EndLayering(g, layers, visited);
    LeftoverCounts(g, indegree, Elems(visited), |layers|);
    VisitedAll(g, visited, Elems(visited), |layers|);
  }

  // ---- Reachability: a node is marked when it is queued --------------------------------

  ghost predicate Closing(g: Graph, expanded: set<NodeId>, reachable: set<NodeId>) {
    forall n, t | n in expanded && Arc(g.edges, n, t) :: t in reachable
  }

  // Marked nodes are those expanded and those still queued; expanded nodes' targets are marked.
  ghost predicate Searching(g: Graph, expanded: set<NodeId>, queue: seq<NodeId>, reachable: set<NodeId>) {
    && Elems(g.entrypoints) <= reachable <= Elems(Ids(g.nodes))
    && (forall n | n in reachable :: FromEntrypoint(g, n))
    && reachable == expanded + Elems(queue)
    && Closing(g, expanded, reachable)
  }

  lemma {:induction false} SearchStart(g: Graph)
    requires WellIdentified(g)
    ensures Searching(g, {}, g.entrypoints, Elems(g.entrypoints))
  {
    forall n | n in g.entrypoints ensures FromEntrypoint(g, n) { Compiler.ReachesSelf(g, n); }
  }

  lemma {:induction false} SearchEnd(g: Graph, expanded: set<NodeId>, reachable: set<NodeId>)
    requires Searching(g, expanded, [], reachable)
    ensures forall n :: n in reachable <==> FromEntrypoint(g, n)
  {
    assert Elems<NodeId>([]) == {};
    Compiler.Saturated(g, reachable, Elems(g.entrypoints));
  }

  lemma {:induction false} SearchStep(g: Graph, expanded: set<NodeId>, n: NodeId, before: set<NodeId>,
      after: set<NodeId>)
    requires Closing(g, expanded, before) && before <= after
    requires forall t | Arc(g.edges, n, t) :: t in after
    ensures Closing(g, expanded + {n}, after)
  {}

  lemma {:induction false} ElemsHead<T>(s: seq<T>)
    requires s != []
    ensures Elems(s) == {s[0]} + Elems(s[1..])
  {
    assert s == [s[0]] + s[1..];
  }

  method MarkTargets(g: Graph, edges: seq<Edge>, nodeId: NodeId, marked: set<NodeId>,
                     waiting: seq<NodeId>, ghost expanded: set<NodeId>)
    returns (reachable: set<NodeId>, queue: seq<NodeId>)
    requires WellIdentified(g) && edges == OutOf(g.edges, nodeId)
    requires nodeId in marked && marked == expanded + Elems(waiting) && marked <= Elems(Ids(g.nodes))
    requires forall n | n in marked :: FromEntrypoint(g, n)
    ensures marked <= reachable <= Elems(Ids(g.nodes))
    ensures reachable == expanded + Elems(queue)
    ensures forall n | n in reachable :: FromEntrypoint(g, n)
    ensures forall t | Arc(g.edges, nodeId, t) :: t in reachable
    ensures reachable == marked ==> queue == waiting
  {
    hide WellIdentified, FromEntrypoint, OutOf;
    reachable, queue := marked, waiting;
    EndsInside(g);
    for index := 0 to |edges|
      invariant marked <= reachable <= Elems(Ids(g.nodes))
      invariant reachable == expanded + Elems(queue)
      invariant forall n | n in reachable :: FromEntrypoint(g, n)
      invariant forall i | 0 <= i < index :: edges[i].target.node in reachable
      invariant reachable == marked ==> queue == waiting
    {
      var target := edges[index].target.node;
      assert edges[index] in edges;
      if target !in reachable {
        Compiler.FromEntrypointStep(g, nodeId, target);
        reachable := reachable + {target};
        queue := queue + [target];
      }
    }
    forall t | Arc(g.edges, nodeId, t) ensures t in reachable {
      var e :| e in g.edges && e.source.node == nodeId && e.target.node == t;
      assert e in edges;
    }
  }

  // Take the first waiting node and mark its targets.
  method Expand(g: Graph, outgoing: map<NodeId, seq<Edge>>, marked: set<NodeId>, waiting: seq<NodeId>,
      ghost done: set<NodeId>)
    returns (reachable: set<NodeId>, queue: seq<NodeId>, ghost expanded: set<NodeId>)
    requires WellIdentified(g) && IsOutgoing(g, outgoing)
    requires waiting != [] && Searching(g, done, waiting, marked)
    ensures Searching(g, expanded, queue, reachable) && marked <= reachable
    ensures reachable == marked ==> |queue| < |waiting|
  {
    var nodeId := waiting[0];
    ElemsHead(waiting);
    expanded := done + {nodeId};
    reachable, queue := MarkTargets(g, outgoing[nodeId], nodeId, marked, waiting[1..], expanded);
    SearchStep(g, done, nodeId, marked, reachable);
  }

  method ReachableFrom(g: Graph, outgoing: map<NodeId, seq<Edge>>) returns (reachable: set<NodeId>)
    requires WellIdentified(g) && IsOutgoing(g, outgoing)
    ensures forall n :: n in reachable <==> FromEntrypoint(g, n)
  {
    var ids := Elems(Ids(g.nodes));
    reachable := Elems(g.entrypoints);
    var queue := g.entrypoints;
    ghost var expanded: set<NodeId> := {};
    SearchStart(g);
    while queue != []
      invariant Searching(g, expanded, queue, reachable)
      decreases |ids - reachable|, |queue|
    {
      ghost var before := reachable;
      reachable, queue, expanded := Expand(g, outgoing, reachable, queue, expanded);
      RestShrinks(ids, before, reachable);
    }
    SearchEnd(g, expanded, reachable);
  }

  // ---- Policies -----------------------------------------------------------------------------

  lemma {:induction false} DepthPortable(g: Graph, depth: nat)
    ensures AllPortable(DepthProblems(g, depth)) ==
            if g.policies.maxDepth.Some? && depth > g.policies.maxDepth.value then [Finding(GE1102, [], None, None)]
                else []
  {}

  lemma {:induction false} EntryInside(g: Graph, index: nat)
    requires WellIdentified(g) && index < |g.entrypoints|
    ensures g.entrypoints[index] in Ids(g.nodes)
  {}

  lemma {:induction false} IncomingAt(g: Graph, index: nat)
    requires index < |g.entrypoints|
    ensures AllPortable(IncomingProblems(g.edges, g.entrypoints)(index)) ==
              if exists e :: e in g.edges && e.target.node == g.entrypoints[index]
              then [NodeFinding(GE1010, g.entrypoints[index])] else []
  {}

  lemma {:induction false} HasIncomingEdges(g: Graph, edges: seq<Edge>, n: NodeId)
    requires edges == Into(g.edges, n)
    ensures edges != [] <==> exists e :: e in g.edges && e.target.node == n
  {
    if edges != [] { assert edges[0] in edges; }
    if exists e :: e in g.edges && e.target.node == n {
      var e :| e in g.edges && e.target.node == n;
      assert e in edges;
    }
  }

  lemma {:induction false} IncomingNext(g: Graph, incoming: map<NodeId, seq<Edge>>, index: nat)
    requires WellIdentified(g) && IsIncoming(g, incoming) && index < |g.entrypoints|
    ensures g.entrypoints[index] in incoming
    ensures AllPortable(Collect(index + 1, IncomingProblems(g.edges, g.entrypoints))) ==
              AllPortable(Collect(index, IncomingProblems(g.edges, g.entrypoints)))
              + if incoming[g.entrypoints[index]] != [] then [NodeFinding(GE1010, g.entrypoints[index])] else []
  {
    hide AllPortable, Collect, WellIdentified, IncomingProblems, Into;
    var at := IncomingProblems(g.edges, g.entrypoints);
    EntryInside(g, index);
    HasIncomingEdges(g, incoming[g.entrypoints[index]], g.entrypoints[index]);
    CollectNext(index, at);
    AllPortableAppend(Collect(index, at), at(index));
    IncomingAt(g, index);
  }

  method CheckIncoming(g: Graph, incoming: map<NodeId, seq<Edge>>) returns (findings: seq<Finding>)
    requires WellIdentified(g) && IsIncoming(g, incoming)
    ensures findings == AllPortable(Collect(|g.entrypoints|, IncomingProblems(g.edges, g.entrypoints)))
  {
    hide WellIdentified, IsIncoming, IncomingProblems, Collect, AllPortable;
    CollectNone(IncomingProblems(g.edges, g.entrypoints));
    AllPortableNone();
    findings := [];
    for index := 0 to |g.entrypoints|
      invariant findings == AllPortable(Collect(index, IncomingProblems(g.edges, g.entrypoints)))
    {
      IncomingNext(g, incoming, index);
      if incoming[g.entrypoints[index]] != [] {
        findings := findings + [NodeFinding(GE1010, g.entrypoints[index])];
      }
    }
  }

  method CheckReachability(g: Graph, reachable: set<NodeId>) returns (findings: seq<Finding>)
    requires forall n :: n in reachable <==> FromEntrypoint(g, n)
    ensures findings == AllPortable(Collect(|g.nodes|, ReachProblems(g)))
  {
    findings := [];
    for index := 0 to |g.nodes|
      invariant findings == AllPortable(Collect(index, ReachProblems(g)))
    {
      AllPortableAppend(Collect(index, ReachProblems(g)), ReachProblems(g)(index));
      if g.nodes[index].id !in reachable {
        findings := findings + [NodeFinding(GE1006, g.nodes[index].id)];
      }
    }
  }

  lemma {:induction false} FanOutNext(g: Graph, outgoing: map<NodeId, seq<Edge>>, index: nat)
    requires IsOutgoing(g, outgoing) && g.policies.maxFanOut.Some? && index < |g.nodes|
    ensures g.nodes[index].id in outgoing
    ensures AllPortable(Collect(index + 1, FanOutProblems(g))) ==
              AllPortable(Collect(index, FanOutProblems(g)))
              + if |outgoing[g.nodes[index].id]| > g.policies.maxFanOut.value
                then [NodeFinding(GE1101, g.nodes[index].id)] else []
  {
    var nodeId := g.nodes[index].id;
    assert Ids(g.nodes)[index] == nodeId;
    AllPortableAppend(Collect(index, FanOutProblems(g)), FanOutProblems(g)(index));
    TargetsOfOutgoing(g.edges, nodeId);
  }

  method CheckFanOut(g: Graph, outgoing: map<NodeId, seq<Edge>>) returns (findings: seq<Finding>)
    requires IsOutgoing(g, outgoing)
    ensures findings == AllPortable(Collect(|g.nodes|, FanOutProblems(g)))
  {
    findings := [];
    if g.policies.maxFanOut.Some? {
      for index := 0 to |g.nodes|
        invariant findings == AllPortable(Collect(index, FanOutProblems(g)))
      {
        var nodeId := g.nodes[index].id;
        FanOutNext(g, outgoing, index);
        if |outgoing[nodeId]| > g.policies.maxFanOut.value {
          findings := findings + [NodeFinding(GE1101, nodeId)];
        }
      }
    } else {
      CollectEmpty(|g.nodes|, FanOutProblems(g));
    }
  }

  method CheckPolicies(g: Graph, incoming: map<NodeId, seq<Edge>>, outgoing: map<NodeId, seq<Edge>>, depth: nat)
    returns (findings: seq<Finding>)
    requires WellIdentified(g) && IsIncoming(g, incoming) && IsOutgoing(g, outgoing)
    ensures findings == AllPortable(PolicyDiagnostics(g, depth))
  {
    hide WellIdentified, IsOutgoing, IsIncoming, Collect, IncomingProblems, ReachProblems, FanOutProblems,
         DepthProblems, FromEntrypoint, AllPortable;
    var entries := CheckIncoming(g, incoming);
    var reachable := ReachableFrom(g, outgoing);
    var unreachable := CheckReachability(g, reachable);
    var fanOut := CheckFanOut(g, outgoing);
    findings := entries + unreachable + fanOut;
    if g.policies.maxDepth.Some? && depth > g.policies.maxDepth.value {
      findings := findings + [Finding(GE1102, [], None, None)];
    }
    var a := Collect(|g.entrypoints|, IncomingProblems(g.edges, g.entrypoints));
    var b := Collect(|g.nodes|, ReachProblems(g));
    var c := Collect(|g.nodes|, FanOutProblems(g));
    AllPortableAppend(a + b + c, DepthProblems(g, depth));
    AllPortableAppend(a + b, c);
    AllPortableAppend(a, b);
    DepthPortable(g, depth);
  }

  // ---- The compiler ----------------------------------------------------------------------------

  method PositiveCounts(g: Graph, indegree: map<NodeId, int>) returns (cycleNodes: seq<NodeId>)
    requires forall n | n in Ids(g.nodes) :: n in indegree && (indegree[n] > 0 <==> DownstreamOfCycle(g.edges, n))
    ensures cycleNodes == CycleNodes(g)
  {
    var ids := Ids(g.nodes);
    cycleNodes := Keep(ids, set n | n in ids && indegree[n] > 0);
    assert (set n | n in ids && indegree[n] > 0) == set n | n in ids && DownstreamOfCycle(g.edges, n);
  }

  lemma {:induction false} IdsDistinct(g: Graph)
    requires WellIdentified(g)
    ensures NoDup(Ids(g.nodes))
  {}

  method CompileIdentified(g: Graph) returns (r: PythonCompilation)
    requires WellIdentified(g)
    ensures PythonCompiledAs(g, r)
  {
    hide WellIdentified, IsIncoming, IsOutgoing, Compiler.CountsIncoming, IsLayering, CycleNodes, DownstreamOfCycle,
         PolicyDiagnostics, AllPortable, Keep;
    IdsDistinct(g);
    var ids := Ids(g.nodes);
    var nodeOrder := map index | 0 <= index < |ids| :: ids[index] := index as nat;
    var incoming, outgoing := IndexEdges(g);
    var indegree := map n | n in incoming :: |incoming[n]| as int;
    StartCounts(g, incoming);
    var layers, visited;
    layers, visited, indegree := KahnLayers(g, nodeOrder, outgoing, indegree);
    if |visited| != |g.nodes| {
      var cycleNodes := PositiveCounts(g, indegree);
      return PythonCompilation(None, [Finding(GE1005, cycleNodes, None, None)]);
    }
    var findings := CheckPolicies(g, incoming, outgoing, |layers|);
    if findings != [] {
      return PythonCompilation(None, findings);
    }
    return PythonCompilation(Some(CompiledGraph(layers, visited)), []);
  }

  method TryCompileGraph(g: Graph) returns (r: PythonCompilation)
    ensures PythonCompiledAs(g, r)
  {
    var findings := CheckIdentities(g);
    IdentityPhasesAgree(g);
    if findings != [] {
      return PythonCompilation(None, findings);
    }
    r := CompileIdentified(g);
  }
}
