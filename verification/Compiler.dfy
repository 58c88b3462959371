/**
 The TypeScript compiler's semantic phase: identity checks, Kahn layering over
 in-degree counters, the entrypoint check, breadth-first reachability and policies.
 Every loop is proved against the path-based specification.
 */
module Compiler {
  import opened Sequences
  import opened Text
  import opened Graphs
  import opened CompilerSpec

  const MAX_SAFE_INTEGER: int := 0x1F_FFFF_FFFF_FFFF

  // ---- Counting incoming edges ------------------------------------------------

  // Edges into n whose source has not been removed, with multiplicity.
  ghost function InCount(edges: seq<Edge>, removed: set<NodeId>, n: NodeId): nat {
    if edges == [] then 0
    else
      var last := edges[|edges| - 1];
      InCount(edges[..|edges| - 1], removed, n)
      + if last.target.node == n && last.source.node !in removed then 1 else 0
  }

  lemma {:induction false} InCountZero(edges: seq<Edge>, removed: set<NodeId>, n: NodeId)
    ensures InCount(edges, removed, n) == 0
       <==> forall e | e in edges && e.target.node == n :: e.source.node in removed
  {
    if edges == [] {
    } else {
      var front, last := edges[..|edges| - 1], edges[|edges| - 1];
      assert edges == front + [last];
      InCountZero(front, removed, n);
    }
  }

  // Removing v lowers the count of n by the number of edges from v to n.
  lemma {:induction false} InCountRemove(edges: seq<Edge>, removed: set<NodeId>, v: NodeId, n: NodeId)
    requires v !in removed
    ensures InCount(edges, removed, n) == InCount(edges, removed + {v}, n) + multiset(Targets(edges, v))[n]
  {
    if edges == [] {
    } else {
      InCountRemove(edges[..|edges| - 1], removed, v, n);
    }
  }

  lemma {:induction false} TargetsAreArcs(edges: seq<Edge>, v: NodeId)
    ensures forall n :: n in Targets(edges, v) <==> Arc(edges, v, n)
  {
    if edges == [] {
    } else {
      var front, last := edges[..|edges| - 1], edges[|edges| - 1];
      assert edges == front + [last];
      TargetsAreArcs(front, v);
      forall n ensures Arc(edges, v, n) <==> Arc(front, v, n) || (last.source.node == v && last.target.node == n) {}
    }
  }

  // All in-edges come from nodes without walks of k edges iff there is no walk of k + 1 edges.
  lemma {:induction false} InCountDeep(g: Graph, removed: set<NodeId>, n: NodeId, k: nat)
    requires WellIdentified(g) && n in Ids(g.nodes)
    requires forall m | m in Ids(g.nodes) :: m in removed <==> !Deep(g.edges, m, k)
    ensures InCount(g.edges, removed, n) == 0 <==> !Deep(g.edges, n, k + 1)
  {
    InCountZero(g.edges, removed, n);
    if Deep(g.edges, n, k + 1) {
      var a := DeepPredecessor(g.edges, n, k);
      assert exists e :: e in g.edges && e.target.node == n && e.source.node == a;
    } else {
      forall e | e in g.edges && e.target.node == n ensures e.source.node in removed {
        assert Arc(g.edges, e.source.node, n);
        if Deep(g.edges, e.source.node, k) { DeepStep(g.edges, e.source.node, n, k); }
      }
    }
  }

  function CountOf(counts: map<NodeId, int>, n: NodeId): int {
    if n in counts then counts[n] else 0
  }

  // Lowering a counter for each listed target, in order; those that reach zero are listed.
  function Lower(targets: seq<NodeId>, counts: map<NodeId, int>, out: seq<NodeId>): (map<NodeId, int>, seq<NodeId>) {
    if targets == [] then (counts, out)
    else
      var last := targets[|targets| - 1];
      var (lowered, reached) := Lower(targets[..|targets| - 1], counts, out);
      var next := CountOf(lowered, last) - 1;
      (lowered[last := next], if next == 0 then reached + [last] else reached)
  }

  lemma {:induction false} LowerMeans(ids: seq<NodeId>, targets: seq<NodeId>, counts: map<NodeId, int>,
                                      settled: set<NodeId>, out: seq<NodeId>)
    requires forall n | n in ids :: n in counts && counts[n] >= multiset(targets)[n]
    requires forall t | t in targets :: t in ids && t !in settled
    requires NoDup(out) && forall n :: n in out <==> n in ids && n !in settled && counts[n] == 0
    ensures var (lowered, reached) := Lower(targets, counts, out);
            && (forall n | n in ids :: n in lowered && lowered[n] == counts[n] - multiset(targets)[n])
            && NoDup(reached) && forall n :: n in reached <==> n in ids && n !in settled && lowered[n] == 0
  {
    if targets == [] {
    } else {
      var front, last := targets[..|targets| - 1], targets[|targets| - 1];
      assert targets == front + [last];
      assert multiset(targets) == multiset(front) + multiset{last};
      LowerMeans(ids, front, counts, settled, out);
      var (lowered, reached) := Lower(front, counts, out);
      assert lowered[last] > 0;
      NoDupAppend(reached, last);
    }
  }

  // ---- Sorting by declaration ---------------------------------------------------

  function Declared(index: map<NodeId, nat>, n: NodeId): int {
    if n in index then index[n] else MAX_SAFE_INTEGER
  }

  function ByDeclaration(index: map<NodeId, nat>): (NodeId, NodeId) -> bool {
    (a, b) => Declared(index, a) < Declared(index, b)
           || (Declared(index, a) == Declared(index, b) && TextLeq(a.text, b.text))
  }

  ghost predicate IndexOfAll(ids: seq<NodeId>, index: map<NodeId, nat>) {
    && NoDup(ids)
    && (forall i | 0 <= i < |ids| :: ids[i] in index && index[ids[i]] == i)
  }

  lemma {:induction false} KeepInOrder(ids: seq<NodeId>, index: map<NodeId, nat>, keep: set<NodeId>, k: nat)
    requires IndexOfAll(ids, index) && k <= |ids|
    ensures Sorted(ByDeclaration(index), Keep(ids[..k], keep))
  {
    if k == 0 {
    } else {
      KeepInOrder(ids, index, keep, k - 1);
      assert ids[..k][..k - 1] == ids[..k - 1];
      var front := Keep(ids[..k - 1], keep);
      forall i | 0 <= i < |front| ensures ByDeclaration(index)(front[i], ids[k - 1]) {
        assert front[i] in front;
        var j :| 0 <= j < k - 1 && ids[..k - 1][j] == front[i];
        assert Declared(index, front[i]) == j && Declared(index, ids[k - 1]) == k - 1;
      }
    }
  }

  // Sorting distinct declared nodes by declaration is filtering the declaration order.
  lemma {:induction false} SortIsKeep(ids: seq<NodeId>, index: map<NodeId, nat>, s: seq<NodeId>)
    requires IndexOfAll(ids, index) && NoDup(s) && forall n | n in s :: n in ids
    ensures Sort(s, ByDeclaration(index)) == Keep(ids, Elems(s))
  {
    var leq := ByDeclaration(index);
    var kept := Keep(ids, Elems(s));
    forall a, b | a in ids && b in ids && leq(a, b) && leq(b, a) ensures a == b {
      assert index[a] == index[b];
    }
    SortSorted(s, leq) by {
      forall a, b, c | a in s && b in s && c in s && leq(a, b) && leq(b, c) ensures leq(a, c) {
        CompareIsTotalOrder(a.text, b.text, c.text);
      }
      forall a, b | a in s && b in s ensures leq(a, b) || leq(b, a) {
        CompareIsTotalOrder(a.text, b.text, a.text);
      }
    }
    KeepInOrder(ids, index, Elems(s), |ids|);
    assert ids[..|ids|] == ids;
    KeepNoDup(ids, Elems(s));
    NoDupMultiset(s);
    NoDupMultiset(kept);
    assert Elems(kept) == Elems(s);
    SortMembers(s, leq);
    SortedUnique(Sort(s, leq), kept, leq);
  }

  // ---- Phase 1: identities and references ------------------------------------------

  method CheckNodes(nodes: seq<Node>) returns (diagnostics: seq<Diagnostic>, keys: seq<NodeId>, known: set<NodeId>)
    ensures diagnostics == Collect(|nodes|, NodeProblems(nodes))
    ensures known == Elems(Ids(nodes))
    ensures diagnostics == [] ==> keys == Ids(nodes)
  {
    diagnostics, keys, known := [], [], {};
    for index := 0 to |nodes|
      invariant diagnostics == Collect(index, NodeProblems(nodes))
      invariant known == Elems(Ids(nodes[..index]))
      invariant diagnostics == [] ==> keys == Ids(nodes[..index])
    {
      var node := nodes[index];
      assert Ids(nodes[..index + 1]) == Ids(nodes[..index]) + [node.id];
      if node.id in known {
        diagnostics := diagnostics + [DuplicateNode(index, node.id)];
      } else {
        known := known + {node.id};
        keys := keys + [node.id];
      }
    }
    assert nodes[..|nodes|] == nodes;
  }

  lemma {:induction false} EdgeProblemAt(known: set<NodeId>, edges: seq<Edge>, index: nat)
    requires index < |edges|
    ensures EdgeProblems(known, edges)(index)
         == EdgeProblem(known, index, edges[index], edges[index].id in Elems(EdgeIds(edges[..index])))
  {
    hide EdgeProblem;
  }

  method CheckEdge(edge: Edge, index: nat, duplicate: bool, known: set<NodeId>) returns (problems: seq<Diagnostic>)
    ensures problems == EdgeProblem(known, index, edge, duplicate)
  {
    problems := [];
    if duplicate {
      problems := problems + [DuplicateEdge(index, edge.id)];
    }
    if edge.source.node !in known {
      problems := problems + [MissingSource(index, edge.id, edge.source.node)];
    }
    if edge.target.node !in known {
      problems := problems + [MissingTarget(index, edge.id, edge.target.node)];
    }
  }

  method CheckEdges(edges: seq<Edge>, known: set<NodeId>) returns (diagnostics: seq<Diagnostic>)
    ensures diagnostics == EdgeDiagnostics(known, edges)
  {
    hide EdgeProblem, Collect, EdgeProblems;
    diagnostics := [];
    var seenEdgeIds: set<EdgeId> := {};
    CollectNone(EdgeProblems(known, edges));
    for index := 0 to |edges|
      invariant diagnostics == Collect(index, EdgeProblems(known, edges))
      invariant seenEdgeIds == Elems(EdgeIds(edges[..index]))
    {
      var edge := edges[index];
      assert EdgeIds(edges[..index + 1]) == EdgeIds(edges[..index]) + [edge.id];
      CollectNext(index, EdgeProblems(known, edges));
      EdgeProblemAt(known, edges, index);
      var duplicate := edge.id in seenEdgeIds;
      seenEdgeIds := seenEdgeIds + {edge.id};
      var problems := CheckEdge(edge, index, duplicate, known);
      diagnostics := diagnostics + problems;
    }
  }

  method CheckEntrypoints(entrypoints: seq<NodeId>, known: set<NodeId>) returns (diagnostics: seq<Diagnostic>)
    ensures diagnostics == Collect(|entrypoints|, EntryProblems(known, entrypoints))
  {
    diagnostics := [];
    for index := 0 to |entrypoints|
      invariant diagnostics == Collect(index, EntryProblems(known, entrypoints))
    {
      if entrypoints[index] !in known {
        diagnostics := diagnostics + [MissingEntrypoint(index, entrypoints[index])];
      }
    }
  }

  method CheckOutputs(outputs: seq<Output>, known: set<NodeId>) returns (diagnostics: seq<Diagnostic>)
    ensures diagnostics == OutputDiagnostics(known, outputs)
  {
    diagnostics := [];
    for index := 0 to |outputs|
      invariant diagnostics == Collect(index, OutputProblems(known, outputs))
    {
      if outputs[index].endpoint.node !in known {
        diagnostics := diagnostics + [MissingOutput(outputs[index].name, outputs[index].endpoint.node)];
      }
    }
  }

  method CheckIdentities(g: Graph) returns (diagnostics: seq<Diagnostic>, keys: seq<NodeId>)
    ensures diagnostics == IdentityDiagnostics(g)
    ensures diagnostics == [] ==> WellIdentified(g) && keys == Ids(g.nodes)
  {
    hide Collect, NodeProblems, EdgeProblems, EntryProblems, OutputProblems, Sort, WellIdentified;
    var known;
    diagnostics, keys, known := CheckNodes(g.nodes);
    var edgeDiagnostics := CheckEdges(g.edges, known);
    var entrypointDiagnostics := CheckEntrypoints(g.entrypoints, known);
    var outputDiagnostics := CheckOutputs(SortedOutputs(g), known);
    diagnostics := diagnostics + edgeDiagnostics + entrypointDiagnostics + outputDiagnostics;
    IdentityDiagnosticsExact(g);
  }

  // ---- Phase 2: adjacency and in-degrees ---------------------------------------------

  ghost predicate IsAdjacency(g: Graph, adjacency: map<NodeId, seq<NodeId>>) {
    forall n | n in Ids(g.nodes) :: n in adjacency && multiset(adjacency[n]) == multiset(Targets(g.edges, n))
  }

  ghost predicate CountsIncoming(g: Graph, inDegree: map<NodeId, int>, removed: set<NodeId>) {
    forall n | n in Ids(g.nodes) :: n in inDegree && inDegree[n] == InCount(g.edges, removed, n)
  }

  method EmptyIndex(keys: seq<NodeId>)
    returns (adjacency: map<NodeId, seq<NodeId>>, inDegree: map<NodeId, int>, declarationIndex: map<NodeId, nat>)
    requires NoDup(keys)
    ensures forall n | n in keys :: n in adjacency && adjacency[n] == [] && n in inDegree && inDegree[n] == 0
    ensures IndexOfAll(keys, declarationIndex)
  {
    adjacency, inDegree, declarationIndex := map[], map[], map[];
    for index := 0 to |keys|
      invariant forall i | 0 <= i < index :: keys[i] in adjacency && adjacency[keys[i]] == []
      invariant forall i | 0 <= i < index :: keys[i] in inDegree && inDegree[keys[i]] == 0
      invariant forall i | 0 <= i < index :: keys[i] in declarationIndex && declarationIndex[keys[i]] == i
    {
      adjacency := adjacency[keys[index] := []];
      inDegree := inDegree[keys[index] := 0];
      declarationIndex := declarationIndex[keys[index] := index];
    }
  }

  method IndexEdges(g: Graph, keys: seq<NodeId>, empty: map<NodeId, seq<NodeId>>, zero: map<NodeId, int>)
    returns (adjacency: map<NodeId, seq<NodeId>>, inDegree: map<NodeId, int>)
    requires forall e | e in g.edges :: e.source.node in keys && e.target.node in keys
    requires forall n | n in keys :: n in empty && empty[n] == [] && n in zero && zero[n] == 0
    ensures forall n | n in keys :: n in adjacency && adjacency[n] == Targets(g.edges, n)
    ensures forall n | n in keys :: n in inDegree && inDegree[n] == InCount(g.edges, {}, n)
  {
    adjacency, inDegree := empty, zero;
    for index := 0 to |g.edges|
      invariant forall n | n in keys :: n in adjacency && adjacency[n] == Targets(g.edges[..index], n)
      invariant forall n | n in keys :: n in inDegree && inDegree[n] == InCount(g.edges[..index], {}, n)
    {
      var edge := g.edges[index];
      assert edge in g.edges;
      assert g.edges[..index + 1][..index] == g.edges[..index];
      adjacency := adjacency[edge.source.node := adjacency[edge.source.node] + [edge.target.node]];
      inDegree := inDegree[edge.target.node := inDegree[edge.target.node] + 1];
    }
    assert g.edges[..|g.edges|] == g.edges;
  }

  method SortTargets(keys: seq<NodeId>, unsorted: map<NodeId, seq<NodeId>>, declarationIndex: map<NodeId, nat>)
    returns (adjacency: map<NodeId, seq<NodeId>>)
    requires forall n | n in keys :: n in unsorted
    ensures forall n | n in keys :: n in adjacency && multiset(adjacency[n]) == multiset(unsorted[n])
  {
    adjacency := unsorted;
    for index := 0 to |keys|
      invariant forall n | n in keys :: n in adjacency && multiset(adjacency[n]) == multiset(unsorted[n])
    {
      adjacency := adjacency[keys[index] := Sort(adjacency[keys[index]], ByDeclaration(declarationIndex))];
    }
  }

  method BuildIndex(g: Graph, keys: seq<NodeId>)
    returns (adjacency: map<NodeId, seq<NodeId>>, inDegree: map<NodeId, int>, declarationIndex: map<NodeId, nat>)
    requires WellIdentified(g) && keys == Ids(g.nodes)
    ensures IsAdjacency(g, adjacency) && CountsIncoming(g, inDegree, {}) && IndexOfAll(keys, declarationIndex)
  {
    adjacency, inDegree, declarationIndex := EmptyIndex(keys);
    adjacency, inDegree := IndexEdges(g, keys, adjacency, inDegree);
    adjacency := SortTargets(keys, adjacency, declarationIndex);
  }

  // ---- Phase 3: Kahn layers -----------------------------------------------------------

  // Nodes outside processed whose in-edges all come from processed.
  ghost predicate IsFrontier(g: Graph, processed: set<NodeId>, settled: set<NodeId>, next: seq<NodeId>) {
    && NoDup(next)
    && forall n :: n in next <==> n in Ids(g.nodes) && n !in settled && InCount(g.edges, processed, n) == 0
  }

  // After k layers exactly the nodes without a walk of k edges into them are processed.
  ghost predicate ProcessedBelow(g: Graph, processed: set<NodeId>, k: nat) {
    && (forall n | n in processed :: n in Ids(g.nodes))
    && (forall n | n in Ids(g.nodes) :: n in processed <==> !Deep(g.edges, n, k))
  }

  function ZeroNodes(ids: seq<NodeId>, counts: map<NodeId, int>): set<NodeId> {
    set n | n in ids && n in counts && counts[n] == 0
  }

  lemma {:induction false} LayerClosed(g: Graph, before: set<NodeId>, after: set<NodeId>, layer: seq<NodeId>, k: nat)
    requires ProcessedBelow(g, before, k) && layer == Layer(g, k) && after == before + Elems(layer)
    ensures ProcessedBelow(g, after, k + 1)
  {
    forall n | n in Ids(g.nodes) ensures n in after <==> !Deep(g.edges, n, k + 1) {
      if Deep(g.edges, n, k + 1) { DeepDown(g.edges, n, k + 1, k); }
    }
  }

  lemma {:induction false} NextLevel(g: Graph, processed: set<NodeId>, next: seq<NodeId>, k: nat)
    requires WellIdentified(g) && ProcessedBelow(g, processed, k) && IsFrontier(g, processed, processed, next)
    ensures Elems(next) == LevelSet(g, k)
  {
    forall n ensures n in next <==> n in LevelSet(g, k) {
      if n in Ids(g.nodes) { InCountDeep(g, processed, n, k); }
    }
  }

  // What processing part of a layer keeps: settled nodes have no edges left coming in.
  ghost predicate Cleared(g: Graph, processed: set<NodeId>, settled: set<NodeId>) {
    forall n | n in settled && n in Ids(g.nodes) :: InCount(g.edges, processed, n) == 0
  }

  lemma {:induction false} StartFrontier(g: Graph, done: set<NodeId>, layer: seq<NodeId>, k: nat)
    requires WellIdentified(g) && ProcessedBelow(g, done, k) && layer == Layer(g, k)
    ensures IsFrontier(g, done, done + Elems(layer), [])
    ensures Cleared(g, done, done + Elems(layer))
    ensures forall n | n in layer :: n in Ids(g.nodes) && n !in done
  {
    LayerClosed(g, done, done + Elems(layer), layer, k);
    forall n | n in Ids(g.nodes) ensures InCount(g.edges, done, n) == 0 <==> n in done + Elems(layer) {
      InCountDeep(g, done, n, k);
    }
  }

  lemma {:induction false} RemoveNode(g: Graph, targets: seq<NodeId>, v: NodeId, processed: set<NodeId>,
      settled: set<NodeId>)
    requires WellIdentified(g) && v !in processed && Cleared(g, processed, settled)
    requires multiset(targets) == multiset(Targets(g.edges, v))
    ensures forall n :: InCount(g.edges, processed, n) == InCount(g.edges, processed + {v}, n) + multiset(targets)[n]
    ensures forall t | t in targets :: t in Ids(g.nodes) && t !in settled
  {
    forall n ensures InCount(g.edges, processed, n) == InCount(g.edges, processed + {v}, n) + multiset(targets)[n] {
      InCountRemove(g.edges, processed, v, n);
    }
    TargetsAreArcs(g.edges, v);
    SameMembers(targets, Targets(g.edges, v));
    forall t | t in targets ensures t in Ids(g.nodes) && t !in settled {
      assert Arc(g.edges, v, t);
      assert multiset(targets)[t] > 0;
    }
  }

  // Lower each target's counter; a counter that reaches zero enters the next layer.
  method LowerTargets(ids: seq<NodeId>, targets: seq<NodeId>, counts: map<NodeId, int>,
                      ghost settled: set<NodeId>, next: seq<NodeId>)
    returns (nextLayer: seq<NodeId>, inDegree: map<NodeId, int>)
    requires forall n | n in ids :: n in counts && counts[n] >= multiset(targets)[n]
    requires forall t | t in targets :: t in ids && t !in settled
    requires NoDup(next) && forall n :: n in next <==> n in ids && n !in settled && counts[n] == 0
    ensures forall n | n in ids :: n in inDegree && inDegree[n] == counts[n] - multiset(targets)[n]
    ensures NoDup(nextLayer) && forall n :: n in nextLayer <==> n in ids && n !in settled && inDegree[n] == 0
  {
    nextLayer, inDegree := next, counts;
    for index := 0 to |targets|
      invariant Lower(targets[..index], counts, next) == (inDegree, nextLayer)
    {
      var target := targets[index];
      TakeNext(targets, index);
      assert targets[..index + 1][..index] == targets[..index];
      var nextDegree := CountOf(inDegree, target) - 1;
      inDegree := inDegree[target := nextDegree];
      if nextDegree == 0 {
        nextLayer := nextLayer + [target];
      }
    }
    assert targets[..|targets|] == targets;
    LowerMeans(ids, targets, counts, settled, next);
  }

  method ProcessNode(g: Graph, targets: seq<NodeId>, nodeId: NodeId, counts: map<NodeId, int>,
                     ghost processed: set<NodeId>, ghost settled: set<NodeId>, next: seq<NodeId>)
    returns (nextLayer: seq<NodeId>, inDegree: map<NodeId, int>)
    requires WellIdentified(g) && nodeId in Ids(g.nodes) && nodeId !in processed
    requires multiset(targets) == multiset(Targets(g.edges, nodeId))
    requires CountsIncoming(g, counts, processed) && IsFrontier(g, processed, settled, next)
    requires Cleared(g, processed, settled)
    ensures CountsIncoming(g, inDegree, processed + {nodeId})
    ensures IsFrontier(g, processed + {nodeId}, settled, nextLayer)
    ensures Cleared(g, processed + {nodeId}, settled)
  {
    RemoveNode(g, targets, nodeId, processed, settled);
    nextLayer, inDegree := LowerTargets(Ids(g.nodes), targets, counts, settled, next);
  }

  // One layer: remove each of its nodes and lower its targets' counters.
  method ProcessLayer(g: Graph, adjacency: map<NodeId, seq<NodeId>>, layer: seq<NodeId>,
                      counts: map<NodeId, int>, done: set<NodeId>, ghost k: nat)
    returns (nextLayer: seq<NodeId>, inDegree: map<NodeId, int>, processed: set<NodeId>)
    requires WellIdentified(g) && IsAdjacency(g, adjacency) && CountsIncoming(g, counts, done)
    requires ProcessedBelow(g, done, k) && layer == Layer(g, k) && NoDup(layer)
    ensures processed == done + Elems(layer)
    ensures CountsIncoming(g, inDegree, processed)
    ensures IsFrontier(g, processed, processed, nextLayer)
  {
    nextLayer, inDegree, processed := [], counts, done;
    ghost var settled := done + Elems(layer);
    StartFrontier(g, done, layer, k);
    for index := 0 to |layer|
      invariant processed == done + Elems(layer[..index])
      invariant CountsIncoming(g, inDegree, processed)
      invariant IsFrontier(g, processed, settled, nextLayer)
      invariant Cleared(g, processed, settled)
    {
      var nodeId := layer[index];
      ElemsTakeNext(layer, index);
      nextLayer, inDegree := ProcessNode(g, adjacency[nodeId], nodeId, inDegree, processed, settled, nextLayer);
      processed := processed + {nodeId};
    }
    assert layer[..|layer|] == layer;
  }

  method NextLayer(g: Graph, keys: seq<NodeId>, adjacency: map<NodeId, seq<NodeId>>,
                   declarationIndex: map<NodeId, nat>, layer: seq<NodeId>,
                   counts: map<NodeId, int>, done: set<NodeId>, ghost k: nat)
    returns (next: seq<NodeId>, inDegree: map<NodeId, int>, processed: set<NodeId>)
    requires WellIdentified(g) && keys == Ids(g.nodes) && IndexOfAll(keys, declarationIndex)
    requires IsAdjacency(g, adjacency) && CountsIncoming(g, counts, done)
    requires ProcessedBelow(g, done, k) && layer == Layer(g, k) && layer != []
    ensures next == Layer(g, k + 1)
    ensures CountsIncoming(g, inDegree, processed) && ProcessedBelow(g, processed, k + 1)
    ensures processed == done + Elems(layer)
    ensures Elems(keys) - processed < Elems(keys) - done
  {
    KeepNoDup(keys, LevelSet(g, k));
    next, inDegree, processed := ProcessLayer(g, adjacency, layer, counts, done, k);
    LayerClosed(g, done, processed, layer, k);
    assert layer[0] in layer;
    assert layer[0] in Elems(keys) - done && layer[0] in processed;
    SortIsKeep(keys, declarationIndex, next);
    NextLevel(g, processed, next, k + 1);
    next := Sort(next, ByDeclaration(declarationIndex));
  }

  lemma {:induction false} FirstLayer(g: Graph, counts: map<NodeId, int>)
    requires WellIdentified(g) && CountsIncoming(g, counts, {})
    ensures Keep(Ids(g.nodes), ZeroNodes(Ids(g.nodes), counts)) == Layer(g, 0)
    ensures ProcessedBelow(g, {}, 0) && LayersSoFar(g, [])
  {
    forall n | n in Ids(g.nodes) ensures Deep(g.edges, n, 0) { DeepZero(g.edges, n); }
    forall n | n in Ids(g.nodes) ensures InCount(g.edges, {}, n) == 0 <==> Level(g.edges, n, 0) {
      InCountDeep(g, {}, n, 0);
    }
    assert ZeroNodes(Ids(g.nodes), counts) == LevelSet(g, 0);
  }

  method KahnLayers(g: Graph, keys: seq<NodeId>, adjacency: map<NodeId, seq<NodeId>>,
                    counts: map<NodeId, int>, declarationIndex: map<NodeId, nat>)
    returns (layers: seq<seq<NodeId>>, processed: set<NodeId>)
    requires WellIdentified(g) && keys == Ids(g.nodes)
    requires IsAdjacency(g, adjacency) && CountsIncoming(g, counts, {}) && IndexOfAll(keys, declarationIndex)
    ensures IsLayering(g, layers)
    ensures ProcessedBelow(g, processed, |layers|)
  {
    hide WellIdentified, IsAdjacency, CountsIncoming, IndexOfAll, LayersSoFar, IsLayering, ProcessedBelow, Layer, Keep,
        ZeroNodes;
    var inDegree := counts;
    var currentLayer := Keep(keys, ZeroNodes(keys, inDegree));
    layers, processed := [], {};
    FirstLayer(g, inDegree);
    while currentLayer != []
      invariant LayersSoFar(g, layers)
      invariant currentLayer == Layer(g, |layers|)
      invariant ProcessedBelow(g, processed, |layers|)
      invariant CountsIncoming(g, inDegree, processed)
      decreases |Elems(keys) - processed|
    {
      ghost var k, before := |layers|, processed;
      AppendLayer(g, layers, currentLayer);
      layers := layers + [currentLayer];
      currentLayer, inDegree, processed :=
        NextLayer(g, keys, adjacency, declarationIndex, currentLayer, inDegree, processed, k);
      SubsetCardinality(Elems(keys) - processed, Elems(keys) - before);
    }
    AppendLayer(g, layers, currentLayer);
  }

  // ---- Phase 4: reachability --------------------------------------------------------------

  // Every node marked so far was queued, and so was everything its edges lead to.
  ghost predicate Explored(edges: seq<Edge>, reachable: set<NodeId>, queue: seq<NodeId>) {
    && (forall n | n in reachable :: n in queue)
    && (forall n, t | n in reachable && Arc(edges, n, t) :: t in queue)
  }

  lemma {:induction false} ExploreNode(edges: seq<Edge>, reachable: set<NodeId>, before: seq<NodeId>,
      queue: seq<NodeId>, n: NodeId)
    requires Explored(edges, reachable, before) && before <= queue && n in before
    requires forall t | Arc(edges, n, t) :: t in queue
    ensures Explored(edges, reachable + {n}, queue)
  {
    forall m | m in before ensures m in queue {
      var i :| 0 <= i < |before| && before[i] == m;
      assert queue[i] == m;
    }
  }

  lemma {:induction false} ClosedUnderPaths(edges: seq<Edge>, closed: set<NodeId>, p: seq<NodeId>)
    requires IsPath(edges, p) && p[0] in closed
    requires forall n, t | n in closed && Arc(edges, n, t) :: t in closed
    ensures p[|p| - 1] in closed
    decreases |p|
  {
    if |p| <= 1 {
    } else {
      PathPrefix(edges, p, 0, |p| - 1);
      ClosedUnderPaths(edges, closed, p[0..|p| - 1]);
      assert Arc(edges, p[|p| - 2], p[|p| - 1]);
    }
  }

  // A sound set that holds the entrypoints and is closed under edges is the reachable set.
  lemma {:induction false} Saturated(g: Graph, reachable: set<NodeId>, roots: set<NodeId>)
    requires roots == Elems(g.entrypoints) && roots <= reachable
    requires forall n | n in reachable :: FromEntrypoint(g, n)
    requires forall n, t | n in reachable && Arc(g.edges, n, t) :: t in reachable
    ensures forall n :: n in reachable <==> FromEntrypoint(g, n)
  {
    forall n | FromEntrypoint(g, n) ensures n in reachable {
      var s :| s in g.entrypoints && Reaches(g.edges, s, n);
      var p :| PathFromTo(g.edges, p, s, n);
      ClosedUnderPaths(g.edges, reachable, p);
    }
  }

  // The search's state: what is marked was queued and expanded, everything queued is sound.
  ghost predicate Searching(g: Graph, first: seq<NodeId>, reachable: set<NodeId>, queue: seq<NodeId>, index: nat) {
    && index <= |queue| && first <= queue
    && (forall n | n in queue :: n in Ids(g.nodes) && FromEntrypoint(g, n))
    && Explored(g.edges, reachable, queue)
    && (forall n | n in queue[..index] :: n in reachable)
  }

  lemma {:induction false} SkipMarked(g: Graph, first: seq<NodeId>, reachable: set<NodeId>, queue: seq<NodeId>,
      index: nat)
    requires index < |queue| && queue[index] in reachable && Searching(g, first, reachable, queue, index)
    ensures Searching(g, first, reachable, queue, index + 1)
  {
    TakeNext(queue, index);
  }

  lemma {:induction false} VisitStart(g: Graph, adjacency: map<NodeId, seq<NodeId>>, first: seq<NodeId>,
                   marked: set<NodeId>, before: seq<NodeId>, index: nat)
    requires IsAdjacency(g, adjacency) && index < |before| && Searching(g, first, marked, before, index)
    ensures before[index] in Ids(g.nodes) && before[index] in adjacency && FromEntrypoint(g, before[index])
    ensures multiset(adjacency[before[index]]) == multiset(Targets(g.edges, before[index]))
    ensures forall n | n in before :: n in Ids(g.nodes) && FromEntrypoint(g, n)
    ensures forall n | n in marked + {before[index]} :: n in before
  {
    hide FromEntrypoint, Arc;
    assert before[index] in before;
  }

  lemma {:induction false} VisitEnd(g: Graph, first: seq<NodeId>, marked: set<NodeId>, before: seq<NodeId>,
      queue: seq<NodeId>, index: nat)
    requires index < |before| && Searching(g, first, marked, before, index) && before <= queue
    requires forall n | n in queue :: n in Ids(g.nodes) && FromEntrypoint(g, n)
    requires forall t | Arc(g.edges, before[index], t) :: t in queue
    ensures Searching(g, first, marked + {before[index]}, queue, index + 1)
  {
    hide FromEntrypoint, Arc;
    assert before[index] in before;
    ExploreNode(g.edges, marked, before, queue, before[index]);
    TakeOfPrefix(before, queue, index + 1);
    TakeNext(before, index);
  }

  lemma {:induction false} TargetsInside(g: Graph, targets: seq<NodeId>, n: NodeId)
    requires WellIdentified(g) && multiset(targets) == multiset(Targets(g.edges, n))
    ensures forall t :: t in targets <==> Arc(g.edges, n, t)
    ensures forall t | t in targets :: t in Ids(g.nodes)
  {
    SameMembers(targets, Targets(g.edges, n));
    TargetsAreArcs(g.edges, n);
    forall t | t in targets ensures t in Ids(g.nodes) {
      assert Arc(g.edges, n, t);
    }
  }

  lemma {:induction false} FromEntrypointStep(g: Graph, n: NodeId, t: NodeId)
    requires FromEntrypoint(g, n) && Arc(g.edges, n, t)
    ensures FromEntrypoint(g, t)
  {
    var s :| s in g.entrypoints && Reaches(g.edges, s, n);
    ReachesStep(g.edges, s, n, t);
  }

  method PushTargets(g: Graph, keys: seq<NodeId>, targets: seq<NodeId>, nodeId: NodeId,
                     reachable: set<NodeId>, before: seq<NodeId>)
    returns (queue: seq<NodeId>)
    requires WellIdentified(g) && keys == Ids(g.nodes) && FromEntrypoint(g, nodeId)
    requires multiset(targets) == multiset(Targets(g.edges, nodeId))
    requires forall n | n in before :: n in keys && FromEntrypoint(g, n)
    requires forall n | n in reachable :: n in before
    ensures before <= queue
    ensures forall n | n in queue :: n in keys && FromEntrypoint(g, n)
    ensures forall t | Arc(g.edges, nodeId, t) :: t in queue
  {
    hide FromEntrypoint, WellIdentified, Arc;
    queue := before;
    TargetsInside(g, targets, nodeId);
    for position := 0 to |targets|
      invariant before <= queue
      invariant forall n | n in queue :: n in keys && FromEntrypoint(g, n)
      invariant forall n | n in reachable :: n in queue
      invariant forall i | 0 <= i < position :: targets[i] in queue
    {
      var target := targets[position];
      assert target in targets;
      if target !in reachable {
        FromEntrypointStep(g, nodeId, target);
        queue := queue + [target];
      }
    }
  }

  method Visit(g: Graph, keys: seq<NodeId>, adjacency: map<NodeId, seq<NodeId>>, ghost first: seq<NodeId>,
               marked: set<NodeId>, before: seq<NodeId>, index: nat)
    returns (reachable: set<NodeId>, queue: seq<NodeId>)
    requires WellIdentified(g) && keys == Ids(g.nodes) && IsAdjacency(g, adjacency)
    requires index < |before| && before[index] !in marked && Searching(g, first, marked, before, index)
    ensures Searching(g, first, reachable, queue, index + 1)
    ensures Elems(keys) - reachable < Elems(keys) - marked
  {
    hide WellIdentified, IsAdjacency, FromEntrypoint, Searching;
    var nodeId := before[index];
    VisitStart(g, adjacency, first, marked, before, index);
    reachable := marked + {nodeId};
    queue := PushTargets(g, keys, adjacency[nodeId], nodeId, reachable, before);
    VisitEnd(g, first, marked, before, queue, index);
    assert nodeId in Elems(keys) - marked;
  }

  lemma {:induction false} SearchDone(g: Graph, entrypoints: seq<NodeId>, keys: seq<NodeId>, reachable: set<NodeId>,
      queue: seq<NodeId>)
    requires WellIdentified(g) && keys == Ids(g.nodes) && entrypoints == Distinct(g.entrypoints)
    requires Searching(g, Keep(entrypoints, Elems(keys)), reachable, queue, |queue|)
    ensures forall n :: n in reachable <==> FromEntrypoint(g, n)
  {
    var first := Keep(entrypoints, Elems(keys));
    assert queue[..|queue|] == queue;
    forall n | n in g.entrypoints ensures n in reachable {
      assert n in first;
      var i :| 0 <= i < |first| && first[i] == n;
      assert queue[i] == n;
    }
    Saturated(g, reachable, Elems(g.entrypoints));
  }

  lemma {:induction false} ReachesSelf(g: Graph, n: NodeId)
    requires n in g.entrypoints
    ensures FromEntrypoint(g, n)
  {
    assert PathFromTo(g.edges, [n], n, n);
    assert Reaches(g.edges, n, n);
  }

  method ReachableFrom(g: Graph, keys: seq<NodeId>, adjacency: map<NodeId, seq<NodeId>>, entrypoints: seq<NodeId>)
    returns (reachable: set<NodeId>)
    requires WellIdentified(g) && keys == Ids(g.nodes) && IsAdjacency(g, adjacency)
    requires entrypoints == Distinct(g.entrypoints)
    ensures forall n :: n in reachable <==> FromEntrypoint(g, n)
  {
    reachable := {};
    var first := Keep(entrypoints, Elems(keys));
    var queue := first;
    forall n | n in queue ensures FromEntrypoint(g, n) { ReachesSelf(g, n); }
    var index := 0;
    while index < |queue|
      invariant Searching(g, first, reachable, queue, index)
      decreases |Elems(keys) - reachable|, |queue| - index
    {
      var nodeId := queue[index];
      if nodeId in reachable {
        ElemsTakeNext(queue, index);
        SkipMarked(g, first, reachable, queue, index);
        index := index + 1;
        continue;
      }
      ghost var before := reachable;
      reachable, queue := Visit(g, keys, adjacency, first, reachable, queue, index);
      SubsetCardinality(Elems(keys) - reachable, Elems(keys) - before);
      index := index + 1;
    }
    SearchDone(g, entrypoints, keys, reachable, queue);
  }

  // ---- Phase 5: policies --------------------------------------------------------------------

  method CheckEntrypointRoots(g: Graph) returns (diagnostics: seq<Diagnostic>)
    ensures diagnostics == Collect(|g.entrypoints|, IncomingProblems(g.edges, g.entrypoints))
  {
    diagnostics := [];
    for index := 0 to |g.entrypoints|
      invariant diagnostics == Collect(index, IncomingProblems(g.edges, g.entrypoints))
    {
      var entrypoint := g.entrypoints[index];
      if exists e | e in g.edges :: e.target.node == entrypoint {
        diagnostics := diagnostics + [EntrypointHasIncoming(index, entrypoint)];
      }
    }
  }

  method CheckReachability(g: Graph, keys: seq<NodeId>, reachable: set<NodeId>) returns (diagnostics: seq<Diagnostic>)
    requires keys == Ids(g.nodes)
    requires forall n | n in keys :: n in reachable <==> FromEntrypoint(g, n)
    ensures diagnostics == Collect(|keys|, ReachProblems(g))
  {
    diagnostics := [];
    for index := 0 to |keys|
      invariant diagnostics == Collect(index, ReachProblems(g))
    {
      assert keys[index] in keys;
      if keys[index] !in reachable {
        diagnostics := diagnostics + [UnreachableNode(keys[index])];
      }
    }
  }

  lemma {:induction false} SameCount(a: seq<NodeId>, b: seq<NodeId>)
    requires multiset(a) == multiset(b)
    ensures |a| == |b|
  {
    assert |a| == |multiset(a)| == |multiset(b)|;
  }

  method CheckFanOut(g: Graph, keys: seq<NodeId>, adjacency: map<NodeId, seq<NodeId>>)
      returns (diagnostics: seq<Diagnostic>)
    requires keys == Ids(g.nodes) && IsAdjacency(g, adjacency)
    ensures diagnostics == Collect(|keys|, FanOutProblems(g))
  {
    hide Targets;
    diagnostics := [];
    if g.policies.maxFanOut.Some? {
      for index := 0 to |keys|
        invariant diagnostics == Collect(index, FanOutProblems(g))
      {
        assert keys[index] in keys;
        var targets := adjacency[keys[index]];
        var count := |targets|;
        SameCount(targets, Targets(g.edges, keys[index]));
        if count > g.policies.maxFanOut.value {
          diagnostics := diagnostics + [MaxFanOut(keys[index], count, g.policies.maxFanOut.value)];
        }
      }
    } else {
      CollectEmpty(|g.nodes|, FanOutProblems(g));
    }
  }

  method CheckPolicies(g: Graph, keys: seq<NodeId>, adjacency: map<NodeId, seq<NodeId>>,
                       entrypoints: seq<NodeId>, depth: nat)
    returns (diagnostics: seq<Diagnostic>)
    requires WellIdentified(g) && keys == Ids(g.nodes) && IsAdjacency(g, adjacency)
    requires entrypoints == Distinct(g.entrypoints)
    ensures diagnostics == PolicyDiagnostics(g, depth)
  {
    diagnostics := CheckEntrypointRoots(g);
    var reachable := ReachableFrom(g, keys, adjacency, entrypoints);
    var unreachable := CheckReachability(g, keys, reachable);
    var fanOut := CheckFanOut(g, keys, adjacency);
    diagnostics := diagnostics + unreachable + fanOut;
    if g.policies.maxDepth.Some? && depth > g.policies.maxDepth.value {
      diagnostics := diagnostics + [MaxDepth(depth, g.policies.maxDepth.value)];
    }
  }

  // ---- The compiler -----------------------------------------------------------------------------

  method CompileGraph(g: Graph) returns (r: Compilation)
    ensures CompiledAs(g, r)
    ensures FirstOccurrences(g.entrypoints, r.entrypoints)
  {
    DistinctInOrder(g.entrypoints);
    var diagnostics, keys := CheckIdentities(g);
    var entrypoints := Distinct(g.entrypoints);
    IdentityDiagnosticsExact(g);
    if diagnostics != [] {
      return Compilation(false, entrypoints, [], diagnostics);
    }
    var adjacency, inDegree, declarationIndex := BuildIndex(g, keys);
    var layers, processed := KahnLayers(g, keys, adjacency, inDegree, declarationIndex);
    var cycleNodes := Keep(keys, Elems(keys) - processed);
    assert cycleNodes == CycleNodes(g) by {
      forall n | n in keys ensures n in processed <==> !DownstreamOfCycle(g.edges, n) {
        StuckIffCycle(g, n, |layers|);
      }
      assert Elems(keys) - processed == set n | n in keys && DownstreamOfCycle(g.edges, n);
    }
    if cycleNodes != [] {
      return Compilation(false, entrypoints, layers, [Cycle(cycleNodes)]);
    }
    diagnostics := CheckPolicies(g, keys, adjacency, entrypoints, |layers|);
    return Compilation(diagnostics == [], entrypoints, layers, diagnostics);
  }

  lemma {:induction false} CycleInside(g: Graph, c: NodeId)
    requires WellIdentified(g) && OnCycle(g.edges, c)
    ensures c in Ids(g.nodes)
  {
    var p :| PathFromTo(g.edges, p, c, c) && |p| > 1;
    assert Arc(g.edges, p[0], p[1]);
  }

  lemma {:induction false} CollectNoCycle(n: nat, at: nat -> seq<Diagnostic>)
    requires forall i: nat, d | d in at(i) :: !d.Cycle?
    ensures forall d | d in Collect(n, at) :: !d.Cycle?
  {
    if n > 0 { CollectNoCycle(n - 1, at); }
  }

  lemma {:induction false} NoCycleInPolicies(g: Graph, depth: nat)
    ensures forall d | d in PolicyDiagnostics(g, depth) :: !d.Cycle?
  {
    CollectNoCycle(|g.entrypoints|, IncomingProblems(g.edges, g.entrypoints));
    CollectNoCycle(|g.nodes|, ReachProblems(g));
    CollectNoCycle(|g.nodes|, FanOutProblems(g));
  }

  // The cycle report is raised iff some node lies on a cycle, and it lists exactly the
  // nodes that can be reached from one in zero or more steps.
  lemma {:induction false} CycleReportExact(g: Graph, r: Compilation)
    requires CompiledAs(g, r) && WellIdentified(g)
    ensures (exists d :: d in r.diagnostics && d.Cycle?) <==> exists n :: n in Ids(g.nodes) && OnCycle(g.edges, n)
    ensures forall d | d in r.diagnostics && d.Cycle? ::
              forall n :: n in d.nodes <==> n in Ids(g.nodes) && DownstreamOfCycle(g.edges, n)
  {
    CycleNodesExact(g);
    NoCycleInPolicies(g, |r.layers|);
    if CycleNodes(g) != [] {
      var n := CycleNodes(g)[0];
      assert n in CycleNodes(g);
      var c :| OnCycle(g.edges, c) && Reaches(g.edges, c, n);
      CycleInside(g, c);
      assert r.diagnostics[0].Cycle?;
    }
    if exists n :: n in Ids(g.nodes) && OnCycle(g.edges, n) {
      var n :| n in Ids(g.nodes) && OnCycle(g.edges, n);
      assert PathFromTo(g.edges, [n], n, n);
      assert Reaches(g.edges, n, n) && DownstreamOfCycle(g.edges, n);
      assert n in CycleNodes(g);
    }
  }
}
