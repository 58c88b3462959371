/**
 What compiling a graph means: the diagnostics and ordered layers, stated through
 paths, cycles and reachability, without any worklist or counter.
 */
module CompilerSpec {
  import opened Sequences
  import opened Text
  import opened Graphs

  datatype Diagnostic =
    | DuplicateNode(index: nat, node: NodeId)
    | DuplicateEdge(index: nat, edge: EdgeId)
    | MissingSource(index: nat, edge: EdgeId, node: NodeId)
    | MissingTarget(index: nat, edge: EdgeId, node: NodeId)
    | MissingEntrypoint(index: nat, node: NodeId)
    | MissingOutput(name: JsString, node: NodeId)
    | Cycle(nodes: seq<NodeId>)
    | EntrypointHasIncoming(index: nat, node: NodeId)
    | UnreachableNode(node: NodeId)
    | MaxFanOut(node: NodeId, count: nat, limit: int)
    | MaxDepth(depth: nat, limit: int)

  datatype Compilation = Compilation(
    valid: bool, entrypoints: seq<NodeId>, layers: seq<seq<NodeId>>, diagnostics: seq<Diagnostic>)

  // The diagnostics reported at positions 0 .. n - 1, in order.
  ghost function Collect(n: nat, at: nat -> seq<Diagnostic>): seq<Diagnostic> {
    if n == 0 then [] else Collect(n - 1, at) + at(n - 1)
  }

  lemma {:induction false} CollectNext(n: nat, at: nat -> seq<Diagnostic>)
    ensures Collect(n + 1, at) == Collect(n, at) + at(n)
  {}

  lemma {:induction false} CollectNone(at: nat -> seq<Diagnostic>)
    ensures Collect(0, at) == []
  {}

  lemma {:induction false} CollectEmpty(n: nat, at: nat -> seq<Diagnostic>)
    ensures Collect(n, at) == [] <==> forall i: nat | i < n :: at(i) == []
  {
    if n == 0 {
    } else {
      CollectEmpty(n - 1, at);
    }
  }

  // ---- Identity and reference diagnostics ----------------------------------

  ghost function NodeProblems(nodes: seq<Node>): nat -> seq<Diagnostic> {
    (i: nat) =>
      if i < |nodes| && nodes[i].id in Ids(nodes[..i]) then [DuplicateNode(i, nodes[i].id)] else []
  }

  function EdgeProblem(ids: set<NodeId>, i: nat, e: Edge, duplicate: bool): seq<Diagnostic> {
    (if duplicate then [DuplicateEdge(i, e.id)] else [])
    + (if e.source.node !in ids then [MissingSource(i, e.id, e.source.node)] else [])
    + (if e.target.node !in ids then [MissingTarget(i, e.id, e.target.node)] else [])
  }

  ghost function EdgeProblems(ids: set<NodeId>, edges: seq<Edge>): nat -> seq<Diagnostic> {
    (i: nat) =>
      if i < |edges| then EdgeProblem(ids, i, edges[i], edges[i].id in EdgeIds(edges[..i])) else []
  }

  ghost function EntryProblems(ids: set<NodeId>, entrypoints: seq<NodeId>): nat -> seq<Diagnostic> {
    (i: nat) =>
      if i < |entrypoints| && entrypoints[i] !in ids then [MissingEntrypoint(i, entrypoints[i])] else []
  }

  ghost function OutputProblems(ids: set<NodeId>, outputs: seq<Output>): nat -> seq<Diagnostic> {
    (i: nat) =>
      if i < |outputs| && outputs[i].endpoint.node !in ids
      then [MissingOutput(outputs[i].name, outputs[i].endpoint.node)] else []
  }

  predicate OutputLeq(left: Output, right: Output) {
    TextLeq(left.name, right.name)
  }

  function SortedOutputs(g: Graph): seq<Output> {
    Sort(g.outputs, OutputLeq)
  }

  ghost function EdgeDiagnostics(ids: set<NodeId>, edges: seq<Edge>): seq<Diagnostic> {
    Collect(|edges|, EdgeProblems(ids, edges))
  }

  ghost function OutputDiagnostics(ids: set<NodeId>, outputs: seq<Output>): seq<Diagnostic> {
    Collect(|outputs|, OutputProblems(ids, outputs))
  }

  ghost function IdentityDiagnostics(g: Graph): seq<Diagnostic> {
    var ids := Elems(Ids(g.nodes));
    Collect(|g.nodes|, NodeProblems(g.nodes))
    + EdgeDiagnostics(ids, g.edges)
    + Collect(|g.entrypoints|, EntryProblems(ids, g.entrypoints))
    + OutputDiagnostics(ids, SortedOutputs(g))
  }

  lemma {:induction false} NodeProblemAt(nodes: seq<Node>, i: nat)
    requires i < |nodes|
    ensures NodeProblems(nodes)(i) == [] <==> Ids(nodes)[i] !in Ids(nodes)[..i]
  {
    assert Ids(nodes[..i]) == Ids(nodes)[..i];
  }

  lemma {:induction false} NodeProblemsExact(nodes: seq<Node>)
    ensures Collect(|nodes|, NodeProblems(nodes)) == [] <==> NoDup(Ids(nodes))
  {
    hide NodeProblems, Collect, NoDup;
    CollectEmpty(|nodes|, NodeProblems(nodes));
    NoDupByPrefixes(Ids(nodes));
    forall i: nat | i < |nodes| ensures NodeProblems(nodes)(i) == [] <==> Ids(nodes)[i] !in Ids(nodes)[..i] {
      NodeProblemAt(nodes, i);
    }
  }

  ghost predicate EdgeSound(ids: set<NodeId>, edges: seq<Edge>, i: nat)
    requires i < |edges|
  {
    && edges[i].id !in EdgeIds(edges)[..i]
    && edges[i].source.node in ids && edges[i].target.node in ids
  }

  lemma {:induction false} EdgeSilent(ids: set<NodeId>, edges: seq<Edge>, i: nat)
    requires i < |edges|
    ensures EdgeProblems(ids, edges)(i) == [] <==> EdgeSound(ids, edges, i)
  {
    assert EdgeIds(edges[..i]) == EdgeIds(edges)[..i];
  }

  lemma {:induction false} EdgesSound(ids: set<NodeId>, edges: seq<Edge>)
    ensures (forall i: nat | i < |edges| :: EdgeSound(ids, edges, i))
       <==> NoDup(EdgeIds(edges)) && forall e | e in edges :: e.source.node in ids && e.target.node in ids
  {
    NoDupByPrefixes(EdgeIds(edges));
    if forall i: nat | i < |edges| :: EdgeSound(ids, edges, i) {
      forall e | e in edges ensures e.source.node in ids && e.target.node in ids {
        var i :| 0 <= i < |edges| && edges[i] == e;
        assert EdgeSound(ids, edges, i);
      }
      forall i | 0 <= i < |edges| ensures EdgeIds(edges)[i] !in EdgeIds(edges)[..i] {
        assert EdgeSound(ids, edges, i);
      }
    }
  }

  lemma {:induction false} EdgeProblemsExact(ids: set<NodeId>, edges: seq<Edge>)
    ensures EdgeDiagnostics(ids, edges) == []
       <==> NoDup(EdgeIds(edges)) && forall e | e in edges :: e.source.node in ids && e.target.node in ids
  {
    hide EdgeProblems, Collect, EdgeSound, NoDup;
    CollectEmpty(|edges|, EdgeProblems(ids, edges));
    forall i: nat | i < |edges| ensures EdgeProblems(ids, edges)(i) == [] <==> EdgeSound(ids, edges, i) {
      EdgeSilent(ids, edges, i);
    }
    EdgesSound(ids, edges);
  }

  lemma {:induction false} EntryProblemsExact(ids: set<NodeId>, entrypoints: seq<NodeId>)
    ensures Collect(|entrypoints|, EntryProblems(ids, entrypoints)) == []
       <==> forall n | n in entrypoints :: n in ids
  {
    CollectEmpty(|entrypoints|, EntryProblems(ids, entrypoints));
    if forall i: nat | i < |entrypoints| :: EntryProblems(ids, entrypoints)(i) == [] {
      forall n | n in entrypoints ensures n in ids {
        var i :| 0 <= i < |entrypoints| && entrypoints[i] == n;
        assert EntryProblems(ids, entrypoints)(i) == [];
      }
    }
  }

  lemma {:induction false} OutputProblemsExact(ids: set<NodeId>, outputs: seq<Output>)
    ensures OutputDiagnostics(ids, outputs) == []
       <==> forall o | o in outputs :: o.endpoint.node in ids
  {
    CollectEmpty(|outputs|, OutputProblems(ids, outputs));
    if forall i: nat | i < |outputs| :: OutputProblems(ids, outputs)(i) == [] {
      forall o | o in outputs ensures o.endpoint.node in ids {
        var i :| 0 <= i < |outputs| && outputs[i] == o;
        assert OutputProblems(ids, outputs)(i) == [];
      }
    }
  }

  // Identity checking is silent exactly on well-identified graphs.
  lemma {:induction false} IdentityDiagnosticsExact(g: Graph)
    ensures IdentityDiagnostics(g) == [] <==> WellIdentified(g)
  {
    var ids := Elems(Ids(g.nodes));
    NodeProblemsExact(g.nodes);
    EdgeProblemsExact(ids, g.edges);
    EntryProblemsExact(ids, g.entrypoints);
    OutputProblemsExact(ids, SortedOutputs(g));
    SortMembers(g.outputs, OutputLeq);
  }

  // ---- Layers ----------------------------------------------------------------

  ghost function LevelSet(g: Graph, k: nat): set<NodeId> {
    set n | n in Ids(g.nodes) && Level(g.edges, n, k)
  }

  // The nodes of level k in declaration order.
  ghost function Layer(g: Graph, k: nat): seq<NodeId> {
    Keep(Ids(g.nodes), LevelSet(g, k))
  }

  ghost predicate LayersSoFar(g: Graph, layers: seq<seq<NodeId>>) {
    forall k | 0 <= k < |layers| :: layers[k] == Layer(g, k) && layers[k] != []
  }

  ghost predicate IsLayering(g: Graph, layers: seq<seq<NodeId>>) {
    LayersSoFar(g, layers) && LevelSet(g, |layers|) == {}
  }

  lemma {:induction false} AppendLayer(g: Graph, layers: seq<seq<NodeId>>, layer: seq<NodeId>)
    requires LayersSoFar(g, layers) && layer == Layer(g, |layers|)
    ensures if layer == [] then IsLayering(g, layers) else LayersSoFar(g, layers + [layer])
  {
    if layer == [] {
      assert forall n | n in LevelSet(g, |layers|) :: n in layer;
    }
  }

  // ---- Structural diagnostics -------------------------------------------------

  ghost function CycleNodes(g: Graph): seq<NodeId> {
    Keep(Ids(g.nodes), set n | n in Ids(g.nodes) && DownstreamOfCycle(g.edges, n))
  }

  ghost predicate HasIncoming(edges: seq<Edge>, n: NodeId) {
    exists e :: e in edges && e.target.node == n
  }

  ghost function IncomingProblems(edges: seq<Edge>, entrypoints: seq<NodeId>): nat -> seq<Diagnostic> {
    (i: nat) =>
      if i < |entrypoints| && HasIncoming(edges, entrypoints[i])
      then [EntrypointHasIncoming(i, entrypoints[i])] else []
  }

  ghost predicate FromEntrypoint(g: Graph, n: NodeId) {
    exists s :: s in g.entrypoints && Reaches(g.edges, s, n)
  }

  ghost function ReachProblems(g: Graph): nat -> seq<Diagnostic> {
    (i: nat) =>
      if i < |g.nodes| && !FromEntrypoint(g, g.nodes[i].id) then [UnreachableNode(g.nodes[i].id)] else []
  }

  // The edges leaving n, by target, in declaration order of the edges.
  function Targets(edges: seq<Edge>, n: NodeId): seq<NodeId> {
    if edges == [] then []
    else
      var last := edges[|edges| - 1];
      Targets(edges[..|edges| - 1], n) + if last.source.node == n then [last.target.node] else []
  }

  // Each node's own edges, in declaration order.
  function Into(edges: seq<Edge>, n: NodeId): (r: seq<Edge>)
    ensures forall e :: e in r <==> e in edges && e.target.node == n
  {
    if edges == [] then []
    else
      var front, last := edges[..|edges| - 1], edges[|edges| - 1];
      assert edges == front + [last];
      Into(front, n) + if last.target.node == n then [last] else []
  }

  function OutOf(edges: seq<Edge>, n: NodeId): (r: seq<Edge>)
    ensures forall e :: e in r <==> e in edges && e.source.node == n
  {
    if edges == [] then []
    else
      var front, last := edges[..|edges| - 1], edges[|edges| - 1];
      assert edges == front + [last];
      OutOf(front, n) + if last.source.node == n then [last] else []
  }

  function TargetNodes(edges: seq<Edge>): (r: seq<NodeId>)
    ensures |r| == |edges| && forall i | 0 <= i < |edges| :: r[i] == edges[i].target.node
  {
    seq(|edges|, i requires 0 <= i < |edges| => edges[i].target.node)
  }

  lemma {:induction false} TargetsOfOutgoing(edges: seq<Edge>, n: NodeId)
    ensures TargetNodes(OutOf(edges, n)) == Targets(edges, n)
  {
    if edges == [] {
    } else {
      TargetsOfOutgoing(edges[..|edges| - 1], n);
    }
  }

  ghost function FanOutProblems(g: Graph): nat -> seq<Diagnostic> {
    (i: nat) =>
      if i < |g.nodes| && g.policies.maxFanOut.Some?
         && |Targets(g.edges, g.nodes[i].id)| > g.policies.maxFanOut.value
      then [MaxFanOut(g.nodes[i].id, |Targets(g.edges, g.nodes[i].id)|, g.policies.maxFanOut.value)]
      else []
  }

  function DepthProblems(g: Graph, depth: nat): seq<Diagnostic> {
    if g.policies.maxDepth.Some? && depth > g.policies.maxDepth.value
    then [MaxDepth(depth, g.policies.maxDepth.value)] else []
  }

  ghost function PolicyDiagnostics(g: Graph, depth: nat): seq<Diagnostic> {
    Collect(|g.entrypoints|, IncomingProblems(g.edges, g.entrypoints))
    + Collect(|g.nodes|, ReachProblems(g))
    + Collect(|g.nodes|, FanOutProblems(g))
    + DepthProblems(g, depth)
  }

  lemma {:induction false} IncomingProblemsExact(edges: seq<Edge>, entrypoints: seq<NodeId>)
    ensures Collect(|entrypoints|, IncomingProblems(edges, entrypoints)) == []
       <==> forall n | n in entrypoints :: !HasIncoming(edges, n)
  {
    CollectEmpty(|entrypoints|, IncomingProblems(edges, entrypoints));
    if forall i: nat | i < |entrypoints| :: IncomingProblems(edges, entrypoints)(i) == [] {
      forall n | n in entrypoints ensures !HasIncoming(edges, n) {
        var i :| 0 <= i < |entrypoints| && entrypoints[i] == n;
        assert IncomingProblems(edges, entrypoints)(i) == [];
      }
    }
  }

  lemma {:induction false} ReachProblemsExact(g: Graph)
    ensures Collect(|g.nodes|, ReachProblems(g)) == [] <==> forall n | n in Ids(g.nodes) :: FromEntrypoint(g, n)
  {
    CollectEmpty(|g.nodes|, ReachProblems(g));
    if forall i: nat | i < |g.nodes| :: ReachProblems(g)(i) == [] {
      forall n | n in Ids(g.nodes) ensures FromEntrypoint(g, n) {
        var i :| 0 <= i < |g.nodes| && Ids(g.nodes)[i] == n;
        assert ReachProblems(g)(i) == [];
      }
    }
    if forall n | n in Ids(g.nodes) :: FromEntrypoint(g, n) {
      forall i: nat | i < |g.nodes| ensures ReachProblems(g)(i) == [] {
        assert Ids(g.nodes)[i] in Ids(g.nodes);
      }
    }
  }

  lemma {:induction false} FanOutProblemsExact(g: Graph)
    ensures Collect(|g.nodes|, FanOutProblems(g)) == []
       <==> (g.policies.maxFanOut.Some? ==>
               forall n | n in Ids(g.nodes) :: |Targets(g.edges, n)| <= g.policies.maxFanOut.value)
  {
    CollectEmpty(|g.nodes|, FanOutProblems(g));
    if g.policies.maxFanOut.Some? {
      var limit := g.policies.maxFanOut.value;
      if forall i: nat | i < |g.nodes| :: FanOutProblems(g)(i) == [] {
        forall n | n in Ids(g.nodes) ensures |Targets(g.edges, n)| <= limit {
          var i :| 0 <= i < |g.nodes| && Ids(g.nodes)[i] == n;
          assert FanOutProblems(g)(i) == [];
        }
      }
      if forall n | n in Ids(g.nodes) :: |Targets(g.edges, n)| <= limit {
        forall i: nat | i < |g.nodes| ensures FanOutProblems(g)(i) == [] {
          assert Ids(g.nodes)[i] in Ids(g.nodes);
        }
      }
    }
  }

  // The remaining checks are silent exactly when entrypoints are roots, every node is
  // reachable from one, and the fan-out and depth policies are met.
  lemma {:induction false} PolicyDiagnosticsExact(g: Graph, depth: nat)
    ensures PolicyDiagnostics(g, depth) == [] <==>
      && (forall n | n in g.entrypoints :: !HasIncoming(g.edges, n))
      && (forall n | n in Ids(g.nodes) :: FromEntrypoint(g, n))
      && (g.policies.maxFanOut.Some? ==>
            forall n | n in Ids(g.nodes) :: |Targets(g.edges, n)| <= g.policies.maxFanOut.value)
      && (g.policies.maxDepth.Some? ==> depth <= g.policies.maxDepth.value)
  {
    IncomingProblemsExact(g.edges, g.entrypoints);
    ReachProblemsExact(g);
    FanOutProblemsExact(g);
  }

  // First occurrences, in order: `[...new Set(values)]`.
  function Distinct(s: seq<NodeId>): (r: seq<NodeId>)
    ensures forall n :: n in r <==> n in s
    ensures NoDup(r)
  {
    if s == [] then []
    else
      var front, last := Distinct(s[..|s| - 1]), s[|s| - 1];
      assert s == s[..|s| - 1] + [last];
      NoDupAppend(front, last);
      if last in front then front else front + [last]
  }

  // The values of s once each, in the order in which they first occur.
  ghost predicate FirstOccurrences(s: seq<NodeId>, r: seq<NodeId>) {
    && (forall n :: n in r <==> n in s)
    && (forall i, j | 0 <= i < j < |r| ::
          r[i] != r[j] && exists p :: 0 <= p < |s| && s[p] == r[i] && r[j] !in s[..p])
  }

  lemma {:induction false} DistinctInOrder(s: seq<NodeId>)
    ensures FirstOccurrences(s, Distinct(s))
  {
    if s == [] {
    } else {
      var front, last, r := s[..|s| - 1], s[|s| - 1], Distinct(s);
      assert s == front + [last];
      DistinctInOrder(front);
      var before := Distinct(front);
      forall i, j | 0 <= i < j < |r| ensures exists p :: 0 <= p < |s| && s[p] == r[i] && r[j] !in s[..p] {
        if j < |before| {
          var p :| 0 <= p < |front| && front[p] == before[i] && before[j] !in front[..p];
          assert s[..p] == front[..p] && s[p] == r[i];
        } else {
          assert before[i] in front;
          var p :| 0 <= p < |front| && front[p] == before[i];
          assert s[p] == r[i] && s[..p] <= front;
          assert forall n | n in s[..p] :: n in front;
        }
      }
    }
  }

  // The specification of a compilation.
  ghost predicate CompiledAs(g: Graph, r: Compilation) {
    && r.entrypoints == Distinct(g.entrypoints)
    && r.valid == (r.diagnostics == [])
    && if !WellIdentified(g) then
         r.layers == [] && r.diagnostics == IdentityDiagnostics(g)
       else
         && IsLayering(g, r.layers)
         && r.diagnostics == if CycleNodes(g) != [] then [Cycle(CycleNodes(g))]
                             else PolicyDiagnostics(g, |r.layers|)
  }

  lemma {:induction false} LayersInhabited(g: Graph, layers: seq<seq<NodeId>>)
    requires IsLayering(g, layers)
    ensures forall k | 0 <= k < |layers| :: LevelSet(g, k) != {}
  {
    forall k | 0 <= k < |layers| ensures LevelSet(g, k) != {} {
      assert layers[k][0] in layers[k];
    }
  }

  lemma {:induction false} LayeringUnique(g: Graph, a: seq<seq<NodeId>>, b: seq<seq<NodeId>>)
    requires IsLayering(g, a) && IsLayering(g, b)
    ensures a == b
  {
    LayersInhabited(g, a);
    LayersInhabited(g, b);
  }

  // The specification determines the result.
  lemma {:induction false} CompiledAsDeterministic(g: Graph, r: Compilation, s: Compilation)
    requires CompiledAs(g, r) && CompiledAs(g, s)
    ensures r == s
  {
    if WellIdentified(g) {
      LayeringUnique(g, r.layers, s.layers);
    }
  }

  // ---- What the layers of an acyclic graph say ---------------------------------

  lemma {:induction false} LevelUnique(edges: seq<Edge>, n: NodeId, j: nat, k: nat)
    requires Level(edges, n, j) && Level(edges, n, k)
    ensures j == k
  {
    if j < k { DeepDown(edges, n, k, j + 1); }
    if k < j { DeepDown(edges, n, j, k + 1); }
  }

  lemma {:induction false} LevelExists(edges: seq<Edge>, n: NodeId, bound: nat) returns (k: nat)
    requires !Deep(edges, n, bound)
    ensures k < bound && Level(edges, n, k)
  {
    DeepZero(edges, n);
    k := 0;
    while Deep(edges, n, k + 1)
      invariant Deep(edges, n, k) && k < bound
      decreases bound - k
    {
      k := k + 1;
    }
  }

  // Once no node has level k, whatever still has a walk of k edges has walks of every length.
  lemma {:induction false} StuckGrows(g: Graph, n: NodeId, k: nat, m: nat)
    requires WellIdentified(g) && LevelSet(g, k) == {} && k <= m
    requires n in Ids(g.nodes) && Deep(g.edges, n, k)
    ensures Deep(g.edges, n, m)
    decreases m
  {
    assert Deep(g.edges, n, k + 1) by { assert n !in LevelSet(g, k); }
    if k + 1 > m {
    } else {
      var a := DeepPredecessor(g.edges, n, k);
      StuckGrows(g, a, k, m - 1);
      DeepStep(g.edges, a, n, m - 1);
    }
  }

  // Where layering stops, the nodes left over are those downstream of a cycle.
  lemma {:induction false} StuckIffCycle(g: Graph, n: NodeId, k: nat)
    requires WellIdentified(g) && LevelSet(g, k) == {} && n in Ids(g.nodes)
    ensures Deep(g.edges, n, k) <==> DownstreamOfCycle(g.edges, n)
  {
    var ids := Elems(Ids(g.nodes));
    DeepIffCycle(g.edges, n, ids);
    if Deep(g.edges, n, k) {
      StuckGrows(g, n, k, if k < |ids| then |ids| else k);
      DeepDown(g.edges, n, if k < |ids| then |ids| else k, |ids|);
    }
    if DownstreamOfCycle(g.edges, n) {
      CycleUnbounded(g.edges, n, k);
    }
  }

  lemma {:induction false} AcyclicNode(g: Graph, n: NodeId, k: nat)
    requires WellIdentified(g) && CycleNodes(g) == [] && n in Ids(g.nodes) && LevelSet(g, k) == {}
    ensures !Deep(g.edges, n, k)
  {
    StuckIffCycle(g, n, k);
    assert DownstreamOfCycle(g.edges, n) ==> n in CycleNodes(g);
  }

  // On an acyclic graph: every node lies in exactly the layer of its longest incoming walk.
  lemma {:induction false} LayersAreLevels(g: Graph, layers: seq<seq<NodeId>>)
    requires WellIdentified(g) && IsLayering(g, layers) && CycleNodes(g) == []
    ensures forall n, k: nat | n in Ids(g.nodes) && k < |layers| :: n in layers[k] <==> Level(g.edges, n, k)
    ensures forall n | n in Ids(g.nodes) :: exists k: nat :: k < |layers| && n in layers[k]
    ensures forall j: nat, k: nat, n | j < |layers| && k < |layers| && n in layers[j] && n in layers[k] :: j == k
    ensures forall k: nat | k < |layers| :: NoDup(layers[k])
  {
    forall n, k: nat | n in Ids(g.nodes) && k < |layers| ensures n in layers[k] <==> Level(g.edges, n, k) {
      assert layers[k] == Layer(g, k);
    }
    forall n | n in Ids(g.nodes) ensures exists k: nat :: k < |layers| && n in layers[k] {
      AcyclicNode(g, n, |layers|);
      var k := LevelExists(g.edges, n, |layers|);
      assert n in layers[k];
    }
    forall j: nat, k: nat, n | j < |layers| && k < |layers| && n in layers[j] && n in layers[k] ensures j == k {
      LevelUnique(g.edges, n, j, k);
    }
    forall k: nat | k < |layers| ensures NoDup(layers[k]) {
      KeepNoDup(Ids(g.nodes), LevelSet(g, k));
    }
  }

  // Layer indices increase along every edge.
  lemma {:induction false} LayersRespectEdges(g: Graph, layers: seq<seq<NodeId>>, e: Edge, j: nat, k: nat)
    requires WellIdentified(g) && IsLayering(g, layers) && CycleNodes(g) == []
    requires e in g.edges && j < |layers| && k < |layers|
    requires e.source.node in layers[j] && e.target.node in layers[k]
    ensures j < k
  {
    LayersAreLevels(g, layers);
    assert Arc(g.edges, e.source.node, e.target.node);
    DeepStep(g.edges, e.source.node, e.target.node, j);
    if k <= j { DeepDown(g.edges, e.target.node, j + 1, k + 1); }
  }

  // The depth policy fires exactly when some walk visits more nodes than it allows.
  lemma {:induction false} DepthPolicyExact(g: Graph, layers: seq<seq<NodeId>>, limit: nat)
    requires WellIdentified(g) && IsLayering(g, layers) && CycleNodes(g) == []
    ensures |layers| > limit <==> exists p :: IsPath(g.edges, p) && p[|p| - 1] in Ids(g.nodes) && |p| > limit
  {
    if |layers| > limit {
      var n := layers[|layers| - 1][0];
      assert n in layers[|layers| - 1];
      assert Deep(g.edges, n, |layers| - 1);
      var p :| PathInto(g.edges, p, n, |layers| - 1);
      assert IsPath(g.edges, p) && |p| > limit && p[|p| - 1] in Ids(g.nodes);
    }
    if exists p :: IsPath(g.edges, p) && p[|p| - 1] in Ids(g.nodes) && |p| > limit {
      var p :| IsPath(g.edges, p) && p[|p| - 1] in Ids(g.nodes) && |p| > limit;
      var n := p[|p| - 1];
      assert PathInto(g.edges, p, n, |p| - 1);
      AcyclicNode(g, n, |layers|);
      if |layers| <= limit { DeepDown(g.edges, n, |p| - 1, |layers|); }
    }
  }

  // Only which pairs of nodes are joined matters: layers ignore edge order, ids, ports and multiplicity.
  lemma {:induction false} LayersIgnoreEdgeOrder(g: Graph, h: Graph, layers: seq<seq<NodeId>>)
    requires g.nodes == h.nodes
    requires forall a, b :: Arc(g.edges, a, b) <==> Arc(h.edges, a, b)
    ensures IsLayering(g, layers) <==> IsLayering(h, layers)
    ensures CycleNodes(g) == CycleNodes(h)
  {
    forall p ensures IsPath(g.edges, p) <==> IsPath(h.edges, p) {}
    forall n, k: nat ensures Deep(g.edges, n, k) <==> Deep(h.edges, n, k) {
      forall p ensures PathInto(g.edges, p, n, k) <==> PathInto(h.edges, p, n, k) {}
    }
    forall k: nat ensures LevelSet(g, k) == LevelSet(h, k) {}
    forall a, b ensures Reaches(g.edges, a, b) <==> Reaches(h.edges, a, b) {
      forall p ensures PathFromTo(g.edges, p, a, b) <==> PathFromTo(h.edges, p, a, b) {}
    }
    forall n ensures OnCycle(g.edges, n) <==> OnCycle(h.edges, n) {
      forall p ensures PathFromTo(g.edges, p, n, n) <==> PathFromTo(h.edges, p, n, n) {}
    }
    forall n ensures DownstreamOfCycle(g.edges, n) <==> DownstreamOfCycle(h.edges, n) {}
    assert (set n | n in Ids(g.nodes) && DownstreamOfCycle(g.edges, n))
        == (set n | n in Ids(h.nodes) && DownstreamOfCycle(h.edges, n));
  }

  function Flatten(layers: seq<seq<NodeId>>): seq<NodeId> {
    if layers == [] then [] else Flatten(layers[..|layers| - 1]) + layers[|layers| - 1]
  }

  lemma {:induction false} FlattenAppend(layers: seq<seq<NodeId>>, layer: seq<NodeId>)
    ensures Flatten(layers + [layer]) == Flatten(layers) + layer
  {
    assert (layers + [layer])[..|layers|] == layers;
  }

  lemma {:induction false} RootIsEntrypoint(g: Graph, n: NodeId)
    requires FromEntrypoint(g, n) && !HasIncoming(g.edges, n)
    ensures n in g.entrypoints
  {
    var s :| s in g.entrypoints && Reaches(g.edges, s, n);
    var p :| PathFromTo(g.edges, p, s, n);
    assert |p| > 1 ==> Arc(g.edges, p[|p| - 2], p[|p| - 1]);
    assert |p| > 1 ==> HasIncoming(g.edges, n);
  }

  lemma {:induction false} CycleNodesExact(g: Graph)
    ensures forall n :: n in CycleNodes(g) <==> n in Ids(g.nodes) && DownstreamOfCycle(g.edges, n)
    ensures CycleNodes(g) == [] <==> forall n | n in Ids(g.nodes) :: !DownstreamOfCycle(g.edges, n)
  {
    if CycleNodes(g) != [] {
      assert CycleNodes(g)[0] in CycleNodes(g);
    }
  }

  // What a valid verdict guarantees, both ways.
  lemma {:induction false} ValidMeans(g: Graph, r: Compilation)
    requires CompiledAs(g, r)
    ensures r.valid <==>
      && WellIdentified(g)
      && (forall n | n in Ids(g.nodes) :: !DownstreamOfCycle(g.edges, n))
      && (forall n | n in g.entrypoints :: !HasIncoming(g.edges, n))
      && (forall n | n in Ids(g.nodes) :: FromEntrypoint(g, n))
      && (g.policies.maxFanOut.Some? ==>
            forall n | n in Ids(g.nodes) :: |Targets(g.edges, n)| <= g.policies.maxFanOut.value)
      && (g.policies.maxDepth.Some? ==> |r.layers| <= g.policies.maxDepth.value)
  {
    IdentityDiagnosticsExact(g);
    PolicyDiagnosticsExact(g, |r.layers|);
    assert CycleNodes(g) == [] <==> forall n | n in Ids(g.nodes) :: !DownstreamOfCycle(g.edges, n) by {
      CycleNodesExact(g);
    }
  }

  // A valid compilation makes the entrypoints exactly the nodes without incoming edges.
  lemma {:induction false} EntrypointsAreRoots(g: Graph, r: Compilation, n: NodeId)
    requires CompiledAs(g, r) && r.valid && n in Ids(g.nodes)
    ensures n in g.entrypoints <==> !HasIncoming(g.edges, n)
  {
    ValidMeans(g, r);
    if !HasIncoming(g.edges, n) {
      RootIsEntrypoint(g, n);
    }
  }
}
