/**
 The ready-queue part of both schedulers: in-degree counters, the sorted ready list,
 skipping below failures, input binding and settling. What happens inside a launched
 node is left open here; the invariant below holds whatever results tasks deliver.
 */
module ReadyQueue {
  import opened Wrappers
  import opened Sequences
  import opened Text
  import opened Json
  import opened Graphs
  import opened CompilerSpec
  import Compiler

  datatype Status = Succeeded | Failed | Skipped

  datatype FailureCode =
    | ExecutorNotFound | NodeExecutionFailed | NodeTimeout | NodeCancelled
    | InvalidOutput | UpstreamFailed | InputBindingFailed | AttemptBudgetExhausted

  datatype NodeFailure = NodeFailure(
    node: NodeId, code: FailureCode, attempt: nat, retryable: bool, upstream: seq<NodeId>)

  datatype NodeResult = NodeResult(
    node: NodeId, sequence: nat, status: Status, attempts: nat,
    input: Option<Json>, output: Option<Json>, failure: Option<NodeFailure>)

  // An accepted graph together with its compilation and the graph input.
  datatype Plan = Plan(g: Graph, compilation: Compilation, input: Json) {
    function Order(): seq<NodeId> {
      Flatten(compilation.layers)
    }

    ghost predicate Accepted() {
      CompiledAs(g, compilation) && compilation.valid
    }
  }

  // ---- The compiled order --------------------------------------------------------

  // Position in the topological order: the `sequence` map of the scheduler.
  function Sequence(order: seq<NodeId>): map<NodeId, nat> {
    map n | n in order :: IndexOf(order, n)
  }

  lemma {:induction false} FlattenMembers(layers: seq<seq<NodeId>>, n: NodeId)
    ensures n in Flatten(layers) <==> exists k: nat :: k < |layers| && n in layers[k]
  {
    if layers == [] {
    } else {
      var front, last := layers[..|layers| - 1], layers[|layers| - 1];
      FlattenMembers(front, n);
      if n in Flatten(front) {
        var k: nat :| k < |front| && n in front[k];
        assert n in layers[k];
      } else if n in last {
        assert n in layers[|layers| - 1];
      }
      if exists k: nat :: k < |layers| && n in layers[k] {
        var k: nat :| k < |layers| && n in layers[k];
        assert k < |front| ==> n in front[k];
      }
    }
  }

  lemma {:induction false} FlattenNoDup(layers: seq<seq<NodeId>>)
    requires forall k: nat | k < |layers| :: NoDup(layers[k])
    requires forall j: nat, k: nat, n | j < |layers| && k < |layers| && n in layers[j] && n in layers[k] :: j == k
    ensures NoDup(Flatten(layers))
  {
    if layers == [] {
    } else {
      var front, last := layers[..|layers| - 1], layers[|layers| - 1];
      FlattenNoDup(front);
      forall n | n in last ensures n !in Flatten(front) {
        FlattenMembers(front, n);
      }
      NoDupConcat(Flatten(front), last);
    }
  }

  lemma {:induction false} IndexInConcat(a: seq<NodeId>, b: seq<NodeId>, n: NodeId)
    requires n in a + b
    ensures n in a ==> IndexOf(a + b, n) == IndexOf(a, n)
    ensures n !in a ==> IndexOf(a + b, n) >= |a|
  {
    var i := IndexOf(a + b, n);
    if n in a {
      var j := IndexOf(a, n);
      assert (a + b)[j] == n;
    }
  }

  // Nodes of an earlier layer come earlier in the order.
  lemma {:induction false} FlattenOrder(layers: seq<seq<NodeId>>, j: nat, k: nat, a: NodeId, b: NodeId)
    requires forall i: nat, l: nat, n | i < |layers| && l < |layers| && n in layers[i] && n in layers[l] :: i == l
    requires j < k < |layers| && a in layers[j] && b in layers[k]
    ensures a in Flatten(layers) && b in Flatten(layers)
    ensures IndexOf(Flatten(layers), a) < IndexOf(Flatten(layers), b)
  {
    var front, last := layers[..|layers| - 1], layers[|layers| - 1];
    FlattenMembers(layers, a);
    FlattenMembers(layers, b);
    FlattenMembers(front, a);
    FlattenMembers(front, b);
    assert a in front[j];
    IndexInConcat(Flatten(front), last, a);
    IndexInConcat(Flatten(front), last, b);
    if k >= |front| {
    } else {
      assert b in front[k];
      FlattenOrder(front, j, k, a, b);
    }
  }

  ghost predicate Topological(g: Graph, order: seq<NodeId>) {
    && NoDup(order)
    && (forall n :: n in order <==> n in Ids(g.nodes))
    && (forall e | e in g.edges ::
          e.source.node in order && e.target.node in order
          && IndexOf(order, e.source.node) < IndexOf(order, e.target.node))
  }

  lemma {:induction false} LayerMembers(g: Graph, layers: seq<seq<NodeId>>, n: NodeId)
    requires IsLayering(g, layers)
    ensures forall k: nat | k < |layers| && n in layers[k] :: n in Ids(g.nodes)
  {
    forall k: nat | k < |layers| && n in layers[k] ensures n in Ids(g.nodes) {
      assert layers[k] == Layer(g, k);
    }
  }

  lemma {:induction false} OrderHoldsNodes(g: Graph, layers: seq<seq<NodeId>>)
    requires WellIdentified(g) && IsLayering(g, layers) && CycleNodes(g) == []
    ensures NoDup(Flatten(layers))
    ensures forall n :: n in Flatten(layers) <==> n in Ids(g.nodes)
  {
    LayersAreLevels(g, layers);
    FlattenNoDup(layers);
    forall n ensures n in Flatten(layers) <==> n in Ids(g.nodes) {
      FlattenMembers(layers, n);
      LayerMembers(g, layers, n);
    }
  }

  lemma {:induction false} OrderRespectsEdge(g: Graph, layers: seq<seq<NodeId>>, e: Edge)
    requires WellIdentified(g) && IsLayering(g, layers) && CycleNodes(g) == [] && e in g.edges
    ensures e.source.node in Flatten(layers) && e.target.node in Flatten(layers)
    ensures IndexOf(Flatten(layers), e.source.node) < IndexOf(Flatten(layers), e.target.node)
  {
    LayersAreLevels(g, layers);
    var j: nat :| j < |layers| && e.source.node in layers[j];
    var k: nat :| k < |layers| && e.target.node in layers[k];
    LayersRespectEdges(g, layers, e, j, k);
    FlattenOrder(layers, j, k, e.source.node, e.target.node);
  }

  // The compiler's layers, read in order, are a topological order of all nodes.
  lemma {:induction false} OrderIsTopological(plan: Plan)
    requires plan.Accepted()
    ensures Topological(plan.g, plan.Order()) && WellIdentified(plan.g)
  {
    var g, layers := plan.g, plan.compilation.layers;
    ValidMeans(g, plan.compilation);
    CycleNodesExact(g);
    OrderHoldsNodes(g, layers);
    forall e | e in g.edges
      ensures e.source.node in plan.Order() && e.target.node in plan.Order()
      ensures IndexOf(plan.Order(), e.source.node) < IndexOf(plan.Order(), e.target.node)
    {
      OrderRespectsEdge(g, layers, e);
    }
  }

  // ---- Edges by node ------------------------------------------------------------------

  predicate EdgeLeq(a: Edge, b: Edge) {
    TextLeq(a.id.text, b.id.text)
  }

  // Incoming and outgoing edges in edge-id order.
  function Incoming(g: Graph, n: NodeId): seq<Edge> {
    Sort(Into(g.edges, n), EdgeLeq)
  }

  function Outgoing(g: Graph, n: NodeId): seq<Edge> {
    Sort(OutOf(g.edges, n), EdgeLeq)
  }

  lemma {:induction false} IncomingMembers(g: Graph, n: NodeId)
    ensures forall e :: e in Incoming(g, n) <==> e in g.edges && e.target.node == n
  {
    SortMembers(Into(g.edges, n), EdgeLeq);
  }

  lemma {:induction false} TargetNodesAppend(s: seq<Edge>, e: Edge)
    ensures TargetNodes(s + [e]) == TargetNodes(s) + [e.target.node]
  {}

  lemma {:induction false} InsertTargets(e: Edge, s: seq<Edge>)
    ensures multiset(TargetNodes(Insert(e, s, EdgeLeq))) == multiset{e.target.node} + multiset(TargetNodes(s))
  {
    hide TargetNodes, EdgeLeq;
    if s == [] {
      TargetNodesAppend([], e);
      assert [] + [e] == [e];
    } else {
      var front, last := s[..|s| - 1], s[|s| - 1];
      assert s == front + [last];
      TargetNodesAppend(s, e);
      TargetNodesAppend(front, last);
      InsertTargets(e, front);
      TargetNodesAppend(Insert(e, front, EdgeLeq), last);
    }
  }

  lemma {:induction false} SortTargets(s: seq<Edge>)
    ensures multiset(TargetNodes(Sort(s, EdgeLeq))) == multiset(TargetNodes(s))
  {
    hide TargetNodes, EdgeLeq, Insert;
    if s == [] {
    } else {
      var front, last := s[..|s| - 1], s[|s| - 1];
      SortTargets(front);
      InsertTargets(last, Sort(front, EdgeLeq));
      TargetNodesAppend(front, last);
      assert s == front + [last];
    }
  }

  lemma {:induction false} OutgoingTargets(g: Graph, n: NodeId)
    ensures multiset(TargetNodes(Outgoing(g, n))) == multiset(Targets(g.edges, n))
  {
    SortTargets(OutOf(g.edges, n));
    TargetsOfOutgoing(g.edges, n);
  }

  // ---- The state -----------------------------------------------------------------------

  // `scheduled` and `completed` are the Python scheduler's orders; in the TypeScript
  // scheduler they are history.
  datatype Core = Core(
    results: map<NodeId, NodeResult>, remaining: map<NodeId, int>, ready: seq<NodeId>,
    active: map<NodeId, Json>, scheduled: seq<NodeId>, completed: seq<NodeId>)

  predicate HasSucceeded(results: map<NodeId, NodeResult>, n: NodeId) {
    n in results && results[n].status == Succeeded
  }

  predicate NodeLeq(a: NodeId, b: NodeId) {
    TextLeq(a.text, b.text)
  }

  function Unsuccessful(edges: seq<Edge>, results: map<NodeId, NodeResult>): (r: seq<NodeId>)
    ensures forall n :: n in r <==> exists e :: e in edges && e.source.node == n && !HasSucceeded(results, n)
  {
    if edges == [] then []
    else
      var front, last := edges[..|edges| - 1], edges[|edges| - 1];
      assert edges == front + [last];
      Unsuccessful(front, results) + if HasSucceeded(results, last.source.node) then [] else [last.source.node]
  }

  // The distinct direct predecessors that did not succeed, in id order.
  function FailedUpstream(g: Graph, results: map<NodeId, NodeResult>, n: NodeId): seq<NodeId> {
    Sort(Distinct(Unsuccessful(Incoming(g, n), results)), NodeLeq)
  }

  lemma {:induction false} FailedUpstreamMembers(g: Graph, results: map<NodeId, NodeResult>, n: NodeId)
    ensures forall p :: p in FailedUpstream(g, results, n) <==> Arc(g.edges, p, n) && !HasSucceeded(results, p)
    ensures FailedUpstream(g, results, n) == [] <==> forall p | Arc(g.edges, p, n) :: HasSucceeded(results, p)
  {
    var raw := Unsuccessful(Incoming(g, n), results);
    SortMembers(Distinct(raw), NodeLeq);
    IncomingMembers(g, n);
    forall p ensures p in FailedUpstream(g, results, n) <==> Arc(g.edges, p, n) && !HasSucceeded(results, p) {
      assert p in FailedUpstream(g, results, n) <==> p in raw;
      if Arc(g.edges, p, n) {
        var e :| e in g.edges && e.source.node == p && e.target.node == n;
        assert e in Incoming(g, n);
      }
    }
    if FailedUpstream(g, results, n) != [] {
      assert FailedUpstream(g, results, n)[0] in FailedUpstream(g, results, n);
    }
  }

  lemma {:induction false} NodesOrdered(s: seq<NodeId>)
    ensures OrderOn(NodeLeq, s)
  {
    hide Compare;
    forall a, b ensures NodeLeq(a, b) || NodeLeq(b, a) { CompareIsTotalOrder(a.text, b.text, a.text); }
    forall a, b | NodeLeq(a, b) && NodeLeq(b, a) ensures a == b { CompareIsTotalOrder(a.text, b.text, a.text); }
    forall a, b, c | NodeLeq(a, b) && NodeLeq(b, c) ensures NodeLeq(a, c) {
      CompareIsTotalOrder(a.text, b.text, c.text);
    }
  }

  // They are listed once each, in id order.
  lemma {:induction false} FailedUpstreamListed(g: Graph, results: map<NodeId, NodeResult>, n: NodeId)
    ensures var upstream := FailedUpstream(g, results, n);
            NoDup(upstream) && forall i, j | 0 <= i < j < |upstream| :: Compare(upstream[i].text, upstream[j].text) < 0
  {
    hide Unsuccessful, Compare, Sort;
    var found, upstream := Distinct(Unsuccessful(Incoming(g, n), results)), FailedUpstream(g, results, n);
    PermutationNoDup(found, upstream);
    NodesOrdered(found);
    SortSorted(found, NodeLeq);
    forall i, j | 0 <= i < j < |upstream| ensures Compare(upstream[i].text, upstream[j].text) < 0 {
      CompareIsTotalOrder(upstream[i].text, upstream[j].text, upstream[i].text);
      assert NodeLeq(upstream[i], upstream[j]) && upstream[i] != upstream[j];
    }
  }

  // ---- Input binding ----------------------------------------------------------------------

  function ElementNamed(items: seq<Json>, name: JsString, from: nat): Option<Json>
    requires from <= |items|
    decreases |items| - from
  {
    if from == |items| then None
    else if Decimal(from) == name then Some(items[from])
    else ElementNamed(items, name, from + 1)
  }

  // An own property of a plain value: a key of an object, or an index or the length of an array.
  function OwnProperty(v: Json, port: JsString): Option<Json> {
    match v
    case Obj(fields) => Lookup(fields, port)
    case Arr(items) => if port == Ascii("length") then Some(Num(|items|)) else ElementNamed(items, port, 0)
    case _ => None
  }

  function EndpointValue(endpoint: Endpoint, v: Json): Option<Json> {
    if endpoint.port.None? then Some(v) else OwnProperty(v, endpoint.port.value)
  }

  function InputKey(e: Edge): JsString {
    if e.target.port.Some? then e.target.port.value else e.source.node.text
  }

  function OutputOf(results: map<NodeId, NodeResult>, n: NodeId): Option<Json> {
    if n in results then results[n].output else None
  }

  // The fields bound so far by the edges, or None on a collision or a missing port.
  function BindEdges(edges: seq<Edge>, results: map<NodeId, NodeResult>): Option<seq<Field>> {
    if edges == [] then Some([])
    else
      var front, last := edges[..|edges| - 1], edges[|edges| - 1];
      var bound := BindEdges(front, results);
      var output := OutputOf(results, last.source.node);
      if bound.None? || Lookup(bound.value, InputKey(last)).Some? || output.None? then None
      else
        var value := EndpointValue(last.source, output.value);
        if value.None? then None else Some(bound.value + [Field(InputKey(last), value.value)])
  }

  // `bindNodeInput`: the graph input for a root, else the object of bound values, snapshotted.
  function BindInput(plan: Plan, results: map<NodeId, NodeResult>, n: NodeId): Option<Json> {
    var incoming := Incoming(plan.g, n);
    if incoming == [] then Some(plan.input)
    else
      var bound := BindEdges(incoming, results);
      if bound.None? then None else Some(Canon(Obj(bound.value)))
  }

  // ---- Transitions ------------------------------------------------------------------------

  function Rank(plan: Plan, n: NodeId): nat {
    if n in plan.Order() then IndexOf(plan.Order(), n) else 0
  }

  // `settle`: record the result, lower the targets' counters, queue those that reach zero.
  function Settle(plan: Plan, c: Core, n: NodeId, r: NodeResult): Core {
    var (remaining, ready) := Compiler.Lower(TargetNodes(Outgoing(plan.g, n)), c.remaining, c.ready);
    Core(c.results[n := r], remaining, Sort(ready, Compiler.ByDeclaration(Sequence(plan.Order()))),
         c.active - {n}, c.scheduled, c.completed + [n])
  }

  function SkippedResult(plan: Plan, n: NodeId, cancelled: bool, upstream: seq<NodeId>): NodeResult {
    NodeResult(n, Rank(plan, n), Skipped, 0, None, None,
      Some(if cancelled then NodeFailure(n, NodeCancelled, 0, false, [])
           else NodeFailure(n, UpstreamFailed, 0, false, upstream)))
  }

  function UnboundResult(plan: Plan, n: NodeId): NodeResult {
    NodeResult(n, Rank(plan, n), Failed, 0, None, None, Some(NodeFailure(n, InputBindingFailed, 0, false, [])))
  }

  datatype Launch = Skip(result: NodeResult) | Activate(input: Json)

  // What launching a ready node leads to.
  function LaunchOf(plan: Plan, results: map<NodeId, NodeResult>, n: NodeId, cancelled: bool): Launch {
    var upstream := FailedUpstream(plan.g, results, n);
    if cancelled || upstream != [] then Skip(SkippedResult(plan, n, cancelled, upstream))
    else
      var input := BindInput(plan, results, n);
      if input.None? then Skip(UnboundResult(plan, n)) else Activate(input.value)
  }

  // The first ready node is taken off the queue.
  function Popped(c: Core): Core
    requires c.ready != []
  {
    c.(ready := c.ready[1..], scheduled := c.scheduled + [c.ready[0]])
  }

  // One turn of the `launchReady` loop.
  function LaunchNext(plan: Plan, c: Core, cancelled: bool): Core
    requires c.ready != []
  {
    var n := c.ready[0];
    match LaunchOf(plan, c.results, n, cancelled)
    case Skip(r) => Settle(plan, Popped(c), n, r)
    case Activate(input) => Popped(c).(active := c.active[n := input])
  }

  // Up to k turns of the loop.
  function LaunchTurns(plan: Plan, c: Core, cancelled: bool, k: nat): Core
    decreases k
  {
    hide LaunchNext;
    if k == 0 || c.ready == [] then c else LaunchTurns(plan, LaunchNext(plan, c, cancelled), cancelled, k - 1)
  }

  // `launchReady`. The loop ends because no node is queued twice; as many turns as the
  // order has nodes are enough (`Readiness.LaunchAllInv`).
  function LaunchAll(plan: Plan, c: Core, cancelled: bool): Core {
    LaunchTurns(plan, c, cancelled, |plan.Order()|)
  }

  ghost function Initial(plan: Plan): Core {
    var order := plan.Order();
    var remaining := map n | n in order :: Compiler.InCount(plan.g.edges, {}, n) as int;
    Core(map[], remaining, Keep(order, set n | n in order && remaining[n] == 0), map[], [], [])
  }
}
