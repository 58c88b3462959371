/** The bounded loop, unrolled: each round finds then checks, and every check feeds finalize. */
module LoopPatterns {
  import opened Wrappers
  import opened Sequences
  import opened Text
  import opened CanonicalForm
  import opened Graphs
  import opened CompilerSpec
  import opened GradedGraphs
  import opened Patterns

  datatype Round = Round(key: Key, find: Node, checkDry: Node)

  function ItemsPort(): JsString { Ascii("items") }
  function VerdictPort(): JsString { Ascii("previousVerdict") }

  // find and check alternate, finalize comes last.
  function LoopNodes(rounds: seq<Round>, finalize: Node): (r: seq<Node>)
    ensures |r| == 2 * |rounds| + 1 && r[2 * |rounds|] == finalize
    ensures forall i | 0 <= i < |rounds| :: r[2 * i] == rounds[i].find && r[2 * i + 1] == rounds[i].checkDry
  {
    if rounds == [] then [finalize]
    else [rounds[0].find, rounds[0].checkDry] + LoopNodes(rounds[1..], finalize)
  }

  function FindToCheck(r: Round, index: nat): Edge {
    Edge(IdOf(LoopUntilDry, index), Endpoint(r.find.id, None), Endpoint(r.checkDry.id, Some(ItemsPort())))
  }

  function CheckToFinalize(r: Round, finalize: Node, index: nat): Edge {
    Edge(IdOf(LoopUntilDry, index), Endpoint(r.checkDry.id, None), Endpoint(finalize.id, Some(r.key.text)))
  }

  function CheckToNext(r: Round, next: Round, index: nat): Edge {
    Edge(IdOf(LoopUntilDry, index), Endpoint(r.checkDry.id, None), Endpoint(next.find.id, Some(VerdictPort())))
  }

  function LoopEdgeCount(rounds: seq<Round>): nat {
    if rounds == [] then 0 else 3 * |rounds| - 1
  }

  // The j-th edge belongs to round j / 3.
  function LoopEdgeAt(rounds: seq<Round>, finalize: Node, j: nat): Edge
    requires j < LoopEdgeCount(rounds)
  {
    var i := j / 3;
    if j % 3 == 0 then FindToCheck(rounds[i], j + 1)
    else if j % 3 == 1 then CheckToFinalize(rounds[i], finalize, j + 1)
    else CheckToNext(rounds[i], rounds[i + 1], j + 1)
  }

  function LoopEdges(rounds: seq<Round>, finalize: Node): (r: seq<Edge>)
    ensures |r| == LoopEdgeCount(rounds)
    ensures forall j | 0 <= j < |r| :: r[j] == LoopEdgeAt(rounds, finalize, j)
  {
    seq(LoopEdgeCount(rounds), j requires 0 <= j < LoopEdgeCount(rounds) => LoopEdgeAt(rounds, finalize, j))
  }

  function LoopGraph(rounds: seq<Round>, finalize: Node, outputKey: Key, policies: Policies): Graph
    requires rounds != []
  {
    Assemble(LoopNodes(rounds, finalize), LoopEdges(rounds, finalize), rounds[0].find.id, finalize.id, outputKey,
        policies)
  }

  method BuildEdges(rounds: seq<Round>, finalize: Node) returns (edges: seq<Edge>)
    ensures edges == LoopEdges(rounds, finalize)
  {
    hide FindToCheck, CheckToFinalize, CheckToNext;
    edges := [];
    var edgeIndex := 1;
    for index := 0 to |rounds|
      invariant |edges| == if index == |rounds| then LoopEdgeCount(rounds) else 3 * index
      invariant index < |rounds| ==> edgeIndex == 3 * index + 1
      invariant forall j | 0 <= j < |edges| :: edges[j] == LoopEdgeAt(rounds, finalize, j)
    {
      edges := edges + [FindToCheck(rounds[index], edgeIndex)];
      edgeIndex := edgeIndex + 1;
      edges := edges + [CheckToFinalize(rounds[index], finalize, edgeIndex)];
      edgeIndex := edgeIndex + 1;
      if index + 1 < |rounds| {
        edges := edges + [CheckToNext(rounds[index], rounds[index + 1], edgeIndex)];
        edgeIndex := edgeIndex + 1;
      }
    }
  }

  // ---- What the compiler makes of it ----------------------------------------------------------

  function LoopIds(rounds: seq<Round>, finalize: Node): (r: seq<NodeId>)
    ensures |r| == 2 * |rounds| + 1 && r[2 * |rounds|] == finalize.id
    ensures forall i | 0 <= i < |rounds| :: r[2 * i] == rounds[i].find.id && r[2 * i + 1] == rounds[i].checkDry.id
  {
    Ids(LoopNodes(rounds, finalize))
  }

  // Where the j-th edge starts and ends among the node ids.
  function From(j: nat): nat {
    if j % 3 == 0 then 2 * (j / 3) else 2 * (j / 3) + 1
  }

  function To(n: nat, j: nat): nat {
    if j % 3 == 0 then 2 * (j / 3) + 1 else if j % 3 == 1 then 2 * n else 2 * (j / 3) + 2
  }

  lemma {:induction false} EdgeEnds(rounds: seq<Round>, finalize: Node, j: nat)
    requires j < LoopEdgeCount(rounds)
    ensures From(j) < To(|rounds|, j) <= 2 * |rounds|
    ensures LoopEdgeAt(rounds, finalize, j).source == Endpoint(LoopIds(rounds, finalize)[From(j)], None)
    ensures LoopEdgeAt(rounds, finalize, j).target.node == LoopIds(rounds, finalize)[To(|rounds|, j)]
  {
    hide IdOf, LoopNodes, LoopIds;
  }

  // Every node but the first has an incoming edge from the node before it.
  function StepInto(n: nat, k: nat): nat
    requires 0 < k <= 2 * n
  {
    if k == 2 * n then 3 * (n - 1) + 1 else if k % 2 == 1 then 3 * (k / 2) else 3 * (k / 2 - 1) + 2
  }

  lemma {:induction false} StepEnds(rounds: seq<Round>, k: nat)
    requires 0 < k <= 2 * |rounds|
    ensures var j := StepInto(|rounds|, k); j < LoopEdgeCount(rounds) && From(j) == k - 1 && To(|rounds|, j) == k
  {}

  ghost function LoopRank(rounds: seq<Round>, finalize: Node): Ranking {
    n => if n in LoopIds(rounds, finalize) then IndexOf(LoopIds(rounds, finalize), n) else 0
  }

  lemma {:induction false} RankOfId(rounds: seq<Round>, finalize: Node, k: nat)
    requires NoDup(LoopIds(rounds, finalize)) && k <= 2 * |rounds|
    ensures LoopRank(rounds, finalize)(LoopIds(rounds, finalize)[k]) == k
  {
    hide LoopIds;
    IndexIsPosition(LoopIds(rounds, finalize), k);
  }

  lemma {:induction false} IdOfRank(rounds: seq<Round>, finalize: Node, n: NodeId)
    requires n in LoopIds(rounds, finalize)
    ensures LoopRank(rounds, finalize)(n) <= 2 * |rounds|
    ensures LoopIds(rounds, finalize)[LoopRank(rounds, finalize)(n)] == n
  {
    hide LoopIds;
  }

  lemma {:induction false} LoopIdentified(rounds: seq<Round>, finalize: Node, outputKey: Key, policies: Policies)
    requires rounds != [] && NoDup(LoopIds(rounds, finalize))
    ensures WellIdentified(LoopGraph(rounds, finalize, outputKey, policies))
  {
    hide IdOf, LoopNodes;
    var g, ids := LoopGraph(rounds, finalize, outputKey, policies), LoopIds(rounds, finalize);
    forall j | 0 <= j < |g.edges| ensures g.edges[j].id == IdOf(LoopUntilDry, j + 1) {}
    NumberedDistinct(LoopUntilDry, g.edges);
    forall e | e in g.edges ensures e.source.node in ids && e.target.node in ids {
      var j :| 0 <= j < |g.edges| && g.edges[j] == e;
      EdgeEnds(rounds, finalize, j);
    }
    assert ids[0] == rounds[0].find.id;
  }

  lemma {:induction false} LoopClimbs(rounds: seq<Round>, finalize: Node)
    requires NoDup(LoopIds(rounds, finalize))
    ensures Climbs(LoopEdges(rounds, finalize), LoopRank(rounds, finalize))
  {
    hide LoopEdgeAt, LoopIds, LoopRank, From, To;
    var edges := LoopEdges(rounds, finalize);
    forall e | e in edges ensures
      LoopRank(rounds, finalize)(e.source.node) < LoopRank(rounds, finalize)(e.target.node)
    {
      var j :| 0 <= j < |edges| && edges[j] == e;
      EdgeEnds(rounds, finalize, j);
      RankOfId(rounds, finalize, From(j));
      RankOfId(rounds, finalize, To(|rounds|, j));
    }
  }

  lemma {:induction false} LoopSteps(rounds: seq<Round>, finalize: Node, n: NodeId)
    requires NoDup(LoopIds(rounds, finalize)) && n in LoopIds(rounds, finalize) && LoopRank(rounds, finalize)(n) > 0
    ensures HasStep(LoopEdges(rounds, finalize), LoopRank(rounds, finalize), n)
  {
    hide LoopEdgeAt, LoopIds, LoopRank, From, To;
    IdOfRank(rounds, finalize, n);
    var edges, k := LoopEdges(rounds, finalize), LoopRank(rounds, finalize)(n);
    StepEnds(rounds, k);
    var j := StepInto(|rounds|, k);
    EdgeEnds(rounds, finalize, j);
    RankOfId(rounds, finalize, k - 1);
    assert edges[j] in edges && edges[j].target.node == n;
  }

  lemma {:induction false} LoopGraded(rounds: seq<Round>, finalize: Node, outputKey: Key, policies: Policies)
    requires rounds != [] && NoDup(LoopIds(rounds, finalize))
    ensures Graded(LoopGraph(rounds, finalize, outputKey, policies), LoopRank(rounds, finalize))
  {
    hide LoopEdges, LoopNodes, WellIdentified, HasStep, Climbs, LoopRank;
    LoopIdentified(rounds, finalize, outputKey, policies);
    LoopClimbs(rounds, finalize);
    forall n | n in LoopIds(rounds, finalize) && LoopRank(rounds, finalize)(n) > 0
      ensures HasStep(LoopEdges(rounds, finalize), LoopRank(rounds, finalize), n)
    {
      LoopSteps(rounds, finalize, n);
    }
  }

  // One node per layer.
  function Chain(ids: seq<NodeId>): (r: seq<seq<NodeId>>)
    ensures |r| == |ids| && forall k | 0 <= k < |ids| :: r[k] == [ids[k]]
  {
    seq(|ids|, k requires 0 <= k < |ids| => [ids[k]])
  }

  lemma {:induction false} KeepSingle(ids: seq<NodeId>, n: NodeId)
    requires NoDup(ids)
    ensures Keep(ids, {n}) == if n in ids then [n] else []
  {
    if ids == [] {
    } else {
      var front, last := ids[..|ids| - 1], ids[|ids| - 1];
      assert ids == front + [last];
      NoDupAppend(front, last);
      KeepSingle(front, n);
    }
  }

  lemma {:induction false} LoopLayer(g: Graph, rounds: seq<Round>, finalize: Node, k: nat)
    requires NoDup(LoopIds(rounds, finalize)) && Ids(g.nodes) == LoopIds(rounds, finalize)
    ensures k <= 2 * |rounds| ==> OfRank(g, LoopRank(rounds, finalize), k) == {LoopIds(rounds, finalize)[k]}
    ensures k == 2 * |rounds| + 1 ==> OfRank(g, LoopRank(rounds, finalize), k) == {}
  {
    hide LoopIds, LoopRank;
    forall n | n in OfRank(g, LoopRank(rounds, finalize), k)
      ensures k <= 2 * |rounds| && n == LoopIds(rounds, finalize)[k]
    {
      IdOfRank(rounds, finalize, n);
    }
    if k <= 2 * |rounds| {
      RankOfId(rounds, finalize, k);
      assert LoopIds(rounds, finalize)[k] in LoopIds(rounds, finalize);
    }
  }

  lemma {:induction false} LoopLayering(rounds: seq<Round>, finalize: Node, outputKey: Key, policies: Policies)
    requires rounds != [] && NoDup(LoopIds(rounds, finalize))
    ensures IsLayering(LoopGraph(rounds, finalize, outputKey, policies), Chain(LoopIds(rounds, finalize)))
  {
    hide Graded, IsLayering, LoopNodes, LoopEdges, OfRank, LoopRank, Chain, Keep;
    var g, ids := LoopGraph(rounds, finalize, outputKey, policies), LoopIds(rounds, finalize);
    LoopGraded(rounds, finalize, outputKey, policies);
    forall k: nat | k < |ids|
      ensures Chain(ids)[k] == Keep(Ids(g.nodes), OfRank(g, LoopRank(rounds, finalize), k)) && Chain(ids)[k] != []
    {
      LoopLayer(g, rounds, finalize, k);
      KeepSingle(ids, ids[k]);
    }
    LoopLayer(g, rounds, finalize, |ids|);
    GradedLayering(g, LoopRank(rounds, finalize), Chain(ids));
  }

  // ---- Fan-out ---------------------------------------------------------------------------------

  // The indices of the edges that leave the k-th node.
  function LeavingIndices(n: nat, k: nat): set<int> {
    if k >= 2 * n then {}
    else if k % 2 == 0 then {3 * (k / 2)}
    else if k == 2 * n - 1 then {3 * (k / 2) + 1}
    else {3 * (k / 2) + 1, 3 * (k / 2) + 2}
  }

  lemma {:induction false} FromExact(n: nat, j: nat, k: nat)
    requires n > 0 && j < 3 * n - 1 && k <= 2 * n
    ensures From(j) == k <==> j in LeavingIndices(n, k)
  {}

  lemma {:induction false} IndicesInside(n: nat, k: nat)
    requires n > 0 && k <= 2 * n
    ensures forall j | j in LeavingIndices(n, k) :: 0 <= j < 3 * n - 1
    ensures |LeavingIndices(n, k)| <= if n >= 2 then 2 else 1
    ensures k == 1 && n >= 2 ==> |LeavingIndices(n, k)| == 2
    ensures k == 0 ==> |LeavingIndices(n, k)| == 1
  {}

  lemma {:induction false} LoopLeaving(rounds: seq<Round>, finalize: Node, k: nat)
    requires rounds != [] && NoDup(LoopIds(rounds, finalize)) && k <= 2 * |rounds|
    ensures LeavingAt(LoopEdges(rounds, finalize), LoopIds(rounds, finalize)[k]) == LeavingIndices(|rounds|, k)
  {
    hide LoopEdgeAt, LoopIds, From, To, LeavingIndices;
    var ids, edges := LoopIds(rounds, finalize), LoopEdges(rounds, finalize);
    forall j: nat | j < |edges| ensures edges[j].source.node == ids[k] <==> j in LeavingIndices(|rounds|, k) {
      EdgeEnds(rounds, finalize, j);
      FromExact(|rounds|, j, k);
      SamePosition(ids, From(j), k);
    }
    IndicesInside(|rounds|, k);
  }

  lemma {:induction false} LoopTargets(rounds: seq<Round>, finalize: Node, k: nat)
    requires rounds != [] && NoDup(LoopIds(rounds, finalize)) && k <= 2 * |rounds|
    ensures |Targets(LoopEdges(rounds, finalize), LoopIds(rounds, finalize)[k])| == |LeavingIndices(|rounds|, k)|
  {
    hide LoopEdges, LoopIds, LeavingIndices;
    LoopLeaving(rounds, finalize, k);
    TargetsCount(LoopEdges(rounds, finalize), LoopIds(rounds, finalize)[k]);
  }

  function WidestFanOut(n: nat): nat {
    if n >= 2 then 2 else 1
  }

  // The caller's policies leave room for n rounds.
  predicate LoopAllowed(n: nat, policies: Policies) {
    && (policies.maxFanOut.Some? ==> WidestFanOut(n) <= policies.maxFanOut.value)
    && (policies.maxDepth.Some? ==> 2 * n + 1 <= policies.maxDepth.value)
  }

  lemma {:induction false} LoopFanOut(rounds: seq<Round>, finalize: Node, limit: int)
    requires rounds != [] && NoDup(LoopIds(rounds, finalize))
    ensures WidestFanOut(|rounds|) <= limit <==>
            forall n | n in LoopIds(rounds, finalize) :: |Targets(LoopEdges(rounds, finalize), n)| <= limit
  {
    hide LoopIds, LoopEdges, Targets, LeavingIndices;
    var ids, n := LoopIds(rounds, finalize), |rounds|;
    forall k: nat | k <= 2 * n
      ensures |Targets(LoopEdges(rounds, finalize), ids[k])| == |LeavingIndices(n, k)| <= WidestFanOut(n)
    {
      LoopTargets(rounds, finalize, k);
      IndicesInside(n, k);
    }
    var widest := if n >= 2 then 1 else 0;
    IndicesInside(n, widest);
    assert ids[widest] in ids;
  }

  lemma {:induction false} LoopRoots(rounds: seq<Round>, finalize: Node, outputKey: Key, policies: Policies)
    requires rounds != [] && NoDup(LoopIds(rounds, finalize))
    ensures var g := LoopGraph(rounds, finalize, outputKey, policies);
            forall m | m in Ids(g.nodes) :: LoopRank(rounds, finalize)(m) == 0 <==> m in g.entrypoints
  {
    hide LoopNodes, LoopEdges, LoopRank;
    var ids := LoopIds(rounds, finalize);
    assert ids[0] == rounds[0].find.id;
    RankOfId(rounds, finalize, 0);
    forall m | m in ids ensures LoopRank(rounds, finalize)(m) == 0 <==> m == ids[0] {
      IdOfRank(rounds, finalize, m);
    }
  }

  // Compiled, the graph of n rounds has 2n + 1 nodes in a chain of as many layers and 3n - 1
  // edges; it is valid exactly when the caller's policies allow its fan-out and depth.
  lemma {:induction false} LoopAccepted(rounds: seq<Round>, finalize: Node, outputKey: Key, policies: Policies,
      c: Compilation)
    requires rounds != [] && NoDup(LoopIds(rounds, finalize))
    requires CompiledAs(LoopGraph(rounds, finalize, outputKey, policies), c)
    ensures c.layers == Chain(LoopIds(rounds, finalize)) && |c.layers| == 2 * |rounds| + 1
    ensures c.valid <==> LoopAllowed(|rounds|, policies)
    ensures |LoopNodes(rounds, finalize)| == 2 * |rounds| + 1 && |LoopEdges(rounds, finalize)| == 3 * |rounds| - 1
  {
    hide Graded, IsLayering, Targets, CompiledAs, LoopNodes, LoopEdges, Chain, LoopRank;
    var g, ids := LoopGraph(rounds, finalize, outputKey, policies), LoopIds(rounds, finalize);
    LoopGraded(rounds, finalize, outputKey, policies);
    LoopLayering(rounds, finalize, outputKey, policies);
    LoopRoots(rounds, finalize, outputKey, policies);
    GradedAccepted(g, LoopRank(rounds, finalize), Chain(ids), c);
    if policies.maxFanOut.Some? {
      LoopFanOut(rounds, finalize, policies.maxFanOut.value);
    }
  }

  // ---- What is built ----------------------------------------------------------------------------

  ghost predicate AlternateNodes(nodes: seq<Node>, rounds: seq<Round>, finalize: Node) {
    && |nodes| == 2 * |rounds| + 1 && nodes[2 * |rounds|] == finalize
    && forall i | 0 <= i < |rounds| :: nodes[2 * i] == rounds[i].find && nodes[2 * i + 1] == rounds[i].checkDry
  }

  // The edges of round i.
  ghost predicate RoundEdges(edges: seq<Edge>, rounds: seq<Round>, finalize: Node, i: nat)
    requires i < |rounds| && |edges| == 3 * |rounds| - 1
  {
    var r := rounds[i];
    && Joins(edges[3 * i], r.find.id, r.checkDry.id, Some(Ascii("items")))
    && Joins(edges[3 * i + 1], r.checkDry.id, finalize.id, Some(r.key.text))
    && (i + 1 < |rounds| ==>
          Joins(edges[3 * i + 2], r.checkDry.id, rounds[i + 1].find.id, Some(Ascii("previousVerdict"))))
  }

  // Each round finds and then checks; every check feeds finalize at the round's key, and the next
  // round's find.
  ghost predicate Unrolls(g: Graph, rounds: seq<Round>, finalize: Node) {
    && AlternateNodes(g.nodes, rounds, finalize) && |g.edges| == 3 * |rounds| - 1 && Numbered(LoopUntilDry, g.edges)
    && forall i: nat | i < |rounds| :: RoundEdges(g.edges, rounds, finalize, i)
  }

  lemma {:induction false} RoundUnrolls(rounds: seq<Round>, finalize: Node, i: nat)
    requires i < |rounds|
    ensures RoundEdges(LoopEdges(rounds, finalize), rounds, finalize, i)
  {
    hide IdOf;
    var edges := LoopEdges(rounds, finalize);
    assert edges[3 * i] == LoopEdgeAt(rounds, finalize, 3 * i);
    assert edges[3 * i + 1] == LoopEdgeAt(rounds, finalize, 3 * i + 1);
    if i + 1 < |rounds| {
      assert edges[3 * i + 2] == LoopEdgeAt(rounds, finalize, 3 * i + 2);
    }
  }

  lemma {:induction false} LoopNumbered(rounds: seq<Round>, finalize: Node)
    ensures Numbered(LoopUntilDry, LoopEdges(rounds, finalize))
  {
    hide IdOf;
    var edges := LoopEdges(rounds, finalize);
    forall j | 0 <= j < |edges| ensures edges[j].id == IdOf(LoopUntilDry, j + 1) {
      assert edges[j] == LoopEdgeAt(rounds, finalize, j);
    }
  }

  lemma {:induction false} LoopUnrolls(rounds: seq<Round>, finalize: Node, outputKey: Key, policies: Policies)
    requires rounds != []
    ensures Unrolls(LoopGraph(rounds, finalize, outputKey, policies), rounds, finalize)
  {
    hide LoopNodes, LoopEdges, Numbered, RoundEdges;
    LoopNumbered(rounds, finalize);
    forall i: nat | i < |rounds| ensures RoundEdges(LoopEdges(rounds, finalize), rounds, finalize, i) {
      RoundUnrolls(rounds, finalize, i);
    }
  }

  lemma {:induction false} LoopSink(rounds: seq<Round>, finalize: Node, n: NodeId)
    requires rounds != [] && NoDup(LoopIds(rounds, finalize)) && n in LoopIds(rounds, finalize)
    ensures (forall e | e in LoopEdges(rounds, finalize) :: e.source.node != n) <==> n == finalize.id
  {
    hide IdOf, LoopNodes, LoopIds, LoopEdgeAt;
    var edges, ids := LoopEdges(rounds, finalize), LoopIds(rounds, finalize);
    var k: nat :| k < |ids| && ids[k] == n;
    if n == finalize.id {
      SamePosition(ids, k, 2 * |rounds|);
      forall e | e in edges ensures e.source.node != n {
        var j: nat :| j < |edges| && edges[j] == e;
        EdgeEnds(rounds, finalize, j);
        SamePosition(ids, From(j), k);
      }
    } else {
      var j := StepInto(|rounds|, k + 1);
      StepEnds(rounds, k + 1);
      EdgeEnds(rounds, finalize, j);
      assert edges[j] in edges;
    }
  }

  lemma {:induction false} LoopIdsAre(rounds: seq<Round>, finalize: Node)
    requires rounds != []
    ensures LoopIds(rounds, finalize) == Ids(LoopNodes(rounds, finalize))
    ensures LoopIds(rounds, finalize)[2 * 0] == rounds[0].find.id
  {
    hide LoopNodes;
  }

  lemma {:induction false} LoopEnds(rounds: seq<Round>, finalize: Node, outputKey: Key, policies: Policies)
    requires rounds != [] && NoDup(LoopIds(rounds, finalize))
    ensures EntersAndEnds(LoopGraph(rounds, finalize, outputKey, policies), rounds[0].find.id, finalize.id,
              outputKey.text)
  {
    hide IdOf, CompiledAs, LoopAllowed, LoopNodes, LoopEdges, LoopIds;
    var g, ids := LoopGraph(rounds, finalize, outputKey, policies), LoopIds(rounds, finalize);
    forall c | CompiledAs(g, c) ensures c.layers == Chain(ids) {
      LoopAccepted(rounds, finalize, outputKey, policies, c);
    }
    LoopIdsAre(rounds, finalize);
    assert ids[0] == rounds[0].find.id && ids[2 * |rounds|] == finalize.id;
    forall n | n in ids ensures (forall e | e in g.edges :: e.source.node != n) <==> n == finalize.id {
      LoopSink(rounds, finalize, n);
    }
  }

  // ---- The constructor -----------------------------------------------------------------------------

  function RoundKeys(rounds: seq<Round>): (r: seq<Key>)
    ensures |r| == |rounds| && forall i | 0 <= i < |rounds| :: r[i] == rounds[i].key
  {
    seq(|rounds|, i requires 0 <= i < |rounds| => rounds[i].key)
  }

  ghost predicate RoundsOk(rounds: seq<Round>) {
    && 1 <= |rounds| <= MAX_PATTERN_ITEMS && NoDup(RoundKeys(rounds))
    && forall i | 0 <= i < |rounds| ::
         SafeKey(rounds[i].key) && ValidNodeId(rounds[i].find.id) && ValidNodeId(rounds[i].checkDry.id)
  }

  // What is wrong with the i-th round after those before it: its key first, then its nodes.
  ghost function RoundFault(rounds: seq<Round>, i: nat): Option<PatternError>
    requires i < |rounds|
  {
    if !SafeKey(rounds[i].key) then Some(InvalidIdentifier)
    else if rounds[i].key in RoundKeys(rounds)[..i] then Some(DuplicateKey(i))
    else if !ValidNodeId(rounds[i].find.id) || !ValidNodeId(rounds[i].checkDry.id) then Some(InvalidIdentifier)
    else None
  }

  ghost predicate RoundsFault(rounds: seq<Round>, e: PatternError) {
    if rounds == [] then e == EmptyCollection
    else if |rounds| > MAX_PATTERN_ITEMS then e == TooManyItems
    else exists i: nat :: i < |rounds| && RoundFault(rounds, i) == Some(e)
                       && forall j: nat | j < i :: RoundFault(rounds, j).None?
  }

  // `parseRounds`.
  method ParseRounds(rounds: seq<Round>) returns (error: Option<PatternError>)
    ensures error.None? <==> RoundsOk(rounds)
    ensures error.Some? ==> RoundsFault(rounds, error.value) && error.value != CoreRejected
  {
    hide SafeKey, ValidNodeId;
    if rounds == [] {
      return Some(EmptyCollection);
    }
    if |rounds| > MAX_PATTERN_ITEMS {
      return Some(TooManyItems);
    }
    var keys: set<Key> := {};
    for index := 0 to |rounds|
      invariant keys == Elems(RoundKeys(rounds)[..index]) && NoDup(RoundKeys(rounds)[..index])
      invariant forall i | 0 <= i < index ::
        SafeKey(rounds[i].key) && ValidNodeId(rounds[i].find.id) && ValidNodeId(rounds[i].checkDry.id)
      invariant forall i: nat | i < index :: RoundFault(rounds, i).None?
    {
      var key := rounds[index].key;
      assert RoundKeys(rounds)[index] == key;
      ElemsTakeNext(RoundKeys(rounds), index);
      TakeNext(RoundKeys(rounds), index);
      NoDupAppend(RoundKeys(rounds)[..index], key);
      if !SafeKey(key) {
        assert RoundFault(rounds, index) == Some(InvalidIdentifier);
        return Some(InvalidIdentifier);
      }
      if key in keys {
        NoDupPrefix(RoundKeys(rounds), index + 1);
        assert RoundFault(rounds, index) == Some(DuplicateKey(index));
        return Some(DuplicateKey(index));
      }
      keys := keys + {key};
      if !ValidNodeId(rounds[index].find.id) || !ValidNodeId(rounds[index].checkDry.id) {
        assert RoundFault(rounds, index) == Some(InvalidIdentifier);
        return Some(InvalidIdentifier);
      }
    }
    assert RoundKeys(rounds)[..|rounds|] == RoundKeys(rounds);
    return None;
  }

  ghost predicate LoopInput(maxRounds: int, rounds: seq<Round>, finalize: Node, outputKey: Key) {
    && maxRounds == |rounds| && RoundsOk(rounds) && ValidNodeId(finalize.id) && SafeKey(outputKey)
    && NoDup(LoopIds(rounds, finalize))
  }

  // The fault that is reported for input that is refused.
  ghost predicate LoopFault(maxRounds: int, rounds: seq<Round>, finalize: Node, outputKey: Key, e: PatternError) {
    if !(1 <= maxRounds <= MAX_PATTERN_ITEMS) then e == InvalidMaxRounds
    else if !RoundsOk(rounds) then RoundsFault(rounds, e)
    else if |rounds| != maxRounds then e == RoundCountMismatch
    else if !ValidNodeId(finalize.id) then e == InvalidIdentifier
    else if !NoDup(LoopIds(rounds, finalize)) then e == DuplicateNodeId
    else e == if SafeKey(outputKey) then CoreRejected else InvalidIdentifier
  }

  method Unroll(maxRounds: int, rounds: seq<Round>, finalize: Node, outputKey: Key, policies: Policies)
    returns (r: Result<Graph, PatternError>)
    ensures r.Ok? <==> LoopInput(maxRounds, rounds, finalize, outputKey) && LoopAllowed(|rounds|, policies)
    ensures r.Ok? ==> r.value == LoopGraph(rounds, finalize, outputKey, policies)
    ensures r == Err(CoreRejected) <==>
      LoopInput(maxRounds, rounds, finalize, outputKey) && !LoopAllowed(|rounds|, policies)
    ensures r.Err? ==> LoopFault(maxRounds, rounds, finalize, outputKey, r.error)
    ensures r.Ok? ==>
      && EntersAndEnds(r.value, rounds[0].find.id, finalize.id, outputKey.text) && r.value.policies == policies
      && Unrolls(r.value, rounds, finalize)
  {
    hide EntersAndEnds, Unrolls, RoundsFault, SafeKey, ValidNodeId, CompiledAs;
    hide LoopNodes, LoopEdges, LoopAllowed, Chain;
    if !(1 <= maxRounds <= MAX_PATTERN_ITEMS) {
      return Err(InvalidMaxRounds);
    }
    var error := ParseRounds(rounds);
    if error.Some? {
      return Err(error.value);
    }
    if |rounds| != maxRounds {
      return Err(RoundCountMismatch);
    }
    if !ValidNodeId(finalize.id) {
      return Err(InvalidIdentifier);
    }
    var unique := UniqueNodeIds(LoopNodes(rounds, finalize));
    if !unique {
      return Err(DuplicateNodeId);
    }
    var edges := BuildEdges(rounds, finalize);
    LoopEnds(rounds, finalize, outputKey, policies);
    LoopUnrolls(rounds, finalize, outputKey, policies);
    r := BuildGraph(Assemble(LoopNodes(rounds, finalize), edges, rounds[0].find.id, finalize.id, outputKey, policies),
        outputKey);
    forall c | CompiledAs(LoopGraph(rounds, finalize, outputKey, policies), c)
      ensures c.valid <==> LoopAllowed(|rounds|, policies)
    {
      LoopAccepted(rounds, finalize, outputKey, policies, c);
    }
  }
}
