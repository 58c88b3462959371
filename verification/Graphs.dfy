/**
 The graph document and the declarative notions the compiler is judged by:
 paths, cycles, reachability and depth. Multi-edges and self-loops are allowed.
 */
module Graphs {
  import opened Wrappers
  import opened Sequences
  import opened Text

  datatype NodeId = NodeId(text: JsString)

  datatype Endpoint = Endpoint(node: NodeId, port: Option<JsString>)

  datatype EdgeId = EdgeId(text: JsString)

  datatype Edge = Edge(id: EdgeId, source: Endpoint, target: Endpoint)

  datatype Kind = Agent | Model | Tool | Transform | Subgraph | Router | Barrier | Validator | Human

  datatype Node = Node(id: NodeId, kind: Kind, maxAttempts: Option<int>, timeoutMs: Option<int>)

  datatype Output = Output(name: JsString, endpoint: Endpoint)

  datatype Policies = Policies(
    maxConcurrency: Option<int>, maxDepth: Option<int>,
    maxFanOut: Option<int>, maxTotalAttempts: Option<int>)

  datatype Graph = Graph(
    nodes: seq<Node>, edges: seq<Edge>, entrypoints: seq<NodeId>,
    outputs: seq<Output>, policies: Policies)

  function Ids(nodes: seq<Node>): (ids: seq<NodeId>)
    ensures |ids| == |nodes| && forall i | 0 <= i < |nodes| :: ids[i] == nodes[i].id
  {
    seq(|nodes|, i requires 0 <= i < |nodes| => nodes[i].id)
  }

  function EdgeIds(edges: seq<Edge>): (ids: seq<EdgeId>)
    ensures |ids| == |edges| && forall i | 0 <= i < |edges| :: ids[i] == edges[i].id
  {
    seq(|edges|, i requires 0 <= i < |edges| => edges[i].id)
  }

  // ---- Identity and references -------------------------------------------

  ghost predicate WellIdentified(g: Graph) {
    && NoDup(Ids(g.nodes))
    && NoDup(EdgeIds(g.edges))
    && (forall e | e in g.edges :: e.source.node in Ids(g.nodes) && e.target.node in Ids(g.nodes))
    && (forall n | n in g.entrypoints :: n in Ids(g.nodes))
    && (forall o | o in g.outputs :: o.endpoint.node in Ids(g.nodes))
  }

  // ---- Paths ---------------------------------------------------------------

  ghost predicate Arc(edges: seq<Edge>, a: NodeId, b: NodeId) {
    exists e :: e in edges && e.source.node == a && e.target.node == b
  }

  // A walk along edges; |p| - 1 edges long.
  ghost predicate IsPath(edges: seq<Edge>, p: seq<NodeId>) {
    |p| > 0 && forall i | 0 <= i < |p| - 1 :: Arc(edges, p[i], p[i + 1])
  }

  ghost predicate PathFromTo(edges: seq<Edge>, p: seq<NodeId>, a: NodeId, b: NodeId) {
    IsPath(edges, p) && p[0] == a && p[|p| - 1] == b
  }

  ghost predicate Reaches(edges: seq<Edge>, a: NodeId, b: NodeId) {
    exists p :: PathFromTo(edges, p, a, b)
  }

  // Some walk of at least one edge leads from n back to n.
  ghost predicate OnCycle(edges: seq<Edge>, n: NodeId) {
    exists p :: PathFromTo(edges, p, n, n) && |p| > 1
  }

  ghost predicate DownstreamOfCycle(edges: seq<Edge>, n: NodeId) {
    exists c :: OnCycle(edges, c) && Reaches(edges, c, n)
  }

  // Some walk with exactly k + 1 nodes ends in n.
  ghost predicate PathInto(edges: seq<Edge>, p: seq<NodeId>, n: NodeId, k: nat) {
    IsPath(edges, p) && |p| == k + 1 && p[k] == n
  }

  ghost predicate Deep(edges: seq<Edge>, n: NodeId, k: nat) {
    exists p :: PathInto(edges, p, n, k)
  }

  // The longest walk into n has exactly k edges.
  ghost predicate Level(edges: seq<Edge>, n: NodeId, k: nat) {
    Deep(edges, n, k) && !Deep(edges, n, k + 1)
  }

  // ---- Elementary facts about walks --------------------------------------

  lemma {:induction false} PathPrefix(edges: seq<Edge>, p: seq<NodeId>, i: nat, j: nat)
    requires IsPath(edges, p) && i < j <= |p|
    ensures IsPath(edges, p[i..j])
  {
    var q := p[i..j];
    forall k | 0 <= k < |q| - 1 ensures Arc(edges, q[k], q[k + 1]) {
      assert Arc(edges, p[i + k], p[i + k + 1]);
    }
  }

  lemma {:induction false} PathJoin(edges: seq<Edge>, p: seq<NodeId>, q: seq<NodeId>)
    requires IsPath(edges, p) && IsPath(edges, q)
    requires Arc(edges, p[|p| - 1], q[0])
    ensures IsPath(edges, p + q)
  {
    var r := p + q;
    forall i | 0 <= i < |r| - 1 ensures Arc(edges, r[i], r[i + 1]) {
      if i < |p| - 1 {
        assert Arc(edges, p[i], p[i + 1]);
      } else if i >= |p| {
        assert Arc(edges, q[i - |p|], q[i - |p| + 1]);
      }
    }
  }

  lemma {:induction false} ReachesStep(edges: seq<Edge>, a: NodeId, b: NodeId, c: NodeId)
    requires Reaches(edges, a, b) && Arc(edges, b, c)
    ensures Reaches(edges, a, c)
  {
    var p :| PathFromTo(edges, p, a, b);
    PathJoin(edges, p, [c]);
    assert PathFromTo(edges, p + [c], a, c);
  }

  // Deep is closed downwards: a walk's suffixes are walks.
  lemma {:induction false} DeepDown(edges: seq<Edge>, n: NodeId, k: nat, j: nat)
    requires Deep(edges, n, k) && j <= k
    ensures Deep(edges, n, j)
  {
    var p :| PathInto(edges, p, n, k);
    PathPrefix(edges, p, k - j, k + 1);
    assert PathInto(edges, p[k - j..k + 1], n, j);
  }

  lemma {:induction false} DeepStep(edges: seq<Edge>, a: NodeId, b: NodeId, k: nat)
    requires Deep(edges, a, k) && Arc(edges, a, b)
    ensures Deep(edges, b, k + 1)
  {
    var p :| PathInto(edges, p, a, k);
    PathJoin(edges, p, [b]);
    assert PathInto(edges, p + [b], b, k + 1);
  }

  lemma {:induction false} DeepZero(edges: seq<Edge>, n: NodeId)
    ensures Deep(edges, n, 0)
  {
    assert PathInto(edges, [n], n, 0);
  }

  lemma {:induction false} DeepPredecessor(edges: seq<Edge>, b: NodeId, k: nat) returns (a: NodeId)
    requires Deep(edges, b, k + 1)
    ensures Arc(edges, a, b) && Deep(edges, a, k)
  {
    var p :| PathInto(edges, p, b, k + 1);
    a := p[k];
    assert Arc(edges, p[k], p[k + 1]);
    PathPrefix(edges, p, 0, k + 1);
    assert PathInto(edges, p[0..k + 1], a, k);
  }

  // Following p from a node with a walk of k edges into it.
  lemma {:induction false} DeepExtend(edges: seq<Edge>, p: seq<NodeId>, k: nat)
    requires IsPath(edges, p) && Deep(edges, p[0], k)
    ensures Deep(edges, p[|p| - 1], k + |p| - 1)
    decreases |p|
  {
    if |p| <= 1 {
    } else {
      PathPrefix(edges, p, 0, |p| - 1);
      assert p[0..|p| - 1][0] == p[0];
      DeepExtend(edges, p[0..|p| - 1], k);
      assert Arc(edges, p[|p| - 2], p[|p| - 1]);
      DeepStep(edges, p[|p| - 2], p[|p| - 1], k + |p| - 2);
    }
  }

  lemma {:induction false} CycleDeep(edges: seq<Edge>, c: NodeId, k: nat)
    requires OnCycle(edges, c)
    ensures Deep(edges, c, k)
    decreases k
  {
    if k == 0 {
      DeepZero(edges, c);
    } else {
      CycleDeep(edges, c, k - 1);
      var p :| PathFromTo(edges, p, c, c) && |p| > 1;
      DeepExtend(edges, p, k - 1);
      DeepDown(edges, c, k - 1 + |p| - 1, k);
    }
  }

  lemma {:induction false} DeepAlong(edges: seq<Edge>, p: seq<NodeId>, k: nat)
    requires IsPath(edges, p) && Deep(edges, p[0], k)
    ensures Deep(edges, p[|p| - 1], k)
  {
    DeepExtend(edges, p, k);
    DeepDown(edges, p[|p| - 1], k + |p| - 1, k);
  }

  // A node downstream of a cycle has walks of every length into it.
  lemma {:induction false} CycleUnbounded(edges: seq<Edge>, n: NodeId, k: nat)
    requires DownstreamOfCycle(edges, n)
    ensures Deep(edges, n, k)
    decreases k
  {
    var c :| OnCycle(edges, c) && Reaches(edges, c, n);
    CycleDeep(edges, c, k);
    var p :| PathFromTo(edges, p, c, n);
    DeepAlong(edges, p, k);
  }

  // Pigeonhole: a walk with a repeated node closes a cycle its end is downstream of.
  lemma {:induction false} RepeatGivesCycle(edges: seq<Edge>, p: seq<NodeId>, i: nat, j: nat)
    requires IsPath(edges, p) && i < j < |p| && p[i] == p[j]
    ensures DownstreamOfCycle(edges, p[|p| - 1])
  {
    PathPrefix(edges, p, i, j + 1);
    assert PathFromTo(edges, p[i..j + 1], p[i], p[i]);
    assert OnCycle(edges, p[i]);
    PathPrefix(edges, p, i, |p|);
    assert PathFromTo(edges, p[i..|p|], p[i], p[|p| - 1]);
  }

  lemma {:induction false} PathWithin(edges: seq<Edge>, p: seq<NodeId>, ids: set<NodeId>)
    requires IsPath(edges, p) && p[|p| - 1] in ids
    requires forall e | e in edges :: e.source.node in ids
    ensures forall n | n in p :: n in ids
  {
    forall i | 0 <= i < |p| ensures p[i] in ids {
      if i < |p| - 1 {
        assert Arc(edges, p[i], p[i + 1]);
      }
    }
  }

  // Walks longer than the number of nodes exist only into nodes downstream of a cycle.
  lemma {:induction false} DeepIffCycle(edges: seq<Edge>, n: NodeId, ids: set<NodeId>)
    requires n in ids && forall e | e in edges :: e.source.node in ids
    ensures Deep(edges, n, |ids|) <==> DownstreamOfCycle(edges, n)
  {
    if DownstreamOfCycle(edges, n) {
      CycleUnbounded(edges, n, |ids|);
    }
    if Deep(edges, n, |ids|) {
      var p :| PathInto(edges, p, n, |ids|);
      PathWithin(edges, p, ids);
      if NoDup(p) {
        NoDupBound(p, ids);
        assert false;
      }
      var i, j :| 0 <= i < j < |p| && p[i] == p[j];
      RepeatGivesCycle(edges, p, i, j);
    }
  }
}
