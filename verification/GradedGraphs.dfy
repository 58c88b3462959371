/**
 Graphs with a known depth for every node: each edge goes up in rank, and each node of
 positive rank has a predecessor exactly one below. The compiler accepts such a graph as
 far as structure goes, and its layers are the ranks.
 */
module GradedGraphs {
  import opened Sequences
  import opened Graphs
  import opened CompilerSpec

  type Ranking = NodeId -> nat

  ghost predicate Climbs(edges: seq<Edge>, rank: Ranking) {
    forall e | e in edges :: rank(e.source.node) < rank(e.target.node)
  }

  ghost predicate HasStep(edges: seq<Edge>, rank: Ranking, n: NodeId) {
    exists e :: e in edges && e.target.node == n && rank(e.source.node) + 1 == rank(n)
  }

  ghost predicate Graded(g: Graph, rank: Ranking) {
    && WellIdentified(g) && Climbs(g.edges, rank)
    && forall n | n in Ids(g.nodes) && rank(n) > 0 :: HasStep(g.edges, rank, n)
  }

  lemma {:induction false} DeepClimbs(edges: seq<Edge>, rank: Ranking, n: NodeId, k: nat)
    requires Climbs(edges, rank) && Deep(edges, n, k)
    ensures k <= rank(n)
    decreases k
  {
    if k == 0 {
    } else {
      var a := DeepPredecessor(edges, n, k - 1);
      DeepClimbs(edges, rank, a, k - 1);
      var e :| e in edges && e.source.node == a && e.target.node == n;
    }
  }

  lemma {:induction false} StepEdge(g: Graph, rank: Ranking, n: NodeId) returns (e: Edge)
    requires Graded(g, rank) && n in Ids(g.nodes) && rank(n) > 0
    ensures e in g.edges && e.target.node == n && rank(e.source.node) + 1 == rank(n)
    ensures e.source.node in Ids(g.nodes) && Arc(g.edges, e.source.node, n)
  {
    assert HasStep(g.edges, rank, n);
    e :| e in g.edges && e.target.node == n && rank(e.source.node) + 1 == rank(n);
  }

  // The rank is the level, and rank zero is where walks from the roots start.
  lemma {:induction false} GradedDeep(g: Graph, rank: Ranking, n: NodeId)
    requires Graded(g, rank) && n in Ids(g.nodes)
    ensures Deep(g.edges, n, rank(n))
    decreases rank(n)
  {
    if rank(n) == 0 {
      DeepZero(g.edges, n);
    } else {
      var e := StepEdge(g, rank, n);
      GradedDeep(g, rank, e.source.node);
      DeepStep(g.edges, e.source.node, n, rank(e.source.node));
    }
  }

  lemma {:induction false} GradedLevel(g: Graph, rank: Ranking, n: NodeId)
    requires Graded(g, rank) && n in Ids(g.nodes)
    ensures Level(g.edges, n, rank(n))
    ensures !DownstreamOfCycle(g.edges, n)
  {
    GradedDeep(g, rank, n);
    if Deep(g.edges, n, rank(n) + 1) { DeepClimbs(g.edges, rank, n, rank(n) + 1); }
    if DownstreamOfCycle(g.edges, n) {
      CycleUnbounded(g.edges, n, rank(n) + 1);
    }
  }

  ghost function OfRank(g: Graph, rank: Ranking, k: nat): set<NodeId> {
    set n | n in Ids(g.nodes) && rank(n) == k
  }

  lemma {:induction false} RankSets(g: Graph, rank: Ranking, k: nat)
    requires Graded(g, rank)
    ensures LevelSet(g, k) == OfRank(g, rank, k)
  {
    forall n | n in Ids(g.nodes) ensures Level(g.edges, n, k) <==> rank(n) == k {
      GradedLevel(g, rank, n);
      if Level(g.edges, n, k) { LevelUnique(g.edges, n, k, rank(n)); }
    }
  }

  // Nodes listed rank by rank, without gaps, are the layering.
  lemma {:induction false} GradedLayering(g: Graph, rank: Ranking, layers: seq<seq<NodeId>>)
    requires Graded(g, rank)
    requires forall k | 0 <= k < |layers| :: layers[k] == Keep(Ids(g.nodes), OfRank(g, rank, k)) && layers[k] != []
    requires OfRank(g, rank, |layers|) == {}
    ensures IsLayering(g, layers)
  {
    forall k | 0 <= k < |layers| ensures layers[k] == Layer(g, k) {
      RankSets(g, rank, k);
    }
    RankSets(g, rank, |layers|);
  }

  lemma {:induction false} GradedReach(g: Graph, rank: Ranking, n: NodeId)
    requires Graded(g, rank) && n in Ids(g.nodes)
    requires forall m | m in Ids(g.nodes) && rank(m) == 0 :: m in g.entrypoints
    ensures FromEntrypoint(g, n)
    decreases rank(n)
  {
    if rank(n) == 0 {
      assert PathFromTo(g.edges, [n], n, n);
      assert Reaches(g.edges, n, n);
    } else {
      var e := StepEdge(g, rank, n);
      GradedReach(g, rank, e.source.node);
      var s :| s in g.entrypoints && Reaches(g.edges, s, e.source.node);
      ReachesStep(g.edges, s, e.source.node, n);
    }
  }

  lemma {:induction false} GradedNodes(g: Graph, rank: Ranking)
    requires Graded(g, rank) && forall m | m in Ids(g.nodes) && rank(m) == 0 :: m in g.entrypoints
    ensures forall n | n in Ids(g.nodes) :: !DownstreamOfCycle(g.edges, n)
    ensures forall n | n in Ids(g.nodes) :: FromEntrypoint(g, n)
  {
    hide FromEntrypoint, DownstreamOfCycle, Graded, Level;
    forall n | n in Ids(g.nodes) ensures !DownstreamOfCycle(g.edges, n) && FromEntrypoint(g, n) {
      GradedLevel(g, rank, n);
      GradedReach(g, rank, n);
    }
  }

  lemma {:induction false} GradedLayers(g: Graph, r: Compilation, layers: seq<seq<NodeId>>)
    requires WellIdentified(g) && CompiledAs(g, r) && IsLayering(g, layers)
    ensures r.layers == layers
  {
    LayeringUnique(g, r.layers, layers);
  }

  lemma {:induction false} RootsOpen(g: Graph, rank: Ranking)
    requires Graded(g, rank) && forall m | m in Ids(g.nodes) :: rank(m) == 0 <==> m in g.entrypoints
    ensures WellIdentified(g)
    ensures forall n | n in g.entrypoints :: !HasIncoming(g.edges, n)
  {}

  // A graded graph entered at its roots is accepted exactly when the policies allow its
  // fan-out and depth, and its compiled layers are its ranks.
  lemma {:induction false} GradedAccepted(g: Graph, rank: Ranking, layers: seq<seq<NodeId>>, r: Compilation)
    requires Graded(g, rank) && CompiledAs(g, r) && IsLayering(g, layers)
    requires forall m | m in Ids(g.nodes) :: rank(m) == 0 <==> m in g.entrypoints
    ensures r.layers == layers
    ensures r.valid <==>
      && (g.policies.maxFanOut.Some? ==>
            forall n | n in Ids(g.nodes) :: |Targets(g.edges, n)| <= g.policies.maxFanOut.value)
      && (g.policies.maxDepth.Some? ==> |layers| <= g.policies.maxDepth.value)
  {
    hide Targets, IsLayering, FromEntrypoint, DownstreamOfCycle, Graded, HasIncoming, CompiledAs, WellIdentified;
    RootsOpen(g, rank);
    GradedLayers(g, r, layers);
    ValidMeans(g, r);
    GradedNodes(g, rank);
  }

  // ---- Counting outgoing edges -------------------------------------------------------------

  lemma {:induction false} TargetsConcat(a: seq<Edge>, b: seq<Edge>, n: NodeId)
    ensures Targets(a + b, n) == Targets(a, n) + Targets(b, n)
  {
    if b == [] {
      assert a + b == a;
    } else {
      TargetsConcat(a, b[..|b| - 1], n);
      assert (a + b)[..|a + b| - 1] == a + b[..|b| - 1];
    }
  }

  // The indices of the edges leaving n.
  ghost function LeavingAt(edges: seq<Edge>, n: NodeId): set<int> {
    set j | 0 <= j < |edges| && edges[j].source.node == n
  }

  lemma {:induction false} TargetsCount(edges: seq<Edge>, n: NodeId)
    ensures |Targets(edges, n)| == |LeavingAt(edges, n)|
  {
    if edges == [] {
      assert LeavingAt(edges, n) == {};
    } else {
      var last := |edges| - 1;
      TargetsCount(edges[..last], n);
      if edges[last].source.node == n {
        assert LeavingAt(edges, n) == LeavingAt(edges[..last], n) + {last};
      } else {
        assert LeavingAt(edges, n) == LeavingAt(edges[..last], n);
      }
    }
  }

  lemma {:induction false} TargetsOfOne(edges: seq<Edge>, n: NodeId)
    ensures (forall e | e in edges :: e.source.node == n) ==> |Targets(edges, n)| == |edges|
    ensures (forall e | e in edges :: e.source.node != n) ==> Targets(edges, n) == []
  {
    if edges == [] {
    } else {
      TargetsOfOne(edges[..|edges| - 1], n);
      assert edges == edges[..|edges| - 1] + [edges[|edges| - 1]];
    }
  }

  // ---- Filtering a sequence by parts -----------------------------------------------------------

  lemma {:induction false} KeepConcat(a: seq<NodeId>, b: seq<NodeId>, keep: set<NodeId>)
    ensures Keep(a + b, keep) == Keep(a, keep) + Keep(b, keep)
  {
    if b == [] {
      assert a + b == a;
    } else {
      KeepConcat(a, b[..|b| - 1], keep);
      assert (a + b)[..|a + b| - 1] == a + b[..|b| - 1];
    }
  }

  lemma {:induction false} KeepAll(s: seq<NodeId>, keep: set<NodeId>)
    ensures (forall n | n in s :: n in keep) ==> Keep(s, keep) == s
    ensures (forall n | n in s :: n !in keep) ==> Keep(s, keep) == []
  {
    if s == [] {
    } else {
      KeepAll(s[..|s| - 1], keep);
      assert s == s[..|s| - 1] + [s[|s| - 1]];
    }
  }
}
