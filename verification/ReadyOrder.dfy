/**
 The order in which nodes that wait together are launched: by depth, then by declaration.
 The prose of the runtime semantics says by declaration alone; that holds for nodes of
 equal depth, and fails exactly where the earlier declared of two nodes is the deeper one.
 */
module ReadyOrder {
  import opened Sequences
  import opened Text
  import opened Graphs
  import opened CompilerSpec
  import opened ReadyQueue
  import opened Readiness
  import opened LaunchEffects
  import Compiler

  // ---- Positions ------------------------------------------------------------------

  lemma {:induction false} IndexInPrefix(s: seq<NodeId>, last: NodeId, n: NodeId)
    requires n in s
    ensures n in s + [last] && IndexOf(s + [last], n) == IndexOf(s, n)
  {
    IndexInConcat(s, [last], n);
  }

  lemma {:induction false} IndexOfLast(s: seq<NodeId>, last: NodeId)
    requires last !in s
    ensures last in s + [last] && IndexOf(s + [last], last) == |s|
  {
    assert (s + [last])[|s|] == last;
    IndexInConcat(s, [last], last);
  }

  lemma {:induction false} KeepStep(front: seq<NodeId>, last: NodeId, keep: set<NodeId>)
    ensures Keep(front + [last], keep) == if last in keep then Keep(front, keep) + [last] else Keep(front, keep)
  {
    assert (front + [last])[..|front|] == front;
  }

  lemma {:induction false} KeptBefore(front: seq<NodeId>, last: NodeId, keep: set<NodeId>, n: NodeId)
    requires n in front && n in keep && last !in front
    ensures n in Keep(front, keep) && IndexOf(front + [last], n) == IndexOf(front, n) < |front|
    ensures n in Keep(front + [last], keep)
    ensures IndexOf(Keep(front + [last], keep), n) == IndexOf(Keep(front, keep), n)
  {
    hide Keep;
    KeepStep(front, last, keep);
    IndexInPrefix(front, last, n);
    IndexInPrefix(Keep(front, keep), last, n);
  }

  // Filtering keeps the order.
  lemma {:induction false} KeepOrder(s: seq<NodeId>, keep: set<NodeId>, a: NodeId, b: NodeId)
    requires NoDup(s) && a in Keep(s, keep) && b in Keep(s, keep)
    ensures IndexOf(Keep(s, keep), a) < IndexOf(Keep(s, keep), b) <==> IndexOf(s, a) < IndexOf(s, b)
  {
    if s == [] {
    } else {
      var front, last := s[..|s| - 1], s[|s| - 1];
      assert s == front + [last];
      NoDupAppend(front, last);
      var kept := Keep(front, keep);
      if a in front { KeptBefore(front, last, keep, a); }
      if b in front { KeptBefore(front, last, keep, b); }
      if a in front && b in front {
        KeepOrder(front, keep, a, b);
      } else {
        IndexOfLast(front, last);
        IndexOfLast(kept, last);
      }
    }
  }

  lemma {:induction false} IndexAfter(a: seq<NodeId>, b: seq<NodeId>, n: NodeId)
    requires n in b && n !in a
    ensures n in a + b && IndexOf(a + b, n) == |a| + IndexOf(b, n)
    decreases |a|
  {
    if a == [] {
      assert a + b == b;
    } else {
      IndexAfter(a[1..], b, n);
      assert (a + b)[1..] == a[1..] + b && (a + b)[0] == a[0];
    }
  }

  // Within one layer, the flattened order is the layer's own.
  lemma {:induction false} FlattenWithin(layers: seq<seq<NodeId>>, k: nat, a: NodeId, b: NodeId)
    requires forall i: nat, l: nat, n | i < |layers| && l < |layers| && n in layers[i] && n in layers[l] :: i == l
    requires k < |layers| && a in layers[k] && b in layers[k]
    ensures a in Flatten(layers) && b in Flatten(layers)
    ensures IndexOf(Flatten(layers), a) < IndexOf(Flatten(layers), b) <==> IndexOf(layers[k], a) < IndexOf(layers[k], b)
  {
    var front, last := layers[..|layers| - 1], layers[|layers| - 1];
    FlattenMembers(layers, a);
    FlattenMembers(layers, b);
    FlattenMembers(front, a);
    FlattenMembers(front, b);
    if k < |front| {
      assert a in front[k] && b in front[k];
      FlattenWithin(front, k, a, b);
      IndexInConcat(Flatten(front), last, a);
      IndexInConcat(Flatten(front), last, b);
    } else {
      IndexAfter(Flatten(front), last, a);
      IndexAfter(Flatten(front), last, b);
    }
  }

  // ---- Scheduling order ----------------------------------------------------------------

  // Shallower first; at equal depth, declared first.
  ghost predicate Sooner(g: Graph, a: NodeId, b: NodeId) {
    && a in Ids(g.nodes) && b in Ids(g.nodes)
    && exists j: nat, k: nat ::
         Level(g.edges, a, j) && Level(g.edges, b, k)
         && (j < k || (j == k && IndexOf(Ids(g.nodes), a) < IndexOf(Ids(g.nodes), b)))
  }

  lemma {:induction false} SoonerAt(g: Graph, a: NodeId, b: NodeId, j: nat, k: nat)
    requires a in Ids(g.nodes) && b in Ids(g.nodes) && Level(g.edges, a, j) && Level(g.edges, b, k)
    ensures Sooner(g, a, b) <==> j < k || (j == k && IndexOf(Ids(g.nodes), a) < IndexOf(Ids(g.nodes), b))
  {
    hide Level;
    forall i: nat | Level(g.edges, a, i) ensures i == j { LevelUnique(g.edges, a, i, j); }
    forall i: nat | Level(g.edges, b, i) ensures i == k { LevelUnique(g.edges, b, i, k); }
  }

  lemma {:induction false} LayerIs(g: Graph, layers: seq<seq<NodeId>>, j: nat)
    requires IsLayering(g, layers) && j < |layers|
    ensures layers[j] == Keep(Ids(g.nodes), LevelSet(g, j))
  {
    assert layers[j] == Layer(g, j);
  }

  lemma {:induction false} AcceptedLayers(plan: Plan)
    requires plan.Accepted()
    ensures WellIdentified(plan.g) && NoDup(Ids(plan.g.nodes))
    ensures IsLayering(plan.g, plan.compilation.layers) && CycleNodes(plan.g) == []
  {
    hide Targets, FromEntrypoint, DownstreamOfCycle, IsLayering, PolicyDiagnostics, IdentityDiagnostics;
    ValidMeans(plan.g, plan.compilation);
    CycleNodesExact(plan.g);
  }

  lemma {:induction false} LayerFacts(plan: Plan, a: NodeId, b: NodeId) returns (j: nat, k: nat)
    requires plan.Accepted() && a in Ids(plan.g.nodes) && b in Ids(plan.g.nodes)
    ensures var layers := plan.compilation.layers;
            && (forall i: nat, l: nat, n | i < |layers| && l < |layers| && n in layers[i] && n in layers[l] :: i == l)
            && j < |layers| && k < |layers| && a in layers[j] && b in layers[k]
            && layers[j] == Keep(Ids(plan.g.nodes), LevelSet(plan.g, j))
            && Level(plan.g.edges, a, j) && Level(plan.g.edges, b, k)
    ensures NoDup(Ids(plan.g.nodes)) && a in plan.Order() && b in plan.Order()
  {
    hide Level, Flatten, Plan.Accepted, WellIdentified, IsLayering, CycleNodes, LevelSet;
    var g, layers := plan.g, plan.compilation.layers;
    AcceptedLayers(plan);
    LayersAreLevels(g, layers);
    OrderHoldsNodes(g, layers);
    j :| j < |layers| && a in layers[j];
    k :| k < |layers| && b in layers[k];
    LayerIs(g, layers, j);
  }

  // The scheduler's sequence numbers are this order.
  lemma {:induction false} SequenceOrder(plan: Plan, a: NodeId, b: NodeId)
    requires plan.Accepted() && a in Ids(plan.g.nodes) && b in Ids(plan.g.nodes)
    ensures Rank(plan, a) < Rank(plan, b) <==> Sooner(plan.g, a, b)
  {
    hide Plan.Accepted, Level, Flatten;
    var j, k := LayerFacts(plan, a, b);
    var layers := plan.compilation.layers;
    if j < k {
      FlattenOrder(layers, j, k, a, b);
    } else if k < j {
      FlattenOrder(layers, k, j, b, a);
    } else {
      FlattenWithin(layers, j, a, b);
      KeepOrder(Ids(plan.g.nodes), LevelSet(plan.g, j), a, b);
    }
    SoonerAt(plan.g, a, b, j, k);
  }

  // ---- The ready queue --------------------------------------------------------------------

  lemma {:induction false} SameText(a: NodeId)
    ensures TextLeq(a.text, a.text)
  {
    CompareIsTotalOrder(a.text, a.text, a.text);
  }

  lemma {:induction false} ByRankOrder(plan: Plan, ready: seq<NodeId>)
    requires Topological(plan.g, plan.Order()) && forall n | n in ready :: n in plan.Order()
    ensures OrderOn(Compiler.ByDeclaration(Sequence(plan.Order())), ready)
    ensures forall a, b | a in ready && b in ready ::
              Compiler.ByDeclaration(Sequence(plan.Order()))(a, b) <==> Rank(plan, a) <= Rank(plan, b)
  {
    hide Topological, Plan.Order, TextLeq;
    var order, leq := plan.Order(), Compiler.ByDeclaration(Sequence(plan.Order()));
    forall a, b | a in ready && b in ready ensures leq(a, b) <==> Rank(plan, a) <= Rank(plan, b) {
      assert order[IndexOf(order, a)] == a && order[IndexOf(order, b)] == b;
      SameText(a);
    }
    forall a, b | a in ready && b in ready && leq(a, b) && leq(b, a) ensures a == b {
      assert order[IndexOf(order, a)] == order[IndexOf(order, b)];
    }
  }

  // Each node of the queue stands before the later numbered ones.
  ghost predicate InOrder(plan: Plan, ready: seq<NodeId>) {
    forall i, j | 0 <= i < j < |ready| :: Rank(plan, ready[i]) < Rank(plan, ready[j])
  }

  lemma {:induction false} ReadyNodes(plan: Plan, c: Core, cancelled: bool)
    requires plan.Accepted() && CoreInv(plan, c, cancelled)
    ensures NoDup(c.ready) && forall n | n in c.ready :: n in plan.Order() && n in Ids(plan.g.nodes)
  {
    hide Orders, Settled;
    OrderIsTopological(plan);
  }

  lemma {:induction false} RankDistinct(plan: Plan, ready: seq<NodeId>, i: nat, j: nat)
    requires NoDup(ready) && i < j < |ready| && ready[i] in plan.Order() && ready[j] in plan.Order()
    requires Rank(plan, ready[i]) <= Rank(plan, ready[j])
    ensures Rank(plan, ready[i]) < Rank(plan, ready[j])
  {
    hide Plan.Order;
    assert plan.Order()[IndexOf(plan.Order(), ready[i])] == ready[i];
    assert plan.Order()[IndexOf(plan.Order(), ready[j])] == ready[j];
  }

  // Settling a node leaves the queue in order.
  lemma {:induction false} SettledInOrder(plan: Plan, c: Core, n: NodeId, r: NodeResult, cancelled: bool)
    requires plan.Accepted() && CoreInv(plan, Settle(plan, c, n, r), cancelled)
    ensures InOrder(plan, Settle(plan, c, n, r).ready)
  {
    hide CoreInv, Plan.Accepted, Plan.Order, Topological, Compiler.Lower, Sort;
    var ready := Settle(plan, c, n, r).ready;
    var leq := Compiler.ByDeclaration(Sequence(plan.Order()));
    OrderIsTopological(plan);
    ReadyNodes(plan, Settle(plan, c, n, r), cancelled);
    var queued := Compiler.Lower(TargetNodes(Outgoing(plan.g, n)), c.remaining, c.ready).1;
    SettledReady(plan, c, n, r);
    SortMembers(queued, leq);
    ByRankOrder(plan, queued);
    SortSorted(queued, leq);
    forall i: nat, j: nat | i < j < |ready| ensures Rank(plan, ready[i]) < Rank(plan, ready[j]) {
      RankDistinct(plan, ready, i, j);
    }
  }

  // So does the start of a run.
  lemma {:induction false} InitialInOrder(plan: Plan)
    requires plan.Accepted()
    ensures InOrder(plan, Initial(plan).ready)
  {
    hide Plan.Accepted, Plan.Order, Keep;
    OrderIsTopological(plan);
    var order, ready := plan.Order(), Initial(plan).ready;
    var zeros := set n | n in order && Initial(plan).remaining[n] == 0;
    assert ready == Keep(order, zeros);
    KeepNoDup(order, zeros);
    forall i, j | 0 <= i < j < |ready| ensures Rank(plan, ready[i]) < Rank(plan, ready[j]) {
      IndexIsPosition(ready, i);
      IndexIsPosition(ready, j);
      KeepOrder(order, zeros, ready[i], ready[j]);
    }
  }

  // And every turn of the launching loop.
  lemma {:induction false} LaunchedInOrder(plan: Plan, c: Core, cancelled: bool)
    requires plan.Accepted() && CoreInv(plan, c, cancelled) && c.ready != [] && InOrder(plan, c.ready)
    ensures InOrder(plan, LaunchNext(plan, c, cancelled).ready)
  {
    hide CoreInv, Plan.Accepted, LaunchOf, Settle;
    LaunchNextInv(plan, c, cancelled);
    match LaunchOf(plan, c.results, c.ready[0], cancelled)
    case Skip(r) => SettledInOrder(plan, Popped(c), c.ready[0], r, cancelled);
    case Activate(_) =>
  }

  // In a queue in order the nodes stand by depth and then by declaration.
  lemma {:induction false} ReadyIsSorted(plan: Plan, c: Core, cancelled: bool, i: nat, j: nat)
    requires plan.Accepted() && CoreInv(plan, c, cancelled) && InOrder(plan, c.ready) && i < j < |c.ready|
    ensures Sooner(plan.g, c.ready[i], c.ready[j])
  {
    hide CoreInv, Plan.Accepted, Sooner, Rank;
    ReadyNodes(plan, c, cancelled);
    SequenceOrder(plan, c.ready[i], c.ready[j]);
  }

  // ---- Launching in queue order ------------------------------------------------------------

  lemma {:induction false} HeadIsLeast(plan: Plan, ready: seq<NodeId>, n: NodeId)
    requires InOrder(plan, ready) && n in ready
    ensures Rank(plan, ready[0]) <= Rank(plan, n)
    ensures forall m | m in ready && m != ready[0] :: m in ready[1..]
  {
    hide Rank;
    var i :| 0 <= i < |ready| && ready[i] == n;
    forall m | m in ready && m != ready[0] ensures m in ready[1..] {
      var j :| 0 <= j < |ready| && ready[j] == m;
      assert ready[1..][j - 1] == m;
    }
  }

  lemma {:induction false} WaitingUnscheduled(plan: Plan, c: Core, cancelled: bool, n: NodeId)
    requires CoreInv(plan, c, cancelled) && n in c.ready
    ensures n !in c.scheduled
  {
    hide Settled, Compiler.InCount, RespectsEdges;
    assert n in c.scheduled ==> n in Elems(c.scheduled);
  }

  // Of two waiting nodes the one standing first is launched first.
  lemma {:induction false} LaunchKeepsOrder(plan: Plan, c: Core, cancelled: bool, k: nat, a: NodeId, b: NodeId)
    requires plan.Accepted() && CoreInv(plan, c, cancelled) && |Elems(plan.Order())| <= |c.scheduled| + k
    requires InOrder(plan, c.ready) && a in c.ready && b in c.ready && Rank(plan, a) < Rank(plan, b)
    ensures var s := LaunchTurns(plan, c, cancelled, k).scheduled;
            a in s && b in s && IndexOf(s, a) < IndexOf(s, b)
    decreases k
  {
    hide CoreInv, LaunchNext, LaunchTurns, Plan.Accepted, Plan.Order, Rank;
    LaunchTurnsStep(plan, c, cancelled, k);
    LaunchNextInv(plan, c, cancelled);
    NextScheduled(plan, c, cancelled);
    var d := LaunchNext(plan, c, cancelled);
    ScheduledBound(plan, d, cancelled);
    HeadIsLeast(plan, c.ready, b);
    OthersWait(plan, c, cancelled, b);
    if a == c.ready[0] {
      WaitingScheduled(plan, d, cancelled, k - 1, b);
      WaitingUnscheduled(plan, d, cancelled, b);
      var s := LaunchTurns(plan, d, cancelled, k - 1).scheduled;
      assert s == d.scheduled + s[|d.scheduled|..];
      IndexInConcat(d.scheduled, s[|d.scheduled|..], a);
      IndexInConcat(d.scheduled, s[|d.scheduled|..], b);
    } else {
      OthersWait(plan, c, cancelled, a);
      LaunchedInOrder(plan, c, cancelled);
      LaunchKeepsOrder(plan, d, cancelled, k - 1, a, b);
    }
  }

  // ---- Declaration order alone -----------------------------------------------------------------

  // a is declared before b but is the deeper of the two.
  ghost predicate DeclaredDeeper(g: Graph, a: NodeId, b: NodeId) {
    && a in Ids(g.nodes) && b in Ids(g.nodes) && IndexOf(Ids(g.nodes), a) < IndexOf(Ids(g.nodes), b)
    && exists j: nat, k: nat :: Level(g.edges, a, j) && Level(g.edges, b, k) && j > k
  }

  lemma {:induction false} DeeperAt(g: Graph, a: NodeId, b: NodeId, j: nat, k: nat)
    requires a in Ids(g.nodes) && b in Ids(g.nodes) && Level(g.edges, a, j) && Level(g.edges, b, k)
    requires IndexOf(Ids(g.nodes), a) < IndexOf(Ids(g.nodes), b)
    ensures DeclaredDeeper(g, a, b) <==> j > k
  {
    hide Level;
    forall i: nat | Level(g.edges, a, i) ensures i == j { LevelUnique(g.edges, a, i, j); }
    forall i: nat | Level(g.edges, b, i) ensures i == k { LevelUnique(g.edges, b, i, k); }
  }

  lemma {:induction false} SoonerByDeclaration(plan: Plan, a: NodeId, b: NodeId)
    requires plan.Accepted() && a in Ids(plan.g.nodes) && b in Ids(plan.g.nodes)
    requires IndexOf(Ids(plan.g.nodes), a) < IndexOf(Ids(plan.g.nodes), b)
    ensures Sooner(plan.g, a, b) <==> !DeclaredDeeper(plan.g, a, b)
    ensures Sooner(plan.g, b, a) <==> DeclaredDeeper(plan.g, a, b)
  {
    hide Plan.Accepted, Level, Sooner, DeclaredDeeper, Flatten;
    var j, k := LayerFacts(plan, a, b);
    SoonerAt(plan.g, a, b, j, k);
    SoonerAt(plan.g, b, a, k, j);
    DeeperAt(plan.g, a, b, j, k);
  }

  lemma {:induction false} QueuePositions(plan: Plan, ready: seq<NodeId>, a: NodeId, b: NodeId)
    requires InOrder(plan, ready) && a in ready && b in ready && Rank(plan, a) < Rank(plan, b)
    ensures IndexOf(ready, a) < IndexOf(ready, b)
  {
    hide Rank;
    assert ready[IndexOf(ready, a)] == a && ready[IndexOf(ready, b)] == b;
  }

  // Two nodes waiting together stand in the queue, and are launched, in declaration order
  // exactly unless the one declared first is the deeper of the two.
  lemma {:induction false} DeclarationOrderExact(plan: Plan, c: Core, cancelled: bool, a: NodeId, b: NodeId)
    requires plan.Accepted() && CoreInv(plan, c, cancelled) && InOrder(plan, c.ready)
    requires a in c.ready && b in c.ready && a in Ids(plan.g.nodes) && b in Ids(plan.g.nodes)
    requires IndexOf(Ids(plan.g.nodes), a) < IndexOf(Ids(plan.g.nodes), b)
    ensures IndexOf(c.ready, a) < IndexOf(c.ready, b) <==> !DeclaredDeeper(plan.g, a, b)
    ensures var s := LaunchAll(plan, c, cancelled).scheduled;
            a in s && b in s && (IndexOf(s, a) < IndexOf(s, b) <==> !DeclaredDeeper(plan.g, a, b))
  {
    hide CoreInv, Plan.Accepted, Plan.Order, LaunchTurns, Sooner, DeclaredDeeper, Rank;
    OrderIsTopological(plan);
    NoDupCardinality(plan.Order());
    SoonerByDeclaration(plan, a, b);
    SequenceOrder(plan, a, b);
    SequenceOrder(plan, b, a);
    if Sooner(plan.g, a, b) {
      QueuePositions(plan, c.ready, a, b);
      LaunchKeepsOrder(plan, c, cancelled, |plan.Order()|, a, b);
    } else {
      QueuePositions(plan, c.ready, b, a);
      LaunchKeepsOrder(plan, c, cancelled, |plan.Order()|, b, a);
    }
  }
}
