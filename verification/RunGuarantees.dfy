/**
 What the ready-queue invariant says about a run: it cannot stall, its orders are
 permutations of the nodes that respect every edge, and failure is contained exactly.
 */
module RunGuarantees {
  import opened Sequences
  import opened Graphs
  import opened ReadyQueue
  import opened Readiness
  import Compiler

  // ---- No deadlock -----------------------------------------------------------------

  lemma {:induction false} NextSettled(plan: Plan, c: Core, k: nat)
    requires Topological(plan.g, plan.Order()) && Counters(plan, c, {}) && c.ready == []
    requires k < |plan.Order()| && forall i | 0 <= i < k :: plan.Order()[i] in c.results
    ensures plan.Order()[k] in c.results
  {
    hide Plan.Order;
    var order := plan.Order();
    var n := order[k];
    IndexIsPosition(order, k);
    forall e | e in plan.g.edges && e.target.node == n ensures e.source.node in c.results {
      assert order[IndexOf(order, e.source.node)] == e.source.node;
    }
    Compiler.InCountZero(plan.g.edges, c.results.Keys, n);
    assert n in order && c.remaining[n] == 0;
  }

  // By position in the order: all predecessors settled, so the counter is zero.
  lemma {:induction false} AllSettledBefore(plan: Plan, c: Core, k: nat)
    requires Topological(plan.g, plan.Order()) && Counters(plan, c, {}) && c.ready == []
    requires k <= |plan.Order()|
    ensures forall i | 0 <= i < k :: plan.Order()[i] in c.results
  {
    hide Topological, Counters, Plan.Order;
    if k == 0 {
    } else {
      AllSettledBefore(plan, c, k - 1);
      NextSettled(plan, c, k - 1);
    }
  }

  lemma {:induction false} AllSettled(plan: Plan, c: Core)
    requires Topological(plan.g, plan.Order()) && Counters(plan, c, {}) && c.ready == []
    ensures c.results.Keys == Elems(plan.Order())
  {
    AllSettledBefore(plan, c, |plan.Order()|);
  }

  // With nothing ready and nothing active, every node has settled.
  lemma {:induction false} NoDeadlock(plan: Plan, c: Core, cancelled: bool)
    requires plan.Accepted() && CoreInv(plan, c, cancelled)
    requires c.ready == [] && c.active == map[]
    ensures c.results.Keys == Elems(plan.Order())
  {
    OrderIsTopological(plan);
    assert c.active.Keys == {};
    AllSettled(plan, c);
  }

  // The order lists as many nodes as the graph declares.
  lemma {:induction false} OrderCounts(plan: Plan)
    requires plan.Accepted()
    ensures Elems(plan.Order()) == Elems(Ids(plan.g.nodes)) && |Elems(plan.Order())| == |plan.g.nodes|
    ensures NoDup(plan.Order()) && NoDup(Ids(plan.g.nodes))
  {
    OrderIsTopological(plan);
    NoDupCardinality(Ids(plan.g.nodes));
  }

  lemma {:induction false} SettledAndActive(plan: Plan, c: Core, cancelled: bool)
    requires CoreInv(plan, c, cancelled)
    ensures c.results.Keys <= Elems(plan.Order()) && c.active.Keys <= Elems(plan.Order())
    ensures c.results.Keys !! c.active.Keys
  {}

  lemma {:induction false} FullMeansIdle(c: Core, all: set<NodeId>)
    requires c.results.Keys <= all && c.active.Keys <= all && c.results.Keys !! c.active.Keys
    ensures |c.results| == |all| ==> c.results.Keys == all && c.active == map[]
    ensures c.results.Keys == all ==> |c.results| == |all| && c.active == map[]
  {
    assert |c.results| == |c.results.Keys|;
    SubsetCardinality(c.results.Keys, all);
    if c.results.Keys == all {
      assert c.active.Keys <= all - c.results.Keys;
      assert c.active.Keys == {};
    }
  }

  // The main loop's break is never taken early: the two exits coincide.
  lemma {:induction false} ExitsCoincide(plan: Plan, c: Core, cancelled: bool)
    requires plan.Accepted() && CoreInv(plan, c, cancelled) && c.ready == []
    ensures c.active == map[] <==> |c.results| == |plan.g.nodes|
  {
    OrderCounts(plan);
    SettledAndActive(plan, c, cancelled);
    if c.active == map[] {
      NoDeadlock(plan, c, cancelled);
    }
    FullMeansIdle(c, Elems(plan.Order()));
  }

  // Every result bears its node's id and the position of its node in the order.
  lemma {:induction false} ResultPlaced(plan: Plan, c: Core, cancelled: bool, n: NodeId)
    requires plan.Accepted() && CoreInv(plan, c, cancelled) && n in c.results
    ensures c.results[n].node == n
    ensures c.results[n].sequence < |plan.Order()| && plan.Order()[c.results[n].sequence] == n
  {
    hide Orders, UpstreamSettled, Plan.Order;
    assert ResultOk(plan, c.results, n, c.results[n], cancelled);
  }

  // ---- Orders ------------------------------------------------------------------------

  lemma {:induction false} SameElements(plan: Plan, c: Core, cancelled: bool)
    requires CoreInv(plan, c, cancelled) && c.active == map[]
    ensures NoDup(c.scheduled) && NoDup(c.completed)
    ensures Elems(c.scheduled) == c.results.Keys && Elems(c.completed) == c.results.Keys
  {}

  // Once all nodes settled, both recorded orders are permutations that respect every edge.
  lemma {:induction false} FinalOrders(plan: Plan, c: Core, cancelled: bool)
    requires plan.Accepted() && CoreInv(plan, c, cancelled) && c.results.Keys == Elems(plan.Order())
    ensures multiset(c.scheduled) == multiset(c.completed) == multiset(Ids(plan.g.nodes))
    ensures RespectsEdges(plan.g.edges, c.scheduled) && RespectsEdges(plan.g.edges, c.completed)
  {
    OrderCounts(plan);
    SettledAndActive(plan, c, cancelled);
    FullMeansIdle(c, Elems(plan.Order()));
    SameElements(plan, c, cancelled);
    NoDupMultiset(c.scheduled);
    NoDupMultiset(c.completed);
    NoDupMultiset(Ids(plan.g.nodes));
  }

  // ---- Failure containment --------------------------------------------------------------

  // A proper ancestor of n that failed.
  ghost predicate FailedAncestor(plan: Plan, results: map<NodeId, NodeResult>, a: NodeId, n: NodeId) {
    && a in results && results[a].status == Failed
    && exists p :: Arc(plan.g.edges, p, n) && Reaches(plan.g.edges, a, p)
  }

  // A skipped node has a direct predecessor that failed or was skipped.
  lemma {:induction false} SkippedHasCause(plan: Plan, c: Core, n: NodeId) returns (p: NodeId)
    requires CoreInv(plan, c, false) && n in c.results && c.results[n].status == Skipped
    ensures Arc(plan.g.edges, p, n) && p in c.results && c.results[p].status != Succeeded
  {
    FailedUpstreamMembers(plan.g, c.results, n);
    assert ResultOk(plan, c.results, n, c.results[n], false);
    p := FailedUpstream(plan.g, c.results, n)[0];
    assert p in FailedUpstream(plan.g, c.results, n);
  }

  lemma {:induction false} RankIncreases(plan: Plan, p: NodeId, n: NodeId)
    requires plan.Accepted() && Arc(plan.g.edges, p, n)
    ensures Rank(plan, p) < Rank(plan, n)
  {
    OrderIsTopological(plan);
    var e :| e in plan.g.edges && e.source.node == p && e.target.node == n;
  }

  lemma {:induction false} AncestorStep(plan: Plan, c: Core, a: NodeId, p: NodeId, n: NodeId)
    requires FailedAncestor(plan, c.results, a, p) && Arc(plan.g.edges, p, n)
    ensures FailedAncestor(plan, c.results, a, n)
  {
    var q :| Arc(plan.g.edges, q, p) && Reaches(plan.g.edges, a, q);
    ReachesStep(plan.g.edges, a, q, p);
  }

  lemma {:induction false} SkippedHasFailedAncestor(plan: Plan, c: Core, n: NodeId) returns (a: NodeId)
    requires plan.Accepted() && CoreInv(plan, c, false)
    requires n in c.results && c.results[n].status == Skipped
    ensures FailedAncestor(plan, c.results, a, n)
    decreases Rank(plan, n)
  {
    var p := SkippedHasCause(plan, c, n);
    RankIncreases(plan, p, n);
    if c.results[p].status == Failed {
      a := p;
      assert PathFromTo(plan.g.edges, [p], p, p);
    } else {
      a := SkippedHasFailedAncestor(plan, c, p);
      AncestorStep(plan, c, a, p, n);
    }
  }

  // Everything reached by an edge from an unsuccessful node is skipped.
  lemma {:induction false} BelowUnsuccessful(plan: Plan, c: Core, p: NodeId, n: NodeId)
    requires CoreInv(plan, c, false) && n in c.results
    requires Arc(plan.g.edges, p, n) && !HasSucceeded(c.results, p)
    ensures c.results[n].status == Skipped
  {
    FailedUpstreamMembers(plan.g, c.results, n);
    assert ResultOk(plan, c.results, n, c.results[n], false);
  }

  lemma {:induction false} PredecessorSettled(plan: Plan, c: Core, p: NodeId, n: NodeId)
    requires CoreInv(plan, c, false) && n in c.results && Arc(plan.g.edges, p, n)
    ensures p in c.results
  {
    hide Counters, Orders, Fits;
    assert ResultOk(plan, c.results, n, c.results[n], false);
  }

  lemma {:induction false} UnsuccessfulSpreads(plan: Plan, c: Core, path: seq<NodeId>)
    requires CoreInv(plan, c, false) && IsPath(plan.g.edges, path)
    requires path[|path| - 1] in c.results && !HasSucceeded(c.results, path[0])
    ensures !HasSucceeded(c.results, path[|path| - 1])
    ensures |path| > 1 ==> c.results[path[|path| - 1]].status == Skipped
    decreases |path|
  {
    hide CoreInv, Arc;
    if |path| <= 1 {
    } else {
      var front := path[0..|path| - 1];
      var p, n := path[|path| - 2], path[|path| - 1];
      PathPrefix(plan.g.edges, path, 0, |path| - 1);
      assert Arc(plan.g.edges, p, n);
      PredecessorSettled(plan, c, p, n);
      UnsuccessfulSpreads(plan, c, front);
      BelowUnsuccessful(plan, c, p, n);
    }
  }

  // In an uncancelled run a settled node is skipped iff some proper ancestor failed; its
  // failure then lists exactly its direct predecessors that did not succeed.
  lemma {:induction false} FailureContainment(plan: Plan, c: Core, n: NodeId)
    requires plan.Accepted() && CoreInv(plan, c, false) && n in c.results
    ensures c.results[n].status == Skipped <==> exists a :: FailedAncestor(plan, c.results, a, n)
    ensures c.results[n].status == Skipped ==>
      && c.results[n].attempts == 0 && c.results[n].failure.Some?
      && c.results[n].failure.value.code == UpstreamFailed
      && forall p :: p in c.results[n].failure.value.upstream <==>
                       Arc(plan.g.edges, p, n) && !HasSucceeded(c.results, p)
    ensures c.results[n].status != Skipped ==> forall p | Arc(plan.g.edges, p, n) :: HasSucceeded(c.results, p)
  {
    FailedUpstreamMembers(plan.g, c.results, n);
    assert ResultOk(plan, c.results, n, c.results[n], false);
    if c.results[n].status == Skipped {
      var a := SkippedHasFailedAncestor(plan, c, n);
    }
    if exists a :: FailedAncestor(plan, c.results, a, n) {
      var a :| FailedAncestor(plan, c.results, a, n);
      var p :| Arc(plan.g.edges, p, n) && Reaches(plan.g.edges, a, p);
      var path :| PathFromTo(plan.g.edges, path, a, p);
      assert p in c.results;
      UnsuccessfulSpreads(plan, c, path);
      BelowUnsuccessful(plan, c, p, n);
    }
  }
}
