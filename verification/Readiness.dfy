/**
 The invariant of the ready queue over an accepted graph, and what it gives for every
 run: no deadlock, each node scheduled and settled once in an order that respects every
 edge, and failures contained to descendants.
 */
module Readiness {
  import opened Wrappers
  import opened Sequences
  import opened Json
  import opened Graphs
  import opened CompilerSpec
  import opened ReadyQueue
  import Compiler

  // Every edge into a listed node starts at a node listed before it.
  ghost predicate RespectsEdges(edges: seq<Edge>, s: seq<NodeId>) {
    forall i, e | 0 <= i < |s| && e in edges && e.target.node == s[i] :: e.source.node in s[..i]
  }

  lemma {:induction false} RespectsAppend(edges: seq<Edge>, s: seq<NodeId>, n: NodeId)
    requires RespectsEdges(edges, s) && forall p | Arc(edges, p, n) :: p in s
    ensures RespectsEdges(edges, s + [n])
  {
    var t := s + [n];
    forall i, e | 0 <= i < |t| && e in edges && e.target.node == t[i] ensures e.source.node in t[..i] {
      if i < |s| {
        assert t[..i] == s[..i];
      } else {
        assert Arc(edges, e.source.node, n);
        assert t[..i] == s;
      }
    }
  }

  // Every predecessor of n has a result.
  ghost predicate UpstreamSettled(edges: seq<Edge>, results: map<NodeId, NodeResult>, n: NodeId) {
    forall p | Arc(edges, p, n) :: p in results
  }

  // A result that node n may have, given its predecessors' results.
  ghost predicate Fits(plan: Plan, results: map<NodeId, NodeResult>, n: NodeId, r: NodeResult, cancelled: bool) {
    && r.node == n && r.sequence == Rank(plan, n)
    && (r.status == Succeeded <==> r.failure.None?)
    && (r.status == Succeeded <==> r.output.Some?)
    && (r.status == Skipped ==>
          && (r == SkippedResult(plan, n, true, [])
              || r == SkippedResult(plan, n, false, FailedUpstream(plan.g, results, n)))
          && (FailedUpstream(plan.g, results, n) == [] ==> cancelled)
          && (!cancelled ==> r == SkippedResult(plan, n, false, FailedUpstream(plan.g, results, n))))
    && (r.status != Skipped ==> FailedUpstream(plan.g, results, n) == [])
  }

  // The bookkeeping of counters and queues; busy nodes are scheduled but not settled.
  ghost predicate Counters(plan: Plan, c: Core, busy: set<NodeId>) {
    && (forall n | n in c.results || n in busy || n in c.ready :: n in plan.Order())
    && c.results.Keys !! busy && (forall n | n in c.ready :: n !in c.results && n !in busy)
    && NoDup(c.ready)
    && (forall n | n in plan.Order() ::
          n in c.remaining && c.remaining[n] == Compiler.InCount(plan.g.edges, c.results.Keys, n))
    && (forall n | n in plan.Order() ::
          c.remaining[n] == 0 <==> n in c.results || n in busy || n in c.ready)
  }

  ghost predicate Orders(plan: Plan, c: Core, busy: set<NodeId>) {
    && NoDup(c.scheduled) && Elems(c.scheduled) == c.results.Keys + busy
    && NoDup(c.completed) && Elems(c.completed) == c.results.Keys
    && RespectsEdges(plan.g.edges, c.scheduled) && RespectsEdges(plan.g.edges, c.completed)
  }

  // n's predecessors are settled and its result agrees with theirs.
  ghost predicate ResultOk(plan: Plan, results: map<NodeId, NodeResult>, n: NodeId, r: NodeResult, cancelled: bool) {
    UpstreamSettled(plan.g.edges, results, n) && Fits(plan, results, n, r, cancelled)
  }

  // n's predecessors all succeeded and its input is bound from their outputs.
  ghost predicate InputOk(plan: Plan, results: map<NodeId, NodeResult>, n: NodeId, input: Json) {
    && UpstreamSettled(plan.g.edges, results, n) && FailedUpstream(plan.g, results, n) == []
    && BindInput(plan, results, n) == Some(input)
  }

  ghost predicate Settled(plan: Plan, c: Core, cancelled: bool) {
    && (forall n | n in c.results :: ResultOk(plan, c.results, n, c.results[n], cancelled))
    && (forall n | n in c.active :: InputOk(plan, c.results, n, c.active[n]))
  }

  ghost predicate CoreInv(plan: Plan, c: Core, cancelled: bool) {
    Counters(plan, c, c.active.Keys) && Orders(plan, c, c.active.Keys) && Settled(plan, c, cancelled)
  }

  // ---- Counters ------------------------------------------------------------------------

  lemma {:induction false} ZeroMeansSettled(plan: Plan, c: Core, busy: set<NodeId>, n: NodeId)
    requires Counters(plan, c, busy) && n in plan.Order() && c.remaining[n] == 0
    ensures UpstreamSettled(plan.g.edges, c.results, n)
  {
    Compiler.InCountZero(plan.g.edges, c.results.Keys, n);
  }

  lemma {:induction false} InitialInv(plan: Plan, cancelled: bool)
    requires plan.Accepted()
    ensures CoreInv(plan, Initial(plan), cancelled)
  {
    OrderIsTopological(plan);
    var order, c := plan.Order(), Initial(plan);
    KeepNoDup(order, set n | n in order && c.remaining[n] == 0);
    assert c.results.Keys == {} && c.active.Keys == {};
    assert Elems(c.scheduled) == {} && Elems(c.completed) == {};
  }

  lemma {:induction false} SortedReady(plan: Plan, ready: seq<NodeId>)
    requires Topological(plan.g, plan.Order()) && NoDup(ready)
    ensures var s := Sort(ready, Compiler.ByDeclaration(Sequence(plan.Order())));
            NoDup(s) && forall n :: n in s <==> n in ready
  {
    var leq := Compiler.ByDeclaration(Sequence(plan.Order()));
    SortMembers(ready, leq);
    PermutationNoDup(ready, Sort(ready, leq));
  }

  lemma {:induction false} TargetsCounted(plan: Plan, c: Core, busy: set<NodeId>, n: NodeId)
    requires Topological(plan.g, plan.Order()) && Counters(plan, c, busy)
    ensures forall t | t in TargetNodes(Outgoing(plan.g, n)) :: t in plan.Order() && t in c.remaining
  {
    OutgoingTargets(plan.g, n);
    SameMembers(TargetNodes(Outgoing(plan.g, n)), Targets(plan.g.edges, n));
    Compiler.TargetsAreArcs(plan.g.edges, n);
  }

  // The counters and the queue after lowering the targets of n.
  ghost predicate Lowered(plan: Plan, c: Core, busy: set<NodeId>, n: NodeId, remaining: map<NodeId, int>,
      reached: seq<NodeId>) {
    && (forall t | t in plan.Order() ::
          t in remaining && remaining[t] == Compiler.InCount(plan.g.edges, c.results.Keys + {n}, t))
    && NoDup(reached)
    && forall t :: t in reached <==> t in plan.Order() && t !in c.results.Keys + busy && remaining[t] == 0
  }

  lemma {:induction false} LowerCounters(plan: Plan, c: Core, busy: set<NodeId>, n: NodeId)
    requires Topological(plan.g, plan.Order()) && Counters(plan, c, busy) && n in busy
    ensures var (remaining, reached) := Compiler.Lower(TargetNodes(Outgoing(plan.g, n)), c.remaining, c.ready);
            Lowered(plan, c, busy, n, remaining, reached)
  {
    hide Topological, Plan.Order, TargetNodes, Outgoing, Compiler.Lower, Compiler.InCount;
    var order, edges := plan.Order(), plan.g.edges;
    var targets := TargetNodes(Outgoing(plan.g, n));
    TargetsCounted(plan, c, busy, n);
    OutgoingTargets(plan.g, n);
    forall t | t in order
      ensures c.remaining[t] == Compiler.InCount(edges, c.results.Keys + {n}, t) + multiset(targets)[t]
    {
      Compiler.InCountRemove(edges, c.results.Keys, n, t);
    }
    forall t | t in targets ensures t !in c.results.Keys + busy {
      assert multiset(targets)[t] > 0;
    }
    Compiler.LowerMeans(order, targets, c.remaining, c.results.Keys + busy, c.ready);
  }

  // Settling a busy node keeps the counters exact and queues each newly ready node once.
  lemma {:induction false} SettleCounters(plan: Plan, c: Core, busy: set<NodeId>, n: NodeId, r: NodeResult)
    requires Topological(plan.g, plan.Order()) && Counters(plan, c, busy) && n in busy
    ensures Counters(plan, Settle(plan, c, n, r), busy - {n})
  {
    LowerCounters(plan, c, busy, n);
    var (remaining, reached) := Compiler.Lower(TargetNodes(Outgoing(plan.g, n)), c.remaining, c.ready);
    SortedReady(plan, reached);
    var d := Settle(plan, c, n, r);
    assert d.results.Keys == c.results.Keys + {n};
    forall t | t in plan.Order()
      ensures d.remaining[t] == 0 <==> t in d.results || t in busy - {n} || t in d.ready
    {
      if t in c.results || t in busy {
        Compiler.InCountZero(plan.g.edges, c.results.Keys, t);
        Compiler.InCountZero(plan.g.edges, d.results.Keys, t);
      }
    }
  }

  // ---- Orders and results ------------------------------------------------------------------

  lemma {:induction false} SettleOrders(plan: Plan, c: Core, busy: set<NodeId>, n: NodeId, r: NodeResult)
    requires Orders(plan, c, busy) && n in busy && n !in c.results && n in c.scheduled
    requires UpstreamSettled(plan.g.edges, c.results, n)
    ensures Orders(plan, Settle(plan, c, n, r), busy - {n})
  {
    NoDupAppend(c.completed, n);
    forall p | Arc(plan.g.edges, p, n) ensures p in c.completed {
      assert p in Elems(c.completed);
    }
    RespectsAppend(plan.g.edges, c.completed, n);
    assert Elems(c.completed + [n]) == Elems(c.completed) + {n};
    assert c.results[n := r].Keys + (busy - {n}) == c.results.Keys + busy;
  }

  lemma {:induction false} UnsuccessfulStable(edges: seq<Edge>, before: map<NodeId, NodeResult>,
      after: map<NodeId, NodeResult>)
    requires forall e | e in edges :: e.source.node in before && e.source.node in after
                                   && after[e.source.node] == before[e.source.node]
    ensures Unsuccessful(edges, after) == Unsuccessful(edges, before)
  {
    if edges == [] {
    } else {
      assert forall e | e in edges[..|edges| - 1] :: e in edges;
      UnsuccessfulStable(edges[..|edges| - 1], before, after);
    }
  }

  lemma {:induction false} BindStable(edges: seq<Edge>, before: map<NodeId, NodeResult>, after: map<NodeId, NodeResult>)
    requires forall e | e in edges :: e.source.node in before && e.source.node in after
                                   && after[e.source.node] == before[e.source.node]
    ensures BindEdges(edges, after) == BindEdges(edges, before)
  {
    if edges == [] {
    } else {
      assert forall e | e in edges[..|edges| - 1] :: e in edges;
      BindStable(edges[..|edges| - 1], before, after);
    }
  }

  // Results below n do not change what n's predecessors' results say.
  lemma {:induction false} UpstreamStable(plan: Plan, before: map<NodeId, NodeResult>, after: map<NodeId, NodeResult>,
      n: NodeId)
    requires UpstreamSettled(plan.g.edges, before, n)
    requires forall p | p in before :: p in after && after[p] == before[p]
    ensures UpstreamSettled(plan.g.edges, after, n)
    ensures FailedUpstream(plan.g, after, n) == FailedUpstream(plan.g, before, n)
    ensures BindInput(plan, after, n) == BindInput(plan, before, n)
  {
    var incoming := Incoming(plan.g, n);
    IncomingMembers(plan.g, n);
    forall e | e in incoming ensures e.source.node in before {
      assert Arc(plan.g.edges, e.source.node, n);
    }
    UnsuccessfulStable(incoming, before, after);
    BindStable(incoming, before, after);
  }

  lemma {:induction false} StaysOk(plan: Plan, results: map<NodeId, NodeResult>, n: NodeId, r: NodeResult,
      cancelled: bool)
    requires n !in results
    ensures forall m, q | ResultOk(plan, results, m, q, cancelled) :: ResultOk(plan, results[n := r], m, q, cancelled)
    ensures forall m, x | InputOk(plan, results, m, x) :: InputOk(plan, results[n := r], m, x)
  {
    forall m, q | ResultOk(plan, results, m, q, cancelled) ensures ResultOk(plan, results[n := r], m, q, cancelled) {
      UpstreamStable(plan, results, results[n := r], m);
    }
    forall m, x | InputOk(plan, results, m, x) ensures InputOk(plan, results[n := r], m, x) {
      UpstreamStable(plan, results, results[n := r], m);
    }
  }

  lemma {:induction false} SettleResults(plan: Plan, c: Core, n: NodeId, r: NodeResult, cancelled: bool)
    requires Settled(plan, c, cancelled) && n !in c.results
    requires ResultOk(plan, c.results, n, r, cancelled)
    ensures Settled(plan, Settle(plan, c, n, r), cancelled)
  {
    StaysOk(plan, c.results, n, r, cancelled);
    assert ResultOk(plan, c.results[n := r], n, r, cancelled);
  }

  lemma {:induction false} RemoveKey(m: map<NodeId, Json>, n: NodeId)
    ensures (m - {n}).Keys == m.Keys + {n} - {n}
  {}

  // Settling a busy node keeps the invariant; it is no longer busy.
  lemma {:induction false} SettleInv(plan: Plan, c: Core, n: NodeId, r: NodeResult, cancelled: bool)
    requires plan.Accepted() && n !in c.results && n in c.scheduled
    requires Counters(plan, c, c.active.Keys + {n}) && Orders(plan, c, c.active.Keys + {n})
        && Settled(plan, c, cancelled)
    requires ResultOk(plan, c.results, n, r, cancelled)
    ensures CoreInv(plan, Settle(plan, c, n, r), cancelled)
  {
    var busy := c.active.Keys + {n};
    OrderIsTopological(plan);
    SettleCounters(plan, c, busy, n, r);
    SettleOrders(plan, c, busy, n, r);
    SettleResults(plan, c, n, r, cancelled);
    RemoveKey(c.active, n);
  }

  lemma {:induction false} ActiveFacts(plan: Plan, c: Core, n: NodeId, cancelled: bool)
    requires CoreInv(plan, c, cancelled) && n in c.active
    ensures n in plan.Order() && n !in c.results && n !in c.ready && n in c.scheduled
    ensures UpstreamSettled(plan.g.edges, c.results, n)
    ensures c.active.Keys + {n} == c.active.Keys
  {
    hide Compiler.InCount, RespectsEdges, BindInput, FailedUpstream, UpstreamSettled, ResultOk;
    assert n in Elems(c.scheduled);
  }

  // Settling an active node keeps the invariant.
  lemma {:induction false} SettleActive(plan: Plan, c: Core, n: NodeId, r: NodeResult, cancelled: bool)
    requires plan.Accepted() && CoreInv(plan, c, cancelled) && n in c.active
    requires Fits(plan, c.results, n, r, cancelled)
    ensures CoreInv(plan, Settle(plan, c, n, r), cancelled)
  {
    ActiveFacts(plan, c, n, cancelled);
    SettleInv(plan, c, n, r, cancelled);
  }

  // Once the signal has fired, everything that held before still does.
  lemma {:induction false} CancelLater(plan: Plan, c: Core, before: bool, after: bool)
    requires CoreInv(plan, c, before) && (before ==> after)
    ensures CoreInv(plan, c, after)
  {
    forall n | n in c.results ensures ResultOk(plan, c.results, n, c.results[n], after) {
      assert ResultOk(plan, c.results, n, c.results[n], before);
    }
  }

  // ---- Launching ------------------------------------------------------------------------------

  lemma {:induction false} PopCounters(plan: Plan, c: Core)
    requires Counters(plan, c, c.active.Keys) && c.ready != []
    ensures var n := c.ready[0];
            n in plan.Order() && n !in c.results && n !in c.active && c.remaining[n] == 0
    ensures Counters(plan, Popped(c), c.active.Keys + {c.ready[0]})
  {
    var n := c.ready[0];
    assert c.ready == [n] + c.ready[1..];
    assert n in c.ready && n !in c.ready[1..];
    assert forall m :: m in c.ready <==> m == n || m in c.ready[1..];
  }

  lemma {:induction false} PopOrders(plan: Plan, c: Core)
    requires Orders(plan, c, c.active.Keys) && c.ready != []
    requires c.ready[0] !in c.results && c.ready[0] !in c.active
    requires UpstreamSettled(plan.g.edges, c.results, c.ready[0])
    ensures Orders(plan, Popped(c), c.active.Keys + {c.ready[0]})
  {
    var n := c.ready[0];
    NoDupAppend(c.scheduled, n);
    assert n in c.scheduled ==> n in Elems(c.scheduled);
    forall p | Arc(plan.g.edges, p, n) ensures p in c.scheduled {
      assert p in Elems(c.scheduled);
    }
    RespectsAppend(plan.g.edges, c.scheduled, n);
    assert Elems(c.scheduled + [n]) == Elems(c.scheduled) + {n};
  }

  // Taking the first ready node off the queue makes it busy.
  lemma {:induction false} PopReady(plan: Plan, c: Core, cancelled: bool)
    requires plan.Accepted() && CoreInv(plan, c, cancelled) && c.ready != []
    ensures var n := c.ready[0];
            && n in plan.Order() && n !in c.results && n !in c.active && n in Popped(c).scheduled
            && UpstreamSettled(plan.g.edges, c.results, n)
            && Counters(plan, Popped(c), c.active.Keys + {n}) && Orders(plan, Popped(c), c.active.Keys + {n})
            && Settled(plan, Popped(c), cancelled)
  {
    OrderIsTopological(plan);
    PopCounters(plan, c);
    ZeroMeansSettled(plan, c, c.active.Keys, c.ready[0]);
    PopOrders(plan, c);
  }

  lemma {:induction false} LaunchFits(plan: Plan, results: map<NodeId, NodeResult>, n: NodeId, cancelled: bool)
    requires UpstreamSettled(plan.g.edges, results, n)
    ensures match LaunchOf(plan, results, n, cancelled)
            case Skip(r) => ResultOk(plan, results, n, r, cancelled) && r.attempts == 0
            case Activate(input) => InputOk(plan, results, n, input)
  {}

  // The bookkeeping does not look at the inputs.
  lemma {:induction false} SameBooks(plan: Plan, c: Core, d: Core, busy: set<NodeId>)
    requires Counters(plan, c, busy) && Orders(plan, c, busy) && d == c.(active := d.active)
    ensures Counters(plan, d, busy) && Orders(plan, d, busy)
  {
    hide Compiler.InCount, RespectsEdges;
  }

  // A busy node with a bound input becomes active.
  lemma {:induction false} ActivateBusy(plan: Plan, c: Core, n: NodeId, input: Json, cancelled: bool)
    requires n !in c.active && InputOk(plan, c.results, n, input)
    requires Counters(plan, c, c.active.Keys + {n}) && Orders(plan, c, c.active.Keys + {n})
        && Settled(plan, c, cancelled)
    ensures CoreInv(plan, c.(active := c.active[n := input]), cancelled)
  {
    hide Counters, Orders, ResultOk, InputOk;
    var d := c.(active := c.active[n := input]);
    assert d.active.Keys == c.active.Keys + {n};
    SameBooks(plan, c, d, c.active.Keys + {n});
  }

  lemma {:induction false} LaunchNextInv(plan: Plan, c: Core, cancelled: bool)
    requires plan.Accepted() && CoreInv(plan, c, cancelled) && c.ready != []
    ensures CoreInv(plan, LaunchNext(plan, c, cancelled), cancelled)
    ensures |LaunchNext(plan, c, cancelled).scheduled| == |c.scheduled| + 1
  {
    var n := c.ready[0];
    PopReady(plan, c, cancelled);
    LaunchFits(plan, c.results, n, cancelled);
    match LaunchOf(plan, c.results, n, cancelled)
    case Skip(r) => SettleInv(plan, Popped(c), n, r, cancelled);
    case Activate(input) => ActivateBusy(plan, Popped(c), n, input, cancelled);
  }

  lemma {:induction false} ScheduledBound(plan: Plan, c: Core, cancelled: bool)
    requires CoreInv(plan, c, cancelled)
    ensures |c.scheduled| <= |Elems(plan.Order())|
  {
    forall n | n in c.scheduled ensures n in Elems(plan.Order()) {
      assert n in Elems(c.scheduled);
    }
    NoDupBound(c.scheduled, Elems(plan.Order()));
  }

  lemma {:induction false} LaunchTurnsStep(plan: Plan, c: Core, cancelled: bool, k: nat)
    ensures LaunchTurns(plan, c, cancelled, k) ==
            if k == 0 || c.ready == [] then c else LaunchTurns(plan, LaunchNext(plan, c, cancelled), cancelled, k - 1)
  {
    hide LaunchNext;
  }

  // Launching keeps the invariant and empties the queue.
  lemma {:induction false} LaunchTurnsInv(plan: Plan, c: Core, cancelled: bool, k: nat)
    requires plan.Accepted() && CoreInv(plan, c, cancelled) && |Elems(plan.Order())| <= |c.scheduled| + k
    ensures CoreInv(plan, LaunchTurns(plan, c, cancelled, k), cancelled)
    ensures LaunchTurns(plan, c, cancelled, k).ready == []
    decreases k
  {
    hide CoreInv, LaunchNext, LaunchTurns, Plan.Accepted, Plan.Order;
    LaunchTurnsStep(plan, c, cancelled, k);
    if c.ready == [] {
    } else {
      LaunchNextInv(plan, c, cancelled);
      var d := LaunchNext(plan, c, cancelled);
      ScheduledBound(plan, d, cancelled);
      LaunchTurnsInv(plan, d, cancelled, k - 1);
    }
  }

  lemma {:induction false} LaunchAllInv(plan: Plan, c: Core, cancelled: bool)
    requires plan.Accepted() && CoreInv(plan, c, cancelled)
    ensures CoreInv(plan, LaunchAll(plan, c, cancelled), cancelled)
    ensures LaunchAll(plan, c, cancelled).ready == []
  {
    hide CoreInv, LaunchTurns;
    OrderIsTopological(plan);
    NoDupCardinality(plan.Order());
    LaunchTurnsInv(plan, c, cancelled, |plan.Order()|);
  }
}
