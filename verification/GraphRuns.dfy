/**
 The scheduler's closures over one run, as an object: `settle`, `launchReady` and the
 main loop, which settles a batch of finished tasks per turn (one task in the TypeScript
 runtime, all finished tasks in the Python runtime).
 */
module GraphRuns {
  import opened Wrappers
  import opened Sequences
  import opened Json
  import opened Graphs
  import opened CompilerSpec
  import opened ReadyQueue
  import opened Readiness
  import opened RunGuarantees
  import opened LaunchEffects
  import opened Explanations
  import opened Reasons
  import Compiler

  // How a launched task ends.
  datatype Ending = Returned(output: Json, attempts: nat) | Broke(code: FailureCode, attempts: nat)

  function ResultOf(plan: Plan, n: NodeId, input: Json, ending: Ending): NodeResult {
    match ending
    case Returned(output, attempts) =>
      NodeResult(n, Rank(plan, n), Succeeded, attempts, Some(input), Some(output), None)
    case Broke(code, attempts) =>
      NodeResult(n, Rank(plan, n), Failed, attempts, Some(input), None, Some(NodeFailure(n, code, attempts, false, [])))
  }

  lemma {:induction false} EndingFits(plan: Plan, c: Core, n: NodeId, ending: Ending, cancelled: bool)
    requires CoreInv(plan, c, cancelled) && n in c.active
    ensures Fits(plan, c.results, n, ResultOf(plan, n, c.active[n], ending), cancelled)
  {}

  type Task = (NodeId, Json) -> Ending

  // Launched nodes end as their tasks do.
  function EndsAs(plan: Plan, execute: Task): Ends {
    (n, input, r) => r == ResultOf(plan, n, input, execute(n, input))
  }

  // What a launched node's result says of its task's ending.
  ghost predicate EndsWith(ending: Ending, n: NodeId, input: Json, r: NodeResult) {
    && r.node == n && r.input == Some(input)
    && match ending
       case Returned(output, attempts) =>
         r.status == Succeeded && r.attempts == attempts && r.output == Some(output) && r.failure == None
       case Broke(code, attempts) =>
         && r.status == Failed && r.attempts == attempts && r.output == None
         && r.failure == Some(NodeFailure(n, code, attempts, false, []))
  }

  lemma {:induction false} EndingSays(plan: Plan, n: NodeId, input: Json, ending: Ending)
    ensures EndsWith(ending, n, input, ResultOf(plan, n, input, ending))
  {}

  ghost function TaskEnds(execute: Task): Ends {
    (n, input, r) => EndsWith(execute(n, input), n, input, r)
  }

  // Every result has a reason, launched nodes their task's ending.
  ghost predicate AllReasoned(plan: Plan, results: map<NodeId, NodeResult>, execute: Task, cancelled: bool) {
    forall n | n in results :: Reasoned(plan, results, TaskEnds(execute), cancelled, n)
  }

  // Every result is what its predecessors' results and its own task make it.
  ghost predicate AllExplained(plan: Plan, results: map<NodeId, NodeResult>, execute: Task, cancelled: bool) {
    AllAccounted(plan, results, EndsAs(plan, execute), cancelled)
  }

  lemma {:induction false} ExplainedReasoned(
    plan: Plan, results: map<NodeId, NodeResult>, execute: Task, cancelled: bool)
    requires plan.Accepted() && AllExplained(plan, results, execute, cancelled)
    ensures AllReasoned(plan, results, execute, cancelled)
  {
    hide Reasoned, Accounted, Plan.Accepted;
    forall n | n in results ensures Reasoned(plan, results, TaskEnds(execute), cancelled, n) {
      AccountReasoned(plan, results, EndsAs(plan, execute), cancelled, n);
      forall v | EndsAs(plan, execute)(n, v, results[n]) ensures TaskEnds(execute)(n, v, results[n]) {
        EndingSays(plan, n, v, execute(n, v));
      }
      ReasonedAs(plan, results, EndsAs(plan, execute), TaskEnds(execute), cancelled, n);
    }
  }

  lemma {:induction false} RestActive(batch: seq<NodeId>, index: nat, active: set<NodeId>)
    requires NoDup(batch) && index < |batch| && forall n | n in batch[index..] :: n in active
    ensures batch[index] in active && forall n | n in batch[index + 1..] :: n in active && n != batch[index]
  {
    var rest := batch[index + 1..];
    assert batch[index..] == [batch[index]] + rest;
    forall n | n in rest ensures n != batch[index] {
      var i :| 0 <= i < |rest| && rest[i] == n;
      assert batch[index + 1 + i] == n;
    }
  }

  lemma {:induction false} OrderHoldsTargets(plan: Plan)
    requires Topological(plan.g, plan.Order())
    ensures forall e | e in plan.g.edges :: e.target.node in plan.Order()
  {}

  lemma {:induction false} InitialCounts(plan: Plan, counts: map<NodeId, int>)
    requires counts.Keys == Elems(plan.Order())
    requires forall n | n in plan.Order() :: counts[n] == Compiler.InCount(plan.g.edges, {}, n)
    ensures Core(map[], counts, Keep(plan.Order(), Compiler.ZeroNodes(plan.Order(), counts)), map[], [], [])
        == Initial(plan)
  {
    hide Compiler.InCount, Keep, Plan.Order;
    var order := plan.Order();
    assert counts == map n | n in order :: Compiler.InCount(plan.g.edges, {}, n) as int;
    assert Compiler.ZeroNodes(order, counts) == set n | n in order && counts[n] == 0;
  }

  lemma {:induction false} CountNext(edges: seq<Edge>, index: nat)
    requires index < |edges|
    ensures forall n :: Compiler.InCount(edges[..index + 1], {}, n)
                     == Compiler.InCount(edges[..index], {}, n) + if edges[index].target.node == n then 1 else 0
  {
    assert edges[..index + 1][..index] == edges[..index];
  }

  method CountEdges(edges: seq<Edge>, order: seq<NodeId>) returns (counts: map<NodeId, int>)
    requires forall e | e in edges :: e.target.node in order
    ensures counts.Keys == Elems(order)
    ensures forall n | n in order :: counts[n] == Compiler.InCount(edges, {}, n)
  {
    counts := map n | n in order :: 0;
    for index := 0 to |edges|
      invariant counts.Keys == Elems(order)
      invariant forall n | n in order :: counts[n] == Compiler.InCount(edges[..index], {}, n)
    {
      var target := edges[index].target.node;
      CountNext(edges, index);
      assert edges[index] in edges && target in order;
      counts := counts[target := counts[target] + 1];
    }
    assert edges[..|edges|] == edges;
  }

  // The counters' start values, by one pass over the edges, and the nodes at zero in order.
  method StartQueue(plan: Plan) returns (counts: map<NodeId, int>, ready: seq<NodeId>)
    requires plan.Accepted()
    ensures Core(map[], counts, ready, map[], [], []) == Initial(plan)
  {
    hide Plan.Accepted, Plan.Order, Topological, Keep, Compiler.InCount, Compiler.ZeroNodes, Initial;
    OrderIsTopological(plan);
    OrderHoldsTargets(plan);
    counts := CountEdges(plan.g.edges, plan.Order());
    ready := Keep(plan.Order(), Compiler.ZeroNodes(plan.Order(), counts));
    InitialCounts(plan, counts);
  }

  // The loop of `settle` over the outgoing edges.
  method LowerTargets(edges: seq<Edge>, counts: map<NodeId, int>, queue: seq<NodeId>)
    returns (remaining: map<NodeId, int>, ready: seq<NodeId>)
    ensures (remaining, ready) == Compiler.Lower(TargetNodes(edges), counts, queue)
  {
    remaining, ready := counts, queue;
    ghost var targets := TargetNodes(edges);
    for index := 0 to |edges|
      invariant Compiler.Lower(targets[..index], counts, queue) == (remaining, ready)
    {
      var target := edges[index].target.node;
      assert target == targets[index];
      TakeNext(targets, index);
      assert targets[..index + 1][..index] == targets[..index];
      var next := Compiler.CountOf(remaining, target) - 1;
      remaining := remaining[target := next];
      if next == 0 {
        ready := ready + [target];
      }
    }
    assert targets[..|edges|] == targets;
  }

  lemma {:induction false} RemovedFirst(plan: Plan, c: Core, n: NodeId, r: NodeResult)
    ensures ReadyQueue.Settle(plan, c.(active := c.active - {n}), n, r) == ReadyQueue.Settle(plan, c, n, r)
  {
    assert c.active - {n} - {n} == c.active - {n};
  }

  lemma {:induction false} BatchNonempty(plan: Plan, c: Core, done: set<NodeId>, cancelled: bool)
    requires CoreInv(plan, c, cancelled) && done <= c.active.Keys && done != {}
    ensures Keep(plan.Order(), done) != []
  {
    var n :| n in done;
    assert n in Keep(plan.Order(), done);
  }

  lemma {:induction false} BatchInOrder(plan: Plan, c: Core, done: set<NodeId>, cancelled: bool)
    requires plan.Accepted() && CoreInv(plan, c, cancelled) && done <= c.active.Keys && done != {}
    ensures NoDup(Keep(plan.Order(), done)) && Keep(plan.Order(), done) != []
    ensures forall n | n in Keep(plan.Order(), done) :: n in c.active
  {
    OrderCounts(plan);
    KeepNoDup(plan.Order(), done);
    BatchNonempty(plan, c, done, cancelled);
  }

  lemma {:induction false} RunEnds(plan: Plan, c: Core, cancelled: bool)
    requires plan.Accepted() && CoreInv(plan, c, cancelled) && |c.results| >= |plan.g.nodes|
    ensures c.results.Keys == Elems(Ids(plan.g.nodes))
    ensures multiset(c.scheduled) == multiset(c.completed) == multiset(Ids(plan.g.nodes))
    ensures RespectsEdges(plan.g.edges, c.scheduled) && RespectsEdges(plan.g.edges, c.completed)
  {
    OrderCounts(plan);
    SettledAndActive(plan, c, cancelled);
    SubsetCardinality(c.results.Keys, Elems(plan.Order()));
    assert |c.results.Keys| == |c.results|;
    FinalOrders(plan, c, cancelled);
  }

  lemma {:induction false} EnoughTurns(plan: Plan, c: Core, cancelled: bool)
    requires plan.Accepted() && CoreInv(plan, c, cancelled)
    ensures |Elems(plan.Order())| <= |c.scheduled| + |plan.Order()|
  {
    hide CoreInv;
    OrderCounts(plan);
    NoDupCardinality(plan.Order());
  }

  lemma {:induction false} CompletedStays(plan: Plan, c: Core, cancelled: bool)
    requires c.ready != []
    ensures |LaunchNext(plan, c, cancelled).completed| >= |c.completed|
  {
    hide Settle, FailedUpstream, BindInput;
    match LaunchOf(plan, c.results, c.ready[0], cancelled)
    case Skip(r) => SettleShape(plan, Popped(c), c.ready[0], r);
    case Activate(_) =>
  }

  // Launching can only add to the completed nodes.
  lemma {:induction false} CompletedKept(plan: Plan, c: Core, cancelled: bool, k: nat)
    ensures |LaunchTurns(plan, c, cancelled, k).completed| >= |c.completed|
    decreases k
  {
    hide LaunchNext, LaunchTurns;
    LaunchTurnsStep(plan, c, cancelled, k);
    if k == 0 || c.ready == [] {
    } else {
      CompletedStays(plan, c, cancelled);
      CompletedKept(plan, LaunchNext(plan, c, cancelled), cancelled, k - 1);
    }
  }

  lemma {:induction false} CompletedGrows(plan: Plan, c: Core, cancelled: bool)
    requires CoreInv(plan, c, cancelled)
    ensures |c.completed| <= |Elems(plan.Order())|
  {
    forall n | n in c.completed ensures n in Elems(plan.Order()) {
      assert n in Elems(c.completed);
    }
    NoDupBound(c.completed, Elems(plan.Order()));
  }

  lemma {:induction false} NothingExplained(plan: Plan, execute: Task, cancelled: bool)
    ensures AllExplained(plan, Initial(plan).results, execute, cancelled)
  {}

  class GraphRun {
    const plan: Plan
    var results: map<NodeId, NodeResult>
    var remaining: map<NodeId, int>
    var ready: seq<NodeId>
    var active: map<NodeId, Json>
    var scheduled: seq<NodeId>
    var completed: seq<NodeId>

    ghost function State(): Core
      reads this
    {
      Core(results, remaining, ready, active, scheduled, completed)
    }

    constructor (plan: Plan)
      requires plan.Accepted()
      ensures this.plan == plan && State() == Initial(plan)
    {
      this.plan := plan;
      results, active, scheduled, completed := map[], map[], [], [];
      remaining, ready := map[], [];
      new;
      hide Initial, Plan.Accepted;
      remaining, ready := StartQueue(plan);
    }

    method Settle(nodeId: NodeId, result: NodeResult)
      requires nodeId !in active
      modifies this
      ensures State() == ReadyQueue.Settle(plan, old(State()), nodeId, result)
    {
      hide Sort, Outgoing, Compiler.Lower, TargetNodes, Plan.Order;
      results := results[nodeId := result];
      completed := completed + [nodeId];
      remaining, ready := LowerTargets(Outgoing(plan.g, nodeId), remaining, ready);
      ready := Sort(ready, Compiler.ByDeclaration(Sequence(plan.Order())));
      assert active == active - {nodeId};
    }

    // One turn of the loop in `launchReady`.
    method LaunchOne(cancelled: bool)
      requires ready != [] && ready[0] !in active
      modifies this
      ensures State() == LaunchNext(plan, old(State()), cancelled)
    {
      var nodeId := ready[0];
      ready := ready[1..];
      scheduled := scheduled + [nodeId];
      assert State() == Popped(old(State()));
      var launch := LaunchOf(plan, results, nodeId, cancelled);
      match launch {
        case Skip(result) => Settle(nodeId, result);
        case Activate(input) => active := active[nodeId := input];
      }
    }

    method LaunchReady(cancelled: bool)
      requires plan.Accepted() && CoreInv(plan, State(), cancelled)
      modifies this
      ensures State() == LaunchAll(plan, old(State()), cancelled)
      ensures CoreInv(plan, State(), cancelled) && ready == []
    {
      hide CoreInv, LaunchNext, LaunchTurns, Plan.Accepted;
      ghost var k: nat := |plan.Order()|;
      LaunchAllInv(plan, State(), cancelled);
      EnoughTurns(plan, State(), cancelled);
      while ready != []
        invariant LaunchTurns(plan, State(), cancelled, k) == LaunchAll(plan, old(State()), cancelled)
        invariant CoreInv(plan, State(), cancelled) && |Elems(plan.Order())| <= |scheduled| + k
        decreases k
      {
        HeadFresh(plan, State(), cancelled);
        LaunchTurnsStep(plan, State(), cancelled, k);
        LaunchNextInv(plan, State(), cancelled);
        ScheduledBound(plan, LaunchNext(plan, State(), cancelled), cancelled);
        LaunchOne(cancelled);
        k := k - 1;
      }
      LaunchTurnsStep(plan, State(), cancelled, k);
    }

    method SettleTask(nodeId: NodeId, ending: Ending, ghost cancelled: bool)
      requires plan.Accepted() && CoreInv(plan, State(), cancelled) && nodeId in active
      modifies this
      ensures CoreInv(plan, State(), cancelled)
      ensures active == old(active) - {nodeId} && completed == old(completed) + [nodeId]
      ensures results == old(results)[nodeId := ResultOf(plan, nodeId, old(active)[nodeId], ending)]
    {
      hide CoreInv, Fits;
      var result := ResultOf(plan, nodeId, active[nodeId], ending);
      EndingFits(plan, State(), nodeId, ending, cancelled);
      SettleActive(plan, State(), nodeId, result, cancelled);
      RemovedFirst(plan, State(), nodeId, result);
      active := active - {nodeId};
      Settle(nodeId, result);
    }

    // Settle finished tasks in sequence order.
    method SettleBatch(batch: seq<NodeId>, execute: Task, ghost cancelled: bool)
      requires plan.Accepted() && CoreInv(plan, State(), cancelled) && AllExplained(plan, results, execute, cancelled)
      requires NoDup(batch) && forall n | n in batch :: n in active
      modifies this
      ensures CoreInv(plan, State(), cancelled) && AllExplained(plan, results, execute, cancelled)
      ensures completed == old(completed) + batch
    {
      hide CoreInv, AllAccounted, ResultOf, Plan.Accepted, NoDup;
      for index := 0 to |batch|
        invariant CoreInv(plan, State(), cancelled) && AllExplained(plan, results, execute, cancelled)
        invariant forall n | n in batch[index..] :: n in active
        invariant completed == old(completed) + batch[..index]
      {
        var nodeId := batch[index];
        RestActive(batch, index, active.Keys);
        TakeNext(batch, index);
        TaskAccounted(plan, State(), EndsAs(plan, execute), cancelled, nodeId,
          ResultOf(plan, nodeId, active[nodeId], execute(nodeId, active[nodeId])));
        SettleTask(nodeId, execute(nodeId, active[nodeId]), cancelled);
      }
      assert batch[..|batch|] == batch;
    }

    // Wait until some tasks are done, then settle them.
    method NextBatch(execute: Task, ghost cancelled: bool)
      requires plan.Accepted() && CoreInv(plan, State(), cancelled) && active != map[]
      requires AllExplained(plan, results, execute, cancelled)
      modifies this
      ensures CoreInv(plan, State(), cancelled) && |completed| > |old(completed)|
      ensures AllExplained(plan, results, execute, cancelled)
    {
      hide CoreInv, AllAccounted, EndsAs;
      var done: set<NodeId> :| done <= active.Keys && done != {};
      var batch := Keep(plan.Order(), done);
      BatchInOrder(plan, State(), done, cancelled);
      SettleBatch(batch, execute, cancelled);
    }

    // Launch what is ready; unless nothing is active, settle what gets done.
    method Turn(execute: Task, cancelled: bool) returns (idle: bool)
      requires plan.Accepted() && CoreInv(plan, State(), cancelled) && AllExplained(plan, results, execute, cancelled)
      modifies this
      ensures CoreInv(plan, State(), cancelled) && AllExplained(plan, results, execute, cancelled)
      ensures idle ==> |results| == |plan.g.nodes|
      ensures !idle ==> |old(completed)| < |completed| <= |Elems(plan.Order())|
    {
      hide CoreInv, AllAccounted, EndsAs;
      CompletedKept(plan, State(), cancelled, |plan.Order()|);
      LaunchAccounted(plan, State(), EndsAs(plan, execute), cancelled);
      LaunchReady(cancelled);
      ExitsCoincide(plan, State(), cancelled);
      idle := active == map[];
      if !idle {
        NextBatch(execute, cancelled);
        CompletedGrows(plan, State(), cancelled);
      }
    }

    // The main loop.
    method Loop(execute: Task, aborted: nat -> bool) returns (turn: nat)
      requires plan.Accepted() && CoreInv(plan, State(), aborted(0)) && AllExplained(plan, results, execute, aborted(0))
      requires forall i: nat, j: nat | i <= j :: aborted(i) ==> aborted(j)
      modifies this
      ensures CoreInv(plan, State(), aborted(turn)) && |results| >= |plan.g.nodes|
      ensures AllExplained(plan, results, execute, aborted(turn))
    {
      hide CoreInv, AllAccounted, EndsAs;
      turn := 0;
      ghost var bound := |Elems(plan.Order())|;
      while |results| < |plan.g.nodes|
        invariant CoreInv(plan, State(), aborted(turn)) && AllExplained(plan, results, execute, aborted(turn))
        decreases bound - |completed|
      {
        var idle := Turn(execute, aborted(turn));
        if idle {
          break;
        }
        CancelLater(plan, State(), aborted(turn), aborted(turn + 1));
        AccountedLater(plan, results, EndsAs(plan, execute), aborted(turn), aborted(turn + 1));
        turn := turn + 1;
      }
    }

    // The run. `aborted(turn)` is whether the run's signal has fired by that turn.
    method Run(execute: Task, aborted: nat -> bool)
      requires plan.Accepted() && State() == Initial(plan)
      requires forall i: nat, j: nat | i <= j :: aborted(i) ==> aborted(j)
      modifies this
      ensures results.Keys == Elems(Ids(plan.g.nodes))
      ensures exists turn: nat ::
        && CoreInv(plan, State(), aborted(turn)) && AllExplained(plan, results, execute, aborted(turn))
        && AllReasoned(plan, results, execute, aborted(turn))
      ensures multiset(scheduled) == multiset(completed) == multiset(Ids(plan.g.nodes))
      ensures RespectsEdges(plan.g.edges, scheduled) && RespectsEdges(plan.g.edges, completed)
    {
      hide CoreInv, AllAccounted, EndsAs;
      InitialInv(plan, aborted(0));
      NothingExplained(plan, execute, aborted(0));
      var turn := Loop(execute, aborted);
      ExplainedReasoned(plan, results, execute, aborted(turn));
      RunEnds(plan, State(), aborted(turn));
    }
  }
}
