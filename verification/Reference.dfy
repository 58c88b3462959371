/**
 The sequential meaning of a run: evaluate the nodes one after the other in topological
 order, each with its own attempts, no slots and no interleaving.
 */
module Reference {
  import opened Sequences
  import opened Json
  import opened Graphs
  import opened ReadyQueue
  import opened Readiness
  import opened Scheduler
  import opened LaunchEffects

  // An executor as a function of the node, its input and the attempt number.
  type Executor = (NodeId, Json, nat) -> Outcome

  // The attempts after the first a: until one succeeds or the last one failed.
  function Attempting(cfg: Config, exec: Executor, n: NodeId, input: Json, a: nat): NodeResult
    decreases MaxAttempts(cfg, n) - a
  {
    match exec(n, input, a + 1)
    case Success(output) => SucceededResult(cfg.plan, n, input, a + 1, output)
    case Failure(code) =>
      if a + 1 < MaxAttempts(cfg, n) then Attempting(cfg, exec, n, input, a + 1)
      else FailedResult(cfg.plan, n, input, a + 1, FailureOf(n, code, a + 1, false))
  }

  function Activated(cfg: Config, exec: Executor, n: NodeId, input: Json): NodeResult {
    if HasExecutor(cfg, n) then Attempting(cfg, exec, n, input, 0)
    else FailedResult(cfg.plan, n, input, 0, FailureOf(n, ExecutorNotFound, 0, false))
  }

  // A node's result from its predecessors' results.
  function NodeMeaning(cfg: Config, exec: Executor, results: map<NodeId, NodeResult>, n: NodeId): NodeResult {
    match LaunchOf(cfg.plan, results, n, false)
    case Skip(r) => r
    case Activate(input) => Activated(cfg, exec, n, input)
  }

  // The first k nodes of the order, left to right.
  function Evaluate(cfg: Config, exec: Executor, k: nat): map<NodeId, NodeResult>
    requires k <= |cfg.plan.Order()|
  {
    if k == 0 then map[]
    else
      var done := Evaluate(cfg, exec, k - 1);
      var n := cfg.plan.Order()[k - 1];
      done[n := NodeMeaning(cfg, exec, done, n)]
  }

  function Meaning(cfg: Config, exec: Executor): map<NodeId, NodeResult> {
    Evaluate(cfg, exec, |cfg.plan.Order()|)
  }

  // Every result is what its predecessors' results make it.
  ghost predicate Consistent(cfg: Config, exec: Executor, results: map<NodeId, NodeResult>) {
    forall n | n in results ::
      UpstreamSettled(cfg.plan.g.edges, results, n) && results[n] == NodeMeaning(cfg, exec, results, n)
  }

  lemma {:induction false} ArcBefore(plan: Plan, p: NodeId, i: nat)
    requires plan.Accepted() && i < |plan.Order()| && Arc(plan.g.edges, p, plan.Order()[i])
    ensures p in Elems(plan.Order()[..i])
  {
    OrderIsTopological(plan);
    var order := plan.Order();
    var e :| e in plan.g.edges && e.source.node == p && e.target.node == order[i];
    IndexIsPosition(order, i);
    assert order[..i][IndexOf(order, p)] == p;
  }

  lemma {:induction false} EvaluateUnique(cfg: Config, exec: Executor, results: map<NodeId, NodeResult>, k: nat)
    requires cfg.plan.Accepted() && Consistent(cfg, exec, results) && results.Keys == Elems(cfg.plan.Order())
    requires k <= |cfg.plan.Order()|
    ensures Evaluate(cfg, exec, k).Keys == Elems(cfg.plan.Order()[..k])
    ensures forall n | n in Evaluate(cfg, exec, k) :: n in results && Evaluate(cfg, exec, k)[n] == results[n]
  {
    hide LaunchOf, Plan.Accepted;
    var order := cfg.plan.Order();
    if k == 0 {
    } else {
      var n, done := order[k - 1], Evaluate(cfg, exec, k - 1);
      EvaluateUnique(cfg, exec, results, k - 1);
      ElemsTakeNext(order, k - 1);
      forall p | Arc(cfg.plan.g.edges, p, n) ensures p in done {
        ArcBefore(cfg.plan, p, k - 1);
      }
      LaunchLocal(cfg.plan, done, results, n);
      assert n in results;
    }
  }

  // Consistent results of all nodes are the sequential meaning.
  lemma {:induction false} ConsistentIsMeaning(cfg: Config, exec: Executor, results: map<NodeId, NodeResult>)
    requires cfg.plan.Accepted() && Consistent(cfg, exec, results) && results.Keys == Elems(cfg.plan.Order())
    ensures results == Meaning(cfg, exec)
  {
    hide Evaluate, Consistent, Plan.Accepted, Plan.Order;
    EvaluateUnique(cfg, exec, results, |cfg.plan.Order()|);
    assert cfg.plan.Order()[..|cfg.plan.Order()|] == cfg.plan.Order();
  }

  // Same nodes, edges, compilation, input and executors; the limits may differ.
  ghost predicate SameWork(a: Config, b: Config) {
    && a.plan.g.nodes == b.plan.g.nodes && a.plan.g.edges == b.plan.g.edges
    && a.plan.compilation == b.plan.compilation && a.plan.input == b.plan.input
    && a.nodeExecutors == b.nodeExecutors && a.kindExecutors == b.kindExecutors
  }

  lemma {:induction false} AttemptingSame(a: Config, b: Config, exec: Executor, n: NodeId, input: Json, k: nat)
    requires SameWork(a, b)
    ensures Attempting(a, exec, n, input, k) == Attempting(b, exec, n, input, k)
    decreases MaxAttempts(a, n) - k
  {
    if k + 1 >= MaxAttempts(a, n) {
    } else {
      AttemptingSame(a, b, exec, n, input, k + 1);
    }
  }

  lemma {:induction false} IncomingSame(g: Graph, h: Graph, n: NodeId)
    requires g.edges == h.edges
    ensures Incoming(g, n) == Incoming(h, n)
  {}

  lemma {:induction false} LaunchSame(a: Plan, b: Plan, results: map<NodeId, NodeResult>, n: NodeId)
    requires a.g.edges == b.g.edges && a.compilation == b.compilation && a.input == b.input
    ensures LaunchOf(a, results, n, false) == LaunchOf(b, results, n, false)
  {
    hide Incoming, BindEdges, Unsuccessful;
    IncomingSame(a.g, b.g, n);
  }

  lemma {:induction false} NodeMeaningSame(a: Config, b: Config, exec: Executor, results: map<NodeId, NodeResult>,
      n: NodeId)
    requires SameWork(a, b)
    ensures NodeMeaning(a, exec, results, n) == NodeMeaning(b, exec, results, n)
  {
    hide Attempting, LaunchOf;
    LaunchSame(a.plan, b.plan, results, n);
    match LaunchOf(a.plan, results, n, false)
    case Skip(_) =>
    case Activate(input) => AttemptingSame(a, b, exec, n, input, 0);
  }

  lemma {:induction false} EvaluateSame(a: Config, b: Config, exec: Executor, k: nat)
    requires SameWork(a, b) && k <= |a.plan.Order()|
    ensures a.plan.Order() == b.plan.Order() && Evaluate(a, exec, k) == Evaluate(b, exec, k)
  {
    hide NodeMeaning;
    if k == 0 {
    } else {
      EvaluateSame(a, b, exec, k - 1);
      NodeMeaningSame(a, b, exec, Evaluate(a, exec, k - 1), a.plan.Order()[k - 1]);
    }
  }

  // The limits do not enter the meaning.
  lemma {:induction false} MeaningSame(a: Config, b: Config, exec: Executor)
    requires SameWork(a, b)
    ensures Meaning(a, exec) == Meaning(b, exec)
  {
    EvaluateSame(a, b, exec, |a.plan.Order()|);
  }
}
