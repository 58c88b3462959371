/**
 Results in terms of the document, the caller's executors and the answers of the run: the limits
 a document declares, what one node's run reports, and so what every result of every run says.
 */
module NodeReports {
  import opened Wrappers
  import opened Sequences
  import opened Json
  import opened Graphs
  import opened CompilerSpec
  import opened ReadyQueue
  import opened Readiness
  import opened RunGuarantees
  import opened Scheduler
  import opened SchedulerInvariant
  import opened SchedulerRuns
  import opened SchedulerSafety
  import opened Explanations
  import opened Reasons
  import opened NodeRuns
  import opened RunScripts

  // ---- Declared limits -----------------------------------------------------------------

  // The attempts a node may make: what it declares if that is positive, else one.
  function Allowed(d: Node): (most: nat)
    ensures most >= 1
  {
    if d.maxAttempts.Some? && d.maxAttempts.value > 0 then d.maxAttempts.value else 1
  }

  lemma {:induction false} FindDeclared(nodes: seq<Node>, d: Node)
    requires NoDup(Ids(nodes)) && d in nodes
    ensures FindNode(nodes, d.id) == Some(d)
  {
    var front, last := nodes[..|nodes| - 1], nodes[|nodes| - 1];
    assert nodes == front + [last];
    assert Ids(nodes) == Ids(front) + [last.id];
    NoDupAppend(Ids(front), last.id);
    if d in front {
      var i :| 0 <= i < |front| && front[i] == d;
      assert Ids(front)[i] == d.id;
      FindDeclared(front, d);
    }
  }

  // The attempts, the timeout and the executor of a declared node.
  lemma {:induction false} DeclaredLimits(cfg: Config, d: Node)
    requires NoDup(Ids(cfg.plan.g.nodes)) && d in cfg.plan.g.nodes
    ensures MaxAttempts(cfg, d.id) == Allowed(d)
    ensures HasTimeout(cfg, d.id) <==> d.timeoutMs.Some?
    ensures HasExecutor(cfg, d.id) <==>
              d.id in cfg.nodeExecutors || d.kind in cfg.kindExecutors || d.kind == Transform || d.kind == Barrier
  {
    FindDeclared(cfg.plan.g.nodes, d);
  }

  // The attempt budget of a run: the policy if it is positive, else the largest safe integer.
  lemma {:induction false} DeclaredBudget(cfg: Config)
    ensures var policy := cfg.plan.g.policies.maxTotalAttempts;
            AttemptLimit(cfg) == if policy.Some? && policy.value > 0 then policy.value else 9007199254740991
  {}

  // In every state of every run each node's attempts and calls are within what it declares, all
  // attempts within the declared budget, and slots within policy, request and default.
  lemma {:induction false} EveryStateAsDeclared(cfg: Config, aborted: bool, steps: seq<Step>, d: Node)
    requires cfg.plan.Accepted() && Legal(cfg, Init(cfg, aborted), steps) && d in cfg.plan.g.nodes
    ensures var s, policies := Exec(cfg, Init(cfg, aborted), steps), cfg.plan.g.policies;
            var most := Allowed(d);
            && (d.id in s.core.results ==> s.core.results[d.id].attempts <= most)
            && (d.id !in s.core.results && d.id in s.tasks ==> s.tasks[d.id].attempts <= most)
            && CallCount(s.calls, d.id) <= most
            && (policies.maxTotalAttempts.Some? && policies.maxTotalAttempts.value > 0 ==>
                  s.total <= policies.maxTotalAttempts.value)
            && s.sem.running <= (if policies.maxConcurrency.Some? && policies.maxConcurrency.value > 0
                                 then policies.maxConcurrency.value else 4)
            && (cfg.requested.Some? && cfg.requested.value > 0 ==> s.sem.running <= cfg.requested.value)
  {
    hide Init, CallsOk, MaxAttempts, AttemptLimit, Concurrency, Plan.Order, Plan.Accepted;
    OrderIsTopological(cfg.plan);
    DeclaredLimits(cfg, d);
    DeclaredBudget(cfg);
    EveryState(cfg, aborted, steps);
    assert AttemptsAt(Exec(cfg, Init(cfg, aborted), steps).core.results,
                      Exec(cfg, Init(cfg, aborted), steps).tasks)(d.id) <= MaxAttempts(cfg, d.id);
  }

  // ---- The run of one node ----------------------------------------------------------------

  // The loop goes on after turn k: the attempt was made, failed, and the backoff passed.
  ghost predicate GoesOn(o: Answers, k: nat) {
    && o.granted(k) && o.budget(k) && !o.aborted(k)
    && o.outcome(k).Failure? && o.outcome(k).code != NodeCancelled && o.rested(k)
  }

  ghost predicate ReportsFailure(r: NodeResult, n: NodeId, attempts: nat, code: FailureCode, attempt: nat) {
    && r.status == Failed && r.attempts == attempts && r.output == None
    && r.failure == Some(NodeFailure(n, code, attempt, false, []))
  }

  // What is reported when the loop ends at turn k of at most m.
  ghost predicate EndsAt(o: Answers, m: nat, k: nat, n: NodeId, r: NodeResult)
    requires k >= 1
  {
    if !o.granted(k) then ReportsFailure(r, n, k - 1, NodeCancelled, k - 1)
    else if !o.budget(k) then
      if k == 1 then ReportsFailure(r, n, 0, AttemptBudgetExhausted, 0)
      else o.outcome(k - 1).Failure? && ReportsFailure(r, n, k - 1, o.outcome(k - 1).code, k - 1)
    else if o.aborted(k) then ReportsFailure(r, n, k, NodeCancelled, k)
    else
      match o.outcome(k)
      case Success(output) =>
        r.status == Succeeded && r.attempts == k && r.output == Some(output) && r.failure == None
      case Failure(code) =>
        ReportsFailure(r, n, k, if code != NodeCancelled && k < m then NodeCancelled else code, k)
  }

  // Turn k is the first after which the loop does not go on, or the last it may make.
  ghost predicate StopsAt(o: Answers, m: nat, k: nat, n: NodeId, r: NodeResult) {
    && 1 <= k <= m && (forall j: nat | 1 <= j < k :: GoesOn(o, j)) && (k < m ==> !GoesOn(o, k))
    && EndsAt(o, m, k, n, r)
  }

  // A node without an executor fails at once; else its loop ends at the first turn after which it
  // does not go on, at the latest at the last one it may make.
  ghost predicate RunOf(cfg: Config, d: Node, input: Json, o: Answers, r: NodeResult) {
    && r.node == d.id && r.input == Some(input)
    && if d.id in cfg.nodeExecutors || d.kind in cfg.kindExecutors || d.kind == Transform || d.kind == Barrier then
         exists k: nat :: StopsAt(o, Allowed(d), k, d.id, r)
       else ReportsFailure(r, d.id, 0, ExecutorNotFound, 0)
  }

  lemma {:induction false} FirstStop(o: Answers, m: nat, from: nat) returns (k: nat)
    requires 1 <= from <= m && forall j: nat | 1 <= j < from :: GoesOn(o, j)
    ensures from <= k <= m && (forall j: nat | 1 <= j < k :: GoesOn(o, j)) && (k < m ==> !GoesOn(o, k))
    decreases m - from
  {
    if from == m || !GoesOn(o, from) {
      k := from;
    } else {
      k := FirstStop(o, m, from + 1);
    }
  }

  lemma {:induction false} GoneOnPast(cfg: Config, n: NodeId, o: Answers, a: nat)
    requires forall j: nat | 1 <= j <= a :: GoesOn(o, j)
    ensures Past(cfg, n, o, a)
  {
    hide MaxAttempts;
    forall j: nat | 1 <= j <= a ensures Passed(cfg, n, o, j) {
      assert GoesOn(o, j);
    }
  }

  lemma {:induction false} EndedTurn(cfg: Config, n: NodeId, input: Json, o: Answers, k: nat)
    requires SignalStays(o) && 1 <= k <= MaxAttempts(cfg, n)
    requires o.granted(k) && o.budget(k) && OutcomeAt(o, k).Failure?
    requires k < MaxAttempts(cfg, n) ==> OutcomeAt(o, k).code == NodeCancelled || !o.rested(k)
    ensures var code := OutcomeAt(o, k).code;
            TypeScriptFrom(cfg, n, input, o, k - 1, LastAt(cfg, n, o, k - 1)) ==
            Ended(cfg, n, input, k, if code != NodeCancelled && k < MaxAttempts(cfg, n) then NodeCancelled else code)
  {
    hide MaxAttempts;
    var code := OutcomeAt(o, k).code;
    if !MayRetry(cfg, n, k, code) {
      LastTurn(cfg, n, input, o, k, Some(FailureOf(n, code, k, false)), code);
    }
  }

  // The loop at the turn where it ends.
  lemma {:induction false} LoopEndsAt(cfg: Config, n: NodeId, input: Json, o: Answers, k: nat)
    requires SignalStays(o) && 1 <= k <= MaxAttempts(cfg, n) && (forall j: nat | 1 <= j < k :: GoesOn(o, j))
    requires k < MaxAttempts(cfg, n) ==> !GoesOn(o, k)
    ensures EndsAt(o, MaxAttempts(cfg, n), k, n, TypeScriptFrom(cfg, n, input, o, 0, None))
  {
    hide MaxAttempts, Past;
    GoneOnPast(cfg, n, o, k - 1);
    TurnsPast(cfg, n, input, o, k - 1);
    if k > 1 {
      assert GoesOn(o, k - 1);
    }
    if o.granted(k) && o.budget(k) && !o.aborted(k) && o.outcome(k).Failure? {
      EndedTurn(cfg, n, input, o, k);
    } else if o.granted(k) && o.budget(k) && o.aborted(k) {
      EndedTurn(cfg, n, input, o, k);
    }
  }

  lemma {:induction false} LoopResult(cfg: Config, n: NodeId, input: Json, o: Answers, a: nat,
      last: Option<NodeFailure>)
    ensures var r := TypeScriptFrom(cfg, n, input, o, a, last); r.node == n && r.input == Some(input)
    decreases MaxAttempts(cfg, n) - a
  {
    hide MaxAttempts;
    if a >= MaxAttempts(cfg, n) {
    } else if o.granted(a + 1) && o.budget(a + 1) && OutcomeAt(o, a + 1).Failure? {
      var code := OutcomeAt(o, a + 1).code;
      LoopResult(cfg, n, input, o, a + 1, Some(FailureOf(n, code, a + 1, MayRetry(cfg, n, a + 1, code))));
    }
  }

  // What one node's run reports, exactly.
  lemma {:induction false} NodeEndExact(cfg: Config, d: Node, input: Json, o: Answers)
    requires NoDup(Ids(cfg.plan.g.nodes)) && d in cfg.plan.g.nodes && SignalStays(o)
    ensures RunOf(cfg, d, input, o, NodeEnd(cfg, d.id, input, o))
  {
    hide EndsAt, GoesOn, SignalStays, TypeScriptFrom, MaxAttempts, HasExecutor;
    DeclaredLimits(cfg, d);
    var most := MaxAttempts(cfg, d.id);
    LoopResult(cfg, d.id, input, o, 0, None);
    var r := NodeEnd(cfg, d.id, input, o);
    if HasExecutor(cfg, d.id) {
      var k := FirstStop(o, most, 1);
      LoopEndsAt(cfg, d.id, input, o, k);
      assert StopsAt(o, most, k, d.id, r);
    } else {
      assert ReportsFailure(r, d.id, 0, ExecutorNotFound, 0);
    }
  }

  // A node that always fails is tried exactly as often as it declares.
  lemma {:induction false} AlwaysFailing(cfg: Config, d: Node, input: Json, o: Answers, code: FailureCode)
    requires NoDup(Ids(cfg.plan.g.nodes)) && d in cfg.plan.g.nodes && SignalStays(o)
    requires d.id in cfg.nodeExecutors && code != NodeCancelled
    requires forall k: nat ::
               o.granted(k) && o.budget(k) && !o.aborted(k) && o.rested(k) && o.outcome(k) == Failure(code)
    ensures ReportsFailure(NodeEnd(cfg, d.id, input, o), d.id, Allowed(d), code, Allowed(d))
  {
    hide NodeEnd;
    NodeEndExact(cfg, d, input, o);
    var r := NodeEnd(cfg, d.id, input, o);
    var k: nat :| StopsAt(o, Allowed(d), k, d.id, r);
    assert o.granted(k) && o.outcome(k) == Failure(code);
    assert GoesOn(o, k);
  }

  // ---- Every result ------------------------------------------------------------------------

  // Launched on an input, the node's run ends as it does on the answers.
  ghost function RunsOf(cfg: Config, d: Node, o: Answers): Ends {
    (n, input, r) => RunOf(cfg, d, input, o, r)
  }

  lemma {:induction false} InResults(cfg: Config, results: map<NodeId, NodeResult>, log: Log, aborted: bool, n: NodeId)
    requires Accounted(cfg.plan, results, LoopEnds(cfg, log), aborted, n)
    ensures n in results
  {}

  lemma {:induction false} LoopReasoned(cfg: Config, results: map<NodeId, NodeResult>, log: Log, aborted: bool, d: Node)
    requires cfg.plan.Accepted() && d in cfg.plan.g.nodes && NoDup(Ids(cfg.plan.g.nodes)) && SignalStays(log(d.id))
    requires Accounted(cfg.plan, results, LoopEnds(cfg, log), aborted, d.id)
    ensures Reasoned(cfg.plan, results, RunsOf(cfg, d, log(d.id)), aborted, d.id)
  {
    hide Reasoned, RunOf, NodeEnd, SignalStays, Plan.Accepted, Accounted;
    InResults(cfg, results, log, aborted, d.id);
    AccountReasoned(cfg.plan, results, LoopEnds(cfg, log), aborted, d.id);
    forall v { NodeEndExact(cfg, d, v, log(d.id)); }
    ReasonedAs(cfg.plan, results, LoopEnds(cfg, log), RunsOf(cfg, d, log(d.id)), aborted, d.id);
  }

  // Every result of every state of every run, in the document's own terms.
  lemma {:induction false} EveryResultExact(cfg: Config, aborted: bool, steps: seq<Step>, d: Node)
    requires cfg.plan.Accepted() && Legal(cfg, Init(cfg, aborted), steps) && d in cfg.plan.g.nodes
    ensures var s, log := Exec(cfg, Init(cfg, aborted), steps), RunLog(cfg, aborted, steps);
            d.id in s.core.results ==>
              && Reasoned(cfg.plan, s.core.results, RunsOf(cfg, d, log(d.id)), s.aborted, d.id)
              && s.core.results[d.id].sequence < |cfg.plan.Order()|
              && cfg.plan.Order()[s.core.results[d.id].sequence] == d.id
  {
    hide SchedInv, Plan.Order, CoreInv, Init, Legal, Exec, RunLog;
    hide Reasoned, Accounted, LoopEnds, RunsOf, Plan.Accepted, SignalStays;
    OrderIsTopological(cfg.plan);
    InitInv(cfg, aborted);
    RunKeeps(cfg, Init(cfg, aborted), steps);
    EveryResultAccounted(cfg, aborted, steps);
    var s, log := Exec(cfg, Init(cfg, aborted), steps), RunLog(cfg, aborted, steps);
    if d.id in s.core.results {
      LoopReasoned(cfg, s.core.results, log, s.aborted, d);
      InvParts(cfg, s);
      ResultPlaced(cfg.plan, s.core, s.aborted, d.id);
    }
  }
}
