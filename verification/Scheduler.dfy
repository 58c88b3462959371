/**
 `runGraph` as a machine over its interleaving points. Between two awaits a node's task
 moves by one step: it claims an attempt, its executor's outcome is decided, it resumes
 after the attempt, its backoff ends, it learns of a rejection, or its result is settled.
 Executors and timers are the choice of outcome; the abort signal may fire at any point.
 */
module Scheduler {
  import opened Wrappers
  import opened Sequences
  import opened Json
  import opened Graphs
  import opened ReadyQueue
  import opened Semaphores
  import Compiler

  // ---- Configuration -------------------------------------------------------------

  // The run's plan and limits, and which executors are registered.
  datatype Config = Config(
    plan: Plan, requested: Option<int>, nodeExecutors: set<NodeId>, kindExecutors: set<Kind>)

  function PositiveInteger(value: Option<int>, fallback: int): int {
    if value.Some? && value.value > 0 then value.value else fallback
  }

  // The concurrency limit: the caller's request, capped by the policy (4 by default).
  function Concurrency(cfg: Config): (limit: nat)
    ensures limit >= 1
    ensures var policy, wanted := cfg.plan.g.policies.maxConcurrency, cfg.requested;
      && (policy.Some? && policy.value > 0 ==> limit <= policy.value)
      && (policy.None? || policy.value <= 0 ==> limit <= 4)
      && (wanted.Some? && wanted.value > 0 ==> limit <= wanted.value)
      && (|| (policy.Some? && policy.value > 0 && limit == policy.value)
          || ((policy.None? || policy.value <= 0) && limit == 4)
          || (wanted.Some? && wanted.value > 0 && limit == wanted.value))
  {
    var policy := PositiveInteger(cfg.plan.g.policies.maxConcurrency, 4);
    var desired := PositiveInteger(cfg.requested, policy);
    if desired < policy then desired else policy
  }

  function AttemptLimit(cfg: Config): (limit: nat)
    ensures limit >= 1
  {
    PositiveInteger(cfg.plan.g.policies.maxTotalAttempts, Compiler.MAX_SAFE_INTEGER)
  }

  function FindNode(nodes: seq<Node>, n: NodeId): Option<Node> {
    if nodes == [] then None
    else if nodes[|nodes| - 1].id == n then Some(nodes[|nodes| - 1])
    else FindNode(nodes[..|nodes| - 1], n)
  }

  function MaxAttempts(cfg: Config, n: NodeId): (max: nat)
    ensures max >= 1
  {
    var node := FindNode(cfg.plan.g.nodes, n);
    if node.None? then 1 else PositiveInteger(node.value.maxAttempts, 1)
  }

  predicate HasTimeout(cfg: Config, n: NodeId) {
    var node := FindNode(cfg.plan.g.nodes, n);
    node.Some? && node.value.timeoutMs.Some?
  }

  // By node, by kind, or the identity executor of transform and barrier nodes.
  predicate HasExecutor(cfg: Config, n: NodeId) {
    var node := FindNode(cfg.plan.g.nodes, n);
    n in cfg.nodeExecutors
    || (node.Some? && (node.value.kind in cfg.kindExecutors || node.value.kind.Transform? || node.value.kind.Barrier?))
  }

  // ---- State -------------------------------------------------------------------------

  datatype Outcome = Success(output: Json) | Failure(code: FailureCode)

  // Where a task stands between two awaits.
  datatype Phase =
    | Waiting                               // queued for an attempt slot
    | Granted(slot: nat)                    // holds a slot, has not claimed the attempt
    | Running(slot: nat)                    // its executor has been called
    | Decided(slot: nat, outcome: Outcome)  // the attempt's outcome is fixed, slot not yet released
    | Backoff                               // between attempts
    | Rejected                              // slot acquisition was rejected by the signal
    | Finished(result: NodeResult)          // its promise is resolved

  datatype Task = Task(phase: Phase, attempts: nat, last: Option<NodeFailure>)

  datatype Call = Call(node: NodeId, attempt: nat)

  // `calls` is history: executor invocations in order.
  datatype State = State(
    core: Core, sem: Sem<NodeId>, tasks: map<NodeId, Task>, total: nat, aborted: bool, calls: seq<Call>)

  // ---- Results -----------------------------------------------------------------------

  function FailureOf(n: NodeId, code: FailureCode, attempt: nat, retryable: bool): NodeFailure {
    NodeFailure(n, code, attempt, retryable, [])
  }

  function FailedResult(plan: Plan, n: NodeId, input: Json, attempts: nat, failure: NodeFailure): NodeResult {
    NodeResult(n, Rank(plan, n), Failed, attempts, Some(input), None, Some(failure))
  }

  function SucceededResult(plan: Plan, n: NodeId, input: Json, attempts: nat, output: Json): NodeResult {
    NodeResult(n, Rank(plan, n), Succeeded, attempts, Some(input), Some(output), None)
  }

  // ---- Pieces of steps ------------------------------------------------------------------

  // Ask for an attempt slot.
  function Request(s: State, n: NodeId, attempts: nat, last: Option<NodeFailure>): State {
    var (sem, answer) := OnAcquire(s.sem, n, s.aborted);
    var phase := match answer
      case Rejected => Phase.Rejected
      case Granted(slot) => Phase.Granted(slot)
      case Queued(_) => Waiting;
    s.(sem := sem, tasks := s.tasks[n := Task(phase, attempts, last)])
  }

  // All tasks after a waiter was handed a slot.
  function Awaken(tasks: map<NodeId, Task>, wakeup: Option<Wakeup<NodeId>>): map<NodeId, Task> {
    if wakeup.Some? && wakeup.value.id in tasks
    then tasks[wakeup.value.id := tasks[wakeup.value.id].(phase := Phase.Granted(wakeup.value.slot))]
    else tasks
  }

  // Release a slot and leave the holder as t.
  function ReleaseTo(s: State, n: NodeId, slot: nat, t: Task): State {
    var (sem, wakeup) := OnRelease(s.sem, slot);
    s.(sem := sem, tasks := Awaken(s.tasks, wakeup)[n := t])
  }

  function SetTask(s: State, n: NodeId, t: Task): State {
    s.(tasks := s.tasks[n := t])
  }

  // The synchronous start of a launched node.
  function Start(cfg: Config, s: State, n: NodeId): State
    requires n in s.core.active
  {
    if !HasExecutor(cfg, n) then
      SetTask(s, n, Task(Finished(FailedResult(cfg.plan, n, s.core.active[n], 0,
          FailureOf(n, ExecutorNotFound, 0, false))), 0, None))
    else Request(s, n, 0, None)
  }

  function StartAll(cfg: Config, s: State, ns: seq<NodeId>): (r: State)
    requires forall n | n in ns :: n in s.core.active
    ensures r.core == s.core && r.total == s.total && r.aborted == s.aborted && r.calls == s.calls
  {
    if ns == [] then s
    else
      assert forall n | n in ns[..|ns| - 1] :: n in ns;
      Start(cfg, StartAll(cfg, s, ns[..|ns| - 1]), ns[|ns| - 1])
  }

  // The nodes launched since the schedule had the given length.
  function Newly(c: Core, since: nat): (r: seq<NodeId>)
    ensures forall n | n in r :: n in c.active
  {
    if since <= |c.scheduled| then Keep(c.scheduled[since..], c.active.Keys) else []
  }

  // ---- Steps -----------------------------------------------------------------------------

  datatype Step =
    | Claim(n: NodeId) | Decide(n: NodeId, outcome: Outcome) | Resume(n: NodeId)
    | Wake(n: NodeId) | WakeCancelled(n: NodeId) | Reject(n: NodeId) | Complete(n: NodeId) | Abort

  // Outcomes an attempt may have: after the abort only cancellation or a timeout.
  predicate Possible(cfg: Config, n: NodeId, aborted: bool, o: Outcome) {
    match o
    case Success(_) => !aborted
    case Failure(code) =>
      match code
      case NodeCancelled => aborted
      case NodeTimeout => HasTimeout(cfg, n)
      case NodeExecutionFailed => !aborted
      case InvalidOutput => !aborted
      case _ => false
  }

  predicate Enabled(cfg: Config, s: State, step: Step) {
    match step
    case Abort => !s.aborted
    case Claim(n) => n in s.tasks && s.tasks[n].phase.Granted? && n in s.core.active
    case Decide(n, o) => n in s.tasks && s.tasks[n].phase.Running? && Possible(cfg, n, s.aborted, o)
    case Resume(n) => n in s.tasks && s.tasks[n].phase.Decided? && n in s.core.active
    case Wake(n) => n in s.tasks && s.tasks[n].phase.Backoff?
    case WakeCancelled(n) => n in s.tasks && s.tasks[n].phase.Backoff? && s.aborted && n in s.core.active
    case Reject(n) => n in s.tasks && s.tasks[n].phase.Rejected? && n in s.core.active
    case Complete(n) => n in s.tasks && s.tasks[n].phase.Finished? && n in s.core.active
  }

  // `claimAttempt` and the start of the attempt.
  function ClaimStep(cfg: Config, s: State, n: NodeId): State
    requires Enabled(cfg, s, Claim(n))
  {
    var t := s.tasks[n];
    var slot := t.phase.slot;
    if s.total >= AttemptLimit(cfg) then
      var failure := if t.last.Some? then t.last.value.(retryable := false)
                     else FailureOf(n, AttemptBudgetExhausted, t.attempts, false);
      ReleaseTo(s, n, slot, t.(phase := Finished(FailedResult(cfg.plan, n, s.core.active[n], t.attempts, failure))))
    else
      var claimed := s.(total := s.total + 1);
      if s.aborted then
        SetTask(claimed, n, Task(Decided(slot, Failure(NodeCancelled)), t.attempts + 1, t.last))
      else
        SetTask(claimed, n, Task(Running(slot), t.attempts + 1, t.last)).(calls := s.calls + [Call(n, t.attempts + 1)])
  }

  // After the attempt: release the slot, then succeed, back off, try again or give up.
  function ResumeStep(cfg: Config, s: State, n: NodeId): State
    requires Enabled(cfg, s, Resume(n))
  {
    var t := s.tasks[n];
    var slot, outcome, input := t.phase.slot, t.phase.outcome, s.core.active[n];
    match outcome
    case Success(output) =>
      ReleaseTo(s, n, slot, t.(phase := Finished(SucceededResult(cfg.plan, n, input, t.attempts, output))))
    case Failure(code) =>
      var mayRetry := t.attempts < MaxAttempts(cfg, n) && code != NodeCancelled;
      var failure := FailureOf(n, code, t.attempts, mayRetry);
      if mayRetry then
        ReleaseTo(s, n, slot, Task(Backoff, t.attempts, Some(failure)))
      else if t.attempts < MaxAttempts(cfg, n) then
        Request(ReleaseTo(s, n, slot, Task(Backoff, t.attempts, Some(failure))), n, t.attempts, Some(failure))
      else
        ReleaseTo(s, n, slot, Task(Finished(FailedResult(cfg.plan, n, input, t.attempts, failure)), t.attempts,
            Some(failure)))
  }

  function CancelledTask(cfg: Config, s: State, n: NodeId): Task
    requires n in s.tasks && n in s.core.active
  {
    var t := s.tasks[n];
    t.(phase := Finished(FailedResult(cfg.plan, n, s.core.active[n], t.attempts,
        FailureOf(n, NodeCancelled, t.attempts, false))))
  }

  // Fire every queued waiter's listener.
  function CancelFirst(sem: Sem<NodeId>, k: nat): (r: Sem<NodeId>)
    requires k <= |sem.waiters|
    ensures |r.waiters| == |sem.waiters|
  {
    if k == 0 then sem else OnCancel(CancelFirst(sem, k - 1), sem.waiters[k - 1].arrival)
  }

  function AbortStep(s: State): State {
    var tasks := map n | n in s.tasks ::
      if s.tasks[n].phase.Waiting? then s.tasks[n].(phase := Phase.Rejected) else s.tasks[n];
    s.(aborted := true, sem := CancelFirst(s.sem, |s.sem.waiters|), tasks := tasks)
  }

  // ---- The machine -------------------------------------------------------------------------

  // Settle a node and launch what became ready.
  function Relaunch(cfg: Config, s: State, n: NodeId, r: NodeResult): Core {
    LaunchAll(cfg.plan, Settle(cfg.plan, s.core, n, r), s.aborted)
  }

  // The main loop's turn for a task that ended with r: settle, launch, and start the new tasks.
  function CompleteStep(cfg: Config, s: State, n: NodeId, r: NodeResult): State {
    var core := Relaunch(cfg, s, n, r);
    StartAll(cfg, s.(core := core, tasks := s.tasks - {n}), Newly(core, |s.core.scheduled|))
  }

  function Next(cfg: Config, s: State, step: Step): State
    requires Enabled(cfg, s, step)
  {
    match step
    case Claim(n) => ClaimStep(cfg, s, n)
    case Decide(n, o) => SetTask(s, n, s.tasks[n].(phase := Decided(s.tasks[n].phase.slot, o)))
    case Resume(n) => ResumeStep(cfg, s, n)
    case Wake(n) => Request(s, n, s.tasks[n].attempts, s.tasks[n].last)
    case WakeCancelled(n) => SetTask(s, n, CancelledTask(cfg, s, n))
    case Reject(n) => SetTask(s, n, CancelledTask(cfg, s, n))
    case Complete(n) => CompleteStep(cfg, s, n, s.tasks[n].phase.result)
    case Abort => AbortStep(s)
  }

  // The state after the synchronous first turn; the signal may have fired before the run.
  ghost function Init(cfg: Config, aborted: bool): State {
    var core := LaunchAll(cfg.plan, Initial(cfg.plan), aborted);
    StartAll(cfg, State(core, Fresh(Concurrency(cfg)), map[], 0, aborted, []), Newly(core, 0))
  }
}
