/**
 Without an abort, with a budget that cannot bind and with executors that are functions of
 node, input and attempt, every interleaving under every concurrency limit computes the
 sequential meaning of the graph.
 */
module ScheduleIndependence {
  import opened Wrappers
  import opened Sequences
  import opened Json
  import opened Graphs
  import opened ReadyQueue
  import opened Readiness
  import opened RunGuarantees
  import opened Semaphores
  import opened Scheduler
  import opened SchedulerInvariant
  import opened SchedulerRuns
  import opened SchedulerSafety
  import opened Reference
  import opened LaunchEffects

  // ---- The invariant -------------------------------------------------------------------

  // Attempts after the first a still lead to the node's result.
  ghost predicate Ahead(cfg: Config, exec: Executor, n: NodeId, input: Json, a: nat) {
    && HasExecutor(cfg, n) && a < MaxAttempts(cfg, n)
    && Attempting(cfg, exec, n, input, a) == Activated(cfg, exec, n, input)
  }

  ghost predicate OnCourse(cfg: Config, exec: Executor, input: Json, n: NodeId, t: Task) {
    match t.phase
    case Waiting => Ahead(cfg, exec, n, input, t.attempts)
    case Granted(_) => Ahead(cfg, exec, n, input, t.attempts)
    case Backoff => Ahead(cfg, exec, n, input, t.attempts)
    case Rejected => false
    case Running(_) => t.attempts >= 1 && Ahead(cfg, exec, n, input, t.attempts - 1)
    case Decided(_, o) => t.attempts >= 1 && Ahead(cfg, exec, n, input, t.attempts - 1)
        && o == exec(n, input, t.attempts)
    case Finished(r) => r == Activated(cfg, exec, n, input)
  }

  ghost predicate TasksOnCourse(cfg: Config, exec: Executor, active: map<NodeId, Json>, tasks: map<NodeId, Task>) {
    forall n | n in tasks :: n in active && OnCourse(cfg, exec, active[n], n, tasks[n])
  }

  ghost predicate Deterministic(cfg: Config, exec: Executor, s: State) {
    && !s.aborted && Consistent(cfg, exec, s.core.results) && TasksOnCourse(cfg, exec, s.core.active, s.tasks)
  }

  // A budget no run can exhaust.
  ghost predicate Unbound(cfg: Config) {
    Sum(cfg.plan.Order(), n => MaxAttempts(cfg, n)) <= AttemptLimit(cfg)
  }

  // The executors answer as exec does, and the signal does not fire.
  ghost predicate Follows(exec: Executor, s: State, step: Step) {
    && step != Abort
    && (step.Decide? && step.n in s.tasks && step.n in s.core.active ==>
          step.outcome == exec(step.n, s.core.active[step.n], s.tasks[step.n].attempts))
  }

  ghost predicate Faithful(cfg: Config, exec: Executor, s: State, steps: seq<Step>)
    requires Legal(cfg, s, steps)
    decreases |steps|
  {
    steps != [] ==> Follows(exec, s, steps[0]) && Faithful(cfg, exec, Next(cfg, s, steps[0]), steps[1..])
  }

  // ---- Steps inside a task ------------------------------------------------------------------

  lemma {:induction false} CourseKept(cfg: Config, exec: Executor, s: State, r: State, n: NodeId)
    requires Deterministic(cfg, exec, s) && r.core == s.core && !r.aborted
    requires n in s.tasks && OthersWoken(s.tasks, r.tasks, n)
    requires n in s.core.active && OnCourse(cfg, exec, s.core.active[n], n, r.tasks[n])
    ensures Deterministic(cfg, exec, r)
  {
    hide Ahead, Consistent, Activated;
    forall m | m in r.tasks ensures m in s.core.active && OnCourse(cfg, exec, s.core.active[m], m, r.tasks[m]) {
      assert m in s.tasks;
      assert OnCourse(cfg, exec, s.core.active[m], m, s.tasks[m]);
    }
  }

  // The budget does not bind: a node about to claim still has attempts of its own left.
  lemma {:induction false} BudgetLeft(cfg: Config, s: State, n: NodeId)
    requires SchedInv(cfg, s) && Unbound(cfg) && n in s.tasks && s.tasks[n].phase.Granted?
    ensures s.total < AttemptLimit(cfg)
  {
    hide CoreReady, SemOk, AttemptLimit, MaxAttempts, Plan.Order;
    var order := cfg.plan.Order();
    var most: NodeId -> int := m => MaxAttempts(cfg, m);
    AccountsExact(cfg, s);
    ActiveUnsettled(cfg, s, n);
    assert TaskOk(cfg, s.core.active[n], s.aborted, n, s.tasks[n]);
    SumStrict(order, AttemptsAt(s.core.results, s.tasks), most, n);
    SumEqual(order, most, m => MaxAttempts(cfg, m));
  }

  lemma {:induction false} TaskOnCourse(cfg: Config, exec: Executor, s: State, n: NodeId)
    requires SchedInv(cfg, s) && Deterministic(cfg, exec, s) && n in s.tasks
    ensures n in s.core.active && OnCourse(cfg, exec, s.core.active[n], n, s.tasks[n])
    ensures TaskOk(cfg, s.core.active[n], s.aborted, n, s.tasks[n])
  {
    hide CoreReady, SemOk, Accounts, TaskOk, OnCourse, Consistent;
  }

  lemma {:induction false} NotAborted(cfg: Config, exec: Executor, s: State)
    requires Deterministic(cfg, exec, s)
    ensures !s.aborted
  {}

  lemma {:induction false} ClaimDeterministic(cfg: Config, exec: Executor, s: State, n: NodeId)
    requires SchedInv(cfg, s) && Unbound(cfg) && Deterministic(cfg, exec, s) && Enabled(cfg, s, Claim(n))
    ensures Deterministic(cfg, exec, ClaimStep(cfg, s, n))
  {
    hide SchedInv, Ahead, Deterministic, OthersWoken, MaxAttempts, AttemptLimit, Unbound, Activated;
    BudgetLeft(cfg, s, n);
    TaskOnCourse(cfg, exec, s, n);
    ClaimShape(cfg, s, n);
    NotAborted(cfg, exec, s);
    CourseKept(cfg, exec, s, ClaimStep(cfg, s, n), n);
  }

  lemma {:induction false} DecideDeterministic(cfg: Config, exec: Executor, s: State, n: NodeId, o: Outcome)
    requires SchedInv(cfg, s) && Deterministic(cfg, exec, s) && Enabled(cfg, s, Decide(n, o))
    requires Follows(exec, s, Decide(n, o))
    ensures Deterministic(cfg, exec, Next(cfg, s, Decide(n, o)))
  {
    hide SchedInv, Ahead, Deterministic, Possible, Activated;
    var r := Next(cfg, s, Decide(n, o));
    TaskOnCourse(cfg, exec, s, n);
    NotAborted(cfg, exec, s);
    assert r.tasks.Keys == s.tasks.Keys;
    CourseKept(cfg, exec, s, r, n);
  }

  // What the outcome of attempt a makes of the attempts after the first a - 1.
  lemma {:induction false} AheadUnfolds(cfg: Config, exec: Executor, n: NodeId, input: Json, a: nat)
    requires a >= 1 && Ahead(cfg, exec, n, input, a - 1)
    ensures match exec(n, input, a)
            case Success(output) => Activated(cfg, exec, n, input) == SucceededResult(cfg.plan, n, input, a, output)
            case Failure(code) =>
              if a < MaxAttempts(cfg, n) then Ahead(cfg, exec, n, input, a)
              else Activated(cfg, exec, n, input) == FailedResult(cfg.plan, n, input, a, FailureOf(n, code, a, false))
  {
    hide MaxAttempts, HasExecutor, Activated;
  }

  lemma {:induction false} ResumeDeterministic(cfg: Config, exec: Executor, s: State, n: NodeId)
    requires SchedInv(cfg, s) && Deterministic(cfg, exec, s) && Enabled(cfg, s, Resume(n))
    ensures Deterministic(cfg, exec, ResumeStep(cfg, s, n))
  {
    hide SchedInv, Ahead, Deterministic, OthersWoken, MaxAttempts, OnRelease, Activated, OnAcquire;
    var r, t, input := ResumeStep(cfg, s, n), s.tasks[n], s.core.active[n];
    TaskOnCourse(cfg, exec, s, n);
    AheadUnfolds(cfg, exec, n, input, t.attempts);
    ResumeShape(cfg, s, n);
    NotAborted(cfg, exec, s);
    CourseKept(cfg, exec, s, r, n);
  }

  lemma {:induction false} RequestLive(s: State, n: NodeId, attempts: nat, last: Option<NodeFailure>)
    requires !s.aborted
    ensures var phase := Request(s, n, attempts, last).tasks[n].phase; phase.Waiting? || phase.Granted?
  {}

  lemma {:induction false} WakeDeterministic(cfg: Config, exec: Executor, s: State, n: NodeId)
    requires SchedInv(cfg, s) && Deterministic(cfg, exec, s) && Enabled(cfg, s, Wake(n))
    ensures Deterministic(cfg, exec, Request(s, n, s.tasks[n].attempts, s.tasks[n].last))
  {
    hide SchedInv, Ahead, Deterministic, Request, Activated, MaxAttempts;
    var r := Request(s, n, s.tasks[n].attempts, s.tasks[n].last);
    TaskOnCourse(cfg, exec, s, n);
    NotAborted(cfg, exec, s);
    RequestOthers(s, n, s.tasks[n].attempts, s.tasks[n].last);
    RequestLive(s, n, s.tasks[n].attempts, s.tasks[n].last);
    assert r.tasks.Keys == s.tasks.Keys;
    CourseKept(cfg, exec, s, r, n);
  }

  lemma {:induction false} NotRejected(cfg: Config, exec: Executor, s: State, n: NodeId)
    requires SchedInv(cfg, s) && Deterministic(cfg, exec, s) && n in s.tasks
    ensures !s.tasks[n].phase.Rejected?
  {
    hide SchedInv, Ahead, Deterministic;
    TaskOnCourse(cfg, exec, s, n);
  }

  // ---- Settling and starting ---------------------------------------------------------------

  lemma {:induction false} StartedOnCourse(cfg: Config, exec: Executor, active: map<NodeId, Json>, n: NodeId, t: Task)
    requires JustStarted(cfg, active, n, t) && TaskOk(cfg, active[n], false, n, t)
    ensures OnCourse(cfg, exec, active[n], n, t)
  {
    hide HasExecutor;
  }

  lemma {:induction false} DueMeaning(cfg: Config, exec: Executor, c: Core, d: Core, m: NodeId)
    requires SkipsDue(cfg.plan, c, d) && m in d.results && m !in c.results
    ensures UpstreamSettled(cfg.plan.g.edges, d.results, m) && d.results[m] == NodeMeaning(cfg, exec, d.results, m)
  {
    hide LaunchOf, Activated;
  }

  lemma {:induction false} StableMeaning(cfg: Config, exec: Executor, a: map<NodeId, NodeResult>,
      b: map<NodeId, NodeResult>, n: NodeId)
    requires UpstreamSettled(cfg.plan.g.edges, a, n) && forall p | p in a :: p in b && b[p] == a[p]
    ensures UpstreamSettled(cfg.plan.g.edges, b, n) && NodeMeaning(cfg, exec, b, n) == NodeMeaning(cfg, exec, a, n)
  {
    hide LaunchOf, Activated, UpstreamSettled;
    LaunchStable(cfg.plan, a, b, n);
  }

  // An active node's result is due to be what its attempts come to.
  lemma {:induction false} ActiveMeaning(cfg: Config, exec: Executor, s: State, n: NodeId)
    requires SchedInv(cfg, s) && n in s.core.active
    ensures UpstreamSettled(cfg.plan.g.edges, s.core.results, n)
    ensures NodeMeaning(cfg, exec, s.core.results, n) == Activated(cfg, exec, n, s.core.active[n])
  {
    hide SemOk, TasksOk, Accounts, Activated, BindInput, FailedUpstream;
    ActiveInput(cfg, s, n);
  }

  lemma {:induction false} SettledConsistent(cfg: Config, exec: Executor, results: map<NodeId, NodeResult>, n: NodeId,
      r: NodeResult)
    requires Consistent(cfg, exec, results) && n !in results
    requires UpstreamSettled(cfg.plan.g.edges, results, n) && r == NodeMeaning(cfg, exec, results, n)
    ensures Consistent(cfg, exec, results[n := r])
  {
    hide NodeMeaning, UpstreamSettled;
    var after := results[n := r];
    forall m | m in after
      ensures UpstreamSettled(cfg.plan.g.edges, after, m) && after[m] == NodeMeaning(cfg, exec, after, m)
    {
      StableMeaning(cfg, exec, results, after, m);
    }
  }

  lemma {:induction false} LaunchedConsistent(cfg: Config, exec: Executor, c: Core, d: Core)
    requires Consistent(cfg, exec, c.results) && SkipsDue(cfg.plan, c, d)
    ensures Consistent(cfg, exec, d.results)
  {
    hide NodeMeaning, UpstreamSettled, LaunchOf;
    forall m | m in d.results
      ensures UpstreamSettled(cfg.plan.g.edges, d.results, m) && d.results[m] == NodeMeaning(cfg, exec, d.results, m)
    {
      if m in c.results {
        StableMeaning(cfg, exec, c.results, d.results, m);
      } else {
        DueMeaning(cfg, exec, c, d, m);
      }
    }
  }

  lemma {:induction false} CompleteConsistent(cfg: Config, exec: Executor, s: State, n: NodeId, r: NodeResult)
    requires SchedInv(cfg, s) && Deterministic(cfg, exec, s) && EndedWith(s, n, r)
    ensures Consistent(cfg, exec, CompleteStep(cfg, s, n, r).core.results)
  {
    hide SchedInv, Consistent, CoreInv, Settle, LaunchTurns, Fits, Plan.Accepted, NodeMeaning, Activated, SkipsDue,
        TasksOnCourse;
    Delivers(cfg, s, n, r);
    ActiveMeaning(cfg, exec, s, n);
    TaskOnCourse(cfg, exec, s, n);
    SettledConsistent(cfg, exec, s.core.results, n, r);
    InvParts(cfg, s);
    SettleActive(cfg.plan, s.core, n, r, false);
    SettleShape(cfg.plan, s.core, n, r);
    var settled := Settle(cfg.plan, s.core, n, r);
    LaunchTurnsDue(cfg.plan, settled, |cfg.plan.Order()|);
    LaunchedConsistent(cfg, exec, settled, CompleteStep(cfg, s, n, r).core);
  }

  lemma {:induction false} RelaunchedInput(s: State, n: NodeId, r: NodeResult, core: Core, m: NodeId)
    requires Relaunched(s, n, r, core) && m in s.core.active && m != n
    ensures m in core.active && core.active[m] == s.core.active[m]
    ensures m !in Newly(core, |s.core.scheduled|)
  {
    hide Newly;
  }

  lemma {:induction false} CompleteCourse(cfg: Config, exec: Executor, s: State, n: NodeId, r: NodeResult)
    requires SchedInv(cfg, s) && Deterministic(cfg, exec, s) && EndedWith(s, n, r)
    ensures var t := CompleteStep(cfg, s, n, r); !t.aborted && TasksOnCourse(cfg, exec, t.core.active, t.tasks)
  {
    hide SchedInv, Consistent, CompleteStep, OnCourse, Relaunched, Restarted, Partial, CoreReady, JustStarted, TaskOk,
        Newly;
    var t := CompleteStep(cfg, s, n, r);
    CompleteShape(cfg, s, n, r);
    RestartedKeeps(cfg, s, n, t);
    CompleteTasks(cfg, s, n, r, t);
    InvParts(cfg, s);
    forall m | m in t.tasks ensures m in t.core.active && OnCourse(cfg, exec, t.core.active[m], m, t.tasks[m]) {
      RestartedAt(cfg, s, n, t, m);
      if m in s.tasks && m != n {
        RelaunchedInput(s, n, r, t.core, m);
      } else {
        StartedOnCourse(cfg, exec, t.core.active, m, t.tasks[m]);
      }
    }
  }

  lemma {:induction false} CompleteDeterministic(cfg: Config, exec: Executor, s: State, n: NodeId, r: NodeResult)
    requires SchedInv(cfg, s) && Deterministic(cfg, exec, s) && EndedWith(s, n, r)
    ensures Deterministic(cfg, exec, CompleteStep(cfg, s, n, r))
  {
    hide SchedInv, CompleteStep, Consistent, TasksOnCourse;
    CompleteConsistent(cfg, exec, s, n, r);
    CompleteCourse(cfg, exec, s, n, r);
  }

  lemma {:induction false} NextDeterministic(cfg: Config, exec: Executor, s: State, step: Step)
    requires SchedInv(cfg, s) && Unbound(cfg) && Deterministic(cfg, exec, s)
    requires Enabled(cfg, s, step) && Follows(exec, s, step)
    ensures Deterministic(cfg, exec, Next(cfg, s, step))
  {
    hide SchedInv, CompleteStep, ClaimStep, ResumeStep, Request, AbortStep, CancelledTask, Deterministic, Unbound;
    NotAborted(cfg, exec, s);
    match step
    case Abort =>
    case Claim(n) => ClaimDeterministic(cfg, exec, s, n);
    case Decide(n, o) => DecideDeterministic(cfg, exec, s, n, o);
    case Resume(n) => ResumeDeterministic(cfg, exec, s, n);
    case Wake(n) => WakeDeterministic(cfg, exec, s, n);
    case WakeCancelled(n) =>
    case Reject(n) => NotRejected(cfg, exec, s, n);
    case Complete(n) => CompleteDeterministic(cfg, exec, s, n, s.tasks[n].phase.result);
  }

  lemma {:induction false} RunDeterministic(cfg: Config, exec: Executor, s: State, steps: seq<Step>)
    requires SchedInv(cfg, s) && Unbound(cfg) && Deterministic(cfg, exec, s)
    requires Legal(cfg, s, steps) && Faithful(cfg, exec, s, steps)
    ensures Deterministic(cfg, exec, Exec(cfg, s, steps))
    decreases |steps|
  {
    hide SchedInv, Next, Enabled, Deterministic, Unbound, Follows;
    if steps == [] {
    } else {
      NextInv(cfg, s, steps[0]);
      NextDeterministic(cfg, exec, s, steps[0]);
      RunDeterministic(cfg, exec, Next(cfg, s, steps[0]), steps[1..]);
    }
  }

  lemma {:induction false} NothingConsistent(cfg: Config, exec: Executor)
    ensures Consistent(cfg, exec, Initial(cfg.plan).results)
  {}

  lemma {:induction false} InitCourse(cfg: Config, exec: Executor)
    requires cfg.plan.Accepted()
    ensures !Init(cfg, false).aborted && TasksOnCourse(cfg, exec, Init(cfg, false).core.active, Init(cfg, false).tasks)
  {
    hide SchedInv, Init, OnCourse, JustStarted, TaskOk;
    InitInv(cfg, false);
    var s := Init(cfg, false);
    InvParts(cfg, s);
    forall n | n in s.tasks ensures n in s.core.active && OnCourse(cfg, exec, s.core.active[n], n, s.tasks[n]) {
      assert JustStarted(cfg, s.core.active, n, s.tasks[n]);
      StartedOnCourse(cfg, exec, s.core.active, n, s.tasks[n]);
    }
  }

  lemma {:induction false} InitDeterministic(cfg: Config, exec: Executor)
    requires cfg.plan.Accepted()
    ensures Deterministic(cfg, exec, Init(cfg, false))
  {
    hide SchedInv, CoreInv, LaunchTurns, Initial, Consistent, Plan.Accepted, TasksOnCourse, Newly, Concurrency;
    var c := Initial(cfg.plan);
    InitialInv(cfg.plan, false);
    LaunchTurnsDue(cfg.plan, c, |cfg.plan.Order()|);
    NothingConsistent(cfg, exec);
    LaunchedConsistent(cfg, exec, c, Init(cfg, false).core);
    InitCourse(cfg, exec);
  }

  // ---- The theorem ---------------------------------------------------------------------------

  // Every complete run has the results of the sequential meaning.
  lemma {:induction false} ResultsAreMeaning(cfg: Config, exec: Executor, steps: seq<Step>)
    requires cfg.plan.Accepted() && Unbound(cfg)
    requires Legal(cfg, Init(cfg, false), steps) && Faithful(cfg, exec, Init(cfg, false), steps)
    requires AllSettledIn(cfg, Exec(cfg, Init(cfg, false), steps))
    ensures Exec(cfg, Init(cfg, false), steps).core.results == Meaning(cfg, exec)
  {
    hide SchedInv, Init, Unbound, Faithful, Meaning, Plan.Accepted, Consistent;
    InitInv(cfg, false);
    InitDeterministic(cfg, exec);
    RunDeterministic(cfg, exec, Init(cfg, false), steps);
    OrderCounts(cfg.plan);
    ConsistentIsMeaning(cfg, exec, Exec(cfg, Init(cfg, false), steps).core.results);
  }

  // Two complete runs of the same work agree, whatever their interleavings and limits.
  lemma {:induction false} RunsAgree(a: Config, b: Config, exec: Executor, left: seq<Step>, right: seq<Step>)
    requires a.plan.Accepted() && b.plan.Accepted() && SameWork(a, b) && Unbound(a) && Unbound(b)
    requires Legal(a, Init(a, false), left) && Faithful(a, exec, Init(a, false), left)
    requires Legal(b, Init(b, false), right) && Faithful(b, exec, Init(b, false), right)
    requires AllSettledIn(a, Exec(a, Init(a, false), left)) && AllSettledIn(b, Exec(b, Init(b, false), right))
    ensures Exec(a, Init(a, false), left).core.results == Exec(b, Init(b, false), right).core.results
  {
    hide Init, Unbound, Faithful, Meaning, Plan.Accepted, AllSettledIn;
    ResultsAreMeaning(a, exec, left);
    ResultsAreMeaning(b, exec, right);
    MeaningSame(a, b, exec);
  }
}
