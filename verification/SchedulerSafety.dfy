/**
 What the invariant gives for every run, in the caller's terms: attempt accounting, slot
 accounting, the discipline of executor calls, and how runs end.
 */
module SchedulerSafety {
  import opened Wrappers
  import opened Sequences
  import opened Graphs
  import opened ReadyQueue
  import opened Readiness
  import opened RunGuarantees
  import opened Semaphores
  import opened Scheduler
  import opened SlotLinks
  import opened SchedulerInvariant
  import opened SchedulerRuns

  // ---- Slots -------------------------------------------------------------------------

  // The nodes between their grant and their release.
  function Holders(tasks: map<NodeId, Task>): set<NodeId> {
    set n | n in tasks && SlotOf(tasks[n]).Some?
  }

  lemma {:induction false} OneValueLess(m: map<nat, NodeId>, k: nat)
    requires k in m && forall i | i in m && m[i] == m[k] :: i == k
    ensures m.Values == (m - {k}).Values + {m[k]} && m[k] !in (m - {k}).Values
  {
    var rest := m - {k};
    forall v | v in m.Values ensures v in rest.Values + {m[k]} {
      var i :| i in m && m[i] == v;
      assert i != k ==> i in rest && rest[i] == v;
    }
  }

  lemma {:induction false} InjectiveValues(m: map<nat, NodeId>)
    requires forall i, j | i in m && j in m && m[i] == m[j] :: i == j
    ensures |m.Values| == |m|
  {
    if m.Keys == {} {
      assert m.Values == {};
    } else {
      var k :| k in m;
      var rest := m - {k};
      InjectiveValues(rest);
      OneValueLess(m, k);
      assert m.Keys == rest.Keys + {k};
      assert |m| == |m.Keys| && |rest| == |rest.Keys|;
    }
  }

  lemma {:induction false} HoldersAreOwners(owners: map<nat, NodeId>, tasks: map<NodeId, Task>)
    requires SlotsLinked(owners, tasks)
    ensures owners.Values == Holders(tasks)
    ensures forall i, j | i in owners && j in owners && owners[i] == owners[j] :: i == j
    ensures forall n | n in tasks && tasks[n].phase.Backoff? :: n !in owners.Values
    ensures forall n | n in tasks && tasks[n].phase.Running? :: n in owners.Values
  {
    forall n ensures n in owners.Values <==> n in Holders(tasks) {
      if n in Holders(tasks) {
        assert owners[SlotOf(tasks[n]).value] == n;
      }
    }
    forall i, j | i in owners && j in owners && owners[i] == owners[j] ensures i == j {
      assert SlotOf(tasks[owners[i]]) == Some(i);
      assert SlotOf(tasks[owners[j]]) == Some(j);
    }
  }

  // In every state the counted slots are exactly the nodes holding one, never more than the
  // limit; a node waits only while all slots are taken, and one in backoff holds none.
  lemma {:induction false} SlotsExact(cfg: Config, s: State)
    requires SchedInv(cfg, s)
    ensures s.sem.running == |Holders(s.tasks)| <= Concurrency(cfg)
    ensures forall n | n in s.tasks && s.tasks[n].phase.Waiting? :: |Holders(s.tasks)| == Concurrency(cfg)
    ensures forall n | n in s.tasks && s.tasks[n].phase.Backoff? :: n !in s.sem.owners.Values
    ensures forall n | n in s.tasks && s.tasks[n].phase.Running? :: n in s.sem.owners.Values
  {
    hide CoreReady, TasksOk, Accounts;
    HoldersAreOwners(s.sem.owners, s.tasks);
    InjectiveValues(s.sem.owners);
    forall n | n in s.tasks && s.tasks[n].phase.Waiting? ensures s.sem.running == s.sem.limit {
      var i: nat :| LiveAt(s.sem, i) && s.sem.waiters[i].id == n;
    }
  }

  // ---- Results --------------------------------------------------------------------------

  // Settled results never change.
  ghost predicate ResultsKept(s: State, r: State) {
    forall m | m in s.core.results :: m in r.core.results && r.core.results[m] == s.core.results[m]
  }

  lemma {:induction false} RelaunchedResults(s: State, n: NodeId, r: NodeResult, core: Core)
    requires Relaunched(s, n, r, core)
    ensures forall m | m in s.core.results :: m in core.results && core.results[m] == s.core.results[m]
  {
    hide Newly;
  }

  lemma {:induction false} NextKeepsResults(cfg: Config, s: State, step: Step)
    requires SchedInv(cfg, s) && Enabled(cfg, s, step)
    ensures ResultsKept(s, Next(cfg, s, step))
  {
    hide SchedInv, OnRelease, OnAcquire, MaxAttempts, AttemptLimit, CancelFirst, CompleteStep, Relaunched, Restarted,
        Partial, CoreReady;
    if step.Complete? {
      var n, r := step.n, s.tasks[step.n].phase.result;
      CompleteShape(cfg, s, n, r);
      RelaunchedResults(s, n, r, CompleteStep(cfg, s, n, r).core);
    }
  }

  // ---- Executor calls ---------------------------------------------------------------------

  function CallCount(calls: seq<Call>, n: NodeId): nat {
    if calls == [] then 0
    else CallCount(calls[..|calls| - 1], n) + if calls[|calls| - 1].node == n then 1 else 0
  }

  // The i-th call of a node is its i-th attempt, made after all its predecessors succeeded.
  ghost predicate CallsOk(cfg: Config, s: State) {
    && (forall n :: CallCount(s.calls, n) <= AttemptsAt(s.core.results, s.tasks)(n))
    && (!s.aborted ==> forall n :: CallCount(s.calls, n) == AttemptsAt(s.core.results, s.tasks)(n))
    && (forall i | 0 <= i < |s.calls| :: s.calls[i].attempt == CallCount(s.calls[..i], s.calls[i].node) + 1)
    && (forall i, p | 0 <= i < |s.calls|
        && Arc(cfg.plan.g.edges, p, s.calls[i].node) :: HasSucceeded(s.core.results, p))
  }

  // A step that makes no call keeps the discipline.
  lemma {:induction false} QuietCalls(cfg: Config, s: State, r: State)
    requires CallsOk(cfg, s) && r.calls == s.calls && ResultsKept(s, r) && (s.aborted ==> r.aborted)
    requires forall n :: AttemptsAt(s.core.results, s.tasks)(n) <= AttemptsAt(r.core.results, r.tasks)(n)
    requires r.aborted || forall n :: AttemptsAt(s.core.results, s.tasks)(n) == AttemptsAt(r.core.results, r.tasks)(n)
    ensures CallsOk(cfg, r)
  {
    hide AttemptsAt;
    forall i, p | 0 <= i < |r.calls| && Arc(cfg.plan.g.edges, p, r.calls[i].node)
        ensures HasSucceeded(r.core.results, p) {
      assert HasSucceeded(s.core.results, p);
    }
  }

  lemma {:induction false} CallAppended(calls: seq<Call>, call: Call)
    ensures forall n :: CallCount(calls + [call], n) == CallCount(calls, n) + if call.node == n then 1 else 0
    ensures forall i | 0 <= i <= |calls| :: (calls + [call])[..i] == calls[..i]
  {
    assert (calls + [call])[..|calls|] == calls;
  }

  lemma {:induction false} CalledOk(cfg: Config, s: State, n: NodeId, r: State)
    requires CallsOk(cfg, s) && n in s.tasks && n !in s.core.results && !s.aborted
    requires forall p | Arc(cfg.plan.g.edges, p, n) :: HasSucceeded(s.core.results, p)
    requires r.core == s.core && !r.aborted && r.calls == s.calls + [Call(n, s.tasks[n].attempts + 1)]
    requires n in r.tasks && r.tasks == s.tasks[n := r.tasks[n]] && r.tasks[n].attempts == s.tasks[n].attempts + 1
    ensures CallsOk(cfg, r)
  {
    var call := Call(n, s.tasks[n].attempts + 1);
    CallAppended(s.calls, call);
    assert CallCount(s.calls, n) == AttemptsAt(s.core.results, s.tasks)(n) == s.tasks[n].attempts;
    forall m ensures CallCount(r.calls, m) == AttemptsAt(r.core.results, r.tasks)(m) {
      assert CallCount(s.calls, m) == AttemptsAt(s.core.results, s.tasks)(m);
    }
    forall i | 0 <= i < |r.calls| ensures r.calls[i].attempt == CallCount(r.calls[..i], r.calls[i].node) + 1 {
      if i < |s.calls| {
        assert r.calls[i] == s.calls[i] && r.calls[..i] == s.calls[..i];
      } else {
        assert r.calls[i] == call && r.calls[..i] == s.calls;
      }
    }
  }

  lemma {:induction false} ActiveUpstream(cfg: Config, s: State, n: NodeId)
    requires SchedInv(cfg, s) && n in s.core.active
    ensures forall p | Arc(cfg.plan.g.edges, p, n) :: HasSucceeded(s.core.results, p)
  {
    hide SemOk, TasksOk, Accounts;
    ActiveInput(cfg, s, n);
    FailedUpstreamMembers(cfg.plan.g, s.core.results, n);
  }

  lemma {:induction false} ClaimCalls(cfg: Config, s: State, n: NodeId)
    requires SchedInv(cfg, s) && CallsOk(cfg, s) && Enabled(cfg, s, Claim(n))
    requires s.total < AttemptLimit(cfg) && !s.aborted
    ensures CallsOk(cfg, ClaimStep(cfg, s, n))
  {
    hide SchedInv, CallsOk, AttemptLimit, MaxAttempts;
    ActiveUnsettled(cfg, s, n);
    ActiveUpstream(cfg, s, n);
    CalledOk(cfg, s, n, ClaimStep(cfg, s, n));
  }

  lemma {:induction false} WokenAttempts(s: State, r: State, n: NodeId, delta: nat)
    requires r.core == s.core && n in s.tasks && n !in s.core.results && OthersWoken(s.tasks, r.tasks, n)
    requires r.tasks[n].attempts == s.tasks[n].attempts + delta
    ensures forall m :: AttemptsAt(r.core.results, r.tasks)(m)
                     == AttemptsAt(s.core.results, s.tasks)(m) + if m == n then delta else 0
  {}

  lemma {:induction false} SetAttempts(cfg: Config, s: State, n: NodeId, t: Task)
    requires SchedInv(cfg, s) && n in s.tasks && t.attempts == s.tasks[n].attempts
    ensures forall m :: AttemptsAt(s.core.results, s.tasks[n := t])(m) == AttemptsAt(s.core.results, s.tasks)(m)
  {
    hide SchedInv;
  }

  lemma {:induction false} CancelledAttempts(cfg: Config, s: State, n: NodeId)
    requires SchedInv(cfg, s) && n in s.tasks && n in s.core.active
    ensures var r := SetTask(s, n, CancelledTask(cfg, s, n));
            && r.calls == s.calls
            && forall m :: AttemptsAt(r.core.results, r.tasks)(m) == AttemptsAt(s.core.results, s.tasks)(m)
  {
    hide SchedInv, AttemptsAt;
    SetAttempts(cfg, s, n, CancelledTask(cfg, s, n));
  }

  lemma {:induction false} WakeAttempts(cfg: Config, s: State, n: NodeId)
    requires SchedInv(cfg, s) && n in s.tasks
    ensures var r := Request(s, n, s.tasks[n].attempts, s.tasks[n].last);
            && r.calls == s.calls
            && forall m :: AttemptsAt(r.core.results, r.tasks)(m) == AttemptsAt(s.core.results, s.tasks)(m)
  {
    hide SchedInv, Request;
    RequestOthers(s, n, s.tasks[n].attempts, s.tasks[n].last);
  }

  lemma {:induction false} AbortAttempts(cfg: Config, s: State)
    requires SchedInv(cfg, s)
    ensures var r := AbortStep(s);
            && r.calls == s.calls && r.core == s.core
            && forall m :: AttemptsAt(r.core.results, r.tasks)(m) == AttemptsAt(s.core.results, s.tasks)(m)
  {
    hide CoreReady, SemOk, Accounts, TaskOk, CancelFirst;
    AbortTasks(cfg, s);
  }

  lemma {:induction false} CompletedAttempts(cfg: Config, s: State, n: NodeId, r: NodeResult)
    requires SchedInv(cfg, s) && EndedWith(s, n, r)
    ensures var t := CompleteStep(cfg, s, n, r);
            && t.calls == s.calls
            && forall m :: AttemptsAt(t.core.results, t.tasks)(m) == AttemptsAt(s.core.results, s.tasks)(m)
  {
    hide SchedInv, CompleteStep, Relaunched, Restarted, AttemptsAt, Partial, CoreReady;
    var t := CompleteStep(cfg, s, n, r);
    CompleteShape(cfg, s, n, r);
    FinishedAttempts(cfg, s, n, r);
    RestartedKeeps(cfg, s, n, t);
    forall m ensures AttemptsAt(t.core.results, t.tasks)(m) == AttemptsAt(s.core.results, s.tasks)(m) {
      CompleteAttempts(cfg, s, n, r, t, m);
    }
  }

  // Only a claim within the budget raises a node's attempts, by one; before the abort it also
  // calls the executor, and nothing else does.
  lemma {:induction false} StepAttempts(cfg: Config, s: State, step: Step)
    requires SchedInv(cfg, s) && Enabled(cfg, s, step)
    ensures forall m :: AttemptsAt(Next(cfg, s, step).core.results, Next(cfg, s, step).tasks)(m)
                     == AttemptsAt(s.core.results, s.tasks)(m)
                        + if step == Claim(m) && s.total < AttemptLimit(cfg) then 1 else 0
    ensures step.Claim? && s.total < AttemptLimit(cfg) && !s.aborted ==>
              Next(cfg, s, step).calls == s.calls + [Call(step.n, s.tasks[step.n].attempts + 1)]
    ensures !(step.Claim? && s.total < AttemptLimit(cfg) && !s.aborted) ==> Next(cfg, s, step).calls == s.calls
  {
    hide SchedInv, CompleteStep, ClaimStep, ResumeStep, Request, AbortStep, CancelledTask, AttemptsAt, AttemptLimit,
         Possible, OthersWoken;
    var r := Next(cfg, s, step);
    match step
    case Abort => AbortAttempts(cfg, s);
    case Claim(n) =>
      ActiveUnsettled(cfg, s, n);
      ClaimShape(cfg, s, n);
      WokenAttempts(s, r, n, if s.total < AttemptLimit(cfg) then 1 else 0);
    case Decide(n, o) => SetAttempts(cfg, s, n, r.tasks[n]);
    case Resume(n) =>
      ActiveUnsettled(cfg, s, n);
      ResumeShape(cfg, s, n);
      WokenAttempts(s, r, n, 0);
    case Wake(n) => WakeAttempts(cfg, s, n);
    case WakeCancelled(n) => CancelledAttempts(cfg, s, n);
    case Reject(n) => CancelledAttempts(cfg, s, n);
    case Complete(n) => CompletedAttempts(cfg, s, n, s.tasks[n].phase.result);
  }

  lemma {:induction false} ClaimIsNext(cfg: Config, s: State, n: NodeId)
    requires Enabled(cfg, s, Claim(n))
    ensures Next(cfg, s, Claim(n)) == ClaimStep(cfg, s, n)
  {
    hide ClaimStep;
  }

  lemma {:induction false} NextCalls(cfg: Config, s: State, step: Step)
    requires SchedInv(cfg, s) && CallsOk(cfg, s) && Enabled(cfg, s, step)
    ensures CallsOk(cfg, Next(cfg, s, step))
  {
    hide SchedInv, CallsOk, Next, Enabled, AttemptsAt, AttemptLimit, ResultsKept;
    if step.Claim? && s.total < AttemptLimit(cfg) && !s.aborted {
      ClaimIsNext(cfg, s, step.n);
      ClaimCalls(cfg, s, step.n);
    } else {
      StepAttempts(cfg, s, step);
      NextKeepsResults(cfg, s, step);
      AbortedStays(cfg, s, step);
      QuietCalls(cfg, s, Next(cfg, s, step));
    }
  }

  lemma {:induction false} RunCalls(cfg: Config, s: State, steps: seq<Step>)
    requires SchedInv(cfg, s) && CallsOk(cfg, s) && Legal(cfg, s, steps)
    ensures CallsOk(cfg, Exec(cfg, s, steps))
    decreases |steps|
  {
    hide SchedInv, CallsOk, Next, Enabled;
    if steps == [] {
    } else {
      NextInv(cfg, s, steps[0]);
      NextCalls(cfg, s, steps[0]);
      RunCalls(cfg, Next(cfg, s, steps[0]), steps[1..]);
    }
  }

  lemma {:induction false} InitCalls(cfg: Config, aborted: bool)
    requires cfg.plan.Accepted()
    ensures CallsOk(cfg, Init(cfg, aborted))
  {
    hide SchedInv, Init, AttemptsAt;
    InitInv(cfg, aborted);
  }

  // ---- The guarantees of every run -------------------------------------------------------

  lemma {:induction false} AccountsExact(cfg: Config, s: State)
    requires SchedInv(cfg, s)
    ensures s.total == Sum(cfg.plan.Order(), AttemptsAt(s.core.results, s.tasks)) <= AttemptLimit(cfg)
    ensures forall n :: AttemptsAt(s.core.results, s.tasks)(n) <= MaxAttempts(cfg, n)
  {
    hide CoreReady, SemOk, MaxAttempts;
    forall n ensures AttemptsAt(s.core.results, s.tasks)(n) <= MaxAttempts(cfg, n) {
      if n in s.tasks {
        assert TaskOk(cfg, s.core.active[n], s.aborted, n, s.tasks[n]);
      }
    }
  }

  lemma {:induction false} CallsBounded(cfg: Config, s: State)
    requires CallsOk(cfg, s)
    ensures forall n :: CallCount(s.calls, n) <= AttemptsAt(s.core.results, s.tasks)(n)
  {
    hide AttemptsAt;
  }

  lemma {:induction false} ResultsExact(cfg: Config, s: State)
    requires SchedInv(cfg, s)
    ensures forall n | n in s.core.results ::
              (s.core.results[n].status == Succeeded <==> s.core.results[n].failure.None?)
              && (s.core.results[n].status == Succeeded <==> s.core.results[n].output.Some?)
  {
    hide SemOk, TasksOk, Accounts, UpstreamSettled;
    forall n | n in s.core.results ensures ResultOk(cfg.plan, s.core.results, n, s.core.results[n], s.aborted) {}
  }

  // In every state of every run: attempts are accounted for exactly and within the run's and
  // the node's budgets; results without success carry a failure and no output; executors are
  // called once per attempt, in order, after all predecessors succeeded, within the slots.
  lemma {:induction false} EveryState(cfg: Config, aborted: bool, steps: seq<Step>)
    requires cfg.plan.Accepted() && Legal(cfg, Init(cfg, aborted), steps)
    ensures var s := Exec(cfg, Init(cfg, aborted), steps);
            && s.total == Sum(cfg.plan.Order(), AttemptsAt(s.core.results, s.tasks)) <= AttemptLimit(cfg)
            && (forall n :: CallCount(s.calls, n) <= AttemptsAt(s.core.results, s.tasks)(n) <= MaxAttempts(cfg, n))
            && (forall n | n in s.core.results ::
                  (s.core.results[n].status == Succeeded <==> s.core.results[n].failure.None?)
                  && (s.core.results[n].status == Succeeded <==> s.core.results[n].output.Some?))
            && CallsOk(cfg, s)
            && s.sem.running == |Holders(s.tasks)| <= Concurrency(cfg)
  {
    hide SchedInv, CallsOk, Init, AttemptsAt, AttemptLimit, MaxAttempts, Concurrency, Plan.Order;
    InitInv(cfg, aborted);
    InitCalls(cfg, aborted);
    RunKeeps(cfg, Init(cfg, aborted), steps);
    RunCalls(cfg, Init(cfg, aborted), steps);
    var s := Exec(cfg, Init(cfg, aborted), steps);
    SlotsExact(cfg, s);
    AccountsExact(cfg, s);
    ResultsExact(cfg, s);
    CallsBounded(cfg, s);
  }

  ghost function ResultAttempts(results: map<NodeId, NodeResult>): NodeId -> int {
    n => if n in results then results[n].attempts else 0
  }

  lemma {:induction false} SettledIsIdle(cfg: Config, s: State)
    requires SchedInv(cfg, s) && AllSettledIn(cfg, s)
    ensures s.tasks == map[] && forall step | Enabled(cfg, s, step) :: step == Abort
  {
    hide SemOk, Accounts, CoreInv, TaskOk;
    OrderCounts(cfg.plan);
    ExitsCoincide(cfg.plan, s.core, s.aborted);
    assert |s.core.results| == |s.core.results.Keys|;
    assert s.tasks.Keys == {};
  }

  lemma {:induction false} SettledTotals(cfg: Config, s: State)
    requires SchedInv(cfg, s) && AllSettledIn(cfg, s)
    ensures multiset(s.core.scheduled) == multiset(s.core.completed) == multiset(Ids(cfg.plan.g.nodes))
    ensures RespectsEdges(cfg.plan.g.edges, s.core.scheduled) && RespectsEdges(cfg.plan.g.edges, s.core.completed)
    ensures s.total == Sum(cfg.plan.Order(), ResultAttempts(s.core.results))
  {
    hide SemOk, CoreInv, TasksOk;
    OrderCounts(cfg.plan);
    FinalOrders(cfg.plan, s.core, s.aborted);
    SumEqual(cfg.plan.Order(), ResultAttempts(s.core.results), AttemptsAt(s.core.results, s.tasks));
  }

  // Every run is bounded, and it can be continued by a step of some task exactly until every
  // node has settled. Then both orders are permutations of the nodes that respect every edge,
  // and the claimed attempts are those of the results.
  lemma {:induction false} EveryRunEnds(cfg: Config, aborted: bool, steps: seq<Step>)
    requires cfg.plan.Accepted() && Legal(cfg, Init(cfg, aborted), steps)
    ensures |steps| <= Measure(cfg, Init(cfg, aborted))
    ensures var s := Exec(cfg, Init(cfg, aborted), steps);
            && (AllSettledIn(cfg, s) <==> forall step | Enabled(cfg, s, step) :: step == Abort)
            && (AllSettledIn(cfg, s) ==>
                  && multiset(s.core.scheduled) == multiset(s.core.completed) == multiset(Ids(cfg.plan.g.nodes))
                  && RespectsEdges(cfg.plan.g.edges, s.core.scheduled)
                  && RespectsEdges(cfg.plan.g.edges, s.core.completed)
                  && s.total == Sum(cfg.plan.Order(), ResultAttempts(s.core.results)))
  {
    hide SchedInv, Init, Enabled, AllSettledIn, Measure;
    InitInv(cfg, aborted);
    RunKeeps(cfg, Init(cfg, aborted), steps);
    RunBounded(cfg, Init(cfg, aborted), steps);
    var s := Exec(cfg, Init(cfg, aborted), steps);
    if AllSettledIn(cfg, s) {
      SettledIsIdle(cfg, s);
      SettledTotals(cfg, s);
    } else {
      var step := Progress(cfg, s);
    }
  }
}
