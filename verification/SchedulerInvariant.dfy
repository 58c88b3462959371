/**
 The scheduler's invariant: every step of every interleaving keeps the ready queue, the
 semaphore, the tasks and the attempt accounts consistent with each other.
 */
module SchedulerInvariant {
  import opened Wrappers
  import opened Sequences
  import opened Json
  import opened Graphs
  import opened CompilerSpec
  import opened ReadyQueue
  import opened Readiness
  import opened Semaphores
  import opened Scheduler
  import opened SlotLinks
  import LaunchEffects

  ghost predicate CoreReady(cfg: Config, s: State) {
    cfg.plan.Accepted() && CoreInv(cfg.plan, s.core, s.aborted) && s.core.ready == []
  }

  // ---- Tasks ---------------------------------------------------------------------

  // A result a launched node may end with.
  ghost predicate ResultShape(cfg: Config, input: Json, n: NodeId, r: NodeResult) {
    && r.node == n && r.sequence == Rank(cfg.plan, n) && r.input == Some(input) && r.status != Skipped
    && (r.status == Succeeded <==> r.failure.None?) && (r.status == Succeeded <==> r.output.Some?)
  }

  ghost predicate TaskOk(cfg: Config, input: Json, aborted: bool, n: NodeId, t: Task) {
    && t.attempts <= MaxAttempts(cfg, n)
    && match t.phase
       case Waiting => t.attempts < MaxAttempts(cfg, n) && !aborted
       case Granted(_) => t.attempts < MaxAttempts(cfg, n)
       case Rejected => t.attempts < MaxAttempts(cfg, n) && aborted
       case Running(_) => t.attempts >= 1
       case Decided(_, outcome) => t.attempts >= 1 && (outcome == Failure(NodeCancelled) ==> aborted)
       case Backoff => 1 <= t.attempts < MaxAttempts(cfg, n) && t.last.Some?
       case Finished(r) => r.attempts == t.attempts && ResultShape(cfg, input, n, r)
  }

  ghost predicate TasksOk(cfg: Config, active: map<NodeId, Json>, aborted: bool, tasks: map<NodeId, Task>) {
    && tasks.Keys == active.Keys
    && forall n | n in tasks :: TaskOk(cfg, active[n], aborted, n, tasks[n])
  }

  ghost predicate SemOk(cfg: Config, s: State) {
    SemInv(s.sem) && s.sem.limit == Concurrency(cfg) && Links(s.sem, s.tasks) && Drained(s.sem, s.aborted)
  }

  // ---- Accounts --------------------------------------------------------------------

  // Attempts a node has claimed so far.
  ghost function AttemptsAt(results: map<NodeId, NodeResult>, tasks: map<NodeId, Task>): NodeId -> int {
    n => if n in results then results[n].attempts else if n in tasks then tasks[n].attempts else 0
  }

  ghost predicate Accounts(cfg: Config, s: State) {
    && s.total == Sum(cfg.plan.Order(), AttemptsAt(s.core.results, s.tasks))
    && s.total <= AttemptLimit(cfg)
    && forall n | n in s.core.results :: s.core.results[n].attempts <= MaxAttempts(cfg, n)
  }

  ghost predicate SchedInv(cfg: Config, s: State) {
    && CoreReady(cfg, s) && SemOk(cfg, s)
    && TasksOk(cfg, s.core.active, s.aborted, s.tasks) && Accounts(cfg, s)
  }

  lemma {:induction false} InvParts(cfg: Config, s: State)
    requires SchedInv(cfg, s)
    ensures CoreReady(cfg, s) && cfg.plan.Accepted() && CoreInv(cfg.plan, s.core, s.aborted) && s.core.ready == []
    ensures TasksOk(cfg, s.core.active, s.aborted, s.tasks)
  {}

  lemma {:induction false} AccountsSame(cfg: Config, s: State, r: State)
    requires Accounts(cfg, s) && r.total == s.total && r.core.results == s.core.results
    requires forall n :: AttemptsAt(r.core.results, r.tasks)(n) == AttemptsAt(s.core.results, s.tasks)(n)
    ensures Accounts(cfg, r)
  {
    SumEqual(cfg.plan.Order(), AttemptsAt(r.core.results, r.tasks), AttemptsAt(s.core.results, s.tasks));
  }

  // ---- Pieces ------------------------------------------------------------------------

  lemma {:induction false} SetTaskOk(cfg: Config, s: State, n: NodeId, t: Task)
    requires SemOk(cfg, s) && TasksOk(cfg, s.core.active, s.aborted, s.tasks)
    requires n in s.tasks && SlotOf(t) == SlotOf(s.tasks[n]) && t.phase.Waiting? == s.tasks[n].phase.Waiting?
    requires TaskOk(cfg, s.core.active[n], s.aborted, n, t)
    ensures SemOk(cfg, SetTask(s, n, t)) && TasksOk(cfg, s.core.active, s.aborted, SetTask(s, n, t).tasks)
  {
    hide SemInv, Links, TaskOk;
    LinksSame(s.sem, s.tasks, n, t);
    assert s.tasks[n := t].Keys == s.tasks.Keys;
  }

  lemma {:induction false} ReleaseDrained(sem: Sem<NodeId>, slot: nat, aborted: bool)
    requires slot in sem.owners && Drained(sem, aborted)
    ensures Drained(OnRelease(sem, slot).0, aborted) && OnRelease(sem, slot).0.limit == sem.limit
  {
    var k := ReleaseWaiters(sem, slot);
    var after := OnRelease(sem, slot).0;
    forall i: nat | LiveAt(after, i) ensures LiveAt(sem, k + i) {}
  }

  lemma {:induction false} ReleaseToOk(cfg: Config, s: State, n: NodeId, slot: nat, t: Task)
    requires SemOk(cfg, s) && TasksOk(cfg, s.core.active, s.aborted, s.tasks)
    requires n in s.tasks && SlotOf(s.tasks[n]) == Some(slot) && Idle(t) && t.attempts == s.tasks[n].attempts
    requires TaskOk(cfg, s.core.active[n], s.aborted, n, t)
    ensures var r := ReleaseTo(s, n, slot, t);
            && SemOk(cfg, r) && TasksOk(cfg, s.core.active, s.aborted, r.tasks)
            && r.core == s.core && r.total == s.total && r.aborted == s.aborted && r.calls == s.calls
            && r.tasks[n] == t
            && (forall m :: AttemptsAt(r.core.results, r.tasks)(m) == AttemptsAt(s.core.results, s.tasks)(m))
  {
    hide SemInv, Links, OnRelease;
    LinksRelease(s.sem, s.tasks, n, slot, t);
    var (after, wakeup) := OnRelease(s.sem, slot);
    var r := ReleaseTo(s, n, slot, t);
    assert r.tasks.Keys == s.tasks.Keys;
    ReleaseDrained(s.sem, slot, s.aborted);
  }

  // What a request leaves of its own task; the others stay.
  lemma {:induction false} RequestShape(s: State, n: NodeId, attempts: nat, last: Option<NodeFailure>)
    ensures var r := Request(s, n, attempts, last);
            && r.tasks.Keys == s.tasks.Keys + {n}
            && r.core == s.core && r.total == s.total && r.aborted == s.aborted && r.calls == s.calls
            && (forall m | m != n && m in s.tasks :: r.tasks[m] == s.tasks[m])
            && r.tasks[n].attempts == attempts && r.tasks[n].last == last
            && (r.tasks[n].phase.Waiting? || r.tasks[n].phase.Granted? || r.tasks[n].phase.Rejected?)
            && (r.tasks[n].phase.Rejected? <==> s.aborted)
  {}

  lemma {:induction false} RequestSem(cfg: Config, s: State, n: NodeId, attempts: nat, last: Option<NodeFailure>)
    requires SemOk(cfg, s) && (n in s.tasks ==> Idle(s.tasks[n]))
    ensures SemOk(cfg, Request(s, n, attempts, last))
  {
    hide SemInv, Links, Drained, Request;
    LinksRequest(s, n, attempts, last);
    RequestShape(s, n, attempts, last);
  }

  lemma {:induction false} RequestedOk(cfg: Config, input: Json, aborted: bool, n: NodeId, t: Task)
    requires t.attempts < MaxAttempts(cfg, n) && (t.phase.Rejected? <==> aborted)
    requires t.phase.Waiting? || t.phase.Granted? || t.phase.Rejected?
    ensures TaskOk(cfg, input, aborted, n, t)
  {}

  lemma {:induction false} RequestOk(cfg: Config, s: State, n: NodeId, attempts: nat, last: Option<NodeFailure>)
    requires SemOk(cfg, s) && (n in s.tasks ==> Idle(s.tasks[n]))
    requires attempts < MaxAttempts(cfg, n) && n in s.core.active
    requires s.tasks.Keys + {n} <= s.core.active.Keys
    requires forall m | m in s.tasks :: TaskOk(cfg, s.core.active[m], s.aborted, m, s.tasks[m])
    ensures var r := Request(s, n, attempts, last);
            && SemOk(cfg, r) && r.tasks.Keys == s.tasks.Keys + {n}
            && (forall m | m in r.tasks :: TaskOk(cfg, s.core.active[m], s.aborted, m, r.tasks[m]))
            && r.core == s.core && r.total == s.total && r.aborted == s.aborted && r.calls == s.calls
            && (forall m | m != n && m in s.tasks :: r.tasks[m] == s.tasks[m])
            && r.tasks[n].attempts == attempts && r.tasks[n].last == last
            && (r.tasks[n].phase.Waiting? || r.tasks[n].phase.Granted? || r.tasks[n].phase.Rejected?)
            && (r.tasks[n].phase.Rejected? <==> s.aborted)
  {
    hide SemOk, TaskOk, Request, MaxAttempts;
    RequestSem(cfg, s, n, attempts, last);
    RequestShape(s, n, attempts, last);
    var r := Request(s, n, attempts, last);
    forall m | m in r.tasks ensures TaskOk(cfg, s.core.active[m], s.aborted, m, r.tasks[m]) {
      if m == n {
        RequestedOk(cfg, s.core.active[n], s.aborted, n, r.tasks[n]);
      }
    }
  }

  // ---- Steps inside a task ---------------------------------------------------------------

  // A step that leaves the ready queue alone.
  ghost predicate Local(s: State, r: State) {
    r.core == s.core && r.aborted == s.aborted
  }

  lemma {:induction false} LocalInv(cfg: Config, s: State, r: State)
    requires SchedInv(cfg, s) && Local(s, r)
    requires SemOk(cfg, r) && TasksOk(cfg, s.core.active, s.aborted, r.tasks) && Accounts(cfg, r)
    ensures SchedInv(cfg, r)
  {}

  // The semaphore facts do not mention the totals.
  lemma {:induction false} ClaimedSem(cfg: Config, s: State, r: State)
    requires SemOk(cfg, s) && r.sem == s.sem && r.tasks == s.tasks && r.aborted == s.aborted
    ensures SemOk(cfg, r)
  {}

  lemma {:induction false} ActiveUnsettled(cfg: Config, s: State, n: NodeId)
    requires SchedInv(cfg, s) && n in s.tasks
    ensures NoDup(cfg.plan.Order()) && n in cfg.plan.Order() && n !in s.core.results
  {
    hide CoreInv, SemOk, TaskOk;
    OrderIsTopological(cfg.plan);
    ActiveFacts(cfg.plan, s.core, n, s.aborted);
  }

  lemma {:induction false} ClaimAccounts(cfg: Config, s: State, n: NodeId, r: State)
    requires SchedInv(cfg, s) && n in s.tasks && r.core == s.core
    requires s.total < AttemptLimit(cfg) && r.total == s.total + 1
    requires n in r.tasks && r.tasks == s.tasks[n := r.tasks[n]] && r.tasks[n].attempts == s.tasks[n].attempts + 1
    ensures Accounts(cfg, r)
  {
    hide CoreReady, SemOk, TasksOk, MaxAttempts, AttemptLimit, Flatten;
    ActiveUnsettled(cfg, s, n);
    SumPoint(cfg.plan.Order(), AttemptsAt(s.core.results, s.tasks), AttemptsAt(r.core.results, r.tasks), n, 1);
  }

  lemma {:induction false} ClaimInv(cfg: Config, s: State, n: NodeId)
    requires SchedInv(cfg, s) && Enabled(cfg, s, Claim(n))
    ensures SchedInv(cfg, ClaimStep(cfg, s, n)) && Local(s, ClaimStep(cfg, s, n))
  {
    hide SemOk, CoreReady, ReleaseTo;
    var t, r := s.tasks[n], ClaimStep(cfg, s, n);
    var slot := t.phase.slot;
    if s.total >= AttemptLimit(cfg) {
      var failure := if t.last.Some? then t.last.value.(retryable := false)
                     else FailureOf(n, AttemptBudgetExhausted, t.attempts, false);
      var done := t.(phase := Finished(FailedResult(cfg.plan, n, s.core.active[n], t.attempts, failure)));
      ReleaseToOk(cfg, s, n, slot, done);
      assert r == ReleaseTo(s, n, slot, done);
      AccountsSame(cfg, s, r);
    } else {
      var claimed := s.(total := s.total + 1);
      ClaimedSem(cfg, s, claimed);
      SetTaskOk(cfg, claimed, n, r.tasks[n]);
      ClaimedSem(cfg, SetTask(claimed, n, r.tasks[n]), r);
      ClaimAccounts(cfg, s, n, r);
    }
    LocalInv(cfg, s, r);
  }

  lemma {:induction false} DecideInv(cfg: Config, s: State, n: NodeId, o: Outcome)
    requires SchedInv(cfg, s) && Enabled(cfg, s, Decide(n, o))
    ensures SchedInv(cfg, SetTask(s, n, s.tasks[n].(phase := Decided(s.tasks[n].phase.slot, o))))
  {
    hide SemOk, CoreReady;
    var t := s.tasks[n].(phase := Decided(s.tasks[n].phase.slot, o));
    SetTaskOk(cfg, s, n, t);
    AccountsSame(cfg, s, SetTask(s, n, t));
    LocalInv(cfg, s, SetTask(s, n, t));
  }

  lemma {:induction false} ResumeInv(cfg: Config, s: State, n: NodeId)
    requires SchedInv(cfg, s) && Enabled(cfg, s, Resume(n))
    ensures SchedInv(cfg, ResumeStep(cfg, s, n)) && Local(s, ResumeStep(cfg, s, n))
  {
    hide SemOk, CoreReady, ReleaseTo, Request;
    var t, r, input := s.tasks[n], ResumeStep(cfg, s, n), s.core.active[n];
    var slot := t.phase.slot;
    match t.phase.outcome
    case Success(output) =>
      ReleaseToOk(cfg, s, n, slot, t.(phase := Finished(SucceededResult(cfg.plan, n, input, t.attempts, output))));
      AccountsSame(cfg, s, r);
      LocalInv(cfg, s, r);
    case Failure(code) =>
      var mayRetry := t.attempts < MaxAttempts(cfg, n) && code != NodeCancelled;
      var failure := FailureOf(n, code, t.attempts, mayRetry);
      if t.attempts < MaxAttempts(cfg, n) {
        var back := ReleaseTo(s, n, slot, Task(Backoff, t.attempts, Some(failure)));
        ReleaseToOk(cfg, s, n, slot, Task(Backoff, t.attempts, Some(failure)));
        if !mayRetry {
          RequestOk(cfg, back, n, t.attempts, Some(failure));
        }
      } else {
        ReleaseToOk(cfg, s, n, slot, Task(Finished(FailedResult(cfg.plan, n, input, t.attempts, failure)), t.attempts,
            Some(failure)));
      }
      AccountsSame(cfg, s, r);
      LocalInv(cfg, s, r);
  }

  lemma {:induction false} WakeInv(cfg: Config, s: State, n: NodeId)
    requires SchedInv(cfg, s) && Enabled(cfg, s, Wake(n))
    ensures SchedInv(cfg, Request(s, n, s.tasks[n].attempts, s.tasks[n].last))
    ensures Local(s, Request(s, n, s.tasks[n].attempts, s.tasks[n].last))
  {
    hide SemOk, CoreReady, Request;
    var r := Request(s, n, s.tasks[n].attempts, s.tasks[n].last);
    RequestOk(cfg, s, n, s.tasks[n].attempts, s.tasks[n].last);
    AccountsSame(cfg, s, r);
    LocalInv(cfg, s, r);
  }

  lemma {:induction false} CancelledInv(cfg: Config, s: State, n: NodeId)
    requires SchedInv(cfg, s) && n in s.tasks && Idle(s.tasks[n]) && n in s.core.active
    ensures SchedInv(cfg, SetTask(s, n, CancelledTask(cfg, s, n)))
  {
    hide SemOk, CoreReady;
    var t := CancelledTask(cfg, s, n);
    SetTaskOk(cfg, s, n, t);
    AccountsSame(cfg, s, SetTask(s, n, t));
    LocalInv(cfg, s, SetTask(s, n, t));
  }

  // ---- Starting, settling and aborting --------------------------------------------------

  // Between settling and the last start, some active nodes have no task yet.
  ghost predicate Partial(cfg: Config, s: State) {
    && SemOk(cfg, s) && s.tasks.Keys <= s.core.active.Keys
    && forall n | n in s.tasks :: TaskOk(cfg, s.core.active[n], s.aborted, n, s.tasks[n])
  }

  // A task before its first attempt; without an executor it has already failed.
  ghost predicate JustStarted(cfg: Config, active: map<NodeId, Json>, n: NodeId, t: Task) {
    && t.attempts == 0 && t.last == None && n in active
    && if HasExecutor(cfg, n) then t.phase.Waiting? || t.phase.Granted? || t.phase.Rejected?
       else t.phase == Finished(FailedResult(cfg.plan, n, active[n], 0, FailureOf(n, ExecutorNotFound, 0, false)))
  }

  lemma {:induction false} StartOk(cfg: Config, s: State, n: NodeId)
    requires Partial(cfg, s) && n in s.core.active && n !in s.tasks
    ensures var r := Start(cfg, s, n);
            Partial(cfg, r) && r.core == s.core && r.aborted == s.aborted && r.total == s.total
            && r.tasks.Keys == s.tasks.Keys + {n}
            && JustStarted(cfg, s.core.active, n, r.tasks[n]) && (forall m | m in s.tasks :: r.tasks[m] == s.tasks[m])
  {
    hide SemInv, Links, Request;
    if HasExecutor(cfg, n) {
      RequestOk(cfg, s, n, 0, None);
    } else {
      var t := Start(cfg, s, n).tasks[n];
      LinksAdd(s.sem, s.tasks, n, t);
    }
  }

  lemma {:induction false} StartAllOk(cfg: Config, s: State, ns: seq<NodeId>)
    requires Partial(cfg, s) && NoDup(ns) && forall n | n in ns :: n in s.core.active && n !in s.tasks
    ensures var r := StartAll(cfg, s, ns);
            Partial(cfg, r) && r.core == s.core && r.tasks.Keys == s.tasks.Keys + Elems(ns)
            && (forall m | m in s.tasks :: r.tasks[m] == s.tasks[m])
            && (forall m | m in ns :: JustStarted(cfg, s.core.active, m, r.tasks[m]))
  {
    hide Partial, Start, JustStarted;
    if ns == [] {
      assert Elems(ns) == {};
    } else {
      var front, last := ns[..|ns| - 1], ns[|ns| - 1];
      assert ns == front + [last];
      NoDupAppend(front, last);
      StartAllOk(cfg, s, front);
      StartOk(cfg, StartAll(cfg, s, front), last);
      assert Elems(ns) == Elems(front) + {last};
    }
  }

  // n's task ended with r.
  ghost predicate EndedWith(s: State, n: NodeId, r: NodeResult) {
    n in s.tasks && s.tasks[n].phase == Finished(r)
  }

  lemma {:induction false} ActiveInput(cfg: Config, s: State, n: NodeId)
    requires CoreReady(cfg, s) && n in s.core.active
    ensures InputOk(cfg.plan, s.core.results, n, s.core.active[n])
  {}

  lemma {:induction false} DeliversFit(cfg: Config, s: State, n: NodeId, r: NodeResult)
    requires SchedInv(cfg, s) && EndedWith(s, n, r)
    ensures Fits(cfg.plan, s.core.results, n, r, s.aborted)
  {
    hide SemOk, Accounts, CoreReady;
    assert TaskOk(cfg, s.core.active[n], s.aborted, n, s.tasks[n]);
    ActiveInput(cfg, s, n);
  }

  // The result a finished task delivers is one its node may have.
  lemma {:induction false} Delivers(cfg: Config, s: State, n: NodeId, r: NodeResult)
    requires SchedInv(cfg, s) && EndedWith(s, n, r)
    ensures n in s.core.active && n !in s.core.results
    ensures Fits(cfg.plan, s.core.results, n, r, s.aborted)
  {
    hide SemOk, Accounts, CoreReady;
    ActiveUnsettled(cfg, s, n);
    DeliversFit(cfg, s, n, r);
  }

  // What settling and relaunching does to the ready queue, seen from the tasks.
  ghost predicate Relaunched(s: State, n: NodeId, r: NodeResult, core: Core) {
    var started := Newly(core, |s.core.scheduled|);
    && s.core.scheduled <= core.scheduled
    && n in core.results && core.results[n] == r && n !in core.active
    && (forall m | m in s.core.results :: m in core.results && core.results[m] == s.core.results[m])
    && (forall m | m in s.core.active && m != n :: m in core.active && core.active[m] == s.core.active[m])
    && (forall m | m in core.results && m !in s.core.results && m != n ::
          m !in s.core.active && core.results[m].attempts == 0 && core.results[m].status != Succeeded)
    && NoDup(started) && (forall m :: m in started <==> m in core.active && m !in s.core.active)
    && (forall m | m in started :: m !in s.core.results)
  }

  lemma {:induction false} RelaunchedBy(s: State, n: NodeId, r: NodeResult, settled: Core, core: Core)
    requires settled.results == s.core.results[n := r] && settled.active == s.core.active - {n}
    requires settled.scheduled == s.core.scheduled && n in s.core.active && n !in s.core.results
    requires LaunchEffects.Grown(settled, core)
    requires core.active.Keys !! core.results.Keys && settled.active.Keys !! settled.results.Keys
    requires forall m | m in core.results && m !in settled.results ::
               m !in settled.active && core.results[m].attempts == 0 && core.results[m].status != Succeeded
    requires NoDup(Newly(core, |settled.scheduled|))
    requires forall m :: m in Newly(core, |settled.scheduled|) <==> m in core.active && m !in settled.active
    requires forall m | m in Newly(core, |settled.scheduled|) :: m !in settled.results
    ensures Relaunched(s, n, r, core)
  {
    hide Newly;
    assert n in settled.results && settled.results[n] == r;
    assert n in core.results && core.results[n] == r;
    assert n !in core.active;
    assert forall m | m in s.core.active && m != n :: m in settled.active;
  }

  lemma {:induction false} SettledNotActive(plan: Plan, c: Core, cancelled: bool)
    requires CoreInv(plan, c, cancelled)
    ensures c.active.Keys !! c.results.Keys
  {}

  lemma {:induction false} RelaunchMeans(cfg: Config, s: State, n: NodeId, r: NodeResult)
    requires CoreReady(cfg, s) && n in s.core.active && n !in s.core.results
    requires Fits(cfg.plan, s.core.results, n, r, s.aborted)
    ensures CoreInv(cfg.plan, Relaunch(cfg, s, n, r), s.aborted) && Relaunch(cfg, s, n, r).ready == []
    ensures Relaunched(s, n, r, Relaunch(cfg, s, n, r))
  {
    hide CoreInv, Settle, LaunchAll, Fits, Relaunched, LaunchEffects.Grown, Newly;
    SettleActive(cfg.plan, s.core, n, r, s.aborted);
    var settled, core := Settle(cfg.plan, s.core, n, r), Relaunch(cfg, s, n, r);
    LaunchAllInv(cfg.plan, settled, s.aborted);
    LaunchEffects.SettleShape(cfg.plan, s.core, n, r);
    LaunchEffects.LaunchAllGrows(cfg.plan, settled, s.aborted);
    LaunchEffects.NewlyActive(cfg.plan, settled, core, s.aborted);
    LaunchEffects.NewlySettled(cfg.plan, settled, core, s.aborted);
    SettledNotActive(cfg.plan, core, s.aborted);
    SettledNotActive(cfg.plan, settled, s.aborted);
    RelaunchedBy(s, n, r, settled, core);
  }

  lemma {:induction false} CompleteCore(cfg: Config, s: State, n: NodeId, r: NodeResult)
    requires SchedInv(cfg, s) && EndedWith(s, n, r)
    ensures Relaunched(s, n, r, Relaunch(cfg, s, n, r))
    ensures CoreReady(cfg, CompleteStep(cfg, s, n, r))
  {
    hide SemOk, TasksOk, Accounts, Fits, CoreInv, Relaunch, Relaunched;
    Delivers(cfg, s, n, r);
    RelaunchMeans(cfg, s, n, r);
  }

  lemma {:induction false} BetweenOk(cfg: Config, s: State, n: NodeId, r: NodeResult, core: Core)
    requires SchedInv(cfg, s) && EndedWith(s, n, r) && Relaunched(s, n, r, core)
    ensures Partial(cfg, s.(core := core, tasks := s.tasks - {n}))
    ensures forall m | m in Newly(core, |s.core.scheduled|) :: m in core.active && m !in s.tasks - {n}
    ensures NoDup(Newly(core, |s.core.scheduled|))
  {
    hide CoreReady, SemInv, Links, TaskOk, Accounts, Newly;
    LinksRemove(s.sem, s.tasks, n);
  }

  // All tasks after the new ones were started.
  ghost predicate Restarted(cfg: Config, s: State, n: NodeId, r: State) {
    var started := Newly(r.core, |s.core.scheduled|);
    && r.tasks.Keys == (s.tasks - {n}).Keys + Elems(started)
    && (forall m | m in s.tasks - {n} :: m in r.tasks && r.tasks[m] == s.tasks[m])
    && (forall m | m in started :: m in r.tasks && JustStarted(cfg, r.core.active, m, r.tasks[m]))
    && r.aborted == s.aborted && r.total == s.total && r.calls == s.calls
  }

  // What completing a task changes.
  lemma {:induction false} CompleteShape(cfg: Config, s: State, n: NodeId, r: NodeResult)
    requires SchedInv(cfg, s) && EndedWith(s, n, r)
    ensures var after := CompleteStep(cfg, s, n, r);
            && Relaunched(s, n, r, after.core) && Restarted(cfg, s, n, after)
            && Partial(cfg, after) && CoreReady(cfg, after)
  {
    hide CoreReady, SemOk, TasksOk, Accounts, Relaunched, Relaunch, Partial, Fits, Newly, JustStarted;
    var core := Relaunch(cfg, s, n, r);
    CompleteCore(cfg, s, n, r);
    BetweenOk(cfg, s, n, r, core);
    StartAllOk(cfg, s.(core := core, tasks := s.tasks - {n}), Newly(core, |s.core.scheduled|));
  }

  lemma {:induction false} PartialSem(cfg: Config, s: State)
    requires Partial(cfg, s)
    ensures SemOk(cfg, s)
  {}

  lemma {:induction false} CompleteTasks(cfg: Config, s: State, n: NodeId, result: NodeResult, r: State)
    requires SchedInv(cfg, s) && EndedWith(s, n, result)
    requires Relaunched(s, n, result, r.core) && Restarted(cfg, s, n, r) && Partial(cfg, r)
    ensures TasksOk(cfg, r.core.active, r.aborted, r.tasks)
  {
    hide CoreReady, SemOk, TaskOk, Accounts;
    forall m ensures m in r.tasks <==> m in r.core.active {}
    assert r.tasks.Keys == r.core.active.Keys;
  }

  lemma {:induction false} RestartedKeeps(cfg: Config, s: State, n: NodeId, r: State)
    requires Restarted(cfg, s, n, r)
    ensures r.total == s.total && r.aborted == s.aborted && r.calls == s.calls
  {}

  lemma {:induction false} FinishedAttempts(cfg: Config, s: State, n: NodeId, result: NodeResult)
    requires SchedInv(cfg, s) && EndedWith(s, n, result)
    ensures result.attempts == s.tasks[n].attempts <= MaxAttempts(cfg, n)
  {
    hide CoreReady, SemOk, Accounts;
    assert TaskOk(cfg, s.core.active[n], s.aborted, n, s.tasks[n]);
  }

  lemma {:induction false} SettledAttempts(cfg: Config, s: State, n: NodeId, result: NodeResult, r: State)
    requires Relaunched(s, n, result, r.core) && result.attempts <= MaxAttempts(cfg, n)
    requires forall m | m in s.core.results :: s.core.results[m].attempts <= MaxAttempts(cfg, m)
    ensures forall m | m in r.core.results :: r.core.results[m].attempts <= MaxAttempts(cfg, m)
  {}

  lemma {:induction false} ActiveOrSettled(cfg: Config, s: State, n: NodeId)
    requires SchedInv(cfg, s) && n in s.tasks
    ensures n !in s.core.results && s.tasks.Keys == s.core.active.Keys
    ensures forall m | m in s.core.active :: m !in s.core.results
  {
    hide SemOk, Accounts, TaskOk;
  }

  lemma {:induction false} CompleteAttempts(cfg: Config, s: State, n: NodeId, result: NodeResult, r: State, m: NodeId)
    requires SchedInv(cfg, s) && n in s.tasks && result.attempts == s.tasks[n].attempts
    requires Relaunched(s, n, result, r.core) && Restarted(cfg, s, n, r)
    ensures AttemptsAt(r.core.results, r.tasks)(m) == AttemptsAt(s.core.results, s.tasks)(m)
  {
    hide SchedInv;
    ActiveOrSettled(cfg, s, n);
    if m in s.core.results || m == n || m in r.core.results {
    } else if m in s.tasks {
      assert m in s.tasks - {n};
    }
  }

  lemma {:induction false} CompleteAccounts(cfg: Config, s: State, n: NodeId, result: NodeResult, r: State)
    requires SchedInv(cfg, s) && EndedWith(s, n, result)
    requires Relaunched(s, n, result, r.core) && Restarted(cfg, s, n, r)
    ensures Accounts(cfg, r)
  {
    hide CoreReady, SemOk, Relaunched, Restarted, TasksOk;
    FinishedAttempts(cfg, s, n, result);
    RestartedKeeps(cfg, s, n, r);
    forall m ensures AttemptsAt(r.core.results, r.tasks)(m) == AttemptsAt(s.core.results, s.tasks)(m) {
      CompleteAttempts(cfg, s, n, result, r, m);
    }
    SumEqual(cfg.plan.Order(), AttemptsAt(r.core.results, r.tasks), AttemptsAt(s.core.results, s.tasks));
    SettledAttempts(cfg, s, n, result, r);
  }

  lemma {:induction false} CompleteInv(cfg: Config, s: State, n: NodeId, r: NodeResult)
    requires SchedInv(cfg, s) && EndedWith(s, n, r)
    ensures SchedInv(cfg, CompleteStep(cfg, s, n, r))
  {
    hide CoreReady, SemOk, TasksOk, Accounts, Relaunched, Restarted, CompleteStep, Partial;
    var after := CompleteStep(cfg, s, n, r);
    CompleteShape(cfg, s, n, r);
    CompleteTasks(cfg, s, n, r, after);
    CompleteAccounts(cfg, s, n, r, after);
    PartialSem(cfg, after);
  }

  lemma {:induction false} AbortTasks(cfg: Config, s: State)
    requires TasksOk(cfg, s.core.active, s.aborted, s.tasks)
    ensures TasksOk(cfg, s.core.active, true, AbortStep(s).tasks)
    ensures AbortStep(s).tasks.Keys == s.tasks.Keys
    ensures forall n | n in s.tasks :: AbortStep(s).tasks[n].attempts == s.tasks[n].attempts
  {
    hide CancelFirst;
    var r := AbortStep(s);
    assert r.tasks.Keys == s.tasks.Keys;
    forall n | n in r.tasks ensures TaskOk(cfg, s.core.active[n], true, n, r.tasks[n]) {
      assert TaskOk(cfg, s.core.active[n], s.aborted, n, s.tasks[n]);
    }
  }

  lemma {:induction false} AbortInv(cfg: Config, s: State)
    requires SchedInv(cfg, s)
    ensures SchedInv(cfg, AbortStep(s))
  {
    hide SemInv, Links, CancelFirst, CoreInv, TaskOk;
    var r := AbortStep(s);
    LinksAbort(s);
    CancelLater(cfg.plan, s.core, s.aborted, true);
    AbortTasks(cfg, s);
    AccountsSame(cfg, s, r);
  }

  // Every task stands before its first attempt.
  ghost predicate Opening(cfg: Config, s: State) {
    forall n | n in s.tasks :: JustStarted(cfg, s.core.active, n, s.tasks[n])
  }

  lemma {:induction false} FreshOk(cfg: Config, s: State)
    requires s.tasks == map[] && s.sem == Fresh(Concurrency(cfg))
    ensures Partial(cfg, s)
  {
    RunInv<NodeId>(Concurrency(cfg), []);
    assert s.tasks.Keys == {};
  }

  lemma {:induction false} SumZero(s: seq<NodeId>, f: NodeId -> int)
    requires forall n :: f(n) == 0
    ensures Sum(s, f) == 0
  {
    if s == [] {
    } else {
      SumZero(s[..|s| - 1], f);
    }
  }

  lemma {:induction false} InitDone(cfg: Config, r: State, started: seq<NodeId>)
    requires cfg.plan.Accepted() && CoreInv(cfg.plan, r.core, r.aborted) && r.core.ready == [] && Partial(cfg, r)
    requires r.tasks.Keys == Elems(started) && r.total == 0
    requires forall m :: m in started <==> m in r.core.active
    requires forall m | m in started :: JustStarted(cfg, r.core.active, m, r.tasks[m])
    requires forall m | m in r.core.results :: r.core.results[m].attempts == 0
    ensures SchedInv(cfg, r) && Opening(cfg, r) && forall n :: AttemptsAt(r.core.results, r.tasks)(n) == 0
  {
    hide CoreInv, SemOk, TaskOk;
    assert r.tasks.Keys == r.core.active.Keys;
    var at := AttemptsAt(r.core.results, r.tasks);
    SumZero(cfg.plan.Order(), at);
  }

  lemma {:induction false} InitInv(cfg: Config, aborted: bool)
    requires cfg.plan.Accepted()
    ensures SchedInv(cfg, Init(cfg, aborted))
    ensures Init(cfg, aborted).calls == [] && Init(cfg, aborted).aborted == aborted
    ensures forall n :: AttemptsAt(Init(cfg, aborted).core.results, Init(cfg, aborted).tasks)(n) == 0
    ensures Opening(cfg, Init(cfg, aborted))
  {
    hide CoreInv, LaunchAll, Partial;
    var c := Initial(cfg.plan);
    InitialInv(cfg.plan, aborted);
    LaunchAllInv(cfg.plan, c, aborted);
    var core := LaunchAll(cfg.plan, c, aborted);
    LaunchEffects.LaunchAllGrows(cfg.plan, c, aborted);
    LaunchEffects.NewlyActive(cfg.plan, c, core, aborted);
    LaunchEffects.NewlySettled(cfg.plan, c, core, aborted);
    var s := State(core, Fresh(Concurrency(cfg)), map[], 0, aborted, []);
    FreshOk(cfg, s);
    StartAllOk(cfg, s, Newly(core, 0));
    InitDone(cfg, StartAll(cfg, s, Newly(core, 0)), Newly(core, 0));
  }
}
