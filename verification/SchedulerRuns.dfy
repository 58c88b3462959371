/**
 Whole runs of the scheduler: in every reachable state of every interleaving the invariant
 holds, some step other than the abort is possible until all nodes have settled, and
 every run is bounded, so every maximal run settles every node.
 */
module SchedulerRuns {
  import opened Wrappers
  import opened Sequences
  import opened Json
  import opened Graphs
  import opened ReadyQueue
  import opened Readiness
  import opened RunGuarantees
  import opened Semaphores
  import opened Scheduler
  import opened SlotLinks
  import opened SchedulerInvariant

  // ---- Runs ----------------------------------------------------------------------

  // Each step is enabled where it is taken.
  ghost predicate Legal(cfg: Config, s: State, steps: seq<Step>)
    decreases |steps|
  {
    steps != [] ==> Enabled(cfg, s, steps[0]) && Legal(cfg, Next(cfg, s, steps[0]), steps[1..])
  }

  ghost function Exec(cfg: Config, s: State, steps: seq<Step>): State
    requires Legal(cfg, s, steps)
    decreases |steps|
  {
    if steps == [] then s else Exec(cfg, Next(cfg, s, steps[0]), steps[1..])
  }

  // Every step of every node, in any state, keeps the invariant.
  lemma {:induction false} NextInv(cfg: Config, s: State, step: Step)
    requires SchedInv(cfg, s) && Enabled(cfg, s, step)
    ensures SchedInv(cfg, Next(cfg, s, step))
  {
    hide SchedInv, CompleteStep, ClaimStep, ResumeStep, Request, AbortStep, CancelledTask;
    match step
    case Claim(n) => ClaimInv(cfg, s, n);
    case Decide(n, o) => DecideInv(cfg, s, n, o);
    case Resume(n) => ResumeInv(cfg, s, n);
    case Wake(n) => WakeInv(cfg, s, n);
    case WakeCancelled(n) => CancelledInv(cfg, s, n);
    case Reject(n) => CancelledInv(cfg, s, n);
    case Complete(n) => CompleteInv(cfg, s, n, s.tasks[n].phase.result);
    case Abort => AbortInv(cfg, s);
  }

  lemma {:induction false} RunKeeps(cfg: Config, s: State, steps: seq<Step>)
    requires SchedInv(cfg, s) && Legal(cfg, s, steps)
    ensures SchedInv(cfg, Exec(cfg, s, steps))
    decreases |steps|
  {
    hide SchedInv, Next, Enabled;
    if steps == [] {
    } else {
      NextInv(cfg, s, steps[0]);
      RunKeeps(cfg, Next(cfg, s, steps[0]), steps[1..]);
    }
  }

  // ---- Progress -------------------------------------------------------------------

  ghost predicate AllSettledIn(cfg: Config, s: State) {
    s.core.results.Keys == Elems(Ids(cfg.plan.g.nodes))
  }

  lemma {:induction false} OutcomePossible(cfg: Config, n: NodeId, aborted: bool, o: Outcome)
    requires o == if aborted then Failure(NodeCancelled) else Failure(NodeExecutionFailed)
    ensures Possible(cfg, n, aborted, o)
  {}

  // The step of a task that does not wait for a slot.
  lemma {:induction false} Move(cfg: Config, s: State, n: NodeId) returns (step: Step)
    requires n in s.tasks && n in s.core.active && !s.tasks[n].phase.Waiting?
    ensures step != Abort && Enabled(cfg, s, step)
  {
    hide Possible;
    match s.tasks[n].phase {
      case Granted(_) => step := Claim(n);
      case Running(_) =>
        var outcome := if s.aborted then Failure(NodeCancelled) else Failure(NodeExecutionFailed);
        OutcomePossible(cfg, n, s.aborted, outcome);
        step := Decide(n, outcome);
      case Decided(_, _) => step := Resume(n);
      case Backoff => step := Wake(n);
      case Rejected => step := Reject(n);
      case Finished(_) => step := Complete(n);
    }
  }

  lemma {:induction false} SomeHolder(sem: Sem<NodeId>, tasks: map<NodeId, Task>, n: NodeId) returns (m: NodeId)
    requires SemInv(sem) && Links(sem, tasks) && sem.limit >= 1 && n in tasks && tasks[n].phase.Waiting?
    ensures m in tasks && SlotOf(tasks[m]).Some?
  {
    var i: nat :| LiveAt(sem, i) && sem.waiters[i].id == n;
    assert sem.running == sem.limit == |sem.owners|;
    assert sem.owners.Keys != {};
    var slot :| slot in sem.owners;
    m := sem.owners[slot];
  }

  // Some node is active, and not every active task waits: a live waiter means every slot is held.
  lemma {:induction false} UnsettledHasTask(cfg: Config, s: State)
    requires SchedInv(cfg, s) && !AllSettledIn(cfg, s)
    ensures exists n :: n in s.tasks && !s.tasks[n].phase.Waiting?
  {
    hide CoreInv, TaskOk, Accounts, SemInv;
    OrderCounts(cfg.plan);
    if s.core.active == map[] {
      NoDeadlock(cfg.plan, s.core, s.aborted);
    }
    var n :| n in s.core.active;
    if s.tasks[n].phase.Waiting? {
      var m := SomeHolder(s.sem, s.tasks, n);
      assert !s.tasks[m].phase.Waiting?;
    }
  }

  // No reachable state is stuck: until every node has settled, some task can move.
  lemma {:induction false} Progress(cfg: Config, s: State) returns (step: Step)
    requires SchedInv(cfg, s) && !AllSettledIn(cfg, s)
    ensures step != Abort && Enabled(cfg, s, step)
  {
    hide SchedInv, AllSettledIn;
    UnsettledHasTask(cfg, s);
    var n :| n in s.tasks && !s.tasks[n].phase.Waiting?;
    ActiveOrSettled(cfg, s, n);
    step := Move(cfg, s, n);
  }

  // ---- Termination -----------------------------------------------------------------

  function PhaseRank(p: Phase): nat {
    match p
    case Finished(_) => 1
    case Rejected => 2
    case Granted(_) => 3
    case Waiting => 4
    case Backoff => 5
    case Decided(_, _) => 6
    case Running(_) => 7
  }

  function TaskWeight(max: nat, t: Task): int {
    8 * (max - t.attempts) + PhaseRank(t.phase)
  }

  // How many steps a node can still take.
  ghost function WeightIn(cfg: Config, results: map<NodeId, NodeResult>, tasks: map<NodeId, Task>): NodeId -> int {
    n => if n in results then 0
         else if n in tasks then TaskWeight(MaxAttempts(cfg, n), tasks[n])
         else 8 * MaxAttempts(cfg, n) + 5
  }

  ghost function Weight(cfg: Config, s: State): NodeId -> int {
    WeightIn(cfg, s.core.results, s.tasks)
  }

  ghost function Measure(cfg: Config, s: State): int {
    Sum(cfg.plan.Order(), Weight(cfg, s)) + if s.aborted then 0 else 1
  }

  // No node's weight grew and n's fell.
  ghost predicate Lighter(cfg: Config, s: State, r: State, n: NodeId) {
    && (forall m :: Weight(cfg, r)(m) <= Weight(cfg, s)(m))
    && Weight(cfg, r)(n) < Weight(cfg, s)(n)
  }

  lemma {:induction false} LighterMeasure(cfg: Config, s: State, r: State, n: NodeId)
    requires Lighter(cfg, s, r, n) && n in cfg.plan.Order() && r.aborted == s.aborted
    ensures Measure(cfg, r) < Measure(cfg, s)
  {
    hide Weight;
    SumStrict(cfg.plan.Order(), Weight(cfg, r), Weight(cfg, s), n);
  }

  // Tasks other than n only ever moved from waiting to granted.
  ghost predicate OthersWoken(before: map<NodeId, Task>, after: map<NodeId, Task>, n: NodeId) {
    && after.Keys == before.Keys
    && forall m | m in before && m != n ::
         after[m] == before[m] || (before[m].phase.Waiting? && after[m].phase.Granted?
             && after[m].attempts == before[m].attempts && after[m].last == before[m].last)
  }

  lemma {:induction false} LighterTask(cfg: Config, s: State, r: State, n: NodeId)
    requires r.core == s.core && n in s.tasks && n !in s.core.results && OthersWoken(s.tasks, r.tasks, n)
    requires TaskWeight(MaxAttempts(cfg, n), r.tasks[n]) < TaskWeight(MaxAttempts(cfg, n), s.tasks[n])
    ensures Lighter(cfg, s, r, n)
  {
    hide MaxAttempts;
    forall m ensures Weight(cfg, r)(m) <= Weight(cfg, s)(m) {
      if m in s.tasks && m != n {
        assert PhaseRank(r.tasks[m].phase) <= PhaseRank(s.tasks[m].phase);
      }
    }
  }

  lemma {:induction false} ReleaseOthers(cfg: Config, s: State, n: NodeId, slot: nat, t: Task)
    requires SemOk(cfg, s) && n in s.tasks && SlotOf(s.tasks[n]) == Some(slot) && Idle(t)
    ensures OthersWoken(s.tasks, ReleaseTo(s, n, slot, t).tasks, n)
    ensures ReleaseTo(s, n, slot, t).tasks[n] == t && ReleaseTo(s, n, slot, t).core == s.core
    ensures ReleaseTo(s, n, slot, t).calls == s.calls && ReleaseTo(s, n, slot, t).aborted == s.aborted
  {
    hide SemInv, Links, OnRelease;
    LinksRelease(s.sem, s.tasks, n, slot, t);
  }

  lemma {:induction false} RequestOthers(s: State, n: NodeId, attempts: nat, last: Option<NodeFailure>)
    ensures var r := Request(s, n, attempts, last);
            && r.core == s.core && r.aborted == s.aborted && r.calls == s.calls
            && r.tasks.Keys == s.tasks.Keys + {n}
            && (forall m | m in s.tasks && m != n :: r.tasks[m] == s.tasks[m])
            && r.tasks[n].attempts == attempts && PhaseRank(r.tasks[n].phase) <= 4
  {
    var r := Request(s, n, attempts, last);
    assert r.tasks.Keys == s.tasks.Keys + {n};
  }

  // What a claim leaves of its own task, and what happens to the others.
  lemma {:induction false} ClaimShape(cfg: Config, s: State, n: NodeId)
    requires SchedInv(cfg, s) && Enabled(cfg, s, Claim(n))
    ensures var r := ClaimStep(cfg, s, n);
            && OthersWoken(s.tasks, r.tasks, n) && r.core == s.core && r.aborted == s.aborted
            && r.tasks[n].attempts == s.tasks[n].attempts + (if s.total < AttemptLimit(cfg) then 1 else 0)
            && r.calls == s.calls
              + (if s.total < AttemptLimit(cfg) && !s.aborted then [Call(n, s.tasks[n].attempts + 1)] else [])
            && TaskWeight(MaxAttempts(cfg, n), r.tasks[n]) < TaskWeight(MaxAttempts(cfg, n), s.tasks[n])
  {
    hide SemOk, TaskOk, ReleaseTo, CoreReady, MaxAttempts, AttemptLimit;
    var t, r := s.tasks[n], ClaimStep(cfg, s, n);
    if s.total >= AttemptLimit(cfg) {
      var failure := if t.last.Some? then t.last.value.(retryable := false)
                     else FailureOf(n, AttemptBudgetExhausted, t.attempts, false);
      var done := t.(phase := Finished(FailedResult(cfg.plan, n, s.core.active[n], t.attempts, failure)));
      ReleaseOthers(cfg, s, n, t.phase.slot, done);
    } else {
      assert r.tasks.Keys == s.tasks.Keys;
    }
  }

  lemma {:induction false} ClaimLighter(cfg: Config, s: State, n: NodeId)
    requires SchedInv(cfg, s) && Enabled(cfg, s, Claim(n))
    ensures Lighter(cfg, s, ClaimStep(cfg, s, n), n)
  {
    hide SemOk, TaskOk, Lighter, ReleaseTo, CoreReady;
    var t, r := s.tasks[n], ClaimStep(cfg, s, n);
    ActiveUnsettled(cfg, s, n);
    ClaimShape(cfg, s, n);
    LighterTask(cfg, s, r, n);
  }

  lemma {:induction false} DecideLighter(cfg: Config, s: State, n: NodeId, o: Outcome)
    requires SchedInv(cfg, s) && Enabled(cfg, s, Decide(n, o))
    ensures Lighter(cfg, s, Next(cfg, s, Decide(n, o)), n)
  {
    hide SemOk, TaskOk, Lighter, CoreReady;
    var r := Next(cfg, s, Decide(n, o));
    ActiveUnsettled(cfg, s, n);
    assert r.tasks.Keys == s.tasks.Keys;
    LighterTask(cfg, s, r, n);
  }

  lemma {:induction false} ResumeShape(cfg: Config, s: State, n: NodeId)
    requires SchedInv(cfg, s) && Enabled(cfg, s, Resume(n))
    ensures var r := ResumeStep(cfg, s, n);
            && OthersWoken(s.tasks, r.tasks, n) && r.core == s.core && r.aborted == s.aborted
            && r.tasks[n].attempts == s.tasks[n].attempts && r.calls == s.calls
            && TaskWeight(MaxAttempts(cfg, n), r.tasks[n]) < TaskWeight(MaxAttempts(cfg, n), s.tasks[n])
  {
    hide SemOk, TaskOk, ReleaseTo, Request, CoreReady, MaxAttempts;
    var t, input := s.tasks[n], s.core.active[n];
    var slot := t.phase.slot;
    match t.phase.outcome
    case Success(output) =>
      ReleaseOthers(cfg, s, n, slot, t.(phase := Finished(SucceededResult(cfg.plan, n, input, t.attempts, output))));
    case Failure(code) =>
      var mayRetry := t.attempts < MaxAttempts(cfg, n) && code != NodeCancelled;
      var failure := FailureOf(n, code, t.attempts, mayRetry);
      if t.attempts < MaxAttempts(cfg, n) {
        ReleaseOthers(cfg, s, n, slot, Task(Backoff, t.attempts, Some(failure)));
        RequestOthers(ReleaseTo(s, n, slot, Task(Backoff, t.attempts, Some(failure))), n, t.attempts, Some(failure));
      } else {
        ReleaseOthers(cfg, s, n, slot,
          Task(Finished(FailedResult(cfg.plan, n, input, t.attempts, failure)), t.attempts, Some(failure)));
      }
  }

  lemma {:induction false} ResumeLighter(cfg: Config, s: State, n: NodeId)
    requires SchedInv(cfg, s) && Enabled(cfg, s, Resume(n))
    ensures Lighter(cfg, s, ResumeStep(cfg, s, n), n)
  {
    hide SemOk, TaskOk, Lighter, CoreReady;
    ActiveUnsettled(cfg, s, n);
    ResumeShape(cfg, s, n);
    LighterTask(cfg, s, ResumeStep(cfg, s, n), n);
  }

  lemma {:induction false} WakeLighter(cfg: Config, s: State, n: NodeId)
    requires SchedInv(cfg, s) && Enabled(cfg, s, Wake(n))
    ensures Lighter(cfg, s, Request(s, n, s.tasks[n].attempts, s.tasks[n].last), n)
  {
    hide SemOk, TaskOk, Lighter, CoreReady, Request, MaxAttempts;
    var r := Request(s, n, s.tasks[n].attempts, s.tasks[n].last);
    ActiveUnsettled(cfg, s, n);
    RequestOthers(s, n, s.tasks[n].attempts, s.tasks[n].last);
    assert r.tasks.Keys == s.tasks.Keys;
    LighterTask(cfg, s, r, n);
  }

  lemma {:induction false} CancelledLighter(cfg: Config, s: State, n: NodeId)
    requires SchedInv(cfg, s) && n in s.tasks && n in s.core.active
    requires s.tasks[n].phase.Backoff? || s.tasks[n].phase.Rejected?
    ensures Lighter(cfg, s, SetTask(s, n, CancelledTask(cfg, s, n)), n)
  {
    hide SemOk, TaskOk, Lighter, CoreReady, MaxAttempts;
    var r := SetTask(s, n, CancelledTask(cfg, s, n));
    ActiveUnsettled(cfg, s, n);
    assert r.tasks.Keys == s.tasks.Keys;
    LighterTask(cfg, s, r, n);
  }

  lemma {:induction false} FinishedWeight(cfg: Config, s: State, n: NodeId, r: NodeResult)
    requires SchedInv(cfg, s) && EndedWith(s, n, r)
    ensures Weight(cfg, s)(n) >= 1
    ensures forall m | m in s.core.active :: m !in s.core.results
    ensures forall m :: Weight(cfg, s)(m) >= 0
    ensures s.tasks.Keys == s.core.active.Keys && n in s.tasks
  {
    hide SemOk, CoreReady;
    ActiveOrSettled(cfg, s, n);
    assert TaskOk(cfg, s.core.active[n], s.aborted, n, s.tasks[n]);
    forall m ensures Weight(cfg, s)(m) >= 0 {
      if m in s.tasks && m !in s.core.results {
        assert TaskOk(cfg, s.core.active[m], s.aborted, m, s.tasks[m]);
      }
    }
  }

  lemma {:induction false} SettledWeight(cfg: Config, s: State, n: NodeId)
    ensures n in s.core.results ==> Weight(cfg, s)(n) == 0
  {}

  lemma {:induction false} RelaunchedKeeps(s: State, n: NodeId, r: NodeResult, core: Core, m: NodeId)
    requires Relaunched(s, n, r, core)
    ensures m in s.core.results || m == n ==> m in core.results
    ensures m in Newly(core, |s.core.scheduled|) ==> m !in s.core.active && m !in s.core.results && m in core.active
  {
    hide Newly;
  }

  lemma {:induction false} RestartedAt(cfg: Config, s: State, n: NodeId, t: State, m: NodeId)
    requires Restarted(cfg, s, n, t)
    ensures m in t.tasks <==> (m in s.tasks && m != n) || m in Newly(t.core, |s.core.scheduled|)
    ensures m in s.tasks && m != n ==> t.tasks[m] == s.tasks[m]
    ensures m in Newly(t.core, |s.core.scheduled|) ==> JustStarted(cfg, t.core.active, m, t.tasks[m])
  {
    hide Newly, JustStarted;
    assert m in s.tasks - {n} <==> m in s.tasks && m != n;
  }

  lemma {:induction false} StartedWeight(cfg: Config, active: map<NodeId, Json>, n: NodeId, t: Task)
    requires JustStarted(cfg, active, n, t)
    ensures TaskWeight(MaxAttempts(cfg, n), t) <= 8 * MaxAttempts(cfg, n) + 4
  {}

  lemma {:induction false} CompleteWeight(cfg: Config, s: State, t: State, n: NodeId, r: NodeResult, m: NodeId)
    requires Relaunched(s, n, r, t.core) && Restarted(cfg, s, n, t)
    requires Weight(cfg, s)(m) >= 0
    requires m in s.core.active ==> m !in s.core.results
    requires s.tasks.Keys == s.core.active.Keys
    ensures Weight(cfg, t)(m) <= Weight(cfg, s)(m)
  {
    hide MaxAttempts, Newly, TaskWeight, JustStarted, Relaunched, Restarted;
    RelaunchedKeeps(s, n, r, t.core, m);
    RestartedAt(cfg, s, n, t, m);
    if m in Newly(t.core, |s.core.scheduled|) {
      StartedWeight(cfg, t.core.active, m, t.tasks[m]);
    }
  }

  lemma {:induction false} CompleteWeights(cfg: Config, s: State, t: State, n: NodeId, r: NodeResult)
    requires Relaunched(s, n, r, t.core) && Restarted(cfg, s, n, t)
    requires forall m :: Weight(cfg, s)(m) >= 0
    requires forall m | m in s.core.active :: m !in s.core.results
    requires Weight(cfg, s)(n) >= 1 && s.tasks.Keys == s.core.active.Keys && n in s.tasks
    ensures Lighter(cfg, s, t, n)
  {
    hide Weight, Restarted;
    forall m ensures Weight(cfg, t)(m) <= Weight(cfg, s)(m) {
      CompleteWeight(cfg, s, t, n, r, m);
    }
    SettledWeight(cfg, t, n);
  }

  lemma {:induction false} CompleteLighter(cfg: Config, s: State, n: NodeId, r: NodeResult)
    requires SchedInv(cfg, s) && EndedWith(s, n, r)
    ensures Lighter(cfg, s, CompleteStep(cfg, s, n, r), n)
  {
    hide SchedInv, EndedWith, Relaunched, Restarted, Partial, CompleteStep, Lighter;
    CompleteShape(cfg, s, n, r);
    FinishedWeight(cfg, s, n, r);
    CompleteWeights(cfg, s, CompleteStep(cfg, s, n, r), n, r);
  }

  lemma {:induction false} AbortLighter(cfg: Config, s: State)
    requires !s.aborted
    ensures Measure(cfg, AbortStep(s)) < Measure(cfg, s)
  {
    hide CancelFirst, MaxAttempts;
    var r := AbortStep(s);
    assert r.tasks.Keys == s.tasks.Keys;
    SumMonotone(cfg.plan.Order(), Weight(cfg, r), Weight(cfg, s));
  }

  lemma {:induction false} AbortedStays(cfg: Config, s: State, step: Step)
    requires Enabled(cfg, s, step)
    ensures Next(cfg, s, step).aborted == (s.aborted || step == Abort)
  {
    hide OnRelease, OnAcquire, Newly, Relaunch, MaxAttempts, AttemptLimit, CancelFirst;
  }

  lemma {:induction false} StepLighter(cfg: Config, s: State, step: Step, n: NodeId)
    requires SchedInv(cfg, s) && Enabled(cfg, s, step) && n in s.tasks && step != Abort
    requires Lighter(cfg, s, Next(cfg, s, step), n)
    ensures Measure(cfg, Next(cfg, s, step)) < Measure(cfg, s)
  {
    hide SchedInv, Measure, Lighter, Next;
    ActiveUnsettled(cfg, s, n);
    AbortedStays(cfg, s, step);
    LighterMeasure(cfg, s, Next(cfg, s, step), n);
  }

  // Every step makes the measure smaller.
  lemma {:induction false} StepDecreases(cfg: Config, s: State, step: Step)
    requires SchedInv(cfg, s) && Enabled(cfg, s, step)
    ensures Measure(cfg, Next(cfg, s, step)) < Measure(cfg, s)
  {
    hide SchedInv, CompleteStep, ClaimStep, ResumeStep, Request, AbortStep, CancelledTask, Lighter, Measure;
    match step
    case Abort => AbortLighter(cfg, s);
    case Claim(n) => ClaimLighter(cfg, s, n); StepLighter(cfg, s, step, n);
    case Decide(n, o) => DecideLighter(cfg, s, n, o); StepLighter(cfg, s, step, n);
    case Resume(n) => ResumeLighter(cfg, s, n); StepLighter(cfg, s, step, n);
    case Wake(n) => WakeLighter(cfg, s, n); StepLighter(cfg, s, step, n);
    case WakeCancelled(n) => CancelledLighter(cfg, s, n); StepLighter(cfg, s, step, n);
    case Reject(n) => CancelledLighter(cfg, s, n); StepLighter(cfg, s, step, n);
    case Complete(n) => CompleteLighter(cfg, s, n, s.tasks[n].phase.result); StepLighter(cfg, s, step, n);
  }

  lemma {:induction false} MeasureNonNegative(cfg: Config, s: State)
    requires SchedInv(cfg, s)
    ensures Measure(cfg, s) >= 0
  {
    hide SemOk, CoreReady, Accounts;
    forall m ensures Weight(cfg, s)(m) >= 0 {
      if m in s.tasks && m !in s.core.results {
        assert TaskOk(cfg, s.core.active[m], s.aborted, m, s.tasks[m]);
      }
    }
    var none: NodeId -> int := n => 0;
    SumMonotone(cfg.plan.Order(), none, Weight(cfg, s));
    SumZero(cfg.plan.Order(), none);
  }

  // No run is longer than the measure of the state it starts from.
  lemma {:induction false} RunBounded(cfg: Config, s: State, steps: seq<Step>)
    requires SchedInv(cfg, s) && Legal(cfg, s, steps)
    ensures |steps| + Measure(cfg, Exec(cfg, s, steps)) <= Measure(cfg, s)
    ensures |steps| <= Measure(cfg, s)
    decreases |steps|
  {
    hide SchedInv, Next, Enabled, Measure;
    if steps == [] {
      MeasureNonNegative(cfg, s);
    } else {
      NextInv(cfg, s, steps[0]);
      StepDecreases(cfg, s, steps[0]);
      RunBounded(cfg, Next(cfg, s, steps[0]), steps[1..]);
    }
  }
}
