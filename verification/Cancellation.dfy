/**
 What the abort signal guarantees from any reachable state on: no executor call begins,
 nothing that was not already decided succeeds, and every node launched later is skipped.
 */
module Cancellation {
  import opened Wrappers
  import opened Graphs
  import opened ReadyQueue
  import opened Readiness
  import opened Semaphores
  import opened Scheduler
  import opened SchedulerInvariant
  import opened SchedulerRuns
  import opened SchedulerSafety
  import opened LaunchEffects

  // ---- From the abort on ----------------------------------------------------------------

  // n has succeeded, or its attempt had already returned a valid output.
  ghost predicate Committed(s: State, n: NodeId) {
    || HasSucceeded(s.core.results, n)
    || (n in s.tasks && match s.tasks[n].phase
                        case Decided(_, Success(_)) => true
                        case Finished(r) => r.status == Succeeded
                        case _ => false)
  }

  ghost predicate AfterAbort(cfg: Config, s: State, r: State) {
    && r.aborted && r.calls == s.calls && ResultsKept(s, r) && r.tasks.Keys <= s.tasks.Keys
    && (forall n | Committed(r, n) :: Committed(s, n))
    && (forall n | n in r.core.results && n !in s.core.results && n !in s.tasks ::
          r.core.results[n] == SkippedResult(cfg.plan, n, true, []))
  }

  lemma {:induction false} AfterAbortTransitive(cfg: Config, s: State, r: State, t: State)
    requires AfterAbort(cfg, s, r) && AfterAbort(cfg, r, t)
    ensures AfterAbort(cfg, s, t)
  {
    hide Committed;
    forall n | n in t.core.results && n !in s.core.results && n !in s.tasks
      ensures t.core.results[n] == SkippedResult(cfg.plan, n, true, [])
    {
      if n in r.core.results {
        assert t.core.results[n] == r.core.results[n];
      }
    }
  }

  // A step inside n's task that commits nothing new.
  lemma {:induction false} TaskAfterAbort(cfg: Config, s: State, r: State, n: NodeId)
    requires s.aborted && r.aborted && r.core == s.core && r.calls == s.calls
    requires n in s.tasks && OthersWoken(s.tasks, r.tasks, n)
    requires Committed(r, n) ==> Committed(s, n)
    ensures AfterAbort(cfg, s, r)
  {
    forall m | Committed(r, m) ensures Committed(s, m) {
      if m != n && m in s.tasks {
        assert r.tasks[m] == s.tasks[m] || r.tasks[m].phase.Granted?;
      }
    }
  }

  lemma {:induction false} ClaimAfterAbort(cfg: Config, s: State, n: NodeId)
    requires SchedInv(cfg, s) && s.aborted && Enabled(cfg, s, Claim(n))
    ensures AfterAbort(cfg, s, ClaimStep(cfg, s, n))
  {
    hide SchedInv, OthersWoken, MaxAttempts, AttemptLimit, OnRelease, AfterAbort;
    var r := ClaimStep(cfg, s, n);
    ClaimShape(cfg, s, n);
    TaskAfterAbort(cfg, s, r, n);
  }

  lemma {:induction false} DecideAfterAbort(cfg: Config, s: State, n: NodeId, o: Outcome)
    requires SchedInv(cfg, s) && s.aborted && Enabled(cfg, s, Decide(n, o))
    ensures AfterAbort(cfg, s, Next(cfg, s, Decide(n, o)))
  {
    hide SchedInv, AfterAbort;
    var r := Next(cfg, s, Decide(n, o));
    assert r.tasks.Keys == s.tasks.Keys;
    TaskAfterAbort(cfg, s, r, n);
  }

  lemma {:induction false} ResumeAfterAbort(cfg: Config, s: State, n: NodeId)
    requires SchedInv(cfg, s) && s.aborted && Enabled(cfg, s, Resume(n))
    ensures AfterAbort(cfg, s, ResumeStep(cfg, s, n))
  {
    hide SchedInv, OthersWoken, MaxAttempts, OnRelease, OnAcquire, AfterAbort;
    var r := ResumeStep(cfg, s, n);
    ResumeShape(cfg, s, n);
    ActiveUnsettled(cfg, s, n);
    assert Committed(r, n) ==> Committed(s, n);
    TaskAfterAbort(cfg, s, r, n);
  }

  lemma {:induction false} RequestedPhase(s: State, n: NodeId, attempts: nat, last: Option<NodeFailure>)
    ensures var r := Request(s, n, attempts, last);
            !r.tasks[n].phase.Decided? && !r.tasks[n].phase.Finished?
  {}

  lemma {:induction false} WakeAfterAbort(cfg: Config, s: State, n: NodeId)
    requires SchedInv(cfg, s) && s.aborted && Enabled(cfg, s, Wake(n))
    ensures AfterAbort(cfg, s, Request(s, n, s.tasks[n].attempts, s.tasks[n].last))
  {
    hide SchedInv, Request, AfterAbort;
    var r := Request(s, n, s.tasks[n].attempts, s.tasks[n].last);
    RequestOthers(s, n, s.tasks[n].attempts, s.tasks[n].last);
    assert r.tasks.Keys == s.tasks.Keys;
    ActiveUnsettled(cfg, s, n);
    RequestedPhase(s, n, s.tasks[n].attempts, s.tasks[n].last);
    TaskAfterAbort(cfg, s, r, n);
  }

  lemma {:induction false} CancelledAfterAbort(cfg: Config, s: State, n: NodeId)
    requires SchedInv(cfg, s) && s.aborted && n in s.tasks && n in s.core.active
    ensures AfterAbort(cfg, s, SetTask(s, n, CancelledTask(cfg, s, n)))
  {
    hide SchedInv, AfterAbort;
    var r := SetTask(s, n, CancelledTask(cfg, s, n));
    assert r.tasks.Keys == s.tasks.Keys;
    TaskAfterAbort(cfg, s, r, n);
  }

  // Under the signal, completing a task only settles it and skips what became ready.
  lemma {:induction false} CompleteSkips(cfg: Config, s: State, n: NodeId, r: NodeResult)
    requires SchedInv(cfg, s) && s.aborted && EndedWith(s, n, r)
    ensures var t := CompleteStep(cfg, s, n, r);
            && t.core.active == s.core.active - {n}
            && (forall m | m in t.core.results && m !in s.core.results && m != n ::
                  t.core.results[m] == SkippedResult(cfg.plan, m, true, []))
  {
    hide SchedInv, CoreInv, Settle, LaunchTurns, Fits, Plan.Accepted;
    Delivers(cfg, s, n, r);
    InvParts(cfg, s);
    SettleActive(cfg.plan, s.core, n, r, true);
    SettleShape(cfg.plan, s.core, n, r);
    LaunchTurnsCancelled(cfg.plan, Settle(cfg.plan, s.core, n, r), |cfg.plan.Order()|);
  }

  lemma {:induction false} RelaunchedStatus(s: State, n: NodeId, r: NodeResult, core: Core, m: NodeId)
    requires Relaunched(s, n, r, core)
    ensures HasSucceeded(core.results, m) ==> HasSucceeded(s.core.results, m) || (m == n && r.status == Succeeded)
  {
    hide Newly;
  }

  lemma {:induction false} CompleteCommits(cfg: Config, s: State, n: NodeId, r: NodeResult, t: State, m: NodeId)
    requires SchedInv(cfg, s) && EndedWith(s, n, r) && Relaunched(s, n, r, t.core) && Restarted(cfg, s, n, t)
    ensures Committed(t, m) ==> Committed(s, m)
  {
    hide SchedInv, Relaunched, Restarted, Newly;
    RestartedAt(cfg, s, n, t, m);
    RelaunchedStatus(s, n, r, t.core, m);
  }

  lemma {:induction false} CompleteKeys(cfg: Config, s: State, n: NodeId, r: NodeResult, t: State)
    requires Relaunched(s, n, r, t.core) && Restarted(cfg, s, n, t)
    requires t.core.active == s.core.active - {n} && s.tasks.Keys == s.core.active.Keys
    ensures t.tasks.Keys <= s.tasks.Keys
  {
    hide Restarted, Relaunched, Newly;
    forall m | m in t.tasks ensures m in s.tasks {
      RestartedAt(cfg, s, n, t, m);
      RelaunchedKeeps(s, n, r, t.core, m);
    }
  }

  lemma {:induction false} CompleteAfterAbort(cfg: Config, s: State, n: NodeId, r: NodeResult)
    requires SchedInv(cfg, s) && s.aborted && EndedWith(s, n, r)
    ensures AfterAbort(cfg, s, CompleteStep(cfg, s, n, r))
  {
    hide SchedInv, CompleteStep, Relaunched, Restarted, Partial, CoreReady, Committed, Relaunch;
    var t := CompleteStep(cfg, s, n, r);
    CompleteShape(cfg, s, n, r);
    RestartedKeeps(cfg, s, n, t);
    RelaunchedResults(s, n, r, t.core);
    CompleteSkips(cfg, s, n, r);
    ActiveOrSettled(cfg, s, n);
    forall m ensures Committed(t, m) ==> Committed(s, m) {
      CompleteCommits(cfg, s, n, r, t, m);
    }
    CompleteKeys(cfg, s, n, r, t);
  }

  lemma {:induction false} NextAfterAbort(cfg: Config, s: State, step: Step)
    requires SchedInv(cfg, s) && s.aborted && Enabled(cfg, s, step)
    ensures AfterAbort(cfg, s, Next(cfg, s, step))
  {
    hide SchedInv, CompleteStep, ClaimStep, ResumeStep, Request, AbortStep, CancelledTask, AfterAbort;
    match step
    case Claim(n) => ClaimAfterAbort(cfg, s, n);
    case Decide(n, o) => DecideAfterAbort(cfg, s, n, o);
    case Resume(n) => ResumeAfterAbort(cfg, s, n);
    case Wake(n) => WakeAfterAbort(cfg, s, n);
    case WakeCancelled(n) => CancelledAfterAbort(cfg, s, n);
    case Reject(n) => CancelledAfterAbort(cfg, s, n);
    case Complete(n) => CompleteAfterAbort(cfg, s, n, s.tasks[n].phase.result);
    case Abort =>
  }

  lemma {:induction false} AfterAbortSame(cfg: Config, s: State)
    requires s.aborted
    ensures AfterAbort(cfg, s, s)
  {}

  lemma {:induction false} AfterAbortStays(cfg: Config, s: State, r: State)
    requires AfterAbort(cfg, s, r)
    ensures r.aborted
  {}

  // However a run goes on after the abort: no executor call begins, nothing becomes a success
  // that was not already returned, and nodes launched later are skipped with zero attempts.
  lemma {:induction false} CancellationSafety(cfg: Config, s: State, steps: seq<Step>)
    requires SchedInv(cfg, s) && s.aborted && Legal(cfg, s, steps)
    ensures AfterAbort(cfg, s, Exec(cfg, s, steps))
    decreases |steps|
  {
    hide SchedInv, Next, Enabled, AfterAbort;
    if steps == [] {
      AfterAbortSame(cfg, s);
    } else {
      var r := Next(cfg, s, steps[0]);
      NextInv(cfg, s, steps[0]);
      NextAfterAbort(cfg, s, steps[0]);
      AfterAbortStays(cfg, s, r);
      CancellationSafety(cfg, r, steps[1..]);
      AfterAbortTransitive(cfg, s, r, Exec(cfg, r, steps[1..]));
    }
  }

  // In particular an attempt still running at the abort does not become a success.
  lemma {:induction false} RunningNeverSucceeds(cfg: Config, s: State, steps: seq<Step>, n: NodeId)
    requires SchedInv(cfg, s) && s.aborted && Legal(cfg, s, steps)
    requires n in s.tasks && s.tasks[n].phase.Running?
    ensures !HasSucceeded(Exec(cfg, s, steps).core.results, n)
  {
    hide SchedInv, Next, Enabled;
    CancellationSafety(cfg, s, steps);
    ActiveUnsettled(cfg, s, n);
    assert !Committed(s, n);
  }
}
