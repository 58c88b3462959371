/**
 The scheduler's machine runs the retry loop: in every run each launched node that has settled
 has the result of `executeNode` on exactly the answers the run gave it: slots, signal, run
 budget, outcomes and backoffs. With what decides whether a node is launched at all, this
 accounts for every result of every run.
 */
module RunScripts {
  import opened Wrappers
  import opened Json
  import opened Graphs
  import opened ReadyQueue
  import opened Readiness
  import opened RunGuarantees
  import opened Semaphores
  import opened Scheduler
  import opened SchedulerInvariant
  import opened SchedulerRuns
  import opened SlotLinks
  import opened Explanations
  import opened NodeRuns
  import LaunchEffects

  // ---- What a run tells its nodes ------------------------------------------------------------

  type Log = NodeId -> Answers

  function Put<T>(f: nat -> T, k: nat, v: T): nat -> T {
    (j: nat) => if j == k then v else f(j)
  }

  function Silence(): Answers {
    Answers(k => false, k => false, k => false, k => Failure(NodeExecutionFailed), k => false)
  }

  ghost function ToldOne(cfg: Config, s: State, step: Step, n: NodeId, o: Answers): Answers
    requires Enabled(cfg, s, step)
  {
    match step
    case Claim(m) =>
      if m != n then o
      else
        var k := s.tasks[m].attempts + 1;
        Answers(Put(o.granted, k, true), Put(o.aborted, k, s.aborted), Put(o.budget, k, s.total < AttemptLimit(cfg)),
                o.outcome, o.rested)
    case Decide(m, outcome) => if m != n then o else o.(outcome := Put(o.outcome, s.tasks[m].attempts, outcome))
    case Wake(m) => if m != n then o else o.(rested := Put(o.rested, s.tasks[m].attempts, true))
    case WakeCancelled(m) => if m != n then o else o.(rested := Put(o.rested, s.tasks[m].attempts, false))
    case Reject(m) => if m != n then o else o.(granted := Put(o.granted, s.tasks[m].attempts + 1, false))
    case _ => o
  }

  ghost function Told(cfg: Config, s: State, step: Step, log: Log): Log
    requires Enabled(cfg, s, step)
  {
    n => ToldOne(cfg, s, step, n, log(n))
  }

  // The answers after a run that went on from s.
  ghost function AnswersAfter(cfg: Config, s: State, steps: seq<Step>, log: Log): Log
    requires Legal(cfg, s, steps)
    decreases |steps|
  {
    if steps == [] then log
    else AnswersAfter(cfg, Next(cfg, s, steps[0]), steps[1..], Told(cfg, s, steps[0], log))
  }

  // ---- Turns that lie behind a task ------------------------------------------------------------

  ghost predicate Claimed(o: Answers, k: nat) {
    o.granted(k) && o.budget(k)
  }

  ghost function OutcomeAt(o: Answers, k: nat): Outcome {
    if o.aborted(k) then Failure(NodeCancelled) else o.outcome(k)
  }

  // Turn k ended in a failure after which the loop went on.
  ghost predicate Passed(cfg: Config, n: NodeId, o: Answers, k: nat) {
    && Claimed(o, k) && OutcomeAt(o, k).Failure?
    && (MayRetry(cfg, n, k, OutcomeAt(o, k).code) ==> o.rested(k))
  }

  ghost predicate Past(cfg: Config, n: NodeId, o: Answers, a: nat) {
    forall k: nat | 1 <= k <= a :: Passed(cfg, n, o, k)
  }

  ghost function LastAt(cfg: Config, n: NodeId, o: Answers, a: nat): Option<NodeFailure> {
    if a == 0 || OutcomeAt(o, a).Success? then None
    else Some(FailureOf(n, OutcomeAt(o, a).code, a, MayRetry(cfg, n, a, OutcomeAt(o, a).code)))
  }

  // The loop then continues from there.
  lemma {:induction false} TurnsPast(cfg: Config, n: NodeId, input: Json, o: Answers, a: nat)
    requires Past(cfg, n, o, a) && a <= MaxAttempts(cfg, n)
    ensures TypeScriptFrom(cfg, n, input, o, 0, None)
         == TypeScriptFrom(cfg, n, input, o, a, LastAt(cfg, n, o, a))
  {
    hide MaxAttempts;
    if a == 0 {
    } else {
      TurnsPast(cfg, n, input, o, a - 1);
      assert Passed(cfg, n, o, a);
    }
  }

  // Only the answers up to a turn matter for what lies behind it.
  lemma {:induction false} PastSame(cfg: Config, n: NodeId, o: Answers, p: Answers, a: nat)
    requires forall k: nat | k <= a ::
      o.granted(k) == p.granted(k) && o.aborted(k) == p.aborted(k) && o.budget(k) == p.budget(k)
      && o.outcome(k) == p.outcome(k) && o.rested(k) == p.rested(k)
    ensures Past(cfg, n, o, a) ==> Past(cfg, n, p, a)
    ensures LastAt(cfg, n, p, a) == LastAt(cfg, n, o, a)
  {
    hide MaxAttempts, MayRetry;
    if Past(cfg, n, o, a) {
      forall k: nat | 1 <= k <= a ensures Passed(cfg, n, p, k) {
        assert Passed(cfg, n, o, k);
      }
    }
  }

  // ---- Where a task stands in its script --------------------------------------------------------

  // No slot was granted after turn a.
  ghost predicate Quiet(o: Answers, a: nat) {
    forall k: nat | k > a :: !o.granted(k)
  }

  ghost predicate Signalled(o: Answers, aborted: bool) {
    forall k: nat | o.aborted(k) || o.outcome(k) == Failure(NodeCancelled) :: aborted
  }

  // Turn a, if any, did not end by the signal.
  ghost predicate Unsignalled(o: Answers, a: nat) {
    !o.aborted(a) && o.outcome(a) != Failure(NodeCancelled)
  }

  ghost predicate OnScript(cfg: Config, n: NodeId, input: Json, t: Task, o: Answers) {
    var a := t.attempts;
    if t.phase.Finished? then t.phase.result == NodeEnd(cfg, n, input, o)
    else
      && HasExecutor(cfg, n) && Quiet(o, a)
      && match t.phase
         case Running(_) =>
           a >= 1 && Past(cfg, n, o, a - 1) && t.last == LastAt(cfg, n, o, a - 1) && Claimed(o, a) && !o.aborted(a)
         case Decided(_, outcome) =>
           && a >= 1 && Past(cfg, n, o, a - 1) && t.last == LastAt(cfg, n, o, a - 1) && Claimed(o, a)
           && outcome == OutcomeAt(o, a)
         case Backoff =>
           && a >= 1 && Past(cfg, n, o, a - 1) && t.last == LastAt(cfg, n, o, a) && Claimed(o, a)
           && OutcomeAt(o, a).Failure? && MayRetry(cfg, n, a, OutcomeAt(o, a).code)
         case Rejected => Past(cfg, n, o, a) && t.last == LastAt(cfg, n, o, a)
         case _ => Past(cfg, n, o, a) && t.last == LastAt(cfg, n, o, a) && Unsignalled(o, a)
  }

  ghost predicate Scripted(cfg: Config, s: State, n: NodeId, o: Answers) {
    && SignalStays(o) && Signalled(o, s.aborted)
    && (n in s.tasks && n in s.core.active ==> OnScript(cfg, n, s.core.active[n], s.tasks[n], o))
    && (n !in s.tasks && n !in s.core.results ==> o == Silence())
  }

  // ---- Steps of the node itself ------------------------------------------------------------------

  lemma {:induction false} ClaimableTask(cfg: Config, s: State, n: NodeId)
    requires SchedInv(cfg, s) && n in s.tasks
    requires s.tasks[n].phase.Granted? || s.tasks[n].phase.Rejected? || s.tasks[n].phase.Waiting?
             || s.tasks[n].phase.Backoff?
    ensures s.tasks[n].attempts < MaxAttempts(cfg, n)
  {
    hide SemOk, CoreReady, Accounts, MaxAttempts;
    assert TaskOk(cfg, s.core.active[n], s.aborted, n, s.tasks[n]);
  }

  lemma {:induction false} ClaimScripted(cfg: Config, s: State, n: NodeId, o: Answers)
    requires SchedInv(cfg, s) && Enabled(cfg, s, Claim(n)) && Scripted(cfg, s, n, o)
    ensures Scripted(cfg, ClaimStep(cfg, s, n), n, ToldOne(cfg, s, Claim(n), n, o))
  {
    hide SchedInv, MaxAttempts, AttemptLimit, HasExecutor, Past, OnRelease, Awaken;
    var t, input, p := s.tasks[n], s.core.active[n], ToldOne(cfg, s, Claim(n), n, o);
    var a := t.attempts;
    ClaimableTask(cfg, s, n);
    PastSame(cfg, n, o, p, a);
    TurnsPast(cfg, n, input, p, a);
  }

  lemma {:induction false} DecideScripted(cfg: Config, s: State, n: NodeId, o: Answers, outcome: Outcome)
    requires SchedInv(cfg, s) && Enabled(cfg, s, Decide(n, outcome)) && Scripted(cfg, s, n, o)
    ensures Scripted(cfg, Next(cfg, s, Decide(n, outcome)), n, ToldOne(cfg, s, Decide(n, outcome), n, o))
  {
    hide SchedInv, MaxAttempts, HasExecutor, Past, LastAt;
    var p := ToldOne(cfg, s, Decide(n, outcome), n, o);
    ActiveUnsettled(cfg, s, n);
    ActiveOrSettled(cfg, s, n);
    PastSame(cfg, n, o, p, s.tasks[n].attempts - 1);
  }

  lemma {:induction false} RequestCancelled(s: State, n: NodeId, attempts: nat, last: Option<NodeFailure>)
    requires s.aborted
    ensures var r := Request(s, n, attempts, last);
            && r.core == s.core && r.aborted && n in r.tasks && r.tasks[n] == Task(Phase.Rejected, attempts, last)
  {}

  lemma {:induction false} ResumableTask(cfg: Config, s: State, n: NodeId)
    requires SchedInv(cfg, s) && n in s.tasks && s.tasks[n].phase.Decided?
    ensures 1 <= s.tasks[n].attempts <= MaxAttempts(cfg, n)
  {
    hide SemOk, CoreReady, Accounts, MaxAttempts;
    assert TaskOk(cfg, s.core.active[n], s.aborted, n, s.tasks[n]);
  }

  lemma {:induction false} PastOne(cfg: Config, n: NodeId, o: Answers, a: nat)
    requires a >= 1 && Past(cfg, n, o, a - 1)
    ensures Past(cfg, n, o, a) <==> Passed(cfg, n, o, a)
  {
    hide MaxAttempts, MayRetry;
  }

  lemma {:induction false} ResumeScripted(cfg: Config, s: State, n: NodeId, o: Answers)
    requires SchedInv(cfg, s) && Enabled(cfg, s, Resume(n)) && Scripted(cfg, s, n, o)
    ensures Scripted(cfg, ResumeStep(cfg, s, n), n, o)
  {
    hide SchedInv, MaxAttempts, HasExecutor, Past, OnRelease, Awaken, Request;
    var t, input := s.tasks[n], s.core.active[n];
    var a := t.attempts;
    ResumableTask(cfg, s, n);
    TurnsPast(cfg, n, input, o, a - 1);
    PastOne(cfg, n, o, a);
    if t.phase.outcome.Failure? {
      var code := t.phase.outcome.code;
      if a >= MaxAttempts(cfg, n) {
        TurnsPast(cfg, n, input, o, a);
      } else if code == NodeCancelled {
        var failure := FailureOf(n, code, a, false);
        RequestCancelled(ReleaseTo(s, n, t.phase.slot, Task(Backoff, a, Some(failure))), n, a, Some(failure));
      }
    }
  }

  lemma {:induction false} WakeScripted(cfg: Config, s: State, n: NodeId, o: Answers)
    requires SchedInv(cfg, s) && Enabled(cfg, s, Wake(n)) && Scripted(cfg, s, n, o)
    ensures Scripted(cfg, Next(cfg, s, Wake(n)), n, ToldOne(cfg, s, Wake(n), n, o))
  {
    hide SchedInv, MaxAttempts, HasExecutor, Past, OnAcquire;
    var a, p := s.tasks[n].attempts, ToldOne(cfg, s, Wake(n), n, o);
    ActiveUnsettled(cfg, s, n);
    ActiveOrSettled(cfg, s, n);
    PastSame(cfg, n, o, p, a - 1);
    PastOne(cfg, n, p, a);
  }

  lemma {:induction false} WakeCancelledScripted(cfg: Config, s: State, n: NodeId, o: Answers)
    requires SchedInv(cfg, s) && Enabled(cfg, s, WakeCancelled(n)) && Scripted(cfg, s, n, o)
    ensures Scripted(cfg, Next(cfg, s, WakeCancelled(n)), n, ToldOne(cfg, s, WakeCancelled(n), n, o))
  {
    hide SchedInv, MaxAttempts, HasExecutor, Past;
    var a, p := s.tasks[n].attempts, ToldOne(cfg, s, WakeCancelled(n), n, o);
    ClaimableTask(cfg, s, n);
    PastSame(cfg, n, o, p, a - 1);
    TurnsPast(cfg, n, s.core.active[n], p, a - 1);
  }

  lemma {:induction false} RejectScripted(cfg: Config, s: State, n: NodeId, o: Answers)
    requires SchedInv(cfg, s) && Enabled(cfg, s, Reject(n)) && Scripted(cfg, s, n, o)
    ensures Scripted(cfg, Next(cfg, s, Reject(n)), n, ToldOne(cfg, s, Reject(n), n, o))
  {
    hide SchedInv, MaxAttempts, HasExecutor, Past;
    var a, p := s.tasks[n].attempts, ToldOne(cfg, s, Reject(n), n, o);
    ClaimableTask(cfg, s, n);
    PastSame(cfg, n, o, p, a);
    TurnsPast(cfg, n, s.core.active[n], p, a);
  }

  // ---- Steps of other nodes, the abort and completion ------------------------------------------------

  // Another node's step at most grants the node the slot it waits for.
  lemma {:induction false} OtherScripted(cfg: Config, s: State, r: State, m: NodeId, n: NodeId, o: Answers)
    requires Scripted(cfg, s, n, o) && m != n && m in s.tasks && OthersWoken(s.tasks, r.tasks, m)
    requires r.core == s.core && r.aborted == s.aborted
    ensures Scripted(cfg, r, n, o)
  {
    hide MaxAttempts, HasExecutor, Past, LastAt;
  }

  lemma {:induction false} AbortScripted(cfg: Config, s: State, n: NodeId, o: Answers)
    requires Scripted(cfg, s, n, o) && !s.aborted
    ensures Scripted(cfg, AbortStep(s), n, o)
  {
    hide MaxAttempts, HasExecutor, Past, LastAt, CancelFirst;
  }

  lemma {:induction false} CompletedActive(cfg: Config, s: State, m: NodeId, r: NodeResult, core: Core, n: NodeId)
    requires Relaunched(s, m, r, core)
    ensures n in s.core.active && n != m ==> n in core.active && core.active[n] == s.core.active[n]
    ensures n in s.core.results ==> n in core.results
  {
    hide Newly;
  }

  // A node that was just started has its whole script before it.
  lemma {:induction false} StartScripted(cfg: Config, active: map<NodeId, Json>, n: NodeId, t: Task)
    requires JustStarted(cfg, active, n, t)
    ensures OnScript(cfg, n, active[n], t, Silence())
  {
    hide HasExecutor, MaxAttempts;
  }

  lemma {:induction false} CompleteScripted(cfg: Config, s: State, m: NodeId, r: NodeResult, n: NodeId, o: Answers)
    requires SchedInv(cfg, s) && EndedWith(s, m, r) && Scripted(cfg, s, n, o)
    ensures Scripted(cfg, CompleteStep(cfg, s, m, r), n, o)
  {
    hide SchedInv, MaxAttempts, HasExecutor, OnScript, CompleteStep, Relaunched, Restarted, Partial, CoreReady, Newly,
         JustStarted;
    var t := CompleteStep(cfg, s, m, r);
    CompleteShape(cfg, s, m, r);
    RestartedKeeps(cfg, s, m, t);
    RestartedAt(cfg, s, m, t, n);
    RelaunchedKeeps(s, m, r, t.core, n);
    ActiveOrSettled(cfg, s, m);
    CompletedActive(cfg, s, m, r, t.core, n);
    if n in Newly(t.core, |s.core.scheduled|) {
      StartScripted(cfg, t.core.active, n, t.tasks[n]);
    }
  }

  lemma {:induction false} InitScripted(cfg: Config, aborted: bool, n: NodeId)
    requires cfg.plan.Accepted()
    ensures Scripted(cfg, Init(cfg, aborted), n, Silence())
  {
    hide Init, SchedInv, OnScript, JustStarted, CoreInv;
    var s := Init(cfg, aborted);
    InitInv(cfg, aborted);
    if n in s.tasks {
      StartScripted(cfg, s.core.active, n, s.tasks[n]);
    }
  }

  // ---- Every step ----------------------------------------------------------------------------------

  lemma {:induction false} OwnScripted(cfg: Config, s: State, step: Step, n: NodeId, o: Answers)
    requires SchedInv(cfg, s) && Enabled(cfg, s, step) && Scripted(cfg, s, n, o)
    requires step != Abort && step.n == n && !step.Complete?
    ensures Scripted(cfg, Next(cfg, s, step), n, ToldOne(cfg, s, step, n, o))
  {
    hide SchedInv, Scripted, ClaimStep, ResumeStep, Request, CancelledTask;
    match step
    case Claim(_) => ClaimScripted(cfg, s, n, o);
    case Decide(_, outcome) => DecideScripted(cfg, s, n, o, outcome);
    case Resume(_) => ResumeScripted(cfg, s, n, o);
    case Wake(_) => WakeScripted(cfg, s, n, o);
    case WakeCancelled(_) => WakeCancelledScripted(cfg, s, n, o);
    case Reject(_) => RejectScripted(cfg, s, n, o);
    case _ =>
  }

  lemma {:induction false} KeptOthers(before: map<NodeId, Task>, after: map<NodeId, Task>, n: NodeId)
    requires n in before && after.Keys == before.Keys + {n} && forall m | m in before && m != n :: after[m] == before[m]
    ensures OthersWoken(before, after, n)
  {}

  lemma {:induction false} OthersStep(cfg: Config, s: State, step: Step)
    requires SchedInv(cfg, s) && Enabled(cfg, s, step) && step != Abort && !step.Complete?
    ensures step.n in s.tasks && OthersWoken(s.tasks, Next(cfg, s, step).tasks, step.n)
    ensures Next(cfg, s, step).core == s.core && Next(cfg, s, step).aborted == s.aborted
  {
    hide SchedInv, ClaimStep, ResumeStep, Request, CancelledTask, OthersWoken, MaxAttempts;
    match step
    case Claim(n) => ClaimShape(cfg, s, n);
    case Resume(n) => ResumeShape(cfg, s, n);
    case Wake(n) =>
      RequestOthers(s, n, s.tasks[n].attempts, s.tasks[n].last);
      KeptOthers(s.tasks, Next(cfg, s, step).tasks, n);
    case Decide(n, _) => KeptOthers(s.tasks, Next(cfg, s, step).tasks, n);
    case WakeCancelled(n) => KeptOthers(s.tasks, Next(cfg, s, step).tasks, n);
    case Reject(n) => KeptOthers(s.tasks, Next(cfg, s, step).tasks, n);
  }

  lemma {:induction false} StepScripted(cfg: Config, s: State, step: Step, n: NodeId, o: Answers)
    requires SchedInv(cfg, s) && Enabled(cfg, s, step) && Scripted(cfg, s, n, o)
    ensures Scripted(cfg, Next(cfg, s, step), n, ToldOne(cfg, s, step, n, o))
  {
    hide SchedInv, Scripted, OthersWoken, CompleteStep, ClaimStep, ResumeStep, Request, AbortStep, CancelledTask;
    if step == Abort {
      AbortScripted(cfg, s, n, o);
    } else if step.Complete? {
      CompleteScripted(cfg, s, step.n, s.tasks[step.n].phase.result, n, o);
    } else if step.n == n {
      OwnScripted(cfg, s, step, n, o);
    } else {
      OthersStep(cfg, s, step);
      OtherScripted(cfg, s, Next(cfg, s, step), step.n, n, o);
    }
  }

  // ---- Results -------------------------------------------------------------------------------------

  // Launched nodes end as the retry loop does on the answers of the log.
  ghost function LoopEnds(cfg: Config, log: Log): Ends {
    (n, input, r) => r == NodeEnd(cfg, n, input, log(n))
  }

  ghost predicate RunScripted(cfg: Config, s: State, log: Log) {
    && (forall n :: Scripted(cfg, s, n, log(n)))
    && AllAccounted(cfg.plan, s.core.results, LoopEnds(cfg, log), s.aborted)
  }

  // Answers to unsettled nodes do not touch the account of the settled ones.
  lemma {:induction false} SameAccount(plan: Plan, results: map<NodeId, NodeResult>, a: Ends, b: Ends, cancelled: bool)
    requires AllAccounted(plan, results, a, cancelled)
    requires forall n, input | n in results && a(n, input, results[n]) :: b(n, input, results[n])
    ensures AllAccounted(plan, results, b, cancelled)
  {
    hide LaunchOf, UpstreamSettled;
    forall n | n in results ensures Accounted(plan, results, b, cancelled, n) {
      assert Accounted(plan, results, a, cancelled, n);
    }
  }

  // A step tells no settled node anything.
  lemma {:induction false} SettledUntold(cfg: Config, s: State, step: Step, n: NodeId, o: Answers)
    requires SchedInv(cfg, s) && Enabled(cfg, s, step) && n in Next(cfg, s, step).core.results
    ensures ToldOne(cfg, s, step, n, o) == o
  {
    hide SchedInv, CompleteStep, OthersWoken, ClaimStep, ResumeStep, Request, AbortStep, CancelledTask;
    if step != Abort && !step.Complete? {
      OthersStep(cfg, s, step);
      ActiveUnsettled(cfg, s, step.n);
    }
  }

  // Completing a task settles it with the end of its loop and launches what became ready.
  lemma {:induction false} CompleteAccounted(cfg: Config, s: State, n: NodeId, r: NodeResult, log: Log)
    requires SchedInv(cfg, s) && EndedWith(s, n, r) && RunScripted(cfg, s, log) && n in s.core.active
    ensures AllAccounted(cfg.plan, CompleteStep(cfg, s, n, r).core.results, LoopEnds(cfg, log), s.aborted)
  {
    hide SchedInv, CoreInv, Plan.Accepted, AllAccounted, NodeEnd, Settle, LaunchAll, Fits;
    InvParts(cfg, s);
    Delivers(cfg, s, n, r);
    assert Scripted(cfg, s, n, log(n));
    SettleActive(cfg.plan, s.core, n, r, s.aborted);
    LaunchEffects.SettleShape(cfg.plan, s.core, n, r);
    TaskAccounted(cfg.plan, s.core, LoopEnds(cfg, log), s.aborted, n, r);
    LaunchAccounted(cfg.plan, Settle(cfg.plan, s.core, n, r), LoopEnds(cfg, log), s.aborted);
  }

  lemma {:induction false} StepAccounted(cfg: Config, s: State, step: Step, log: Log)
    requires SchedInv(cfg, s) && Enabled(cfg, s, step) && RunScripted(cfg, s, log)
    ensures AllAccounted(cfg.plan, Next(cfg, s, step).core.results, LoopEnds(cfg, Told(cfg, s, step, log)),
              Next(cfg, s, step).aborted)
  {
    hide SchedInv, Scripted, CompleteStep, AllAccounted, NodeEnd, OthersWoken, ClaimStep, ResumeStep, Request;
    var r, later := Next(cfg, s, step), Told(cfg, s, step, log);
    if step == Abort {
      AccountedLater(cfg.plan, s.core.results, LoopEnds(cfg, log), s.aborted, true);
    } else if step.Complete? {
      CompleteAccounted(cfg, s, step.n, s.tasks[step.n].phase.result, log);
    } else {
      OthersStep(cfg, s, step);
    }
    AbortedStays(cfg, s, step);
    forall n | n in r.core.results ensures later(n) == log(n) {
      SettledUntold(cfg, s, step, n, log(n));
    }
    SameAccount(cfg.plan, r.core.results, LoopEnds(cfg, log), LoopEnds(cfg, later), r.aborted);
  }

  lemma {:induction false} NextScripted(cfg: Config, s: State, step: Step, log: Log)
    requires SchedInv(cfg, s) && Enabled(cfg, s, step) && RunScripted(cfg, s, log)
    ensures RunScripted(cfg, Next(cfg, s, step), Told(cfg, s, step, log))
  {
    hide SchedInv, Scripted, Next, AllAccounted, ToldOne;
    forall n ensures Scripted(cfg, Next(cfg, s, step), n, Told(cfg, s, step, log)(n)) {
      StepScripted(cfg, s, step, n, log(n));
    }
    StepAccounted(cfg, s, step, log);
  }

  lemma {:induction false} RunKeepsScripts(cfg: Config, s: State, steps: seq<Step>, log: Log)
    requires SchedInv(cfg, s) && Legal(cfg, s, steps) && RunScripted(cfg, s, log)
    ensures RunScripted(cfg, Exec(cfg, s, steps), AnswersAfter(cfg, s, steps, log))
    decreases |steps|
  {
    hide SchedInv, Next, Enabled, RunScripted, Told;
    if steps == [] {
    } else {
      NextInv(cfg, s, steps[0]);
      NextScripted(cfg, s, steps[0], log);
      RunKeepsScripts(cfg, Next(cfg, s, steps[0]), steps[1..], Told(cfg, s, steps[0], log));
    }
  }

  lemma {:induction false} NothingAccounted(plan: Plan, ends: Ends, cancelled: bool)
    ensures AllAccounted(plan, Initial(plan).results, ends, cancelled)
  {}

  lemma {:induction false} InitAccounted(cfg: Config, aborted: bool, ends: Ends)
    requires cfg.plan.Accepted()
    ensures AllAccounted(cfg.plan, Init(cfg, aborted).core.results, ends, aborted)
  {
    hide CoreInv, Plan.Accepted, LaunchAll, Newly;
    InitialInv(cfg.plan, aborted);
    NothingAccounted(cfg.plan, ends, aborted);
    LaunchAccounted(cfg.plan, Initial(cfg.plan), ends, aborted);
  }

  // The answers a run gave its nodes.
  ghost function RunLog(cfg: Config, aborted: bool, steps: seq<Step>): Log
    requires Legal(cfg, Init(cfg, aborted), steps)
  {
    AnswersAfter(cfg, Init(cfg, aborted), steps, n => Silence())
  }

  // In every state of every run each result is accounted for: under the signal the node may have
  // been skipped as cancelled; else it was skipped below unsuccessful predecessors, failed to bind
  // its input, or was launched on the bound input and ended as its retry loop does on the answers
  // the run gave it, which fall silent once the signal fired.
  lemma {:induction false} EveryResultAccounted(cfg: Config, aborted: bool, steps: seq<Step>)
    requires cfg.plan.Accepted() && Legal(cfg, Init(cfg, aborted), steps)
    ensures var s, log := Exec(cfg, Init(cfg, aborted), steps), RunLog(cfg, aborted, steps);
            && AllAccounted(cfg.plan, s.core.results, LoopEnds(cfg, log), s.aborted)
            && forall n :: SignalStays(log(n))
  {
    hide SchedInv, Init, AllAccounted, LoopEnds, OnScript;
    InitInv(cfg, aborted);
    var silence: Log := n => Silence();
    forall n ensures Scripted(cfg, Init(cfg, aborted), n, silence(n)) {
      InitScripted(cfg, aborted, n);
    }
    InitAccounted(cfg, aborted, LoopEnds(cfg, silence));
    RunKeepsScripts(cfg, Init(cfg, aborted), steps, silence);
    var s, log := Exec(cfg, Init(cfg, aborted), steps), RunLog(cfg, aborted, steps);
    forall n ensures SignalStays(log(n)) {
      assert Scripted(cfg, s, n, log(n));
    }
  }

  lemma {:induction false} LaunchedEnds(cfg: Config, results: map<NodeId, NodeResult>, log: Log, n: NodeId)
    requires n in results && AllAccounted(cfg.plan, results, LoopEnds(cfg, log), false)
    requires forall p | Arc(cfg.plan.g.edges, p, n) :: HasSucceeded(results, p)
    ensures match BindInput(cfg.plan, results, n)
            case None => results[n] == UnboundResult(cfg.plan, n)
            case Some(input) => results[n] == NodeEnd(cfg, n, input, log(n))
  {
    hide NodeEnd, BindInput, FailedUpstream, UpstreamSettled;
    FailedUpstreamMembers(cfg.plan.g, results, n);
    assert Accounted(cfg.plan, results, LoopEnds(cfg, log), false, n);
  }

  // While a run is not cancelled, a settled node is skipped iff some proper ancestor failed, and
  // then lists exactly its direct predecessors that did not succeed. Every other settled node had
  // all of them succeed, and failed to bind its input or ended as its retry loop does on it.
  lemma {:induction false} EveryRunContainsFailures(cfg: Config, steps: seq<Step>, n: NodeId)
    requires cfg.plan.Accepted() && Legal(cfg, Init(cfg, false), steps)
    ensures var s, o := Exec(cfg, Init(cfg, false), steps), RunLog(cfg, false, steps)(n);
            !s.aborted && n in s.core.results ==>
              var r := s.core.results[n];
              && (r.status == Skipped <==> exists a :: FailedAncestor(cfg.plan, s.core.results, a, n))
              && (r.status == Skipped ==>
                    && r.attempts == 0 && r.failure.Some? && r.failure.value.code == UpstreamFailed
                    && forall p :: p in r.failure.value.upstream <==>
                                     Arc(cfg.plan.g.edges, p, n) && !HasSucceeded(s.core.results, p))
              && (r.status != Skipped ==>
                    && (forall p | Arc(cfg.plan.g.edges, p, n) :: HasSucceeded(s.core.results, p))
                    && match BindInput(cfg.plan, s.core.results, n)
                       case None => r == UnboundResult(cfg.plan, n)
                       case Some(input) => r == NodeEnd(cfg, n, input, o))
  {
    hide SchedInv, Init, CoreInv, Plan.Accepted, FailedAncestor, RunLog, NodeEnd, AllAccounted, LoopEnds, BindInput,
         SignalStays, UnboundResult, Arc, Legal, Exec, HasSucceeded;
    InitInv(cfg, false);
    RunKeeps(cfg, Init(cfg, false), steps);
    EveryResultAccounted(cfg, false, steps);
    var s, log := Exec(cfg, Init(cfg, false), steps), RunLog(cfg, false, steps);
    if !s.aborted && n in s.core.results {
      InvParts(cfg, s);
      FailureContainment(cfg.plan, s.core, n);
      if s.core.results[n].status != Skipped {
        LaunchedEnds(cfg, s.core.results, log, n);
      }
    }
  }

  // ---- Grants that come too late ----------------------------------------------------------------------

  lemma {:induction false} StartedTask(cfg: Config, s: State, n: NodeId)
    requires SchedInv(cfg, s) && Opening(cfg, s) && n in s.tasks && !s.aborted
    ensures n in s.core.active && s.tasks[n].attempts == 0 && SlotOf(s.tasks[n]).Some? == s.tasks[n].phase.Granted?
    ensures HasExecutor(cfg, n) ==> s.tasks[n].phase.Waiting? || s.tasks[n].phase.Granted?
  {
    hide CoreReady, SemOk, Accounts, HasExecutor;
    assert JustStarted(cfg, s.core.active, n, s.tasks[n]);
    assert TaskOk(cfg, s.core.active[n], s.aborted, n, s.tasks[n]);
  }

  lemma {:induction false} SlotHolder(cfg: Config, s: State, n: NodeId) returns (m: NodeId)
    requires SchedInv(cfg, s) && n in s.tasks && s.tasks[n].phase.Waiting?
    ensures m in s.tasks && SlotOf(s.tasks[m]).Some?
  {
    hide CoreReady, TasksOk, Accounts, SemInv, Links;
    m := SomeHolder(s.sem, s.tasks, n);
  }

  // At the start of a run that launches a node with an executor, some node holds a slot.
  lemma {:induction false} SomeGranted(cfg: Config, n: NodeId) returns (m: NodeId)
    requires cfg.plan.Accepted() && n in Init(cfg, false).tasks && HasExecutor(cfg, n)
    ensures Enabled(cfg, Init(cfg, false), Claim(m)) && Init(cfg, false).tasks[m].attempts == 0
  {
    hide Init, SchedInv, Opening, HasExecutor, AttemptsAt;
    var s := Init(cfg, false);
    InitInv(cfg, false);
    m := n;
    if s.tasks[n].phase.Waiting? {
      m := SlotHolder(cfg, s, n);
    }
    StartedTask(cfg, s, n);
    StartedTask(cfg, s, m);
  }

  lemma {:induction false} AbortThenClaim(cfg: Config, s: State, m: NodeId, log: Log)
    requires Enabled(cfg, s, Claim(m)) && !s.aborted && s.tasks[m].attempts == 0 && s.total == 0
    ensures Legal(cfg, s, [Abort, Claim(m)])
    ensures var o := AnswersAfter(cfg, s, [Abort, Claim(m)], log)(m);
            o.granted(1) && o.aborted(1) && o.budget(1) && LateGrant(cfg, m, o, 0, 1)
  {
    hide CancelFirst, ClaimStep, AttemptLimit, MaxAttempts, Retried;
    var t := AbortStep(s);
    assert t == Next(cfg, s, Abort) && Enabled(cfg, t, Claim(m)) && t.tasks[m].attempts == 0 && t.total == 0;
    var later := Told(cfg, s, Abort, log);
    assert [Abort, Claim(m)][1..] == [Claim(m)] && [Claim(m)][1..] == [];
    assert Legal(cfg, Next(cfg, t, Claim(m)), []);
    assert Legal(cfg, t, [Claim(m)]);
    assert AnswersAfter(cfg, t, [Claim(m)], later)
        == AnswersAfter(cfg, Next(cfg, t, Claim(m)), [], Told(cfg, t, Claim(m), later));
    assert AnswersAfter(cfg, s, [Abort, Claim(m)], log) == AnswersAfter(cfg, t, [Claim(m)], later);
  }

  lemma {:induction false} InitTotal(cfg: Config)
    ensures Init(cfg, false).total == 0 && !Init(cfg, false).aborted
  {
    hide LaunchAll, Newly;
  }

  // Such a node's slot is granted late when the signal fires before it claims: in that run the two
  // runtimes' loops report one attempt and none.
  lemma {:induction false} LateGrantReached(cfg: Config, n: NodeId) returns (m: NodeId)
    requires cfg.plan.Accepted() && n in Init(cfg, false).tasks && HasExecutor(cfg, n)
    ensures Legal(cfg, Init(cfg, false), [Abort, Claim(m)])
    ensures var o := RunLog(cfg, false, [Abort, Claim(m)])(m);
            && SignalStays(o) && LateGrant(cfg, m, o, 0, 1)
            && forall input :: TypeScriptFrom(cfg, m, input, o, 0, None) == Ended(cfg, m, input, 1, NodeCancelled)
                            && PythonFrom(cfg, m, input, o, 0, None) == Ended(cfg, m, input, 0, NodeCancelled)
  {
    hide Init, SchedInv, Legal, AnswersAfter, AllAccounted, LoopEnds, ToldOne, LateGrant, TypeScriptFrom, PythonFrom;
    m := SomeGranted(cfg, n);
    InitTotal(cfg);
    AbortThenClaim(cfg, Init(cfg, false), m, n => Silence());
    EveryResultAccounted(cfg, false, [Abort, Claim(m)]);
    var o := RunLog(cfg, false, [Abort, Claim(m)])(m);
    forall input
      ensures TypeScriptFrom(cfg, m, input, o, 0, None) == Ended(cfg, m, input, 1, NodeCancelled)
      ensures PythonFrom(cfg, m, input, o, 0, None) == Ended(cfg, m, input, 0, NodeCancelled)
    {
      RuntimesAgree(cfg, m, input, o, 0, None);
    }
  }
}
