/**
 One attempt, `executeAttempt`, over the order in which its promises settle. The executor may
 return, reject or throw at once; a timer and the abort may fire meanwhile. A settled promise's
 reactions are jobs that run first come, first served; a timer fires only when no job waits,
 and the executor may settle inside it, before the timeout itself does. The outcomes an
 attempt can have in a given abort state are exactly those the scheduler's machine allows.
 */
module Attempts {
  import opened Wrappers
  import opened Json
  import opened Graphs
  import opened ReadyQueue
  import opened Scheduler

  // How the executor's promise settles; a returned value may not be portable JSON.
  datatype Settlement = Returned(output: Option<Json>) | Threw

  // How the execution promise, the timeout and their race settle.
  datatype Ending = Fulfilled(outcome: Outcome) | Broken

  datatype Job =
    | Callback(settlement: Settlement)   // the reaction to the executor
    | RaceExecution(ending: Ending)      // the execution promise enters the race
    | RaceTimeout                        // the timeout enters the race
    | Continue(ending: Ending)           // the attempt awaited this

  datatype Attempt = Attempt(
    aborted: bool, called: bool, settled: bool, timedOut: bool,
    race: Option<Ending>, jobs: seq<Job>, delivered: Option<Outcome>)

  const TIMEOUT: Ending := Fulfilled(Failure(NodeTimeout))

  // An attempt under a fired signal is over before its executor is called.
  function Begin(aborted: bool): Attempt {
    Attempt(aborted, false, false, false, None, [], if aborted then Some(Failure(NodeCancelled)) else None)
  }

  datatype Event =
    | ThrowNow                                // the executor throws before it returns a promise
    | CallExecutor                                    // it returns; a timer is set if the node has a timeout
    | ExecutorSettles(settlement: Settlement)          // its promise settles
    | Fire(reaction: Option<Settlement>)      // the timer fires; the executor may react at once
    | AbortFires
    | RunJob

  predicate Enabled(timed: bool, a: Attempt, event: Event) {
    match event
    case AbortFires => !a.aborted
    case ThrowNow => !a.called && a.delivered.None?
    case CallExecutor => !a.called && a.delivered.None?
    case ExecutorSettles(_) => a.called && !a.settled
    case Fire(reaction) =>
      timed && a.called && !a.timedOut && a.delivered.None? && a.jobs == [] && (reaction.Some? ==> !a.settled)
    case RunJob => a.jobs != [] && a.delivered.None?
  }

  // The `catch` clause.
  function Caught(a: Attempt): Outcome {
    Failure(if a.aborted && !a.timedOut then NodeCancelled else if a.timedOut then NodeTimeout else NodeExecutionFailed)
  }

  // The `then` callback.
  function Reacted(a: Attempt, settlement: Settlement): Ending {
    match settlement
    case Threw => Broken
    case Returned(output) =>
      if a.aborted && !a.timedOut then Fulfilled(Failure(NodeCancelled))
      else if output.Some? then Fulfilled(Success(output.value))
      else Fulfilled(Failure(InvalidOutput))
  }

  function Entered(a: Attempt, ending: Ending): Attempt {
    if a.race.Some? then a else a.(race := Some(ending), jobs := a.jobs + [Continue(ending)])
  }

  function Ran(timed: bool, a: Attempt, job: Job): Attempt {
    match job
    case Callback(settlement) =>
      var ending := Reacted(a, settlement);
      a.(jobs := a.jobs + [if timed then RaceExecution(ending) else Continue(ending)])
    case RaceExecution(ending) => Entered(a, ending)
    case RaceTimeout => Entered(a, TIMEOUT)
    case Continue(ending) => a.(delivered := Some(if ending.Broken? then Caught(a) else ending.outcome))
  }

  function Next(timed: bool, a: Attempt, event: Event): Attempt
    requires Enabled(timed, a, event)
  {
    match event
    case AbortFires => a.(aborted := true)
    case ThrowNow => a.(called := true, settled := true, delivered := Some(Caught(a)))
    case CallExecutor => a.(called := true)
    case ExecutorSettles(settlement) => a.(settled := true, jobs := a.jobs + [Callback(settlement)])
    case Fire(reaction) =>
      a.(timedOut := true, settled := a.settled || reaction.Some?,
         jobs := (if reaction.Some? then [Callback(reaction.value)] else []) + [RaceTimeout])
    case RunJob => Ran(timed, a.(jobs := a.jobs[1..]), a.jobs[0])
  }

  // ---- When the outcome is fixed -----------------------------------------------------------------

  // What enters the race first among the waiting jobs.
  function FirstIn(jobs: seq<Job>): Option<Ending> {
    if jobs == [] then None
    else match jobs[0]
      case RaceExecution(ending) => Some(ending)
      case RaceTimeout => Some(TIMEOUT)
      case _ => FirstIn(jobs[1..])
  }

  ghost predicate Awaits(jobs: seq<Job>, ending: Ending) {
    && Continue(ending) in jobs
    && forall j | j in jobs && j.Continue? :: j.ending == ending
  }

  // Before a timeout at most one job waits; after it the timeout has won or is first to enter.
  ghost predicate Inv(timed: bool, a: Attempt) {
    a.delivered.None? ==>
      if !a.called then a.jobs == [] && a.race.None? && !a.timedOut && !a.settled
      else if a.timedOut then
        && timed
        && if a.race.None? then FirstIn(a.jobs) == Some(TIMEOUT) && forall j | j in a.jobs :: !j.Continue?
           else a.race == Some(TIMEOUT) && Awaits(a.jobs, TIMEOUT)
      else if a.jobs == [] then a.race.None? && !a.settled
      else
        && |a.jobs| == 1 && a.settled
        && match a.jobs[0]
           case Callback(_) => a.race.None?
           case RaceExecution(_) => a.race.None? && timed
           case RaceTimeout => false
           case Continue(ending) => a.race == if timed then Some(ending) else None
  }

  // The outcome, once nothing can change it any more. A rejection is judged only when it is caught.
  function Verdict(a: Attempt): Option<Outcome> {
    if a.delivered.Some? then a.delivered
    else if a.timedOut then Some(Failure(NodeTimeout))
    else if a.jobs == [] then None
    else match a.jobs[0]
      case RaceExecution(Fulfilled(outcome)) => Some(outcome)
      case Continue(Fulfilled(outcome)) => Some(outcome)
      case _ => None
  }

  lemma {:induction false} FirstInAppend(jobs: seq<Job>, job: Job)
    ensures FirstIn(jobs).Some? ==> FirstIn(jobs + [job]) == FirstIn(jobs)
  {
    if jobs == [] {
    } else {
      FirstInAppend(jobs[1..], job);
      assert (jobs + [job])[1..] == jobs[1..] + [job];
    }
  }

  lemma {:induction false} RunInv(timed: bool, a: Attempt)
    requires Inv(timed, a) && Enabled(timed, a, RunJob)
    ensures Inv(timed, Next(timed, a, RunJob))
  {
    var job, rest := a.jobs[0], a.jobs[1..];
    assert a.jobs == [job] + rest;
    if a.timedOut && job.Callback? {
      FirstInAppend(rest, RaceExecution(Reacted(a, job.settlement)));
    }
  }

  lemma {:induction false} NextInv(timed: bool, a: Attempt, event: Event)
    requires Inv(timed, a) && Enabled(timed, a, event)
    ensures Inv(timed, Next(timed, a, event))
  {
    match event
    case RunJob => RunInv(timed, a);
    case ExecutorSettles(settlement) => FirstInAppend(a.jobs, Callback(settlement));
    case _ =>
  }

  // A fixed outcome stays, whatever happens afterwards.
  lemma {:induction false} VerdictStays(timed: bool, a: Attempt, event: Event)
    requires Inv(timed, a) && Enabled(timed, a, event) && Verdict(a).Some?
    ensures Verdict(Next(timed, a, event)) == Verdict(a)
  {
    if event.RunJob? {
      assert a.jobs == [a.jobs[0]] + a.jobs[1..];
    }
  }

  // A rejection is only ever caught before the timer fires: after it the timeout has won the race,
  // so the clause never has to tell a timeout.
  lemma {:induction false} CaughtBeforeTimer(timed: bool, a: Attempt)
    requires Inv(timed, a) && a.delivered.None? && a.jobs != [] && a.jobs[0] == Continue(Broken)
    ensures !a.timedOut && Caught(a) == Failure(if a.aborted then NodeCancelled else NodeExecutionFailed)
  {
    assert a.jobs[0] in a.jobs;
  }

  // Where it becomes fixed, it is one the scheduler's machine allows in that abort state.
  lemma {:induction false} VerdictPossible(cfg: Config, n: NodeId, a: Attempt, event: Event)
    requires var timed := HasTimeout(cfg, n); Inv(timed, a) && Enabled(timed, a, event)
    requires Verdict(a).None? && Verdict(Next(HasTimeout(cfg, n), a, event)).Some?
    ensures var b := Next(HasTimeout(cfg, n), a, event); Possible(cfg, n, b.aborted, Verdict(b).value)
  {
    hide HasTimeout;
  }

  // ---- Runs of an attempt ------------------------------------------------------------------------

  // The events lead from a to b.
  ghost predicate Runs(timed: bool, a: Attempt, events: seq<Event>, b: Attempt)
    decreases |events|
  {
    if events == [] then a == b
    else Enabled(timed, a, events[0]) && Runs(timed, Next(timed, a, events[0]), events[1..], b)
  }

  // From a on, the events fix the outcome with the last of them, in the given abort state.
  ghost predicate Decides(timed: bool, a: Attempt, events: seq<Event>, aborted: bool, outcome: Outcome)
    decreases |events|
  {
    && events != [] && Enabled(timed, a, events[0]) && Verdict(a).None?
    && var b := Next(timed, a, events[0]);
       if |events| == 1 then Verdict(b) == Some(outcome) && b.aborted == aborted
       else Decides(timed, b, events[1..], aborted, outcome)
  }

  lemma {:induction false} DecidesPossible(cfg: Config, n: NodeId, a: Attempt, events: seq<Event>, aborted: bool,
      outcome: Outcome)
    requires Inv(HasTimeout(cfg, n), a) && Decides(HasTimeout(cfg, n), a, events, aborted, outcome)
    ensures Possible(cfg, n, aborted, outcome)
    decreases |events|
  {
    hide HasTimeout, Inv, Enabled, Next, Verdict, Possible;
    var timed := HasTimeout(cfg, n);
    if |events| == 1 {
      VerdictPossible(cfg, n, a, events[0]);
    } else {
      NextInv(timed, a, events[0]);
      DecidesPossible(cfg, n, Next(timed, a, events[0]), events[1..], aborted, outcome);
    }
  }

  // A run that has each allowed outcome.
  function Example(aborted: bool, outcome: Outcome): seq<Event> {
    match outcome
    case Success(output) => [CallExecutor, ExecutorSettles(Returned(Some(output))), RunJob]
    case Failure(code) =>
      match code
      case NodeCancelled => [CallExecutor, AbortFires, ExecutorSettles(Returned(None)), RunJob]
      case NodeTimeout => if aborted then [CallExecutor, AbortFires, Fire(None)] else [CallExecutor, Fire(None)]
      case InvalidOutput => [CallExecutor, ExecutorSettles(Returned(None)), RunJob]
      case _ => [ThrowNow]
  }

  lemma {:induction false} PossibleDecides(cfg: Config, n: NodeId, aborted: bool, outcome: Outcome)
    requires Possible(cfg, n, aborted, outcome)
    ensures Decides(HasTimeout(cfg, n), Begin(false), Example(aborted, outcome), aborted, outcome)
  {
    hide HasTimeout;
    var timed, events := HasTimeout(cfg, n), Example(aborted, outcome);
    var a := Begin(false);
    if |events| > 1 {
      var b := Next(timed, a, events[0]);
      if |events| > 2 {
        var c := Next(timed, b, events[1]);
        assert events[1..][1..] == events[2..];
        assert |events| == 3 ==> Decides(timed, c, events[2..], aborted, outcome);
        if |events| == 4 {
          assert Decides(timed, Next(timed, c, events[2]), events[3..], aborted, outcome);
          assert Decides(timed, c, events[2..], aborted, outcome);
        }
      }
      assert Decides(timed, b, events[1..], aborted, outcome);
    }
  }

  // The scheduler's machine may decide a running attempt's outcome exactly as some run of the
  // attempt would, given the abort state in which it is decided.
  lemma {:induction false} DecideExact(cfg: Config, s: State, n: NodeId, outcome: Outcome)
    ensures Scheduler.Enabled(cfg, s, Decide(n, outcome)) <==>
              && n in s.tasks && s.tasks[n].phase.Running?
              && exists events :: Decides(HasTimeout(cfg, n), Begin(false), events, s.aborted, outcome)
  {
    hide HasTimeout, Decides, Possible;
    if Possible(cfg, n, s.aborted, outcome) {
      PossibleDecides(cfg, n, s.aborted, outcome);
    }
    if exists events :: Decides(HasTimeout(cfg, n), Begin(false), events, s.aborted, outcome) {
      var events :| Decides(HasTimeout(cfg, n), Begin(false), events, s.aborted, outcome);
      DecidesPossible(cfg, n, Begin(false), events, s.aborted, outcome);
    }
  }

  // ---- What follows for the caller ---------------------------------------------------------------

  // Whatever happens after the outcome is fixed, it is what the attempt delivers, and while it
  // has not been delivered a job is left to run.
  lemma {:induction false} VerdictDelivered(timed: bool, a: Attempt, events: seq<Event>, b: Attempt)
    requires Inv(timed, a) && Runs(timed, a, events, b) && Verdict(a).Some?
    ensures Verdict(b) == Verdict(a) && (b.delivered.Some? ==> b.delivered == Verdict(a))
    ensures b.delivered.None? ==> Enabled(timed, b, RunJob)
    decreases |events|
  {
    if events == [] {
    } else {
      NextInv(timed, a, events[0]);
      VerdictStays(timed, a, events[0]);
      VerdictDelivered(timed, Next(timed, a, events[0]), events[1..], b);
    }
  }

  // An attempt not yet fixed when the signal fires never delivers a success: also not when the
  // executor returns a value after the timer fired, which the callback lets pass.
  lemma {:induction false} NoLateSuccess(cfg: Config, n: NodeId, a: Attempt, events: seq<Event>, b: Attempt)
    requires Inv(HasTimeout(cfg, n), a) && Runs(HasTimeout(cfg, n), a, events, b)
    requires a.aborted && (Verdict(a).Some? ==> Verdict(a).value.Failure?)
    ensures b.delivered.Some? ==> b.delivered.value.Failure?
    decreases |events|
  {
    hide HasTimeout, Inv;
    var timed := HasTimeout(cfg, n);
    if events == [] {
    } else {
      var next := Next(timed, a, events[0]);
      NextInv(timed, a, events[0]);
      if Verdict(a).Some? {
        VerdictStays(timed, a, events[0]);
      } else if Verdict(next).Some? {
        VerdictPossible(cfg, n, a, events[0]);
      }
      NoLateSuccess(cfg, n, next, events[1..], b);
    }
  }

  // The state after the late callback, and the end of the attempt.
  function Yielded(output: Json): Attempt {
    Attempt(true, true, true, true, None, [RaceTimeout, RaceExecution(Fulfilled(Success(output)))], None)
  }

  function Dropped(output: Json): Attempt {
    Attempt(true, true, true, true, Some(TIMEOUT), [], Some(Failure(NodeTimeout)))
  }

  // Such a value exists: the signal and then the timer fire, the executor returns inside the
  // timer, its callback yields a success, and the attempt delivers the timeout.
  lemma {:induction false} LateValueDropped(output: Json)
    ensures var late := Fire(Some(Returned(Some(output))));
            && Runs(true, Begin(false), [CallExecutor, AbortFires, late, RunJob], Yielded(output))
            && Runs(true, Yielded(output), [RunJob, RunJob, RunJob], Dropped(output))
            && RaceExecution(Fulfilled(Success(output))) in Yielded(output).jobs
            && Dropped(output).delivered == Some(Failure(NodeTimeout))
  {
    var late := Fire(Some(Returned(Some(output))));
    var a := Next(true, Next(true, Begin(false), CallExecutor), AbortFires);
    var b := Next(true, a, late);
    assert b.jobs == [Callback(Returned(Some(output))), RaceTimeout];
    assert Runs(true, b, [RunJob], Yielded(output));
    assert [late, RunJob][1..] == [RunJob] && [AbortFires, late, RunJob][1..] == [late, RunJob];
    assert Runs(true, a, [late, RunJob], Yielded(output));
    assert [CallExecutor, AbortFires, late, RunJob][1..] == [AbortFires, late, RunJob];
  }
}
