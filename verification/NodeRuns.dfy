/**
 The retry loop of one node in both runtimes, over the answers it gets from outside: slots,
 the signal, the run budget, attempt outcomes and backoffs. The loops agree on every
 sequence of answers except where the signal fires between the grant of a slot and its use:
 the TypeScript loop then still counts the attempt, the Python loop does not.
 */
module NodeRuns {
  import opened Wrappers
  import opened Json
  import opened Graphs
  import opened ReadyQueue
  import opened Scheduler
  import opened Reference

  // The answers at the k-th turn, from 1.
  datatype Answers = Answers(
    granted: nat -> bool,     // a slot was acquired
    aborted: nat -> bool,     // the signal had fired when it was used
    budget: nat -> bool,      // the run budget allowed the claim
    outcome: nat -> Outcome,  // the attempt's outcome, if its executor was called
    rested: nat -> bool)      // the backoff after it was not cancelled

  // Once the signal has fired no slot is acquired any more.
  ghost predicate SignalStays(o: Answers) {
    forall k: nat | o.aborted(k) || o.outcome(k) == Failure(NodeCancelled) :: !o.granted(k + 1)
  }

  function Ended(cfg: Config, n: NodeId, input: Json, attempts: nat, code: FailureCode): NodeResult {
    FailedResult(cfg.plan, n, input, attempts, FailureOf(n, code, attempts, false))
  }

  // The budget is exhausted: the last failure stands, or there was none.
  function OutOfBudget(cfg: Config, n: NodeId, input: Json, attempts: nat, last: Option<NodeFailure>): NodeResult {
    FailedResult(cfg.plan, n, input, attempts,
      if last.Some? then last.value.(retryable := false) else FailureOf(n, AttemptBudgetExhausted, attempts, false))
  }

  function MayRetry(cfg: Config, n: NodeId, attempts: nat, code: FailureCode): bool {
    attempts < MaxAttempts(cfg, n) && code != NodeCancelled
  }

  // `executeNode` from the turn after the first a attempts on.
  function TypeScriptFrom(cfg: Config, n: NodeId, input: Json, o: Answers, a: nat,
      last: Option<NodeFailure>): NodeResult
    decreases MaxAttempts(cfg, n) - a
  {
    if a >= MaxAttempts(cfg, n) then
      FailedResult(cfg.plan, n, input, a,
          if last.Some? then last.value else FailureOf(n, NodeExecutionFailed, a, false))
    else if !o.granted(a + 1) then Ended(cfg, n, input, a, NodeCancelled)
    else if !o.budget(a + 1) then OutOfBudget(cfg, n, input, a, last)
    else
      match if o.aborted(a + 1) then Failure(NodeCancelled) else o.outcome(a + 1)
      case Success(output) => SucceededResult(cfg.plan, n, input, a + 1, output)
      case Failure(code) =>
        if MayRetry(cfg, n, a + 1, code) && !o.rested(a + 1) then Ended(cfg, n, input, a + 1, NodeCancelled)
        else TypeScriptFrom(cfg, n, input, o, a + 1, Some(FailureOf(n, code, a + 1, MayRetry(cfg, n, a + 1, code))))
  }

  // `_execute_node` from the turn after the first a attempts on.
  function PythonFrom(cfg: Config, n: NodeId, input: Json, o: Answers, a: nat, last: Option<NodeFailure>): NodeResult
    decreases MaxAttempts(cfg, n) - a
  {
    if !o.granted(a + 1) || o.aborted(a + 1) then Ended(cfg, n, input, a, NodeCancelled)
    else if !o.budget(a + 1) then OutOfBudget(cfg, n, input, a, last)
    else
      match o.outcome(a + 1)
      case Success(output) => SucceededResult(cfg.plan, n, input, a + 1, output)
      case Failure(code) =>
        if !MayRetry(cfg, n, a + 1, code) then Ended(cfg, n, input, a + 1, code)
        else if !o.rested(a + 1) then Ended(cfg, n, input, a + 1, NodeCancelled)
        else PythonFrom(cfg, n, input, o, a + 1, Some(FailureOf(n, code, a + 1, true)))
  }

  // The result of a launched node in the TypeScript runtime.
  function NodeEnd(cfg: Config, n: NodeId, input: Json, o: Answers): NodeResult {
    if !HasExecutor(cfg, n) then Ended(cfg, n, input, 0, ExecutorNotFound)
    else TypeScriptFrom(cfg, n, input, o, 0, None)
  }

  // ---- What the loop returns --------------------------------------------------------------

  // The k-th attempt failed and was retried.
  ghost predicate Retried(cfg: Config, n: NodeId, o: Answers, k: nat) {
    && o.granted(k) && o.budget(k) && !o.aborted(k) && o.rested(k)
    && o.outcome(k).Failure? && MayRetry(cfg, n, k, o.outcome(k).code)
  }

  // Turn k is reached from the turn after a by retrying.
  ghost predicate Reached(cfg: Config, n: NodeId, o: Answers, a: nat, k: nat) {
    a < k <= MaxAttempts(cfg, n) && forall j: nat | a < j < k :: Retried(cfg, n, o, j)
  }

  // Its executor is called at turn k and succeeds.
  ghost predicate Wins(o: Answers, k: nat) {
    o.granted(k) && o.budget(k) && !o.aborted(k) && o.outcome(k).Success?
  }

  ghost predicate WinsAt(cfg: Config, n: NodeId, o: Answers, a: nat, k: nat) {
    Reached(cfg, n, o, a, k) && Wins(o, k)
  }

  lemma {:induction false} ReachedStep(cfg: Config, n: NodeId, o: Answers, a: nat)
    ensures forall k: nat :: Reached(cfg, n, o, a, k) <==>
              (k == a + 1 && k <= MaxAttempts(cfg, n)) || (Retried(cfg, n, o, a + 1) && Reached(cfg, n, o, a + 1, k))
  {
    hide Retried, MaxAttempts;
    forall k: nat | Retried(cfg, n, o, a + 1) && Reached(cfg, n, o, a + 1, k) ensures Reached(cfg, n, o, a, k) {
      forall j: nat | a < j < k ensures Retried(cfg, n, o, j) {}
    }
  }

  lemma {:induction false} WinsStep(cfg: Config, n: NodeId, o: Answers, a: nat)
    requires a < MaxAttempts(cfg, n)
    ensures forall k: nat :: WinsAt(cfg, n, o, a, k) <==>
              if Retried(cfg, n, o, a + 1) then WinsAt(cfg, n, o, a + 1, k) else k == a + 1 && Wins(o, k)
  {
    hide MaxAttempts, Reached, MayRetry;
    ReachedStep(cfg, n, o, a);
  }

  lemma {:induction false} NoWins(cfg: Config, n: NodeId, o: Answers, a: nat)
    requires a >= MaxAttempts(cfg, n)
    ensures forall k: nat :: !WinsAt(cfg, n, o, a, k)
  {}

  // After an attempt that may not be retried.
  lemma {:induction false} LastTurn(cfg: Config, n: NodeId, input: Json, o: Answers, a: nat, last: Option<NodeFailure>,
      code: FailureCode)
    requires last == Some(FailureOf(n, code, a, false)) && a <= MaxAttempts(cfg, n) && !MayRetry(cfg, n, a, code)
    requires code == NodeCancelled ==> !o.granted(a + 1)
    ensures TypeScriptFrom(cfg, n, input, o, a, last) == Ended(cfg, n, input, a, code)
  {
    hide MaxAttempts;
  }

  // The loop succeeds exactly when some attempt within the node's own limit, all before it
  // having failed and been retried, is claimed and succeeds; the result is that attempt's.
  lemma {:induction false} TypeScriptWins(cfg: Config, n: NodeId, input: Json, o: Answers, a: nat,
      last: Option<NodeFailure>)
    requires SignalStays(o) && a <= MaxAttempts(cfg, n)
    ensures var r := TypeScriptFrom(cfg, n, input, o, a, last);
            && r.attempts <= MaxAttempts(cfg, n)
            && (r.status == Succeeded <==> exists k: nat :: WinsAt(cfg, n, o, a, k))
            && (forall k: nat | WinsAt(cfg, n, o, a, k) ::
                r == SucceededResult(cfg.plan, n, input, k, o.outcome(k).output))
    decreases MaxAttempts(cfg, n) - a
  {
    hide MaxAttempts, WinsAt;
    if a >= MaxAttempts(cfg, n) {
      NoWins(cfg, n, o, a);
    } else {
      WinsStep(cfg, n, o, a);
      var k := a + 1;
      if o.granted(k) && o.budget(k) {
        var outcome := if o.aborted(k) then Failure(NodeCancelled) else o.outcome(k);
        if outcome.Failure? {
          var last' := Some(FailureOf(n, outcome.code, k, MayRetry(cfg, n, k, outcome.code)));
          if Retried(cfg, n, o, k) {
            TypeScriptWins(cfg, n, input, o, k, last');
            forall j: nat ensures WinsAt(cfg, n, o, a, j) <==> WinsAt(cfg, n, o, k, j) {}
          } else if !MayRetry(cfg, n, k, outcome.code) {
            LastTurn(cfg, n, input, o, k, last', outcome.code);
          }
        } else {
          assert WinsAt(cfg, n, o, a, k);
        }
      }
    }
  }

  // ---- The loops ---------------------------------------------------------------------------

  method ExecuteNode(cfg: Config, n: NodeId, input: Json, o: Answers) returns (r: NodeResult)
    ensures r == NodeEnd(cfg, n, input, o)
    ensures SignalStays(o) ==>
              (r.status == Succeeded <==> HasExecutor(cfg, n) && exists k: nat :: WinsAt(cfg, n, o, 0, k))
  {
    hide MaxAttempts, WinsAt;
    if SignalStays(o) {
      TypeScriptWins(cfg, n, input, o, 0, None);
    }
    if !HasExecutor(cfg, n) {
      return Ended(cfg, n, input, 0, ExecutorNotFound);
    }
    var maxAttempts := MaxAttempts(cfg, n);
    var lastFailure: Option<NodeFailure> := None;
    var attempts := 0;
    while attempts < maxAttempts
      invariant attempts <= maxAttempts
      invariant attempts > 0 ==> lastFailure.Some?
      invariant TypeScriptFrom(cfg, n, input, o, attempts, lastFailure) == TypeScriptFrom(cfg, n, input, o, 0, None)
    {
      if !o.granted(attempts + 1) {
        return Ended(cfg, n, input, attempts, NodeCancelled);
      }
      if !o.budget(attempts + 1) {
        return OutOfBudget(cfg, n, input, attempts, lastFailure);
      }
      attempts := attempts + 1;
      var outcome := if o.aborted(attempts) then Failure(NodeCancelled) else o.outcome(attempts);
      match outcome {
        case Success(output) =>
          return SucceededResult(cfg.plan, n, input, attempts, output);
        case Failure(code) =>
          var mayRetry := attempts < maxAttempts && code != NodeCancelled;
          lastFailure := Some(FailureOf(n, code, attempts, mayRetry));
          if mayRetry && !o.rested(attempts) {
            return Ended(cfg, n, input, attempts, NodeCancelled);
          }
      }
    }
    return FailedResult(cfg.plan, n, input, attempts, lastFailure.value);
  }

  method ExecuteNodePython(cfg: Config, n: NodeId, input: Json, o: Answers) returns (r: NodeResult)
    ensures r == PythonFrom(cfg, n, input, o, 0, None)
  {
    var maxAttempts := MaxAttempts(cfg, n);
    var lastFailure: Option<NodeFailure> := None;
    var attempts := 0;
    while attempts < maxAttempts
      invariant attempts < maxAttempts
      invariant PythonFrom(cfg, n, input, o, attempts, lastFailure) == PythonFrom(cfg, n, input, o, 0, None)
      decreases maxAttempts - attempts
    {
      if !o.granted(attempts + 1) || o.aborted(attempts + 1) {
        return Ended(cfg, n, input, attempts, NodeCancelled);
      }
      if !o.budget(attempts + 1) {
        return OutOfBudget(cfg, n, input, attempts, lastFailure);
      }
      attempts := attempts + 1;
      match o.outcome(attempts) {
        case Success(output) =>
          return SucceededResult(cfg.plan, n, input, attempts, output);
        case Failure(code) =>
          var mayRetry := attempts < maxAttempts && code != NodeCancelled;
          lastFailure := Some(FailureOf(n, code, attempts, mayRetry));
          if !mayRetry {
            return FailedResult(cfg.plan, n, input, attempts, lastFailure.value);
          }
          if !o.rested(attempts) {
            return Ended(cfg, n, input, attempts, NodeCancelled);
          }
      }
    }
    assert false;
  }

  // ---- The two runtimes -----------------------------------------------------------------------

  // A slot is granted at a turn that is reached, and the signal fires before it is used.
  ghost predicate LateGrant(cfg: Config, n: NodeId, o: Answers, a: nat, k: nat) {
    Reached(cfg, n, o, a, k) && o.granted(k) && o.aborted(k)
  }

  lemma {:induction false} LateStep(cfg: Config, n: NodeId, o: Answers, a: nat)
    requires a < MaxAttempts(cfg, n)
    ensures forall k: nat :: LateGrant(cfg, n, o, a, k) <==>
              if Retried(cfg, n, o, a + 1) then LateGrant(cfg, n, o, a + 1, k)
                  else k == a + 1 && o.granted(k) && o.aborted(k)
  {
    hide MaxAttempts, Reached, MayRetry;
    ReachedStep(cfg, n, o, a);
  }

  // Both loops return the same result exactly unless a slot is granted late. Then both fail;
  // if the budget allowed it, the TypeScript loop has counted one attempt more.
  lemma {:induction false} RuntimesAgree(cfg: Config, n: NodeId, input: Json, o: Answers, a: nat,
      last: Option<NodeFailure>)
    requires SignalStays(o) && a < MaxAttempts(cfg, n)
    requires last.Some? ==> last.value.code != NodeCancelled
    ensures var ts, py := TypeScriptFrom(cfg, n, input, o, a, last), PythonFrom(cfg, n, input, o, a, last);
            && (ts == py <==> forall k: nat :: !LateGrant(cfg, n, o, a, k))
            && (forall k: nat | LateGrant(cfg, n, o, a, k) ::
                  py == Ended(cfg, n, input, k - 1, NodeCancelled)
                  && (o.budget(k) ==> ts == Ended(cfg, n, input, k, NodeCancelled)))
    decreases MaxAttempts(cfg, n) - a
  {
    hide MaxAttempts, LateGrant;
    LateStep(cfg, n, o, a);
    var k := a + 1;
    if Retried(cfg, n, o, k) {
      RuntimesAgree(cfg, n, input, o, k, Some(FailureOf(n, o.outcome(k).code, k, true)));
      forall j: nat ensures LateGrant(cfg, n, o, a, j) <==> LateGrant(cfg, n, o, k, j) {}
    } else if o.granted(k) && o.budget(k) {
      var outcome := if o.aborted(k) then Failure(NodeCancelled) else o.outcome(k);
      if outcome.Failure? && !MayRetry(cfg, n, k, outcome.code) {
        LastTurn(cfg, n, input, o, k, Some(FailureOf(n, outcome.code, k, false)), outcome.code);
      }
    }
  }

  // The one slot of a run is granted, and the signal fires before the node gets to use it.
  function Late(): Answers {
    Answers(k => k == 1, k => k == 1, k => true, k => Failure(NodeExecutionFailed), k => true)
  }

  // The runtimes then disagree on the number of attempts.
  lemma {:induction false} RuntimesDiffer(cfg: Config, n: NodeId, input: Json)
    ensures SignalStays(Late())
    ensures TypeScriptFrom(cfg, n, input, Late(), 0, None) == Ended(cfg, n, input, 1, NodeCancelled)
    ensures PythonFrom(cfg, n, input, Late(), 0, None) == Ended(cfg, n, input, 0, NodeCancelled)
  {
    hide MaxAttempts;
    var last := Some(FailureOf(n, NodeCancelled, 1, false));
    LastTurn(cfg, n, input, Late(), 1, last, NodeCancelled);
  }

  // ---- The sequential meaning -------------------------------------------------------------------

  // With every slot granted, every claim allowed and no signal, both loops are the attempts of
  // the sequential meaning.
  lemma {:induction false} Undisturbed(cfg: Config, exec: Executor, n: NodeId, input: Json, o: Answers, a: nat,
      last: Option<NodeFailure>)
    requires a < MaxAttempts(cfg, n)
    requires forall k: nat ::
      o.granted(k) && o.budget(k) && o.rested(k) && !o.aborted(k) && o.outcome(k) == exec(n, input, k)
    requires forall k: nat :: exec(n, input, k) != Failure(NodeCancelled)
    ensures TypeScriptFrom(cfg, n, input, o, a, last) == Attempting(cfg, exec, n, input, a)
    ensures PythonFrom(cfg, n, input, o, a, last) == Attempting(cfg, exec, n, input, a)
    decreases MaxAttempts(cfg, n) - a
  {
    hide MaxAttempts;
    var k := a + 1;
    assert o.granted(k) && o.outcome(k) == exec(n, input, k) && exec(n, input, k) != Failure(NodeCancelled);
    if o.outcome(k).Failure? && k < MaxAttempts(cfg, n) {
      Undisturbed(cfg, exec, n, input, o, k, Some(FailureOf(n, o.outcome(k).code, k, true)));
    } else if o.outcome(k).Failure? {
      LastTurn(cfg, n, input, o, k, Some(FailureOf(n, o.outcome(k).code, k, false)), o.outcome(k).code);
    }
  }
}
