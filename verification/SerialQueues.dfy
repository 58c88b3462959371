/**
 The per-key queue and the appends and reads that run under it, interleaved at their
 awaits: each loads its run's log, then checks and writes. The queue makes every such
 operation atomic, in arrival order per run, whatever other operations answer.
 */
module SerialQueues {
  import opened Wrappers
  import opened Text
  import opened Json
  import opened EventStreams
  import opened EventLogs
  import opened JsonlStore

  // ---- The queue ----------------------------------------------------------------------

  type Tails = map<JsString, nat>

  function Tail(tails: Tails, key: JsString): Option<nat> {
    if key in tails then Some(tails[key]) else None
  }

  // The tails, and the ticket the next operation gets.
  datatype Queue = Queue(tails: Tails, tickets: nat)

  // The synchronous part of `run`: the operation becomes the tail of its key.
  function Entered(q: Queue, key: JsString): Queue {
    Queue(q.tails[key := q.tickets], q.tickets + 1)
  }

  // The `finally` of `run`: forget the tail, unless another operation has queued behind it.
  function Left(q: Queue, key: JsString, ticket: nat): Queue {
    if Tail(q.tails, key) == Some(ticket) then q.(tails := q.tails - {key}) else q
  }

  class SerialQueue {
    var tails: Tails
    var tickets: nat

    ghost function State(): Queue
      reads this
    {
      Queue(tails, tickets)
    }

    constructor ()
      ensures State() == Queue(map[], 0)
    {
      tails, tickets := map[], 0;
    }

    // The operation waits for the previous tail, if any.
    method Enter(key: JsString) returns (ticket: nat, previous: Option<nat>)
      modifies this
      ensures ticket == old(tickets) && previous == Tail(old(tails), key)
      ensures State() == Entered(old(State()), key)
    {
      previous := Tail(tails, key);
      ticket := tickets;
      tails := tails[key := ticket];
      tickets := tickets + 1;
    }

    method Leave(key: JsString, ticket: nat)
      modifies this
      ensures State() == Left(old(State()), key, ticket)
    {
      if key in tails && tails[key] == ticket {
        tails := tails - {key};
      }
    }
  }

  // ---- Operations under the queue ----------------------------------------------------------

  datatype Stage =
    | Queued
    | Loaded(existing: Option<seq<Json>>)
    | Done(answer: Answer)

  datatype Job = Job(op: Operation, previous: Option<nat>, stage: Stage)

  // The files, every operation that entered the queue so far, and the queue's tails.
  datatype Store = Store(files: Files, jobs: seq<Job>, tails: Tails)

  datatype Step = Enqueue(op: Operation) | Load(ticket: nat) | Finish(ticket: nat) | Cleanup(ticket: nat)

  // A job's ticket is its position.
  function QueueOf(s: Store): Queue {
    Queue(s.tails, |s.jobs|)
  }

  function RunOf(op: Operation): JsString {
    op.runId
  }

  // Requests refused before they reach the queue never enter it.
  function EarlyError(op: Operation): Option<StoreError> {
    match op
    case AppendEvents(runId, expected, _) => RequestError(runId, expected, -1)
    case ReadEvents(runId, from) => RequestError(runId, from, 0)
  }

  predicate Over(jobs: seq<Job>, ticket: Option<nat>) {
    ticket.Some? ==> ticket.value < |jobs| && jobs[ticket.value].stage.Done?
  }

  predicate Enabled(s: Store, step: Step) {
    match step
    case Enqueue(op) => EarlyError(op).None?
    case Load(t) => t < |s.jobs| && s.jobs[t].stage.Queued? && Over(s.jobs, s.jobs[t].previous)
    case Finish(t) => t < |s.jobs| && s.jobs[t].stage.Loaded?
    case Cleanup(t) => t < |s.jobs| && s.jobs[t].stage.Done?
  }

  function SetStage(jobs: seq<Job>, t: nat, stage: Stage): (r: seq<Job>)
    requires t < |jobs|
    ensures |r| == |jobs| && r[t] == jobs[t].(stage := stage)
    ensures forall i | 0 <= i < |jobs| && i != t :: r[i] == jobs[i]
  {
    jobs[t := jobs[t].(stage := stage)]
  }

  function Conclude(env: Envelope, name: Naming, files: Files, op: Operation,
    existing: Option<seq<Json>>): (Answer, Files) {
    match op
    case AppendEvents(runId, expected, events) =>
      var (r, after) := FinishAppend(env, name, files, runId, expected, events, existing);
      (Appended(r), after)
    case ReadEvents(_, from) => (Listed(FinishRead(from, existing)), files)
  }

  function Next(env: Envelope, name: Naming, s: Store, step: Step): Store
    requires Enabled(s, step)
  {
    match step
    case Enqueue(op) =>
      s.(jobs := s.jobs + [Job(op, Tail(s.tails, RunOf(op)), Queued)], tails := Entered(QueueOf(s), RunOf(op)).tails)
    case Load(t) =>
      var run := RunOf(s.jobs[t].op);
      s.(jobs := SetStage(s.jobs, t, Loaded(LoadFile(env, run, FileAt(s.files, name(run))))))
    case Finish(t) =>
      var (answer, files) := Conclude(env, name, s.files, s.jobs[t].op, s.jobs[t].stage.existing);
      s.(files := files, jobs := SetStage(s.jobs, t, Done(answer)))
    case Cleanup(t) => s.(tails := Left(QueueOf(s), RunOf(s.jobs[t].op), t).tails)
  }

  // The queue object moves as the machine does: an operation that arrives enters it, behind the
  // tail its job waits for and with its job's position as ticket; one that is cleaned up leaves it.
  lemma {:induction false} MachineIsQueue(env: Envelope, name: Naming, s: Store, step: Step)
    requires Enabled(s, step)
    ensures QueueOf(Next(env, name, s, step)) ==
            match step
            case Enqueue(op) => Entered(QueueOf(s), RunOf(op))
            case Cleanup(t) => Left(QueueOf(s), RunOf(s.jobs[t].op), t)
            case _ => QueueOf(s)
    ensures step.Enqueue? ==>
              var jobs := Next(env, name, s, step).jobs;
              jobs == s.jobs + [Job(step.op, Tail(QueueOf(s).tails, RunOf(step.op)), Queued)]
              && QueueOf(s).tickets == |jobs| - 1
  {
    hide Conclude, LoadFile;
  }

  // ---- The order of the queue ------------------------------------------------------------------

  predicate SameRun(jobs: seq<Job>, i: nat, j: nat) {
    i < |jobs| && j < |jobs| && RunOf(jobs[i].op) == RunOf(jobs[j].op)
  }

  // A job has begun or is over only after all earlier jobs of its run are over.
  ghost predicate InOrder(jobs: seq<Job>) {
    forall i: nat, j: nat | i < j && SameRun(jobs, i, j) && !jobs[j].stage.Queued? :: jobs[i].stage.Done?
  }

  // A job waits for the latest earlier job of its run, unless those are all over.
  ghost predicate Chained(jobs: seq<Job>) {
    && (forall j: nat | j < |jobs| && jobs[j].previous.Some? ::
          jobs[j].previous.value < j && SameRun(jobs, jobs[j].previous.value, j))
    && (forall i: nat, j: nat | i < j && SameRun(jobs, i, j) ::
          jobs[i].stage.Done? || (jobs[j].previous.Some? && i <= jobs[j].previous.value))
  }

  // The tail of a run is its last job; without a tail all its jobs are over.
  ghost predicate TailsOk(jobs: seq<Job>, tails: Tails) {
    && (forall key | key in tails :: tails[key] < |jobs| && RunOf(jobs[tails[key]].op) == key)
    && (forall i: nat | i < |jobs| ::
          jobs[i].stage.Done? || (RunOf(jobs[i].op) in tails && i <= tails[RunOf(jobs[i].op)]))
  }

  ghost predicate QueueOk(s: Store) {
    InOrder(s.jobs) && Chained(s.jobs) && TailsOk(s.jobs, s.tails)
  }

  lemma {:induction false} EnqueueOk(s: Store, op: Operation)
    requires QueueOk(s)
    ensures var job := Job(op, Tail(s.tails, RunOf(op)), Queued);
            QueueOk(s.(jobs := s.jobs + [job], tails := s.tails[RunOf(op) := |s.jobs|]))
  {
    var jobs := s.jobs + [Job(op, Tail(s.tails, RunOf(op)), Queued)];
    forall i: nat, j: nat | i < j && SameRun(jobs, i, j)
      ensures !jobs[j].stage.Queued? ==> jobs[i].stage.Done?
      ensures jobs[i].stage.Done? || (jobs[j].previous.Some? && i <= jobs[j].previous.value)
    {
      assert j < |s.jobs| ==> SameRun(s.jobs, i, j);
    }
    forall j: nat | j < |jobs| && jobs[j].previous.Some?
      ensures jobs[j].previous.value < j && SameRun(jobs, jobs[j].previous.value, j)
    {
      assert j < |s.jobs| ==> SameRun(s.jobs, s.jobs[j].previous.value, j);
    }
  }

  // When a job begins, all earlier jobs of its run are over.
  lemma {:induction false} BeginsAlone(s: Store, t: nat)
    requires QueueOk(s) && Enabled(s, Load(t))
    ensures forall i: nat | i < t && SameRun(s.jobs, i, t) :: s.jobs[i].stage.Done?
  {
    forall i: nat | i < t && SameRun(s.jobs, i, t) ensures s.jobs[i].stage.Done? {
      if !s.jobs[i].stage.Done? {
        var p := s.jobs[t].previous.value;
        assert SameRun(s.jobs, p, t);
        assert i < p ==> SameRun(s.jobs, i, p);
      }
    }
  }

  lemma {:induction false} StageOk(s: Store, t: nat, stage: Stage)
    requires QueueOk(s) && t < |s.jobs| && !s.jobs[t].stage.Done? && !stage.Queued?
    requires forall i: nat | i < t && SameRun(s.jobs, i, t) :: s.jobs[i].stage.Done?
    ensures QueueOk(s.(jobs := SetStage(s.jobs, t, stage)))
  {
    var jobs := SetStage(s.jobs, t, stage);
    forall i: nat, j: nat ensures SameRun(jobs, i, j) <==> SameRun(s.jobs, i, j) {}
    forall i: nat, j: nat | i < j && SameRun(jobs, i, j) && !jobs[j].stage.Queued? ensures jobs[i].stage.Done? {
    }
  }

  // At most one operation per run is between its load and its end.
  lemma {:induction false} MutualExclusion(s: Store, i: nat, j: nat)
    requires QueueOk(s) && SameRun(s.jobs, i, j) && s.jobs[i].stage.Loaded? && s.jobs[j].stage.Loaded?
    ensures i == j
  {
    assert SameRun(s.jobs, j, i);
  }

  lemma {:induction false} CleanupOk(s: Store, t: nat)
    requires QueueOk(s) && t < |s.jobs| && s.jobs[t].stage.Done?
    ensures QueueOk(s.(tails := Left(QueueOf(s), RunOf(s.jobs[t].op), t).tails))
  {
    forall i: nat | i < |s.jobs| && RunOf(s.jobs[i].op) == RunOf(s.jobs[t].op) && i < t ensures s.jobs[i].stage.Done? {
      assert SameRun(s.jobs, i, t);
    }
  }

  // ---- Linearization ---------------------------------------------------------------------------

  // The finished operations of a run, in the order they were queued.
  function DoneOps(jobs: seq<Job>, run: JsString): seq<Operation> {
    if jobs == [] then []
    else
      var last := jobs[|jobs| - 1];
      DoneOps(jobs[..|jobs| - 1], run) + if last.stage.Done? && RunOf(last.op) == run then [last.op] else []
  }

  // The answers they gave.
  function DoneAnswers(jobs: seq<Job>, run: JsString): seq<Answer> {
    if jobs == [] then []
    else
      var last := jobs[|jobs| - 1];
      DoneAnswers(jobs[..|jobs| - 1], run) + if last.stage.Done? && RunOf(last.op) == run then [last.stage.answer]
          else []
  }

  // What running the finished operations one after the other gives.
  ghost predicate Linear(env: Envelope, name: Naming, initial: Files, s: Store, run: JsString) {
    var (answers, files) := JsonlRun(env, name, initial, DoneOps(s.jobs, run));
    && answers == DoneAnswers(s.jobs, run)
    && FileAt(s.files, name(run)) == FileAt(files, name(run))
  }

  // A loaded job has seen the log as it still is, and refused requests never entered.
  ghost predicate SnapshotsOk(env: Envelope, name: Naming, s: Store) {
    && (forall t | 0 <= t < |s.jobs| :: EarlyError(s.jobs[t].op).None?)
    && (forall t | 0 <= t < |s.jobs| && s.jobs[t].stage.Loaded? ::
          var run := RunOf(s.jobs[t].op);
          s.jobs[t].stage.existing == LoadFile(env, run, FileAt(s.files, name(run))))
  }

  ghost predicate StoreInv(env: Envelope, name: Naming, initial: Files, s: Store) {
    && QueueOk(s) && SnapshotsOk(env, name, s)
    && forall run | SafeIdentifier(run) :: Linear(env, name, initial, s, run)
  }

  lemma {:induction false} UnfinishedUncounted(jobs: seq<Job>, k: nat, run: JsString)
    requires k <= |jobs| && forall i | k <= i < |jobs| :: !(jobs[i].stage.Done? && RunOf(jobs[i].op) == run)
    ensures DoneOps(jobs, run) == DoneOps(jobs[..k], run) && DoneAnswers(jobs, run) == DoneAnswers(jobs[..k], run)
    decreases |jobs|
  {
    if k < |jobs| {
      UnfinishedUncounted(jobs[..|jobs| - 1], k, run);
      assert jobs[..|jobs| - 1][..k] == jobs[..k];
    } else {
      assert jobs[..k] == jobs;
    }
  }

  lemma {:induction false} DoneSame(a: seq<Job>, b: seq<Job>, run: JsString)
    requires |a| == |b|
    requires forall i | 0 <= i < |a| ::
      a[i] == b[i] || !((a[i].stage.Done? || b[i].stage.Done?) && RunOf(a[i].op) == run)
    requires forall i | 0 <= i < |a| :: a[i].op == b[i].op
    ensures DoneOps(a, run) == DoneOps(b, run) && DoneAnswers(a, run) == DoneAnswers(b, run)
  {
    if a == [] {
    } else {
      DoneSame(a[..|a| - 1], b[..|b| - 1], run);
    }
  }

  // Finishing the first unfinished job of a run appends its operation and answer.
  lemma {:induction false} FinishAppends(jobs: seq<Job>, t: nat, answer: Answer, run: JsString)
    requires InOrder(jobs) && t < |jobs| && jobs[t].stage.Loaded?
    ensures var after := SetStage(jobs, t, Done(answer));
            if RunOf(jobs[t].op) == run then
              DoneOps(after, run) == DoneOps(jobs, run) + [jobs[t].op]
              && DoneAnswers(after, run) == DoneAnswers(jobs, run) + [answer]
            else DoneOps(after, run) == DoneOps(jobs, run) && DoneAnswers(after, run) == DoneAnswers(jobs, run)
  {
    var after := SetStage(jobs, t, Done(answer));
    if RunOf(jobs[t].op) == run {
      forall i | t < i < |jobs| ensures !(jobs[i].stage.Done? && RunOf(jobs[i].op) == run) {
        assert RunOf(jobs[i].op) == run ==> SameRun(jobs, t, i);
      }
      UnfinishedUncounted(jobs, t, run);
      UnfinishedUncounted(after, t + 1, run);
      assert after[..t + 1][..t] == jobs[..t];
    } else {
      DoneSame(jobs, after, run);
    }
  }

  // Operations on a run read and write that run's file only.
  lemma {:induction false} ConcludeLocal(env: Envelope, name: Naming, a: Files, b: Files, op: Operation)
    requires EarlyError(op).None? && FileAt(a, name(RunOf(op))) == FileAt(b, name(RunOf(op)))
    ensures var run := RunOf(op);
            var (answer, after) := Conclude(env, name, a, op, LoadFile(env, run, FileAt(a, name(run))));
            && JsonlStep(env, name, b, op).0 == answer
            && FileAt(JsonlStep(env, name, b, op).1, name(run)) == FileAt(after, name(run))
            && forall other | other != name(run) :: FileAt(after, other) == FileAt(a, other)
  {
    hide LoadFile, AppendError, LogText, SafeIdentifier, Selected;
  }

  lemma {:induction false} OpSafe(env: Envelope, name: Naming, s: Store, t: nat)
    requires SnapshotsOk(env, name, s) && t < |s.jobs|
    ensures EarlyError(s.jobs[t].op).None? && SafeIdentifier(RunOf(s.jobs[t].op))
  {
    hide SafeIdentifier;
  }

  lemma {:induction false} RunAppends(env: Envelope, name: Naming, initial: Files, ops: seq<Operation>, op: Operation)
    ensures var (answers, files) := JsonlRun(env, name, initial, ops);
            JsonlRun(env, name, initial, ops + [op])
              == (answers + [JsonlStep(env, name, files, op).0], JsonlStep(env, name, files, op).1)
  {
    hide JsonlStep;
    assert (ops + [op])[..|ops|] == ops;
  }

  lemma {:induction false} FinishLinear(env: Envelope, name: Naming, initial: Files, s: Store, t: nat, run: JsString)
    requires StoreInv(env, name, initial, s) && Enabled(s, Finish(t)) && CollisionFree(name) && SafeIdentifier(run)
    ensures Linear(env, name, initial, Next(env, name, s, Finish(t)), run)
  {
    hide InOrder, Chained, TailsOk, Conclude, JsonlStep, LoadFile, DoneOps, DoneAnswers, SafeIdentifier;
    var op := s.jobs[t].op;
    assert Linear(env, name, initial, s, run);
    OpSafe(env, name, s, t);
    var (answer, files) := Conclude(env, name, s.files, op, s.jobs[t].stage.existing);
    FinishAppends(s.jobs, t, answer, run);
    var before := JsonlRun(env, name, initial, DoneOps(s.jobs, run)).1;
    if RunOf(op) == run {
      ConcludeLocal(env, name, s.files, before, op);
      RunAppends(env, name, initial, DoneOps(s.jobs, run), op);
    } else {
      ConcludeLocal(env, name, s.files, s.files, op);
      assert name(run) != name(RunOf(op));
    }
  }

  lemma {:induction false} FinishSnapshots(env: Envelope, name: Naming, s: Store, t: nat)
    requires QueueOk(s) && SnapshotsOk(env, name, s) && Enabled(s, Finish(t)) && CollisionFree(name)
    ensures SnapshotsOk(env, name, Next(env, name, s, Finish(t)))
  {
    hide QueueOk, LoadFile, Conclude, JsonlStep, SafeIdentifier;
    var r, op := Next(env, name, s, Finish(t)), s.jobs[t].op;
    ConcludeLocal(env, name, s.files, s.files, op);
    forall u: nat | u < |r.jobs| && r.jobs[u].stage.Loaded?
      ensures r.jobs[u].stage.existing == LoadFile(env, RunOf(r.jobs[u].op), FileAt(r.files, name(RunOf(r.jobs[u].op))))
    {
      OpSafe(env, name, s, t);
      OpSafe(env, name, s, u);
      if RunOf(s.jobs[u].op) == RunOf(op) {
        MutualExclusion(s, t, u);
      }
    }
  }

  lemma {:induction false} LinearSame(env: Envelope, name: Naming, initial: Files, s: Store, r: Store)
    requires forall run | SafeIdentifier(run) :: Linear(env, name, initial, s, run)
    requires r.files == s.files
    requires forall run ::
      DoneOps(r.jobs, run) == DoneOps(s.jobs, run) && DoneAnswers(r.jobs, run) == DoneAnswers(s.jobs, run)
    ensures forall run | SafeIdentifier(run) :: Linear(env, name, initial, r, run)
  {
    hide SafeIdentifier, DoneOps, DoneAnswers;
    forall run | SafeIdentifier(run) ensures Linear(env, name, initial, r, run) {
      assert Linear(env, name, initial, s, run);
    }
  }

  lemma {:induction false} EnqueueInv(env: Envelope, name: Naming, initial: Files, s: Store, op: Operation)
    requires StoreInv(env, name, initial, s) && Enabled(s, Enqueue(op))
    ensures StoreInv(env, name, initial, Next(env, name, s, Enqueue(op)))
  {
    hide QueueOk, LoadFile, SafeIdentifier, Linear;
    var r := Next(env, name, s, Enqueue(op));
    EnqueueOk(s, op);
    forall run ensures DoneOps(r.jobs, run) == DoneOps(s.jobs, run)
        && DoneAnswers(r.jobs, run) == DoneAnswers(s.jobs, run) {
      UnfinishedUncounted(r.jobs, |s.jobs|, run);
      assert r.jobs[..|s.jobs|] == s.jobs;
    }
    LinearSame(env, name, initial, s, r);
  }

  lemma {:induction false} LoadInv(env: Envelope, name: Naming, initial: Files, s: Store, t: nat)
    requires StoreInv(env, name, initial, s) && Enabled(s, Load(t))
    ensures StoreInv(env, name, initial, Next(env, name, s, Load(t)))
  {
    hide QueueOk, LoadFile, SafeIdentifier, Linear, DoneOps, DoneAnswers;
    var r := Next(env, name, s, Load(t));
    BeginsAlone(s, t);
    StageOk(s, t, r.jobs[t].stage);
    forall run ensures DoneOps(r.jobs, run) == DoneOps(s.jobs, run)
        && DoneAnswers(r.jobs, run) == DoneAnswers(s.jobs, run) {
      DoneSame(r.jobs, s.jobs, run);
    }
    LinearSame(env, name, initial, s, r);
  }

  lemma {:induction false} QueueIgnoresFiles(s: Store, r: Store)
    requires QueueOk(s) && r.jobs == s.jobs && r.tails == s.tails
    ensures QueueOk(r)
  {}

  lemma {:induction false} EarlierDone(s: Store, t: nat)
    requires QueueOk(s) && t < |s.jobs| && s.jobs[t].stage.Loaded?
    ensures forall i: nat | i < t && SameRun(s.jobs, i, t) :: s.jobs[i].stage.Done?
  {}

  lemma {:induction false} FinishInv(env: Envelope, name: Naming, initial: Files, s: Store, t: nat)
    requires StoreInv(env, name, initial, s) && Enabled(s, Finish(t)) && CollisionFree(name)
    ensures StoreInv(env, name, initial, Next(env, name, s, Finish(t)))
  {
    hide QueueOk, LoadFile, SafeIdentifier, Linear, Conclude, SnapshotsOk;
    var r := Next(env, name, s, Finish(t));
    FinishSnapshots(env, name, s, t);
    EarlierDone(s, t);
    StageOk(s, t, r.jobs[t].stage);
    QueueIgnoresFiles(s.(jobs := r.jobs), r);
    forall run | SafeIdentifier(run) ensures Linear(env, name, initial, r, run) {
      FinishLinear(env, name, initial, s, t, run);
    }
  }

  lemma {:induction false} CleanupInv(env: Envelope, name: Naming, initial: Files, s: Store, t: nat)
    requires StoreInv(env, name, initial, s) && Enabled(s, Cleanup(t))
    ensures StoreInv(env, name, initial, Next(env, name, s, Cleanup(t)))
  {
    hide QueueOk, LoadFile, SafeIdentifier, Linear;
    CleanupOk(s, t);
    LinearSame(env, name, initial, s, Next(env, name, s, Cleanup(t)));
  }

  lemma {:induction false} NextInv(env: Envelope, name: Naming, initial: Files, s: Store, step: Step)
    requires StoreInv(env, name, initial, s) && Enabled(s, step) && CollisionFree(name)
    ensures StoreInv(env, name, initial, Next(env, name, s, step))
  {
    hide StoreInv, Conclude, LoadFile;
    match step
    case Enqueue(op) => EnqueueInv(env, name, initial, s, op);
    case Load(t) => LoadInv(env, name, initial, s, t);
    case Finish(t) => FinishInv(env, name, initial, s, t);
    case Cleanup(t) => CleanupInv(env, name, initial, s, t);
  }

  // ---- Every interleaving ------------------------------------------------------------------------

  ghost predicate Legal(env: Envelope, name: Naming, s: Store, steps: seq<Step>)
    decreases |steps|
  {
    steps != [] ==> Enabled(s, steps[0]) && Legal(env, name, Next(env, name, s, steps[0]), steps[1..])
  }

  ghost function Exec(env: Envelope, name: Naming, s: Store, steps: seq<Step>): Store
    requires Legal(env, name, s, steps)
    decreases |steps|
  {
    if steps == [] then s else Exec(env, name, Next(env, name, s, steps[0]), steps[1..])
  }

  // Under any interleaving, each run's log and the answers given for it are those of its
  // finished operations executed atomically, one after the other, in arrival order.
  lemma {:induction false} Linearizable(env: Envelope, name: Naming, initial: Files, s: Store, steps: seq<Step>)
    requires CollisionFree(name) && StoreInv(env, name, initial, s) && Legal(env, name, s, steps)
    ensures StoreInv(env, name, initial, Exec(env, name, s, steps))
    decreases |steps|
  {
    hide StoreInv, Next, Enabled, CollisionFree;
    if steps == [] {
    } else {
      NextInv(env, name, initial, s, steps[0]);
      Linearizable(env, name, initial, Next(env, name, s, steps[0]), steps[1..]);
    }
  }

  lemma {:induction false} IdleInv(env: Envelope, name: Naming, initial: Files)
    ensures StoreInv(env, name, initial, Store(initial, [], map[]))
  {}

  lemma {:induction false} MirrorsByFile(env: Envelope, name: Naming, a: Files, b: Files, streams: Streams,
      run: JsString)
    requires MirrorsRun(env, name, a, streams, run) && FileAt(a, name(run)) == FileAt(b, name(run))
    ensures MirrorsRun(env, name, b, streams, run)
  {
    hide LoadFile;
  }

  // So concurrent use of the files is linearizable to the memory store, run by run.
  lemma {:induction false} ConcurrentStoreIsMemory(env: Envelope, name: Naming, initial: Files, streams: Streams,
      steps: seq<Step>, run: JsString)
    requires GoodEnvelope(env) && CollisionFree(name) && Mirrors(env, name, initial, streams)
    requires SafeIdentifier(run) && Legal(env, name, Store(initial, [], map[]), steps)
    ensures var s := Exec(env, name, Store(initial, [], map[]), steps);
            var (answers, after) := MemoryRun(env, streams, DoneOps(s.jobs, run));
            DoneAnswers(s.jobs, run) == answers && MirrorsRun(env, name, s.files, after, run)
  {
    hide QueueOk, SnapshotsOk, SafeIdentifier, MirrorsRun, Exec, GoodEnvelope, CollisionFree;
    var idle := Store(initial, [], map[]);
    IdleInv(env, name, initial);
    Linearizable(env, name, initial, idle, steps);
    var s := Exec(env, name, idle, steps);
    assert Linear(env, name, initial, s, run);
    var ops := DoneOps(s.jobs, run);
    JsonlRefinesMemory(env, name, initial, streams, ops);
    assert MirrorsRun(env, name, JsonlRun(env, name, initial, ops).1, MemoryRun(env, streams, ops).1, run);
    MirrorsByFile(env, name, JsonlRun(env, name, initial, ops).1, s.files, MemoryRun(env, streams, ops).1, run);
  }

  lemma {:induction false} DoneLengths(jobs: seq<Job>, run: JsString)
    ensures |DoneOps(jobs, run)| == |DoneAnswers(jobs, run)|
  {
    if jobs == [] {
    } else {
      DoneLengths(jobs[..|jobs| - 1], run);
    }
  }

  // Where a finished job stands among its run's finished operations.
  lemma {:induction false} DonePosition(jobs: seq<Job>, t: nat, run: JsString)
    requires t < |jobs| && jobs[t].stage.Done? && RunOf(jobs[t].op) == run
    ensures var p := |DoneOps(jobs[..t], run)|;
            && p < |DoneOps(jobs, run)| && DoneOps(jobs, run)[p] == jobs[t].op
            && p < |DoneAnswers(jobs, run)| && DoneAnswers(jobs, run)[p] == jobs[t].stage.answer
    decreases |jobs|
  {
    DoneLengths(jobs[..t], run);
    if t >= |jobs| - 1 {
    } else {
      DonePosition(jobs[..|jobs| - 1], t, run);
      assert jobs[..|jobs| - 1][..t] == jobs[..t];
    }
  }

  lemma {:induction false} DonePositionsIncrease(jobs: seq<Job>, i: nat, j: nat, run: JsString)
    requires i < j <= |jobs| && jobs[i].stage.Done? && RunOf(jobs[i].op) == run
    ensures |DoneOps(jobs[..i], run)| < |DoneOps(jobs[..j], run)|
    decreases j
  {
    assert jobs[..j][..j - 1] == jobs[..j - 1];
    if i >= j - 1 {
    } else {
      DonePositionsIncrease(jobs, i, j - 1, run);
    }
  }

  // A finished non-empty append that succeeded.
  ghost predicate Won(jobs: seq<Job>, t: nat) {
    && t < |jobs| && jobs[t].op.AppendEvents? && jobs[t].op.events != []
    && jobs[t].stage.Done? && jobs[t].stage.answer.Appended? && jobs[t].stage.answer.version.Ok?
  }

  lemma {:induction false} JobSafe(env: Envelope, name: Naming, initial: Files, steps: seq<Step>, t: nat)
    requires CollisionFree(name) && Legal(env, name, Store(initial, [], map[]), steps)
    ensures var jobs := Exec(env, name, Store(initial, [], map[]), steps).jobs;
            t < |jobs| ==> SafeIdentifier(RunOf(jobs[t].op))
  {
    hide QueueOk, Linear, SafeIdentifier, Exec, CollisionFree;
    IdleInv(env, name, initial);
    Linearizable(env, name, initial, Store(initial, [], map[]), steps);
    var s := Exec(env, name, Store(initial, [], map[]), steps);
    if t < |s.jobs| {
      OpSafe(env, name, s, t);
    }
  }

  lemma {:induction false} AnswersCount(env: Envelope, streams: Streams, ops: seq<Operation>)
    ensures |MemoryRun(env, streams, ops).0| == |ops|
  {
    if ops == [] {
    } else {
      AnswersCount(env, streams, ops[..|ops| - 1]);
    }
  }

  lemma {:induction false} AnswerAt(env: Envelope, streams: Streams, ops: seq<Operation>, k: nat)
    requires k < |ops|
    ensures |MemoryRun(env, streams, ops).0| == |ops|
    ensures MemoryRun(env, streams, ops).0[k] == MemoryStep(env, MemoryRun(env, streams, ops[..k]).1, ops[k]).0
    decreases |ops|
  {
    hide MemoryStep;
    var front := ops[..|ops| - 1];
    if k < |front| {
      AnswerAt(env, streams, front, k);
      assert front[..k] == ops[..k];
    } else {
      assert ops[..k] == front;
      AnswersCount(env, streams, front);
    }
  }

  lemma {:induction false} WonSucceeds(env: Envelope, streams: Streams, ops: seq<Operation>, k: nat, run: JsString)
    requires k < |ops| && ops[k].AppendEvents? && ops[k].runId == run
    requires var a := MemoryStep(env, MemoryRun(env, streams, ops[..k]).1, ops[k]).0; a.Appended? && a.version.Ok?
    ensures Succeeds(env, streams, ops, k, run)
  {
    hide MemoryStep, MemoryRun;
  }

  // Of two successful non-empty appends to a run, however they interleaved, the later arrival
  // expected a version at least as new as the one the earlier wrote: never the same one.
  lemma {:induction false} OneWinner(env: Envelope, name: Naming, initial: Files, streams: Streams, steps: seq<Step>,
      i: nat, j: nat)
    requires GoodEnvelope(env) && CollisionFree(name) && Mirrors(env, name, initial, streams)
    requires Legal(env, name, Store(initial, [], map[]), steps)
    ensures var jobs := Exec(env, name, Store(initial, [], map[]), steps).jobs;
            i < j && SameRun(jobs, i, j) && Won(jobs, i) && Won(jobs, j) ==>
              jobs[i].op.expected + |jobs[i].op.events| <= jobs[j].op.expected
  {
    hide Legal, Exec, GoodEnvelope, CollisionFree, Mirrors, SafeIdentifier, DoneOps, DoneAnswers, MirrorsRun, MemoryRun;
    var s := Exec(env, name, Store(initial, [], map[]), steps);
    if i < j && SameRun(s.jobs, i, j) && Won(s.jobs, i) && Won(s.jobs, j) {
      var run := RunOf(s.jobs[i].op);
      JobSafe(env, name, initial, steps, i);
      ConcurrentStoreIsMemory(env, name, initial, streams, steps, run);
      var ops := DoneOps(s.jobs, run);
      DonePosition(s.jobs, i, run);
      DonePosition(s.jobs, j, run);
      DonePositionsIncrease(s.jobs, i, j, run);
      var p, q := |DoneOps(s.jobs[..i], run)|, |DoneOps(s.jobs[..j], run)|;
      AnswerAt(env, streams, ops, p);
      AnswerAt(env, streams, ops, q);
      WonSucceeds(env, streams, ops, p, run);
      WonSucceeds(env, streams, ops, q, run);
      CasChain(env, streams, ops, p, q, run);
    }
  }

  // Every queued operation gets its turn, whatever the others answer: while one is
  // unfinished, some operation can load or finish.
  lemma {:induction false} QueueMoves(s: Store, t: nat) returns (step: Step)
    requires QueueOk(s) && t < |s.jobs| && !s.jobs[t].stage.Done?
    ensures Enabled(s, step) && (step.Load? || step.Finish?) && step.ticket <= t && SameRun(s.jobs, step.ticket, t)
  {
    if s.jobs[t].stage.Loaded? {
      step := Finish(t);
    } else if exists i: nat :: i < t && SameRun(s.jobs, i, t) && !s.jobs[i].stage.Done? {
      var i: nat :| i < t && SameRun(s.jobs, i, t) && !s.jobs[i].stage.Done?;
      step := QueueMoves(s, i);
    } else {
      step := Load(t);
    }
  }
}
