/**
 The correspondence between the semaphore and the tasks: slots are held by exactly the
 tasks between their grant and their release, and live waiters are exactly the tasks
 that wait for a slot.
 */
module SlotLinks {
  import opened Wrappers
  import opened Graphs
  import opened Semaphores
  import opened Scheduler

  function SlotOf(t: Task): Option<nat> {
    match t.phase
    case Granted(slot) => Some(slot)
    case Running(slot) => Some(slot)
    case Decided(slot, _) => Some(slot)
    case _ => None
  }

  predicate Idle(t: Task) {
    SlotOf(t).None? && !t.phase.Waiting?
  }

  predicate LiveAt(sem: Sem<NodeId>, i: nat) {
    i < |sem.waiters| && !sem.waiters[i].cancelled
  }

  ghost predicate SlotsLinked(owners: map<nat, NodeId>, tasks: map<NodeId, Task>) {
    && (forall slot | slot in owners :: owners[slot] in tasks && SlotOf(tasks[owners[slot]]) == Some(slot))
    && (forall n | n in tasks && SlotOf(tasks[n]).Some? ::
          SlotOf(tasks[n]).value in owners && owners[SlotOf(tasks[n]).value] == n)
  }

  ghost predicate WaitersLinked(sem: Sem<NodeId>, tasks: map<NodeId, Task>) {
    && (forall i: nat | LiveAt(sem, i) :: sem.waiters[i].id in tasks && tasks[sem.waiters[i].id].phase.Waiting?)
    && (forall i: nat, j: nat | LiveAt(sem, i) && LiveAt(sem, j) && sem.waiters[i].id == sem.waiters[j].id :: i == j)
    && (forall n | n in tasks && tasks[n].phase.Waiting? :: exists i: nat :: LiveAt(sem, i) && sem.waiters[i].id == n)
  }

  ghost predicate Links(sem: Sem<NodeId>, tasks: map<NodeId, Task>) {
    SlotsLinked(sem.owners, tasks) && WaitersLinked(sem, tasks)
  }

  // After the abort nobody waits.
  ghost predicate Drained(sem: Sem<NodeId>, aborted: bool) {
    aborted ==> forall i: nat :: !LiveAt(sem, i)
  }

  // A step inside a task that keeps its slot or keeps it idle.
  lemma {:induction false} LinksSame(sem: Sem<NodeId>, tasks: map<NodeId, Task>, n: NodeId, t: Task)
    requires Links(sem, tasks) && n in tasks
    requires SlotOf(t) == SlotOf(tasks[n]) && t.phase.Waiting? == tasks[n].phase.Waiting?
    ensures Links(sem, tasks[n := t])
  {}

  lemma {:induction false} LinksAdd(sem: Sem<NodeId>, tasks: map<NodeId, Task>, n: NodeId, t: Task)
    requires Links(sem, tasks) && n !in tasks && Idle(t)
    ensures Links(sem, tasks[n := t])
  {}

  lemma {:induction false} LinksRemove(sem: Sem<NodeId>, tasks: map<NodeId, Task>, n: NodeId)
    requires Links(sem, tasks) && n in tasks && Idle(tasks[n])
    ensures Links(sem, tasks - {n})
  {}

  // What a release does to the queue.
  lemma {:induction false} ReleaseWaiters(sem: Sem<NodeId>, slot: nat) returns (k: nat)
    requires slot in sem.owners
    ensures var (after, wakeup) := OnRelease(sem, slot);
            && k <= |sem.waiters| && after.waiters == sem.waiters[k..]
            && match wakeup
               case None => k == |sem.waiters| && forall i: nat | i < k :: sem.waiters[i].cancelled
               case Some(w) => k >= 1 && LiveAt(sem, k - 1) && sem.waiters[k - 1].id == w.id
                               && forall i: nat | i < k - 1 :: sem.waiters[i].cancelled
  {
    hide Live;
    var live := Live(sem.waiters);
    k := if live == [] then |sem.waiters| else |sem.waiters| - |live| + 1;
    if live != [] {
      assert sem.waiters[k - 1] == live[0];
    }
  }

  lemma {:induction false} ReleaseSlots(sem: Sem<NodeId>, tasks: map<NodeId, Task>, n: NodeId, slot: nat, t: Task)
    requires SemInv(sem) && Links(sem, tasks)
    requires n in tasks && SlotOf(tasks[n]) == Some(slot) && Idle(t)
    ensures var (after, wakeup) := OnRelease(sem, slot);
            SlotsLinked(after.owners, Awaken(tasks, wakeup)[n := t])
  {
    hide OnRelease, SemInv;
    ReleaseInv(sem, slot);
    var k := ReleaseWaiters(sem, slot);
  }

  lemma {:induction false} ReleaseQueueLinked(sem: Sem<NodeId>, tasks: map<NodeId, Task>, n: NodeId, slot: nat, t: Task,
      k: nat)
    requires Links(sem, tasks) && slot in sem.owners
    requires n in tasks && SlotOf(tasks[n]) == Some(slot) && Idle(t)
    requires var (after, wakeup) := OnRelease(sem, slot);
             && k <= |sem.waiters| && after.waiters == sem.waiters[k..]
             && match wakeup
                case None => k == |sem.waiters| && forall i: nat | i < k :: sem.waiters[i].cancelled
                case Some(w) => k >= 1 && LiveAt(sem, k - 1) && sem.waiters[k - 1].id == w.id
                                && forall i: nat | i < k - 1 :: sem.waiters[i].cancelled
    ensures var (after, wakeup) := OnRelease(sem, slot);
            WaitersLinked(after, Awaken(tasks, wakeup)[n := t])
  {
    hide OnRelease;
    var (after, wakeup) := OnRelease(sem, slot);
    var woken := Awaken(tasks, wakeup)[n := t];
    forall i: nat | LiveAt(after, i) ensures LiveAt(sem, k + i) && after.waiters[i] == sem.waiters[k + i] {}
    forall m | m in woken && woken[m].phase.Waiting?
        ensures exists i: nat :: LiveAt(after, i) && after.waiters[i].id == m {
      assert m in tasks && tasks[m].phase.Waiting?;
      var i: nat :| LiveAt(sem, i) && sem.waiters[i].id == m;
      assert i >= k;
      assert after.waiters[i - k] == sem.waiters[i];
      assert LiveAt(after, i - k);
    }
  }

  lemma {:induction false} LinksRelease(sem: Sem<NodeId>, tasks: map<NodeId, Task>, n: NodeId, slot: nat, t: Task)
    requires SemInv(sem) && Links(sem, tasks)
    requires n in tasks && SlotOf(tasks[n]) == Some(slot) && Idle(t)
    ensures slot in sem.owners
    ensures var (after, wakeup) := OnRelease(sem, slot);
            && SemInv(after) && Links(after, Awaken(tasks, wakeup)[n := t])
            && (wakeup.Some? ==>
                wakeup.value.id != n && wakeup.value.id in tasks && tasks[wakeup.value.id].phase.Waiting?)
  {
    var (after, wakeup) := OnRelease(sem, slot);
    ReleaseInv(sem, slot);
    var k := ReleaseWaiters(sem, slot);
    ReleaseSlots(sem, tasks, n, slot, t);
    ReleaseQueueLinked(sem, tasks, n, slot, t, k);
  }

  lemma {:induction false} RequestGranted(s: State, n: NodeId, slot: nat, t: Task)
    requires Links(s.sem, s.tasks) && slot !in s.sem.owners && SlotOf(t) == Some(slot)
    requires n in s.tasks ==> Idle(s.tasks[n])
    ensures SlotsLinked(s.sem.owners[slot := n], s.tasks[n := t]) && WaitersLinked(s.sem, s.tasks[n := t])
  {}

  lemma {:induction false} RequestQueued(s: State, n: NodeId, sem: Sem<NodeId>, t: Task)
    requires Links(s.sem, s.tasks) && t.phase.Waiting?
    requires n in s.tasks ==> Idle(s.tasks[n])
    requires sem.owners == s.sem.owners && sem.waiters == s.sem.waiters + [Waiter(s.sem.arrivals, n, false)]
    ensures Links(sem, s.tasks[n := t])
  {
    var tasks := s.tasks[n := t];
    forall i: nat | LiveAt(sem, i) ensures i < |s.sem.waiters|
        ==> LiveAt(s.sem, i) && sem.waiters[i] == s.sem.waiters[i] {}
    forall m | m in tasks && tasks[m].phase.Waiting? ensures exists i: nat :: LiveAt(sem, i) && sem.waiters[i].id == m {
      if m == n {
        assert LiveAt(sem, |s.sem.waiters|);
      } else {
        var i: nat :| LiveAt(s.sem, i) && s.sem.waiters[i].id == m;
        assert LiveAt(sem, i) && sem.waiters[i] == s.sem.waiters[i];
      }
    }
  }

  // Asking for a slot from an idle state, or for the first time.
  lemma {:induction false} LinksRequest(s: State, n: NodeId, attempts: nat, last: Option<ReadyQueue.NodeFailure>)
    requires SemInv(s.sem) && Links(s.sem, s.tasks) && Drained(s.sem, s.aborted)
    requires n in s.tasks ==> Idle(s.tasks[n])
    ensures var r := Request(s, n, attempts, last);
            SemInv(r.sem) && Links(r.sem, r.tasks) && Drained(r.sem, r.aborted) && r.sem.limit == s.sem.limit
  {
    AcquireInv(s.sem, n, s.aborted);
    var r := Request(s, n, attempts, last);
    match OnAcquire(s.sem, n, s.aborted).1
    case Rejected =>
    case Granted(slot) =>
      RequestGranted(s, n, slot, r.tasks[n]);
    case Queued(_) =>
      RequestQueued(s, n, r.sem, r.tasks[n]);
  }

  // What one fired listener does to the queue.
  lemma {:induction false} CancelMeans(sem: Sem<NodeId>, i: nat)
    requires SemInv(sem) && i < |sem.waiters|
    ensures var r := OnCancel(sem, sem.waiters[i].arrival);
            && SemInv(r) && r.owners == sem.owners && r.limit == sem.limit && |r.waiters| == |sem.waiters|
            && (forall j | 0 <= j < |sem.waiters| ::
                  r.waiters[j].arrival == sem.waiters[j].arrival
                      && (sem.waiters[j].cancelled ==> r.waiters[j].cancelled))
            && r.waiters[i].cancelled
  {
    hide SemInv;
    CancelInv(sem, sem.waiters[i].arrival);
    assert Holds(sem.waiters, sem.waiters[i].arrival);
  }

  // The abort rejects every waiting task and cancels every queued waiter.
  lemma {:induction false} CancelFirstMeans(sem: Sem<NodeId>, k: nat)
    requires SemInv(sem) && k <= |sem.waiters|
    ensures var r := CancelFirst(sem, k);
            && SemInv(r) && r.owners == sem.owners && r.limit == sem.limit
            && (forall i | 0 <= i < |sem.waiters| :: r.waiters[i].arrival == sem.waiters[i].arrival)
            && (forall i | 0 <= i < k :: r.waiters[i].cancelled)
  {
    hide SemInv, OnCancel;
    if k == 0 {
    } else {
      CancelFirstMeans(sem, k - 1);
      CancelMeans(CancelFirst(sem, k - 1), k - 1);
    }
  }

  lemma {:induction false} AbortSlots(s: State, owners: map<nat, NodeId>)
    requires SlotsLinked(owners, s.tasks)
    ensures SlotsLinked(owners, AbortStep(s).tasks)
    ensures AbortStep(s).tasks.Keys == s.tasks.Keys
    ensures forall n | n in s.tasks :: !AbortStep(s).tasks[n].phase.Waiting?
  {
    hide CancelFirst;
    var tasks := AbortStep(s).tasks;
    forall n | n in s.tasks ensures SlotOf(tasks[n]) == SlotOf(s.tasks[n]) {}
  }

  lemma {:induction false} LinksAbort(s: State)
    requires SemInv(s.sem) && Links(s.sem, s.tasks)
    ensures var r := AbortStep(s);
            && SemInv(r.sem) && Links(r.sem, r.tasks) && Drained(r.sem, true)
            && r.sem.limit == s.sem.limit && r.tasks.Keys == s.tasks.Keys
  {
    hide SemInv, CancelFirst;
    CancelFirstMeans(s.sem, |s.sem.waiters|);
    AbortSlots(s, s.sem.owners);
    var r := AbortStep(s);
    assert forall i: nat :: !LiveAt(r.sem, i);
  }
}
