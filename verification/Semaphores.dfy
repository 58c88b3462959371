/**
 The attempt semaphore of the scheduler: a slot count, a queue of waiters that may be
 cancelled while they wait, and release handles that work once.
 */
module Semaphores {
  import opened Wrappers

  // A queued request; arrival numbers count queued requests in order.
  datatype Waiter<T> = Waiter(arrival: nat, id: T, cancelled: bool)

  // owners maps each granted, unreleased slot to its holder. woken and dropped are
  // history: arrivals granted from the queue, in order, and arrivals cancelled in it.
  datatype Sem<T> = Sem(
    limit: nat, running: int, observed: int, waiters: seq<Waiter<T>>, owners: map<nat, T>,
    slots: nat, arrivals: nat, woken: seq<nat>, dropped: set<nat>)

  datatype Answer = Rejected | Granted(slot: nat) | Queued(arrival: nat)

  datatype Wakeup<T> = Wakeup(id: T, slot: nat)

  function Max(a: int, b: int): int { if a < b then b else a }

  function Fresh<T>(limit: nat): Sem<T> {
    Sem(limit, 0, 0, [], map[], 0, 0, [], {})
  }

  function Grant<T>(s: Sem<T>, id: T): Sem<T> {
    s.(running := s.running + 1, observed := Max(s.observed, s.running + 1),
       owners := s.owners[s.slots := id], slots := s.slots + 1)
  }

  function OnAcquire<T>(s: Sem<T>, id: T, aborted: bool): (Sem<T>, Answer) {
    if aborted then (s, Rejected)
    else if s.running < s.limit then (Grant(s, id), Granted(s.slots))
    else (s.(waiters := s.waiters + [Waiter(s.arrivals, id, false)], arrivals := s.arrivals + 1), Queued(s.arrivals))
  }

  // Drop cancelled waiters from the head of the queue.
  function Live<T>(waiters: seq<Waiter<T>>): (r: seq<Waiter<T>>)
    ensures |r| <= |waiters| && r == waiters[|waiters| - |r|..]
    ensures forall i | 0 <= i < |waiters| - |r| :: waiters[i].cancelled
    ensures r != [] ==> !r[0].cancelled
  {
    if waiters != [] && waiters[0].cancelled then Live(waiters[1..]) else waiters
  }

  function Returned<T>(s: Sem<T>, slot: nat): Sem<T> {
    s.(running := s.running - 1, observed := Max(s.observed, s.running - 1), owners := s.owners - {slot})
  }

  // Hand a free slot to the first live waiter, dropping cancelled ones on the way.
  function WakeFirst<T>(s: Sem<T>): (Sem<T>, Option<Wakeup<T>>) {
    var live := Live(s.waiters);
    if live == [] then (s.(waiters := []), None)
    else
      (Grant(s, live[0].id).(waiters := live[1..], woken := s.woken + [live[0].arrival]),
       Some(Wakeup(live[0].id, s.slots)))
  }

  function OnRelease<T>(s: Sem<T>, slot: nat): (Sem<T>, Option<Wakeup<T>>) {
    if slot !in s.owners then (s, None) else WakeFirst(Returned(s, slot))
  }

  function Mark<T>(waiters: seq<Waiter<T>>, arrival: nat): (r: seq<Waiter<T>>)
    ensures |r| == |waiters|
    ensures forall i | 0 <= i < |waiters| ::
              r[i] == if waiters[i].arrival == arrival then waiters[i].(cancelled := true) else waiters[i]
  {
    seq(|waiters|, i requires 0 <= i < |waiters| =>
      if waiters[i].arrival == arrival then waiters[i].(cancelled := true) else waiters[i])
  }

  predicate Holds<T>(waiters: seq<Waiter<T>>, arrival: nat) {
    exists i | 0 <= i < |waiters| :: waiters[i].arrival == arrival
  }

  // A waiter's signal fires while it is queued; after a grant its listener is gone.
  function OnCancel<T>(s: Sem<T>, arrival: nat): Sem<T> {
    if Holds(s.waiters, arrival) then s.(waiters := Mark(s.waiters, arrival), dropped := s.dropped + {arrival}) else s
  }

  // ---- The invariant -------------------------------------------------------------

  ghost predicate Increasing(s: seq<nat>) {
    forall i, j | 0 <= i < j < |s| :: s[i] < s[j]
  }

  // Waiters queue in arrival order, and the cancelled ones are the dropped arrivals.
  ghost predicate QueueOk<T>(waiters: seq<Waiter<T>>, arrivals: nat, dropped: set<nat>) {
    && (forall i, j | 0 <= i < j < |waiters| :: waiters[i].arrival < waiters[j].arrival)
    && (forall i | 0 <= i < |waiters| :: waiters[i].arrival < arrivals)
    && (forall i | 0 <= i < |waiters| :: waiters[i].cancelled <==> waiters[i].arrival in dropped)
    && (forall a | a in dropped :: a < arrivals)
  }

  // Grants went in arrival order, ahead of everyone queued, and no arrival is unaccounted for.
  ghost predicate HistoryOk<T>(waiters: seq<Waiter<T>>, arrivals: nat, woken: seq<nat>, dropped: set<nat>) {
    && Increasing(woken)
    && (forall i, j | 0 <= i < |woken| && 0 <= j < |waiters| :: woken[i] < waiters[j].arrival)
    && (forall i | 0 <= i < |woken| :: woken[i] < arrivals && woken[i] !in dropped)
    && (forall a: nat | a < arrivals :: a in woken || a in dropped || Holds(waiters, a))
  }

  ghost predicate SlotInv<T>(s: Sem<T>) {
    && s.running == |s.owners| <= s.limit
    && s.running <= s.observed <= s.limit
    && (forall slot | slot in s.owners :: slot < s.slots)
    && (forall i | 0 <= i < |s.waiters| && !s.waiters[i].cancelled :: s.running == s.limit)
  }

  ghost predicate SemInv<T>(s: Sem<T>) {
    SlotInv(s) && QueueOk(s.waiters, s.arrivals, s.dropped) && HistoryOk(s.waiters, s.arrivals, s.woken, s.dropped)
  }

  // A new waiter queues behind all others.
  lemma {:induction false} QueuedLast<T(!new)>(waiters: seq<Waiter<T>>, arrivals: nat, woken: seq<nat>,
      dropped: set<nat>, id: T)
    requires QueueOk(waiters, arrivals, dropped) && HistoryOk(waiters, arrivals, woken, dropped)
    ensures var more := waiters + [Waiter(arrivals, id, false)];
            QueueOk(more, arrivals + 1, dropped) && HistoryOk(more, arrivals + 1, woken, dropped)
  {
    var more := waiters + [Waiter(arrivals, id, false)];
    forall a: nat | a < arrivals + 1 ensures a in woken || a in dropped || Holds(more, a) {
      if a == arrivals {
        assert more[|waiters|].arrival == a;
      } else if Holds(waiters, a) {
        var i :| 0 <= i < |waiters| && waiters[i].arrival == a;
        assert more[i].arrival == a;
      }
    }
  }

  lemma {:induction false} AcquireInv<T(!new)>(s: Sem<T>, id: T, aborted: bool)
    requires SemInv(s)
    ensures SemInv(OnAcquire(s, id, aborted).0)
    ensures match OnAcquire(s, id, aborted).1
            case Rejected => aborted && OnAcquire(s, id, aborted).0 == s
            case Granted(slot) => !aborted && s.running < s.limit && slot !in s.owners
                                  && OnAcquire(s, id, aborted).0.owners == s.owners[slot := id]
            case Queued(_) => !aborted && s.running == s.limit && OnAcquire(s, id, aborted).0.owners == s.owners
  {
    hide QueueOk, HistoryOk;
    var (t, answer) := OnAcquire(s, id, aborted);
    if answer.Granted? {
      assert t.owners.Keys == s.owners.Keys + {s.slots};
    } else if answer.Queued? {
      QueuedLast(s.waiters, s.arrivals, s.woken, s.dropped, id);
    }
  }

  lemma {:induction false} ReleaseAbsent<T>(s: Sem<T>, slot: nat)
    ensures slot !in s.owners ==> OnRelease(s, slot) == (s, None)
  {}

  ghost predicate FirstLive<T>(waiters: seq<Waiter<T>>, id: T) {
    exists k :: 0 <= k < |waiters| && waiters[k].id == id && !waiters[k].cancelled
             && forall i | 0 <= i < k :: waiters[i].cancelled
  }

  // The slots after a release: one fewer in use, or handed on to the first live waiter.
  lemma {:induction false} ReleaseSlotInv<T(!new)>(s: Sem<T>, slot: nat)
    requires SlotInv(s) && slot in s.owners
    ensures SlotInv(OnRelease(s, slot).0)
    ensures match OnRelease(s, slot).1
            case None => OnRelease(s, slot).0.owners == s.owners - {slot}
                         && forall i | 0 <= i < |s.waiters| :: s.waiters[i].cancelled
            case Some(w) => w.slot !in s.owners && OnRelease(s, slot).0.owners == (s.owners - {slot})[w.slot := w.id]
                            && FirstLive(s.waiters, w.id)
  {
    hide Live;
    var live, t := Live(s.waiters), OnRelease(s, slot).0;
    assert (s.owners - {slot}).Keys == s.owners.Keys - {slot};
    if live != [] {
      assert t.owners.Keys == s.owners.Keys - {slot} + {s.slots};
      assert s.waiters[|s.waiters| - |live|] == live[0];
    }
  }

  lemma {:induction false} HoldsTail<T>(waiters: seq<Waiter<T>>, a: nat)
    requires waiters != []
    ensures Holds(waiters, a) ==> waiters[0].arrival == a || Holds(waiters[1..], a)
  {
    if Holds(waiters, a) {
      var i :| 0 <= i < |waiters| && waiters[i].arrival == a;
      assert i > 0 ==> waiters[1..][i - 1].arrival == a;
    }
  }

  // Dropping cancelled waiters from the head loses nobody.
  lemma {:induction false} LiveOk<T(!new)>(waiters: seq<Waiter<T>>, arrivals: nat, woken: seq<nat>, dropped: set<nat>)
    requires QueueOk(waiters, arrivals, dropped) && HistoryOk(waiters, arrivals, woken, dropped)
    ensures QueueOk(Live(waiters), arrivals, dropped) && HistoryOk(Live(waiters), arrivals, woken, dropped)
  {
    if waiters != [] && waiters[0].cancelled {
      var rest := waiters[1..];
      forall a: nat | a < arrivals ensures a in woken || a in dropped || Holds(rest, a) {
        HoldsTail(waiters, a);
      }
      LiveOk(rest, arrivals, woken, dropped);
    }
  }

  // Granting to a live head extends the grant history in order.
  lemma {:induction false} HeadWoken<T(!new)>(waiters: seq<Waiter<T>>, arrivals: nat, woken: seq<nat>,
      dropped: set<nat>)
    requires QueueOk(waiters, arrivals, dropped) && HistoryOk(waiters, arrivals, woken, dropped)
    requires waiters != [] && !waiters[0].cancelled
    ensures QueueOk(waiters[1..], arrivals, dropped)
    ensures HistoryOk(waiters[1..], arrivals, woken + [waiters[0].arrival], dropped)
  {
    var grown := woken + [waiters[0].arrival];
    assert forall x | x in woken :: x in grown;
    assert grown[|woken|] == waiters[0].arrival;
    forall a: nat | a < arrivals ensures a in grown || a in dropped || Holds(waiters[1..], a) {
      HoldsTail(waiters, a);
    }
  }

  lemma {:induction false} ReleaseQueue<T(!new)>(s: Sem<T>, slot: nat)
    requires QueueOk(s.waiters, s.arrivals, s.dropped) && HistoryOk(s.waiters, s.arrivals, s.woken, s.dropped)
    requires slot in s.owners
    ensures var t := OnRelease(s, slot).0;
            QueueOk(t.waiters, t.arrivals, t.dropped) && HistoryOk(t.waiters, t.arrivals, t.woken, t.dropped)
  {
    hide QueueOk, HistoryOk, Live;
    var live := Live(s.waiters);
    LiveOk(s.waiters, s.arrivals, s.woken, s.dropped);
    if live != [] {
      HeadWoken(live, s.arrivals, s.woken, s.dropped);
    }
  }

  // Releasing keeps the invariant: a freed slot goes to the first live waiter, if there is one.
  lemma {:induction false} ReleaseInv<T(!new)>(s: Sem<T>, slot: nat)
    requires SemInv(s)
    ensures SemInv(OnRelease(s, slot).0)
    ensures slot !in s.owners ==> OnRelease(s, slot) == (s, None)
    ensures slot in s.owners ==>
      match OnRelease(s, slot).1
      case None => OnRelease(s, slot).0.owners == s.owners - {slot}
                   && forall i | 0 <= i < |s.waiters| :: s.waiters[i].cancelled
      case Some(w) => w.slot !in s.owners && OnRelease(s, slot).0.owners == (s.owners - {slot})[w.slot := w.id]
                      && FirstLive(s.waiters, w.id)
  {
    hide SlotInv, QueueOk, HistoryOk, OnRelease, Live, FirstLive;
    ReleaseAbsent(s, slot);
    if slot in s.owners {
      ReleaseSlotInv(s, slot);
      ReleaseQueue(s, slot);
    }
  }

  lemma {:induction false} MarkHolds<T>(waiters: seq<Waiter<T>>, arrival: nat, a: nat)
    ensures Holds(waiters, a) ==> Holds(Mark(waiters, arrival), a)
  {
    if Holds(waiters, a) {
      var i :| 0 <= i < |waiters| && waiters[i].arrival == a;
      assert Mark(waiters, arrival)[i].arrival == a;
    }
  }

  lemma {:induction false} CancelInv<T(!new)>(s: Sem<T>, arrival: nat)
    requires SemInv(s)
    ensures SemInv(OnCancel(s, arrival)) && OnCancel(s, arrival).owners == s.owners
  {
    if Holds(s.waiters, arrival) {
      var i :| 0 <= i < |s.waiters| && s.waiters[i].arrival == arrival;
      var marked, gone := Mark(s.waiters, arrival), s.dropped + {arrival};
      assert forall j | 0 <= j < |s.woken| :: s.woken[j] < s.waiters[i].arrival;
      assert QueueOk(marked, s.arrivals, gone);
      forall a: nat | a < s.arrivals ensures a in s.woken || a in gone || Holds(marked, a) {
        MarkHolds(s.waiters, arrival, a);
      }
    }
  }

  // ---- Whole runs ------------------------------------------------------------------

  datatype Operation<T> = DoAcquire(id: T, aborted: bool) | DoRelease(slot: nat) | DoCancel(arrival: nat)

  function Apply<T>(s: Sem<T>, op: Operation<T>): Sem<T> {
    match op
    case DoAcquire(id, aborted) => OnAcquire(s, id, aborted).0
    case DoRelease(slot) => OnRelease(s, slot).0
    case DoCancel(arrival) => OnCancel(s, arrival)
  }

  function ApplyAll<T>(s: Sem<T>, ops: seq<Operation<T>>): Sem<T> {
    if ops == [] then s else Apply(ApplyAll(s, ops[..|ops| - 1]), ops[|ops| - 1])
  }

  lemma {:induction false} RunInv<T(!new)>(limit: nat, ops: seq<Operation<T>>)
    ensures SemInv(ApplyAll(Fresh(limit), ops)) && ApplyAll(Fresh(limit), ops).limit == limit
  {
    if ops == [] {
    } else {
      RunInv(limit, ops[..|ops| - 1]);
      var s := ApplyAll(Fresh(limit), ops[..|ops| - 1]);
      match ops[|ops| - 1]
      case DoAcquire(id, aborted) => AcquireInv(s, id, aborted);
      case DoRelease(slot) => ReleaseInv(s, slot);
      case DoCancel(arrival) => CancelInv(s, arrival);
    }
  }

  // In every reachable state: slots in use are exactly counted and within the limit; no slot
  // is idle while a live waiter queues; queued requests are granted in arrival order, and
  // whoever arrived before a granted request was granted before it or gave up.
  lemma {:induction false} SemaphoreSafety<T(!new)>(limit: nat, ops: seq<Operation<T>>)
    ensures var s := ApplyAll(Fresh(limit), ops);
            && s.running == |s.owners| <= limit && s.observed <= limit
            && (forall i | 0 <= i < |s.waiters| && !s.waiters[i].cancelled :: s.running == limit)
            && Increasing(s.woken)
            && forall a: nat, b | b in s.woken && a < b :: a in s.woken || a in s.dropped
  {
    RunInv(limit, ops);
    var s := ApplyAll(Fresh(limit), ops);
    forall a: nat, b | b in s.woken && a < b ensures a in s.woken || a in s.dropped {
      var j :| 0 <= j < |s.woken| && s.woken[j] == b;
      assert forall i | 0 <= i < |s.waiters| :: s.woken[j] < s.waiters[i].arrival;
      assert a < s.arrivals;
    }
  }

  lemma {:induction false} StepObserved<T(!new)>(s: Sem<T>, op: Operation<T>)
    requires s.running <= s.observed
    ensures var r := Apply(s, op);
            && r.running <= r.observed && s.observed <= r.observed
            && (r.observed == s.observed || r.observed == r.running)
  {}

  // What is reported as observed is the most slots that were ever in use at once.
  lemma {:induction false} PeakObserved<T(!new)>(limit: nat, ops: seq<Operation<T>>) returns (k: nat)
    ensures forall j | 0 <= j <= |ops| ::
              ApplyAll(Fresh(limit), ops[..j]).running <= ApplyAll(Fresh(limit), ops).observed
    ensures k <= |ops| && ApplyAll(Fresh(limit), ops[..k]).running == ApplyAll(Fresh(limit), ops).observed
  {
    hide Apply;
    var s := ApplyAll(Fresh(limit), ops);
    assert ops[..|ops|] == ops;
    if ops == [] {
      k := 0;
    } else {
      var front, last := ops[..|ops| - 1], |ops| - 1;
      k := PeakObserved(limit, front);
      assert forall j | 0 <= j <= last :: ops[..j] == front[..j];
      assert front[..last] == front;
      StepObserved(ApplyAll(Fresh(limit), front), ops[last]);
      if s.observed != ApplyAll(Fresh(limit), front).observed {
        k := |ops|;
      }
    }
  }

  // ---- The object ---------------------------------------------------------------------

  class AttemptSemaphore<T(==)> {
    const limit: nat
    var running: int
    var observed: int
    var waiters: seq<Waiter<T>>
    var owners: map<nat, T>
    var slots: nat
    var arrivals: nat
    ghost var woken: seq<nat>
    ghost var dropped: set<nat>

    ghost function Model(): Sem<T>
      reads this
    {
      Sem(limit, running, observed, waiters, owners, slots, arrivals, woken, dropped)
    }

    constructor (limit: nat)
      ensures this.limit == limit && Model() == Fresh(limit)
    {
      this.limit := limit;
      running, observed, waiters, owners, slots, arrivals := 0, 0, [], map[], 0, 0;
      woken, dropped := [], {};
    }

    // Count one more running attempt and hand out its release handle.
    method Take(id: T) returns (slot: nat)
      modifies this`running, this`observed, this`owners, this`slots
      ensures Model() == Grant(old(Model()), id) && slot == old(slots)
    {
      slot := slots;
      running := running + 1;
      observed := Max(observed, running);
      owners := owners[slot := id];
      slots := slots + 1;
    }

    method Acquire(id: T, aborted: bool) returns (answer: Answer)
      modifies this
      ensures (Model(), answer) == OnAcquire(old(Model()), id, aborted)
    {
      if aborted {
        return Rejected;
      }
      if running < limit {
        var slot := Take(id);
        return Granted(slot);
      }
      waiters := waiters + [Waiter(arrivals, id, false)];
      arrivals := arrivals + 1;
      return Queued(arrivals - 1);
    }

    method Wake() returns (wakeup: Option<Wakeup<T>>)
      modifies this
      ensures (Model(), wakeup) == WakeFirst(old(Model()))
    {
      while waiters != []
        invariant Model() == old(Model()).(waiters := waiters)
        invariant Live(waiters) == Live(old(waiters))
      {
        var next := waiters[0];
        waiters := waiters[1..];
        if !next.cancelled {
          var granted := Take(next.id);
          woken := woken + [next.arrival];
          return Some(Wakeup(next.id, granted));
        }
      }
      return None;
    }

    // The release handle of a slot: only its first call has an effect.
    method Release(slot: nat) returns (wakeup: Option<Wakeup<T>>)
      modifies this
      ensures (Model(), wakeup) == OnRelease(old(Model()), slot)
    {
      hide WakeFirst;
      if slot !in owners {
        return None;
      }
      owners := owners - {slot};
      running := running - 1;
      observed := Max(observed, running);
      assert Model() == Returned(old(Model()), slot);
      wakeup := Wake();
    }

    method Cancel(arrival: nat)
      modifies this`waiters, this`dropped
      ensures Model() == OnCancel(old(Model()), arrival)
    {
      for index := 0 to |waiters|
        invariant |waiters| == |old(waiters)|
        invariant forall i | 0 <= i < |waiters| ::
          waiters[i] == if i < index && old(waiters)[i].arrival == arrival
                        then old(waiters)[i].(cancelled := true) else old(waiters)[i]
        invariant dropped == old(dropped)
      {
        if waiters[index].arrival == arrival {
          waiters := waiters[index := waiters[index].(cancelled := true)];
        }
      }
      assert waiters == Mark(old(waiters), arrival);
      if Holds(old(waiters), arrival) {
        dropped := dropped + {arrival};
      } else {
        assert waiters == old(waiters);
      }
    }
  }
}
