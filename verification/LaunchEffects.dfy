/** What a launch pass changes: it only adds, and what it adds comes from the new part of the schedule. */
module LaunchEffects {
  import opened Sequences
  import opened Json
  import opened Graphs
  import opened CompilerSpec
  import opened ReadyQueue
  import opened Readiness
  import opened Scheduler
  import Compiler

  // d was reached from c by launching.
  ghost predicate Grown(c: Core, d: Core) {
    && c.scheduled <= d.scheduled
    && (forall m | m in c.results :: m in d.results && d.results[m] == c.results[m])
    && (forall m | m in c.active :: m in d.active && d.active[m] == c.active[m])
    && (forall m | m in d.results && m !in c.results ::
          d.results[m].attempts == 0 && d.results[m].status != Succeeded && m in d.scheduled[|c.scheduled|..])
    && (forall m | m in d.active && m !in c.active :: m in d.scheduled[|c.scheduled|..])
  }

  lemma {:induction false} SuffixGrows<T>(a: seq<T>, b: seq<T>, c: seq<T>)
    requires a <= b <= c
    ensures forall x | x in b[|a|..] :: x in c[|a|..]
    ensures forall x | x in c[|b|..] :: x in c[|a|..]
  {
    forall x | x in b[|a|..] ensures x in c[|a|..] {
      var i :| 0 <= i < |b| - |a| && b[|a|..][i] == x;
      assert c[|a|..][i] == x;
    }
    forall x | x in c[|b|..] ensures x in c[|a|..] {
      var i :| 0 <= i < |c| - |b| && c[|b|..][i] == x;
      assert c[|a|..][i + |b| - |a|] == x;
    }
  }

  lemma {:induction false} GrownTransitive(a: Core, b: Core, c: Core)
    requires Grown(a, b) && Grown(b, c)
    ensures Grown(a, c)
  {
    SuffixGrows(a.scheduled, b.scheduled, c.scheduled);
  }

  lemma {:induction false} SettleShape(plan: Plan, c: Core, n: NodeId, r: NodeResult)
    ensures var d := Settle(plan, c, n, r);
            d.results == c.results[n := r] && d.active == c.active - {n}
            && d.scheduled == c.scheduled && d.completed == c.completed + [n]
  {}

  lemma {:induction false} LaunchNextGrows(plan: Plan, c: Core, cancelled: bool)
    requires c.ready != [] && c.ready[0] !in c.active && c.ready[0] !in c.results
    ensures Grown(c, LaunchNext(plan, c, cancelled))
  {
    hide Settle, FailedUpstream, BindInput, TargetNodes, Outgoing;
    var n, d := c.ready[0], LaunchNext(plan, c, cancelled);
    match LaunchOf(plan, c.results, n, cancelled) {
      case Skip(r) => SettleShape(plan, Popped(c), n, r);
      case Activate(input) =>
    }
    assert d.scheduled == c.scheduled + [n];
    assert d.scheduled[|c.scheduled|..] == [n];
  }

  lemma {:induction false} HeadFresh(plan: Plan, c: Core, cancelled: bool)
    requires plan.Accepted() && CoreInv(plan, c, cancelled) && c.ready != []
    ensures c.ready[0] !in c.active && c.ready[0] !in c.results
  {
    hide CoreInv, Counters, Orders, Settled;
    PopReady(plan, c, cancelled);
  }

  lemma {:induction false} GrownSame(c: Core)
    ensures Grown(c, c)
  {}

  lemma {:induction false} LaunchTurnsGrows(plan: Plan, c: Core, cancelled: bool, k: nat)
    requires plan.Accepted() && CoreInv(plan, c, cancelled)
    ensures Grown(c, LaunchTurns(plan, c, cancelled, k))
    decreases k
  {
    hide CoreInv, LaunchNext, Grown, LaunchTurns, Plan.Accepted;
    LaunchTurnsStep(plan, c, cancelled, k);
    if k == 0 || c.ready == [] {
      GrownSame(c);
    } else {
      HeadFresh(plan, c, cancelled);
      LaunchNextInv(plan, c, cancelled);
      var d := LaunchNext(plan, c, cancelled);
      LaunchNextGrows(plan, c, cancelled);
      LaunchTurnsGrows(plan, d, cancelled, k - 1);
      GrownTransitive(c, d, LaunchTurns(plan, d, cancelled, k - 1));
    }
  }

  lemma {:induction false} LaunchAllGrows(plan: Plan, c: Core, cancelled: bool)
    requires plan.Accepted() && CoreInv(plan, c, cancelled)
    ensures Grown(c, LaunchAll(plan, c, cancelled))
  {
    hide CoreInv, LaunchTurns, Grown;
    LaunchTurnsGrows(plan, c, cancelled, |plan.Order()|);
  }

  lemma {:induction false} SuffixNoDup<T>(s: seq<T>, k: nat)
    requires NoDup(s) && k <= |s|
    ensures NoDup(s[k..])
    ensures forall x | x in s[k..] :: x !in s[..k]
  {
    forall i, j | 0 <= i < j < |s[k..]| ensures s[k..][i] != s[k..][j] {
      assert s[k..][i] == s[k + i] && s[k..][j] == s[k + j];
    }
    forall x | x in s[k..] ensures x !in s[..k] {
      var i :| 0 <= i < |s| - k && s[k..][i] == x;
      assert s[k + i] == x;
    }
  }

  // The newly launched nodes are exactly the newly active ones.
  lemma {:induction false} NewlyActive(plan: Plan, c: Core, d: Core, cancelled: bool)
    requires CoreInv(plan, c, cancelled) && CoreInv(plan, d, cancelled) && Grown(c, d)
    ensures NoDup(Newly(d, |c.scheduled|))
    ensures forall m :: m in Newly(d, |c.scheduled|) <==> m in d.active && m !in c.active
    ensures forall m | m in Newly(d, |c.scheduled|) :: m !in c.results
  {
    var k := |c.scheduled|;
    SuffixNoDup(d.scheduled, k);
    KeepNoDup(d.scheduled[k..], d.active.Keys);
    assert d.scheduled[..k] == c.scheduled;
    forall m | m in d.scheduled[k..] ensures m !in c.active && m !in c.results {
      assert m !in c.scheduled;
      assert m !in Elems(c.scheduled);
    }
  }

  // A newly settled node was skipped or failed to bind; it was neither active nor settled.
  lemma {:induction false} NewlySettled(plan: Plan, c: Core, d: Core, cancelled: bool)
    requires CoreInv(plan, c, cancelled) && CoreInv(plan, d, cancelled) && Grown(c, d)
    ensures forall m | m in d.results && m !in c.results ::
              m !in c.active && d.results[m].attempts == 0 && d.results[m].status != Succeeded
  {
    var k := |c.scheduled|;
    SuffixNoDup(d.scheduled, k);
    assert d.scheduled[..k] == c.scheduled;
    forall m | m in d.scheduled[k..] ensures m !in c.active {
      assert m !in Elems(c.scheduled);
    }
  }

  // ---- Launching while the signal has not fired ----------------------------------------

  // Only the direct predecessors' results matter.
  lemma {:induction false} LaunchLocal(plan: Plan, a: map<NodeId, NodeResult>, b: map<NodeId, NodeResult>, n: NodeId)
    requires forall p | Arc(plan.g.edges, p, n) :: p in a && p in b && a[p] == b[p]
    ensures LaunchOf(plan, a, n, false) == LaunchOf(plan, b, n, false)
  {
    hide Unsuccessful, BindEdges, Distinct, Rank, Incoming, Canon, SkippedResult, UnboundResult;
    var incoming := Incoming(plan.g, n);
    IncomingMembers(plan.g, n);
    forall e | e in incoming ensures e.source.node in a && e.source.node in b && a[e.source.node] == b[e.source.node] {
      assert Arc(plan.g.edges, e.source.node, n);
    }
    UnsuccessfulStable(incoming, a, b);
    BindStable(incoming, a, b);
  }

  // d was reached from c by launching; each node it settled was due to be skipped.
  ghost predicate SkipsDue(plan: Plan, c: Core, d: Core) {
    && (forall m | m in c.results :: m in d.results && d.results[m] == c.results[m])
    && (forall m | m in d.results && m !in c.results ::
          UpstreamSettled(plan.g.edges, d.results, m) && LaunchOf(plan, d.results, m, false) == Skip(d.results[m]))
  }

  lemma {:induction false} LaunchStable(plan: Plan, a: map<NodeId, NodeResult>, b: map<NodeId, NodeResult>, n: NodeId)
    requires UpstreamSettled(plan.g.edges, a, n) && forall p | p in a :: p in b && b[p] == a[p]
    ensures UpstreamSettled(plan.g.edges, b, n) && LaunchOf(plan, b, n, false) == LaunchOf(plan, a, n, false)
  {
    hide LaunchOf;
    LaunchLocal(plan, a, b, n);
  }

  lemma {:induction false} SkipsDueTransitive(plan: Plan, a: Core, b: Core, c: Core)
    requires SkipsDue(plan, a, b) && SkipsDue(plan, b, c)
    ensures SkipsDue(plan, a, c)
  {
    hide LaunchOf, UpstreamSettled;
    forall m | m in c.results && m !in a.results
      ensures UpstreamSettled(plan.g.edges, c.results, m) && LaunchOf(plan, c.results, m, false) == Skip(c.results[m])
    {
      if m in b.results {
        LaunchStable(plan, b.results, c.results, m);
      }
    }
  }

  lemma {:induction false} LaunchNextDue(plan: Plan, c: Core)
    requires c.ready != [] && c.ready[0] !in c.active && c.ready[0] !in c.results
    requires UpstreamSettled(plan.g.edges, c.results, c.ready[0])
    ensures SkipsDue(plan, c, LaunchNext(plan, c, false))
  {
    hide Settle, FailedUpstream, BindInput;
    var n := c.ready[0];
    match LaunchOf(plan, c.results, n, false)
    case Skip(r) =>
      SettleShape(plan, Popped(c), n, r);
      LaunchStable(plan, c.results, c.results[n := r], n);
    case Activate(_) =>
  }

  lemma {:induction false} HeadSettled(plan: Plan, c: Core)
    requires plan.Accepted() && CoreInv(plan, c, false) && c.ready != []
    ensures c.ready[0] !in c.active && c.ready[0] !in c.results
    ensures UpstreamSettled(plan.g.edges, c.results, c.ready[0])
  {
    hide CoreInv, Counters, Orders, Settled, UpstreamSettled;
    PopReady(plan, c, false);
  }

  lemma {:induction false} SkipsDueSame(plan: Plan, c: Core)
    ensures SkipsDue(plan, c, c)
  {}

  lemma {:induction false} LaunchTurnsDue(plan: Plan, c: Core, k: nat)
    requires plan.Accepted() && CoreInv(plan, c, false)
    ensures SkipsDue(plan, c, LaunchTurns(plan, c, false, k))
    decreases k
  {
    hide CoreInv, LaunchNext, LaunchTurns, Plan.Accepted, SkipsDue, UpstreamSettled;
    LaunchTurnsStep(plan, c, false, k);
    if k > 0 && c.ready != [] {
      HeadSettled(plan, c);
      LaunchNextInv(plan, c, false);
      LaunchNextDue(plan, c);
      var d := LaunchNext(plan, c, false);
      LaunchTurnsDue(plan, d, k - 1);
      SkipsDueTransitive(plan, c, d, LaunchTurns(plan, d, false, k - 1));
    } else {
      SkipsDueSame(plan, c);
    }
  }

  // ---- Launching under a fired signal ------------------------------------------------

  // d was reached from c by skipping nodes as cancelled.
  ghost predicate OnlySkips(plan: Plan, c: Core, d: Core) {
    && d.active == c.active
    && (forall m | m in c.results :: m in d.results && d.results[m] == c.results[m])
    && (forall m | m in d.results && m !in c.results :: d.results[m] == SkippedResult(plan, m, true, []))
  }

  lemma {:induction false} OnlySkipsTransitive(plan: Plan, a: Core, b: Core, c: Core)
    requires OnlySkips(plan, a, b) && OnlySkips(plan, b, c)
    ensures OnlySkips(plan, a, c)
  {}

  lemma {:induction false} LaunchNextCancelled(plan: Plan, c: Core)
    requires c.ready != [] && c.ready[0] !in c.active && c.ready[0] !in c.results
    ensures OnlySkips(plan, c, LaunchNext(plan, c, true))
  {
    hide Settle, FailedUpstream;
    var n := c.ready[0];
    SettleShape(plan, Popped(c), n, SkippedResult(plan, n, true, FailedUpstream(plan.g, c.results, n)));
    assert c.active - {n} == c.active;
  }

  lemma {:induction false} LaunchTurnsCancelled(plan: Plan, c: Core, k: nat)
    requires plan.Accepted() && CoreInv(plan, c, true)
    ensures OnlySkips(plan, c, LaunchTurns(plan, c, true, k))
    decreases k
  {
    hide CoreInv, LaunchNext, LaunchTurns, Plan.Accepted;
    LaunchTurnsStep(plan, c, true, k);
    if k == 0 || c.ready == [] {
    } else {
      HeadFresh(plan, c, true);
      LaunchNextInv(plan, c, true);
      LaunchNextCancelled(plan, c);
      var d := LaunchNext(plan, c, true);
      LaunchTurnsCancelled(plan, d, k - 1);
      OnlySkipsTransitive(plan, c, d, LaunchTurns(plan, d, true, k - 1));
    }
  }

  // ---- Every waiting node is launched -----------------------------------------------------

  lemma {:induction false} SettledReady(plan: Plan, c: Core, n: NodeId, r: NodeResult)
    ensures Settle(plan, c, n, r).ready
         == Sort(Compiler.Lower(TargetNodes(Outgoing(plan.g, n)), c.remaining, c.ready).1,
             Compiler.ByDeclaration(Sequence(plan.Order())))
  {
    hide Sort, Compiler.Lower;
  }

  lemma {:induction false} LowerKeeps(targets: seq<NodeId>, counts: map<NodeId, int>, out: seq<NodeId>, n: NodeId)
    requires n in out
    ensures n in Compiler.Lower(targets, counts, out).1
  {
    if targets == [] {
    } else {
      LowerKeeps(targets[..|targets| - 1], counts, out, n);
    }
  }

  // Launching the head keeps the others waiting.
  lemma {:induction false} OthersWait(plan: Plan, c: Core, cancelled: bool, n: NodeId)
    requires c.ready != [] && n in c.ready[1..]
    ensures n in LaunchNext(plan, c, cancelled).ready
  {
    hide Compiler.Lower, Sort, LaunchOf;
    match LaunchOf(plan, c.results, c.ready[0], cancelled)
    case Skip(r) =>
      var p := Popped(c);
      LowerKeeps(TargetNodes(Outgoing(plan.g, c.ready[0])), p.remaining, p.ready, n);
      SettledReady(plan, p, c.ready[0], r);
      SortMembers(Compiler.Lower(TargetNodes(Outgoing(plan.g, c.ready[0])), p.remaining, p.ready).1,
                  Compiler.ByDeclaration(Sequence(plan.Order())));
    case Activate(_) =>
  }

  lemma {:induction false} NextScheduled(plan: Plan, c: Core, cancelled: bool)
    requires c.ready != []
    ensures LaunchNext(plan, c, cancelled).scheduled == c.scheduled + [c.ready[0]]
  {
    hide LaunchOf, Compiler.Lower, Sort;
  }

  lemma {:induction false} GrownSchedule(plan: Plan, c: Core, cancelled: bool, k: nat)
    requires plan.Accepted() && CoreInv(plan, c, cancelled)
    ensures c.scheduled <= LaunchTurns(plan, c, cancelled, k).scheduled
    ensures forall n | n in c.scheduled :: n in LaunchTurns(plan, c, cancelled, k).scheduled
  {
    hide CoreInv, Plan.Accepted, LaunchTurns;
    LaunchTurnsGrows(plan, c, cancelled, k);
    var s := LaunchTurns(plan, c, cancelled, k).scheduled;
    forall n | n in c.scheduled ensures n in s {
      assert s[IndexOf(c.scheduled, n)] == n;
    }
  }

  // Every waiting node is launched.
  lemma {:induction false} WaitingScheduled(plan: Plan, c: Core, cancelled: bool, k: nat, n: NodeId)
    requires plan.Accepted() && CoreInv(plan, c, cancelled) && |Elems(plan.Order())| <= |c.scheduled| + k
    requires n in c.ready
    ensures c.scheduled <= LaunchTurns(plan, c, cancelled, k).scheduled
    ensures n in LaunchTurns(plan, c, cancelled, k).scheduled
    decreases k
  {
    hide CoreInv, LaunchNext, LaunchTurns, Plan.Accepted, Plan.Order, Grown;
    LaunchTurnsStep(plan, c, cancelled, k);
    LaunchNextInv(plan, c, cancelled);
    NextScheduled(plan, c, cancelled);
    var d := LaunchNext(plan, c, cancelled);
    ScheduledBound(plan, d, cancelled);
    GrownSchedule(plan, d, cancelled, k - 1);
    if n == c.ready[0] {
      assert n in d.scheduled;
    } else {
      OthersWait(plan, c, cancelled, n);
      WaitingScheduled(plan, d, cancelled, k - 1, n);
    }
  }

  lemma {:induction false} WaitingNode(plan: Plan, c: Core, cancelled: bool, n: NodeId)
    requires CoreInv(plan, c, cancelled) && n in c.ready
    ensures n !in c.results && n !in c.active
  {
    hide Orders, Settled;
  }

  lemma {:induction false} ScheduledNode(plan: Plan, c: Core, cancelled: bool, n: NodeId)
    requires CoreInv(plan, c, cancelled) && n in c.scheduled
    ensures n in c.results || n in c.active
  {
    hide Counters, Settled, RespectsEdges;
    assert n in Elems(c.scheduled);
  }

  // A launch pass under the signal skips every waiting node and changes nothing else.
  lemma {:induction false} LaunchAllCancelled(plan: Plan, c: Core)
    requires plan.Accepted() && CoreInv(plan, c, true)
    ensures var d := LaunchAll(plan, c, true);
            && OnlySkips(plan, c, d) && d.ready == []
            && forall n | n in c.ready :: n in d.results && d.results[n] == SkippedResult(plan, n, true, [])
  {
    hide CoreInv, LaunchTurns, Plan.Accepted, Plan.Order, SkippedResult;
    OrderIsTopological(plan);
    NoDupCardinality(plan.Order());
    LaunchAllInv(plan, c, true);
    LaunchTurnsCancelled(plan, c, |plan.Order()|);
    var d := LaunchAll(plan, c, true);
    forall n | n in c.ready ensures n in d.results && n !in c.results {
      WaitingScheduled(plan, c, true, |plan.Order()|, n);
      WaitingNode(plan, c, true, n);
      ScheduledNode(plan, d, true, n);
    }
  }
}
