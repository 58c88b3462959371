/**
 Why a node has the result it has: its predecessors' results decide whether it is skipped,
 fails to bind its input, or runs on the input bound from them; if it runs, `ends` says how
 launched nodes may end. Settling and launching keep every result accounted for.
 */
module Explanations {
  import opened Json
  import opened Graphs
  import opened ReadyQueue
  import opened Readiness
  import opened LaunchEffects

  // Whether a node launched on an input may have a result.
  type Ends = (NodeId, Json, NodeResult) -> bool

  // n's result is what its predecessors' results make it: skipped or unbound without running,
  // or an end of its run on the input bound from them; or skipped under the signal.
  ghost predicate Accounted(plan: Plan, results: map<NodeId, NodeResult>, ends: Ends, cancelled: bool, n: NodeId) {
    && n in results && UpstreamSettled(plan.g.edges, results, n)
    && ((cancelled && results[n] == SkippedResult(plan, n, true, []))
        || match LaunchOf(plan, results, n, false)
           case Skip(r) => results[n] == r
           case Activate(input) => ends(n, input, results[n]))
  }

  ghost predicate AllAccounted(plan: Plan, results: map<NodeId, NodeResult>, ends: Ends, cancelled: bool) {
    forall n | n in results :: Accounted(plan, results, ends, cancelled, n)
  }

  lemma {:induction false} AccountedStable(plan: Plan, a: map<NodeId, NodeResult>, b: map<NodeId, NodeResult>,
      ends: Ends, cancelled: bool, n: NodeId)
    requires Accounted(plan, a, ends, cancelled, n) && forall p | p in a :: p in b && b[p] == a[p]
    ensures Accounted(plan, b, ends, cancelled, n)
  {
    hide LaunchOf, UpstreamSettled;
    LaunchStable(plan, a, b, n);
  }

  lemma {:induction false} SettledBelow(plan: Plan, c: Core, cancelled: bool, n: NodeId)
    requires CoreInv(plan, c, cancelled) && n in c.results
    ensures UpstreamSettled(plan.g.edges, c.results, n)
  {}

  lemma {:induction false} NewlyAccounted(plan: Plan, results: map<NodeId, NodeResult>, ends: Ends, cancelled: bool,
      n: NodeId)
    requires n in results && UpstreamSettled(plan.g.edges, results, n)
    requires cancelled ==> results[n] == SkippedResult(plan, n, true, [])
    requires !cancelled ==> LaunchOf(plan, results, n, false) == Skip(results[n])
    ensures Accounted(plan, results, ends, cancelled, n)
  {
    hide LaunchOf, UpstreamSettled;
  }

  // Launching settles only what is due to be skipped.
  lemma {:induction false} LaunchAccounted(plan: Plan, c: Core, ends: Ends, cancelled: bool)
    requires plan.Accepted() && CoreInv(plan, c, cancelled) && AllAccounted(plan, c.results, ends, cancelled)
    ensures AllAccounted(plan, LaunchAll(plan, c, cancelled).results, ends, cancelled)
  {
    hide CoreInv, LaunchTurns, Plan.Accepted, Accounted, LaunchOf, UpstreamSettled, Plan.Order;
    var d := LaunchAll(plan, c, cancelled);
    LaunchAllInv(plan, c, cancelled);
    if cancelled {
      LaunchTurnsCancelled(plan, c, |plan.Order()|);
    } else {
      LaunchTurnsDue(plan, c, |plan.Order()|);
    }
    forall n | n in d.results ensures Accounted(plan, d.results, ends, cancelled, n) {
      if n in c.results {
        AccountedStable(plan, c.results, d.results, ends, cancelled, n);
      } else {
        SettledBelow(plan, d, cancelled, n);
        NewlyAccounted(plan, d.results, ends, cancelled, n);
      }
    }
  }

  lemma {:induction false} ActiveLaunch(plan: Plan, c: Core, cancelled: bool, n: NodeId)
    requires CoreInv(plan, c, cancelled) && n in c.active
    ensures UpstreamSettled(plan.g.edges, c.results, n) && n !in c.results
    ensures LaunchOf(plan, c.results, n, false) == Activate(c.active[n])
  {
    hide BindInput, FailedUpstream, UpstreamSettled;
  }

  lemma {:induction false} EndAccounted(plan: Plan, results: map<NodeId, NodeResult>, ends: Ends, cancelled: bool,
      n: NodeId, input: Json)
    requires n in results && UpstreamSettled(plan.g.edges, results, n)
    requires LaunchOf(plan, results, n, false) == Activate(input) && ends(n, input, results[n])
    ensures Accounted(plan, results, ends, cancelled, n)
  {
    hide LaunchOf, UpstreamSettled;
  }

  // Settling an active node with an end of its run keeps every result accounted for.
  lemma {:induction false} TaskAccounted(plan: Plan, c: Core, ends: Ends, cancelled: bool, n: NodeId, r: NodeResult)
    requires CoreInv(plan, c, cancelled) && AllAccounted(plan, c.results, ends, cancelled)
    requires n in c.active && ends(n, c.active[n], r)
    ensures AllAccounted(plan, c.results[n := r], ends, cancelled)
  {
    hide Accounted, LaunchOf, UpstreamSettled, CoreInv;
    var after := c.results[n := r];
    ActiveLaunch(plan, c, cancelled, n);
    LaunchStable(plan, c.results, after, n);
    EndAccounted(plan, after, ends, cancelled, n, c.active[n]);
    forall m | m in after ensures Accounted(plan, after, ends, cancelled, m) {
      if m != n {
        AccountedStable(plan, c.results, after, ends, cancelled, m);
      }
    }
  }

  // Once the signal has fired, what was accounted for still is.
  lemma {:induction false} AccountedLater(plan: Plan, results: map<NodeId, NodeResult>, ends: Ends, before: bool,
      after: bool)
    requires AllAccounted(plan, results, ends, before) && (before ==> after)
    ensures AllAccounted(plan, results, ends, after)
  {
    hide LaunchOf, UpstreamSettled;
    forall n | n in results ensures Accounted(plan, results, ends, after, n) {
      assert Accounted(plan, results, ends, before, n);
    }
  }
}
