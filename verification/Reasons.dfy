/**
 Why a node has the result it has, in terms of the document and the other results alone: it was
 cancelled, some predecessor did not succeed, it receives no input, or it ran on the one it receives.
 */
module Reasons {
  import opened Wrappers
  import opened Sequences
  import opened Text
  import opened Json
  import opened Graphs
  import opened CompilerSpec
  import opened ReadyQueue
  import opened Readiness
  import opened Explanations
  import opened Bindings

  // The failure of a node that was not run.
  ghost predicate NotRun(r: NodeResult, n: NodeId, status: Status, code: FailureCode) {
    && r.node == n && r.status == status && r.attempts == 0 && r.input == None && r.output == None
    && r.failure.Some? && r.failure.value.node == n && r.failure.value.code == code
    && r.failure.value.attempt == 0 && !r.failure.value.retryable
  }

  // The direct predecessors of n that did not succeed, once each, by id.
  ghost predicate FailedSources(edges: seq<Edge>, results: map<NodeId, NodeResult>, n: NodeId, ids: seq<NodeId>) {
    && (forall p :: p in ids <==>
          (exists e :: e in edges && e.source.node == p && e.target.node == n)
          && !(p in results && results[p].status == Succeeded))
    && forall i, j | 0 <= i < j < |ids| :: Compare(ids[i].text, ids[j].text) < 0
  }

  // v is the input of n: the graph's own where no edge comes in, else what the edges deliver.
  ghost predicate Receives(plan: Plan, results: map<NodeId, NodeResult>, n: NodeId, v: Json) {
    if exists e :: e in plan.g.edges && e.target.node == n then IsInput(plan.g.edges, results, n, v)
    else v == plan.input
  }

  // n's result has a reason; `ends` says how a node may end on the input it receives.
  ghost predicate Reasoned(plan: Plan, results: map<NodeId, NodeResult>, ends: Ends, cancelled: bool, n: NodeId)
    requires n in results
  {
    var r := results[n];
    || (cancelled && NotRun(r, n, Skipped, NodeCancelled) && r.failure.value.upstream == [])
    || (NotRun(r, n, Skipped, UpstreamFailed) && r.failure.value.upstream != []
        && FailedSources(plan.g.edges, results, n, r.failure.value.upstream))
    || (FailedSources(plan.g.edges, results, n, [])
        && NotRun(r, n, Failed, InputBindingFailed) && r.failure.value.upstream == []
        && forall v :: !Receives(plan, results, n, v))
    || (FailedSources(plan.g.edges, results, n, []) && exists v :: Receives(plan, results, n, v) && ends(n, v, r))
  }

  lemma {:induction false} UpstreamExact(plan: Plan, results: map<NodeId, NodeResult>, n: NodeId)
    ensures FailedSources(plan.g.edges, results, n, FailedUpstream(plan.g, results, n))
  {
    hide Compare, FailedUpstream;
    FailedUpstreamMembers(plan.g, results, n);
    FailedUpstreamListed(plan.g, results, n);
    forall p ensures Arc(plan.g.edges, p, n)
                     <==> exists e :: e in plan.g.edges && e.source.node == p && e.target.node == n {
    }
  }

  lemma {:induction false} ReceivesExact(plan: Plan, results: map<NodeId, NodeResult>, n: NodeId)
    requires NoDup(plan.g.edges)
    ensures forall v :: BindInput(plan, results, n) == Some(v) <==> Receives(plan, results, n, v)
  {
    hide IsInput, BindInput, KeyClash, Supplies;
    BindInputExact(plan, results, n);
  }

  // What is accounted for has a reason.
  lemma {:induction false} AccountReasoned(plan: Plan, results: map<NodeId, NodeResult>, ends: Ends, cancelled: bool,
      n: NodeId)
    requires plan.Accepted() && Accounted(plan, results, ends, cancelled, n)
    ensures Reasoned(plan, results, ends, cancelled, n)
  {
    hide FailedSources, Receives, BindInput, FailedUpstream, UpstreamSettled, Plan.Accepted;
    AcceptedEdges(plan);
    UpstreamExact(plan, results, n);
    ReceivesExact(plan, results, n);
  }

  // Another description of how nodes end.
  lemma {:induction false} ReasonedAs(plan: Plan, results: map<NodeId, NodeResult>, a: Ends, b: Ends, cancelled: bool,
      n: NodeId)
    requires n in results && Reasoned(plan, results, a, cancelled, n)
    requires forall v | a(n, v, results[n]) :: b(n, v, results[n])
    ensures Reasoned(plan, results, b, cancelled, n)
  {
    hide FailedSources, Receives;
  }
}
