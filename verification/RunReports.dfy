/** Assembling a finished run's report: node results in topological order, failures, outputs, status. */
module RunReports {
  import opened Wrappers
  import opened Sequences
  import opened Json
  import opened Graphs
  import opened CompilerSpec
  import opened ReadyQueue
  import opened Readiness
  import opened RunGuarantees
  import opened Text
  import opened Bindings
  import opened Diagnoses

  datatype RunStatus = RunSucceeded | RunFailed | RunCancelled

  datatype RunFailure = OfNode(failure: NodeFailure) | OutputBindingFailed(output: Output)

  datatype Report = Report(status: RunStatus, nodes: seq<NodeResult>, failures: seq<RunFailure>,
      output: Option<seq<Field>>)

  // Whether an output can be bound: its node succeeded and its port exists.
  predicate Binds(results: map<NodeId, NodeResult>, o: Output) {
    && HasSucceeded(results, o.endpoint.node) && results[o.endpoint.node].output.Some?
    && EndpointValue(o.endpoint, results[o.endpoint.node].output.value).Some?
  }

  function NodeFailures(order: seq<NodeId>, results: map<NodeId, NodeResult>): seq<RunFailure> {
    if order == [] then []
    else
      var n := order[|order| - 1];
      NodeFailures(order[..|order| - 1], results)
      + if n in results && results[n].failure.Some? then [OfNode(results[n].failure.value)] else []
  }

  function OutputFailures(outputs: seq<Output>, results: map<NodeId, NodeResult>): seq<RunFailure> {
    if outputs == [] then []
    else
      var o := outputs[|outputs| - 1];
      OutputFailures(outputs[..|outputs| - 1], results)
      + if HasSucceeded(results, o.endpoint.node) && !Binds(results, o) then [OutputBindingFailed(o)] else []
  }

  function BoundOutputs(outputs: seq<Output>, results: map<NodeId, NodeResult>): seq<Field> {
    if outputs == [] then []
    else
      var o := outputs[|outputs| - 1];
      BoundOutputs(outputs[..|outputs| - 1], results)
      + if Binds(results, o) then
          [Field(o.name, EndpointValue(o.endpoint, results[o.endpoint.node].output.value).value)]
        else []
  }

  method CollectNodes(order: seq<NodeId>, results: map<NodeId, NodeResult>)
    returns (nodes: seq<NodeResult>, failures: seq<RunFailure>)
    requires forall n | n in order :: n in results
    ensures |nodes| == |order| && forall i | 0 <= i < |nodes| :: nodes[i] == results[order[i]]
    ensures failures == NodeFailures(order, results)
  {
    nodes, failures := [], [];
    for index := 0 to |order|
      invariant |nodes| == index && forall i | 0 <= i < index :: nodes[i] == results[order[i]]
      invariant failures == NodeFailures(order[..index], results)
    {
      assert order[..index + 1][..index] == order[..index];
      var result := results[order[index]];
      nodes := nodes + [result];
      if result.failure.Some? {
        failures := failures + [OfNode(result.failure.value)];
      }
    }
    assert order[..|order|] == order;
  }

  method CollectOutputs(outputs: seq<Output>, results: map<NodeId, NodeResult>)
    returns (failures: seq<RunFailure>, output: seq<Field>, complete: bool)
    ensures failures == OutputFailures(outputs, results) && output == BoundOutputs(outputs, results)
    ensures complete <==> forall o | o in outputs :: Binds(results, o)
  {
    failures, output, complete := [], [], true;
    for index := 0 to |outputs|
      invariant failures == OutputFailures(outputs[..index], results)
      invariant output == BoundOutputs(outputs[..index], results)
      invariant complete <==> forall o | o in outputs[..index] :: Binds(results, o)
    {
      assert outputs[..index + 1][..index] == outputs[..index];
      TakeNext(outputs, index);
      var o := outputs[index];
      if !HasSucceeded(results, o.endpoint.node) {
        complete := false;
      } else if Binds(results, o) {
        output := output + [Field(o.name, EndpointValue(o.endpoint, results[o.endpoint.node].output.value).value)];
      } else {
        complete := false;
        failures := failures + [OutputBindingFailed(o)];
      }
    }
    assert outputs[..|outputs|] == outputs;
  }

  // ---- What a report says about the outputs --------------------------------------------

  // The value a declared output takes from its node, which has succeeded.
  ghost predicate Yields(results: map<NodeId, NodeResult>, o: Output, v: Json) {
    && o.endpoint.node in results && results[o.endpoint.node].status == Succeeded
    && results[o.endpoint.node].output.Some? && Takes(o.endpoint.port, results[o.endpoint.node].output.value, v)
  }

  // The declared outputs by name.
  ghost predicate ByName(declared: seq<Output>, outputs: seq<Output>) {
    && multiset(outputs) == multiset(declared)
    && forall i, j | 0 <= i < j < |outputs| :: Compare(outputs[i].name, outputs[j].name) <= 0
  }

  // The fields give each output, by name, the value it takes.
  ghost predicate Gives(results: map<NodeId, NodeResult>, outputs: seq<Output>, fields: seq<Field>) {
    && |fields| == |outputs|
    && forall i | 0 <= i < |outputs| ::
         fields[i].key == outputs[i].name && Yields(results, outputs[i], fields[i].value)
  }

  // The report has outputs iff each declared one takes a value, and then exactly these; a failure
  // is reported for each failed node, and for each output of a succeeded node that takes none.
  ghost predicate ReportsRun(plan: Plan, results: map<NodeId, NodeResult>, r: Report) {
    && (r.output.Some? <==> forall o | o in plan.g.outputs :: exists v :: Yields(results, o, v))
    && (r.output.Some? ==> exists outputs :: ByName(plan.g.outputs, outputs) && Gives(results, outputs, r.output.value))
    && (forall o :: OutputBindingFailed(o) in r.failures <==>
          && o in plan.g.outputs && o.endpoint.node in results && results[o.endpoint.node].status == Succeeded
          && forall v :: !Yields(results, o, v))
    && (forall f :: OfNode(f) in r.failures <==>
          exists n :: n in plan.Order() && n in results && results[n].failure == Some(f))
  }

  lemma {:induction false} BindsExact(results: map<NodeId, NodeResult>, o: Output)
    ensures Binds(results, o) <==> exists v :: Yields(results, o, v)
    ensures Binds(results, o) ==>
              Yields(results, o, EndpointValue(o.endpoint, results[o.endpoint.node].output.value).value)
  {
    hide EndpointValue, Takes;
    if o.endpoint.node in results && results[o.endpoint.node].output.Some? {
      var output := results[o.endpoint.node].output.value;
      forall v ensures EndpointValue(o.endpoint, output) == Some(v) <==> Takes(o.endpoint.port, output, v) {
        EndpointExact(o.endpoint, output, v);
      }
      if Binds(results, o) {
        assert Yields(results, o, EndpointValue(o.endpoint, output).value);
      }
    }
  }

  lemma {:induction false} GivesOneMore(results: map<NodeId, NodeResult>, outputs: seq<Output>, fields: seq<Field>,
      o: Output, all: seq<Field>)
    requires Gives(results, outputs, fields) && Binds(results, o)
    requires all == fields
                    + [Field(o.name, EndpointValue(o.endpoint, results[o.endpoint.node].output.value).value)]
    ensures Gives(results, outputs + [o], all)
  {
    hide Yields, EndpointValue;
    BindsExact(results, o);
  }

  lemma {:induction false} BoundGiven(outputs: seq<Output>, results: map<NodeId, NodeResult>)
    requires forall o | o in outputs :: Binds(results, o)
    ensures Gives(results, outputs, BoundOutputs(outputs, results))
  {
    hide Binds, Yields, EndpointValue;
    if outputs == [] {
    } else {
      var front, last := outputs[..|outputs| - 1], outputs[|outputs| - 1];
      assert outputs == front + [last];
      BoundGiven(front, results);
      BindsExact(results, last);
      assert last in outputs;
      GivesOneMore(results, front, BoundOutputs(front, results), last, BoundOutputs(outputs, results));
    }
  }

  lemma {:induction false} OutputFailureExact(outputs: seq<Output>, results: map<NodeId, NodeResult>, o: Output)
    ensures OutputBindingFailed(o) in OutputFailures(outputs, results) <==>
              o in outputs && HasSucceeded(results, o.endpoint.node) && !Binds(results, o)
  {
    hide Binds;
    if outputs == [] {
    } else {
      var front, last := outputs[..|outputs| - 1], outputs[|outputs| - 1];
      assert outputs == front + [last];
      OutputFailureExact(front, results, o);
    }
  }

  lemma {:induction false} NodeFailureExact(order: seq<NodeId>, results: map<NodeId, NodeResult>, f: NodeFailure)
    ensures OfNode(f) in NodeFailures(order, results) <==>
              exists n :: n in order && n in results && results[n].failure == Some(f)
  {
    if order == [] {
    } else {
      var front, last := order[..|order| - 1], order[|order| - 1];
      assert order == front + [last];
      NodeFailureExact(front, results, f);
    }
  }

  lemma {:induction false} NodeFailureNot(order: seq<NodeId>, results: map<NodeId, NodeResult>, o: Output)
    ensures OutputBindingFailed(o) !in NodeFailures(order, results)
  {
    if order == [] {
    } else {
      NodeFailureNot(order[..|order| - 1], results, o);
    }
  }

  lemma {:induction false} OutputFailureNot(outputs: seq<Output>, results: map<NodeId, NodeResult>, f: NodeFailure)
    ensures OfNode(f) !in OutputFailures(outputs, results)
  {
    hide Binds;
    if outputs == [] {
    } else {
      OutputFailureNot(outputs[..|outputs| - 1], results, f);
    }
  }

  lemma {:induction false} FailuresExact(plan: Plan, results: map<NodeId, NodeResult>, failures: seq<RunFailure>)
    requires failures == NodeFailures(plan.Order(), results) + OutputFailures(SortedOutputs(plan.g), results)
    ensures forall o :: OutputBindingFailed(o) in failures <==>
              o in plan.g.outputs && HasSucceeded(results, o.endpoint.node) && !Binds(results, o)
    ensures forall f :: OfNode(f) in failures <==>
              exists n :: n in plan.Order() && n in results && results[n].failure == Some(f)
  {
    hide Binds, Plan.Order, Compare, Sort;
    var outputs := SortedOutputs(plan.g);
    SortMembers(plan.g.outputs, OutputLeq);
    forall o ensures OutputBindingFailed(o) in failures <==>
        o in plan.g.outputs && HasSucceeded(results, o.endpoint.node) && !Binds(results, o) {
      OutputFailureExact(outputs, results, o);
      NodeFailureNot(plan.Order(), results, o);
    }
    forall f ensures OfNode(f) in failures <==>
        exists n :: n in plan.Order() && n in results && results[n].failure == Some(f) {
      NodeFailureExact(plan.Order(), results, f);
      OutputFailureNot(outputs, results, f);
    }
  }

  lemma {:induction false} ReportExact(plan: Plan, results: map<NodeId, NodeResult>, r: Report)
    requires r.failures == NodeFailures(plan.Order(), results) + OutputFailures(SortedOutputs(plan.g), results)
    requires r.output == if forall o | o in plan.g.outputs :: Binds(results, o)
                         then Some(BoundOutputs(SortedOutputs(plan.g), results)) else None
    ensures ReportsRun(plan, results, r)
  {
    hide Binds, Yields, Plan.Order, Compare, Sort;
    var outputs := SortedOutputs(plan.g);
    OutputsByName(plan.g);
    SortMembers(plan.g.outputs, OutputLeq);
    forall o ensures Binds(results, o) <==> exists v :: Yields(results, o, v) {
      BindsExact(results, o);
    }
    if r.output.Some? {
      BoundGiven(outputs, results);
      assert ByName(plan.g.outputs, outputs);
    }
    FailuresExact(plan, results, r.failures);
  }

  // The end of `runGraph`.
  method AssembleReport(plan: Plan, results: map<NodeId, NodeResult>, aborted: bool) returns (r: Report)
    requires forall n | n in plan.Order() :: n in results
    ensures |r.nodes| == |plan.Order()| && forall i | 0 <= i < |r.nodes| :: r.nodes[i] == results[plan.Order()[i]]
    ensures r.failures == NodeFailures(plan.Order(), results) + OutputFailures(SortedOutputs(plan.g), results)
    ensures r.output == if forall o | o in plan.g.outputs :: Binds(results, o)
                        then Some(BoundOutputs(SortedOutputs(plan.g), results)) else None
    ensures r.status == if aborted then RunCancelled else if r.failures == [] && r.output.Some? then RunSucceeded
        else RunFailed
    ensures ReportsRun(plan, results, r)
  {
    hide Binds, Plan.Order, ReportsRun;
    var nodes, failures := CollectNodes(plan.Order(), results);
    var outputs := SortedOutputs(plan.g);
    var unbound, output, complete := CollectOutputs(outputs, results);
    SortMembers(plan.g.outputs, OutputLeq);
    failures := failures + unbound;
    var succeeded := !aborted && failures == [] && complete;
    r := Report(if aborted then RunCancelled else if succeeded then RunSucceeded else RunFailed,
                nodes, failures, if complete then Some(output) else None);
    ReportExact(plan, results, r);
  }

  lemma {:induction false} NoNodeFailures(order: seq<NodeId>, results: map<NodeId, NodeResult>)
    requires forall n | n in order :: n in results && (results[n].failure.None? <==> results[n].status == Succeeded)
    ensures NodeFailures(order, results) == [] <==> forall n | n in order :: HasSucceeded(results, n)
  {
    if order == [] {
    } else {
      var front, last := order[..|order| - 1], order[|order| - 1];
      assert order == front + [last];
      assert last in order && forall n | n in front :: n in order;
      NoNodeFailures(front, results);
      assert forall n :: n in order <==> n in front || n == last;
    }
  }

  lemma {:induction false} NoOutputFailures(outputs: seq<Output>, results: map<NodeId, NodeResult>)
    ensures (forall o | o in outputs :: Binds(results, o)) ==> OutputFailures(outputs, results) == []
  {
    hide Binds;
    if outputs == [] {
    } else {
      var front, last := outputs[..|outputs| - 1], outputs[|outputs| - 1];
      assert outputs == front + [last];
      NoOutputFailures(front, results);
    }
  }

  lemma {:induction false} ResultsFit(plan: Plan, c: Core, aborted: bool)
    requires CoreInv(plan, c, aborted) && c.results.Keys == Elems(plan.Order())
    ensures forall n | n in plan.Order() ::
      n in c.results && (c.results[n].failure.None? <==> c.results[n].status == Succeeded)
  {
    forall n | n in plan.Order()
      ensures n in c.results && (c.results[n].failure.None? <==> c.results[n].status == Succeeded) {
      assert n in Elems(plan.Order());
      assert ResultOk(plan, c.results, n, c.results[n], aborted);
    }
  }

  // A run reports success exactly when it was not cancelled, every node succeeded and every
  // output binds.
  lemma {:induction false} SuccessMeans(plan: Plan, c: Core, aborted: bool, r: Report)
    requires plan.Accepted() && CoreInv(plan, c, aborted) && c.results.Keys == Elems(plan.Order())
    requires r.failures == NodeFailures(plan.Order(), c.results) + OutputFailures(SortedOutputs(plan.g), c.results)
    requires r.output.Some? <==> forall o | o in plan.g.outputs :: Binds(c.results, o)
    requires r.status == if aborted then RunCancelled else if r.failures == [] && r.output.Some? then RunSucceeded
        else RunFailed
    ensures r.status == RunSucceeded <==>
              !aborted && (forall n | n in Ids(plan.g.nodes) :: HasSucceeded(c.results, n))
              && forall o | o in plan.g.outputs :: Binds(c.results, o)
  {
    hide CoreInv, Plan.Accepted, Plan.Order, Binds;
    OrderCounts(plan);
    ResultsFit(plan, c, aborted);
    NoNodeFailures(plan.Order(), c.results);
    NoOutputFailures(SortedOutputs(plan.g), c.results);
    SortMembers(plan.g.outputs, OutputLeq);
    forall n ensures n in plan.Order() <==> n in Ids(plan.g.nodes) {
      assert n in Elems(plan.Order()) <==> n in Elems(Ids(plan.g.nodes));
    }
  }
}
