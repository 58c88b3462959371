/**
 What a compilation says in terms of the document alone: the entrypoints it lists, and
 exactly which diagnostics it holds.
 */
module Diagnoses {
  import opened Wrappers
  import opened Sequences
  import opened Text
  import opened Graphs
  import opened CompilerSpec
  import ReadyOrder
  import Compiler

  // ---- Entrypoints -------------------------------------------------------------------

  // The compiled entrypoints are those of the document, each once, in their order.
  lemma {:induction false} EntrypointsInOrder(g: Graph, r: Compilation)
    requires CompiledAs(g, r)
    ensures FirstOccurrences(g.entrypoints, r.entrypoints)
  {
    DistinctInOrder(g.entrypoints);
  }

  // ---- Faults of the document ------------------------------------------------------------

  ghost predicate Unknown(g: Graph, n: NodeId) {
    forall i | 0 <= i < |g.nodes| :: g.nodes[i].id != n
  }

  // What a diagnostic of the identity phase says about the document.
  ghost predicate IdentityFault(g: Graph, d: Diagnostic) {
    match d
    case DuplicateNode(i, n) => i < |g.nodes| && g.nodes[i].id == n && exists j :: 0 <= j < i && g.nodes[j].id == n
    case DuplicateEdge(i, x) => i < |g.edges| && g.edges[i].id == x && exists j :: 0 <= j < i && g.edges[j].id == x
    case MissingSource(i, x, n) => i < |g.edges| && g.edges[i].id == x && g.edges[i].source.node == n && Unknown(g, n)
    case MissingTarget(i, x, n) => i < |g.edges| && g.edges[i].id == x && g.edges[i].target.node == n && Unknown(g, n)
    case MissingEntrypoint(i, n) => i < |g.entrypoints| && g.entrypoints[i] == n && Unknown(g, n)
    case MissingOutput(name, n) =>
      (exists o :: o in g.outputs && o.name == name && o.endpoint.node == n) && Unknown(g, n)
    case _ => false
  }

  // The positions of the edges that leave n.
  ghost function Leaving(edges: seq<Edge>, n: NodeId): set<int> {
    set i | 0 <= i < |edges| && edges[i].source.node == n
  }

  // What a diagnostic of the last phase says about a document with so many layers.
  ghost predicate PolicyFault(g: Graph, layers: nat, d: Diagnostic) {
    match d
    case EntrypointHasIncoming(i, n) =>
      i < |g.entrypoints| && g.entrypoints[i] == n && exists e :: e in g.edges && e.target.node == n
    case UnreachableNode(n) => !Unknown(g, n) && forall s | s in g.entrypoints :: !Reaches(g.edges, s, n)
    case MaxFanOut(n, count, limit) =>
      !Unknown(g, n) && g.policies.maxFanOut == Some(limit) && count == |Leaving(g.edges, n)| && count > limit
    case MaxDepth(depth, limit) => g.policies.maxDepth == Some(limit) && depth == layers && depth > limit
    case _ => false
  }

  // ---- Exactly the faults are reported ------------------------------------------------------

  lemma {:induction false} CollectMembers(n: nat, at: nat -> seq<Diagnostic>, d: Diagnostic)
    ensures d in Collect(n, at) <==> exists i: nat :: i < n && d in at(i)
  {
    if n == 0 {
    } else {
      CollectMembers(n - 1, at, d);
      if d in at(n - 1) { assert n - 1 < n; }
    }
  }

  lemma {:induction false} UnknownExact(g: Graph, n: NodeId)
    ensures Unknown(g, n) <==> n !in Ids(g.nodes)
  {
    if n in Ids(g.nodes) {
      var i :| 0 <= i < |g.nodes| && Ids(g.nodes)[i] == n;
      assert g.nodes[i].id == n;
    } else {
      forall i | 0 <= i < |g.nodes| ensures g.nodes[i].id != n {
        assert Ids(g.nodes)[i] in Ids(g.nodes);
      }
    }
  }

  lemma {:induction false} NodeAt(g: Graph, i: nat, d: Diagnostic)
    requires i < |g.nodes|
    ensures d in NodeProblems(g.nodes)(i) <==>
              d == DuplicateNode(i, g.nodes[i].id) && exists j :: 0 <= j < i && g.nodes[j].id == g.nodes[i].id
  {
    var ids := Ids(g.nodes[..i]);
    if g.nodes[i].id in ids {
      var j :| 0 <= j < i && ids[j] == g.nodes[i].id;
      assert g.nodes[j].id == g.nodes[i].id;
    }
    if exists j :: 0 <= j < i && g.nodes[j].id == g.nodes[i].id {
      var j :| 0 <= j < i && g.nodes[j].id == g.nodes[i].id;
      assert ids[j] == g.nodes[i].id;
    }
  }

  lemma {:induction false} NodesDiagnosed(g: Graph, d: Diagnostic)
    ensures d in Collect(|g.nodes|, NodeProblems(g.nodes)) <==> d.DuplicateNode? && IdentityFault(g, d)
  {
    hide NodeProblems, Collect;
    CollectMembers(|g.nodes|, NodeProblems(g.nodes), d);
    forall i: nat | i < |g.nodes| && d in NodeProblems(g.nodes)(i) ensures d.DuplicateNode? && IdentityFault(g, d) {
      NodeAt(g, i, d);
    }
    if d.DuplicateNode? && IdentityFault(g, d) {
      NodeAt(g, d.index, d);
    }
  }

  lemma {:induction false} EdgeRepeats(edges: seq<Edge>, i: nat)
    requires i < |edges|
    ensures edges[i].id in EdgeIds(edges[..i]) <==> exists j :: 0 <= j < i && edges[j].id == edges[i].id
  {
    var names := EdgeIds(edges[..i]);
    if edges[i].id in names {
      var j :| 0 <= j < i && names[j] == edges[i].id;
      assert edges[j].id == edges[i].id;
    }
    if exists j :: 0 <= j < i && edges[j].id == edges[i].id {
      var j :| 0 <= j < i && edges[j].id == edges[i].id;
      assert names[j] == edges[i].id;
    }
  }

  lemma {:induction false} EdgeAt(g: Graph, i: nat, d: Diagnostic)
    requires i < |g.edges|
    ensures var e := g.edges[i];
            d in EdgeProblems(Elems(Ids(g.nodes)), g.edges)(i) <==>
              || (d == DuplicateEdge(i, e.id) && exists j :: 0 <= j < i && g.edges[j].id == e.id)
              || (d == MissingSource(i, e.id, e.source.node) && Unknown(g, e.source.node))
              || (d == MissingTarget(i, e.id, e.target.node) && Unknown(g, e.target.node))
  {
    hide Unknown;
    EdgeRepeats(g.edges, i);
    UnknownExact(g, g.edges[i].source.node);
    UnknownExact(g, g.edges[i].target.node);
  }

  lemma {:induction false} EdgesDiagnosed(g: Graph, d: Diagnostic)
    ensures d in EdgeDiagnostics(Elems(Ids(g.nodes)), g.edges) <==>
              (d.DuplicateEdge? || d.MissingSource? || d.MissingTarget?) && IdentityFault(g, d)
  {
    hide EdgeProblems, Collect, Unknown;
    var at := EdgeProblems(Elems(Ids(g.nodes)), g.edges);
    CollectMembers(|g.edges|, at, d);
    forall i: nat | i < |g.edges| && d in at(i)
      ensures (d.DuplicateEdge? || d.MissingSource? || d.MissingTarget?) && IdentityFault(g, d)
    {
      EdgeAt(g, i, d);
    }
    if (d.DuplicateEdge? || d.MissingSource? || d.MissingTarget?) && IdentityFault(g, d) {
      EdgeAt(g, d.index, d);
    }
  }

  lemma {:induction false} EntriesDiagnosed(g: Graph, d: Diagnostic)
    ensures d in Collect(|g.entrypoints|, EntryProblems(Elems(Ids(g.nodes)), g.entrypoints)) <==>
              d.MissingEntrypoint? && IdentityFault(g, d)
  {
    hide Collect, Unknown;
    var at := EntryProblems(Elems(Ids(g.nodes)), g.entrypoints);
    CollectMembers(|g.entrypoints|, at, d);
    forall i: nat | i < |g.entrypoints|
      ensures Unknown(g, g.entrypoints[i]) <==> g.entrypoints[i] !in Ids(g.nodes)
    {
      UnknownExact(g, g.entrypoints[i]);
    }
    if d.MissingEntrypoint? && IdentityFault(g, d) {
      assert d in at(d.index);
    }
  }

  lemma {:induction false} OutputsDiagnosed(g: Graph, d: Diagnostic)
    ensures d in OutputDiagnostics(Elems(Ids(g.nodes)), SortedOutputs(g)) <==> d.MissingOutput? && IdentityFault(g, d)
  {
    hide Sort, OutputLeq;
    var outputs := SortedOutputs(g);
    CollectMembers(|outputs|, OutputProblems(Elems(Ids(g.nodes)), outputs), d);
    SortMembers(g.outputs, OutputLeq);
    forall o | o in g.outputs ensures Unknown(g, o.endpoint.node) <==> o.endpoint.node !in Ids(g.nodes) {
      UnknownExact(g, o.endpoint.node);
    }
    if d.MissingOutput? && IdentityFault(g, d) {
      var o :| o in g.outputs && o.name == d.name && o.endpoint.node == d.node;
      var i: nat :| i < |outputs| && outputs[i] == o;
      assert d in OutputProblems(Elems(Ids(g.nodes)), outputs)(i);
    }
  }

  lemma {:induction false} IdentityMembers(g: Graph, d: Diagnostic)
    ensures d in IdentityDiagnostics(g) <==> IdentityFault(g, d)
  {
    hide Collect, EdgeDiagnostics, OutputDiagnostics, NodeProblems, EntryProblems, SortedOutputs;
    NodesDiagnosed(g, d);
    EdgesDiagnosed(g, d);
    EntriesDiagnosed(g, d);
    OutputsDiagnosed(g, d);
  }

  // A document with identity faults: exactly these are reported, and no layers are built.
  lemma {:induction false} IdentityDiagnosesExact(g: Graph, r: Compilation, d: Diagnostic)
    requires CompiledAs(g, r) && exists f :: IdentityFault(g, f)
    ensures d in r.diagnostics <==> IdentityFault(g, d)
    ensures !r.valid && r.layers == []
  {
    hide IdentityFault, Collect, WellIdentified, EdgeDiagnostics, OutputDiagnostics, CycleNodes, IsLayering;
    IdentityMembers(g, d);
    var f :| IdentityFault(g, f);
    IdentityMembers(g, f);
    IdentityDiagnosticsExact(g);
  }

  // No identity fault is a well-identified document.
  lemma {:induction false} FaultlessIdentified(g: Graph)
    requires forall f :: !IdentityFault(g, f)
    ensures WellIdentified(g)
  {
    hide IdentityFault, WellIdentified, IdentityDiagnostics;
    IdentityDiagnosticsExact(g);
    if IdentityDiagnostics(g) != [] {
      var d := IdentityDiagnostics(g)[0];
      IdentityMembers(g, d);
    }
  }

  lemma {:induction false} CyclicNodes(g: Graph)
    requires exists n :: n in Ids(g.nodes) && OnCycle(g.edges, n)
    ensures CycleNodes(g) != []
  {
    hide OnCycle;
    CycleNodesExact(g);
    var n :| n in Ids(g.nodes) && OnCycle(g.edges, n);
    assert PathFromTo(g.edges, [n], n, n);
    assert DownstreamOfCycle(g.edges, n);
    assert n in CycleNodes(g);
  }

  // A document with a cycle: the one diagnostic lists the nodes downstream of a cycle, once
  // each, as they are declared.
  lemma {:induction false} CycleDiagnosis(g: Graph, r: Compilation)
    requires CompiledAs(g, r) && forall f :: !IdentityFault(g, f)
    requires exists n :: n in Ids(g.nodes) && OnCycle(g.edges, n)
    ensures |r.diagnostics| == 1 && r.diagnostics[0].Cycle? && !r.valid
    ensures var nodes := r.diagnostics[0].nodes;
            && (forall n :: n in nodes <==> n in Ids(g.nodes) && DownstreamOfCycle(g.edges, n))
            && forall i, j | 0 <= i < j < |nodes| ::
                 IndexOf(Ids(g.nodes), nodes[i]) < IndexOf(Ids(g.nodes), nodes[j])
  {
    hide IdentityFault, OnCycle, DownstreamOfCycle, IsLayering, PolicyDiagnostics, IdentityDiagnostics;
    FaultlessIdentified(g);
    CyclicNodes(g);
    CycleNodesExact(g);
    var ids := Ids(g.nodes);
    var stuck := set n | n in ids && DownstreamOfCycle(g.edges, n);
    var nodes := r.diagnostics[0].nodes;
    assert nodes == Keep(ids, stuck);
    KeepNoDup(ids, stuck);
    forall i, j | 0 <= i < j < |nodes| ensures IndexOf(ids, nodes[i]) < IndexOf(ids, nodes[j]) {
      IndexIsPosition(nodes, i);
      IndexIsPosition(nodes, j);
      ReadyOrder.KeepOrder(ids, stuck, nodes[i], nodes[j]);
    }
  }

  // ---- The last phase -------------------------------------------------------------------------

  lemma {:induction false} TargetsCount(edges: seq<Edge>, n: NodeId)
    ensures |Targets(edges, n)| == |Leaving(edges, n)|
  {
    if edges == [] {
      assert Leaving(edges, n) == {};
    } else {
      var front, last := edges[..|edges| - 1], |edges| - 1;
      TargetsCount(front, n);
      if edges[last].source.node == n {
        assert Leaving(edges, n) == Leaving(front, n) + {last};
      } else {
        assert Leaving(edges, n) == Leaving(front, n);
      }
    }
  }

  lemma {:induction false} RootsDiagnosed(g: Graph, layers: nat, d: Diagnostic)
    ensures d in Collect(|g.entrypoints|, IncomingProblems(g.edges, g.entrypoints)) <==>
              d.EntrypointHasIncoming? && PolicyFault(g, layers, d)
  {
    hide Collect;
    var at := IncomingProblems(g.edges, g.entrypoints);
    CollectMembers(|g.entrypoints|, at, d);
    if d.EntrypointHasIncoming? && PolicyFault(g, layers, d) {
      assert d in at(d.index);
    }
  }

  lemma {:induction false} ReachDiagnosed(g: Graph, layers: nat, d: Diagnostic)
    ensures d in Collect(|g.nodes|, ReachProblems(g)) <==> d.UnreachableNode? && PolicyFault(g, layers, d)
  {
    hide Reaches;
    CollectMembers(|g.nodes|, ReachProblems(g), d);
    if d.UnreachableNode? && PolicyFault(g, layers, d) {
      var i: nat :| i < |g.nodes| && g.nodes[i].id == d.node;
      assert d in ReachProblems(g)(i);
    }
  }

  lemma {:induction false} FanOutDiagnosed(g: Graph, layers: nat, d: Diagnostic)
    ensures d in Collect(|g.nodes|, FanOutProblems(g)) <==> d.MaxFanOut? && PolicyFault(g, layers, d)
  {
    hide Targets, Leaving;
    CollectMembers(|g.nodes|, FanOutProblems(g), d);
    forall i: nat | i < |g.nodes| ensures |Targets(g.edges, g.nodes[i].id)| == |Leaving(g.edges, g.nodes[i].id)| {
      TargetsCount(g.edges, g.nodes[i].id);
    }
    if d.MaxFanOut? && PolicyFault(g, layers, d) {
      var i: nat :| i < |g.nodes| && g.nodes[i].id == d.node;
      assert d in FanOutProblems(g)(i);
    }
  }

  lemma {:induction false} PolicyMembers(g: Graph, layers: nat, d: Diagnostic)
    ensures d in PolicyDiagnostics(g, layers) <==> PolicyFault(g, layers, d)
  {
    hide Collect, IncomingProblems, ReachProblems, FanOutProblems, Reaches, Leaving;
    RootsDiagnosed(g, layers, d);
    ReachDiagnosed(g, layers, d);
    FanOutDiagnosed(g, layers, d);
  }

  lemma {:induction false} NoCyclicNodes(g: Graph)
    requires WellIdentified(g) && forall n | n in Ids(g.nodes) :: !OnCycle(g.edges, n)
    ensures CycleNodes(g) == []
  {
    hide OnCycle, Reaches, CycleNodes;
    CycleNodesExact(g);
    if CycleNodes(g) != [] {
      var n := CycleNodes(g)[0];
      assert n in CycleNodes(g);
      var c :| OnCycle(g.edges, c) && Reaches(g.edges, c, n);
      Compiler.CycleInside(g, c);
    }
  }

  // A sound acyclic document: exactly the remaining faults are reported.
  lemma {:induction false} PolicyDiagnosesExact(g: Graph, r: Compilation, d: Diagnostic)
    requires CompiledAs(g, r) && forall f :: !IdentityFault(g, f)
    requires forall n | n in Ids(g.nodes) :: !OnCycle(g.edges, n)
    ensures d in r.diagnostics <==> PolicyFault(g, |r.layers|, d)
  {
    hide IdentityFault, PolicyFault, OnCycle, IsLayering, PolicyDiagnostics, IdentityDiagnostics;
    FaultlessIdentified(g);
    NoCyclicNodes(g);
    PolicyMembers(g, |r.layers|, d);
  }

  // ---- Outputs by name ------------------------------------------------------------------------

  // Outputs are looked at in the order of their names by code point.
  lemma {:induction false} OutputsByName(g: Graph)
    ensures multiset(SortedOutputs(g)) == multiset(g.outputs)
    ensures forall i, j | 0 <= i < j < |SortedOutputs(g)| ::
              Compare(SortedOutputs(g)[i].name, SortedOutputs(g)[j].name) <= 0
  {
    hide Compare, Sort;
    forall a, b ensures OutputLeq(a, b) || OutputLeq(b, a) { CompareIsTotalOrder(a.name, b.name, a.name); }
    forall a, b, c | OutputLeq(a, b) && OutputLeq(b, c) ensures OutputLeq(a, c) {
      CompareIsTotalOrder(a.name, b.name, c.name);
    }
    SortSorted(g.outputs, OutputLeq);
    var outputs := SortedOutputs(g);
    forall i, j | 0 <= i < j < |outputs| ensures Compare(outputs[i].name, outputs[j].name) <= 0 {
      assert OutputLeq(outputs[i], outputs[j]);
    }
  }

  ghost predicate ByName(ds: seq<Diagnostic>) {
    && (forall d | d in ds :: d.MissingOutput?)
    && forall i, j | 0 <= i < j < |ds| :: Compare(ds[i].name, ds[j].name) <= 0
  }

  lemma {:induction false} ByNameAppend(ds: seq<Diagnostic>, d: Diagnostic)
    requires ByName(ds) && d.MissingOutput? && forall e | e in ds :: Compare(e.name, d.name) <= 0
    ensures ByName(ds + [d])
  {
    hide Compare;
    forall i | 0 <= i < |ds| ensures Compare(ds[i].name, d.name) <= 0 {
      assert ds[i] in ds;
    }
  }

  lemma {:induction false} NothingByName()
    ensures ByName([])
  {}

  // The output diagnostics at positions 0 .. n - 1 come in the order of the outputs.
  lemma {:induction false} OutputDiagnosesInOrder(ids: set<NodeId>, outputs: seq<Output>, n: nat)
    requires n <= |outputs|
    requires forall i, j | 0 <= i < j < |outputs| :: Compare(outputs[i].name, outputs[j].name) <= 0
    ensures var ds := Collect(n, OutputProblems(ids, outputs));
            && ByName(ds)
            && forall d | d in ds :: d.MissingOutput? && exists i :: 0 <= i < n && outputs[i].name == d.name
  {
    hide Compare, ByName;
    if n == 0 {
      NothingByName();
    } else {
      OutputDiagnosesInOrder(ids, outputs, n - 1);
      var before, o := Collect(n - 1, OutputProblems(ids, outputs)), outputs[n - 1];
      if o.endpoint.node !in ids {
        forall d | d in before ensures Compare(d.name, o.name) <= 0 {
          var k :| 0 <= k < n - 1 && outputs[k].name == d.name;
        }
        ByNameAppend(before, MissingOutput(o.name, o.endpoint.node));
      } else {
        assert before + [] == before;
      }
    }
  }

  lemma {:induction false} NoOutputsBefore(g: Graph, d: Diagnostic)
    requires d.MissingOutput?
    ensures d !in Collect(|g.nodes|, NodeProblems(g.nodes))
    ensures d !in EdgeDiagnostics(Elems(Ids(g.nodes)), g.edges)
    ensures d !in Collect(|g.entrypoints|, EntryProblems(Elems(Ids(g.nodes)), g.entrypoints))
  {
    NodesDiagnosed(g, d);
    EdgesDiagnosed(g, d);
    EntriesDiagnosed(g, d);
  }

  lemma {:induction false} NoPolicyOutput(g: Graph, layers: nat, d: Diagnostic)
    requires d.MissingOutput?
    ensures !PolicyFault(g, layers, d)
  {}

  lemma {:induction false} PolicyHasNoOutputs(g: Graph, r: Compilation, i: nat)
    requires CompiledAs(g, r) && i < |r.diagnostics| && r.diagnostics[i].MissingOutput?
    ensures !WellIdentified(g)
  {
    hide IsLayering, CycleNodes, WellIdentified, PolicyDiagnostics, PolicyFault;
    if WellIdentified(g) {
      PolicyMembers(g, |r.layers|, r.diagnostics[i]);
      NoPolicyOutput(g, |r.layers|, r.diagnostics[i]);
    }
  }

  // Missing output references are reported in the order of the outputs' names.
  lemma {:induction false} OutputDiagnosesByName(g: Graph, r: Compilation, i: nat, j: nat)
    requires CompiledAs(g, r) && i < j < |r.diagnostics|
    requires r.diagnostics[i].MissingOutput? && r.diagnostics[j].MissingOutput?
    ensures Compare(r.diagnostics[i].name, r.diagnostics[j].name) <= 0
  {
    hide Compare, Collect, WellIdentified, EdgeDiagnostics, CycleNodes, IsLayering, SortedOutputs;
    var ids, outputs := Elems(Ids(g.nodes)), SortedOutputs(g);
    OutputsByName(g);
    OutputDiagnosesInOrder(ids, outputs, |outputs|);
    NoOutputsBefore(g, r.diagnostics[i]);
    NoOutputsBefore(g, r.diagnostics[j]);
    PolicyHasNoOutputs(g, r, i);
    var first := Collect(|g.nodes|, NodeProblems(g.nodes)) + EdgeDiagnostics(ids, g.edges)
               + Collect(|g.entrypoints|, EntryProblems(ids, g.entrypoints));
    assert IdentityDiagnostics(g) == first + OutputDiagnostics(ids, outputs);
    assert r.diagnostics[i] !in first && r.diagnostics[j] !in first;
  }
}
