/**
 The identity phase of the Python compiler: findings in the order it reports them, and why
 they name the same faults as the TypeScript diagnostics. A value declared several times is
 reported once by the Python compiler and once per repetition by the TypeScript compiler,
 and only the latter sorts the outputs; everything else is reported alike, in the same order.
 */
module PythonFindings {
  import opened Wrappers
  import opened Sequences
  import opened Text
  import opened Graphs
  import opened CompilerSpec

  // The part of a diagnostic that is fixed across languages: code and identifiers.
  datatype Code =
    | GE1001 | GE1002 | GE1003 | GE1004 | GE1005 | GE1006 | GE1008 | GE1009 | GE1010 | GE1101 | GE1102

  datatype Finding = Finding(code: Code, nodes: seq<NodeId>, edge: Option<EdgeId>, output: Option<JsString>)

  function Portable(d: Diagnostic): Finding {
    match d
    case DuplicateNode(_, n) => Finding(GE1001, [n], None, None)
    case DuplicateEdge(_, e) => Finding(GE1002, [], Some(e), None)
    case MissingSource(_, e, n) => Finding(GE1003, [n], Some(e), None)
    case MissingTarget(_, e, n) => Finding(GE1004, [n], Some(e), None)
    case MissingEntrypoint(_, n) => Finding(GE1008, [n], None, None)
    case MissingOutput(name, n) => Finding(GE1009, [n], None, Some(name))
    case Cycle(nodes) => Finding(GE1005, nodes, None, None)
    case EntrypointHasIncoming(_, n) => Finding(GE1010, [n], None, None)
    case UnreachableNode(n) => Finding(GE1006, [n], None, None)
    case MaxFanOut(n, _, _) => Finding(GE1101, [n], None, None)
    case MaxDepth(_, _) => Finding(GE1102, [], None, None)
  }

  function AllPortable(ds: seq<Diagnostic>): (fs: seq<Finding>)
    ensures |fs| == |ds| && forall i | 0 <= i < |ds| :: fs[i] == Portable(ds[i])
  {
    seq(|ds|, i requires 0 <= i < |ds| => Portable(ds[i]))
  }

  lemma {:induction false} AllPortableAppend(ds: seq<Diagnostic>, es: seq<Diagnostic>)
    ensures AllPortable(ds + es) == AllPortable(ds) + AllPortable(es)
  {}

  ghost predicate Reports(ds: seq<Diagnostic>, f: Finding) {
    exists d :: d in ds && Portable(d) == f
  }

  ghost predicate SameFindings(findings: seq<Finding>, diagnostics: seq<Diagnostic>) {
    forall f :: f in findings <==> Reports(diagnostics, f)
  }

  lemma {:induction false} PortableFindings(ds: seq<Diagnostic>)
    ensures SameFindings(AllPortable(ds), ds)
  {
    forall d | d in ds ensures Portable(d) in AllPortable(ds) {
      var i :| 0 <= i < |ds| && ds[i] == d;
      assert AllPortable(ds)[i] == Portable(d);
    }
  }

  // ---- Identity phase ----------------------------------------------------------

  ghost predicate Repeated<T(!new)>(s: seq<T>, x: T) {
    exists i, j :: 0 <= j < i < |s| && s[i] == s[j] == x
  }

  lemma {:induction false} RepeatedPrefix<T(!new)>(s: seq<T>, x: T)
    ensures Repeated(s, x) <==> exists i: nat :: i < |s| && s[i] == x && x in s[..i]
  {
    if Repeated(s, x) {
      var i, j :| 0 <= j < i < |s| && s[i] == s[j] == x;
      assert s[..i][j] == x;
      assert i < |s| && s[i] == x && x in s[..i];
    }
    if exists i: nat :: i < |s| && s[i] == x && x in s[..i] {
      var i: nat :| i < |s| && s[i] == x && x in s[..i];
      var j :| 0 <= j < i && s[..i][j] == x;
      assert 0 <= j < i < |s| && s[i] == s[j] == x;
    }
  }

  // The values counted more than once, each listed where it first occurs.
  function Repeats<T(!new)>(s: seq<T>, counts: multiset<T>): (r: seq<T>)
    ensures NoDup(r) && forall x :: x in r <==> x in s && counts[x] > 1
  {
    if s == [] then []
    else
      var front, last := s[..|s| - 1], s[|s| - 1];
      var before := Repeats(front, counts);
      assert s == front + [last];
      NoDupAppend(before, last);
      if counts[last] > 1 && last !in before then before + [last] else before
  }

  // They are listed in the order in which they first occur.
  lemma {:induction false} RepeatsInOrder<T(!new)>(s: seq<T>, counts: multiset<T>, i: nat, j: nat)
    requires i < j < |Repeats(s, counts)|
    ensures exists p :: 0 <= p < |s| && s[p] == Repeats(s, counts)[i] && Repeats(s, counts)[j] !in s[..p]
  {
    if s == [] {
    } else {
      var front, last, r := s[..|s| - 1], s[|s| - 1], Repeats(s, counts);
      var before := Repeats(front, counts);
      assert s == front + [last];
      if j < |before| {
        RepeatsInOrder(front, counts, i, j);
        var p :| 0 <= p < |front| && front[p] == before[i] && before[j] !in front[..p];
        assert s[..p] == front[..p] && s[p] == r[i];
      } else {
        assert before[i] in before && before[i] in front && last !in before;
        var p :| 0 <= p < |front| && front[p] == before[i];
        assert s[p] == r[i] && s[..p] <= front && last !in front;
        assert forall x | x in s[..p] :: x in front;
      }
    }
  }

  method DuplicateValues<T(==, !new)>(values: seq<T>) returns (duplicates: seq<T>)
    ensures duplicates == Repeats(values, multiset(values))
  {
    var counts := multiset(values);
    duplicates := [];
    for index := 0 to |values|
      invariant duplicates == Repeats(values[..index], counts)
    {
      assert values[..index + 1][..index] == values[..index];
      if counts[values[index]] > 1 && values[index] !in duplicates {
        duplicates := duplicates + [values[index]];
      }
    }
    assert values[..|values|] == values;
  }

  lemma {:induction false} CountTwice<T(!new)>(s: seq<T>, x: T)
    ensures multiset(s)[x] > 1 <==> Repeated(s, x)
  {
    if s == [] {
    } else {
      var front, last := s[..|s| - 1], s[|s| - 1];
      assert s == front + [last];
      CountTwice(front, x);
      assert multiset(front)[x] > 0 <==> x in front;
      if multiset(s)[x] > 1 && multiset(front)[x] <= 1 {
        var j :| 0 <= j < |front| && front[j] == x;
        assert s[|s| - 1] == s[j] == x;
      }
      if Repeated(front, x) {
        var i, j :| 0 <= j < i < |front| && front[i] == front[j] == x;
        assert s[i] == s[j] == x;
      }
      if Repeated(s, x) {
        var i, j :| 0 <= j < i < |s| && s[i] == s[j] == x;
        assert front[j] == x;
        assert i < |front| ==> front[i] == front[j] == x;
      }
    }
  }

  lemma {:induction false} RepeatsMeans<T(!new)>(s: seq<T>)
    ensures forall x :: x in Repeats(s, multiset(s)) <==> Repeated(s, x)
  {
    forall x ensures x in s && multiset(s)[x] > 1 <==> Repeated(s, x) {
      CountTwice(s, x);
    }
  }

  function NodeFinding(code: Code, n: NodeId): Finding { Finding(code, [n], None, None) }

  function NodeFindings(code: Code, nodes: seq<NodeId>): (fs: seq<Finding>)
    ensures |fs| == |nodes| && forall i | 0 <= i < |nodes| :: fs[i] == NodeFinding(code, nodes[i])
  {
    seq(|nodes|, i requires 0 <= i < |nodes| => NodeFinding(code, nodes[i]))
  }

  function EdgeIdFinding(id: EdgeId): Finding { Finding(GE1002, [], Some(id), None) }

  function EdgeIdFindings(ids: seq<EdgeId>): (fs: seq<Finding>)
    ensures |fs| == |ids| && forall i | 0 <= i < |ids| :: fs[i] == EdgeIdFinding(ids[i])
  {
    seq(|ids|, i requires 0 <= i < |ids| => EdgeIdFinding(ids[i]))
  }

  function EdgeFindings(ids: set<NodeId>, e: Edge): seq<Finding> {
    (if e.source.node !in ids then [Finding(GE1003, [e.source.node], Some(e.id), None)] else [])
    + (if e.target.node !in ids then [Finding(GE1004, [e.target.node], Some(e.id), None)] else [])
  }

  // What is wrong with the identities and references of g, without any order of discovery.
  ghost predicate NodeFault(g: Graph, f: Finding) {
    exists n :: Repeated(Ids(g.nodes), n) && f == NodeFinding(GE1001, n)
  }

  ghost predicate EdgeIdFault(g: Graph, f: Finding) {
    exists x :: Repeated(EdgeIds(g.edges), x) && f == EdgeIdFinding(x)
  }

  ghost predicate EdgeEndFault(g: Graph, f: Finding) {
    exists e :: e in g.edges && f in EdgeFindings(Elems(Ids(g.nodes)), e)
  }

  ghost predicate EntryFault(g: Graph, f: Finding) {
    exists n :: n in g.entrypoints && n !in Ids(g.nodes) && f == NodeFinding(GE1008, n)
  }

  ghost predicate OutputFault(g: Graph, f: Finding) {
    exists o :: o in g.outputs && o.endpoint.node !in Ids(g.nodes)
             && f == Finding(GE1009, [o.endpoint.node], None, Some(o.name))
  }

  ghost predicate IdentityFault(g: Graph, f: Finding) {
    NodeFault(g, f) || EdgeIdFault(g, f) || EdgeEndFault(g, f) || EntryFault(g, f) || OutputFault(g, f)
  }

  lemma {:induction false} ReportsAppend(a: seq<Diagnostic>, b: seq<Diagnostic>, f: Finding)
    ensures Reports(a + b, f) <==> Reports(a, f) || Reports(b, f)
  {
    if Reports(a, f) { var d :| d in a && Portable(d) == f; assert d in a + b; }
    if Reports(b, f) { var d :| d in b && Portable(d) == f; assert d in a + b; }
  }

  lemma {:induction false} ReportsCollect(n: nat, at: nat -> seq<Diagnostic>, f: Finding)
    ensures Reports(Collect(n, at), f) <==> exists i: nat :: i < n && Reports(at(i), f)
  {
    if n == 0 {
    } else {
      ReportsCollect(n - 1, at, f);
      ReportsAppend(Collect(n - 1, at), at(n - 1), f);
    }
  }

  lemma {:induction false} ReportsOne(d: Diagnostic, f: Finding)
    ensures Reports([d], f) <==> Portable(d) == f
  {
    assert d in [d];
  }

  lemma {:induction false} NodeReports(g: Graph, f: Finding)
    ensures Reports(Collect(|g.nodes|, NodeProblems(g.nodes)), f) <==> NodeFault(g, f)
  {
    var ids := Ids(g.nodes);
    ReportsCollect(|g.nodes|, NodeProblems(g.nodes), f);
    forall i: nat | i < |g.nodes|
      ensures Reports(NodeProblems(g.nodes)(i), f) <==> ids[i] in ids[..i] && f == NodeFinding(GE1001, ids[i])
    {
      assert Ids(g.nodes[..i]) == ids[..i];
      ReportsOne(DuplicateNode(i, ids[i]), f);
    }
    forall n ensures Repeated(ids, n) <==> exists i: nat :: i < |ids| && ids[i] == n && n in ids[..i] {
      RepeatedPrefix(ids, n);
    }
  }

  lemma {:induction false} EdgeProblemReports(ids: set<NodeId>, i: nat, e: Edge, duplicate: bool, f: Finding)
    ensures Reports(EdgeProblem(ids, i, e, duplicate), f) <==>
              (duplicate && f == EdgeIdFinding(e.id)) || f in EdgeFindings(ids, e)
  {
    var a := if duplicate then [DuplicateEdge(i, e.id)] else [];
    var b := if e.source.node !in ids then [MissingSource(i, e.id, e.source.node)] else [];
    var c := if e.target.node !in ids then [MissingTarget(i, e.id, e.target.node)] else [];
    ReportsAppend(a + b, c, f);
    ReportsAppend(a, b, f);
    ReportsOne(DuplicateEdge(i, e.id), f);
    ReportsOne(MissingSource(i, e.id, e.source.node), f);
    ReportsOne(MissingTarget(i, e.id, e.target.node), f);
  }

  lemma {:induction false} EdgeReports(g: Graph, f: Finding)
    ensures Reports(EdgeDiagnostics(Elems(Ids(g.nodes)), g.edges), f)
       <==> EdgeIdFault(g, f) || EdgeEndFault(g, f)
  {
    var ids, names := Elems(Ids(g.nodes)), EdgeIds(g.edges);
    ReportsCollect(|g.edges|, EdgeProblems(ids, g.edges), f);
    forall i: nat | i < |g.edges|
      ensures Reports(EdgeProblems(ids, g.edges)(i), f) <==>
                (names[i] in names[..i] && f == EdgeIdFinding(names[i]))
                || f in EdgeFindings(ids, g.edges[i])
    {
      assert EdgeIds(g.edges[..i]) == names[..i];
      EdgeProblemReports(ids, i, g.edges[i], names[i] in names[..i], f);
    }
    forall x ensures Repeated(names, x) <==> exists i: nat :: i < |names| && names[i] == x && x in names[..i] {
      RepeatedPrefix(names, x);
    }
  }

  lemma {:induction false} EntryReports(g: Graph, f: Finding)
    ensures Reports(Collect(|g.entrypoints|, EntryProblems(Elems(Ids(g.nodes)), g.entrypoints)), f)
        <==> EntryFault(g, f)
  {
    var ids, entries := Elems(Ids(g.nodes)), g.entrypoints;
    ReportsCollect(|entries|, EntryProblems(ids, entries), f);
    forall i: nat | i < |entries|
      ensures Reports(EntryProblems(ids, entries)(i), f) <==> entries[i] !in ids && f == NodeFinding(GE1008, entries[i])
    {
      ReportsOne(MissingEntrypoint(i, entries[i]), f);
    }
  }

  lemma {:induction false} OutputReportAt(ids: set<NodeId>, outputs: seq<Output>, i: nat, f: Finding)
    requires i < |outputs|
    ensures Reports(OutputProblems(ids, outputs)(i), f) <==>
              outputs[i].endpoint.node !in ids
                  && f == Finding(GE1009, [outputs[i].endpoint.node], None, Some(outputs[i].name))
  {
    ReportsOne(MissingOutput(outputs[i].name, outputs[i].endpoint.node), f);
  }

  // The order of the outputs does not matter for what is reported.
  lemma {:induction false} OutputReports(g: Graph, outputs: seq<Output>, f: Finding)
    requires forall o :: o in outputs <==> o in g.outputs
    ensures Reports(OutputDiagnostics(Elems(Ids(g.nodes)), outputs), f) <==> OutputFault(g, f)
  {
    hide Collect, Portable, Reports, OutputProblems;
    var ids := Elems(Ids(g.nodes));
    ReportsCollect(|outputs|, OutputProblems(ids, outputs), f);
    forall i: nat | i < |outputs|
      ensures Reports(OutputProblems(ids, outputs)(i), f) <==>
                outputs[i].endpoint.node !in ids
                && f == Finding(GE1009, [outputs[i].endpoint.node], None, Some(outputs[i].name))
    {
      OutputReportAt(ids, outputs, i, f);
    }
  }

  lemma {:induction false} IdentityReports(g: Graph, f: Finding)
    ensures Reports(IdentityDiagnostics(g), f) <==> IdentityFault(g, f)
  {
    var ids := Elems(Ids(g.nodes));
    var a := Collect(|g.nodes|, NodeProblems(g.nodes));
    var b := EdgeDiagnostics(ids, g.edges);
    var c := Collect(|g.entrypoints|, EntryProblems(ids, g.entrypoints));
    var d := OutputDiagnostics(ids, SortedOutputs(g));
    ReportsAppend(a + b + c, d, f);
    ReportsAppend(a + b, c, f);
    ReportsAppend(a, b, f);
    NodeReports(g, f);
    EdgeReports(g, f);
    EntryReports(g, f);
    SortMembers(g.outputs, OutputLeq);
    OutputReports(g, SortedOutputs(g), f);
  }

  // ---- The findings, in order -----------------------------------------------------------

  // What is wrong with the ends of each edge.
  ghost function EndProblems(ids: set<NodeId>, edges: seq<Edge>): nat -> seq<Diagnostic> {
    (i: nat) => if i < |edges| then EdgeProblem(ids, i, edges[i], false) else []
  }

  ghost function EndDiagnostics(g: Graph): seq<Diagnostic> {
    Collect(|g.edges|, EndProblems(Elems(Ids(g.nodes)), g.edges))
  }

  ghost function EntryDiagnostics(g: Graph): seq<Diagnostic> {
    Collect(|g.entrypoints|, EntryProblems(Elems(Ids(g.nodes)), g.entrypoints))
  }

  // Repeated node ids, repeated edge ids, edge ends, entrypoints, then outputs as given.
  ghost function IdentityFindings(g: Graph): seq<Finding> {
    NodeFindings(GE1001, Repeats(Ids(g.nodes), multiset(Ids(g.nodes))))
    + EdgeIdFindings(Repeats(EdgeIds(g.edges), multiset(EdgeIds(g.edges))))
    + AllPortable(EndDiagnostics(g)) + AllPortable(EntryDiagnostics(g))
    + AllPortable(OutputDiagnostics(Elems(Ids(g.nodes)), g.outputs))
  }

  lemma {:induction false} RepeatedNodes(g: Graph, f: Finding)
    ensures f in NodeFindings(GE1001, Repeats(Ids(g.nodes), multiset(Ids(g.nodes)))) <==> NodeFault(g, f)
  {
    hide Repeats, Repeated;
    var repeats := Repeats(Ids(g.nodes), multiset(Ids(g.nodes)));
    RepeatsMeans(Ids(g.nodes));
    if NodeFault(g, f) {
      var n :| Repeated(Ids(g.nodes), n) && f == NodeFinding(GE1001, n);
      assert n in repeats;
      var i :| 0 <= i < |repeats| && repeats[i] == n;
      assert NodeFindings(GE1001, repeats)[i] == f;
    }
  }

  lemma {:induction false} RepeatedEdgeIds(g: Graph, f: Finding)
    ensures f in EdgeIdFindings(Repeats(EdgeIds(g.edges), multiset(EdgeIds(g.edges)))) <==> EdgeIdFault(g, f)
  {
    hide Repeats, Repeated;
    var repeats := Repeats(EdgeIds(g.edges), multiset(EdgeIds(g.edges)));
    RepeatsMeans(EdgeIds(g.edges));
    if EdgeIdFault(g, f) {
      var x :| Repeated(EdgeIds(g.edges), x) && f == EdgeIdFinding(x);
      assert x in repeats;
      var i :| 0 <= i < |repeats| && repeats[i] == x;
      assert EdgeIdFindings(repeats)[i] == f;
    }
  }

  lemma {:induction false} EndReports(g: Graph, f: Finding)
    ensures Reports(EndDiagnostics(g), f) <==> EdgeEndFault(g, f)
  {
    hide Collect, Portable, Reports, EdgeProblem, EdgeFindings;
    var ids := Elems(Ids(g.nodes));
    ReportsCollect(|g.edges|, EndProblems(ids, g.edges), f);
    forall i: nat | i < |g.edges|
      ensures Reports(EndProblems(ids, g.edges)(i), f) <==> f in EdgeFindings(ids, g.edges[i])
    {
      EdgeProblemReports(ids, i, g.edges[i], false, f);
    }
  }

  // The ordered findings name exactly the faults of the graph.
  lemma {:induction false} IdentityFindingsExact(g: Graph, f: Finding)
    ensures f in IdentityFindings(g) <==> IdentityFault(g, f)
  {
    hide NodeFault, EdgeIdFault, EdgeEndFault, EntryFault, OutputFault, Repeats, NodeFindings, EdgeIdFindings,
         AllPortable, EndDiagnostics, OutputDiagnostics, Collect, Reports;
    RepeatedNodes(g, f);
    RepeatedEdgeIds(g, f);
    EndReports(g, f);
    EntryReports(g, f);
    OutputReports(g, g.outputs, f);
    PortableFindings(EndDiagnostics(g));
    PortableFindings(EntryDiagnostics(g));
    PortableFindings(OutputDiagnostics(Elems(Ids(g.nodes)), g.outputs));
  }

  lemma {:induction false} NoneReported(ds: seq<Diagnostic>, findings: seq<Finding>)
    requires forall f :: f in findings <==> Reports(ds, f)
    ensures findings == [] <==> ds == []
  {
    if ds != [] {
      assert ds[0] in ds;
      assert Reports(ds, Portable(ds[0]));
    }
    if findings != [] {
      assert findings[0] in findings;
    }
  }

  // So both identity phases name the same faults, and are silent on the same graphs.
  lemma {:induction false} IdentityPhasesAgree(g: Graph)
    ensures SameFindings(IdentityFindings(g), IdentityDiagnostics(g))
    ensures IdentityFindings(g) == [] <==> WellIdentified(g)
  {
    hide IdentityFindings, IdentityDiagnostics, IdentityFault, Reports, WellIdentified;
    IdentityDiagnosticsExact(g);
    forall f ensures f in IdentityFindings(g) <==> Reports(IdentityDiagnostics(g), f) {
      IdentityReports(g, f);
      IdentityFindingsExact(g, f);
    }
    NoneReported(IdentityDiagnostics(g), IdentityFindings(g));
  }

  // ---- The identity phase ------------------------------------------------------------------

  lemma {:induction false} AllPortableNone()
    ensures AllPortable([]) == []
  {}

  lemma {:induction false} EndPortable(ids: set<NodeId>, edges: seq<Edge>, index: nat)
    requires index < |edges|
    ensures AllPortable(EndProblems(ids, edges)(index)) == EdgeFindings(ids, edges[index])
  {}

  lemma {:induction false} EndNext(ids: set<NodeId>, edges: seq<Edge>, index: nat)
    requires index < |edges|
    ensures var at, e := EndProblems(ids, edges), edges[index];
            AllPortable(Collect(index + 1, at)) == AllPortable(Collect(index, at))
              + (if e.source.node !in ids then [Finding(GE1003, [e.source.node], Some(e.id), None)] else [])
              + (if e.target.node !in ids then [Finding(GE1004, [e.target.node], Some(e.id), None)] else [])
  {
    var at := EndProblems(ids, edges);
    CollectNext(index, at);
    AllPortableAppend(Collect(index, at), at(index));
    EndPortable(ids, edges, index);
  }

  method CheckEnds(g: Graph) returns (findings: seq<Finding>)
    ensures findings == AllPortable(EndDiagnostics(g))
  {
    hide Collect, EndProblems, AllPortable;
    var nodeIds := Elems(Ids(g.nodes));
    CollectNone(EndProblems(nodeIds, g.edges));
    AllPortableNone();
    findings := [];
    for index := 0 to |g.edges|
      invariant findings == AllPortable(Collect(index, EndProblems(nodeIds, g.edges)))
    {
      var edge := g.edges[index];
      EndNext(nodeIds, g.edges, index);
      if edge.source.node !in nodeIds {
        findings := findings + [Finding(GE1003, [edge.source.node], Some(edge.id), None)];
      }
      if edge.target.node !in nodeIds {
        findings := findings + [Finding(GE1004, [edge.target.node], Some(edge.id), None)];
      }
    }
  }

  method CheckEntrypoints(g: Graph) returns (findings: seq<Finding>)
    ensures findings == AllPortable(EntryDiagnostics(g))
  {
    var nodeIds := Elems(Ids(g.nodes));
    ghost var at := EntryProblems(nodeIds, g.entrypoints);
    findings := [];
    for index := 0 to |g.entrypoints|
      invariant findings == AllPortable(Collect(index, at))
    {
      AllPortableAppend(Collect(index, at), at(index));
      if g.entrypoints[index] !in nodeIds {
        findings := findings + [NodeFinding(GE1008, g.entrypoints[index])];
      }
    }
  }

  method CheckOutputs(g: Graph) returns (findings: seq<Finding>)
    ensures findings == AllPortable(OutputDiagnostics(Elems(Ids(g.nodes)), g.outputs))
  {
    var nodeIds := Elems(Ids(g.nodes));
    ghost var at := OutputProblems(nodeIds, g.outputs);
    findings := [];
    for index := 0 to |g.outputs|
      invariant findings == AllPortable(Collect(index, at))
    {
      var output := g.outputs[index];
      AllPortableAppend(Collect(index, at), at(index));
      if output.endpoint.node !in nodeIds {
        findings := findings + [Finding(GE1009, [output.endpoint.node], None, Some(output.name))];
      }
    }
  }

  method CheckIdentities(g: Graph) returns (findings: seq<Finding>)
    ensures findings == IdentityFindings(g)
  {
    hide Repeats, EndDiagnostics, EntryDiagnostics, OutputDiagnostics, AllPortable;
    var duplicateNodes := DuplicateValues(Ids(g.nodes));
    var duplicateEdges := DuplicateValues(EdgeIds(g.edges));
    findings := [];
    for index := 0 to |duplicateNodes|
      invariant findings == NodeFindings(GE1001, duplicateNodes[..index])
    {
      findings := findings + [NodeFinding(GE1001, duplicateNodes[index])];
    }
    assert duplicateNodes[..|duplicateNodes|] == duplicateNodes;
    ghost var nodeFindings := findings;
    for index := 0 to |duplicateEdges|
      invariant findings == nodeFindings + EdgeIdFindings(duplicateEdges[..index])
    {
      findings := findings + [EdgeIdFinding(duplicateEdges[index])];
    }
    assert duplicateEdges[..|duplicateEdges|] == duplicateEdges;
    var ends := CheckEnds(g);
    var entries := CheckEntrypoints(g);
    var outputs := CheckOutputs(g);
    findings := findings + ends + entries + outputs;
  }
}
