/** Input binding on pattern graphs: with all outputs present it never collides. */
module PatternInputs {
  import opened Sequences
  import opened Json
  import opened Graphs
  import opened CompilerSpec
  import opened ReadyQueue
  import opened Bindings
  import opened Patterns
  import FanPatterns
  import LoopPatterns

  // Every edge carries a whole output, and no two edges into a node bind the same key.
  ghost predicate DistinctInputs(edges: seq<Edge>) {
    && NoDup(edges) && (forall e | e in edges :: e.source.port.None?)
    && forall e, f | e in edges && f in edges && e.target.node == f.target.node && InputKey(e) == InputKey(f) :: e == f
  }

  // Binding distinct keys of present outputs succeeds, with one field per edge.
  lemma {:induction false} BindsDistinct(edges: seq<Edge>, results: map<NodeId, NodeResult>)
    requires NoDup(edges) && forall e | e in edges :: e.source.port.None? && OutputOf(results, e.source.node).Some?
    requires forall e, f | e in edges && f in edges && InputKey(e) == InputKey(f) :: e == f
    ensures BindEdges(edges, results).Some?
    ensures forall field | field in BindEdges(edges, results).value ::
      exists e :: e in edges && InputKey(e) == field.key
  {
    hide OutputOf, InputKey, Lookup, OwnProperty;
    if edges == [] {
    } else {
      var front, last := edges[..|edges| - 1], edges[|edges| - 1];
      assert edges == front + [last];
      NoDupAppend(front, last);
      BindsDistinct(front, results);
      var bound := BindEdges(front, results).value;
      LookupFinds(bound, InputKey(last));
    }
  }

  lemma {:induction false} BindsAlways(plan: Plan, results: map<NodeId, NodeResult>, n: NodeId)
    requires DistinctInputs(plan.g.edges)
    requires forall p | Arc(plan.g.edges, p, n) :: OutputOf(results, p).Some?
    ensures BindInput(plan, results, n).Some?
  {
    hide OutputOf, InputKey, Canon;
    var incoming := Incoming(plan.g, n);
    IncomingMembers(plan.g, n);
    IncomingOnce(plan.g, n);
    forall e | e in incoming ensures e.source.port.None? && OutputOf(results, e.source.node).Some? {
      assert Arc(plan.g.edges, e.source.node, n);
    }
    BindsDistinct(incoming, results);
  }

  lemma {:induction false} NumberedNoDup(kind: PatternKind, edges: seq<Edge>)
    requires Numbered(kind, edges)
    ensures NoDup(edges)
  {
    hide IdOf;
    forall i, j | 0 <= i < j < |edges| ensures edges[i] != edges[j] {
      IdsDiffer(kind, i + 1, j + 1);
    }
  }

  // ---- Fan-out and fan-in -----------------------------------------------------------------

  lemma {:induction false} FanInputsAt(kind: PatternKind, head: Node, items: seq<Keyed>, tail: Node, i: nat, j: nat)
    requires FanPatterns.Distinguished(head, items, tail) && NoDup(KeysOf(items))
    requires i < 2 * |items| && j < 2 * |items|
    ensures var edges := FanPatterns.FanEdges(kind, head, items, tail);
            edges[i].target.node == edges[j].target.node && InputKey(edges[i]) == InputKey(edges[j]) ==> i == j
  {
    hide IdOf;
    var n, edges := |items|, FanPatterns.FanEdges(kind, head, items, tail);
    if i < n && j < n {
      SamePosition(Ids(NodesOf(items)), i, j);
    } else if i >= n && j >= n {
      SamePosition(KeysOf(items), i - n, j - n);
    }
  }

  lemma {:induction false} FanInputs(kind: PatternKind, head: Node, items: seq<Keyed>, tail: Node)
    requires FanPatterns.Distinguished(head, items, tail) && NoDup(KeysOf(items))
    ensures DistinctInputs(FanPatterns.FanEdges(kind, head, items, tail))
  {
    hide IdOf;
    var edges := FanPatterns.FanEdges(kind, head, items, tail);
    NumberedNoDup(kind, edges);
    forall e | e in edges ensures e.source.port.None? {
      FanPatterns.FanEdgeAt(kind, head, items, tail, e);
    }
    forall e, f | e in edges && f in edges && e.target.node == f.target.node && InputKey(e) == InputKey(f)
        ensures e == f {
      var i :| 0 <= i < |edges| && edges[i] == e;
      var j :| 0 <= j < |edges| && edges[j] == f;
      FanInputsAt(kind, head, items, tail, i, j);
    }
  }

  // Binding on a fan-out/fan-in graph never fails once the predecessors have outputs.
  lemma {:induction false} FanBinds(kind: PatternKind, head: Node, items: seq<Keyed>, tail: Node, plan: Plan,
      results: map<NodeId, NodeResult>, n: NodeId)
    requires items != [] && NoDup(Ids(FanPatterns.FanNodes(head, items, tail))) && NoDup(KeysOf(items))
    requires plan.g.edges == FanPatterns.FanEdges(kind, head, items, tail)
    requires forall p | Arc(plan.g.edges, p, n) :: OutputOf(results, p).Some?
    ensures BindInput(plan, results, n).Some?
  {
    hide FanPatterns.FanEdges, FanPatterns.FanNodes, OutputOf, DistinctInputs, BindInput;
    FanPatterns.IdsDistinguish(head, items, tail);
    FanInputs(kind, head, items, tail);
    BindsAlways(plan, results, n);
  }

  // ---- The unrolled loop -----------------------------------------------------------------------

  lemma {:induction false} LoopInputsAt(rounds: seq<LoopPatterns.Round>, finalize: Node, i: nat, j: nat)
    requires NoDup(LoopPatterns.LoopIds(rounds, finalize)) && NoDup(LoopPatterns.RoundKeys(rounds))
    requires i < LoopPatterns.LoopEdgeCount(rounds) && j < LoopPatterns.LoopEdgeCount(rounds)
    ensures var e, f := LoopPatterns.LoopEdgeAt(rounds, finalize, i), LoopPatterns.LoopEdgeAt(rounds, finalize, j);
            e.target.node == f.target.node && InputKey(e) == InputKey(f) ==> i == j
  {
    hide LoopPatterns.LoopIds, IdOf;
    var ids, n := LoopPatterns.LoopIds(rounds, finalize), |rounds|;
    LoopPatterns.EdgeEnds(rounds, finalize, i);
    LoopPatterns.EdgeEnds(rounds, finalize, j);
    SamePosition(ids, LoopPatterns.To(n, i), LoopPatterns.To(n, j));
    SamePosition(LoopPatterns.RoundKeys(rounds), i / 3, j / 3);
  }

  lemma {:induction false} LoopInputs(rounds: seq<LoopPatterns.Round>, finalize: Node)
    requires NoDup(LoopPatterns.LoopIds(rounds, finalize)) && NoDup(LoopPatterns.RoundKeys(rounds))
    ensures DistinctInputs(LoopPatterns.LoopEdges(rounds, finalize))
  {
    hide IdOf, LoopPatterns.LoopIds, InputKey;
    var edges := LoopPatterns.LoopEdges(rounds, finalize);
    forall j | 0 <= j < |edges| ensures edges[j].id == IdOf(LoopUntilDry, j + 1) && edges[j].source.port.None? {
      LoopPatterns.EdgeEnds(rounds, finalize, j);
    }
    NumberedNoDup(LoopUntilDry, edges);
    forall e, f | e in edges && f in edges && e.target.node == f.target.node && InputKey(e) == InputKey(f)
        ensures e == f {
      var i :| 0 <= i < |edges| && edges[i] == e;
      var j :| 0 <= j < |edges| && edges[j] == f;
      LoopInputsAt(rounds, finalize, i, j);
    }
  }

  // Binding on an unrolled loop never fails once the predecessors have outputs.
  lemma {:induction false} LoopBinds(rounds: seq<LoopPatterns.Round>, finalize: Node, plan: Plan,
      results: map<NodeId, NodeResult>, n: NodeId)
    requires NoDup(LoopPatterns.LoopIds(rounds, finalize)) && NoDup(LoopPatterns.RoundKeys(rounds))
    requires plan.g.edges == LoopPatterns.LoopEdges(rounds, finalize)
    requires forall p | Arc(plan.g.edges, p, n) :: OutputOf(results, p).Some?
    ensures BindInput(plan, results, n).Some?
  {
    hide LoopPatterns.LoopEdges, LoopPatterns.LoopIds, OutputOf, DistinctInputs, BindInput;
    LoopInputs(rounds, finalize);
    BindsAlways(plan, results, n);
  }
}
