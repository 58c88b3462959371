/**
 A graph the compiler accepts on which two nodes become ready together and are launched
 against their declaration order: z feeds deep, declared first, and shallow; deep also waits
 for y, which waits for x.
 */
module OrderWitness {
  import opened Wrappers
  import opened Sequences
  import opened Text
  import opened Json
  import opened Graphs
  import opened CompilerSpec
  import opened ReadyQueue
  import opened Readiness
  import opened GradedGraphs
  import opened PatternInputs
  import opened Scheduler
  import opened ReadyOrder
  import Compiler

  // ---- The graph ---------------------------------------------------------------------------

  function Letter(u: CodeUnit): NodeId { NodeId([u]) }

  function Arrow(id: CodeUnit, a: CodeUnit, b: CodeUnit): Edge {
    Edge(EdgeId([id]), Endpoint(Letter(a), None), Endpoint(Letter(b), None))
  }

  function Plain(u: CodeUnit): Node { Node(Letter(u), Transform, None, None) }

  function Witness(): Graph {
    Graph([Plain(122), Plain(120), Plain(121), Plain(100), Plain(115)],
          [Arrow(1, 120, 121), Arrow(2, 121, 100), Arrow(3, 122, 100), Arrow(4, 122, 115)],
          [Letter(122), Letter(120)], [], Policies(None, None, None, None))
  }

  ghost function WitnessRank(): Ranking {
    n => if n == Letter(100) then 2 else if n == Letter(121) || n == Letter(115) then 1 else 0
  }

  lemma {:induction false} WitnessIds()
    ensures Ids(Witness().nodes) == [Letter(122), Letter(120), Letter(121), Letter(100), Letter(115)]
    ensures EdgeIds(Witness().edges) == [EdgeId([1]), EdgeId([2]), EdgeId([3]), EdgeId([4])]
  {}

  lemma {:induction false} ShortDistinct()
    ensures NoDup([Letter(122), Letter(120), Letter(121), Letter(100), Letter(115)])
    ensures NoDup([EdgeId([1]), EdgeId([2]), EdgeId([3]), EdgeId([4])])
  {
    forall a: CodeUnit, b: CodeUnit | a != b ensures Letter(a) != Letter(b) && EdgeId([a]) != EdgeId([b]) {
      assert [a][0] != [b][0];
    }
  }

  lemma {:induction false} WitnessIdentified()
    ensures WellIdentified(Witness())
  {
    WitnessIds();
    ShortDistinct();
    var ids := [Letter(122), Letter(120), Letter(121), Letter(100), Letter(115)];
    assert ids[0] == Letter(122) && ids[1] == Letter(120) && ids[2] == Letter(121) && ids[3] == Letter(100)
        && ids[4] == Letter(115);
  }

  lemma {:induction false} WitnessEdges(e: Edge)
    requires e in Witness().edges
    ensures e == Arrow(1, 120, 121) || e == Arrow(2, 121, 100) || e == Arrow(3, 122, 100) || e == Arrow(4, 122, 115)
  {}

  lemma {:induction false} LettersDiffer()
    ensures forall a: CodeUnit, b: CodeUnit :: Letter(a) == Letter(b) <==> a == b
  {
    forall a: CodeUnit, b: CodeUnit | Letter(a) == Letter(b) ensures a == b {
      assert [a][0] == [b][0];
    }
  }

  lemma {:induction false} WitnessClimbs()
    ensures Climbs(Witness().edges, WitnessRank())
  {
    hide Witness, Letter;
    LettersDiffer();
    forall e | e in Witness().edges ensures WitnessRank()(e.source.node) < WitnessRank()(e.target.node) {
      WitnessEdges(e);
    }
  }

  lemma {:induction false} WitnessSteps(n: NodeId)
    requires WitnessRank()(n) > 0
    ensures HasStep(Witness().edges, WitnessRank(), n)
  {
    hide Letter;
    LettersDiffer();
    var edges := Witness().edges;
    var e := if n == Letter(121) then edges[0] else if n == Letter(100) then edges[1] else edges[3];
    assert e in edges && e.target.node == n;
  }

  lemma {:induction false} WitnessGraded()
    ensures Graded(Witness(), WitnessRank())
    ensures Ids(Witness().nodes) == [Letter(122), Letter(120), Letter(121), Letter(100), Letter(115)]
  {
    hide Witness, WitnessRank, WellIdentified, Climbs, HasStep;
    WitnessIds();
    WitnessIdentified();
    WitnessClimbs();
    forall n | n in Ids(Witness().nodes) && WitnessRank()(n) > 0 ensures HasStep(Witness().edges, WitnessRank(), n) {
      WitnessSteps(n);
    }
  }

  lemma {:induction false} WitnessIndexes()
    ensures Letter(100) in Ids(Witness().nodes) && Letter(115) in Ids(Witness().nodes)
    ensures IndexOf(Ids(Witness().nodes), Letter(100)) < IndexOf(Ids(Witness().nodes), Letter(115))
  {
    WitnessGraded();
    var ids := Ids(Witness().nodes);
    assert ids[3] == Letter(100) && ids[4] == Letter(115);
    assert forall i | 0 <= i < 4 :: ids[i] != Letter(115);
  }

  lemma {:induction false} WitnessRoots()
    ensures forall m | m in Ids(Witness().nodes) :: WitnessRank()(m) == 0 <==> m in Witness().entrypoints
  {
    hide Letter, WellIdentified, Climbs, HasStep;
    LettersDiffer();
    WitnessIds();
  }

  lemma {:induction false} NoPolicies()
    ensures Witness().policies == Policies(None, None, None, None)
  {}

  lemma {:induction false} WitnessAccepted(c: Compilation)
    requires CompiledAs(Witness(), c)
    ensures c.valid
  {
    hide Graded, DownstreamOfCycle, FromEntrypoint, WellIdentified, HasIncoming, Witness, WitnessRank, CompiledAs;
    var g := Witness();
    WitnessGraded();
    WitnessRoots();
    GradedNodes(g, WitnessRank());
    RootsOpen(g, WitnessRank());
    assert g.policies.maxFanOut.None? && g.policies.maxDepth.None? by { NoPolicies(); }
    ValidMeans(g, c);
  }

  lemma {:induction false} WitnessArcs(p: NodeId, n: NodeId)
    ensures Arc(Witness().edges, p, n) <==>
              (p == Letter(120) && n == Letter(121)) || (p == Letter(121) && n == Letter(100))
              || (p == Letter(122) && n == Letter(100)) || (p == Letter(122) && n == Letter(115))
  {
    hide Letter;
    var edges := Witness().edges;
    assert edges[0] in edges && edges[1] in edges && edges[2] in edges && edges[3] in edges;
  }

  lemma {:induction false} WitnessInputs()
    ensures DistinctInputs(Witness().edges)
  {
    hide Letter;
    LettersDiffer();
    ShortDistinct();
    var edges := Witness().edges;
    forall i, j | 0 <= i < j < |edges| ensures edges[i] != edges[j] {
      assert EdgeIds(edges)[i] != EdgeIds(edges)[j];
    }
    forall e, f | e in edges && f in edges && e.target.node == f.target.node && InputKey(e) == InputKey(f)
      ensures e == f
    {
      WitnessEdges(e);
      WitnessEdges(f);
      assert e.source.node == f.source.node;
    }
  }

  // ---- Runs in which everything succeeds ------------------------------------------------------

  // Every result so far is a success.
  ghost predicate AllSucceeded(c: Core) {
    forall n | n in c.results :: c.results[n].status == Succeeded && c.results[n].output.Some?
  }

  // While all succeed, what waits is activated.
  lemma {:induction false} NextActivates(plan: Plan, c: Core)
    requires plan.Accepted() && CoreInv(plan, c, false) && c.ready != [] && AllSucceeded(c)
    requires DistinctInputs(plan.g.edges)
    ensures var d := LaunchNext(plan, c, false);
            && d.results == c.results && d.ready == c.ready[1..] && d.active.Keys == c.active.Keys + {c.ready[0]}
  {
    hide CoreInv, Plan.Accepted, BindInput, FailedUpstream;
    var n := c.ready[0];
    LaunchEffects.HeadSettled(plan, c);
    FailedUpstreamMembers(plan.g, c.results, n);
    forall p | Arc(plan.g.edges, p, n) ensures OutputOf(c.results, p).Some? {
      assert p in c.results;
    }
    BindsAlways(plan, c.results, n);
  }

  lemma {:induction false} AllActivated(plan: Plan, c: Core, k: nat)
    requires plan.Accepted() && CoreInv(plan, c, false) && AllSucceeded(c) && DistinctInputs(plan.g.edges)
    requires |c.ready| <= k
    ensures var d := LaunchTurns(plan, c, false, k);
            d.results == c.results && d.ready == [] && d.active.Keys == c.active.Keys + Elems(c.ready)
    decreases k
  {
    hide CoreInv, Plan.Accepted, LaunchNext, LaunchTurns, DistinctInputs;
    LaunchTurnsStep(plan, c, false, k);
    if c.ready == [] {
      assert Elems(c.ready) == {};
    } else {
      NextActivates(plan, c);
      LaunchNextInv(plan, c, false);
      AllActivated(plan, LaunchNext(plan, c, false), k - 1);
      assert c.ready == [c.ready[0]] + c.ready[1..];
      assert Elems(c.ready) == {c.ready[0]} + Elems(c.ready[1..]);
    }
  }

  // What waits: the unsettled, inactive nodes with every predecessor settled.
  lemma {:induction false} ReadyExact(plan: Plan, c: Core)
    requires CoreInv(plan, c, false)
    ensures forall n :: n in c.ready <==>
              n in plan.Order() && n !in c.results && n !in c.active && UpstreamSettled(plan.g.edges, c.results, n)
    ensures NoDup(c.ready) && forall n | n in c.ready :: n in plan.Order()
  {
    forall n | n in plan.Order() ensures c.remaining[n] == 0 <==> UpstreamSettled(plan.g.edges, c.results, n) {
      Compiler.InCountZero(plan.g.edges, c.results.Keys, n);
    }
  }

  // n succeeds; what it freed is launched.
  function Succeeding(plan: Plan, c: Core, n: NodeId, output: Json): Core
    requires n in c.active
  {
    Settle(plan, c, n, SucceededResult(plan, n, c.active[n], 1, output))
  }

  lemma {:induction false} SuccessFits(plan: Plan, c: Core, n: NodeId, output: Json)
    requires CoreInv(plan, c, false) && n in c.active
    ensures Fits(plan, c.results, n, SucceededResult(plan, n, c.active[n], 1, output), false)
  {
    hide Counters, Orders, BindInput;
    assert InputOk(plan, c.results, n, c.active[n]);
  }

  lemma {:induction false} SucceedingInv(plan: Plan, c: Core, n: NodeId, output: Json)
    requires plan.Accepted() && CoreInv(plan, c, false) && n in c.active && AllSucceeded(c)
    ensures CoreInv(plan, Succeeding(plan, c, n, output), false) && AllSucceeded(Succeeding(plan, c, n, output))
    ensures Succeeding(plan, c, n, output).results.Keys == c.results.Keys + {n}
    ensures Succeeding(plan, c, n, output).active.Keys == c.active.Keys - {n}
    ensures InOrder(plan, Succeeding(plan, c, n, output).ready)
  {
    hide CoreInv, Plan.Accepted, Settle, FailedUpstream, BindInput, InOrder;
    var r := SucceededResult(plan, n, c.active[n], 1, output);
    SuccessFits(plan, c, n, output);
    SettleActive(plan, c, n, r, false);
    LaunchEffects.SettleShape(plan, c, n, r);
    SettledInOrder(plan, c, n, r, false);
  }

  lemma {:induction false} Launched(plan: Plan, c: Core)
    requires plan.Accepted() && CoreInv(plan, c, false) && AllSucceeded(c) && DistinctInputs(plan.g.edges)
    ensures var d := LaunchAll(plan, c, false);
            && CoreInv(plan, d, false) && AllSucceeded(d) && d.ready == []
            && d.results == c.results && d.active.Keys == c.active.Keys + Elems(c.ready)
  {
    hide CoreInv, Plan.Accepted, LaunchTurns, DistinctInputs, Plan.Order;
    LaunchAllInv(plan, c, false);
    ReadyExact(plan, c);
    OrderIsTopological(plan);
    NoDupCardinality(plan.Order());
    NoDupBound(c.ready, Elems(plan.Order()));
    AllActivated(plan, c, |plan.Order()|);
  }

  // ---- The run of the graph ---------------------------------------------------------------------

  function Five(): set<NodeId> {
    {Letter(122), Letter(120), Letter(121), Letter(100), Letter(115)}
  }

  function Needs(n: NodeId): set<NodeId> {
    if n == Letter(121) then {Letter(120)}
    else if n == Letter(100) then {Letter(121), Letter(122)}
    else if n == Letter(115) then {Letter(122)}
    else {}
  }

  function Free(results: set<NodeId>, active: set<NodeId>): set<NodeId> {
    set n | n in Five() && n !in results && n !in active && Needs(n) <= results
  }

  lemma {:induction false} WitnessNodes(n: NodeId)
    ensures n in Ids(Witness().nodes) <==> n in Five()
  {
    hide Letter;
    WitnessIds();
    var ids := Ids(Witness().nodes);
    assert ids[0] in ids && ids[1] in ids && ids[2] in ids && ids[3] in ids && ids[4] in ids;
  }

  lemma {:induction false} WitnessNeeds(n: NodeId)
    ensures forall p :: p in Needs(n) <==> Arc(Witness().edges, p, n)
  {
    hide Letter, Witness;
    LettersDiffer();
    forall p ensures p in Needs(n) <==> Arc(Witness().edges, p, n) {
      WitnessArcs(p, n);
    }
  }

  // What waits: the nodes that have not started and whose predecessors are settled.
  lemma {:induction false} WitnessReady(plan: Plan, c: Core)
    requires plan.g == Witness() && plan.Accepted() && CoreInv(plan, c, false)
    ensures Elems(c.ready) == Free(c.results.Keys, c.active.Keys) && NoDup(c.ready)
  {
    hide CoreInv, Plan.Accepted, Plan.Order, Five, Needs, Witness;
    OrderIsTopological(plan);
    ReadyExact(plan, c);
    forall n ensures n in c.ready <==> n in Free(c.results.Keys, c.active.Keys) {
      WitnessNodes(n);
      WitnessNeeds(n);
    }
  }

  // Exactly these have succeeded and are active; nothing waits.
  ghost predicate At(plan: Plan, c: Core, results: set<NodeId>, active: set<NodeId>) {
    && CoreInv(plan, c, false) && AllSucceeded(c) && c.ready == []
    && c.results.Keys == results && c.active.Keys == active
  }

  // The state after n succeeded and what it freed was launched.
  function After(plan: Plan, c: Core, n: NodeId, output: Json): Core {
    if n in c.active then LaunchAll(plan, Succeeding(plan, c, n, output), false) else c
  }

  lemma {:induction false} AfterAt(plan: Plan, c: Core, n: NodeId, output: Json, results: set<NodeId>,
      active: set<NodeId>)
    requires plan.g == Witness() && plan.Accepted() && At(plan, c, results, active) && n in active
    ensures At(plan, After(plan, c, n, output), results + {n}, active - {n} + Free(results + {n}, active - {n}))
  {
    hide CoreInv, Plan.Accepted, LaunchAll, Succeeding, AllSucceeded, Witness, DistinctInputs, InOrder, Free;
    WitnessInputs();
    SucceedingInv(plan, c, n, output);
    WitnessReady(plan, Succeeding(plan, c, n, output));
    Launched(plan, Succeeding(plan, c, n, output));
  }

  lemma {:induction false} StartAt(plan: Plan)
    requires plan.g == Witness() && plan.Accepted()
    ensures At(plan, LaunchAll(plan, Initial(plan), false), {}, Free({}, {}))
  {
    hide CoreInv, Plan.Accepted, LaunchAll, Witness, DistinctInputs, Free;
    InitialInv(plan, false);
    WitnessInputs();
    var c := Initial(plan);
    assert c.results.Keys == {} && c.active.Keys == {};
    WitnessReady(plan, c);
    Launched(plan, c);
  }

  lemma {:induction false} Freed()
    ensures Free({}, {}) == {Letter(122), Letter(120)}
    ensures Free({Letter(120)}, {Letter(122)}) == {Letter(121)}
    ensures Free({Letter(120), Letter(121)}, {Letter(122)}) == {}
    ensures Free({Letter(120), Letter(121), Letter(122)}, {}) == {Letter(100), Letter(115)}
  {
    hide Letter;
    LettersDiffer();
  }

  lemma {:induction false} FreedNext()
    ensures {} + {Letter(120)} == {Letter(120)} && {Letter(122), Letter(120)} - {Letter(120)} == {Letter(122)}
    ensures {Letter(120)} + {Letter(121)} == {Letter(120), Letter(121)}
    ensures {Letter(122)} + {Letter(121)} - {Letter(121)} == {Letter(122)}
    ensures {Letter(120), Letter(121)} + {Letter(122)} == {Letter(120), Letter(121), Letter(122)}
    ensures {Letter(122)} + {} - {Letter(122)} == {}
  {
    hide Letter;
    LettersDiffer();
  }

  lemma {:induction false} ShallowFirst(plan: Plan)
    requires plan.g == Witness() && plan.Accepted()
    ensures Letter(100) in Ids(plan.g.nodes) && Letter(115) in Ids(plan.g.nodes)
    ensures IndexOf(Ids(plan.g.nodes), Letter(100)) < IndexOf(Ids(plan.g.nodes), Letter(115))
    ensures DeclaredDeeper(plan.g, Letter(100), Letter(115))
  {
    hide Level, Graded, Plan.Accepted, Letter, Witness;
    LettersDiffer();
    WitnessGraded();
    WitnessIndexes();
    GradedLevel(plan.g, WitnessRank(), Letter(100));
    GradedLevel(plan.g, WitnessRank(), Letter(115));
    DeeperAt(plan.g, Letter(100), Letter(115), 2, 1);
  }

  lemma {:induction false} TwoInOrder(plan: Plan, c: Core, a: NodeId, b: NodeId)
    requires plan.Accepted() && CoreInv(plan, c, false) && InOrder(plan, c.ready)
    requires NoDup(c.ready) && Elems(c.ready) == {a, b} && a in Ids(plan.g.nodes) && b in Ids(plan.g.nodes)
    requires IndexOf(Ids(plan.g.nodes), a) < IndexOf(Ids(plan.g.nodes), b) && DeclaredDeeper(plan.g, a, b)
    ensures c.ready == [b, a]
  {
    hide CoreInv, Plan.Accepted, InOrder, DeclaredDeeper, LaunchAll;
    assert a in Elems(c.ready) && b in Elems(c.ready);
    DeclarationOrderExact(plan, c, false, a, b);
    NoDupCardinality(c.ready);
    assert |c.ready| == 2;
    assert c.ready[0] in Elems(c.ready) && c.ready[1] in Elems(c.ready);
  }

  // Deep and shallow wait together once x, y and z have succeeded.
  lemma {:induction false} BothWait(plan: Plan, c: Core, output: Json)
    requires plan.g == Witness() && plan.Accepted() && At(plan, c, {Letter(120), Letter(121)}, {Letter(122)})
    ensures Letter(122) in c.active
    ensures var freed := Succeeding(plan, c, Letter(122), output);
            && CoreInv(plan, freed, false) && InOrder(plan, freed.ready)
            && freed.ready == [Letter(115), Letter(100)]
  {
    hide CoreInv, Plan.Accepted, Succeeding, AllSucceeded, Letter, Witness, InOrder, Free;
    LettersDiffer();
    Freed();
    FreedNext();
    SucceedingInv(plan, c, Letter(122), output);
    var freed := Succeeding(plan, c, Letter(122), output);
    WitnessReady(plan, freed);
    assert freed.results.Keys == {Letter(120), Letter(121), Letter(122)} && freed.active.Keys == {};
    ShallowFirst(plan);
    TwoInOrder(plan, freed, Letter(100), Letter(115));
  }

  // z and x are launched; x, y and then z succeed, which frees deep and shallow together.
  // Deep is declared first, but shallow stands first and is launched first.
  lemma {:induction false} DeclarationOrderFails(c: Compilation, input: Json, output: NodeId -> Json)
    requires CompiledAs(Witness(), c)
    ensures var plan := Plan(Witness(), c, input);
            && plan.Accepted()
            && var start := LaunchAll(plan, Initial(plan), false);
            && Letter(120) in start.active
            && var first := After(plan, start, Letter(120), output(Letter(120)));
            && Letter(121) in first.active
            && var second := After(plan, first, Letter(121), output(Letter(121)));
            && Letter(122) in second.active
            && var freed := Succeeding(plan, second, Letter(122), output(Letter(122)));
            && freed.ready == [Letter(115), Letter(100)]
            && IndexOf(Ids(plan.g.nodes), Letter(100)) < IndexOf(Ids(plan.g.nodes), Letter(115))
            && var launched := LaunchAll(plan, freed, false).scheduled;
            && Letter(115) in launched && Letter(100) in launched
            && IndexOf(launched, Letter(115)) < IndexOf(launched, Letter(100))
  {
    hide CoreInv, CompiledAs, LaunchAll, Succeeding, AllSucceeded, Letter, Witness, Initial, DeclaredDeeper, InOrder,
         Free, After;
    var plan := Plan(Witness(), c, input);
    LettersDiffer();
    WitnessAccepted(c);
    Freed();
    FreedNext();
    StartAt(plan);
    var start := LaunchAll(plan, Initial(plan), false);
    AfterAt(plan, start, Letter(120), output(Letter(120)), {}, {Letter(122), Letter(120)});
    var first := After(plan, start, Letter(120), output(Letter(120)));
    AfterAt(plan, first, Letter(121), output(Letter(121)), {Letter(120)}, {Letter(122)} + {Letter(121)});
    var second := After(plan, first, Letter(121), output(Letter(121)));
    BothWait(plan, second, output(Letter(122)));
    ShallowFirst(plan);
    DeclarationOrderExact(plan, Succeeding(plan, second, Letter(122), output(Letter(122))), false,
                          Letter(100), Letter(115));
  }
}
