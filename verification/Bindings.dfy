/**
 Input binding and graph outputs in terms of the document and the nodes' outputs alone: which
 value an endpoint takes, which object a node receives, and when there is none.
 */
module Bindings {
  import opened Wrappers
  import opened Sequences
  import opened Text
  import opened Json
  import opened JsonParser
  import opened CanonicalForm
  import opened Graphs
  import opened CompilerSpec
  import opened ReadyQueue

  // ---- Endpoints ---------------------------------------------------------------------

  // What a port takes from an output: without a port all of it, else the field of an object,
  // or an array's length or the element at the index the port spells.
  ghost predicate Takes(port: Option<JsString>, output: Json, v: Json) {
    match port
    case None => v == output
    case Some(p) =>
      match output
      case Obj(fields) => Lookup(fields, p) == Some(v)
      case Arr(items) =>
        || (p == Ascii("length") && v == Num(|items|))
        || exists i: nat :: i < |items| && p == Decimal(i) && v == items[i]
      case _ => false
  }

  lemma {:induction false} DecimalInjective(i: nat, j: nat)
    ensures Decimal(i) == Decimal(j) <==> i == j
  {
    if Decimal(i) == Decimal(j) {
      DigitsRoundTrip(i, []);
      DigitsRoundTrip(j, []);
      assert Digits(i) + [] == Digits(i) && Digits(j) + [] == Digits(j);
    }
  }

  lemma {:induction false} LengthIsNoIndex(i: nat)
    ensures Decimal(i) != Ascii("length")
  {
    assert Decimal(i)[0] <= ZERO + 9;
  }

  lemma {:induction false} ElementExact(items: seq<Json>, name: JsString, from: nat, v: Json)
    requires from <= |items|
    ensures ElementNamed(items, name, from) == Some(v) <==>
              exists i: nat :: from <= i < |items| && name == Decimal(i) && v == items[i]
    decreases |items| - from
  {
    hide Decimal;
    if from == |items| {
    } else {
      ElementExact(items, name, from + 1, v);
      if name == Decimal(from) {
        forall i: nat | from <= i < |items| && name == Decimal(i) ensures i == from { DecimalInjective(i, from); }
      }
    }
  }

  lemma {:induction false} EndpointExact(endpoint: Endpoint, output: Json, v: Json)
    ensures EndpointValue(endpoint, output) == Some(v) <==> Takes(endpoint.port, output, v)
  {
    hide Decimal, ElementNamed, Lookup;
    if endpoint.port.Some? && output.Arr? {
      var p := endpoint.port.value;
      ElementExact(output.items, p, 0, v);
      if p == Ascii("length") {
        forall i: nat | i < |output.items| ensures p != Decimal(i) { LengthIsNoIndex(i); }
      }
    }
  }

  // ---- Edges -------------------------------------------------------------------------------

  // The key an edge delivers under: its target port, or the id of the node it comes from.
  ghost predicate Named(e: Edge, key: JsString) {
    match e.target.port
    case Some(port) => key == port
    case None => key == e.source.node.text
  }

  // The edge delivers v: its source has an output, of which its port takes v.
  ghost predicate Supplies(results: map<NodeId, NodeResult>, e: Edge, v: Json) {
    && e.source.node in results && results[e.source.node].output.Some?
    && Takes(e.source.port, results[e.source.node].output.value, v)
  }

  // Two edges into n deliver under one key.
  ghost predicate KeyClash(edges: seq<Edge>, n: NodeId) {
    exists i, j, key :: 0 <= i < j < |edges| && edges[i].target.node == n && edges[j].target.node == n
                     && Named(edges[i], key) && Named(edges[j], key)
  }

  // v is the object of what the edges into n deliver: fields in key order, one for each edge.
  ghost predicate IsInput(edges: seq<Edge>, results: map<NodeId, NodeResult>, n: NodeId, v: Json) {
    && v.Obj?
    && (forall i, j | 0 <= i < j < |v.fields| :: Compare(v.fields[i].key, v.fields[j].key) < 0)
    && (forall e | e in edges && e.target.node == n ::
          exists f, x :: f in v.fields && Named(e, f.key) && Supplies(results, e, x) && f.value == Canon(x))
    && (forall f | f in v.fields :: exists e :: e in edges && e.target.node == n && Named(e, f.key))
    && !KeyClash(edges, n)
  }

  // ---- Binding edge by edge ---------------------------------------------------------------------

  lemma {:induction false} DeliveryExact(results: map<NodeId, NodeResult>, e: Edge, v: Json)
    ensures Supplies(results, e, v) <==>
              OutputOf(results, e.source.node).Some?
              && EndpointValue(e.source, OutputOf(results, e.source.node).value) == Some(v)
  {
    hide Takes, EndpointValue;
    if e.source.node in results && results[e.source.node].output.Some? {
      EndpointExact(e.source, results[e.source.node].output.value, v);
    }
  }

  // Every edge delivers something, and no two under one key.
  ghost predicate Bindable(results: map<NodeId, NodeResult>, edges: seq<Edge>) {
    && (forall e | e in edges :: exists v :: Supplies(results, e, v))
    && forall i, j | 0 <= i < j < |edges| :: InputKey(edges[i]) != InputKey(edges[j])
  }

  ghost predicate Bound(results: map<NodeId, NodeResult>, edges: seq<Edge>, fields: seq<Field>) {
    && |fields| == |edges|
    && forall i | 0 <= i < |edges| ::
         fields[i].key == InputKey(edges[i]) && Supplies(results, edges[i], fields[i].value)
  }

  lemma {:induction false} BindableStep(results: map<NodeId, NodeResult>, front: seq<Edge>, last: Edge)
    ensures Bindable(results, front + [last]) <==>
              Bindable(results, front) && (exists v :: Supplies(results, last, v))
              && forall e | e in front :: InputKey(e) != InputKey(last)
  {
    hide Supplies, InputKey;
    var edges := front + [last];
    assert forall e :: e in edges <==> e in front || e == last;
    if Bindable(results, edges) {
      forall i, j | 0 <= i < j < |front| ensures InputKey(front[i]) != InputKey(front[j]) {
        assert edges[i] == front[i] && edges[j] == front[j];
      }
      forall e | e in front ensures InputKey(e) != InputKey(last) {
        var i :| 0 <= i < |front| && front[i] == e;
        assert edges[i] == e && edges[|front|] == last;
      }
    }
    if Bindable(results, front) && forall e | e in front :: InputKey(e) != InputKey(last) {
      forall i, j | 0 <= i < j < |edges| ensures InputKey(edges[i]) != InputKey(edges[j]) {
        assert edges[i] in front;
      }
    }
  }

  lemma {:induction false} BoundKey(
    results: map<NodeId, NodeResult>, edges: seq<Edge>, fields: seq<Field>, key: JsString)
    requires Bound(results, edges, fields)
    ensures Lookup(fields, key).Some? <==> exists e :: e in edges && InputKey(e) == key
  {
    hide Supplies, InputKey;
    LookupFinds(fields, key);
    if Lookup(fields, key).Some? {
      var f := Field(key, Lookup(fields, key).value);
      var i :| 0 <= i < |fields| && fields[i] == f;
      assert edges[i] in edges;
    }
    if exists e :: e in edges && InputKey(e) == key {
      var e :| e in edges && InputKey(e) == key;
      var i :| 0 <= i < |edges| && edges[i] == e;
      assert fields[i] in fields;
    }
  }

  lemma {:induction false} DeliveredValue(results: map<NodeId, NodeResult>, e: Edge)
    ensures (exists v :: Supplies(results, e, v)) <==>
              OutputOf(results, e.source.node).Some?
              && EndpointValue(e.source, OutputOf(results, e.source.node).value).Some?
  {
    hide Supplies, EndpointValue, OutputOf;
    if exists v :: Supplies(results, e, v) {
      var v :| Supplies(results, e, v);
      DeliveryExact(results, e, v);
    }
    if OutputOf(results, e.source.node).Some? && EndpointValue(e.source, OutputOf(results, e.source.node).value).Some? {
      DeliveryExact(results, e, EndpointValue(e.source, OutputOf(results, e.source.node).value).value);
    }
  }

  lemma {:induction false} NothingBound(results: map<NodeId, NodeResult>)
    ensures Bindable(results, []) && Bound(results, [], [])
  {}

  lemma {:induction false} BoundStep(results: map<NodeId, NodeResult>, front: seq<Edge>, fields: seq<Field>, last: Edge,
      v: Json)
    requires Bound(results, front, fields) && Supplies(results, last, v)
    ensures Bound(results, front + [last], fields + [Field(InputKey(last), v)])
  {
    hide Supplies, InputKey;
  }

  lemma {:induction false} BindEdgesExact(edges: seq<Edge>, results: map<NodeId, NodeResult>)
    ensures BindEdges(edges, results).Some? <==> Bindable(results, edges)
    ensures BindEdges(edges, results).Some? ==> Bound(results, edges, BindEdges(edges, results).value)
  {
    hide Supplies, InputKey, EndpointValue, OutputOf, Lookup, Bindable, Bound;
    if edges == [] {
      NothingBound(results);
    } else {
      var front, last := edges[..|edges| - 1], edges[|edges| - 1];
      assert edges == front + [last];
      BindEdgesExact(front, results);
      BindableStep(results, front, last);
      DeliveredValue(results, last);
      var bound := BindEdges(front, results);
      if bound.Some? {
        BoundKey(results, front, bound.value, InputKey(last));
        if BindEdges(edges, results).Some? {
          var v := EndpointValue(last.source, OutputOf(results, last.source.node).value).value;
          DeliveryExact(results, last, v);
          BoundStep(results, front, bound.value, last, v);
        }
      }
    }
  }

  // ---- The input of a node --------------------------------------------------------------------------

  lemma {:induction false} NamedExact(e: Edge, key: JsString)
    ensures Named(e, key) <==> key == InputKey(e)
  {}

  // Two positions hold edges into n of one key.
  ghost predicate Repeats(edges: seq<Edge>, n: NodeId) {
    exists i, j :: 0 <= i < j < |edges| && edges[i].target.node == n && edges[j].target.node == n
                && InputKey(edges[i]) == InputKey(edges[j])
  }

  lemma {:induction false} ClashRepeats(edges: seq<Edge>, n: NodeId)
    ensures KeyClash(edges, n) <==> Repeats(edges, n)
  {
    hide Named, InputKey;
    if KeyClash(edges, n) {
      var i, j, key :| 0 <= i < j < |edges| && edges[i].target.node == n && edges[j].target.node == n
                    && Named(edges[i], key) && Named(edges[j], key);
      NamedExact(edges[i], key);
      NamedExact(edges[j], key);
    }
    if Repeats(edges, n) {
      var i, j :| 0 <= i < j < |edges| && edges[i].target.node == n && edges[j].target.node == n
               && InputKey(edges[i]) == InputKey(edges[j]);
      NamedExact(edges[i], InputKey(edges[i]));
      NamedExact(edges[j], InputKey(edges[i]));
    }
  }

  // It does not matter how the incoming edges are listed.
  lemma {:induction false} RepeatsListed(edges: seq<Edge>, listed: seq<Edge>, n: NodeId)
    requires NoDup(edges) && forall e | e in edges && e.target.node == n :: e in listed
    requires Repeats(edges, n)
    ensures Repeats(listed, n)
  {
    hide InputKey;
    var i, j :| 0 <= i < j < |edges| && edges[i].target.node == n && edges[j].target.node == n
             && InputKey(edges[i]) == InputKey(edges[j]);
    assert edges[i] in edges && edges[j] in edges;
    var p :| 0 <= p < |listed| && listed[p] == edges[i];
    var q :| 0 <= q < |listed| && listed[q] == edges[j];
    assert p < q || q < p;
  }

  lemma {:induction false} IntoOnce(edges: seq<Edge>, n: NodeId)
    requires NoDup(edges)
    ensures NoDup(Into(edges, n))
  {
    if edges == [] {
    } else {
      var front, last := edges[..|edges| - 1], edges[|edges| - 1];
      assert edges == front + [last];
      NoDupAppend(front, last);
      IntoOnce(front, n);
      NoDupAppend(Into(front, n), last);
      assert Into(front, n) + [] == Into(front, n);
    }
  }

  lemma {:induction false} IncomingOnce(g: Graph, n: NodeId)
    requires NoDup(g.edges)
    ensures NoDup(Incoming(g, n))
  {
    IntoOnce(g.edges, n);
    PermutationNoDup(Into(g.edges, n), Incoming(g, n));
  }

  lemma {:induction false} ClashExact(g: Graph, n: NodeId)
    requires NoDup(g.edges)
    ensures KeyClash(g.edges, n) <==>
              exists i, j :: 0 <= i < j < |Incoming(g, n)| && InputKey(Incoming(g, n)[i]) == InputKey(Incoming(g, n)[j])
  {
    hide Incoming, KeyClash, InputKey, NoDup;
    var edges, incoming := g.edges, Incoming(g, n);
    IncomingMembers(g, n);
    IncomingOnce(g, n);
    ClashRepeats(edges, n);
    if Repeats(edges, n) {
      RepeatsListed(edges, incoming, n);
    }
    if exists i, j :: 0 <= i < j < |incoming| && InputKey(incoming[i]) == InputKey(incoming[j]) {
      var i, j :| 0 <= i < j < |incoming| && InputKey(incoming[i]) == InputKey(incoming[j]);
      assert incoming[i] in incoming && incoming[j] in incoming;
      assert Repeats(incoming, n);
      RepeatsListed(incoming, edges, n);
    }
  }

  lemma {:induction false} BindableExact(g: Graph, results: map<NodeId, NodeResult>, n: NodeId)
    requires NoDup(g.edges)
    ensures Bindable(results, Incoming(g, n)) <==>
              && !KeyClash(g.edges, n)
              && forall e | e in g.edges && e.target.node == n :: exists v :: Supplies(results, e, v)
  {
    hide Supplies, Incoming, KeyClash;
    IncomingMembers(g, n);
    ClashExact(g, n);
  }

  lemma {:induction false} BoundDistinct(results: map<NodeId, NodeResult>, edges: seq<Edge>, fields: seq<Field>)
    requires Bindable(results, edges) && Bound(results, edges, fields)
    ensures DistinctKeys(fields)
  {
    hide Supplies, InputKey;
  }

  lemma {:induction false} StrictKeys(fields: seq<Field>)
    requires DistinctKeys(fields)
    ensures var s := Sort(fields, FieldLeq); forall i, j | 0 <= i < j < |s| :: Compare(s[i].key, s[j].key) < 0
  {
    hide Compare, Sort;
    var s := Sort(fields, FieldLeq);
    FieldOrder(fields);
    SortSorted(fields, FieldLeq);
    SortKeepsDistinct(fields);
    forall i, j | 0 <= i < j < |s| ensures Compare(s[i].key, s[j].key) < 0 {
      CompareIsTotalOrder(s[i].key, s[j].key, s[i].key);
      assert FieldLeq(s[i], s[j]);
    }
  }

  lemma {:induction false} CanonKeys(fields: seq<Field>)
    requires DistinctKeys(fields)
    ensures var t := Canon(Obj(fields)).fields; forall i, j | 0 <= i < j < |t| :: Compare(t[i].key, t[j].key) < 0
  {
    hide Compare, Sort, Canon;
    StrictKeys(fields);
    CanonFields(fields);
  }

  // Each field, canonicalized, is one of the key-ordered object, and nothing else is.
  lemma {:induction false} CanonHolds(fields: seq<Field>, f: Field)
    requires f in fields
    ensures Field(f.key, Canon(f.value)) in Canon(Obj(fields)).fields
  {
    hide Canon, Sort;
    CanonFields(fields);
    var sorted, t := Sort(fields, FieldLeq), Canon(Obj(fields)).fields;
    SortMembers(fields, FieldLeq);
    assert f in sorted;
    var k :| 0 <= k < |sorted| && sorted[k] == f;
    assert t[k] == Field(f.key, Canon(f.value));
  }

  lemma {:induction false} CanonOrigin(fields: seq<Field>, c: Field) returns (f: Field)
    requires c in Canon(Obj(fields)).fields
    ensures f in fields && c == Field(f.key, Canon(f.value))
  {
    hide Canon, Sort;
    CanonFields(fields);
    var sorted, t := Sort(fields, FieldLeq), Canon(Obj(fields)).fields;
    SortMembers(fields, FieldLeq);
    var k :| 0 <= k < |t| && t[k] == c;
    f := sorted[k];
    assert f in sorted;
  }

  lemma {:induction false} BoundField(results: map<NodeId, NodeResult>, edges: seq<Edge>, fields: seq<Field>, e: Edge)
      returns (f: Field)
    requires Bound(results, edges, fields) && e in edges
    ensures f in fields && Named(e, f.key) && Supplies(results, e, f.value)
  {
    hide Supplies;
    var i :| 0 <= i < |edges| && edges[i] == e;
    f := fields[i];
  }

  lemma {:induction false} BoundEdge(results: map<NodeId, NodeResult>, edges: seq<Edge>, fields: seq<Field>, f: Field)
      returns (e: Edge)
    requires Bound(results, edges, fields) && f in fields
    ensures e in edges && Named(e, f.key)
  {
    hide Supplies;
    var i :| 0 <= i < |fields| && fields[i] == f;
    e := edges[i];
  }

  // The canonical object of bound fields is the input.
  lemma {:induction false} BoundIsInput(g: Graph, results: map<NodeId, NodeResult>, n: NodeId, fields: seq<Field>)
    requires NoDup(g.edges) && Bindable(results, Incoming(g, n)) && Bound(results, Incoming(g, n), fields)
    ensures IsInput(g.edges, results, n, Canon(Obj(fields)))
  {
    hide Supplies, Incoming, Canon, KeyClash, Bindable, Bound, DistinctKeys, Named, Compare;
    var incoming, v := Incoming(g, n), Canon(Obj(fields));
    BindableExact(g, results, n);
    IncomingMembers(g, n);
    BoundDistinct(results, incoming, fields);
    CanonFields(fields);
    CanonKeys(fields);
    forall e | e in g.edges && e.target.node == n
      ensures exists f, x :: f in v.fields && Named(e, f.key) && Supplies(results, e, x) && f.value == Canon(x)
    {
      var f := BoundField(results, incoming, fields, e);
      CanonHolds(fields, f);
      var c := Field(f.key, Canon(f.value));
      assert c in v.fields && Named(e, c.key) && Supplies(results, e, f.value) && c.value == Canon(f.value);
    }
    forall c | c in v.fields ensures exists e :: e in g.edges && e.target.node == n && Named(e, c.key) {
      var f := CanonOrigin(fields, c);
      var e := BoundEdge(results, incoming, fields, f);
    }
  }

  lemma {:induction false} StrictlyOnce(fields: seq<Field>)
    requires forall i, j | 0 <= i < j < |fields| :: Compare(fields[i].key, fields[j].key) < 0
    ensures DistinctKeys(fields) && NoDup(fields) && Sorted(FieldLeq, fields)
    ensures forall f, g | f in fields && g in fields && FieldLeq(f, g) && FieldLeq(g, f) :: f == g
  {
    hide Compare;
    forall i, j | 0 <= i < j < |fields| ensures fields[i].key != fields[j].key {
      CompareIsTotalOrder(fields[i].key, fields[j].key, fields[i].key);
    }
    FieldOrder(fields);
  }

  lemma {:induction false} InputOnce(edges: seq<Edge>, results: map<NodeId, NodeResult>, n: NodeId, v: Json)
    requires IsInput(edges, results, n, v)
    ensures v.Obj? && DistinctKeys(v.fields) && NoDup(v.fields) && Sorted(FieldLeq, v.fields)
    ensures forall f, g | f in v.fields && g in v.fields && FieldLeq(f, g) && FieldLeq(g, f) :: f == g
  {
    hide Supplies, Compare, KeyClash, Named;
    StrictlyOnce(v.fields);
  }

  // What the input holds for an edge.
  lemma {:induction false} InputField(edges: seq<Edge>, results: map<NodeId, NodeResult>, n: NodeId, v: Json, e: Edge)
      returns (f: Field, x: Json)
    requires IsInput(edges, results, n, v) && e in edges && e.target.node == n
    ensures f in v.fields && Named(e, f.key) && Supplies(results, e, x) && f.value == Canon(x)
  {
    hide Supplies, Compare, KeyClash, Named;
    f, x :| f in v.fields && Named(e, f.key) && Supplies(results, e, x) && f.value == Canon(x);
  }

  lemma {:induction false} FieldEdge(edges: seq<Edge>, results: map<NodeId, NodeResult>, n: NodeId, v: Json, f: Field)
      returns (e: Edge)
    requires IsInput(edges, results, n, v) && f in v.fields
    ensures e in edges && e.target.node == n && Named(e, f.key)
  {
    hide Supplies, Compare, KeyClash, Named;
    e :| e in edges && e.target.node == n && Named(e, f.key);
  }

  lemma {:induction false} OneDelivery(results: map<NodeId, NodeResult>, e: Edge, v: Json, w: Json)
    requires Supplies(results, e, v) && Supplies(results, e, w)
    ensures v == w
  {
    DeliveryExact(results, e, v);
    DeliveryExact(results, e, w);
  }

  lemma {:induction false} SameFields(edges: seq<Edge>, results: map<NodeId, NodeResult>, n: NodeId, v: Json, w: Json)
    requires IsInput(edges, results, n, v) && IsInput(edges, results, n, w)
    ensures v.Obj? && w.Obj? && forall f | f in v.fields :: f in w.fields
  {
    hide IsInput, Supplies, DistinctKeys;
    InputOnce(edges, results, n, v);
    InputOnce(edges, results, n, w);
    DistinctKeysMeans(v.fields);
    forall f | f in v.fields ensures f in w.fields {
      var e := FieldEdge(edges, results, n, v, f);
      var f1, x1 := InputField(edges, results, n, v, e);
      var f2, x2 := InputField(edges, results, n, w, e);
      OneDelivery(results, e, x1, x2);
      assert f1 == f && f2 == f1;
    }
  }

  // There is at most one input.
  lemma {:induction false} InputUnique(edges: seq<Edge>, results: map<NodeId, NodeResult>, n: NodeId, v: Json, w: Json)
    requires IsInput(edges, results, n, v) && IsInput(edges, results, n, w)
    ensures v == w
  {
    hide IsInput, DistinctKeys;
    SameFields(edges, results, n, v, w);
    SameFields(edges, results, n, w, v);
    InputOnce(edges, results, n, v);
    InputOnce(edges, results, n, w);
    NoDupMultiset(v.fields);
    NoDupMultiset(w.fields);
    assert Elems(v.fields) == Elems(w.fields);
    SortedUnique(v.fields, w.fields, FieldLeq);
  }

  lemma {:induction false} InputDelivered(edges: seq<Edge>, results: map<NodeId, NodeResult>, n: NodeId, v: Json)
    requires IsInput(edges, results, n, v)
    ensures !KeyClash(edges, n) && forall e | e in edges && e.target.node == n :: exists x :: Supplies(results, e, x)
  {
    hide Supplies, Compare, KeyClash, Named;
  }

  // The input of a node: the graph's own input where no edge comes in; else exactly the object of
  // what the incoming edges deliver, and none iff two share a key or one delivers nothing.
  lemma {:induction false} BindInputExact(plan: Plan, results: map<NodeId, NodeResult>, n: NodeId)
    requires NoDup(plan.g.edges)
    ensures (forall e | e in plan.g.edges :: e.target.node != n) ==> BindInput(plan, results, n) == Some(plan.input)
    ensures (exists e :: e in plan.g.edges && e.target.node == n) ==>
              && (forall v :: BindInput(plan, results, n) == Some(v) <==> IsInput(plan.g.edges, results, n, v))
              && (BindInput(plan, results, n) == None <==>
                    || KeyClash(plan.g.edges, n)
                    || exists e :: e in plan.g.edges && e.target.node == n && forall v :: !Supplies(results, e, v))
  {
    hide Supplies, Incoming, KeyClash, IsInput, Bindable, Bound, BindEdges, Canon;
    var g, incoming := plan.g, Incoming(plan.g, n);
    IncomingMembers(g, n);
    BindEdgesExact(incoming, results);
    BindableExact(g, results, n);
    if incoming != [] {
      assert incoming[0] in incoming;
    }
    if exists e :: e in g.edges && e.target.node == n {
      var bound := BindEdges(incoming, results);
      if bound.Some? {
        BoundIsInput(g, results, n, bound.value);
      }
      forall v ensures BindInput(plan, results, n) == Some(v) <==> IsInput(g.edges, results, n, v) {
        if IsInput(g.edges, results, n, v) {
          InputDelivered(g.edges, results, n, v);
          InputUnique(g.edges, results, n, v, Canon(Obj(bound.value)));
        }
      }
    }
  }

  // Edges with distinct ids are distinct.
  lemma {:induction false} AcceptedEdges(plan: Plan)
    requires plan.Accepted()
    ensures NoDup(plan.g.edges)
  {
    OrderIsTopological(plan);
    forall i, j | 0 <= i < j < |plan.g.edges| ensures plan.g.edges[i] != plan.g.edges[j] {
      assert EdgeIds(plan.g.edges)[i] != EdgeIds(plan.g.edges)[j];
    }
  }
}
