/**
 The pattern constructors: fan-out/fan-in (diamond, routed branches and verified fan-out
 share it; they differ in names and in edge annotations the scheduler does not read) and
 the unrolled loop. What they build is accepted by the compiler, exactly up to the
 caller's own policies.
 */
module Patterns {
  import opened Wrappers
  import opened Sequences
  import opened Text
  import opened Json
  import opened JsonParser
  import opened CanonicalForm
  import opened Graphs
  import opened CompilerSpec
  import Compiler

  const MAX_PATTERN_ITEMS: nat := 100

  datatype PatternKind = Diamond | RoutedBranches | VerifiedFanout | LoopUntilDry

  // "ge-<pattern>-"
  function Prefix(kind: PatternKind): JsString {
    match kind
    case Diamond => Ascii("ge-diamond-")
    case RoutedBranches => Ascii("ge-routed-branches-")
    case VerifiedFanout => Ascii("ge-verified-fanout-")
    case LoopUntilDry => Ascii("ge-loop-until-dry-")
  }

  function Zeros(n: nat): (s: JsString)
    ensures |s| == n
  {
    if n == 0 then [] else [ZERO] + Zeros(n - 1)
  }

  // `String(index).padStart(4, "0")`.
  function Padded(index: nat): JsString {
    var digits := Digits(index);
    (if |digits| < 4 then Zeros(4 - |digits|) else []) + digits
  }

  function IdOf(kind: PatternKind, index: nat): EdgeId {
    EdgeId(Prefix(kind) + Padded(index))
  }

  lemma {:induction false} ZerosParse(n: nat, rest: JsString)
    ensures ParseDigits(Zeros(n) + rest, 0) == ParseDigits(rest, 0)
  {
    if n == 0 {
      assert Zeros(n) + rest == rest;
    } else {
      ZerosParse(n - 1, rest);
      assert (Zeros(n) + rest)[1..] == Zeros(n - 1) + rest;
    }
  }

  lemma {:induction false} PaddedParses(index: nat)
    ensures ParseDigits(Padded(index), 0) == (index, [])
  {
    var digits := Digits(index);
    var zeros := if |digits| < 4 then Zeros(4 - |digits|) else [];
    DigitsRoundTrip(index, []);
    assert digits + [] == digits;
    ZerosParse(if |digits| < 4 then 4 - |digits| else 0, digits);
  }

  // Different positions get different edge ids, whatever their number of digits.
  lemma {:induction false} IdsDiffer(kind: PatternKind, i: nat, j: nat)
    ensures IdOf(kind, i) == IdOf(kind, j) <==> i == j
  {
    hide Padded, Prefix;
    PaddedParses(i);
    PaddedParses(j);
    if IdOf(kind, i) == IdOf(kind, j) {
      assert (Prefix(kind) + Padded(i))[|Prefix(kind)|..] == Padded(i);
      assert (Prefix(kind) + Padded(j))[|Prefix(kind)|..] == Padded(j);
    }
  }

  lemma {:induction false} ThreeDigits(n: nat)
    ensures |Digits(n)| <= 3 <==> n < 1000
  {
    assert |Digits(n / 10)| <= 2 <==> n / 10 < 100;
  }

  lemma {:induction false} FourDigits(n: nat)
    ensures |Digits(n)| <= 4 <==> n < 10000
  {
    assert |Digits(n)| <= 3 <==> n < 1000 by { ThreeDigits(n); }
    ThreeDigits(n / 10);
  }

  // The text of an edge id: the pattern's name and the index in at least four digits.
  lemma {:induction false} EdgeIdText(kind: PatternKind, index: nat)
    ensures var text := IdOf(kind, index).text;
            var prefix := match kind
                          case Diamond => Ascii("ge-diamond-")
                          case RoutedBranches => Ascii("ge-routed-branches-")
                          case VerifiedFanout => Ascii("ge-verified-fanout-")
                          case LoopUntilDry => Ascii("ge-loop-until-dry-");
            && prefix <= text && |text| - |prefix| >= 4 && (index < 10000 ==> |text| - |prefix| == 4)
            && ParseDigits(text[|prefix|..], 0) == (index, [])
  {
    PaddedParses(index);
    FourDigits(index);
    assert IdOf(kind, index).text[|Prefix(kind)|..] == Padded(index);
  }

  // Edges numbered from 1 in order have distinct ids.
  ghost predicate Numbered(kind: PatternKind, edges: seq<Edge>) {
    forall j | 0 <= j < |edges| :: edges[j].id == IdOf(kind, j + 1)
  }

  lemma {:induction false} NumberedDistinct(kind: PatternKind, edges: seq<Edge>)
    requires Numbered(kind, edges)
    ensures NoDup(EdgeIds(edges))
  {
    hide IdOf;
    forall i, j | 0 <= i < j < |edges| ensures EdgeIds(edges)[i] != EdgeIds(edges)[j] {
      IdsDiffer(kind, i + 1, j + 1);
    }
  }

  // ---- Input ------------------------------------------------------------------------------

  datatype Keyed = Keyed(key: Key, node: Node)

  datatype PatternError =
    | EmptyCollection | TooManyItems | InvalidIdentifier | DuplicateKey(index: nat) | DuplicateNodeId
    | InvalidMaxRounds | RoundCountMismatch | CoreRejected

  predicate IsLetter(u: CodeUnit) { 0x41 <= u <= 0x5A || 0x61 <= u <= 0x7A }

  predicate IsNameUnit(u: CodeUnit) {
    IsLetter(u) || IsDigit(u) || u == 0x5F || u == 0x2E || u == 0x2D
  }

  // ^[A-Za-z][A-Za-z0-9_.-]{0,n-1}$
  predicate IsIdentifier(s: JsString, longest: nat) {
    1 <= |s| <= longest && IsLetter(s[0]) && forall i | 0 <= i < |s| :: IsNameUnit(s[i])
  }

  predicate ValidNodeId(n: NodeId) {
    IsIdentifier(n.text, 128)
  }

  // "__proto__" is excluded by its first character already.
  predicate SafeKey(key: Key) {
    IsIdentifier(key.text, 64) && key.text != Ascii("constructor") && key.text != Ascii("prototype")
  }

  function KeysOf(items: seq<Keyed>): (r: seq<Key>)
    ensures |r| == |items| && forall i | 0 <= i < |items| :: r[i] == items[i].key
  {
    seq(|items|, i requires 0 <= i < |items| => items[i].key)
  }

  function NodesOf(items: seq<Keyed>): (r: seq<Node>)
    ensures |r| == |items| && forall i | 0 <= i < |items| :: r[i] == items[i].node
  {
    seq(|items|, i requires 0 <= i < |items| => items[i].node)
  }

  predicate KeyedLeq(a: Keyed, b: Keyed) {
    KeyLeq(a.key, b.key)
  }

  ghost predicate ItemsOk(items: seq<Keyed>) {
    && 1 <= |items| <= MAX_PATTERN_ITEMS && NoDup(KeysOf(items))
    && forall i | 0 <= i < |items| :: SafeKey(items[i].key) && ValidNodeId(items[i].node.id)
  }

  // What is wrong with the i-th item after those before it: its key first, then its node.
  ghost function ItemFault(items: seq<Keyed>, i: nat): Option<PatternError>
    requires i < |items|
  {
    if !SafeKey(items[i].key) then Some(InvalidIdentifier)
    else if items[i].key in KeysOf(items)[..i] then Some(DuplicateKey(i))
    else if !ValidNodeId(items[i].node.id) then Some(InvalidIdentifier)
    else None
  }

  // The fault that is reported: of the collection, or of the first faulty item.
  ghost predicate ItemsFault(items: seq<Keyed>, e: PatternError) {
    if items == [] then e == EmptyCollection
    else if |items| > MAX_PATTERN_ITEMS then e == TooManyItems
    else exists i: nat :: i < |items| && ItemFault(items, i) == Some(e)
                       && forall j: nat | j < i :: ItemFault(items, j).None?
  }

  lemma {:induction false} NoDupPrefix<T>(s: seq<T>, k: nat)
    requires k <= |s|
    ensures NoDup(s) ==> NoDup(s[..k])
  {}

  // `parseKeyedNodes`: checked in order, then sorted by key.
  method ParseKeyedNodes(items: seq<Keyed>) returns (r: Result<seq<Keyed>, PatternError>)
    ensures r.Ok? <==> ItemsOk(items)
    ensures r.Ok? ==> r.value == Sort(items, KeyedLeq)
    ensures r.Err? ==> ItemsFault(items, r.error) && r.error != CoreRejected
  {
    hide IsIdentifier, SafeKey;
    if items == [] {
      return Err(EmptyCollection);
    }
    if |items| > MAX_PATTERN_ITEMS {
      return Err(TooManyItems);
    }
    var keys: set<Key> := {};
    for index := 0 to |items|
      invariant keys == Elems(KeysOf(items)[..index]) && NoDup(KeysOf(items)[..index])
      invariant forall i | 0 <= i < index :: SafeKey(items[i].key) && ValidNodeId(items[i].node.id)
      invariant forall i: nat | i < index :: ItemFault(items, i).None?
    {
      var key := items[index].key;
      assert KeysOf(items)[index] == key;
      ElemsTakeNext(KeysOf(items), index);
      TakeNext(KeysOf(items), index);
      NoDupAppend(KeysOf(items)[..index], key);
      if !SafeKey(key) {
        assert ItemFault(items, index) == Some(InvalidIdentifier);
        return Err(InvalidIdentifier);
      }
      if key in keys {
        NoDupPrefix(KeysOf(items), index + 1);
        assert ItemFault(items, index) == Some(DuplicateKey(index));
        return Err(DuplicateKey(index));
      }
      keys := keys + {key};
      if !ValidNodeId(items[index].node.id) {
        assert ItemFault(items, index) == Some(InvalidIdentifier);
        return Err(InvalidIdentifier);
      }
    }
    assert KeysOf(items)[..|items|] == KeysOf(items);
    return Ok(Sort(items, KeyedLeq));
  }

  // `assertUniqueNodeIds`.
  method UniqueNodeIds(nodes: seq<Node>) returns (unique: bool)
    ensures unique <==> NoDup(Ids(nodes))
  {
    var seen: set<NodeId> := {};
    for index := 0 to |nodes|
      invariant seen == Elems(Ids(nodes)[..index]) && NoDup(Ids(nodes)[..index])
    {
      var n := nodes[index].id;
      ElemsTakeNext(Ids(nodes), index);
      TakeNext(Ids(nodes), index);
      NoDupAppend(Ids(nodes)[..index], n);
      if n in seen {
        NoDupPrefix(Ids(nodes), index + 1);
        return false;
      }
      seen := seen + {n};
    }
    assert Ids(nodes)[..|nodes|] == Ids(nodes);
    return true;
  }

  // `buildGraph`: one entrypoint, one named output, and the core compiler's verdict.
  function Assemble(nodes: seq<Node>, edges: seq<Edge>, entry: NodeId, exit_: NodeId, outputKey: Key,
      policies: Policies): Graph {
    Graph(nodes, edges, [entry], [Output(outputKey.text, Endpoint(exit_, None))], policies)
  }

  // An edge from all of a's output to b, at a port if there is one.
  ghost predicate Joins(e: Edge, a: NodeId, b: NodeId, port: Option<JsString>) {
    e.source == Endpoint(a, None) && e.target == Endpoint(b, port)
  }

  // Entered at one node, with one named output, of the node at which the graph ends: the only one
  // that no edge leaves, and the whole last layer.
  ghost predicate EntersAndEnds(g: Graph, entry: NodeId, exit_: NodeId, outputName: JsString) {
    && g.entrypoints == [entry] && g.outputs == [Output(outputName, Endpoint(exit_, None))]
    && entry in Ids(g.nodes) && exit_ in Ids(g.nodes)
    && (forall n | n in Ids(g.nodes) :: (forall e | e in g.edges :: e.source.node != n) <==> n == exit_)
    && forall c | CompiledAs(g, c) :: c.layers != [] && c.layers[|c.layers| - 1] == [exit_]
  }

  method BuildGraph(g: Graph, outputKey: Key) returns (r: Result<Graph, PatternError>)
    ensures r == Ok(g) || r == Err(InvalidIdentifier) || r == Err(CoreRejected)
    ensures r == Err(InvalidIdentifier) <==> !SafeKey(outputKey)
    ensures r.Ok? ==> exists c :: CompiledAs(g, c) && c.valid
    ensures r == Err(CoreRejected) ==> exists c :: CompiledAs(g, c) && !c.valid
  {
    if !SafeKey(outputKey) {
      return Err(InvalidIdentifier);
    }
    var compilation := Compiler.CompileGraph(g);
    return if compilation.valid then Ok(g) else Err(CoreRejected);
  }
}
