/**
 Plain JSON values and their text: the canonical printer (object keys sorted by code
 point, no whitespace) and a parser for the JSON grammar with integer numbers.
 */
module Json {
  import opened Wrappers
  import opened Sequences
  import opened Text

  datatype Json =
    | Null
    | Bool(b: bool)
    | Num(n: int)
    | Str(s: JsString)
    | Arr(items: seq<Json>)
    | Obj(fields: seq<Field>)

  datatype Field = Field(key: JsString, value: Json)

  const MAX_SAFE: int := 0x1F_FFFF_FFFF_FFFF

  predicate DistinctKeys(fields: seq<Field>) {
    forall i, j | 0 <= i < j < |fields| :: fields[i].key != fields[j].key
  }

  // What capturing a value guarantees: safe integers, and one field per key.
  predicate Captured(v: Json)
    decreases v
  {
    match v
    case Num(n) => -MAX_SAFE <= n <= MAX_SAFE
    case Arr(items) => forall x | x in items :: Captured(x)
    case Obj(fields) => DistinctKeys(fields) && forall f | f in fields :: Captured(f.value)
    case _ => true
  }

  lemma {:induction false} SameKeySameIndex(fields: seq<Field>, i: nat, j: nat)
    requires DistinctKeys(fields) && i < |fields| && j < |fields|
    ensures fields[i].key == fields[j].key ==> i == j
  {}

  function Lookup(fields: seq<Field>, key: JsString): Option<Json> {
    if fields == [] then None
    else if fields[0].key == key then Some(fields[0].value)
    else Lookup(fields[1..], key)
  }

  lemma {:induction false} LookupFinds(fields: seq<Field>, key: JsString)
    ensures Lookup(fields, key) == None <==> forall f | f in fields :: f.key != key
    ensures Lookup(fields, key).Some? ==> Field(key, Lookup(fields, key).value) in fields
    ensures DistinctKeys(fields) ==> forall f | f in fields && f.key == key :: Lookup(fields, key) == Some(f.value)
  {
    if fields == [] {
    } else {
      LookupFinds(fields[1..], key);
      assert fields == [fields[0]] + fields[1..];
      if DistinctKeys(fields) {
        forall i, j | 0 <= i < j < |fields[1..]| ensures fields[1..][i].key != fields[1..][j].key {
          assert fields[i + 1].key != fields[j + 1].key;
        }
        forall f | f in fields && f.key == key ensures Lookup(fields, key) == Some(f.value) {
          var i :| 0 <= i < |fields| && fields[i] == f;
        }
      }
    }
  }

  // ---- Key order ---------------------------------------------------------------

  predicate FieldLeq(a: Field, b: Field) {
    TextLeq(a.key, b.key)
  }

  lemma {:induction false} FieldOrder(fields: seq<Field>)
    requires DistinctKeys(fields)
    ensures OrderOn(FieldLeq, fields)
  {
    forall a, b | a in fields && b in fields ensures FieldLeq(a, b) || FieldLeq(b, a) {
      CompareIsTotalOrder(a.key, b.key, a.key);
    }
    forall a, b | a in fields && b in fields && FieldLeq(a, b) && FieldLeq(b, a) ensures a == b {
      CompareIsTotalOrder(a.key, b.key, a.key);
      var i :| 0 <= i < |fields| && fields[i] == a;
      var j :| 0 <= j < |fields| && fields[j] == b;
      SameKeySameIndex(fields, i, j);
    }
    forall a, b, c | a in fields && b in fields && c in fields && FieldLeq(a, b) && FieldLeq(b, c)
        ensures FieldLeq(a, c) {
      CompareIsTotalOrder(a.key, b.key, c.key);
    }
  }

  lemma {:induction false} DistinctKeysMeans(fields: seq<Field>)
    ensures DistinctKeys(fields) <==>
      NoDup(fields) && forall f, g | f in fields && g in fields && f.key == g.key :: f == g
  {
    if DistinctKeys(fields) {
      forall f, g | f in fields && g in fields && f.key == g.key ensures f == g {
        var i :| 0 <= i < |fields| && fields[i] == f;
        var j :| 0 <= j < |fields| && fields[j] == g;
        SameKeySameIndex(fields, i, j);
      }
    }
    if NoDup(fields) && forall f, g | f in fields && g in fields && f.key == g.key :: f == g {
      forall i, j | 0 <= i < j < |fields| ensures fields[i].key != fields[j].key {
        assert fields[i] in fields && fields[j] in fields;
      }
    }
  }

  lemma {:induction false} SortKeepsDistinct(fields: seq<Field>)
    requires DistinctKeys(fields)
    ensures DistinctKeys(Sort(fields, FieldLeq))
  {
    SortMembers(fields, FieldLeq);
    PermutationNoDup(fields, Sort(fields, FieldLeq));
    DistinctKeysMeans(fields);
    DistinctKeysMeans(Sort(fields, FieldLeq));
  }

  // The value with every object's fields in key order.
  function Canon(v: Json): Json
    decreases v
  {
    match v
    case Arr(items) => Arr(seq(|items|, i requires 0 <= i < |items| => Canon(items[i])))
    case Obj(fields) =>
      var sorted := Sort(fields, FieldLeq);
      SortMembers(fields, FieldLeq);
      assert forall i | 0 <= i < |sorted| :: sorted[i] in sorted;
      Obj(seq(|sorted|, i requires 0 <= i < |sorted| => Field(sorted[i].key, Canon(sorted[i].value))))
    case _ => v
  }

  // ---- The canonical printer -------------------------------------------------------

  const QUOTE: CodeUnit := 0x22
  const BACKSLASH: CodeUnit := 0x5C
  const COMMA: CodeUnit := 0x2C
  const COLON: CodeUnit := 0x3A
  const LBRACKET: CodeUnit := 0x5B
  const RBRACKET: CodeUnit := 0x5D
  const LBRACE: CodeUnit := 0x7B
  const RBRACE: CodeUnit := 0x7D
  const MINUS: CodeUnit := 0x2D
  const ZERO: CodeUnit := 0x30
  const LETTER_U: CodeUnit := 0x75
  const NEWLINE: CodeUnit := 0x0A

  function NullText(): JsString { [0x6E, 0x75, 0x6C, 0x6C] }
  function TrueText(): JsString { [0x74, 0x72, 0x75, 0x65] }
  function FalseText(): JsString { [0x66, 0x61, 0x6C, 0x73, 0x65] }

  function Digits(n: nat): (s: JsString)
    ensures s != [] && forall i | 0 <= i < |s| :: ZERO <= s[i] <= ZERO + 9
    ensures s[0] == ZERO <==> n == 0
    ensures n < 10 <==> |s| == 1
  {
    if n < 10 then [ZERO + n] else Digits(n / 10) + [ZERO + n % 10]
  }

  function Decimal(n: int): JsString {
    if n < 0 then [MINUS] + Digits(-n) else Digits(n)
  }

  function HexDigit(n: nat): (c: CodeUnit)
    requires n < 16
  {
    if n < 10 then 0x30 + n else 0x61 + n - 10
  }

  function UnicodeEscape(u: CodeUnit): (s: JsString)
    ensures |s| == 6
  {
    var three := u / 0x10;
    var two := three / 0x10;
    [BACKSLASH, LETTER_U, HexDigit(two / 0x10), HexDigit(two % 0x10), HexDigit(three % 0x10), HexDigit(u % 0x10)]
  }

  function EscapeUnit(u: CodeUnit): JsString {
    if u == QUOTE || u == BACKSLASH then [BACKSLASH, u]
    else if u == 0x08 then [BACKSLASH, 0x62]
    else if u == 0x09 then [BACKSLASH, 0x74]
    else if u == 0x0A then [BACKSLASH, 0x6E]
    else if u == 0x0C then [BACKSLASH, 0x66]
    else if u == 0x0D then [BACKSLASH, 0x72]
    else if u < 0x20 || IsSurrogate(u) then UnicodeEscape(u)
    else [u]
  }

  // Surrogate pairs are printed as they are; lone surrogates are escaped.
  function Escape(s: JsString): JsString {
    if s == [] then []
    else if StartsWithPair(s) then s[..2] + Escape(s[2..])
    else EscapeUnit(s[0]) + Escape(s[1..])
  }

  function Quoted(s: JsString): JsString {
    [QUOTE] + Escape(s) + [QUOTE]
  }

  function Join(parts: seq<JsString>): JsString {
    if parts == [] then []
    else if |parts| == 1 then parts[0]
    else parts[0] + [COMMA] + Join(parts[1..])
  }

  // The canonical text of a value.
  function Serialize(v: Json): JsString
    decreases v
  {
    match v
    case Null => NullText()
    case Bool(b) => if b then TrueText() else FalseText()
    case Num(n) => Decimal(n)
    case Str(s) => Quoted(s)
    case Arr(items) => [LBRACKET] + Join(seq(|items|, i requires 0 <= i < |items| => Serialize(items[i]))) + [RBRACKET]
    case Obj(fields) =>
      var sorted := Sort(fields, FieldLeq);
      SortMembers(fields, FieldLeq);
      assert forall i | 0 <= i < |sorted| :: sorted[i] in sorted;
      [LBRACE]
      + Join(seq(|sorted|, i requires 0 <= i < |sorted| =>
          Quoted(sorted[i].key) + [COLON] + Serialize(sorted[i].value)))
      + [RBRACE]
  }

  function PrintField(f: Field): JsString
    decreases f, 2
  {
    Quoted(f.key) + [COLON] + Print(f.value)
  }

  function PrintFields(fields: seq<Field>): JsString
    decreases fields, 0
  {
    if fields == [] then []
    else if |fields| == 1 then PrintField(fields[0])
    else PrintField(fields[0]) + [COMMA] + PrintFields(fields[1..])
  }

  // The text of a value with fields in the order they have.
  function Print(v: Json): JsString
    decreases v, 1
  {
    match v
    case Null => NullText()
    case Bool(b) => if b then TrueText() else FalseText()
    case Num(n) => Decimal(n)
    case Str(s) => Quoted(s)
    case Arr(items) => [LBRACKET] + PrintItems(items) + [RBRACKET]
    case Obj(fields) => [LBRACE] + PrintFields(fields) + [RBRACE]
  }

  function PrintItems(items: seq<Json>): JsString
    decreases items, 0
  {
    if items == [] then []
    else if |items| == 1 then Print(items[0])
    else Print(items[0]) + [COMMA] + PrintItems(items[1..])
  }

  lemma {:induction false} JoinItems(parts: seq<JsString>, items: seq<Json>)
    requires |parts| == |items| && forall i | 0 <= i < |items| :: parts[i] == Print(items[i])
    ensures Join(parts) == PrintItems(items)
  {
    if |parts| > 1 { JoinItems(parts[1..], items[1..]); }
  }

  lemma {:induction false} JoinFields(parts: seq<JsString>, fields: seq<Field>)
    requires |parts| == |fields| && forall i | 0 <= i < |fields| :: parts[i] == PrintField(fields[i])
    ensures Join(parts) == PrintFields(fields)
  {
    if |parts| > 1 { JoinFields(parts[1..], fields[1..]); }
  }

  lemma {:induction false} ArrayPrints(items: seq<Json>)
    requires forall i | 0 <= i < |items| :: Serialize(items[i]) == Print(Canon(items[i]))
    ensures Serialize(Arr(items)) == Print(Canon(Arr(items)))
  {
    hide Join, PrintItems;
    var parts := seq(|items|, i requires 0 <= i < |items| => Serialize(items[i]));
    var canon := seq(|items|, i requires 0 <= i < |items| => Canon(items[i]));
    JoinItems(parts, canon);
  }

  lemma {:induction false} ObjectPrints(fields: seq<Field>)
    requires forall f | f in fields :: Serialize(f.value) == Print(Canon(f.value))
    ensures Serialize(Obj(fields)) == Print(Canon(Obj(fields)))
  {
    hide Join, PrintFields, Sort, Quoted;
    var sorted := Sort(fields, FieldLeq);
    SortMembers(fields, FieldLeq);
    var parts := seq(|sorted|, i requires 0 <= i < |sorted| =>
      Quoted(sorted[i].key) + [COLON] + Serialize(sorted[i].value));
    var canon := seq(|sorted|, i requires 0 <= i < |sorted| => Field(sorted[i].key, Canon(sorted[i].value)));
    forall i | 0 <= i < |sorted| ensures parts[i] == PrintField(canon[i]) {
      assert sorted[i] in fields;
    }
    JoinFields(parts, canon);
  }

  // Sorting while printing is printing the key-ordered value.
  lemma {:induction false} SerializeIsPrintCanon(v: Json)
    ensures Serialize(v) == Print(Canon(v))
    decreases v
  {
    match v
    case Arr(items) =>
      forall i | 0 <= i < |items| ensures Serialize(items[i])
          == Print(Canon(items[i])) { SerializeIsPrintCanon(items[i]); }
      ArrayPrints(items);
    case Obj(fields) =>
      forall f | f in fields ensures Serialize(f.value) == Print(Canon(f.value)) { SerializeIsPrintCanon(f.value); }
      ObjectPrints(fields);
    case _ =>
  }
}
