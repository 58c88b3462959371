/**
 The Python runtime's JSON text: strings of code points in which a surrogate pair may be
 spelled as two. Normalizing makes its keys, its key order and its canonical text those of
 the JavaScript runtime.
 */
module PythonText {
  import opened Wrappers
  import opened Sequences
  import opened Text
  import opened Json
  import CanonicalForm

  // ---- Strings -------------------------------------------------------------------

  function Normalize(s: PyString): PyString {
    if s == [] then []
    else if StartsWithPair(s) then [Combine(s[0], s[1])] + Normalize(s[2..])
    else [s[0]] + Normalize(s[1..])
  }

  lemma {:induction false} NothingLeft(value: PyString, index: nat)
    requires index == |value|
    ensures Normalize(value[index..]) == []
  {}

  lemma {:induction false} NormalizeAt(value: PyString, index: nat)
    requires index < |value|
    ensures Normalize(value[index..]) ==
            if IsHigh(value[index]) && index + 1 < |value| && IsLow(value[index + 1])
            then [Combine(value[index], value[index + 1])] + Normalize(value[index + 2..])
            else [value[index]] + Normalize(value[index + 1..])
  {
    var s := value[index..];
    assert s[1..] == value[index + 1..];
    assert |s| >= 2 ==> s[1] == value[index + 1] && s[2..] == value[index + 2..];
  }

  lemma {:induction false} HeadPoint(s: PyString)
    requires s != [] && !StartsWithPair(s)
    ensures CodePoints(Units(s)) == [s[0]] + CodePoints(Units(s[1..]))
  {
    var head, rest := UnitsOf(s[0]), Units(s[1..]);
    assert Units(s) == head + rest;
    if |head| == 1 {
      assert Units(s)[1..] == rest;
      if rest != [] {
        assert rest[0] == UnitsOf(s[1])[0];
      }
    } else {
      assert Units(s)[2..] == rest;
    }
  }

  // Normalizing reads the string as JavaScript iterates over its UTF-16 form.
  lemma {:induction false} NormalizeIsCodePoints(s: PyString)
    ensures Normalize(s) == CodePoints(Units(s))
    decreases |s|
  {
    if s == [] {
    } else if StartsWithPair(s) {
      NormalizeIsCodePoints(s[2..]);
      var u := Units(s);
      assert s[1..][1..] == s[2..];
      assert UnitsOf(s[0]) == [s[0]] && UnitsOf(s[1]) == [s[1]];
      assert Units(s[1..]) == [s[1]] + Units(s[2..]);
      assert u == [s[0]] + Units(s[1..]);
      assert StartsWithPair(u) && u[2..] == Units(s[2..]);
    } else {
      NormalizeIsCodePoints(s[1..]);
      HeadPoint(s);
    }
  }

  method NormalizeJsonString(value: PyString) returns (normalized: PyString)
    ensures normalized == Normalize(value)
    ensures normalized == CodePoints(Units(value))
  {
    hide Normalize, Combine;
    normalized := [];
    var index := 0;
    assert value[0..] == value;
    while index < |value|
      invariant index <= |value|
      invariant normalized + Normalize(value[index..]) == Normalize(value)
    {
      NormalizeAt(value, index);
      ghost var before := normalized;
      var codePoint: int := value[index];
      if IsHigh(codePoint) && index + 1 < |value| && IsLow(value[index + 1]) {
        Assoc(before, [Combine(codePoint, value[index + 1])], Normalize(value[index + 2..]));
        normalized := normalized + [Combine(codePoint, value[index + 1])];
        index := index + 2;
      } else {
        Assoc(before, [value[index]], Normalize(value[index + 1..]));
        normalized := normalized + [value[index]];
        index := index + 1;
      }
    }
    NothingLeft(value, index);
    NormalizeIsCodePoints(value);
  }

  // Idempotent, and equal exactly on strings with the same UTF-16 form.
  lemma {:induction false} NormalForm(s: PyString, t: PyString)
    ensures Normalize(Normalize(s)) == Normalize(s)
    ensures Normalize(s) == Normalize(t) <==> Units(s) == Units(t)
    ensures Units(Normalize(s)) == Units(s)
  {
    NormalizeIsCodePoints(s);
    NormalizeIsCodePoints(t);
    NormalizeIsCodePoints(Normalize(s));
    UnitsOfCodePoints(Units(s));
    UnitsOfCodePoints(Units(t));
  }

  // Python's order of normalized strings is the JavaScript order by code point.
  lemma {:induction false} SameOrder(s: PyString, t: PyString)
    ensures ComparePoints(Normalize(s), Normalize(t)) == Compare(Units(s), Units(t))
  {
    NormalizeIsCodePoints(s);
    NormalizeIsCodePoints(t);
  }

  // ---- Values ---------------------------------------------------------------------------

  datatype PyJson =
    | PyNull
    | PyBool(b: bool)
    | PyNum(n: int)
    | PyStr(s: PyString)
    | PyArr(items: seq<PyJson>)
    | PyObj(fields: seq<PyField>)

  datatype PyField = PyField(key: PyString, value: PyJson)

  // The value as JavaScript sees it.
  function ToJs(v: PyJson): Json
    decreases v
  {
    match v
    case PyNull => Null
    case PyBool(b) => Bool(b)
    case PyNum(n) => Num(n)
    case PyStr(s) => Str(Units(s))
    case PyArr(items) => Arr(seq(|items|, i requires 0 <= i < |items| => ToJs(items[i])))
    case PyObj(fields) =>
      Obj(seq(|fields|, i requires 0 <= i < |fields| => Field(Units(fields[i].key), ToJs(fields[i].value))))
  }

  // No object of the value has two keys that JavaScript would see as one.
  ghost predicate Collisionless(v: PyJson)
    decreases v
  {
    match v
    case PyArr(items) => forall i | 0 <= i < |items| :: Collisionless(items[i])
    case PyObj(fields) =>
      && (forall i, j | 0 <= i < j < |fields| :: Units(fields[i].key) != Units(fields[j].key))
      && (forall i | 0 <= i < |fields| :: Collisionless(fields[i].value))
    case _ => true
  }

  function Normalized(v: PyJson): PyJson
    decreases v
  {
    match v
    case PyStr(s) => PyStr(Normalize(s))
    case PyArr(items) => PyArr(seq(|items|, i requires 0 <= i < |items| => Normalized(items[i])))
    case PyObj(fields) =>
      PyObj(seq(|fields|, i requires 0 <= i < |fields| =>
        PyField(Normalize(fields[i].key), Normalized(fields[i].value))))
    case _ => v
  }

  method Contains(fields: seq<PyField>, key: PyString) returns (seen: bool)
    ensures seen <==> exists i :: 0 <= i < |fields| && fields[i].key == key
  {
    for index := 0 to |fields|
      invariant forall i | 0 <= i < index :: fields[i].key != key
    {
      if fields[index].key == key {
        return true;
      }
    }
    return false;
  }

  lemma {:induction false} KeysSeen(fields: seq<PyField>, out: seq<PyField>, index: nat, key: PyString)
    requires index < |fields| && |out| == index && key == Normalize(fields[index].key)
    requires forall i | 0 <= i < index :: out[i].key == Normalize(fields[i].key)
    ensures forall i | 0 <= i < index :: out[i].key == key <==> Units(fields[i].key) == Units(fields[index].key)
  {
    forall i | 0 <= i < index ensures out[i].key == key <==> Units(fields[i].key) == Units(fields[index].key) {
      NormalForm(fields[i].key, fields[index].key);
    }
  }

  method NormalizeFields(fields: seq<PyField>) returns (r: Option<seq<PyField>>)
    ensures r.Some? <==> Collisionless(PyObj(fields))
    ensures r.Some? ==> PyObj(r.value) == Normalized(PyObj(fields))
    decreases fields, 0
  {
    var out := [];
    for index := 0 to |fields|
      invariant |out| == index
      invariant forall i | 0 <= i < index ::
        Collisionless(fields[i].value) && out[i] == PyField(Normalize(fields[i].key), Normalized(fields[i].value))
      invariant forall i, j | 0 <= i < j < index :: Units(fields[i].key) != Units(fields[j].key)
    {
      var key := NormalizeJsonString(fields[index].key);
      var seen := Contains(out, key);
      KeysSeen(fields, out, index, key);
      if seen {
        return None;
      }
      var item := NormalizeJsonStrings(fields[index].value);
      if item.None? {
        return None;
      }
      out := out + [PyField(key, item.value)];
    }
    return Some(out);
  }

  // `normalize_json_strings`: None stands for the key collision error, raised exactly when
  // JavaScript would see two keys as one.
  method NormalizeJsonStrings(value: PyJson) returns (r: Option<PyJson>)
    ensures r.Some? <==> Collisionless(value)
    ensures r.Some? ==> r.value == Normalized(value)
    decreases value, 1
  {
    match value
    case PyStr(s) =>
      var t := NormalizeJsonString(s);
      r := Some(PyStr(t));
    case PyArr(items) =>
      var out := NormalizeItems(items);
      r := if out.None? then None else Some(PyArr(out.value));
    case PyObj(fields) =>
      var out := NormalizeFields(fields);
      r := if out.None? then None else Some(PyObj(out.value));
    case _ =>
      r := Some(value);
  }

  method NormalizeItems(items: seq<PyJson>) returns (r: Option<seq<PyJson>>)
    ensures r.Some? <==> Collisionless(PyArr(items))
    ensures r.Some? ==> PyArr(r.value) == Normalized(PyArr(items))
    decreases items, 0
  {
    var out := [];
    for index := 0 to |items|
      invariant |out| == index
      invariant forall i | 0 <= i < index :: Collisionless(items[i]) && out[i] == Normalized(items[i])
    {
      var item := NormalizeJsonStrings(items[index]);
      if item.None? {
        return None;
      }
      out := out + [item.value];
    }
    return Some(out);
  }

  // ---- Text -------------------------------------------------------------------------------------

  function EscapePoint(c: CodePoint): PyString {
    if c == QUOTE || c == BACKSLASH then [BACKSLASH, c]
    else if c == 0x08 then [BACKSLASH, 0x62]
    else if c == 0x09 then [BACKSLASH, 0x74]
    else if c == 0x0A then [BACKSLASH, 0x6E]
    else if c == 0x0C then [BACKSLASH, 0x66]
    else if c == 0x0D then [BACKSLASH, 0x72]
    else if c < 0x20 then UnicodeEscape(c)
    else [c]
  }

  function EscapePoints(s: PyString): PyString {
    if s == [] then [] else EscapePoint(s[0]) + EscapePoints(s[1..])
  }

  function PyQuoted(s: PyString): PyString {
    [QUOTE] + EscapePoints(s) + [QUOTE]
  }

  predicate PyFieldLeq(a: PyField, b: PyField) {
    ComparePoints(a.key, b.key) <= 0
  }

  function PyJoin(parts: seq<PyString>): PyString {
    if parts == [] then []
    else if |parts| == 1 then parts[0]
    else parts[0] + [COMMA] + PyJoin(parts[1..])
  }

  // `json.dumps` with sorted keys, compact separators and no ASCII escaping.
  function Dumps(v: PyJson): PyString
    decreases v
  {
    match v
    case PyNull => NullText()
    case PyBool(b) => if b then TrueText() else FalseText()
    case PyNum(n) => Decimal(n)
    case PyStr(s) => PyQuoted(s)
    case PyArr(items) => [LBRACKET] + PyJoin(seq(|items|, i requires 0 <= i < |items| => Dumps(items[i]))) + [RBRACKET]
    case PyObj(fields) =>
      var sorted := Sort(fields, PyFieldLeq);
      SortMembers(fields, PyFieldLeq);
      assert forall i | 0 <= i < |sorted| :: sorted[i] in sorted;
      [LBRACE]
      + PyJoin(seq(|sorted|, i requires 0 <= i < |sorted| =>
          PyQuoted(sorted[i].key) + [COLON] + Dumps(sorted[i].value)))
      + [RBRACE]
  }

  // Escape the remaining surrogates.
  function EscapeLone(s: PyString): PyString {
    if s == [] then [] else (if IsSurrogate(s[0]) then UnicodeEscape(s[0]) else [s[0]]) + EscapeLone(s[1..])
  }

  // Compact text can always be encoded as UTF-8: it holds no surrogate.
  lemma {:induction false} EscapedEncodable(s: PyString)
    ensures forall i | 0 <= i < |EscapeLone(s)| :: !IsSurrogate(EscapeLone(s)[i])
  {
    if s == [] {
    } else {
      EscapedEncodable(s[1..]);
    }
  }

  // ---- The two texts agree ------------------------------------------------------------------------

  // Python text as JavaScript reads it.
  function AsJs(s: PyString): JsString {
    Units(EscapeLone(s))
  }

  lemma {:induction false} UnitsConcat(a: PyString, b: PyString)
    ensures Units(a + b) == Units(a) + Units(b)
  {
    hide UnitsOf;
    if a == [] {
      assert a + b == b;
    } else {
      UnitsConcat(a[1..], b);
      assert (a + b)[1..] == a[1..] + b;
      Assoc(UnitsOf(a[0]), Units(a[1..]), Units(b));
    }
  }

  lemma {:induction false} EscapeConcat(a: PyString, b: PyString)
    ensures EscapeLone(a + b) == EscapeLone(a) + EscapeLone(b)
  {
    hide UnicodeEscape;
    if a == [] {
      assert a + b == b;
    } else {
      EscapeConcat(a[1..], b);
      assert (a + b)[1..] == a[1..] + b;
      var head: PyString := if IsSurrogate(a[0]) then UnicodeEscape(a[0]) else [a[0]];
      Assoc(head, EscapeLone(a[1..]), EscapeLone(b));
    }
  }

  lemma {:induction false} AsJsConcat(a: PyString, b: PyString)
    ensures AsJs(a + b) == AsJs(a) + AsJs(b)
  {
    EscapeConcat(a, b);
    UnitsConcat(EscapeLone(a), EscapeLone(b));
  }

  // Text without surrogates or astral characters is read as it stands.
  lemma {:induction false} AsJsPlain(s: JsString)
    requires forall i | 0 <= i < |s| :: !IsSurrogate(s[i])
    ensures AsJs(s) == s
  {
    if s == [] {
    } else {
      AsJsPlain(s[1..]);
      var c: CodePoint := s[0];
      assert EscapeLone(s) == [c] + EscapeLone(s[1..]);
      assert ([c] + EscapeLone(s[1..]))[1..] == EscapeLone(s[1..]);
      assert s == [s[0]] + s[1..];
    }
  }

  lemma {:induction false} HexPlain(u: CodeUnit)
    ensures forall i | 0 <= i < 6 :: UnicodeEscape(u)[i] < 0x80
  {}

  lemma {:induction false} PlainEscape(s: PyString)
    requires forall i | 0 <= i < |s| :: !IsSurrogate(s[i])
    ensures EscapeLone(s) == s
  {
    if s == [] {
    } else {
      PlainEscape(s[1..]);
      assert s == [s[0]] + s[1..];
    }
  }

  lemma {:induction false} PointAsJs(c: CodePoint)
    ensures !IsSurrogate(c) ==> AsJs([c]) == UnitsOf(c)
    ensures IsSurrogate(c) ==> AsJs([c]) == UnicodeEscape(c)
  {
    if IsSurrogate(c) {
      HexPlain(c);
      var escaped := UnicodeEscape(c);
      AsJsPlain(escaped);
      assert EscapeLone(escaped) == escaped by { PlainEscape(escaped); }
      assert EscapeLone([c]) == escaped + EscapeLone([]);
      assert escaped + [] == escaped;
    } else {
      assert EscapeLone([c]) == [c] + EscapeLone([]);
      assert [c] + [] == [c];
      assert Units([c]) == UnitsOf(c) + Units([]);
      assert [c][1..] == [];
    }
  }

  lemma {:induction false} EscapedPoint(u: CodeUnit)
    ensures AsJs(EscapePoint(u)) == EscapeUnit(u)
  {
    if u == QUOTE || u == BACKSLASH || u < 0x20 {
      HexPlain(u);
      assert EscapePoint(u) == EscapeUnit(u);
      AsJsPlain(EscapeUnit(u));
    } else {
      PointAsJs(u);
    }
  }

  // The characters of a normalized string come out as JavaScript escapes them.
  lemma {:induction false} EscapesAgree(u: JsString)
    ensures AsJs(EscapePoints(CodePoints(u))) == Escape(u)
    decreases |u|
  {
    if u == [] {
    } else if StartsWithPair(u) {
      var c, rest := Combine(u[0], u[1]), CodePoints(u[2..]);
      EscapesAgree(u[2..]);
      assert ([c] + rest)[1..] == rest;
      assert EscapePoints(CodePoints(u)) == [c] + EscapePoints(rest);
      AsJsConcat([c], EscapePoints(rest));
      PointAsJs(c);
      assert UnitsOf(c) == u[..2];
    } else {
      var rest := CodePoints(u[1..]);
      EscapesAgree(u[1..]);
      assert ([u[0]] + rest)[1..] == rest;
      assert EscapePoints(CodePoints(u)) == EscapePoint(u[0]) + EscapePoints(rest);
      AsJsConcat(EscapePoint(u[0]), EscapePoints(rest));
      EscapedPoint(u[0]);
    }
  }

  lemma {:induction false} QuotedAgree(s: PyString)
    ensures AsJs(PyQuoted(Normalize(s))) == Quoted(Units(s))
  {
    hide EscapePoints, Escape, Normalize;
    NormalizeIsCodePoints(s);
    EscapesAgree(Units(s));
    var body := EscapePoints(Normalize(s));
    AsJsConcat([QUOTE] + body, [QUOTE]);
    AsJsConcat([QUOTE], body);
    AsJsPlain([QUOTE]);
  }

  lemma {:induction false} JoinAgrees(parts: seq<PyString>, others: seq<JsString>)
    requires |parts| == |others| && forall i | 0 <= i < |parts| :: AsJs(parts[i]) == others[i]
    ensures AsJs(PyJoin(parts)) == Join(others)
  {
    hide AsJs;
    if |parts| > 1 {
      JoinAgrees(parts[1..], others[1..]);
      AsJsConcat(parts[0] + [COMMA], PyJoin(parts[1..]));
      AsJsConcat(parts[0], [COMMA]);
      AsJsPlain([COMMA]);
    } else if parts == [] {
      AsJsPlain([]);
    }
  }

  // ---- Sorting commutes with the change of representation ------------------------------------------

  function Map<A, B>(s: seq<A>, f: A -> B): (r: seq<B>)
    ensures |r| == |s| && forall i | 0 <= i < |s| :: r[i] == f(s[i])
  {
    seq(|s|, i requires 0 <= i < |s| => f(s[i]))
  }

  lemma {:induction false} InsertMap<A(!new), B>(x: A, s: seq<A>, f: A -> B, la: (A, A) -> bool, lb: (B, B) -> bool)
    requires forall a, b :: la(a, b) == lb(f(a), f(b))
    ensures Insert(f(x), Map(s, f), lb) == Map(Insert(x, s, la), f)
  {
    if s == [] {
    } else {
      var front := s[..|s| - 1];
      InsertMap(x, front, f, la, lb);
      assert Map(s, f)[..|s| - 1] == Map(front, f);
    }
  }

  lemma {:induction false} SortMap<A(!new), B>(s: seq<A>, f: A -> B, la: (A, A) -> bool, lb: (B, B) -> bool)
    requires forall a, b :: la(a, b) == lb(f(a), f(b))
    ensures Sort(Map(s, f), lb) == Map(Sort(s, la), f)
  {
    if s == [] {
    } else {
      var front, last := s[..|s| - 1], s[|s| - 1];
      SortMap(front, f, la, lb);
      assert Map(s, f)[..|s| - 1] == Map(front, f);
      InsertMap(last, Sort(front, la), f, la, lb);
    }
  }

  function JsField(f: PyField): Field {
    Field(Units(f.key), ToJs(f.value))
  }

  function NormalField(f: PyField): PyField {
    PyField(Normalize(f.key), Normalized(f.value))
  }

  predicate KeysInOrder(a: PyField, b: PyField) {
    TextLeq(Units(a.key), Units(b.key))
  }

  // Sorted by either runtime, the fields come in the same order.
  lemma {:induction false} SortsAgree(fields: seq<PyField>)
    ensures Sort(Map(fields, JsField), FieldLeq) == Map(Sort(fields, KeysInOrder), JsField)
    ensures Sort(Map(fields, NormalField), PyFieldLeq) == Map(Sort(fields, KeysInOrder), NormalField)
  {
    hide Units, Normalize, ToJs, Normalized, ComparePoints;
    forall a, b ensures KeysInOrder(a, b) == PyFieldLeq(NormalField(a), NormalField(b)) {
      SameOrder(a.key, b.key);
    }
    SortMap(fields, JsField, KeysInOrder, FieldLeq);
    SortMap(fields, NormalField, KeysInOrder, PyFieldLeq);
  }

  lemma {:induction false} ObjectParts(fields: seq<PyField>)
    ensures ToJs(PyObj(fields)) == Obj(Map(fields, JsField))
    ensures Normalized(PyObj(fields)) == PyObj(Map(fields, NormalField))
  {}

  function PyPart(f: PyField): PyString {
    PyQuoted(f.key) + [COLON] + Dumps(f.value)
  }

  function JsPart(f: Field): JsString {
    Quoted(f.key) + [COLON] + Serialize(f.value)
  }

  lemma {:induction false} PartsAgree(f: PyField)
    requires AsJs(Dumps(Normalized(f.value))) == Serialize(ToJs(f.value))
    ensures AsJs(PyPart(NormalField(f))) == JsPart(JsField(f))
  {
    hide AsJs, PyQuoted, Quoted, Dumps, Serialize, ToJs, Normalized;
    QuotedAgree(f.key);
    AsJsConcat(PyQuoted(Normalize(f.key)) + [COLON], Dumps(Normalized(f.value)));
    AsJsConcat(PyQuoted(Normalize(f.key)), [COLON]);
    AsJsPlain([COLON]);
  }

  lemma {:induction false} Bracketed(open_: CodeUnit, body: PyString, close_: CodeUnit)
    requires !IsSurrogate(open_) && !IsSurrogate(close_)
    ensures AsJs([open_] + body + [close_]) == [open_] + AsJs(body) + [close_]
  {
    hide AsJs;
    AsJsConcat([open_] + body, [close_]);
    AsJsConcat([open_], body);
    AsJsPlain([open_]);
    AsJsPlain([close_]);
  }

  lemma {:induction false} DumpsObject(fields: seq<PyField>)
    ensures Dumps(PyObj(fields)) == [LBRACE] + PyJoin(Map(Sort(fields, PyFieldLeq), PyPart)) + [RBRACE]
  {
    hide Sort, PyJoin, PyQuoted, PyFieldLeq;
    var sorted := Sort(fields, PyFieldLeq);
    var parts := seq(|sorted|, i requires 0 <= i < |sorted| =>
      PyQuoted(sorted[i].key) + [COLON] + Dumps(sorted[i].value));
    assert parts == Map(sorted, PyPart);
  }

  lemma {:induction false} SerializeObject(fields: seq<Field>)
    ensures Serialize(Obj(fields)) == [LBRACE] + Join(Map(Sort(fields, FieldLeq), JsPart)) + [RBRACE]
  {
    hide Sort, Join, Quoted, FieldLeq;
    var sorted := Sort(fields, FieldLeq);
    var parts := seq(|sorted|, i requires 0 <= i < |sorted| =>
      Quoted(sorted[i].key) + [COLON] + Serialize(sorted[i].value));
    assert parts == Map(sorted, JsPart);
  }

  lemma {:induction false} DigitsPlain(n: nat)
    ensures AsJs(Digits(n)) == Digits(n) && AsJs([MINUS] + Digits(n)) == [MINUS] + Digits(n)
  {
    AsJsPlain(Digits(n));
    AsJsPlain([MINUS] + Digits(n));
  }

  lemma {:induction false} ScalarAgrees(v: PyJson)
    requires !v.PyArr? && !v.PyObj?
    ensures AsJs(Dumps(Normalized(v))) == Serialize(ToJs(v))
  {
    hide AsJs, Normalize, Units, PyQuoted, Quoted, Digits;
    match v
    case PyNull => AsJsPlain(NullText());
    case PyBool(b) => AsJsPlain(TrueText()); AsJsPlain(FalseText());
    case PyNum(n) => DigitsPlain(if n < 0 then -n else n);
    case PyStr(s) => QuotedAgree(s);
  }

  lemma {:induction false} ArrayAgrees(items: seq<PyJson>)
    requires forall i | 0 <= i < |items| :: AsJs(Dumps(Normalized(items[i]))) == Serialize(ToJs(items[i]))
    ensures AsJs(Dumps(Normalized(PyArr(items)))) == Serialize(ToJs(PyArr(items)))
  {
    hide AsJs;
    var normal := Normalized(PyArr(items)).items;
    var parts := seq(|normal|, i requires 0 <= i < |normal| => Dumps(normal[i]));
    var js := ToJs(PyArr(items)).items;
    var others := seq(|js|, i requires 0 <= i < |js| => Serialize(js[i]));
    JoinAgrees(parts, others);
    Bracketed(LBRACKET, PyJoin(parts), RBRACKET);
  }

  lemma {:induction false} ObjectAgrees(fields: seq<PyField>)
    requires forall f | f in fields :: AsJs(Dumps(Normalized(f.value))) == Serialize(ToJs(f.value))
    ensures AsJs(Dumps(Normalized(PyObj(fields)))) == Serialize(ToJs(PyObj(fields)))
  {
    hide AsJs, Dumps, Serialize, ToJs, Normalized, Sort, PyPart, JsPart, NormalField, JsField;
    var sorted := Sort(fields, KeysInOrder);
    SortMembers(fields, KeysInOrder);
    ObjectParts(fields);
    SortsAgree(fields);
    DumpsObject(Map(fields, NormalField));
    SerializeObject(Map(fields, JsField));
    var parts, others := Map(Map(sorted, NormalField), PyPart), Map(Map(sorted, JsField), JsPart);
    forall i | 0 <= i < |sorted| ensures AsJs(parts[i]) == others[i] {
      assert sorted[i] in sorted;
      PartsAgree(sorted[i]);
    }
    JoinAgrees(parts, others);
    Bracketed(LBRACE, PyJoin(parts), RBRACE);
  }

  // Both runtimes print the same text for the same value.
  lemma {:induction false} DumpsAgree(v: PyJson)
    ensures AsJs(Dumps(Normalized(v))) == Serialize(ToJs(v))
    decreases v
  {
    hide AsJs, Dumps, Normalized, Serialize, ToJs;
    match v
    case PyNull => ScalarAgrees(v);
    case PyBool(_) => ScalarAgrees(v);
    case PyNum(_) => ScalarAgrees(v);
    case PyStr(_) => ScalarAgrees(v);
    case PyArr(items) =>
      forall i | 0 <= i < |items| ensures AsJs(Dumps(Normalized(items[i]))) == Serialize(ToJs(items[i])) {
        DumpsAgree(items[i]);
      }
      ArrayAgrees(items);
    case PyObj(fields) =>
      forall f | f in fields ensures AsJs(Dumps(Normalized(f.value))) == Serialize(ToJs(f.value)) {
        DumpsAgree(f.value);
      }
      ObjectAgrees(fields);
  }

  // `compact_json` with sorted keys: it fails exactly on values with colliding keys, and its
  // text is the JavaScript canonical text, always encodable.
  method CompactJson(value: PyJson) returns (r: Option<PyString>)
    ensures r.Some? <==> Collisionless(value)
    ensures r.Some? ==> Units(r.value) == Serialize(ToJs(value))
    ensures r.Some? ==> forall i | 0 <= i < |r.value| :: !IsSurrogate(r.value[i])
  {
    hide Collisionless, Normalized, Dumps, EscapeLone;
    var normalized := NormalizeJsonStrings(value);
    if normalized.None? {
      return None;
    }
    DumpsAgree(value);
    EscapedEncodable(Dumps(normalized.value));
    return Some(EscapeLone(Dumps(normalized.value)));
  }

  // Collision-free values of safe integers are captured JavaScript values.
  ghost predicate SafeIntegers(v: PyJson)
    decreases v
  {
    match v
    case PyNum(n) => -MAX_SAFE <= n <= MAX_SAFE
    case PyArr(items) => forall i | 0 <= i < |items| :: SafeIntegers(items[i])
    case PyObj(fields) => forall i | 0 <= i < |fields| :: SafeIntegers(fields[i].value)
    case _ => true
  }

  lemma {:induction false} ToJsCaptured(v: PyJson)
    requires Collisionless(v) && SafeIntegers(v)
    ensures Captured(ToJs(v))
    decreases v
  {
    match v
    case PyArr(items) =>
      forall i | 0 <= i < |items| ensures Captured(ToJs(items[i])) { ToJsCaptured(items[i]); }
    case PyObj(fields) =>
      forall i | 0 <= i < |fields| ensures Captured(ToJs(fields[i].value)) { ToJsCaptured(fields[i].value); }
    case _ =>
  }

  // Text without surrogates is its own normal form.
  lemma {:induction false} NoPairs(s: PyString)
    ensures (forall i | 0 <= i < |s| :: !IsSurrogate(s[i])) ==> Normalize(s) == s
  {
    if s != [] && forall i | 0 <= i < |s| :: !IsSurrogate(s[i]) {
      NoPairs(s[1..]);
      assert !StartsWithPair(s);
      assert s == [s[0]] + s[1..];
    }
  }

  // Python texts of two values are equal exactly when JavaScript sees the values as equal up
  // to key order.
  lemma {:induction false} SameTextAcrossRuntimes(v: PyJson, w: PyJson)
    requires Collisionless(v) && SafeIntegers(v) && Collisionless(w) && SafeIntegers(w)
    ensures EscapeLone(Dumps(Normalized(v))) == EscapeLone(Dumps(Normalized(w)))
        <==> CanonicalForm.Same(ToJs(v), ToJs(w))
  {
    hide Collisionless, SafeIntegers, Dumps, Normalized, ToJs, Serialize, CanonicalForm.Same, Units, EscapeLone;
    ToJsCaptured(v);
    ToJsCaptured(w);
    DumpsAgree(v);
    DumpsAgree(w);
    CanonicalForm.SameTextIffSame(ToJs(v), ToJs(w));
    NoPairs(EscapeLone(Dumps(Normalized(v))));
    NoPairs(EscapeLone(Dumps(Normalized(w))));
    EscapedEncodable(Dumps(Normalized(v)));
    EscapedEncodable(Dumps(Normalized(w)));
    NormalForm(EscapeLone(Dumps(Normalized(v))), EscapeLone(Dumps(Normalized(w))));
  }
}
