/**
 The texts of this model character by character: how canonical JSON is written, and which
 identifiers and keys are admitted.
 */
module Characters {
  import opened Wrappers
  import opened Sequences
  import opened Text
  import opened Json
  import opened JsonParser
  import opened CanonicalForm
  import opened EventStreams
  import opened Patterns
  import opened LoopPatterns
  import opened Graphs

  // ---- Canonical JSON ------------------------------------------------------------------

  // Words and numbers are written as usual.
  lemma {:induction false} ScalarText(n: int)
    ensures Print(Null) == Ascii("null") && Print(Bool(true)) == Ascii("true") && Print(Bool(false)) == Ascii("false")
    ensures n < 0 ==> Print(Num(n)) == Ascii("-") + Print(Num(-n))
    ensures 0 <= n < 10 ==> Print(Num(n)) == ['0' as int + n]
    ensures n >= 10 ==> Print(Num(n)) == Print(Num(n / 10)) + ['0' as int + n % 10]
  {}

  function Hex(n: int): CodeUnit
    requires 0 <= n < 16
  {
    if n < 10 then '0' as int + n else 'a' as int + n - 10
  }

  // How one unit stands in a string: with a short escape, escaped by its number, or as it is.
  function UnitText(u: CodeUnit): JsString {
    if u == '\"' as int then Ascii("\\\"")
    else if u == '\\' as int then Ascii("\\\\")
    else if u == 8 then Ascii("\\b")
    else if u == '\t' as int then Ascii("\\t")
    else if u == '\n' as int then Ascii("\\n")
    else if u == 12 then Ascii("\\f")
    else if u == '\r' as int then Ascii("\\r")
    else if u < 32 || 0xD800 <= u <= 0xDFFF then
      Ascii("\\u") + [Hex(u / 4096), Hex(u / 256 % 16), Hex(u / 16 % 16), Hex(u % 16)]
    else [u]
  }

  lemma {:induction false} UnitEscaped(u: CodeUnit)
    ensures EscapeUnit(u) == UnitText(u)
  {
    if u < 32 || IsSurrogate(u) {
      assert u / 16 / 16 == u / 256 && u / 256 / 16 == u / 4096;
    }
  }

  // A string is quoted; a surrogate pair stands as it is, every other unit by itself.
  lemma {:induction false} StringText(s: JsString)
    ensures s == [] ==> Print(Str(s)) == Ascii("\"\"")
    ensures |s| >= 2 && 0xD800 <= s[0] <= 0xDBFF && 0xDC00 <= s[1] <= 0xDFFF ==>
              Print(Str(s)) == Ascii("\"") + s[..2] + Print(Str(s[2..]))[1..]
    ensures s != [] && !(|s| >= 2 && 0xD800 <= s[0] <= 0xDBFF && 0xDC00 <= s[1] <= 0xDFFF) ==>
              Print(Str(s)) == Ascii("\"") + UnitText(s[0]) + Print(Str(s[1..]))[1..]
  {
    hide UnitText, EscapeUnit;
    if s != [] {
      UnitEscaped(s[0]);
    }
  }

  // Items stand between brackets, separated by commas.
  lemma {:induction false} ArrayText(items: seq<Json>)
    ensures items == [] ==> Print(Arr(items)) == Ascii("[]")
    ensures |items| == 1 ==> Print(Arr(items)) == Ascii("[") + Print(items[0]) + Ascii("]")
    ensures |items| > 1 ==>
              Print(Arr(items)) == Ascii("[") + Print(items[0]) + Ascii(",") + Print(Arr(items[1..]))[1..]
  {}

  // Fields stand between braces, separated by commas, as key, colon, value.
  lemma {:induction false} ObjectText(fields: seq<Field>)
    ensures fields == [] ==> Print(Obj(fields)) == Ascii("{}")
    ensures |fields| == 1 ==>
              Print(Obj(fields))
              == Ascii("{") + Print(Str(fields[0].key)) + Ascii(":") + Print(fields[0].value) + Ascii("}")
    ensures |fields| > 1 ==>
              Print(Obj(fields)) == Ascii("{") + Print(Str(fields[0].key)) + Ascii(":") + Print(fields[0].value)
                                  + Ascii(",") + Print(Obj(fields[1..]))[1..]
  {
    hide Quoted;
    if fields != [] {
      var key, value := Print(Str(fields[0].key)), Print(fields[0].value);
      assert PrintField(fields[0]) == key + [COLON] + value;
      if |fields| == 1 {
        assert [LBRACE] + (key + [COLON] + value) + [RBRACE] == [LBRACE] + key + [COLON] + value + [RBRACE];
      } else {
        var rest := PrintFields(fields[1..]);
        assert Print(Obj(fields[1..]))[1..] == rest + [RBRACE];
        assert [LBRACE] + (key + [COLON] + value + [COMMA] + rest) + [RBRACE]
            == [LBRACE] + key + [COLON] + value + [COMMA] + (rest + [RBRACE]);
      }
    }
  }

  // The escapes that are read: each of the short ones, and four hexadecimal digits of either case.
  lemma {:induction false} EscapesRead(u: CodeUnit, v: CodeUnit)
    ensures SimpleEscape(u) == Some(v) <==>
      || (u == v && (u == '\"' as int || u == '\\' as int || u == '/' as int))
      || (u == 'b' as int && v == 8) || (u == 'f' as int && v == 12) || (u == 'n' as int && v == '\n' as int)
      || (u == 'r' as int && v == '\r' as int) || (u == 't' as int && v == '\t' as int)
    ensures HexValue(u) == Some(v) <==>
      || ('0' as int <= u <= '9' as int && v == u - '0' as int)
      || ('a' as int <= u <= 'f' as int && v == 10 + u - 'a' as int)
      || ('A' as int <= u <= 'F' as int && v == 10 + u - 'A' as int)
  {}

  // A captured value holds safe integers only, and each key once in every object.
  lemma {:induction false} CapturedText(v: Json)
    ensures v.Null? || v.Bool? || v.Str? ==> Captured(v)
    ensures v.Num? ==> (Captured(v) <==> -9007199254740991 <= v.n <= 9007199254740991)
    ensures v.Arr? ==> (Captured(v) <==> forall x | x in v.items :: Captured(x))
    ensures v.Obj? ==>
      (Captured(v) <==>
         && (forall i, j | 0 <= i < j < |v.fields| :: v.fields[i].key != v.fields[j].key)
         && forall f | f in v.fields :: Captured(f.value))
  {}

  // ---- Identifiers ------------------------------------------------------------------------

  predicate Letter(u: CodeUnit) {
    'A' as int <= u <= 'Z' as int || 'a' as int <= u <= 'z' as int
  }

  predicate LetterOrDigit(u: CodeUnit) {
    Letter(u) || '0' as int <= u <= '9' as int
  }

  predicate NamePart(u: CodeUnit) {
    LetterOrDigit(u) || u == '.' as int || u == '_' as int || u == '-' as int
  }

  // Run and checkpoint ids: 1 to 128 characters, the first a letter or digit.
  lemma {:induction false} SafeIdentifierText(s: JsString)
    ensures SafeIdentifier(s) <==>
              1 <= |s| <= 128 && LetterOrDigit(s[0]) && forall i | 0 <= i < |s| :: NamePart(s[i])
  {}

  // Node ids: 1 to 128 characters, the first a letter.
  lemma {:induction false} NodeIdText(n: NodeId)
    ensures ValidNodeId(n) <==>
              1 <= |n.text| <= 128 && Letter(n.text[0]) && forall i | 0 <= i < |n.text| :: NamePart(n.text[i])
  {}

  // Keys: 1 to 64 characters, the first a letter, and not a name every object inherits.
  lemma {:induction false} KeyText(key: Key)
    ensures SafeKey(key) <==>
      && 1 <= |key.text| <= 64 && Letter(key.text[0]) && (forall i | 0 <= i < |key.text| :: NamePart(key.text[i]))
      && key.text != Ascii("__proto__") && key.text != Ascii("constructor") && key.text != Ascii("prototype")
  {
    assert Ascii("__proto__")[0] == '_' as int;
  }

  // A fan takes one to a hundred items with safe, distinct keys and valid node ids.
  lemma {:induction false} ItemLimit(items: seq<Keyed>)
    ensures ItemsOk(items) <==>
      && 1 <= |items| <= 100 && (forall i, j | 0 <= i < j < |items| :: items[i].key != items[j].key)
      && forall i | 0 <= i < |items| :: SafeKey(items[i].key) && ValidNodeId(items[i].node.id)
  {
    hide SafeKey, ValidNodeId;
    if ItemsOk(items) {
      forall i, j | 0 <= i < j < |items| ensures items[i].key != items[j].key {
        assert KeysOf(items)[i] != KeysOf(items)[j];
      }
    }
  }

  // A loop takes as many rounds.
  lemma {:induction false} RoundLimit(rounds: seq<Round>)
    ensures RoundsOk(rounds) <==>
      && 1 <= |rounds| <= 100 && (forall i, j | 0 <= i < j < |rounds| :: rounds[i].key != rounds[j].key)
      && forall i | 0 <= i < |rounds| ::
           SafeKey(rounds[i].key) && ValidNodeId(rounds[i].find.id) && ValidNodeId(rounds[i].checkDry.id)
  {
    hide SafeKey, ValidNodeId;
    if RoundsOk(rounds) {
      forall i, j | 0 <= i < j < |rounds| ensures rounds[i].key != rounds[j].key {
        assert RoundKeys(rounds)[i] != RoundKeys(rounds)[j];
      }
    }
  }
}
