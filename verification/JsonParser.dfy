/**
 A recursive-descent parser for JSON text (whitespace, all string escapes, last
 duplicate key wins; numbers are integers), the printer/parser round trip, and what
 follows from it: canonical text is a normal form up to object key order.
 */
module JsonParser {
  import opened Wrappers
  import opened Sequences
  import opened Text
  import opened Json

  datatype Parsed<T> = Fail | Done(value: T, rest: JsString)

  predicate IsSpace(u: CodeUnit) { u == 0x20 || u == 0x09 || u == 0x0A || u == 0x0D }

  predicate IsDigit(u: CodeUnit) { ZERO <= u <= ZERO + 9 }

  function SkipSpace(s: JsString): (r: JsString)
    ensures |r| <= |s|
  {
    if s != [] && IsSpace(s[0]) then SkipSpace(s[1..]) else s
  }

  function HexValue(u: CodeUnit): Option<nat> {
    if 0x30 <= u <= 0x39 then Some(u - 0x30)
    else if 0x61 <= u <= 0x66 then Some(u - 0x61 + 10)
    else if 0x41 <= u <= 0x46 then Some(u - 0x41 + 10)
    else None
  }

  function HexUnit(s: JsString): (u: Option<CodeUnit>)
    requires |s| == 4
  {
    var a, b, c, d := HexValue(s[0]), HexValue(s[1]), HexValue(s[2]), HexValue(s[3]);
    if a.Some? && b.Some? && c.Some? && d.Some? && a.value < 16 && b.value < 16 && c.value < 16 && d.value < 16
    then Some(a.value * 0x1000 + b.value * 0x100 + c.value * 0x10 + d.value)
    else None
  }

  function SimpleEscape(u: CodeUnit): Option<CodeUnit> {
    if u == QUOTE || u == BACKSLASH || u == 0x2F then Some(u)
    else if u == 0x62 then Some(0x08)
    else if u == 0x66 then Some(0x0C)
    else if u == 0x6E then Some(0x0A)
    else if u == 0x72 then Some(0x0D)
    else if u == 0x74 then Some(0x09)
    else None
  }

  function Prepend(u: CodeUnit, r: Parsed<JsString>): Parsed<JsString> {
    if r.Fail? then Fail else Done([u] + r.value, r.rest)
  }

  // The characters of a string up to and including its closing quote.
  function ParseChars(s: JsString): (r: Parsed<JsString>)
    ensures r.Done? ==> |r.rest| < |s|
  {
    if s == [] || s[0] < 0x20 then Fail
    else if s[0] == QUOTE then Done([], s[1..])
    else if s[0] != BACKSLASH then Prepend(s[0], ParseChars(s[1..]))
    else if |s| >= 2 && SimpleEscape(s[1]).Some? then Prepend(SimpleEscape(s[1]).value, ParseChars(s[2..]))
    else if |s| >= 6 && s[1] == LETTER_U && HexUnit(s[2..6]).Some?
        then Prepend(HexUnit(s[2..6]).value, ParseChars(s[6..]))
    else Fail
  }

  function ParseDigits(s: JsString, value: nat): (r: (nat, JsString))
    ensures |r.1| <= |s|
  {
    if s != [] && IsDigit(s[0]) then ParseDigits(s[1..], value * 10 + (s[0] - ZERO)) else (value, s)
  }

  // A fraction or exponent would make the number a non-integer.
  predicate ContinuesNumber(s: JsString) {
    s != [] && (IsDigit(s[0]) || s[0] == 0x2E || s[0] == 0x65 || s[0] == 0x45)
  }

  function ParseNat(s: JsString): (r: Parsed<nat>)
    ensures r.Done? ==> |r.rest| < |s|
  {
    if s == [] || !IsDigit(s[0]) then Fail
    else
      var (value, rest) := if s[0] == ZERO then (0, s[1..]) else ParseDigits(s[1..], s[0] - ZERO);
      if ContinuesNumber(rest) then Fail else Done(value, rest)
  }

  function Negated(n: int): Json { Num(-n) }

  function ParseNumber(s: JsString): (r: Parsed<Json>)
    ensures r.Done? ==> |r.rest| < |s|
  {
    if s != [] && s[0] == MINUS then
      var n := ParseNat(s[1..]);
      if n.Done? then Done(Negated(n.value), n.rest) else Fail
    else
      var n := ParseNat(s);
      if n.Done? then Done(Num(n.value), n.rest) else Fail
  }

  predicate StartsWith(s: JsString, word: JsString) {
    |word| <= |s| && s[..|word|] == word
  }

  // A later field with the same key replaces the value of the earlier one.
  function Assign(fields: seq<Field>, f: Field): seq<Field> {
    if fields == [] then [f]
    else if fields[0].key == f.key then [f] + fields[1..]
    else [fields[0]] + Assign(fields[1..], f)
  }

  function AssignAll(fields: seq<Field>): seq<Field> {
    if fields == [] then [] else Assign(AssignAll(fields[..|fields| - 1]), fields[|fields| - 1])
  }

  function ParseFields(text: JsString): (r: Parsed<seq<Field>>)
    ensures r.Done? ==> |r.rest| < |text|
    decreases |text|, 2
  {
    var first := ParseField(text);
    if first.Fail? then Fail
    else
      var s := SkipSpace(first.rest);
      if s != [] && s[0] == RBRACE then Done([first.value], s[1..])
      else if s != [] && s[0] == COMMA then
        var others := ParseFields(s[1..]);
        if others.Done? then Done([first.value] + others.value, others.rest) else Fail
      else Fail
  }

  // One or more values separated by commas, and the closing bracket.
  function ParseItems(text: JsString): (r: Parsed<seq<Json>>)
    ensures r.Done? ==> |r.rest| < |text|
    decreases |text|, 1
  {
    var first := ParseValue(text);
    if first.Fail? then Fail
    else
      var s := SkipSpace(first.rest);
      if s != [] && s[0] == RBRACKET then Done([first.value], s[1..])
      else if s != [] && s[0] == COMMA then
        var others := ParseItems(s[1..]);
        if others.Done? then Done([first.value] + others.value, others.rest) else Fail
      else Fail
  }

  function ParseValue(text: JsString): (r: Parsed<Json>)
    ensures r.Done? ==> |r.rest| < |text|
    decreases |text|, 0
  {
    var s := SkipSpace(text);
    if s == [] then Fail
    else if StartsWith(s, NullText()) then Done(Null, s[4..])
    else if StartsWith(s, TrueText()) then Done(Bool(true), s[4..])
    else if StartsWith(s, FalseText()) then Done(Bool(false), s[5..])
    else if s[0] == QUOTE then
      var chars := ParseChars(s[1..]);
      if chars.Done? then Done(Str(chars.value), chars.rest) else Fail
    else if s[0] == LBRACKET then
      var t := SkipSpace(s[1..]);
      if t != [] && t[0] == RBRACKET then Done(Arr([]), t[1..])
      else
        var items := ParseItems(s[1..]);
        if items.Done? then Done(Arr(items.value), items.rest) else Fail
    else if s[0] == LBRACE then
      var t := SkipSpace(s[1..]);
      if t != [] && t[0] == RBRACE then Done(Obj([]), t[1..])
      else
        var fields := ParseFields(s[1..]);
        if fields.Done? then Done(Obj(AssignAll(fields.value)), fields.rest) else Fail
    else ParseNumber(s)
  }

  function ParseField(text: JsString): (r: Parsed<Field>)
    ensures r.Done? ==> |r.rest| < |text|
    decreases |text|, 1
  {
    var s := SkipSpace(text);
    if s == [] || s[0] != QUOTE then Fail
    else
      var key := ParseChars(s[1..]);
      if key.Fail? then Fail
      else
        var t := SkipSpace(key.rest);
        if t == [] || t[0] != COLON then Fail
        else
          var value := ParseValue(t[1..]);
          if value.Done? then Done(Field(key.value, value.value), value.rest) else Fail
  }

  // `JSON.parse`.
  function Parse(text: JsString): Option<Json> {
    var r := ParseValue(text);
    if r.Done? && SkipSpace(r.rest) == [] then Some(r.value) else None
  }

  // ---- Strings round trip -----------------------------------------------------------

  lemma {:induction false} HexDigitRoundTrip(n: nat)
    requires n < 16
    ensures HexValue(HexDigit(n)) == Some(n)
  {}

  lemma {:induction false} HexRoundTrip(u: CodeUnit)
    ensures HexUnit(UnicodeEscape(u)[2..6]) == Some(u)
  {
    var three := u / 0x10;
    var two := three / 0x10;
    HexDigitRoundTrip(two / 0x10);
    HexDigitRoundTrip(two % 0x10);
    HexDigitRoundTrip(three % 0x10);
    HexDigitRoundTrip(u % 0x10);
  }

  lemma {:induction false} ParseHexEscape(u: CodeUnit, rest: JsString)
    ensures ParseChars(UnicodeEscape(u) + rest) == Prepend(u, ParseChars(rest))
  {
    hide HexUnit;
    var e := UnicodeEscape(u);
    var s := e + rest;
    assert s[6..] == rest && s[2..6] == e[2..6];
    HexRoundTrip(u);
  }

  lemma {:induction false} ParseOneEscaped(u: CodeUnit, rest: JsString)
    requires !IsSurrogate(u) || EscapeUnit(u) == UnicodeEscape(u)
    ensures ParseChars(EscapeUnit(u) + rest) == Prepend(u, ParseChars(rest))
  {
    hide HexUnit, UnicodeEscape;
    var e := EscapeUnit(u);
    if e == UnicodeEscape(u) {
      ParseHexEscape(u, rest);
    } else {
      assert (e + rest)[|e|..] == rest;
    }
  }

  lemma {:induction false} ParseRaw(u: CodeUnit, rest: JsString)
    requires u >= 0x20 && u != QUOTE && u != BACKSLASH
    ensures ParseChars([u] + rest) == Prepend(u, ParseChars(rest))
  {
    assert ([u] + rest)[1..] == rest;
  }

  lemma {:induction false} PairRoundTrip(s: JsString, rest: JsString)
    requires StartsWithPair(s) && ParseChars(Escape(s[2..]) + [QUOTE] + rest) == Done(s[2..], rest)
    ensures ParseChars(Escape(s) + [QUOTE] + rest) == Done(s, rest)
  {
    hide ParseChars, EscapeUnit;
    var tail := Escape(s[2..]) + [QUOTE] + rest;
    assert Escape(s) + [QUOTE] + rest == [s[0]] + ([s[1]] + tail);
    ParseRaw(s[1], tail);
    ParseRaw(s[0], [s[1]] + tail);
    assert s == [s[0]] + ([s[1]] + s[2..]);
  }

  lemma {:induction false} UnitRoundTrip(s: JsString, rest: JsString)
    requires s != [] && !StartsWithPair(s)
    requires ParseChars(Escape(s[1..]) + [QUOTE] + rest) == Done(s[1..], rest)
    ensures ParseChars(Escape(s) + [QUOTE] + rest) == Done(s, rest)
  {
    hide ParseChars;
    var tail := Escape(s[1..]) + [QUOTE] + rest;
    assert Escape(s) + [QUOTE] + rest == EscapeUnit(s[0]) + tail;
    ParseOneEscaped(s[0], tail);
    assert s == [s[0]] + s[1..];
  }

  lemma {:induction false} StringRoundTrip(s: JsString, rest: JsString)
    ensures ParseChars(Escape(s) + [QUOTE] + rest) == Done(s, rest)
  {
    if s == [] {
      assert Escape(s) + [QUOTE] + rest == [QUOTE] + rest;
      assert ([QUOTE] + rest)[1..] == rest;
    } else if StartsWithPair(s) {
      StringRoundTrip(s[2..], rest);
      PairRoundTrip(s, rest);
    } else {
      StringRoundTrip(s[1..], rest);
      UnitRoundTrip(s, rest);
    }
  }

  // ---- Numbers round trip --------------------------------------------------------------

  lemma {:induction false} DigitsRoundTrip(n: nat, rest: JsString)
    ensures ParseDigits(Digits(n) + rest, 0) == ParseDigits(rest, n)
  {
    if n < 10 {
      assert (Digits(n) + rest)[1..] == rest;
    } else {
      var last: JsString := [ZERO + n % 10];
      DigitsRoundTrip(n / 10, last + rest);
      assert Digits(n) + rest == Digits(n / 10) + (last + rest);
      assert (last + rest)[1..] == rest;
    }
  }

  lemma {:induction false} NatRoundTrip(n: nat, rest: JsString)
    requires !ContinuesNumber(rest)
    ensures ParseNat(Digits(n) + rest) == Done(n, rest)
  {
    var s := Digits(n) + rest;
    if n == 0 {
      assert Digits(n) == [ZERO];
      assert s[1..] == rest;
    } else {
      DigitsRoundTrip(n, rest);
      assert s[0] == Digits(n)[0] && s[0] != ZERO;
      assert ParseDigits(s, 0) == ParseDigits(s[1..], s[0] - ZERO);
    }
  }

  // ---- Values round trip ------------------------------------------------------------------

  // Canonical text never starts with whitespace.
  lemma {:induction false} PrintStart(v: Json)
    ensures Print(v) != [] && !IsSpace(Print(v)[0])
    ensures Print(v)[0] != RBRACKET && Print(v)[0] != RBRACE && Print(v)[0] != COMMA
  {
    match v
    case Num(n) => if n < 0 { assert Decimal(n)[0] == MINUS; } else { assert IsDigit(Decimal(n)[0]); }
    case _ =>
  }

  lemma {:induction false} StartsWithHead(s: JsString, word: JsString)
    requires word != []
    ensures StartsWith(s, word) ==> s != [] && s[0] == word[0]
  {
    if StartsWith(s, word) { assert s[..|word|][0] == s[0]; }
  }

  lemma {:induction false} NotWord(s: JsString)
    requires s != [] && s[0] != 0x6E && s[0] != 0x74 && s[0] != 0x66
    ensures !StartsWith(s, NullText()) && !StartsWith(s, TrueText()) && !StartsWith(s, FalseText())
  {
    StartsWithHead(s, NullText());
    StartsWithHead(s, TrueText());
    StartsWithHead(s, FalseText());
  }

  // A text that starts with a digit or a sign is read as a number.
  lemma {:induction false} NumberDispatch(s: JsString)
    requires s != [] && (IsDigit(s[0]) || s[0] == MINUS)
    ensures ParseValue(s) == ParseNumber(s)
  {
    NotWord(s);
    assert SkipSpace(s) == s;
  }

  lemma {:induction false} NaturalRoundTrip(n: nat, rest: JsString)
    requires !ContinuesNumber(rest)
    ensures ParseValue(Digits(n) + rest) == Done(Num(n), rest)
  {
    hide ParseValue, ParseNat, ParseDigits;
    NatRoundTrip(n, rest);
    assert (Digits(n) + rest)[0] == Digits(n)[0];
    NumberDispatch(Digits(n) + rest);
  }

  lemma {:induction false} Cons(u: CodeUnit, s: JsString)
    ensures ([u] + s)[0] == u && ([u] + s)[1..] == s && [u] + s != []
    ensures !IsSpace(u) ==> SkipSpace([u] + s) == [u] + s
  {}

  lemma {:induction false} NegativeRoundTrip(n: int, rest: JsString)
    requires n < 0 && !ContinuesNumber(rest)
    ensures ParseValue([MINUS] + (Digits(-n) + rest)) == Done(Num(n), rest)
  {
    hide ParseValue, ParseNat, ParseDigits, Digits;
    NatRoundTrip(-n, rest);
    Cons(MINUS, Digits(-n) + rest);
    NumberDispatch([MINUS] + (Digits(-n) + rest));
  }

  lemma {:induction false} NumberRoundTrip(n: int, rest: JsString)
    requires !ContinuesNumber(rest)
    ensures ParseValue(Decimal(n) + rest) == Done(Num(n), rest)
  {
    hide ParseValue, Digits;
    if n < 0 {
      NegativeRoundTrip(n, rest);
      assert Decimal(n) + rest == [MINUS] + (Digits(-n) + rest);
    } else {
      NaturalRoundTrip(n, rest);
    }
  }

  lemma {:induction false} Regroup<T>(a: seq<T>, b: seq<T>, c: seq<T>, d: seq<T>, e: seq<T>)
    ensures a + b + c + d + e == a + (b + (c + d + e))
  {
    Assoc(a + b, c, d);
    Assoc(a + b, c + d, e);
    Assoc(a, b, c + d + e);
  }

  lemma {:induction false} WordRoundTrip(v: Json, rest: JsString)
    requires v.Null? || v.Bool?
    ensures ParseValue(Print(v) + rest) == Done(v, rest)
  {
    var s := Print(v) + rest;
    assert SkipSpace(s) == s;
    assert s[..|Print(v)|] == Print(v) && s[|Print(v)|..] == rest;
    StartsWithHead(s, NullText());
    StartsWithHead(s, TrueText());
  }

  lemma {:induction false} TextRoundTrip(t: JsString, rest: JsString)
    ensures ParseValue(Quoted(t) + rest) == Done(Str(t), rest)
  {
    var s := Quoted(t) + rest;
    assert s == [QUOTE] + (Escape(t) + [QUOTE] + rest);
    assert s[1..] == Escape(t) + [QUOTE] + rest;
    StringRoundTrip(t, rest);
    NotWord(s);
    assert SkipSpace(s) == s;
  }

  lemma {:induction false} SingleItem(items: seq<Json>, rest: JsString)
    requires |items| == 1
    ensures items == [items[0]]
    ensures PrintItems(items) + [RBRACKET] + rest == Print(items[0]) + ([RBRACKET] + rest)
  {
    Assoc(Print(items[0]), [RBRACKET], rest);
  }

  lemma {:induction false} MultipleItems(items: seq<Json>, rest: JsString)
    requires |items| > 1
    ensures items == [items[0]] + items[1..]
    ensures PrintItems(items) + [RBRACKET] + rest
         == Print(items[0]) + ([COMMA] + (PrintItems(items[1..]) + [RBRACKET] + rest))
  {
    Regroup(Print(items[0]), [COMMA], PrintItems(items[1..]), [RBRACKET], rest);
  }

  lemma {:induction false} LastItem(text: JsString, first: Json, rest: JsString)
    requires ParseValue(text) == Done(first, [RBRACKET] + rest)
    ensures ParseItems(text) == Done([first], rest)
  {
    Cons(RBRACKET, rest);
  }

  lemma {:induction false} MoreItems(text: JsString, first: Json, others: JsString, items: seq<Json>, rest: JsString)
    requires ParseValue(text) == Done(first, [COMMA] + others) && ParseItems(others) == Done(items, rest)
    ensures ParseItems(text) == Done([first] + items, rest)
  {
    Cons(COMMA, others);
  }

  lemma {:induction false} SplitField(f: Field, rest: JsString)
    ensures PrintField(f) + rest == [QUOTE] + (Escape(f.key) + [QUOTE] + ([COLON] + (Print(f.value) + rest)))
  {}

  lemma {:induction false} OneField(chars: JsString, f: Field, body: JsString, rest: JsString)
    requires ParseChars(chars) == Done(f.key, [COLON] + body) && ParseValue(body) == Done(f.value, rest)
    ensures ParseField([QUOTE] + chars) == Done(f, rest)
  {
    Cons(QUOTE, chars);
    Cons(COLON, body);
  }

  lemma {:induction false} FieldRoundTrip(f: Field, rest: JsString)
    requires Captured(f.value) && !ContinuesNumber(rest)
    ensures ParseField(PrintField(f) + rest) == Done(f, rest)
    decreases f, 2
  {
    var body := Print(f.value) + rest;
    var chars := Escape(f.key) + [QUOTE] + ([COLON] + body);
    SplitField(f, rest);
    StringRoundTrip(f.key, [COLON] + body);
    PrintRoundTrip(f.value, rest);
    OneField(chars, f, body, rest);
  }

  lemma {:induction false} SingleField(fields: seq<Field>, rest: JsString)
    requires |fields| == 1
    ensures fields == [fields[0]]
    ensures PrintFields(fields) + [RBRACE] + rest == PrintField(fields[0]) + ([RBRACE] + rest)
  {
    Assoc(PrintField(fields[0]), [RBRACE], rest);
  }

  lemma {:induction false} MultipleFields(fields: seq<Field>, rest: JsString)
    requires |fields| > 1
    ensures fields == [fields[0]] + fields[1..]
    ensures PrintFields(fields) + [RBRACE] + rest
         == PrintField(fields[0]) + ([COMMA] + (PrintFields(fields[1..]) + [RBRACE] + rest))
  {
    Regroup(PrintField(fields[0]), [COMMA], PrintFields(fields[1..]), [RBRACE], rest);
  }

  lemma {:induction false} LastField(text: JsString, first: Field, rest: JsString)
    requires ParseField(text) == Done(first, [RBRACE] + rest)
    ensures ParseFields(text) == Done([first], rest)
  {
    Cons(RBRACE, rest);
  }

  lemma {:induction false} MoreFields(text: JsString, first: Field, others: JsString, fields: seq<Field>,
      rest: JsString)
    requires ParseField(text) == Done(first, [COMMA] + others) && ParseFields(others) == Done(fields, rest)
    ensures ParseFields(text) == Done([first] + fields, rest)
  {
    Cons(COMMA, others);
  }

  lemma {:induction false} FieldsRoundTrip(fields: seq<Field>, rest: JsString)
    requires fields != [] && forall f | f in fields :: Captured(f.value)
    ensures ParseFields(PrintFields(fields) + [RBRACE] + rest) == Done(fields, rest)
    decreases fields, 0
  {
    if |fields| == 1 {
      FieldRoundTrip(fields[0], [RBRACE] + rest);
      LastField(PrintField(fields[0]) + ([RBRACE] + rest), fields[0], rest);
      SingleField(fields, rest);
    } else {
      var others := PrintFields(fields[1..]) + [RBRACE] + rest;
      FieldRoundTrip(fields[0], [COMMA] + others);
      FieldsRoundTrip(fields[1..], rest);
      MoreFields(PrintField(fields[0]) + ([COMMA] + others), fields[0], others, fields[1..], rest);
      MultipleFields(fields, rest);
    }
  }

  lemma {:induction false} AssignNew(fields: seq<Field>, f: Field)
    requires forall g | g in fields :: g.key != f.key
    ensures Assign(fields, f) == fields + [f]
  {
    if fields != [] { AssignNew(fields[1..], f); }
  }

  lemma {:induction false} AssignDistinct(fields: seq<Field>)
    requires DistinctKeys(fields)
    ensures AssignAll(fields) == fields
  {
    if fields == [] {
    } else {
      var front, last := fields[..|fields| - 1], fields[|fields| - 1];
      AssignDistinct(front);
      AssignNew(front, last);
      assert fields == front + [last];
    }
  }

  lemma {:induction false} ReadObject(inner: JsString)
    requires inner != [] && (inner[0] == QUOTE || inner[0] == RBRACE)
    ensures inner[0] == RBRACE ==> ParseValue([LBRACE] + inner) == Done(Obj([]), inner[1..])
    ensures inner[0] == QUOTE && ParseFields(inner).Done? ==>
              ParseValue([LBRACE] + inner) == Done(Obj(AssignAll(ParseFields(inner).value)), ParseFields(inner).rest)
  {
    hide ParseFields, AssignAll;
    var s := [LBRACE] + inner;
    assert s[1..] == inner;
    NotWord(s);
    assert SkipSpace(s) == s && SkipSpace(inner) == inner;
  }

  lemma {:induction false} ObjectRoundTrip(fields: seq<Field>, rest: JsString)
    requires DistinctKeys(fields) && forall f | f in fields :: Captured(f.value)
    ensures ParseValue([LBRACE] + PrintFields(fields) + [RBRACE] + rest) == Done(Obj(fields), rest)
    decreases fields, 1
  {
    hide ParseValue, ParseFields, AssignAll;
    var inner := PrintFields(fields) + [RBRACE] + rest;
    assert [LBRACE] + PrintFields(fields) + [RBRACE] + rest == [LBRACE] + inner;
    if fields == [] {
      assert inner == [RBRACE] + rest;
      assert inner[1..] == rest;
      ReadObject(inner);
    } else {
      assert PrintField(fields[0])[0] == QUOTE && inner[0] == QUOTE;
      ReadObject(inner);
      FieldsRoundTrip(fields, rest);
      AssignDistinct(fields);
    }
  }

  // The printed value parses back, whatever follows it.
  lemma {:induction false} PrintRoundTrip(v: Json, rest: JsString)
    requires Captured(v) && !ContinuesNumber(rest)
    ensures ParseValue(Print(v) + rest) == Done(v, rest)
    decreases v, 1
  {
    match v
    case Null => WordRoundTrip(v, rest);
    case Bool(_) => WordRoundTrip(v, rest);
    case Num(n) => NumberRoundTrip(n, rest);
    case Str(t) => TextRoundTrip(t, rest);
    case Arr(items) => ArrayRoundTrip(items, rest);
    case Obj(fields) => ObjectRoundTrip(fields, rest);
  }

  lemma {:induction false} ItemsRoundTrip(items: seq<Json>, rest: JsString)
    requires items != [] && forall x | x in items :: Captured(x)
    ensures ParseItems(PrintItems(items) + [RBRACKET] + rest) == Done(items, rest)
    decreases items, 0
  {
    if |items| == 1 {
      PrintRoundTrip(items[0], [RBRACKET] + rest);
      LastItem(Print(items[0]) + ([RBRACKET] + rest), items[0], rest);
      SingleItem(items, rest);
    } else {
      var others := PrintItems(items[1..]) + [RBRACKET] + rest;
      PrintRoundTrip(items[0], [COMMA] + others);
      ItemsRoundTrip(items[1..], rest);
      MoreItems(Print(items[0]) + ([COMMA] + others), items[0], others, items[1..], rest);
      MultipleItems(items, rest);
    }
  }

  lemma {:induction false} ArrayRoundTrip(items: seq<Json>, rest: JsString)
    requires forall x | x in items :: Captured(x)
    ensures ParseValue([LBRACKET] + PrintItems(items) + [RBRACKET] + rest) == Done(Arr(items), rest)
    decreases items, 1
  {
    var inner := PrintItems(items) + [RBRACKET] + rest;
    var s := [LBRACKET] + PrintItems(items) + [RBRACKET] + rest;
    assert s == [LBRACKET] + inner;
    assert s[1..] == inner;
    NotWord(s);
    assert SkipSpace(s) == s;
    if items == [] {
      assert inner == [RBRACKET] + rest;
      assert inner[1..] == rest;
    } else {
      PrintStart(items[0]);
      assert inner[0] == Print(items[0])[0];
      assert SkipSpace(inner) == inner;
      ItemsRoundTrip(items, rest);
    }
  }

  // ---- Repeated keys --------------------------------------------------------------------

  lemma {:induction false} AssignMeans(fields: seq<Field>, f: Field, key: JsString)
    ensures Lookup(Assign(fields, f), key) == if key == f.key then Some(f.value) else Lookup(fields, key)
    ensures forall g | g in Assign(fields, f) :: g == f || g in fields
  {
    if fields == [] || fields[0].key == f.key {
      assert ([f] + if fields == [] then [] else fields[1..])[1..] == if fields == [] then [] else fields[1..];
    } else {
      AssignMeans(fields[1..], f, key);
      assert fields == [fields[0]] + fields[1..];
    }
  }

  lemma {:induction false} AssignOnce(fields: seq<Field>, f: Field)
    requires DistinctKeys(fields)
    ensures DistinctKeys(Assign(fields, f))
  {
    if fields == [] {
    } else if fields[0].key == f.key {
      assert forall i | 0 < i < |fields| :: fields[i].key != f.key;
    } else {
      var rest := fields[1..];
      forall i, j | 0 <= i < j < |rest| ensures rest[i].key != rest[j].key {
        assert rest[i] == fields[i + 1] && rest[j] == fields[j + 1];
      }
      AssignOnce(rest, f);
      AssignMeans(rest, f, f.key);
      var r := Assign(rest, f);
      forall j | 0 <= j < |r| ensures r[j].key != fields[0].key {
        assert r[j] in r;
        if r[j] != f {
          var i :| 0 <= i < |rest| && rest[i] == r[j];
          assert fields[i + 1] == r[j];
        }
      }
    }
  }

  // Each key keeps one field, and of repeated ones the last.
  lemma {:induction false} AssignAllMeans(fields: seq<Field>, i: nat)
    ensures DistinctKeys(AssignAll(fields))
    ensures i < |fields| && (forall j | i < j < |fields| :: fields[j].key != fields[i].key) ==>
              Lookup(AssignAll(fields), fields[i].key) == Some(fields[i].value)
  {
    if fields == [] {
    } else {
      var front, last := fields[..|fields| - 1], fields[|fields| - 1];
      AssignAllMeans(front, i);
      AssignOnce(AssignAll(front), last);
      if i < |fields| {
        AssignMeans(AssignAll(front), last, fields[i].key);
      }
    }
  }

  lemma {:induction false} NothingRepeats()
    ensures DistinctKeys([])
  {}

  lemma {:induction false} NumbersOnly(s: JsString)
    ensures ParseNumber(s).Done? ==> ParseNumber(s).value.Num?
  {}

  // A parsed object has each key once.
  lemma {:induction false} ParsedDistinct(text: JsString)
    ensures Parse(text).Some? && Parse(text).value.Obj? ==> DistinctKeys(Parse(text).value.fields)
  {
    hide DistinctKeys, ParseFields, ParseItems, ParseChars, ParseNumber, AssignAll, NullText, TrueText, FalseText;
    NothingRepeats();
    var s := SkipSpace(text);
    if s != [] && s[0] == LBRACE {
      var fields := ParseFields(s[1..]);
      if fields.Done? {
        AssignAllMeans(fields.value, 0);
      }
    }
    NumbersOnly(s);
  }

  // ---- Whitespace around a value ----------------------------------------------------------

  // Blank, tab, line feed and carriage return.
  ghost predicate Blank(s: JsString) {
    forall u | u in s :: u == ' ' as int || u == '\t' as int || u == '\n' as int || u == '\r' as int
  }

  lemma {:induction false} BlankSkipped(s: JsString, rest: JsString)
    requires Blank(s) && (rest != [] ==> !IsSpace(rest[0]))
    ensures SkipSpace(s + rest) == rest
  {
    if s == [] {
      assert s + rest == rest;
    } else {
      assert s[0] in s;
      assert forall u | u in s[1..] :: u in s;
      BlankSkipped(s[1..], rest);
      assert (s + rest)[1..] == s[1..] + rest;
    }
  }

  lemma {:induction false} BlankEnds(s: JsString)
    requires Blank(s)
    ensures !ContinuesNumber(s)
  {
    if s != [] { assert s[0] in s; }
  }

  lemma {:induction false} LeadingSpace(s: JsString, t: JsString)
    requires SkipSpace(s) == SkipSpace(t)
    ensures ParseValue(s) == ParseValue(t)
  {
    hide ParseChars, ParseItems, ParseFields, ParseNumber, AssignAll, NullText, TrueText, FalseText;
  }

  // Whitespace around a value's text does not matter.
  lemma {:induction false} BlanksIgnored(before: JsString, v: Json, after: JsString)
    requires Captured(v) && Blank(before) && Blank(after)
    ensures Parse(before + Print(v) + after) == Some(v)
  {
    hide Print, Captured, SkipSpace, ParseValue;
    var text := Print(v) + after;
    PrintStart(v);
    BlankEnds(after);
    PrintRoundTrip(v, after);
    BlankSkipped(before, text);
    BlankSkipped([], text);
    assert [] + text == text && before + Print(v) + after == before + text;
    LeadingSpace(before + text, text);
    BlankSkipped(after, []);
    assert after + [] == after;
  }
}
