/**
 Canonical text is exact: it parses back to the key-ordered value, two values have the
 same text iff they are equal up to object key order, and it contains no control
 characters (so a canonical record is a single line).
 */
module CanonicalForm {
  import opened Wrappers
  import opened Sequences
  import opened Text
  import opened Json
  import opened JsonParser

  // `cloneJson`: parse what was printed.
  function Clone(v: Json): Option<Json> {
    Parse(Serialize(v))
  }

  // ---- The key-ordered value ------------------------------------------------------

  lemma {:induction false} CanonFields(fields: seq<Field>)
    ensures Canon(Obj(fields)).Obj?
    ensures var s, t := Sort(fields, FieldLeq), Canon(Obj(fields)).fields;
            |s| == |t| == |fields| && forall i | 0 <= i < |s| :: t[i].key == s[i].key && t[i].value == Canon(s[i].value)
  {}

  lemma {:induction false} CanonCaptured(v: Json)
    requires Captured(v)
    ensures Captured(Canon(v))
    decreases v
  {
    match v
    case Arr(items) =>
      forall x | x in Canon(v).items ensures Captured(x) {
        var i :| 0 <= i < |items| && Canon(v).items[i] == x;
        CanonCaptured(items[i]);
      }
    case Obj(fields) =>
      var s := Sort(fields, FieldLeq);
      CanonFields(fields);
      SortKeepsDistinct(fields);
      SortMembers(fields, FieldLeq);
      forall f | f in Canon(v).fields ensures Captured(f.value) {
        var i :| 0 <= i < |s| && Canon(v).fields[i] == f;
        assert s[i] in fields;
        CanonCaptured(s[i].value);
      }
    case _ =>
  }

  // Parsing the canonical text of a captured value gives the value in key order.
  lemma {:induction false} CanonicalRoundTrip(v: Json)
    requires Captured(v)
    ensures Parse(Serialize(v)) == Some(Canon(v))
  {
    SerializeIsPrintCanon(v);
    CanonCaptured(v);
    PrintRoundTrip(Canon(v), []);
    assert Print(Canon(v)) + [] == Print(Canon(v));
  }

  // Keys look up the same values, in canonical order themselves.
  lemma {:induction false} CanonLookup(fields: seq<Field>, key: JsString)
    requires DistinctKeys(fields)
    ensures Lookup(Canon(Obj(fields)).fields, key) ==
            match Lookup(fields, key) case None => None case Some(v) => Some(Canon(v))
  {
    var s, t := Sort(fields, FieldLeq), Canon(Obj(fields)).fields;
    CanonFields(fields);
    SortMembers(fields, FieldLeq);
    SortKeepsDistinct(fields);
    LookupFinds(fields, key);
    LookupFinds(t, key);
    if Lookup(fields, key).Some? {
      var f := Field(key, Lookup(fields, key).value);
      assert f in s;
      var i :| 0 <= i < |s| && s[i] == f;
      assert t[i] in t && t[i].key == key;
      assert DistinctKeys(t);
    } else {
      forall f | f in t ensures f.key != key {
        var i :| 0 <= i < |t| && t[i] == f;
        assert s[i] in fields;
      }
    }
  }

  // ---- Equality up to key order -------------------------------------------------------

  ghost predicate Same(v: Json, w: Json)
    decreases v
  {
    match v
    case Arr(items) =>
      w.Arr? && |items| == |w.items| && forall i | 0 <= i < |items| :: Same(items[i], w.items[i])
    case Obj(fields) =>
      && w.Obj?
      && (forall f | f in fields :: exists g :: g in w.fields && g.key == f.key && Same(f.value, g.value))
      && (forall g | g in w.fields :: exists f :: f in fields && f.key == g.key)
    case _ => v == w
  }

  ghost predicate Matches(fields: seq<Field>, others: seq<Field>) {
    && (forall f | f in fields :: exists g :: g in others && g.key == f.key && Canon(f.value) == Canon(g.value))
    && (forall g | g in others :: exists f :: f in fields && f.key == g.key)
  }

  lemma {:induction false} MatchedKeys(fields: seq<Field>, others: seq<Field>)
    requires Matches(fields, others)
    ensures forall f | f in fields :: exists g :: g in others && g.key == f.key
    ensures forall g | g in others :: exists f :: f in fields && f.key == g.key
  {
    hide Canon;
    forall f | f in fields ensures exists g :: g in others && g.key == f.key {
      var g :| g in others && g.key == f.key && Canon(f.value) == Canon(g.value);
    }
  }

  lemma {:induction false} PartnerValue(fields: seq<Field>, others: seq<Field>, f: Field, g: Field)
    requires DistinctKeys(others) && Matches(fields, others)
    requires f in fields && g in others && f.key == g.key
    ensures Canon(f.value) == Canon(g.value)
  {
    DistinctKeysMeans(others);
    var h :| h in others && h.key == f.key && Canon(f.value) == Canon(h.value);
  }

  datatype Key = Key(text: JsString)

  function Keys(fields: seq<Field>): (ks: seq<Key>)
    ensures |ks| == |fields| && forall i | 0 <= i < |fields| :: ks[i] == Key(fields[i].key)
  {
    seq(|fields|, i requires 0 <= i < |fields| => Key(fields[i].key))
  }

  lemma {:induction false} PartnerAt(fields: seq<Field>, others: seq<Field>, i: nat)
    requires DistinctKeys(others) && Matches(fields, others)
    requires Keys(Sort(fields, FieldLeq)) == Keys(Sort(others, FieldLeq))
    requires i < |Sort(fields, FieldLeq)| && i < |Sort(others, FieldLeq)|
    ensures var f, g := Sort(fields, FieldLeq)[i], Sort(others, FieldLeq)[i];
            f.key == g.key && Canon(f.value) == Canon(g.value)
  {
    var s, t := Sort(fields, FieldLeq), Sort(others, FieldLeq);
    assert Keys(s)[i] == Keys(t)[i];
    SortMembers(fields, FieldLeq);
    SortMembers(others, FieldLeq);
    assert s[i] in s && t[i] in t;
    PartnerValue(fields, others, s[i], t[i]);
  }

  predicate KeyLeq(a: Key, b: Key) { TextLeq(a.text, b.text) }

  lemma {:induction false} SortedKeys(fields: seq<Field>)
    requires DistinctKeys(fields)
    ensures NoDup(Keys(Sort(fields, FieldLeq))) && Sorted(KeyLeq, Keys(Sort(fields, FieldLeq)))
  {
    FieldOrder(fields);
    SortSorted(fields, FieldLeq);
    SortKeepsDistinct(fields);
  }

  lemma {:induction false} KeyMember(fields: seq<Field>, k: Key)
    ensures k in Keys(Sort(fields, FieldLeq)) <==> exists f :: f in fields && f.key == k.text
  {
    var s := Sort(fields, FieldLeq);
    SortMembers(fields, FieldLeq);
    if k in Keys(s) {
      var i :| 0 <= i < |s| && Keys(s)[i] == k;
      assert s[i] in fields && s[i].key == k.text;
    }
    if exists f :: f in fields && f.key == k.text {
      var f :| f in fields && f.key == k.text;
      assert f in s;
      var i :| 0 <= i < |s| && s[i] == f;
      assert Keys(s)[i] == k;
    }
  }

  lemma {:induction false} SameKeys(fields: seq<Field>, others: seq<Field>, k: Key)
    requires Matches(fields, others)
    ensures k in Keys(Sort(fields, FieldLeq)) <==> k in Keys(Sort(others, FieldLeq))
  {
    hide Matches, Keys, Sort;
    MatchedKeys(fields, others);
    KeyMember(fields, k);
    KeyMember(others, k);
  }

  // Objects with the same keys list them in the same order once sorted.
  lemma {:induction false} SortedKeysAgree(fields: seq<Field>, others: seq<Field>)
    requires DistinctKeys(fields) && DistinctKeys(others) && Matches(fields, others)
    ensures Keys(Sort(fields, FieldLeq)) == Keys(Sort(others, FieldLeq))
  {
    hide Matches, DistinctKeys, Sort, Keys;
    var ks, ls := Keys(Sort(fields, FieldLeq)), Keys(Sort(others, FieldLeq));
    SortedKeys(fields);
    SortedKeys(others);
    forall k ensures k in ks <==> k in ls {
      SameKeys(fields, others, k);
    }
    NoDupMultiset(ks);
    NoDupMultiset(ls);
    assert Elems(ks) == Elems(ls);
    forall a, b | KeyLeq(a, b) && KeyLeq(b, a) ensures a == b { CompareIsTotalOrder(a.text, b.text, a.text); }
    SortedUnique(ks, ls, KeyLeq);
  }

  lemma {:induction false} SameObjects(fields: seq<Field>, others: seq<Field>)
    requires DistinctKeys(fields) && DistinctKeys(others) && Matches(fields, others)
    ensures Canon(Obj(fields)) == Canon(Obj(others))
  {
    hide Canon, Sort, DistinctKeys, Matches;
    SortedKeysAgree(fields, others);
    CanonFields(fields);
    CanonFields(others);
    var a, b := Canon(Obj(fields)).fields, Canon(Obj(others)).fields;
    assert |Keys(Sort(fields, FieldLeq))| == |a| && |Keys(Sort(others, FieldLeq))| == |b|;
    forall i: nat | i < |a| ensures a[i] == b[i] {
      PartnerAt(fields, others, i);
    }
    assert a == b;
  }

  lemma {:induction false} HalfMatch(fields: seq<Field>, others: seq<Field>)
    requires Canon(Obj(fields)) == Canon(Obj(others))
    ensures forall f | f in fields :: exists g :: g in others && g.key == f.key && Canon(f.value) == Canon(g.value)
  {
    var s, t := Sort(fields, FieldLeq), Sort(others, FieldLeq);
    CanonFields(fields);
    CanonFields(others);
    SortMembers(fields, FieldLeq);
    SortMembers(others, FieldLeq);
    forall f | f in fields ensures exists g :: g in others && g.key == f.key && Canon(f.value) == Canon(g.value) {
      assert f in s;
      var i :| 0 <= i < |s| && s[i] == f;
      assert Canon(Obj(fields)).fields[i] == Canon(Obj(others)).fields[i];
      assert t[i] in others;
    }
  }

  lemma {:induction false} CanonObjects(fields: seq<Field>, others: seq<Field>)
    requires Canon(Obj(fields)) == Canon(Obj(others))
    ensures Matches(fields, others)
  {
    HalfMatch(fields, others);
    HalfMatch(others, fields);
  }

  // Equal up to key order iff the key-ordered values coincide.
  lemma {:induction false} SameIffCanon(v: Json, w: Json)
    requires Captured(v) && Captured(w)
    ensures Same(v, w) <==> Canon(v) == Canon(w)
    decreases v
  {
    match v
    case Arr(items) =>
      if w.Arr? && |items| == |w.items| {
        forall i | 0 <= i < |items| ensures Same(items[i], w.items[i]) <==> Canon(items[i]) == Canon(w.items[i]) {
          SameIffCanon(items[i], w.items[i]);
        }
        if Canon(v) == Canon(w) {
          forall i | 0 <= i < |items| ensures Canon(items[i]) == Canon(w.items[i]) {
            assert Canon(v).items[i] == Canon(items[i]) && Canon(w).items[i] == Canon(w.items[i]);
          }
        }
      } else if w.Arr? {
        assert |Canon(v).items| == |items|;
      }
    case Obj(fields) =>
      if w.Obj? {
        forall f, g | f in fields && g in w.fields
            ensures Same(f.value, g.value) <==> Canon(f.value) == Canon(g.value) {
          SameIffCanon(f.value, g.value);
        }
        if Same(v, w) { SameObjects(fields, w.fields); }
        if Canon(v) == Canon(w) { CanonObjects(fields, w.fields); }
      }
    case _ =>
  }

  // The canonical text is a complete invariant of the value up to object key order.
  lemma {:induction false} SameTextIffSame(v: Json, w: Json)
    requires Captured(v) && Captured(w)
    ensures Serialize(v) == Serialize(w) <==> Same(v, w)
  {
    SameIffCanon(v, w);
    CanonicalRoundTrip(v);
    CanonicalRoundTrip(w);
    SerializeIsPrintCanon(v);
    SerializeIsPrintCanon(w);
  }

  lemma {:induction false} SortOfSorted(fields: seq<Field>)
    requires DistinctKeys(fields) && Sorted(FieldLeq, fields)
    ensures Sort(fields, FieldLeq) == fields
  {
    FieldOrder(fields);
    SortSorted(fields, FieldLeq);
    SortMembers(fields, FieldLeq);
    SortedUnique(Sort(fields, FieldLeq), fields, FieldLeq);
  }

  lemma {:induction false} CanonIdempotent(v: Json)
    requires Captured(v)
    ensures Canon(Canon(v)) == Canon(v)
    decreases v
  {
    match v
    case Arr(items) =>
      forall i | 0 <= i < |items| ensures Canon(Canon(items[i])) == Canon(items[i]) { CanonIdempotent(items[i]); }
      assert Canon(Canon(v)).items == Canon(v).items;
    case Obj(fields) =>
      var s, t := Sort(fields, FieldLeq), Canon(v).fields;
      CanonFields(fields);
      SortMembers(fields, FieldLeq);
      SortKeepsDistinct(fields);
      forall i | 0 <= i < |s| ensures Canon(t[i].value) == t[i].value {
        assert s[i] in fields;
        CanonIdempotent(s[i].value);
      }
      FieldOrder(fields);
      SortSorted(fields, FieldLeq);
      SortOfSorted(t);
      CanonFields(t);
      assert Canon(Canon(v)).fields == t;
    case _ =>
  }

  lemma {:induction false} CloneIsStable(v: Json)
    requires Captured(v)
    ensures Canon(Canon(v)) == Canon(v)
    ensures Serialize(Canon(v)) == Serialize(v)
    ensures Clone(v) == Some(Canon(v)) && Clone(Canon(v)) == Some(Canon(v))
  {
    CanonIdempotent(v);
    CanonCaptured(v);
    SerializeIsPrintCanon(v);
    SerializeIsPrintCanon(Canon(v));
    CanonicalRoundTrip(v);
    CanonicalRoundTrip(Canon(v));
  }

  // ---- Canonical text holds no control characters -----------------------------------------

  ghost predicate Printable(s: JsString) {
    forall i | 0 <= i < |s| :: s[i] >= 0x20
  }

  lemma {:induction false} PrintableJoin(a: JsString, b: JsString)
    requires Printable(a) && Printable(b)
    ensures Printable(a + b)
  {}

  lemma {:induction false} EscapePrintable(s: JsString)
    ensures Printable(Escape(s))
  {
    if s == [] {
    } else if StartsWithPair(s) {
      EscapePrintable(s[2..]);
      PrintableJoin(s[..2], Escape(s[2..]));
    } else {
      EscapePrintable(s[1..]);
      PrintableJoin(EscapeUnit(s[0]), Escape(s[1..]));
    }
  }

  lemma {:induction false} QuotedPrintable(s: JsString)
    ensures Printable(Quoted(s))
  {
    EscapePrintable(s);
  }

  lemma {:induction false} FieldsPrintable(fields: seq<Field>)
    ensures Printable(PrintFields(fields))
    decreases fields, 0
  {
    if fields == [] {
    } else {
      QuotedPrintable(fields[0].key);
      PrintPrintable(fields[0].value);
      FieldsPrintable(fields[1..]);
    }
  }

  lemma {:induction false} PrintPrintable(v: Json)
    ensures Printable(Print(v))
    decreases v, 1
  {
    match v
    case Str(s) => QuotedPrintable(s);
    case Arr(items) => ItemsPrintable(items);
    case Obj(fields) => FieldsPrintable(fields);
    case _ =>
  }

  lemma {:induction false} ItemsPrintable(items: seq<Json>)
    ensures Printable(PrintItems(items))
    decreases items, 0
  {
    if items == [] {
    } else {
      PrintPrintable(items[0]);
      ItemsPrintable(items[1..]);
    }
  }

  lemma {:induction false} SerializePrintable(v: Json)
    ensures Printable(Serialize(v)) && Serialize(v) != []
  {
    SerializeIsPrintCanon(v);
    PrintPrintable(Canon(v));
    PrintStart(Canon(v));
  }
}
