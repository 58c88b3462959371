/**
 Checkpoint records: the canonical text of an envelope with the hash of its body, and the
 strict decoding of such a text. The digest and the date check are the caller's.
 */
module Checkpoints {
  import opened Wrappers
  import opened Sequences
  import opened Text
  import opened Json
  import opened JsonParser
  import opened CanonicalForm
  import opened EventStreams

  // SHA-256 in hexadecimal, and the strict calendar check.
  type Digest = JsString -> JsString
  type Calendar = JsString -> bool

  datatype Checkpoint = Checkpoint(runId: JsString, id: JsString, sequence: int, createdAt: JsString, state: Json)

  function ApiVersionKey(): JsString { Ascii("apiVersion") }
  function RunIdKey(): JsString { Ascii("runId") }
  function CheckpointIdKey(): JsString { Ascii("checkpointId") }
  function SequenceKey(): JsString { Ascii("sequence") }
  function CreatedAtKey(): JsString { Ascii("createdAt") }
  function StateKey(): JsString { Ascii("state") }
  function ContentHashKey(): JsString { Ascii("contentHash") }

  function ApiVersion(): JsString {
    Ascii("graphengineering.") + Ascii("reacher-z.") + Ascii("github.io/") + Ascii("checkpoints/") + Ascii("v1alpha1")
  }

  // `bodyOf`.
  function BodyFields(c: Checkpoint): seq<Field> {
    [Field(ApiVersionKey(), Str(ApiVersion())), Field(RunIdKey(), Str(c.runId)), Field(CheckpointIdKey(), Str(c.id)),
     Field(SequenceKey(), Num(c.sequence)), Field(CreatedAtKey(), Str(c.createdAt)), Field(StateKey(), c.state)]
  }

  function ContentHash(digest: Digest, c: Checkpoint): JsString {
    digest(Serialize(Obj(BodyFields(c))))
  }

  function StoredFields(digest: Digest, c: Checkpoint): seq<Field> {
    BodyFields(c) + [Field(ContentHashKey(), Str(ContentHash(digest, c)))]
  }

  // What `save` writes.
  function Encode(digest: Digest, c: Checkpoint): JsString {
    Serialize(Obj(StoredFields(digest, c))) + [NEWLINE]
  }

  predicate KnownKey(key: JsString) {
    || key == ApiVersionKey() || key == RunIdKey() || key == CheckpointIdKey() || key == SequenceKey()
    || key == CreatedAtKey() || key == StateKey() || key == ContentHashKey()
  }

  function TextField(fields: seq<Field>, key: JsString): Option<JsString> {
    match Lookup(fields, key)
    case Some(Str(s)) => Some(s)
    case _ => None
  }

  function SequenceField(fields: seq<Field>): Option<int> {
    match Lookup(fields, SequenceKey())
    case Some(Num(n)) => if 0 <= n <= MAX_SAFE then Some(n) else None
    case _ => None
  }

  // The envelope of a parsed record, or None where it does not have the shape.
  function Envelope(fields: seq<Field>): Option<Checkpoint> {
    var runId, id, sequence := TextField(fields, RunIdKey()), TextField(fields, CheckpointIdKey()),
        SequenceField(fields);
    var createdAt, state := TextField(fields, CreatedAtKey()), Lookup(fields, StateKey());
    if (forall f | f in fields :: KnownKey(f.key)) && TextField(fields, ApiVersionKey()) == Some(ApiVersion())
       && runId.Some? && id.Some? && sequence.Some? && createdAt.Some? && state.Some?
    then Some(Checkpoint(runId.value, id.value, sequence.value, createdAt.value, state.value))
    else None
  }

  // `#parse`: strict decoding of a record's text; None stands for a corrupt checkpoint.
  function ParseRecord(digest: Digest, calendar: Calendar, text: JsString, run: JsString, expected: Option<JsString>,
                             source: JsString): Option<Checkpoint>
  {
    if text == [] || text[|text| - 1] != NEWLINE then None
    else
      match Parse(text[..|text| - 1])
      case Some(Obj(fields)) =>
        var c := Envelope(fields);
        if c.Some? && calendar(c.value.createdAt) && SafeIdentifier(c.value.runId) && SafeIdentifier(c.value.id)
           && c.value.runId == run && (expected.Some? ==> c.value.id == expected.value)
           && digest(c.value.id) == source && Captured(c.value.state)
           && TextField(fields, ContentHashKey()) == Some(ContentHash(digest, c.value))
        then c else None
      case _ => None
  }

  // A checkpoint as `save` stores it.
  predicate Storable(calendar: Calendar, c: Checkpoint) {
    && SafeIdentifier(c.runId) && SafeIdentifier(c.id) && 0 <= c.sequence <= MAX_SAFE && calendar(c.createdAt)
    && Captured(c.state) && Canon(c.state) == c.state
  }

  lemma {:induction false} KeyLengths()
    ensures |ApiVersionKey()| == 10 && |RunIdKey()| == 5 && |CheckpointIdKey()| == 12 && |SequenceKey()| == 8
    ensures |CreatedAtKey()| == 9 && |StateKey()| == 5 && |ContentHashKey()| == 11
    ensures RunIdKey()[0] != StateKey()[0]
  {}

  lemma {:induction false} StoredDistinct(digest: Digest, c: Checkpoint)
    ensures DistinctKeys(StoredFields(digest, c))
  {
    hide ApiVersionKey, RunIdKey, CheckpointIdKey, SequenceKey, CreatedAtKey, StateKey, ContentHashKey, ContentHash,
        ApiVersion;
    KeyLengths();
  }

  lemma {:induction false} StoredCaptured(digest: Digest, calendar: Calendar, c: Checkpoint)
    requires Storable(calendar, c)
    ensures Captured(Obj(StoredFields(digest, c)))
  {
    hide SafeIdentifier, Canon, Serialize;
    StoredDistinct(digest, c);
  }

  // The parsed fields, looked up by key, are the stored ones.
  lemma {:induction false} ParsedLookup(digest: Digest, calendar: Calendar, c: Checkpoint, key: JsString)
    requires Storable(calendar, c)
    ensures Lookup(Canon(Obj(StoredFields(digest, c))).fields, key) ==
            match Lookup(StoredFields(digest, c), key) case None => None case Some(v) => Some(Canon(v))
  {
    StoredDistinct(digest, c);
    CanonLookup(StoredFields(digest, c), key);
  }

  lemma {:induction false} StoredLookups(digest: Digest, c: Checkpoint)
    ensures var fields := StoredFields(digest, c);
            && Lookup(fields, ApiVersionKey()) == Some(Str(ApiVersion()))
                && Lookup(fields, RunIdKey()) == Some(Str(c.runId))
            && Lookup(fields, CheckpointIdKey()) == Some(Str(c.id))
                && Lookup(fields, SequenceKey()) == Some(Num(c.sequence))
            && Lookup(fields, CreatedAtKey()) == Some(Str(c.createdAt)) && Lookup(fields, StateKey()) == Some(c.state)
            && Lookup(fields, ContentHashKey()) == Some(Str(ContentHash(digest, c)))
  {
    hide Lookup, ContentHash, ApiVersion, ApiVersionKey, RunIdKey, CheckpointIdKey, SequenceKey, CreatedAtKey, StateKey,
        ContentHashKey;
    var fields := StoredFields(digest, c);
    StoredDistinct(digest, c);
    forall i | 0 <= i < |fields| ensures Lookup(fields, fields[i].key) == Some(fields[i].value) {
      LookupFinds(fields, fields[i].key);
      assert fields[i] in fields;
    }
    assert fields[0].key == ApiVersionKey() && fields[1].key == RunIdKey() && fields[2].key == CheckpointIdKey();
    assert fields[3].key == SequenceKey() && fields[4].key == CreatedAtKey() && fields[5].key == StateKey();
    assert fields[6].key == ContentHashKey();
  }

  lemma {:induction false} StoredKnown(digest: Digest, c: Checkpoint)
    ensures forall f | f in StoredFields(digest, c) :: KnownKey(f.key)
  {
    hide ApiVersionKey, RunIdKey, CheckpointIdKey, SequenceKey, CreatedAtKey, StateKey, ContentHashKey, ContentHash,
        ApiVersion;
  }

  lemma {:induction false} ParsedKeys(digest: Digest, c: Checkpoint)
    ensures forall f | f in Canon(Obj(StoredFields(digest, c))).fields :: KnownKey(f.key)
  {
    hide StoredFields, KnownKey, Canon, Sort;
    var fields := StoredFields(digest, c);
    StoredKnown(digest, c);
    CanonFields(fields);
    SortMembers(fields, FieldLeq);
    var sorted, parsed := Sort(fields, FieldLeq), Canon(Obj(fields)).fields;
    forall i | 0 <= i < |parsed| ensures KnownKey(parsed[i].key) {
      assert sorted[i] in fields;
    }
  }

  lemma {:induction false} ParsedEnvelope(digest: Digest, calendar: Calendar, c: Checkpoint)
    requires Storable(calendar, c)
    ensures var fields := Canon(Obj(StoredFields(digest, c))).fields;
            Envelope(fields) == Some(c) && TextField(fields, ContentHashKey()) == Some(ContentHash(digest, c))
  {
    hide Lookup, SafeIdentifier, Captured, ContentHash, StoredFields;
    ParsedKeys(digest, c);
    StoredLookups(digest, c);
    ParsedLookup(digest, calendar, c, ApiVersionKey());
    ParsedLookup(digest, calendar, c, RunIdKey());
    ParsedLookup(digest, calendar, c, CheckpointIdKey());
    ParsedLookup(digest, calendar, c, SequenceKey());
    ParsedLookup(digest, calendar, c, CreatedAtKey());
    ParsedLookup(digest, calendar, c, StateKey());
    ParsedLookup(digest, calendar, c, ContentHashKey());
  }

  // A stored checkpoint is read back as it was, its hash verified.
  lemma {:induction false} RecordRoundTrip(digest: Digest, calendar: Calendar, c: Checkpoint,
      expected: Option<JsString>)
    requires Storable(calendar, c) && (expected.Some? ==> expected.value == c.id)
    ensures ParseRecord(digest, calendar, Encode(digest, c), c.runId, expected, digest(c.id)) == Some(c)
  {
    hide Lookup, SafeIdentifier, Canon, Serialize, Envelope, StoredFields, Parse;
    var text, value := Encode(digest, c), Obj(StoredFields(digest, c));
    assert text[..|text| - 1] == Serialize(value);
    StoredCaptured(digest, calendar, c);
    CanonicalRoundTrip(value);
    CanonFields(StoredFields(digest, c));
    ParsedEnvelope(digest, calendar, c);
  }

  // No proper prefix of a record is accepted as one.
  lemma {:induction false} TruncatedRejected(digest: Digest, calendar: Calendar, c: Checkpoint, k: nat, run: JsString,
                          expected: Option<JsString>, source: JsString)
    requires k < |Encode(digest, c)|
    ensures ParseRecord(digest, calendar, Encode(digest, c)[..k], run, expected, source) == None
  {
    hide Serialize, Envelope, StoredFields, Parse, SafeIdentifier;
    var text := Encode(digest, c);
    SerializePrintable(Obj(StoredFields(digest, c)));
    assert forall i | 0 <= i < |text| - 1 :: text[i] >= 0x20;
    assert k > 0 ==> text[..k][k - 1] == text[k - 1];
  }
}
