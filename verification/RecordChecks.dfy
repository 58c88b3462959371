/**
 What a checkpoint record must say to be loaded, in terms of the fields of its text alone: the
 known fields, their values, and a hash that fits everything but the hash itself.
 */
module RecordChecks {
  import opened Wrappers
  import opened Sequences
  import opened Text
  import opened Json
  import opened JsonParser
  import opened CanonicalForm
  import opened EventStreams
  import opened EventLogs
  import opened Checkpoints
  import opened CheckpointStore

  // ---- The fields of a record --------------------------------------------------------

  // The other fields of a record, in any order.
  ghost predicate IsBody(fields: seq<Field>, body: seq<Field>) {
    DistinctKeys(body) && forall f :: f in body <==> f in fields && f.key != Ascii("contentHash")
  }

  // The hash field is the digest of the canonical text of the other fields.
  ghost predicate HashFits(digest: Digest, fields: seq<Field>) {
    && (exists f :: f in fields && f.key == Ascii("contentHash") && f.value.Str?)
    && forall f, body | f in fields && f.key == Ascii("contentHash") && f.value.Str? && IsBody(fields, body) ::
         f.value.s == digest(Serialize(Obj(body)))
  }

  // The text that names this version of the format.
  ghost predicate IsVersion(v: JsString) {
    v == Ascii("graphengineering.") + Ascii("reacher-z.") + Ascii("github.io/") + Ascii("checkpoints/")
       + Ascii("v1alpha1")
  }

  // No field but these.
  ghost predicate OnlyKnown(fields: seq<Field>, c: Checkpoint) {
    forall f | f in fields ::
      || (f.key == Ascii("apiVersion") && f.value.Str? && IsVersion(f.value.s))
      || f == Field(Ascii("runId"), Str(c.runId)) || f == Field(Ascii("checkpointId"), Str(c.id))
      || f == Field(Ascii("sequence"), Num(c.sequence)) || f == Field(Ascii("createdAt"), Str(c.createdAt))
      || f == Field(Ascii("state"), c.state) || f.key == Ascii("contentHash")
  }

  ghost predicate Keyed(fields: seq<Field>, key: JsString) {
    exists f :: f in fields && f.key == key
  }

  // The fields are those of the checkpoint in this version of the format.
  ghost predicate IsEnvelope(fields: seq<Field>, c: Checkpoint) {
    && OnlyKnown(fields, c) && Keyed(fields, Ascii("apiVersion")) && Keyed(fields, Ascii("runId"))
    && Keyed(fields, Ascii("checkpointId")) && Keyed(fields, Ascii("sequence"))
    && Keyed(fields, Ascii("createdAt")) && Keyed(fields, Ascii("state"))
  }

  // What the loader checks of a record's fields.
  ghost predicate Loads(digest: Digest, calendar: Calendar, run: JsString, expected: Option<JsString>, source: JsString,
      fields: seq<Field>, c: Checkpoint) {
    && IsEnvelope(fields, c) && HashFits(digest, fields)
    && 0 <= c.sequence <= 9007199254740991 && calendar(c.createdAt) && Captured(c.state)
    && SafeIdentifier(c.runId) && SafeIdentifier(c.id)
    && c.runId == run && (expected.Some? ==> c.id == expected.value) && digest(c.id) == source
  }

  // ---- Parsed objects ---------------------------------------------------------------------

  lemma {:induction false} TextFieldExact(fields: seq<Field>, key: JsString, s: JsString)
    requires DistinctKeys(fields)
    ensures TextField(fields, key) == Some(s) <==> Field(key, Str(s)) in fields
  {
    hide DistinctKeys, Lookup;
    LookupFinds(fields, key);
    if Field(key, Str(s)) in fields {
      assert Field(key, Str(s)).key == key;
    }
  }

  lemma {:induction false} LookupExact(fields: seq<Field>, key: JsString, v: Json)
    requires DistinctKeys(fields)
    ensures Lookup(fields, key) == Some(v) <==> Field(key, v) in fields
  {
    hide DistinctKeys, Lookup;
    LookupFinds(fields, key);
    if Field(key, v) in fields {
      assert Field(key, v).key == key;
    }
  }

  // The shape of the fields, field by field.
  ghost predicate Shaped(fields: seq<Field>, c: Checkpoint) {
    && (forall f | f in fields :: KnownKey(f.key))
    && Field(ApiVersionKey(), Str(ApiVersion())) in fields && Field(RunIdKey(), Str(c.runId)) in fields
    && Field(CheckpointIdKey(), Str(c.id)) in fields && Field(SequenceKey(), Num(c.sequence)) in fields
    && Field(CreatedAtKey(), Str(c.createdAt)) in fields && Field(StateKey(), c.state) in fields
  }

  lemma {:induction false} EnvelopeShaped(fields: seq<Field>, c: Checkpoint)
    requires DistinctKeys(fields)
    ensures Checkpoints.Envelope(fields) == Some(c) <==> Shaped(fields, c) && 0 <= c.sequence <= MAX_SAFE
  {
    hide DistinctKeys, Lookup, KnownKey, TextField, ApiVersion, ApiVersionKey, RunIdKey, CheckpointIdKey, SequenceKey,
         CreatedAtKey, StateKey;
    TextFieldExact(fields, ApiVersionKey(), ApiVersion());
    var runId, id, createdAt := TextField(fields, RunIdKey()), TextField(fields, CheckpointIdKey()),
        TextField(fields, CreatedAtKey());
    forall s { TextFieldExact(fields, RunIdKey(), s); }
    forall s { TextFieldExact(fields, CheckpointIdKey(), s); }
    forall s { TextFieldExact(fields, CreatedAtKey(), s); }
    forall v { LookupExact(fields, SequenceKey(), v); }
    forall v { LookupExact(fields, StateKey(), v); }
  }

  lemma {:induction false} KeysDiffer()
    ensures Ascii("apiVersion") != Ascii("runId") && Ascii("apiVersion") != Ascii("checkpointId")
    ensures Ascii("apiVersion") != Ascii("sequence") && Ascii("apiVersion") != Ascii("createdAt")
    ensures Ascii("apiVersion") != Ascii("state") && Ascii("apiVersion") != Ascii("contentHash")
    ensures Ascii("runId") != Ascii("checkpointId") && Ascii("runId") != Ascii("sequence")
    ensures Ascii("runId") != Ascii("createdAt") && Ascii("runId") != Ascii("state")
    ensures Ascii("runId") != Ascii("contentHash") && Ascii("checkpointId") != Ascii("sequence")
    ensures Ascii("checkpointId") != Ascii("createdAt") && Ascii("checkpointId") != Ascii("state")
    ensures Ascii("checkpointId") != Ascii("contentHash") && Ascii("sequence") != Ascii("createdAt")
    ensures Ascii("sequence") != Ascii("state") && Ascii("sequence") != Ascii("contentHash")
    ensures Ascii("createdAt") != Ascii("state") && Ascii("createdAt") != Ascii("contentHash")
    ensures Ascii("state") != Ascii("contentHash")
  {
    KeyLengths();
    assert Ascii("runId")[0] != Ascii("state")[0];
  }

  lemma {:induction false} EnvelopeHas(fields: seq<Field>, c: Checkpoint)
    requires IsEnvelope(fields, c)
    ensures Shaped(fields, c)
  {
    KeysDiffer();
    hide Ascii;
  }

  // Fields with different keys are told apart by them.
  lemma {:induction false} EnvelopeExact(fields: seq<Field>, c: Checkpoint)
    requires DistinctKeys(fields)
    ensures Shaped(fields, c) <==> IsEnvelope(fields, c)
  {
    DistinctKeysMeans(fields);
    hide DistinctKeys, Ascii;
    if Shaped(fields, c) {
      forall f | f in fields ensures f.key == ApiVersionKey() ==> f == Field(ApiVersionKey(), Str(ApiVersion())) {}
      forall f | f in fields ensures f.key == RunIdKey() ==> f == Field(RunIdKey(), Str(c.runId)) {}
      forall f | f in fields ensures f.key == CheckpointIdKey() ==> f == Field(CheckpointIdKey(), Str(c.id)) {}
      forall f | f in fields ensures f.key == SequenceKey() ==> f == Field(SequenceKey(), Num(c.sequence)) {}
      forall f | f in fields ensures f.key == CreatedAtKey() ==> f == Field(CreatedAtKey(), Str(c.createdAt)) {}
      forall f | f in fields ensures f.key == StateKey() ==> f == Field(StateKey(), c.state) {}
    }
    if IsEnvelope(fields, c) {
      EnvelopeHas(fields, c);
    }
  }

  // ---- The body and its hash -------------------------------------------------------------------

  lemma {:induction false} BodyMembers(c: Checkpoint, f: Field)
    ensures f in BodyFields(c) <==>
              || f == Field(ApiVersionKey(), Str(ApiVersion())) || f == Field(RunIdKey(), Str(c.runId))
              || f == Field(CheckpointIdKey(), Str(c.id)) || f == Field(SequenceKey(), Num(c.sequence))
              || f == Field(CreatedAtKey(), Str(c.createdAt)) || f == Field(StateKey(), c.state)
  {
    hide ApiVersionKey, RunIdKey, CheckpointIdKey, SequenceKey, CreatedAtKey, StateKey, ApiVersion;
    var body := BodyFields(c);
    assert body[0] in body && body[1] in body && body[2] in body;
    assert body[3] in body && body[4] in body && body[5] in body;
  }

  lemma {:induction false} BodyDistinct(c: Checkpoint)
    ensures DistinctKeys(BodyFields(c))
  {
    hide ApiVersionKey, RunIdKey, CheckpointIdKey, SequenceKey, CreatedAtKey, StateKey, ContentHashKey, ApiVersion;
    KeyLengths();
  }

  // The fields of the body are the known ones but for the hash.
  lemma {:induction false} BodyIsBody(fields: seq<Field>, c: Checkpoint)
    requires DistinctKeys(fields) && Shaped(fields, c)
    ensures IsBody(fields, BodyFields(c))
  {
    KeysDiffer();
    DistinctKeysMeans(fields);
    EnvelopeExact(fields, c);
    hide Ascii, DistinctKeys;
    BodyDistinct(c);
    var body := BodyFields(c);
    forall f ensures f in body <==> f in fields && f.key != Ascii("contentHash") {
      BodyMembers(c, f);
    }
  }

  lemma {:induction false} SerializeSorted(a: seq<Field>, b: seq<Field>)
    requires Sort(a, FieldLeq) == Sort(b, FieldLeq)
    ensures Serialize(Obj(a)) == Serialize(Obj(b))
  {
    hide Sort, Join, Quoted;
    var sorted := Sort(a, FieldLeq);
    SortMembers(a, FieldLeq);
    SortMembers(b, FieldLeq);
    assert seq(|sorted|, i requires 0 <= i < |sorted| =>
      Quoted(sorted[i].key) + [COLON] + Serialize(sorted[i].value))
      == seq(|Sort(b, FieldLeq)|, i requires 0 <= i < |Sort(b, FieldLeq)| =>
      Quoted(Sort(b, FieldLeq)[i].key) + [COLON] + Serialize(Sort(b, FieldLeq)[i].value));
  }

  // The canonical text does not depend on the order in which fields are listed.
  lemma {:induction false} SameFieldsSameText(a: seq<Field>, b: seq<Field>)
    requires DistinctKeys(a) && DistinctKeys(b) && forall f :: f in a <==> f in b
    ensures Serialize(Obj(a)) == Serialize(Obj(b))
  {
    hide Sort, DistinctKeys;
    var s, t := Sort(a, FieldLeq), Sort(b, FieldLeq);
    DistinctKeysMeans(a);
    DistinctKeysMeans(b);
    NoDupMultiset(a);
    NoDupMultiset(b);
    assert Elems(a) == Elems(b);
    FieldOrder(a);
    FieldOrder(b);
    SortSorted(a, FieldLeq);
    SortSorted(b, FieldLeq);
    SortMembers(a, FieldLeq);
    SortedUnique(s, t, FieldLeq);
    SerializeSorted(a, b);
  }

  lemma {:induction false} BodiesAlike(fields: seq<Field>, a: seq<Field>, b: seq<Field>)
    requires IsBody(fields, a) && IsBody(fields, b)
    ensures Serialize(Obj(a)) == Serialize(Obj(b))
  {
    hide Serialize, DistinctKeys, Ascii;
    SameFieldsSameText(a, b);
  }

  lemma {:induction false} HashExact(digest: Digest, fields: seq<Field>, c: Checkpoint)
    requires DistinctKeys(fields) && Shaped(fields, c)
    ensures TextField(fields, ContentHashKey()) == Some(ContentHash(digest, c)) <==> HashFits(digest, fields)
  {
    hide DistinctKeys, TextField, Shaped, IsBody, Serialize, Ascii, BodyFields;
    var h := ContentHash(digest, c);
    TextFieldExact(fields, ContentHashKey(), h);
    BodyIsBody(fields, c);
    DistinctKeysMeans(fields);
    if Field(ContentHashKey(), Str(h)) in fields {
      forall f, body | f in fields && f.key == Ascii("contentHash") && f.value.Str? && IsBody(fields, body)
        ensures f.value.s == digest(Serialize(Obj(body)))
      {
        BodiesAlike(fields, body, BodyFields(c));
      }
    }
    if HashFits(digest, fields) {
      var f :| f in fields && f.key == Ascii("contentHash") && f.value.Str?;
      assert f == Field(ContentHashKey(), Str(h));
    }
  }

  // ---- Exactly what is loaded --------------------------------------------------------------------

  // A record is loaded as c exactly if its text is one line of an object whose fields are those of
  // c, in range and well formed, for this run and file, with a hash that fits the other fields.
  lemma {:induction false} RecordExact(digest: Digest, calendar: Calendar, text: JsString, run: JsString,
      expected: Option<JsString>, source: JsString, c: Checkpoint)
    ensures ParseRecord(digest, calendar, text, run, expected, source) == Some(c) <==>
              && text != [] && text[|text| - 1] == '\n' as int
              && Parse(text[..|text| - 1]).Some? && Parse(text[..|text| - 1]).value.Obj?
              && Loads(digest, calendar, run, expected, source, Parse(text[..|text| - 1]).value.fields, c)
  {
    hide Parse, Checkpoints.Envelope, TextField, HashFits, IsEnvelope, SafeIdentifier, Captured, Shaped, ContentHash;
    if text != [] && text[|text| - 1] == NEWLINE {
      var value := Parse(text[..|text| - 1]);
      if value.Some? && value.value.Obj? {
        var fields := value.value.fields;
        ParsedDistinct(text[..|text| - 1]);
        forall d ensures Checkpoints.Envelope(fields) == Some(d)
                         <==> IsEnvelope(fields, d) && 0 <= d.sequence <= MAX_SAFE {
          EnvelopeShaped(fields, d);
          EnvelopeExact(fields, d);
        }
        if IsEnvelope(fields, c) {
          EnvelopeExact(fields, c);
          HashExact(digest, fields, c);
        }
      }
    }
  }

  // So a loaded record's hash fits: it is the digest of the canonical text of the other fields.
  lemma {:induction false} LoadedHashFits(digest: Digest, calendar: Calendar, text: JsString, run: JsString,
      expected: Option<JsString>, source: JsString)
    requires ParseRecord(digest, calendar, text, run, expected, source).Some?
    ensures text != [] && Parse(text[..|text| - 1]).Some? && Parse(text[..|text| - 1]).value.Obj?
    ensures HashFits(digest, Parse(text[..|text| - 1]).value.fields)
  {
    hide Parse, HashFits, IsEnvelope, SafeIdentifier, Captured;
    RecordExact(digest, calendar, text, run, expected, source,
      ParseRecord(digest, calendar, text, run, expected, source).value);
  }

  // ---- Altered records ------------------------------------------------------------------------------

  lemma {:induction false} BodyCaptured(calendar: Calendar, c: Checkpoint, state: Json)
    requires Storable(calendar, c) && Captured(state)
    ensures Captured(Obj(BodyFields(c.(state := state))))
  {
    hide SafeIdentifier, Canon, Ascii;
    var body := BodyFields(c.(state := state));
    BodyDistinct(c.(state := state));
    forall f | f in body ensures Captured(f.value) {
      BodyMembers(c.(state := state), f);
    }
  }

  lemma {:induction false} CapturedState(calendar: Calendar, c: Checkpoint)
    requires Storable(calendar, c)
    ensures Captured(c.state)
  {
    hide SafeIdentifier, Canon, Captured;
  }

  // The body's text tells the state.
  lemma {:induction false} BodyTellsState(calendar: Calendar, c: Checkpoint, state: Json)
    requires Storable(calendar, c) && Captured(state)
    requires Serialize(Obj(BodyFields(c))) == Serialize(Obj(BodyFields(c.(state := state))))
    ensures Canon(state) == Canon(c.state)
  {
    hide Canon, Captured, Serialize, Lookup, Parse, SafeIdentifier;
    var a, b := BodyFields(c), BodyFields(c.(state := state));
    assert c.(state := c.state) == c;
    CapturedState(calendar, c);
    BodyCaptured(calendar, c, c.state);
    BodyCaptured(calendar, c, state);
    CanonicalRoundTrip(Obj(a));
    CanonicalRoundTrip(Obj(b));
    BodyDistinct(c);
    BodyDistinct(c.(state := state));
    CanonFields(a);
    CanonFields(b);
    CanonLookup(a, StateKey());
    CanonLookup(b, StateKey());
    BodyMembers(c, Field(StateKey(), c.state));
    BodyMembers(c.(state := state), Field(StateKey(), state));
    LookupExact(a, StateKey(), c.state);
    LookupExact(b, StateKey(), state);
  }

  lemma {:induction false} AlteredBody(fields: seq<Field>, c: Checkpoint, hash: JsString)
    requires forall f :: f in fields <==> f in BodyFields(c) || f == Field(Ascii("contentHash"), Str(hash))
    ensures IsBody(fields, BodyFields(c))
  {
    KeysDiffer();
    BodyDistinct(c);
    hide Ascii, DistinctKeys, BodyFields, ApiVersion;
    forall f | f in BodyFields(c) ensures f.key != Ascii("contentHash") {
      BodyMembers(c, f);
    }
  }

  // A record whose state alone was changed is corrupt, unless the digest collides on the two bodies.
  lemma {:induction false} AlteredStateRejected(digest: Digest, calendar: Calendar, c: Checkpoint, state: Json,
      text: JsString, run: JsString, expected: Option<JsString>, files: Directory, name: Name)
    requires Storable(calendar, c) && Captured(state) && Canon(state) != Canon(c.state)
    requires text != [] && Parse(text[..|text| - 1]).Some? && Parse(text[..|text| - 1]).value.Obj?
    requires forall f :: f in Parse(text[..|text| - 1]).value.fields <==>
               f in BodyFields(c.(state := state)) || f == Field(Ascii("contentHash"), Str(ContentHash(digest, c)))
    requires var was, now := Serialize(Obj(BodyFields(c))), Serialize(Obj(BodyFields(c.(state := state))));
             digest(was) == digest(now) ==> was == now
    requires name in files && name.Record? && files[name] == Decoded(text)
    ensures ParseRecord(digest, calendar, text, run, expected, name.source.text) == None
    ensures LoadName(digest, calendar, run, files, expected, name) == Corrupt
  {
    hide Parse, ParseRecord, Canon, Captured, Serialize, SafeIdentifier, Storable, Ascii, BodyFields;
    if ParseRecord(digest, calendar, text, run, expected, name.source.text).Some? {
      var fields, body := Parse(text[..|text| - 1]).value.fields, BodyFields(c.(state := state));
      LoadedHashFits(digest, calendar, text, run, expected, name.source.text);
      AlteredBody(fields, c.(state := state), ContentHash(digest, c));
      assert Field(Ascii("contentHash"), Str(ContentHash(digest, c))) in fields;
      BodyTellsState(calendar, c, state);
    }
  }

  // ---- Saving -------------------------------------------------------------------------------------

  // What a save refuses, and what it stores otherwise.
  lemma {:induction false} SaveAnswers(calendar: Calendar, input: Input, now: JsString)
    ensures var invalid := || input.sequence < 0 || input.sequence > 9007199254740991 || !Captured(input.state)
                           || (input.createdAt.Some? && !calendar(input.createdAt.value));
            InputError(calendar, input) ==
            if invalid then Some(InvalidInput)
            else if SafeIdentifier(input.runId) && SafeIdentifier(input.id) then None
            else Some(SaveError.UnsafeIdentifier)
    ensures var c := Stored(input, now);
            && c.runId == input.runId && c.id == input.id && c.sequence == input.sequence
            && c.state == Canon(input.state)
            && (input.createdAt.None? ==> c.createdAt == now)
            && (input.createdAt.Some? ==> c.createdAt == input.createdAt.value)
  {
    hide SafeIdentifier, Captured;
  }

  // What a save writes is one line: the canonical text of an object with exactly these fields.
  lemma {:induction false} WrittenRecord(digest: Digest, calendar: Calendar, c: Checkpoint)
    requires Storable(calendar, c)
    ensures var text := Encode(digest, c);
            && text != [] && text[|text| - 1] == '\n' as int
            && Parse(text[..|text| - 1]).Some? && Parse(text[..|text| - 1]).value.Obj?
            && Loads(digest, calendar, c.runId, Some(c.id), digest(c.id), Parse(text[..|text| - 1]).value.fields, c)
  {
    hide Encode, ParseRecord, Storable, Parse, Loads;
    RecordRoundTrip(digest, calendar, c, Some(c.id));
    RecordExact(digest, calendar, Encode(digest, c), c.runId, Some(c.id), digest(c.id), c);
  }
}
