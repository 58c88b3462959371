/**
 Event streams: what an append request must satisfy, in which order its faults are
 reported, and the in-memory store. Envelope validation is a predicate of the caller's.
 */
module EventStreams {
  import opened Wrappers
  import opened Sequences
  import opened Text
  import opened Json
  import opened CanonicalForm

  // The schema check on one event.
  type Envelope = Json -> bool

  // "runId" and "sequence".
  const RUN_ID: JsString := [0x72, 0x75, 0x6E, 0x49, 0x64]
  const SEQUENCE: JsString := [0x73, 0x65, 0x71, 0x75, 0x65, 0x6E, 0x63, 0x65]

  function FieldOf(e: Json, key: JsString): Option<Json> {
    if e.Obj? then Lookup(e.fields, key) else None
  }

  function RunIdOf(e: Json): Option<JsString> {
    match FieldOf(e, RUN_ID)
    case Some(Str(s)) => Some(s)
    case _ => None
  }

  function SequenceOf(e: Json): Option<int> {
    match FieldOf(e, SEQUENCE)
    case Some(Num(n)) => Some(n)
    case _ => None
  }

  // The envelope admits only plain values, and does not look at the order of object keys.
  ghost predicate GoodEnvelope(env: Envelope) {
    forall v | env(v) :: Captured(v) && env(Canon(v))
  }

  lemma {:induction false} CanonScalar(fields: seq<Field>, key: JsString)
    ensures Lookup(fields, key).Some? ==>
      var v := Lookup(fields, key).value;
      (v.Str? || v.Num? ==> Canon(v) == v) && (Canon(v).Str? <==> v.Str?) && (Canon(v).Num? <==> v.Num?)
  {}

  lemma {:induction false} CanonEvent(e: Json)
    requires Captured(e)
    ensures RunIdOf(Canon(e)) == RunIdOf(e) && SequenceOf(Canon(e)) == SequenceOf(e)
  {
    if e.Obj? {
      CanonLookup(e.fields, RUN_ID);
      CanonLookup(e.fields, SEQUENCE);
      CanonScalar(e.fields, RUN_ID);
      CanonScalar(e.fields, SEQUENCE);
    }
  }

  // Canonical copies of the events, in order.
  function CanonAll(events: seq<Json>): (r: seq<Json>)
    ensures |r| == |events| && forall i | 0 <= i < |events| :: r[i] == Canon(events[i])
  {
    seq(|events|, i requires 0 <= i < |events| => Canon(events[i]))
  }

  // ---- Requests ---------------------------------------------------------------------

  datatype Issue = BadEnvelope(index: nat) | WrongRun(index: nat) | WrongSequence(index: nat, expected: int)

  datatype StoreError =
    | UnsafeIdentifier
    | InvalidRequest
    | CorruptLog
    | VersionConflict(expected: int, actual: int)
    | InvalidEvents(issues: seq<Issue>)

  predicate IsAlphanumeric(u: CodeUnit) {
    0x30 <= u <= 0x39 || 0x41 <= u <= 0x5A || 0x61 <= u <= 0x7A
  }

  // ^[A-Za-z0-9][A-Za-z0-9._-]{0,127}$
  predicate SafeIdentifier(s: JsString) {
    && 1 <= |s| <= 128 && IsAlphanumeric(s[0])
    && forall i | 0 <= i < |s| :: IsAlphanumeric(s[i]) || s[i] == 0x2E || s[i] == 0x5F || s[i] == 0x2D
  }

  function RequestError(runId: JsString, number: int, least: int): Option<StoreError> {
    if !SafeIdentifier(runId) then Some(UnsafeIdentifier)
    else if !(least <= number <= MAX_SAFE) then Some(InvalidRequest)
    else None
  }

  predicate EventFits(env: Envelope, runId: JsString, sequence: int, e: Json) {
    env(e) && RunIdOf(e) == Some(runId) && SequenceOf(e) == Some(sequence)
  }

  // The events continue a stream of the run at position first.
  ghost predicate Continue(env: Envelope, runId: JsString, first: int, events: seq<Json>) {
    forall i | 0 <= i < |events| :: EventFits(env, runId, first + i, events[i])
  }

  // A stream of the run: its events are numbered from 0.
  ghost predicate IsStream(env: Envelope, runId: JsString, stream: seq<Json>) {
    Continue(env, runId, 0, stream)
  }

  function IssuesAt(env: Envelope, runId: JsString, expected: int, index: nat, e: Json): seq<Issue> {
    if !env(e) then [BadEnvelope(index)]
    else
      (if RunIdOf(e) != Some(runId) then [WrongRun(index)] else [])
      + (if SequenceOf(e) != Some(expected + 1 + index) then [WrongSequence(index, expected + 1 + index)] else [])
  }

  function IssuesOf(env: Envelope, runId: JsString, expected: int, events: seq<Json>): seq<Issue> {
    if events == [] then []
    else
      var last := |events| - 1;
      IssuesOf(env, runId, expected, events[..last]) + IssuesAt(env, runId, expected, last, events[last])
  }

  lemma {:induction false} IssuesAtExact(env: Envelope, runId: JsString, expected: int, index: nat, e: Json)
    ensures IssuesAt(env, runId, expected, index, e) == [] <==> EventFits(env, runId, expected + 1 + index, e)
  {
    hide RunIdOf, SequenceOf;
  }

  lemma {:induction false} ContinueLast(env: Envelope, runId: JsString, first: int, events: seq<Json>)
    requires events != []
    ensures var last := |events| - 1;
            Continue(env, runId, first, events) <==>
              Continue(env, runId, first, events[..last]) && EventFits(env, runId, first + last, events[last])
  {
    hide EventFits;
    var last := |events| - 1;
    if Continue(env, runId, first, events) {
      forall i | 0 <= i < last ensures EventFits(env, runId, first + i, events[..last][i]) {
        assert EventFits(env, runId, first + i, events[i]);
      }
    }
    if Continue(env, runId, first, events[..last]) && EventFits(env, runId, first + last, events[last]) {
      forall i | 0 <= i < |events| ensures EventFits(env, runId, first + i, events[i]) {
        assert i < last ==> EventFits(env, runId, first + i, events[..last][i]);
      }
    }
  }

  // Validation is silent exactly on events that continue the stream.
  lemma {:induction false} IssuesExact(env: Envelope, runId: JsString, expected: int, events: seq<Json>)
    ensures IssuesOf(env, runId, expected, events) == [] <==> Continue(env, runId, expected + 1, events)
  {
    hide IssuesAt, EventFits;
    if events == [] {
    } else {
      var last := |events| - 1;
      IssuesExact(env, runId, expected, events[..last]);
      IssuesAtExact(env, runId, expected, last, events[last]);
      ContinueLast(env, runId, expected + 1, events);
    }
  }

  method ValidateAppendEvents(env: Envelope, runId: JsString, expected: int, events: seq<Json>)
    returns (issues: seq<Issue>)
    ensures issues == IssuesOf(env, runId, expected, events)
    ensures issues == [] <==> Continue(env, runId, expected + 1, events)
  {
    issues := [];
    for index := 0 to |events|
      invariant issues == IssuesOf(env, runId, expected, events[..index])
    {
      assert events[..index + 1][..index] == events[..index];
      var event := events[index];
      if env(event) {
        if RunIdOf(event) != Some(runId) {
          issues := issues + [WrongRun(index)];
        }
        if SequenceOf(event) != Some(expected + 1 + index) {
          issues := issues + [WrongSequence(index, expected + 1 + index)];
        }
      } else {
        issues := issues + [BadEnvelope(index)];
      }
    }
    assert events[..|events|] == events;
    IssuesExact(env, runId, expected, events);
  }

  // Canonical copies continue the stream where the originals do.
  lemma {:induction false} ContinueCanon(env: Envelope, runId: JsString, first: int, events: seq<Json>)
    requires GoodEnvelope(env) && Continue(env, runId, first, events)
    ensures Continue(env, runId, first, CanonAll(events))
    ensures forall i | 0 <= i < |events| :: Captured(events[i]) && Clone(events[i]) == Some(Canon(events[i]))
  {
    forall i | 0 <= i < |events|
      ensures EventFits(env, runId, first + i, CanonAll(events)[i])
      ensures Captured(events[i]) && Clone(events[i]) == Some(Canon(events[i]))
    {
      assert EventFits(env, runId, first + i, events[i]);
      CanonEvent(events[i]);
      CloneIsStable(events[i]);
    }
  }

  lemma {:induction false} ContinueAppend(env: Envelope, runId: JsString, a: seq<Json>, b: seq<Json>)
    requires IsStream(env, runId, a)
    ensures IsStream(env, runId, a + b) <==> Continue(env, runId, |a|, b)
  {
    var s := a + b;
    if Continue(env, runId, |a|, b) {
      forall i | 0 <= i < |s| ensures EventFits(env, runId, i, s[i]) {
        assert i < |a| ==> EventFits(env, runId, 0 + i, a[i]);
        assert i >= |a| ==> EventFits(env, runId, |a| + (i - |a|), b[i - |a|]);
      }
    }
    if IsStream(env, runId, s) {
      forall i | 0 <= i < |b| ensures EventFits(env, runId, |a| + i, b[i]) {
        assert EventFits(env, runId, 0 + (|a| + i), s[|a| + i]);
      }
    }
  }

  // ---- Reading ----------------------------------------------------------------------------

  predicate AtLeast(e: Json, from: int) {
    SequenceOf(e).Some? && SequenceOf(e).value >= from
  }

  // Canonical copies of the events with sequence from on.
  function Selected(events: seq<Json>, from: int): seq<Json> {
    if events == [] then []
    else
      var last := events[|events| - 1];
      Selected(events[..|events| - 1], from) + if AtLeast(last, from) then [Canon(last)] else []
  }

  lemma {:induction false} StreamPrefix(env: Envelope, runId: JsString, stream: seq<Json>, k: nat)
    requires IsStream(env, runId, stream) && k <= |stream|
    ensures IsStream(env, runId, stream[..k])
  {
    forall i | 0 <= i < k ensures EventFits(env, runId, 0 + i, stream[..k][i]) {
      assert EventFits(env, runId, 0 + i, stream[i]);
    }
  }

  lemma {:induction false} SequenceAt(env: Envelope, runId: JsString, stream: seq<Json>, i: nat)
    requires IsStream(env, runId, stream) && i < |stream|
    ensures SequenceOf(stream[i]) == Some(i) && env(stream[i])
  {
    assert EventFits(env, runId, 0 + i, stream[i]);
  }

  lemma {:induction false} SelectedSuffix(env: Envelope, runId: JsString, stream: seq<Json>, from: nat)
    requires IsStream(env, runId, stream)
    ensures Selected(stream, from) == if from <= |stream| then CanonAll(stream[from..]) else []
  {
    hide IsStream, SequenceOf, Canon, CanonAll;
    if stream == [] {
    } else {
      var last := |stream| - 1;
      StreamPrefix(env, runId, stream, last);
      SelectedSuffix(env, runId, stream[..last], from);
      SequenceAt(env, runId, stream, last);
      if from <= last {
        assert stream[from..] == stream[..last][from..] + [stream[last]];
        assert CanonAll(stream[from..]) == CanonAll(stream[..last][from..]) + [Canon(stream[last])];
      }
    }
  }

  // The filter and clone of a read.
  method Snapshot(events: seq<Json>, from: int) returns (selected: seq<Json>)
    requires forall e | e in events :: Captured(e)
    ensures selected == Selected(events, from)
  {
    selected := [];
    for index := 0 to |events|
      invariant selected == Selected(events[..index], from)
    {
      assert events[..index + 1][..index] == events[..index];
      if AtLeast(events[index], from) {
        assert events[index] in events;
        CloneIsStable(events[index]);
        selected := selected + [Clone(events[index]).value];
      }
    }
    assert events[..|events|] == events;
  }

  // ---- The memory store ----------------------------------------------------------------------

  type Streams = map<JsString, seq<Json>>

  function StreamOf(streams: Streams, runId: JsString): seq<Json> {
    if runId in streams then streams[runId] else []
  }

  // The checks of an append, in order, against a stream of the given length.
  function AppendError(env: Envelope, runId: JsString, expected: int, events: seq<Json>,
      length: nat): Option<StoreError> {
    if length - 1 != expected then Some(VersionConflict(expected, length - 1))
    else
      var issues := IssuesOf(env, runId, expected, events);
      if issues != [] then Some(InvalidEvents(issues)) else None
  }

  function MemoryAppend(env: Envelope, streams: Streams, runId: JsString, expected: int, events: seq<Json>)
    : (Result<int, StoreError>, Streams)
  {
    var stream := StreamOf(streams, runId);
    var early := RequestError(runId, expected, -1);
    var late := AppendError(env, runId, expected, events, |stream|);
    if early.Some? then (Err(early.value), streams)
    else if late.Some? then (Err(late.value), streams)
    else if events == [] then (Ok(|stream| - 1), streams)
    else (Ok(expected + |events|), streams[runId := stream + CanonAll(events)])
  }

  function MemoryRead(streams: Streams, runId: JsString, from: int): Result<seq<Json>, StoreError> {
    var early := RequestError(runId, from, 0);
    if early.Some? then Err(early.value) else Ok(Selected(StreamOf(streams, runId), from))
  }

  // Every stream is numbered from 0, belongs to its run, and is stored canonically.
  ghost predicate StreamsOk(env: Envelope, streams: Streams) {
    forall r | r in streams ::
      SafeIdentifier(r) && streams[r] != [] && IsStream(env, r, streams[r]) && CanonAll(streams[r]) == streams[r]
  }

  lemma {:induction false} EmptyStream(env: Envelope, runId: JsString)
    ensures IsStream(env, runId, []) && CanonAll([]) == []
  {}

  lemma {:induction false} CanonAllAppend(a: seq<Json>, b: seq<Json>)
    requires CanonAll(a) == a && forall i | 0 <= i < |b| :: Captured(b[i])
    ensures CanonAll(a + CanonAll(b)) == a + CanonAll(b)
  {
    var s := a + CanonAll(b);
    forall i | 0 <= i < |s| ensures CanonAll(s)[i] == s[i] {
      if i < |a| {
        assert CanonAll(a)[i] == a[i];
      } else {
        CloneIsStable(b[i - |a|]);
      }
    }
  }

  // An append keeps that; it succeeds exactly when the request is well-formed, the version
  // matches and the events continue the stream; then the old stream is a prefix of the new
  // one and the result is the new version; otherwise nothing changes.
  lemma {:induction false} MemoryAppendKeeps(env: Envelope, streams: Streams, runId: JsString, expected: int,
      events: seq<Json>)
    requires GoodEnvelope(env) && StreamsOk(env, streams)
    ensures var (result, after) := MemoryAppend(env, streams, runId, expected, events);
            var old_, new_ := StreamOf(streams, runId), StreamOf(after, runId);
            && StreamsOk(env, after)
            && (forall r | r != runId :: StreamOf(after, r) == StreamOf(streams, r))
            && (result.Ok? <==> SafeIdentifier(runId) && -1 <= expected <= MAX_SAFE && expected == |old_| - 1
                                && Continue(env, runId, |old_|, events))
            && (result.Ok? ==> old_ <= new_ && |new_| == |old_| + |events| && result.value == |new_| - 1
                               && new_[|old_|..] == CanonAll(events))
            && (result.Err? ==> after == streams)
  {
    hide SafeIdentifier, IsStream, Continue, IssuesOf, CanonAll;
    var old_ := StreamOf(streams, runId);
    var (result, after) := MemoryAppend(env, streams, runId, expected, events);
    IssuesExact(env, runId, expected, events);
    if result.Ok? && events != [] {
      EmptyStream(env, runId);
      assert IsStream(env, runId, old_);
      ContinueCanon(env, runId, |old_|, events);
      ContinueAppend(env, runId, old_, CanonAll(events));
      CanonAllAppend(old_, events);
    }
  }

  lemma {:induction false} CanonAllFrom(stream: seq<Json>, from: nat)
    requires CanonAll(stream) == stream && from <= |stream|
    ensures CanonAll(stream[from..]) == stream[from..]
  {
    forall i | 0 <= i < |stream| - from ensures CanonAll(stream[from..])[i] == stream[from..][i] {
      assert CanonAll(stream)[from + i] == stream[from + i];
    }
  }

  // A read returns the stored stream from the given sequence on.
  lemma {:induction false} MemoryReadMeans(env: Envelope, streams: Streams, runId: JsString, from: nat)
    requires StreamsOk(env, streams) && SafeIdentifier(runId) && from <= MAX_SAFE
    ensures var stream := StreamOf(streams, runId);
            MemoryRead(streams, runId, from) == Ok(if from <= |stream| then stream[from..] else [])
  {
    hide SafeIdentifier, IsStream, Selected, CanonAll;
    var stream := StreamOf(streams, runId);
    EmptyStream(env, runId);
    assert IsStream(env, runId, stream) && CanonAll(stream) == stream;
    SelectedSuffix(env, runId, stream, from);
    if from <= |stream| {
      CanonAllFrom(stream, from);
    }
  }

  lemma {:induction false} StoredCaptured(env: Envelope, streams: Streams, runId: JsString)
    requires GoodEnvelope(env) && StreamsOk(env, streams)
    ensures forall e | e in StreamOf(streams, runId) :: Captured(e)
  {
    var stream := StreamOf(streams, runId);
    forall i | 0 <= i < |stream| ensures Captured(stream[i]) {
      assert EventFits(env, runId, 0 + i, stream[i]);
    }
  }

  // Push a clone of each event onto the stream.
  method PushClones(env: Envelope, runId: JsString, ghost first: int, stream: seq<Json>, events: seq<Json>)
    returns (r: seq<Json>)
    requires GoodEnvelope(env) && Continue(env, runId, first, events)
    ensures r == stream + CanonAll(events)
  {
    ContinueCanon(env, runId, first, events);
    r := stream;
    for index := 0 to |events|
      invariant r == stream + CanonAll(events)[..index]
    {
      r := r + [Clone(events[index]).value];
      TakeNext(CanonAll(events), index);
    }
    assert CanonAll(events)[..|events|] == CanonAll(events);
  }

  class MemoryEventStore {
    const env: Envelope
    var streams: Streams

    constructor (env: Envelope)
      ensures this.env == env && streams == map[]
    {
      this.env := env;
      streams := map[];
    }

    method Append(runId: JsString, expectedVersion: int, events: seq<Json>) returns (r: Result<int, StoreError>)
      requires GoodEnvelope(env) && StreamsOk(env, streams)
      modifies this
      ensures (r, streams) == MemoryAppend(env, old(streams), runId, expectedVersion, events)
      ensures StreamsOk(env, streams)
    {
      hide SafeIdentifier, IsStream, Continue, IssuesOf, CanonAll, StreamsOk, GoodEnvelope;
      MemoryAppendKeeps(env, streams, runId, expectedVersion, events);
      var early := RequestError(runId, expectedVersion, -1);
      if early.Some? {
        return Err(early.value);
      }
      var stream := StreamOf(streams, runId);
      var actualVersion := |stream| - 1;
      if actualVersion != expectedVersion {
        return Err(VersionConflict(expectedVersion, actualVersion));
      }
      var issues := ValidateAppendEvents(env, runId, expectedVersion, events);
      if issues != [] {
        return Err(InvalidEvents(issues));
      }
      if events == [] {
        return Ok(actualVersion);
      }
      stream := PushClones(env, runId, expectedVersion + 1, stream, events);
      streams := streams[runId := stream];
      return Ok(|stream| - 1);
    }

    method Read(runId: JsString, fromSequence: int) returns (r: Result<seq<Json>, StoreError>)
      requires GoodEnvelope(env) && StreamsOk(env, streams)
      ensures r == MemoryRead(streams, runId, fromSequence)
    {
      var early := RequestError(runId, fromSequence, 0);
      if early.Some? {
        return Err(early.value);
      }
      StoredCaptured(env, streams, runId);
      var snapshot := Snapshot(StreamOf(streams, runId), fromSequence);
      return Ok(snapshot);
    }

    method Version(runId: JsString) returns (r: Result<int, StoreError>)
      ensures r == if SafeIdentifier(runId) then Ok(|StreamOf(streams, runId)| - 1) else Err(UnsafeIdentifier)
    {
      if !SafeIdentifier(runId) {
        return Err(UnsafeIdentifier);
      }
      return Ok(|StreamOf(streams, runId)| - 1);
    }
  }
}
