/**
 The JSONL event store over a directory of files, and its refinement of the memory store:
 under any sequence of operations both answer alike, and decoding the files gives the
 memory store's streams.
 */
module JsonlStore {
  import opened Wrappers
  import opened Sequences
  import opened Text
  import opened Json
  import opened JsonParser
  import opened CanonicalForm
  import opened EventStreams
  import opened EventLogs

  datatype FileName = FileName(text: JsString)

  type Files = map<FileName, Contents>

  // The file name of a run: the digest of its identifier.
  type Naming = JsString -> FileName

  // No two safe identifiers collide under the digest.
  ghost predicate CollisionFree(name: Naming) {
    forall a, b | SafeIdentifier(a) && SafeIdentifier(b) && name(a) == name(b) :: a == b
  }

  function FileAt(files: Files, name: FileName): Option<Contents> {
    if name in files then Some(files[name]) else None
  }

  function TextAt(files: Files, name: FileName): JsString {
    if name in files && files[name].Decoded? then files[name].text else []
  }

  // The rest of an append once the existing stream is loaded: check, then write.
  function FinishAppend(env: Envelope, name: Naming, files: Files, runId: JsString, expected: int, events: seq<Json>,
                        existing: Option<seq<Json>>): (Result<int, StoreError>, Files)
  {
    if existing.None? then (Err(CorruptLog), files)
    else
      var late := AppendError(env, runId, expected, events, |existing.value|);
      if late.Some? then (Err(late.value), files)
      else if events == [] then (Ok(|existing.value| - 1), files)
      else (Ok(expected + |events|), files[name(runId) := Decoded(TextAt(files, name(runId)) + LogText(events))])
  }

  function FinishRead(from: int, existing: Option<seq<Json>>): Result<seq<Json>, StoreError> {
    if existing.None? then Err(CorruptLog) else Ok(Selected(existing.value, from))
  }

  function JsonlAppend(env: Envelope, name: Naming, files: Files, runId: JsString, expected: int, events: seq<Json>)
    : (Result<int, StoreError>, Files)
  {
    var early := RequestError(runId, expected, -1);
    if early.Some? then (Err(early.value), files)
    else FinishAppend(env, name, files, runId, expected, events, LoadFile(env, runId, FileAt(files, name(runId))))
  }

  function JsonlRead(env: Envelope, name: Naming, files: Files, runId: JsString,
      from: int): Result<seq<Json>, StoreError> {
    var early := RequestError(runId, from, 0);
    if early.Some? then Err(early.value)
    else FinishRead(from, LoadFile(env, runId, FileAt(files, name(runId))))
  }

  // ---- Refinement --------------------------------------------------------------------------

  ghost predicate MirrorsRun(env: Envelope, name: Naming, files: Files, streams: Streams, r: JsString) {
    var loaded := LoadFile(env, r, FileAt(files, name(r)));
    loaded.Some? && CanonAll(loaded.value) == StreamOf(streams, r)
  }

  // Decoding each run's file gives the memory store's stream, up to key order.
  ghost predicate Mirrors(env: Envelope, name: Naming, files: Files, streams: Streams) {
    forall r | SafeIdentifier(r) :: MirrorsRun(env, name, files, streams, r)
  }

  lemma {:induction false} EmptyMirrors(env: Envelope, name: Naming)
    ensures Mirrors(env, name, map[], map[])
  {}

  lemma {:induction false} FileLog(env: Envelope, name: Naming, files: Files, runId: JsString)
    requires LoadFile(env, runId, FileAt(files, name(runId))).Some?
    ensures LoadLog(env, runId, TextAt(files, name(runId))) == LoadFile(env, runId, FileAt(files, name(runId)))
  {
    hide LoadLines, Split;
  }

  lemma {:induction false} CanonAllConcat(a: seq<Json>, b: seq<Json>)
    requires forall i | 0 <= i < |b| :: Captured(b[i])
    ensures CanonAll(a + CanonAll(b)) == CanonAll(a) + CanonAll(b)
  {
    hide Canon, Captured;
    forall i | 0 <= i < |b| ensures Canon(Canon(b[i])) == Canon(b[i]) {
      CanonIdempotent(b[i]);
    }
  }

  // The appended run still mirrors.
  lemma {:induction false} AppendMirrorsRun(env: Envelope, name: Naming, files: Files, streams: Streams,
      runId: JsString, events: seq<Json>)
    requires GoodEnvelope(env) && MirrorsRun(env, name, files, streams, runId)
    requires Continue(env, runId, |StreamOf(streams, runId)|, events) && events != []
    ensures MirrorsRun(env, name,
              files[name(runId) := Decoded(TextAt(files, name(runId)) + LogText(events))],
              streams[runId := StreamOf(streams, runId) + CanonAll(events)], runId)
  {
    hide LoadText, LogText, Continue, CanonAll, GoodEnvelope;
    var text, stream := TextAt(files, name(runId)), LoadFile(env, runId, FileAt(files, name(runId))).value;
    FileLog(env, name, files, runId);
    AppendBatch(env, runId, text, events);
    LogTextNonempty(events);
    ContinueCanon(env, runId, |stream|, events);
    CanonAllConcat(stream, events);
  }

  lemma {:induction false} OtherMirrors(env: Envelope, name: Naming, files: Files, streams: Streams, runId: JsString,
                     c: Contents, stream: seq<Json>, r: JsString)
    requires MirrorsRun(env, name, files, streams, r) && r != runId && name(r) != name(runId)
    ensures MirrorsRun(env, name, files[name(runId) := c], streams[runId := stream], r)
  {
    hide LoadFile, CanonAll;
  }

  lemma {:induction false} MirroredLength(env: Envelope, name: Naming, files: Files, streams: Streams, runId: JsString)
    requires MirrorsRun(env, name, files, streams, runId)
    ensures LoadFile(env, runId, FileAt(files, name(runId))).Some?
    ensures |LoadFile(env, runId, FileAt(files, name(runId))).value| == |StreamOf(streams, runId)|
  {
    hide LoadFile;
  }

  // One append: same answer, and the files mirror the streams again.
  lemma {:induction false} AppendRefines(env: Envelope, name: Naming, files: Files, streams: Streams,
                      runId: JsString, expected: int, events: seq<Json>)
    requires GoodEnvelope(env) && CollisionFree(name) && Mirrors(env, name, files, streams)
    ensures JsonlAppend(env, name, files, runId, expected, events).0
        == MemoryAppend(env, streams, runId, expected, events).0
    ensures Mirrors(env, name, JsonlAppend(env, name, files, runId, expected, events).1,
                    MemoryAppend(env, streams, runId, expected, events).1)
  {
    hide LoadFile, LogText, Continue, CanonAll, SafeIdentifier, MirrorsRun, IssuesOf;
    if SafeIdentifier(runId) {
      assert MirrorsRun(env, name, files, streams, runId);
      MirroredLength(env, name, files, streams, runId);
      IssuesExact(env, runId, expected, events);
      var fs, ss := JsonlAppend(env, name, files, runId, expected, events).1,
                    MemoryAppend(env, streams, runId, expected, events).1;
      if fs != files || ss != streams {
        forall r | SafeIdentifier(r) ensures MirrorsRun(env, name, fs, ss, r) {
          if r == runId {
            AppendMirrorsRun(env, name, files, streams, runId, events);
          } else {
            OtherMirrors(env, name, files, streams, runId,
              Decoded(TextAt(files, name(runId)) + LogText(events)), StreamOf(streams, runId) + CanonAll(events), r);
          }
        }
      }
    }
  }

  lemma {:induction false} SelectedCanon(env: Envelope, stream: seq<Json>, from: int)
    requires forall i | 0 <= i < |stream| :: Captured(stream[i])
    ensures Selected(CanonAll(stream), from) == Selected(stream, from)
  {
    hide Captured, Canon, SequenceOf;
    if stream == [] {
    } else {
      var front, last := stream[..|stream| - 1], stream[|stream| - 1];
      assert CanonAll(stream)[..|stream| - 1] == CanonAll(front);
      SelectedCanon(env, front, from);
      CanonEvent(last);
      CanonIdempotent(last);
    }
  }

  lemma {:induction false} LoadedCaptured(env: Envelope, runId: JsString, file: Option<Contents>)
    requires GoodEnvelope(env) && LoadFile(env, runId, file).Some?
    ensures forall i | 0 <= i < |LoadFile(env, runId, file).value| :: Captured(LoadFile(env, runId, file).value[i])
  {
    hide LoadFile, Captured;
    FileIsStream(env, runId, file);
    var stream := LoadFile(env, runId, file).value;
    forall i | 0 <= i < |stream| ensures Captured(stream[i]) {
      assert EventFits(env, runId, 0 + i, stream[i]);
    }
  }

  // One read: same answer.
  lemma {:induction false} ReadRefines(env: Envelope, name: Naming, files: Files, streams: Streams, runId: JsString,
      from: int)
    requires GoodEnvelope(env) && Mirrors(env, name, files, streams)
    ensures JsonlRead(env, name, files, runId, from) == MemoryRead(streams, runId, from)
  {
    hide LoadFile, SafeIdentifier, Selected;
    if SafeIdentifier(runId) {
      assert MirrorsRun(env, name, files, streams, runId);
      LoadedCaptured(env, runId, FileAt(files, name(runId)));
      SelectedCanon(env, LoadFile(env, runId, FileAt(files, name(runId))).value, from);
    }
  }

  // ---- Any sequence of operations ----------------------------------------------------------------

  datatype Operation =
    | AppendEvents(runId: JsString, expected: int, events: seq<Json>)
    | ReadEvents(runId: JsString, from: int)

  datatype Answer = Appended(version: Result<int, StoreError>) | Listed(events: Result<seq<Json>, StoreError>)

  function MemoryStep(env: Envelope, streams: Streams, op: Operation): (Answer, Streams) {
    match op
    case AppendEvents(runId, expected, events) =>
      var (r, after) := MemoryAppend(env, streams, runId, expected, events);
      (Appended(r), after)
    case ReadEvents(runId, from) => (Listed(MemoryRead(streams, runId, from)), streams)
  }

  function JsonlStep(env: Envelope, name: Naming, files: Files, op: Operation): (Answer, Files) {
    match op
    case AppendEvents(runId, expected, events) =>
      var (r, after) := JsonlAppend(env, name, files, runId, expected, events);
      (Appended(r), after)
    case ReadEvents(runId, from) => (Listed(JsonlRead(env, name, files, runId, from)), files)
  }

  function MemoryRun(env: Envelope, streams: Streams, ops: seq<Operation>): (seq<Answer>, Streams) {
    if ops == [] then ([], streams)
    else
      var (answers, before) := MemoryRun(env, streams, ops[..|ops| - 1]);
      var (answer, after) := MemoryStep(env, before, ops[|ops| - 1]);
      (answers + [answer], after)
  }

  function JsonlRun(env: Envelope, name: Naming, files: Files, ops: seq<Operation>): (seq<Answer>, Files) {
    if ops == [] then ([], files)
    else
      var (answers, before) := JsonlRun(env, name, files, ops[..|ops| - 1]);
      var (answer, after) := JsonlStep(env, name, before, ops[|ops| - 1]);
      (answers + [answer], after)
  }

  lemma {:induction false} StepRefines(env: Envelope, name: Naming, files: Files, streams: Streams, op: Operation)
    requires GoodEnvelope(env) && CollisionFree(name) && Mirrors(env, name, files, streams)
    ensures JsonlStep(env, name, files, op).0 == MemoryStep(env, streams, op).0
    ensures Mirrors(env, name, JsonlStep(env, name, files, op).1, MemoryStep(env, streams, op).1)
  {
    hide Mirrors, JsonlAppend, MemoryAppend, JsonlRead, MemoryRead, GoodEnvelope, CollisionFree;
    match op
    case AppendEvents(runId, expected, events) => AppendRefines(env, name, files, streams, runId, expected, events);
    case ReadEvents(runId, from) => ReadRefines(env, name, files, streams, runId, from);
  }

  // From any directory of decodable logs, the file store answers every sequence of appends
  // and reads as the memory store does, error kinds included.
  lemma {:induction false} JsonlRefinesMemory(env: Envelope, name: Naming, files: Files, streams: Streams,
      ops: seq<Operation>)
    requires GoodEnvelope(env) && CollisionFree(name) && Mirrors(env, name, files, streams)
    ensures JsonlRun(env, name, files, ops).0 == MemoryRun(env, streams, ops).0
    ensures Mirrors(env, name, JsonlRun(env, name, files, ops).1, MemoryRun(env, streams, ops).1)
  {
    hide Mirrors, JsonlStep, MemoryStep, GoodEnvelope, CollisionFree;
    if ops == [] {
    } else {
      JsonlRefinesMemory(env, name, files, streams, ops[..|ops| - 1]);
      StepRefines(env, name, JsonlRun(env, name, files, ops[..|ops| - 1]).1,
                  MemoryRun(env, streams, ops[..|ops| - 1]).1, ops[|ops| - 1]);
    }
  }

  // In particular two new stores answer every sequence alike.
  lemma {:induction false} NewStoresAgree(env: Envelope, name: Naming, ops: seq<Operation>)
    requires GoodEnvelope(env) && CollisionFree(name)
    ensures JsonlRun(env, name, map[], ops).0 == MemoryRun(env, map[], ops).0
  {
    hide Mirrors, GoodEnvelope, CollisionFree, JsonlStep, MemoryStep;
    EmptyMirrors(env, name);
    JsonlRefinesMemory(env, name, map[], map[], ops);
  }

  // Streams only ever grow, and stay streams of their run.
  lemma {:induction false} StreamsGrow(env: Envelope, streams: Streams, ops: seq<Operation>)
    requires GoodEnvelope(env) && StreamsOk(env, streams)
    ensures StreamsOk(env, MemoryRun(env, streams, ops).1)
    ensures forall r :: StreamOf(streams, r) <= StreamOf(MemoryRun(env, streams, ops).1, r)
  {
    hide StreamsOk, MemoryAppend, GoodEnvelope, SafeIdentifier, StreamOf;
    if ops == [] {
    } else {
      StreamsGrow(env, streams, ops[..|ops| - 1]);
      var before := MemoryRun(env, streams, ops[..|ops| - 1]).1;
      match ops[|ops| - 1]
      case AppendEvents(runId, expected, events) =>
        MemoryAppendKeeps(env, before, runId, expected, events);
        var (r, after) := MemoryAppend(env, before, runId, expected, events);
        assert StreamOf(before, runId) <= StreamOf(after, runId);
      case ReadEvents(_, _) =>
    }
  }

  // ---- Compare and swap -----------------------------------------------------------------------------

  // The k-th operation is an append to the run that succeeds.
  ghost predicate Succeeds(env: Envelope, streams: Streams, ops: seq<Operation>, k: nat, runId: JsString) {
    && k < |ops| && ops[k].AppendEvents? && ops[k].runId == runId
    && MemoryStep(env, MemoryRun(env, streams, ops[..k]).1, ops[k]).0.version.Ok?
  }

  ghost function VersionAfter(env: Envelope, streams: Streams, ops: seq<Operation>, k: nat, runId: JsString): int
    requires k <= |ops|
  {
    |StreamOf(MemoryRun(env, streams, ops[..k]).1, runId)| - 1
  }

  lemma {:induction false} OneMore(env: Envelope, streams: Streams, ops: seq<Operation>, k: nat)
    requires k < |ops|
    ensures MemoryRun(env, streams, ops[..k + 1]).1 == MemoryStep(env, MemoryRun(env, streams, ops[..k]).1, ops[k]).1
  {
    hide MemoryStep;
    assert ops[..k + 1][..k] == ops[..k];
  }

  // Only a successful append moves the version, from its expectation by its number of events.
  lemma {:induction false} VersionMoves(env: Envelope, streams: Streams, ops: seq<Operation>, k: nat, runId: JsString)
    requires k < |ops|
    ensures var before, after := VersionAfter(env, streams, ops, k, runId),
        VersionAfter(env, streams, ops, k + 1, runId);
            if Succeeds(env, streams, ops, k, runId) then
              before == ops[k].expected && after == before + |ops[k].events|
              && MemoryStep(env, MemoryRun(env, streams, ops[..k]).1, ops[k]).0 == Appended(Ok(after))
            else after == before
  {
    hide MemoryRun, IssuesOf, SafeIdentifier, Selected;
    OneMore(env, streams, ops, k);
  }

  lemma {:induction false} VersionGrows(env: Envelope, streams: Streams, ops: seq<Operation>, i: nat, j: nat,
      runId: JsString)
    requires i <= j <= |ops|
    ensures VersionAfter(env, streams, ops, i, runId) <= VersionAfter(env, streams, ops, j, runId)
    ensures (forall k | i <= k < j :: !(Succeeds(env, streams, ops, k, runId) && ops[k].events != []))
            ==> VersionAfter(env, streams, ops, i, runId) == VersionAfter(env, streams, ops, j, runId)
    decreases j - i
  {
    hide VersionAfter, Succeeds;
    if i >= j {
    } else {
      VersionGrows(env, streams, ops, i, j - 1, runId);
      VersionMoves(env, streams, ops, j - 1, runId);
    }
  }

  // Successful appends to a run form a chain: a later one expects at least the version the
  // earlier one returned, exactly that one if nothing was written in between; so of all
  // non-empty appends with the same expectation at most one succeeds.
  lemma {:induction false} CasChain(env: Envelope, streams: Streams, ops: seq<Operation>, i: nat, j: nat,
      runId: JsString)
    requires i < j && Succeeds(env, streams, ops, i, runId) && Succeeds(env, streams, ops, j, runId)
    ensures ops[i].expected + |ops[i].events| <= ops[j].expected
    ensures (forall k | i < k < j :: !(Succeeds(env, streams, ops, k, runId) && ops[k].events != []))
            ==> MemoryStep(env, MemoryRun(env, streams, ops[..i]).1, ops[i]).0 == Appended(Ok(ops[j].expected))
    ensures ops[i].events != [] ==> ops[i].expected != ops[j].expected
  {
    hide VersionAfter, MemoryRun, MemoryStep;
    VersionMoves(env, streams, ops, i, runId);
    VersionMoves(env, streams, ops, j, runId);
    VersionGrows(env, streams, ops, i + 1, j, runId);
  }

  // ---- The object ---------------------------------------------------------------------------------

  lemma {:induction false} LineParts(env: Envelope, runId: JsString, index: nat, line: Line)
    ensures LoadLine(env, runId, index, line) ==
            if line.text == [] || Parse(line.text).None? || !EventFits(env, runId, index, Parse(line.text).value)
                then None
            else Parse(line.text)
  {
    hide Parse, EventFits;
  }

  // A bad record makes the whole log corrupt.
  lemma {:induction false} LoadStops(env: Envelope, runId: JsString, lines: seq<Line>, index: nat)
    requires index < |lines| && LoadLine(env, runId, index, lines[index]).None?
    ensures LoadLines(env, runId, lines).None?
    decreases |lines|
  {
    hide LoadLine;
    var last := |lines| - 1;
    if index >= last {
    } else {
      LoadStops(env, runId, lines[..last], index);
    }
  }

  // The loop of `#load` over the lines.
  method LoadRecords(env: Envelope, runId: JsString, lines: seq<Line>) returns (loaded: Option<seq<Json>>)
    ensures loaded == LoadLines(env, runId, lines)
  {
    hide LoadLine, Parse, EventFits;
    var events := [];
    for index := 0 to |lines|
      invariant LoadLines(env, runId, lines[..index]) == Some(events)
    {
      TakeNext(lines, index);
      LoadAppend(env, runId, lines[..index], lines[index]);
      LineParts(env, runId, index, lines[index]);
      if lines[index].text == [] {
        LoadStops(env, runId, lines, index);
        return None;
      }
      var value := Parse(lines[index].text);
      if value.None? {
        LoadStops(env, runId, lines, index);
        return None;
      }
      if !EventFits(env, runId, index, value.value) {
        LoadStops(env, runId, lines, index);
        return None;
      }
      events := events + [value.value];
    }
    assert lines[..|lines|] == lines;
    return Some(events);
  }

  // The records joined by newlines, and a final newline.
  method JoinRecords(events: seq<Json>) returns (text: JsString)
    requires events != []
    ensures text == LogText(events)
  {
    hide Serialize;
    text := [];
    for index := 0 to |events|
      invariant text + (if index == 0 then [] else [NEWLINE]) == LogText(events[..index])
    {
      assert events[..index + 1][..index] == events[..index];
      if index > 0 {
        text := text + [NEWLINE];
      }
      text := text + Serialize(events[index]);
    }
    text := text + [NEWLINE];
    assert events[..|events|] == events;
  }

  class JsonlEventStore {
    const env: Envelope
    const name: Naming
    var files: Files

    constructor (env: Envelope, name: Naming, files: Files)
      ensures this.env == env && this.name == name && this.files == files
    {
      this.env, this.name, this.files := env, name, files;
    }

    // `#load`: None stands for a corrupt log.
    method Load(runId: JsString) returns (loaded: Option<seq<Json>>)
      ensures loaded == LoadFile(env, runId, FileAt(files, name(runId)))
    {
      hide Split, EventFits;
      if name(runId) !in files {
        return Some([]);
      }
      if files[name(runId)].Undecodable? {
        return None;
      }
      var text := files[name(runId)].text;
      if text == [] || text[|text| - 1] != NEWLINE {
        return None;
      }
      loaded := LoadRecords(env, runId, Split(text[..|text| - 1]));
    }

    method Append(runId: JsString, expectedVersion: int, events: seq<Json>) returns (r: Result<int, StoreError>)
      modifies this
      ensures (r, files) == JsonlAppend(env, name, old(files), runId, expectedVersion, events)
    {
      hide LoadFile, Continue, IssuesOf, SafeIdentifier;
      var early := RequestError(runId, expectedVersion, -1);
      if early.Some? {
        return Err(early.value);
      }
      var existing := Load(runId);
      if existing.None? {
        return Err(CorruptLog);
      }
      var actualVersion := |existing.value| - 1;
      if actualVersion != expectedVersion {
        return Err(VersionConflict(expectedVersion, actualVersion));
      }
      var issues := ValidateAppendEvents(env, runId, expectedVersion, events);
      if issues != [] {
        return Err(InvalidEvents(issues));
      }
      if events == [] {
        return Ok(actualVersion);
      }
      var serialized := JoinRecords(events);
      files := files[name(runId) := Decoded(TextAt(files, name(runId)) + serialized)];
      return Ok(expectedVersion + |events|);
    }

    method Read(runId: JsString, fromSequence: int) returns (r: Result<seq<Json>, StoreError>)
      requires GoodEnvelope(env)
      ensures r == JsonlRead(env, name, files, runId, fromSequence)
    {
      hide LoadFile, SafeIdentifier, Captured;
      var early := RequestError(runId, fromSequence, 0);
      if early.Some? {
        return Err(early.value);
      }
      var existing := Load(runId);
      if existing.None? {
        return Err(CorruptLog);
      }
      LoadedCaptured(env, runId, FileAt(files, name(runId)));
      var snapshot := Snapshot(existing.value, fromSequence);
      return Ok(snapshot);
    }
  }
}
