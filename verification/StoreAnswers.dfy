/** What the event stores answer, in terms of the request, the stored stream and the events' fields alone. */
module StoreAnswers {
  import opened Wrappers
  import opened Sequences
  import opened Text
  import opened Json
  import opened EventStreams
  import opened EventLogs
  import opened JsonlStore

  // What an issue says of the events appended at position first of a run.
  ghost predicate IssueFits(env: Envelope, runId: JsString, first: int, events: seq<Json>, issue: Issue) {
    match issue
    case BadEnvelope(i) => i < |events| && !env(events[i])
    case WrongRun(i) =>
      && i < |events| && env(events[i])
      && !(events[i].Obj? && Lookup(events[i].fields, Ascii("runId")) == Some(Str(runId)))
    case WrongSequence(i, s) =>
      i < |events| && env(events[i]) && s == first + i
      && !(events[i].Obj? && Lookup(events[i].fields, Ascii("sequence")) == Some(Num(s)))
  }

  lemma {:induction false} FieldNames()
    ensures RUN_ID == Ascii("runId") && SEQUENCE == Ascii("sequence")
  {}

  lemma {:induction false} RunIdExact(e: Json, runId: JsString)
    ensures RunIdOf(e) == Some(runId) <==> e.Obj? && Lookup(e.fields, Ascii("runId")) == Some(Str(runId))
  {
    FieldNames();
    hide Ascii, RUN_ID, Lookup;
  }

  lemma {:induction false} SequenceExact(e: Json, s: int)
    ensures SequenceOf(e) == Some(s) <==> e.Obj? && Lookup(e.fields, Ascii("sequence")) == Some(Num(s))
  {
    FieldNames();
    hide Ascii, SEQUENCE, Lookup;
  }

  lemma {:induction false} IssuesAtExactly(env: Envelope, runId: JsString, expected: int, events: seq<Json>, index: nat,
      issue: Issue)
    requires index < |events|
    ensures issue in IssuesAt(env, runId, expected, index, events[index]) <==>
              issue.index == index && IssueFits(env, runId, expected + 1, events, issue)
  {
    hide RunIdOf, SequenceOf, Lookup, Ascii;
    RunIdExact(events[index], runId);
    SequenceExact(events[index], expected + 1 + index);
  }

  // Exactly the faults of the events are listed.
  lemma {:induction false} IssuesExactly(env: Envelope, runId: JsString, expected: int, events: seq<Json>, issue: Issue)
    ensures issue in IssuesOf(env, runId, expected, events) <==> IssueFits(env, runId, expected + 1, events, issue)
  {
    hide IssuesAt, Lookup, Ascii;
    if events == [] {
    } else {
      var last := |events| - 1;
      IssuesExactly(env, runId, expected, events[..last], issue);
      IssuesAtExactly(env, runId, expected, events, last, issue);
    }
  }

  ghost predicate Faulty(env: Envelope, runId: JsString, first: int, events: seq<Json>) {
    exists issue :: IssueFits(env, runId, first, events, issue)
  }

  // The answer to an append to a stream of the given length, in the order of the checks.
  ghost predicate Answers(env: Envelope, runId: JsString, expected: int, events: seq<Json>, length: nat,
      r: Result<int, StoreError>) {
    if !SafeIdentifier(runId) then r == Err(UnsafeIdentifier)
    else if expected < -1 || expected > 9007199254740991 then r == Err(InvalidRequest)
    else if expected != length - 1 then r == Err(VersionConflict(expected, length - 1))
    else if Faulty(env, runId, expected + 1, events) then
      && r.Err? && r.error.InvalidEvents?
      && forall issue :: issue in r.error.issues <==> IssueFits(env, runId, length, events, issue)
    else r == Ok(length - 1 + |events|)
  }

  lemma {:induction false} IssuesSilent(env: Envelope, runId: JsString, expected: int, events: seq<Json>)
    ensures IssuesOf(env, runId, expected, events) == [] <==> !Faulty(env, runId, expected + 1, events)
  {
    hide IssuesOf, IssueFits;
    var issues, first := IssuesOf(env, runId, expected, events), expected + 1;
    if issues != [] {
      assert issues[0] in issues;
      IssuesExactly(env, runId, expected, events, issues[0]);
      assert IssueFits(env, runId, first, events, issues[0]);
    }
    if Faulty(env, runId, first, events) {
      var issue :| IssueFits(env, runId, first, events, issue);
      IssuesExactly(env, runId, expected, events, issue);
    }
  }

  lemma {:induction false} MemoryAnswers(env: Envelope, streams: Streams, runId: JsString, expected: int,
      events: seq<Json>)
    ensures Answers(env, runId, expected, events, |StreamOf(streams, runId)|,
              MemoryAppend(env, streams, runId, expected, events).0)
  {
    hide SafeIdentifier, IssuesOf, IssueFits, CanonAll, Faulty;
    var length := |StreamOf(streams, runId)|;
    if expected == length - 1 {
      IssuesSilent(env, runId, expected, events);
      forall issue ensures issue in IssuesOf(env, runId, expected, events) <==>
          IssueFits(env, runId, length, events, issue) {
        IssuesExactly(env, runId, expected, events, issue);
      }
    }
  }

  // The answer to a read of a stream.
  ghost predicate ReadAnswers(runId: JsString, from: int, stream: seq<Json>, r: Result<seq<Json>, StoreError>) {
    if !SafeIdentifier(runId) then r == Err(UnsafeIdentifier)
    else if from < 0 || from > 9007199254740991 then r == Err(InvalidRequest)
    else r == Ok(if from <= |stream| then stream[from..] else [])
  }

  lemma {:induction false} MemoryReadAnswers(env: Envelope, streams: Streams, runId: JsString, from: int)
    requires StreamsOk(env, streams)
    ensures ReadAnswers(runId, from, StreamOf(streams, runId), MemoryRead(streams, runId, from))
  {
    hide SafeIdentifier, StreamsOk, Selected;
    if SafeIdentifier(runId) && 0 <= from <= MAX_SAFE {
      MemoryReadMeans(env, streams, runId, from);
    }
  }

  // The file store gives the same answers from the stream its file decodes to.
  lemma {:induction false} JsonlAnswers(env: Envelope, name: Naming, files: Files, streams: Streams, runId: JsString,
      expected: int, events: seq<Json>, from: int)
    requires GoodEnvelope(env) && CollisionFree(name) && Mirrors(env, name, files, streams) && StreamsOk(env, streams)
    ensures Answers(env, runId, expected, events, |StreamOf(streams, runId)|,
              JsonlAppend(env, name, files, runId, expected, events).0)
    ensures ReadAnswers(runId, from, StreamOf(streams, runId), JsonlRead(env, name, files, runId, from))
  {
    hide Answers, ReadAnswers, Mirrors, CollisionFree, GoodEnvelope, StreamsOk;
    AppendRefines(env, name, files, streams, runId, expected, events);
    MemoryAnswers(env, streams, runId, expected, events);
    ReadRefines(env, name, files, streams, runId, from);
    MemoryReadAnswers(env, streams, runId, from);
  }

  // A corrupt log is reported whatever the request asks for, once that is well formed.
  lemma {:induction false} CorruptAnswers(env: Envelope, name: Naming, files: Files, runId: JsString, expected: int,
      events: seq<Json>, from: int)
    requires SafeIdentifier(runId) && LoadFile(env, runId, FileAt(files, name(runId))) == None
    ensures -1 <= expected <= 9007199254740991 ==>
              JsonlAppend(env, name, files, runId, expected, events) == (Err(CorruptLog), files)
    ensures 0 <= from <= 9007199254740991 ==> JsonlRead(env, name, files, runId, from) == Err(CorruptLog)
  {
    hide SafeIdentifier, LoadFile;
  }
}
